/** The spatial side of a garage: its box, the horizontal distance from a
    point to the box and the test whether an object (origin plus collision
    spheres) is inside the box. */
module GarageSpace {
  import opened Optional
  import opened Geometry
  import opened GarageTypes

  /** Corners of a garage box. */
  datatype Box = Box(min: Vec3, max: Vec3)

  /** A box is normalised when `min` is below `max` on every axis. */
  predicate Normalised(b: Box) {
    b.min.x <= b.max.x && b.min.y <= b.max.y && b.min.z <= b.max.z
  }

  /** Inclusive containment of a point, all six face comparisons. */
  predicate ContainsPoint(b: Box, p: Vec3) {
    && b.min.x <= p.x <= b.max.x
    && b.min.y <= p.y <= b.max.y
    && b.min.z <= p.z <= b.max.z
  }

  /** The box the garage builds from any two opposite corners: the
      componentwise minimum and maximum. */
  function BoxFromCorners(c0: Vec3, c1: Vec3): (b: Box)
    ensures Normalised(b)
    ensures ContainsPoint(b, c0) && ContainsPoint(b, c1)
    ensures b.min.x in {c0.x, c1.x} && b.min.y in {c0.y, c1.y} && b.min.z in {c0.z, c1.z}
    ensures b.max.x in {c0.x, c1.x} && b.max.y in {c0.y, c1.y} && b.max.z in {c0.z, c1.z}
  {
    Box(Vec3(Min(c0.x, c1.x), Min(c0.y, c1.y), Min(c0.z, c1.z)),
        Vec3(Max(c0.x, c1.x), Max(c0.y, c1.y), Max(c0.z, c1.z)))
  }

  /** The box is the smallest one holding both corners, so the order in
      which the corners are given does not matter. */
  lemma BoxFromCornersSymmetric(c0: Vec3, c1: Vec3)
    ensures BoxFromCorners(c0, c1) == BoxFromCorners(c1, c0)
    ensures forall b: Box :: ContainsPoint(b, c0) && ContainsPoint(b, c1) ==>
      ContainsPoint(b, BoxFromCorners(c0, c1).min) && ContainsPoint(b, BoxFromCorners(c0, c1).max)
  {
  }

  function GarageBox(g: Garage): Box {
    Box(g.min, g.max)
  }

  /** How far `v` lies outside `[lo, hi]`, zero when inside: the three-way
      `std::max` of the source. */
  function Overhang(lo: real, v: real, hi: real): (d: real)
    ensures 0.0 <= d
    ensures d == 0.0 <==> lo <= v <= hi
    ensures v < lo ==> d >= lo - v
    ensures hi < v ==> d >= v - hi
  {
    Max(Max(lo - v, 0.0), v - hi)
  }

  /** The square of the garage's distance to `p` in the horizontal plane.
      The source takes the square root of this value; the model keeps the
      square and compares it against squared thresholds. The vertical axis is
      ignored on purpose. */
  function DistanceSquared(b: Box, p: Vec3): (r: real)
    ensures 0.0 <= r
    ensures b.min.x <= p.x <= b.max.x && b.min.y <= p.y <= b.max.y ==> r == 0.0
    ensures !(b.min.x <= p.x <= b.max.x && b.min.y <= p.y <= b.max.y) ==> 0.0 < r
  {
    var dx := Overhang(b.min.x, p.x, b.max.x);
    var dy := Overhang(b.min.y, p.y, b.max.y);
    SquareSumSign(dx, dy);
    Product(dx, dx) + Product(dy, dy)
  }

  /** Real multiplication, kept behind a function so that the solver reasons
      about squares through the two lemmas below. */
  function Product(a: real, b: real): real {
    a * b
  }

  lemma ProductPos(a: real, b: real)
    requires 0.0 < a && 0.0 < b
    ensures 0.0 < Product(a, b)
  {
  }

  lemma ProductOfNegations(a: real, b: real)
    ensures Product(-a, -b) == Product(a, b)
  {
  }

  lemma SquareSumSign(a: real, b: real)
    requires 0.0 <= a && 0.0 <= b
    ensures 0.0 <= Product(a, a) + Product(b, b)
    ensures 0.0 < a || 0.0 < b ==> 0.0 < Product(a, a) + Product(b, b)
  {
    if 0.0 < a {
      ProductPos(a, a);
    }
    if 0.0 < b {
      ProductPos(b, b);
    }
  }

  /** The distance is zero exactly when the point is over the box's
      horizontal rectangle, whatever its height. */
  lemma DistanceZeroIffOverBox(b: Box, p: Vec3)
    ensures DistanceSquared(b, p) == 0.0 <==> b.min.x <= p.x <= b.max.x && b.min.y <= p.y <= b.max.y
  {
  }

  /** The distance does not depend on the height of the point. */
  lemma DistanceIgnoresHeight(b: Box, p: Vec3, z: real)
    ensures DistanceSquared(b, p) == DistanceSquared(b, Vec3(p.x, p.y, z))
  {
  }

  /** `v` clamped into `[lo, hi]`: the nearest value of the interval. */
  function Clamp(lo: real, v: real, hi: real): real
    requires lo <= hi
  {
    if v < lo then lo else if hi < v then hi else v
  }

  /** On a normalised box the distance is the Euclidean distance from `p` to
      the nearest point of the box's horizontal rectangle. */
  lemma DistanceIsToNearestPoint(b: Box, p: Vec3)
    requires Normalised(b)
    ensures var qx := Clamp(b.min.x, p.x, b.max.x);
            var qy := Clamp(b.min.y, p.y, b.max.y);
            DistanceSquared(b, p) == Product(p.x - qx, p.x - qx) + Product(p.y - qy, p.y - qy)
  {
    var qx := Clamp(b.min.x, p.x, b.max.x);
    var qy := Clamp(b.min.y, p.y, b.max.y);
    SquareOfGap(b.min.x, p.x, b.max.x);
    SquareOfGap(b.min.y, p.y, b.max.y);
  }

  lemma SquareOfGap(lo: real, v: real, hi: real)
    requires lo <= hi
    ensures var d := Overhang(lo, v, hi);
            var q := Clamp(lo, v, hi);
            Product(d, d) == Product(v - q, v - q)
  {
    var d := Overhang(lo, v, hi);
    var q := Clamp(lo, v, hi);
    if v < lo {
      assert d == -(v - q);
      ProductOfNegations(v - q, v - q);
    } else {
      assert d == v - q;
    }
  }

  /** `d < limit` for the true distance `d`, stated on its square: for a
      positive limit and `d >= 0` the two comparisons agree. */
  predicate Nearer(b: Box, p: Vec3, limit: real)
    requires 0.0 < limit
  {
    DistanceSquared(b, p) < limit * limit
  }

  /** A sphere reaches the box on one axis when its extent `[c - r, c + r]`
      meets the box's extent on that axis. */
  predicate ReachesOnAxis(lo: real, c: real, r: real, hi: real) {
    c - r <= hi && lo <= c + r
  }

  /** Reference definition of the containment test: the origin is inside
      the box and every collision sphere, moved to the origin, reaches the box
      on all three axes. A sphere that merely pokes out of the box still
      counts as inside. */
  ghost predicate InsideSpec(b: Box, o: ObjectView) {
    && ContainsPoint(b, o.position)
    && (o.collision.Some? ==>
         forall i :: 0 <= i < |o.collision.value| ==>
           var s := o.collision.value[i];
           var c := o.position.Plus(s.center);
           && ReachesOnAxis(b.min.x, c.x, s.radius, b.max.x)
           && ReachesOnAxis(b.min.y, c.y, s.radius, b.max.y)
           && ReachesOnAxis(b.min.z, c.z, s.radius, b.max.z))
  }

  /** One sphere of the loop in the source: it rejects the object when it lies
      wholly beyond some face of the box. */
  predicate SphereBeyondFace(b: Box, p: Vec3, s: Sphere) {
    var c := p.Plus(s.center);
    var r := s.radius;
    || c.x + r < b.min.x
    || c.y + r < b.min.y
    || c.z + r < b.min.z
    || c.x - r > b.max.x
    || c.y - r > b.max.y
    || c.z - r > b.max.z
  }

  /** The source's test: six early returns on the origin, then a scan of the
      collision spheres that returns false at the first sphere wholly beyond
      a face. */
  function IsObjectInside(b: Box, o: ObjectView): (r: bool)
    ensures r <==> InsideSpec(b, o)
  {
    var p := o.position;
    if p.x < b.min.x || p.y < b.min.y || p.z < b.min.z then false
    else if p.x > b.max.x || p.y > b.max.y || p.z > b.max.z then false
    else match o.collision
      case None => true
      case Some(spheres) =>
        var r := NoSphereBeyondFace(b, p, spheres);
        assert r <==> InsideSpec(b, o);
        r
  }

  /** The sphere loop, first sphere first. */
  function NoSphereBeyondFace(b: Box, p: Vec3, spheres: seq<Sphere>): (r: bool)
    ensures r <==> forall i :: 0 <= i < |spheres| ==>
      var s := spheres[i];
      var c := p.Plus(s.center);
      && ReachesOnAxis(b.min.x, c.x, s.radius, b.max.x)
      && ReachesOnAxis(b.min.y, c.y, s.radius, b.max.y)
      && ReachesOnAxis(b.min.z, c.z, s.radius, b.max.z)
    decreases |spheres|
  {
    if |spheres| == 0 then true
    else if SphereBeyondFace(b, p, spheres[0]) then false
    else
      var rest := NoSphereBeyondFace(b, p, spheres[1..]);
      assert forall i :: 1 <= i < |spheres| ==> spheres[i] == spheres[1..][i - 1];
      rest
  }

  /** The origin test is necessary. */
  lemma OriginOutsideRejects(b: Box, o: ObjectView)
    requires !ContainsPoint(b, o.position)
    ensures !IsObjectInside(b, o)
  {
  }

  /** Without collision data the test is the origin test alone. */
  lemma NoCollisionIsOriginTest(b: Box, o: ObjectView)
    requires o.collision.None?
    ensures IsObjectInside(b, o) <==> ContainsPoint(b, o.position)
  {
  }

  /** A sphere poking out of the box does not reject the object: with the
      origin inside and every sphere centre inside, any non-negative radii
      are accepted. */
  lemma PokingSpheresAccepted(b: Box, o: ObjectView)
    requires ContainsPoint(b, o.position)
    requires o.collision.Some?
    requires forall i :: 0 <= i < |o.collision.value| ==>
      0.0 <= o.collision.value[i].radius
      && ContainsPoint(b, o.position.Plus(o.collision.value[i].center))
    ensures IsObjectInside(b, o)
  {
  }

  /** A sphere wholly beyond one face rejects the object, wherever the
      origin is. */
  lemma DetachedSphereRejects(b: Box, o: ObjectView, i: nat)
    requires o.collision.Some? && i < |o.collision.value|
    requires SphereBeyondFace(b, o.position, o.collision.value[i])
    ensures !IsObjectInside(b, o)
  {
  }
}
