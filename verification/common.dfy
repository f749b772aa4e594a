/** Small shared vocabulary: an optional value, 3-vectors over the reals and
    the world-object type tags that both the physics callbacks and the object
    registry dispatch on. */
module Optional {

  /** The model's stand-in for a nullable pointer or an absent record. */
  datatype Option<+T> = None | Some(value: T)
}

module Geometry {

  /** Lengths, speeds and inverse masses are never negative. */
  type NonNegReal = x: real | 0.0 <= x

  /** A point or direction in world space (z is up). */
  datatype Vec3 = Vec3(x: real, y: real, z: real) {
    function Plus(o: Vec3): Vec3 {
      Vec3(x + o.x, y + o.y, z + o.z)
    }
  }

  /** `std::min` on two values. */
  function Min(a: real, b: real): (r: real)
    ensures r <= a && r <= b
    ensures r == a || r == b
  {
    if b < a then b else a
  }

  /** `std::max` on two values. */
  function Max(a: real, b: real): (r: real)
    ensures a <= r && b <= r
    ensures r == a || r == b
  {
    if a < b then b else a
  }

  /** Absolute value, as `std::abs` on a float. */
  function Abs(a: real): (r: real)
    ensures 0.0 <= r
    ensures r == a || r == -a
  {
    if a < 0.0 then -a else a
  }
}

module WorldObjects {

  /** Identity of a world object (the object's address in the source). */
  type ObjectId = nat

  /** The type tag every world object reports through `type()`. */
  datatype ObjectKind = Instance | Vehicle | Character | Pickup | Cutscene
}
