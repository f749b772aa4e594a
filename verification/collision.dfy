/** The two decisions the world makes inside the physics step: whether a
    colliding pair gets a physical response at all (the uproot veto) and
    which damage events a finished contact delivers (uprooting and vehicle
    impacts). Bodies are records of what the callbacks read. */
module Collision {
  import opened Optional
  import opened Geometry
  import opened WorldObjects

  /** Dynamics data of a placed instance: the impulse per unit mass needed
      before the instance may be knocked loose. */
  datatype Dynamics = Dynamics(uprootForce: real)

  /** The world object behind a body's user pointer. */
  datatype Attached = Attached(kind: ObjectKind, dynamics: Option<Dynamics>)

  /** A physics body: its user pointer (`None` for a null pointer), whether
      the engine treats it as static, the length of its linear velocity and
      its inverse mass. */
  datatype Body = Body(user: Option<Attached>, isStatic: bool, speed: NonNegReal, invMass: NonNegReal)

  /** A float quotient of non-negative numbers: finite, +infinity (positive
      over zero) or NaN (zero over zero). */
  datatype Magnitude = Finite(value: real) | Infinite | NotANumber

  /** `speed / invMass` with float semantics. */
  function ImpulsePerMass(speed: NonNegReal, invMass: NonNegReal): (m: Magnitude)
    ensures m.Finite? <==> invMass != 0.0
    ensures m.Finite? ==> 0.0 <= m.value && m.value * invMass == speed
    ensures m == NotANumber <==> invMass == 0.0 && speed == 0.0
  {
    if invMass != 0.0 then Finite(speed / invMass)
    else if speed != 0.0 then Infinite
    else NotANumber
  }

  /** `threshold <= m` as a float comparison: always true against +infinity,
      always false against NaN. */
  predicate AtLeast(threshold: real, m: Magnitude) {
    match m
    case Finite(v) => threshold <= v
    case Infinite => true
    case NotANumber => false
  }

  datatype Side = A | B {
    function Other(): Side {
      if this == A then B else A
    }
  }

  function Pick(s: Side, a: Body, b: Body): Body {
    if s == A then a else b
  }

  predicate IsInstance(b: Body) {
    b.user.Some? && b.user.value.kind == Instance
  }

  /** Both user pointers are set. */
  predicate BothAttached(a: Body, b: Body) {
    a.user.Some? && b.user.Some?
  }

  /** The side holding the instance when exactly one side is an instance. */
  function InstanceSide(a: Body, b: Body): (s: Option<Side>)
    ensures s.Some? <==> IsInstance(a) != IsInstance(b)
    ensures s.Some? ==> IsInstance(Pick(s.value, a, b)) && !IsInstance(Pick(s.value.Other(), a, b))
  {
    var valA := IsInstance(a);
    var valB := IsInstance(b);
    if !(valA && valB) && (valB || valA) then
      if valA then Some(A) else Some(B)
    else None
  }

  /** An instance that can be uprooted: it has dynamics data and its body
      is static. */
  predicate Uprootable(inst: Body) {
    inst.user.Some? && inst.user.value.dynamics.Some? && inst.isStatic
  }

  function UprootForce(inst: Body): real
    requires Uprootable(inst)
  {
    inst.user.value.dynamics.value.uprootForce
  }

  /** Reference statement of the uproot condition, symmetric in the two
      bodies: both are attached, one side is the only instance, it is
      uprootable, and the other body's impulse per unit mass reaches the
      instance's uproot force. */
  ghost predicate UprootCondition(a: Body, b: Body) {
    && BothAttached(a, b)
    && exists s: Side ::
         var inst := Pick(s, a, b);
         var other := Pick(s.Other(), a, b);
         && IsInstance(inst) && !IsInstance(other)
         && Uprootable(inst)
         && AtLeast(UprootForce(inst), ImpulsePerMass(other.speed, other.invMass))
  }

  /** `WorldCollisionDispatcher::needsResponse`. `engineDefault` is what the
      physics engine's own dispatcher answers for the pair. The response is
      vetoed when the instance is about to be uprooted. */
  function NeedsResponse(a: Body, b: Body, engineDefault: bool): (r: bool)
    ensures r == (engineDefault && !UprootCondition(a, b))
  {
    if !BothAttached(a, b) then engineDefault
    else match InstanceSide(a, b)
      case None => engineDefault
      case Some(s) =>
        var inst := Pick(s, a, b);
        var other := Pick(s.Other(), a, b);
        if !Uprootable(inst) then engineDefault
        else if AtLeast(UprootForce(inst), ImpulsePerMass(other.speed, other.invMass)) then false
        else engineDefault
  }

  /** The veto does not depend on the order in which the engine hands the
      pair over. */
  lemma NeedsResponseSymmetric(a: Body, b: Body, engineDefault: bool)
    ensures NeedsResponse(a, b, engineDefault) == NeedsResponse(b, a, engineDefault)
  {
  }

  /** A pair with a missing user pointer, or two instances, or no instance,
      always gets the engine's answer. */
  lemma NoVetoWithoutSingleInstance(a: Body, b: Body, engineDefault: bool)
    requires !BothAttached(a, b) || IsInstance(a) == IsInstance(b)
    ensures NeedsResponse(a, b, engineDefault) == engineDefault
  {
  }

  // ---------------------------------------------------------------------------
  // Contact damage

  datatype DamageCause = Bullet | Physics | Explosion

  /** A damage event: where it lands, where it came from, its cause and its
      amount. */
  datatype DamageEvent = DamageEvent(location: Vec3, source: Vec3, cause: DamageCause, amount: Magnitude)

  /** A finished contact point: the impulse the solver applied and the
      contact position on each body. */
  datatype ContactPoint = ContactPoint(appliedImpulse: real, onA: Vec3, onB: Vec3)

  function PointOn(mp: ContactPoint, s: Side): Vec3 {
    if s == A then mp.onA else mp.onB
  }

  /** The impulse a vehicle contact must exceed before it hurts the vehicle. */
  const VehicleDamageThreshold: real := 100.0

  /** `handleVehicleResponse` for the object on side `s`: a vehicle hit
      harder than the threshold takes physics damage equal to the applied
      impulse, located at its own contact point and sourced at the other's. */
  function HandleVehicleResponse(obj: Attached, mp: ContactPoint, s: Side): (r: Option<DamageEvent>)
    ensures r.Some? <==> obj.kind == Vehicle && mp.appliedImpulse > VehicleDamageThreshold
    ensures r.Some? ==> r.value.cause == Physics && r.value.amount == Finite(mp.appliedImpulse)
    ensures r.Some? ==> r.value.location == PointOn(mp, s) && r.value.source == PointOn(mp, s.Other())
  {
    if obj.kind != Vehicle then None
    else if mp.appliedImpulse <= 100.0 then None
    else
      var isA := s == A;
      var src := if isA then mp.onB else mp.onA;
      var dmg := if isA then mp.onA else mp.onB;
      Some(DamageEvent(dmg, src, Physics, Finite(mp.appliedImpulse)))
  }

  /** A damage event addressed to the object on one side of the contact. */
  datatype Delivery = Delivery(target: Side, event: DamageEvent)

  /** What `ContactProcessedCallback` does with one contact: the value it
      returns to the engine and the damage it delivers, by path. */
  datatype ContactOutcome = ContactOutcome(
    handled: bool,
    uproot: Option<Delivery>,
    vehicleA: Option<DamageEvent>,
    vehicleB: Option<DamageEvent>)
  {
    /** The deliveries in the order the callback makes them. */
    function Deliveries(): seq<Delivery> {
      (if uproot.Some? then [uproot.value] else [])
      + (if vehicleA.Some? then [Delivery(A, vehicleA.value)] else [])
      + (if vehicleB.Some? then [Delivery(B, vehicleB.value)] else [])
    }
  }

  /** The uprooting damage path, run when both pointers are set. */
  function UprootDamage(mp: ContactPoint, a: Body, b: Body): (r: Option<Delivery>)
    requires BothAttached(a, b)
    ensures r.Some? <==> UprootCondition(a, b)
    ensures r.Some? ==> var s := r.value.target;
      var other := Pick(s.Other(), a, b);
      && IsInstance(Pick(s, a, b))
      && r.value.event == DamageEvent(PointOn(mp, s), PointOn(mp, s.Other()), Physics,
                                      ImpulsePerMass(other.speed, other.invMass))
  {
    match InstanceSide(a, b)
    case None => None
    case Some(s) =>
      var inst := Pick(s, a, b);
      var other := Pick(s.Other(), a, b);
      var src := if s == A then mp.onB else mp.onA;
      var dmg := if s == A then mp.onA else mp.onB;
      if Uprootable(inst) then
        var impulse := ImpulsePerMass(other.speed, other.invMass);
        if AtLeast(UprootForce(inst), impulse) then
          Some(Delivery(s, DamageEvent(dmg, src, Physics, impulse)))
        else None
      else None
  }

  /** `GameWorld::ContactProcessedCallback`. */
  function ContactProcessed(mp: ContactPoint, a: Body, b: Body): (r: ContactOutcome)
    ensures r.handled <==> BothAttached(a, b)
    ensures !r.handled ==> r.Deliveries() == []
    ensures r.handled ==> r.vehicleA == HandleVehicleResponse(a.user.value, mp, A)
    ensures r.handled ==> r.vehicleB == HandleVehicleResponse(b.user.value, mp, B)
    ensures r.uproot.Some? <==> UprootCondition(a, b)
    ensures r.handled ==> r.uproot == UprootDamage(mp, a, b)
  {
    if !BothAttached(a, b) then ContactOutcome(false, None, None, None)
    else
      ContactOutcome(true, UprootDamage(mp, a, b),
                     HandleVehicleResponse(a.user.value, mp, A),
                     HandleVehicleResponse(b.user.value, mp, B))
  }

  /** The veto and the damage agree: for the same bodies with both pointers
      set, the uprooting damage is delivered exactly when the response is
      vetoed (taking the engine's default as a response). */
  lemma VetoMatchesUprootDamage(mp: ContactPoint, a: Body, b: Body)
    requires BothAttached(a, b)
    ensures ContactProcessed(mp, a, b).uproot.Some? <==> !NeedsResponse(a, b, true)
  {
  }

  /** The uproot damage is addressed to the instance, its amount is the
      impulse per mass that triggered the veto, and it sits at the instance's
      own contact point with the other body's point as its source. */
  lemma UprootDamageContents(mp: ContactPoint, a: Body, b: Body)
    requires BothAttached(a, b) && IsInstance(a) && !IsInstance(b) && Uprootable(a)
    requires AtLeast(UprootForce(a), ImpulsePerMass(b.speed, b.invMass))
    ensures ContactProcessed(mp, a, b).uproot ==
      Some(Delivery(A, DamageEvent(mp.onA, mp.onB, Physics, ImpulsePerMass(b.speed, b.invMass))))
  {
  }

  /** Two vehicles colliding hard enough are both damaged by one contact,
      each at its own contact point. */
  lemma BothVehiclesDamaged(mp: ContactPoint, a: Body, b: Body)
    requires BothAttached(a, b)
    requires a.user.value.kind == Vehicle && b.user.value.kind == Vehicle
    requires mp.appliedImpulse > VehicleDamageThreshold
    ensures var r := ContactProcessed(mp, a, b);
      && r.uproot.None?
      && r.Deliveries() == [Delivery(A, DamageEvent(mp.onA, mp.onB, Physics, Finite(mp.appliedImpulse))),
                            Delivery(B, DamageEvent(mp.onB, mp.onA, Physics, Finite(mp.appliedImpulse)))]
  {
  }

  /** The documented scenario: a vehicle hit with impulse 150 by a
      non-instance, non-vehicle body receives exactly one physics damage
      event of amount 150; with impulse exactly 100 nothing is delivered. */
  lemma VehicleImpactScenario(mp: ContactPoint, a: Body, b: Body)
    requires BothAttached(a, b)
    requires a.user.value.kind == Vehicle && b.user.value.kind == Character
    ensures mp.appliedImpulse == 150.0 ==>
      ContactProcessed(mp, a, b).Deliveries() == [Delivery(A, DamageEvent(mp.onA, mp.onB, Physics, Finite(150.0)))]
    ensures mp.appliedImpulse == 100.0 ==> ContactProcessed(mp, a, b).Deliveries() == []
  {
  }
}
