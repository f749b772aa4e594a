/** Building a garage: normalising its box, finding its door objects among
    the placed instances and choosing the initial state by kind. */
module GarageConstruct {
  import opened Optional
  import opened Geometry
  import opened GarageTypes
  import opened GarageSpace
  import opened GarageMachine

  /** A placed instance as the door search sees it: whether it has a model,
      whether that model is a door model, where it stands, and the height of
      its model's collision bounding box. */
  datatype Candidate = Candidate(hasModel: bool, isDoorModel: bool, position: Vec3, collisionHeight: real)

  /** Initial values the garage's declaration gives its fields before the
      constructor body runs. */
  datatype Defaults = Defaults(
    doorHeight: real,
    step: real,
    active: bool,
    swingType: bool,
    resprayDone: bool,
    garageTimer: real)

  /** A door object for the garage: a door model within 20 units of the
      box's horizontal midpoint on both axes. */
  predicate IsDoorFor(midX: real, midY: real, c: Candidate) {
    && c.hasModel && c.isDoorModel
    && Abs(c.position.x - midX) < 20.0
    && Abs(c.position.y - midY) < 20.0
  }

  /** The candidates that qualify, in pool order. */
  function DoorsNear(midX: real, midY: real, cands: seq<Candidate>): (r: seq<Candidate>)
    ensures |r| <= |cands|
    ensures forall i :: 0 <= i < |r| ==> r[i] in cands && IsDoorFor(midX, midY, r[i])
    ensures forall i :: 0 <= i < |cands| && IsDoorFor(midX, midY, cands[i]) ==> cands[i] in r
    decreases |cands|
  {
    if |cands| == 0 then []
    else
      var last := cands[|cands| - 1];
      DoorsNear(midX, midY, cands[..|cands| - 1]) + (if IsDoorFor(midX, midY, last) then [last] else [])
  }

  /** Some instance of the pool qualifies as a door. */
  predicate HasDoor(midX: real, midY: real, cands: seq<Candidate>) {
    exists i :: 0 <= i < |cands| && IsDoorFor(midX, midY, cands[i])
  }

  /** At least two instances of the pool qualify. */
  predicate HasTwoDoors(midX: real, midY: real, cands: seq<Candidate>) {
    exists i, j :: 0 <= i < j < |cands| && IsDoorFor(midX, midY, cands[i]) && IsDoorFor(midX, midY, cands[j])
  }

  /** `i` is the pool index of the first qualifying instance. */
  predicate IsFirstDoorIndex(midX: real, midY: real, cands: seq<Candidate>, i: int) {
    && 0 <= i < |cands| && IsDoorFor(midX, midY, cands[i])
    && forall j :: 0 <= j < i ==> !IsDoorFor(midX, midY, cands[j])
  }

  /** `i` is the pool index of the last qualifying instance. */
  predicate IsLastDoorIndex(midX: real, midY: real, cands: seq<Candidate>, i: int) {
    && 0 <= i < |cands| && IsDoorFor(midX, midY, cands[i])
    && forall j :: i < j < |cands| ==> !IsDoorFor(midX, midY, cands[j])
  }

  /** The qualifying instances keep pool order at both ends: the list is
      non-empty exactly when some instance qualifies, it starts with the
      first qualifying instance of the pool and ends with the last, and it
      holds two or more exactly when two instances qualify. */
  lemma DoorsNearOrder(midX: real, midY: real, cands: seq<Candidate>)
    ensures var q := DoorsNear(midX, midY, cands);
      && (|q| > 0 <==> HasDoor(midX, midY, cands))
      && (|q| > 1 <==> HasTwoDoors(midX, midY, cands))
      && (forall i :: IsFirstDoorIndex(midX, midY, cands, i) ==> |q| > 0 && q[0] == cands[i])
      && (forall i :: IsLastDoorIndex(midX, midY, cands, i) ==> |q| > 0 && q[|q| - 1] == cands[i])
  {
    DoorsNearCount(midX, midY, cands);
    forall i | IsFirstDoorIndex(midX, midY, cands, i)
      ensures var q := DoorsNear(midX, midY, cands); |q| > 0 && q[0] == cands[i]
    {
      DoorsNearFirst(midX, midY, cands, i);
    }
    forall i | IsLastDoorIndex(midX, midY, cands, i)
      ensures var q := DoorsNear(midX, midY, cands); |q| > 0 && q[|q| - 1] == cands[i]
    {
      DoorsNearLast(midX, midY, cands, i);
    }
  }

  /** Dropping the last instance of the pool keeps the other indices. */
  lemma PrefixIndices(cands: seq<Candidate>)
    requires |cands| > 0
    ensures forall j :: 0 <= j < |cands| - 1 ==> cands[..|cands| - 1][j] == cands[j]
  {
  }

  /** Whether one, and whether two, instances qualify is read off the
      length of the list. */
  lemma DoorsNearCount(midX: real, midY: real, cands: seq<Candidate>)
    ensures var q := DoorsNear(midX, midY, cands);
      && (|q| > 0 <==> HasDoor(midX, midY, cands))
      && (|q| > 1 <==> HasTwoDoors(midX, midY, cands))
  {
    DoorsNearNonEmpty(midX, midY, cands);
    DoorsNearTwo(midX, midY, cands);
  }

  lemma {:induction false} DoorsNearNonEmpty(midX: real, midY: real, cands: seq<Candidate>)
    ensures |DoorsNear(midX, midY, cands)| > 0 <==> HasDoor(midX, midY, cands)
    decreases |cands|
  {
    if |cands| > 0 {
      var n := |cands|;
      var p := cands[..n - 1];
      DoorsNearNonEmpty(midX, midY, p);
      PrefixIndices(cands);
      if !IsDoorFor(midX, midY, cands[n - 1]) {
        if HasDoor(midX, midY, cands) {
          var i :| 0 <= i < n && IsDoorFor(midX, midY, cands[i]);
          assert IsDoorFor(midX, midY, p[i]);
        }
        if HasDoor(midX, midY, p) {
          var i :| 0 <= i < |p| && IsDoorFor(midX, midY, p[i]);
          assert IsDoorFor(midX, midY, cands[i]);
        }
      }
    }
  }

  lemma {:induction false} DoorsNearTwo(midX: real, midY: real, cands: seq<Candidate>)
    ensures |DoorsNear(midX, midY, cands)| > 1 <==> HasTwoDoors(midX, midY, cands)
    decreases |cands|
  {
    if |cands| > 0 {
      var p := cands[..|cands| - 1];
      DoorsNearTwo(midX, midY, p);
      if IsDoorFor(midX, midY, cands[|cands| - 1]) {
        DoorsNearNonEmpty(midX, midY, p);
        TwoDoorsWithLast(midX, midY, cands);
      } else {
        TwoDoorsWithoutLast(midX, midY, cands);
      }
    }
  }

  /** When the last instance qualifies, two qualify exactly when one of
      the others does. */
  lemma TwoDoorsWithLast(midX: real, midY: real, cands: seq<Candidate>)
    requires |cands| > 0 && IsDoorFor(midX, midY, cands[|cands| - 1])
    ensures HasTwoDoors(midX, midY, cands) <==> HasDoor(midX, midY, cands[..|cands| - 1])
  {
    var n := |cands|;
    var p := cands[..n - 1];
    PrefixIndices(cands);
    if HasDoor(midX, midY, p) {
      var i :| 0 <= i < |p| && IsDoorFor(midX, midY, p[i]);
      assert IsDoorFor(midX, midY, cands[i]) && IsDoorFor(midX, midY, cands[n - 1]);
    }
    if HasTwoDoors(midX, midY, cands) {
      var i, j :| 0 <= i < j < n && IsDoorFor(midX, midY, cands[i]) && IsDoorFor(midX, midY, cands[j]);
      assert IsDoorFor(midX, midY, p[i]);
    }
  }

  /** When the last instance does not qualify, two qualify exactly when two
      of the others do. */
  lemma TwoDoorsWithoutLast(midX: real, midY: real, cands: seq<Candidate>)
    requires |cands| > 0 && !IsDoorFor(midX, midY, cands[|cands| - 1])
    ensures HasTwoDoors(midX, midY, cands) <==> HasTwoDoors(midX, midY, cands[..|cands| - 1])
  {
    var n := |cands|;
    var p := cands[..n - 1];
    PrefixIndices(cands);
    if HasTwoDoors(midX, midY, cands) {
      var i, j :| 0 <= i < j < n && IsDoorFor(midX, midY, cands[i]) && IsDoorFor(midX, midY, cands[j]);
      assert IsDoorFor(midX, midY, p[i]) && IsDoorFor(midX, midY, p[j]);
    }
    if HasTwoDoors(midX, midY, p) {
      var i, j :| 0 <= i < j < |p| && IsDoorFor(midX, midY, p[i]) && IsDoorFor(midX, midY, p[j]);
      assert IsDoorFor(midX, midY, cands[i]) && IsDoorFor(midX, midY, cands[j]);
    }
  }

  /** The list starts with the first qualifying instance of the pool. */
  lemma {:induction false} DoorsNearFirst(midX: real, midY: real, cands: seq<Candidate>, i: int)
    requires IsFirstDoorIndex(midX, midY, cands, i)
    ensures var q := DoorsNear(midX, midY, cands); |q| > 0 && q[0] == cands[i]
    decreases |cands|
  {
    var n := |cands|;
    var p := cands[..n - 1];
    PrefixIndices(cands);
    if i < n - 1 {
      assert IsFirstDoorIndex(midX, midY, p, i);
      DoorsNearFirst(midX, midY, p, i);
    } else {
      DoorsNearCount(midX, midY, p);
      assert forall k :: 0 <= k < |p| ==> !IsDoorFor(midX, midY, p[k]);
    }
  }

  /** The list ends with the last qualifying instance of the pool. */
  lemma {:induction false} DoorsNearLast(midX: real, midY: real, cands: seq<Candidate>, i: int)
    requires IsLastDoorIndex(midX, midY, cands, i)
    ensures var q := DoorsNear(midX, midY, cands); |q| > 0 && q[|q| - 1] == cands[i]
    decreases |cands|
  {
    var n := |cands|;
    var p := cands[..n - 1];
    PrefixIndices(cands);
    if i < n - 1 {
      assert !IsDoorFor(midX, midY, cands[n - 1]);
      assert IsLastDoorIndex(midX, midY, p, i);
      DoorsNearLast(midX, midY, p, i);
    }
  }

  /** The source's scan of the instance pool: the first qualifying instance
      becomes the door, and every later one overwrites the second door, so
      the second door is the last qualifying instance. */
  method FindDoors(midX: real, midY: real, cands: seq<Candidate>)
    returns (first: Option<Candidate>, second: Option<Candidate>)
    ensures first == FirstDoor(midX, midY, cands) && second == SecondDoor(midX, midY, cands)
  {
    first := None;
    second := None;
    var i := 0;
    while i < |cands|
      invariant 0 <= i <= |cands|
      invariant var q := DoorsNear(midX, midY, cands[..i]);
        && first == (if |q| > 0 then Some(q[0]) else None)
        && second == (if |q| > 1 then Some(q[|q| - 1]) else None)
    {
      assert cands[..i + 1][..i] == cands[..i];
      var inst := cands[i];
      if inst.hasModel && inst.isDoorModel {
        var xDist := Abs(inst.position.x - midX);
        var yDist := Abs(inst.position.y - midY);
        if xDist < 20.0 && yDist < 20.0 {
          if first.None? {
            first := Some(inst);
          } else {
            second := Some(inst);
          }
        }
      }
      i := i + 1;
    }
    assert cands[..|cands|] == cands;
  }

  /** The initial door state: shops, the respray and the crusher start open,
      every mission, collection and hideout kind starts shut. */
  function InitialState(kind: GarageKind): (r: GarageState)
    ensures r in {Closed, Opened}
    ensures r == Closed <==> !(kind.IsBombShop() || kind == Respray || kind == Crusher)
  {
    match kind
    case BombShop1 | BombShop2 | BombShop3 | Respray | Crusher => Opened
    case _ => Closed
  }

  /** The door height the constructor settles on: the door model's collision
      height less 0.1 when a door was found, the declared default otherwise. */
  function DoorHeightFor(door: Option<Candidate>, defaults: Defaults): real {
    if door.Some? then door.value.collisionHeight - 0.1 else defaults.doorHeight
  }

  /** The first qualifying instance, which becomes the garage's door. */
  function FirstDoor(midX: real, midY: real, cands: seq<Candidate>): Option<Candidate> {
    var q := DoorsNear(midX, midY, cands);
    if |q| > 0 then Some(q[0]) else None
  }

  /** The second door: the last qualifying instance, when at least two
      qualify, since every qualifying instance after the first overwrites
      it. */
  function SecondDoor(midX: real, midY: real, cands: seq<Candidate>): Option<Candidate> {
    var q := DoorsNear(midX, midY, cands);
    if |q| > 1 then Some(q[|q| - 1]) else None
  }

  /** The door is the pool's first qualifying instance, and there is one
      exactly when some instance qualifies. */
  lemma FirstDoorIsFirstInPool(midX: real, midY: real, cands: seq<Candidate>)
    ensures FirstDoor(midX, midY, cands).Some? <==> HasDoor(midX, midY, cands)
    ensures forall i :: IsFirstDoorIndex(midX, midY, cands, i) ==> FirstDoor(midX, midY, cands) == Some(cands[i])
  {
    DoorsNearOrder(midX, midY, cands);
  }

  /** The second door is the pool's last qualifying instance, and there is
      one exactly when two instances qualify. */
  lemma SecondDoorIsLastInPool(midX: real, midY: real, cands: seq<Candidate>)
    ensures SecondDoor(midX, midY, cands).Some? <==> HasTwoDoors(midX, midY, cands)
    ensures forall i :: IsLastDoorIndex(midX, midY, cands, i) && HasTwoDoors(midX, midY, cands) ==>
      SecondDoor(midX, midY, cands) == Some(cands[i])
  {
    DoorsNearOrder(midX, midY, cands);
  }

  /** `step /= doorHeight`: a full traverse of the door takes
      `doorHeight / step` seconds of the declared rate. */
  function TravelRate(base: real, doorHeight: real): (r: real)
    requires doorHeight != 0.0
    ensures r * doorHeight == base
  {
    base / doorHeight
  }

  /** The garage the constructor body assembles from its box, the doors it
      found and the declared defaults, with the doors placed for the initial
      travel. */
  function Assemble(id: nat, kind: GarageKind, b: Box, first: Option<Candidate>, second: Option<Candidate>,
                    defaults: Defaults): (g: Garage)
    requires DoorHeightFor(first, defaults) != 0.0
    ensures GarageBox(g) == b && g.id == id && g.kind == kind
    ensures g.state == InitialState(kind) && g.fraction == (if g.state == Closed then 0.0 else 1.0)
    ensures g.doorHeight == DoorHeightFor(first, defaults) && g.step * g.doorHeight == defaults.step
    ensures g.active == defaults.active && g.swingType == defaults.swingType
    ensures g.resprayDone == defaults.resprayDone && g.garageTimer == defaults.garageTimer
    ensures g.door.Some? <==> first.Some?
    ensures first.Some? ==> g.door.value.start == first.value.position
    ensures g.secondDoor.Some? <==> first.Some? && second.Some?
    ensures first.Some? && second.Some? ==> g.secondDoor.value.start == second.value.position
    ensures DoorsFollowTravel(g)
  {
    var doorHeight := DoorHeightFor(first, defaults);
    var state := InitialState(kind);
    var g0 := Garage(id, kind, b.min, b.max, state, if state == Closed then 0.0 else 1.0,
                     TravelRate(defaults.step, doorHeight), doorHeight,
                     defaults.swingType, defaults.active, defaults.resprayDone, defaults.garageTimer,
                     None, None);
    if first.None? then g0
    else
      var door := Door(first.value.position, first.value.position, None);
      var secondDoor := if second.Some? then Some(Door(second.value.position, second.value.position, None)) else None;
      UpdateDoor(g0.(door := Some(door), secondDoor := secondDoor))
  }

  /** The garage constructor. */
  method Construct(id: nat, c0: Vec3, c1: Vec3, kind: GarageKind, cands: seq<Candidate>, defaults: Defaults)
    returns (g: Garage)
    requires var b := BoxFromCorners(c0, c1);
      DoorHeightFor(FirstDoor(MidX(b), MidY(b), cands), defaults) != 0.0
    ensures GarageBox(g) == BoxFromCorners(c0, c1) && Normalised(GarageBox(g))
    ensures g.id == id && g.kind == kind
    ensures g.state == Closed <==> !(kind.IsBombShop() || kind == Respray || kind == Crusher)
    ensures g.state in {Closed, Opened}
    ensures g.fraction == (if g.state == Closed then 0.0 else 1.0)
    ensures TravelInvariant(g)
    ensures g.step * g.doorHeight == defaults.step
    ensures g.active == defaults.active && g.swingType == defaults.swingType
    ensures g.resprayDone == defaults.resprayDone && g.garageTimer == defaults.garageTimer
    ensures var b := BoxFromCorners(c0, c1);
      var q := DoorsNear(MidX(b), MidY(b), cands);
      && (g.door.Some? <==> |q| > 0)
      && (g.secondDoor.Some? <==> |q| > 1)
      && (|q| > 0 ==> g.door.value.start == q[0].position && g.doorHeight == q[0].collisionHeight - 0.1)
      && (|q| > 1 ==> g.secondDoor.value.start == q[|q| - 1].position)
      && (|q| == 0 ==> g.doorHeight == defaults.doorHeight)
    ensures DoorsFollowTravel(g)
  {
    var b := BoxFromCorners(c0, c1);
    var first, second := FindDoors(MidX(b), MidY(b), cands);
    g := Assemble(id, kind, b, first, second, defaults);
    ghost var q := DoorsNear(MidX(b), MidY(b), cands);
    assert |q| > 0 ==> first == Some(q[0]);
    assert |q| > 1 ==> second == Some(q[|q| - 1]);
  }

  function MidX(b: Box): real {
    (b.min.x + b.max.x) / 2.0
  }

  function MidY(b: Box): real {
    (b.min.y + b.max.y) / 2.0
  }
}
