/** The garage door state machine: the per-frame tick, the door events it
    fires, the forced transitions scripts use and the one-way swing upgrade. */
module GarageMachine {
  import opened Optional
  import opened Geometry
  import opened GarageTypes
  import opened GarageSpace
  import opened GarageTriggers

  // ---------------------------------------------------------------------------
  // Door geometry

  /** Where one door object stands for the garage's current travel: raised
      from its start position by `fraction * doorHeight`, and on swing doors
      also turned by `fraction * 90` degrees about the y axis. */
  function PlaceDoor(d: Door, fraction: real, doorHeight: real, swing: bool): (r: Door)
    ensures r.start == d.start
    ensures r.position.x == d.start.x && r.position.y == d.start.y
    ensures fraction == 0.0 ==> r.position == d.start
    ensures fraction == 1.0 ==> r.position.z == d.start.z + doorHeight
    ensures swing ==> r.swingDegrees.Some?
    ensures !swing ==> r.swingDegrees == d.swingDegrees
  {
    Door(d.start,
         d.start.Plus(Vec3(0.0, 0.0, fraction * doorHeight)),
         if swing then Some(fraction * 90.0) else d.swingDegrees)
  }

  /** `updateDoor`: both door objects follow the same travel. */
  function UpdateDoor(g: Garage): (r: Garage)
    requires g.door.Some?
    ensures r.(door := g.door, secondDoor := g.secondDoor) == g
    ensures r.door.Some? && r.secondDoor.Some? == g.secondDoor.Some?
    ensures r.door.value.start == g.door.value.start
    ensures g.secondDoor.Some? ==> r.secondDoor.value.start == g.secondDoor.value.start
    ensures DoorsFollowTravel(r)
  {
    g.(door := Some(PlaceDoor(g.door.value, g.fraction, g.doorHeight, g.swingType)),
       secondDoor :=
         if g.secondDoor.Some?
         then Some(PlaceDoor(g.secondDoor.value, g.fraction, g.doorHeight, g.swingType))
         else None)
  }

  /** The doors stand where the travel puts them: each is lifted from its
      start by the same vertical offset, and on swing doors both are turned
      by the same angle. */
  predicate DoorsFollowTravel(g: Garage) {
    && (g.door.Some? ==> DoorAt(g.door.value, g))
    && (g.secondDoor.Some? ==> DoorAt(g.secondDoor.value, g))
  }

  predicate DoorAt(d: Door, g: Garage) {
    && d.position == Vec3(d.start.x, d.start.y, d.start.z + g.fraction * g.doorHeight)
    && (g.swingType ==> d.swingDegrees == Some(g.fraction * 90.0))
  }

  /** Updating the doors twice is the same as updating them once. */
  lemma UpdateDoorIdempotent(g: Garage)
    requires g.door.Some?
    ensures UpdateDoor(UpdateDoor(g)) == UpdateDoor(g)
  {
    PlaceDoorIdempotent(g.door.value, g.fraction, g.doorHeight, g.swingType);
    if g.secondDoor.Some? {
      PlaceDoorIdempotent(g.secondDoor.value, g.fraction, g.doorHeight, g.swingType);
    }
  }

  /** Placing a door depends only on its start, so placing it again for the
      same travel changes nothing. */
  lemma PlaceDoorIdempotent(d: Door, fraction: real, doorHeight: real, swing: bool)
    ensures PlaceDoor(PlaceDoor(d, fraction, doorHeight, swing), fraction, doorHeight, swing)
         == PlaceDoor(d, fraction, doorHeight, swing)
  {
  }

  /** A higher travel never lowers a door (for a non-negative door height). */
  lemma DoorRisesWithTravel(d: Door, f1: real, f2: real, h: real, swing: bool)
    requires f1 <= f2 && 0.0 <= h
    ensures PlaceDoor(d, f1, h, swing).position.z <= PlaceDoor(d, f2, h, swing).position.z
  {
    ProductMonotone(f1, f2, h);
  }

  lemma ProductMonotone(a: real, b: real, c: real)
    requires a <= b && 0.0 <= c
    ensures a * c <= b * c
  {
  }

  // ---------------------------------------------------------------------------
  // Door events

  /** `doOnStartOpeningEvent`. */
  function OnStartOpening(g: Garage): (s: Step)
    ensures s.garage == g.(resprayDone := s.garage.resprayDone)
    ensures s.garage.resprayDone == (g.resprayDone || g.kind == Respray)
    ensures g.kind.IsCollectCars() ==> s.effects == [SetInputEnabled(true)]
    ensures g.kind.IsBombShop() || g.kind == Respray ==>
      s.effects == [SetInputEnabled(true), SetHandbraking(false)]
    ensures !(g.kind.IsCollectCars() || g.kind.IsBombShop() || g.kind == Respray) ==>
      s.effects == []
  {
    match g.kind
    case CollectCars1 | CollectCars2 => Step(g, [SetInputEnabled(true)])
    case BombShop1 | BombShop2 | BombShop3 => Step(g, [SetInputEnabled(true), SetHandbraking(false)])
    case Respray => Step(g.(resprayDone := true), [SetInputEnabled(true), SetHandbraking(false)])
    case _ => Step(g, [])
  }

  /** `doOnStartClosingEvent`. */
  function OnStartClosing(g: Garage): (s: Step)
    ensures s.garage == g
    ensures g.kind == Mission || g.kind.IsCollectCars() ==> s.effects == [SetInputEnabled(false)]
    ensures g.kind.IsBombShop() || g.kind == Respray ==>
      s.effects == [SetInputEnabled(false), SetHandbraking(true)]
    ensures !(g.kind == Mission || g.kind.IsCollectCars() || g.kind.IsBombShop() || g.kind == Respray) ==>
      s.effects == []
  {
    match g.kind
    case Mission | CollectCars1 | CollectCars2 => Step(g, [SetInputEnabled(false)])
    case BombShop1 | BombShop2 | BombShop3 | Respray => Step(g, [SetInputEnabled(false), SetHandbraking(true)])
    case _ => Step(g, [])
  }

  /** `doOnOpenEvent`: no kind does anything yet. */
  function OnOpen(g: Garage): (s: Step)
    ensures s == Step(g, [])
  {
    Step(g, [])
  }

  /** `doOnCloseEvent`: mission garages give control back, shops arm their
      cool-down timer, the respray shop also repairs the vehicle. */
  function OnClose(g: Garage, now: real): (s: Step)
    ensures s.garage == g.(garageTimer := s.garage.garageTimer)
    ensures g.kind.IsBombShop() ==> s.garage.garageTimer == now + 1.5 && s.effects == []
    ensures g.kind == Respray ==>
      s.garage.garageTimer == now + 2.0 && s.effects == [SetVehicleHealth(1000.0)]
    ensures g.kind == Mission ==> s == Step(g, [SetInputEnabled(true)])
    ensures !(g.kind.IsBombShop() || g.kind == Respray || g.kind == Mission) ==> s == Step(g, [])
  {
    match g.kind
    case Mission => Step(g, [SetInputEnabled(true)])
    case BombShop1 | BombShop2 | BombShop3 => Step(g.(garageTimer := now + 1.5), [])
    case Respray => Step(g.(garageTimer := now + 2.0), [SetVehicleHealth(1000.0)])
    case _ => Step(g, [])
  }

  // ---------------------------------------------------------------------------
  // Tick

  /** The states one tick can reach from `s`. */
  function Successors(s: GarageState): set<GarageState> {
    match s
    case Closed => {Closed, Opening}
    case Opened => {Opened, Closing}
    case Opening => {Opening, Opened, Closing}
    case Closing => {Closing, Closed, Opening}
  }

  /** The fields a tick never changes. */
  predicate SameFixture(g: Garage, h: Garage) {
    && h.id == g.id && h.kind == g.kind && h.min == g.min && h.max == g.max
    && h.step == g.step && h.doorHeight == g.doorHeight && h.swingType == g.swingType
    && h.active == g.active && h.door.Some? == g.door.Some? && h.secondDoor.Some? == g.secondDoor.Some?
  }

  /** The door travelled this tick: it was moving, with a door and active,
      and did not reverse. Only then does a tick place the doors. */
  predicate DoorTravelled(g: Garage, h: Garage) {
    && g.door.Some? && g.active
    && (|| (g.state == Opening && h.state in {Opening, Opened})
        || (g.state == Closing && h.state in {Closing, Closed}))
  }

  /** Each door of `h` keeps the start position it has in `g`. */
  predicate SameDoorStarts(g: Garage, h: Garage) {
    && (g.door.Some? && h.door.Some? ==> h.door.value.start == g.door.value.start)
    && (g.secondDoor.Some? && h.secondDoor.Some? ==> h.secondDoor.value.start == g.secondDoor.value.start)
  }

  /** `tick(dt)`: one frame of the door controller. */
  function Tick(g: Garage, env: Env, dt: real): (r: Step)
    ensures g.door.None? || !g.active ==> r == Step(g, [])
    ensures SameFixture(g, r.garage)
    ensures r.garage.state in Successors(g.state)
    ensures g.state != Opened && r.garage.state == Opened ==> r.garage.fraction == 1.0
    ensures g.state != Closed && r.garage.state == Closed ==> r.garage.fraction == 0.0
    ensures r.garage.fraction != g.fraction ==> DoorsFollowTravel(r.garage)
    ensures g.state in {Closed, Opened} ==> r.garage.fraction == g.fraction
    ensures SameDoorStarts(g, r.garage)
    ensures DoorTravelled(g, r.garage) ==> DoorsFollowTravel(r.garage)
    ensures !DoorTravelled(g, r.garage) ==> r.garage.door == g.door && r.garage.secondDoor == g.secondDoor
  {
    if g.door.None? || !g.active then Step(g, [])
    else match g.state
      case Opened => TickOpened(g, env)
      case Closed => TickClosed(g, env)
      case Opening => TickOpening(g, env, dt)
      case Closing => TickClosing(g, env, dt)
  }

  /** An open door starts to close when `shouldClose` says so; the respray
      shop's call may re-arm its respray on the way. */
  function TickOpened(g: Garage, env: Env): (r: Step)
    requires g.state == Opened
    ensures SameFixture(g, r.garage) && r.garage.fraction == g.fraction
    ensures r.garage.state in {Opened, Closing}
    ensures r.garage.door == g.door && r.garage.secondDoor == g.secondDoor
  {
    var g1 := g.(resprayDone := ResprayDoneAfterShouldClose(g, env));
    if ShouldClose(g, env) then OnStartClosing(g1.(state := Closing))
    else Step(g1, [])
  }

  /** A shut door starts to open when `shouldOpen` says so. */
  function TickClosed(g: Garage, env: Env): (r: Step)
    requires g.state == Closed
    ensures SameFixture(g, r.garage) && r.garage.fraction == g.fraction
    ensures r.garage.state in {Closed, Opening}
    ensures r.garage.door == g.door && r.garage.secondDoor == g.secondDoor
  {
    if ShouldOpen(g, env) then OnStartOpening(g.(state := Opening))
    else Step(g, [])
  }

  /** The share of the full traverse the door covers in `dt` seconds. */
  function Travel(g: Garage, dt: real): real {
    dt * g.step
  }

  /** An opening door reverses, or rises by `dt * step` and stops at the
      top. */
  function TickOpening(g: Garage, env: Env, dt: real): (r: Step)
    requires g.door.Some?
    requires g.state == Opening
    ensures SameFixture(g, r.garage)
    ensures r.garage.state == Opened ==> r.garage.fraction == 1.0
    ensures SameDoorStarts(g, r.garage)
    ensures r.garage.state == Closing ==> r.garage.door == g.door && r.garage.secondDoor == g.secondDoor
    ensures r.garage.state != Closing ==> DoorsFollowTravel(r.garage)
  {
    if ShouldStopOpening(g, env) then Step(g.(state := Closing), [])
    else
      var f := g.fraction + Travel(g, dt);
      var s := if f >= 1.0 then OnOpen(g.(state := Opened, fraction := 1.0))
               else Step(g.(fraction := f), []);
      Step(UpdateDoor(s.garage), s.effects)
  }

  /** A closing door reverses, or drops by `dt * step` and stops at the
      bottom. */
  function TickClosing(g: Garage, env: Env, dt: real): (r: Step)
    requires g.door.Some?
    requires g.state == Closing
    ensures SameFixture(g, r.garage)
    ensures r.garage.state == Closed ==> r.garage.fraction == 0.0
    ensures SameDoorStarts(g, r.garage)
    ensures r.garage.state == Opening ==> r.garage.door == g.door && r.garage.secondDoor == g.secondDoor
    ensures r.garage.state != Opening ==> DoorsFollowTravel(r.garage)
  {
    if ShouldStopClosing(g, env) then Step(g.(state := Opening), [])
    else
      var f := g.fraction - Travel(g, dt);
      var s := if f <= 0.0 then OnClose(g.(state := Closed, fraction := 0.0), env.gameTime)
               else Step(g.(fraction := f), []);
      Step(UpdateDoor(s.garage), s.effects)
  }

  /** Doors that stand where the travel puts them still do after a tick:
      the doors move only together with the travel. */
  lemma TickKeepsDoorsFollowingTravel(g: Garage, env: Env, dt: real)
    requires DoorsFollowTravel(g)
    ensures DoorsFollowTravel(Tick(g, env, dt).garage)
  {
  }

  /** With a non-negative rate and time step a tick keeps the travel
      invariant: `fraction` stays in [0,1], shut means 0, open means 1. */
  lemma TickKeepsTravelInvariant(g: Garage, env: Env, dt: real)
    requires TravelInvariant(g)
    requires 0.0 <= g.step && 0.0 <= dt
    ensures TravelInvariant(Tick(g, env, dt).garage)
  {
    ProductNonNeg(dt, g.step);
    if g.door.Some? && g.active {
      match g.state
      case Opening =>
        if !ShouldStopOpening(g, env) {
          var f := g.fraction + Travel(g, dt);
          if f < 1.0 {
            assert Travel(g, dt) >= 0.0 && 0.0 <= f < 1.0;
            assert Tick(g, env, dt).garage == UpdateDoor(g.(fraction := f));
            assert Tick(g, env, dt).garage.fraction == f;
          }
        }
      case Closing =>
        if !ShouldStopClosing(g, env) {
          var f := g.fraction - Travel(g, dt);
          if f > 0.0 {
            assert Travel(g, dt) >= 0.0 && 0.0 < f <= 1.0;
            assert Tick(g, env, dt).garage == UpdateDoor(g.(fraction := f));
            assert Tick(g, env, dt).garage.fraction == f;
          }
        }
      case _ =>
    }
  }

  lemma ProductNonNeg(a: real, b: real)
    requires 0.0 <= a && 0.0 <= b
    ensures 0.0 <= a * b
  {
  }

  /** A moving door advances by exactly `dt * step` unless it reverses or
      reaches the end of its travel. */
  lemma TickAdvancesOpening(g: Garage, env: Env, dt: real)
    requires g.door.Some? && g.active && g.state == Opening
    ensures var r := Tick(g, env, dt).garage;
      && (ShouldStopOpening(g, env) ==> r.state == Closing && r.fraction == g.fraction)
      && (!ShouldStopOpening(g, env) && g.fraction + Travel(g, dt) >= 1.0 ==> r.state == Opened)
      && (!ShouldStopOpening(g, env) && g.fraction + Travel(g, dt) < 1.0 ==>
            r.state == Opening && r.fraction == g.fraction + Travel(g, dt))
  {
    if !ShouldStopOpening(g, env) {
      var f := g.fraction + Travel(g, dt);
      if f >= 1.0 {
        assert TickOpening(g, env, dt).garage == UpdateDoor(OnOpen(g.(state := Opened, fraction := 1.0)).garage);
      } else {
        assert TickOpening(g, env, dt).garage == UpdateDoor(g.(fraction := f));
      }
    }
  }

  lemma TickAdvancesClosing(g: Garage, env: Env, dt: real)
    requires g.door.Some? && g.active && g.state == Closing
    ensures var r := Tick(g, env, dt).garage;
      && (ShouldStopClosing(g, env) ==> r.state == Opening && r.fraction == g.fraction)
      && (!ShouldStopClosing(g, env) && g.fraction - Travel(g, dt) <= 0.0 ==> r.state == Closed)
      && (!ShouldStopClosing(g, env) && g.fraction - Travel(g, dt) > 0.0 ==>
            r.state == Closing && r.fraction == g.fraction - Travel(g, dt))
  {
    if !ShouldStopClosing(g, env) {
      var f := g.fraction - Travel(g, dt);
      if f <= 0.0 {
        assert TickClosing(g, env, dt).garage == UpdateDoor(OnClose(g.(state := Closed, fraction := 0.0), env.gameTime).garage);
      } else {
        assert TickClosing(g, env, dt).garage == UpdateDoor(g.(fraction := f));
      }
    }
  }

  /** A resting door starts to move exactly when its trigger fires. */
  lemma TickLeavesRest(g: Garage, env: Env, dt: real)
    requires g.door.Some? && g.active
    ensures g.state == Closed ==> (Tick(g, env, dt).garage.state == Opening <==> ShouldOpen(g, env))
    ensures g.state == Opened ==> (Tick(g, env, dt).garage.state == Closing <==> ShouldClose(g, env))
  {
  }

  /** Each transition of a tick fires its own door event and hands the
      event's effects to the caller: leaving rest fires start-opening or
      start-closing, reaching rest fires door-opened or door-closed (the doors
      being placed afterwards), and a tick without a transition, or one that
      only reverses a moving door, fires nothing. */
  lemma TickFiresEvents(g: Garage, env: Env, dt: real)
    ensures var r := Tick(g, env, dt);
      g.state == Closed && r.garage.state == Opening ==>
        r == OnStartOpening(g.(state := Opening))
    ensures var r := Tick(g, env, dt);
      g.state == Opened && r.garage.state == Closing ==>
        r == OnStartClosing(g.(state := Closing, resprayDone := ResprayDoneAfterShouldClose(g, env)))
    ensures var r := Tick(g, env, dt);
      g.state == Opening && r.garage.state == Opened ==>
        var e := OnOpen(g.(state := Opened, fraction := 1.0));
        r == Step(UpdateDoor(e.garage), e.effects)
    ensures var r := Tick(g, env, dt);
      g.state == Closing && r.garage.state == Closed ==>
        var e := OnClose(g.(state := Closed, fraction := 0.0), env.gameTime);
        r == Step(UpdateDoor(e.garage), e.effects)
    ensures var r := Tick(g, env, dt);
      r.garage.state == g.state || (g.state in {Opening, Closing} && r.garage.state in {Opening, Closing}) ==>
        r.effects == []
  {
  }

  /** What the door events of a tick amount to. Effects reach the caller
      only when the door leaves rest or comes to rest shut; the player loses
      control only as a door starts closing, and only the respray shop
      repairs, as its door shuts. The cool-down timer changes only when a
      shop's door shuts, to 1.5 (bomb shops) or 2 (respray shop) seconds
      after the current game time. The respray flag is set only as the
      respray shop starts opening and cleared only by its closing check while
      open. */
  lemma TickEventEffects(g: Garage, env: Env, dt: real)
    ensures var r := Tick(g, env, dt);
      r.effects != [] ==>
        || (g.state == Closed && r.garage.state == Opening)
        || (g.state == Opened && r.garage.state == Closing)
        || (g.state == Closing && r.garage.state == Closed)
    ensures var r := Tick(g, env, dt);
      SetInputEnabled(false) in r.effects <==>
        && g.state == Opened && r.garage.state == Closing
        && (g.kind == Mission || g.kind.IsCollectCars() || g.kind.IsBombShop() || g.kind == Respray)
    ensures var r := Tick(g, env, dt);
      SetHandbraking(true) in r.effects ==> g.state == Opened && r.garage.state == Closing
    ensures var r := Tick(g, env, dt);
      SetVehicleHealth(1000.0) in r.effects <==>
        g.kind == Respray && g.state == Closing && r.garage.state == Closed
    ensures var r := Tick(g, env, dt);
      r.garage.garageTimer != g.garageTimer ==>
        (g.kind.IsBombShop() || g.kind == Respray) && g.state == Closing && r.garage.state == Closed
    ensures var r := Tick(g, env, dt);
      g.kind.IsBombShop() && g.state == Closing && r.garage.state == Closed ==>
        r.garage.garageTimer == env.gameTime + 1.5
    ensures var r := Tick(g, env, dt);
      g.kind == Respray && g.state == Closing && r.garage.state == Closed ==>
        r.garage.garageTimer == env.gameTime + 2.0
    ensures var r := Tick(g, env, dt);
      r.garage.resprayDone != g.resprayDone ==>
        && g.kind == Respray
        && (|| (g.state == Closed && r.garage.state == Opening && r.garage.resprayDone)
            || (g.state == Opened && !r.garage.resprayDone))
    ensures var r := Tick(g, env, dt);
      g.kind == Respray && g.state == Closed && r.garage.state == Opening ==> r.garage.resprayDone
    ensures var r := Tick(g, env, dt);
      g.door.Some? && g.active && g.state == Opened ==>
        r.garage.resprayDone == ResprayDoneAfterShouldClose(g, env)
  {
  }

  /** Reaching the top of the travel is quiet: the door-opened event asks
      nothing of the player, arms no timer and leaves the respray flag. */
  lemma OpenEventIsQuiet(g: Garage, env: Env, dt: real)
    requires g.state == Opening
    ensures var r := Tick(g, env, dt);
      r.garage.state == Opened ==>
        && r.effects == []
        && r.garage.fraction == 1.0
        && r.garage.garageTimer == g.garageTimer
        && r.garage.resprayDone == g.resprayDone
  {
  }

  /** A garage whose kind is still unimplemented never changes direction by
      itself: a shut or open door stays put, a moving one keeps going. */
  lemma UnimplementedKindKeepsDirection(g: Garage, env: Env, dt: real)
    requires g.kind.IsUnimplemented()
    ensures var s := Tick(g, env, dt).garage.state;
      && (g.state == Closed ==> s == Closed)
      && (g.state == Opened ==> s == Opened)
      && (g.state == Opening ==> s in {Opening, Opened})
      && (g.state == Closing ==> s in {Closing, Closed})
  {
    UnimplementedNeverTriggers(g, env);
  }

  /** One frame's inputs. */
  datatype Frame = Frame(env: Env, dt: real)

  /** The garage after a sequence of frames. */
  function Run(g: Garage, frames: seq<Frame>): Garage
    decreases |frames|
  {
    if |frames| == 0 then g
    else Run(Tick(g, frames[0].env, frames[0].dt).garage, frames[1..])
  }

  /** For every sequence of non-negative time steps the travel invariant
      holds after every frame. */
  lemma {:induction false} RunKeepsTravelInvariant(g: Garage, frames: seq<Frame>)
    requires TravelInvariant(g) && 0.0 <= g.step
    requires forall i :: 0 <= i < |frames| ==> 0.0 <= frames[i].dt
    ensures TravelInvariant(Run(g, frames))
    decreases |frames|
  {
    if |frames| > 0 {
      var next := Tick(g, frames[0].env, frames[0].dt).garage;
      TickKeepsTravelInvariant(g, frames[0].env, frames[0].dt);
      assert forall i :: 0 <= i < |frames[1..]| ==> frames[1..][i] == frames[i + 1];
      RunKeepsTravelInvariant(next, frames[1..]);
    }
  }

  // ---------------------------------------------------------------------------
  // Forced transitions

  /** `activate`: the garage starts ticking; a closed "car comes out"
      mission garage starts opening at once. */
  function Activate(g: Garage): (r: Garage)
    ensures r.active
    ensures r.state == (if g.kind == MissionForCarToComeOut && g.state == Closed then Opening else g.state)
    ensures r.(active := g.active, state := g.state) == g
  {
    if g.kind == MissionForCarToComeOut && g.state == Closed then g.(active := true, state := Opening)
    else g.(active := true)
  }

  function Deactivate(g: Garage): (r: Garage)
    ensures !r.active
    ensures r.(active := g.active) == g
  {
    g.(active := false)
  }

  /** `open`: a shut or closing door starts opening; otherwise nothing. */
  function Open(g: Garage): (r: Garage)
    ensures g.state in {Closed, Closing} ==> r == g.(state := Opening)
    ensures g.state !in {Closed, Closing} ==> r == g
  {
    if g.state == Closed || g.state == Closing then g.(state := Opening) else g
  }

  /** `close`: an open or opening door starts closing; otherwise nothing. */
  function Close(g: Garage): (r: Garage)
    ensures g.state in {Opened, Opening} ==> r == g.(state := Closing)
    ensures g.state !in {Opened, Opening} ==> r == g
  {
    if g.state == Opened || g.state == Opening then g.(state := Closing) else g
  }

  /** Forced transitions keep the travel invariant, and after them the door
      is moving in the requested direction or already at rest there. */
  lemma ForcedTransitionsKeepTravelInvariant(g: Garage)
    requires TravelInvariant(g)
    ensures TravelInvariant(Open(g)) && TravelInvariant(Close(g))
    ensures TravelInvariant(Activate(g)) && TravelInvariant(Deactivate(g))
    ensures Open(g).state in {Opening, Opened}
    ensures Close(g).state in {Closing, Closed}
  {
  }

  /** Opening twice is opening once; so is closing. */
  lemma ForcedTransitionsIdempotent(g: Garage)
    ensures Open(Open(g)) == Open(g)
    ensures Close(Close(g)) == Close(g)
    ensures Activate(Activate(g)) == Activate(g)
  {
  }

  // ---------------------------------------------------------------------------
  // Swing upgrade

  /** `makeDoorSwing`: the first call makes the door a swing door and
      shortens its travel to `doorHeight / 2 - 0.1`; later calls do nothing. */
  function MakeDoorSwing(g: Garage): (r: Garage)
    ensures r.swingType
    ensures g.swingType ==> r == g
    ensures !g.swingType ==> r.doorHeight == g.doorHeight / 2.0 - 0.1
    ensures r.(swingType := g.swingType, doorHeight := g.doorHeight) == g
  {
    if !g.swingType then g.(swingType := true, doorHeight := g.doorHeight / 2.0 - 0.1)
    else g
  }

  /** The upgrade is idempotent and cannot be undone by any other operation
      of the garage. */
  lemma MakeDoorSwingIdempotentAndPermanent(g: Garage, env: Env, dt: real)
    ensures MakeDoorSwing(MakeDoorSwing(g)) == MakeDoorSwing(g)
    ensures g.swingType ==> Tick(g, env, dt).garage.swingType
    ensures g.swingType ==> Open(g).swingType && Close(g).swingType
    ensures g.swingType ==> Activate(g).swingType && Deactivate(g).swingType
  {
  }

  /** `isTargetInsideGarage`: the target counts as delivered only behind a
      shut door. */
  function IsTargetInsideGarage(g: Garage, env: Env): (r: bool)
    ensures r ==> g.state == Closed
    ensures g.state == Closed ==> (r <==> InsideSpec(GarageBox(g), env.target))
  {
    g.state == Closed && Inside(g, env.target)
  }
}
