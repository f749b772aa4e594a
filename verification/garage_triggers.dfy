/** The four trigger predicates a garage consults on each tick, one
    decision per kind. Kinds the source marks unimplemented answer false. */
module GarageTriggers {
  import opened Geometry
  import opened GarageTypes
  import opened GarageSpace

  predicate Inside(g: Garage, o: ObjectView) {
    IsObjectInside(GarageBox(g), o)
  }

  /** `getDistanceToGarage(p) < limit`. */
  predicate CloserThan(g: Garage, p: Vec3, limit: real)
    requires 0.0 < limit
  {
    Nearer(GarageBox(g), p, limit)
  }

  /** The hideout rule: the player is near, with a wider radius when driving. */
  predicate HideoutPlayerNear(g: Garage, env: Env) {
    if env.vehicle.None? then CloserThan(g, env.character.position, 5.0)
    else CloserThan(g, env.character.position, 10.0)
  }

  predicate ShouldOpen(g: Garage, env: Env) {
    match g.kind
    case Mission =>
      env.vehicle.Some? && CloserThan(g, env.character.position, 8.0) && env.vehicle.value.isTarget
    case BombShop1 | BombShop2 | BombShop3 | Respray =>
      g.garageTimer < env.gameTime
    case Hideout1 | Hideout2 | Hideout3 =>
      HideoutPlayerNear(g, env)
    case _ => false
  }

  predicate ShouldClose(g: Garage, env: Env) {
    match g.kind
    case Mission =>
      && !Inside(g, env.character)
      && Inside(g, env.target)
      && env.vehicle.None?
      && !CloserThan(g, env.character.position, 2.0)
    case BombShop1 | BombShop2 | BombShop3 =>
      env.vehicle.Some? && Inside(g, env.vehicle.value.body) && env.vehicle.value.stopped
    case Respray =>
      && env.vehicle.Some?
      && Inside(g, env.vehicle.value.body)
      && env.vehicle.value.stopped
      && !g.resprayDone
    case CollectCars1 | CollectCars2 =>
      env.vehicle.Some? && Inside(g, env.vehicle.value.body) && !env.vehicle.value.missionLifetime
    case Hideout1 | Hideout2 | Hideout3 =>
      !HideoutPlayerNear(g, env)
    case _ => false
  }

  predicate ShouldStopOpening(g: Garage, env: Env) {
    match g.kind
    case Hideout1 | Hideout2 | Hideout3 => !HideoutPlayerNear(g, env)
    case _ => false
  }

  predicate ShouldStopClosing(g: Garage, env: Env) {
    match g.kind
    case Hideout1 | Hideout2 | Hideout3 => HideoutPlayerNear(g, env)
    case _ => false
  }

  /** The respray garage's `shouldClose` also re-arms the respray once the
      resprayed vehicle has driven at least 2 units away: the `resprayDone`
      flag after the call. */
  function ResprayDoneAfterShouldClose(g: Garage, env: Env): (done: bool)
    ensures done ==> g.resprayDone
    ensures done != g.resprayDone <==>
      && g.kind == Respray && g.resprayDone && env.vehicle.Some?
      && !Inside(g, env.vehicle.value.body)
      && !CloserThan(g, env.vehicle.value.body.position, 2.0)
  {
    if g.kind != Respray || env.vehicle.None? then g.resprayDone
    else
      var v := env.vehicle.value;
      if Inside(g, v.body) && v.stopped && !g.resprayDone then g.resprayDone
      else if !Inside(g, v.body) && !CloserThan(g, v.body.position, 2.0) && g.resprayDone then false
      else g.resprayDone
  }

  /** Hideouts: opening and not-stopping-closing are the same rule, closing
      and stopping-opening are its negation. */
  lemma HideoutTriggersAgree(g: Garage, env: Env)
    requires g.kind.IsHideout()
    ensures ShouldOpen(g, env) == ShouldStopClosing(g, env)
    ensures ShouldClose(g, env) == ShouldStopOpening(g, env)
    ensures ShouldClose(g, env) == !ShouldOpen(g, env)
  {
  }

  /** Hideouts use radius 5 on foot and 10 in a vehicle. */
  lemma HideoutThresholds(g: Garage, env: Env)
    requires g.kind.IsHideout()
    ensures env.vehicle.None? ==>
      (ShouldOpen(g, env) <==> DistanceSquared(GarageBox(g), env.character.position) < 25.0)
    ensures env.vehicle.Some? ==>
      (ShouldOpen(g, env) <==> DistanceSquared(GarageBox(g), env.character.position) < 100.0)
  {
  }

  /** Unimplemented kinds never trigger anything. */
  lemma UnimplementedNeverTriggers(g: Garage, env: Env)
    requires g.kind.IsUnimplemented()
    ensures !ShouldOpen(g, env) && !ShouldClose(g, env)
    ensures !ShouldStopOpening(g, env) && !ShouldStopClosing(g, env)
  {
  }

  /** Only hideouts reverse a moving door. */
  lemma OnlyHideoutsReverse(g: Garage, env: Env)
    requires !g.kind.IsHideout()
    ensures !ShouldStopOpening(g, env) && !ShouldStopClosing(g, env)
  {
  }

  /** A mission garage opens only for the player driving the target vehicle
      and closes only once the player has left on foot with the target
      inside, so it never shuts the player in and the two triggers never
      hold together. */
  lemma MissionNeverShutsOnPlayer(g: Garage, env: Env)
    requires g.kind == Mission
    ensures ShouldOpen(g, env) ==> env.vehicle.Some? && env.vehicle.value.isTarget
    ensures ShouldClose(g, env) ==>
      && env.vehicle.None? && !Inside(g, env.character) && Inside(g, env.target)
      && DistanceSquared(GarageBox(g), env.character.position) >= 4.0
    ensures !(ShouldOpen(g, env) && ShouldClose(g, env))
  {
  }

  /** Shops and the respray shop reopen once their cool-down timer has run
      out; collection garages never open by themselves. */
  lemma ShopAndCollectOpen(g: Garage, env: Env)
    ensures g.kind.IsBombShop() || g.kind == Respray ==>
      (ShouldOpen(g, env) <==> g.garageTimer < env.gameTime)
    ensures g.kind.IsCollectCars() ==> !ShouldOpen(g, env)
  {
  }

  /** Bomb shops close exactly when the player's vehicle stands stopped
      inside; the respray shop likewise, but only while no respray has been
      done; collection garages close exactly on a non-mission vehicle of the
      player's inside. */
  lemma ShopAndCollectClose(g: Garage, env: Env)
    ensures g.kind.IsBombShop() ==>
      (ShouldClose(g, env) <==>
        env.vehicle.Some? && Inside(g, env.vehicle.value.body) && env.vehicle.value.stopped)
    ensures g.kind == Respray ==>
      (ShouldClose(g, env) <==>
        env.vehicle.Some? && Inside(g, env.vehicle.value.body) && env.vehicle.value.stopped && !g.resprayDone)
    ensures g.kind.IsCollectCars() ==>
      (ShouldClose(g, env) <==>
        env.vehicle.Some? && Inside(g, env.vehicle.value.body) && !env.vehicle.value.missionLifetime)
  {
  }

  /** The documented scenario: a hideout with box (0,0,0)-(10,10,5) and the
      player on foot at (20,0,1) is 10 units away, so it does not open and
      does close. */
  lemma HideoutScenario(g: Garage, env: Env)
    requires g.kind == Hideout1
    requires g.min == Vec3(0.0, 0.0, 0.0) && g.max == Vec3(10.0, 10.0, 5.0)
    requires env.character.position == Vec3(20.0, 0.0, 1.0) && env.vehicle.None?
    ensures DistanceSquared(GarageBox(g), env.character.position) == 100.0
    ensures !ShouldOpen(g, env) && ShouldClose(g, env) && ShouldStopOpening(g, env)
  {
    ScenarioDistance(GarageBox(g), env.character.position);
    HideoutThresholds(g, env);
    HideoutTriggersAgree(g, env);
  }

  lemma ScenarioDistance(b: Box, p: Vec3)
    requires b.min == Vec3(0.0, 0.0, 0.0) && b.max == Vec3(10.0, 10.0, 5.0)
    requires p == Vec3(20.0, 0.0, 1.0)
    ensures DistanceSquared(b, p) == 100.0
  {
    var dx := Overhang(b.min.x, p.x, b.max.x);
    var dy := Overhang(b.min.y, p.y, b.max.y);
    assert dx == 10.0 by {
      assert b.min.x == 0.0 && p.x == 20.0 && b.max.x == 10.0;
    }
    assert dy == 0.0 by {
      assert b.min.y == 0.0 && p.y == 0.0 && b.max.y == 10.0;
    }
    calc {
      DistanceSquared(b, p);
      Product(dx, dx) + Product(dy, dy);
      Product(10.0, 10.0) + Product(0.0, 0.0);
      100.0;
    }
  }
}
