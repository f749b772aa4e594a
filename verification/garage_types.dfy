/** The data a garage (a door mechanism gated on the player's position)
    keeps, and the view of the player, the player's vehicle and the mission
    target that its trigger predicates read. */
module GarageTypes {
  import opened Optional
  import opened Geometry

  /** The sixteen garage kinds of the source's `GarageType`. */
  datatype GarageKind =
    | Mission
    | BombShop1 | BombShop2 | BombShop3
    | Respray
    | CollectCars1 | CollectCars2
    | MissionForCarToComeOut
    | Crusher
    | MissionKeepCar
    | Hideout1 | Hideout2 | Hideout3
    | MissionToOpenAndClose
    | MissionForSpecificCar
    | MissionKeepCarAndRemainClosed
  {
    predicate IsBombShop() {
      this == BombShop1 || this == BombShop2 || this == BombShop3
    }

    predicate IsCollectCars() {
      this == CollectCars1 || this == CollectCars2
    }

    predicate IsHideout() {
      this == Hideout1 || this == Hideout2 || this == Hideout3
    }

    /** Kinds whose four trigger predicates are all still marked unimplemented. */
    predicate IsUnimplemented() {
      || this == MissionForCarToComeOut || this == Crusher || this == MissionKeepCar
      || this == MissionToOpenAndClose || this == MissionForSpecificCar
      || this == MissionKeepCarAndRemainClosed
    }
  }

  /** The door's position in its travel cycle. */
  datatype GarageState = Closed | Opening | Opened | Closing

  /** A collision sphere of an object's model, relative to the object's origin. */
  datatype Sphere = Sphere(center: Vec3, radius: real)

  /** What the containment test reads of a world object: its origin and,
      when its model has collision data, the collision spheres. */
  datatype ObjectView = ObjectView(position: Vec3, collision: Option<seq<Sphere>>)

  /** The player's current vehicle. `isTarget` is the pointer comparison
      `playerVehicle == target`. */
  datatype VehicleView = VehicleView(
    body: ObjectView,
    stopped: bool,
    missionLifetime: bool,
    isTarget: bool)

  /** Everything outside the garage that a tick reads: the player's character,
      the vehicle the character is in (if any), the garage's target object
      and the game clock. */
  datatype Env = Env(
    character: ObjectView,
    vehicle: Option<VehicleView>,
    target: ObjectView,
    gameTime: real)

  /** A door object placed by the world. `swingDegrees` is the rotation about
      the y axis the garage last set, `None` while it never set one. */
  datatype Door = Door(start: Vec3, position: Vec3, swingDegrees: Option<real>)

  /** One garage. `min`/`max` are the normalised corners of its box,
      `fraction` is how far the door has travelled (0 shut, 1 fully open) and
      `step` the travel rate per second. */
  datatype Garage = Garage(
    id: nat,
    kind: GarageKind,
    min: Vec3,
    max: Vec3,
    state: GarageState,
    fraction: real,
    step: real,
    doorHeight: real,
    swingType: bool,
    active: bool,
    resprayDone: bool,
    garageTimer: real,
    door: Option<Door>,
    secondDoor: Option<Door>)

  /** What the garage asks of the player or the player's vehicle when a
      door event fires. */
  datatype Effect =
    | SetInputEnabled(enabled: bool)
    | SetHandbraking(engaged: bool)
    | SetVehicleHealth(health: real)

  /** The garage after an operation together with the effects it requested,
      in the order it requested them. */
  datatype Step = Step(garage: Garage, effects: seq<Effect>)

  /** The door travel invariant: `fraction` stays in [0,1], a shut door is at
      0 and a fully open door at 1. */
  predicate TravelInvariant(g: Garage) {
    && 0.0 <= g.fraction <= 1.0
    && (g.state == Closed ==> g.fraction == 0.0)
    && (g.state == Opened ==> g.fraction == 1.0)
  }
}
