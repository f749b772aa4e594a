# openrw garages, collision decisions and object registry — a Dafny model

This project models three pieces of simulation logic from the openrw engine
(a re-implementation of the GTA III engine), over real numbers and immutable
records:

1. **Garages** (`rwengine/src/engine/Garage.cpp`). A garage is an
   axis-aligned box with up to two door objects and a door controller with
   four states: Closed, Opening, Opened and Closing. `fraction` is the door's
   travel, from 0 (shut) to 1 (open).
   - The constructor normalises the box from two corners and finds the door
     objects near the box's midpoint. It picks the initial state by garage
     kind.
   - `tick` consults four trigger predicates that depend on the kind:
     `shouldOpen`, `shouldClose`, `shouldStopOpening` and
     `shouldStopClosing`. It advances the door by `dt * step` and fires door
     events. The events ask the player or the player's vehicle for input
     lock, handbrake or repair, and they arm the shops' cool-down timer.
   - Scripts force transitions with `open`, `close` and `activate`.
     `makeDoorSwing` turns the door into a swing door once.
2. **Collision response and contact damage** (`rwengine/src/engine/GameWorld.cpp`).
   - The world's collision dispatcher vetoes the physical response when a
     static, dynamic-data instance is about to be uprooted.
   - The contact callback delivers the matching uprooting damage to the
     instance. It also delivers impact damage to vehicles hit harder than 100.
3. **Object registry with deferred deletion** (`rwengine/src/engine/GameWorld.cpp`).
   - The registry is a set of live objects plus a FIFO queue of objects to
     delete at the end of the frame.
   - Clearing a cutscene queues its objects.
   - The physics tick steps every vehicle.

Modules:

| module | file | contents |
|---|---|---|
| `Optional`, `Geometry`, `WorldObjects` | `common.dfy` | option type, 3-vectors, min/max/abs, object kinds |
| `GarageTypes` | `garage_types.dfy` | garage kinds, states, the garage record, the player/vehicle/clock view `Env`, effects, the travel invariant |
| `GarageSpace` | `garage_space.dfy` | box normalisation, horizontal squared distance, the containment test |
| `GarageTriggers` | `garage_triggers.dfy` | the four trigger predicates per kind |
| `GarageMachine` | `garage_machine.dfy` | door placement, door events, `tick`, forced transitions, the swing latch |
| `GarageConstruct` | `garage_construct.dfy` | door search and the constructor |
| `Collision` | `collision.dfy` | the response veto, uprooting and vehicle damage |
| `Registry` | `registry.dfy` | destroy, queued destroy, queue drain, cutscene clearing, physics-tick filter |

Inputs that the source reads from the world become parameters:
- the player's character, vehicle and target (`Env`);
- the game clock (`Env.gameTime`);
- the instance pool (a sequence of `Candidate`s);
- the physics bodies (`Body`);
- the contact point (`ContactPoint`).

Side effects on the player and the vehicle are returned as a sequence of
`Effect` flags.

Behaviour the model follows as the code has it:
- The uproot veto fires when `uprootForce <= speed / invMass`. Equality
  counts.
- `ContactProcessedCallback` returns false, and delivers nothing, when a
  body's user pointer is missing.
- `speed / invMass` is a float division, so it is modelled with its
  IEEE-754 outcomes:
  - a finite quotient when `invMass > 0`;
  - +infinity for a positive speed over zero, which always reaches the
    force;
  - NaN for zero over zero, which never does.
- There are sixteen garage kinds.
- Six kinds have all four trigger predicates marked unimplemented:
  MissionForCarToComeOut, Crusher, MissionKeepCar, MissionToOpenAndClose,
  MissionForSpecificCar and MissionKeepCarAndRemainClosed.
- Collection garages also never open by themselves.
- The swing door turns about the y axis. The vertical axis is z, so this
  rotation axis is horizontal.
- `makeDoorSwing` halves the door height without recomputing the travel
  rate.
- Hideouts have no start-closing effects.

## Model

| member | source | states |
|---|---|---|
| GarageSpace.BoxFromCorners | rwengine/src/engine/Garage.cpp:25-31 | the box is normalised (min <= max on every axis), contains both corners, and each bound is taken from one of the corners |
| GarageSpace.BoxFromCornersSymmetric | rwengine/src/engine/Garage.cpp:25-31 | the order in which the two corners are given does not matter |
| GarageSpace.DistanceSquared | rwengine/src/engine/Garage.cpp:157-163 | the horizontal distance to the box is never negative; it is zero for points over the box and positive for every other point |
| GarageSpace.DistanceZeroIffOverBox | rwengine/src/engine/Garage.cpp:157-163 | distance zero exactly when min.x <= p.x <= max.x and min.y <= p.y <= max.y |
| GarageSpace.DistanceIgnoresHeight | rwengine/src/engine/Garage.cpp:157-163 | the distance does not depend on the point's z coordinate |
| GarageSpace.DistanceIsToNearestPoint | rwengine/src/engine/Garage.cpp:157-163 | on a normalised box the distance is the horizontal distance to the box point nearest p (p clamped into the box) |
| GarageSpace.IsObjectInside | rwengine/src/engine/Garage.cpp:165-195 | the early-return scan accepts exactly when the origin is in the inclusive box and every collision sphere overlaps the box on every axis |
| GarageSpace.OriginOutsideRejects | rwengine/src/engine/Garage.cpp:168-174 | an object whose origin is outside the box is never inside |
| GarageSpace.NoCollisionIsOriginTest | rwengine/src/engine/Garage.cpp:176-194 | without collision data the test is the origin test alone |
| GarageSpace.PokingSpheresAccepted | rwengine/src/engine/Garage.cpp:181-191 | spheres whose centres are inside are accepted whatever their radii, so a sphere merely poking out does not reject |
| GarageSpace.DetachedSphereRejects | rwengine/src/engine/Garage.cpp:185-190 | one sphere wholly beyond a face rejects the object |
| GarageTriggers.ResprayDoneAfterShouldClose | rwengine/src/engine/Garage.cpp:229-244 | the respray shop's closing check clears the respray flag exactly when the flag is set and the player's vehicle is outside and at least 2 units away; it never sets it |
| GarageTriggers.MissionNeverShutsOnPlayer | rwengine/src/engine/Garage.cpp:205-213 | a mission garage closes only with the player on foot, outside and at least 2 units away and the target inside; it opens only for the driven target vehicle, so the two triggers never hold together |
| GarageTriggers.ShopAndCollectOpen | rwengine/src/engine/Garage.cpp:333-348 | shops and the respray shop open exactly when their timer has expired; collection garages never open |
| GarageTriggers.ShopAndCollectClose | rwengine/src/engine/Garage.cpp:215-261 | shops close exactly when the player's vehicle is inside and stopped, the respray shop exactly when that holds and the respray is not yet done, collection garages exactly on a non-mission vehicle inside |
| GarageTriggers.HideoutTriggersAgree | rwengine/src/engine/Garage.cpp:279-290 | for hideouts shouldOpen equals shouldStopClosing, and shouldClose equals shouldStopOpening and is the negation of shouldOpen |
| GarageTriggers.HideoutThresholds | rwengine/src/engine/Garage.cpp:365-376 | a hideout opens when the player is within 5 units on foot or within 10 units in a vehicle (squared: 25 and 100) |
| GarageTriggers.UnimplementedNeverTriggers | rwengine/src/engine/Garage.cpp:264-306 | the kinds marked unimplemented answer false to all four predicates |
| GarageTriggers.OnlyHideoutsReverse | rwengine/src/engine/Garage.cpp:400-466 | no kind other than the hideouts ever stops a moving door |
| GarageTriggers.HideoutScenario | rwengine/src/engine/Garage.cpp:279-290 | a hideout with box (0,0,0)-(10,10,5) and the player on foot at (20,0,1) is at distance 10, so it does not open and it does close |
| GarageMachine.PlaceDoor | rwengine/src/engine/Garage.cpp:872-891 | a door keeps its start and horizontal position, is at its start when shut and raised by the door height when fully open, and is turned only on swing doors |
| GarageMachine.UpdateDoor | rwengine/src/engine/Garage.cpp:872-891 | both doors are placed for the current travel relative to their fixed start positions, which stay as they were, and nothing else in the garage changes |
| GarageMachine.PlaceDoorIdempotent | rwengine/src/engine/Garage.cpp:883-889 | placing one door twice for the same travel is the same as placing it once |
| GarageMachine.UpdateDoorIdempotent | rwengine/src/engine/Garage.cpp:872-891 | placing the doors twice is the same as placing them once |
| GarageMachine.DoorRisesWithTravel | rwengine/src/engine/Garage.cpp:883-889 | a larger travel never puts a door lower |
| GarageMachine.OnStartOpening | rwengine/src/engine/Garage.cpp:676-743 | collection garages give input back; shops and the respray shop also release the handbrake; the respray shop marks its respray done; nothing else changes |
| GarageMachine.OnStartClosing | rwengine/src/engine/Garage.cpp:745-797 | mission and collection garages take input away; shops and the respray shop also apply the handbrake; other kinds do nothing |
| GarageMachine.OpenEventIsQuiet | rwengine/src/engine/Garage.cpp:536-603 | when an opening door reaches the top the door-opened event fires and, for every kind, leaves no effect, the timer and the respray flag untouched, with travel 1 |
| GarageMachine.OnClose | rwengine/src/engine/Garage.cpp:605-674 | mission garages give input back; bomb shops arm the timer for now + 1.5; the respray shop arms it for now + 2 and repairs the vehicle to 1000; only the timer can change |
| GarageMachine.Tick | rwengine/src/engine/Garage.cpp:799-870 | nothing changes without a door or while inactive; the fixture never changes; the next state is a legal successor; entering Opened gives travel 1 and entering Closed gives 0; the doors keep their start positions; when the door travelled (it was opening or closing and did not reverse) both doors are placed for the new travel, and on every other tick they stay exactly where they were |
| GarageMachine.TickKeepsDoorsFollowingTravel | rwengine/src/engine/Garage.cpp:807-869 | doors standing where the travel puts them still do after any tick |
| GarageMachine.TickKeepsTravelInvariant | rwengine/src/engine/Garage.cpp:828-862 | with non-negative dt and step the travel stays in [0,1], Closed at 0, Opened at 1 |
| GarageMachine.TickAdvancesOpening | rwengine/src/engine/Garage.cpp:828-844 | an opening door reverses when told to, stops open when the travel would reach 1, and otherwise advances by exactly dt * step |
| GarageMachine.TickAdvancesClosing | rwengine/src/engine/Garage.cpp:846-862 | a closing door reverses when told to, stops shut when the travel would reach 0, and otherwise drops by exactly dt * step |
| GarageMachine.TickFiresEvents | rwengine/src/engine/Garage.cpp:799-870 | each state change fires its own event: Closed to Opening the start-opening event, Opened to Closing the start-closing event (after the respray flag is settled by shouldClose), Opening to Opened the opened event and Closing to Closed the closed event, each followed by placing the doors; staying put or reversing mid-travel fires nothing |
| GarageMachine.TickEventEffects | rwengine/src/engine/Garage.cpp:605-797 | over one tick, effects arise only on Closed to Opening, Opened to Closing or Closing to Closed; input is taken away exactly when a mission, collection, shop or respray door starts closing; the handbrake is applied only when a door starts closing; the vehicle is repaired exactly when the respray door shuts; the timer changes only when a shop or respray door shuts, to now + 1.5 or now + 2; the respray flag changes only for the respray shop, set on starting to open and cleared only by shouldClose while open |
| GarageMachine.TickLeavesRest | rwengine/src/engine/Garage.cpp:809-826 | a shut door starts opening exactly when shouldOpen holds; an open door starts closing exactly when shouldClose holds |
| GarageMachine.UnimplementedKindKeepsDirection | rwengine/src/engine/Garage.cpp:799-870 | a garage of an unimplemented kind never leaves rest and never reverses |
| GarageMachine.RunKeepsTravelInvariant | rwengine/src/engine/Garage.cpp:799-870 | over any sequence of frames with non-negative time steps the travel invariant holds throughout |
| GarageMachine.Activate | rwengine/src/engine/Garage.cpp:133-139 | the garage becomes active, a closed MissionForCarToComeOut garage starts opening, and nothing else changes |
| GarageMachine.Deactivate | rwengine/src/engine/Garage.cpp:141-143 | the garage becomes inactive and nothing else changes |
| GarageMachine.Open | rwengine/src/engine/Garage.cpp:145-149 | Closed and Closing become Opening; every other state is left alone |
| GarageMachine.Close | rwengine/src/engine/Garage.cpp:151-155 | Opened and Opening become Closing; every other state is left alone |
| GarageMachine.ForcedTransitionsKeepTravelInvariant | rwengine/src/engine/Garage.cpp:133-155 | the forced transitions keep the travel invariant, and leave the door moving in, or resting at, the requested direction |
| GarageMachine.ForcedTransitionsIdempotent | rwengine/src/engine/Garage.cpp:133-155 | open, close and activate are idempotent |
| GarageMachine.MakeDoorSwing | rwengine/src/engine/Garage.cpp:118-127 | the first call sets the swing flag and changes the door height to height / 2 - 0.1; later calls change nothing |
| GarageMachine.MakeDoorSwingIdempotentAndPermanent | rwengine/src/engine/Garage.cpp:118-127 | the latch is idempotent, and no tick or forced transition clears it |
| GarageMachine.IsTargetInsideGarage | rwengine/src/engine/Garage.cpp:129-131 | the target is reported delivered only behind a shut door, and then exactly when it is inside the box |
| GarageConstruct.DoorsNear | rwengine/src/engine/Garage.cpp:37-62 | the qualifying instances: only door models within 20 units of the midpoint on both axes, and every one of them |
| GarageConstruct.DoorsNearOrder | rwengine/src/engine/Garage.cpp:37-62 | the list is non-empty exactly when some instance qualifies, has two or more exactly when two do, starts with the pool's first qualifying instance and ends with its last |
| GarageConstruct.FirstDoorIsFirstInPool | rwengine/src/engine/Garage.cpp:37-62 | there is a door exactly when some instance qualifies, and it is the qualifying instance with no qualifying one before it in the pool |
| GarageConstruct.SecondDoorIsLastInPool | rwengine/src/engine/Garage.cpp:37-62 | there is a second door exactly when two instances qualify, and it is the qualifying instance with no qualifying one after it in the pool |
| GarageConstruct.FindDoors | rwengine/src/engine/Garage.cpp:37-62 | the scan's door is the first door and its second door the second door in the sense above |
| GarageConstruct.InitialState | rwengine/src/engine/Garage.cpp:81-105 | shops, the respray shop and the crusher start Opened; every other kind starts Closed |
| GarageConstruct.TravelRate | rwengine/src/engine/Garage.cpp:79 | the rate is the declared rate per unit of door height |
| GarageConstruct.Construct | rwengine/src/engine/Garage.cpp:22-116 | box from the corners; initial state by kind and travel 0 or 1 to match; doors and door height from the door search (height less 0.1); rate per door height; declared defaults kept; doors placed |
| Collision.ImpulsePerMass | rwengine/src/engine/GameWorld.cpp:63-67 | the float quotient speed / invMass is finite exactly when invMass is non-zero (and then multiplies back to the speed), and NaN exactly for zero over zero |
| Collision.InstanceSide | rwengine/src/engine/GameWorld.cpp:38-56 | a side is chosen exactly when exactly one body is an instance, and it is that body |
| Collision.NeedsResponse | rwengine/src/engine/GameWorld.cpp:30-72 | the response is vetoed exactly when both pointers are set, exactly one body is an instance, it has dynamics and a static body, and uprootForce <= the other's speed / invMass; otherwise the engine's answer is kept |
| Collision.NeedsResponseSymmetric | rwengine/src/engine/GameWorld.cpp:30-72 | swapping the two bodies does not change the answer |
| Collision.NoVetoWithoutSingleInstance | rwengine/src/engine/GameWorld.cpp:31-41 | a missing pointer, two instances or no instance always gives the engine's answer |
| Collision.HandleVehicleResponse | rwengine/src/engine/GameWorld.cpp:592-615 | damage only for a vehicle and an applied impulse strictly above 100; physics damage of the applied impulse, at this side's point, sourced at the other side's |
| Collision.UprootDamage | rwengine/src/engine/GameWorld.cpp:640-669 | uprooting damage is delivered exactly when the uproot condition holds, to the instance, at its point, sourced at the other's, with the impulse per mass as amount |
| Collision.ContactProcessed | rwengine/src/engine/GameWorld.cpp:617-677 | returns true exactly when both pointers are set and then runs the uprooting damage path and both sides' vehicle check; with a pointer missing nothing is delivered |
| Collision.VetoMatchesUprootDamage | rwengine/src/engine/GameWorld.cpp:655-660 | with both pointers set, the callback delivers uprooting damage exactly when the dispatcher vetoes the response |
| Collision.UprootDamageContents | rwengine/src/engine/GameWorld.cpp:640-667 | an instance on side A that is uprooted receives one physics event at the A point, sourced at the B point, of the other body's impulse per mass |
| Collision.BothVehiclesDamaged | rwengine/src/engine/GameWorld.cpp:672-676 | two vehicles hit harder than 100 are both damaged, A first, each at its own point |
| Collision.VehicleImpactScenario | rwengine/src/engine/GameWorld.cpp:592-615 | a vehicle hit with impulse 150 by a character receives exactly one event of 150; with impulse exactly 100 nothing is delivered |
| Registry.DestroyObject | rwengine/src/engine/GameWorld.cpp:514-521 | a live object is removed and no other live object or kind changes; an object that is not live is ignored |
| Registry.DestroyObjectQueued | rwengine/src/engine/GameWorld.cpp:523-526 | the live set is unchanged and the object is appended at the back of the queue |
| Registry.DestroyQueuedObjects | rwengine/src/engine/GameWorld.cpp:528-534 | the queue ends empty, the live set loses exactly the queued objects, the destroyed objects are the live queued ones, each once, as a subsequence of the queue |
| Registry.DrainInFirstQueuedOrder | rwengine/src/engine/GameWorld.cpp:528-534 | objects are destroyed in the order in which they were first queued, whatever later duplicates the queue holds |
| Registry.DrainIsFifo | rwengine/src/engine/GameWorld.cpp:528-534 | draining q1 + q2 is draining q1 and then q2: same world, destructions concatenated |
| Registry.QueueTwiceHarmless | rwengine/src/engine/GameWorld.cpp:528-534 | queueing an object twice leaves the same world after the drain as queueing it once |
| Registry.QueuedObjectLiveUntilDrained | rwengine/src/engine/GameWorld.cpp:523-534 | a queued object stays live until the drain and is gone after it |
| Registry.ClearCutscene | rwengine/src/engine/GameWorld.cpp:724-738 | no object is removed; every cutscene object, and nothing else, is appended to the queue once; the cutscene start time becomes -1 |
| Registry.PhysicsTick | rwengine/src/engine/GameWorld.cpp:679-688 | every vehicle is stepped exactly once and no other object is |

## Left out

- Floating point: all quantities are reals.
  - `getDistanceToGarage` is modelled as the squared distance, so the
    `sqrt` is not modelled. A test `d < L` becomes `d^2 < L^2`, and `L` is
    always a positive literal.
  - Float rounding is not modelled: the 0.1 subtractions, `fraction += dt * step`,
    and a finite quotient that overflows to infinity.
- GarageMachine.PlaceDoor: the door's orientation is only the angle
  `fraction * 90` degrees. The quaternion built by `angleAxis` is not
  modelled.
- GarageConstruct.Construct: it requires the resulting door height to be
  non-zero. The source divides `step` by it, and a zero height would give
  an infinite rate.
  - The values `Garage.hpp` declares for the fields are passed in as
    `Defaults`, because that header is not part of this model.
  - A door's collision height (bounding-box max z minus min z) is an input
    of each `Candidate`.
  - The instance pool's iteration order is the order of the candidate
    sequence.
- GarageMachine.OnStartOpening, GarageMachine.OnStartClosing,
  GarageMachine.OnClose: effects on the player's vehicle are recorded as
  flags even when the player has no vehicle. In that case the source
  dereferences a null vehicle pointer: a shop's timer can open it while the
  player is on foot.
- GarageTriggers.MissionNeverShutsOnPlayer: the mission garage's target is
  assumed to exist. The source passes a possibly null target to the
  containment test.
- The timer and clock are the game time the caller supplies. The player, the
  vehicle and the target are read-only views in `Env`. `isTarget` stands for
  the pointer comparison with the target.
- Collision: Bullet's own `needsResponse` answer is the parameter
  `engineDefault`. A body's linear velocity appears only through its length.
- Collision: the damage record's third field (always 0) is dropped, and
  delivering an event means recording it. What the damaged object does with
  it (`takeDamage`) is not modelled.
- Registry: objects are identified by never-reused ids. The source uses
  pointers, so a dangling pointer that the allocator reuses is not modelled.
  Freeing the object is not modelled.
- Registry.ClearCutscene and Registry.PhysicsTick: the order in which the
  pointer-ordered `std::set` is walked is left open. The contracts hold for
  every order.
- Registry.ClearCutscene: the audio stop and the release of the cutscene
  data are not modelled.
- Registry.PhysicsTick: what `tickPhysics` does to the vehicle is not
  modelled.
- Ray casts (`doWeaponScan`, `getGroundAtPosition`), asset loading (item
  definitions, placements, zones, cutscenes, audio), the object factories
  and logging are all I/O or foreign code.
- `rwengine/src/script/ScriptTypes.cpp` (script argument marshalling) and
  `rwgame/debugstate.cpp` (a debug menu) are not part of this model.
