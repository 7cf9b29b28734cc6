# A verified model of the simulation core of a top-down driving sandbox

`game.js` is a browser game. The player walks around a grid city, takes over cars and drives them. Traffic follows cyclic waypoint paths. Police cars chase the player once they are wanted, and a "busted" meter fills while a police car is close. This project models the deterministic simulation logic underneath, in Dafny, and proves its properties. That logic is:

- the seeded random generator;
- edge-triggered keyboard input;
- angle wrapping;
- the vehicle step with braking, speed limits and world edges;
- the obstacle probe and the driver's pedal decision;
- waypoint following;
- circle-versus-rectangle and circle-versus-circle collision response;
- the wanted level and busted meter;
- car lookup and the pursuit anchor;
- getting into the nearest car;
- the capped viewport filter;
- the fixed-step count of the scripted time advance.

Modules, one file each:

| file | module | what it holds |
|---|---|---|
| options.dfy | Options | `Option` (JavaScript's `null`, `undefined` and `Infinity` results) |
| numeric.dfy | Numeric | `clamp`, `normalizeAngle`, and the `Host` mathematics (hypot, sqrt, atan2, cos, sin, exp) |
| prng.dfy | Prng | the 32-bit linear congruential generator (`Rng` class) |
| input.dfy | Input | the held and pressed key sets (`InputState` class) |
| geometry.dfy | Geometry | vectors, rectangles, the `Body` class, `resolveCircleVsRect`, `resolveCircleVsBuildings` |
| dynamics.dfy | Dynamics | `resolveDynamicCircle`: mass-weighted separation and restitution impulse |
| vehicles.dfy | Vehicles | the `Car` class, `updateVehicle`, `detectObstacleAhead`, `driveTowardTarget`, `computeTrafficControl` |
| pursuit.dfy | Pursuit | the `Player` and `Sim` classes, `addWanted`, `updateWanted`, `getCarById`, `getPlayerAnchor`, `computePoliceControl`, `enterNearestCar` |
| view.dfy | View | `visibleEntities` and the step count of `advanceTime` |

Code that changes state in place stays imperative: a class with `modifies` clauses. Its methods are proved equal to a specification function of the old state, and the properties are proved about that function. Examples:

- `UpdateVehicle` is proved equal to `VehicleStep`;
- `UpdateWanted` is proved equal to `WantedStep`;
- `ResolveDynamicCircle` is proved equal to `CircleVsCircle`.

Each search loop (the obstacle probe, the nearest police car, the nearest car, the viewport filter) is a method whose loop invariant ties it to a recursive function. Lemmas then show that this function computes a minimum, a first match, or a filter.

Transcendental functions are not computed. `Host` carries the host's `Math.hypot`, `Math.sqrt`, `Math.atan2`, `Math.cos`, `Math.sin` and `Math.exp` as functions. `Host.Sound()` states the only facts the proofs rely on:

- hypot is the non-negative root of the sum of squares, and so is sqrt of a non-negative number;
- cos² + sin² = 1;
- exp maps non-positive arguments into (0, 1].

Every lemma that needs these facts requires `Sound()`.

## Model

| member | source | states |
|---|---|---|
| Numeric.Clamp | game.js:51-53 | the result lies in [lo, hi] when lo ≤ hi; a value already inside is returned unchanged, and one below or above gives the nearer bound; an inverted range gives lo, as `Math.max(min, …)` does |
| Numeric.NormalizeAngle | game.js:76-81 | the result lies in [-π, π] and differs from the input by a whole number of turns; an angle already in [-π, π] is returned unchanged; an input above π never ends at −π and one below −π never ends at π, so an odd multiple of π maps to π from above and to −π from below |
| Numeric.WrappedByUnique | game.js:76-81 | any two results of wrapping the same angle by whole turns into [-π, π] the way `normalizeAngle` does are equal, so the wrapped heading error the control methods promise is the one the loops return |
| Prng.SeedState | game.js:59-61 | `(seed >>> 0) \|\| 1` is never 0, agrees with the seed modulo 2^32 (a seed ≡ 0 gives 1), and is the seed itself for 0 < seed < 2^32 |
| Prng.ProductIsExactInDouble | game.js:64 | `1664525·s + 1013904223` stays below 2^53 for every 32-bit state, so the double arithmetic is exact and `>>> 0` is reduction modulo 2^32 |
| Prng.UnitOf | game.js:65 | `state / 2^32` lies in [0, 1) and scales back to the state |
| Prng.ChoiceIndex | game.js:73 | `Math.floor(random() * n)` is an index below n, the floor of the scaled fraction |
| Prng.ScaledFloor | game.js:73 | the integer quotient `(s·n) div 2^32` is the floor of `(s / 2^32)·n` and lies in [0, n) |
| Prng.FractionOfSpan | game.js:69 | a fraction in [0, 1) of a non-negative span stays within the span, and strictly below it when the span is positive |
| Prng.Rng.constructor | game.js:28 | the generator starts in state 1 |
| Prng.Rng.SetSeed | game.js:59-61 | the state becomes `SeedState(seed)` |
| Prng.Rng.Random | game.js:63-66 | the state advances once by the congruence, and the result is the new state as a fraction in [0, 1) |
| Prng.Rng.Rand | game.js:68-70 | advances once; the result is min + u·(max − min), inside [min, max] and never max itself when min < max |
| Prng.Rng.RandomChoice | game.js:72-74 | advances once; an empty list gives nothing (`undefined`), a non-empty one gives the element at `ChoiceIndex`, which is an element of the list |
| Input.FirstPressed | game.js:91-99 | the index of the first listed code that is pending; none exactly when no listed code is pending |
| Input.FirstPressedIsFirstHit | game.js:92-96 | the first pending code found by the left-to-right scan is the one `FirstPressed` names |
| Input.InputState.constructor | game.js:21-24 | no key is held or pending |
| Input.InputState.KeyDown | game.js:1051-1056 | the code becomes held; it becomes pending only when it was not already held |
| Input.InputState.KeyUp | game.js:1073-1075 | the code is no longer held; pending codes are untouched |
| Input.InputState.ClearPressed | game.js:1188 | no code is pending; held keys are untouched |
| Input.InputState.ConsumePress | game.js:91-99 | true exactly when some listed code is pending; then only the first such code is removed; held keys and all other pending codes are unchanged |
| Geometry.ClosestPoint | game.js:469-470 | the clamped point lies in the (non-inverted) rectangle and is the point itself when that is inside |
| Geometry.ClosestPointIsNearest | game.js:469-473 | no point of the rectangle is nearer to the centre than the clamped point |
| Geometry.NearestEdgeIsNearest | game.js:476-494 | the degenerate-case edge is at least as near as every other edge; ties go to left, then right, then top, then bottom |
| Geometry.NormalizedIsUnit | game.js:497-498 | the offset divided by its positive length is a unit vector |
| Geometry.RectContact | game.js:473-501 | no contact exactly when the distance is at least r; the push depth is r − distance, or r − 1 in the degenerate case |
| Geometry.ContactNormal | game.js:476-499 | with a host length of the offset, the push normal is a unit vector, and outside the degenerate case it scales back to the offset |
| Geometry.DeflectResponse | game.js:505-511 | after deflection along a unit normal, no velocity points into the surface, the tangential component is unchanged, and a velocity already leaving is untouched |
| Geometry.CircleVsRect | game.js:468-513 | no hit exactly when the host distance is at least r; a miss leaves the disc unchanged; radius and mass never change |
| Geometry.CircleVsRectResponse | game.js:468-511 | with a sound host, after a hit the normal is a unit vector, the velocity along it is ≥ 0, only that component changed, and a body already moving away keeps its velocity |
| Geometry.NoResidualOverlap | game.js:496-503 | a non-degenerate push keeps the closest point and leaves the centre exactly r from the rectangle, so no overlap remains |
| Geometry.DegeneratePushCanLeaveOverlap | game.js:476-503 | a centre deep inside a building (50, 50 in a 100 by 100 block, r = 13) is pushed only to (38, 50), still inside |
| Geometry.ResolveCircleVsRect | game.js:468-513 | the in-place resolution of a body equals `CircleVsRect` on its old state, hit flag included |
| Geometry.FindContact | game.js:469-499 | the normal and depth the method computes are those of `RectContact` at the host distance |
| Geometry.EdgeNormal | game.js:477-494 | the degenerate-case normal is the outward normal of `NearestEdge` |
| Geometry.ApplyPush | game.js:501-511 | the body's new state is `PushOut` of the old one: moved by depth along the normal, velocity deflected |
| Geometry.BuildingsPass | game.js:515-521 | the pass counts at most one hit per building, keeps radius and mass, and with no hit leaves the disc unchanged |
| Geometry.ResolveCircleVsBuildings | game.js:515-521 | the in-place pass over all buildings equals `BuildingsPass` of the old state, hit count included |
| Dynamics.FlooredMass | game.js:541-542 | `Math.max(1, mass)` is at least 1 and at least the mass |
| Dynamics.InverseMass | game.js:541-542 | the inverse mass is positive |
| Dynamics.InverseOfFloored | game.js:541-542 | the inverse mass is the reciprocal of the floored mass |
| Dynamics.SqrtOfSquares | game.js:531 | with a sound host, sqrt of a non-negative number is its non-negative root |
| Dynamics.ContactOf | game.js:531-539 | coincident centres get the normal (1, 0) with distance ra + rb; otherwise the distance exceeds 0.0001 |
| Dynamics.ContactOfOverlap | game.js:527-539 | for overlapping discs the normal is a unit vector; apart from coincidence it points from a to b, scales back to the offset, and the separation is positive |
| Dynamics.Separate | game.js:543-548 | the separation moves positions only: velocities, radii and masses are unchanged |
| Dynamics.SeparationKeepsMassCentre | game.js:543-548 | the displacements are in inverse proportion to the floored masses (mA·ΔpA + mB·ΔpB = 0) and widen the gap by exactly 0.96 of the overlap along the normal |
| Dynamics.CoincidentNotSeparated | game.js:534-539 | coincident centres are not moved apart at all |
| Dynamics.Bounce | game.js:550-562 | a separating pair is left untouched with impact 0; an approaching pair gives impact −(relative normal velocity) > 0; positions, radii and masses do not change |
| Dynamics.BounceConservesMomentum | game.js:555-561 | the impulse conserves floored-mass momentum: mA·ΔvA + mB·ΔvB = 0 |
| Dynamics.BounceRestitution | game.js:552-561 | along a unit normal the relative normal velocity becomes −restitution times what it was; the tangential relative velocity is unchanged |
| Dynamics.CircleVsCircle | game.js:524-563 | non-overlapping discs are returned unchanged with impact 0; the impact is never negative; radii and masses never change |
| Dynamics.CircleVsCircleConserves | game.js:524-563 | with a sound host, resolving an overlapping pair keeps the floored-mass centre fixed and conserves floored-mass momentum, along a unit normal |
| Dynamics.CircleVsCircleImpact | game.js:550-562 | the impact of an overlapping pair is 0 when separating and the approach speed along the normal when approaching |
| Dynamics.ResolveDynamicCircle | game.js:524-563 | the in-place resolution of two distinct bodies equals `CircleVsCircle` on their old states, impact included |
| Dynamics.FindPairContact | game.js:531-539 | the normal and distance the method computes are `ContactOf` |
| Dynamics.SeparateBodies | game.js:543-548 | the bodies' new positions are `Separate` of their old states |
| Dynamics.BounceBodies | game.js:550-562 | the bodies' new velocities and the impact are `Bounce` of their old states |
| Vehicles.Car.constructor | game.js:215-247 | a new car has the per-type constants, radius 22 or 20, mass 1950 or 1650, is at rest, and heads for waypoint (segment + 1) mod the path length |
| Vehicles.ClampControl | game.js:342-344 | throttle and steer end in [-1, 1] and brake in [0, 1]; in-range inputs are unchanged |
| Vehicles.ApplyBrake | game.js:357-362 | with a non-negative step, the speed becomes 0 exactly when the step covers it; otherwise it keeps its sign and loses exactly the step |
| Vehicles.BrakeNeverReverses | game.js:357-363 | braking then drag in (0, 1] never changes the sign of the forward speed and never increases its size |
| Vehicles.DragFactor | game.js:363 | with a sound host and dt ≥ 0, the drag factor `exp(-1.35·dt)` lies in (0, 1] |
| Vehicles.GripFactor | game.js:366 | the surviving share of sideways slip lies in [0, 1] |
| Vehicles.SteerScale | game.js:367 | steering authority lies in [0.22, 1.45] |
| Vehicles.TurnBounded | game.js:367-368 | with a clamped steer the heading changes by at most steerPower·1.45·dt per step |
| Vehicles.HeadingIsUnit | game.js:346-347 | with a sound host, (cos θ, sin θ) is a unit vector |
| Vehicles.Recombine | game.js:370-371 | rebuilding the velocity from forward and lateral speeds along a unit heading and decomposing again gives both speeds back |
| Vehicles.DriveVelocityDecomposes | game.js:346-371 | with a sound host, the new velocity's component along the heading is the stored forward speed and its sideways component is the gripped lateral speed |
| Vehicles.EdgeAxis | game.js:378-397 | an in-range coordinate is unchanged; otherwise it is clamped into [r, extent − r] with the velocity turned inward; at most two hits per axis |
| Vehicles.DampWithin | game.js:381-396 | damping by 0.4 per hit keeps the sign, never grows the speed, and stays within any range around zero |
| Vehicles.VehicleStepBounds | game.js:341-398 | after a step the forward speed lies in [-maxReverse, maxForward] and the centre lies in [r, 3600 − r] × [r, 2600 − r] |
| Vehicles.UpdateVehicle | game.js:341-398 | the in-place vehicle step equals `VehicleStep` of the car's old motion; the waypoint index is untouched, so a car that pointed at a waypoint still does |
| Vehicles.KeepInWorld | game.js:378-397 | the four wall checks equal `Edges` of the old motion; the waypoint index is untouched |
| Vehicles.CarVsBuildings | game.js:515-521 | the car body is resolved as `BuildingsPass`, and the forward speed keeps 40% per building hit |
| Vehicles.ClosestIsMinimum | game.js:400-416 | the probe finds nothing exactly when no other car is in the path; otherwise it finds a car in the path, and its projection is the least among them |
| Vehicles.ClosestWithinLookAhead | game.js:408-412 | a reported obstacle is strictly ahead and within the look-ahead distance |
| Vehicles.DetectObstacleAhead | game.js:400-416 | the loop's running minimum is `Closest` over the other cars |
| Vehicles.SteerToward | game.js:424 | the steering command lies in [-1, 1] |
| Vehicles.SteerTowardError | game.js:424 | steering has the same sign as the heading error |
| Vehicles.TurnPenalty | game.js:425 | the turn penalty lies in [0, 0.72] |
| Vehicles.TargetSpeedRange | game.js:425-426 | the aimed-for speed lies between 28% and 100% of the biased cruise speed |
| Vehicles.PedalsForObstacle | game.js:431-440 | an obstacle nearer than 45 gives (−0.8, 1), one nearer than 80 gives (−0.4, 0.6), and a farther one is ignored |
| Vehicles.ThrottleMonotoneInObstacle | game.js:428-440 | a nearer obstacle never gives more throttle |
| Vehicles.SteeringNeedsNoClamp | game.js:424-441 | the driver's throttle, brake and steer are already in the ranges `updateVehicle` clamps to |
| Vehicles.DriveTowardTarget | game.js:418-442 | the heading error is the host bearing minus the angle, wrapped by whole turns into [-π, π] exactly as `normalizeAngle` leaves it (`WrappedBy`: kept when already in range, never −π from above nor π from below, so the error is unique by `Numeric.WrappedByUnique`); the control is `Tracking` at that error |
| Vehicles.NextWaypoint | game.js:447-449 | the index stays in range; it advances cyclically once exactly when the waypoint is nearer than 36 |
| Vehicles.ComputeTrafficControl | game.js:444-451 | the heading error is the wrapped bearing (`WrappedBy`) to the waypoint the car pointed at, and the control is `Tracking` toward that waypoint at that error; the index advances as `NextWaypoint` says; the car stays valid |
| Vehicles.NextIndex | game.js:448 | `(i + 1) % n` is i + 1, or 0 after the last waypoint |
| Vehicles.AdvanceWraps | game.js:448 | within one lap, k advances move the index k places around the cycle |
| Vehicles.LapReturns | game.js:448 | after as many advances as there are waypoints, the index is back where it started |
| Pursuit.Player.constructor | game.js:283-293 | the player starts on foot at (520, 460), at rest, radius 13, mass 85, with 100 health |
| Pursuit.Sim.constructor | game.js:272-277 | wanted 0, last crime at −9999, empty meter, no flash; the invariant holds |
| Pursuit.Raise | game.js:337 | the new wanted level lies in [0, 5]: the sum when in range, else the bound it passed |
| Pursuit.Sim.AddWanted | game.js:336-339 | wanted becomes `Raise` of the old level and stays in [0, 5]; the crime time becomes the current time; the pursuit invariant (wanted in [0, 5], meter in [0, 1), flash ≥ 0) is kept |
| Pursuit.Sim.UpdateWanted | game.js:744-785 | the pursuit state and the player after the call are `WantedStep` of the old ones and the nearest police distance to the anchor; for a non-negative step the pursuit invariant (wanted in [0, 5], meter in [0, 1), flash ≥ 0) is kept |
| Pursuit.Sim.DecayWanted | game.js:745-747 | wanted becomes `Decay` of the old level; nothing else changes |
| Pursuit.Sim.UpdateMeter | game.js:745-763 | wanted and meter become `Metered` of the old state and `NearestPolice` over the cars |
| Pursuit.Sim.Bust | game.js:764-773 | the state and the player become `Busted` of the old ones |
| Pursuit.Sim.Revive | game.js:775-783 | the state and the player become `Revived` of the old ones |
| Pursuit.Respawn | game.js:768-772 | the player is at (540, 460), at rest and on foot, with health unchanged |
| Pursuit.Drain | game.js:746 | a level lowered by a non-negative amount stays in [0, level], and is either 0 or exactly level − amount |
| Pursuit.Fill | game.js:757 | the meter near police stays in [0, 1] and never falls |
| Pursuit.WantedStepKeepsRanges | game.js:744-785 | a step keeps wanted in [0, 5], the meter in [0, 1) and the flash ≥ 0, and leaves the crime time alone |
| Pursuit.WantedNeverRisesAlone | game.js:745-783 | without a crime, wanted never rises; within the quiet period, with no bust and no respawn, it is unchanged |
| Pursuit.MeterDrainsAwayFromPolice | game.js:756-762 | without a police car in range, or when barely wanted, the meter never rises |
| Pursuit.BustResets | game.js:764-773 | a full meter clears meter and wanted and respawns the player on foot at (540, 460) at rest with health max(35, health − 15) ≥ 35, so the no-health reset cannot follow |
| Pursuit.HealthResets | game.js:775-783 | with no health and no bust, the player respawns with 100 health and wanted drops by one, floored at 0 |
| Pursuit.AvatarUntouched | game.js:764-783 | without a bust or a respawn the player is left exactly as they were |
| Pursuit.CarIndex | game.js:101-103 | the index of the first car with the id; none exactly when no car has it |
| Pursuit.GetCarById | game.js:101-103 | nothing exactly when no car has the id; otherwise a car of the list with that id, and it is the first such car (the one at `CarIndex`), as `Array.find` returns |
| Pursuit.AnchorChoice | game.js:105-113 | the anchor is the player's car when they are in one that exists, else the player's own position |
| Pursuit.NearestPoliceIsMinimum | game.js:750-755 | none exactly when there is no police car; otherwise the distance of some police car, and no police car is nearer |
| Pursuit.ClosestPolice | game.js:750-755 | the loop's running minimum is `NearestPolice` of the cars |
| Pursuit.Chase | game.js:457-460 | near the player (< 110) a chasing car brakes at least 0.6 and throttles at most 0.3; otherwise the control is unchanged |
| Pursuit.Patrol | game.js:463-464 | a patrolling car keeps at least 0.35 throttle; nothing else changes |
| Pursuit.PoliceControlNeedsNoClamp | game.js:457-464 | the police adjustments keep the pedals in the ranges `updateVehicle` clamps to |
| Pursuit.Sim.ComputePoliceControl | game.js:453-466 | when wanted > 0.2 the heading error is the wrapped bearing to the anchor and the control is `Chase` of `Tracking` toward the anchor at that error and bias 1.55, with the waypoint untouched; otherwise the heading error is the wrapped bearing to the current waypoint and the control is `Patrol` of the traffic control, with the waypoint advanced as `NextWaypoint` says; heading, speed and siren phase are untouched |
| Pursuit.NearestCar | game.js:612-622 | the chosen index is a car of the list |
| Pursuit.NearestCarIsFirstMinimum | game.js:612-622 | a car is chosen exactly when one is within range (58); it is within range, no car is nearer, and every earlier car is strictly farther |
| Pursuit.FindNearestCar | game.js:612-622 | the loop's running minimum picks `NearestCar` of the cars |
| Pursuit.Sim.EnterNearestCar | game.js:611-630 | without a car in range the player is unchanged; otherwise the player takes the car's id, position, velocity and heading, keeping their health |
| View.Cap | game.js:1106 | the loop keeps at least one item, and exactly maxCount when maxCount ≥ 1 |
| View.Take | game.js:1106 | a prefix of the sequence of length min(\|s\|, n) |
| View.Picked | game.js:1105 | `pick` applied to every element, in order |
| View.VisiblePrefix | game.js:1096-1106 | filtering a prefix of the items gives a prefix of the filtered items (why the early break returns the first items) |
| View.VisibleAreInView | game.js:1097-1104 | every item the filter keeps is an item inside the camera rectangle grown by 80 |
| View.InViewAreVisible | game.js:1097-1104 | every item inside the grown camera rectangle is kept by the filter |
| View.VisibleEntitiesComplete | game.js:1095-1110 | the filter reports only in-view items, and every in-view item when no more than max(1, maxCount) are in view |
| View.VisibleEntities | game.js:1095-1110 | the result is `pick` of the first max(1, maxCount) in-view items, in order, and has at most that many |
| View.Round | game.js:1181 | `Math.round` is the nearest integer, halves rounded up |
| View.StepCount | game.js:1181 | at least one step; for at least half a frame, the nearest whole number of 1/60 s frames |
| View.AdvanceTime | game.js:1180-1186 | the state after the loop is `StepCount(ms)` iterations of "update when running" |
| View.AdvanceWhileStopped | game.js:1183-1185 | a stopped or paused game is left exactly as it was, however many steps run |

## Left out

- Rendering is not modelled: the canvas drawing, the HUD, the DOM overlay, the full-screen toggle, the `requestAnimationFrame` loop, `render_game_to_text` and the camera smoothing. These are host I/O and presentation.
- Floating point is not modelled. All arithmetic is on exact reals. Rounding, `NaN` and `Infinity` as numbers are out of scope; an `Infinity` result ("no obstacle", "no police car") is `None`.
- Transcendentals are not computed. `Math.hypot`, `Math.sqrt`, `Math.atan2`, `Math.cos`, `Math.sin` and `Math.exp` are fields of `Host`, constrained only by `Host.Sound()`.
- PI is the decimal `3.141592653589793` as an exact real, not the double.
- The random parts of world generation are not modelled: `createCityMap`, `resetWorld`'s spawn loops, `makePedestrian`, and the `lerp`/`atan2`/`rand` calls of `makeVehicle`. The car constructor takes the position, heading, cruise speed and siren phase as parameters. Car ids come from the caller.
- Pedestrians, `updatePlayerOnFoot`, `updatePlayerInCar`, `exitCurrentCar`, `updateGame` and the collision loops that call the primitives are not modelled. `AdvanceTime` takes `updateGame` and the "playing and not paused" test as parameters.
- Vehicles.UpdateVehicle: the source multiplies `forwardSpeed` by 0.4 at each wall hit. The model applies `Damp(speed, hits)` after the four checks, which gives the same value. The `?? 0` defaults of missing control fields are not modelled, since a `Control` always has all three.
- Vehicles.CarVsBuildings: the source multiplies `forwardSpeed` by 0.4 inside the building loop. The model multiplies by 0.4 per hit after the pass (`Damp`), which gives the same value. The `typeof`/`!== undefined` tests that tell a car from the player are resolved by calling the car version only for cars.
- Pursuit.Sim.UpdateWanted: the anchor is computed before the decay rather than after it (game.js:748). The decay changes only `wanted`, and the anchor does not read it, so the result is the same.
- Prng.Rng.SetSeed takes an integer seed. A fractional or non-numeric seed (which `>>> 0` would truncate or map to 0) is not modelled.
- View.VisibleEntities takes an integer `maxCount`. A fractional `maxCount` rounds up in the source. The JavaScript entity objects become a generic item type with a position function.
- The map's structural counts (11 roads, 120 sidewalk nodes, 11 four-point car paths) are not modelled, because the city generator is not part of this model.

## Behaviour at the edges

Two collision responses leave overlap in place at their degenerate inputs, and the model states exactly what the code does there.

- **Degenerate rectangle push.** When a centre lies inside a building, `resolveCircleVsRect` sets the distance to 1 and pushes by r − 1 from the centre along the nearest edge's normal. It does not push from that edge, so overlap can remain. `Geometry.DegeneratePushCanLeaveOverlap` exhibits this: a disc of radius 13 centred in a 100 by 100 block ends at (38, 50), still inside. The non-degenerate push leaves no overlap (`Geometry.NoResidualOverlap`).
- **Coincident centres.** `resolveDynamicCircle` sets the distance to the sum of radii, so coincident centres get no separation at all (`Dynamics.CoincidentNotSeparated`). The normal is then (1, 0), so only the restitution impulse along that axis acts, and only when the bodies close along it.

A related observation about the pedal table (`Vehicles.Pedals`): the throttle never rises as an obstacle gets nearer (`Vehicles.ThrottleMonotoneInObstacle`), but the brake is not monotone in the same way. With no obstacle and a large overspeed the brake is 1. An obstacle between 45 and 80 lowers it to 0.6.
