/**
 * Cars: the longitudinal/lateral step of updateVehicle with its world-edge handling,
 * the obstacle probe, the steering and pedal decision of driveTowardTarget, the cyclic
 * waypoint advance of computeTrafficControl, and the speed loss on building hits.
 */
module Vehicles {
  import opened Options
  import opened Numeric
  import opened Geometry

  const WORLD_WIDTH: real := 3600.0
  const WORLD_HEIGHT: real := 2600.0

  /** The per-type constants makeVehicle gives a car. */
  datatype CarParams = CarParams(
    width: real,
    cruiseSpeed: real,
    engineAccel: real,
    brakePower: real,
    steerPower: real,
    maxForward: real,
    maxReverse: real,
    grip: real)

  function TypeParams(police: bool, cruiseSpeed: real): CarParams {
    if police then CarParams(38.0, cruiseSpeed, 810.0, 1050.0, 2.65, 360.0, 140.0, 9.3)
    else CarParams(34.0, cruiseSpeed, 660.0, 900.0, 2.45, 280.0, 110.0, 8.3)
  }

  /** The parts of a car that a vehicle step changes. */
  datatype Motion = Motion(pos: Vec, vel: Vec, angle: real, forwardSpeed: real, sirenPhase: real)

  class Car {
    const id: int
    const police: bool
    const body: Body
    const params: CarParams
    const path: seq<Vec>
    var angle: real
    var forwardSpeed: real
    var sirenPhase: real
    var pathIndex: nat

    /** A waypoint-following car always points at one of its waypoints. */
    ghost predicate Valid()
      reads this
    {
      pathIndex < |path|
    }

    /**
     * makeVehicle, with the position and heading on the path segment, the cruise speed
     * and the siren phase supplied by the caller (they come from lerp, atan2 and rand).
     */
    constructor (id: int, police: bool, pos: Vec, angle: real, path: seq<Vec>, segment: nat,
                 cruiseSpeed: real, sirenPhase: real)
      requires |path| > 0
      ensures Valid() && pathIndex == (segment + 1) % |path|
      ensures this.id == id && this.police == police && this.path == path
      ensures params == TypeParams(police, cruiseSpeed)
      ensures fresh(body) && body.State() == Disc(pos, Vec(0.0, 0.0), if police then 22.0 else 20.0,
                                                   if police then 1950.0 else 1650.0)
      ensures this.angle == angle && forwardSpeed == 0.0 && this.sirenPhase == sirenPhase
    {
      this.id, this.police, this.path := id, police, path;
      params := TypeParams(police, cruiseSpeed);
      body := new Body(pos.x, pos.y, if police then 22.0 else 20.0, if police then 1950.0 else 1650.0);
      this.angle, forwardSpeed, this.sirenPhase := angle, 0.0, sirenPhase;
      pathIndex := (segment + 1) % |path|;
    }

    function State(): Motion
      reads this, body
    {
      Motion(Vec(body.x, body.y), Vec(body.vx, body.vy), angle, forwardSpeed, sirenPhase)
    }
  }

  // ---------------------------------------------------------------------------
  // updateVehicle
  // ---------------------------------------------------------------------------

  datatype Control = Control(throttle: real, brake: real, steer: real)

  /** The driver's inputs as updateVehicle uses them. */
  function ClampControl(c: Control): (k: Control)
    ensures -1.0 <= k.throttle <= 1.0 && 0.0 <= k.brake <= 1.0 && -1.0 <= k.steer <= 1.0
    ensures -1.0 <= c.throttle <= 1.0 ==> k.throttle == c.throttle
    ensures 0.0 <= c.brake <= 1.0 ==> k.brake == c.brake
    ensures -1.0 <= c.steer <= 1.0 ==> k.steer == c.steer
  {
    Control(Clamp(c.throttle, -1.0, 1.0), Clamp(c.brake, 0.0, 1.0), Clamp(c.steer, -1.0, 1.0))
  }

  /** The unit heading (cos angle, sin angle). */
  function Heading(angle: real, host: Host): Vec {
    Vec(host.cos(angle), host.sin(angle))
  }

  /** Engine force per unit time; reversing gets 65% of the engine. */
  function EngineAccel(throttle: real, engineAccel: real): real {
    if throttle >= 0.0 then throttle * engineAccel else throttle * engineAccel * 0.65
  }

  /** How much speed the brakes (and rolling resistance) take off in one step. */
  function BrakeStep(brakePower: real, brake: real, dt: real): real {
    (230.0 + brakePower * brake) * dt
  }

  /** Braking: stop if the step covers the speed, otherwise slow toward zero. */
  function ApplyBrake(forward: real, step: real): (f: real)
    ensures step >= 0.0 ==> f == 0.0 || (Sign(f) == Sign(forward) && Abs(f) == Abs(forward) - step)
    ensures step >= 0.0 ==> Abs(f) <= Abs(forward)
    ensures step >= 0.0 ==> (Abs(forward) <= step <==> f == 0.0)
  {
    if Abs(forward) <= step then 0.0 else forward - Sign(forward) * step
  }

  /** The forward speed after engine, brakes, drag and the speed limits. */
  function SpeedStep(forward: real, k: Control, p: CarParams, dt: real, drag: real): real {
    var driven := forward + EngineAccel(k.throttle, p.engineAccel) * dt;
    Clamp(ApplyBrake(driven, BrakeStep(p.brakePower, k.brake, dt)) * drag, -p.maxReverse, p.maxForward)
  }

  /** The fraction of sideways slip that survives the tyres' grip. */
  function GripFactor(grip: real, dt: real): (g: real)
    ensures 0.0 <= g <= 1.0
  {
    1.0 - Clamp(grip * dt, 0.0, 1.0)
  }

  /** Steering authority grows with speed, within [0.22, 1.45]. */
  function SteerScale(forward: real): (s: real)
    ensures 0.22 <= s <= 1.45
  {
    Clamp(Abs(forward) / 170.0, 0.22, 1.45)
  }

  function Direction(forward: real): real {
    if forward >= 0.0 then 1.0 else -1.0
  }

  /** The change of heading in one step; reversing turns the other way. */
  function Turn(steer: real, steerPower: real, forward: real, dt: real): real {
    steer * steerPower * SteerScale(forward) * dt * Direction(forward)
  }

  /** Sideways speed after the tyres' grip. */
  function LateralStep(vel: Vec, h: Vec, grip: real, dt: real): real {
    Dot(vel, Perp(h)) * GripFactor(grip, dt)
  }

  /** The velocity with the given forward and sideways speeds along heading h. */
  function Recomposed(h: Vec, forward: real, lateral: real): Vec {
    Add(Scale(h, forward), Scale(Perp(h), lateral))
  }

  /** Take the new velocity, integrate the position, turn, and advance the siren. */
  function Moved(m: Motion, vel: Vec, turn: real, forward: real, dt: real): Motion {
    Motion(Add(m.pos, Scale(vel, dt)), vel, m.angle + turn, forward, m.sirenPhase + dt * 8.0)
  }

  /** The step before the world-edge checks. */
  function Drive(m: Motion, p: CarParams, dt: real, c: Control, host: Host): Motion {
    var k := ClampControl(c);
    var h := Heading(m.angle, host);
    var forward := SpeedStep(Dot(m.vel, h), k, p, dt, host.exp(-1.35 * dt));
    Moved(m, Recomposed(h, forward, LateralStep(m.vel, h, p.grip, dt)),
          Turn(k.steer, p.steerPower, forward, dt), forward, dt)
  }

  /** One axis of the world-edge check: the new position, velocity and number of hits. */
  datatype AxisResult = AxisResult(pos: real, vel: real, hits: nat)

  function EdgeAxis(pos: real, vel: real, r: real, extent: real): (res: AxisResult)
    ensures res.hits <= 2
    ensures r <= extent - r ==> r <= res.pos <= extent - r
    ensures r <= pos <= extent - r ==> res == AxisResult(pos, vel, 0)
    ensures pos < r && r <= extent - r ==> res.vel >= 0.0 && res.hits == 1
    ensures pos > extent - r && r <= extent - r ==> res.vel <= 0.0 && res.hits == 1
  {
    var low := if pos < r then AxisResult(r, Abs(vel) * 0.2, 1) else AxisResult(pos, vel, 0);
    if low.pos > extent - r then AxisResult(extent - r, -Abs(low.vel) * 0.2, low.hits + 1) else low
  }

  /** Each wall or building hit keeps 40% of the forward speed. */
  function Damp(f: real, hits: nat): real {
    if hits == 0 then f else Damp(f, hits - 1) * 0.4
  }

  function Edges(m: Motion, r: real): Motion {
    var ex := EdgeAxis(m.pos.x, m.vel.x, r, WORLD_WIDTH);
    var ey := EdgeAxis(m.pos.y, m.vel.y, r, WORLD_HEIGHT);
    m.(pos := Vec(ex.pos, ey.pos), vel := Vec(ex.vel, ey.vel),
       forwardSpeed := Damp(Damp(m.forwardSpeed, ex.hits), ey.hits))
  }

  /** updateVehicle as a function of the car's motion, its constants and radius. */
  function VehicleStep(m: Motion, p: CarParams, r: real, dt: real, c: Control, host: Host): Motion {
    Edges(Drive(m, p, dt, c, host), r)
  }

  method UpdateVehicle(car: Car, dt: real, control: Control, host: Host)
    modifies car, car.body
    ensures car.State() == VehicleStep(old(car.State()), car.params, car.body.r, dt, control, host)
    ensures car.pathIndex == old(car.pathIndex)
  {
    ghost var m := car.State();
    var k := ClampControl(control);
    var h := Heading(car.angle, host);
    var vel := Vec(car.body.vx, car.body.vy);
    var forward := SpeedStep(Dot(vel, h), k, car.params, dt, host.exp(-1.35 * dt));
    var lateral := LateralStep(vel, h, car.params.grip, dt);
    var turn := Turn(k.steer, car.params.steerPower, forward, dt);
    vel := Recomposed(h, forward, lateral);
    ghost var driven := Moved(m, vel, turn, forward, dt);
    assert driven == Drive(m, car.params, dt, control, host);
    car.angle := car.angle + turn;
    car.body.vx, car.body.vy := vel.x, vel.y;
    var travel := Scale(vel, dt);
    car.body.x, car.body.y := car.body.x + travel.x, car.body.y + travel.y;
    car.forwardSpeed := forward;
    car.sirenPhase := car.sirenPhase + dt * 8.0;
    assert car.State() == driven;
    KeepInWorld(car);
  }

  /** The four world-edge checks of updateVehicle. */
  method KeepInWorld(car: Car)
    modifies car, car.body
    ensures car.State() == Edges(old(car.State()), car.body.r)
    ensures car.pathIndex == old(car.pathIndex)
  {
    ghost var m := car.State();
    ghost var hits: nat := 0;
    ghost var start := m.forwardSpeed;
    if car.body.x < car.body.r {
      car.body.x := car.body.r;
      car.body.vx := Abs(car.body.vx) * 0.2;
      car.forwardSpeed := car.forwardSpeed * 0.4;
      hits := hits + 1;
    }
    assert car.forwardSpeed == Damp(start, hits);
    if car.body.x > WORLD_WIDTH - car.body.r {
      car.body.x := WORLD_WIDTH - car.body.r;
      car.body.vx := -Abs(car.body.vx) * 0.2;
      car.forwardSpeed := car.forwardSpeed * 0.4;
      hits := hits + 1;
    }
    assert car.forwardSpeed == Damp(start, hits);
    assert AxisResult(car.body.x, car.body.vx, hits) == EdgeAxis(m.pos.x, m.vel.x, car.body.r, WORLD_WIDTH);
    ghost var afterX := car.forwardSpeed;
    hits, start := 0, afterX;
    if car.body.y < car.body.r {
      car.body.y := car.body.r;
      car.body.vy := Abs(car.body.vy) * 0.2;
      car.forwardSpeed := car.forwardSpeed * 0.4;
      hits := hits + 1;
    }
    assert car.forwardSpeed == Damp(start, hits);
    if car.body.y > WORLD_HEIGHT - car.body.r {
      car.body.y := WORLD_HEIGHT - car.body.r;
      car.body.vy := -Abs(car.body.vy) * 0.2;
      car.forwardSpeed := car.forwardSpeed * 0.4;
      hits := hits + 1;
    }
    assert car.forwardSpeed == Damp(start, hits);
    assert AxisResult(car.body.y, car.body.vy, hits) == EdgeAxis(m.pos.y, m.vel.y, car.body.r, WORLD_HEIGHT);
  }

  /** Braking followed by drag in (0, 1] never reverses the car and never speeds it up. */
  lemma BrakeNeverReverses(forward: real, step: real, drag: real)
    requires step >= 0.0 && 0.0 < drag <= 1.0
    ensures var f := ApplyBrake(forward, step) * drag;
      f * forward >= 0.0 && Abs(f) <= Abs(forward)
  {
    var b := ApplyBrake(forward, step);
    var f := b * drag;
    if b > 0.0 {
      assert forward > 0.0;
      ScaleMonotone(b, drag, 1.0);
      ScaleMonotone(forward, 0.0, f);
    } else if b < 0.0 {
      assert forward < 0.0;
      ScaleMonotone(-b, drag, 1.0);
      ScaleMonotone(-forward, 0.0, -f);
    }
  }

  /** Host drag exp(-1.35 dt) lies in (0, 1] for a forward time step. */
  lemma DragFactor(dt: real, host: Host)
    requires host.Sound() && dt >= 0.0
    ensures 0.0 < host.exp(-1.35 * dt) <= 1.0
  {
  }

  /** Damping keeps the sign and stays within any range around zero. */
  lemma {:induction false} DampWithin(f: real, hits: nat, lo: real, hi: real)
    requires lo <= 0.0 <= hi && lo <= f <= hi
    ensures lo <= Damp(f, hits) <= hi
    ensures Damp(f, hits) * f >= 0.0 && Abs(Damp(f, hits)) <= Abs(f)
  {
    if hits > 0 {
      DampWithin(f, hits - 1, lo, hi);
      var d := Damp(f, hits - 1);
      assert Damp(f, hits) == d * 0.4;
      if f >= 0.0 {
        assert d >= 0.0;
      } else {
        NonposTimes(f, -d);
        assert d <= 0.0;
      }
    }
  }

  /**
   * After a vehicle step the stored forward speed is within [-maxReverse, maxForward]
   * and the centre lies at least one radius inside the world on both axes.
   */
  lemma VehicleStepBounds(m: Motion, p: CarParams, r: real, dt: real, c: Control, host: Host)
    requires p.maxReverse >= 0.0 && p.maxForward >= 0.0
    requires 2.0 * r <= WORLD_HEIGHT
    ensures var n := VehicleStep(m, p, r, dt, c, host);
      -p.maxReverse <= n.forwardSpeed <= p.maxForward
      && r <= n.pos.x <= WORLD_WIDTH - r && r <= n.pos.y <= WORLD_HEIGHT - r
  {
    var d := Drive(m, p, dt, c, host);
    var ex := EdgeAxis(d.pos.x, d.vel.x, r, WORLD_WIDTH);
    var ey := EdgeAxis(d.pos.y, d.vel.y, r, WORLD_HEIGHT);
    DampWithin(d.forwardSpeed, ex.hits, -p.maxReverse, p.maxForward);
    DampWithin(Damp(d.forwardSpeed, ex.hits), ey.hits, -p.maxReverse, p.maxForward);
  }

  /**
   * The new velocity is rebuilt from the heading: its component along the heading is
   * the stored forward speed, and its sideways component is the gripped lateral speed.
   */
  lemma DriveVelocityDecomposes(m: Motion, p: CarParams, dt: real, c: Control, host: Host)
    requires host.Sound()
    ensures var h := Heading(m.angle, host);
      var d := Drive(m, p, dt, c, host);
      Dot(d.vel, h) == d.forwardSpeed && Dot(d.vel, Perp(h)) == LateralStep(m.vel, h, p.grip, dt)
  {
    var h := Heading(m.angle, host);
    HeadingIsUnit(m.angle, host);
    var d := Drive(m, p, dt, c, host);
    assert d.vel == Recomposed(h, d.forwardSpeed, LateralStep(m.vel, h, p.grip, dt));
    Recombine(h, d.forwardSpeed, LateralStep(m.vel, h, p.grip, dt));
  }

  lemma HeadingIsUnit(angle: real, host: Host)
    requires host.Sound()
    ensures IsUnit(Heading(angle, host))
  {
  }

  /** Recomposing along a unit heading and decomposing again gives the two speeds back. */
  lemma Recombine(h: Vec, f: real, l: real)
    requires IsUnit(h)
    ensures Dot(Recomposed(h, f, l), h) == f && Dot(Recomposed(h, f, l), Perp(h)) == l
  {
    var v := Recomposed(h, f, l);
    assert v == Vec(h.x * f - h.y * l, h.y * f + h.x * l);
    assert Dot(v, h) == f * (h.x * h.x + h.y * h.y) + l * (h.x * h.y - h.y * h.x);
    assert Dot(v, Perp(h)) == l * (h.x * h.x + h.y * h.y) + f * (h.x * h.y - h.y * h.x);
  }

  /** The heading changes by at most steerPower * 1.45 * dt per step. */
  lemma TurnBounded(steer: real, steerPower: real, forward: real, dt: real)
    requires -1.0 <= steer <= 1.0 && steerPower >= 0.0 && dt >= 0.0
    ensures Abs(Turn(steer, steerPower, forward, dt)) <= steerPower * 1.45 * dt
  {
    var s := SteerScale(forward);
    var limit := steerPower * 1.45;
    NonnegTimes(steerPower, s);
    assert 0.0 <= steerPower * s;
    ScaleMonotone(steerPower, s, 1.45);
    assert steerPower * s <= steerPower * 1.45;
    assert steerPower * s <= limit;
    UnitFactor(steer, steerPower * s, limit);
    Regroup(steer, steerPower, s);
    var u := steer * steerPower * s;
    TimeFactor(u, limit, dt);
    UnitSign(u * dt, Direction(forward));
  }

  /** A factor in [-1, 1] keeps a product within the bound of the other factor. */
  lemma UnitFactor(x: real, y: real, bound: real)
    requires -1.0 <= x <= 1.0 && 0.0 <= y <= bound
    ensures -bound <= x * y <= bound
  {
    NonposTimes(x - 1.0, y);
    NonposTimes(-1.0 - x, y);
  }

  lemma Regroup(a: real, b: real, c: real)
    ensures a * b * c == a * (b * c)
  {
  }

  lemma TimeFactor(u: real, limit: real, dt: real)
    requires -limit <= u <= limit && dt >= 0.0
    ensures -(limit * dt) <= u * dt <= limit * dt
  {
    NonposTimes(u - limit, dt);
    NonposTimes(-limit - u, dt);
  }

  lemma UnitSign(t: real, d: real)
    requires d == 1.0 || d == -1.0
    ensures Abs(t * d) == Abs(t)
  {
  }

  // ---------------------------------------------------------------------------
  // Speed lost on building hits (resolveCircleVsBuildings on a car)
  // ---------------------------------------------------------------------------

  /** The car's body is resolved against the buildings; each hit keeps 40% of the speed. */
  method CarVsBuildings(car: Car, buildings: seq<Rect>, host: Host)
    modifies car, car.body
    ensures car.body.State() == BuildingsPass(old(car.body.State()), buildings, host).0
    ensures car.forwardSpeed == Damp(old(car.forwardSpeed), BuildingsPass(old(car.body.State()), buildings, host).1)
    ensures car.angle == old(car.angle) && car.sirenPhase == old(car.sirenPhase)
    ensures car.pathIndex == old(car.pathIndex)
  {
    var hits := ResolveCircleVsBuildings(car.body, buildings, host);
    car.forwardSpeed := Damp(car.forwardSpeed, hits);
  }

  // ---------------------------------------------------------------------------
  // detectObstacleAhead
  // ---------------------------------------------------------------------------

  /** Where a car is, as another car or the pursuit logic sees it. */
  datatype Sighting = Sighting(id: int, police: bool, pos: Vec)

  /** The probing car: its id, centre, heading, half-lane width and look-ahead distance. */
  datatype Probe = Probe(id: int, origin: Vec, heading: Vec, width: real, lookAhead: real)

  function Projection(probe: Probe, s: Sighting): real {
    Dot(Sub(s.pos, probe.origin), probe.heading)
  }

  /** Another car strictly ahead, within look-ahead, and less than a car width to the side. */
  predicate InPath(probe: Probe, s: Sighting) {
    && s.id != probe.id
    && 0.0 < Projection(probe, s) <= probe.lookAhead
    && Abs(Dot(Sub(s.pos, probe.origin), Perp(probe.heading))) < probe.width
  }

  /** The nearest projection of a car in the path (None stands for Infinity). */
  function Closest(probe: Probe, cars: seq<Sighting>): Option<real> {
    if cars == [] then None
    else
      var rest := Closest(probe, cars[..|cars| - 1]);
      var last := cars[|cars| - 1];
      if !InPath(probe, last) then rest
      else if rest.Some? && rest.value <= Projection(probe, last) then rest
      else Some(Projection(probe, last))
  }

  /** Closest finds exactly the minimum projection among the cars in the path. */
  lemma {:induction false} ClosestIsMinimum(probe: Probe, cars: seq<Sighting>)
    ensures Closest(probe, cars).None? <==> forall i :: 0 <= i < |cars| ==> !InPath(probe, cars[i])
    ensures Closest(probe, cars).Some? ==>
      && (exists i :: 0 <= i < |cars| && InPath(probe, cars[i]) && Projection(probe, cars[i]) == Closest(probe, cars).value)
      && (forall i :: 0 <= i < |cars| && InPath(probe, cars[i]) ==> Closest(probe, cars).value <= Projection(probe, cars[i]))
  {
    if cars != [] {
      var prefix := cars[..|cars| - 1];
      ClosestIsMinimum(probe, prefix);
      var last := |cars| - 1;
      assert forall i :: 0 <= i < last ==> cars[i] == prefix[i];
      var c := Closest(probe, cars);
      if c.Some? {
        if InPath(probe, cars[last]) && c.value == Projection(probe, cars[last]) {
          assert InPath(probe, cars[last]);
        } else {
          var j :| 0 <= j < |prefix| && InPath(probe, prefix[j]) && Projection(probe, prefix[j]) == c.value;
          assert cars[j] == prefix[j];
        }
      }
    }
  }

  /** A result is always strictly ahead and within the look-ahead distance. */
  lemma ClosestWithinLookAhead(probe: Probe, cars: seq<Sighting>)
    ensures Closest(probe, cars).Some? ==> 0.0 < Closest(probe, cars).value <= probe.lookAhead
  {
    ClosestIsMinimum(probe, cars);
  }

  function SightingOf(c: Car): Sighting
    reads c.body
  {
    Sighting(c.id, c.police, Vec(c.body.x, c.body.y))
  }

  function Sightings(cars: seq<Car>): (s: seq<Sighting>)
    reads set c | c in cars :: c.body
    ensures |s| == |cars|
  {
    if cars == [] then [] else Sightings(cars[..|cars| - 1]) + [SightingOf(cars[|cars| - 1])]
  }

  function ProbeOf(car: Car, lookAhead: real, host: Host): Probe
    reads car, car.body
  {
    Probe(car.id, Vec(car.body.x, car.body.y), Heading(car.angle, host), car.params.width, lookAhead)
  }

  method DetectObstacleAhead(car: Car, cars: seq<Car>, lookAhead: real, host: Host)
    returns (closest: Option<real>)
    ensures closest == Closest(ProbeOf(car, lookAhead, host), Sightings(cars))
  {
    var origin := Vec(car.body.x, car.body.y);
    var f := Heading(car.angle, host);
    ghost var probe := Probe(car.id, origin, f, car.params.width, lookAhead);
    assert probe == ProbeOf(car, lookAhead, host);
    closest := None;
    for i := 0 to |cars|
      invariant closest == Closest(probe, Sightings(cars[..i]))
    {
      var other := cars[i];
      var seen := SightingOf(other);
      SightingsExtend(cars, i);
      ClosestExtend(probe, Sightings(cars[..i]), seen);
      if other.id == car.id {
        continue;
      }
      var offset := Sub(seen.pos, origin);
      var projection := Dot(offset, f);
      if projection <= 0.0 || projection > lookAhead {
        continue;
      }
      var side := Abs(Dot(offset, Perp(f)));
      if side < car.params.width {
        closest := if closest.Some? && closest.value <= projection then closest else Some(projection);
      }
    }
    assert cars[..|cars|] == cars;
  }

  lemma SightingsExtend(cars: seq<Car>, i: nat)
    requires i < |cars|
    ensures Sightings(cars[..i + 1]) == Sightings(cars[..i]) + [SightingOf(cars[i])]
  {
    var prefix := cars[..i + 1];
    assert prefix[..|prefix| - 1] == cars[..i] && prefix[|prefix| - 1] == cars[i];
  }

  lemma {:induction false} SightingsAt(cars: seq<Car>, k: nat)
    requires k < |cars|
    ensures Sightings(cars)[k] == SightingOf(cars[k])
  {
    if k < |cars| - 1 {
      SightingsAt(cars[..|cars| - 1], k);
    }
  }

  /** Closest over one more sighting. */
  lemma ClosestExtend(probe: Probe, prefix: seq<Sighting>, s: Sighting)
    ensures var rest := Closest(probe, prefix);
      Closest(probe, prefix + [s])
      == if !InPath(probe, s) then rest
         else if rest.Some? && rest.value <= Projection(probe, s) then rest
         else Some(Projection(probe, s))
  {
    var all := prefix + [s];
    assert all[..|all| - 1] == prefix && all[|all| - 1] == s;
  }

  // ---------------------------------------------------------------------------
  // driveTowardTarget
  // ---------------------------------------------------------------------------

  datatype DriveControl = DriveControl(throttle: real, brake: real, steer: real, distance: real)

  /** Steering proportional to the heading error, saturating at full lock. */
  function SteerToward(angleError: real): (steer: real)
    ensures -1.0 <= steer <= 1.0
  {
    Clamp(angleError * 1.8, -1.0, 1.0)
  }

  /** Sharper turns lower the speed the driver aims for, by at most 72%. */
  function TurnPenalty(angleError: real): (t: real)
    ensures 0.0 <= t <= 0.72
  {
    Clamp(Abs(angleError) / PI, 0.0, 0.72)
  }

  function TargetSpeed(cruiseSpeed: real, speedBias: real, angleError: real): real {
    cruiseSpeed * speedBias * (1.0 - TurnPenalty(angleError))
  }

  /** The pedal table: chase the target speed, then override for an obstacle ahead. */
  function Pedals(currentSpeed: real, targetSpeed: real, obstacle: Option<real>): (real, real) {
    var throttle := if currentSpeed < targetSpeed - 8.0 then 1.0 else -0.25;
    var brake := if currentSpeed > targetSpeed + 28.0 then 1.0 else 0.0;
    if obstacle.Some? && obstacle.value < 45.0 then (-0.8, 1.0)
    else if obstacle.Some? && obstacle.value < 80.0 then (-0.4, 0.6)
    else (throttle, brake)
  }

  function Steering(currentSpeed: real, p: CarParams, speedBias: real, angleError: real,
                    distance: real, obstacle: Option<real>): DriveControl
  {
    var pedals := Pedals(currentSpeed, TargetSpeed(p.cruiseSpeed, speedBias, angleError), obstacle);
    DriveControl(pedals.0, pedals.1, SteerToward(angleError), distance)
  }

  /** The decision of driveTowardTarget for `car`, given the wrapped heading error. */
  function Tracking(car: Car, target: Vec, speedBias: real, angleError: real, cars: seq<Car>, host: Host): DriveControl
    reads car, car.body, set c | c in cars :: c.body
  {
    Steering(car.forwardSpeed, car.params, speedBias, angleError,
             host.hypot(target.x - car.body.x, target.y - car.body.y),
             Closest(ProbeOf(car, 90.0, host), Sightings(cars)))
  }

  /** The host bearing from the car to `target`, minus the car's heading, before wrapping. */
  function Bearing(car: Car, target: Vec, host: Host): real
    reads car, car.body
  {
    host.atan2(target.y - car.body.y, target.x - car.body.x) - car.angle
  }

  /**
   * driveTowardTarget. The heading error is returned too: the host bearing
   * minus the car's angle, wrapped by whole turns into [-pi, pi].
   */
  method DriveTowardTarget(car: Car, target: Vec, speedBias: real, cars: seq<Car>, host: Host)
    returns (ctl: DriveControl, angleError: real, ghost turns: int)
    ensures WrappedBy(Bearing(car, target, host), angleError, turns)
    ensures ctl == Tracking(car, target, speedBias, angleError, cars, host)
  {
    var dx := target.x - car.body.x;
    var dy := target.y - car.body.y;
    var distance := host.hypot(dx, dy);
    var targetAngle := host.atan2(dy, dx);
    angleError, turns := NormalizeAngle(targetAngle - car.angle);
    var steer := SteerToward(angleError);
    var targetSpeed := TargetSpeed(car.params.cruiseSpeed, speedBias, angleError);
    var currentSpeed := car.forwardSpeed;
    var throttle := if currentSpeed < targetSpeed - 8.0 then 1.0 else -0.25;
    var brake := if currentSpeed > targetSpeed + 28.0 then 1.0 else 0.0;
    var obstacle := DetectObstacleAhead(car, cars, 90.0, host);
    if obstacle.Some? {
      if obstacle.value < 45.0 {
        throttle, brake := -0.8, 1.0;
      } else if obstacle.value < 80.0 {
        throttle, brake := -0.4, 0.6;
      }
    }
    ctl := DriveControl(throttle, brake, steer, distance);
  }

  /** The driver's pedals and steering are already in the ranges updateVehicle clamps to. */
  lemma SteeringNeedsNoClamp(currentSpeed: real, p: CarParams, speedBias: real, angleError: real,
                             distance: real, obstacle: Option<real>)
    ensures var d := Steering(currentSpeed, p, speedBias, angleError, distance, obstacle);
      ClampControl(Control(d.throttle, d.brake, d.steer)) == Control(d.throttle, d.brake, d.steer)
  {
  }

  /** An obstacle nearer than 45 forces full brake and reverse throttle; beyond 80 it is ignored. */
  lemma PedalsForObstacle(currentSpeed: real, targetSpeed: real, d: real)
    ensures d < 45.0 ==> Pedals(currentSpeed, targetSpeed, Some(d)) == (-0.8, 1.0)
    ensures 45.0 <= d < 80.0 ==> Pedals(currentSpeed, targetSpeed, Some(d)) == (-0.4, 0.6)
    ensures d >= 80.0 ==> Pedals(currentSpeed, targetSpeed, Some(d)) == Pedals(currentSpeed, targetSpeed, None)
  {
  }

  /** A nearer obstacle never gives more throttle. */
  lemma ThrottleMonotoneInObstacle(currentSpeed: real, targetSpeed: real, near: real, far: Option<real>)
    requires far.Some? ==> near <= far.value
    ensures Pedals(currentSpeed, targetSpeed, Some(near)).0 <= Pedals(currentSpeed, targetSpeed, far).0
  {
  }

  /** Steering turns toward the target: same sign as the heading error. */
  lemma SteerTowardError(angleError: real)
    ensures angleError > 0.0 ==> SteerToward(angleError) > 0.0
    ensures angleError < 0.0 ==> SteerToward(angleError) < 0.0
    ensures angleError == 0.0 ==> SteerToward(angleError) == 0.0
  {
  }

  /** The aimed-for speed lies between 28% and 100% of the biased cruise speed. */
  lemma TargetSpeedRange(cruiseSpeed: real, speedBias: real, angleError: real)
    requires cruiseSpeed * speedBias >= 0.0
    ensures var c := cruiseSpeed * speedBias;
      0.28 * c <= TargetSpeed(cruiseSpeed, speedBias, angleError) <= c
  {
    var c := cruiseSpeed * speedBias;
    var t := TurnPenalty(angleError);
    assert TargetSpeed(cruiseSpeed, speedBias, angleError) == c - c * t;
    assert 0.0 <= c * t <= c * 0.72;
  }

  // ---------------------------------------------------------------------------
  // computeTrafficControl
  // ---------------------------------------------------------------------------

  const WAYPOINT_RADIUS: real := 36.0

  /** The waypoint index after one step: advance cyclically once within reach. */
  function NextWaypoint(index: nat, count: nat, distance: real): (next: nat)
    requires index < count
    ensures next < count
    ensures distance < WAYPOINT_RADIUS ==> next == Advance(index, count, 1)
    ensures distance >= WAYPOINT_RADIUS ==> next == index
  {
    if distance < WAYPOINT_RADIUS then NextIndex(index, count) else index
  }

  method ComputeTrafficControl(car: Car, cars: seq<Car>, host: Host)
    returns (ctl: DriveControl, angleError: real, ghost turns: int)
    requires car.Valid()
    modifies car
    ensures car.Valid()
    ensures car.pathIndex == NextWaypoint(old(car.pathIndex), |car.path|, ctl.distance)
    ensures WrappedBy(old(Bearing(car, car.path[car.pathIndex], host)), angleError, turns)
    ensures ctl == old(Tracking(car, car.path[car.pathIndex], 1.0, angleError, cars, host))
    ensures car.angle == old(car.angle) && car.forwardSpeed == old(car.forwardSpeed)
    ensures car.sirenPhase == old(car.sirenPhase)
  {
    var target := car.path[car.pathIndex];
    ctl, angleError, turns := DriveTowardTarget(car, target, 1.0, cars, host);
    if ctl.distance < WAYPOINT_RADIUS {
      car.pathIndex := NextIndex(car.pathIndex, |car.path|);
    }
  }

  /** The waypoint after `index` on a cyclic path of `count` waypoints. */
  function NextIndex(index: nat, count: nat): (next: nat)
    requires index < count
    ensures next == if index + 1 == count then 0 else index + 1
  {
    (index + 1) % count
  }

  /** The index after `steps` advances. */
  function Advance(index: nat, count: nat, steps: nat): (next: nat)
    requires index < count
    ensures next < count
  {
    if steps == 0 then index else NextIndex(Advance(index, count, steps - 1), count)
  }

  /** Within one lap, advancing `steps` times moves the index `steps` places around the cycle. */
  lemma {:induction false} AdvanceWraps(index: nat, count: nat, steps: nat)
    requires index < count && steps <= count
    ensures Advance(index, count, steps)
      == if index + steps < count then index + steps else index + steps - count
  {
    if steps > 0 {
      AdvanceWraps(index, count, steps - 1);
    }
  }

  /** A car reaching every waypoint in turn returns to where it started after a full lap. */
  lemma LapReturns(index: nat, count: nat)
    requires index < count
    ensures Advance(index, count, count) == index
  {
    AdvanceWraps(index, count, count);
  }
}
