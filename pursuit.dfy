/**
 * The player and the police: the wanted level and busted meter (addWanted, updateWanted),
 * car lookup and the pursuit anchor (getCarById, getPlayerAnchor), police steering
 * (computePoliceControl) and getting into the nearest car (enterNearestCar).
 */
module Pursuit {
  import opened Options
  import opened Numeric
  import opened Geometry
  import opened Vehicles

  const MAX_WANTED: real := 5.0
  /** Seconds without a crime before the wanted level starts to fall. */
  const QUIET_PERIOD: real := 10.0
  /** Wanted level above which nearby police fill the busted meter. */
  const CHASE_WANTED: real := 0.15
  /** Wanted level above which police cars chase instead of patrolling. */
  const PURSUIT_WANTED: real := 0.2
  const BUST_RANGE: real := 78.0
  const INTERACTION_RANGE: real := 58.0
  const SPAWN: Vec := Vec(540.0, 460.0)

  /** The parts of the player that updateWanted can change. */
  datatype Avatar = Avatar(pos: Vec, vel: Vec, health: real, inCarId: Option<int>)

  /** The pursuit fields of the game state. */
  datatype Heat = Heat(wanted: real, lastCrimeTime: real, bustedMeter: real, collisionFlash: real)

  class Player {
    const body: Body
    var facing: real
    var health: real
    var inCarId: Option<int>

    /** The player as resetWorld creates them: on foot at (520, 460) with full health. */
    constructor ()
      ensures fresh(body) && body.State() == Disc(Vec(520.0, 460.0), Vec(0.0, 0.0), 13.0, 85.0)
      ensures facing == 0.0 && health == 100.0 && inCarId == None
    {
      body := new Body(520.0, 460.0, 13.0, 85.0);
      facing, health, inCarId := 0.0, 100.0, None;
    }

    function State(): Avatar
      reads this, body
    {
      Avatar(Vec(body.x, body.y), Vec(body.vx, body.vy), health, inCarId)
    }
  }

  class Sim {
    var time: real
    var wanted: real
    var lastCrimeTime: real
    var bustedMeter: real
    var collisionFlash: real
    const player: Player
    var cars: seq<Car>

    /** The wanted level stays within [0, 5]; the busted meter is always below 1. */
    ghost predicate Valid()
      reads this
    {
      0.0 <= wanted <= MAX_WANTED && 0.0 <= bustedMeter < 1.0 && collisionFlash >= 0.0
    }

    constructor (player: Player, cars: seq<Car>)
      ensures this.player == player && this.cars == cars && time == 0.0
      ensures State() == Heat(0.0, -9999.0, 0.0, 0.0) && Valid()
    {
      this.player, this.cars := player, cars;
      time, wanted, lastCrimeTime, bustedMeter, collisionFlash := 0.0, 0.0, -9999.0, 0.0, 0.0;
    }

    function State(): Heat
      reads this
    {
      Heat(wanted, lastCrimeTime, bustedMeter, collisionFlash)
    }

    /** addWanted: raise (or lower) the wanted level within [0, 5] and stamp the crime time. */
    method AddWanted(amount: real)
      requires Valid()
      modifies this
      ensures Valid()
      ensures State() == old(State()).(wanted := Raise(old(wanted), amount), lastCrimeTime := old(time))
      ensures time == old(time) && cars == old(cars)
      ensures 0.0 <= wanted <= MAX_WANTED
    {
      wanted := Clamp(wanted + amount, 0.0, MAX_WANTED);
      lastCrimeTime := time;
    }

    /** updateWanted, with the nearest police car measured by NearestPolice. */
    method UpdateWanted(dt: real, host: Host)
      requires Valid() && dt >= 0.0
      modifies this, player, player.body
      ensures Valid()
      ensures (State(), player.State())
        == WantedStep(old(time), dt, old(State()), old(player.State()),
                      old(NearestPolice(Sightings(cars), Anchor(player, cars), host)))
      ensures time == old(time) && cars == old(cars) && player.facing == old(player.facing)
    {
      // The anchor depends only on the player and the cars, which the meter phase leaves alone.
      var anchor := Anchor(player, cars);
      UpdateMeter(dt, anchor, host);
      Bust();
      Revive();
      collisionFlash := Max(0.0, collisionFlash - dt * 0.65);
      WantedStepKeepsRanges(old(time), dt, old(State()), old(player.State()),
                            old(NearestPolice(Sightings(cars), Anchor(player, cars), host)));
    }

    /** The first half of updateWanted: the wanted level decays, then the busted meter moves. */
    method UpdateMeter(dt: real, anchor: Vec, host: Host)
      modifies this
      ensures State() == Metered(old(time), dt, old(State()), NearestPolice(Sightings(cars), anchor, host))
      ensures time == old(time) && cars == old(cars)
    {
      DecayWanted(dt);
      if wanted > CHASE_WANTED {
        var closestPolice := ClosestPolice(cars, anchor, host);
        if closestPolice.Some? && closestPolice.value < BUST_RANGE {
          bustedMeter := Fill(bustedMeter, wanted, dt);
        } else {
          bustedMeter := Drain(bustedMeter, dt * 0.22);
        }
      } else {
        bustedMeter := Drain(bustedMeter, dt * 0.4);
      }
    }

    /** After a quiet period the wanted level falls by 0.1 per second, down to 0. */
    method DecayWanted(dt: real)
      modifies this
      ensures State() == old(State()).(wanted := Decay(old(wanted), time - lastCrimeTime, dt))
      ensures time == old(time) && cars == old(cars)
    {
      if time - lastCrimeTime > QUIET_PERIOD {
        wanted := Drain(wanted, dt * 0.1);
      }
    }

    /** A full busted meter: meter and wanted level cleared, the player respawned with a health penalty. */
    method Bust()
      modifies this, player, player.body
      ensures (State(), player.State()) == Busted(old(State()), old(player.State()))
      ensures time == old(time) && cars == old(cars) && player.facing == old(player.facing)
    {
      if bustedMeter >= 1.0 {
        bustedMeter := 0.0;
        wanted := 0.0;
        player.health := Max(35.0, player.health - 15.0);
        Respawn(player);
      }
    }

    /** No health left: the player respawns with full health and the wanted level drops by one. */
    method Revive()
      modifies this, player, player.body
      ensures (State(), player.State()) == Revived(old(State()), old(player.State()))
      ensures time == old(time) && cars == old(cars) && player.facing == old(player.facing)
    {
      if player.health <= 0.0 {
        player.health := 100.0;
        Respawn(player);
        wanted := Max(0.0, wanted - 1.0);
      }
    }

    /** computePoliceControl: chase the player's anchor when wanted, otherwise patrol the path. */
    method ComputePoliceControl(car: Car, host: Host)
      returns (ctl: DriveControl, angleError: real, ghost turns: int)
      requires car.Valid()
      modifies car
      ensures car.Valid()
      ensures wanted > PURSUIT_WANTED ==>
        && WrappedBy(Bearing(car, Anchor(player, cars), host), angleError, turns)
        && ctl == Chase(Tracking(car, Anchor(player, cars), 1.55, angleError, cars, host))
        && car.pathIndex == old(car.pathIndex)
      ensures wanted <= PURSUIT_WANTED ==>
        && WrappedBy(old(Bearing(car, car.path[car.pathIndex], host)), angleError, turns)
        && ctl == Patrol(old(Tracking(car, car.path[car.pathIndex], 1.0, angleError, cars, host)))
        && car.pathIndex == NextWaypoint(old(car.pathIndex), |car.path|, ctl.distance)
      ensures car.angle == old(car.angle) && car.forwardSpeed == old(car.forwardSpeed)
      ensures car.sirenPhase == old(car.sirenPhase)
    {
      if wanted > PURSUIT_WANTED {
        var anchor := Anchor(player, cars);
        ctl, angleError, turns := DriveTowardTarget(car, anchor, 1.55, cars, host);
        if ctl.distance < 110.0 {
          ctl := ctl.(brake := Max(ctl.brake, 0.6));
          ctl := ctl.(throttle := Min(ctl.throttle, 0.3));
        }
        return;
      }
      ctl, angleError, turns := ComputeTrafficControl(car, cars, host);
      ctl := ctl.(throttle := Max(ctl.throttle, 0.35));
    }

    /**
     * enterNearestCar: take over the first car whose centre is nearest to the player and
     * closer than the interaction range; do nothing when there is none.
     */
    method EnterNearestCar(host: Host)
      modifies player, player.body
      ensures var k := old(NearestCar(Sightings(cars), Vec(player.body.x, player.body.y), host));
        && (k.None? ==> player.State() == old(player.State()) && player.facing == old(player.facing))
        && (k.Some? ==>
              && player.inCarId == Some(cars[k.value].id)
              && player.body.State().pos == old(cars[k.value].body.State().pos)
              && player.body.State().vel == old(cars[k.value].body.State().vel)
              && player.facing == old(cars[k.value].angle)
              && player.health == old(player.health))
    {
      var from := Vec(player.body.x, player.body.y);
      var nearest := FindNearestCar(cars, from, host);
      if nearest.None? {
        return;
      }
      var car := cars[nearest.value];
      var x, y, vx, vy := car.body.x, car.body.y, car.body.vx, car.body.vy;
      var facing := car.angle;
      player.inCarId := Some(car.id);
      player.body.x, player.body.y := x, y;
      player.body.vx, player.body.vy := vx, vy;
      player.facing := facing;
    }
  }

  /** The loop of enterNearestCar: the first car nearest to `from` within the interaction range. */
  method FindNearestCar(cars: seq<Car>, from: Vec, host: Host) returns (nearest: Option<nat>)
    ensures nearest == NearestCar(Sightings(cars), from, host)
  {
    nearest := None;
    var minDist := INTERACTION_RANGE;
    for i := 0 to |cars|
      invariant nearest == NearestCar(Sightings(cars[..i]), from, host)
      invariant minDist == NearestBound(Sightings(cars[..i]), from, host)
    {
      SightingsExtend(cars, i);
      NearestCarExtend(Sightings(cars[..i]), SightingOf(cars[i]), from, host);
      var car := cars[i];
      var dx := car.body.x - from.x;
      var dy := car.body.y - from.y;
      var distance := host.hypot(dx, dy);
      if distance < minDist {
        minDist := distance;
        nearest := Some(i);
      }
    }
    assert cars[..|cars|] == cars;
  }

  /** Put the player back at the spawn point, on foot and at rest. */
  method Respawn(player: Player)
    modifies player, player.body
    ensures player.State() == Avatar(SPAWN, Vec(0.0, 0.0), old(player.health), None)
    ensures player.facing == old(player.facing)
  {
    player.inCarId := None;
    player.body.x := 540.0;
    player.body.y := 460.0;
    player.body.vx := 0.0;
    player.body.vy := 0.0;
  }

  // ---------------------------------------------------------------------------
  // addWanted
  // ---------------------------------------------------------------------------

  /** The wanted level after a crime of weight `amount`, kept within [0, 5]. */
  function Raise(wanted: real, amount: real): (w: real)
    ensures 0.0 <= w <= MAX_WANTED
    ensures 0.0 <= wanted + amount <= MAX_WANTED ==> w == wanted + amount
    ensures wanted + amount > MAX_WANTED ==> w == MAX_WANTED
    ensures wanted + amount < 0.0 ==> w == 0.0
  {
    Clamp(wanted + amount, 0.0, MAX_WANTED)
  }

  // ---------------------------------------------------------------------------
  // getCarById, getPlayerAnchor
  // ---------------------------------------------------------------------------

  /** The position of the first car with the given id. */
  function CarIndex(cars: seq<Car>, id: int): (k: Option<nat>)
    ensures k.None? <==> forall i :: 0 <= i < |cars| ==> cars[i].id != id
    ensures k.Some? ==> k.value < |cars| && cars[k.value].id == id
    ensures k.Some? ==> forall j :: 0 <= j < k.value ==> cars[j].id != id
  {
    if cars == [] then None
    else if cars[0].id == id then Some(0)
    else
      match CarIndex(cars[1..], id)
      case None => None
      case Some(j) => Some(j + 1)
  }

  /** getCarById: the first car with the given id, or nothing. */
  function GetCarById(cars: seq<Car>, id: int): (r: Option<Car>)
    ensures r.None? <==> forall i :: 0 <= i < |cars| ==> cars[i].id != id
    ensures r.Some? ==> r.value in cars && r.value.id == id
    ensures r.Some? ==> CarIndex(cars, id).Some? && r.value == cars[CarIndex(cars, id).value]
  {
    match CarIndex(cars, id)
    case None => None
    case Some(k) => Some(cars[k])
  }

  /** getPlayerAnchor: the player's car when they are in one that exists, else the player. */
  function Anchor(player: Player, cars: seq<Car>): Vec
    reads player, player.body, set c | c in cars :: c.body
  {
    var onFoot := Vec(player.body.x, player.body.y);
    match player.inCarId
    case None => onFoot
    case Some(id) =>
      match GetCarById(cars, id)
      case None => onFoot
      case Some(car) => Vec(car.body.x, car.body.y)
  }

  /** The anchor is the first car with the player's car id, or the player on foot. */
  lemma AnchorChoice(player: Player, cars: seq<Car>)
    ensures player.inCarId.None? ==> Anchor(player, cars) == Vec(player.body.x, player.body.y)
    ensures player.inCarId.Some? && CarIndex(cars, player.inCarId.value).None? ==>
      Anchor(player, cars) == Vec(player.body.x, player.body.y)
    ensures player.inCarId.Some? && CarIndex(cars, player.inCarId.value).Some? ==>
      var k := CarIndex(cars, player.inCarId.value).value;
      Anchor(player, cars) == Vec(cars[k].body.x, cars[k].body.y)
  {
  }

  // ---------------------------------------------------------------------------
  // updateWanted
  // ---------------------------------------------------------------------------

  function Distance(s: Sighting, from: Vec, host: Host): real {
    host.hypot(s.pos.x - from.x, s.pos.y - from.y)
  }

  /** The distance from `from` to the nearest police car (None stands for Infinity). */
  function NearestPolice(cars: seq<Sighting>, from: Vec, host: Host): Option<real> {
    if cars == [] then None
    else
      var rest := NearestPolice(cars[..|cars| - 1], from, host);
      var last := cars[|cars| - 1];
      if !last.police then rest
      else if rest.Some? then Some(Min(rest.value, Distance(last, from, host)))
      else Some(Distance(last, from, host))
  }

  /** NearestPolice is the least distance over the police cars, and None when there are none. */
  lemma {:induction false} NearestPoliceIsMinimum(cars: seq<Sighting>, from: Vec, host: Host)
    ensures NearestPolice(cars, from, host).None? <==> forall i :: 0 <= i < |cars| ==> !cars[i].police
    ensures NearestPolice(cars, from, host).Some? ==>
      && (exists i :: 0 <= i < |cars| && cars[i].police && Distance(cars[i], from, host) == NearestPolice(cars, from, host).value)
      && (forall i :: 0 <= i < |cars| && cars[i].police ==> NearestPolice(cars, from, host).value <= Distance(cars[i], from, host))
  {
    if cars != [] {
      var prefix := cars[..|cars| - 1];
      NearestPoliceIsMinimum(prefix, from, host);
      var last := |cars| - 1;
      assert forall i :: 0 <= i < last ==> cars[i] == prefix[i];
      var d := NearestPolice(cars, from, host);
      if d.Some? {
        if cars[last].police && d.value == Distance(cars[last], from, host) {
          assert cars[last].police;
        } else {
          var j :| 0 <= j < |prefix| && prefix[j].police && Distance(prefix[j], from, host) == d.value;
          assert cars[j] == prefix[j];
        }
      }
    }
  }

  /** The loop of updateWanted that measures the distance to the nearest police car. */
  method ClosestPolice(cars: seq<Car>, anchor: Vec, host: Host) returns (closest: Option<real>)
    ensures closest == NearestPolice(Sightings(cars), anchor, host)
  {
    closest := None;
    for i := 0 to |cars|
      invariant closest == NearestPolice(Sightings(cars[..i]), anchor, host)
    {
      var car := cars[i];
      SightingsExtend(cars, i);
      NearestPoliceExtend(Sightings(cars[..i]), SightingOf(car), anchor, host);
      if !car.police {
        continue;
      }
      var distance := host.hypot(car.body.x - anchor.x, car.body.y - anchor.y);
      closest := if closest.Some? then Some(Min(closest.value, distance)) else Some(distance);
    }
    assert cars[..|cars|] == cars;
  }

  lemma NearestPoliceExtend(cars: seq<Sighting>, s: Sighting, from: Vec, host: Host)
    ensures var rest := NearestPolice(cars, from, host);
      NearestPolice(cars + [s], from, host)
      == if !s.police then rest
         else if rest.Some? then Some(Min(rest.value, Distance(s, from, host)))
         else Some(Distance(s, from, host))
  {
    var all := cars + [s];
    assert all[..|all| - 1] == cars && all[|all| - 1] == s;
  }

  /** The wanted level after the decay rule: it falls only after a quiet period, never below 0. */
  function Decay(wanted: real, sinceCrime: real, dt: real): real {
    if sinceCrime > QUIET_PERIOD then Drain(wanted, dt * 0.1) else wanted
  }

  /** Lower a level by `amount`, but not below 0. */
  function Drain(level: real, amount: real): (r: real)
    ensures amount >= 0.0 && level >= 0.0 ==> 0.0 <= r <= level
    ensures r == 0.0 || r == level - amount
  {
    Max(0.0, level - amount)
  }

  /** The busted meter near a police car fills faster the higher the wanted level, up to 1. */
  function Fill(meter: real, wanted: real, dt: real): (r: real)
    ensures 0.0 <= r <= 1.0
    ensures dt >= 0.0 && wanted >= 0.0 && meter <= 1.0 ==> r >= meter
  {
    Clamp(meter + dt * (0.34 + wanted * 0.16), 0.0, 1.0)
  }

  /** The busted meter fills near police while wanted, and drains otherwise. */
  function MeterStep(meter: real, wanted: real, dt: real, closestPolice: Option<real>): real {
    if wanted > CHASE_WANTED then
      if closestPolice.Some? && closestPolice.value < BUST_RANGE then
        Fill(meter, wanted, dt)
      else Drain(meter, dt * 0.22)
    else Drain(meter, dt * 0.4)
  }

  /** The pursuit state after the decay and the meter update. */
  function Metered(time: real, dt: real, h: Heat, closestPolice: Option<real>): Heat {
    var wanted := Decay(h.wanted, time - h.lastCrimeTime, dt);
    h.(wanted := wanted, bustedMeter := MeterStep(h.bustedMeter, wanted, dt, closestPolice))
  }

  function Respawned(a: Avatar, health: real): Avatar {
    Avatar(SPAWN, Vec(0.0, 0.0), health, None)
  }

  /** A full meter busts the player: meter and wanted cleared, respawn with a health penalty. */
  function Busted(h: Heat, a: Avatar): (Heat, Avatar) {
    if h.bustedMeter >= 1.0 then (h.(bustedMeter := 0.0, wanted := 0.0), Respawned(a, Max(35.0, a.health - 15.0)))
    else (h, a)
  }

  /** A player with no health respawns with full health and one wanted star less. */
  function Revived(h: Heat, a: Avatar): (Heat, Avatar) {
    if a.health <= 0.0 then (h.(wanted := Max(0.0, h.wanted - 1.0)), Respawned(a, 100.0))
    else (h, a)
  }

  /** updateWanted as a function of the time, the step, the state and the nearest police distance. */
  function WantedStep(time: real, dt: real, h: Heat, a: Avatar, closestPolice: Option<real>): (Heat, Avatar) {
    var metered := Metered(time, dt, h, closestPolice);
    var busted := Busted(metered, a);
    var revived := Revived(busted.0, busted.1);
    (revived.0.(collisionFlash := Max(0.0, h.collisionFlash - dt * 0.65)), revived.1)
  }

  /** A step keeps the wanted level in [0, 5], the meter in [0, 1) and the flash non-negative. */
  lemma WantedStepKeepsRanges(time: real, dt: real, h: Heat, a: Avatar, closestPolice: Option<real>)
    requires dt >= 0.0 && 0.0 <= h.wanted <= MAX_WANTED
    ensures var n := WantedStep(time, dt, h, a, closestPolice).0;
      0.0 <= n.wanted <= MAX_WANTED && 0.0 <= n.bustedMeter < 1.0 && n.collisionFlash >= 0.0
      && n.lastCrimeTime == h.lastCrimeTime
  {
    var wanted := Decay(h.wanted, time - h.lastCrimeTime, dt);
    assert 0.0 <= wanted <= h.wanted;
  }

  /** Without a new crime the wanted level never rises, and within the quiet period only a bust or a respawn lowers it. */
  lemma WantedNeverRisesAlone(time: real, dt: real, h: Heat, a: Avatar, closestPolice: Option<real>)
    requires dt >= 0.0 && h.wanted >= 0.0
    ensures WantedStep(time, dt, h, a, closestPolice).0.wanted <= h.wanted
    ensures time - h.lastCrimeTime <= QUIET_PERIOD
            && MeterStep(h.bustedMeter, h.wanted, dt, closestPolice) < 1.0 && a.health > 0.0
            ==> WantedStep(time, dt, h, a, closestPolice).0.wanted == h.wanted
  {
    var wanted := Decay(h.wanted, time - h.lastCrimeTime, dt);
    assert 0.0 <= wanted <= h.wanted;
  }

  /**
   * A full meter busts the player: meter and wanted go to 0, the player respawns on foot
   * at rest with health max(35, health - 15), so the no-health reset cannot follow.
   */
  lemma BustResets(time: real, dt: real, h: Heat, a: Avatar, closestPolice: Option<real>)
    requires MeterStep(h.bustedMeter, Decay(h.wanted, time - h.lastCrimeTime, dt), dt, closestPolice) >= 1.0
    ensures var n := WantedStep(time, dt, h, a, closestPolice);
      && n.0.wanted == 0.0 && n.0.bustedMeter == 0.0
      && n.1 == Avatar(SPAWN, Vec(0.0, 0.0), Max(35.0, a.health - 15.0), None)
      && n.1.health >= 35.0
  {
  }

  /** With no health left (and no bust) the player respawns with 100 health and one star less. */
  lemma HealthResets(time: real, dt: real, h: Heat, a: Avatar, closestPolice: Option<real>)
    requires MeterStep(h.bustedMeter, Decay(h.wanted, time - h.lastCrimeTime, dt), dt, closestPolice) < 1.0
    requires a.health <= 0.0
    ensures var n := WantedStep(time, dt, h, a, closestPolice);
      && n.1 == Avatar(SPAWN, Vec(0.0, 0.0), 100.0, None)
      && n.0.wanted == Max(0.0, Decay(h.wanted, time - h.lastCrimeTime, dt) - 1.0)
      && n.0.bustedMeter == MeterStep(h.bustedMeter, Decay(h.wanted, time - h.lastCrimeTime, dt), dt, closestPolice)
  {
  }

  /** Without a bust or a respawn the player is left exactly as they were. */
  lemma AvatarUntouched(time: real, dt: real, h: Heat, a: Avatar, closestPolice: Option<real>)
    requires MeterStep(h.bustedMeter, Decay(h.wanted, time - h.lastCrimeTime, dt), dt, closestPolice) < 1.0
    requires a.health > 0.0
    ensures WantedStep(time, dt, h, a, closestPolice).1 == a
  {
  }

  /** Away from the police (or when barely wanted) the meter only drains. */
  lemma MeterDrainsAwayFromPolice(meter: real, wanted: real, dt: real, closestPolice: Option<real>)
    requires dt >= 0.0 && meter >= 0.0
    requires wanted <= CHASE_WANTED || closestPolice.None? || closestPolice.value >= BUST_RANGE
    ensures MeterStep(meter, wanted, dt, closestPolice) <= meter
  {
  }

  // ---------------------------------------------------------------------------
  // computePoliceControl
  // ---------------------------------------------------------------------------

  /** Close to the player a chasing police car brakes and eases off the throttle. */
  function Chase(ctl: DriveControl): (c: DriveControl)
    ensures c.distance == ctl.distance && c.steer == ctl.steer
    ensures ctl.distance < 110.0 ==> c.brake >= 0.6 && c.throttle <= 0.3
    ensures ctl.distance >= 110.0 ==> c == ctl
  {
    if ctl.distance < 110.0 then ctl.(brake := Max(ctl.brake, 0.6), throttle := Min(ctl.throttle, 0.3)) else ctl
  }

  /** A patrolling police car always keeps some throttle on. */
  function Patrol(ctl: DriveControl): (c: DriveControl)
    ensures c.throttle >= 0.35 && c.throttle >= ctl.throttle
    ensures c.(throttle := ctl.throttle) == ctl
  {
    ctl.(throttle := Max(ctl.throttle, 0.35))
  }

  /** The police adjustments keep the driver's pedals inside the ranges updateVehicle clamps to. */
  lemma PoliceControlNeedsNoClamp(d: DriveControl)
    requires ClampControl(Control(d.throttle, d.brake, d.steer)) == Control(d.throttle, d.brake, d.steer)
    ensures var c := Chase(d); ClampControl(Control(c.throttle, c.brake, c.steer)) == Control(c.throttle, c.brake, c.steer)
    ensures var c := Patrol(d); ClampControl(Control(c.throttle, c.brake, c.steer)) == Control(c.throttle, c.brake, c.steer)
  {
  }

  // ---------------------------------------------------------------------------
  // enterNearestCar
  // ---------------------------------------------------------------------------

  /** The index of the first car nearest to `from`, if it is within the interaction range. */
  function NearestCar(cars: seq<Sighting>, from: Vec, host: Host): (k: Option<nat>)
    ensures k.Some? ==> k.value < |cars|
  {
    if cars == [] then None
    else
      var rest := NearestCar(cars[..|cars| - 1], from, host);
      var bound := if rest.Some? then Distance(cars[rest.value], from, host) else INTERACTION_RANGE;
      if Distance(cars[|cars| - 1], from, host) < bound then Some(|cars| - 1) else rest
  }

  /** The distance the next car has to beat: that of the nearest car so far, or the interaction range. */
  function NearestBound(cars: seq<Sighting>, from: Vec, host: Host): real {
    match NearestCar(cars, from, host)
    case None => INTERACTION_RANGE
    case Some(k) => Distance(cars[k], from, host)
  }

  lemma NearestCarExtend(cars: seq<Sighting>, s: Sighting, from: Vec, host: Host)
    ensures NearestCar(cars + [s], from, host)
      == if Distance(s, from, host) < NearestBound(cars, from, host) then Some(|cars|) else NearestCar(cars, from, host)
    ensures NearestBound(cars + [s], from, host)
      == if Distance(s, from, host) < NearestBound(cars, from, host) then Distance(s, from, host) else NearestBound(cars, from, host)
  {
    var all := cars + [s];
    assert all[..|all| - 1] == cars && all[|all| - 1] == s;
    var rest := NearestCar(cars, from, host);
    if rest.Some? {
      assert all[rest.value] == cars[rest.value];
    }
  }

  /**
   * NearestCar finds a car within range exactly when there is one; the car it finds is at
   * least as near as every other, and strictly nearer than every earlier one.
   */
  lemma {:induction false} NearestCarIsFirstMinimum(cars: seq<Sighting>, from: Vec, host: Host)
    ensures NearestCar(cars, from, host).None? <==>
      forall i :: 0 <= i < |cars| ==> Distance(cars[i], from, host) >= INTERACTION_RANGE
    ensures NearestCar(cars, from, host).Some? ==>
      var k := NearestCar(cars, from, host).value;
      && Distance(cars[k], from, host) < INTERACTION_RANGE
      && (forall i :: 0 <= i < |cars| ==> Distance(cars[k], from, host) <= Distance(cars[i], from, host))
      && (forall i :: 0 <= i < k ==> Distance(cars[k], from, host) < Distance(cars[i], from, host))
  {
    if cars != [] {
      var prefix := cars[..|cars| - 1];
      NearestCarIsFirstMinimum(prefix, from, host);
      var last := |cars| - 1;
      assert forall i :: 0 <= i < last ==> cars[i] == prefix[i];
    }
  }
}
