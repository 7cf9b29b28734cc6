// Circle against circle (resolveDynamicCircle): two moving bodies that overlap are pushed
// apart along the line between their centres, in proportion to their inverse masses, and
// when they approach each other an impulse with a restitution coefficient is exchanged.

module Dynamics {
  import opened Numeric
  import opened Geometry

  /** Centres closer than this count as coincident; the normal then defaults to +x. */
  const COINCIDENT_DISTANCE: real := 0.0001
  /** The share of the overlap one resolution removes. */
  const SEPARATION_FRACTION: real := 0.96

  /** A mass floored at one, so that no body is treated as infinitely light. */
  function FlooredMass(mass: real): (m: real)
    ensures m >= 1.0 && m >= mass
  {
    Max(1.0, mass)
  }

  function InverseMass(mass: real): (inv: real)
    ensures inv > 0.0
  {
    1.0 / FlooredMass(mass)
  }

  /** The discs overlap: the squared centre distance is below the squared sum of radii. */
  predicate Overlapping(a: Disc, b: Disc) {
    var off := Sub(b.pos, a.pos);
    Dot(off, off) < (a.r + b.r) * (a.r + b.r)
  }

  /** The direction from a to b and the centre distance the separation starts from. */
  datatype PairContact = PairContact(normal: Vec, dist: real)

  /**
   * The host's square root of the squared centre distance gives the normal; when the
   * centres coincide the normal is +x and the distance is taken to be the sum of radii.
   */
  function ContactOf(a: Disc, b: Disc, host: Host): (k: PairContact)
    ensures Coincident(a, b, host) ==> k == PairContact(Vec(1.0, 0.0), a.r + b.r)
    ensures !Coincident(a, b, host) ==> k.dist > COINCIDENT_DISTANCE
  {
    var off := Sub(b.pos, a.pos);
    var dist := host.sqrt(Dot(off, off));
    if dist > COINCIDENT_DISTANCE then PairContact(Vec(off.x / dist, off.y / dist), dist)
    else PairContact(Vec(1.0, 0.0), a.r + b.r)
  }

  /** The host's distance between the centres is too small to normalise the offset. */
  predicate Coincident(a: Disc, b: Disc, host: Host) {
    host.sqrt(Dot(Sub(b.pos, a.pos), Sub(b.pos, a.pos))) <= COINCIDENT_DISTANCE
  }

  /** The separation both bodies share: 96% of the overlap. */
  function Separation(a: Disc, b: Disc, k: PairContact): real {
    (a.r + b.r - k.dist) * SEPARATION_FRACTION
  }

  /** Both discs moved apart along the normal, each by its inverse-mass share of the separation. */
  function Separate(a: Disc, b: Disc, k: PairContact): (res: (Disc, Disc))
    ensures res.0.vel == a.vel && res.1.vel == b.vel
    ensures res.0.r == a.r && res.0.mass == a.mass && res.1.r == b.r && res.1.mass == b.mass
  {
    var ia := InverseMass(a.mass);
    var ib := InverseMass(b.mass);
    var separation := Separation(a, b, k);
    MoveApart(a, b, k.normal, Share(separation, ia, ib), Share(separation, ib, ia))
  }

  /** The part of the separation taken by the body with inverse mass inv. */
  function Share(separation: real, inv: real, otherInv: real): real
    requires inv + otherInv > 0.0
  {
    separation * inv / (inv + otherInv)
  }

  /** a moved back along n by shareA, b moved forward along n by shareB. */
  function MoveApart(a: Disc, b: Disc, n: Vec, shareA: real, shareB: real): (Disc, Disc) {
    (a.(pos := Sub(a.pos, Scale(n, shareA))), b.(pos := Add(b.pos, Scale(n, shareB))))
  }

  /** The velocity of b relative to a, along n. */
  function ApproachSpeed(a: Disc, b: Disc, n: Vec): real {
    Dot(Sub(b.vel, a.vel), n)
  }

  /**
   * The velocity response: when the discs already move apart along n nothing changes and
   * the impact is zero; otherwise each receives its inverse-mass share of the impulse
   * -(1 + restitution) * approach / (sum of inverse masses), and the impact is the speed of
   * approach.
   */
  function Bounce(a: Disc, b: Disc, n: Vec, restitution: real): (res: (real, Disc, Disc))
    ensures ApproachSpeed(a, b, n) >= 0.0 ==> res == (0.0, a, b)
    ensures ApproachSpeed(a, b, n) < 0.0 ==> res.0 == -ApproachSpeed(a, b, n) > 0.0
    ensures res.1.pos == a.pos && res.2.pos == b.pos
    ensures res.1.r == a.r && res.1.mass == a.mass && res.2.r == b.r && res.2.mass == b.mass
  {
    var approach := ApproachSpeed(a, b, n);
    if approach >= 0.0 then (0.0, a, b)
    else
      var ia := InverseMass(a.mass);
      var ib := InverseMass(b.mass);
      var kicked := Kick(a, b, Scale(n, ImpulseSize(restitution, approach, ia, ib)), ia, ib);
      (-approach, kicked.0, kicked.1)
  }

  /** The size of the impulse that turns an approach speed into -restitution times it. */
  function ImpulseSize(restitution: real, approach: real, ia: real, ib: real): real
    requires ia + ib > 0.0
  {
    -(1.0 + restitution) * approach / (ia + ib)
  }

  /** The impulse taken from a and given to b, each scaled by its inverse mass. */
  function Kick(a: Disc, b: Disc, impulse: Vec, ia: real, ib: real): (Disc, Disc) {
    (a.(vel := Sub(a.vel, Scale(impulse, ia))), b.(vel := Add(b.vel, Scale(impulse, ib))))
  }

  /** What resolveDynamicCircle does to two discs: the impact and both discs afterwards. */
  function CircleVsCircle(a: Disc, b: Disc, restitution: real, host: Host): (res: (real, Disc, Disc))
    ensures !Overlapping(a, b) ==> res == (0.0, a, b)
    ensures res.0 >= 0.0
    ensures res.1.r == a.r && res.1.mass == a.mass && res.2.r == b.r && res.2.mass == b.mass
  {
    if !Overlapping(a, b) then (0.0, a, b)
    else
      var k := ContactOf(a, b, host);
      var moved := Separate(a, b, k);
      Bounce(moved.0, moved.1, k.normal, restitution)
  }

  // ---------------------------------------------------------------------------
  // Properties
  // ---------------------------------------------------------------------------

  /** The inverse mass is the reciprocal of the floored mass. */
  lemma InverseOfFloored(mass: real)
    ensures FlooredMass(mass) > 0.0 && InverseMass(mass) == 1.0 / FlooredMass(mass)
  {
  }

  /** The host's square root, where the simulation takes it, is exact. */
  lemma SqrtOfSquares(host: Host, t: real)
    requires host.Sound() && t >= 0.0
    ensures host.sqrt(t) >= 0.0 && host.sqrt(t) * host.sqrt(t) == t
  {
  }

  /**
   * With a sound host the normal of two overlapping discs is a unit vector. When the
   * centres do not coincide it points from a to b, the distance is the true centre
   * distance, and it is short of the sum of radii, so the separation is positive.
   */
  lemma ContactOfOverlap(a: Disc, b: Disc, host: Host)
    requires host.Sound()
    requires Overlapping(a, b) && a.r + b.r >= 0.0
    ensures var k := ContactOf(a, b, host);
      && IsUnit(k.normal)
      && (!Coincident(a, b, host) ==>
            Scale(k.normal, k.dist) == Sub(b.pos, a.pos) && k.dist < a.r + b.r && Separation(a, b, k) > 0.0)
  {
    var off := Sub(b.pos, a.pos);
    var dist := host.sqrt(Dot(off, off));
    if dist > COINCIDENT_DISTANCE {
      SqrtOfSquares(host, Dot(off, off));
      ContactOfIsDirection(a, b, host);
      Direction(off, dist);
      ShortOfRadii(dist, a.r + b.r, Dot(off, off));
    }
  }

  /** Apart from coincidence, the contact is the normalised offset (ContactOf's definition, as one fact). */
  lemma ContactOfIsDirection(a: Disc, b: Disc, host: Host)
    requires host.sqrt(Dot(Sub(b.pos, a.pos), Sub(b.pos, a.pos))) > COINCIDENT_DISTANCE
    ensures var off := Sub(b.pos, a.pos);
      var dist := host.sqrt(Dot(off, off));
      ContactOf(a, b, host) == PairContact(Vec(off.x / dist, off.y / dist), dist)
  {
  }

  /** A vector divided by its positive length is a unit vector that scales back to it. */
  lemma Direction(off: Vec, dist: real)
    requires dist > 0.0 && dist * dist == Dot(off, off)
    ensures IsUnit(Vec(off.x / dist, off.y / dist))
    ensures Scale(Vec(off.x / dist, off.y / dist), dist) == off
  {
    NormalizedIsUnit(off, dist);
    QuotientTimes(off.x, dist);
    QuotientTimes(off.y, dist);
  }

  /** A non-negative root of a square below minDist * minDist is below minDist. */
  lemma ShortOfRadii(dist: real, minDist: real, distSq: real)
    requires dist >= 0.0 && minDist >= 0.0
    requires dist * dist == distSq && distSq < minDist * minDist
    ensures dist < minDist
  {
    if dist >= minDist {
      SquareMonotone(dist, minDist);
    }
  }

  /**
   * The separation keeps the floored-mass centre of the pair where it was (the heavier
   * disc moves proportionally less: mA * moveA + mB * moveB == 0), and it widens the gap
   * between the centres by exactly the separation, along the normal.
   */
  lemma SeparationKeepsMassCentre(a: Disc, b: Disc, k: PairContact)
    ensures var moved := Separate(a, b, k);
      var moveA := Sub(moved.0.pos, a.pos);
      var moveB := Sub(moved.1.pos, b.pos);
      && Add(Scale(moveA, FlooredMass(a.mass)), Scale(moveB, FlooredMass(b.mass))) == Vec(0.0, 0.0)
      && Sub(moveB, moveA) == Scale(k.normal, Separation(a, b, k))
  {
    var ia, ib := InverseMass(a.mass), InverseMass(b.mass);
    var ma, mb := FlooredMass(a.mass), FlooredMass(b.mass);
    var separation := Separation(a, b, k);
    SeparateIsMoveApart(a, b, k);
    InverseOfFloored(a.mass);
    InverseOfFloored(b.mass);
    ShareFacts(separation, ia, ib, ma, mb);
    WeightedMoves(a, b, k.normal, Share(separation, ia, ib), Share(separation, ib, ia), ma, mb, separation);
  }

  /** Separate is MoveApart by the two inverse-mass shares (its definition, as one fact). */
  lemma SeparateIsMoveApart(a: Disc, b: Disc, k: PairContact)
    ensures Separate(a, b, k) == MoveApart(a, b, k.normal,
      Share(Separation(a, b, k), InverseMass(a.mass), InverseMass(b.mass)),
      Share(Separation(a, b, k), InverseMass(b.mass), InverseMass(a.mass)))
  {
  }

  /**
   * Shares of sep in proportion to the inverse masses: weighted by the masses they are
   * equal, and they add up to sep.
   */
  lemma ShareFacts(sep: real, ia: real, ib: real, ma: real, mb: real)
    requires ma > 0.0 && ia == 1.0 / ma && mb > 0.0 && ib == 1.0 / mb
    requires ia + ib > 0.0
    ensures Share(sep, ia, ib) * ma == Share(sep, ib, ia) * mb
    ensures Share(sep, ia, ib) + Share(sep, ib, ia) == sep
  {
    var s := ia + ib;
    var u := sep / s;
    assert Share(sep, ia, ib) == sep * ia / s;
    assert Share(sep, ib, ia) == sep * ib / s;
    DivideAfterScaling(sep, ia, s);
    DivideAfterScaling(sep, ib, s);
    InverseCancels(ma, ia, u);
    InverseCancels(mb, ib, u);
    QuotientTimes(sep, s);
    assert u * ia + u * ib == u * s;
  }

  /** Moves whose mass-weighted sizes agree cancel once weighted, and widen the gap by their sum. */
  lemma WeightedMoves(a: Disc, b: Disc, n: Vec, shareA: real, shareB: real, ma: real, mb: real, total: real)
    requires shareA * ma == shareB * mb && shareA + shareB == total
    ensures var moved := MoveApart(a, b, n, shareA, shareB);
      var moveA := Sub(moved.0.pos, a.pos);
      var moveB := Sub(moved.1.pos, b.pos);
      && Add(Scale(moveA, ma), Scale(moveB, mb)) == Vec(0.0, 0.0)
      && Sub(moveB, moveA) == Scale(n, total)
  {
    ScaledProduct(n.x, shareA, ma, shareB * mb);
    ScaledProduct(n.x, shareB, mb, shareB * mb);
    ScaledProduct(n.y, shareA, ma, shareB * mb);
    ScaledProduct(n.y, shareB, mb, shareB * mb);
    assert n.x * shareB + n.x * shareA == n.x * total;
    assert n.y * shareB + n.y * shareA == n.y * total;
  }

  /** Scaling both sides of k * m == v by x. */
  lemma ScaledProduct(x: real, k: real, m: real, v: real)
    requires k * m == v
    ensures (x * k) * m == x * v
  {
    assert (x * k) * m == x * (k * m);
  }

  /** Coincident centres are not pushed apart at all: the distance is taken to be the sum of radii. */
  lemma CoincidentNotSeparated(a: Disc, b: Disc, host: Host)
    requires Coincident(a, b, host)
    ensures var moved := Separate(a, b, ContactOf(a, b, host));
      moved.0 == a && moved.1 == b
  {
  }

  /** An approaching pair is kicked apart by the impulse along n (Bounce's definition, as one fact). */
  lemma BounceIsKick(a: Disc, b: Disc, n: Vec, restitution: real)
    requires ApproachSpeed(a, b, n) < 0.0
    ensures var ia, ib := InverseMass(a.mass), InverseMass(b.mass);
      var kicked := Kick(a, b, Scale(n, ImpulseSize(restitution, ApproachSpeed(a, b, n), ia, ib)), ia, ib);
      Bounce(a, b, n, restitution) == (-ApproachSpeed(a, b, n), kicked.0, kicked.1)
  {
  }

  /**
   * The impulse conserves the floored-mass momentum of the pair:
   * mA * dvA + mB * dvB == 0.
   */
  lemma BounceConservesMomentum(a: Disc, b: Disc, n: Vec, restitution: real)
    ensures var res := Bounce(a, b, n, restitution);
      var dvA := Sub(res.1.vel, a.vel);
      var dvB := Sub(res.2.vel, b.vel);
      Add(Scale(dvA, FlooredMass(a.mass)), Scale(dvB, FlooredMass(b.mass))) == Vec(0.0, 0.0)
  {
    var approach := ApproachSpeed(a, b, n);
    if approach < 0.0 {
      var ia, ib := InverseMass(a.mass), InverseMass(b.mass);
      BounceIsKick(a, b, n, restitution);
      InverseOfFloored(a.mass);
      InverseOfFloored(b.mass);
      KickBalances(a, b, Scale(n, ImpulseSize(restitution, approach, ia, ib)), ia, ib,
                   FlooredMass(a.mass), FlooredMass(b.mass));
    }
  }

  /** Mass-weighted velocity changes of a kick cancel. */
  lemma KickBalances(a: Disc, b: Disc, impulse: Vec, ia: real, ib: real, ma: real, mb: real)
    requires ma > 0.0 && ia == 1.0 / ma && mb > 0.0 && ib == 1.0 / mb
    ensures var kicked := Kick(a, b, impulse, ia, ib);
      Add(Scale(Sub(kicked.0.vel, a.vel), ma), Scale(Sub(kicked.1.vel, b.vel), mb)) == Vec(0.0, 0.0)
  {
    ImpulsesBalance(a.vel.x, b.vel.x, impulse.x, ia, ib, ma, mb);
    ImpulsesBalance(a.vel.y, b.vel.y, impulse.y, ia, ib, ma, mb);
  }

  /** One coordinate of the impulse: mass-weighted velocity changes cancel. */
  lemma ImpulsesBalance(va: real, vb: real, t: real, ia: real, ib: real, ma: real, mb: real)
    requires ma > 0.0 && ia == 1.0 / ma && mb > 0.0 && ib == 1.0 / mb
    ensures ((va - t * ia) - va) * ma + ((vb + t * ib) - vb) * mb == 0.0
  {
    InverseCancels(ma, ia, t);
    InverseCancels(mb, ib, t);
  }

  /**
   * Along a unit normal the impulse reverses the approach and scales it by the
   * restitution (the discs separate at restitution times their approach speed), and the
   * relative velocity across the normal is unchanged.
   */
  lemma BounceRestitution(a: Disc, b: Disc, n: Vec, restitution: real)
    requires IsUnit(n)
    requires ApproachSpeed(a, b, n) < 0.0
    ensures var res := Bounce(a, b, n, restitution);
      && ApproachSpeed(res.1, res.2, n) == -restitution * ApproachSpeed(a, b, n)
      && Dot(Sub(res.2.vel, res.1.vel), Perp(n)) == Dot(Sub(b.vel, a.vel), Perp(n))
  {
    var approach := ApproachSpeed(a, b, n);
    var ia, ib := InverseMass(a.mass), InverseMass(b.mass);
    var j := ImpulseSize(restitution, approach, ia, ib);
    BounceIsKick(a, b, n, restitution);
    ImpulseTimesInverses(restitution, approach, ia, ib);
    KickAlongNormal(a, b, n, j, ia, ib);
    Restituted(approach, j * (ia + ib), restitution);
  }

  /** The impulse size times the sum of inverse masses is -(1 + restitution) * approach. */
  lemma ImpulseTimesInverses(restitution: real, approach: real, ia: real, ib: real)
    requires ia + ib > 0.0
    ensures ImpulseSize(restitution, approach, ia, ib) * (ia + ib) == -(1.0 + restitution) * approach
  {
    QuotientTimes(-(1.0 + restitution) * approach, ia + ib);
  }

  /** Adding -(1 + e) * approach to the approach leaves -e * approach. */
  lemma Restituted(approach: real, change: real, e: real)
    requires change == -(1.0 + e) * approach
    ensures approach + change == -e * approach
  {
  }

  /** A kick by j along the unit n changes the relative velocity by j * (ia + ib) along n only. */
  lemma KickAlongNormal(a: Disc, b: Disc, n: Vec, j: real, ia: real, ib: real)
    requires IsUnit(n)
    ensures var kicked := Kick(a, b, Scale(n, j), ia, ib);
      && ApproachSpeed(kicked.0, kicked.1, n) == ApproachSpeed(a, b, n) + j * (ia + ib)
      && Dot(Sub(kicked.1.vel, kicked.0.vel), Perp(n)) == Dot(Sub(b.vel, a.vel), Perp(n))
  {
    ImpulseAlongNormal(a.vel.x, a.vel.y, b.vel.x, b.vel.y, n.x, n.y, j, ia, ib);
  }

  /**
   * The relative velocity after the impulse, coordinate by coordinate: along the unit
   * normal it gains j * (ia + ib), across it it is unchanged.
   */
  lemma ImpulseAlongNormal(ux: real, uy: real, wx: real, wy: real, nx: real, ny: real,
                           j: real, ia: real, ib: real)
    requires nx * nx + ny * ny == 1.0
    ensures ((wx + (nx * j) * ib) - (ux - (nx * j) * ia)) * nx
          + ((wy + (ny * j) * ib) - (uy - (ny * j) * ia)) * ny
         == (wx - ux) * nx + (wy - uy) * ny + j * (ia + ib)
    ensures ((wx + (nx * j) * ib) - (ux - (nx * j) * ia)) * -ny
          + ((wy + (ny * j) * ib) - (uy - (ny * j) * ia)) * nx
         == (wx - ux) * -ny + (wy - uy) * nx
  {
    var js := j * (ia + ib);
    assert ((wx + (nx * j) * ib) - (ux - (nx * j) * ia)) * nx
         + ((wy + (ny * j) * ib) - (uy - (ny * j) * ia)) * ny
        == (wx - ux) * nx + (wy - uy) * ny + js * (nx * nx + ny * ny);
  }

  /**
   * The whole resolution of two overlapping discs with a sound host: the normal is a unit
   * vector, the floored-mass centre does not move and the floored-mass momentum is
   * conserved.
   */
  lemma CircleVsCircleConserves(a: Disc, b: Disc, restitution: real, host: Host)
    requires host.Sound()
    requires Overlapping(a, b) && a.r + b.r >= 0.0
    ensures var res := CircleVsCircle(a, b, restitution, host);
      var ma, mb := FlooredMass(a.mass), FlooredMass(b.mass);
      && IsUnit(ContactOf(a, b, host).normal)
      && Add(Scale(Sub(res.1.pos, a.pos), ma), Scale(Sub(res.2.pos, b.pos), mb)) == Vec(0.0, 0.0)
      && Add(Scale(Sub(res.1.vel, a.vel), ma), Scale(Sub(res.2.vel, b.vel), mb)) == Vec(0.0, 0.0)
  {
    var k := ContactOf(a, b, host);
    var moved := Separate(a, b, k);
    CircleVsCircleOverlapping(a, b, restitution, host);
    ContactOfOverlap(a, b, host);
    SeparationKeepsMassCentre(a, b, k);
    BounceConservesMomentum(moved.0, moved.1, k.normal, restitution);
  }

  /**
   * The impact of two overlapping discs is their approach speed along the normal when
   * they approach, and zero when they already separate.
   */
  lemma CircleVsCircleImpact(a: Disc, b: Disc, restitution: real, host: Host)
    requires Overlapping(a, b)
    ensures var res := CircleVsCircle(a, b, restitution, host);
      var n := ContactOf(a, b, host).normal;
      && (ApproachSpeed(a, b, n) >= 0.0 ==> res.0 == 0.0)
      && (ApproachSpeed(a, b, n) < 0.0 ==> res.0 == -ApproachSpeed(a, b, n))
  {
    var k := ContactOf(a, b, host);
    var moved := Separate(a, b, k);
    CircleVsCircleOverlapping(a, b, restitution, host);
    SameVelocitiesSameApproach(a, b, moved.0, moved.1, k.normal);
  }

  /** The approach speed depends on the velocities only. */
  lemma SameVelocitiesSameApproach(a: Disc, b: Disc, a': Disc, b': Disc, n: Vec)
    requires a'.vel == a.vel && b'.vel == b.vel
    ensures ApproachSpeed(a', b', n) == ApproachSpeed(a, b, n)
  {
  }

  // ---------------------------------------------------------------------------
  // The in-place resolution on two bodies
  // ---------------------------------------------------------------------------

  /**
   * resolveDynamicCircle: separates and bounces the two bodies in place and returns the
   * impact, exactly as CircleVsCircle describes.
   */
  method ResolveDynamicCircle(a: Body, b: Body, restitution: real, host: Host) returns (impact: real)
    requires a != b
    modifies a, b
    ensures (impact, a.State(), b.State()) == CircleVsCircle(old(a.State()), old(b.State()), restitution, host)
  {
    ghost var a0, b0 := a.State(), b.State();
    var dx := b.x - a.x;
    var dy := b.y - a.y;
    var minDist := a.r + b.r;
    var distSq := dx * dx + dy * dy;
    assert distSq == Dot(Sub(b0.pos, a0.pos), Sub(b0.pos, a0.pos));
    if distSq >= minDist * minDist {
      return 0.0;
    }
    CircleVsCircleOverlapping(a0, b0, restitution, host);
    var nx, ny, dist := FindPairContact(a.State(), b.State(), host);
    SeparateBodies(a, b, nx, ny, dist);
    impact := BounceBodies(a, b, nx, ny, restitution);
  }

  /** Overlapping discs are separated, then bounced (CircleVsCircle's definition, as one fact). */
  lemma CircleVsCircleOverlapping(a: Disc, b: Disc, restitution: real, host: Host)
    requires Overlapping(a, b)
    ensures CircleVsCircle(a, b, restitution, host)
         == Bounce(Separate(a, b, ContactOf(a, b, host)).0, Separate(a, b, ContactOf(a, b, host)).1,
                   ContactOf(a, b, host).normal, restitution)
  {
  }

  /** The normal from a to b and the distance the separation starts from. */
  method FindPairContact(a: Disc, b: Disc, host: Host) returns (nx: real, ny: real, dist: real)
    ensures PairContact(Vec(nx, ny), dist) == ContactOf(a, b, host)
  {
    var dx := b.pos.x - a.pos.x;
    var dy := b.pos.y - a.pos.y;
    assert dx * dx + dy * dy == Dot(Sub(b.pos, a.pos), Sub(b.pos, a.pos));
    dist := host.sqrt(dx * dx + dy * dy);
    nx, ny := 1.0, 0.0;
    if dist > COINCIDENT_DISTANCE {
      ContactOfIsDirection(a, b, host);
      nx, ny := dx / dist, dy / dist;
    } else {
      dist := a.r + b.r;
    }
  }

  /** Moves both bodies apart along (nx, ny) in proportion to their inverse masses. */
  method SeparateBodies(a: Body, b: Body, nx: real, ny: real, dist: real)
    requires a != b
    modifies a, b
    ensures (a.State(), b.State()) == Separate(old(a.State()), old(b.State()), PairContact(Vec(nx, ny), dist))
  {
    ghost var a0, b0 := a.State(), b.State();
    SeparateIsMoveApart(a0, b0, PairContact(Vec(nx, ny), dist));
    var invMassA := InverseMass(a.mass);
    var invMassB := InverseMass(b.mass);
    var separation := (a.r + b.r - dist) * SEPARATION_FRACTION;
    MoveBy(a, Scale(Vec(nx, ny), -Share(separation, invMassA, invMassB)));
    MoveBy(b, Scale(Vec(nx, ny), Share(separation, invMassB, invMassA)));
    assert a.State().pos == Sub(a0.pos, Scale(Vec(nx, ny), Share(separation, invMassA, invMassB)));
  }

  /** Shifts the body's centre by d. */
  method MoveBy(body: Body, d: Vec)
    modifies body
    ensures body.State() == old(body.State()).(pos := Add(old(body.State()).pos, d))
  {
    body.x := body.x + d.x;
    body.y := body.y + d.y;
  }

  /** Changes the body's velocity by dv. */
  method AccelerateBy(body: Body, dv: Vec)
    modifies body
    ensures body.State() == old(body.State()).(vel := Add(old(body.State()).vel, dv))
  {
    body.vx := body.vx + dv.x;
    body.vy := body.vy + dv.y;
  }

  /** Changes the body's velocity by -dv. */
  method DecelerateBy(body: Body, dv: Vec)
    modifies body
    ensures body.State() == old(body.State()).(vel := Sub(old(body.State()).vel, dv))
  {
    body.vx := body.vx - dv.x;
    body.vy := body.vy - dv.y;
  }

  /** The restitution impulse, when the bodies approach along (nx, ny); returns the impact. */
  method BounceBodies(a: Body, b: Body, nx: real, ny: real, restitution: real) returns (impact: real)
    requires a != b
    modifies a, b
    ensures (impact, a.State(), b.State()) == Bounce(old(a.State()), old(b.State()), Vec(nx, ny), restitution)
  {
    var rvx := b.vx - a.vx;
    var rvy := b.vy - a.vy;
    var velocityAlongNormal := rvx * nx + rvy * ny;
    ghost var a0, b0 := a.State(), b.State();
    assert velocityAlongNormal == ApproachSpeed(a0, b0, Vec(nx, ny));
    if velocityAlongNormal >= 0.0 {
      return 0.0;
    }
    BounceIsKick(a0, b0, Vec(nx, ny), restitution);
    var invMassA := InverseMass(a.mass);
    var invMassB := InverseMass(b.mass);
    var impulse := Scale(Vec(nx, ny), ImpulseSize(restitution, velocityAlongNormal, invMassA, invMassB));
    DecelerateBy(a, Scale(impulse, invMassA));
    AccelerateBy(b, Scale(impulse, invMassB));
    impact := -velocityAlongNormal;
  }
}
