/**
 * Collision primitives: a circle against an axis-aligned rectangle (bodies against
 * buildings) and a circle against a circle (body against body), both applied in place.
 */
module Geometry {
  import opened Numeric
  import opened Options

  datatype Vec = Vec(x: real, y: real)

  function Add(a: Vec, b: Vec): Vec { Vec(a.x + b.x, a.y + b.y) }
  function Sub(a: Vec, b: Vec): Vec { Vec(a.x - b.x, a.y - b.y) }
  function Scale(a: Vec, k: real): Vec { Vec(a.x * k, a.y * k) }
  function Dot(a: Vec, b: Vec): real { a.x * b.x + a.y * b.y }
  /** The vector turned a quarter turn, so that Dot(n, Perp(n)) == 0. */
  function Perp(a: Vec): Vec { Vec(-a.y, a.x) }
  predicate IsUnit(n: Vec) { Dot(n, n) == 1.0 }

  /** `distance` is what the host's Math.hypot returns for the vector `v`. */
  ghost predicate IsLength(distance: real, v: Vec) {
    distance >= 0.0 && distance * distance == Dot(v, v)
  }

  /** A building or road: left x, top y, width, height (y grows downwards). */
  datatype Rect = Rect(x: real, y: real, w: real, h: real)

  predicate Inside(p: Vec, rect: Rect) {
    rect.x <= p.x <= rect.x + rect.w && rect.y <= p.y <= rect.y + rect.h
  }

  /** The physical state of a body: centre, velocity, radius and mass. */
  datatype Disc = Disc(pos: Vec, vel: Vec, r: real, mass: real)

  /** Anything that collides: the player, a pedestrian, the body of a car. */
  class Body {
    var x: real
    var y: real
    var vx: real
    var vy: real
    const r: real
    const mass: real

    constructor (x: real, y: real, r: real, mass: real)
      ensures this.x == x && this.y == y && vx == 0.0 && vy == 0.0
      ensures this.r == r && this.mass == mass
    {
      this.x, this.y, this.vx, this.vy := x, y, 0.0, 0.0;
      this.r, this.mass := r, mass;
    }

    function State(): Disc
      reads this
    {
      Disc(Vec(x, y), Vec(vx, vy), r, mass)
    }
  }

  // ---------------------------------------------------------------------------
  // Circle against rectangle (resolveCircleVsRect)
  // ---------------------------------------------------------------------------

  /** The point of the rectangle nearest to p: each coordinate clamped to the rectangle. */
  function ClosestPoint(p: Vec, rect: Rect): (q: Vec)
    ensures rect.w >= 0.0 && rect.h >= 0.0 ==> Inside(q, rect)
    ensures Inside(p, rect) ==> q == p
  {
    Vec(Clamp(p.x, rect.x, rect.x + rect.w), Clamp(p.y, rect.y, rect.y + rect.h))
  }

  /** The vector from the closest point of the rectangle to p. */
  function Offset(p: Vec, rect: Rect): Vec {
    Sub(p, ClosestPoint(p, rect))
  }

  /** No point of a (non-inverted) rectangle is nearer to p than ClosestPoint(p, rect). */
  lemma ClosestPointIsNearest(p: Vec, rect: Rect, q: Vec)
    requires Inside(q, rect)
    ensures Dot(Offset(p, rect), Offset(p, rect)) <= Dot(Sub(p, q), Sub(p, q))
  {
    var c := ClosestPoint(p, rect);
    NearerOnAxis(p.x, rect.x, rect.x + rect.w, q.x);
    NearerOnAxis(p.y, rect.y, rect.y + rect.h, q.y);
  }

  lemma NearerOnAxis(v: real, lo: real, hi: real, q: real)
    requires lo <= q <= hi
    ensures (v - Clamp(v, lo, hi)) * (v - Clamp(v, lo, hi)) <= (v - q) * (v - q)
  {
    var c := Clamp(v, lo, hi);
    if v < lo {
      assert 0.0 <= lo - v <= q - v;
      assert (lo - v) * (lo - v) <= (lo - v) * (q - v) <= (q - v) * (q - v);
    } else if v > hi {
      assert 0.0 <= v - hi <= v - q;
      assert (v - hi) * (v - hi) <= (v - hi) * (v - q) <= (v - q) * (v - q);
    }
  }

  datatype Edge = Left | Right | Top | Bottom

  /** The order in which resolveCircleVsRect breaks ties between equally near edges. */
  function EdgeRank(e: Edge): nat {
    match e
    case Left => 0
    case Right => 1
    case Top => 2
    case Bottom => 3
  }

  function EdgeDistance(p: Vec, rect: Rect, e: Edge): real {
    match e
    case Left => Abs(p.x - rect.x)
    case Right => Abs(p.x - (rect.x + rect.w))
    case Top => Abs(p.y - rect.y)
    case Bottom => Abs(p.y - (rect.y + rect.h))
  }

  function OutwardNormal(e: Edge): Vec {
    match e
    case Left => Vec(-1.0, 0.0)
    case Right => Vec(1.0, 0.0)
    case Top => Vec(0.0, -1.0)
    case Bottom => Vec(0.0, 1.0)
  }

  /**
   * The edge the degenerate case pushes through: the first of left, right, top, bottom
   * whose distance equals the smallest of the four.
   */
  function NearestEdge(p: Vec, rect: Rect): Edge {
    var fromLeft := EdgeDistance(p, rect, Left);
    var fromRight := EdgeDistance(p, rect, Right);
    var fromTop := EdgeDistance(p, rect, Top);
    var fromBottom := EdgeDistance(p, rect, Bottom);
    var minEdge := Min(Min(Min(fromLeft, fromRight), fromTop), fromBottom);
    if minEdge == fromLeft then Left
    else if minEdge == fromRight then Right
    else if minEdge == fromTop then Top
    else Bottom
  }

  /** NearestEdge is an edge at least as near as every other, ties going to the earliest. */
  lemma NearestEdgeIsNearest(p: Vec, rect: Rect, o: Edge)
    ensures EdgeDistance(p, rect, NearestEdge(p, rect)) <= EdgeDistance(p, rect, o)
    ensures EdgeRank(o) < EdgeRank(NearestEdge(p, rect)) ==>
      EdgeDistance(p, rect, o) > EdgeDistance(p, rect, NearestEdge(p, rect))
  {
  }

  /** Below this distance the offset is too short to normalise. */
  const DEGENERATE_DISTANCE: real := 0.0001

  /** A unit push direction and the penetration depth to push by. */
  datatype Contact = Contact(normal: Vec, depth: real)

  /** v scaled by 1/|v| is a unit vector. */
  lemma NormalizedIsUnit(v: Vec, d: real)
    requires d > 0.0 && d * d == Dot(v, v)
    ensures IsUnit(Vec(v.x / d, v.y / d))
  {
    QuotientTimes(v.x, d);
    QuotientTimes(v.y, d);
    ScaledToUnit(v.x / d, v.y / d, v.x, v.y, d);
  }

  /**
   * The contact a circle of radius r centred at p makes with rect, given the host's
   * length `distance` of the offset: none when the circle does not reach the rectangle;
   * otherwise the normalised offset with depth r - distance or, when the offset is
   * degenerate, the nearest edge's outward normal with depth r - 1.
   */
  function RectContact(p: Vec, r: real, rect: Rect, distance: real): (k: Option<Contact>)
    ensures k.None? <==> distance >= r
    ensures k.Some? && distance >= DEGENERATE_DISTANCE ==> k.value.depth == r - distance
    ensures k.Some? && distance < DEGENERATE_DISTANCE ==> k.value.depth == r - 1.0
  {
    if distance >= r then None
    else if distance < DEGENERATE_DISTANCE then
      Some(Contact(OutwardNormal(NearestEdge(p, rect)), r - 1.0))
    else
      var off := Offset(p, rect);
      Some(Contact(Vec(off.x / distance, off.y / distance), r - distance))
  }

  /**
   * When `distance` really is the length of the offset, the contact normal is a unit
   * vector: the offset's own direction, or the nearest edge's outward normal when the
   * offset is too short to normalise.
   */
  lemma ContactNormal(p: Vec, r: real, rect: Rect, distance: real)
    requires IsLength(distance, Offset(p, rect)) && distance < r
    ensures var n := RectContact(p, r, rect, distance).value.normal;
      && IsUnit(n)
      && (distance >= DEGENERATE_DISTANCE ==> Scale(n, distance) == Offset(p, rect))
      && (distance < DEGENERATE_DISTANCE ==> n == OutwardNormal(NearestEdge(p, rect)))
  {
    var off := Offset(p, rect);
    if distance < DEGENERATE_DISTANCE {
      assert IsUnit(OutwardNormal(NearestEdge(p, rect)));
    } else {
      NormalizedIsUnit(off, distance);
      QuotientTimes(off.x, distance);
      QuotientTimes(off.y, distance);
    }
  }

  /** The velocity after a push along n: any component into the surface is cancelled. */
  function Deflect(v: Vec, n: Vec): Vec {
    var into := Dot(v, n);
    if into < 0.0 then Vec(v.x - into * n.x, v.y - into * n.y) else v
  }

  /** Push the disc along the contact normal by the depth and deflect its velocity. */
  function PushOut(d: Disc, k: Contact): Disc {
    Disc(Add(d.pos, Scale(k.normal, k.depth)), Deflect(d.vel, k.normal), d.r, d.mass)
  }

  /**
   * The velocity response of a push along a unit normal: afterwards the body does not move
   * into the surface, only the normal component has changed (the tangential one is kept),
   * and a body already moving out keeps its velocity.
   */
  lemma DeflectResponse(v: Vec, n: Vec)
    requires IsUnit(n)
    ensures Dot(Deflect(v, n), n) >= 0.0
    ensures Dot(Deflect(v, n), Perp(n)) == Dot(v, Perp(n))
    ensures Dot(v, n) >= 0.0 ==> Deflect(v, n) == v
  {
    var s := Dot(v, n);
    var w := Vec(v.x - s * n.x, v.y - s * n.y);
    assert Dot(w, n) == s - s * Dot(n, n);
    assert Dot(w, Perp(n)) == Dot(v, Perp(n)) - s * (n.x * n.y - n.y * n.x);
  }

  /** The host's length (Math.hypot) of the offset from the rectangle to p. */
  function HostDistance(p: Vec, rect: Rect, host: Host): real {
    host.hypot(Offset(p, rect).x, Offset(p, rect).y)
  }

  /** What resolveCircleVsRect does to a disc: whether it hit, and the disc afterwards. */
  function CircleVsRect(d: Disc, rect: Rect, host: Host): (res: (bool, Disc))
    ensures !res.0 <==> HostDistance(d.pos, rect, host) >= d.r
    ensures !res.0 ==> res.1 == d
    ensures res.1.r == d.r && res.1.mass == d.mass
  {
    match RectContact(d.pos, d.r, rect, HostDistance(d.pos, rect, host))
    case None => (false, d)
    case Some(k) => (true, PushOut(d, k))
  }

  /**
   * With a sound host, a disc that hits a rectangle leaves it without any velocity into
   * the contact normal, keeps its velocity across the normal, and keeps its whole
   * velocity when it was already moving away.
   */
  lemma CircleVsRectResponse(d: Disc, rect: Rect, host: Host)
    requires host.Sound()
    requires HostDistance(d.pos, rect, host) < d.r
    ensures var distance := HostDistance(d.pos, rect, host);
      var n := RectContact(d.pos, d.r, rect, distance).value.normal;
      var e := CircleVsRect(d, rect, host).1;
      && IsUnit(n)
      && Dot(e.vel, n) >= 0.0
      && Dot(e.vel, Perp(n)) == Dot(d.vel, Perp(n))
      && (Dot(d.vel, n) >= 0.0 ==> e.vel == d.vel)
  {
    var distance := HostDistance(d.pos, rect, host);
    assert IsLength(distance, Offset(d.pos, rect));
    ContactNormal(d.pos, d.r, rect, distance);
    DeflectResponse(d.vel, RectContact(d.pos, d.r, rect, distance).value.normal);
  }

  /**
   * One axis of a non-degenerate push: the coordinate v, whose offset from the clamped
   * value c is n * dist, moves by n * (r - dist). Its offset becomes n * r and, as that
   * only stretches the offset, the clamped value stays c.
   */
  lemma AxisPush(v: real, lo: real, hi: real, c: real, n: real, dist: real, r: real, moved: real)
    requires lo <= hi && 0.0 < dist < r
    requires c == Clamp(v, lo, hi) && n * dist == v - c
    requires moved == v + n * (r - dist)
    ensures moved - c == n * r && Clamp(moved, lo, hi) == c
  {
    if v < lo {
      NonnegFactor(-n, dist);
      NonposTimes(n, r - dist);
    } else if v > hi {
      NonnegFactor(n, dist);
      NonposTimes(-n, r - dist);
    } else {
      ZeroFactor(n, dist);
    }
  }

  /**
   * Moving p along n by r - distance, where n scaled by distance is p's offset from the
   * rectangle, keeps the closest point and makes the offset n scaled by r.
   */
  lemma PushAlongNormal(p: Vec, r: real, rect: Rect, distance: real, n: Vec)
    requires rect.w >= 0.0 && rect.h >= 0.0
    requires 0.0 < distance < r
    requires Scale(n, distance) == Offset(p, rect)
    ensures var q := Add(p, Scale(n, r - distance));
      ClosestPoint(q, rect) == ClosestPoint(p, rect) && Offset(q, rect) == Scale(n, r)
  {
    var c := ClosestPoint(p, rect);
    var q := Add(p, Scale(n, r - distance));
    AxisPush(p.x, rect.x, rect.x + rect.w, c.x, n.x, distance, r, q.x);
    AxisPush(p.y, rect.y, rect.y + rect.h, c.y, n.y, distance, r, q.y);
  }

  /** A unit vector scaled by r has squared length r * r. */
  lemma ScaledUnitLength(n: Vec, r: real)
    requires IsUnit(n)
    ensures Dot(Scale(n, r), Scale(n, r)) == r * r
  {
    assert Dot(Scale(n, r), Scale(n, r)) == (r * r) * Dot(n, n);
  }

  /**
   * After a non-degenerate push the disc's centre is exactly r from the rectangle: the
   * closest point does not move and the new offset is the contact normal scaled by r, of
   * length r, so no overlap remains.
   */
  lemma NoResidualOverlap(d: Disc, rect: Rect, distance: real)
    requires rect.w >= 0.0 && rect.h >= 0.0
    requires IsLength(distance, Offset(d.pos, rect))
    requires DEGENERATE_DISTANCE <= distance < d.r
    ensures var k := RectContact(d.pos, d.r, rect, distance).value;
      var e := PushOut(d, k);
      && ClosestPoint(e.pos, rect) == ClosestPoint(d.pos, rect)
      && Offset(e.pos, rect) == Scale(k.normal, d.r)
      && Dot(Offset(e.pos, rect), Offset(e.pos, rect)) == d.r * d.r
  {
    var k := RectContact(d.pos, d.r, rect, distance).value;
    ContactNormal(d.pos, d.r, rect, distance);
    PushAlongNormal(d.pos, d.r, rect, distance, k.normal);
    ScaledUnitLength(k.normal, d.r);
  }

  /**
   * In the degenerate case the push is r - 1 from the centre, not from the edge, so a
   * centre deep inside a building stays inside after one resolution.
   */
  lemma DegeneratePushCanLeaveOverlap(host: Host)
    requires host.Sound()
    ensures var rect := Rect(0.0, 0.0, 100.0, 100.0);
      var res := CircleVsRect(Disc(Vec(50.0, 50.0), Vec(0.0, 0.0), 13.0, 85.0), rect, host);
      res.0 && res.1.pos == Vec(38.0, 50.0) && Inside(res.1.pos, rect)
  {
    var rect := Rect(0.0, 0.0, 100.0, 100.0);
    var p := Vec(50.0, 50.0);
    HypotOfZero(host);
    assert Offset(p, rect) == Vec(0.0, 0.0);
    assert HostDistance(p, rect, host) == 0.0;
    DegenerateContact(p, 13.0, rect, 0.0);
    assert NearestEdge(p, rect) == Left;
  }

  lemma HypotOfZero(host: Host)
    requires host.Sound()
    ensures host.hypot(0.0, 0.0) == 0.0
  {
    var h := host.hypot(0.0, 0.0);
    assert h >= 0.0 && h * h == 0.0;
    SquareZero(h, h);
  }

  /** resolveCircleVsRect, applied in place to a body. */
  method ResolveCircleVsRect(body: Body, rect: Rect, host: Host) returns (hit: bool)
    modifies body
    ensures (hit, body.State()) == CircleVsRect(old(body.State()), rect, host)
  {
    var dx, dy, penetration;
    hit, dx, dy, penetration := FindContact(Vec(body.x, body.y), body.r, rect, host);
    if !hit {
      return;
    }
    ApplyPush(body, dx, dy, penetration);
  }

  /**
   * The first half of resolveCircleVsRect: whether a circle at p of radius r reaches the
   * rectangle and, if it does, the push direction (dx, dy) and the penetration depth.
   */
  method FindContact(p: Vec, r: real, rect: Rect, host: Host)
    returns (hit: bool, dx: real, dy: real, penetration: real)
    ensures var k := RectContact(p, r, rect, HostDistance(p, rect, host));
      (hit <==> k.Some?) && (hit ==> k.value == Contact(Vec(dx, dy), penetration))
  {
    var closestX := Clamp(p.x, rect.x, rect.x + rect.w);
    var closestY := Clamp(p.y, rect.y, rect.y + rect.h);
    dx := p.x - closestX;
    dy := p.y - closestY;
    var distance := host.hypot(dx, dy);
    assert distance == HostDistance(p, rect, host);
    if distance >= r {
      return false, dx, dy, 0.0;
    }
    if distance < DEGENERATE_DISTANCE {
      DegenerateContact(p, r, rect, distance);
      dx, dy := EdgeNormal(p.x, p.y, rect);
      distance := 1.0;
    } else {
      NormalContact(p, r, rect, distance);
      dx, dy := dx / distance, dy / distance;
    }
    penetration := r - distance;
    hit := true;
  }

  lemma DegenerateContact(p: Vec, r: real, rect: Rect, distance: real)
    requires distance < r && distance < DEGENERATE_DISTANCE
    ensures RectContact(p, r, rect, distance) == Some(Contact(OutwardNormal(NearestEdge(p, rect)), r - 1.0))
  {
  }

  lemma NormalContact(p: Vec, r: real, rect: Rect, distance: real)
    requires DEGENERATE_DISTANCE <= distance < r
    ensures var off := Offset(p, rect);
      RectContact(p, r, rect, distance) == Some(Contact(Vec(off.x / distance, off.y / distance), r - distance))
  {
  }

  /** The degenerate branch of resolveCircleVsRect: the outward normal of the nearest edge. */
  method EdgeNormal(x: real, y: real, rect: Rect) returns (dx: real, dy: real)
    ensures Vec(dx, dy) == OutwardNormal(NearestEdge(Vec(x, y), rect))
  {
    var fromLeft := Abs(x - rect.x);
    var fromRight := Abs(x - (rect.x + rect.w));
    var fromTop := Abs(y - rect.y);
    var fromBottom := Abs(y - (rect.y + rect.h));
    var minEdge := Min(Min(Min(fromLeft, fromRight), fromTop), fromBottom);
    if minEdge == fromLeft {
      dx, dy := -1.0, 0.0;
    } else if minEdge == fromRight {
      dx, dy := 1.0, 0.0;
    } else if minEdge == fromTop {
      dx, dy := 0.0, -1.0;
    } else {
      dx, dy := 0.0, 1.0;
    }
  }

  /** The tail of resolveCircleVsRect: move the body along (dx, dy) and deflect its velocity. */
  method ApplyPush(body: Body, dx: real, dy: real, penetration: real)
    modifies body
    ensures body.State() == PushOut(old(body.State()), Contact(Vec(dx, dy), penetration))
  {
    body.x := body.x + dx * penetration;
    body.y := body.y + dy * penetration;
    var speedIntoSurface := body.vx * dx + body.vy * dy;
    if speedIntoSurface < 0.0 {
      body.vx := body.vx - speedIntoSurface * dx;
      body.vy := body.vy - speedIntoSurface * dy;
    }
  }

  /**
   * resolveCircleVsBuildings: the disc after resolving it against each building in
   * order, and how many of them it touched.
   */
  function BuildingsPass(d: Disc, buildings: seq<Rect>, host: Host): (res: (Disc, nat))
    ensures res.1 <= |buildings|
    ensures res.0.r == d.r && res.0.mass == d.mass
    ensures res.1 == 0 ==> res.0 == d
  {
    if buildings == [] then (d, 0)
    else
      var before := BuildingsPass(d, buildings[..|buildings| - 1], host);
      var last := CircleVsRect(before.0, buildings[|buildings| - 1], host);
      (last.1, before.1 + if last.0 then 1 else 0)
  }

  method ResolveCircleVsBuildings(body: Body, buildings: seq<Rect>, host: Host) returns (hits: nat)
    modifies body
    ensures (body.State(), hits) == BuildingsPass(old(body.State()), buildings, host)
  {
    ghost var start := body.State();
    hits := 0;
    for i := 0 to |buildings|
      invariant (body.State(), hits) == BuildingsPass(start, buildings[..i], host)
    {
      BuildingsPassExtend(start, buildings, i, body.State(), hits, host);
      var hit := ResolveCircleVsRect(body, buildings[i], host);
      if hit {
        hits := hits + 1;
      }
    }
    assert buildings[..|buildings|] == buildings;
  }

  /** The pass over one more building is one more CircleVsRect step after the shorter pass. */
  lemma BuildingsPassExtend(start: Disc, buildings: seq<Rect>, i: nat, before: Disc, hits: nat, host: Host)
    requires i < |buildings|
    requires BuildingsPass(start, buildings[..i], host) == (before, hits)
    ensures var next := CircleVsRect(before, buildings[i], host);
      BuildingsPass(start, buildings[..i + 1], host) == (next.1, hits + if next.0 then 1 else 0)
  {
    var prefix := buildings[..i + 1];
    assert prefix[..|prefix| - 1] == buildings[..i] && prefix[|prefix| - 1] == buildings[i];
  }
}
