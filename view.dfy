/**
 * What the text view reports and how far a scripted advance runs: the capped viewport
 * filter (visibleEntities) and the fixed-step count of advanceTime.
 */
module View {
  import opened Geometry

  /** Items this far outside the camera rectangle still count as visible. */
  const VIEW_MARGIN: real := 80.0
  /** One fixed simulation step, in milliseconds (1000 / 60). */
  const FRAME_MS: real := 1000.0 / 60.0

  datatype Camera = Camera(x: real, y: real, width: real, height: real)

  /** A point is in view when it lies inside the camera rectangle grown by the margin. */
  predicate InView(p: Vec, camera: Camera) {
    !(p.x < camera.x - VIEW_MARGIN || p.y < camera.y - VIEW_MARGIN
      || p.x > camera.x + camera.width + VIEW_MARGIN || p.y > camera.y + camera.height + VIEW_MARGIN)
  }

  /** The items in view, in their original order. */
  function Visible<T>(items: seq<T>, pos: T -> Vec, camera: Camera): seq<T> {
    if items == [] then []
    else
      var rest := Visible(items[..|items| - 1], pos, camera);
      if InView(pos(items[|items| - 1]), camera) then rest + [items[|items| - 1]] else rest
  }

  /** The loop stops once `maxCount` items are found, but only after a push, so it keeps at least one. */
  function Cap(maxCount: int): (c: nat)
    ensures c >= 1 && c >= maxCount
    ensures maxCount >= 1 ==> c == maxCount
  {
    if maxCount < 1 then 1 else maxCount
  }

  /** The first `n` elements of `s`, or all of them when there are fewer. */
  function Take<T>(s: seq<T>, n: nat): (r: seq<T>)
    ensures |r| == if |s| <= n then |s| else n
    ensures r <= s
  {
    if |s| <= n then s else s[..n]
  }

  /** The result of `pick` on every element, in order. */
  function Picked<T, U>(s: seq<T>, pick: T -> U): (r: seq<U>)
    ensures |r| == |s|
    ensures forall i :: 0 <= i < |s| ==> r[i] == pick(s[i])
  {
    if s == [] then [] else Picked(s[..|s| - 1], pick) + [pick(s[|s| - 1])]
  }

  /**
   * visibleEntities: the picked form of the first in-view items, at most max(1, maxCount)
   * of them.
   */
  method VisibleEntities<T, U>(items: seq<T>, pos: T -> Vec, pick: T -> U, camera: Camera, maxCount: int)
    returns (found: seq<U>)
    ensures found == Picked(Take(Visible(items, pos, camera), Cap(maxCount)), pick)
    ensures |found| <= Cap(maxCount)
  {
    found := [];
    var i := 0;
    while i < |items|
      invariant 0 <= i <= |items|
      invariant found == Picked(Visible(items[..i], pos, camera), pick)
      invariant |found| < Cap(maxCount)
    {
      var item := items[i];
      VisibleExtend(items, i, pos, camera);
      PickedExtend(Visible(items[..i], pos, camera), item, pick);
      if !InView(pos(item), camera) {
        i := i + 1;
        continue;
      }
      found := found + [pick(item)];
      if |found| >= maxCount {
        VisiblePrefix(items, i + 1, pos, camera);
        assert |found| == Cap(maxCount);
        break;
      }
      i := i + 1;
    }
    if i == |items| {
      assert items[..i] == items;
    }
  }

  lemma VisibleExtend<T>(items: seq<T>, i: nat, pos: T -> Vec, camera: Camera)
    requires i < |items|
    ensures Visible(items[..i + 1], pos, camera)
      == if InView(pos(items[i]), camera) then Visible(items[..i], pos, camera) + [items[i]]
         else Visible(items[..i], pos, camera)
  {
    var prefix := items[..i + 1];
    assert prefix[..|prefix| - 1] == items[..i] && prefix[|prefix| - 1] == items[i];
  }

  lemma PickedExtend<T, U>(s: seq<T>, x: T, pick: T -> U)
    ensures Picked(s + [x], pick) == Picked(s, pick) + [pick(x)]
  {
    var all := s + [x];
    assert all[..|all| - 1] == s;
  }

  /** Filtering a prefix of the items gives a prefix of the filtered items. */
  lemma {:induction false} VisiblePrefix<T>(items: seq<T>, n: nat, pos: T -> Vec, camera: Camera)
    requires n <= |items|
    ensures Visible(items[..n], pos, camera) <= Visible(items, pos, camera)
    decreases |items| - n
  {
    if n < |items| {
      VisiblePrefix(items, n + 1, pos, camera);
      VisibleExtend(items, n, pos, camera);
    } else {
      assert items[..n] == items;
    }
  }

  /** Everything Visible keeps is an item in view. */
  lemma {:induction false} VisibleAreInView<T>(items: seq<T>, pos: T -> Vec, camera: Camera)
    ensures forall x :: x in Visible(items, pos, camera) ==> x in items && InView(pos(x), camera)
  {
    if items != [] {
      var prefix := items[..|items| - 1];
      VisibleAreInView(prefix, pos, camera);
      assert forall x :: x in prefix ==> x in items;
    }
  }

  /** Every item in view is kept by Visible. */
  lemma {:induction false} InViewAreVisible<T>(items: seq<T>, pos: T -> Vec, camera: Camera)
    ensures forall x :: x in items && InView(pos(x), camera) ==> x in Visible(items, pos, camera)
  {
    if items != [] {
      var prefix := items[..|items| - 1];
      InViewAreVisible(prefix, pos, camera);
      assert items == prefix + [items[|items| - 1]];
    }
  }

  /**
   * The viewport filter reports only in-view items, and when fewer than max(1, maxCount)
   * are in view it reports every one of them.
   */
  lemma VisibleEntitiesComplete<T, U>(items: seq<T>, pos: T -> Vec, pick: T -> U, camera: Camera, maxCount: int)
    ensures var shown := Take(Visible(items, pos, camera), Cap(maxCount));
      && (forall x :: x in shown ==> x in items && InView(pos(x), camera))
      && (|Visible(items, pos, camera)| <= Cap(maxCount) ==>
            forall x :: x in items && InView(pos(x), camera) ==> x in shown)
  {
    VisibleAreInView(items, pos, camera);
    InViewAreVisible(items, pos, camera);
    var shown := Take(Visible(items, pos, camera), Cap(maxCount));
    assert forall x :: x in shown ==> x in Visible(items, pos, camera);
  }

  // ---------------------------------------------------------------------------
  // advanceTime
  // ---------------------------------------------------------------------------

  /** Math.round: the nearest integer, halves rounded up. */
  function Round(x: real): (r: int)
    ensures r as real - 0.5 <= x < r as real + 0.5
  {
    (x + 0.5).Floor
  }

  /** The number of fixed steps advanceTime runs for `ms` milliseconds: at least one. */
  function StepCount(ms: real): (n: int)
    ensures n >= 1
    ensures ms / FRAME_MS >= 0.5 ==> n as real - 0.5 <= ms / FRAME_MS < n as real + 0.5
    ensures ms / FRAME_MS < 0.5 ==> n == 1
  {
    var rounded := Round(ms / FRAME_MS);
    if rounded < 1 then 1 else rounded
  }

  /** `update` applied `n` times, each time only to a state in which the game is running. */
  function Advanced<S>(s: S, n: nat, running: S -> bool, update: S -> S): S {
    if n == 0 then s
    else
      var before := Advanced(s, n - 1, running, update);
      if running(before) then update(before) else before
  }

  /**
   * advanceTime: StepCount(ms) fixed steps, each of which updates the game only while it is
   * being played and not paused (updateGame is a parameter).
   */
  method AdvanceTime<S>(ms: real, s: S, running: S -> bool, update: S -> S) returns (r: S)
    ensures r == Advanced(s, StepCount(ms), running, update)
  {
    var steps := StepCount(ms);
    r := s;
    for i := 0 to steps
      invariant r == Advanced(s, i, running, update)
    {
      if running(r) {
        r := update(r);
      }
    }
  }

  /** A stopped or paused game is left exactly as it was. */
  lemma {:induction false} AdvanceWhileStopped<S>(s: S, n: nat, running: S -> bool, update: S -> S)
    requires !running(s)
    ensures Advanced(s, n, running, update) == s
  {
    if n > 0 {
      AdvanceWhileStopped(s, n - 1, running, update);
    }
  }
}
