/**
 * Scalar helpers of game.js (clamp, min/max/abs/sign, normalizeAngle) and the host
 * mathematics the simulation calls but that is not modelled exactly.
 */
module Numeric {

  /** JavaScript's Math.PI, written as the shortest decimal that denotes it. */
  const PI: real := 3.141592653589793
  const TWO_PI: real := 2.0 * PI

  function Min(a: real, b: real): real { if a <= b then a else b }
  function Max(a: real, b: real): real { if a >= b then a else b }
  function Abs(a: real): real { if a < 0.0 then -a else a }
  function Sign(a: real): real { if a > 0.0 then 1.0 else if a < 0.0 then -1.0 else 0.0 }

  /** clamp(value, min, max) = Math.max(min, Math.min(max, value)). */
  function Clamp(value: real, lo: real, hi: real): (r: real)
    ensures lo <= hi ==> lo <= r <= hi
    ensures lo <= value <= hi ==> r == value
    ensures value < lo ==> r == lo
    ensures lo <= hi < value ==> r == hi
    ensures hi < lo ==> r == lo
  {
    Max(lo, Min(hi, value))
  }

  /**
   * normalizeAngle: subtract whole turns while the angle exceeds pi, then add whole
   * turns while it is below -pi. The ghost `turns` counts the net turns removed.
   */
  method NormalizeAngle(value: real) returns (angle: real, ghost turns: int)
    ensures -PI <= angle <= PI
    ensures angle == value - (turns as real) * TWO_PI
    ensures -PI <= value <= PI ==> angle == value && turns == 0
    ensures value > PI ==> angle > -PI
    ensures value < -PI ==> angle < PI
  {
    angle, turns := value, 0;
    while angle > PI
      invariant angle == value - (turns as real) * TWO_PI
      invariant value <= PI ==> angle == value && turns == 0
      invariant value > PI ==> angle > -PI
      decreases angle.Floor
    {
      angle, turns := angle - TWO_PI, turns + 1;
    }
    while angle < -PI
      invariant angle <= PI
      invariant angle == value - (turns as real) * TWO_PI
      invariant -PI <= value <= PI ==> angle == value && turns == 0
      invariant value > PI ==> angle > -PI
      invariant value < -PI ==> angle < PI
      decreases (-angle).Floor
    {
      angle, turns := angle + TWO_PI, turns - 1;
    }
  }

  /**
   * `angle` is `value` wrapped by `turns` whole turns into [-pi, pi], as normalizeAngle's
   * loops leave it: an input already in [-pi, pi] is kept as it is, one above pi never
   * ends at -pi, one below -pi never ends at pi.
   */
  predicate WrappedBy(value: real, angle: real, turns: int) {
    && -PI <= angle <= PI
    && angle == value - (turns as real) * TWO_PI
    && (-PI <= value <= PI ==> angle == value)
    && (value > PI ==> angle > -PI)
    && (value < -PI ==> angle < PI)
  }

  /** The wrapped angle is determined by the input: normalizeAngle has one answer per angle. */
  lemma WrappedByUnique(value: real, a1: real, t1: int, a2: real, t2: int)
    requires WrappedBy(value, a1, t1) && WrappedBy(value, a2, t2)
    ensures a1 == a2
  {
    var k := t2 - t1;
    assert a1 - a2 == (k as real) * TWO_PI;
    if k >= 2 {
      assert (k as real) * TWO_PI >= 2.0 * TWO_PI;
    } else if k <= -2 {
      assert (k as real) * TWO_PI <= -2.0 * TWO_PI;
    }
  }

  /**
   * The host mathematics the simulation calls: Math.hypot (and Math.sqrt of a sum of
   * squares), Math.atan2, Math.cos, Math.sin and Math.exp. Their exact values are not
   * modelled; Sound() states the only facts the proofs rely on.
   */
  datatype Host = Host(
    hypot: (real, real) -> real,
    sqrt: real -> real,
    atan2: (real, real) -> real,
    cos: real -> real,
    sin: real -> real,
    exp: real -> real)
  {
    ghost predicate Sound() {
      && (forall a, b :: hypot(a, b) >= 0.0 && hypot(a, b) * hypot(a, b) == a * a + b * b)
      && (forall t :: t >= 0.0 ==> sqrt(t) >= 0.0 && sqrt(t) * sqrt(t) == t)
      && (forall t :: cos(t) * cos(t) + sin(t) * sin(t) == 1.0)
      && (forall t :: t <= 0.0 ==> 0.0 < exp(t) <= 1.0)
    }
  }

  // Small facts of real arithmetic, stated one step at a time so that the solver's
  // nonlinear reasoning is only ever asked a single question.

  lemma QuotientTimes(a: real, d: real)
    requires d != 0.0
    ensures (a / d) * d == a
  {
  }

  lemma ZeroFactor(x: real, k: real)
    requires k != 0.0
    requires x * k == 0.0
    ensures x == 0.0
  {
  }

  /** A non-negative number whose square is zero is zero (y is x, named apart for the solver). */
  lemma SquareZero(x: real, y: real)
    requires x >= 0.0 && y == x
    requires x * y == 0.0
    ensures x == 0.0
  {
  }

  /** Cancelling a positive factor twice: s * d * d == d * d forces s == 1. */
  lemma CancelSquare(s: real, d: real, w: real)
    requires d > 0.0
    requires d * d == w
    requires s * d * d == w
    ensures s == 1.0
  {
    assert (s - 1.0) * d * d == 0.0;
    ZeroFactor((s - 1.0) * d, d);
    ZeroFactor(s - 1.0, d);
  }

  lemma SquareOfProduct(q: real, d: real, a: real)
    requires q * d == a
    ensures q * q * d * d == a * a
  {
  }

  /** A vector scaled down by its (positive) length has length one. */
  lemma ScaledToUnit(nx: real, ny: real, ox: real, oy: real, d: real)
    requires d > 0.0
    requires nx * d == ox && ny * d == oy
    requires d * d == ox * ox + oy * oy
    ensures nx * nx + ny * ny == 1.0
  {
    SquareOfProduct(nx, d, ox);
    SquareOfProduct(ny, d, oy);
    CancelSquare(nx * nx + ny * ny, d, ox * ox + oy * oy);
  }

  lemma NonposTimes(a: real, b: real)
    requires a <= 0.0 && b >= 0.0
    ensures a * b <= 0.0
  {
  }

  lemma NonnegTimes(a: real, b: real)
    requires a >= 0.0 && b >= 0.0
    ensures a * b >= 0.0
  {
  }

  lemma NonnegFactor(x: real, d: real)
    requires d > 0.0 && x * d >= 0.0
    ensures x >= 0.0
  {
  }

  /** Scaling by the inverse of a positive m and then by m gives the number back. */
  lemma InverseCancels(m: real, i: real, t: real)
    requires m > 0.0 && i == 1.0 / m
    ensures (t * i) * m == t
  {
    QuotientTimes(1.0, m);
    var w := i * m;
    assert w == 1.0;
    assert (t * i) * m == t * w;
  }

  /** Dividing a scaled number is scaling the quotient. */
  lemma DivideAfterScaling(x: real, i: real, s: real)
    requires s != 0.0
    ensures x * i / s == (x / s) * i
  {
    QuotientTimes(x * i, s);
    QuotientTimes(x, s);
    assert (x * i / s - (x / s) * i) * s == 0.0;
    ZeroFactor(x * i / s - (x / s) * i, s);
  }

  /** Squaring is monotone on the non-negative numbers. */
  lemma SquareMonotone(a: real, b: real)
    requires 0.0 <= b <= a
    ensures b * b <= a * a
  {
    NonposTimes(b - a, a);
    NonposTimes(b - a, b);
  }

  /** Multiplying by a non-negative factor keeps the order. */
  lemma ScaleMonotone(k: real, lo: real, hi: real)
    requires k >= 0.0 && lo <= hi
    ensures k * lo <= k * hi
  {
    NonposTimes(lo - hi, k);
  }
}
