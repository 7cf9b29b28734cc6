/**
 * The seeded linear congruential generator behind every random choice of the world
 * generator (setSeed, random, rand, randomChoice). Its state is a 32-bit unsigned integer.
 */
module Prng {
  import opened Options

  newtype uint32 = x: int | 0 <= x < 0x1_0000_0000

  const MODULUS: int := 0x1_0000_0000
  const MULTIPLIER: int := 1664525
  const INCREMENT: int := 1013904223
  /** The seed resetWorld installs before generating the city. */
  const WORLD_SEED: int := 20260207

  /**
   * `(seed >>> 0) || 1` for an integral seed: the seed reduced modulo 2^32, except that a
   * zero state is replaced by 1.
   */
  function SeedState(seed: int): (s: uint32)
    ensures s != 0
    ensures (s as int - seed) % MODULUS == 0 || (seed % MODULUS == 0 && s == 1)
    ensures 0 < seed < MODULUS ==> s as int == seed
  {
    var t := seed % MODULUS;
    if t == 0 then 1 else t as uint32
  }

  /**
   * `(1664525 * s + 1013904223) >>> 0`. The product stays below 2^53, so the double
   * arithmetic of the source is exact and `>>> 0` is reduction modulo 2^32.
   */
  function NextState(s: uint32): uint32 {
    ((MULTIPLIER * s as int + INCREMENT) % MODULUS) as uint32
  }

  lemma ProductIsExactInDouble(s: uint32)
    ensures MULTIPLIER * s as int + INCREMENT < 0x20_0000_0000_0000
  {
  }

  /** `rngState / 4294967296`: the state read as a fraction of 2^32. */
  function UnitOf(s: uint32): (u: real)
    ensures 0.0 <= u < 1.0
    ensures u * MODULUS as real == s as real
  {
    s as real / MODULUS as real
  }

  /**
   * `Math.floor(random() * n)` for the state `s` that random() has just produced:
   * the integer part of UnitOf(s) * n, which is always a valid index below n.
   */
  function ChoiceIndex(s: uint32, n: nat): (i: nat)
    requires n > 0
    ensures i < n
    ensures (i as real) <= UnitOf(s) * (n as real) < (i + 1) as real
  {
    ScaledFloor(s as int, n);
    (s as int * n) / MODULUS
  }

  /** The floor of s * n / 2^32 lies below n and brackets the exact quotient. */
  lemma ScaledFloor(s: int, n: nat)
    requires 0 <= s < MODULUS && n > 0
    ensures 0 <= (s * n) / MODULUS < n
    ensures ((s * n) / MODULUS) as real <= (s as real / MODULUS as real) * (n as real)
    ensures (s as real / MODULUS as real) * (n as real) < ((s * n) / MODULUS + 1) as real
  {
    var q, m := (s * n) / MODULUS, (s * n) % MODULUS;
    assert s * n == q * MODULUS + m && 0 <= m < MODULUS;
    assert s * n < MODULUS * n;
    var x := (s as real / MODULUS as real) * (n as real);
    assert x == (s * n) as real / MODULUS as real;
    assert (s * n) as real == q as real * MODULUS as real + m as real;
    assert x == q as real + m as real / MODULUS as real;
  }

  /** A fraction u in [0, 1) of a span d lies in [0, d], strictly below d when d > 0. */
  lemma FractionOfSpan(u: real, d: real)
    requires 0.0 <= u < 1.0
    ensures d >= 0.0 ==> 0.0 <= u * d <= d
    ensures d > 0.0 ==> u * d < d
  {
    if d > 0.0 {
      assert d - u * d == (1.0 - u) * d;
    }
  }

  /** The module-level generator state `rngState`, initially 1. */
  class Rng {
    var state: uint32

    constructor ()
      ensures state == 1
    {
      state := 1;
    }

    /** setSeed */
    method SetSeed(seed: int)
      modifies this
      ensures state == SeedState(seed)
    {
      var t := seed % MODULUS;
      state := if t == 0 then 1 else t as uint32;
    }

    /** random(): advance the state once and return it as a fraction in [0, 1). */
    method Random() returns (u: real)
      modifies this
      ensures state == NextState(old(state))
      ensures u == UnitOf(state) && 0.0 <= u < 1.0
    {
      state := ((MULTIPLIER * state as int + INCREMENT) % MODULUS) as uint32;
      u := state as real / MODULUS as real;
    }

    /** rand(min, max): a value from min towards max, never reaching max when min < max. */
    method Rand(min: real, max: real) returns (v: real)
      modifies this
      ensures state == NextState(old(state))
      ensures v == min + UnitOf(state) * (max - min)
      ensures min <= max ==> min <= v <= max
      ensures min < max ==> v < max
    {
      var u := Random();
      var span := max - min;
      FractionOfSpan(u, span);
      v := min + u * span;
      assert max == min + span;
    }

    /**
     * randomChoice(list): one step of the generator picks an element of a non-empty list;
     * an empty list yields `undefined` (None) and still advances the state.
     */
    method RandomChoice<T>(list: seq<T>) returns (r: Option<T>)
      modifies this
      ensures state == NextState(old(state))
      ensures list == [] <==> r == None
      ensures list != [] ==> r == Some(list[ChoiceIndex(state, |list|)]) && r.value in list
    {
      var u := Random();
      if |list| == 0 {
        r := None;
      } else {
        r := Some(list[ChoiceIndex(state, |list|)]);
      }
    }
  }
}
