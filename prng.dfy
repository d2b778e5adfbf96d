/**
 * The mulberry32 generator of autopair.js and the index arithmetic of its
 * Fisher-Yates shuffle. The closure's captured number `a` is kept as a
 * 32-bit word: every use of it goes through ToInt32/ToUint32, which reduce
 * it modulo 2^32. A draw is modelled by its 32-bit numerator `u`; the
 * JavaScript result is `u / 2^32`.
 */
module Prng {

  const TwoTo32: int := 0x1_0000_0000

  /** A 32-bit unsigned word, as an integer. */
  type Word = x: int | 0 <= x < TwoTo32

  /** The increment added to the state on every draw. */
  const Increment: Word := 0x6D2B79F5

  /** Addition modulo 2^32. */
  function Add(a: Word, b: Word): (r: Word)
    ensures r == a + b || r == a + b - TwoTo32
  {
    (a + b) % TwoTo32
  }

  /**
   * The output mixing of one draw, applied to the already incremented
   * state: `Math.imul` is multiplication modulo 2^32, `>>>` a logical shift.
   */
  function Temper(t: Word): Word {
    var t0 := t as bv32;
    var t1 := (t0 ^ (t0 >> 15)) * (t0 | 1);
    var t2 := t1 ^ (t1 + (t1 ^ (t1 >> 7)) * (t1 | 61));
    (t2 ^ (t2 >> 14)) as int
  }

  /**
   * The generator returned by `mulberry32(a)`: its state is the captured
   * `a`; `mix` is its output function, which is always `Temper`.
   */
  class Mulberry32 {
    var a: Word
    const mix: Word -> Word

    constructor (seed: Word)
      ensures a == seed && mix == Temper
    {
      a := seed;
      mix := Temper;
    }

    /** One call of the generator: `a += 0x6D2B79F5`, then the mixed value. */
    method Next() returns (u: Word)
      modifies this
      ensures a == Add(old(a), Increment)
      ensures u == mix(a)
    {
      a := Add(a, Increment);
      u := mix(a);
    }
  }

  /**
   * `u * n`, written as repeated addition so that the solver unfolds it
   * one step at a time.
   */
  function Scale(u: Word, n: nat): (p: nat)
    ensures p <= (TwoTo32 - 1) * n
  {
    if n == 0 then 0 else Scale(u, n - 1) + u
  }

  lemma {:induction false} ScaleIsProduct(u: Word, n: nat)
    ensures Scale(u, n) == u * n
  {
    if n > 0 {
      ScaleIsProduct(u, n - 1);
    }
  }

  /**
   * `Math.floor(u / 2^32 * (i + 1))`: the swap partner of index `i`. For
   * `i + 1 <= 2^21` the floating-point product is exact, so the floor is
   * the integer quotient below.
   */
  function SwapIndex(u: Word, i: nat): (j: nat)
    ensures j <= i
  {
    Scale(u, i + 1) / TwoTo32
  }
}
