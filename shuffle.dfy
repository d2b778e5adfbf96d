/**
 * `shuffle(arr, seed)` of autopair.js: a copy of `arr` permuted by a
 * descending Fisher-Yates loop. With a seed the swap indices come from
 * mulberry32 and the result is a function of the input and the seed;
 * without one they come from `Math.random`, modelled as an arbitrary
 * choice in range.
 */
module Shuffling {
  import opened Prng

  /** `Number(seed)` for the `seed` option: absent, an integer, or NaN. */
  datatype Seed = NoSeed | Numeric(n: int) | NotANumber

  /** The generator's start state `Number(seed) || 1`, reduced modulo 2^32. */
  function StartState(seed: Seed): (a: Word)
    requires seed != NoSeed
    ensures seed == NotANumber || seed == Numeric(0) ==> a == 1
    ensures seed.Numeric? && 0 < seed.n < TwoTo32 ==> a == seed.n
  {
    match seed
    case Numeric(n) => if n == 0 then 1 else n % TwoTo32
    case NotANumber => 1
  }

  /** The seed used for the second team: `Number(seed) + 1` when a seed is given. */
  function SecondTeamSeed(seed: Seed): (s: Seed)
    ensures s.NoSeed? <==> seed.NoSeed?
  {
    match seed
    case NoSeed => NoSeed
    case Numeric(n) => Numeric(n + 1)
    case NotANumber => NotANumber
  }

  /** `s` with the elements at `i` and `j` exchanged. */
  function Swap<T>(s: seq<T>, i: nat, j: nat): (r: seq<T>)
    requires i < |s| && j < |s|
    ensures |r| == |s|
  {
    s[i := s[j]][j := s[i]]
  }

  lemma SwapPermutes<T>(s: seq<T>, i: nat, j: nat)
    requires i < |s| && j < |s|
    ensures multiset(Swap(s, i, j)) == multiset(s)
  {
  }

  /**
   * The seeded loop from index `i` down to 1, starting with generator
   * state `a`: each step draws once and swaps `i` with its partner.
   */
  function FisherYates<T>(s: seq<T>, i: int, a: Word, draw: Word -> Word): (r: seq<T>)
    requires i < |s|
    decreases i
  {
    if i <= 0 then s
    else
      var a' := Add(a, Increment);
      FisherYates(Swap(s, i, SwapIndex(draw(a'), i)), i - 1, a', draw)
  }

  lemma {:induction false} FisherYatesPermutes<T>(s: seq<T>, i: int, a: Word, draw: Word -> Word)
    requires i < |s|
    ensures |FisherYates(s, i, a, draw)| == |s|
    ensures multiset(FisherYates(s, i, a, draw)) == multiset(s)
    decreases i
  {
    if i > 0 {
      var a' := Add(a, Increment);
      var s' := Swap(s, i, SwapIndex(draw(a'), i));
      SwapPermutes(s, i, SwapIndex(draw(a'), i));
      FisherYatesPermutes(s', i - 1, a', draw);
    }
  }

  /** One step of the seeded loop, as the loop body takes it. */
  lemma FisherYatesStep<T>(before: seq<T>, after: seq<T>, i: int, a: Word, draw: Word -> Word)
    requires 0 < i < |before|
    requires after == Swap(before, i, SwapIndex(draw(Add(a, Increment)), i))
    ensures FisherYates(before, i, a, draw) == FisherYates(after, i - 1, Add(a, Increment), draw)
  {
  }

  /** The whole seeded shuffle of `s` from start state `a`. */
  function SeededShuffle<T>(s: seq<T>, a: Word): seq<T> {
    FisherYates(s, |s| - 1, a, Temper)
  }

  /** A seeded shuffle returns a permutation of its input. */
  lemma SeededShufflePermutes<T>(s: seq<T>, a: Word)
    ensures |SeededShuffle(s, a)| == |s|
    ensures multiset(SeededShuffle(s, a)) == multiset(s)
  {
    FisherYatesPermutes(s, |s| - 1, a, Temper);
  }

  /** Elements of a shuffled list are elements of the list. */
  lemma SeededShuffleMembers<T>(s: seq<T>, a: Word, x: T)
    ensures x in SeededShuffle(s, a) <==> x in s
  {
    SeededShufflePermutes(s, a);
    assert x in multiset(SeededShuffle(s, a)) <==> x in multiset(s);
  }

  /**
   * `shuffle(arr, seed)`: the copy `a` is permuted from the last index
   * down to 1, swapping each index `i` with a partner `j <= i`.
   */
  method Shuffle<T>(arr: seq<T>, seed: Seed) returns (a: seq<T>)
    ensures |a| == |arr| && multiset(a) == multiset(arr)
    ensures seed != NoSeed ==> a == SeededShuffle(arr, StartState(seed))
  {
    a := arr;
    var rng: Mulberry32? := null;
    if seed != NoSeed {
      rng := new Mulberry32(StartState(seed));
    }
    ghost var target := if rng == null then arr else FisherYates(arr, |arr| - 1, rng.a, rng.mix);
    var i := |a| - 1;
    while i > 0
      invariant -1 <= i < |a| == |arr|
      invariant multiset(a) == multiset(arr)
      invariant rng == null <==> seed == NoSeed
      invariant rng != null ==> fresh(rng)
      invariant rng != null ==> target == FisherYates(a, i, rng.a, rng.mix)
    {
      ghost var before := a;
      ghost var state := if rng == null then 0 else rng.a;
      var j: nat;
      if rng == null {
        j :| j <= i;
      } else {
        var u := rng.Next();
        j := SwapIndex(u, i);
      }
      a := Swap(a, i, j);
      SwapPermutes(before, i, j);
      if rng != null {
        FisherYatesStep(before, a, i, state, rng.mix);
      }
      i := i - 1;
    }
  }
}
