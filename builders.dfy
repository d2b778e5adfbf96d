/**
 * The two assignment builders of autopair.js. Each shuffles the available
 * Ozark ids with the round's seed and the Valley ids with the next seed,
 * then fills `groupsCount` rows of four slots:
 *   - `buildAssignmentsTeam` puts an Ozark pair in slots 0 and 1 and a
 *     Valley pair in slots 2 and 3;
 *   - `buildAssignmentsSingles` interleaves them, Ozark in slots 0 and 2
 *     and Valley in slots 1 and 3 (two one-on-one matches).
 * Each builder is a method proved equal to a grid function of the
 * shuffled lists; the lemmas say how many slots each side fills.
 */
module Builders {
  import opened Wrappers
  import opened Shuffling
  import opened Grid

  /** `b` holds the same ids as `a`, possibly in another order. */
  predicate IsShuffleOf(b: seq<PlayerId>, a: seq<PlayerId>) {
    |b| == |a| && multiset(b) == multiset(a)
  }

  /** `arr.slice(i, i + 2)` for every even `i`: the ids two at a time. */
  function Pairs(ids: seq<PlayerId>): seq<seq<PlayerId>> {
    seq((|ids| + 1) / 2, k requires 0 <= k < (|ids| + 1) / 2 => ids[2 * k..Min(2 * k + 2, |ids|)])
  }

  function Flatten(chunks: seq<seq<PlayerId>>): seq<PlayerId> {
    if chunks == [] then [] else Flatten(chunks[..|chunks| - 1]) + chunks[|chunks| - 1]
  }

  /** `mkPairs`: slices of two, taken from the front. */
  method MakePairs(ids: seq<PlayerId>) returns (out: seq<seq<PlayerId>>)
    ensures out == Pairs(ids)
  {
    out := [];
    var i := 0;
    while i < |ids|
      invariant 0 <= i <= |ids| + 1 && i == 2 * |out|
      invariant forall k :: 0 <= k < |out| ==> out[k] == ids[2 * k..Min(2 * k + 2, |ids|)]
    {
      out := out + [ids[i..Min(i + 2, |ids|)]];
      i := i + 2;
    }
  }

  lemma {:induction false} PairsPrefix(ids: seq<PlayerId>, k: nat)
    requires k <= |Pairs(ids)|
    ensures Flatten(Pairs(ids)[..k]) == ids[..Min(2 * k, |ids|)]
  {
    if k > 0 {
      var pairs := Pairs(ids);
      PairsPrefix(ids, k - 1);
      assert pairs[..k][..k - 1] == pairs[..k - 1];
      assert ids[..Min(2 * k, |ids|)] == ids[..2 * (k - 1)] + ids[2 * (k - 1)..Min(2 * k, |ids|)];
    }
  }

  /** Joining the pairs gives back the list: no id is lost, repeated or moved. */
  lemma PairsRoundTrip(ids: seq<PlayerId>)
    ensures Flatten(Pairs(ids)) == ids
  {
    var pairs := Pairs(ids);
    PairsPrefix(ids, |pairs|);
    assert pairs[..|pairs|] == pairs;
    assert ids[..Min(2 * |pairs|, |ids|)] == ids;
  }

  /** Every pair holds two ids except, for an odd count, the last one. */
  lemma PairsSizes(ids: seq<PlayerId>)
    ensures forall k :: 0 <= k < |Pairs(ids)| ==>
      |Pairs(ids)[k]| == if k == |ids| / 2 then 1 else 2
  {
  }

  /**
   * The two slots one side gets in row `g` of a team grid: its `g`-th pair
   * while full pairs remain; afterwards `pairsX[px]` is stuck on the
   * single leftover id of an odd list, which lands in the first slot of
   * every remaining row, or is missing for an even list.
   */
  function TeamHalf(ids: seq<PlayerId>, g: nat): Row {
    if 2 * g + 2 <= |ids| then [Some(ids[2 * g]), Some(ids[2 * g + 1])]
    else if |ids| % 2 == 1 then [Some(ids[|ids| - 1]), None]
    else [None, None]
  }

  function TeamGrid(a: seq<PlayerId>, b: seq<PlayerId>, count: nat): (grid: Grid)
    ensures Shaped(grid, count, 4)
  {
    seq(count, g requires 0 <= g < count => TeamHalf(a, g) + TeamHalf(b, g))
  }

  /**
   * `shortX` after `count` rows for a side with `n` ids: each row past the
   * full pairs adds 1 when the leftover id fills a slot, 2 otherwise.
   */
  function TeamShort(n: nat, count: nat): nat {
    var missing := count - Min(count, n / 2);
    if n % 2 == 1 then missing else 2 * missing
  }

  /** `pairsX[px] || []` at the position the row loop has reached by row `g`. */
  lemma PairAtRow(ids: seq<PlayerId>, g: nat)
    ensures var p := Min(g, |ids| / 2);
      var pair := if p < |Pairs(ids)| then Pairs(ids)[p] else [];
      if 2 * g + 2 <= |ids| then pair == [ids[2 * g], ids[2 * g + 1]]
      else if |ids| % 2 == 1 then pair == [ids[|ids| - 1]]
      else pair == []
  {
  }

  /**
   * One side's step of the row loop in `buildAssignmentsTeam`: a full pair
   * fills both slots and advances the cursor; anything shorter fills what
   * it can, leaves the cursor where it is and adds the missing slots to
   * the shortfall.
   */
  method TakePair(pairs: seq<seq<PlayerId>>, p: nat, short: nat, ghost ids: seq<PlayerId>, ghost g: nat)
    returns (half: Row, p': nat, short': nat)
    requires pairs == Pairs(ids) && p == Min(g, |ids| / 2) && short == TeamShort(|ids|, g)
    ensures half == TeamHalf(ids, g)
    ensures p' == Min(g + 1, |ids| / 2) && short' == TeamShort(|ids|, g + 1)
  {
    PairAtRow(ids, g);
    var pair := if p < |pairs| then pairs[p] else [];
    half, p', short' := [None, None], p, short;
    if |pair| == 2 {
      half := half[0 := Some(pair[0])][1 := Some(pair[1])];
      p' := p + 1;
    } else {
      if |pair| == 1 {
        half := half[0 := Some(pair[0])];
      }
      short' := short + (2 - |pair|);
    }
  }

  /** The row loop of `buildAssignmentsTeam` over already shuffled lists. */
  method FillTeam(a: seq<PlayerId>, b: seq<PlayerId>, count: nat) returns (assignments: Grid, shortA: nat, shortB: nat)
    ensures assignments == TeamGrid(a, b, count)
    ensures shortA == TeamShort(|a|, count) && shortB == TeamShort(|b|, count)
  {
    var pairsA := MakePairs(a);
    var pairsB := MakePairs(b);
    assignments := NullGrid(count, 4);
    var pa, pb := 0, 0;
    shortA, shortB := 0, 0;
    for g := 0 to count
      invariant |assignments| == count
      invariant forall h :: 0 <= h < g ==> assignments[h] == TeamHalf(a, h) + TeamHalf(b, h)
      invariant pa == Min(g, |a| / 2) && pb == Min(g, |b| / 2)
      invariant shortA == TeamShort(|a|, g) && shortB == TeamShort(|b|, g)
    {
      var halfA, halfB;
      halfA, pa, shortA := TakePair(pairsA, pa, shortA, a, g);
      halfB, pb, shortB := TakePair(pairsB, pb, shortB, b, g);
      assignments := assignments[g := halfA + halfB];
    }
  }

  /**
   * `buildAssignmentsTeam`: whatever the shuffle, the grid is the team grid
   * of some reordering of each side and the shortfalls depend only on the
   * counts; with a seed, the reordering is the seeded one.
   */
  method BuildTeam(oz: seq<PlayerId>, va: seq<PlayerId>, count: nat, seed: Seed)
    returns (assignments: Grid, shortA: nat, shortB: nat)
    ensures exists a, b :: IsShuffleOf(a, oz) && IsShuffleOf(b, va) && assignments == TeamGrid(a, b, count)
    ensures seed != NoSeed ==>
      assignments == TeamGrid(SeededShuffle(oz, StartState(seed)), SeededShuffle(va, StartState(SecondTeamSeed(seed))), count)
    ensures shortA == TeamShort(|oz|, count) && shortB == TeamShort(|va|, count)
  {
    var a := Shuffle(oz, seed);
    var b := Shuffle(va, SecondTeamSeed(seed));
    assignments, shortA, shortB := FillTeam(a, b, count);
  }

  /** `X[k] ?? null`. */
  function At(ids: seq<PlayerId>, k: nat): Cell {
    if k < |ids| then Some(ids[k]) else None
  }

  /** Row `g` of a singles grid: the `2g`-th and `2g+1`-th id of each side, interleaved. */
  function SinglesGrid(a: seq<PlayerId>, b: seq<PlayerId>, count: nat): (grid: Grid)
    ensures Shaped(grid, count, 4)
  {
    seq(count, g requires 0 <= g < count => [At(a, 2 * g), At(b, 2 * g), At(a, 2 * g + 1), At(b, 2 * g + 1)])
  }

  /** The row loop of `buildAssignmentsSingles` over already shuffled lists. */
  method FillSingles(a: seq<PlayerId>, b: seq<PlayerId>, count: nat) returns (assignments: Grid, shortOz: nat, shortVa: nat)
    ensures assignments == SinglesGrid(a, b, count)
    ensures shortOz == Max(0, 2 * count - |a|) && shortVa == Max(0, 2 * count - |b|)
  {
    assignments := NullGrid(count, 4);
    var i, j := 0, 0;
    for g := 0 to count
      invariant |assignments| == count
      invariant forall h :: 0 <= h < g ==>
        assignments[h] == [At(a, 2 * h), At(b, 2 * h), At(a, 2 * h + 1), At(b, 2 * h + 1)]
      invariant forall h :: g <= h < count ==> assignments[h] == [None, None, None, None]
      invariant i == Min(|a|, 2 * g) && j == Min(|b|, 2 * g)
    {
      var row := assignments[g];
      row := row[0 := At(a, i)];
      if At(a, i).Some? { i := i + 1; }
      row := row[1 := At(b, j)];
      if At(b, j).Some? { j := j + 1; }
      row := row[2 := At(a, i)];
      if At(a, i).Some? { i := i + 1; }
      row := row[3 := At(b, j)];
      if At(b, j).Some? { j := j + 1; }
      assignments := assignments[g := row];
    }
    var needPerSide := count * 2;
    shortOz := Max(0, needPerSide - i);
    shortVa := Max(0, needPerSide - j);
  }

  /** `buildAssignmentsSingles`, stated like `BuildTeam`. */
  method BuildSingles(oz: seq<PlayerId>, va: seq<PlayerId>, count: nat, seed: Seed)
    returns (assignments: Grid, shortOz: nat, shortVa: nat)
    ensures exists a, b :: IsShuffleOf(a, oz) && IsShuffleOf(b, va) && assignments == SinglesGrid(a, b, count)
    ensures seed != NoSeed ==>
      assignments == SinglesGrid(SeededShuffle(oz, StartState(seed)), SeededShuffle(va, StartState(SecondTeamSeed(seed))), count)
    ensures shortOz == Max(0, 2 * count - |oz|) && shortVa == Max(0, 2 * count - |va|)
  {
    var a := Shuffle(oz, seed);
    var b := Shuffle(va, SecondTeamSeed(seed));
    assignments, shortOz, shortVa := FillSingles(a, b, count);
  }

  function Filled(c: Cell): nat {
    if c.Some? then 1 else 0
  }

  /** The number of filled slots in columns `c0` and `c1` over all rows. */
  function SideCount(grid: Grid, c0: nat, c1: nat): nat
    requires forall g :: 0 <= g < |grid| ==> c0 < |grid[g]| && c1 < |grid[g]|
  {
    if grid == [] then 0
    else SideCount(grid[..|grid| - 1], c0, c1) + Filled(grid[|grid| - 1][c0]) + Filled(grid[|grid| - 1][c1])
  }

  /**
   * In a team grid each side's filled slots and its shortfall add up to the
   * two slots per row it was meant to fill.
   */
  lemma {:induction false} TeamShortfallBalance(a: seq<PlayerId>, b: seq<PlayerId>, count: nat)
    ensures SideCount(TeamGrid(a, b, count), 0, 1) + TeamShort(|a|, count) == 2 * count
    ensures SideCount(TeamGrid(a, b, count), 2, 3) + TeamShort(|b|, count) == 2 * count
  {
    if count > 0 {
      TeamShortfallBalance(a, b, count - 1);
      var grid := TeamGrid(a, b, count);
      assert grid[..count - 1] == TeamGrid(a, b, count - 1);
      var last := TeamHalf(a, count - 1) + TeamHalf(b, count - 1);
      assert grid[count - 1] == last;
      assert Filled(last[0]) + Filled(last[1]) + TeamShort(|a|, count) == TeamShort(|a|, count - 1) + 2;
      assert Filled(last[2]) + Filled(last[3]) + TeamShort(|b|, count) == TeamShort(|b|, count - 1) + 2;
    }
  }

  /**
   * A singles grid fills as many slots of a side as it has ids, up to two
   * per row, so filled slots and shortfall add up to two per row.
   */
  lemma {:induction false} SinglesShortfallBalance(a: seq<PlayerId>, b: seq<PlayerId>, count: nat)
    ensures SideCount(SinglesGrid(a, b, count), 0, 2) == Min(|a|, 2 * count)
    ensures SideCount(SinglesGrid(a, b, count), 1, 3) == Min(|b|, 2 * count)
    ensures SideCount(SinglesGrid(a, b, count), 0, 2) + Max(0, 2 * count - |a|) == 2 * count
    ensures SideCount(SinglesGrid(a, b, count), 1, 3) + Max(0, 2 * count - |b|) == 2 * count
  {
    if count > 0 {
      SinglesShortfallBalance(a, b, count - 1);
      assert SinglesGrid(a, b, count)[..count - 1] == SinglesGrid(a, b, count - 1);
    }
  }

  /** Ozark ids go to the first two slots of a team row, Valley ids to the last two. */
  lemma TeamGridSides(a: seq<PlayerId>, b: seq<PlayerId>, count: nat)
    ensures forall g, k :: 0 <= g < count && 0 <= k < 4 && TeamGrid(a, b, count)[g][k].Some? ==>
      TeamGrid(a, b, count)[g][k].value in (if k < 2 then a else b)
  {
  }

  /** Ozark ids go to the even slots of a singles row, Valley ids to the odd ones. */
  lemma SinglesGridSides(a: seq<PlayerId>, b: seq<PlayerId>, count: nat)
    ensures forall g, k :: 0 <= g < count && 0 <= k < 4 && SinglesGrid(a, b, count)[g][k].Some? ==>
      SinglesGrid(a, b, count)[g][k].value in (if k % 2 == 0 then a else b)
  {
  }

  predicate Distinct(ids: seq<PlayerId>) {
    forall i, j :: 0 <= i < j < |ids| ==> ids[i] != ids[j]
  }

  /** A singles grid never places the same Ozark player in two slots. */
  lemma SinglesPlacesOnce(a: seq<PlayerId>, b: seq<PlayerId>, count: nat, g: nat, k: nat, h: nat, l: nat)
    requires Distinct(a)
    requires g < count && h < count && k in {0, 2} && l in {0, 2}
    requires SinglesGrid(a, b, count)[g][k].Some? && SinglesGrid(a, b, count)[g][k] == SinglesGrid(a, b, count)[h][l]
    ensures g == h && k == l
  {
    var grid := SinglesGrid(a, b, count);
    var x := 2 * g + k / 2;
    var y := 2 * h + l / 2;
    assert grid[g][k] == At(a, x) && grid[h][l] == At(a, y);
  }

  /** A singles grid never places the same Valley player in two slots. */
  lemma SinglesValleyPlacesOnce(a: seq<PlayerId>, b: seq<PlayerId>, count: nat, g: nat, k: nat, h: nat, l: nat)
    requires Distinct(b)
    requires g < count && h < count && k in {1, 3} && l in {1, 3}
    requires SinglesGrid(a, b, count)[g][k].Some? && SinglesGrid(a, b, count)[g][k] == SinglesGrid(a, b, count)[h][l]
    ensures g == h && k == l
  {
    var grid := SinglesGrid(a, b, count);
    var x := 2 * g + k / 2;
    var y := 2 * h + l / 2;
    assert grid[g][k] == At(b, x) && grid[h][l] == At(b, y);
  }

  /**
   * An Ozark player placed from a full pair of a team grid appears in no
   * other Ozark slot (and Valley ids only go to slots 2-3). Only the
   * leftover id of an odd list is repeated.
   */
  lemma TeamPairsPlacedOnce(a: seq<PlayerId>, b: seq<PlayerId>, count: nat, g: nat, k: nat, h: nat, l: nat)
    requires Distinct(a)
    requires g < count && h < count && k < 2 && l < 2 && 2 * g + 2 <= |a|
    requires TeamGrid(a, b, count)[g][k] == TeamGrid(a, b, count)[h][l]
    ensures g == h && k == l
  {
    var grid := TeamGrid(a, b, count);
    assert grid[g][k] == Some(a[2 * g + k]);
    assert grid[h][l] == TeamHalf(a, h)[l];
    if 2 * h + 2 <= |a| {
      assert grid[h][l] == Some(a[2 * h + l]);
    }
  }

  /** The same for a Valley player placed from a full pair, in slots 2-3. */
  lemma TeamValleyPairsPlacedOnce(a: seq<PlayerId>, b: seq<PlayerId>, count: nat, g: nat, k: nat, h: nat, l: nat)
    requires Distinct(b)
    requires g < count && h < count && 2 <= k < 4 && 2 <= l < 4 && 2 * g + 2 <= |b|
    requires TeamGrid(a, b, count)[g][k] == TeamGrid(a, b, count)[h][l]
    ensures g == h && k == l
  {
    var grid := TeamGrid(a, b, count);
    assert grid[g][k] == Some(b[2 * g + k - 2]);
    assert grid[h][l] == TeamHalf(b, h)[l - 2];
    if 2 * h + 2 <= |b| {
      assert grid[h][l] == Some(b[2 * h + l - 2]);
    }
  }

  /**
   * Three Ozark players over four groups: the first pair fills group 1,
   * the leftover player is written into each of groups 2 to 4, and the
   * shortfall is 3 (one slot per group after the first).
   */
  lemma ThreeOzarksFourGroups(b: seq<PlayerId>)
    ensures var grid := TeamGrid(["a", "b", "c"], b, 4);
      grid[0][..2] == [Some("a"), Some("b")]
      && grid[1][..2] == grid[2][..2] == grid[3][..2] == [Some("c"), None]
    ensures TeamShort(3, 4) == 3
  {
  }

  /** Eight players a side over four groups: every slot filled, nothing short. */
  lemma EightEachFourGroupsBalanced(a: seq<PlayerId>, b: seq<PlayerId>)
    requires |a| == 8 && |b| == 8
    ensures SideCount(TeamGrid(a, b, 4), 0, 1) == 8 && SideCount(TeamGrid(a, b, 4), 2, 3) == 8
    ensures TeamShort(|a|, 4) == 0 && TeamShort(|b|, 4) == 0
  {
    TeamShortfallBalance(a, b, 4);
  }
}
