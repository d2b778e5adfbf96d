/**
 * The auto-pairing operations of autopair.js over the shared event state:
 * the roster, a format per round, a pairing grid per round and the number
 * of groups. `ensureShape` fills in what is missing, `ensureSide` sizes a
 * round's grid, and `autoPairRound` clears or keeps the grid, builds
 * assignments from the players not yet placed and writes them in. Each
 * method is stated against the functions of the Rounds module.
 */
module AutoPair {
  import opened Wrappers
  import opened Players
  import opened Shuffling
  import opened Grid
  import opened Builders
  import opened Rounds

  /** `Array.from(...)` of `g.slice(0, gs)` padded with `push(null)`: one row of `ensureSide`. */
  method PadRow(row: Row, width: nat) returns (x: Row)
    ensures x == FitRow(row, width)
  {
    x := if |row| <= width then row else row[..width];
    while |x| < width
      invariant |x| <= width && |x| == Max(Min(|row|, width), |x|)
      invariant forall k :: 0 <= k < |x| ==> x[k] == if k < |row| then row[k] else None
    {
      x := x + [None];
    }
  }

  /** `arr.map(...)` in `ensureSide`: every row of a grid fitted to `width`. */
  method FitRows(arr: Grid, width: nat) returns (fitted: Grid)
    ensures |fitted| == |arr| && Shaped(fitted, |arr|, width)
    ensures forall h :: 0 <= h < |arr| ==> fitted[h] == FitRow(arr[h], width)
  {
    fitted := arr;
    for g := 0 to |arr|
      invariant |fitted| == |arr|
      invariant forall h :: 0 <= h < g ==> fitted[h] == FitRow(arr[h], width)
      invariant forall h :: g <= h < |arr| ==> fitted[h] == arr[h]
    {
      var x := PadRow(fitted[g], width);
      fitted := fitted[g := x];
    }
  }

  /**
   * The row loop of `applyAssignments` on one round's grid: each row is
   * padded or cut to the assignments' width, then each slot set to its
   * target, except that an occupied slot is skipped in fill mode.
   */
  method ApplyRows(grid: Grid, assignments: Grid, fillUnassigned: bool) returns (out: Grid)
    requires Width(assignments) == 0 || |grid| <= |assignments|
    ensures out == Applied(grid, assignments, fillUnassigned)
  {
    var gs := Width(assignments);
    out := grid;
    for g := 0 to |grid|
      invariant |out| == |grid|
      invariant forall h :: 0 <= h < g ==> out[h] == ApplyRow(grid[h], assignments, h, fillUnassigned)
      invariant forall h :: g <= h < |out| ==> out[h] == grid[h]
    {
      var row := PadRow(out[g], gs);
      ghost var fitted := row;
      for i := 0 to gs
        invariant |row| == gs
        invariant forall k :: 0 <= k < i ==>
          row[k] == if fillUnassigned && fitted[k].Some? then fitted[k] else Target(assignments, g, k)
        invariant forall k :: i <= k < gs ==> row[k] == fitted[k]
      {
        var target := Target(assignments, g, i);
        if fillUnassigned {
          if row[i].None? {
            row := row[i := target];
          }
        } else {
          row := row[i := target];
        }
      }
      assert row == ApplyRow(grid[g], assignments, g, fillUnassigned);
      out := out[g := row];
    }
    assert out == Applied(grid, assignments, fillUnassigned);
  }

  lemma UpdateTwice<K, V>(m: map<K, V>, k: K, v: V, w: V)
    ensures m[k := v][k := w] == m[k := w]
  {
  }

  /** The team branch of `autoPairRound`: two pairs per group, and each side's shortfall. */
  method TeamRound(oz: seq<PlayerId>, va: seq<PlayerId>, count: nat, seed: Seed, title: string)
    returns (assignments: Grid, notices: seq<Notice>)
    ensures exists a, b :: IsShuffleOf(a, oz) && IsShuffleOf(b, va) && assignments == TeamGrid(a, b, count)
    ensures seed != NoSeed ==>
      assignments == TeamGrid(SeededShuffle(oz, StartState(seed)), SeededShuffle(va, StartState(SecondTeamSeed(seed))), count)
    ensures notices == TeamNotices(|oz|, |va|, count, title)
  {
    var shortA, shortB;
    assignments, shortA, shortB := BuildTeam(oz, va, count, seed);
    notices := [];
    if shortA != 0 {
      notices := notices + [OzarkShort(shortA, title)];
    }
    if shortB != 0 {
      notices := notices + [ValleyShort(shortB, title)];
    }
  }

  /** The singles branch of `autoPairRound`: two matches per group, and each side found short. */
  method SinglesRound(oz: seq<PlayerId>, va: seq<PlayerId>, count: nat, seed: Seed, title: string)
    returns (assignments: Grid, notices: seq<Notice>)
    ensures exists a, b :: IsShuffleOf(a, oz) && IsShuffleOf(b, va) && assignments == SinglesGrid(a, b, count)
    ensures seed != NoSeed ==>
      assignments == SinglesGrid(SeededShuffle(oz, StartState(seed)), SeededShuffle(va, StartState(SecondTeamSeed(seed))), count)
    ensures notices == SinglesNotices(|oz|, |va|, count, title)
  {
    var shortOz, shortVa;
    assignments, shortOz, shortVa := BuildSingles(oz, va, count, seed);
    var needPerSide := count * 2;
    notices := [];
    if |oz| < needPerSide {
      notices := notices + [OzarkOnly(|oz|, needPerSide, title)];
    }
    if |va| < needPerSide {
      notices := notices + [ValleyOnly(|va|, needPerSide, title)];
    }
  }

  /**
   * The rest of `autoPairRound` once the available ids are known: the
   * team builder for a team format, the singles builder otherwise.
   */
  method BuildRound(fmt: string, oz: seq<PlayerId>, va: seq<PlayerId>, count: nat, seed: Seed, title: string)
    returns (assignments: Grid, notices: seq<Notice>)
    ensures Shaped(assignments, count, 4)
    ensures exists a, b :: IsShuffleOf(a, oz) && IsShuffleOf(b, va) && assignments == Assignments(fmt, a, b, count)
    ensures seed != NoSeed ==>
      assignments == Assignments(fmt, SeededShuffle(oz, StartState(seed)), SeededShuffle(va, StartState(SecondTeamSeed(seed))), count)
    ensures notices == Notices(fmt, |oz|, |va|, count, title)
  {
    var isTeam := fmt in TeamFormats;
    if isTeam && DesiredGroupSize(fmt) == 4 {
      assignments, notices := TeamRound(oz, va, count, seed, title);
      ghost var a, b :| IsShuffleOf(a, oz) && IsShuffleOf(b, va) && assignments == TeamGrid(a, b, count);
      assert assignments == Assignments(fmt, a, b, count);
    } else {
      assignments, notices := SinglesRound(oz, va, count, seed, title);
      ghost var a, b :| IsShuffleOf(a, oz) && IsShuffleOf(b, va) && assignments == SinglesGrid(a, b, count);
      assert assignments == Assignments(fmt, a, b, count);
    }
  }

  class PairingState {
    var players: seq<Player>
    var format: map<Round, string>
    var groups: map<Round, Grid>
    /** `state.numGroups`, a number; the row count is derived from it by `GroupCount`. */
    var numGroups: int

    constructor (players: seq<Player>, format: map<Round, string>, groups: map<Round, Grid>, numGroups: int)
      ensures this.players == players && this.format == format && this.groups == groups
      ensures this.numGroups == numGroups
    {
      this.players := players;
      this.format := format;
      this.groups := groups;
      this.numGroups := numGroups;
    }

    /** `ensureShape`: add each missing grid as `[]` and each missing format as "Best Ball". */
    method EnsureShape()
      modifies this
      ensures format == NormalFormats(old(format)) && groups == NormalGroups(old(groups))
      ensures players == old(players) && numGroups == old(numGroups)
    {
      var grids, formats := groups, format;
      for i := 0 to |RoundOrder|
        invariant grids == FillGroupsOver(groups, RoundOrder[..i])
        invariant formats == FillFormatsOver(format, RoundOrder[..i])
      {
        var r := RoundOrder[i];
        assert RoundOrder[..i + 1][..i] == RoundOrder[..i];
        if r !in grids {
          grids := grids[r := []];
        }
        if r !in formats || formats[r] == "" {
          formats := formats[r := DefaultFormat];
        }
      }
      assert RoundOrder[..|RoundOrder|] == RoundOrder;
      FillAllIsNormal(format, groups);
      groups, format := grids, formats;
    }

    /**
     * `ensureSide`: after `ensureShape`, the round's grid gets `GroupCount`
     * rows of `DesiredGroupSize(fmt)` slots, kept where the row count was
     * already right.
     */
    method EnsureSide(r: Round, fmt: string)
      modifies this
      ensures format == NormalFormats(old(format))
      ensures groups == NormalGroups(old(groups))[r := Resized(GroupsOf(old(groups), r), GroupCount(numGroups), DesiredGroupSize(fmt))]
      ensures players == old(players) && numGroups == old(numGroups)
    {
      EnsureShape();
      NormalAt(old(format), old(groups), r);
      var gs := DesiredGroupSize(fmt);
      var count := GroupCount(numGroups);
      var arr := groups[r];
      if |arr| != count {
        arr := NullGrid(count, gs);
      } else {
        arr := FitRows(arr, gs);
      }
      assert arr == Resized(GroupsOf(old(groups), r), count, gs);
      groups := groups[r := arr];
    }

    /**
     * `applyAssignments`: every row of the round is fitted to the
     * assignments' width and its slots set from them, keeping occupied
     * slots in "unassigned" mode.
     */
    method ApplyAssignments(r: Round, assignments: Grid, fillMode: string)
      requires r in groups
      requires Width(assignments) == 0 || |groups[r]| <= |assignments|
      modifies this
      ensures groups == old(groups)[r := Applied(old(groups)[r], assignments, fillMode == Unassigned)]
      ensures players == old(players) && format == old(format) && numGroups == old(numGroups)
    {
      var fillUnassigned := fillMode == Unassigned;
      var grid := ApplyRows(groups[r], assignments, fillUnassigned);
      groups := groups[r := grid];
    }

    /**
     * `autoPairRound`: the round ends paired from the players it did not
     * already hold, every other round only normalised, and the returned
     * notices are the alerts the source shows.
     */
    method AutoPairRound(r: Round, fillOption: string, checked: bool, seed: Seed) returns (notices: seq<Notice>)
      modifies this
      ensures players == old(players) && numGroups == old(numGroups) && format == NormalFormats(old(format))
      ensures r in groups && groups == NormalGroups(old(groups))[r := groups[r]]
      ensures Paired(players, FormatOf(old(format), r), GroupsOf(old(groups), r), GroupCount(numGroups),
                     ResolveFillMode(fillOption, checked), seed, groups[r])
      ensures notices == RoundNotices(players, FormatOf(old(format), r), GroupsOf(old(groups), r), GroupCount(numGroups),
                                      ResolveFillMode(fillOption, checked), LabelRound(r))
    {
      ghost var format0, groups0 := format, groups;
      FormatsSettle(format0);
      GroupsSettle(groups0);
      NormalAt(format0, groups0, r);
      EnsureShape();
      var fmt := FormatOf(format, r);
      assert fmt == FormatOf(format0, r);
      EnsureSide(r, fmt);
      var gs := DesiredGroupSize(fmt);
      var groupsCount := GroupCount(numGroups);
      var fillMode := ResolveFillMode(fillOption, checked);
      if fillMode == Overwrite {
        groups := groups[r := NullGrid(groupsCount, gs)];
      }
      var pre := groups[r];
      assert pre == Prepared(GroupsOf(groups0, r), fmt, groupsCount, fillMode);
      assert groups == NormalGroups(groups0)[r := pre];
      var oz, va := AvailableByTeam(players, pre);
      var assignments;
      assignments, notices := BuildRound(fmt, oz, va, groupsCount, seed, LabelRound(r));
      ghost var mid := groups;
      ApplyAssignments(r, assignments, fillMode);
      UpdateTwice(NormalGroups(groups0), r, pre, groups[r]);
      PairedByConstruction(players, fmt, GroupsOf(groups0, r), groupsCount, fillMode, seed, assignments, groups[r]);
    }

    /** `autoPairDay`: the front nine, then the back nine, with the same options. */
    method AutoPairDay(d: Day, fillOption: string, checked: bool, seed: Seed) returns (notices: seq<Notice>)
      modifies this
      ensures players == old(players) && numGroups == old(numGroups) && format == NormalFormats(old(format))
      ensures Round(d, Front) in groups && Round(d, Back) in groups
      ensures groups == NormalGroups(old(groups))[Round(d, Front) := groups[Round(d, Front)]][Round(d, Back) := groups[Round(d, Back)]]
      ensures DayPaired(players, old(format), old(groups), d, GroupCount(numGroups), ResolveFillMode(fillOption, checked), seed, groups)
      ensures notices == DayNotices(players, old(format), old(groups), d, GroupCount(numGroups), ResolveFillMode(fillOption, checked))
    {
      ghost var format0, groups0 := format, groups;
      var front := AutoPairRound(Round(d, Front), fillOption, checked, seed);
      ghost var paired := groups[Round(d, Front)];
      NormalisationKeepsAndSettles(format0, groups0, Round(d, Front), paired);
      NormalAt(format0, groups0, Round(d, Back));
      var back := AutoPairRound(Round(d, Back), fillOption, checked, seed);
      notices := front + back;
    }

    /** `autoPairAll`: day 1, then day 2, with the same options. */
    method AutoPairAll(fillOption: string, checked: bool, seed: Seed) returns (notices: seq<Notice>)
      modifies this
      ensures players == old(players) && numGroups == old(numGroups) && format == NormalFormats(old(format))
      ensures forall q: Round :: q in groups
      ensures DayPaired(players, old(format), old(groups), Day1, GroupCount(numGroups), ResolveFillMode(fillOption, checked), seed, groups)
      ensures DayPaired(players, old(format), old(groups), Day2, GroupCount(numGroups), ResolveFillMode(fillOption, checked), seed, groups)
      ensures notices == DayNotices(players, old(format), old(groups), Day1, GroupCount(numGroups), ResolveFillMode(fillOption, checked))
                       + DayNotices(players, old(format), old(groups), Day2, GroupCount(numGroups), ResolveFillMode(fillOption, checked))
    {
      ghost var format0, groups0 := format, groups;
      var first := AutoPairDay(Day1, fillOption, checked, seed);
      ghost var format1, groups1 := format, groups;
      var second := AutoPairDay(Day2, fillOption, checked, seed);
      notices := first + second;
      forall q: Round
        ensures q in groups
      {
        NormalAt(format1, groups1, q);
      }
      var count, mode := GroupCount(numGroups), ResolveFillMode(fillOption, checked);
      var f1, b1 := Round(Day1, Front), Round(Day1, Back);
      var f2, b2 := Round(Day2, Front), Round(Day2, Back);
      NormalAt(format0, groups0, f2);
      NormalAt(format0, groups0, b2);
      NormalUpdatedAt(groups0, f1, groups1[f1], b1, groups1[b1], f2);
      NormalUpdatedAt(groups0, f1, groups1[f1], b1, groups1[b1], b2);
      assert GroupsOf(groups1, f2) == GroupsOf(groups0, f2);
      assert GroupsOf(groups1, b2) == GroupsOf(groups0, b2);
      NormalUpdatedAt(groups1, f2, groups[f2], b2, groups[b2], f1);
      NormalUpdatedAt(groups1, f2, groups[f2], b2, groups[b2], b1);
      assert groups[f1] == groups1[f1] && groups[b1] == groups1[b1];
      DayPairedLocal(players, format0, groups0, format0, groups0, Day1, count, mode, seed, groups1, groups);
      DayPairedLocal(players, format1, groups1, format0, groups0, Day2, count, mode, seed, groups, groups);
      FormatsSettle(format0);
    }

    /** `resetAllGroups`: every round becomes an empty grid as wide as its format asks. */
    method ResetAllGroups()
      modifies this
      ensures players == old(players) && numGroups == old(numGroups) && format == NormalFormats(old(format))
      ensures groups == ResetGroups(old(format), GroupCount(numGroups))
    {
      EnsureShape();
      var count := GroupCount(numGroups);
      var formats := format;
      var grids := groups;
      ghost var start := groups;
      for i := 0 to |RoundOrder|
        invariant grids == ResetOver(start, formats, count, RoundOrder[..i])
      {
        var r := RoundOrder[i];
        assert RoundOrder[..i + 1][..i] == RoundOrder[..i];
        var fmt := FormatOf(formats, r);
        var gs := DesiredGroupSize(fmt);
        grids := grids[r := NullGrid(count, gs)];
      }
      assert grids == ResetGroups(old(format), count) by {
        assert RoundOrder[..|RoundOrder|] == RoundOrder;
        ResetAllIsReset(start, formats, count);
        ResetAfterNormal(old(format), count);
      }
      groups := grids;
    }
  }
}
