/**
 * The pairing grid of autopair.js: for one (day, side) round, `numGroups`
 * rows of slots, each slot a player id or empty. This module holds the
 * values the grid operations are specified by: the slot width a format
 * asks for, the shape `ensureSide` normalises to, the players still
 * available, and the grid `applyAssignments` leaves behind.
 */
module Grid {
  import opened Wrappers
  import opened Text
  import opened Players

  type PlayerId = string

  /** A slot: a player id, or null. */
  type Cell = Option<PlayerId>
  type Row = seq<Cell>
  type Grid = seq<Row>

  /** The format a round falls back to when none is set. */
  const DefaultFormat: string := "Best Ball"

  /** `TEAM_FORMATS`: the partner formats, matched by exact name. */
  const TeamFormats: set<string> := {"Best Ball", "Scramble", "Alt Shot", "Shamble"}

  /**
   * `desiredGroupSize(fmt)`: four slots for a team format or any format
   * whose lower-cased name mentions "single", two otherwise.
   */
  function DesiredGroupSize(fmt: string): (width: nat)
    ensures width == 2 || width == 4
  {
    if fmt in TeamFormats then 4
    else if Contains(ToLower(fmt), "single") then 4
    else 2
  }

  /** A string that lacks a character of `t` does not contain `t`. */
  lemma MissingCharNotContained(s: string, t: string, c: char)
    requires c in t && c !in s
    ensures !Contains(s, t)
  {
    var i :| 0 <= i < |t| && t[i] == c;
    forall k: nat
      ensures !InfixAt(s, t, k)
    {
      if k + |t| <= |s| {
        assert s[k..k + |t|][i] == s[k + i] != c;
      }
    }
  }

  /** Team formats are recognised by their exact spelling only. */
  lemma TeamFormatCaseSensitive()
    ensures DesiredGroupSize("Scramble") == 4
    ensures DesiredGroupSize("scramble") == 2
  {
    assert ToLower("scramble") == "scramble";
    MissingCharNotContained("scramble", "single", 'g');
  }

  /** Lower-casing a slice is slicing the lower-cased string. */
  lemma LowerSlice(fmt: string, k: nat, n: nat)
    requires k + n <= |fmt|
    ensures ToLower(fmt)[k..k + n] == ToLower(fmt[k..k + n])
  {
    var whole, part := ToLower(fmt)[k..k + n], ToLower(fmt[k..k + n]);
    forall i | 0 <= i < n
      ensures whole[i] == part[i]
    {
    }
  }

  /** `fmt` spells "single" at position `k`, in any casing. */
  predicate SingleAt(fmt: string, k: nat) {
    k + 6 <= |fmt| && ToLower(fmt[k..k + 6]) == "single"
  }

  /** A format that spells "single" at some position, in any casing, gets four slots. */
  lemma SinglesFormatIgnoresCase(fmt: string, k: nat)
    requires SingleAt(fmt, k)
    ensures DesiredGroupSize(fmt) == 4
  {
    LowerSlice(fmt, k, 6);
    assert InfixAt(ToLower(fmt), "single", k);
  }

  /** A format that is no team format and spells "single" nowhere, in any casing, gets two slots. */
  lemma OtherFormatPairs(fmt: string)
    requires fmt !in TeamFormats
    requires forall k: nat :: !SingleAt(fmt, k)
    ensures DesiredGroupSize(fmt) == 2
  {
    forall k: nat
      ensures !InfixAt(ToLower(fmt), "single", k)
    {
      if k + 6 <= |fmt| {
        LowerSlice(fmt, k, 6);
        assert !SingleAt(fmt, k);
      }
    }
  }

  /** `Math.max(1, Number(numGroups) || 1)`: the number of rows. */
  function GroupCount(numGroups: int): (count: nat)
    ensures count >= 1
    ensures numGroups >= 1 ==> count == numGroups
    ensures numGroups < 1 ==> count == 1
  {
    Max(1, if numGroups == 0 then 1 else numGroups)
  }

  predicate Shaped(grid: Grid, count: nat, width: nat) {
    |grid| == count && forall g :: 0 <= g < |grid| ==> |grid[g]| == width
  }

  /** `Array(width).fill(null)`. */
  function NullRow(width: nat): (row: Row)
    ensures |row| == width
    ensures forall k :: 0 <= k < width ==> row[k] == None
  {
    seq(width, _ => None)
  }

  /** `Array.from({length: count}, () => Array(width).fill(null))`. */
  function NullGrid(count: nat, width: nat): (grid: Grid)
    ensures Shaped(grid, count, width)
    ensures forall g, k :: 0 <= g < count && 0 <= k < width ==> grid[g][k] == None
  {
    seq(count, _ => NullRow(width))
  }

  /** A row cut to `width` slots, or padded to it with nulls. */
  function FitRow(row: Row, width: nat): (r: Row)
    ensures |r| == width
    ensures forall k :: 0 <= k < width ==> r[k] == if k < |row| then row[k] else None
  {
    if |row| >= width then row[..width] else row + NullRow(width - |row|)
  }

  /**
   * The grid `ensureSide` stores: a fresh grid of nulls when the row count
   * is wrong, otherwise every row fitted to the width.
   */
  function Resized(grid: Grid, count: nat, width: nat): (r: Grid)
    ensures Shaped(r, count, width)
  {
    if |grid| != count then NullGrid(count, width)
    else seq(|grid|, g requires 0 <= g < |grid| => FitRow(grid[g], width))
  }

  /** A grid with the wrong number of rows loses every placement. */
  lemma ResizedWrongCount(grid: Grid, count: nat, width: nat)
    requires |grid| != count
    ensures forall g, k :: 0 <= g < count && 0 <= k < width ==> Resized(grid, count, width)[g][k] == None
  {
  }

  /** With the right number of rows, every slot within the width keeps its position. */
  lemma ResizedKeepsCells(grid: Grid, count: nat, width: nat)
    requires |grid| == count
    ensures forall g, k :: 0 <= g < count && 0 <= k < width ==>
      Resized(grid, count, width)[g][k] == if k < |grid[g]| then grid[g][k] else None
  {
  }

  /** Resizing twice to the same shape is resizing once. */
  lemma ResizedIdempotent(grid: Grid, count: nat, width: nat)
    ensures Resized(Resized(grid, count, width), count, width) == Resized(grid, count, width)
  {
    var once := Resized(grid, count, width);
    forall g | 0 <= g < count
      ensures FitRow(once[g], width) == once[g]
    {
    }
  }

  /** The ids placed anywhere in the grid: `grid.flat().filter(Boolean)`. */
  function Placed(grid: Grid): set<PlayerId> {
    set g, k | 0 <= g < |grid| && 0 <= k < |grid[g]| && grid[g][k].Some? && grid[g][k].value != "" :: grid[g][k].value
  }

  /** A grid of nulls places nobody. */
  lemma NullGridPlacesNobody(count: nat, width: nat)
    ensures Placed(NullGrid(count, width)) == {}
  {
  }

  /**
   * The ids of the players not in `placed`, in roster order, on one side:
   * team "valley" when `valley` holds, every other team otherwise.
   */
  function Available(players: seq<Player>, placed: set<PlayerId>, valley: bool): (ids: seq<PlayerId>)
    ensures |ids| <= |players|
  {
    if players == [] then []
    else
      var p := players[|players| - 1];
      Available(players[..|players| - 1], placed, valley)
        + (if p.id !in placed && (p.team == Valley) == valley then [p.id] else [])
  }

  /** `availableByTeam`: one pass over the roster, sorting unplaced ids into the two sides. */
  method AvailableByTeam(players: seq<Player>, grid: Grid) returns (oz: seq<PlayerId>, va: seq<PlayerId>)
    ensures oz == Available(players, Placed(grid), false) && va == Available(players, Placed(grid), true)
  {
    var placed := Placed(grid);
    oz, va := [], [];
    for i := 0 to |players|
      invariant oz == Available(players[..i], placed, false) && va == Available(players[..i], placed, true)
    {
      var p := players[i];
      assert players[..i + 1][..i] == players[..i];
      if p.id in placed {
        continue;
      }
      if p.team == Valley {
        va := va + [p.id];
      } else {
        oz := oz + [p.id];
      }
    }
    assert players[..|players|] == players;
  }

  /**
   * An id is available on a side exactly when it is not placed and some
   * player on that side has it.
   */
  lemma {:induction false} AvailableMembers(players: seq<Player>, placed: set<PlayerId>, valley: bool, x: PlayerId)
    ensures x in Available(players, placed, valley) <==>
      x !in placed && exists k :: 0 <= k < |players| && players[k].id == x && (players[k].team == Valley) == valley
  {
    if players != [] {
      var init := players[..|players| - 1];
      AvailableMembers(init, placed, valley, x);
      if exists k :: 0 <= k < |init| && init[k].id == x && (init[k].team == Valley) == valley {
        var k :| 0 <= k < |init| && init[k].id == x && (init[k].team == Valley) == valley;
        assert players[k] == init[k];
      }
    }
  }

  /**
   * When players sharing an id are on the same side, no id is available
   * on both sides at once.
   */
  lemma AvailableDisjoint(players: seq<Player>, grid: Grid)
    requires forall i, j :: 0 <= i < |players| && 0 <= j < |players| && players[i].id == players[j].id ==>
      (players[i].team == Valley) == (players[j].team == Valley)
    ensures forall x :: !(x in Available(players, Placed(grid), false) && x in Available(players, Placed(grid), true))
  {
    forall x
      ensures !(x in Available(players, Placed(grid), false) && x in Available(players, Placed(grid), true))
    {
      AvailableMembers(players, Placed(grid), false, x);
      AvailableMembers(players, Placed(grid), true, x);
    }
  }

  /** With nothing placed, every player is available on exactly one side. */
  lemma {:induction false} NothingPlacedAllAvailable(players: seq<Player>)
    ensures |Available(players, {}, false)| + |Available(players, {}, true)| == |players|
  {
    if players != [] {
      NothingPlacedAllAvailable(players[..|players| - 1]);
    }
  }

  /** `assignments[0]?.length || 0`: the width `applyAssignments` writes. */
  function Width(assignments: Grid): nat {
    if |assignments| == 0 then 0 else |assignments[0]|
  }

  /** `assignments[g][k] ?? null`. */
  function Target(assignments: Grid, g: nat, k: nat): Cell
    requires g < |assignments|
  {
    if k < |assignments[g]| then assignments[g][k] else None
  }

  /**
   * One row after `applyAssignments`: fitted to the width, then each slot
   * set to the assignment's, except that in fill mode an occupied slot
   * is left alone.
   */
  function ApplyRow(row: Row, assignments: Grid, g: nat, fill: bool): Row
    requires Width(assignments) == 0 || g < |assignments|
  {
    var width := Width(assignments);
    var fitted := FitRow(row, width);
    seq(width, k requires 0 <= k < width =>
      if fill && fitted[k].Some? then fitted[k] else Target(assignments, g, k))
  }

  /**
   * The grid `applyAssignments` leaves behind. It reads `assignments[g]`
   * for every row `g` as soon as the width is positive, so the source
   * needs at least as many assignment rows as grid rows then.
   */
  function Applied(grid: Grid, assignments: Grid, fill: bool): (r: Grid)
    requires Width(assignments) == 0 || |grid| <= |assignments|
    ensures Shaped(r, |grid|, Width(assignments))
  {
    seq(|grid|, g requires 0 <= g < |grid| => ApplyRow(grid[g], assignments, g, fill))
  }

  /**
   * In fill mode every occupied slot within the width is kept and every
   * empty one takes the assignment's value.
   */
  lemma AppliedFill(grid: Grid, assignments: Grid)
    requires Width(assignments) == 0 || |grid| <= |assignments|
    ensures forall g, k :: 0 <= g < |grid| && 0 <= k < Width(assignments) ==>
      var r := Applied(grid, assignments, true);
      if k < |grid[g]| && grid[g][k].Some? then r[g][k] == grid[g][k] else r[g][k] == Target(assignments, g, k)
  {
  }

  /** In any other mode every slot equals the assignment's. */
  lemma AppliedOverwrite(grid: Grid, assignments: Grid)
    requires Width(assignments) == 0 || |grid| <= |assignments|
    ensures forall g, k :: 0 <= g < |grid| && 0 <= k < Width(assignments) ==>
      Applied(grid, assignments, false)[g][k] == Target(assignments, g, k)
  {
  }

  /** Applying the same assignments a second time changes nothing. */
  lemma AppliedIdempotent(grid: Grid, assignments: Grid, fill: bool)
    requires Width(assignments) == 0 || |grid| <= |assignments|
    ensures Applied(Applied(grid, assignments, fill), assignments, fill) == Applied(grid, assignments, fill)
  {
    var once := Applied(grid, assignments, fill);
    forall g | 0 <= g < |grid|
      ensures ApplyRow(once[g], assignments, g, fill) == once[g]
    {
    }
  }
}
