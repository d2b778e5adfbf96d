/**
 * The rounds of the event and what auto-pairing one of them means, as
 * functions of the state before the call: the four (day, nine) rounds,
 * the normalisation `ensureShape` applies to the per-round formats and
 * grids, the grid a round is paired on, the grid it ends with and the
 * alerts it raises. The lemmas say what a paired round holds.
 */
module Rounds {
  import opened Wrappers
  import opened Players
  import opened Shuffling
  import opened Grid
  import opened Builders

  datatype Day = Day1 | Day2
  datatype Side = Front | Back
  datatype Round = Round(day: Day, side: Side)

  /** The rounds in the order `ensureShape` and `resetAllGroups` visit them. */
  const RoundOrder: seq<Round> := [Round(Day1, Front), Round(Day1, Back), Round(Day2, Front), Round(Day2, Back)]

  /** The position of a round in `RoundOrder`. */
  function Index(r: Round): (i: nat)
    ensures i < |RoundOrder| && RoundOrder[i] == r
  {
    (if r.day == Day1 then 0 else 2) + (if r.side == Front then 0 else 1)
  }

  lemma EveryRoundListed()
    ensures forall r: Round :: r in RoundOrder
    ensures forall i :: 0 <= i < |RoundOrder| ==> Index(RoundOrder[i]) == i
  {
    forall r: Round
      ensures r in RoundOrder
    {
      assert RoundOrder[Index(r)] == r;
    }
  }

  /** `labelRound`: "Day 1 Front 9" and the like. */
  function LabelRound(r: Round): string {
    (if r.day == Day1 then "Day 1" else "Day 2") + " " + (if r.side == Front then "Front 9" else "Back 9")
  }

  /** Different rounds get different labels. */
  lemma LabelRoundInjective(r: Round, q: Round)
    requires LabelRound(r) == LabelRound(q)
    ensures r == q
  {
    assert LabelRound(r)[4] == LabelRound(q)[4];
    assert LabelRound(r)[6] == LabelRound(q)[6];
  }

  const Unassigned: string := "unassigned"
  const Overwrite: string := "overwrite"

  /**
   * `options.fillMode || (checkbox checked ? 'unassigned' : 'overwrite')`,
   * with an absent or empty option written "" and an absent checkbox as
   * unchecked.
   */
  function ResolveFillMode(option: string, checked: bool): (mode: string)
    ensures option != "" ==> mode == option
    ensures option == "" ==> (mode == Unassigned <==> checked) && (mode == Overwrite <==> !checked)
  {
    if option != "" then option else if checked then Unassigned else Overwrite
  }

  /** The alerts `autoPairRound` raises, with the round title they mention. */
  datatype Notice =
    | OzarkShort(slots: nat, round: string)
    | ValleyShort(slots: nat, round: string)
    | OzarkOnly(available: nat, need: nat, round: string)
    | ValleyOnly(available: nat, need: nat, round: string)

  /**
   * The alerts for a round: a team format reports each side's nonzero
   * shortfall, any other format each side with fewer than two ids per
   * group.
   */
  function Notices(fmt: string, oz: nat, va: nat, count: nat, title: string): seq<Notice> {
    if fmt in TeamFormats then TeamNotices(oz, va, count, title) else SinglesNotices(oz, va, count, title)
  }

  /** A team format reports each side's nonzero shortfall of slots. */
  function TeamNotices(oz: nat, va: nat, count: nat, title: string): seq<Notice> {
    (if TeamShort(oz, count) != 0 then [OzarkShort(TeamShort(oz, count), title)] else [])
    + (if TeamShort(va, count) != 0 then [ValleyShort(TeamShort(va, count), title)] else [])
  }

  /** Any other format reports each side with fewer than two ids per group. */
  function SinglesNotices(oz: nat, va: nat, count: nat, title: string): seq<Notice> {
    (if oz < 2 * count then [OzarkOnly(oz, 2 * count, title)] else [])
    + (if va < 2 * count then [ValleyOnly(va, 2 * count, title)] else [])
  }

  /**
   * Whatever the format, a round raises no alert exactly when each side
   * has at least two available players per group.
   */
  lemma NoNoticesIffEnough(fmt: string, oz: nat, va: nat, count: nat, title: string)
    requires count >= 1
    ensures Notices(fmt, oz, va, count, title) == [] <==> oz >= 2 * count && va >= 2 * count
  {
    if fmt in TeamFormats {
      assert TeamShort(oz, count) == 0 <==> oz / 2 >= count;
      assert TeamShort(va, count) == 0 <==> va / 2 >= count;
    }
  }

  /** `(state.format?.[day]?.[side]) || 'Best Ball'`. */
  function FormatOf(format: map<Round, string>, r: Round): (fmt: string)
    ensures fmt != ""
    ensures r in format && format[r] != "" ==> fmt == format[r]
  {
    if r in format && format[r] != "" then format[r] else DefaultFormat
  }

  /** A round's grid, or `[]` when it has none. */
  function GroupsOf(groups: map<Round, Grid>, r: Round): Grid {
    if r in groups then groups[r] else []
  }

  /** The formats after `ensureShape`: every round present with a non-empty name. */
  function NormalFormats(format: map<Round, string>): map<Round, string> {
    map r | r in RoundOrder :: FormatOf(format, r)
  }

  /** The grids after `ensureShape`: every round present, missing ones empty. */
  function NormalGroups(groups: map<Round, Grid>): map<Round, Grid> {
    map r | r in RoundOrder :: GroupsOf(groups, r)
  }

  /** Every round is present after normalising, with its own format or grid or the default. */
  lemma NormalAt(format: map<Round, string>, groups: map<Round, Grid>, r: Round)
    ensures r in NormalFormats(format) && NormalFormats(format)[r] == FormatOf(format, r)
    ensures r in NormalGroups(groups) && NormalGroups(groups)[r] == GroupsOf(groups, r)
  {
    assert RoundOrder[Index(r)] == r;
  }

  /** Normalising the formats twice is normalising them once. */
  lemma FormatsSettle(format: map<Round, string>)
    ensures NormalFormats(NormalFormats(format)) == NormalFormats(format)
  {
    forall q: Round
      ensures q in NormalFormats(format) && NormalFormats(NormalFormats(format))[q] == NormalFormats(format)[q]
    {
      NormalAt(format, map[], q);
      NormalAt(NormalFormats(format), map[], q);
    }
  }

  /** Normalising the grids twice is normalising them once. */
  lemma GroupsSettle(groups: map<Round, Grid>)
    ensures NormalGroups(NormalGroups(groups)) == NormalGroups(groups)
  {
    forall q: Round
      ensures q in NormalGroups(groups) && NormalGroups(NormalGroups(groups))[q] == NormalGroups(groups)[q]
    {
      NormalAt(map[], groups, q);
      NormalAt(map[], NormalGroups(groups), q);
    }
  }

  /** A round other than the two replaced keeps its normalised grid. */
  lemma NormalUpdatedAt(groups: map<Round, Grid>, r1: Round, x1: Grid, r2: Round, x2: Grid, q: Round)
    requires q != r1 && q != r2
    ensures q in NormalGroups(groups)[r1 := x1][r2 := x2]
    ensures NormalGroups(groups)[r1 := x1][r2 := x2][q] == GroupsOf(groups, q)
  {
    NormalAt(map[], groups, q);
  }

  /** One round of `ensureShape`'s loop over the formats. */
  function FillFormat(format: map<Round, string>, r: Round): map<Round, string> {
    if r in format && format[r] != "" then format else format[r := DefaultFormat]
  }

  /** One round of `ensureShape`'s loop over the grids. */
  function FillGroups(groups: map<Round, Grid>, r: Round): map<Round, Grid> {
    if r in groups then groups else groups[r := []]
  }

  function FillFormatsOver(format: map<Round, string>, rounds: seq<Round>): map<Round, string> {
    if rounds == [] then format else FillFormat(FillFormatsOver(format, rounds[..|rounds| - 1]), rounds[|rounds| - 1])
  }

  function FillGroupsOver(groups: map<Round, Grid>, rounds: seq<Round>): map<Round, Grid> {
    if rounds == [] then groups else FillGroups(FillGroupsOver(groups, rounds[..|rounds| - 1]), rounds[|rounds| - 1])
  }

  /** Visiting some rounds fills exactly those rounds and leaves the others as they were. */
  lemma {:induction false} FillOverMeaning(format: map<Round, string>, groups: map<Round, Grid>, rounds: seq<Round>)
    ensures forall r :: r in FillFormatsOver(format, rounds) <==> r in format || r in rounds
    ensures forall r :: r in FillFormatsOver(format, rounds) ==>
      FillFormatsOver(format, rounds)[r] == if r in rounds then FormatOf(format, r) else format[r]
    ensures forall r :: r in FillGroupsOver(groups, rounds) <==> r in groups || r in rounds
    ensures forall r :: r in FillGroupsOver(groups, rounds) ==> FillGroupsOver(groups, rounds)[r] == GroupsOf(groups, r)
  {
    if rounds != [] {
      var init := rounds[..|rounds| - 1];
      FillOverMeaning(format, groups, init);
      assert forall r :: r in rounds <==> r in init || r == rounds[|rounds| - 1];
    }
  }

  /** The loop's visit of all four rounds gives the normal maps. */
  lemma FillAllIsNormal(format: map<Round, string>, groups: map<Round, Grid>)
    ensures FillFormatsOver(format, RoundOrder) == NormalFormats(format)
    ensures FillGroupsOver(groups, RoundOrder) == NormalGroups(groups)
  {
    FillOverMeaning(format, groups, RoundOrder);
    EveryRoundListed();
  }

  /**
   * Normalising keeps every grid and every non-empty format already set,
   * leaves every round with a grid and a non-empty format, and settles:
   * normalising again, even after replacing one round's grid, changes
   * nothing more.
   */
  lemma NormalisationKeepsAndSettles(format: map<Round, string>, groups: map<Round, Grid>, r: Round, grid: Grid)
    ensures forall q: Round :: q in NormalGroups(groups) && q in NormalFormats(format) && NormalFormats(format)[q] != ""
    ensures forall q :: q in format && format[q] != "" ==> NormalFormats(format)[q] == format[q]
    ensures forall q :: q in groups ==> NormalGroups(groups)[q] == groups[q]
    ensures NormalFormats(NormalFormats(format)) == NormalFormats(format)
    ensures NormalGroups(NormalGroups(groups)) == NormalGroups(groups)
    ensures NormalGroups(NormalGroups(groups)[r := grid]) == NormalGroups(groups)[r := grid]
  {
    forall q: Round
      ensures q in NormalGroups(groups) && q in NormalFormats(format) && NormalFormats(format)[q] != ""
      ensures NormalFormats(NormalFormats(format))[q] == NormalFormats(format)[q]
      ensures q in NormalGroups(NormalGroups(groups)) && NormalGroups(NormalGroups(groups))[q] == NormalGroups(groups)[q]
      ensures q in NormalGroups(NormalGroups(groups)[r := grid])
      ensures NormalGroups(NormalGroups(groups)[r := grid])[q] == NormalGroups(groups)[r := grid][q]
    {
      NormalAt(format, groups, q);
      NormalAt(NormalFormats(format), NormalGroups(groups)[r := grid], q);
      NormalAt(NormalFormats(format), NormalGroups(groups), q);
    }
  }

  /** The grids `resetAllGroups` leaves: every round empty, as wide as its format asks. */
  function ResetGroups(format: map<Round, string>, count: nat): map<Round, Grid> {
    map r | r in RoundOrder :: NullGrid(count, DesiredGroupSize(FormatOf(format, r)))
  }

  /** `resetAllGroups`'s loop after visiting `rounds`. */
  function ResetOver(groups: map<Round, Grid>, format: map<Round, string>, count: nat, rounds: seq<Round>): map<Round, Grid> {
    if rounds == [] then groups
    else
      var r := rounds[|rounds| - 1];
      ResetOver(groups, format, count, rounds[..|rounds| - 1])[r := NullGrid(count, DesiredGroupSize(FormatOf(format, r)))]
  }

  lemma {:induction false} ResetOverMeaning(groups: map<Round, Grid>, format: map<Round, string>, count: nat, rounds: seq<Round>)
    ensures forall r :: r in ResetOver(groups, format, count, rounds) <==> r in groups || r in rounds
    ensures forall r :: r in rounds ==> ResetOver(groups, format, count, rounds)[r] == NullGrid(count, DesiredGroupSize(FormatOf(format, r)))
  {
    if rounds != [] {
      ResetOverMeaning(groups, format, count, rounds[..|rounds| - 1]);
      assert forall r :: r in rounds <==> r in rounds[..|rounds| - 1] || r == rounds[|rounds| - 1];
    }
  }

  /** Visiting all four rounds resets every grid, whatever was there. */
  lemma ResetAllIsReset(groups: map<Round, Grid>, format: map<Round, string>, count: nat)
    ensures ResetOver(groups, format, count, RoundOrder) == ResetGroups(format, count)
  {
    ResetOverMeaning(groups, format, count, RoundOrder);
    EveryRoundListed();
  }

  /** Normalising the formats first does not change what a reset leaves. */
  lemma ResetAfterNormal(format: map<Round, string>, count: nat)
    ensures ResetGroups(NormalFormats(format), count) == ResetGroups(format, count)
  {
    forall q | q in RoundOrder
      ensures FormatOf(NormalFormats(format), q) == FormatOf(format, q)
    {
      NormalAt(format, map[], q);
    }
  }

  /** After a reset nobody is placed in any round, so the whole roster is available again. */
  lemma ResetFreesEveryone(players: seq<Player>, format: map<Round, string>, count: nat, r: Round)
    ensures r in ResetGroups(format, count) && Placed(ResetGroups(format, count)[r]) == {}
    ensures |Available(players, Placed(ResetGroups(format, count)[r]), false)|
      + |Available(players, Placed(ResetGroups(format, count)[r]), true)| == |players|
  {
    assert RoundOrder[Index(r)] == r;
    NullGridPlacesNobody(count, DesiredGroupSize(FormatOf(format, r)));
    NothingPlacedAllAvailable(players);
  }

  /** The grid a round is paired on: sized by `ensureSide`, then cleared in overwrite mode. */
  function Prepared(grid: Grid, fmt: string, count: nat, mode: string): (pre: Grid)
    ensures Shaped(pre, count, DesiredGroupSize(fmt))
  {
    if mode == Overwrite then NullGrid(count, DesiredGroupSize(fmt))
    else Resized(grid, count, DesiredGroupSize(fmt))
  }

  /** The builder a format selects, applied to already shuffled lists. */
  function Assignments(fmt: string, a: seq<PlayerId>, b: seq<PlayerId>, count: nat): (grid: Grid)
    ensures Shaped(grid, count, 4)
  {
    if fmt in TeamFormats then TeamGrid(a, b, count) else SinglesGrid(a, b, count)
  }

  /** The grid a round ends with for one choice of shuffled lists. */
  function Outcome(pre: Grid, fmt: string, a: seq<PlayerId>, b: seq<PlayerId>, count: nat, mode: string): Grid
    requires |pre| == count
  {
    Applied(pre, Assignments(fmt, a, b, count), mode == Unassigned)
  }

  /**
   * What `autoPairRound` leaves in a round, given the round's format and
   * grid beforehand: the outcome for some reordering of each side's
   * available ids, and for the seeded reordering when a seed is given.
   */
  ghost predicate Paired(players: seq<Player>, fmt: string, grid: Grid, count: nat, mode: string, seed: Seed, result: Grid) {
    var pre := Prepared(grid, fmt, count, mode);
    var oz := Available(players, Placed(pre), false);
    var va := Available(players, Placed(pre), true);
    (exists a, b :: IsShuffleOf(a, oz) && IsShuffleOf(b, va) && result == Outcome(pre, fmt, a, b, count, mode))
    && (seed != NoSeed ==>
          result == Outcome(pre, fmt, SeededShuffle(oz, StartState(seed)), SeededShuffle(va, StartState(SecondTeamSeed(seed))), count, mode))
  }

  /**
   * A round is paired when its grid is the prepared grid with assignments
   * applied that were built from shuffles of each side's available ids,
   * and from the seeded shuffles when a seed is given.
   */
  lemma PairedByConstruction(players: seq<Player>, fmt: string, grid: Grid, count: nat, mode: string, seed: Seed,
                             asg: Grid, result: Grid)
    requires var pre := Prepared(grid, fmt, count, mode);
      var oz := Available(players, Placed(pre), false);
      var va := Available(players, Placed(pre), true);
      (exists a, b :: IsShuffleOf(a, oz) && IsShuffleOf(b, va) && asg == Assignments(fmt, a, b, count))
      && (seed != NoSeed ==>
            asg == Assignments(fmt, SeededShuffle(oz, StartState(seed)), SeededShuffle(va, StartState(SecondTeamSeed(seed))), count))
      && result == Applied(pre, asg, mode == Unassigned)
    ensures Paired(players, fmt, grid, count, mode, seed, result)
  {
    var pre := Prepared(grid, fmt, count, mode);
    var oz := Available(players, Placed(pre), false);
    var va := Available(players, Placed(pre), true);
    var a, b :| IsShuffleOf(a, oz) && IsShuffleOf(b, va) && asg == Assignments(fmt, a, b, count);
    assert result == Outcome(pre, fmt, a, b, count, mode);
  }

  /** The alerts `autoPairRound` raises for a round, given its format and grid beforehand. */
  function RoundNotices(players: seq<Player>, fmt: string, grid: Grid, count: nat, mode: string, title: string): seq<Notice> {
    var pre := Prepared(grid, fmt, count, mode);
    Notices(fmt, |Available(players, Placed(pre), false)|, |Available(players, Placed(pre), true)|, count, title)
  }

  /** The alerts of `autoPairDay`: the front nine's, then the back nine's. */
  function DayNotices(players: seq<Player>, format: map<Round, string>, groups: map<Round, Grid>, d: Day,
                      count: nat, mode: string): seq<Notice> {
    RoundNotices(players, FormatOf(format, Round(d, Front)), GroupsOf(groups, Round(d, Front)), count, mode, LabelRound(Round(d, Front)))
    + RoundNotices(players, FormatOf(format, Round(d, Back)), GroupsOf(groups, Round(d, Back)), count, mode, LabelRound(Round(d, Back)))
  }

  /** Both rounds of day `d` in `after` are paired from their state in `format` and `groups`. */
  ghost predicate DayPaired(players: seq<Player>, format: map<Round, string>, groups: map<Round, Grid>, d: Day,
                            count: nat, mode: string, seed: Seed, after: map<Round, Grid>) {
    && Round(d, Front) in after && Round(d, Back) in after
    && Paired(players, FormatOf(format, Round(d, Front)), GroupsOf(groups, Round(d, Front)), count, mode, seed, after[Round(d, Front)])
    && Paired(players, FormatOf(format, Round(d, Back)), GroupsOf(groups, Round(d, Back)), count, mode, seed, after[Round(d, Back)])
  }

  /** Pairing a day is a statement about that day's two rounds only. */
  lemma DayPairedLocal(players: seq<Player>, format: map<Round, string>, groups: map<Round, Grid>,
                       format': map<Round, string>, groups': map<Round, Grid>, d: Day,
                       count: nat, mode: string, seed: Seed, after: map<Round, Grid>, after': map<Round, Grid>)
    requires DayPaired(players, format, groups, d, count, mode, seed, after)
    requires FormatOf(format', Round(d, Front)) == FormatOf(format, Round(d, Front))
    requires FormatOf(format', Round(d, Back)) == FormatOf(format, Round(d, Back))
    requires GroupsOf(groups', Round(d, Front)) == GroupsOf(groups, Round(d, Front))
    requires GroupsOf(groups', Round(d, Back)) == GroupsOf(groups, Round(d, Back))
    requires Round(d, Front) in after' && after'[Round(d, Front)] == after[Round(d, Front)]
    requires Round(d, Back) in after' && after'[Round(d, Back)] == after[Round(d, Back)]
    ensures DayPaired(players, format', groups', d, count, mode, seed, after')
  {
  }

  /**
   * The column a slot belongs to: Ozark for the first two slots of a
   * team row and the even slots of a singles row.
   */
  function OzarkSlot(fmt: string, k: nat): bool {
    if fmt in TeamFormats then k < 2 else k % 2 == 0
  }

  /**
   * Where the player in slot `k` of row `g` may come from: the same slot
   * of the prepared grid (fill mode only), or the available ids of the
   * side that slot belongs to, who are not placed yet.
   */
  predicate SlotFrom(players: seq<Player>, fmt: string, pre: Grid, mode: string, g: nat, k: nat, x: PlayerId)
    requires g < |pre|
  {
    (mode == Unassigned && k < |pre[g]| && pre[g][k] == Some(x))
    || (x !in Placed(pre) && x in Available(players, Placed(pre), !OzarkSlot(fmt, k)))
  }

  /** Where one filled slot of an outcome comes from. */
  lemma OutcomeSlot(players: seq<Player>, fmt: string, pre: Grid, count: nat, mode: string,
                    a: seq<PlayerId>, b: seq<PlayerId>, g: nat, k: nat)
    requires |pre| == count && g < count && k < 4
    requires IsShuffleOf(a, Available(players, Placed(pre), false))
    requires IsShuffleOf(b, Available(players, Placed(pre), true))
    requires Outcome(pre, fmt, a, b, count, mode)[g][k].Some?
    ensures SlotFrom(players, fmt, pre, mode, g, k, Outcome(pre, fmt, a, b, count, mode)[g][k].value)
  {
    var asg := Assignments(fmt, a, b, count);
    var x := Outcome(pre, fmt, a, b, count, mode)[g][k];
    var fitted := FitRow(pre[g], 4);
    assert x == ApplyRow(pre[g], asg, g, mode == Unassigned)[k];
    if !(mode == Unassigned && fitted[k].Some?) {
      assert x == asg[g][k];
      var side := if OzarkSlot(fmt, k) then a else b;
      assert x.value in side by {
        if fmt in TeamFormats {
          TeamGridSides(a, b, count);
        } else {
          SinglesGridSides(a, b, count);
        }
      }
      assert x.value in multiset(side);
      AvailableMembers(players, Placed(pre), !OzarkSlot(fmt, k), x.value);
    }
  }

  /** Every filled slot of an outcome, by `OutcomeSlot`. */
  lemma OutcomeSlots(players: seq<Player>, fmt: string, pre: Grid, count: nat, mode: string, a: seq<PlayerId>, b: seq<PlayerId>)
    requires |pre| == count
    requires IsShuffleOf(a, Available(players, Placed(pre), false))
    requires IsShuffleOf(b, Available(players, Placed(pre), true))
    ensures forall g, k :: 0 <= g < count && 0 <= k < 4 && Outcome(pre, fmt, a, b, count, mode)[g][k].Some? ==>
      SlotFrom(players, fmt, pre, mode, g, k, Outcome(pre, fmt, a, b, count, mode)[g][k].value)
  {
    forall g, k | 0 <= g < count && 0 <= k < 4 && Outcome(pre, fmt, a, b, count, mode)[g][k].Some?
      ensures SlotFrom(players, fmt, pre, mode, g, k, Outcome(pre, fmt, a, b, count, mode)[g][k].value)
    {
      OutcomeSlot(players, fmt, pre, count, mode, a, b, g, k);
    }
  }

  /**
   * A paired round has `count` rows of four slots, and each filled slot
   * either keeps the player it held (fill mode only) or holds a player
   * of its column's side who was not yet placed in the round.
   */
  lemma PairedSlots(players: seq<Player>, fmt: string, grid: Grid, count: nat, mode: string, seed: Seed, result: Grid)
    requires count >= 1
    requires Paired(players, fmt, grid, count, mode, seed, result)
    ensures Shaped(result, count, 4)
    ensures forall g, k :: 0 <= g < count && 0 <= k < 4 && result[g][k].Some? ==>
      SlotFrom(players, fmt, Prepared(grid, fmt, count, mode), mode, g, k, result[g][k].value)
  {
    var pre := Prepared(grid, fmt, count, mode);
    var oz := Available(players, Placed(pre), false);
    var va := Available(players, Placed(pre), true);
    var a, b :| IsShuffleOf(a, oz) && IsShuffleOf(b, va) && result == Outcome(pre, fmt, a, b, count, mode);
    assert Width(Assignments(fmt, a, b, count)) == 4;
    OutcomeSlots(players, fmt, pre, count, mode, a, b);
  }

  /** In fill mode every player already in the sized grid keeps their slot. */
  lemma PairedKeepsPlacements(players: seq<Player>, fmt: string, grid: Grid, count: nat, seed: Seed, result: Grid)
    requires count >= 1
    requires Paired(players, fmt, grid, count, Unassigned, seed, result)
    ensures var pre := Prepared(grid, fmt, count, Unassigned);
      forall g, k :: 0 <= g < count && 0 <= k < |pre[g]| && pre[g][k].Some? ==> result[g][k] == pre[g][k]
  {
    var pre := Prepared(grid, fmt, count, Unassigned);
    var oz := Available(players, Placed(pre), false);
    var va := Available(players, Placed(pre), true);
    var a, b :| IsShuffleOf(a, oz) && IsShuffleOf(b, va) && result == Outcome(pre, fmt, a, b, count, Unassigned);
    assert Width(Assignments(fmt, a, b, count)) == 4;
    AppliedFill(pre, Assignments(fmt, a, b, count));
  }

  /** In overwrite mode the round starts empty, so the whole roster is available. */
  lemma OverwriteFreesEveryone(players: seq<Player>, fmt: string, grid: Grid, count: nat)
    ensures var pre := Prepared(grid, fmt, count, Overwrite);
      |Available(players, Placed(pre), false)| + |Available(players, Placed(pre), true)| == |players|
  {
    NullGridPlacesNobody(count, DesiredGroupSize(fmt));
    NothingPlacedAllAvailable(players);
  }

}
