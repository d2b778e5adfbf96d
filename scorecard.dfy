/**
 * The scorecard page of app/app.js: the running total under the hole
 * inputs, saving a round to the device, and reading the saved rounds back
 * from local storage.
 */
module Scorecard {
  import opened Wrappers
  import opened Text

  // ---------------------------------------------------------------------
  // `parseInt(s, 10)`

  predicate IsDigit(c: char) {
    '0' <= c <= '9'
  }

  /** The longest prefix of `s` made of decimal digits. */
  function LeadingDigits(s: string): string {
    if s == [] || !IsDigit(s[0]) then [] else [s[0]] + LeadingDigits(s[1..])
  }

  /** The digit prefix is a prefix of `s`, all digits, and stops at the first non-digit. */
  lemma {:induction false} LeadingDigitsShape(s: string)
    ensures var d := LeadingDigits(s);
      && |d| <= |s| && d == s[..|d|]
      && (forall k :: 0 <= k < |d| ==> IsDigit(d[k]))
      && (|d| < |s| ==> !IsDigit(s[|d|]))
  {
    if s != [] && IsDigit(s[0]) {
      LeadingDigitsShape(s[1..]);
    }
  }

  function DigitValue(c: char): nat {
    if IsDigit(c) then c as int - '0' as int else 0
  }

  /** The value of a string of decimal digits, most significant first. */
  function DigitsValue(d: string): nat {
    if d == [] then 0 else 10 * DigitsValue(d[..|d| - 1]) + DigitValue(d[|d| - 1])
  }

  /**
   * `parseInt(s, 10)`: leading white space is skipped, then an optional
   * sign, then as many decimal digits as there are; `None` (NaN) when
   * there is no digit.
   */
  function ParseInt(s: string): Option<int> {
    var t := TrimStart(s);
    var negative := t != [] && t[0] == '-';
    var body := if t != [] && (t[0] == '-' || t[0] == '+') then t[1..] else t;
    var d := LeadingDigits(body);
    if d == [] then None
    else
      var magnitude: int := DigitsValue(d);
      Some(if negative then -magnitude else magnitude)
  }

  function DigitChar(n: nat): char
    requires n < 10
  {
    ('0' as int + n) as char
  }

  /** The decimal representation of `n`, as a number input shows it. */
  function Decimal(n: nat): (d: string)
    ensures d != [] && forall k :: 0 <= k < |d| ==> IsDigit(d[k])
  {
    if n < 10 then [DigitChar(n)] else Decimal(n / 10) + [DigitChar(n % 10)]
  }

  lemma {:induction false} DecimalValue(n: nat)
    ensures DigitsValue(Decimal(n)) == n
  {
    if n >= 10 {
      var d := Decimal(n);
      assert d[..|d| - 1] == Decimal(n / 10);
      DecimalValue(n / 10);
    }
  }

  lemma {:induction false} AllDigitsLead(d: string)
    requires forall k :: 0 <= k < |d| ==> IsDigit(d[k])
    ensures LeadingDigits(d) == d
  {
    if d != [] {
      AllDigitsLead(d[1..]);
    }
  }

  /** Every whole number, written out in decimal with a sign when negative, parses back to itself. */
  lemma ParseDecimal(n: int)
    ensures ParseInt(if n < 0 then "-" + Decimal(-n) else Decimal(n)) == Some(n)
  {
    var s := if n < 0 then "-" + Decimal(-n) else Decimal(n);
    var m: nat := if n < 0 then -n else n;
    assert !IsSpace(s[0]);
    assert TrimStart(s) == s;
    var body := if n < 0 then s[1..] else s;
    assert body == Decimal(m);
    AllDigitsLead(Decimal(m));
    DecimalValue(m);
  }

  /** An empty input is not a number. */
  lemma EmptyIsNaN()
    ensures ParseInt("") == None
  {
  }

  // ---------------------------------------------------------------------
  // The hole inputs

  /** One `.score-input`: its `data-hole` attribute and its current value. */
  datatype ScoreInput = ScoreInput(hole: string, value: string)

  /** `{ hole, score }` as pushed for every filled input; `hole` is `None` when it is NaN. */
  datatype HoleScore = HoleScore(hole: Option<int>, score: int)

  /** The inputs whose value parses, in page order, with their hole numbers. */
  function Filled(inputs: seq<ScoreInput>): (scores: seq<HoleScore>)
    ensures |scores| <= |inputs|
  {
    if inputs == [] then []
    else
      var rest := Filled(inputs[..|inputs| - 1]);
      var last := inputs[|inputs| - 1];
      match ParseInt(last.value)
      case None => rest
      case Some(v) => rest + [HoleScore(ParseInt(last.hole), v)]
  }

  /** `scores.reduce((sum, s) => sum + s.score, 0)`. */
  function SumScores(scores: seq<HoleScore>): int {
    if scores == [] then 0 else SumScores(scores[..|scores| - 1]) + scores[|scores| - 1].score
  }

  /** One more input: its score is added when its value parses. */
  lemma FilledStep(inputs: seq<ScoreInput>, i: nat)
    requires i < |inputs|
    ensures var v := ParseInt(inputs[i].value);
      && Filled(inputs[..i + 1]) == (if v.Some? then Filled(inputs[..i]) + [HoleScore(ParseInt(inputs[i].hole), v.value)] else Filled(inputs[..i]))
      && SumScores(Filled(inputs[..i + 1])) == SumScores(Filled(inputs[..i])) + (if v.Some? then v.value else 0)
  {
    assert inputs[..i + 1][..i] == inputs[..i];
  }

  /** What `#scoreTotal` shows: the total of the filled holes, or a dash when none is filled. */
  datatype Display = Total(n: int) | Dash

  /** The total the page shows for the given inputs. */
  function Shown(inputs: seq<ScoreInput>): Display {
    var scores := Filled(inputs);
    if scores == [] then Dash else Total(SumScores(scores))
  }

  /** No input's value parses. */
  predicate NothingParses(inputs: seq<ScoreInput>) {
    forall k :: 0 <= k < |inputs| ==> ParseInt(inputs[k].value).None?
  }

  lemma NothingParsesStep(inputs: seq<ScoreInput>)
    requires inputs != []
    ensures NothingParses(inputs) <==>
      NothingParses(inputs[..|inputs| - 1]) && ParseInt(inputs[|inputs| - 1].value).None?
  {
    var n := |inputs| - 1;
    var init := inputs[..n];
    if NothingParses(inputs) {
      forall k | 0 <= k < n
        ensures ParseInt(init[k].value).None?
      {
        assert init[k] == inputs[k];
      }
    }
    if NothingParses(init) && ParseInt(inputs[n].value).None? {
      forall k | 0 <= k < |inputs|
        ensures ParseInt(inputs[k].value).None?
      {
        if k < n {
          assert inputs[k] == init[k];
        }
      }
    }
  }

  /** The dash shows exactly when no input's value parses. */
  lemma {:induction false} DashIffNothingParses(inputs: seq<ScoreInput>)
    ensures Shown(inputs) == Dash <==> NothingParses(inputs)
  {
    if inputs != [] {
      var n := |inputs| - 1;
      assert inputs[..n + 1] == inputs;
      FilledStep(inputs, n);
      NothingParsesStep(inputs);
      DashIffNothingParses(inputs[..n]);
    }
  }

  /** Clearing every input (the reset after a save) brings the dash back. */
  lemma {:induction false} ClearedShowsDash(inputs: seq<ScoreInput>)
    ensures Shown(Cleared(inputs)) == Dash
  {
    DashIffNothingParses(Cleared(inputs));
    EmptyIsNaN();
  }

  /** `inputs.forEach(i => (i.value = ""))`. */
  function Cleared(inputs: seq<ScoreInput>): (r: seq<ScoreInput>)
    ensures |r| == |inputs|
    ensures forall k :: 0 <= k < |r| ==> r[k] == inputs[k].(value := "")
  {
    seq(|inputs|, k requires 0 <= k < |inputs| => inputs[k].(value := ""))
  }

  // ---------------------------------------------------------------------
  // Saved rounds

  /** One saved round; `id` and `date` come from the clock at save time. */
  datatype SavedRound = SavedRound(id: int, date: string, course: string, tees: string, total: int, holesFilled: nat)

  /**
   * The local storage entry of the saved rounds: absent or empty, not
   * valid JSON, valid JSON that is not an array, or a list of rounds.
   */
  datatype Stored = Missing | Unreadable | NotAList | Rounds(rounds: seq<SavedRound>)

  /** `loadRoundsFromStorage`: the stored list, or no rounds when there is none to read. */
  function LoadRounds(stored: Stored): (rounds: seq<SavedRound>)
    ensures !stored.Rounds? ==> rounds == []
  {
    if stored.Rounds? then stored.rounds else []
  }

  /** What a click on the save button did. */
  datatype SaveOutcome = Rejected | Saved(round: SavedRound)

  /** The scorecard page: its hole inputs, the total it shows and the device's saved rounds. */
  class ScorecardPage {
    var inputs: seq<ScoreInput>
    var shown: Display
    var stored: Stored

    /**
     * The page as loaded. No total is computed at load time; the total box is
     * assumed to start as "—" in the page markup, which is not part of this model.
     */
    constructor (inputs0: seq<ScoreInput>, stored0: Stored)
      ensures inputs == inputs0 && stored == stored0
      ensures shown == Dash
    {
      inputs := inputs0;
      shown := Dash;
      stored := stored0;
    }

    /** `recalcTotal`: one pass over the inputs, adding up every value that parses. */
    method RecalcTotal()
      modifies this
      ensures shown == Shown(inputs)
      ensures inputs == old(inputs) && stored == old(stored)
    {
      var ins := inputs;
      var total := 0;
      var hasAny := false;
      for i := 0 to |ins|
        invariant hasAny <==> Filled(ins[..i]) != []
        invariant total == SumScores(Filled(ins[..i]))
        invariant inputs == ins && stored == old(stored)
      {
        FilledStep(ins, i);
        var v := ParseInt(ins[i].value);
        if v.Some? {
          hasAny := true;
          total := total + v.value;
        }
      }
      assert ins[..|ins|] == ins;
      shown := if hasAny then Total(total) else Dash;
    }

    /**
     * The click handler of the save button, with `id` and `date` for the clock.
     * `writeAccepted` says whether the storage accepts the write; a refused
     * write is caught and only logged, so the boxes are cleared and the round
     * is reported saved either way, but the store keeps its old value.
     */
    method SaveRound(course: string, tees: string, id: int, date: string, writeAccepted: bool) returns (outcome: SaveOutcome)
      modifies this
      ensures Filled(old(inputs)) == [] ==> outcome == Rejected && inputs == old(inputs) && stored == old(stored) && shown == old(shown)
      ensures Filled(old(inputs)) != [] ==>
        && outcome == Saved(SavedRound(id, date, course, tees, SumScores(Filled(old(inputs))), |Filled(old(inputs))|))
        && stored == (if writeAccepted then Rounds([outcome.round] + LoadRounds(old(stored))) else old(stored))
        && inputs == Cleared(old(inputs))
        && shown == Dash
    {
      var scores, filledCount := CollectScores(inputs);
      if filledCount == 0 {
        return Rejected;
      }
      var total := SumScores(scores);
      var round := SavedRound(id, date, course, tees, total, filledCount);
      var rounds := LoadRounds(stored);
      rounds := [round] + rounds;
      if writeAccepted {
        stored := Rounds(rounds);
      }
      inputs := Cleared(inputs);
      RecalcTotal();
      ClearedShowsDash(old(inputs));
      outcome := Saved(round);
    }
  }

  /** The loop of the save handler that gathers the filled holes and counts them. */
  method CollectScores(inputs: seq<ScoreInput>) returns (scores: seq<HoleScore>, filledCount: nat)
    ensures scores == Filled(inputs) && filledCount == |scores|
  {
    scores := [];
    filledCount := 0;
    for i := 0 to |inputs|
      invariant scores == Filled(inputs[..i]) && filledCount == |scores|
    {
      FilledStep(inputs, i);
      var hole := ParseInt(inputs[i].hole);
      var v := ParseInt(inputs[i].value);
      if v.Some? {
        filledCount := filledCount + 1;
        scores := scores + [HoleScore(hole, v.value)];
      }
    }
    assert inputs[..|inputs|] == inputs;
  }

  /** The list the save writes: the new round first, then the rounds read back, oldest last. */
  function AfterSave(stored: Stored, round: SavedRound): Stored {
    Rounds([round] + LoadRounds(stored))
  }

  /**
   * Saved rounds are kept newest first: two saves put the later round
   * first and the earlier second, ahead of what was stored; a store that
   * could not be read is replaced by the new rounds alone.
   */
  lemma NewestFirst(stored: Stored, r1: SavedRound, r2: SavedRound)
    ensures LoadRounds(AfterSave(AfterSave(stored, r1), r2)) == [r2, r1] + LoadRounds(stored)
    ensures !stored.Rounds? ==> LoadRounds(AfterSave(stored, r1)) == [r1]
  {
  }
}
