/**
 * The master player list of script.js: the seeded players, signups merged
 * in without duplicates, hidden seeded players taken out, default photos
 * attached, and the per-team counts of the homepage summary. Also the
 * split of a signup's full name into first and last name.
 */
module Roster {
  import opened Wrappers
  import opened Text
  import opened Players
  import opened Names
  import opened Grid

  /** `String(s || "").toLowerCase().trim()`. */
  function Norm(s: string): string {
    Trim(ToLower(s))
  }

  /**
   * The duplicate test of `upsertPlayerToMasterList`: the same non-empty id,
   * or the same normalised first and last names with emails that agree
   * whenever both players have one.
   */
  predicate SamePerson(x: Player, p: Player) {
    (p.id != "" && x.id == p.id)
    || (Norm(x.firstName) == Norm(p.firstName) && Norm(x.lastName) == Norm(p.lastName)
        && (x.email != "" && p.email != "" ==> Norm(x.email) == Norm(p.email)))
  }

  /** Every player is a duplicate of itself. */
  lemma SamePersonReflexive(p: Player)
    ensures SamePerson(p, p)
  {
  }

  /** Whether some listed player is a duplicate of `p`: `players.some(...)`. */
  predicate Listed(players: seq<Player>, p: Player) {
    exists x :: x in players && SamePerson(x, p)
  }

  /** The list after `upsertPlayerToMasterList(p)`. */
  function Upserted(players: seq<Player>, p: Player): seq<Player> {
    if Listed(players, p) then players else players + [p]
  }

  /** The list after upserting each signup in turn. */
  function UpsertedAll(players: seq<Player>, signups: seq<Player>): seq<Player>
    decreases |signups|
  {
    if signups == [] then players else UpsertedAll(Upserted(players, signups[0]), signups[1..])
  }

  /**
   * An upsert only ever appends `p` to the list, and only when no listed
   * player is a duplicate of it; afterwards `p` is listed.
   */
  lemma UpsertAppendsOnlyNew(players: seq<Player>, p: Player)
    ensures Listed(players, p) ==> Upserted(players, p) == players
    ensures !Listed(players, p) ==> Upserted(players, p) == players + [p]
    ensures Listed(Upserted(players, p), p)
  {
    if !Listed(players, p) {
      SamePersonReflexive(p);
      assert p in players + [p];
    }
  }

  /** Upserting the same player twice is upserting it once. */
  lemma UpsertIdempotent(players: seq<Player>, p: Player)
    ensures Upserted(Upserted(players, p), p) == Upserted(players, p)
  {
    UpsertAppendsOnlyNew(players, p);
  }

  /** `longer` starts with all of `players`. */
  predicate Extends(longer: seq<Player>, players: seq<Player>) {
    |players| <= |longer| && longer[..|players|] == players
  }

  /** A listed player stays listed when the list grows. */
  lemma ListedInLonger(players: seq<Player>, longer: seq<Player>, p: Player)
    requires Listed(players, p) && Extends(longer, players)
    ensures Listed(longer, p)
  {
    var x :| x in players && SamePerson(x, p);
    var k :| 0 <= k < |players| && players[k] == x;
    assert longer[k] == x;
  }

  /** Loading the signups keeps the seeded list as a prefix: upserts only append. */
  lemma {:induction false} UpsertAllExtends(players: seq<Player>, signups: seq<Player>)
    ensures Extends(UpsertedAll(players, signups), players)
    decreases |signups|
  {
    if signups != [] {
      var next := Upserted(players, signups[0]);
      UpsertAppendsOnlyNew(players, signups[0]);
      assert Extends(next, players);
      UpsertAllExtends(next, signups[1..]);
      var r := UpsertedAll(next, signups[1..]);
      assert r[..|players|] == r[..|next|][..|players|];
    }
  }

  /** After loading the signups every signup is listed: itself, or a duplicate of it. */
  lemma {:induction false} UpsertAllLists(players: seq<Player>, signups: seq<Player>)
    ensures forall s :: s in signups ==> Listed(UpsertedAll(players, signups), s)
    decreases |signups|
  {
    if signups != [] {
      var next := Upserted(players, signups[0]);
      var r := UpsertedAll(next, signups[1..]);
      assert r == UpsertedAll(players, signups);
      UpsertAllLists(next, signups[1..]);
      forall s | s in signups
        ensures Listed(r, s)
      {
        if s != signups[0] {
          assert s in signups[1..];
        } else {
          UpsertAppendsOnlyNew(players, s);
          UpsertAllExtends(next, signups[1..]);
          ListedInLonger(next, r, s);
        }
      }
    }
  }

  /** The players whose id is not hidden, in list order. */
  function Visible(players: seq<Player>, hidden: set<string>): seq<Player> {
    if players == [] then []
    else (if players[0].id in hidden then [] else [players[0]]) + Visible(players[1..], hidden)
  }

  /** Exactly the players with a hidden id are taken out. */
  lemma {:induction false} VisibleMembers(players: seq<Player>, hidden: set<string>, x: Player)
    ensures x in Visible(players, hidden) <==> x in players && x.id !in hidden
  {
    if players != [] {
      VisibleMembers(players[1..], hidden, x);
      assert x in players <==> x == players[0] || x in players[1..];
    }
  }

  /** The players in their original order: hiding nobody changes nothing. */
  lemma {:induction false} VisibleNoneHidden(players: seq<Player>, hidden: set<string>)
    requires forall k :: 0 <= k < |players| ==> players[k].id !in hidden
    ensures Visible(players, hidden) == players
  {
    if players != [] {
      VisibleNoneHidden(players[1..], hidden);
    }
  }

  /** The list with every player given a default photo when it has none. */
  function WithPhotos(players: seq<Player>): (r: seq<Player>)
    ensures |r| == |players|
  {
    seq(|players|, k requires 0 <= k < |players| => AttachPhotoIfMissing(players[k]))
  }

  /** Attaching photos to the whole list twice is doing it once. */
  lemma WithPhotosIdempotent(players: seq<Player>)
    ensures WithPhotos(WithPhotos(players)) == WithPhotos(players)
  {
    forall k | 0 <= k < |players|
      ensures AttachPhotoIfMissing(AttachPhotoIfMissing(players[k])) == AttachPhotoIfMissing(players[k])
    {
      AttachIdempotent(players[k]);
    }
  }

  /** The loop body of the start-up photo pass, one index at a time over a copy of the list. */
  method AttachEach(start: seq<Player>) returns (ps: seq<Player>)
    ensures ps == WithPhotos(start)
  {
    ghost var target := WithPhotos(start);
    ps := start;
    for i := 0 to |ps|
      invariant |ps| == |target|
      invariant forall k :: 0 <= k < i ==> ps[k] == target[k]
      invariant forall k :: i <= k < |ps| ==> ps[k] == start[k]
    {
      ps := ps[i := AttachPhotoIfMissing(ps[i])];
    }
  }

  /** The homepage counts: `{ozark, valley, other, total}`. */
  datatype TeamCounts = TeamCounts(ozark: nat, valley: nat, other: nat, total: nat)

  /** The counts after counting `players`, each by its lower-cased team name. */
  function CountTeams(players: seq<Player>): TeamCounts {
    if players == [] then TeamCounts(0, 0, 0, 0)
    else
      var c := CountTeams(players[..|players| - 1]);
      var team := ToLower(players[|players| - 1].team);
      if team == "ozark" then c.(ozark := c.ozark + 1, total := c.total + 1)
      else if team == Valley then c.(valley := c.valley + 1, total := c.total + 1)
      else c.(other := c.other + 1, total := c.total + 1)
  }

  /** Every player is counted once: the three teams add up to the total, which is the list length. */
  lemma {:induction false} CountsAddUp(players: seq<Player>)
    ensures var c := CountTeams(players);
      c.ozark + c.valley + c.other == c.total == |players|
  {
    if players != [] {
      CountsAddUp(players[..|players| - 1]);
    }
  }

  /**
   * The summary counts team names without regard to case while the
   * pairing grid puts only the exact name "valley" on the Valley side, so
   * the Valley count is never below the number of Valley-side players.
   */
  lemma {:induction false} ValleySideWithinCount(players: seq<Player>)
    ensures |Available(players, {}, true)| <= CountTeams(players).valley
  {
    if players != [] {
      ValleySideWithinCount(players[..|players| - 1]);
      var p := players[|players| - 1];
      if p.team == Valley {
        assert ToLower(p.team) == Valley;
      }
    }
  }

  /** A team spelt "Valley" is counted as Valley but paired on the Ozark side. */
  lemma CapitalisedValleyIsCountedNotPaired()
    ensures var p := Player("7", "Ann", "Lee", "", "Valley", "", "");
      CountTeams([p]).valley == 1 && |Available([p], {}, true)| == 0
  {
    var p := Player("7", "Ann", "Lee", "", "Valley", "", "");
    assert ToLower(p.team) == Valley;
    assert [p][..0] == [];
  }

  /** The list `players` of script.js, which the start-up code and the signup form change in place. */
  class MasterList {
    var players: seq<Player>

    constructor (seeded: seq<Player>)
      ensures players == seeded
    {
      players := seeded;
    }

    /** `upsertPlayerToMasterList(p)`: push `p` unless a duplicate is already listed. */
    method Upsert(p: Player)
      modifies this
      ensures players == Upserted(old(players), p)
    {
      var found := exists x :: x in players && SamePerson(x, p);
      if !found {
        players := players + [p];
      }
    }

    /** `loadSignupPlayers().forEach(upsertPlayerToMasterList)`. */
    method UpsertAll(signups: seq<Player>)
      modifies this
      ensures players == UpsertedAll(old(players), signups)
    {
      for i := 0 to |signups|
        invariant UpsertedAll(players, signups[i..]) == UpsertedAll(old(players), signups)
      {
        assert signups[i..][1..] == signups[i + 1..];
        Upsert(signups[i]);
      }
    }

    /** The loop that walks the list backwards and splices out every player whose id is hidden. */
    method RemoveHidden(hidden: set<string>)
      modifies this
      ensures players == Visible(old(players), hidden)
    {
      ghost var start := players;
      var i := |players|;
      while i > 0
        invariant 0 <= i <= |start|
        invariant players == start[..i] + Visible(start[i..], hidden)
      {
        i := i - 1;
        assert start[i..] == [start[i]] + start[i + 1..];
        assert start[..i + 1] == start[..i] + [start[i]];
        if players[i].id in hidden {
          players := players[..i] + players[i + 1..];
        }
      }
      assert start[0..] == start;
    }

    /** `players[i] = attachPhotoIfMissing(players[i])` for every index. */
    method AttachPhotos()
      modifies this
      ensures players == WithPhotos(old(players))
    {
      players := AttachEach(players);
    }

    /** `computeTeamCounts`: one pass over the list, counting by lower-cased team name. */
    method ComputeTeamCounts() returns (counts: TeamCounts)
      ensures counts == CountTeams(players)
    {
      counts := TeamCounts(0, 0, 0, 0);
      for i := 0 to |players|
        invariant counts == CountTeams(players[..i])
      {
        assert players[..i + 1][..i] == players[..i];
        var team := ToLower(players[i].team);
        if team == "ozark" {
          counts := counts.(ozark := counts.ozark + 1);
        } else if team == Valley {
          counts := counts.(valley := counts.valley + 1);
        } else {
          counts := counts.(other := counts.other + 1);
        }
        counts := counts.(total := counts.total + 1);
      }
      assert players[..|players|] == players;
    }
  }

  /** `rawName.split(" ").filter(Boolean)`: the words between single spaces. */
  function Words(s: string): (words: seq<string>)
    ensures forall w :: w in words ==> w != "" && ' ' !in w
    decreases |s|
  {
    if s == [] then []
    else if s[0] == ' ' then Words(s[1..])
    else
      var w := FirstWord(s);
      [w] + Words(s[|w|..])
  }

  /** The longest prefix of `s` without a space. */
  function FirstWord(s: string): (w: string)
    ensures |w| <= |s| && w == s[..|w|] && ' ' !in w
    ensures |w| < |s| ==> s[|w|] == ' '
    ensures s != [] && s[0] != ' ' ==> w != ""
  {
    if s == [] || s[0] == ' ' then [] else [s[0]] + FirstWord(s[1..])
  }

  /** `words.join(" ")`. */
  function JoinWords(words: seq<string>): string {
    if words == [] then ""
    else if |words| == 1 then words[0]
    else words[0] + " " + JoinWords(words[1..])
  }

  /** The first word of a word followed by a space and more text is that word. */
  lemma FirstWordOf(w: string, rest: string)
    requires w != "" && ' ' !in w
    ensures FirstWord(w + rest) == w || (rest != [] && rest[0] != ' ')
    ensures rest == [] || rest[0] == ' ' ==> FirstWord(w + rest) == w
  {
    if rest == [] || rest[0] == ' ' {
      FirstWordPrefix(w, rest);
    }
  }

  lemma {:induction false} FirstWordPrefix(w: string, rest: string)
    requires ' ' !in w && (rest == [] || rest[0] == ' ')
    ensures FirstWord(w + rest) == w
    decreases |w|
  {
    if w != [] {
      assert (w + rest)[1..] == w[1..] + rest;
      FirstWordPrefix(w[1..], rest);
    }
  }

  /** Splitting words joined by single spaces gives the words back. */
  lemma {:induction false} WordsOfJoin(words: seq<string>)
    requires forall w :: w in words ==> w != "" && ' ' !in w
    ensures Words(JoinWords(words)) == words
    decreases |words|
  {
    if words != [] {
      var w := words[0];
      if |words| == 1 {
        FirstWordPrefix(w, "");
        assert w + "" == w;
        assert w[|w|..] == [];
      } else {
        var rest := JoinWords(words[1..]);
        var s := w + " " + rest;
        assert s == w + (" " + rest);
        FirstWordPrefix(w, " " + rest);
        assert s[|w|..] == " " + rest;
        assert (" " + rest)[1..] == rest;
        WordsOfJoin(words[1..]);
      }
    }
  }

  /**
   * The signup name split: the first word is the first name, the other
   * words joined by single spaces the last name, or "—" for a one-word
   * name. The form only reaches this with a trimmed, non-empty name.
   */
  function SplitName(rawName: string): (names: (string, string))
    requires rawName != "" && Trim(rawName) == rawName
    ensures names.0 != "" && ' ' !in names.0
    ensures Words(rawName) != [] && names.0 == Words(rawName)[0]
    ensures |Words(rawName)| == 1 ==> names.1 == "—"
    ensures |Words(rawName)| > 1 ==> names.1 == JoinWords(Words(rawName)[1..])
    ensures |Words(rawName)| > 1 ==> Words(rawName) == [names.0] + Words(names.1)
  {
    assert !IsSpace(rawName[0]);
    var parts := Words(rawName);
    assert parts != [];
    var lastName := if |parts| > 1 then JoinWords(parts[1..]) else "—";
    if |parts| > 1 then
      WordsOfJoin(parts[1..]);
      assert parts == [parts[0]] + parts[1..];
      (parts[0], lastName)
    else
      (parts[0], lastName)
  }
}
