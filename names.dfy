/**
 * The name and photo helpers of script.js: the display name, the slug
 * built from a player's names, the initials shown when there is no photo,
 * the photo URL an avatar loads, and the default photo filename given to
 * a player without one.
 */
module Names {
  import opened Wrappers
  import opened Text
  import opened Players

  /** `formatPlayerName`: the nickname in curly quotes between the names, when it is not blank. */
  function DisplayName(p: Player): (name: string)
    ensures StartsWith(name, p.firstName + " ")
    ensures Trim(p.nickname) == "" ==> name == p.firstName + " " + p.lastName
    ensures Trim(p.nickname) != "" ==> name == p.firstName + " “" + p.nickname + "” " + p.lastName
  {
    if Trim(p.nickname) != "" then p.firstName + " “" + p.nickname + "” " + p.lastName
    else p.firstName + " " + p.lastName
  }

  /** A blank nickname is shown like no nickname at all. */
  lemma BlankNicknameIgnored(p: Player, nickname: string)
    requires Trim(nickname) == ""
    ensures DisplayName(p.(nickname := nickname)) == DisplayName(p.(nickname := ""))
  {
  }

  /** A non-blank nickname appears, quoted, right after the first name. */
  lemma NicknameShown(p: Player)
    requires Trim(p.nickname) != ""
    ensures InfixAt(DisplayName(p), "“" + p.nickname + "”", |p.firstName| + 1)
  {
    var name := DisplayName(p);
    var quoted := "“" + p.nickname + "”";
    var k := |p.firstName| + 1;
    assert name == (p.firstName + " ") + quoted + (" " + p.lastName);
    assert name[k..k + |quoted|] == quoted;
  }

  /** The characters `[a-z0-9]` a slug keeps. */
  predicate SlugChar(c: char) {
    'a' <= c <= 'z' || '0' <= c <= '9'
  }

  /** A string of slug characters and single dashes: no dash is followed by another. */
  predicate SlugText(s: string) {
    s == [] || ((SlugChar(s[0]) || (s[0] == '-' && (|s| == 1 || s[1] != '-'))) && SlugText(s[1..]))
  }

  /** A string of slug characters and dashes: the form of the slug and of plain ids. */
  predicate PlainName(s: string) {
    forall k :: 0 <= k < |s| ==> SlugChar(s[k]) || s[k] == '-'
  }

  lemma {:induction false} SlugTextIsPlain(s: string)
    requires SlugText(s)
    ensures PlainName(s)
  {
    if s != [] {
      SlugTextIsPlain(s[1..]);
      assert forall k :: 1 <= k < |s| ==> s[k] == s[1..][k - 1];
    }
  }

  /** The longest suffix of `s` that does not start with a character outside `[a-z0-9]`. */
  function DropRun(s: string): (r: string)
    ensures |r| <= |s| && r == s[|s| - |r|..]
    ensures r == [] || SlugChar(r[0])
    ensures s != [] && !SlugChar(s[0]) ==> |r| < |s|
  {
    if s != [] && !SlugChar(s[0]) then DropRun(s[1..]) else s
  }

  /** `s.replace(/[^a-z0-9]+/g, "-")`: every run of other characters becomes one dash. */
  function Dashify(s: string): (r: string)
    ensures SlugText(r)
    ensures r == [] <==> s == []
    ensures s != [] ==> (SlugChar(s[0]) ==> r[0] == s[0]) && (!SlugChar(s[0]) ==> r[0] == '-')
    decreases |s|
  {
    if s == [] then []
    else if SlugChar(s[0]) then [s[0]] + Dashify(s[1..])
    else "-" + Dashify(DropRun(s))
  }

  /** The characters `[a-z0-9]` of a string, in order. */
  function Kept(s: string): string {
    if s == [] then [] else (if SlugChar(s[0]) then [s[0]] else []) + Kept(s[1..])
  }

  lemma {:induction false} DropRunKeepsNothing(s: string)
    ensures Kept(s) == Kept(DropRun(s))
  {
    if s != [] && !SlugChar(s[0]) {
      DropRunKeepsNothing(s[1..]);
    }
  }

  /** The slug characters of a string survive `Dashify` unchanged and in order. */
  lemma {:induction false} DashifyKeepsSlugChars(s: string)
    ensures Kept(Dashify(s)) == Kept(s)
    decreases |s|
  {
    if s != [] {
      if SlugChar(s[0]) {
        DashifyKeepsSlugChars(s[1..]);
        assert Dashify(s)[1..] == Dashify(s[1..]);
      } else {
        DropRunKeepsNothing(s);
        DashifyKeepsSlugChars(DropRun(s));
        assert Dashify(s)[1..] == Dashify(DropRun(s));
      }
    }
  }

  /** A slug is left alone by `Dashify`, so dashifying twice is dashifying once. */
  lemma {:induction false} DashifyFixesSlugText(s: string)
    requires SlugText(s)
    ensures Dashify(s) == s
    decreases |s|
  {
    if s != [] {
      DashifyFixesSlugText(s[1..]);
      if !SlugChar(s[0]) {
        assert DropRun(s) == DropRun(s[1..]);
        assert s[1..] == [] || SlugChar(s[1]);
      }
    }
  }

  lemma DashifyIdempotent(s: string)
    ensures Dashify(Dashify(s)) == Dashify(s)
  {
    DashifyFixesSlugText(Dashify(s));
  }

  /** One name part of `slugifyName`: trimmed, lower-cased, then dashified. */
  function SlugPart(name: string): string {
    Dashify(ToLower(Trim(name)))
  }

  /** `slugifyName`: the non-empty slugged parts, joined by a dash. */
  function Slug(p: Player): string {
    var f := SlugPart(p.firstName);
    var l := SlugPart(p.lastName);
    if f == "" then l else if l == "" then f else f + "-" + l
  }

  /** A name part slugs to nothing exactly when it is blank. */
  lemma SlugPartEmpty(name: string)
    ensures SlugText(SlugPart(name)) && PlainName(SlugPart(name))
    ensures SlugPart(name) == "" <==> Trim(name) == ""
  {
    SlugTextIsPlain(SlugPart(name));
  }

  /**
   * A slug holds only `[a-z0-9]` and dashes, and is empty exactly when
   * both names are blank.
   */
  lemma SlugShape(p: Player)
    ensures PlainName(Slug(p))
    ensures Slug(p) == "" <==> Trim(p.firstName) == "" && Trim(p.lastName) == ""
  {
    SlugPartEmpty(p.firstName);
    SlugPartEmpty(p.lastName);
    var f, l := SlugPart(p.firstName), SlugPart(p.lastName);
    if f != "" && l != "" {
      PlainJoin(f, l);
    }
  }

  lemma PlainJoin(f: string, l: string)
    requires PlainName(f) && PlainName(l)
    ensures PlainName(f + "-" + l)
  {
    assert forall k :: 0 <= k < |f + "-" + l| ==>
      (f + "-" + l)[k] == if k < |f| then f[k] else if k == |f| then '-' else l[k - |f| - 1];
  }

  lemma SlugPartIgnoresCase(s: string)
    ensures SlugPart(ToLower(s)) == SlugPart(s)
  {
    TrimLower(s);
    LowerTwice(Trim(s));
  }

  /** Upper- and lower-case spellings of a name give the same slug. */
  lemma SlugIgnoresCase(p: Player)
    ensures Slug(p.(firstName := ToLower(p.firstName), lastName := ToLower(p.lastName))) == Slug(p)
  {
    SlugPartIgnoresCase(p.firstName);
    SlugPartIgnoresCase(p.lastName);
  }

  /** `PLAYER_PHOTO_BASE_PATH`. */
  const PhotoBase: string := "images/players/"

  /** The folder the photo filenames are joined to, without its trailing slash, then with one. */
  lemma PhotoDir()
    ensures DropTrailingSlashes(PhotoBase) + "/" == PhotoBase
  {
    assert DropTrailingSlashes(PhotoBase) == DropTrailingSlashes("images/players");
    assert DropTrailingSlashes("images/players") == "images/players";
  }

  /** `raw.replace(/^\/+/, "")`. */
  function DropLeadingSlashes(s: string): (r: string)
    ensures |r| <= |s| && r == s[|s| - |r|..]
    ensures r == [] || r[0] != '/'
  {
    if s != [] && s[0] == '/' then DropLeadingSlashes(s[1..]) else s
  }

  /** `s.replace(/\/+$/, "")`. */
  function DropTrailingSlashes(s: string): (r: string)
    ensures |r| <= |s| && r == s[..|r|]
    ensures r == [] || r[|r| - 1] != '/'
  {
    if s != [] && s[|s| - 1] == '/' then DropTrailingSlashes(s[..|s| - 1]) else s
  }

  /** `s.replace(/^players\//i, "")`. */
  function DropPlayersDir(s: string): (r: string) {
    if StartsWithIgnoringCase(s, "players/") then s[|"players/"|..] else s
  }

  /** `/^https?:\/\//i`, or a path starting with `/` or `./`: used as given. */
  predicate AsGiven(raw: string) {
    StartsWithIgnoringCase(raw, "http://") || StartsWithIgnoringCase(raw, "https://")
    || StartsWith(raw, "/") || StartsWith(raw, "./")
  }

  /**
   * `getPlayerPhotoURL`: the trimmed photo as given, the photo filename
   * under the photo folder, `<id>.png`, `<slug>.png`, or none (the avatar
   * shows initials).
   */
  function PhotoURL(p: Player): Option<string> {
    var raw := Trim(p.photo);
    if AsGiven(raw) then Some(raw)
    else
      var cleaned := DropPlayersDir(DropLeadingSlashes(raw));
      if cleaned != "" then Some(DropTrailingSlashes(PhotoBase) + "/" + cleaned)
      else if p.id != "" then Some(PhotoBase + (p.id + ".png"))
      else if Slug(p) != "" then Some(PhotoBase + (Slug(p) + ".png"))
      else None
  }

  /**
   * A photo given as a URL or a path is used as it is; any other URL is
   * under the photo folder; there is no URL exactly when the photo,
   * the id and the slug are all empty.
   */
  lemma PhotoURLShape(p: Player)
    ensures AsGiven(Trim(p.photo)) ==> PhotoURL(p) == Some(Trim(p.photo))
    ensures !AsGiven(Trim(p.photo)) && PhotoURL(p).Some? ==> StartsWith(PhotoURL(p).value, PhotoBase)
    ensures PhotoURL(p).None? <==>
      !AsGiven(Trim(p.photo)) && DropPlayersDir(DropLeadingSlashes(Trim(p.photo))) == "" && p.id == "" && Slug(p) == ""
  {
    var raw := Trim(p.photo);
    if !AsGiven(raw) {
      var cleaned := DropPlayersDir(DropLeadingSlashes(raw));
      if cleaned != "" {
        PhotoDir();
        StartsWithAppend(PhotoBase, cleaned);
      } else if p.id != "" {
        StartsWithAppend(PhotoBase, p.id + ".png");
      } else if Slug(p) != "" {
        StartsWithAppend(PhotoBase, Slug(p) + ".png");
      }
    }
  }

  /** The first character of a string, or the empty string: `s[0] || ""`. */
  function Head(s: string): (h: string)
    ensures |h| == if s == [] then 0 else 1
  {
    if s == [] then "" else [s[0]]
  }

  /** `playerInitials`: the upper-cased first letters of the trimmed first and last names. */
  function Initials(p: Player): string {
    ToUpper(Head(Trim(p.firstName)) + Head(Trim(p.lastName)))
  }

  /** One letter per non-blank name, none of them lower case. */
  lemma InitialsShape(p: Player)
    ensures |Initials(p)| == |Head(Trim(p.firstName))| + |Head(Trim(p.lastName))|
    ensures forall k :: 0 <= k < |Initials(p)| ==> !('a' <= Initials(p)[k] <= 'z')
  {
    var s := Head(Trim(p.firstName)) + Head(Trim(p.lastName));
    var r := ToUpper(s);
    assert |r| == |s|;
    forall k | 0 <= k < |r|
      ensures !('a' <= r[k] <= 'z')
    {
      assert r[k] == UpperChar(s[k]);
    }
  }

  /** Initials do not depend on how the names are cased. */
  lemma InitialsIgnoreCase(p: Player)
    ensures Initials(p.(firstName := ToLower(p.firstName), lastName := ToLower(p.lastName))) == Initials(p)
  {
    var f, l := Head(Trim(p.firstName)), Head(Trim(p.lastName));
    TrimLower(p.firstName);
    TrimLower(p.lastName);
    HeadLower(Trim(p.firstName));
    HeadLower(Trim(p.lastName));
    UpperAppend(ToLower(f), ToLower(l));
    UpperAppend(f, l);
    UpperLower(f);
    UpperLower(l);
  }

  lemma HeadLower(s: string)
    ensures Head(ToLower(s)) == ToLower(Head(s))
  {
  }

  /** The photo filename a player without one is given: `<id>.png`, else `<slug>.png`. */
  function DefaultPhoto(p: Player): Option<string> {
    if p.id != "" then Some(p.id + ".png")
    else if Slug(p) != "" then Some(Slug(p) + ".png")
    else None
  }

  /**
   * `attachPhotoIfMissing`: a player whose photo is blank gets the default
   * filename when there is one; nothing else about the player changes.
   */
  function AttachPhotoIfMissing(p: Player): Player {
    if Trim(p.photo) == "" && DefaultPhoto(p).Some? then p.(photo := DefaultPhoto(p).value) else p
  }

  /**
   * Only the photo changes; a player with a photo keeps it; a player
   * without one gets its default filename, and is left without a photo
   * exactly when it has no default.
   */
  lemma AttachShape(p: Player)
    ensures var q := AttachPhotoIfMissing(p);
      && q == p.(photo := q.photo)
      && (Trim(p.photo) != "" ==> q == p)
      && (Trim(p.photo) == "" && DefaultPhoto(p).Some? ==> q.photo == DefaultPhoto(p).value)
      && (Trim(q.photo) == "" <==> Trim(p.photo) == "" && DefaultPhoto(p).None?)
  {
    if Trim(p.photo) == "" && DefaultPhoto(p).Some? {
      var file := DefaultPhoto(p).value;
      TrimKeepsNonSpace(file, |file| - 1);
    }
  }

  /** Attaching a default photo twice is attaching it once. */
  lemma AttachIdempotent(p: Player)
    ensures AttachPhotoIfMissing(AttachPhotoIfMissing(p)) == AttachPhotoIfMissing(p)
  {
    var q := AttachPhotoIfMissing(p);
    AttachShape(p);
    AttachShape(q);
    if Trim(q.photo) == "" {
      assert q == p;
    }
  }

  /** A plain filename ending in ".png" has nothing to trim. */
  lemma PlainFileTrimmed(name: string)
    requires PlainName(name) && name != ""
    ensures Trim(name + ".png") == name + ".png"
  {
    var file := name + ".png";
    assert file[0] == name[0] && file[|file| - 1] == 'g';
    TrimUnchanged(file);
  }

  /** A plain filename ending in ".png" is neither a URL nor a path. */
  lemma PlainFileNotGiven(name: string)
    requires PlainName(name) && name != ""
    ensures !AsGiven(name + ".png")
  {
    var file := name + ".png";
    assert file[0] == name[0];
    if |"http://"| <= |file| {
      assert ToLower(file[..7])[4] != ':';
    }
    if |"https://"| <= |file| {
      assert ToLower(file[..8])[5] != ':';
    }
  }

  /** A plain filename ending in ".png" has no leading slash or `players/` folder to drop. */
  lemma PlainFileClean(name: string)
    requires PlainName(name) && name != ""
    ensures DropPlayersDir(DropLeadingSlashes(name + ".png")) == name + ".png"
  {
    var file := name + ".png";
    if |"players/"| <= |file| {
      assert ToLower(file[..8])[7] != '/';
    }
  }

  /** A stored photo that is a plain name ending in ".png" resolves to that file under the photo folder. */
  lemma PlainFileResolves(q: Player, name: string)
    requires PlainName(name) && name != "" && q.photo == name + ".png"
    ensures PhotoURL(q) == Some(PhotoBase + (name + ".png"))
  {
    PlainFileTrimmed(name);
    PlainFileNotGiven(name);
    PlainFileClean(name);
    PhotoDir();
  }

  /** An empty photo is neither a URL nor a path, and leaves no filename. */
  lemma EmptyPhotoClean()
    ensures !AsGiven("") && DropPlayersDir(DropLeadingSlashes("")) == ""
  {
    assert !StartsWithIgnoringCase("", "players/");
  }

  /** A blank photo resolves to `<id>.png`, else `<slug>.png`, under the photo folder. */
  lemma BlankPhotoResolves(p: Player)
    requires Trim(p.photo) == ""
    ensures PhotoURL(p) == if DefaultPhoto(p).Some? then Some(PhotoBase + DefaultPhoto(p).value) else None
  {
    BlankPhotoFallsBack(p);
    var slug := Slug(p);
    if p.id != "" {
      assert DefaultPhoto(p) == Some(p.id + ".png");
    } else if slug != "" {
      assert DefaultPhoto(p) == Some(slug + ".png");
    }
  }

  /** With a blank photo, the URL is the id, slug or no-URL fallback. */
  lemma BlankPhotoFallsBack(p: Player)
    requires Trim(p.photo) == ""
    ensures PhotoURL(p) ==
      if p.id != "" then Some(PhotoBase + (p.id + ".png"))
      else if Slug(p) != "" then Some(PhotoBase + (Slug(p) + ".png"))
      else None
  {
    EmptyPhotoClean();
  }

  /**
   * Attaching the default photo does not change where the avatar looks:
   * the stored `<id>.png` or `<slug>.png` resolves to the URL the blank
   * photo already resolved to, when the id is plain.
   */
  lemma AttachKeepsPhotoURL(p: Player)
    requires PlainName(p.id)
    ensures PhotoURL(AttachPhotoIfMissing(p)) == PhotoURL(p)
  {
    if Trim(p.photo) == "" {
      BlankPhotoResolves(p);
      if p.id != "" {
        PlainFileResolves(AttachPhotoIfMissing(p), p.id);
      } else if Slug(p) != "" {
        SlugShape(p);
        PlainFileResolves(AttachPhotoIfMissing(p), Slug(p));
      }
    }
  }
}
