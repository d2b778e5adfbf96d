/**
 * The shared snapshot bridge of script.js: one stored record that the
 * scoreboard, scorecard and leaderboard pages share. A write merges a
 * partial record into the stored one, key by key within each of the four
 * sections, and stamps the time of the write.
 */
module SharedSnapshot {
  import opened Wrappers

  /** The top-level keys the merge builds itself. */
  const Reserved: set<string> := {"format", "groups", "results", "dates", "ts"}

  /**
   * A stored snapshot: its other top-level keys, the four merged sections
   * and the time stamp. `V` stands for any stored value.
   */
  datatype Snapshot<V> = Snapshot(
    top: map<string, V>,
    format: map<string, V>,
    groups: map<string, V>,
    results: map<string, V>,
    dates: map<string, V>,
    ts: int)

  /** What a caller hands to a write: a section it leaves out is empty. */
  datatype Partial<V> = Partial(
    top: map<string, V>,
    format: map<string, V>,
    groups: map<string, V>,
    results: map<string, V>,
    dates: map<string, V>)

  /** `readSharedSnapshot() || {}`: a missing or unreadable snapshot counts as empty. */
  function Current<V(==)>(stored: Option<Snapshot<V>>): Snapshot<V> {
    if stored.Some? then stored.value else Snapshot(map[], map[], map[], map[], map[], 0)
  }

  /**
   * The record `writeSharedSnapshot(partial)` builds: the top-level keys of
   * both with the partial's winning, each section merged the same way,
   * and the time of the write.
   */
  function Merge<V(==)>(cur: Snapshot<V>, partial: Partial<V>, now: int): Snapshot<V> {
    Snapshot(
      (cur.top + partial.top) - Reserved,
      cur.format + partial.format,
      cur.groups + partial.groups,
      cur.results + partial.results,
      cur.dates + partial.dates,
      now)
  }

  /** The key-by-key rule of every section: the partial's values win, the rest are kept. */
  predicate MergedSection<V(==)>(merged: map<string, V>, cur: map<string, V>, part: map<string, V>) {
    && merged.Keys == cur.Keys + part.Keys
    && (forall k :: k in part ==> merged[k] == part[k])
    && (forall k :: k in cur && k !in part ==> merged[k] == cur[k])
  }

  lemma SectionMerge<V>(cur: map<string, V>, part: map<string, V>)
    ensures MergedSection(cur + part, cur, part)
  {
  }

  /**
   * A write keeps every stored key, lets the partial win on the keys it
   * names, in every section, and takes the time stamp of the write.
   */
  lemma MergeKeepsAndOverrides<V>(cur: Snapshot<V>, partial: Partial<V>, now: int)
    ensures var m := Merge(cur, partial, now);
      && MergedSection(m.format, cur.format, partial.format)
      && MergedSection(m.groups, cur.groups, partial.groups)
      && MergedSection(m.results, cur.results, partial.results)
      && MergedSection(m.dates, cur.dates, partial.dates)
      && m.ts == now
  {
    SectionMerge(cur.format, partial.format);
    SectionMerge(cur.groups, partial.groups);
    SectionMerge(cur.results, partial.results);
    SectionMerge(cur.dates, partial.dates);
  }

  /** The other top-level keys follow the same rule, except the reserved ones. */
  lemma MergeTopLevel<V>(cur: Snapshot<V>, partial: Partial<V>, now: int)
    ensures var m := Merge(cur, partial, now);
      && m.top.Keys == (cur.top.Keys + partial.top.Keys) - Reserved
      && (forall k :: k in partial.top && k !in Reserved ==> m.top[k] == partial.top[k])
      && (forall k :: k in cur.top && k !in partial.top && k !in Reserved ==> m.top[k] == cur.top[k])
  {
  }

  /** The partial that has the effect of `p` followed by `q`. */
  function Then<V(==)>(p: Partial<V>, q: Partial<V>): Partial<V> {
    Partial(p.top + q.top, p.format + q.format, p.groups + q.groups, p.results + q.results, p.dates + q.dates)
  }

  lemma SectionsAssociate<V>(a: map<string, V>, b: map<string, V>, c: map<string, V>)
    ensures (a + b) + c == a + (b + c)
  {
    assert ((a + b) + c).Keys == (a + (b + c)).Keys;
  }

  lemma TopAssociates<V>(a: map<string, V>, b: map<string, V>, c: map<string, V>)
    ensures ((a + b) - Reserved + c) - Reserved == (a + (b + c)) - Reserved
  {
    var x := ((a + b) - Reserved + c) - Reserved;
    var y := (a + (b + c)) - Reserved;
    assert x.Keys == y.Keys;
    forall k | k in x
      ensures x[k] == y[k]
    {
    }
  }

  /** Two writes in a row are one write of both partials, stamped with the later time. */
  lemma MergeTwice<V>(cur: Snapshot<V>, p: Partial<V>, q: Partial<V>, t1: int, t2: int)
    ensures Merge(Merge(cur, p, t1), q, t2) == Merge(cur, Then(p, q), t2)
  {
    TopAssociates(cur.top, p.top, q.top);
    SectionsAssociate(cur.format, p.format, q.format);
    SectionsAssociate(cur.groups, p.groups, q.groups);
    SectionsAssociate(cur.results, p.results, q.results);
    SectionsAssociate(cur.dates, p.dates, q.dates);
  }

  lemma SectionAgain<V>(a: map<string, V>, b: map<string, V>)
    ensures (a + b) + b == a + b
  {
    assert ((a + b) + b).Keys == (a + b).Keys;
  }

  lemma TopAgain<V>(a: map<string, V>, b: map<string, V>)
    ensures ((a + b) - Reserved + b) - Reserved == (a + b) - Reserved
  {
    var x := ((a + b) - Reserved + b) - Reserved;
    var y := (a + b) - Reserved;
    assert x.Keys == y.Keys;
    forall k | k in x
      ensures x[k] == y[k]
    {
    }
  }

  /** Writing the same partial again changes only the time stamp. */
  lemma MergeAgain<V>(cur: Snapshot<V>, p: Partial<V>, t1: int, t2: int)
    ensures Merge(Merge(cur, p, t1), p, t2) == Merge(cur, p, t1).(ts := t2)
  {
    TopAgain(cur.top, p.top);
    SectionAgain(cur.format, p.format);
    SectionAgain(cur.groups, p.groups);
    SectionAgain(cur.results, p.results);
    SectionAgain(cur.dates, p.dates);
  }

  /** The local storage entry holding the snapshot; `None` when it is missing or not valid JSON. */
  class SharedStore<V(==)> {
    var stored: Option<Snapshot<V>>

    constructor (initial: Option<Snapshot<V>>)
      ensures stored == initial
    {
      stored := initial;
    }

    /**
     * `writeSharedSnapshot(partial)`, with `now` for `Date.now()`: stores and
     * returns the merge. `writeAccepted` says whether the storage accepts the
     * write; a refused write throws to the caller, which is `None` here, and
     * stores nothing.
     */
    method Write(partial: Partial<V>, now: int, writeAccepted: bool) returns (merged: Option<Snapshot<V>>)
      modifies this
      ensures writeAccepted ==> merged == Some(Merge(Current(old(stored)), partial, now)) && stored == merged
      ensures !writeAccepted ==> merged == None && stored == old(stored)
    {
      var cur := Current(stored);
      var next := Merge(cur, partial, now);
      if writeAccepted {
        stored := Some(next);
        merged := Some(next);
      } else {
        merged := None;
      }
    }

    /**
     * The start-up step: when no snapshot can be read, write one with only
     * the event name; an existing snapshot is left alone.
     */
    method Seed(eventName: V, now: int, writeAccepted: bool)
      modifies this
      ensures old(stored).Some? || !writeAccepted ==> stored == old(stored)
      ensures old(stored).None? && writeAccepted ==> stored == Some(Snapshot(map["eventName" := eventName], map[], map[], map[], map[], now))
    {
      if stored.None? {
        var none: map<string, V> := map[];
        var top := map["eventName" := eventName];
        assert "eventName" !in Reserved;
        assert (none + top) - Reserved == top;
        assert none + none == none;
        var seeded := Write(Partial(map["eventName" := eventName], map[], map[], map[], map[]), now, writeAccepted);
      }
    }
  }
}
