/** What retention and the ratchet keep over whole runs of ingests. */
module Retention {
  import opened SnapshotStore
  import opened Text
  import opened Wrappers

  // ---- Ages ----

  /** The snapshots of a series that are newer than a moment. */
  function NewerThan(rows: seq<Snapshot>, series: Series, t: int): nat {
    if rows == [] then 0
    else
      var last := rows[|rows| - 1];
      NewerThan(rows[..|rows| - 1], series, t) + if SeriesOf(last) == series && last.createdAt > t then 1 else 0
  }

  /** How many snapshots of its series are newer. */
  function Newer(rows: seq<Snapshot>, s: Snapshot): nat {
    NewerThan(rows, SeriesOf(s), s.createdAt)
  }

  /** Ids are unique, and so are timestamps within a series. */
  ghost predicate Distinct(rows: seq<Snapshot>) {
    && (forall i, j :: 0 <= i < j < |rows| ==> rows[i].id != rows[j].id)
    && (forall i, j :: 0 <= i < j < |rows| && SeriesOf(rows[i]) == SeriesOf(rows[j]) ==> rows[i].createdAt != rows[j].createdAt)
  }

  function Above(sorted: seq<Snapshot>, t: int): nat {
    if sorted == [] then 0 else (if sorted[0].createdAt > t then 1 else 0) + Above(sorted[1..], t)
  }

  ghost predicate Descending(sorted: seq<Snapshot>) {
    forall i, j :: 0 <= i < j < |sorted| ==> sorted[i].createdAt > sorted[j].createdAt
  }

  lemma {:induction false} InsertCounts(sorted: seq<Snapshot>, s: Snapshot, t: int)
    ensures Above(InsertByAge(sorted, s), t) == Above(sorted, t) + if s.createdAt > t then 1 else 0
  {
    if sorted != [] && sorted[0].createdAt > s.createdAt {
      InsertCounts(sorted[1..], s, t);
    } else {
      assert ([s] + sorted)[1..] == sorted;
    }
  }

  lemma {:induction false} InsertHolds(sorted: seq<Snapshot>, s: Snapshot)
    ensures forall x :: x in InsertByAge(sorted, s) <==> x in sorted || x == s
  {
    if sorted != [] && sorted[0].createdAt > s.createdAt {
      InsertHolds(sorted[1..], s);
      assert forall x :: x in sorted <==> x == sorted[0] || x in sorted[1..];
    }
  }

  lemma {:induction false} InsertDescends(sorted: seq<Snapshot>, s: Snapshot)
    requires Descending(sorted) && forall x :: x in sorted ==> x.createdAt != s.createdAt
    ensures Descending(InsertByAge(sorted, s))
  {
    if sorted != [] {
      assert sorted[0] in sorted && forall x :: x in sorted <==> x == sorted[0] || x in sorted[1..];
      if sorted[0].createdAt > s.createdAt {
        InsertDescends(sorted[1..], s);
        InsertHolds(sorted[1..], s);
        LaterIsOlder(sorted, s);
      }
    }
  }

  lemma LaterIsOlder(sorted: seq<Snapshot>, s: Snapshot)
    requires sorted != [] && Descending(sorted) && sorted[0].createdAt > s.createdAt && Descending(InsertByAge(sorted[1..], s))
    requires forall x :: x in InsertByAge(sorted[1..], s) ==> x in sorted[1..] || x == s
    ensures Descending([sorted[0]] + InsertByAge(sorted[1..], s))
  {
    hide InsertByAge;
    var rest := InsertByAge(sorted[1..], s);
    forall j | 0 <= j < |rest| ensures sorted[0].createdAt > rest[j].createdAt {
      assert rest[j] in rest;
    }
  }

  lemma InsertKeeps(sorted: seq<Snapshot>, s: Snapshot, t: int)
    ensures Above(InsertByAge(sorted, s), t) == Above(sorted, t) + if s.createdAt > t then 1 else 0
    ensures forall x :: x in InsertByAge(sorted, s) <==> x in sorted || x == s
    ensures Descending(sorted) && (forall x :: x in sorted ==> x.createdAt != s.createdAt) ==> Descending(InsertByAge(sorted, s))
  {
    InsertCounts(sorted, s, t);
    InsertHolds(sorted, s);
    if Descending(sorted) && forall x :: x in sorted ==> x.createdAt != s.createdAt {
      InsertDescends(sorted, s);
    }
  }

  lemma {:induction false} AboveIsIndex(sorted: seq<Snapshot>, i: nat)
    requires Descending(sorted) && i < |sorted|
    ensures Above(sorted, sorted[i].createdAt) == i
  {
    if i > 0 {
      AboveIsIndex(sorted[1..], i - 1);
    } else {
      NoneAbove(sorted, sorted[0].createdAt);
    }
  }

  lemma {:induction false} NoneAbove(sorted: seq<Snapshot>, t: int)
    requires forall k :: 0 <= k < |sorted| ==> sorted[k].createdAt <= t
    ensures Above(sorted, t) == 0
  {
    if sorted != [] {
      NoneAbove(sorted[1..], t);
    }
  }

  lemma {:induction false} NewestFirstIs(rows: seq<Snapshot>, series: Series, t: int)
    requires Distinct(rows)
    ensures
      var sorted := NewestFirst(rows, series);
      && Descending(sorted) && Above(sorted, t) == NewerThan(rows, series, t)
      && forall x :: x in sorted <==> x in rows && SeriesOf(x) == series
  {
    hide SeriesOf, InsertByAge, Above, Descending;
    if rows == [] {
      NothingSorted(t);
    } else {
      var front, last := rows[..|rows| - 1], rows[|rows| - 1];
      NewestFirstIs(front, series, t);
      assert forall x :: x in rows <==> x in front || x == last;
      InsertKeeps(NewestFirst(front, series), last, t);
      forall x | x in front && SeriesOf(x) == SeriesOf(last) ensures x.createdAt != last.createdAt {
        var k :| 0 <= k < |front| && front[k] == x;
        assert rows[k] == x;
      }
    }
  }

  lemma NothingSorted(t: int)
    ensures Descending([]) && Above([], t) == 0
  {
  }

  /** `ORDER BY created_at DESC ... OFFSET k` finds the snapshots with at least `k` newer ones. */
  lemma BeyondMeansOlder(rows: seq<Snapshot>, series: Series, offset: nat, s: Snapshot)
    requires Distinct(rows) && s in rows
    ensures s.id in IdsBeyond(rows, series, offset) <==> SeriesOf(s) == series && Newer(rows, s) >= offset
  {
    hide NewestFirst, NewerThan, Above, SeriesOf;
    var sorted := NewestFirst(rows, series);
    NewestFirstIs(rows, series, s.createdAt);
    if s.id in IdsBeyond(rows, series, offset) {
      var k :| offset <= k < |sorted| && sorted[k].id == s.id;
      assert sorted[k] in sorted;
      SameId(rows, sorted[k], s);
      AboveIsIndex(sorted, k);
    }
    if SeriesOf(s) == series && Newer(rows, s) >= offset {
      assert s in sorted;
      var k :| 0 <= k < |sorted| && sorted[k] == s;
      AboveIsIndex(sorted, k);
    }
  }

  lemma SameId(rows: seq<Snapshot>, a: Snapshot, b: Snapshot)
    requires Distinct(rows) && a in rows && b in rows && a.id == b.id
    ensures a == b
  {
    var i :| 0 <= i < |rows| && rows[i] == a;
    var j :| 0 <= j < |rows| && rows[j] == b;
  }

  // ---- Pruning, row by row ----

  /** What pruning leaves of a row whose series has `newer` newer snapshots. */
  function Remains(s: Snapshot, newer: nat, settings: Settings): seq<Snapshot> {
    if newer >= settings.retentionFull + settings.retentionSummary then []
    else if newer >= settings.retentionFull then [s.(files := None)]
    else [s]
  }

  /** The rows of `rows` as retention leaves them among `all`. */
  function Kept(rows: seq<Snapshot>, all: seq<Snapshot>, settings: Settings): seq<Snapshot> {
    if rows == [] then []
    else Kept(rows[..|rows| - 1], all, settings) + Remains(rows[|rows| - 1], Newer(all, rows[|rows| - 1]), settings)
  }

  /** The same for a prune of one series. */
  function KeptIn(rows: seq<Snapshot>, all: seq<Snapshot>, series: Series, settings: Settings): seq<Snapshot> {
    if rows == [] then []
    else
      var last := rows[|rows| - 1];
      KeptIn(rows[..|rows| - 1], all, series, settings)
      + if SeriesOf(last) == series then Remains(last, Newer(all, last), settings) else [last]
  }

  lemma {:induction false} StrippingKeepsAges(rows: seq<Snapshot>, ids: set<Text>, series: Series, t: int)
    ensures NewerThan(Stripped(rows, ids), series, t) == NewerThan(rows, series, t)
  {
    if rows != [] {
      var front := rows[..|rows| - 1];
      StrippingKeepsAges(front, ids, series, t);
      assert Stripped(rows, ids)[..|rows| - 1] == Stripped(front, ids);
    }
  }

  /** `rows` is the start of the table `table` that is pruned. */
  lemma {:induction false} PruneRows(rows: seq<Snapshot>, table: seq<Snapshot>, series: Series, settings: Settings, out: set<Text>, gone: set<Text>)
    requires forall s :: s in rows ==> (s.id in out <==> SeriesOf(s) == series && Newer(table, s) >= settings.retentionFull)
    requires forall s :: s in rows ==>
      (s.id in gone <==> SeriesOf(s) == series && Newer(table, s) >= settings.retentionFull + settings.retentionSummary)
    ensures Deleted(Stripped(rows, out), gone) == KeptIn(rows, table, series, settings)
  {
    hide Newer, SeriesOf;
    if rows != [] {
      var front, last := rows[..|rows| - 1], rows[|rows| - 1];
      assert last in rows && forall s :: s in front ==> s in rows;
      PruneRows(front, table, series, settings, out, gone);
      assert Stripped(rows, out)[..|rows| - 1] == Stripped(front, out);
    }
  }

  lemma StrippedIsDistinct(rows: seq<Snapshot>, ids: set<Text>)
    requires Distinct(rows)
    ensures Distinct(Stripped(rows, ids))
  {
  }

  lemma StrippedHolds(rows: seq<Snapshot>, ids: set<Text>, s: Snapshot)
    requires s in rows
    ensures exists t :: t in Stripped(rows, ids) && t.id == s.id && SeriesOf(t) == SeriesOf(s) && t.createdAt == s.createdAt
  {
    var k :| 0 <= k < |rows| && rows[k] == s;
    assert Stripped(rows, ids)[k] in Stripped(rows, ids);
  }

  lemma PrunedIsKeptIn(table: seq<Snapshot>, series: Series, settings: Settings)
    requires Distinct(table)
    ensures Pruned(table, series, settings) == KeptIn(table, table, series, settings)
  {
    hide IdsBeyond, SeriesOf, NewerThan, Distinct, Stripped;
    var full, total := settings.retentionFull, settings.retentionFull + settings.retentionSummary;
    var out := IdsBeyond(table, series, full);
    var stripped := Stripped(table, out);
    StrippedIsDistinct(table, out);
    forall s | s in table
      ensures s.id in out <==> SeriesOf(s) == series && Newer(table, s) >= full
      ensures s.id in IdsBeyond(stripped, series, total) <==> SeriesOf(s) == series && Newer(table, s) >= total
    {
      BeyondMeansOlder(table, series, full, s);
      StrippedHolds(table, out, s);
      var t :| t in stripped && t.id == s.id && SeriesOf(t) == SeriesOf(s) && t.createdAt == s.createdAt;
      BeyondMeansOlder(stripped, series, total, t);
      StrippingKeepsAges(table, out, SeriesOf(s), s.createdAt);
    }
    PruneRows(table, table, series, settings, out, IdsBeyond(stripped, series, total));
  }

  // ---- One more snapshot ----

  lemma {:induction false} LaterIsFewer(rows: seq<Snapshot>, series: Series, t: int, later: int)
    requires t <= later
    ensures NewerThan(rows, series, later) <= NewerThan(rows, series, t)
  {
    hide SeriesOf;
    if rows != [] {
      LaterIsFewer(rows[..|rows| - 1], series, t, later);
    }
  }

  lemma NewerOneMore(rows: seq<Snapshot>, s: Snapshot, series: Series, t: int)
    ensures NewerThan(rows + [s], series, t) == NewerThan(rows, series, t) + if SeriesOf(s) == series && s.createdAt > t then 1 else 0
  {
    assert (rows + [s])[..|rows|] == rows;
  }

  lemma NewerAfterRemains(rows: seq<Snapshot>, s: Snapshot, newer: nat, settings: Settings, series: Series, t: int)
    ensures NewerThan(rows + Remains(s, newer, settings), series, t)
         == NewerThan(rows, series, t)
          + if newer < settings.retentionFull + settings.retentionSummary && SeriesOf(s) == series && s.createdAt > t then 1 else 0
  {
    hide NewerThan;
    if Remains(s, newer, settings) == [] {
      assert rows + [] == rows;
    } else {
      NewerOneMore(rows, Remains(s, newer, settings)[0], series, t);
    }
  }

  /** Everything newer than a moment is kept when there is not too much of it. */
  lemma {:induction false} NewerAreKept(rows: seq<Snapshot>, all: seq<Snapshot>, settings: Settings, series: Series, t: int)
    requires NewerThan(all, series, t) < settings.retentionFull + settings.retentionSummary
    ensures NewerThan(Kept(rows, all, settings), series, t) == NewerThan(rows, series, t)
  {
    hide SeriesOf, Remains;
    if rows != [] {
      var front, last := rows[..|rows| - 1], rows[|rows| - 1];
      NewerAreKept(front, all, settings, series, t);
      NewerAfterRemains(Kept(front, all, settings), last, Newer(all, last), settings, series, t);
      if SeriesOf(last) == series && last.createdAt > t {
        LaterIsFewer(all, series, t, last.createdAt);
      }
    }
  }

  lemma {:induction false} OneMoreAbove(rows: seq<Snapshot>, r: Snapshot, t: int)
    requires r in rows && r.createdAt > t
    ensures NewerThan(rows, SeriesOf(r), t) > NewerThan(rows, SeriesOf(r), r.createdAt)
  {
    hide SeriesOf;
    var front, last := rows[..|rows| - 1], rows[|rows| - 1];
    assert r in front || r == last;
    LaterIsFewer(front, SeriesOf(r), t, r.createdAt);
    if r in front {
      OneMoreAbove(front, r, t);
    }
  }

  function Min(a: nat, b: nat): nat {
    if a < b then a else b
  }

  /** A snapshot with exactly `n` newer ones, when more than `n` are newer than `t`. */
  lemma AtRank(all: seq<Snapshot>, series: Series, t: int, n: nat) returns (r: Snapshot)
    requires Distinct(all) && n < NewerThan(all, series, t)
    ensures r in all && SeriesOf(r) == series && r.createdAt > t && Newer(all, r) == n
  {
    hide SeriesOf, NewerThan, Distinct;
    var sorted := NewestFirst(all, series);
    NewestFirstIs(all, series, t);
    AboveIsShort(sorted, t);
    r := sorted[n];
    assert r in sorted;
    AboveIsIndex(sorted, n);
    NewestFirstIs(all, series, r.createdAt);
    if r.createdAt <= t {
      LaterIsFewer(all, series, r.createdAt, t);
    }
  }

  lemma {:induction false} AboveIsShort(sorted: seq<Snapshot>, t: int)
    ensures Above(sorted, t) <= |sorted|
  {
    if sorted != [] {
      AboveIsShort(sorted[1..], t);
    }
  }

  /** Exactly what is newer than the moment `u` is kept, when that is as much as the limit allows. */
  lemma {:induction false} OnlyNewestKept(rows: seq<Snapshot>, all: seq<Snapshot>, settings: Settings, series: Series, t: int, u: int)
    requires (forall x :: x in rows ==> x in all) && t <= u
    requires NewerThan(all, series, u) == settings.retentionFull + settings.retentionSummary
    ensures NewerThan(Kept(rows, all, settings), series, t) == NewerThan(rows, series, u)
  {
    hide SeriesOf, Remains;
    if rows != [] {
      var front, last := rows[..|rows| - 1], rows[|rows| - 1];
      assert last in rows && forall x :: x in front ==> x in rows;
      OnlyNewestKept(front, all, settings, series, t, u);
      NewerAfterRemains(Kept(front, all, settings), last, Newer(all, last), settings, series, t);
      if SeriesOf(last) == series {
        if last.createdAt > u {
          OneMoreAbove(all, last, u);
        } else {
          LaterIsFewer(all, series, last.createdAt, u);
        }
      }
    }
  }

  /** At any moment: the stored snapshots that are newer are as many as there were, up to the limit. */
  lemma KeptIsLimited(all: seq<Snapshot>, settings: Settings, series: Series, t: int)
    requires Distinct(all)
    ensures NewerThan(Kept(all, all, settings), series, t)
         == Min(NewerThan(all, series, t), settings.retentionFull + settings.retentionSummary)
  {
    hide SeriesOf, NewerThan, Kept, Distinct;
    var total := settings.retentionFull + settings.retentionSummary;
    if NewerThan(all, series, t) < total {
      NewerAreKept(all, all, settings, series, t);
    } else if NewerThan(all, series, t) == total {
      OnlyNewestKept(all, all, settings, series, t, t);
    } else {
      var r := AtRank(all, series, t, total);
      OnlyNewestKept(all, all, settings, series, t, r.createdAt);
    }
  }

  /** Another snapshot leaves the ages within other series alone and makes none of its own series newer. */
  lemma AgesGrow(all: seq<Snapshot>, s: Snapshot, x: Snapshot)
    ensures Newer(all + [s], x) >= Newer(all, x)
    ensures SeriesOf(s) != SeriesOf(x) ==> Newer(all + [s], x) == Newer(all, x)
  {
    NewerOneMore(all, s, SeriesOf(x), x.createdAt);
  }

  /** What a second prune leaves of what a first one left. */
  function RemainsOf(left: seq<Snapshot>, table: seq<Snapshot>, series: Series, settings: Settings): seq<Snapshot> {
    if left == [] then []
    else if SeriesOf(left[0]) == series then Remains(left[0], Newer(table, left[0]), settings)
    else [left[0]]
  }

  lemma RemainsTwice(x: Snapshot, all: seq<Snapshot>, s: Snapshot, table: seq<Snapshot>, settings: Settings)
    requires Newer(all, x) < settings.retentionFull + settings.retentionSummary ==> Newer(table, x) == Newer(all + [s], x)
    ensures RemainsOf(Remains(x, Newer(all, x), settings), table, SeriesOf(s), settings) == Remains(x, Newer(all + [s], x), settings)
  {
    hide NewerThan;
    AgesGrow(all, s, x);
    var remains := Remains(x, Newer(all, x), settings);
    if remains != [] {
      assert Newer(table, remains[0]) == Newer(table, x);
    }
  }

  lemma KeptInMore(rows: seq<Snapshot>, left: seq<Snapshot>, table: seq<Snapshot>, series: Series, settings: Settings)
    requires |left| <= 1
    ensures KeptIn(rows + left, table, series, settings) == KeptIn(rows, table, series, settings) + RemainsOf(left, table, series, settings)
  {
    hide Newer, SeriesOf;
    if left == [] {
      assert rows + left == rows;
    } else {
      assert (rows + left)[..|rows|] == rows && (rows + left)[|rows|] == left[0];
    }
  }

  /** Pruning the kept rows and the new one leaves of the old rows what retention leaves of them among all. */
  lemma {:induction false} KeptRows(rows: seq<Snapshot>, all: seq<Snapshot>, s: Snapshot, settings: Settings)
    requires var table := Kept(all, all, settings) + [s];
      forall x :: x in rows && Newer(all, x) < settings.retentionFull + settings.retentionSummary ==> Newer(table, x) == Newer(all + [s], x)
    ensures KeptIn(Kept(rows, all, settings), Kept(all, all, settings) + [s], SeriesOf(s), settings) == Kept(rows, all + [s], settings)
  {
    hide Newer, SeriesOf, Remains, RemainsOf, KeptIn;
    var table := Kept(all, all, settings) + [s];
    if rows == [] {
      assert KeptIn([], table, SeriesOf(s), settings) == [] by { NothingKeptIn(table, SeriesOf(s), settings); }
    } else {
      var front, last := rows[..|rows| - 1], rows[|rows| - 1];
      assert last in rows && forall x :: x in front ==> x in rows;
      KeptRows(front, all, s, settings);
      RemainsTwice(last, all, s, table, settings);
      RemainsIsShort(last, Newer(all, last), settings);
      KeptInMore(Kept(front, all, settings), Remains(last, Newer(all, last), settings), table, SeriesOf(s), settings);
    }
  }

  lemma RemainsIsShort(s: Snapshot, newer: nat, settings: Settings)
    ensures |Remains(s, newer, settings)| <= 1
  {
  }

  lemma NothingKeptIn(table: seq<Snapshot>, series: Series, settings: Settings)
    ensures KeptIn([], table, series, settings) == []
  {
  }

  /** One more ingest: pruning its series brings the table to what retention leaves of everything seen. */
  lemma PruneKeepsRetention(all: seq<Snapshot>, s: Snapshot, settings: Settings)
    requires Distinct(all + [s])
    ensures KeptIn(Kept(all, all, settings) + [s], Kept(all, all, settings) + [s], SeriesOf(s), settings)
         == Kept(all + [s], all + [s], settings)
  {
    hide SeriesOf, NewerThan, Kept, KeptIn;
    var kept := Kept(all, all, settings);
    var table, now := kept + [s], all + [s];
    var total := settings.retentionFull + settings.retentionSummary;
    assert Distinct(all) by { PrefixIsDistinct(all, s); }
    hide Distinct;
    forall x | Newer(all, x) < total ensures Newer(table, x) == Newer(now, x) {
      NewerAreKept(all, all, settings, SeriesOf(x), x.createdAt);
      NewerOneMore(kept, s, SeriesOf(x), x.createdAt);
      NewerOneMore(all, s, SeriesOf(x), x.createdAt);
    }
    KeptRows(all, all, s, settings);
    KeptIsLimited(all, settings, SeriesOf(s), s.createdAt);
    NewerOneMore(kept, s, SeriesOf(s), s.createdAt);
    NewerOneMore(all, s, SeriesOf(s), s.createdAt);
    KeptOneMore(kept, table, SeriesOf(s), s, settings);
    KeptAllOneMore(all, now, s, settings);
  }

  lemma PrefixIsDistinct(all: seq<Snapshot>, s: Snapshot)
    requires Distinct(all + [s])
    ensures Distinct(all)
  {
    var now := all + [s];
    assert forall i :: 0 <= i < |all| ==> now[i] == all[i];
  }

  lemma KeptOneMore(rows: seq<Snapshot>, table: seq<Snapshot>, series: Series, s: Snapshot, settings: Settings)
    ensures KeptIn(rows + [s], table, series, settings)
         == KeptIn(rows, table, series, settings) + if SeriesOf(s) == series then Remains(s, Newer(table, s), settings) else [s]
  {
    assert (rows + [s])[..|rows|] == rows;
  }

  lemma KeptAllOneMore(rows: seq<Snapshot>, all: seq<Snapshot>, s: Snapshot, settings: Settings)
    ensures Kept(rows + [s], all, settings) == Kept(rows, all, settings) + Remains(s, Newer(all, s), settings)
  {
    assert (rows + [s])[..|rows|] == rows;
  }

  // ---- Whole runs ----

  function StateAfter(config: Config, projects: map<Text, Project>, ingests: seq<Snapshot>): State {
    if ingests == [] then State(projects, [])
    else AfterIngest(config, StateAfter(config, projects, ingests[..|ingests| - 1]), ingests[|ingests| - 1])
  }

  /** The snapshots that were not turned away. */
  function Taken(config: Config, projects: map<Text, Project>, ingests: seq<Snapshot>): seq<Snapshot> {
    if ingests == [] then []
    else
      var front, last := ingests[..|ingests| - 1], ingests[|ingests| - 1];
      Taken(config, projects, front) + if IsTaken(config, StateAfter(config, projects, front), last) then [last] else []
  }

  lemma {:induction false} KeptIds(rows: seq<Snapshot>, all: seq<Snapshot>, settings: Settings, id: Text)
    ensures HasId(Kept(rows, all, settings), id) ==> HasId(rows, id)
  {
    hide Newer;
    if rows != [] {
      var front, last := rows[..|rows| - 1], rows[|rows| - 1];
      KeptIds(front, all, settings, id);
      if k :| 0 <= k < |front| && front[k].id == id { assert rows[k].id == id; }
      var kept, remains := Kept(front, all, settings), Remains(last, Newer(all, last), settings);
      if k: nat :| k < |Kept(rows, all, settings)| && Kept(rows, all, settings)[k].id == id {
        if k < |kept| { assert kept[k].id == id; } else { assert rows[|front|].id == id; }
      }
    }
  }

  /** Neither the id nor, within a series, the timestamp is shared. */
  predicate Apart(x: Snapshot, s: Snapshot) {
    x.id != s.id && (SeriesOf(x) == SeriesOf(s) ==> x.createdAt != s.createdAt)
  }

  lemma DistinctMore(a: seq<Snapshot>, s: Snapshot)
    ensures Distinct(a + [s]) <==> Distinct(a) && forall x :: x in a ==> Apart(x, s)
  {
    var b := a + [s];
    if Distinct(b) {
      PrefixIsDistinct(a, s);
      forall x | x in a ensures Apart(x, s) {
        var k :| 0 <= k < |a| && a[k] == x;
        assert b[k] == x && b[|a|] == s;
      }
    }
    if Distinct(a) && forall x :: x in a ==> Apart(x, s) {
      forall i, j | 0 <= i < j < |b| ensures b[i].id != b[j].id && (SeriesOf(b[i]) == SeriesOf(b[j]) ==> b[i].createdAt != b[j].createdAt) {
        assert b[i] == a[i] && a[i] in a;
        assert j < |a| ==> b[j] == a[j];
      }
    }
  }

  lemma {:induction false} KeptAreApart(rows: seq<Snapshot>, all: seq<Snapshot>, settings: Settings, s: Snapshot)
    requires forall x :: x in rows ==> Apart(x, s)
    ensures forall x :: x in Kept(rows, all, settings) ==> Apart(x, s)
  {
    hide Newer;
    if rows != [] {
      var front, last := rows[..|rows| - 1], rows[|rows| - 1];
      assert last in rows && forall x :: x in front ==> x in rows;
      KeptAreApart(front, all, settings, s);
      var kept, remains := Kept(front, all, settings), Remains(last, Newer(all, last), settings);
      assert forall x :: x in kept + remains <==> x in kept || x in remains;
    }
  }

  lemma {:induction false} KeptIsDistinct(rows: seq<Snapshot>, all: seq<Snapshot>, settings: Settings, s: Snapshot)
    requires Distinct(rows + [s])
    ensures Distinct(Kept(rows, all, settings) + [s])
    decreases |rows|
  {
    hide Newer, Distinct, Apart;
    DistinctMore(rows, s);
    KeptAreApart(rows, all, settings, s);
    if rows == [] {
      assert Kept(rows, all, settings) == rows;
    } else {
      var front, last := rows[..|rows| - 1], rows[|rows| - 1];
      assert rows == front + [last];
      KeptIsDistinct(front, all, settings, last);
      RemainsIsDistinct(Kept(front, all, settings), last, Newer(all, last), settings);
    }
    DistinctMore(Kept(rows, all, settings), s);
  }

  lemma RemainsIsDistinct(kept: seq<Snapshot>, s: Snapshot, newer: nat, settings: Settings)
    requires Distinct(kept + [s])
    ensures Distinct(kept + Remains(s, newer, settings))
  {
    PrefixIsDistinct(kept, s);
    DistinctMore(kept, s);
    if Remains(s, newer, settings) == [] {
      assert kept + [] == kept;
    } else {
      DistinctMore(kept, Remains(s, newer, settings)[0]);
    }
  }

  lemma {:induction false} TakenAreIngests(config: Config, projects: map<Text, Project>, ingests: seq<Snapshot>)
    requires Distinct(ingests)
    ensures Distinct(Taken(config, projects, ingests)) && forall x :: x in Taken(config, projects, ingests) ==> x in ingests
  {
    hide IsTaken, Apart, Distinct, StateAfter;
    if ingests == [] {
      assert Distinct([]) by { NothingIsDistinct(); }
    } else {
      var front, last := ingests[..|ingests| - 1], ingests[|ingests| - 1];
      assert ingests == front + [last];
      DistinctMore(front, last);
      TakenAreIngests(config, projects, front);
      var t := Taken(config, projects, front);
      DistinctMore(t, last);
      assert t + [] == t;
    }
  }

  lemma NothingIsDistinct()
    ensures Distinct([])
  {
  }

  /**
   * After any run of ingests with unique ids and, per series, distinct timestamps, the table is what
   * retention leaves of all snapshots taken: in every series the newest, the newest of those with files.
   */
  lemma {:induction false} RetentionHolds(config: Config, projects: map<Text, Project>, ingests: seq<Snapshot>)
    requires Distinct(ingests)
    ensures
      var taken := Taken(config, projects, ingests);
      StateAfter(config, projects, ingests).snapshots == Kept(taken, taken, config.settings)
  {
    hide Pruned, Kept, KeptIn, Distinct, SeriesOf, HasId;
    if ingests == [] {
      NothingKept(config.settings);
    } else {
      var front, last := ingests[..|ingests| - 1], ingests[|ingests| - 1];
      assert ingests == front + [last];
      PrefixIsDistinct(front, last);
      RetentionHolds(config, projects, front);
      TakenAreIngests(config, projects, front);
      TakenAreIngests(config, projects, ingests);
      var t, state := Taken(config, projects, front), StateAfter(config, projects, front);
      if IsTaken(config, state, last) {
        KeptIsDistinct(t, t, config.settings, last);
        assert Taken(config, projects, ingests) == t + [last];
        PrunedIsKeptIn(state.snapshots + [last], SeriesOf(last), config.settings);
        PruneKeepsRetention(t, last, config.settings);
      } else {
        assert Taken(config, projects, ingests) == t;
      }
    }
  }

  lemma NothingKept(settings: Settings)
    ensures Kept([], [], settings) == []
  {
  }

  lemma {:induction false} KeptContains(rows: seq<Snapshot>, all: seq<Snapshot>, settings: Settings, x: Snapshot)
    requires x in rows
    ensures forall r :: r in Remains(x, Newer(all, x), settings) ==> r in Kept(rows, all, settings)
  {
    hide Newer, Remains;
    var front, last := rows[..|rows| - 1], rows[|rows| - 1];
    assert x in front || x == last;
    if x in front {
      KeptContains(front, all, settings, x);
    }
  }

  lemma {:induction false} KeptComesFrom(rows: seq<Snapshot>, all: seq<Snapshot>, settings: Settings, r: Snapshot)
    requires r in Kept(rows, all, settings)
    ensures exists x :: x in rows && r in Remains(x, Newer(all, x), settings)
  {
    hide Newer, Remains;
    var front, last := rows[..|rows| - 1], rows[|rows| - 1];
    if r in Kept(front, all, settings) {
      KeptComesFrom(front, all, settings, r);
      var x :| x in front && r in Remains(x, Newer(all, x), settings);
      assert x in rows;
    } else {
      assert last in rows && r in Remains(last, Newer(all, last), settings);
    }
  }

  /** The table in terms of one snapshot: stored while fewer than the limit are newer, with its files while fewer than `retention_full` are. */
  lemma SnapshotIsStored(config: Config, projects: map<Text, Project>, ingests: seq<Snapshot>, s: Snapshot)
    requires Distinct(ingests) && s in Taken(config, projects, ingests)
    ensures
      var rows, newer := StateAfter(config, projects, ingests).snapshots, Newer(Taken(config, projects, ingests), s);
      var full, summary := config.settings.retentionFull, config.settings.retentionSummary;
      && (newer < full ==> s in rows)
      && (full <= newer < full + summary ==> s.(files := None) in rows)
      && (forall r :: r in rows && r.id == s.id ==> newer < full + summary && r == if newer < full then s else s.(files := None))
  {
    hide Newer, Kept, StateAfter, Taken, Distinct;
    var taken := Taken(config, projects, ingests);
    RetentionHolds(config, projects, ingests);
    TakenAreIngests(config, projects, ingests);
    KeptContains(taken, taken, config.settings, s);
    if Newer(taken, s) < config.settings.retentionFull + config.settings.retentionSummary {
      assert Remains(s, Newer(taken, s), config.settings)[0] in Remains(s, Newer(taken, s), config.settings);
    }
    forall r | r in Kept(taken, taken, config.settings) && r.id == s.id ensures r in Remains(s, Newer(taken, s), config.settings) {
      KeptComesFrom(taken, taken, config.settings, r);
      var x :| x in taken && r in Remains(x, Newer(taken, x), config.settings);
      SameId(taken, x, s);
    }
  }

  /** The number of snapshots of a series. */
  function CountOf(rows: seq<Snapshot>, series: Series): nat {
    if rows == [] then 0
    else CountOf(rows[..|rows| - 1], series) + if SeriesOf(rows[|rows| - 1]) == series then 1 else 0
  }

  lemma {:induction false} AllNewer(rows: seq<Snapshot>, series: Series, t: int)
    requires forall x :: x in rows ==> x.createdAt > t
    ensures NewerThan(rows, series, t) == CountOf(rows, series)
  {
    hide SeriesOf;
    if rows != [] {
      assert rows[|rows| - 1] in rows;
      AllNewer(rows[..|rows| - 1], series, t);
    }
  }

  lemma {:induction false} BeforeAll(rows: seq<Snapshot>) returns (t: int)
    ensures forall x :: x in rows ==> x.createdAt > t
  {
    if rows == [] {
      t := 0;
    } else {
      var front, last := rows[..|rows| - 1], rows[|rows| - 1];
      t := BeforeAll(front);
      assert forall x :: x in rows <==> x in front || x == last;
      if last.createdAt <= t {
        t := last.createdAt - 1;
      }
    }
  }

  /** Every series holds as many snapshots as it was given, up to the limit, whatever the others were given. */
  lemma SeriesAreLimited(config: Config, projects: map<Text, Project>, ingests: seq<Snapshot>, series: Series)
    requires Distinct(ingests)
    ensures
      CountOf(StateAfter(config, projects, ingests).snapshots, series)
      == Min(CountOf(Taken(config, projects, ingests), series), config.settings.retentionFull + config.settings.retentionSummary)
  {
    hide Newer, Kept, StateAfter, Taken, Distinct, Remains, CountOf, NewerThan;
    var taken := Taken(config, projects, ingests);
    var kept := Kept(taken, taken, config.settings);
    RetentionHolds(config, projects, ingests);
    TakenAreIngests(config, projects, ingests);
    var t := BeforeAll(taken + kept);
    assert (forall x :: x in taken ==> x in taken + kept) && (forall x :: x in kept ==> x in taken + kept);
    AllNewer(taken, series, t);
    AllNewer(kept, series, t);
    KeptIsLimited(taken, config.settings, series, t);
  }

  // ---- The ratchet ----

  /** The snapshots that may raise the floors of project `id`. */
  function Raising(config: Config, projects: map<Text, Project>, ingests: seq<Snapshot>, id: Text): seq<Snapshot> {
    if ingests == [] then []
    else
      var front, last := ingests[..|ingests| - 1], ingests[|ingests| - 1];
      Raising(config, projects, front, id)
      + if IsTaken(config, StateAfter(config, projects, front), last) && last.projectId == id && config.policy.Allows(last.branch)
        then [last] else []
  }

  /** The floor after some rates: untouched before the first, and the maximum of all and of where it started from then on. */
  ghost predicate IsPeak(floor: Option<real>, start: Option<real>, rates: seq<real>) {
    if rates == [] then floor == start
    else
      && floor.Some?
      && (forall r :: r in rates ==> r <= floor.value)
      && (if start.Some? then start.value else 0.0) <= floor.value
      && (floor.value in rates || floor.value == if start.Some? then start.value else 0.0)
  }

  lemma PeakOneMore(floor: Option<real>, start: Option<real>, rates: seq<real>, rate: real)
    requires IsPeak(floor, start, rates)
    ensures IsPeak(Raised(floor, rate), start, rates + [rate])
  {
    assert forall r :: r in rates + [rate] <==> r in rates || r == rate;
  }

  function LineRates(snapshots: seq<Snapshot>): (rates: seq<real>)
    ensures |rates| == |snapshots|
  {
    seq(|snapshots|, i requires 0 <= i < |snapshots| => snapshots[i].lineRate)
  }

  function BranchRates(snapshots: seq<Snapshot>): (rates: seq<real>)
    ensures |rates| == |snapshots|
  {
    seq(|snapshots|, i requires 0 <= i < |snapshots| => snapshots[i].branchRate)
  }

  /** What one ingest does to a project. */
  lemma ProjectAfter(config: Config, state: State, s: Snapshot, id: Text)
    requires id in state.projects
    ensures id in AfterIngest(config, state, s).projects
    ensures AfterIngest(config, state, s).projects[id]
         == if IsTaken(config, state, s) && s.projectId == id then Advanced(state.projects[id], s, config.policy) else state.projects[id]
  {
    hide Advanced, Pruned, HasId;
  }

  /**
   * Over any run the floors of a project with the ratchet on are the maxima of their starting values
   * and of the rates of the ingests the policy lets raise them; off, they stay as they were.
   */
  lemma {:induction false} FloorsArePeaks(config: Config, projects: map<Text, Project>, ingests: seq<Snapshot>, id: Text)
    requires id in projects
    ensures id in StateAfter(config, projects, ingests).projects
    ensures
      var start, p := projects[id], StateAfter(config, projects, ingests).projects[id];
      if !start.ratchetEnabled then p == start
      else
        && p.ratchetEnabled
        && IsPeak(p.lineFloor, start.lineFloor, LineRates(Raising(config, projects, ingests, id)))
        && IsPeak(p.branchFloor, start.branchFloor, BranchRates(Raising(config, projects, ingests, id)))
  {
    hide IsPeak, AfterIngest, IsTaken;
    if ingests == [] {
      NothingRaised(projects[id].lineFloor);
      NothingRaised(projects[id].branchFloor);
    } else {
      var front, last := ingests[..|ingests| - 1], ingests[|ingests| - 1];
      FloorsArePeaks(config, projects, front, id);
      var raising, p := Raising(config, projects, front, id), StateAfter(config, projects, front).projects[id];
      assert LineRates(raising + [last]) == LineRates(raising) + [last.lineRate];
      assert BranchRates(raising + [last]) == BranchRates(raising) + [last.branchRate];
      assert raising + [] == raising;
      ProjectAfter(config, StateAfter(config, projects, front), last, id);
      if projects[id].ratchetEnabled {
        PeakOneMore(p.lineFloor, projects[id].lineFloor, LineRates(raising), last.lineRate);
        PeakOneMore(p.branchFloor, projects[id].branchFloor, BranchRates(raising), last.branchRate);
      }
    }
  }

  lemma NothingRaised(floor: Option<real>)
    ensures IsPeak(floor, floor, [])
  {
  }

  /** The verdict on an ingest is by the floors from before it: a build cannot fail on what it raised itself. */
  lemma VerdictIsByEarlierFloors(config: Config, projects: map<Text, Project>, ingests: seq<Snapshot>, s: Snapshot)
    requires s.projectId in projects && projects[s.projectId].ratchetEnabled
    requires AnswerTo(config, StateAfter(config, projects, ingests), s).Ok?
    ensures
      var v, raising := AnswerTo(config, StateAfter(config, projects, ingests), s).value, Raising(config, projects, ingests, s.projectId);
      && IsPeak(v.lineFloor, projects[s.projectId].lineFloor, LineRates(raising))
      && IsPeak(v.branchFloor, projects[s.projectId].branchFloor, BranchRates(raising))
      && (v.lineFloorViolated <==> v.lineFloor.Some? && s.lineRate < v.lineFloor.value)
      && (v.branchFloorViolated <==> v.branchFloor.Some? && s.branchRate < v.branchFloor.value)
  {
    hide IsPeak, StateAfter, HasId;
    FloorsArePeaks(config, projects, ingests, s.projectId);
  }

  // ---- The policy ----

  predicate AllSpace(t: Name) {
    forall i :: 0 <= i < |t| ==> IsSpace(t[i])
  }

  /** Spaces before and after a name that neither starts nor ends with one. */
  predicate IsPadded(before: Name, name: Name, after: Name) {
    && AllSpace(before) && AllSpace(after)
    && (name != [] ==> !IsSpace(name[0]) && !IsSpace(name[|name| - 1]))
  }

  lemma {:induction false} TrimStartDrops(before: Name, t: Name)
    requires AllSpace(before) && (t != [] ==> !IsSpace(t[0]))
    ensures TrimStart(before + t) == t
  {
    if before == [] {
      assert before + t == t;
    } else {
      assert (before + t)[1..] == before[1..] + t;
      TrimStartDrops(before[1..], t);
    }
  }

  lemma {:induction false} TrimEndDrops(t: Name, after: Name)
    requires AllSpace(after) && (t != [] ==> !IsSpace(t[|t| - 1]))
    ensures TrimEnd(t + after) == t
  {
    if after == [] {
      assert t + after == t;
    } else {
      assert (t + after)[..|t + after| - 1] == t + after[..|after| - 1];
      TrimEndDrops(t, after[..|after| - 1]);
    }
  }

  /** Every branch name is a padded one. */
  lemma {:induction false} NamesArePadded(t: Name) returns (before: Name, name: Name, after: Name)
    ensures t == before + name + after && IsPadded(before, name, after)
  {
    if t == [] {
      before, name, after := [], [], [];
    } else if IsSpace(t[0]) {
      before, name, after := NamesArePadded(t[1..]);
      before := [t[0]] + before;
    } else if IsSpace(t[|t| - 1]) {
      before, name, after := NamesArePadded(t[..|t| - 1]);
      after := after + [t[|t| - 1]];
    } else {
      before, name, after := [], t, [];
    }
  }

  /**
   * The policy looks at what is between the spaces, letter case aside: a build without a branch name
   * passes unless one is required, any other exactly when its branch is on the list.
   */
  lemma PolicyAllowsListed(policy: RatchetPolicy, before: Name, name: Name, after: Name)
    requires IsPadded(before, name, after)
    ensures policy.Allows(Some(before + name + after)) <==>
      if name == [] then !policy.requireBranch else exists b :: b in policy.branches && EqIgnoreAsciiCase(b, name)
    ensures policy.Allows(None) <==> !policy.requireBranch
  {
    if name == [] {
      assert before + name + after == before + after + [];
      TrimStartDrops(before + after, []);
    } else {
      assert before + name + after == before + (name + after);
      TrimStartDrops(before, name + after);
      TrimEndDrops(name, after);
    }
  }
}
