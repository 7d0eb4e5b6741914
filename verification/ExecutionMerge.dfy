/** Joining the execution files of several test runs (the first half of `mergeData`, OmnivoreReportTask.kt). */
module ExecutionMerge {
  import opened ByteStream
  import opened ExecutionStore
  import opened Exec = ExecutionFile
  import opened ProbeMap
  import opened Sets
  import opened Text
  import opened Wrappers

  /** Probe arrays by class id. */
  type Arrays = map<int, seq<bool>>

  function ArraysOf(m: ExecData): (a: Arrays)
    ensures a.Keys == m.Keys
  {
    map id | id in m :: m[id].probes
  }

  function At(a: Arrays, id: int): seq<bool> {
    if id in a then a[id] else []
  }

  function Merged(a: Arrays, b: Arrays): (c: Arrays)
    ensures c.Keys == a.Keys + b.Keys
  {
    map id | id in a.Keys + b.Keys :: Or(At(a, id), At(b, id))
  }

  function MergedAll(files: seq<ExecData>): Arrays {
    if files == [] then map[] else Merged(MergedAll(files[..|files| - 1]), ArraysOf(files[|files| - 1]))
  }

  // ---- What the result says about a set of files ----

  ghost predicate SomeFileHas(files: set<ExecData>, id: int) {
    exists f: ExecData :: f in files && id in f
  }

  ghost predicate SomeFileHits(files: set<ExecData>, id: int, i: nat) {
    exists f: ExecData :: f in files && id in f && i < |f[id].probes| && f[id].probes[i]
  }

  ghost predicate LongestIs(files: set<ExecData>, id: int, n: nat) {
    && (forall f: ExecData :: f in files && id in f ==> |f[id].probes| <= n)
    && (exists f: ExecData :: f in files && id in f && |f[id].probes| == n)
  }

  /** Per class some file has: the greatest length, and a hit wherever one of the files has a hit. */
  ghost predicate IsJoinOf(a: Arrays, files: set<ExecData>) {
    && (forall id :: id in a <==> SomeFileHas(files, id))
    && (forall id :: id in a ==> LongestIs(files, id, |a[id]|))
    && (forall id, i: nat :: id in a && i < |a[id]| ==> (a[id][i] <==> SomeFileHits(files, id, i)))
  }

  /** Two files disagree on the length of some class. */
  ghost predicate Disagree(files: set<ExecData>) {
    exists f: ExecData, g: ExecData, id :: f in files && g in files && id in f && id in g && |f[id].probes| != |g[id].probes|
  }

  /** The join depends on the set of files only: not on their order, nor on how often one is read. */
  lemma JoinIsUnique(a: Arrays, b: Arrays, files: set<ExecData>)
    requires IsJoinOf(a, files) && IsJoinOf(b, files)
    ensures a == b
  {
    hide SomeFileHas, SomeFileHits;
    forall id ensures id in a <==> id in b {
      assert id in a <==> SomeFileHas(files, id);
    }
    forall id | id in a ensures a[id] == b[id] {
      assert id in b;
      assert |a[id]| == |b[id]|;
      forall i | 0 <= i < |a[id]| ensures a[id][i] == b[id][i] {
        assert a[id][i] <==> SomeFileHits(files, id, i);
      }
    }
  }

  lemma OneMoreFile(a: Arrays, files: set<ExecData>, f: ExecData)
    requires IsJoinOf(a, files)
    ensures IsJoinOf(Merged(a, ArraysOf(f)), files + {f})
  {
    hide Or, Merged, SomeFileHits, LongestIs, SomeFileHas;
    var m, all := Merged(a, ArraysOf(f)), files + {f};
    forall id ensures id in m <==> SomeFileHas(all, id) {
      LengthOfOneMore(a, files, f, id);
    }
    forall id | id in m ensures LongestIs(all, id, |m[id]|) {
      LengthOfOneMore(a, files, f, id);
    }
    forall id, i: nat | id in m && i < |m[id]| ensures m[id][i] <==> SomeFileHits(all, id, i) {
      HitsOfOneMore(a, files, f, id, i);
    }
  }

  lemma LengthOfOneMore(a: Arrays, files: set<ExecData>, f: ExecData, id: int)
    requires IsJoinOf(a, files)
    ensures id in Merged(a, ArraysOf(f)) <==> SomeFileHas(files + {f}, id)
    ensures id in Merged(a, ArraysOf(f)) ==> LongestIs(files + {f}, id, |Merged(a, ArraysOf(f))[id]|)
  {
    hide Merged;
    var m, all := Merged(a, ArraysOf(f)), files + {f};
    MergedAt(a, ArraysOf(f), id);
    assert id in a <==> SomeFileHas(files, id);
    assert f in all;
    if id in a {
      var g: ExecData :| g in files && id in g && |g[id].probes| == |a[id]|;
      assert g in all;
    }
  }

  lemma HitsOfOneMore(a: Arrays, files: set<ExecData>, f: ExecData, id: int, i: nat)
    requires IsJoinOf(a, files) && id in Merged(a, ArraysOf(f)) && i < |Merged(a, ArraysOf(f))[id]|
    ensures Merged(a, ArraysOf(f))[id][i] <==> SomeFileHits(files + {f}, id, i)
  {
    var all := files + {f};
    if SomeFileHits(all, id, i) {
      var g: ExecData :| g in all && id in g && i < |g[id].probes| && g[id].probes[i];
      if g in files {
        assert SomeFileHas(files, id) && LongestIs(files, id, |a[id]|);
        assert SomeFileHits(files, id, i);
      }
    }
    if id in a && i < |a[id]| && a[id][i] {
      var g: ExecData :| g in files && id in g && i < |g[id].probes| && g[id].probes[i];
      assert g in all;
    }
    if id in f && i < |f[id].probes| && f[id].probes[i] {
      assert f in all;
    }
  }

  lemma {:induction false} MergedAllIsJoin(files: seq<ExecData>)
    ensures IsJoinOf(MergedAll(files), SetOf(files))
  {
    hide IsJoinOf;
    if files == [] {
      assert IsJoinOf(map[], {}) by { NoFiles(); }
      assert SetOf(files) == {};
    } else {
      var front, last := files[..|files| - 1], files[|files| - 1];
      MergedAllIsJoin(front);
      OneMoreFile(MergedAll(front), SetOf(front), last);
      assert files == front + [last];
      assert SetOf(files) == SetOf(front) + {last};
    }
  }

  lemma NoFiles()
    ensures IsJoinOf(map[], {})
  {
  }

  /** The order of the files and reading one of them again change no array. */
  lemma MergeIgnoresOrder(files: seq<ExecData>, others: seq<ExecData>)
    requires SetOf(files) == SetOf(others)
    ensures MergedAll(files) == MergedAll(others)
  {
    hide IsJoinOf, MergedAll;
    MergedAllIsJoin(files);
    MergedAllIsJoin(others);
    JoinIsUnique(MergedAll(files), MergedAll(others), SetOf(files));
  }

  // ---- Mismatches ----

  /** The file gives a class a length other than the one it has so far. */
  ghost predicate Mismatches(a: Arrays, f: ExecData) {
    exists id :: id in a && id in f && |a[id]| != |f[id].probes|
  }

  /** The classes it does so for. */
  function MismatchedIds(a: Arrays, f: ExecData): set<int> {
    set id | id in a && id in f && |a[id]| != |f[id].probes|
  }

  /** What the loop over the files counts. */
  function MismatchCount(files: seq<ExecData>): nat {
    if files == [] then 0
    else
      var front := files[..|files| - 1];
      MismatchCount(front) + |MismatchedIds(MergedAll(front), files[|files| - 1])|
  }

  lemma MismatchesAreIds(a: Arrays, f: ExecData)
    ensures Mismatches(a, f) <==> |MismatchedIds(a, f)| > 0
  {
    var ids := MismatchedIds(a, f);
    if Mismatches(a, f) {
      var id :| id in a && id in f && |a[id]| != |f[id].probes|;
      assert id in ids;
    }
    if |ids| > 0 {
      var id := ElementOf(ids);
    }
  }

  /** The counter is above zero exactly when two files disagree on the length of a class. */
  lemma {:induction false} CountMeansDisagree(files: seq<ExecData>)
    ensures MismatchCount(files) > 0 <==> Disagree(SetOf(files))
  {
    hide Disagree, IsJoinOf, MismatchedIds, Mismatches, MergedAll;
    if files == [] {
      assert !Disagree(SetOf(files)) by { NothingDisagrees(); }
    } else {
      var front, last := files[..|files| - 1], files[|files| - 1];
      CountMeansDisagree(front);
      MergedAllIsJoin(front);
      MismatchesAreIds(MergedAll(front), last);
      DisagreeOneMore(MergedAll(front), SetOf(front), last);
      assert files == front + [last];
      assert SetOf(files) == SetOf(front) + {last};
    }
  }

  lemma NothingDisagrees()
    ensures !Disagree(SetOf<ExecData>([]))
  {
  }

  function OneClass(length: nat): ExecData {
    map[1 := ExecRecord(1, [], seq(length, _ => false))]
  }

  /** Three files with one and the same class each. */
  lemma CountOfThree(f: ExecData, g: ExecData, h: ExecData)
    requires f.Keys == g.Keys == h.Keys == {1}
    ensures
      var a, b, c := |f[1].probes|, |g[1].probes|, |h[1].probes|;
      MismatchCount([f, g, h]) == (if a != b then 1 else 0) + (if (if a > b then a else b) != c then 1 else 0)
  {
    assert MismatchCount([]) == 0 && MergedAll([]) == map[];
    hide MergedAll, MismatchCount;
    var none: seq<ExecData> := [];
    assert none + [f] == [f] && [f] + [g] == [f, g] && [f, g] + [h] == [f, g, h];
    MergeOfOneClass(none, f);
    MergeOfOneClass([f], g);
    MergeOfOneClass([f, g], h);
  }

  /** How much it counts depends on the order: lengths 1, 1, 2 give one mismatch, and 1, 2, 1 give two. */
  lemma CountDependsOnOrder()
    ensures MismatchCount([OneClass(1), OneClass(1), OneClass(2)]) == 1
    ensures MismatchCount([OneClass(1), OneClass(2), OneClass(1)]) == 2
  {
    hide MismatchCount;
    CountOfThree(OneClass(1), OneClass(1), OneClass(2));
    CountOfThree(OneClass(1), OneClass(2), OneClass(1));
  }

  lemma OnlyMismatch(a: Arrays, f: ExecData)
    requires f.Keys == {1} && a.Keys <= {1}
    ensures |MismatchedIds(a, f)| == if 1 in a && |a[1]| != |f[1].probes| then 1 else 0
  {
    assert MismatchedIds(a, f) == if 1 in a && |a[1]| != |f[1].probes| then {1} else {};
  }

  lemma MergeOfOneClass(front: seq<ExecData>, f: ExecData)
    requires f.Keys == {1} && MergedAll(front).Keys <= {1}
    ensures
      var a, m := MergedAll(front), MergedAll(front + [f]);
      && m.Keys == {1} && |m[1]| == (if 1 in a && |a[1]| > |f[1].probes| then |a[1]| else |f[1].probes|)
      && MismatchCount(front + [f]) == MismatchCount(front) + if 1 in a && |a[1]| != |f[1].probes| then 1 else 0
  {
    hide Merged, Or, MismatchedIds;
    assert (front + [f])[..|front|] == front;
    var a := MergedAll(front);
    MergedAt(a, ArraysOf(f), 1);
    OnlyMismatch(a, f);
  }

  lemma DisagreeOneMore(a: Arrays, files: set<ExecData>, f: ExecData)
    requires IsJoinOf(a, files)
    ensures Disagree(files + {f}) <==> Disagree(files) || Mismatches(a, f)
  {
    var all := files + {f};
    if Disagree(files) {
      var g: ExecData, h: ExecData, id :| g in files && h in files && id in g && id in h && |g[id].probes| != |h[id].probes|;
      assert g in all && h in all;
    }
    if Mismatches(a, f) {
      var id :| id in a && id in f && |a[id]| != |f[id].probes|;
      assert LongestIs(files, id, |a[id]|);
      var g: ExecData :| g in files && id in g && |g[id].probes| == |a[id]|;
      assert g in all && f in all;
    }
    if Disagree(all) && !Disagree(files) {
      var g: ExecData, h: ExecData, id :| g in all && h in all && id in g && id in h && |g[id].probes| != |h[id].probes|;
      var k := if g in files then g else h;
      assert k in files && f in {g, h} && SomeFileHas(files, id);
      var l: ExecData :| l in files && id in l && |l[id].probes| == |a[id]|;
      assert |l[id].probes| == |k[id].probes|;
    }
  }

  // ---- The loops ----

  method RecordFor(s: ExecutionDataStore, id: int) returns (r: ExecRecord)
    requires s.Valid() && id in s.probes
    ensures id in ViewOf(s.Abstract()) && r == ViewOf(s.Abstract())[id] && r.classId == id
  {
    hide ViewOf, Consistent, Data;
    var found := s.GetData(id);
    ViewAt(s.Abstract(), id);
    r := ExecRecord(id, found.value.className, found.value.probes[..]);
  }

  /** Each class of a file once, in any order. */
  method AllData(s: ExecutionDataStore) returns (all: seq<ExecRecord>)
    requires s.Valid()
    ensures DistinctRecords(all) && AsMap(all) == ViewOf(s.Abstract())
  {
    hide ViewOf, Consistent, Data, AsMap;
    ghost var f := ViewOf(s.Abstract());
    NoRecordsInMap();
    KeysOfView(s.Abstract());
    all := [];
    var todo := s.probes.Keys;
    while todo != {}
      invariant todo <= f.Keys == s.probes.Keys
      invariant DistinctRecords(all) && AsMap(all) == f - todo
      invariant forall k :: 0 <= k < |all| ==> all[k].classId !in todo
      decreases |todo|
    {
      ghost var _ := ElementOf(todo);
      var id :| id in todo;
      var r := RecordFor(s, id);
      AsMapOneMore(all, r);
      PutBack(f, todo, id);
      all := all + [r];
      todo := todo - {id};
    }
  }

  lemma PutBack(f: ExecData, todo: set<int>, id: int)
    requires id in f && id in todo
    ensures (f - todo)[id := f[id]] == f - (todo - {id})
  {
  }

  lemma NoRecordsInMap()
    ensures AsMap([]) == map[]
  {
  }

  lemma AsMapOneMore(all: seq<ExecRecord>, r: ExecRecord)
    ensures AsMap(all + [r]) == AsMap(all)[r.classId := r]
  {
    assert (all + [r])[..|all|] == all;
  }

  lemma OrNothing(x: seq<bool>)
    ensures Or(x, []) == x && Or([], x) == x
  {
  }

  lemma MergedAt(a: Arrays, b: Arrays, id: int)
    ensures id in Merged(a, b) <==> id in a || id in b
    ensures id in a && id in b ==> Merged(a, b)[id] == Or(a[id], b[id])
    ensures id in a && id !in b ==> Merged(a, b)[id] == a[id]
    ensures id !in a && id in b ==> Merged(a, b)[id] == b[id]
  {
    OrNothing(At(a, id));
    OrNothing(At(b, id));
  }

  lemma JoinOneAt(m: ExecData, a: Arrays, done: ExecData, r: ExecRecord, k: int)
    requires ArraysOf(m) == Merged(a, ArraysOf(done)) && r.classId !in done
    ensures k in Join(m, r) <==> k in Merged(a, ArraysOf(done[r.classId := r]))
    ensures k in Join(m, r) ==> Join(m, r)[k].probes == Merged(a, ArraysOf(done[r.classId := r]))[k]
  {
    hide Or, Merged;
    MergedAt(a, ArraysOf(done), k);
    MergedAt(a, ArraysOf(done[r.classId := r]), k);
    assert k in m ==> m[k].probes == ArraysOf(m)[k];
  }

  lemma JoinOne(m: ExecData, a: Arrays, done: ExecData, r: ExecRecord)
    requires ArraysOf(m) == Merged(a, ArraysOf(done)) && r.classId !in done
    ensures ArraysOf(Join(m, r)) == Merged(a, ArraysOf(done[r.classId := r]))
  {
    hide Join, Merged;
    forall k ensures k in Join(m, r) <==> k in Merged(a, ArraysOf(done[r.classId := r])) {
      JoinOneAt(m, a, done, r, k);
    }
    forall k | k in Join(m, r) ensures ArraysOf(Join(m, r))[k] == Merged(a, ArraysOf(done[r.classId := r]))[k] {
      JoinOneAt(m, a, done, r, k);
    }
  }

  lemma MismatchOne(m: ExecData, a: Arrays, done: ExecData, r: ExecRecord)
    requires ArraysOf(m) == Merged(a, ArraysOf(done)) && r.classId !in done
    ensures |MismatchedIds(a, done[r.classId := r])|
         == |MismatchedIds(a, done)| + if r.classId in m && |m[r.classId].probes| != |r.probes| then 1 else 0
  {
    hide Merged, Or;
    var id := r.classId;
    MergedAt(a, ArraysOf(done), id);
    assert id in m ==> m[id].probes == ArraysOf(m)[id] == a[id];
    var ids, ids' := MismatchedIds(a, done), MismatchedIds(a, done[id := r]);
    assert id !in ids && ids' == if id in a && |a[id]| != |r.probes| then ids + {id} else ids;
  }

  /** The loop over the classes of one file. */
  method MergeFile(store: ExecutionDataStore, all: seq<ExecRecord>) returns (mismatched: nat)
    requires store.Valid() && DistinctRecords(all)
    modifies store, store.arrays
    ensures store.Valid()
    ensures old(store.arrays) <= store.arrays && forall h :: |old(store.arrays)| <= h < |store.arrays| ==> fresh(store.arrays[h])
    ensures ArraysOf(ViewOf(store.Abstract())) == Merged(old(ArraysOf(ViewOf(store.Abstract()))), ArraysOf(AsMap(all)))
    ensures mismatched == |MismatchedIds(old(ArraysOf(ViewOf(store.Abstract()))), AsMap(all))|
  {
    hide Join, ViewOf, MismatchedIds, Merged, ArraysOf, Consistent, AsMap, DistinctRecords;
    ghost var before := ArraysOf(ViewOf(store.Abstract()));
    mismatched := 0;
    StartOfFile(before);
    for j := 0 to |all|
      invariant store.Valid()
      invariant old(store.arrays) <= store.arrays && forall h :: |old(store.arrays)| <= h < |store.arrays| ==> fresh(store.arrays[h])
      invariant ArraysOf(ViewOf(store.Abstract())) == Merged(before, ArraysOf(AsMap(all[..j])))
      invariant mismatched == |MismatchedIds(before, AsMap(all[..j]))|
    {
      NextMerge(all, j, before, ViewOf(store.Abstract()));
      var differs := MergeOne(store, all[j]);
      if differs {
        mismatched := mismatched + 1;
      }
    }
    assert all[..|all|] == all;
  }

  lemma NextRecord(all: seq<ExecRecord>, j: nat)
    requires DistinctRecords(all) && j < |all|
    ensures all[j].classId !in AsMap(all[..j]) && AsMap(all[..j + 1]) == AsMap(all[..j])[all[j].classId := all[j]]
  {
    AsMapHolds(all[..j]);
    assert all[..j + 1] == all[..j] + [all[j]];
    AsMapOneMore(all[..j], all[j]);
  }

  /** One record more, in the arrays and in the count. */
  lemma NextMerge(all: seq<ExecRecord>, j: nat, a: Arrays, m: ExecData)
    requires DistinctRecords(all) && j < |all| && ArraysOf(m) == Merged(a, ArraysOf(AsMap(all[..j])))
    ensures ArraysOf(Join(m, all[j])) == Merged(a, ArraysOf(AsMap(all[..j + 1])))
    ensures |MismatchedIds(a, AsMap(all[..j + 1]))|
         == |MismatchedIds(a, AsMap(all[..j]))| + if all[j].classId in m && |m[all[j].classId].probes| != |all[j].probes| then 1 else 0
  {
    hide Join, Merged, ArraysOf, AsMap, MismatchedIds, DistinctRecords;
    NextRecord(all, j);
    JoinOne(m, a, AsMap(all[..j]), all[j]);
    MismatchOne(m, a, AsMap(all[..j]), all[j]);
  }

  lemma StartOfFile(a: Arrays)
    ensures Merged(a, ArraysOf(AsMap([]))) == a && MismatchedIds(a, AsMap([])) == {}
  {
    var none := ArraysOf(AsMap([]));
    forall id | id in a ensures Merged(a, none)[id] == a[id] {
      assert At(none, id) == [];
    }
  }

  /** One class of one file; its size so far is taken before the array may grow. */
  method MergeOne(store: ExecutionDataStore, data: ExecRecord) returns (differs: bool)
    requires store.Valid()
    modifies store, store.arrays
    ensures store.Valid()
    ensures old(store.arrays) <= store.arrays && forall h :: |old(store.arrays)| <= h < |store.arrays| ==> fresh(store.arrays[h])
    ensures ViewOf(store.Abstract()) == Join(old(ViewOf(store.Abstract())), data)
    ensures
      var m := old(ViewOf(store.Abstract()));
      differs <==> data.classId in m && |m[data.classId].probes| != |data.probes|
  {
    hide Join, ViewOf, Consistent, Data;
    var previous := store.GetData(data.classId);
    differs := previous.Some? && previous.value.probes.Length != |data.probes|;
    ViewAt(store.Abstract(), data.classId);
    KeysOfView(store.Abstract());
    Absorb(store, data.classId, data.className, data.probes);
  }

  ghost predicate AllParse(files: seq<seq<Byte>>) {
    forall k :: 0 <= k < |files| ==> Exec.ParseFile(files[k]).Parsed?
  }

  ghost function ContentsOf(files: seq<seq<Byte>>): (c: seq<ExecData>)
    requires AllParse(files)
    ensures |c| == |files| && forall k :: 0 <= k < |c| ==> c[k] == Exec.ParseFile(files[k]).value
  {
    seq(|files|, k requires 0 <= k < |files| => Exec.ParseFile(files[k]).value)
  }

  /** The records of a file in any order. */
  method ReadRecords(bytes: seq<Byte>) returns (r: Result<seq<ExecRecord>>)
    ensures r.Ok? <==> Exec.ParseFile(bytes).Parsed?
    ensures r.Ok? ==> DistinctRecords(r.value) && AsMap(r.value) == Exec.ParseFile(bytes).value
  {
    hide Exec.ParseFile, ViewOf, Consistent, AsMap, DistinctRecords;
    var fileStore :- Exec.Read(bytes);
    var all := AllData(fileStore);
    r := Ok(all);
  }

  method ReadAndMerge(store: ExecutionDataStore, bytes: seq<Byte>) returns (r: Result<nat>)
    requires store.Valid()
    modifies store, store.arrays
    ensures store.Valid()
    ensures old(store.arrays) <= store.arrays && forall h :: |old(store.arrays)| <= h < |store.arrays| ==> fresh(store.arrays[h])
    ensures r.Ok? <==> Exec.ParseFile(bytes).Parsed?
    ensures r.Ok? ==>
      var a, f := old(ArraysOf(ViewOf(store.Abstract()))), Exec.ParseFile(bytes).value;
      && ArraysOf(ViewOf(store.Abstract())) == Merged(a, ArraysOf(f))
      && r.value == |MismatchedIds(a, f)|
  {
    hide Exec.ParseFile, ViewOf, Consistent, MismatchedIds, Merged, ArraysOf, AsMap, DistinctRecords;
    var all :- ReadRecords(bytes);
    var n := MergeFile(store, all);
    r := Ok(n);
  }

  lemma ContentsOneMore(files: seq<seq<Byte>>, k: nat)
    requires k < |files|
    ensures AllParse(files[..k + 1]) <==> AllParse(files[..k]) && Exec.ParseFile(files[k]).Parsed?
    ensures AllParse(files[..k + 1]) ==>
      ContentsOf(files[..k + 1]) == ContentsOf(files[..k]) + [Exec.ParseFile(files[k]).value]
    ensures AllParse(files) ==> Exec.ParseFile(files[k]).Parsed?
  {
    hide Exec.ParseFile;
    var now := files[..k + 1];
    assert forall j :: 0 <= j <= k ==> now[j] == files[j];
    assert forall j :: 0 <= j < k ==> files[..k][j] == files[j];
  }

  /** One unreadable file fails the whole report; otherwise the store is the join, and each file's mismatches with those before it are counted. */
  method MergeExecution(execFiles: seq<seq<Byte>>) returns (r: Result<ExecutionDataStore>, mismatched: nat)
    ensures r.Ok? <==> AllParse(execFiles)
    ensures r.Ok? ==>
      && fresh(r.value) && r.value.Valid() && (forall h :: 0 <= h < |r.value.arrays| ==> fresh(r.value.arrays[h]))
      && ArraysOf(ViewOf(r.value.Abstract())) == MergedAll(ContentsOf(execFiles))
      && mismatched == MismatchCount(ContentsOf(execFiles))
  {
    hide Exec.ParseFile, ViewOf, Consistent, MismatchedIds, Merged, MergedAll, ArraysOf, AllParse, ContentsOf;
    var store := new ExecutionDataStore();
    mismatched := 0;
    NothingToView();
    StartOfMerge();
    assert execFiles[..0] == [];
    for k := 0 to |execFiles|
      invariant fresh(store) && store.Valid() && forall h :: 0 <= h < |store.arrays| ==> fresh(store.arrays[h])
      invariant AllParse(execFiles[..k])
      invariant ArraysOf(ViewOf(store.Abstract())) == MergedAll(ContentsOf(execFiles[..k]))
      invariant mismatched == MismatchCount(ContentsOf(execFiles[..k]))
    {
      ContentsOneMore(execFiles, k);
      var n := ReadAndMerge(store, execFiles[k]);
      if n.Error? {
        return Error, 0;
      }
      StepOfMerge(ContentsOf(execFiles[..k]), Exec.ParseFile(execFiles[k]).value);
      mismatched := mismatched + n.value;
    }
    assert execFiles[..|execFiles|] == execFiles;
    r := Ok(store);
  }

  lemma StartOfMerge()
    ensures AllParse([]) && ContentsOf([]) == []
    ensures ArraysOf(map[]) == MergedAll([])
  {
  }

  lemma StepOfMerge(seen: seq<ExecData>, f: ExecData)
    ensures MergedAll(seen + [f]) == Merged(MergedAll(seen), ArraysOf(f))
    ensures MismatchCount(seen + [f]) == MismatchCount(seen) + |MismatchedIds(MergedAll(seen), f)|
  {
    assert (seen + [f])[..|seen|] == seen;
  }
}
