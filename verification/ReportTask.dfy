/** Everything the report reads, joined (`mergeData` and `dropStaleClasses`, OmnivoreReportTask.kt). */
module ReportTask {
  import opened ByteStream
  import opened ExecutionStore
  import opened ExecutionMerge
  import opened ProbeMap
  import opened ProbeMerge
  import opened Sets
  import Exec = ExecutionFile
  import opened Wrappers

  /** The arrays of a store by class id. */
  ghost function DataOf(store: ExecutionDataStore): Arrays
    requires store.Valid()
    reads store, store.arrays
  {
    ArraysOf(Exec.ViewOf(store.Abstract()))
  }

  predicate IsStale(maps: ClassMaps, arrays: Arrays, id: int)
    requires id in maps
  {
    id in arrays && |maps[id].probes| > |arrays[id]|
  }

  /** The classes whose data are not too short for their map; a class without data stays. */
  function WithoutStale(maps: ClassMaps, arrays: Arrays): ClassMaps {
    map id | id in maps && !IsStale(maps, arrays, id) :: maps[id]
  }

  // ---- The count is enough ----

  ghost predicate InitialSegment(s: set<int>) {
    forall i :: i in s ==> 0 <= i && forall j :: 0 <= j < i ==> j in s
  }

  function UpTo(n: nat): (s: set<int>)
    ensures |s| == n && forall i :: i in s <==> 0 <= i < n
  {
    if n == 0 then {} else UpTo(n - 1) + {n - 1}
  }

  /** Every file numbers the probes of a class from 0 on without a gap. */
  ghost predicate Numbered(files: set<ClassMaps>) {
    forall f: ClassMaps, id :: f in files && id in f ==> InitialSegment(Indices(f[id].probes))
  }

  lemma MergedIsInitialSegment(maps: ClassMaps, files: set<ClassMaps>, id: int)
    requires IsMergeOf(maps, files) && Numbered(files) && id in maps
    ensures InitialSegment(Indices(maps[id].probes))
  {
    hide Meaning, Agreed, SomeFileMaps, Headed;
    var es := maps[id].probes;
    forall i | i in Indices(es) ensures 0 <= i && forall j :: 0 <= j < i ==> j in Indices(es) {
      var k :| 0 <= k < |es| && es[k].probeIndex == i;
      assert Occurs(files, id, es[k]);
      var f: ClassMaps :| f in files && id in f && es[k] in f[id].probes;
      var own := f[id].probes;
      assert i in Indices(own);
      forall j | 0 <= j < i ensures j in Indices(es) {
        assert j in Indices(own);
        var l :| 0 <= l < |own| && own[l].probeIndex == j;
        assert Occurs(files, id, own[l]);
        assert Represented(es, own[l]);
      }
    }
  }

  /**
   * Comparing counts is enough: in every class that is kept and has data, each probe's index is
   * inside the class's array.
   */
  lemma StaleCheckSuffices(maps: ClassMaps, files: set<ClassMaps>, arrays: Arrays, id: int, k: nat)
    requires IsMergeOf(maps, files) && Numbered(files)
    requires id in WithoutStale(maps, arrays) && id in arrays && k < |maps[id].probes|
    ensures 0 <= maps[id].probes[k].probeIndex < |arrays[id]|
  {
    hide IsMergeOf, Numbered;
    var es := maps[id].probes;
    MergedIsInitialSegment(maps, files, id);
    assert es[k].probeIndex in Indices(es);
    assert UpTo(es[k].probeIndex + 1) <= Indices(es);
    SubsetIsSmaller(UpTo(es[k].probeIndex + 1), Indices(es));
    assert DistinctIndices(es) by { MergedIndicesAreDistinct(maps, files, id); }
    CountIndices(es);
  }

  /** Every index is inside an array of `n` elements. */
  predicate IndicesFit(es: seq<ProbeEntry>, n: nat) {
    forall k :: 0 <= k < |es| ==> 0 <= es[k].probeIndex < n
  }

  /** The count test is safe for every array if and only if the class is numbered from 0 on without a gap. */
  lemma CountIsSafeIffNumbered(es: seq<ProbeEntry>)
    requires DistinctIndices(es)
    ensures (forall n: nat :: |es| <= n ==> IndicesFit(es, n)) <==> InitialSegment(Indices(es))
  {
    CountIndices(es);
    if forall n: nat :: |es| <= n ==> IndicesFit(es, n) {
      assert IndicesFit(es, |es|);
      assert Indices(es) <= UpTo(|es|);
      SameSize(Indices(es), UpTo(|es|));
    }
    if InitialSegment(Indices(es)) {
      forall k | 0 <= k < |es| ensures 0 <= es[k].probeIndex < |es| {
        assert es[k].probeIndex in Indices(es);
        assert UpTo(es[k].probeIndex + 1) <= Indices(es);
        SubsetIsSmaller(UpTo(es[k].probeIndex + 1), Indices(es));
      }
    }
  }

  lemma SameSize(a: set<int>, b: set<int>)
    requires a <= b && |a| == |b|
    ensures a == b
  {
    UnionCounts(b, a, b - a);
  }

  lemma MergedIndicesAreDistinct(maps: ClassMaps, files: set<ClassMaps>, id: int)
    requires IsMergeOf(maps, files) && id in maps
    ensures DistinctIndices(maps[id].probes)
  {
  }

  /** Without the numbering a count says nothing: one probe with index 1 fits an array of one element by count alone. */
  lemma GapsEscapeTheCount(id: int, e: ProbeEntry, c: ClassMap)
    requires e.probeIndex == 1 && c == ClassMap(id, [], None, [e])
    ensures
      var maps, arrays := map[id := c], map[id := [false]];
      IsMergeOf(maps, {maps}) && id in WithoutStale(maps, arrays) && !(e.probeIndex < |arrays[id]|)
  {
    hide Meaning;
    var maps: ClassMaps := map[id := c];
    var files := {maps};
    assert maps in files;
    forall k ensures k in maps <==> SomeFileMaps(files, k) {
      if k in maps { assert maps in files; }
    }
    forall k, g ensures Occurs(files, k, g) <==> k == id && g == e {
      if k == id && g == e { assert maps in files && g in maps[k].probes; }
    }
    assert Headed(c, files, id);
    assert c.probes[0] == e && Represented(c.probes, e);
  }

  // ---- The task ----

  /** What is left while the classes in `todo` have not been looked at. */
  function LeftOf(maps: ClassMaps, arrays: Arrays, todo: set<int>): ClassMaps {
    map id | id in maps && (id in todo || !IsStale(maps, arrays, id)) :: maps[id]
  }

  lemma OneLessToDo(maps: ClassMaps, arrays: Arrays, todo: set<int>, id: int)
    requires id in todo && id in maps
    ensures LeftOf(maps, arrays, todo - {id})
         == if IsStale(maps, arrays, id) then LeftOf(maps, arrays, todo) - {id} else LeftOf(maps, arrays, todo)
    ensures id in LeftOf(maps, arrays, todo) && LeftOf(maps, arrays, todo)[id] == maps[id]
  {
  }

  method DropStaleClasses(store: ExecutionDataStore, probeMap: ProbeMap)
    requires store.Valid() && probeMap.Valid()
    modifies probeMap
    ensures store.Valid() && probeMap.Valid()
    ensures DataOf(store) == old(DataOf(store))
    ensures probeMap.Contents() == WithoutStale(old(probeMap.Contents()), DataOf(store))
  {
    hide Exec.ViewOf, ArraysOf, LeftOf, Consistent;
    ghost var maps, arrays := probeMap.Contents(), DataOf(store);
    var todo := probeMap.entries.Keys;
    assert todo == maps.Keys && LeftOf(maps, arrays, maps.Keys) == maps by { NothingDone(maps, arrays); }
    while todo != {}
      invariant todo <= maps.Keys
      invariant store.Valid() && probeMap.Valid() && DataOf(store) == arrays
      invariant probeMap.Contents() == LeftOf(maps, arrays, todo)
      decreases |todo|
    {
      ghost var _ := ElementOf(todo);
      var id :| id in todo;
      OneLessToDo(maps, arrays, todo, id);
      DropIfStale(store, probeMap, id);
      todo := todo - {id};
    }
    assert LeftOf(maps, arrays, {}) == WithoutStale(maps, arrays) by { AllDone(maps, arrays); }
  }

  lemma NothingDone(maps: ClassMaps, arrays: Arrays)
    ensures LeftOf(maps, arrays, maps.Keys) == maps
  {
  }

  lemma AllDone(maps: ClassMaps, arrays: Arrays)
    ensures LeftOf(maps, arrays, {}) == WithoutStale(maps, arrays)
  {
  }

  method DropIfStale(store: ExecutionDataStore, probeMap: ProbeMap, id: int)
    requires store.Valid() && probeMap.Valid() && id in probeMap.Contents()
    modifies probeMap
    ensures store.Valid() && probeMap.Valid() && DataOf(store) == old(DataOf(store))
    ensures probeMap.Contents() ==
      if IsStale(old(probeMap.Contents()), DataOf(store), id) then old(probeMap.Contents()) - {id} else old(probeMap.Contents())
  {
    hide Exec.ViewOf, ArraysOf, Consistent;
    var stale := TooShort(store, probeMap.entries[id]);
    assert probeMap.Contents()[id] == probeMap.entries[id].Contents();
    if stale {
      probeMap.RemoveClassMap(id);
    }
  }

  method TooShort(store: ExecutionDataStore, m: ClassProbeMap) returns (stale: bool)
    requires store.Valid()
    ensures stale <==> m.classId in DataOf(store) && |m.probeEntries| > |DataOf(store)[m.classId]|
  {
    hide Exec.ViewOf, Consistent, Data;
    Exec.KeysOfView(store.Abstract());
    Exec.ViewAt(store.Abstract(), m.classId);
    var data := store.GetData(m.classId);
    stale := data.Some? && |m.probeEntries| > data.value.probes.Length;
  }

  /** The files that make the task fail: any unreadable execution file, or probe files of which none can be read. */
  ghost predicate CanMerge(execFiles: seq<seq<Byte>>, probeFiles: seq<seq<Byte>>) {
    AllParse(execFiles) && (probeFiles == [] || Readable(probeFiles) != {})
  }

  ghost predicate IsMergedData(arrays: Arrays, maps: ClassMaps, execFiles: seq<seq<Byte>>, probeFiles: seq<seq<Byte>>)
    requires AllParse(execFiles)
  {
    && arrays == MergedAll(ContentsOf(execFiles))
    && exists all: ClassMaps :: IsMergeOf(all, Readable(probeFiles)) && maps == WithoutStale(all, arrays)
  }

  method MergeData(execFiles: seq<seq<Byte>>, probeFiles: seq<seq<Byte>>) returns (r: Result<(ExecutionDataStore, ProbeMap)>)
    ensures r.Ok? <==> CanMerge(execFiles, probeFiles)
    ensures r.Ok? ==>
      && r.value.0.Valid() && r.value.1.Valid()
      && IsMergedData(DataOf(r.value.0), r.value.1.Contents(), execFiles, probeFiles)
  {
    hide IsMergeOf, WithoutStale, Readable, AllParse, MergedAll, Exec.ViewOf, ArraysOf, Consistent;
    var read, _ := MergeExecution(execFiles);
    var store :- read;
    ghost var arrays := DataOf(store);
    var probeMap :- MergeProbeMaps(probeFiles);
    assert DataOf(store) == arrays;
    ghost var all := probeMap.Contents();
    DropStaleClasses(store, probeMap);
    assert IsMergeOf(all, Readable(probeFiles)) && probeMap.Contents() == WithoutStale(all, DataOf(store));
    r := Ok((store, probeMap));
  }

  /** What the stale check keeps: every class but those that have data for fewer probes than their map. */
  lemma KeptAre(maps: ClassMaps, arrays: Arrays, id: int)
    ensures id in WithoutStale(maps, arrays) <==> id in maps && (id in arrays ==> |maps[id].probes| <= |arrays[id]|)
    ensures id in WithoutStale(maps, arrays) ==> WithoutStale(maps, arrays)[id] == maps[id]
  {
  }
}
