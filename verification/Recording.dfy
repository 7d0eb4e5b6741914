/** What a build and its test processes leave in files is what the report is proved about. */
module Recording {
  import opened ByteStream
  import opened ClassInstrumenter
  import opened ClassTransformer
  import opened EmbeddedProbeMap
  import opened EndToEnd
  import opened ExecutionStore
  import opened ProbeMap
  import opened ProbeMerge
  import opened Sets
  import opened TestRun
  import opened Text
  import opened Wrappers
  import Exec = ExecutionFile
  import Maps = ProbeFile

  // ---- Probe maps ----

  /** A probe map with maps of the project's classes only. */
  ghost predicate AllDescribe(p: Project, maps: map<int, ClassMap>) {
    forall id :: id in maps ==> maps[id].classId == id && Describes(p, maps[id])
  }

  /** Another walk of the agent keeps it so, over the class as compiled or as the build has instrumented it. */
  lemma AgentWalkDescribes(p: Project, maps: map<int, ClassMap>, id: int, cls: ClassNode)
    requires AllDescribe(p, maps) && id in p.classes
    requires cls == p.classes[id] || cls == Instrumented(p.config, p.classes[id])
    ensures AllDescribe(p, Extended(maps, id, cls, ClassEntries(p.config, cls.methods)))
  {
    hide ClassEntries, ProbeTotal;
    BuildTimeAndLoadTimeAgree(p.config, p.classes[id]);
  }

  /** The agent transforming a class of the project keeps it so. */
  method InstrumentByAgent(p: Project, id: int, cls: ClassNode, alreadyInstrumented: bool, excluded: bool, probeMap: ProbeMap)
    returns (r: Option<ClassNode>)
    requires id in p.classes && cls == if alreadyInstrumented then Instrumented(p.config, p.classes[id]) else p.classes[id]
    requires DistinctMethods(cls.methods) && probeMap.Valid() && AllDescribe(p, probeMap.Contents())
    modifies probeMap, probeMap.entries.Values
    ensures probeMap.Valid() && AllDescribe(p, probeMap.Contents())
    ensures HasProbes(p.config, p.classes[id]) && !excluded ==> id in probeMap.Contents()
    ensures r == if HasProbes(p.config, p.classes[id]) && !excluded && !alreadyInstrumented then Some(Instrumented(p.config, p.classes[id])) else None
  {
    hide ClassEntries, ProbeTotal, Instrumented, DistinctMethods, AllDescribe, HasProbes;
    AgentWalkDescribes(p, probeMap.Contents(), id, cls);
    BuildTimeAndLoadTimeAgree(p.config, p.classes[id]);
    r := InstrumentClass(p.config, cls, id, alreadyInstrumented, excluded, probeMap);
  }

  /** The map that the build makes of a class is one of the project. */
  lemma BuildWalkDescribes(p: Project, maps: map<int, ClassMap>, id: int)
    requires AllDescribe(p, maps) && id in p.classes
    ensures AllDescribe(p, maps[id := BuiltMap(p.config, p.classes[id], id)])
  {
    hide ClassEntries, ProbeTotal;
  }

  /** Embedded in a class and extracted again, a map is still one of the project. */
  lemma EmbeddedMapDescribes(p: Project, visible: seq<Annotation>, invisible: seq<Annotation>, descriptor: Text, c: ClassMap)
    requires Describes(p, c) && Maps.IsClass(c) && Maps.WritableClass(c) && !Carries(visible, descriptor)
    ensures
      var found := Extract(visible, WithMap(invisible, descriptor, c), descriptor);
      found.Found? && Describes(p, found.classMap)
  {
    hide Maps.IsClass, Maps.WritableClass, Extract, WithMap, Carries;
    AttachedMapIsRead(visible, invisible, descriptor, c);
  }

  /** The build transforming a class of the project keeps the probe map so, and the class carries a map of itself. */
  method InstrumentByBuild(p: Project, id: int, probeMap: ProbeMap, annotated: AnnotatedClass, descriptor: Text)
    returns (r: Result<ClassNode>)
    requires id in p.classes && HasProbes(p.config, p.classes[id]) && DistinctMethods(p.classes[id].methods)
    requires Maps.IsClass(BuiltMap(p.config, p.classes[id], id))
    requires probeMap.Valid() && AllDescribe(p, probeMap.Contents()) && !Carries(annotated.visible, descriptor)
    modifies probeMap, annotated`invisible
    ensures probeMap.Valid() && AllDescribe(p, probeMap.Contents())
    ensures r.Ok? ==>
      && r.value == Instrumented(p.config, p.classes[id])
      && var found := Extract(annotated.visible, annotated.invisible, descriptor);
         found.Found? && Describes(p, found.classMap)
  {
    hide ClassEntries, ProbeTotal, Instrumented, DistinctMethods, HasProbes, Maps.IsClass, Maps.WritableClass, WithMap, Extract, Carries, Describes;
    ghost var before, c := annotated.invisible, BuiltMap(p.config, p.classes[id], id);
    BuildWalkDescribes(p, probeMap.Contents(), id);
    r := VisitEnd(p.config, p.classes[id], id, probeMap, annotated, descriptor);
    if r.Ok? {
      assert probeMap.Contents()[id] == c && Describes(p, c);
      EmbeddedMapDescribes(p, annotated.visible, before, descriptor, c);
    }
  }

  /** The maps of `maps` but those in `todo`, each once. */
  ghost predicate Lists(cs: seq<ClassMap>, maps: map<int, ClassMap>, todo: set<int>) {
    && Maps.DistinctClasses(cs) && |cs| + |todo| == |maps.Keys|
    && (forall k :: 0 <= k < |cs| ==> cs[k].classId in maps && cs[k].classId !in todo && cs[k] == maps[cs[k].classId])
    && (forall id :: id in maps && id !in todo ==> maps[id] in cs)
  }

  lemma ListsOneMore(cs: seq<ClassMap>, maps: map<int, ClassMap>, todo: set<int>, id: int)
    requires Lists(cs, maps, todo) && id in todo && id in maps && maps[id].classId == id
    ensures Lists(cs + [maps[id]], maps, todo - {id})
  {
    var longer := cs + [maps[id]];
    forall k | k in maps && k !in todo - {id} ensures maps[k] in longer {
      if k == id {
        assert longer[|cs|] == maps[id];
      }
    }
  }

  method ListMaps(probeMap: ProbeMap) returns (cs: seq<ClassMap>)
    requires probeMap.Valid()
    ensures Lists(cs, probeMap.Contents(), {})
  {
    cs := [];
    var todo := probeMap.entries.Keys;
    assert probeMap.Contents().Keys == probeMap.entries.Keys;
    while todo != {}
      invariant todo <= probeMap.entries.Keys && Lists(cs, probeMap.Contents(), todo)
      decreases |todo|
    {
      hide Lists;
      ghost var _ := ElementOf(todo);
      var id :| id in todo;
      ListsOneMore(cs, probeMap.Contents(), todo, id);
      cs := cs + [probeMap.entries[id].Contents()];
      todo := todo - {id};
    }
  }

  /** The written probe map is a probe file of the project that has a map for each class it held. */
  method WriteMaps(probeMap: ProbeMap, ghost p: Project) returns (r: Result<seq<Byte>>)
    requires probeMap.Valid() && AllDescribe(p, probeMap.Contents())
    requires Fits(|probeMap.entries|, 4) && forall id :: id in probeMap.entries ==> Maps.IsClass(probeMap.Contents()[id])
    ensures r.Ok? ==>
      exists cs :: IsMapFile(r.value, p, cs) && forall id :: id in probeMap.entries ==> probeMap.Contents()[id] in cs
  {
    hide Maps.IsClass, Maps.FileBytes, Maps.WritableClasses, Describes, Fits;
    var cs := ListMaps(probeMap);
    assert |cs| == |probeMap.entries| by {
      assert probeMap.Contents().Keys == probeMap.entries.Keys;
    }
    r := Maps.Write(cs);
    if r.Ok? {
      assert IsMapFile(r.value, p, cs);
    }
  }

  // ---- Execution data ----

  lemma AsMapOneMore(rs: seq<Exec.ExecRecord>, r: Exec.ExecRecord)
    ensures Exec.AsMap(rs + [r]) == Exec.AsMap(rs)[r.classId := r]
  {
    assert (rs + [r])[..|rs|] == rs;
  }

  lemma PutBack(m: Exec.ExecData, todo: set<int>, id: int)
    requires id in m && id in todo
    ensures (m - todo)[id := m[id]] == m - (todo - {id})
  {
  }

  lemma AllTaken(m: Exec.ExecData)
    ensures m - m.Keys == map[] && m - {} == m
  {
  }

  /** The data of the store but those in `todo`, each once; `rs` are their values. */
  ghost predicate Holds(store: ExecutionDataStore, all: seq<ProbeData>, rs: seq<Exec.ExecRecord>, todo: set<int>)
    requires store.Valid()
    reads store, store.arrays
  {
    && |all| == |rs| && |all| + |todo| == |store.probes.Keys|
    && Exec.DistinctRecords(rs) && Exec.AsMap(rs) == Exec.ViewOf(store.Abstract()) - todo
    && forall k :: 0 <= k < |all| ==>
         && all[k].classId in store.probes && all[k].classId !in todo && all[k] == store.probes[all[k].classId]
         && rs[k] == ExecRecordOf(store, all[k].classId)
  }

  ghost function ExecRecordOf(store: ExecutionDataStore, id: int): Exec.ExecRecord
    requires store.Valid() && id in store.probes
    reads store, store.arrays
  {
    Exec.RecordOf(store.probes[id])
  }

  lemma HoldsOneMore(store: ExecutionDataStore, all: seq<ProbeData>, rs: seq<Exec.ExecRecord>, todo: set<int>, id: int)
    requires store.Valid() && Holds(store, all, rs, todo) && id in todo && id in store.probes
    ensures Holds(store, all + [store.probes[id]], rs + [ExecRecordOf(store, id)], todo - {id})
  {
    hide Exec.AsMap, Exec.ViewOf, Consistent, Data;
    var view, r := Exec.ViewOf(store.Abstract()), ExecRecordOf(store, id);
    Exec.KeysOfView(store.Abstract());
    assert view.Keys == store.probes.Keys && view[id] == r by { ViewIs(store, id); }
    AsMapOneMore(rs, r);
    PutBack(view, todo, id);
  }

  lemma ViewIs(store: ExecutionDataStore, id: int)
    requires store.Valid() && id in store.probes
    ensures
      var view := Exec.ViewOf(store.Abstract());
      view.Keys == store.probes.Keys && id in view && view[id] == ExecRecordOf(store, id)
  {
    Exec.KeysOfView(store.Abstract());
    Exec.ViewAt(store.Abstract(), id);
  }

  method ListData(store: ExecutionDataStore) returns (all: seq<ProbeData>, ghost rs: seq<Exec.ExecRecord>)
    requires store.Valid()
    ensures Holds(store, all, rs, {})
  {
    all, rs := [], [];
    var todo := store.probes.Keys;
    NothingHeld(store);
    while todo != {}
      invariant todo <= store.probes.Keys && Holds(store, all, rs, todo)
      decreases |todo|
    {
      hide Holds;
      ghost var _ := ElementOf(todo);
      var id :| id in todo;
      HoldsOneMore(store, all, rs, todo, id);
      all, rs := all + [store.probes[id]], rs + [ExecRecordOf(store, id)];
      todo := todo - {id};
    }
  }

  lemma NothingHeld(store: ExecutionDataStore)
    requires store.Valid()
    ensures Holds(store, [], [], store.probes.Keys)
  {
    hide Exec.ViewOf, Exec.AsMap, Consistent, Data;
    Exec.KeysOfView(store.Abstract());
    AllTaken(Exec.ViewOf(store.Abstract()));
    assert Exec.ViewOf(store.Abstract()).Keys == store.probes.Keys;
    NothingMapped();
  }

  lemma NothingMapped()
    ensures Exec.AsMap([]) == map[]
  {
  }

  /** What the writer is given: the records of the store in some order. */
  lemma HeldIsWhole(store: ExecutionDataStore, all: seq<ProbeData>, rs: seq<Exec.ExecRecord>)
    requires store.Valid() && Holds(store, all, rs, {}) && Fits(|store.probes|, 4)
    requires forall id :: id in store.probes ==> Exec.IsRecord(Exec.RecordOf(store.probes[id]))
    ensures Exec.RecordsOf(all) == rs && Exec.AreRecords(rs) && Exec.DistinctRecords(rs)
    ensures Exec.AsMap(rs) == Exec.ViewOf(store.Abstract())
  {
    hide Exec.IsRecord, Exec.AsMap, Exec.ViewOf, Consistent, Data, Fits, Exec.DistinctRecords;
    AllTaken(Exec.ViewOf(store.Abstract()));
    assert |all| == |store.probes|;
    assert Exec.RecordsOf(all) == rs;
  }

  lemma WrittenIsExecFile<W>(rs: seq<Exec.ExecRecord>, p: Project, s: Session<W>)
    requires Exec.AreRecords(rs) && Exec.DistinctRecords(rs) && Exec.WritableRecords(rs)
    requires Exec.AsMap(rs) == Exec.ViewOf(EndOf(p, s).store)
    ensures IsExecFile(Exec.FileBytes(rs), p, s)
  {
    hide Exec.FileBytes, Exec.AreRecords, Exec.DistinctRecords, Exec.WritableRecords, Exec.AsMap, Exec.ViewOf, EndOf;
  }

  /** The written store is an execution file of the process whose store it is. */
  method WriteData<W>(store: ExecutionDataStore, ghost p: Project, ghost s: Session<W>) returns (r: Result<seq<Byte>>)
    requires store.Valid() && store.Abstract() == EndOf(p, s).store
    requires Fits(|store.probes|, 4)
    requires forall id :: id in store.probes ==> Exec.IsRecord(Exec.RecordOf(store.probes[id]))
    ensures r.Ok? ==> IsExecFile(r.value, p, s)
  {
    hide Exec.IsRecord, Exec.FileBytes, Exec.AreRecords, Exec.WritableRecords, Exec.DistinctRecords, Exec.AsMap, Exec.ViewOf,
         EndOf, Consistent, Data, Fits, Holds, IsExecFile, JvmRun;
    var all, rs := ListData(store);
    HeldIsWhole(store, all, rs);
    r := Exec.Write(all);
    if r.Ok? {
      WrittenIsExecFile(rs, p, s);
    }
  }
}
