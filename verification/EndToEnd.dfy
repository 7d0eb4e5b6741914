/**
 * The whole path: test processes write their arrays to files, the report task joins the files, and
 * the analyser counts. The figures are about the original program: what its runs passed.
 */
module EndToEnd {
  import opened Analyzer
  import opened CoverageLines
  import opened Bytecode
  import opened ByteStream
  import opened ClassInstrumenter
  import opened ClassRuns
  import opened ClassTransformer
  import opened ExecutionMerge
  import opened Interleaving
  import opened Lockstep
  import opened ProbeLayout
  import opened ProbeMap
  import opened ProbeMerge
  import opened ReportTask
  import opened Sets
  import opened TestRun
  import opened Text
  import Exec = ExecutionFile
  import Maps = ProbeFile

  // ---- Sites and their entries ----

  function SitesOf(p: Project, id: int): (sites: seq<Passed>)
    requires id in p.classes
    ensures |sites| == TotalOf(p, id)
  {
    ClassSites(p.config, p.classes[id].methods)
  }

  function EntriesOfClass(p: Project, id: int): (es: seq<ProbeEntry>)
    requires id in p.classes
    ensures |es| == TotalOf(p, id)
  {
    ClassEntries(p.config, p.classes[id].methods)
  }

  predicate IsSiteOf(cls: ClassNode, q: Passed) {
    q.index < |cls.methods| && q.site.pc < |cls.methods[q.index].body.code|
  }

  /** The line a site belongs to: the last marker at or before it in its method. */
  function LineOf(cls: ClassNode, q: Passed): int
    requires IsSiteOf(cls, q)
  {
    CurrentLine(cls.methods[q.index].body.code[..q.site.pc + 1])
  }

  /** An arm of a decision, not a line marker. */
  predicate IsEdge(cls: ClassNode, q: Passed)
    requires IsSiteOf(cls, q)
  {
    !cls.methods[q.index].body.code[q.site.pc].Line?
  }

  /** Entry `n` of a class describes its site `n`. */
  lemma EntryOfSite(p: Project, id: int, n: nat)
    requires id in p.classes && n < TotalOf(p, id)
    ensures
      var cls, e, q := p.classes[id], EntriesOfClass(p, id)[n], SitesOf(p, id)[n];
      && IsSiteOf(cls, q)
      && e.probeIndex == n && e.lineNumber == LineOf(cls, q) && (e.kind == BRANCH <==> IsEdge(cls, q))
  {
    hide Sites, ClassEntries, ProbeTotal, ClassSites;
    var config, methods := p.config, p.classes[id].methods;
    var k, s := OwnerOfIndex(config, methods, n);
    EntriesAreNumbered(config, methods, k, s);
    ClassSiteIs(config, methods, k, s);
    SitesOfProbed(config, methods[k], s);
  }

  lemma SitesOfProbed(config: AgentConfig, m: MethodNode, s: nat)
    requires s < |MethodSites(config, m)|
    ensures MethodSites(config, m) == Sites(m.body.code)
  {
    hide Sites;
  }

  /** No site is listed twice. */
  lemma SitesDiffer(p: Project, id: int, a: nat, b: nat)
    requires id in p.classes && a < TotalOf(p, id) && b < TotalOf(p, id) && SitesOf(p, id)[a] == SitesOf(p, id)[b]
    ensures a == b
  {
    hide Sites, ProbeTotal, ClassSites;
    var config, methods := p.config, p.classes[id].methods;
    var k, s := OwnerOfIndex(config, methods, a);
    var l, t := OwnerOfIndex(config, methods, b);
    ClassSiteIs(config, methods, k, s);
    ClassSiteIs(config, methods, l, t);
    SitesOfProbed(config, methods[k], s);
    SitesOfProbed(config, methods[l], t);
    SitesInRange(methods[k].body.code, s);
    SitesInRange(methods[l].body.code, t);
  }

  // ---- Test processes ----

  datatype Session<!W> = Session(sem: Semantics<W>, world: W, events: seq<JvmEvent>)

  function EndOf<W>(p: Project, s: Session<W>): (j: Jvm<W>)
    ensures Sound(p, j)
  {
    JvmRun(s.sem, p, s.world, s.events)
  }

  /** The class's initializer has registered it with the store. */
  predicate Loaded<W>(p: Project, s: Session<W>, id: int) {
    id in EndOf(p, s).store.entries
  }

  /** Nothing in the process stores into a null field. */
  ghost predicate IsFaultless<W>(p: Project, s: Session<W>) {
    FaultlessTo(s.sem, p, s.world, s.events, |s.events|)
  }

  /** The sites of a class that the original process passes. */
  function TakenIn<W>(p: Project, s: Session<W>, id: int): set<Passed>
    requires id in p.classes
  {
    TakenBy(s.sem, p, s.world, s.events, id, |s.events|)
  }

  /** Site `site` of class `id`. */
  datatype ClassSite = ClassSite(id: int, site: Passed)

  /** Some process loaded the class. */
  ghost predicate EverLoaded<W>(p: Project, sessions: seq<Session<W>>, id: int) {
    exists k :: 0 <= k < |sessions| && Loaded(p, sessions[k], id)
  }

  /** Some original process passed the site. */
  ghost predicate EverTaken<W>(p: Project, sessions: seq<Session<W>>, x: ClassSite) {
    x.id in p.classes && exists k :: 0 <= k < |sessions| && x.site in TakenIn(p, sessions[k], x.id)
  }

  /** Activation `activation` of class `id` in process `session`. */
  datatype Waiter = Waiter(session: nat, id: int, activation: nat)

  function ActivationsIn<W>(p: Project, s: Session<W>, id: int): seq<Activation> {
    ActivationsOf(EndOf(p, s).activations, id)
  }

  /** The activation stands before the store of the site's probe when its process ends. */
  ghost predicate Awaits<W>(p: Project, sessions: seq<Session<W>>, w: Waiter, x: ClassSite) {
    && x.id in p.classes && w.id == x.id
    && w.session < |sessions| && w.activation < |ActivationsIn(p, sessions[w.session], x.id)|
    && exists n: nat :: n < TotalOf(p, x.id) && SitesOf(p, x.id)[n] == x.site
         && OnTheWay(BodiesOf(p, x.id), ActivationsIn(p, sessions[w.session], x.id)[w.activation], n)
  }

  ghost predicate EverAwaited<W>(p: Project, sessions: seq<Session<W>>, x: ClassSite) {
    exists w :: Awaits(p, sessions, w, x)
  }

  // ---- Files ----

  /** An execution file of the process: its store, the records in any order. */
  ghost predicate IsExecFile<W>(bytes: seq<Byte>, p: Project, s: Session<W>) {
    exists rs: seq<Exec.ExecRecord> ::
      && Exec.AreRecords(rs) && Exec.WritableRecords(rs) && Exec.DistinctRecords(rs)
      && Exec.AsMap(rs) == Exec.ViewOf(EndOf(p, s).store) && bytes == Exec.FileBytes(rs)
  }

  /** A map of one of the project's classes, whatever number of times its entries were listed. */
  ghost predicate Describes(p: Project, c: ClassMap) {
    && c.classId in p.classes
    && Header(Maps.Normal(c)) == Maps.Normal(ClassMap(c.classId, p.classes[c.classId].name, p.classes[c.classId].sourceFile, []))
    && (forall e :: e in c.probes <==> e in EntriesOfClass(p, c.classId))
  }

  /** A probe file with maps of the project's classes. */
  ghost predicate IsMapFile(bytes: seq<Byte>, p: Project, cs: seq<ClassMap>) {
    && Maps.AreClasses(cs) && Maps.WritableClasses(cs) && Fits(|cs|, 4) && Maps.DistinctClasses(cs)
    && (forall c :: c in cs ==> Describes(p, c))
    && bytes == Maps.FileBytes(cs)
  }

  /** A file that cannot be read, or one with maps of the project. */
  ghost predicate IsProbeFile(bytes: seq<Byte>, p: Project) {
    Maps.ParseFile(bytes).Failed? || exists cs :: IsMapFile(bytes, p, cs)
  }

  /** Some probe file has a map of the class. */
  ghost predicate IsMapped(probeFiles: seq<seq<Byte>>, p: Project, id: int) {
    exists k, cs :: 0 <= k < |probeFiles| && IsMapFile(probeFiles[k], p, cs) && exists c: ClassMap :: c in cs && c.classId == id
  }

  // ---- The joined arrays ----

  lemma ExecFileParses<W>(bytes: seq<Byte>, p: Project, s: Session<W>)
    requires IsExecFile(bytes, p, s)
    ensures Exec.ParseFile(bytes) == Parsed(Exec.ViewOf(EndOf(p, s).store), [])
  {
    hide Exec.ParseFile, Exec.FileBytes, Exec.AreRecords, Exec.WritableRecords, Exec.AsMap, Exec.ViewOf, JvmRun;
    var rs: seq<Exec.ExecRecord> :|
      && Exec.AreRecords(rs) && Exec.WritableRecords(rs) && Exec.DistinctRecords(rs)
      && Exec.AsMap(rs) == Exec.ViewOf(EndOf(p, s).store) && bytes == Exec.FileBytes(rs);
    Exec.FileRoundTrip(rs);
  }

  /** The element for the site is true. */
  ghost predicate Shows(p: Project, arrays: Arrays, x: ClassSite) {
    && x.id in p.classes && x.id in arrays
    && exists n :: 0 <= n < TotalOf(p, x.id) && n < |arrays[x.id]| && SitesOf(p, x.id)[n] == x.site && arrays[x.id][n]
  }

  /** What one process's store says of a class: `k` is the number of the process. */
  ghost predicate StoreTells<W>(p: Project, sessions: seq<Session<W>>, k: nat, id: int, m: Exec.ExecData)
    requires k < |sessions|
  {
    && (id in m <==> Loaded(p, sessions[k], id))
    && (id in m ==> id in p.classes && |m[id].probes| == TotalOf(p, id))
    && (id in p.classes ==> forall q :: q in SitesOf(p, id) ==>
          && (Shows(p, ArraysOf(m), ClassSite(id, q)) ==> q in TakenIn(p, sessions[k], id))
          && (q in TakenIn(p, sessions[k], id) ==>
                Shows(p, ArraysOf(m), ClassSite(id, q)) || EverAwaited(p, sessions, ClassSite(id, q))))
  }

  /** Each site has one element. */
  lemma ShowsAt(p: Project, arrays: Arrays, id: int, n: nat)
    requires id in p.classes && n < TotalOf(p, id) && id in arrays && |arrays[id]| == TotalOf(p, id)
    ensures Shows(p, arrays, ClassSite(id, SitesOf(p, id)[n])) <==> arrays[id][n]
  {
    hide SitesOf, TotalOf;
    if Shows(p, arrays, ClassSite(id, SitesOf(p, id)[n])) {
      var k :| 0 <= k < TotalOf(p, id) && k < |arrays[id]| && SitesOf(p, id)[k] == SitesOf(p, id)[n] && arrays[id][k];
      SitesDiffer(p, id, k, n);
    }
  }

  lemma ProcessStoreTells<W>(p: Project, sessions: seq<Session<W>>, k: nat, id: int)
    requires ValidProject(p) && k < |sessions| && IsFaultless(p, sessions[k])
    ensures StoreTells(p, sessions, k, id, Exec.ViewOf(EndOf(p, sessions[k]).store))
  {
    hide JvmRun, Exec.ViewOf, TakenBy, ClassSites, ProbeTotal, SameBehaviour, ProgramOf, WellFormedClass, RewriteAll, OnTheWay, Shows, ValidProject;
    var s := sessions[k];
    var j := EndOf(p, s);
    Exec.KeysOfView(j.store);
    Exec.ViewAt(j.store, id);
    if id in p.classes {
      ProcessTellsSites(s.sem, p, s.world, s.events);
      assert ClassTells(s.sem, p, s.world, s.events, id);
      forall q | q in SitesOf(p, id)
        ensures Shows(p, ArraysOf(Exec.ViewOf(j.store)), ClassSite(id, q)) ==> q in TakenIn(p, s, id)
        ensures q in TakenIn(p, s, id) ==>
          Shows(p, ArraysOf(Exec.ViewOf(j.store)), ClassSite(id, q)) || EverAwaited(p, sessions, ClassSite(id, q))
      {
        var n :| 0 <= n < TotalOf(p, id) && SitesOf(p, id)[n] == q;
        StoreTellsAt(p, sessions, k, id, n);
      }
    }
  }

  lemma StoreTellsAt<W>(p: Project, sessions: seq<Session<W>>, k: nat, id: int, n: nat)
    requires k < |sessions| && id in p.classes && n < TotalOf(p, id)
    requires ClassTells(sessions[k].sem, p, sessions[k].world, sessions[k].events, id)
    ensures
      var q, arrays := SitesOf(p, id)[n], ArraysOf(Exec.ViewOf(EndOf(p, sessions[k]).store));
      && (Shows(p, arrays, ClassSite(id, q)) ==> q in TakenIn(p, sessions[k], id))
      && (q in TakenIn(p, sessions[k], id) ==> Shows(p, arrays, ClassSite(id, q)) || EverAwaited(p, sessions, ClassSite(id, q)))
  {
    hide JvmRun, Exec.ViewOf, TakenBy, ClassSites, ProbeTotal, SameBehaviour, ProgramOf, RewriteAll, OnTheWay, Shows;
    var s, q := sessions[k], SitesOf(p, id)[n];
    var j := EndOf(p, s);
    Exec.KeysOfView(j.store);
    Exec.ViewAt(j.store, id);
    if id in j.store.entries {
      ShowsAt(p, ArraysOf(Exec.ViewOf(j.store)), id, n);
    } else {
      assert !Shows(p, ArraysOf(Exec.ViewOf(j.store)), ClassSite(id, q)) by { NotShown(p, ArraysOf(Exec.ViewOf(j.store)), ClassSite(id, q)); }
    }
    if IsAwaited(BodiesOf(p, id), ActivationsIn(p, s, id), n) {
      var a :| 0 <= a < |ActivationsIn(p, s, id)| && OnTheWay(BodiesOf(p, id), ActivationsIn(p, s, id)[a], n);
      assert Awaits(p, sessions, Waiter(k, id, a), ClassSite(id, q));
    }
  }

  lemma NotShown(p: Project, arrays: Arrays, x: ClassSite)
    requires x.id !in arrays
    ensures !Shows(p, arrays, x)
  {
  }

  ghost predicate FilesTell<W>(p: Project, sessions: seq<Session<W>>, files: seq<Exec.ExecData>) {
    && |files| == |sessions|
    && forall k: nat, id :: k < |files| ==> StoreTells(p, sessions, k, id, files[k])
  }

  /**
   * The joined arrays: a class some process loaded, an element for each of its sites, true only where
   * some process passed it, and false there only where an activation was about to set it.
   */
  ghost predicate ArrayTells<W>(p: Project, sessions: seq<Session<W>>, arrays: Arrays, id: int) {
    && (id in arrays <==> EverLoaded(p, sessions, id))
    && (id in arrays ==> id in p.classes && |arrays[id]| == TotalOf(p, id))
    && (id in p.classes ==> forall q :: q in SitesOf(p, id) ==> SiteTells(p, sessions, arrays, ClassSite(id, q)))
  }

  ghost predicate SiteTells<W>(p: Project, sessions: seq<Session<W>>, arrays: Arrays, x: ClassSite) {
    && (Shows(p, arrays, x) ==> EverTaken(p, sessions, x))
    && (EverTaken(p, sessions, x) ==> Shows(p, arrays, x) || EverAwaited(p, sessions, x))
  }

  lemma LoadedInFiles<W>(p: Project, sessions: seq<Session<W>>, files: seq<Exec.ExecData>, id: int)
    requires FilesTell(p, sessions, files)
    ensures SomeFileHas(SetOf(files), id) <==> EverLoaded(p, sessions, id)
  {
    hide Loaded, SitesOf, TakenIn, TotalOf, Shows, EverAwaited;
    if f: Exec.ExecData :| f in SetOf(files) && id in f {
      var k :| 0 <= k < |files| && files[k] == f;
      assert StoreTells(p, sessions, k, id, files[k]);
    }
    if k :| 0 <= k < |sessions| && Loaded(p, sessions[k], id) {
      assert StoreTells(p, sessions, k, id, files[k]);
      assert files[k] in SetOf(files);
    }
  }

  /** The joined element is true exactly when some file's is. */
  lemma JoinedShows<W>(p: Project, sessions: seq<Session<W>>, files: seq<Exec.ExecData>, x: ClassSite)
    requires FilesTell(p, sessions, files) && x.id in p.classes && x.site in SitesOf(p, x.id)
    requires x.id in MergedAll(files) ==> |MergedAll(files)[x.id]| == TotalOf(p, x.id)
    ensures Shows(p, MergedAll(files), x) <==> exists k :: 0 <= k < |files| && Shows(p, ArraysOf(files[k]), x)
  {
    hide MergedAll, SitesOf, TotalOf, Loaded, TakenIn, EverAwaited, Shows, FilesTell, SetOf;
    var arrays := MergedAll(files);
    MergedAllIsJoin(files);
    var n :| 0 <= n < TotalOf(p, x.id) && SitesOf(p, x.id)[n] == x.site;
    if Shows(p, arrays, x) {
      if x.id !in arrays { NotShown(p, arrays, x); }
      ShowsAt(p, arrays, x.id, n);
      assert SomeFileHits(SetOf(files), x.id, n);
      var f: Exec.ExecData :| f in SetOf(files) && x.id in f && n < |f[x.id].probes| && f[x.id].probes[n];
      FileIsListed(files, f);
      var k :| 0 <= k < |files| && files[k] == f;
      FileLength(p, sessions, files, k, x.id);
      ShowsAt(p, ArraysOf(files[k]), x.id, n);
    }
    if k :| 0 <= k < |files| && Shows(p, ArraysOf(files[k]), x) {
      if x.id !in ArraysOf(files[k]) { NotShown(p, ArraysOf(files[k]), x); }
      FileLength(p, sessions, files, k, x.id);
      ShowsAt(p, ArraysOf(files[k]), x.id, n);
      FileIsOne(files, k);
      assert SomeFileHits(SetOf(files), x.id, n) && SomeFileHas(SetOf(files), x.id);
      ShowsAt(p, arrays, x.id, n);
    }
  }

  lemma FileLength<W>(p: Project, sessions: seq<Session<W>>, files: seq<Exec.ExecData>, k: nat, id: int)
    requires FilesTell(p, sessions, files) && k < |files| && id in files[k]
    ensures id in p.classes && |files[k][id].probes| == TotalOf(p, id)
  {
    assert StoreTells(p, sessions, k, id, files[k]);
  }

  lemma FileIsOne(files: seq<Exec.ExecData>, k: nat)
    requires k < |files|
    ensures files[k] in SetOf(files)
  {
  }

  lemma JoinedArraysTell<W>(p: Project, sessions: seq<Session<W>>, files: seq<Exec.ExecData>, id: int)
    requires FilesTell(p, sessions, files)
    ensures ArrayTells(p, sessions, MergedAll(files), id)
  {
    hide MergedAll, EverLoaded, EverAwaited, SomeFileHits, TakenIn, SitesOf, TotalOf, SetOf, Shows, Loaded;
    var arrays := MergedAll(files);
    MergedAllIsJoin(files);
    LoadedInFiles(p, sessions, files, id);
    assert id in arrays <==> SomeFileHas(SetOf(files), id);
    if id in arrays {
      assert LongestIs(SetOf(files), id, |arrays[id]|);
      var f: Exec.ExecData :| f in SetOf(files) && id in f && |f[id].probes| == |arrays[id]|;
      FileIsListed(files, f);
      var k :| 0 <= k < |files| && files[k] == f;
      FileLength(p, sessions, files, k, id);
    }
    if id in p.classes {
      forall q | q in SitesOf(p, id) ensures SiteTells(p, sessions, arrays, ClassSite(id, q)) {
        var x := ClassSite(id, q);
        JoinedShows(p, sessions, files, x);
        if k :| 0 <= k < |files| && Shows(p, ArraysOf(files[k]), x) {
          assert StoreTells(p, sessions, k, id, files[k]);
        }
        if k :| 0 <= k < |sessions| && q in TakenIn(p, sessions[k], id) {
          assert StoreTells(p, sessions, k, id, files[k]);
        }
      }
    }
  }

  lemma FileIsListed(files: seq<Exec.ExecData>, f: Exec.ExecData)
    requires f in SetOf(files)
    ensures exists k :: 0 <= k < |files| && files[k] == f
  {
  }

  // ---- The joined maps ----

  /** The merged map of a class: its entries, each once, in some order. */
  ghost predicate MapTells(p: Project, c: ClassMap, id: int) {
    && id in p.classes && c.classId == id && |c.probes| == TotalOf(p, id)
    && PathOf(c) == PathOfClass(p, id)
    && DistinctIndices(c.probes)
    && (forall k :: 0 <= k < |c.probes| ==> IsEntryOf(p, id, c.probes[k]))
    && (forall n :: 0 <= n < TotalOf(p, id) ==> HasIndex(c.probes, n))
  }

  ghost predicate IsEntryOf(p: Project, id: int, e: ProbeEntry)
    requires id in p.classes
  {
    0 <= e.probeIndex < TotalOf(p, id) && e == EntriesOfClass(p, id)[e.probeIndex]
  }

  /** An empty source file name counts as none, as the probe file reader has it. */
  function PathOfClass(p: Project, id: int): Text
    requires id in p.classes
  {
    PathOf(Maps.Normal(ClassMap(id, p.classes[id].name, p.classes[id].sourceFile, [])))
  }

  /** A readable probe file as read. */
  ghost predicate MapsTell(p: Project, f: ClassMaps) {
    forall id :: id in f ==>
      && id in p.classes
      && Header(f[id]) == Maps.Normal(ClassMap(id, p.classes[id].name, p.classes[id].sourceFile, []))
      && forall e :: e in f[id].probes <==> IsEntryOf(p, id, e)
  }

  lemma EntriesKnowTheirIndex(p: Project, id: int, e: ProbeEntry)
    requires id in p.classes
    ensures e in EntriesOfClass(p, id) <==> IsEntryOf(p, id, e)
  {
    hide ClassEntries, ProbeTotal;
    if e in EntriesOfClass(p, id) {
      var n :| 0 <= n < TotalOf(p, id) && EntriesOfClass(p, id)[n] == e;
      EntryOfSite(p, id, n);
    }
  }

  lemma ProbeFileTells(bytes: seq<Byte>, p: Project)
    requires IsProbeFile(bytes, p) && Maps.ParseFile(bytes).Parsed?
    ensures MapsTell(p, Maps.ParseFile(bytes).value)
    ensures forall cs: seq<ClassMap> :: IsMapFile(bytes, p, cs) ==> Maps.ParseFile(bytes) == Parsed(Maps.AsMaps(cs), [])
  {
    hide Maps.ParseFile, Maps.FileBytes, Maps.AreClasses, Maps.WritableClasses, Fits, Maps.AsMaps, IsEntryOf, EntriesOfClass;
    forall cs: seq<ClassMap> | IsMapFile(bytes, p, cs) ensures Maps.ParseFile(bytes) == Parsed(Maps.AsMaps(cs), []) {
      Maps.FileRoundTrip(cs);
    }
    var cs: seq<ClassMap> :| IsMapFile(bytes, p, cs);
    Maps.AsMapsHolds(cs);
    var f := Maps.AsMaps(cs);
    forall id | id in f
      ensures id in p.classes
      ensures Header(f[id]) == Maps.Normal(ClassMap(id, p.classes[id].name, p.classes[id].sourceFile, []))
      ensures forall e :: e in f[id].probes <==> IsEntryOf(p, id, e)
    {
      var i :| 0 <= i < |cs| && cs[i].classId == id;
      assert f[id] == Maps.Normal(cs[i]) && Describes(p, cs[i]);
      forall e { EntriesKnowTheirIndex(p, id, e); }
    }
  }

  ghost predicate AllTell(p: Project, files: set<ClassMaps>) {
    forall f: ClassMaps :: f in files ==> MapsTell(p, f)
  }

  lemma ReadableTell(probeFiles: seq<seq<Byte>>, p: Project)
    requires forall k :: 0 <= k < |probeFiles| ==> IsProbeFile(probeFiles[k], p)
    ensures AllTell(p, Readable(probeFiles))
  {
    hide Maps.ParseFile, IsProbeFile, MapsTell;
    forall f: ClassMaps | f in Readable(probeFiles) ensures MapsTell(p, f) {
      var k :| 0 <= k < |probeFiles| && Maps.ParseFile(probeFiles[k]).Parsed? && Maps.ParseFile(probeFiles[k]).value == f;
      ProbeFileTells(probeFiles[k], p);
    }
  }

  lemma OccursAsEntry(p: Project, files: set<ClassMaps>, id: int, e: ProbeEntry)
    requires AllTell(p, files) && SomeFileMaps(files, id)
    ensures id in p.classes && (Occurs(files, id, e) <==> IsEntryOf(p, id, e))
  {
    hide IsEntryOf;
    var f: ClassMaps :| f in files && id in f;
    assert MapsTell(p, f);
    if Occurs(files, id, e) {
      var g: ClassMaps :| g in files && id in g && e in g[id].probes;
      assert MapsTell(p, g);
    }
  }

  lemma MapsAgree(p: Project, files: set<ClassMaps>, id: int)
    requires AllTell(p, files) && SomeFileMaps(files, id)
    ensures Agreed(files, id)
  {
    hide Meaning, Occurs, EntriesOfClass, TotalOf;
    forall e, g | Occurs(files, id, e) && Occurs(files, id, g) && e.probeIndex == g.probeIndex ensures Meaning(e) == Meaning(g) {
      OccursAsEntry(p, files, id, e);
      OccursAsEntry(p, files, id, g);
    }
  }

  lemma MergedMapsTell(p: Project, files: set<ClassMaps>, all: ClassMaps, id: int)
    requires AllTell(p, files) && IsMergeOf(all, files)
    ensures id in all <==> SomeFileMaps(files, id)
    ensures id in all ==> MapTells(p, all[id], id)
  {
    hide Meaning, Agreed, SomeFileMaps, PathOf, MapsTell, Maps.Normal, Occurs;
    if SomeFileMaps(files, id) {
      MapsAgree(p, files, id);
    }
    if id in all {
      var c := all[id];
      assert SomeFileMaps(files, id);
      var f: ClassMaps :| f in files && id in f && Header(c) == Header(f[id]);
      HeaderTells(p, f, c, id);
      forall k | 0 <= k < |c.probes| ensures IsEntryOf(p, id, c.probes[k]) {
        assert Occurs(files, id, c.probes[k]);
        OccursAsEntry(p, files, id, c.probes[k]);
      }
      forall n | 0 <= n < TotalOf(p, id) ensures HasIndex(c.probes, n) {
        IndexOccurs(p, files, id, n);
        assert Represented(c.probes, EntriesOfClass(p, id)[n]);
      }
      CountMapped(p, c, id);
    }
  }

  lemma IndexOccurs(p: Project, files: set<ClassMaps>, id: int, n: nat)
    requires AllTell(p, files) && SomeFileMaps(files, id) && id in p.classes && n < TotalOf(p, id)
    ensures Occurs(files, id, EntriesOfClass(p, id)[n]) && EntriesOfClass(p, id)[n].probeIndex == n
  {
    hide AllTell, SomeFileMaps, Occurs, ClassEntries, ProbeTotal, ClassSites;
    EntryOfSite(p, id, n);
    OccursAsEntry(p, files, id, EntriesOfClass(p, id)[n]);
  }

  lemma HeaderTells(p: Project, f: ClassMaps, c: ClassMap, id: int)
    requires MapsTell(p, f) && id in f && Header(c) == Header(f[id])
    ensures id in p.classes && c.classId == id && PathOf(c) == PathOfClass(p, id)
  {
    hide PackageOf, BeforeDollar, IsEntryOf;
    var d := Maps.Normal(ClassMap(id, p.classes[id].name, p.classes[id].sourceFile, []));
    assert Header(c) == d;
    assert c.className == Header(c).className && c.sourceFile == Header(c).sourceFile && c.classId == Header(c).classId;
  }

  lemma CountMapped(p: Project, c: ClassMap, id: int)
    requires id in p.classes && DistinctIndices(c.probes)
    requires forall k :: 0 <= k < |c.probes| ==> IsEntryOf(p, id, c.probes[k])
    requires forall n :: 0 <= n < TotalOf(p, id) ==> HasIndex(c.probes, n)
    ensures |c.probes| == TotalOf(p, id)
  {
    hide TotalOf, EntriesOfClass;
    CountIndices(c.probes);
    forall n ensures n in Indices(c.probes) <==> n in UpTo(TotalOf(p, id)) {
      if 0 <= n < TotalOf(p, id) {
        assert HasIndex(c.probes, n);
      }
    }
    assert Indices(c.probes) == UpTo(TotalOf(p, id));
  }

  // ---- What the analyser is given ----

  /** The measured classes are those some process loaded; their maps and arrays speak of their sites. */
  ghost predicate InputTells<W>(p: Project, sessions: seq<Session<W>>, input: Input) {
    && (forall id :: IsMeasured(input, id) <==> EverLoaded(p, sessions, id))
    && (forall id :: IsMeasured(input, id) ==>
          MapTells(p, input.maps[id], id) && ArrayTells(p, sessions, input.arrays, id))
  }

  lemma MappedIsMerged(p: Project, probeFiles: seq<seq<Byte>>, id: int)
    requires (forall k :: 0 <= k < |probeFiles| ==> IsProbeFile(probeFiles[k], p)) && IsMapped(probeFiles, p, id)
    ensures SomeFileMaps(Readable(probeFiles), id)
  {
    hide Maps.ParseFile, IsProbeFile, IsMapFile, MapsTell, Maps.AsMaps;
    var k, cs :| 0 <= k < |probeFiles| && IsMapFile(probeFiles[k], p, cs) && exists c: ClassMap :: c in cs && c.classId == id;
    MapFileHas(probeFiles[k], p, cs, id);
    assert Maps.ParseFile(probeFiles[k]).value in Readable(probeFiles);
  }

  lemma MapFileHas(bytes: seq<Byte>, p: Project, cs: seq<ClassMap>, id: int)
    requires IsMapFile(bytes, p, cs) && exists c: ClassMap :: c in cs && c.classId == id
    ensures Maps.ParseFile(bytes).Parsed? && id in Maps.ParseFile(bytes).value
  {
    hide Maps.ParseFile, Maps.FileBytes, Maps.AreClasses, Maps.WritableClasses, Maps.AsMaps, Describes, Fits;
    Maps.FileRoundTrip(cs);
    Maps.AsMapsHolds(cs);
    var c: ClassMap :| c in cs && c.classId == id;
    var i :| 0 <= i < |cs| && cs[i] == c;
  }

  lemma JoinedInputTells<W>(p: Project, sessions: seq<Session<W>>, files: seq<Exec.ExecData>, probeFiles: seq<seq<Byte>>, input: Input, all: ClassMaps)
    requires FilesTell(p, sessions, files) && forall k :: 0 <= k < |probeFiles| ==> IsProbeFile(probeFiles[k], p)
    requires forall id :: EverLoaded(p, sessions, id) ==> IsMapped(probeFiles, p, id)
    requires input.arrays == MergedAll(files)
    requires IsMergeOf(all, Readable(probeFiles)) && input.maps == WithoutStale(all, input.arrays)
    ensures InputTells(p, sessions, input)
  {
    hide FilesTell, IsProbeFile, IsMapped, MergedAll, IsMergeOf, Readable, EverLoaded, SiteTells, AllTell, SomeFileMaps, TotalOf, SitesOf, PathOf, PathOfClass;
    ReadableTell(probeFiles, p);
    forall id
      ensures IsMeasured(input, id) <==> EverLoaded(p, sessions, id)
      ensures IsMeasured(input, id) ==> MapTells(p, input.maps[id], id) && ArrayTells(p, sessions, input.arrays, id)
    {
      JoinedArraysTell(p, sessions, files, id);
      MergedMapsTell(p, Readable(probeFiles), all, id);
      if EverLoaded(p, sessions, id) {
        MappedIsMerged(p, probeFiles, id);
        assert id in all && id in input.arrays && !IsStale(all, input.arrays, id);
      }
    }
  }

  // ---- Positions and sites ----

  function SiteAt(p: Project, input: Input, q: Position): ClassSite {
    if IsPosition(input, q) && q.classId in p.classes && 0 <= EntryAt(input, q).probeIndex < TotalOf(p, q.classId) then
      ClassSite(q.classId, SitesOf(p, q.classId)[EntryAt(input, q).probeIndex])
    else ClassSite(q.classId, Passed(0, Site(0, q.k)))
  }

  /** A site of a class that some process loaded. */
  ghost predicate IsKnown<W>(p: Project, sessions: seq<Session<W>>, x: ClassSite) {
    && x.id in p.classes && EverLoaded(p, sessions, x.id) && x.site in SitesOf(p, x.id)
    && IsSiteOf(p.classes[x.id], x.site)
  }

  ghost predicate PositionTells<W>(p: Project, sessions: seq<Session<W>>, input: Input, q: Position)
    requires IsPosition(input, q)
  {
    var x, e := SiteAt(p, input, q), EntryAt(input, q);
    && x.id == q.classId && IsKnown(p, sessions, x)
    && PathOf(input.maps[x.id]) == PathOfClass(p, x.id)
    && e.probeIndex >= 0
    && e.lineNumber == LineOf(p.classes[x.id], x.site)
    && (e.kind == BRANCH <==> IsEdge(p.classes[x.id], x.site))
    && (IsHit(e, input.arrays[x.id]) <==> Shows(p, input.arrays, x))
    && SiteTells(p, sessions, input.arrays, x)
  }

  lemma PositionIsSite<W>(p: Project, sessions: seq<Session<W>>, input: Input, q: Position)
    requires InputTells(p, sessions, input) && IsPosition(input, q)
    ensures PositionTells(p, sessions, input, q)
  {
    hide ClassSites, ClassEntries, ProbeTotal, EverLoaded, SiteTells, Shows, PathOf, PathOfClass, LineOf, IsEdge, IsSiteOf, HasIndex;
    var id, e := q.classId, EntryAt(input, q);
    assert IsMeasured(input, id);
    assert IsEntryOf(p, id, e);
    EntryOfSite(p, id, e.probeIndex);
    ShowsAt(p, input.arrays, id, e.probeIndex);
  }

  /** Every site of a loaded class has its position, and only one. */
  lemma SiteHasPosition<W>(p: Project, sessions: seq<Session<W>>, input: Input, x: ClassSite) returns (q: Position)
    requires InputTells(p, sessions, input) && IsKnown(p, sessions, x)
    ensures IsPosition(input, q) && SiteAt(p, input, q) == x
  {
    hide ClassSites, ClassEntries, ProbeTotal, EverLoaded, SiteTells, Shows, PathOf, PathOfClass, IsSiteOf;
    var n :| 0 <= n < TotalOf(p, x.id) && SitesOf(p, x.id)[n] == x.site;
    assert IsMeasured(input, x.id);
    var es := input.maps[x.id].probes;
    assert HasIndex(es, n);
    var k :| 0 <= k < |es| && es[k].probeIndex == n;
    q := Position(x.id, k);
  }

  lemma PositionsDiffer<W>(p: Project, sessions: seq<Session<W>>, input: Input, a: Position, b: Position)
    requires InputTells(p, sessions, input) && IsPosition(input, a) && IsPosition(input, b)
    requires SiteAt(p, input, a) == SiteAt(p, input, b)
    ensures a == b
  {
    hide ClassSites, ClassEntries, ProbeTotal, EverLoaded, SiteTells, Shows, PathOf, PathOfClass, IsSiteOf, HasIndex;
    var id := a.classId;
    var e, f := EntryAt(input, a), EntryAt(input, b);
    PositionIsSite(p, sessions, input, a);
    PositionIsSite(p, sessions, input, b);
    assert IsMeasured(input, id) && IsEntryOf(p, id, e) && IsEntryOf(p, id, f);
    SitesDiffer(p, id, e.probeIndex, f.probeIndex);
  }

  // ---- The report, in terms of the original program ----

  /** A site on line `n` of the file, in a class some process loaded. */
  ghost predicate IsSiteOn<W>(p: Project, sessions: seq<Session<W>>, x: ClassSite, path: Text, n: int) {
    IsKnown(p, sessions, x) && PathOfClass(p, x.id) == path && n > 0 && LineOf(p.classes[x.id], x.site) == n
  }

  ghost predicate HasSiteOn<W>(p: Project, sessions: seq<Session<W>>, path: Text, n: int) {
    exists x :: IsSiteOn(p, sessions, x, path, n)
  }

  /** Some process passed a site on the line. */
  ghost predicate LineWasPassed<W>(p: Project, sessions: seq<Session<W>>, path: Text, n: int) {
    exists x :: IsSiteOn(p, sessions, x, path, n) && EverTaken(p, sessions, x)
  }

  /** The edges of a file: arms of decisions on positive lines, in classes some process loaded. */
  ghost predicate IsEdgeIn<W>(p: Project, sessions: seq<Session<W>>, x: ClassSite, path: Text) {
    && IsKnown(p, sessions, x) && PathOfClass(p, x.id) == path
    && LineOf(p.classes[x.id], x.site) > 0 && IsEdge(p.classes[x.id], x.site)
  }

  ghost function KnownSites(p: Project): (s: set<ClassSite>)
    ensures forall x :: x in s <==> x.id in p.classes && x.site in SitesOf(p, x.id)
  {
    set id, q | id in p.classes && q in SitesOf(p, id) :: ClassSite(id, q)
  }

  ghost function Edges<W>(p: Project, sessions: seq<Session<W>>, path: Text): (s: set<ClassSite>)
    ensures forall x :: x in s <==> IsEdgeIn(p, sessions, x, path)
  {
    set x | x in KnownSites(p) && IsEdgeIn(p, sessions, x, path)
  }

  ghost function EdgesTaken<W>(p: Project, sessions: seq<Session<W>>, path: Text): (s: set<ClassSite>)
    ensures forall x :: x in s <==> IsEdgeIn(p, sessions, x, path) && EverTaken(p, sessions, x)
  {
    set x | x in Edges(p, sessions, path) && EverTaken(p, sessions, x)
  }

  ghost function EdgesShown<W>(p: Project, sessions: seq<Session<W>>, arrays: Arrays, path: Text): (s: set<ClassSite>)
    ensures forall x :: x in s <==> IsEdgeIn(p, sessions, x, path) && Shows(p, arrays, x)
  {
    set x | x in Edges(p, sessions, path) && Shows(p, arrays, x)
  }

  /** A site on the line shows. */
  ghost predicate LineShows<W>(p: Project, sessions: seq<Session<W>>, arrays: Arrays, path: Text, n: int) {
    exists x :: IsSiteOn(p, sessions, x, path, n) && Shows(p, arrays, x)
  }

  lemma LinesAreSites<W>(p: Project, sessions: seq<Session<W>>, input: Input, path: Text, n: int)
    requires InputTells(p, sessions, input)
    ensures HasLine(input, path, n) <==> HasSiteOn(p, sessions, path, n)
    ensures IsLineHit(input, path, n) <==> LineShows(p, sessions, input.arrays, path, n)
  {
    hide InputTells, EverLoaded, SiteTells, Shows, PathOf, PathOfClass, LineOf, IsEdge, IsHit, SitesOf, SiteAt;
    if q :| IsOn(input, q, path, n) {
      PositionIsSite(p, sessions, input, q);
      assert IsSiteOn(p, sessions, SiteAt(p, input, q), path, n);
    }
    if q :| IsOn(input, q, path, n) && IsHit(EntryAt(input, q), input.arrays[q.classId]) {
      PositionIsSite(p, sessions, input, q);
      assert IsSiteOn(p, sessions, SiteAt(p, input, q), path, n);
    }
    if x :| IsSiteOn(p, sessions, x, path, n) {
      var q := SiteHasPosition(p, sessions, input, x);
      PositionIsSite(p, sessions, input, q);
      assert IsOn(input, q, path, n);
    }
    if x :| IsSiteOn(p, sessions, x, path, n) && Shows(p, input.arrays, x) {
      var q := SiteHasPosition(p, sessions, input, x);
      PositionIsSite(p, sessions, input, q);
      assert IsOn(input, q, path, n);
    }
  }

  lemma BranchesAreEdges<W>(p: Project, sessions: seq<Session<W>>, input: Input, path: Text)
    requires InputTells(p, sessions, input)
    ensures |Branches(input, path)| == |Edges(p, sessions, path)|
    ensures |BranchesHit(input, path)| == |EdgesShown(p, sessions, input.arrays, path)|
  {
    hide InputTells, SiteAt, Branches, Edges;
    var f := (q: Position) => SiteAt(p, input, q);
    forall q | q in Branches(input, path)
      ensures f(q) in Edges(p, sessions, path)
      ensures q in BranchesHit(input, path) <==> f(q) in EdgesShown(p, sessions, input.arrays, path)
    {
      BranchIsEdge(p, sessions, input, path, q);
    }
    forall a, b | a in Branches(input, path) && b in Branches(input, path) && f(a) == f(b) ensures a == b {
      PositionsDiffer(p, sessions, input, a, b);
    }
    forall x | x in Edges(p, sessions, path) ensures exists q :: q in Branches(input, path) && f(q) == x {
      var q := SiteHasPosition(p, sessions, input, x);
      EdgeIsBranch(p, sessions, input, path, x, q);
    }
    forall x | x in EdgesShown(p, sessions, input.arrays, path) ensures exists q :: q in BranchesHit(input, path) && f(q) == x {
      var q :| q in Branches(input, path) && f(q) == x;
    }
    ImageCounts(Branches(input, path), f, Edges(p, sessions, path));
    ImageCounts(BranchesHit(input, path), f, EdgesShown(p, sessions, input.arrays, path));
  }

  lemma BranchIsEdge<W>(p: Project, sessions: seq<Session<W>>, input: Input, path: Text, q: Position)
    requires InputTells(p, sessions, input) && q in Branches(input, path)
    ensures SiteAt(p, input, q) in Edges(p, sessions, path)
    ensures q in BranchesHit(input, path) <==> SiteAt(p, input, q) in EdgesShown(p, sessions, input.arrays, path)
  {
    hide InputTells, EverLoaded, SiteTells, Shows, PathOf, PathOfClass, LineOf, IsEdge, IsHit, SitesOf, SiteAt, Branches, Edges;
    PositionIsSite(p, sessions, input, q);
    assert IsEdgeIn(p, sessions, SiteAt(p, input, q), path);
  }

  lemma EdgeIsBranch<W>(p: Project, sessions: seq<Session<W>>, input: Input, path: Text, x: ClassSite, q: Position)
    requires InputTells(p, sessions, input) && x in Edges(p, sessions, path)
    requires IsPosition(input, q) && SiteAt(p, input, q) == x
    ensures q in Branches(input, path)
  {
    hide InputTells, EverLoaded, SiteTells, Shows, PathOf, PathOfClass, LineOf, IsEdge, IsHit, SitesOf, SiteAt, Branches, Edges;
    PositionIsSite(p, sessions, input, q);
    assert IsEdgeIn(p, sessions, x, path);
  }

  lemma FilesAreClasses<W>(p: Project, sessions: seq<Session<W>>, input: Input, path: Text)
    requires InputTells(p, sessions, input)
    ensures HasFile(input, path) <==> exists id :: id in p.classes && EverLoaded(p, sessions, id) && PathOfClass(p, id) == path
  {
    hide EverLoaded, SiteTells, PathOf, PathOfClass, SitesOf, TotalOf, IsEntryOf, HasIndex;
    if id :| InFile(input, id, path) {
      assert MapTells(p, input.maps[id], id);
    }
    if id :| id in p.classes && EverLoaded(p, sessions, id) && PathOfClass(p, id) == path {
      assert IsMeasured(input, id) && MapTells(p, input.maps[id], id);
      assert InFile(input, id, path);
    }
  }

  // ---- The theorem ----

  /** No process stores into null, each has its execution file, and the probe files have the maps of all loaded classes. */
  ghost predicate Recorded<W>(p: Project, sessions: seq<Session<W>>, execFiles: seq<seq<Byte>>, probeFiles: seq<seq<Byte>>) {
    && (forall k :: 0 <= k < |sessions| ==> IsFaultless(p, sessions[k]))
    && |execFiles| == |sessions| && (forall k :: 0 <= k < |sessions| ==> IsExecFile(execFiles[k], p, sessions[k]))
    && (forall k :: 0 <= k < |probeFiles| ==> IsProbeFile(probeFiles[k], p))
    && (forall id :: EverLoaded(p, sessions, id) ==> IsMapped(probeFiles, p, id))
  }

  lemma RecordedFilesTell<W>(p: Project, sessions: seq<Session<W>>, execFiles: seq<seq<Byte>>, probeFiles: seq<seq<Byte>>)
    requires ValidProject(p) && Recorded(p, sessions, execFiles, probeFiles)
    ensures AllParse(execFiles) && FilesTell(p, sessions, ContentsOf(execFiles))
  {
    hide Exec.ParseFile, IsExecFile, IsProbeFile, IsMapped, EverLoaded, IsFaultless, StoreTells, ValidProject, Exec.ViewOf, EndOf;
    forall k | 0 <= k < |execFiles| ensures Exec.ParseFile(execFiles[k]) == Parsed(Exec.ViewOf(EndOf(p, sessions[k]).store), []) {
      ExecFileParses(execFiles[k], p, sessions[k]);
    }
    forall k: nat, id | k < |execFiles| ensures StoreTells(p, sessions, k, id, ContentsOf(execFiles)[k]) {
      ProcessStoreTells(p, sessions, k, id);
    }
  }

  /** The sites that show are sites that were taken, all of them but those an activation was about to record. */
  ghost predicate ShownAreTaken<W>(p: Project, sessions: seq<Session<W>>, arrays: Arrays) {
    forall x :: IsKnown(p, sessions, x) ==> SiteTells(p, sessions, arrays, x)
  }

  /** What a file's figures say about the program, by way of the sites that show. */
  ghost predicate FileIsTrue<W>(p: Project, sessions: seq<Session<W>>, arrays: Arrays, f: FileCoverage) {
    && f.branchesCovered == |EdgesShown(p, sessions, arrays, f.path)|
    && f.branchesTotal == |Edges(p, sessions, f.path)|
    && (forall n :: ListsLine(f.lines, n) <==> HasSiteOn(p, sessions, f.path, n))
    && (forall l :: l in f.lines ==> l.hitCount == if LineShows(p, sessions, arrays, f.path, l.lineNumber) then 1 else 0)
  }

  /** The report is about the classes some process loaded and no others. */
  ghost predicate ReportIsTrue<W>(p: Project, sessions: seq<Session<W>>, arrays: Arrays, r: AnalysisResult) {
    && ShownAreTaken(p, sessions, arrays)
    && (forall f :: f in r.files ==> FileIsTrue(p, sessions, arrays, f))
    && (forall path :: HasPath(r.files, path) <==> exists id :: id in p.classes && EverLoaded(p, sessions, id) && PathOfClass(p, id) == path)
  }

  lemma KnownSitesTell<W>(p: Project, sessions: seq<Session<W>>, input: Input)
    requires InputTells(p, sessions, input)
    ensures ShownAreTaken(p, sessions, input.arrays)
  {
    hide EverLoaded, SiteTells, SitesOf, IsSiteOf, MapTells;
    forall x | IsKnown(p, sessions, x) ensures SiteTells(p, sessions, input.arrays, x) {
      assert IsMeasured(input, x.id);
    }
  }

  /**
   * However many processes ran one instrumentation of the project, written, read back, joined in any
   * order and analysed: the report counts the sites that show, and those are the sites the original
   * processes passed, but for those that an activation was about to record.
   */
  lemma ReportTellsSites<W>(p: Project, sessions: seq<Session<W>>, execFiles: seq<seq<Byte>>, probeFiles: seq<seq<Byte>>, input: Input, r: AnalysisResult)
    requires ValidProject(p) && Recorded(p, sessions, execFiles, probeFiles)
    requires AllParse(execFiles) && IsMergedData(input.arrays, input.maps, execFiles, probeFiles) && IsAnalysisOf(r, input)
    ensures ReportIsTrue(p, sessions, input.arrays, r)
  {
    hide Exec.ParseFile, AllParse, IsExecFile, IsProbeFile, IsMapped, ValidProject, EverLoaded, InputTells, FilesTell,
         IsMergeOf, WithoutStale, MergedAll, Readable, HasLine, IsLineHit, Branches, BranchesHit, HasFile, HasSiteOn, LineShows,
         Edges, EdgesShown, IsFaultless, PathOfClass, InOrder, Summarize, ShownAreTaken;
    RecordedFilesTell(p, sessions, execFiles, probeFiles);
    var all: ClassMaps :| IsMergeOf(all, Readable(probeFiles)) && input.maps == WithoutStale(all, input.arrays);
    JoinedInputTells(p, sessions, ContentsOf(execFiles), probeFiles, input, all);
    KnownSitesTell(p, sessions, input);
    forall f | f in r.files ensures FileIsTrue(p, sessions, input.arrays, f) {
      BranchesAreEdges(p, sessions, input, f.path);
      forall n { LinesAreSites(p, sessions, input, f.path, n); }
    }
    forall path { FilesAreClasses(p, sessions, input, path); }
  }

  // ---- How far the figures can be behind ----

  ghost predicate WaitsIn<W>(p: Project, sessions: seq<Session<W>>, w: Waiter, path: Text) {
    exists x :: Awaits(p, sessions, w, x) && PathOfClass(p, x.id) == path
  }

  /** The activations that stand before the store of a probe of the file when their process ends. */
  ghost function Waiters<W>(p: Project, sessions: seq<Session<W>>, path: Text): (s: set<Waiter>)
    ensures forall w :: w in s <==> WaitsIn(p, sessions, w, path)
  {
    var all := set k, id, a | 0 <= k < |sessions| && id in p.classes && 0 <= a < |ActivationsIn(p, sessions[k], id)| :: Waiter(k, id, a);
    set w | w in all && WaitsIn(p, sessions, w, path)
  }

  /** An activation waits for one site only. */
  lemma WaitsForOne<W>(p: Project, sessions: seq<Session<W>>, w: Waiter, x: ClassSite, y: ClassSite)
    requires Awaits(p, sessions, w, x) && Awaits(p, sessions, w, y)
    ensures x == y
  {
    hide IsBeforeStore, SitesOf, TotalOf, BodiesOf, ActivationsIn;
    var a := ActivationsIn(p, sessions[w.session], w.id)[w.activation];
    var m: nat :| m < TotalOf(p, x.id) && SitesOf(p, x.id)[m] == x.site && OnTheWay(BodiesOf(p, x.id), a, m);
    var n: nat :| n < TotalOf(p, y.id) && SitesOf(p, y.id)[n] == y.site && OnTheWay(BodiesOf(p, y.id), a, n);
    OneStoreAhead(BodiesOf(p, x.id)[a.index].code, a.frame.pc, m, n);
  }

  /** What the report says in terms of the original program alone. */
  ghost predicate FileTellsRuns<W>(p: Project, sessions: seq<Session<W>>, f: FileCoverage) {
    && f.branchesCovered <= |EdgesTaken(p, sessions, f.path)| <= f.branchesCovered + |Waiters(p, sessions, f.path)|
    && f.branchesTotal == |Edges(p, sessions, f.path)|
    && (forall n :: ListsLine(f.lines, n) <==> HasSiteOn(p, sessions, f.path, n))
    && (forall l :: l in f.lines ==> LineTellsRuns(p, sessions, f.path, l))
    && (Waiters(p, sessions, f.path) == {} ==> f.branchesCovered == |EdgesTaken(p, sessions, f.path)|)
  }

  /** A line is hit only if a site on it was passed, and is missed then only while an activation is about to record one. */
  ghost predicate LineTellsRuns<W>(p: Project, sessions: seq<Session<W>>, path: Text, l: LineCoverage) {
    && 0 <= l.hitCount <= 1
    && (l.hitCount == 1 ==> LineWasPassed(p, sessions, path, l.lineNumber))
    && (LineWasPassed(p, sessions, path, l.lineNumber) ==> l.hitCount == 1 || Waiters(p, sessions, path) != {})
  }

  lemma EdgesLag<W>(p: Project, sessions: seq<Session<W>>, arrays: Arrays, path: Text)
    requires ShownAreTaken(p, sessions, arrays)
    ensures
      var shown, taken := |EdgesShown(p, sessions, arrays, path)|, |EdgesTaken(p, sessions, path)|;
      shown <= taken <= shown + |Waiters(p, sessions, path)|
  {
    hide Waiters, EdgesShown, EdgesTaken, Shows, EverTaken, Awaits, Edges, PathOfClass;
    var shown, taken := EdgesShown(p, sessions, arrays, path), EdgesTaken(p, sessions, path);
    assert shown <= taken;
    var late := taken - shown;
    forall x | x in late ensures exists w :: w in Waiters(p, sessions, path) && Awaits(p, sessions, w, x) {
      assert SiteTells(p, sessions, arrays, x);
      var w :| Awaits(p, sessions, w, x);
      assert PathOfClass(p, x.id) == path && WaitsIn(p, sessions, w, path);
    }
    forall x, y, w | x in late && y in late && Awaits(p, sessions, w, x) && Awaits(p, sessions, w, y) ensures x == y {
      WaitsForOne(p, sessions, w, x, y);
    }
    var waits := (x: ClassSite, w: Waiter) => Awaits(p, sessions, w, x);
    RelationCounts(late, waits, Waiters(p, sessions, path));
    UnionCounts(taken, shown, late);
  }

  lemma LinesLag<W>(p: Project, sessions: seq<Session<W>>, arrays: Arrays, path: Text, n: int)
    requires ShownAreTaken(p, sessions, arrays)
    ensures LineShows(p, sessions, arrays, path, n) ==> LineWasPassed(p, sessions, path, n)
    ensures LineWasPassed(p, sessions, path, n) ==> LineShows(p, sessions, arrays, path, n) || Waiters(p, sessions, path) != {}
  {
    hide Waiters, Shows, EverTaken, Awaits, PathOfClass, LineOf, IsSiteOf, EverLoaded;
    if x :| IsSiteOn(p, sessions, x, path, n) && Shows(p, arrays, x) {
      assert SiteTells(p, sessions, arrays, x);
    }
    if x :| IsSiteOn(p, sessions, x, path, n) && EverTaken(p, sessions, x) {
      assert SiteTells(p, sessions, arrays, x);
      if !Shows(p, arrays, x) {
        var w :| Awaits(p, sessions, w, x);
        assert WaitsIn(p, sessions, w, path);
      }
    }
  }

  /**
   * The figures and the original program, whatever still runs when the data are written: a file's
   * covered branches are at most its edges taken, and behind by no more than the activations that
   * stand before the store of one of its probes. Where there are none, covered branches are exactly
   * the edges taken and lines are hit exactly when passed.
   */
  lemma ReportTellsRuns<W>(p: Project, sessions: seq<Session<W>>, execFiles: seq<seq<Byte>>, probeFiles: seq<seq<Byte>>, input: Input, r: AnalysisResult)
    requires ValidProject(p) && Recorded(p, sessions, execFiles, probeFiles)
    requires AllParse(execFiles) && IsMergedData(input.arrays, input.maps, execFiles, probeFiles) && IsAnalysisOf(r, input)
    ensures forall f :: f in r.files ==> FileTellsRuns(p, sessions, f)
    ensures forall path :: HasPath(r.files, path) <==> exists id :: id in p.classes && EverLoaded(p, sessions, id) && PathOfClass(p, id) == path
  {
    hide Exec.ParseFile, AllParse, ValidProject, Recorded, IsMergedData, IsAnalysisOf, EverLoaded,
         ShownAreTaken, HasSiteOn, LineShows, LineWasPassed, Edges, EdgesShown, EdgesTaken, PathOfClass, Waiters;
    ReportTellsSites(p, sessions, execFiles, probeFiles, input, r);
    forall f | f in r.files ensures FileTellsRuns(p, sessions, f) {
      assert FileIsTrue(p, sessions, input.arrays, f);
      EdgesLag(p, sessions, input.arrays, f.path);
      forall l | l in f.lines ensures LineTellsRuns(p, sessions, f.path, l) {
        LinesLag(p, sessions, input.arrays, f.path, l.lineNumber);
      }
    }
  }

  /** And there is always such a report: nothing in the chain fails on these files. */
  lemma ReportExists<W>(p: Project, sessions: seq<Session<W>>, execFiles: seq<seq<Byte>>, probeFiles: seq<seq<Byte>>, input: Input)
    requires ValidProject(p) && Recorded(p, sessions, execFiles, probeFiles)
    requires exists k :: 0 <= k < |probeFiles| && Maps.ParseFile(probeFiles[k]).Parsed?
    ensures CanMerge(execFiles, probeFiles)
    ensures IsMergedData(input.arrays, input.maps, execFiles, probeFiles) ==> !Throws(input)
  {
    hide Exec.ParseFile, Maps.ParseFile, AllParse, IsExecFile, IsProbeFile, IsMapped, ValidProject, EverLoaded, InputTells, FilesTell,
         IsMergeOf, WithoutStale, MergedAll, IsFaultless, PathOfClass, LineOf, IsEdge, Analyzer.IsHit, SiteTells, IsKnown, SiteAt, Shows;
    RecordedFilesTell(p, sessions, execFiles, probeFiles);
    var k :| 0 <= k < |probeFiles| && Maps.ParseFile(probeFiles[k]).Parsed?;
    assert Maps.ParseFile(probeFiles[k]).value in Readable(probeFiles);
    if IsMergedData(input.arrays, input.maps, execFiles, probeFiles) {
      var all: ClassMaps :| IsMergeOf(all, Readable(probeFiles)) && input.maps == WithoutStale(all, input.arrays);
      JoinedInputTells(p, sessions, ContentsOf(execFiles), probeFiles, input, all);
      forall q | IsPosition(input, q) ensures EntryAt(input, q).probeIndex >= 0 {
        PositionIsSite(p, sessions, input, q);
      }
    }
  }
}
