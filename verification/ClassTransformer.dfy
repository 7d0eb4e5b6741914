/**
 * One class through the load-time agent (instrumentation/OmnivoreClassTransformer.kt) or the
 * build-time visitor (instrumentation/BuildTimeInstrumentingVisitor.kt).
 */
module ClassTransformer {
  import opened Bytecode
  import opened ProbeMap
  import opened ProbeLayout
  import opened ClassInstrumenter
  import opened EmbeddedProbeMap
  import opened Lockstep
  import opened Text
  import opened Wrappers
  import ProbeFile

  /** The class as the visitor leaves it when it has probes. */
  function Instrumented(config: AgentConfig, cls: ClassNode): ClassNode {
    var total := ProbeTotal(config, cls.methods);
    cls.(methods := RewrittenMethods(config, total, cls.methods)
                    + if HasClinit(cls.methods) then [] else [NewClinit(total)])
  }

  /**
   * The methods of the instrumented class: initializers start with the registration, methods that are
   * filtered keep their code, all others are rewritten from the number of probes before them; and one
   * initializer is added when there is none.
   */
  lemma MethodsAre(config: AgentConfig, cls: ClassNode, k: nat)
    requires ProbeTotal(config, cls.methods) > 0 && k < |cls.methods|
    ensures
      var total, m, out := ProbeTotal(config, cls.methods), cls.methods[k], Instrumented(config, cls).methods;
      && k < |out| && out[k] == m.(body := out[k].body) && out[k].body.handlers == m.body.handlers
      && out[k].body.code ==
           if IsInitializer(m) then [RegisterProbes(total)] + m.body.code
           else if m.access.isBridge || m.access.isAbstract || m.access.isNative || config.excludes(m.name) then m.body.code
           else Layout(Plan([], true, ProbeTotal(config, cls.methods[..k])), m.body.code)
  {
    hide ProbeTotal, Layout;
    var total := ProbeTotal(config, cls.methods);
    RewrittenIs(config, total, cls.methods, k);
    PrefixedLayout([RegisterProbes(total)], cls.methods[k].body.code);
    PlainLayout(cls.methods[k].body.code);
  }

  lemma {:induction false} RewrittenIs(config: AgentConfig, total: nat, methods: seq<MethodNode>, k: nat)
    requires k < |methods|
    ensures RewrittenMethods(config, total, methods)[k]
         == methods[k].(body := Rewrite(PlanOf(config, total, methods[k], ProbeTotal(config, methods[..k])), methods[k].body))
  {
    hide Layout, PlanOf, ProbeTotal;
    var front := methods[..|methods| - 1];
    if k < |front| {
      RewrittenIs(config, total, front, k);
      assert front[..k] == methods[..k];
    } else {
      assert front == methods[..k];
    }
  }

  /** The added initializer registers and returns. */
  lemma AddedInitializer(config: AgentConfig, cls: ClassNode)
    ensures
      var total, out := ProbeTotal(config, cls.methods), Instrumented(config, cls).methods;
      if exists i :: 0 <= i < |cls.methods| && IsInitializer(cls.methods[i]) then |out| == |cls.methods|
      else
        && |out| == |cls.methods| + 1 && IsInitializer(out[|cls.methods|]) && out[|cls.methods|].desc == [0x28, 0x29, 0x56]
        && out[|cls.methods|].access == Access(false, false, false) && !out[|cls.methods|].isComposable
        && out[|cls.methods|].body == Body([RegisterProbes(total), Return], [])
  {
    hide ProbeTotal, Layout;
    if i :| 0 <= i < |cls.methods| && IsInitializer(cls.methods[i]) {
      assert cls.methods[i].name == CLINIT;
    }
    if HasClinit(cls.methods) {
      var i :| 0 <= i < |cls.methods| && cls.methods[i].name == CLINIT;
      assert IsInitializer(cls.methods[i]);
    }
  }

  predicate HasProbes(config: AgentConfig, cls: ClassNode) {
    !cls.isInterface && ProbeTotal(config, cls.methods) > 0
  }

  /** The two paths agree: the agent's walk over a class the build has rewritten finds the build's own map. */
  lemma BuildTimeAndLoadTimeAgree(config: AgentConfig, cls: ClassNode)
    ensures ClassEntries(config, Instrumented(config, cls).methods) == ClassEntries(config, cls.methods)
    ensures HasProbes(config, Instrumented(config, cls)) <==> HasProbes(config, cls)
  {
    var total := ProbeTotal(config, cls.methods);
    RewalkOfInstrumentedClass(config, total, cls.methods, if HasClinit(cls.methods) then [] else [NewClinit(total)]);
    assert |ClassEntries(config, Instrumented(config, cls).methods)| == total;
  }

  method Visit(config: AgentConfig, cls: ClassNode, total: nat) returns (out: ClassNode)
    requires DistinctMethods(cls.methods) && !cls.isInterface && total == ProbeTotal(config, cls.methods) > 0
    ensures out == Instrumented(config, cls)
  {
    hide RewrittenMethods, ProbeTotal, ClassEntries, DistinctMethods;
    var visitor := new InstrumentingClassVisitor(cls, config, total, null);
    for i := 0 to |cls.methods|
      invariant fresh(visitor) && visitor.classProbeMap == null
      invariant visitor.classNode == cls && visitor.config == config && visitor.totalProbeCount == total
      invariant visitor.Valid() && visitor.visited == cls.methods[..i]
    {
      visitor.VisitMethod(cls.methods[i]);
    }
    assert cls.methods[..|cls.methods|] == cls.methods;
    visitor.VisitEnd();
    out := cls.(methods := visitor.out);
  }

  /** What the probe map holds for a class after one more walk over it. */
  function Extended(before: map<int, ClassMap>, classId: int, cls: ClassNode, entries: seq<ProbeEntry>): map<int, ClassMap> {
    var m := if classId in before then before[classId] else ClassMap(classId, cls.name, cls.sourceFile, []);
    before[classId := m.(probes := m.probes + entries)]
  }

  method WalkInto(config: AgentConfig, cls: ClassNode, classId: int, probeMap: ProbeMap)
    requires probeMap.Valid()
    modifies probeMap, probeMap.entries.Values
    ensures probeMap.Valid()
    ensures probeMap.Contents() == Extended(old(probeMap.Contents()), classId, cls, ClassEntries(config, cls.methods))
  {
    hide ClassEntries, ProbeTotal;
    var classMap := probeMap.GetOrCreateClassMap(classId, cls.name, cls.sourceFile);
    BuildInto(config, cls, classMap, probeMap);
  }

  method BuildInto(config: AgentConfig, cls: ClassNode, classMap: ClassProbeMap, probeMap: ProbeMap)
    requires probeMap.Valid() && classMap.classId in probeMap.entries && probeMap.entries[classMap.classId] == classMap
    modifies classMap
    ensures probeMap.Valid() && classMap.classId in old(probeMap.Contents())
    ensures probeMap.Contents() == old(probeMap.Contents())[classMap.classId :=
      old(probeMap.Contents())[classMap.classId].(probes :=
        old(probeMap.Contents())[classMap.classId].probes + ClassEntries(config, cls.methods))]
  {
    hide ClassEntries, ProbeTotal;
    assert forall id :: id in probeMap.entries && id != classMap.classId ==> probeMap.entries[id] != classMap;
    ghost var m := probeMap.Contents()[classMap.classId];
    ghost var expected := probeMap.Contents()[classMap.classId := m.(probes := m.probes + ClassEntries(config, cls.methods))];
    BuildProbeMap(cls, config, classMap);
    assert probeMap.Contents().Keys == expected.Keys;
    assert forall id :: id in probeMap.entries ==> probeMap.Contents()[id] == expected[id];
  }

  /**
   * The agent's transform: the map is extended even where the class has been instrumented before.
   * `excluded` stands for the checks of the class against Compose patterns and excluded annotations.
   */
  method InstrumentClass(config: AgentConfig, cls: ClassNode, classId: int, alreadyInstrumented: bool, excluded: bool, probeMap: ProbeMap)
    returns (r: Option<ClassNode>)
    requires DistinctMethods(cls.methods) && probeMap.Valid()
    modifies probeMap, probeMap.entries.Values
    ensures probeMap.Valid()
    ensures r == if HasProbes(config, cls) && !excluded && !alreadyInstrumented then Some(Instrumented(config, cls)) else None
    ensures probeMap.Contents() ==
      if HasProbes(config, cls) && !excluded then Extended(old(probeMap.Contents()), classId, cls, ClassEntries(config, cls.methods))
      else old(probeMap.Contents())
  {
    hide ClassEntries, ProbeTotal, Instrumented, DistinctMethods, Extended;
    if cls.isInterface { return None; }
    if excluded { return None; }
    var total := CountProbes(cls, config);
    if total == 0 { return None; }
    WalkInto(config, cls, classId, probeMap);
    if alreadyInstrumented { return None; }
    var out := Visit(config, cls, total);
    r := Some(out);
  }

  /** The map that the build makes of a class. */
  function BuiltMap(config: AgentConfig, cls: ClassNode, classId: int): ClassMap {
    ClassMap(classId, cls.name, cls.sourceFile, ClassEntries(config, cls.methods))
  }

  /**
   * The build-time transform: a fresh map each time, replacing any older one in the probe map and in
   * the class's annotations; a map with a string too long for the format stops it.
   */
  method VisitEnd(config: AgentConfig, cls: ClassNode, classId: int, probeMap: ProbeMap, annotated: AnnotatedClass, descriptor: Text)
    returns (r: Result<ClassNode>)
    requires DistinctMethods(cls.methods) && probeMap.Valid() && ProbeFile.IsClass(BuiltMap(config, cls, classId))
    modifies probeMap, annotated`invisible
    ensures probeMap.Valid()
    ensures
      var c := BuiltMap(config, cls, classId);
      if !HasProbes(config, cls) then
        r == Ok(cls) && probeMap.Contents() == old(probeMap.Contents()) && annotated.invisible == old(annotated.invisible)
      else
        && probeMap.Contents() == old(probeMap.Contents())[classId := c]
        && if ProbeFile.WritableClass(c) then
             r == Ok(Instrumented(config, cls)) && annotated.invisible == WithMap(old(annotated.invisible), descriptor, c)
           else
             r.Error? && annotated.invisible == old(annotated.invisible)
  {
    hide ClassEntries, ProbeTotal, Instrumented, DistinctMethods, ProbeFile.IsClass, ProbeFile.WritableClass, WithMap;
    if cls.isInterface { return Ok(cls); }
    var total := CountProbes(cls, config);
    if total == 0 { return Ok(cls); }
    var classMap := new ClassProbeMap(classId, cls.name, cls.sourceFile);
    BuildProbeMap(cls, config, classMap);
    assert classMap.Contents() == BuiltMap(config, cls, classId);
    assert probeMap.Contents() == old(probeMap.Contents());
    probeMap.PutClassMap(classMap);
    var ok := Attach(annotated, descriptor, classMap.Contents());
    if !ok { return Error; }
    var out := Visit(config, cls, total);
    r := Ok(out);
  }
}
