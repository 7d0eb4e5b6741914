/**
 * The walk that predicts a class's probes, and the class visitor that emits them
 * (instrumentation/ClassInstrumenter.kt).
 */
module ClassInstrumenter {
  import opened Bytecode
  import opened ProbeMap
  import opened ProbeLayout
  import opened ProbeInserter
  import opened Text
  import opened Wrappers

  datatype Access = Access(isBridge: bool, isAbstract: bool, isNative: bool)

  datatype MethodNode = MethodNode(name: Text, desc: Text, access: Access, isComposable: bool, body: Body)

  datatype ClassNode = ClassNode(name: Text, sourceFile: Option<Text>, isInterface: bool, methods: seq<MethodNode>)

  /** `excludes` stands for the name filters of the Kotlin and Compose detectors. */
  datatype AgentConfig = AgentConfig(excludes: Text -> bool)

  /** The name `<clinit>` of a class initializer, and its descriptor `()V`. */
  const CLINIT: Text := [0x3C, 0x63, 0x6C, 0x69, 0x6E, 0x69, 0x74, 0x3E]
  const CLINIT_DESC: Text := [0x28, 0x29, 0x56]

  predicate IsInstrumentableMethod(m: MethodNode, config: AgentConfig) {
    && m.name != CLINIT
    && !m.access.isBridge && !m.access.isAbstract && !m.access.isNative
    && !config.excludes(m.name)
  }

  function OwnerOf(m: MethodNode): Owner {
    Owner(m.name, m.desc, m.isComposable)
  }

  /** Section 4.6 of the Java Virtual Machine Specification: no two methods share name and descriptor. */
  predicate DistinctMethods(methods: seq<MethodNode>) {
    forall i, j :: 0 <= i < j < |methods| ==> methods[i].name != methods[j].name || methods[i].desc != methods[j].desc
  }

  // ---- The probes of a class ----

  function MethodSites(config: AgentConfig, m: MethodNode): seq<Site> {
    if IsInstrumentableMethod(m, config) then Sites(m.body.code) else []
  }

  /** The probes of all these methods together. */
  function ProbeTotal(config: AgentConfig, methods: seq<MethodNode>): nat {
    if methods == [] then 0
    else ProbeTotal(config, methods[..|methods| - 1]) + |MethodSites(config, methods[|methods| - 1])|
  }

  /** The entries of all methods, numbered through. */
  function ClassEntries(config: AgentConfig, methods: seq<MethodNode>): (entries: seq<ProbeEntry>)
    ensures |entries| == ProbeTotal(config, methods)
  {
    if methods == [] then []
    else
      var front, last := methods[..|methods| - 1], methods[|methods| - 1];
      ClassEntries(config, front)
      + if IsInstrumentableMethod(last, config) then Entries(OwnerOf(last), ProbeTotal(config, front), last.body.code) else []
  }

  lemma OneMoreMethod(config: AgentConfig, pre: seq<MethodNode>, m: MethodNode)
    ensures ProbeTotal(config, pre + [m]) == ProbeTotal(config, pre) + |MethodSites(config, m)|
    ensures ClassEntries(config, pre + [m]) == ClassEntries(config, pre)
      + if IsInstrumentableMethod(m, config) then Entries(OwnerOf(m), ProbeTotal(config, pre), m.body.code) else []
  {
    assert (pre + [m])[..|pre|] == pre;
  }

  /** `<clinit>` */
  predicate IsInitializer(m: MethodNode) {
    m.name == [0x3C, 0x63, 0x6C, 0x69, 0x6E, 0x69, 0x74, 0x3E]
  }

  /** The lines with a marker and the edges of a class's methods, but for initializers, bridges, methods without code and filtered ones. */
  function ProbeCount(config: AgentConfig, methods: seq<MethodNode>): nat {
    if methods == [] then 0
    else
      var m := methods[|methods| - 1];
      ProbeCount(config, methods[..|methods| - 1])
      + if IsInitializer(m) || m.access.isBridge || m.access.isAbstract || m.access.isNative || config.excludes(m.name) then 0
        else |LineNumbers(m.body.code)| + EdgeCount(m.body.code)
  }

  lemma {:induction false} TotalIsCount(config: AgentConfig, methods: seq<MethodNode>)
    ensures ProbeTotal(config, methods) == ProbeCount(config, methods)
  {
    hide Sites, EdgeCount, LineNumbers;
    if methods != [] {
      TotalIsCount(config, methods[..|methods| - 1]);
      SiteCount(methods[|methods| - 1].body.code);
    }
  }

  // ---- walkProbes ----

  /** One call of the walk's callback. */
  datatype ProbeCall = ProbeCall(m: MethodNode, isComposable: bool, kind: ProbeType, line: int, branchGroup: int)

  function EntryOf(call: ProbeCall, index: int): ProbeEntry {
    ProbeEntry(index, call.line, call.m.name, call.m.desc, call.kind, call.isComposable, call.branchGroup)
  }

  /** The calls with indices handed out in order. */
  function Numbered(calls: seq<ProbeCall>): (entries: seq<ProbeEntry>)
    ensures |entries| == |calls|
  {
    seq(|calls|, n requires 0 <= n < |calls| => EntryOf(calls[n], n))
  }

  lemma OneMoreCall(calls: seq<ProbeCall>, call: ProbeCall)
    ensures Numbered(calls + [call]) == Numbered(calls) + [EntryOf(call, |calls|)]
  {
  }

  function BranchProbes(insn: Insn): nat {
    match insn
    case Jump(opcode, _) => if IsConditionalJump(opcode) then 2 else 0
    case TableSwitch(_, _, _, labels) => |labels| + 1
    case LookupSwitch(_, _, labels) => |labels| + 1
    case _ => 0
  }

  method WalkProbes(classNode: ClassNode, config: AgentConfig) returns (calls: seq<ProbeCall>)
    ensures Numbered(calls) == ClassEntries(config, classNode.methods)
    ensures |calls| == ProbeCount(config, classNode.methods)
  {
    TotalIsCount(config, classNode.methods);
    hide Sites, Entries, ClassEntries, ProbeTotal, Numbered;
    calls := [];
    assert Numbered(calls) == ClassEntries(config, classNode.methods[..0]) by { NoMethodsYet(config, classNode.methods); }
    for k := 0 to |classNode.methods|
      invariant Numbered(calls) == ClassEntries(config, classNode.methods[..k])
    {
      var m := classNode.methods[k];
      assert classNode.methods[..k + 1] == classNode.methods[..k] + [m];
      OneMoreMethod(config, classNode.methods[..k], m);
      if IsInstrumentableMethod(m, config) {
        calls := WalkMethod(m, calls);
      }
    }
    assert classNode.methods[..|classNode.methods|] == classNode.methods;
  }

  lemma NoMethodsYet(config: AgentConfig, methods: seq<MethodNode>)
    ensures Numbered([]) == ClassEntries(config, methods[..0])
  {
  }

  method WalkMethod(m: MethodNode, before: seq<ProbeCall>) returns (calls: seq<ProbeCall>)
    ensures Numbered(calls) == Numbered(before) + Entries(OwnerOf(m), |before|, m.body.code)
  {
    hide Sites, CurrentLine, Decisions, FreshBefore, Layout, Chunk, Entries, Numbered, BranchEntries;
    var code := m.body.code;
    var currentLine, branchGroup, seenLines := -1, 0, {};
    calls := before;
    NothingYet(OwnerOf(m), |before|);
    for i := 0 to |code|
      invariant currentLine == CurrentLine(code[..i]) && branchGroup == Decisions(code[..i])
      invariant forall n :: n in seenLines <==> Line(n) in code[..i]
      invariant |calls| == |before| + |Sites(code[..i])|
      invariant Numbered(calls) == Numbered(before) + Entries(OwnerOf(m), |before|, code[..i])
    {
      ghost var pre, start := code[..i], calls;
      assert code[..i + 1] == pre + [code[i]];
      OneMore(Probing(0), pre, code[i]);
      EntriesOfOneMore(OwnerOf(m), |before|, pre, code[i]);
      if code[i].Line? {
        currentLine := code[i].line;
        if code[i].line !in seenLines {
          seenLines := seenLines + {code[i].line};
          OneMoreCall(calls, ProbeCall(m, m.isComposable, LINE, code[i].line, NO_BRANCH));
          calls := calls + [ProbeCall(m, m.isComposable, LINE, code[i].line, NO_BRANCH)];
        }
      } else if BranchProbes(code[i]) > 0 {
        var group := branchGroup;
        branchGroup := branchGroup + 1;
        for n := 0 to BranchProbes(code[i])
          invariant |calls| == |start| + n
          invariant Numbered(calls) == Numbered(start) + BranchEntries(OwnerOf(m), |start|, currentLine, group, n)
        {
          OneMoreCall(calls, ProbeCall(m, m.isComposable, BRANCH, currentLine, group));
          BranchEntriesJoin(OwnerOf(m), |start|, currentLine, group, n, 1);
          BranchEntryIs(OwnerOf(m), |start| + n, currentLine, group);
          calls := calls + [ProbeCall(m, m.isComposable, BRANCH, currentLine, group)];
        }
      }
      assert Numbered(calls) == Numbered(start) + NewEntries(OwnerOf(m), |before|, pre, code[i]);
    }
    assert code[..|code|] == code;
  }

  lemma NothingYet(owner: Owner, offset: nat)
    ensures CurrentLine([]) == -1 && Decisions([]) == 0 && Sites([]) == [] && Entries(owner, offset, []) == []
  {
  }

  method CountProbes(classNode: ClassNode, config: AgentConfig) returns (total: nat)
    ensures total == ProbeTotal(config, classNode.methods) == ProbeCount(config, classNode.methods)
  {
    TotalIsCount(config, classNode.methods);
    hide ProbeTotal, ProbeCount;
    var calls := WalkProbes(classNode, config);
    total := 0;
    for i := 0 to |calls|
      invariant total == i
    {
      total := total + 1;
    }
  }

  method BuildProbeMap(classNode: ClassNode, config: AgentConfig, classProbeMap: ClassProbeMap)
    modifies classProbeMap
    ensures classProbeMap.probeEntries == old(classProbeMap.probeEntries) + ClassEntries(config, classNode.methods)
  {
    hide ClassEntries, ProbeTotal;
    var calls := WalkProbes(classNode, config);
    var probeIndex := 0;
    for i := 0 to |calls|
      invariant probeIndex == i
      invariant classProbeMap.probeEntries == old(classProbeMap.probeEntries) + Numbered(calls)[..i]
    {
      classProbeMap.AddProbe(EntryOf(calls[i], probeIndex));
      probeIndex := probeIndex + 1;
    }
  }

  // ---- The class visitor ----

  /** Which plan a method gets: the initializer registers the array, filtered methods stay as they are. */
  function PlanOf(config: AgentConfig, total: nat, m: MethodNode, offset: nat): Plan {
    if total == 0 then Plan([], false, 0)
    else if m.name == CLINIT then Plan([RegisterProbes(total)], false, 0)
    else if IsInstrumentableMethod(m, config) then Probing(offset)
    else Plan([], false, 0)
  }

  function RewrittenMethods(config: AgentConfig, total: nat, methods: seq<MethodNode>): (out: seq<MethodNode>)
    ensures |out| == |methods|
  {
    if methods == [] then []
    else
      var front, last := methods[..|methods| - 1], methods[|methods| - 1];
      RewrittenMethods(config, total, front)
      + [last.(body := Rewrite(PlanOf(config, total, last, ProbeTotal(config, front)), last.body))]
  }

  predicate HasClinit(methods: seq<MethodNode>) {
    exists i :: 0 <= i < |methods| && methods[i].name == CLINIT
  }

  /** The initializer given to a class that has none. */
  function NewClinit(total: nat): MethodNode {
    MethodNode(CLINIT, CLINIT_DESC, Access(false, false, false), false, Body([RegisterProbes(total), Return], []))
  }

  /** The first method of `methods` with this name and descriptor. */
  function FindMethod(methods: seq<MethodNode>, name: Text, desc: Text): (r: Option<MethodNode>)
    ensures r.Some? ==> r.value in methods && r.value.name == name && r.value.desc == desc
    ensures r.None? ==> forall m :: m in methods ==> m.name != name || m.desc != desc
  {
    if methods == [] then None
    else if methods[0].name == name && methods[0].desc == desc then Some(methods[0])
    else FindMethod(methods[1..], name, desc)
  }

  class InstrumentingClassVisitor {
    const classNode: ClassNode
    const config: AgentConfig
    const totalProbeCount: nat
    const classProbeMap: ClassProbeMap?

    var globalProbeOffset: nat
    var hasExistingClinit: bool
    var out: seq<MethodNode>                 // the methods the delegate has been given
    ghost var visited: seq<MethodNode>
    ghost const recorded: seq<ProbeEntry>

    constructor (classNode: ClassNode, config: AgentConfig, totalProbeCount: nat, classProbeMap: ClassProbeMap?)
      requires DistinctMethods(classNode.methods) && !classNode.isInterface
      ensures Valid() && visited == []
      ensures this.classNode == classNode && this.config == config
      ensures this.totalProbeCount == totalProbeCount && this.classProbeMap == classProbeMap
      ensures classProbeMap != null ==> recorded == classProbeMap.probeEntries
    {
      this.classNode, this.config, this.totalProbeCount, this.classProbeMap := classNode, config, totalProbeCount, classProbeMap;
      globalProbeOffset, hasExistingClinit, out := 0, false, [];
      visited := [];
      recorded := if classProbeMap == null then [] else classProbeMap.probeEntries;
    }

    ghost predicate Valid()
      reads this, classProbeMap
    {
      && DistinctMethods(classNode.methods) && !classNode.isInterface
      && visited <= classNode.methods
      && globalProbeOffset == (if totalProbeCount == 0 then 0 else ProbeTotal(config, visited))
      && hasExistingClinit == HasClinit(visited)
      && out == RewrittenMethods(config, totalProbeCount, visited)
      && (classProbeMap != null ==>
            classProbeMap.probeEntries == recorded + if totalProbeCount == 0 then [] else ClassEntries(config, visited))
    }

    method VisitMethod(m: MethodNode)
      requires Valid() && |visited| < |classNode.methods| && m == classNode.methods[|visited|]
      modifies this, classProbeMap
      ensures Valid() && visited == old(visited) + [m]
    {
      hide Sites, Layout, Entries, ClassEntries, RewrittenMethods, ProbeTotal;
      OneMoreMethod(config, visited, m);
      OneMoreRewritten(config, totalProbeCount, visited, m);
      OneMoreClinit(visited, m);
      PlainLayout(m.body.code);
      var body := m.body;
      if m.name == CLINIT {
        hasExistingClinit := true;
        if totalProbeCount != 0 {
          body := PrefixClinit(m.body, totalProbeCount);
        }
      } else if totalProbeCount != 0 {
        var found := FindMethod(classNode.methods, m.name, m.desc);
        assert found == Some(m) by { FoundItself(classNode.methods, |visited|); }
        if found.Some? && IsInstrumentableMethod(found.value, config) {
          body := InsertProbes(m, found.value.isComposable);
        }
      }
      out := out + [m.(body := body)];
      visited := visited + [m];
    }

    method InsertProbes(m: MethodNode, isComposable: bool) returns (body: Body)
      modifies this`globalProbeOffset, classProbeMap
      ensures body == Rewrite(Probing(old(globalProbeOffset)), m.body)
      ensures globalProbeOffset == old(globalProbeOffset) + |Sites(m.body.code)|
      ensures classProbeMap != null ==>
        classProbeMap.probeEntries
        == old(classProbeMap.probeEntries) + Entries(Owner(m.name, m.desc, isComposable), old(globalProbeOffset), m.body.code)
    {
      hide Sites, Layout, Entries;
      var inserter := new ProbeInserter(globalProbeOffset, Owner(m.name, m.desc, isComposable), classProbeMap);
      inserter.Accept(m.body.code);
      body := Body(inserter.out, m.body.handlers);
      globalProbeOffset := globalProbeOffset + inserter.localProbeCount;
    }

    method PrefixClinit(body: Body, count: nat) returns (r: Body)
      ensures r == Rewrite(Plan([RegisterProbes(count)], false, 0), body)
    {
      PrefixedLayout([RegisterProbes(count)], body.code);
      r := Body([RegisterProbes(count)] + body.code, body.handlers);
    }

    method VisitEnd()
      requires Valid() && visited == classNode.methods
      modifies this`out
      ensures out == old(out) + if totalProbeCount > 0 && !HasClinit(classNode.methods) then [NewClinit(totalProbeCount)] else []
    {
      if totalProbeCount > 0 && !hasExistingClinit {
        out := out + [NewClinit(totalProbeCount)];
      }
    }
  }

  lemma {:induction false} PrefixedLayout(prologue: seq<Insn>, code: seq<Insn>)
    ensures Layout(Plan(prologue, false, 0), code) == prologue + code
  {
    if code != [] {
      PrefixedLayout(prologue, code[..|code| - 1]);
    }
  }

  lemma PlainLayout(code: seq<Insn>)
    ensures Layout(Plan([], false, 0), code) == code
  {
    PrefixedLayout([], code);
    assert [] + code == code;
  }

  lemma OneMoreClinit(pre: seq<MethodNode>, m: MethodNode)
    ensures HasClinit(pre + [m]) <==> HasClinit(pre) || m.name == CLINIT
  {
    if m.name == CLINIT {
      assert (pre + [m])[|pre|].name == CLINIT;
    }
    if HasClinit(pre) {
      var i :| 0 <= i < |pre| && pre[i].name == CLINIT;
      assert (pre + [m])[i].name == CLINIT;
    }
  }

  lemma OneMoreRewritten(config: AgentConfig, total: nat, pre: seq<MethodNode>, m: MethodNode)
    ensures RewrittenMethods(config, total, pre + [m]) == RewrittenMethods(config, total, pre)
      + [m.(body := Rewrite(PlanOf(config, total, m, ProbeTotal(config, pre)), m.body))]
  {
    assert (pre + [m])[..|pre|] == pre;
  }

  lemma {:induction false} FoundItself(methods: seq<MethodNode>, i: nat)
    requires DistinctMethods(methods) && i < |methods|
    ensures FindMethod(methods, methods[i].name, methods[i].desc) == Some(methods[i])
  {
    if i > 0 {
      FoundItself(methods[1..], i - 1);
    }
  }
}
