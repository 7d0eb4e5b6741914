/**
 * The invariant the instrumenter rests on: the n-th probe the rewrite emits is the n-th probe
 * the walk describes, and walking rewritten code describes the same probes again.
 */
module Lockstep {
  import opened Bytecode
  import opened ProbeMap
  import opened ProbeLayout
  import opened ProbeLabels
  import opened ProbeInserter
  import opened ClassInstrumenter

  // ---- Indices the emitted code stores to ----

  /** The indices pushed right after the probe array, in code order. */
  function StoredIndices(code: seq<Insn>): seq<int> {
    if code == [] then []
    else
      var front, last := code[..|code| - 1], code[|code| - 1];
      StoredIndices(front)
      + if last.PushInt? && front != [] && front[|front| - 1].GetProbes? then [last.value] else []
  }

  lemma StoredOneMore(front: seq<Insn>, last: Insn)
    ensures StoredIndices(front + [last]) == StoredIndices(front)
      + if last.PushInt? && front != [] && front[|front| - 1].GetProbes? then [last.value] else []
  {
    var all := front + [last];
    assert all[..|all| - 1] == front && all[|all| - 1] == last;
  }

  lemma {:induction false} StoredInConcat(a: seq<Insn>, b: seq<Insn>)
    requires b != [] ==> !b[0].PushInt?
    ensures StoredIndices(a + b) == StoredIndices(a) + StoredIndices(b)
  {
    if b == [] {
      assert a + b == a;
    } else {
      var front, last := b[..|b| - 1], b[|b| - 1];
      StoredInConcat(a, front);
      StoredOneMore(a + front, last);
      assert a + b == (a + front) + [last];
    }
  }

  function Range(first: int, n: nat): (r: seq<int>)
    ensures |r| == n && forall i :: 0 <= i < n ==> r[i] == first + i
  {
    if n == 0 then [] else Range(first, n - 1) + [first + n - 1]
  }

  lemma RangesJoin(first: int, a: nat, b: nat)
    ensures Range(first, a) + Range(first + a, b) == Range(first, a + b)
  {
  }

  lemma StoredInStore(index: nat)
    ensures StoredIndices(Store(index)) == [index]
  {
    var s := Store(index);
    StoredOneMore([], s[0]);
    StoredOneMore([s[0]], s[1]);
    StoredOneMore([s[0], s[1]], s[2]);
    StoredOneMore([s[0], s[1], s[2]], s[3]);
    assert [] + [s[0]] == [s[0]] && [s[0]] + [s[1]] == [s[0], s[1]] && [s[0], s[1]] + [s[2]] == [s[0], s[1], s[2]];
    assert [s[0], s[1], s[2]] + [s[3]] == s;
  }

  lemma StoredInPair(x: Insn, y: Insn)
    requires !x.GetProbes?
    ensures StoredIndices([x]) == [] && StoredIndices([x, y]) == []
  {
    StoredOneMore([], x);
    StoredOneMore([x], y);
    assert [] + [x] == [x] && [x] + [y] == [x, y];
  }

  lemma StoredInJump(opcode: nat, target: Label, base: nat, index: nat)
    ensures StoredIndices(JumpChunk(opcode, target, base, index)) == [index, index + 1]
  {
    hide Store, StoredIndices, JumpChunk;
    var a, b, c := [Jump(opcode, Probe(base))], [Jump(GOTO, Probe(base + 1)), Mark(Probe(base))], [Jump(GOTO, target), Mark(Probe(base + 1))];
    JumpChunkParts(opcode, target, base, index);
    StoreStarts(index);
    StoreStarts(index + 1);
    StoredInStore(index);
    StoredInStore(index + 1);
    StoredInPair(a[0], a[0]);
    StoredInPair(b[0], b[1]);
    StoredInPair(c[0], c[1]);
    StoredInConcat(a, Store(index));
    StoredInConcat(a + Store(index), b);
    StoredInConcat(a + Store(index) + b, Store(index + 1));
    StoredInConcat(a + Store(index) + b + Store(index + 1), c);
  }

  lemma StoreStarts(index: nat)
    ensures Store(index)[0] == GetProbes
  {
  }

  lemma {:induction false} StoredInBlocks(base: nat, index: nat, insn: Insn, n: nat)
    requires IsSwitch(insn) && n <= ArmCount(insn)
    ensures StoredIndices(Blocks(base, index, insn, n)) == Range(index, n)
  {
    hide Block, StoredIndices;
    if n == 0 {
      assert StoredIndices([]) == [] by { StoredInNothing(); }
    } else {
      StoredInBlocks(base, index, insn, n - 1);
      var block := Block(Probe(base + n - 1), index + n - 1, ArmLabel(insn, n - 1));
      StoredInBlock(Probe(base + n - 1), index + n - 1, ArmLabel(insn, n - 1));
      StoredInConcat(Blocks(base, index, insn, n - 1), block);
    }
  }

  lemma StoredInNothing()
    ensures StoredIndices([]) == []
  {
  }

  lemma StoredInBlock(at: Label, index: nat, target: Label)
    ensures StoredIndices(Block(at, index, target)) == [index] && Block(at, index, target)[0] == Mark(at)
  {
    hide Store, Block, StoredIndices;
    BlockParts(at, index, target);
    StoreStarts(index);
    StoredInStore(index);
    StoredInPair(Mark(at), Mark(at));
    StoredInPair(Jump(GOTO, target), Mark(at));
    StoredInConcat([Mark(at)], Store(index));
    StoredInConcat([Mark(at)] + Store(index), [Jump(GOTO, target)]);
  }

  lemma BlockParts(at: Label, index: nat, target: Label)
    ensures Block(at, index, target) == [Mark(at)] + Store(index) + [Jump(GOTO, target)]
  {
  }

  lemma StoredInChunk(plan: Plan, pre: seq<Insn>, insn: Insn)
    requires IsSourceInsn(insn)
    ensures StoredIndices(Chunk(plan, pre, insn))
         == Range(plan.offset + |Sites(pre)|, if plan.probing then SiteArity(pre, insn) else 0)
    ensures !Chunk(plan, pre, insn)[0].PushInt?
  {
    hide Sites, JumpChunk, Blocks, Store, Redirected, StoredIndices;
    var index, base := plan.offset + |Sites(pre)|, FreshBefore(pre);
    StoredInPair(insn, insn);
    assert [insn] + [] == [insn];
    if plan.probing && insn.Line? && insn !in pre {
      StoreStarts(index);
      StoredInStore(index);
      StoredInConcat([insn], Store(index));
    } else if plan.probing && IsSwitch(insn) {
      var r := Redirected(insn, base);
      assert IsSwitch(r) by { RedirectedIsSwitch(insn, base); }
      StoredInPair(r, r);
      StoredInBlocks(base, index, insn, ArmCount(insn));
      BlocksAt(base, index, insn, ArmCount(insn), 0, 0);
      BlockStarts(base, index, ArmLabel(insn, 0));
      StoredInConcat([r], Blocks(base, index, insn, ArmCount(insn)));
    } else if plan.probing && IsDecision(insn) {
      StoredInJump(insn.opcode, insn.target, base, index);
      assert Range(index, 2) == [index, index + 1];
      JumpChunkParts(insn.opcode, insn.target, base, index);
    }
  }

  lemma RedirectedIsSwitch(insn: Insn, base: nat)
    requires IsSwitch(insn)
    ensures IsSwitch(Redirected(insn, base)) && ArmCount(Redirected(insn, base)) == ArmCount(insn)
  {
  }

  lemma StoredInPrologue(prologue: seq<Insn>)
    requires |prologue| <= 1 && IsPrologue(prologue)
    ensures StoredIndices(prologue) == []
  {
    StoredInNothing();
    if prologue != [] {
      StoredInPair(prologue[0], prologue[0]);
      assert prologue == [prologue[0]];
    }
  }

  lemma {:induction false} StoredInLayout(plan: Plan, code: seq<Insn>)
    requires IsSourceCode(code) && |plan.prologue| <= 1 && IsPrologue(plan.prologue)
    ensures StoredIndices(Layout(plan, code)) == Range(plan.offset, if plan.probing then |Sites(code)| else 0)
  {
    hide Chunk, StoredIndices, Range, SiteArity, IsSourceInsn;
    if code == [] {
      assert StoredIndices(plan.prologue) == [] by { StoredInPrologue(plan.prologue); }
      assert Range(plan.offset, 0) == [];
    } else {
      var front, last := code[..|code| - 1], code[|code| - 1];
      StoredInLayout(plan, front);
      StoredInChunk(plan, front, last);
      StoredInConcat(Layout(plan, front), Chunk(plan, front, last));
      var n, k := if plan.probing then |Sites(front)| else 0, if plan.probing then SiteArity(front, last) else 0;
      RangesJoin(plan.offset, n, k);
      assert plan.probing || Range(plan.offset + |Sites(front)|, 0) == [];
    }
  }

  ghost predicate SourceMethods(methods: seq<MethodNode>) {
    forall i :: 0 <= i < |methods| ==> IsSourceCode(methods[i].body.code)
  }

  /** The indices stored to by the methods of a class, method after method. */
  function ClassStores(methods: seq<MethodNode>): seq<int> {
    if methods == [] then []
    else ClassStores(methods[..|methods| - 1]) + StoredIndices(methods[|methods| - 1].body.code)
  }

  lemma PlanCoversSites(config: AgentConfig, total: nat, m: MethodNode, offset: nat)
    requires total > 0
    ensures
      var plan := PlanOf(config, total, m, offset);
      && IsPrologue(plan.prologue) && |plan.prologue| <= 1
      && (if plan.probing then plan.offset == offset && MethodSites(config, m) == Sites(m.body.code)
          else MethodSites(config, m) == [])
  {
    hide Sites;
  }

  lemma StoresJoin(front: seq<MethodNode>, last: MethodNode)
    ensures ClassStores(front + [last]) == ClassStores(front) + StoredIndices(last.body.code)
  {
    hide StoredIndices;
    assert (front + [last])[..|front|] == front;
  }

  /** One more method continues the numbering. */
  lemma StoresOfOneMore(config: AgentConfig, total: nat, front: seq<MethodNode>, last: MethodNode)
    requires IsSourceCode(last.body.code) && total > 0
    requires ClassStores(RewrittenMethods(config, total, front)) == Range(0, ProbeTotal(config, front))
    ensures ClassStores(RewrittenMethods(config, total, front + [last])) == Range(0, ProbeTotal(config, front + [last]))
  {
    hide Sites, StoredIndices, Layout, ProbeTotal, RewrittenMethods, Range, PlanOf, MethodSites, IsSourceCode, ClassStores;
    OneMoreMethod(config, front, last);
    OneMoreRewritten(config, total, front, last);
    var offset := ProbeTotal(config, front);
    var plan := PlanOf(config, total, last, offset);
    PlanCoversSites(config, total, last, offset);
    StoredInLayout(plan, last.body.code);
    RangesJoin(0, offset, |MethodSites(config, last)|);
    StoresJoin(RewrittenMethods(config, total, front), last.(body := Rewrite(plan, last.body)));
    assert plan.probing || Range(plan.offset, 0) == Range(offset, 0);
  }

  lemma {:induction false} StoresAreNumbered(config: AgentConfig, total: nat, methods: seq<MethodNode>)
    requires SourceMethods(methods) && total > 0
    ensures ClassStores(RewrittenMethods(config, total, methods)) == Range(0, ProbeTotal(config, methods))
  {
    hide Sites, StoredIndices, Layout, PlanOf, MethodSites, IsSourceCode;
    if methods != [] {
      var front, last := methods[..|methods| - 1], methods[|methods| - 1];
      StoresAreNumbered(config, total, front);
      StoresOfOneMore(config, total, front, last);
      assert methods == front + [last];
    }
  }

  /** Site `s` of method `k` has its entry at its own index. */
  ghost predicate EntryInPlace(config: AgentConfig, methods: seq<MethodNode>, k: nat, s: nat)
    requires k < |methods| && s < |MethodSites(config, methods[k])|
  {
    var m, n := methods[k], ProbeTotal(config, methods[..k]) + s;
    && n < ProbeTotal(config, methods)
    && Sites(m.body.code)[s].pc < |m.body.code|
    && ClassEntries(config, methods)[n] == Describe(OwnerOf(m), m.body.code, Sites(m.body.code)[s], n)
  }

  lemma {:induction false} EntriesAreNumbered(config: AgentConfig, methods: seq<MethodNode>, k: nat, s: nat)
    requires k < |methods| && s < |MethodSites(config, methods[k])|
    ensures EntryInPlace(config, methods, k, s)
  {
    hide Sites, Entries, Describe, ClassEntries, ProbeTotal;
    var front := methods[..|methods| - 1];
    assert methods == front + [methods[|methods| - 1]];
    OneMoreMethod(config, front, methods[|methods| - 1]);
    if k < |front| {
      EntriesAreNumbered(config, front, k, s);
      assert front[..k] == methods[..k];
    } else {
      assert front == methods[..k];
      EntryDescribesSite(OwnerOf(methods[k]), ProbeTotal(config, front), methods[k].body.code, s);
    }
  }

  /** Every index below the total belongs to exactly one method and site. */
  lemma {:induction false} OwnerOfIndex(config: AgentConfig, methods: seq<MethodNode>, n: nat) returns (k: nat, s: nat)
    requires n < ProbeTotal(config, methods)
    ensures k < |methods| && s < |MethodSites(config, methods[k])| && n == ProbeTotal(config, methods[..k]) + s
  {
    hide MethodSites;
    var front := methods[..|methods| - 1];
    if n < ProbeTotal(config, front) {
      k, s := OwnerOfIndex(config, front, n);
      assert front[..k] == methods[..k];
    } else {
      k, s := |front|, n - ProbeTotal(config, front);
    }
  }

  /**
   * The probes emitted for a class, in order, store to indices 0, 1, 2, ... up to the count, and
   * entry n of the walk has index n and describes the site that the n-th store belongs to.
   */
  lemma EmissionFollowsWalk(config: AgentConfig, methods: seq<MethodNode>)
    requires SourceMethods(methods) && ProbeTotal(config, methods) > 0
    ensures
      var total := ProbeTotal(config, methods);
      ClassStores(RewrittenMethods(config, total, methods)) == Range(0, total)
    ensures forall n :: 0 <= n < ProbeTotal(config, methods) ==> ClassEntries(config, methods)[n].probeIndex == n
    ensures forall k, s :: 0 <= k < |methods| && 0 <= s < |MethodSites(config, methods[k])| ==> EntryInPlace(config, methods, k, s)
  {
    hide Sites, ClassEntries, ProbeTotal, RewrittenMethods, MethodSites;
    StoresAreNumbered(config, ProbeTotal(config, methods), methods);
    forall k, s | 0 <= k < |methods| && 0 <= s < |MethodSites(config, methods[k])| ensures EntryInPlace(config, methods, k, s) {
      EntriesAreNumbered(config, methods, k, s);
    }
    forall n | 0 <= n < ProbeTotal(config, methods) ensures ClassEntries(config, methods)[n].probeIndex == n {
      var k, s := OwnerOfIndex(config, methods, n);
      EntriesAreNumbered(config, methods, k, s);
    }
  }

  // ---- Walking rewritten code ----

  ghost predicate Quiet(code: seq<Insn>) {
    forall i :: 0 <= i < |code| ==> !code[i].Line? && !IsDecision(code[i])
  }

  /** What the walk can tell about a prefix. */
  ghost predicate SameWalk(owner: Owner, offset: nat, a: seq<Insn>, b: seq<Insn>) {
    && |Sites(a)| == |Sites(b)| && CurrentLine(a) == CurrentLine(b) && Decisions(a) == Decisions(b)
    && (forall n :: Line(n) in a <==> Line(n) in b)
    && Entries(owner, offset, a) == Entries(owner, offset, b)
  }

  lemma {:induction false} QuietAddsNothing(owner: Owner, offset: nat, a: seq<Insn>, q: seq<Insn>)
    requires Quiet(q)
    ensures SameWalk(owner, offset, a + q, a)
  {
    if q == [] {
      assert a + q == a;
    } else {
      hide Sites, Entries, CurrentLine, Decisions, FreshBefore, Layout, Chunk;
      var front, last := q[..|q| - 1], q[|q| - 1];
      QuietAddsNothing(owner, offset, a, front);
      assert a + q == (a + front) + [last];
      OneMore(Probing(0), a + front, last);
      EntriesOfOneMore(owner, offset, a + front, last);
    }
  }

  lemma SameWalkOneMore(owner: Owner, offset: nat, a: seq<Insn>, x: Insn, b: seq<Insn>, y: Insn)
    requires SameWalk(owner, offset, a, b)
    requires x == y || (IsDecision(x) && IsDecision(y) && ArmCount(x) == ArmCount(y))
    ensures SameWalk(owner, offset, a + [x], b + [y])
  {
    hide Sites, Entries, CurrentLine, Decisions, FreshBefore, Layout, Chunk;
    OneMore(Probing(0), a, x);
    OneMore(Probing(0), b, y);
    EntriesOfOneMore(owner, offset, a, x);
    EntriesOfOneMore(owner, offset, b, y);
  }

  lemma StoreIsQuiet(index: nat)
    ensures Quiet(Store(index))
  {
  }

  lemma {:induction false} BlocksAreQuiet(base: nat, index: nat, insn: Insn, n: nat)
    requires IsSwitch(insn) && n <= ArmCount(insn)
    ensures Quiet(Blocks(base, index, insn, n))
  {
    if n > 0 {
      BlocksAreQuiet(base, index, insn, n - 1);
    }
  }

  /** A chunk is its instruction, possibly redirected, and then probe code the walk does not look at. */
  lemma ChunkIsQuiet(plan: Plan, pre: seq<Insn>, insn: Insn)
    ensures
      var c := Chunk(plan, pre, insn);
      && (c[0] == insn || (IsDecision(c[0]) && IsDecision(insn) && ArmCount(c[0]) == ArmCount(insn)))
      && Quiet(c[1..])
  {
    hide Sites, JumpChunk, Blocks, Store, Redirected;
    var index, base := plan.offset + |Sites(pre)|, FreshBefore(pre);
    if plan.probing && insn.Line? {
      StoreIsQuiet(index);
    } else if plan.probing && IsSwitch(insn) {
      RedirectedIsSwitch(insn, base);
      BlocksAreQuiet(base, index, insn, ArmCount(insn));
    } else if plan.probing && IsDecision(insn) {
      JumpChunkParts(insn.opcode, insn.target, base, index);
      StoreIsQuiet(index);
      StoreIsQuiet(index + 1);
    }
  }

  lemma ChunkWalksAlike(owner: Owner, offset: nat, plan: Plan, a: seq<Insn>, front: seq<Insn>, last: Insn)
    requires SameWalk(owner, offset, a, front)
    ensures SameWalk(owner, offset, a + Chunk(plan, front, last), front + [last])
  {
    hide Chunk, SameWalk, Quiet;
    var c := Chunk(plan, front, last);
    ChunkIsQuiet(plan, front, last);
    SameWalkOneMore(owner, offset, a, c[0], front, last);
    QuietAddsNothing(owner, offset, a + [c[0]], c[1..]);
    assert a + c == (a + [c[0]]) + c[1..];
    SameWalkChains(owner, offset, a + c, a + [c[0]], front + [last]);
  }

  lemma {:induction false} LayoutWalksAlike(owner: Owner, offset: nat, plan: Plan, code: seq<Insn>)
    requires Quiet(plan.prologue)
    ensures SameWalk(owner, offset, Layout(plan, code), code)
  {
    hide Chunk, SameWalk, Quiet;
    if code == [] {
      QuietAddsNothing(owner, offset, [], plan.prologue);
      assert [] + plan.prologue == plan.prologue;
    } else {
      var front, last := code[..|code| - 1], code[|code| - 1];
      LayoutWalksAlike(owner, offset, plan, front);
      ChunkWalksAlike(owner, offset, plan, Layout(plan, front), front, last);
      assert front + [last] == code;
    }
  }

  lemma SameWalkChains(owner: Owner, offset: nat, a: seq<Insn>, b: seq<Insn>, c: seq<Insn>)
    requires SameWalk(owner, offset, a, b) && SameWalk(owner, offset, b, c)
    ensures SameWalk(owner, offset, a, c)
  {
  }

  lemma PlansAreQuiet(config: AgentConfig, total: nat, m: MethodNode, offset: nat)
    ensures Quiet(PlanOf(config, total, m, offset).prologue)
  {
  }

  /** Walking a class that has been rewritten gives the entries of the original class. */
  lemma {:induction false} RewalkIsStable(config: AgentConfig, total: nat, methods: seq<MethodNode>)
    ensures ClassEntries(config, RewrittenMethods(config, total, methods)) == ClassEntries(config, methods)
  {
    if methods != [] {
      hide Sites, Entries, Layout, RewrittenMethods, ClassEntries, ProbeTotal, PlanOf;
      var front, last := methods[..|methods| - 1], methods[|methods| - 1];
      assert methods == front + [last];
      RewalkIsStable(config, total, front);
      OneMoreMethod(config, front, last);
      OneMoreRewritten(config, total, front, last);
      var out, offset := RewrittenMethods(config, total, front), ProbeTotal(config, front);
      assert |ClassEntries(config, out)| == offset;
      var plan := PlanOf(config, total, last, offset);
      assert Quiet(plan.prologue) by { PlansAreQuiet(config, total, last, offset); }
      OneMoreMethod(config, out, last.(body := Rewrite(plan, last.body)));
      LayoutWalksAlike(OwnerOf(last), offset, plan, last.body.code);
    }
  }

  /** The same for the class as it leaves the visitor, with an initializer added where there was none. */
  lemma RewalkOfInstrumentedClass(config: AgentConfig, total: nat, methods: seq<MethodNode>, extra: seq<MethodNode>)
    requires extra == [] || extra == [NewClinit(total)]
    ensures ClassEntries(config, RewrittenMethods(config, total, methods) + extra) == ClassEntries(config, methods)
  {
    RewalkIsStable(config, total, methods);
    var out := RewrittenMethods(config, total, methods);
    if extra == [] {
      assert out + extra == out;
    } else {
      OneMoreMethod(config, out, NewClinit(total));
    }
  }
}
