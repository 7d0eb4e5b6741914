/**
 * One activation of a rewritten method against the same activation of the original: every
 * step either is the matching original step or runs probe code that leaves the original
 * activation where it is.
 */
module Simulation {
  import opened Bytecode
  import opened ProbeLayout
  import opened ProbeLabels

  predicate Resolves(code: seq<Insn>, l: Label) {
    Find(code, l) < |code|
  }

  /** What the JVM's verifier guarantees: labels are the class file's own, and jumps have a target. */
  ghost predicate WellFormed(body: Body) {
    && IsSourceCode(body.code)
    && (forall i :: 0 <= i < |body.code| && body.code[i].Jump? ==> Resolves(body.code, body.code[i].target))
    && (forall i, arm :: 0 <= i < |body.code| && IsSwitch(body.code[i]) && 0 <= arm < ArmCount(body.code[i]) ==>
          Resolves(body.code, ArmLabel(body.code[i], arm)))
    && (forall h :: h in body.handlers ==> h.start.Source? && h.end.Source? && h.handler.Source?)
  }

  // ---- Where a rewritten activation stands ----

  datatype Where =
    | Prologue(k: nat)                         // before the method's own code
    | At(i: nat)                               // about to run what instruction i became
    | Enter(i: nat, arm: nat)                  // at the label of an arm's probe block
    | Storing(i: nat, arm: nat, r: nat, missing: bool)   // at instruction r of a probe store; the field was null when read
    | Leave(i: nat, arm: nat)                  // at the jump that ends a probe block
    | Join(i: nat)                             // at the label after a conditional jump

  predicate IsWhere(plan: Plan, code: seq<Insn>, w: Where) {
    match w
    case Prologue(k) => k < |plan.prologue|
    case At(i) => i <= |code|
    case Enter(i, arm) => plan.probing && i < |code| && IsDecision(code[i]) && arm < ArmCount(code[i]) && (code[i].Jump? ==> arm == 1)
    case Storing(i, arm, r, missing) => plan.probing && i < |code| && arm < SiteArity(code[..i], code[i]) && r < 4 && (r == 0 ==> !missing)
    case Leave(i, arm) => plan.probing && i < |code| && IsDecision(code[i]) && arm < ArmCount(code[i])
    case Join(i) => plan.probing && i < |code| && IsDecision(code[i]) && code[i].Jump?
  }

  /** The distance from the start of the chunk. */
  function OffsetIn(code: seq<Insn>, w: Where): nat
    requires !w.Prologue? && !w.At? ==> w.i < |code|
  {
    match w
    case Prologue(k) => k
    case At(_) => 0
    case Enter(i, arm) => if code[i].Jump? then 6 else 1 + 6 * arm
    case Storing(i, arm, r, _) => (if IsSwitch(code[i]) then 2 + 6 * arm else 1 + 6 * arm) + r
    case Leave(i, arm) => if code[i].Jump? then 5 + 6 * arm else 6 + 6 * arm
    case Join(_) => 12
  }

  function PcOf(plan: Plan, code: seq<Insn>, w: Where): nat
    requires IsWhere(plan, code, w)
  {
    if w.Prologue? then w.k else Pos(plan, code, w.i) + OffsetIn(code, w)
  }

  function IndexOf(plan: Plan, code: seq<Insn>, i: nat, arm: nat): nat
    requires i <= |code|
  {
    plan.offset + |Sites(code[..i])| + arm
  }

  /** The operands a store has pushed before its instruction `r`. */
  function Pushed(index: nat, r: nat, missing: bool): seq<Slot>
    requires r < 4
  {
    [if missing then Null else ProbeArray, Word(index), Word(1)][..r]
  }

  /** What the original activation looks like when the rewritten one is at `w` with `stack` of its own. */
  function Original(plan: Plan, code: seq<Insn>, w: Where, stack: seq<Slot>): Frame
    requires IsWhere(plan, code, w)
  {
    match w
    case Prologue(_) => Running(0, stack)
    case At(i) => Running(i, stack)
    case Enter(i, arm) => FollowArm(code, i, arm, stack)
    case Storing(i, arm, _, _) => if code[i].Line? then Running(i + 1, stack) else FollowArm(code, i, arm, stack)
    case Leave(i, arm) => FollowArm(code, i, arm, stack)
    case Join(i) => Running(i + 1, stack)
  }

  function Rewritten(plan: Plan, code: seq<Insn>, w: Where, stack: seq<Slot>): Frame
    requires IsWhere(plan, code, w)
  {
    Running(PcOf(plan, code, w), if w.Storing? then stack + Pushed(IndexOf(plan, code, w.i, w.arm), w.r, w.missing) else stack)
  }

  /** The place of an activation together with the operands that belong to the original. */
  datatype Spot = Ended(frame: Frame) | Spot(w: Where, stack: seq<Slot>)

  ghost predicate Matches(plan: Plan, code: seq<Insn>, spot: Spot, rewritten: Frame, original: Frame) {
    match spot
    case Ended(f) => rewritten == original == f && !f.Running?
    case Spot(w, stack) =>
      && IsWhere(plan, code, w)
      && rewritten == Rewritten(plan, code, w, stack)
      && original == Original(plan, code, w, stack)
  }

  /** The place after `w`, for the places inside probe code. */
  function Next(plan: Plan, code: seq<Insn>, w: Where, isSet: bool): Where
    requires IsWhere(plan, code, w) && !w.At?
  {
    match w
    case Prologue(k) => if k + 1 < |plan.prologue| then Prologue(k + 1) else At(0)
    case Enter(i, arm) => Storing(i, arm, 0, false)
    case Storing(i, arm, r, missing) =>
      if r < 3 then Storing(i, arm, r + 1, if r == 0 then !isSet else missing) else if code[i].Line? then At(i + 1) else Leave(i, arm)
    case Leave(i, arm) => if code[i].Jump? && arm == 0 then Join(i) else At(Find(code, ArmLabel(code[i], arm)))
    case Join(i) => At(i + 1)
  }

  /** How many steps of probe code are left. */
  function Rank(plan: Plan, code: seq<Insn>, w: Where): nat
    requires IsWhere(plan, code, w)
  {
    match w
    case Prologue(k) => |plan.prologue| - k
    case At(_) => 0
    case Enter(_, _) => 6
    case Storing(i, arm, r, _) => (4 - r) + if code[i].Line? then 0 else if code[i].Jump? && arm == 0 then 2 else 1
    case Leave(i, arm) => if code[i].Jump? && arm == 0 then 2 else 1
    case Join(_) => 1
  }

  // ---- The instruction at each place ----

  lemma JumpChunkIs(opcode: nat, target: Label, base: nat, index: nat)
    ensures
      var c := JumpChunk(opcode, target, base, index);
      && c[0] == Jump(opcode, Probe(base))
      && c[5] == Jump(GOTO, Probe(base + 1)) && c[6] == Mark(Probe(base))
      && c[11] == Jump(GOTO, target) && c[12] == Mark(Probe(base + 1))
  {
  }

  lemma JumpChunkStores(opcode: nat, target: Label, base: nat, index: nat, r: nat)
    requires r < 4
    ensures JumpChunk(opcode, target, base, index)[1 + r] == Store(index)[r]
    ensures JumpChunk(opcode, target, base, index)[7 + r] == Store(index + 1)[r]
  {
  }

  lemma BlockIs(at: Label, index: nat, target: Label)
    ensures
      var b := Block(at, index, target);
      && b[0] == Mark(at) && b[5] == Jump(GOTO, target)
      && forall r :: 0 <= r < 4 ==> b[1 + r] == Store(index)[r]
  {
  }

  function ExpectedInsn(plan: Plan, code: seq<Insn>, w: Where): Insn
    requires IsWhere(plan, code, w) && w != At(|code|)
  {
    var base := if w.Prologue? then 0 else FreshBefore(code[..w.i]);
    match w
    case Prologue(k) => plan.prologue[k]
    case At(i) =>
      if plan.probing && IsDecision(code[i]) then
        if code[i].Jump? then Jump(code[i].opcode, Probe(base)) else Redirected(code[i], base)
      else code[i]
    case Enter(i, arm) => Mark(Probe(if code[i].Jump? then base else base + arm))
    case Storing(i, arm, r, _) => Store(IndexOf(plan, code, i, arm))[r]
    case Leave(i, arm) => Jump(GOTO, if code[i].Jump? && arm == 0 then Probe(base + 1) else ArmLabel(code[i], arm))
    case Join(_) => Mark(Probe(base + 1))
  }

  lemma JumpInsn(plan: Plan, code: seq<Insn>, w: Where)
    requires IsWhere(plan, code, w) && plan.probing && !w.Prologue? && w != At(|code|)
    requires code[w.i].Jump? && IsDecision(code[w.i])
    ensures
      var c, k := Chunk(plan, code[..w.i], code[w.i]), OffsetIn(code, w);
      k < |c| && c[k] == ExpectedInsn(plan, code, w)
  {
    hide JumpChunk, Store;
    var base, index := FreshBefore(code[..w.i]), plan.offset + |Sites(code[..w.i])|;
    JumpChunkIs(code[w.i].opcode, code[w.i].target, base, index);
    if w.Storing? {
      JumpChunkStores(code[w.i].opcode, code[w.i].target, base, index, w.r);
    }
  }

  lemma SwitchInsn(plan: Plan, code: seq<Insn>, w: Where)
    requires IsWhere(plan, code, w) && plan.probing && !w.Prologue? && w != At(|code|) && IsSwitch(code[w.i])
    ensures
      var c, k := Chunk(plan, code[..w.i], code[w.i]), OffsetIn(code, w);
      k < |c| && c[k] == ExpectedInsn(plan, code, w)
  {
    hide Blocks, Block, Store;
    var insn, base, index := code[w.i], FreshBefore(code[..w.i]), plan.offset + |Sites(code[..w.i])|;
    if !w.At? {
      var r := if w.Enter? then 0 else if w.Storing? then 1 + w.r else 5;
      BlocksAt(base, index, insn, ArmCount(insn), w.arm, r);
      BlockIs(Probe(base + w.arm), index + w.arm, ArmLabel(insn, w.arm));
    }
  }

  lemma ChunkInsn(plan: Plan, code: seq<Insn>, w: Where)
    requires IsWhere(plan, code, w) && !w.Prologue? && w != At(|code|)
    ensures
      var c, k := Chunk(plan, code[..w.i], code[w.i]), OffsetIn(code, w);
      k < |c| && c[k] == ExpectedInsn(plan, code, w)
  {
    if plan.probing && IsSwitch(code[w.i]) {
      SwitchInsn(plan, code, w);
    } else if plan.probing && IsDecision(code[w.i]) {
      JumpInsn(plan, code, w);
    } else {
      hide JumpChunk, Blocks, Redirected, Store;
      assert w.Storing? ==> Chunk(plan, code[..w.i], code[w.i]) == [code[w.i]] + Store(IndexOf(plan, code, w.i, w.arm));
    }
  }

  lemma InsnAt(plan: Plan, code: seq<Insn>, w: Where)
    requires IsWhere(plan, code, w) && w != At(|code|)
    ensures
      var out, pc := Layout(plan, code), PcOf(plan, code, w);
      pc < |out| && out[pc] == ExpectedInsn(plan, code, w)
  {
    hide Chunk, OffsetIn, Sites, FreshBefore, SiteArity;
    if w.Prologue? {
      LayoutPrefix(plan, code, 0);
      assert Layout(plan, code[..0]) == plan.prologue;
    } else {
      hide Layout, ExpectedInsn;
      ChunkInsn(plan, code, w);
      ChunkAt(plan, code, w.i, OffsetIn(code, w));
    }
  }

  lemma LayoutStarts(plan: Plan, code: seq<Insn>)
    ensures Layout(plan, code[..0]) == plan.prologue
  {
  }

  lemma ChunkLength(plan: Plan, pre: seq<Insn>, insn: Insn)
    ensures plan.probing && insn.Line? && insn !in pre ==> |Chunk(plan, pre, insn)| == 5
    ensures plan.probing && insn.Jump? && IsDecision(insn) ==> |Chunk(plan, pre, insn)| == 13
  {
    hide JumpChunk, Blocks, Redirected, Store, Sites, FreshBefore;
  }

  /** One place after another, the position goes up by one, except where probe code jumps. */
  lemma NextIsPlusOne(plan: Plan, code: seq<Insn>, w: Where, isSet: bool)
    requires IsWhere(plan, code, w) && !w.At? && !w.Leave?
    ensures IsWhere(plan, code, Next(plan, code, w, isSet))
    ensures PcOf(plan, code, Next(plan, code, w, isSet)) == PcOf(plan, code, w) + 1
  {
    hide Layout, Chunk, Sites, FreshBefore;
    if w.Prologue? {
      assert Pos(plan, code, 0) == |plan.prologue| by { LayoutStarts(plan, code); }
    } else {
      LayoutNext(plan, code, w.i);
      ChunkLength(plan, code[..w.i], code[w.i]);
    }
  }

  // ---- Steps ----

  predicate InBounds(plan: Plan, code: seq<Insn>, field: Field) {
    plan.probing ==> plan.offset + |Sites(code)| <= |field.elements|
  }

  lemma {:induction false} SitesGrow(code: seq<Insn>, i: nat)
    requires i < |code|
    ensures |Sites(code[..i])| + SiteArity(code[..i], code[i]) <= |Sites(code)|
    decreases |code|
  {
    var front := code[..|code| - 1];
    if i < |front| {
      SitesGrow(front, i);
      assert front[..i] == code[..i];
    } else {
      assert code[..i] == front;
    }
  }

  /** The rewritten activation takes one step of probe code and the original stays where it is. */
  ghost predicate Stutters<W>(sem: Semantics<W>, plan: Plan, body: Body, world: W, field: Field, w: Where, stack: seq<Slot>, field': Field)
    requires IsWhere(plan, body.code, w) && !w.At?
  {
    var next := Next(plan, body.code, w, field.isSet);
    && IsWhere(plan, body.code, next)
    && FrameStep(sem, Rewrite(plan, body), world, field, Rewritten(plan, body.code, w, stack))
       == Stepped(world, field', Rewritten(plan, body.code, next, stack))
    && Original(plan, body.code, next, stack) == Original(plan, body.code, w, stack)
    && Rank(plan, body.code, next) < Rank(plan, body.code, w)
  }

  /** Labels change nothing, and the initializer's registration sets the field. */
  lemma MarkerStep<W>(sem: Semantics<W>, plan: Plan, body: Body, world: W, field: Field, w: Where, stack: seq<Slot>)
    requires WellFormed(body) && IsPrologue(plan.prologue)
    requires IsWhere(plan, body.code, w) && (w.Prologue? || w.Enter? || w.Join?)
    ensures Stutters(sem, plan, body, world, field, w, stack, if w.Prologue? then field.(isSet := true) else field)
  {
    hide Layout, Chunk, Sites, WellFormed, Store;
    InsnAt(plan, body.code, w);
    NextIsPlusOne(plan, body.code, w, field.isSet);
    assert w.Enter? ==> stack + Pushed(IndexOf(plan, body.code, w.i, w.arm), 0, false) == stack;
  }

  lemma LeaveStep<W>(sem: Semantics<W>, plan: Plan, body: Body, world: W, field: Field, w: Where, stack: seq<Slot>)
    requires WellFormed(body) && IsPrologue(plan.prologue)
    requires IsWhere(plan, body.code, w) && w.Leave?
    ensures Stutters(sem, plan, body, world, field, w, stack, field)
  {
    hide Layout, Chunk, Sites, Store, Find, WellFormed, FreshBefore;
    var code := body.code;
    InsnAt(plan, code, w);
    if code[w.i].Jump? && w.arm == 0 {
      assert IsSourceCode(code) by { SourceOf(body); }
      ProbeLabelFound(plan, code, w.i, 1);
    } else {
      LabelMoves(plan, body, w.i, w.arm);
    }
  }

  lemma SourceOf(body: Body)
    requires WellFormed(body)
    ensures IsSourceCode(body.code)
  {
  }

  /** The target of an arm, in the original and in the rewritten code. */
  lemma LabelMoves(plan: Plan, body: Body, i: nat, arm: nat)
    requires WellFormed(body) && IsPrologue(plan.prologue)
    requires i < |body.code| && IsDecision(body.code[i]) && arm < ArmCount(body.code[i]) && (body.code[i].Jump? ==> arm == 1)
    ensures
      var l := ArmLabel(body.code[i], arm);
      var p, q := Find(body.code, l), Find(Layout(plan, body.code), l);
      p < |body.code| && q == Pos(plan, body.code, p) < |Layout(plan, body.code)|
  {
    hide Layout, Chunk, Sites;
    var code, l := body.code, ArmLabel(body.code[i], arm);
    assert Resolves(code, l);
    assert IsSourceInsn(code[i]);
    SourceLabelMoves(plan, code, l);
    PosIsMonotone(plan, code, Find(code, l), |code|);
    assert code[..|code|] == code;
  }

  /** The last instruction of a store that has read null. */
  predicate IsDoomed(w: Where) {
    w.Storing? && w.r == 3 && w.missing
  }

  /** An array on the operand stack has been read from the field. */
  predicate Fetched(w: Where, isSet: bool) {
    w.Storing? && w.r > 0 && !w.missing ==> isSet
  }

  lemma StoreStep<W>(sem: Semantics<W>, plan: Plan, body: Body, world: W, field: Field, w: Where, stack: seq<Slot>)
    requires WellFormed(body) && IsPrologue(plan.prologue) && InBounds(plan, body.code, field)
    requires IsWhere(plan, body.code, w) && w.Storing? && !IsDoomed(w) && Fetched(w, field.isSet)
    ensures
      var index := IndexOf(plan, body.code, w.i, w.arm);
      && index < |field.elements|
      && Stutters(sem, plan, body, world, field, w, stack, if w.r == 3 then field.(elements := field.elements[index := true]) else field)
  {
    hide Layout, Chunk, Sites, WellFormed, FrameStep, Store, Pushed;
    var code, index := body.code, IndexOf(plan, body.code, w.i, w.arm);
    InsnAt(plan, code, w);
    NextIsPlusOne(plan, code, w, field.isSet);
    SitesGrow(code, w.i);
    if w.r < 3 {
      PushStep(sem, Rewrite(plan, body), world, field, PcOf(plan, code, w), stack, index, w.r, w.missing);
    } else {
      BaStoreStep(sem, Rewrite(plan, body), world, field, PcOf(plan, code, w), stack, index);
    }
  }

  lemma PushStep<W>(sem: Semantics<W>, body: Body, world: W, field: Field, pc: nat, stack: seq<Slot>, index: nat, r: nat, missing: bool)
    requires r < 3 && pc < |body.code| && body.code[pc] == Store(index)[r]
    ensures FrameStep(sem, body, world, field, Running(pc, stack + Pushed(index, r, missing)))
         == Stepped(world, field, Running(pc + 1, stack + Pushed(index, r + 1, if r == 0 then !field.isSet else missing)))
  {
    var after := if r == 0 then !field.isSet else missing;
    assert stack + Pushed(index, r + 1, after)
        == (stack + Pushed(index, r, missing)) + [[if after then Null else ProbeArray, Word(index), Word(1)][r]];
  }

  lemma BaStoreStep<W>(sem: Semantics<W>, body: Body, world: W, field: Field, pc: nat, stack: seq<Slot>, index: nat)
    requires pc < |body.code| && body.code[pc] == Store(index)[3] && index < |field.elements| && field.isSet
    ensures FrameStep(sem, body, world, field, Running(pc, stack + Pushed(index, 3, false)))
         == Stepped(world, field.(elements := field.elements[index := true]), Running(pc + 1, stack))
  {
    var full := stack + Pushed(index, 3, false);
    assert full[|stack|] == ProbeArray && full[|stack| + 1] == Word(index) && full[|stack| + 2] == Word(1);
    assert full[..|stack|] == stack;
  }

  /** A store that has read null raises, and does not set its probe. */
  lemma DoomedStep<W>(sem: Semantics<W>, plan: Plan, body: Body, world: W, field: Field, w: Where, stack: seq<Slot>)
    requires WellFormed(body) && IsWhere(plan, body.code, w) && IsDoomed(w)
    ensures
      var (after, e) := sem.nullPointer(world);
      FrameStep(sem, Rewrite(plan, body), world, field, Rewritten(plan, body.code, w, stack))
      == Stepped(after, field, Unwind(sem, Layout(plan, body.code), body.handlers, PcOf(plan, body.code, w), e))
  {
    hide Layout, Chunk, Sites, WellFormed, PcOf, IndexOf, Unwind;
    InsnAt(plan, body.code, w);
    var full := stack + Pushed(IndexOf(plan, body.code, w.i, w.arm), 3, true);
    assert full[|stack|] == Null && |full| == |stack| + 3;
  }

  /** Nothing else stores into null. */
  lemma OnlyDoomedStores(plan: Plan, body: Body, w: Where, stack: seq<Slot>)
    requires WellFormed(body) && IsPrologue(plan.prologue) && IsWhere(plan, body.code, w)
    ensures StoresIntoNull(Layout(plan, body.code), Rewritten(plan, body.code, w, stack)) <==> IsDoomed(w)
  {
    hide Layout, Chunk, Sites, WellFormed, Find, FreshBefore;
    var code := body.code;
    if w == At(|code|) {
      assert code[..|code|] == code;
    } else {
      assert IsSourceCode(code) by { SourceOf(body); }
      InsnAt(plan, code, w);
      if w.Storing? && w.r == 3 {
        var full := stack + Pushed(IndexOf(plan, code, w.i, w.arm), 3, w.missing);
        assert full[|stack|] == (if w.missing then Null else ProbeArray);
      }
    }
  }

  /** On the way to the store of a site, the store is what comes next. */
  lemma StoreAhead(plan: Plan, code: seq<Insn>, w: Where)
    requires IsWhere(plan, code, w) && (w.Enter? || w.Storing?)
    ensures IsBeforeStore(Layout(plan, code), PcOf(plan, code, w), IndexOf(plan, code, w.i, w.arm))
  {
    hide Layout, Chunk, Sites, FreshBefore, Store;
    var out, index := Layout(plan, code), IndexOf(plan, code, w.i, w.arm);
    var first := Storing(w.i, w.arm, 0, false);
    var q := PcOf(plan, code, first);
    assert IsWhere(plan, code, first) && PcOf(plan, code, w) == if w.Enter? then q - 1 else q + w.r;
    forall r | 0 <= r < 4 ensures q + r < |out| && out[q + r] == Store(index)[r] {
      InsnAt(plan, code, Storing(w.i, w.arm, r, false));
      assert PcOf(plan, code, Storing(w.i, w.arm, r, false)) == q + r;
    }
    assert IsStoreAt(out, q, index) by {
      var last := Store(index)[3];
      assert q + 3 < |out|;
    }
    if w.Enter? {
      InsnAt(plan, code, w);
    }
    assert Faces(out, PcOf(plan, code, w), q);
  }

  /** The probe site the original activation passes with its next step, if any. */
  datatype Passing = Nothing | Passing(site: Site)

  function SitePassed<W>(sem: Semantics<W>, code: seq<Insn>, f: Frame): (p: Passing)
    ensures p.Passing? ==> p.site.pc < |code| && p.site.arm < SiteArity(code[..p.site.pc], code[p.site.pc])
  {
    if !f.Running? || f.pc >= |code| then Nothing
    else if code[f.pc].Line? then
      if code[f.pc] in code[..f.pc] then Nothing else Passing(Site(f.pc, 0))
    else if IsDecision(code[f.pc]) then
      var c := Choose(sem, code[f.pc], f.stack);
      if c.Choice? then Passing(Site(f.pc, c.arm)) else Nothing
    else Nothing
  }

  /** Where the rewritten activation goes when the original passes `passing` and ends up as `f`. */
  function SpotAfter(plan: Plan, code: seq<Insn>, passing: Passing, f: Frame): Spot {
    if !f.Running? then Ended(f)
    else if !plan.probing || passing.Nothing? || passing.site.pc >= |code| then Spot(At(f.pc), f.stack)
    else
      var Site(i, arm) := passing.site;
      Spot(if code[i].Line? || (code[i].Jump? && arm == 0) then Storing(i, arm, 0, false) else Enter(i, arm), f.stack)
  }

  /** One step of the original, and the step of the rewritten activation that matches it. */
  ghost predicate Advances<W>(sem: Semantics<W>, plan: Plan, body: Body, world: W, field: Field, others: Field, i: nat, stack: seq<Slot>)
    requires i <= |body.code|
  {
    var o := FrameStep(sem, body, world, others, Running(i, stack));
    var r := FrameStep(sem, Rewrite(plan, body), world, field, Rewritten(plan, body.code, At(i), stack));
    && r.world == o.world && r.field == field && o.field == others
    && Matches(plan, body.code, SpotAfter(plan, body.code, SitePassed(sem, body.code, Running(i, stack)), o.frame), r.frame, o.frame)
  }

  lemma EndStep<W>(sem: Semantics<W>, plan: Plan, body: Body, world: W, field: Field, others: Field, stack: seq<Slot>)
    ensures Advances(sem, plan, body, world, field, others, |body.code|, stack)
  {
    assert body.code[..|body.code|] == body.code;
  }

  /** The rerouted jump goes to the probe of the arm the original takes. */
  lemma ReroutedStep<W>(sem: Semantics<W>, plan: Plan, body: Body, world: W, field: Field, i: nat, stack: seq<Slot>)
    requires WellFormed(body) && IsPrologue(plan.prologue) && plan.probing
    requires i < |body.code| && IsDecision(body.code[i]) && body.code[i].Jump?
    ensures
      var (taken, rest) := sem.test(body.code[i].opcode, stack);
      FrameStep(sem, Rewrite(plan, body), world, field, Rewritten(plan, body.code, At(i), stack))
      == Stepped(world, field, Running(Pos(plan, body.code, i) + if taken then 6 else 1, rest))
  {
    hide Layout, Chunk, Sites, Store, Find, WellFormed, FreshBefore;
    SourceOf(body);
    InsnAt(plan, body.code, At(i));
    ProbeLabelFound(plan, body.code, i, 0);
  }

  lemma JumpStep<W>(sem: Semantics<W>, body: Body, world: W, field: Field, i: nat, stack: seq<Slot>)
    requires i < |body.code| && IsDecision(body.code[i]) && body.code[i].Jump?
    ensures
      var (taken, rest) := sem.test(body.code[i].opcode, stack);
      FrameStep(sem, body, world, field, Running(i, stack))
      == Stepped(world, field, if taken then JumpTo(body.code, body.code[i].target, rest) else Running(i + 1, rest))
  {
    hide Find;
  }

  lemma ProbedJumpStep<W>(sem: Semantics<W>, plan: Plan, body: Body, world: W, field: Field, others: Field, i: nat, stack: seq<Slot>)
    requires WellFormed(body) && IsPrologue(plan.prologue) && plan.probing
    requires i < |body.code| && IsDecision(body.code[i]) && body.code[i].Jump?
    ensures Advances(sem, plan, body, world, field, others, i, stack)
  {
    hide Layout, Chunk, Sites, Store, Find, WellFormed, FreshBefore, FrameStep, Rewrite;
    ReroutedStep(sem, plan, body, world, field, i, stack);
    JumpStep(sem, body, world, others, i, stack);
    LabelMoves(plan, body, i, 1);
    var rest := sem.test(body.code[i].opcode, stack).1;
    assert rest + Pushed(IndexOf(plan, body.code, i, 0), 0, false) == rest;
  }

  /** The redirected switch goes to the probe block of the arm the original selects. */
  lemma RedirectedStep<W>(sem: Semantics<W>, plan: Plan, body: Body, world: W, field: Field, i: nat, stack: seq<Slot>)
    requires WellFormed(body) && IsPrologue(plan.prologue) && plan.probing
    requires i < |body.code| && IsSwitch(body.code[i])
    ensures
      var c := Choose(sem, body.code[i], stack);
      FrameStep(sem, Rewrite(plan, body), world, field, Rewritten(plan, body.code, At(i), stack))
      == Stepped(world, field,
                 if c.Choice? then Running(Pos(plan, body.code, i) + MarkOffset(body.code[i], c.arm), c.rest) else Faulted)
  {
    hide Layout, Chunk, Sites, Store, Find, WellFormed, FreshBefore, SwitchArm, Redirected;
    var code := body.code;
    SourceOf(body);
    InsnAt(plan, code, At(i));
    var c := Choose(sem, code[i], stack);
    RedirectedArm(code[i], FreshBefore(code[..i]), if c.Choice? then stack[|stack| - 1].value else 0);
    if c.Choice? {
      ProbeLabelFound(plan, code, i, c.arm);
    }
  }

  lemma SwitchStep<W>(sem: Semantics<W>, body: Body, world: W, field: Field, i: nat, stack: seq<Slot>)
    requires i < |body.code| && IsSwitch(body.code[i])
    ensures
      var c := Choose(sem, body.code[i], stack);
      FrameStep(sem, body, world, field, Running(i, stack))
      == Stepped(world, field, if c.Choice? then JumpTo(body.code, ArmLabel(body.code[i], c.arm), c.rest) else Faulted)
  {
    hide SwitchArm, Find;
  }

  lemma ProbedSwitchStep<W>(sem: Semantics<W>, plan: Plan, body: Body, world: W, field: Field, others: Field, i: nat, stack: seq<Slot>)
    requires WellFormed(body) && IsPrologue(plan.prologue) && plan.probing
    requires i < |body.code| && IsSwitch(body.code[i])
    ensures Advances(sem, plan, body, world, field, others, i, stack)
  {
    hide Layout, Chunk, Sites, Store, Find, WellFormed, FreshBefore, SwitchArm, Rewrite, FrameStep, Choose;
    RedirectedStep(sem, plan, body, world, field, i, stack);
    SwitchStep(sem, body, world, others, i, stack);
    var c := Choose(sem, body.code[i], stack);
    if c.Choice? {
      LabelMoves(plan, body, i, c.arm);
    }
  }

  /** The redirected switch selects the same arm and sends it to that arm's own label. */
  lemma RedirectedArm(insn: Insn, base: nat, index: int)
    requires IsSwitch(insn)
    ensures
      var r, arm := Redirected(insn, base), SwitchArm(insn, index);
      IsSwitch(r) && SwitchArm(r, index) == arm < ArmCount(r) && ArmLabel(r, arm) == Probe(base + arm)
  {
  }

  lemma PlainDecisionStep<W>(sem: Semantics<W>, plan: Plan, body: Body, world: W, field: Field, others: Field, i: nat, stack: seq<Slot>)
    requires WellFormed(body) && IsPrologue(plan.prologue) && !plan.probing
    requires i < |body.code| && IsDecision(body.code[i])
    ensures Advances(sem, plan, body, world, field, others, i, stack)
  {
    hide Layout, Sites, Store, Find, WellFormed, FreshBefore;
    InsnAt(plan, body.code, At(i));
    LayoutNext(plan, body.code, i);
    var c := Choose(sem, body.code[i], stack);
    if c.Choice? && !(body.code[i].Jump? && c.arm == 0) {
      LabelMoves(plan, body, i, c.arm);
    }
  }

  lemma GotoStep<W>(sem: Semantics<W>, plan: Plan, body: Body, world: W, field: Field, others: Field, i: nat, stack: seq<Slot>)
    requires WellFormed(body) && IsPrologue(plan.prologue)
    requires i < |body.code| && !IsDecision(body.code[i]) && body.code[i].Jump?
    ensures Advances(sem, plan, body, world, field, others, i, stack)
  {
    hide Layout, Chunk, Sites, Store, Find, FreshBefore;
    var code, l := body.code, body.code[i].target;
    InsnAt(plan, code, At(i));
    assert Resolves(code, l) && IsSourceInsn(code[i]);
    SourceLabelMoves(plan, code, l);
    PosIsMonotone(plan, code, Find(code, l), |code|);
    assert code[..|code|] == code;
  }

  /** The same handler catches the same exception: instruction ranges keep their members. */
  lemma {:induction false} UnwindMatches<W>(sem: Semantics<W>, plan: Plan, body: Body, handlers: seq<Handler>, i: nat, e: Slot)
    requires WellFormed(body) && IsPrologue(plan.prologue) && i < |body.code|
    requires forall h :: h in handlers ==> h in body.handlers
    ensures
      var o := Unwind(sem, body.code, handlers, i, e);
      var r := Unwind(sem, Layout(plan, body.code), handlers, Pos(plan, body.code, i), e);
      if o.Running? then o.pc <= |body.code| && r == Running(Pos(plan, body.code, o.pc), o.stack) else r == o
    decreases |handlers|
  {
    hide Layout, Chunk, Sites, Find;
    if handlers != [] {
      var code, h := body.code, handlers[0];
      assert h in body.handlers;
      CoversMatches(plan, body, h, i);
      UnwindMatches(sem, plan, body, handlers[1..], i, e);
    }
  }

  lemma PosOrder(plan: Plan, code: seq<Insn>, i: nat, j: nat)
    requires i <= |code| && j <= |code|
    ensures i < j <==> Pos(plan, code, i) < Pos(plan, code, j)
  {
    if i < j {
      PosIsMonotone(plan, code, i, j);
    } else if j < i {
      PosIsMonotone(plan, code, j, i);
    }
  }

  lemma CoversMatches(plan: Plan, body: Body, h: Handler, i: nat)
    requires WellFormed(body) && IsPrologue(plan.prologue) && i < |body.code| && h in body.handlers
    ensures Covers(body.code, h, i) <==> Covers(Layout(plan, body.code), h, Pos(plan, body.code, i))
    ensures Find(Layout(plan, body.code), h.handler) == Pos(plan, body.code, Find(body.code, h.handler))
  {
    hide Layout, Chunk, Sites, Find;
    var code := body.code;
    SourceLabelMoves(plan, code, h.start);
    SourceLabelMoves(plan, code, h.end);
    SourceLabelMoves(plan, code, h.handler);
    PosOrder(plan, code, i, Find(code, h.start));
    PosOrder(plan, code, i, Find(code, h.end));
    PosOrder(plan, code, Find(code, h.handler), |code|);
    assert code[..|code|] == code;
  }

  lemma PlainStep<W>(sem: Semantics<W>, plan: Plan, body: Body, world: W, field: Field, others: Field, i: nat, stack: seq<Slot>)
    requires WellFormed(body) && IsPrologue(plan.prologue)
    requires i < |body.code| && !IsDecision(body.code[i]) && !body.code[i].Jump?
    ensures Advances(sem, plan, body, world, field, others, i, stack)
  {
    hide Layout, Sites, Find, FreshBefore, Unwind;
    var code := body.code;
    assert IsSourceInsn(code[i]);
    InsnAt(plan, code, At(i));
    LayoutNext(plan, code, i);
    if code[i].Op? {
      var s := sem.op(code[i].opcode, world, stack);
      if s.Raised? {
        UnwindMatches(sem, plan, body, body.handlers, i, s.exception);
      }
    } else {
      assert stack + Pushed(IndexOf(plan, code, i, 0), 0, false) == stack;
    }
  }

  /** From the start of a chunk, the next step is the original's next step. */
  lemma MatchedStep<W>(sem: Semantics<W>, plan: Plan, body: Body, world: W, field: Field, others: Field, i: nat, stack: seq<Slot>)
    requires WellFormed(body) && IsPrologue(plan.prologue) && i <= |body.code|
    ensures Advances(sem, plan, body, world, field, others, i, stack)
  {
    hide Advances, WellFormed;
    if i == |body.code| {
      EndStep(sem, plan, body, world, field, others, stack);
    } else if IsDecision(body.code[i]) {
      if !plan.probing {
        PlainDecisionStep(sem, plan, body, world, field, others, i, stack);
      } else if body.code[i].Jump? {
        ProbedJumpStep(sem, plan, body, world, field, others, i, stack);
      } else {
        ProbedSwitchStep(sem, plan, body, world, field, others, i, stack);
      }
    } else if body.code[i].Jump? {
      GotoStep(sem, plan, body, world, field, others, i, stack);
    } else {
      PlainStep(sem, plan, body, world, field, others, i, stack);
    }
  }
}
