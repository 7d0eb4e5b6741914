/**
 * What the machine does with each instruction, by opcode and operands alone (section 6.5 of the Java
 * Virtual Machine Specification), and which probe a step takes an activation past.
 */
module MachineLaws {
  import opened Bytecode
  import opened ProbeLayout
  import opened ProbeMap
  import opened Simulation
  import opened Text

  /** `q` is the position of the first mark of `l`. */
  ghost predicate IsMarkAt(code: seq<Insn>, l: Label, q: nat) {
    q < |code| && code[q] == Mark(l) && forall i :: 0 <= i < q ==> code[i] != Mark(l)
  }

  lemma JumpLands(code: seq<Insn>, l: Label, q: nat, stack: seq<Slot>)
    requires IsMarkAt(code, l, q)
    ensures JumpTo(code, l, stack) == Running(q, stack)
  {
    FindIs(code, l, q);
  }

  /** Jumping to a label without a mark and running off the code are what the JVM's verifier rules out. */
  lemma NowhereToGo<W>(sem: Semantics<W>, body: Body, world: W, field: Field, pc: nat, l: Label, stack: seq<Slot>)
    requires pc < |body.code| && body.code[pc] == Jump(167, l) && Mark(l) !in body.code
    ensures FrameStep(sem, body, world, field, Running(pc, stack)) == Stepped(world, field, Faulted)
    ensures forall q: nat :: q >= |body.code| ==> FrameStep(sem, body, world, field, Running(q, stack)) == Stepped(world, field, Faulted)
  {
    assert Find(body.code, l) == |body.code|;
    hide Find;
  }

  /** GOTO goes to its target. */
  lemma GotoJumps<W>(sem: Semantics<W>, body: Body, world: W, field: Field, pc: nat, t: Label, q: nat, stack: seq<Slot>)
    requires pc < |body.code| && body.code[pc] == Jump(167, t) && IsMarkAt(body.code, t, q)
    ensures FrameStep(sem, body, world, field, Running(pc, stack)) == Stepped(world, field, Running(q, stack))
  {
    hide Find;
    JumpLands(body.code, t, q, stack);
  }

  /** Any jump but GOTO and JSR tests its operands: falls through, or goes to its target. */
  lemma JumpDecides<W>(sem: Semantics<W>, body: Body, world: W, field: Field, pc: nat, o: nat, t: Label, q: nat, stack: seq<Slot>)
    requires pc < |body.code| && body.code[pc] == Jump(o, t) && o != 167 && o != 168 && IsMarkAt(body.code, t, q)
    ensures
      var (taken, rest) := sem.test(o, stack);
      && FrameStep(sem, body, world, field, Running(pc, stack)) == Stepped(world, field, Running(if taken then q else pc + 1, rest))
      && SitePassed(sem, body.code, Running(pc, stack)) == Passing(Site(pc, if taken then 1 else 0))
  {
    hide Find;
    JumpLands(body.code, t, q, sem.test(o, stack).1);
  }

  /** A table switch goes to its label number `index - min`, or to its default. */
  lemma TableDecides<W>(sem: Semantics<W>, body: Body, world: W, field: Field, pc: nat, min: int, max: int, d: Label, ts: seq<Label>,
                        index: int, q: nat, below: seq<Slot>)
    requires pc < |body.code| && body.code[pc] == TableSwitch(min, max, d, ts) && max - min + 1 == |ts|
    requires IsMarkAt(body.code, if min <= index <= max then ts[index - min] else d, q)
    ensures
      var f := Running(pc, below + [Word(index)]);
      && FrameStep(sem, body, world, field, f) == Stepped(world, field, Running(q, below))
      && SitePassed(sem, body.code, f) == Passing(Site(pc, if min <= index <= max then index - min + 1 else 0))
  {
    hide Find;
    var stack := below + [Word(index)];
    assert stack[..|stack| - 1] == below;
    JumpLands(body.code, if min <= index <= max then ts[index - min] else d, q, below);
  }

  /** A lookup switch goes to the label of the first key that is its operand. */
  lemma LookupDecides<W>(sem: Semantics<W>, body: Body, world: W, field: Field, pc: nat, d: Label, keys: seq<int>, ts: seq<Label>,
                         k: nat, q: nat, below: seq<Slot>)
    requires pc < |body.code| && body.code[pc] == LookupSwitch(d, keys, ts) && |keys| == |ts|
    requires k < |keys| && keys[k] !in keys[..k] && IsMarkAt(body.code, ts[k], q)
    ensures
      var f := Running(pc, below + [Word(keys[k])]);
      && FrameStep(sem, body, world, field, f) == Stepped(world, field, Running(q, below))
      && SitePassed(sem, body.code, f) == Passing(Site(pc, k + 1))
  {
    hide Find;
    var stack := below + [Word(keys[k])];
    assert stack[..|stack| - 1] == below;
    KeyIsFirst(keys, k);
    JumpLands(body.code, ts[k], q, below);
  }

  lemma {:induction false} KeyIsFirst(keys: seq<int>, k: nat)
    requires k < |keys| && keys[k] !in keys[..k]
    ensures KeyIndex(keys, keys[k]) == k
  {
    if k > 0 {
      assert keys[0] in keys[..k] && keys[1..][k - 1] == keys[k];
      assert keys[..k] == [keys[0]] + keys[1..][..k - 1];
      KeyIsFirst(keys[1..], k - 1);
    }
  }

  /** And to its default when none is. */
  lemma LookupDefaults<W>(sem: Semantics<W>, body: Body, world: W, field: Field, pc: nat, d: Label, keys: seq<int>, ts: seq<Label>,
                          key: int, q: nat, below: seq<Slot>)
    requires pc < |body.code| && body.code[pc] == LookupSwitch(d, keys, ts) && |keys| == |ts|
    requires key !in keys && IsMarkAt(body.code, d, q)
    ensures
      var f := Running(pc, below + [Word(key)]);
      && FrameStep(sem, body, world, field, f) == Stepped(world, field, Running(q, below))
      && SitePassed(sem, body.code, f) == Passing(Site(pc, 0))
  {
    hide Find;
    var stack := below + [Word(key)];
    assert stack[..|stack| - 1] == below;
    NoSuchKey(keys, key);
    JumpLands(body.code, d, q, below);
  }

  lemma {:induction false} NoSuchKey(keys: seq<int>, key: int)
    requires key !in keys
    ensures KeyIndex(keys, key) == |keys|
  {
    if keys != [] {
      NoSuchKey(keys[1..], key);
    }
  }

  /** Markers and labels do nothing; a marker is passed as a probe's site when its line is new. */
  lemma MarkersPass<W>(sem: Semantics<W>, body: Body, world: W, field: Field, pc: nat, stack: seq<Slot>)
    requires pc < |body.code| && (body.code[pc].Line? || body.code[pc].Mark?)
    ensures FrameStep(sem, body, world, field, Running(pc, stack)) == Stepped(world, field, Running(pc + 1, stack))
    ensures SitePassed(sem, body.code, Running(pc, stack))
         == if body.code[pc].Line? && body.code[pc] !in body.code[..pc] then Passing(Site(pc, 0)) else Nothing
  {
  }

  lemma ReturnEnds<W>(sem: Semantics<W>, body: Body, world: W, field: Field, pc: nat, stack: seq<Slot>)
    requires pc < |body.code| && body.code[pc] == Return
    ensures FrameStep(sem, body, world, field, Running(pc, stack)) == Stepped(world, field, Returned(stack))
    ensures SitePassed(sem, body.code, Running(pc, stack)) == Nothing
  {
  }

  lemma OperationRuns<W>(sem: Semantics<W>, body: Body, world: W, field: Field, pc: nat, o: nat, stack: seq<Slot>)
    requires pc < |body.code| && body.code[pc] == Op(o)
    ensures
      var s := FrameStep(sem, body, world, field, Running(pc, stack));
      && s.field == field && s.world == sem.op(o, world, stack).world
      && (sem.op(o, world, stack).Normal? ==> s.frame == Running(pc + 1, sem.op(o, world, stack).stack))
      && (sem.op(o, world, stack).Raised? ==> s.frame == Unwind(sem, body.code, body.handlers, pc, sem.op(o, world, stack).exception))
    ensures SitePassed(sem, body.code, Running(pc, stack)) == Nothing
  {
  }

  /** The labels of the handler are where `start`, `end` and `target` say. */
  ghost predicate IsHandlerAt(code: seq<Insn>, h: Handler, start: nat, end: nat, target: nat) {
    IsMarkAt(code, h.start, start) && IsMarkAt(code, h.end, end) && IsMarkAt(code, h.handler, target)
  }

  /** The handler is for this exception at `pc`. */
  ghost predicate Takes<W>(sem: Semantics<W>, code: seq<Insn>, h: Handler, pc: nat, e: Slot) {
    sem.catches(h.kind, e) && exists start: nat, end: nat, target: nat :: IsHandlerAt(code, h, start, end, target) && start <= pc < end
  }

  ghost predicate AllMarked(code: seq<Insn>, handlers: seq<Handler>) {
    forall h :: h in handlers ==> exists start: nat, end: nat, target: nat :: IsHandlerAt(code, h, start, end, target)
  }

  lemma TakesIsCovers<W>(sem: Semantics<W>, code: seq<Insn>, h: Handler, pc: nat, e: Slot)
    requires exists start: nat, end: nat, target: nat :: IsHandlerAt(code, h, start, end, target)
    ensures Takes(sem, code, h, pc, e) <==> Covers(code, h, pc) && sem.catches(h.kind, e)
    ensures forall start: nat, end: nat, target: nat :: IsHandlerAt(code, h, start, end, target) ==> Find(code, h.handler) == target
  {
    var start: nat, end: nat, target: nat :| IsHandlerAt(code, h, start, end, target);
    FindIs(code, h.start, start);
    FindIs(code, h.end, end);
    FindIs(code, h.handler, target);
    forall s: nat, u: nat, t: nat | IsHandlerAt(code, h, s, u, t) ensures s == start && u == end && t == target {
      FindIs(code, h.start, s);
      FindIs(code, h.end, u);
      FindIs(code, h.handler, t);
    }
    hide Find;
  }

  /** An exception goes to the first handler that takes it, with nothing but the exception on the stack. */
  lemma {:induction false} FirstHandlerTakes<W>(sem: Semantics<W>, code: seq<Insn>, handlers: seq<Handler>, pc: nat, e: Slot, k: nat,
                                                start: nat, end: nat, target: nat)
    requires AllMarked(code, handlers) && k < |handlers|
    requires Takes(sem, code, handlers[k], pc, e) && forall j :: 0 <= j < k ==> !Takes(sem, code, handlers[j], pc, e)
    requires IsHandlerAt(code, handlers[k], start, end, target)
    ensures Unwind(sem, code, handlers, pc, e) == Running(target, [e])
  {
    hide Takes, IsHandlerAt, Covers, Find;
    assert handlers[0] in handlers;
    TakesIsCovers(sem, code, handlers[0], pc, e);
    if k > 0 {
      assert forall h :: h in handlers[1..] ==> h in handlers;
      FirstHandlerTakes(sem, code, handlers[1..], pc, e, k - 1, start, end, target);
    }
  }

  /** Without one it leaves the method. */
  lemma {:induction false} UntakenLeaves<W>(sem: Semantics<W>, code: seq<Insn>, handlers: seq<Handler>, pc: nat, e: Slot)
    requires AllMarked(code, handlers) && forall h :: h in handlers ==> !Takes(sem, code, h, pc, e)
    ensures Unwind(sem, code, handlers, pc, e) == Threw(e)
  {
    hide Takes, IsHandlerAt, Covers;
    if handlers != [] {
      assert handlers[0] in handlers;
      TakesIsCovers(sem, code, handlers[0], pc, e);
      assert forall h :: h in handlers[1..] ==> h in handlers;
      UntakenLeaves(sem, code, handlers[1..], pc, e);
    }
  }

  /** The instructions of a probe, and the registration of the array. */
  lemma ProbeInstructions<W>(sem: Semantics<W>, body: Body, world: W, field: Field, pc: nat, stack: seq<Slot>)
    requires pc < |body.code|
    ensures body.code[pc] == GetProbes ==>
      FrameStep(sem, body, world, field, Running(pc, stack))
      == Stepped(world, field, Running(pc + 1, stack + [if field.isSet then ProbeArray else Null]))
    ensures body.code[pc].PushInt? ==>
      FrameStep(sem, body, world, field, Running(pc, stack)) == Stepped(world, field, Running(pc + 1, stack + [Word(body.code[pc].value)]))
    ensures body.code[pc].RegisterProbes? ==>
      FrameStep(sem, body, world, field, Running(pc, stack)) == Stepped(world, Field(true, field.elements), Running(pc + 1, stack))
  {
  }

  /** `BASTORE` into the array, at an index inside it; of the stored word the lowest bit counts. */
  lemma BooleanStore<W>(sem: Semantics<W>, body: Body, world: W, field: Field, pc: nat, below: seq<Slot>, index: nat, value: int)
    requires pc < |body.code| && body.code[pc] == BaStore
    ensures field.isSet && index < |field.elements| ==>
      FrameStep(sem, body, world, field, Running(pc, below + [ProbeArray, Word(index), Word(value)]))
      == Stepped(world, Field(true, field.elements[index := value % 2 == 1]), Running(pc + 1, below))
    ensures
      var (raised, e) := sem.nullPointer(world);
      FrameStep(sem, body, world, field, Running(pc, below + [Null, Word(index), Word(value)]))
      == Stepped(raised, field, Unwind(sem, body.code, body.handlers, pc, e))
  {
    hide Unwind;
    var s, n := below + [ProbeArray, Word(index), Word(value)], below + [Null, Word(index), Word(value)];
    assert s[|below|] == ProbeArray && s[|below| + 1] == Word(index) && s[|below| + 2] == Word(value) && s[..|below|] == below;
    assert n[|below|] == Null;
  }

  /** A frame that has ended stays. */
  lemma EndedStays<W>(sem: Semantics<W>, body: Body, world: W, field: Field, f: Frame)
    ensures !f.Running? ==> FrameStep(sem, body, world, field, f) == Stepped(world, field, f)
  {
  }

  /** Starting a method adds an activation with its arguments; a step is a step of one activation; anything else acts on the world. */
  lemma EventsAct<W>(sem: Semantics<W>, bodies: seq<Body>, m: Machine<W>, k: nat, arguments: seq<Slot>, what: nat)
    ensures k < |bodies| ==>
      Step(sem, bodies, m, Start(k, arguments))
      == Machine(m.world, m.field, m.activations + [Activation(k, Running(0, arguments))])
    ensures k < |m.activations| && m.activations[k].index < |bodies| ==>
      var s, a := FrameStep(sem, bodies[m.activations[k].index], m.world, m.field, m.activations[k].frame), m.activations[k];
      Step(sem, bodies, m, Advance(k)) == Machine(s.world, s.field, m.activations[k := Activation(a.index, s.frame)])
    ensures Step(sem, bodies, m, Outside(what)) == Machine(sem.outside(what, m.world), m.field, m.activations)
  {
    hide FrameStep;
  }

  // ---- Probe entries ----

  /** The line of a position is that of the last marker at or before it. */
  lemma {:induction false} LineOfLastMarker(code: seq<Insn>, j: nat)
    requires j < |code| && code[j].Line? && forall i :: j < i < |code| ==> !code[i].Line?
    ensures CurrentLine(code) == code[j].line
    decreases |code|
  {
    if j < |code| - 1 {
      LineOfLastMarker(code[..|code| - 1], j);
    }
  }

  /** Before the first marker there is no line. */
  lemma {:induction false} NoLineYet(code: seq<Insn>)
    requires forall i :: 0 <= i < |code| ==> !code[i].Line?
    ensures CurrentLine(code) == -1
  {
    if code != [] {
      NoLineYet(code[..|code| - 1]);
    }
  }

  /** The number of jumps other than GOTO and JSR, and of switches. */
  function DecisionCount(code: seq<Insn>): nat {
    if code == [] then 0
    else DecisionCount(code[..|code| - 1]) + match code[|code| - 1]
      case Jump(o, _) => if o == 167 || o == 168 then 0 else 1
      case TableSwitch(_, _, _, _) => 1
      case LookupSwitch(_, _, _) => 1
      case _ => 0
  }

  lemma {:induction false} DecisionsAreCounted(code: seq<Insn>)
    ensures Decisions(code) == DecisionCount(code)
  {
    if code != [] {
      DecisionsAreCounted(code[..|code| - 1]);
    }
  }

  /** Entry `n` field by field: the site's index, method and kind, its line, and for an edge the number of its decision. */
  lemma EntryFields(owner: Owner, offset: nat, code: seq<Insn>, n: nat)
    requires n < |Sites(code)|
    ensures
      var e, pc := Entries(owner, offset, code)[n], Sites(code)[n].pc;
      && pc < |code|
      && e.probeIndex == offset + n
      && e.methodName == owner.name && e.methodDesc == owner.desc && e.isComposable == owner.isComposable
      && e.kind == (if code[pc].Line? then LINE else BRANCH)
      && e.branchGroup == (if code[pc].Line? then -1 else DecisionCount(code[..pc]))
      && e.lineNumber == CurrentLine(code[..pc + 1])
  {
    hide Sites, CurrentLine, Decisions;
    EntryDescribesSite(owner, offset, code, n);
    DecisionsAreCounted(code[..Sites(code)[n].pc]);
  }
}
