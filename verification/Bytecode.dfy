/**
 * A small stack bytecode with the control flow of section 6.5 of the Java Virtual Machine
 * Specification, and the machine that runs it: any number of activations of a class's
 * methods, interleaved in any order, over one shared world and one static field with the probe array.
 *
 * Line markers and labels are kept as instructions that do nothing, which is how ASM's
 * instruction lists present them.
 */
module Bytecode {

  /** `Source` labels come from the class file; `Probe` labels are the ones the rewrite creates. */
  datatype Label = Source(id: nat) | Probe(id: nat)

  /** The four ways of pushing an `int` constant, from the shortest to the most general. */
  datatype PushForm = IConst | BiPush | SiPush | Ldc

  datatype Insn =
    | Op(opcode: nat)                 // any instruction that is not control flow, calls and ATHROW included
    | Line(line: int)
    | Mark(at: Label)
    | Jump(opcode: nat, target: Label)
    | TableSwitch(min: int, max: int, dflt: Label, targets: seq<Label>)
    | LookupSwitch(dflt: Label, keys: seq<int>, targets: seq<Label>)
    | Return
    | GetProbes                       // GETSTATIC $omnivoreProbes
    | PushInt(form: PushForm, value: int)
    | BaStore
    | RegisterProbes(count: nat)      // the call to OmnivoreRuntime.getProbes and the PUTSTATIC after it

  const GOTO := 167
  const JSR := 168

  /** A jump that decides between two ways to go on. */
  predicate IsConditionalJump(opcode: nat) {
    opcode != GOTO && opcode != JSR
  }

  predicate IsSwitch(insn: Insn) {
    insn.TableSwitch? || insn.LookupSwitch?
  }

  predicate IsDecision(insn: Insn) {
    IsSwitch(insn) || (insn.Jump? && IsConditionalJump(insn.opcode))
  }

  datatype Handler = Handler(start: Label, end: Label, handler: Label, kind: nat)

  datatype Body = Body(code: seq<Insn>, handlers: seq<Handler>)

  // ---- Finding labels ----

  /** The position of the first mark of `l`, or `|code|` when there is none. */
  function Find(code: seq<Insn>, l: Label): (p: nat)
    ensures p <= |code|
    ensures p < |code| ==> code[p] == Mark(l)
    ensures forall i :: 0 <= i < p ==> code[i] != Mark(l)
  {
    if code == [] then 0
    else
      var front := code[..|code| - 1];
      var p := Find(front, l);
      if p < |front| || code[|code| - 1] == Mark(l) then p else |code|
  }

  lemma FindIs(code: seq<Insn>, l: Label, p: nat)
    requires p < |code| && code[p] == Mark(l)
    requires forall i :: 0 <= i < p ==> code[i] != Mark(l)
    ensures Find(code, l) == p
  {
  }

  // ---- One activation ----

  datatype Slot = Word(value: int) | ProbeArray | Null

  /** The class's static field `$omnivoreProbes`: null until the initializer has assigned the array to it. */
  datatype Field = Field(isSet: bool, elements: seq<bool>)

  /** The end of `stack` is its top. `Faulted` stands for everything the JVM's verifier rules out. */
  datatype Frame =
    | Running(pc: nat, stack: seq<Slot>)
    | Returned(stack: seq<Slot>)
    | Threw(exception: Slot)
    | Faulted

  datatype Effect<W> = Normal(world: W, stack: seq<Slot>) | Raised(world: W, exception: Slot)

  /** The meaning of everything the rewrite does not look into. */
  datatype Semantics<!W> = Semantics(
    op: (nat, W, seq<Slot>) -> Effect<W>,
    test: (nat, seq<Slot>) -> (bool, seq<Slot>),
    catches: (nat, Slot) -> bool,
    nullPointer: W -> (W, Slot),      // the world with a new NullPointerException, and the exception
    outside: (nat, W) -> W)

  datatype Stepped<W> = Stepped(world: W, field: Field, frame: Frame)

  function JumpTo(code: seq<Insn>, l: Label, stack: seq<Slot>): Frame {
    var p := Find(code, l);
    if p < |code| then Running(p, stack) else Faulted
  }

  /** The arms of a decision: fall-through and taken, or the default of a switch and then its cases. */
  function ArmCount(insn: Insn): nat
    requires IsDecision(insn)
  {
    match insn
    case Jump(_, _) => 2
    case TableSwitch(_, _, _, targets) => |targets| + 1
    case LookupSwitch(_, _, targets) => |targets| + 1
  }

  /** The label an arm leads to; the fall-through of a conditional jump (arm 0) has none. */
  function ArmLabel(insn: Insn, arm: nat): Label
    requires IsDecision(insn) && arm < ArmCount(insn)
    requires insn.Jump? ==> arm == 1
  {
    match insn
    case Jump(_, target) => target
    case TableSwitch(_, _, dflt, targets) => if arm == 0 then dflt else targets[arm - 1]
    case LookupSwitch(dflt, _, targets) => if arm == 0 then dflt else targets[arm - 1]
  }

  /** The first position of `key` in `keys`, or `|keys|`. */
  function KeyIndex(keys: seq<int>, key: int): (k: nat)
    ensures k <= |keys|
  {
    if keys == [] || keys[0] == key then 0 else 1 + KeyIndex(keys[1..], key)
  }

  /** The arm a switch selects for an index. */
  function SwitchArm(insn: Insn, index: int): (arm: nat)
    requires IsSwitch(insn)
    ensures arm < ArmCount(insn)
  {
    match insn
    case TableSwitch(min, max, _, targets) =>
      if min <= index <= max && index - min < |targets| then index - min + 1 else 0
    case LookupSwitch(_, keys, targets) =>
      var k := KeyIndex(keys, index);
      if k < |keys| && k < |targets| then k + 1 else 0
  }

  predicate Covers(code: seq<Insn>, h: Handler, pc: nat) {
    && Find(code, h.start) <= pc < Find(code, h.end)
    && Find(code, h.handler) < |code|
  }

  /** Control after an exception: the first handler that covers `pc` and catches it, or out of the method. */
  function Unwind<W>(sem: Semantics<W>, code: seq<Insn>, handlers: seq<Handler>, pc: nat, e: Slot): Frame {
    if handlers == [] then Threw(e)
    else if Covers(code, handlers[0], pc) && sem.catches(handlers[0].kind, e) then
      Running(Find(code, handlers[0].handler), [e])
    else Unwind(sem, code, handlers[1..], pc, e)
  }

  /** The arm a running frame is about to take, when it stands at a decision and its operands allow one. */
  datatype Choice = NoChoice | Choice(arm: nat, rest: seq<Slot>)

  function Choose<W>(sem: Semantics<W>, insn: Insn, stack: seq<Slot>): (c: Choice)
    requires IsDecision(insn)
    ensures c.Choice? ==> c.arm < ArmCount(insn)
  {
    if insn.Jump? then
      var (taken, rest) := sem.test(insn.opcode, stack);
      Choice(if taken then 1 else 0, rest)
    else if |stack| > 0 && stack[|stack| - 1].Word? then
      Choice(SwitchArm(insn, stack[|stack| - 1].value), stack[..|stack| - 1])
    else
      NoChoice
  }

  /** Where an arm of the decision at `pc` leads. */
  function FollowArm(code: seq<Insn>, pc: nat, arm: nat, stack: seq<Slot>): Frame
    requires pc < |code| && IsDecision(code[pc]) && arm < ArmCount(code[pc])
  {
    if code[pc].Jump? && arm == 0 then Running(pc + 1, stack)
    else JumpTo(code, ArmLabel(code[pc], arm), stack)
  }

  /** A store into the array; there is none before the field has been set. */
  predicate CanStore(field: Field, stack: seq<Slot>) {
    && |stack| >= 3
    && stack[|stack| - 3] == ProbeArray && field.isSet
    && stack[|stack| - 2].Word?
    && 0 <= stack[|stack| - 2].value < |field.elements|
    && stack[|stack| - 1].Word?
  }

  /** The next instruction stores into the array that `null` stands for. */
  predicate StoresIntoNull(code: seq<Insn>, f: Frame) {
    && f.Running? && f.pc < |code| && code[f.pc] == BaStore
    && |f.stack| >= 3 && f.stack[|f.stack| - 3] == Null
  }

  /** One step of one activation. A frame that has ended stays as it is. */
  function FrameStep<W>(sem: Semantics<W>, body: Body, world: W, field: Field, f: Frame): (s: Stepped<W>)
    ensures |s.field.elements| == |field.elements| && (field.isSet ==> s.field.isSet)
  {
    if !f.Running? then Stepped(world, field, f)
    else if f.pc >= |body.code| then Stepped(world, field, Faulted)
    else
      var insn := body.code[f.pc];
      if IsDecision(insn) then
        var c := Choose(sem, insn, f.stack);
        Stepped(world, field, if c.Choice? then FollowArm(body.code, f.pc, c.arm, c.rest) else Faulted)
      else
        match insn
        case Op(o) =>
          (match sem.op(o, world, f.stack)
           case Normal(w, stack) => Stepped(w, field, Running(f.pc + 1, stack))
           case Raised(w, e) => Stepped(w, field, Unwind(sem, body.code, body.handlers, f.pc, e)))
        case Jump(o, target) =>
          Stepped(world, field, if o == GOTO then JumpTo(body.code, target, f.stack) else Faulted)
        case Return => Stepped(world, field, Returned(f.stack))
        case GetProbes => Stepped(world, field, Running(f.pc + 1, f.stack + [if field.isSet then ProbeArray else Null]))
        case PushInt(_, v) => Stepped(world, field, Running(f.pc + 1, f.stack + [Word(v)]))
        case BaStore =>
          if CanStore(field, f.stack) then
            var top := |f.stack| - 1;
            Stepped(world,
                    field.(elements := field.elements[f.stack[top - 1].value := f.stack[top].value % 2 == 1]),
                    Running(f.pc + 1, f.stack[..top - 2]))
          else if StoresIntoNull(body.code, f) then
            var (w, e) := sem.nullPointer(world);
            Stepped(w, field, Unwind(sem, body.code, body.handlers, f.pc, e))
          else Stepped(world, field, Faulted)
        case RegisterProbes(_) => Stepped(world, field.(isSet := true), Running(f.pc + 1, f.stack))
        case _ => Stepped(world, field, Running(f.pc + 1, f.stack))
  }

  // ---- A whole class ----

  /** An activation of method number `index`. */
  datatype Activation = Activation(index: nat, frame: Frame)

  datatype Machine<W> = Machine(world: W, field: Field, activations: seq<Activation>)

  /**
   * What the scheduler may do next: start a method with some arguments, let one activation take
   * a step, or let code outside the class change the world. Calls, recursion, threads and other
   * classes are all of this kind.
   */
  datatype Event = Start(index: nat, arguments: seq<Slot>) | Advance(activation: nat) | Outside(what: nat)

  function Step<W>(sem: Semantics<W>, bodies: seq<Body>, m: Machine<W>, e: Event): Machine<W> {
    match e
    case Start(index, arguments) =>
      if index < |bodies| then m.(activations := m.activations + [Activation(index, Running(0, arguments))])
      else m
    case Advance(a) =>
      if a < |m.activations| && m.activations[a].index < |bodies| then
        var s := FrameStep(sem, bodies[m.activations[a].index], m.world, m.field, m.activations[a].frame);
        Machine(s.world, s.field, m.activations[a := m.activations[a].(frame := s.frame)])
      else m
    case Outside(what) => m.(world := sem.outside(what, m.world))
  }

  function Run<W>(sem: Semantics<W>, bodies: seq<Body>, m: Machine<W>, events: seq<Event>): Machine<W> {
    if events == [] then m
    else Step(sem, bodies, Run(sem, bodies, m, events[..|events| - 1]), events[|events| - 1])
  }

  /** The event makes an activation store into null. */
  predicate FaultsAt<W>(bodies: seq<Body>, m: Machine<W>, e: Event) {
    && e.Advance? && e.activation < |m.activations|
    && m.activations[e.activation].index < |bodies|
    && StoresIntoNull(bodies[m.activations[e.activation].index].code, m.activations[e.activation].frame)
  }

  /** No event of the run does. */
  predicate Faultless<W>(sem: Semantics<W>, bodies: seq<Body>, m: Machine<W>, events: seq<Event>) {
    events == []
    || (Faultless(sem, bodies, m, events[..|events| - 1])
        && !FaultsAt(bodies, Run(sem, bodies, m, events[..|events| - 1]), events[|events| - 1]))
  }
}
