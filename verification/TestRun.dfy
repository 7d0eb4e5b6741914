/** One test process: several instrumented classes that run interleaved and share one store of probe arrays. */
module TestRun {
  import opened Bytecode
  import opened ClassInstrumenter
  import opened ClassRuns
  import opened ClassTransformer
  import opened ExecutionStore
  import opened Interleaving
  import opened ProbeMap
  import opened Text
  import opened Wrappers
  import Code = Bytecode

  /** The classes the build instruments, by class id: no two of them share an id. */
  datatype Project = Project(config: AgentConfig, classes: map<int, ClassNode>)

  ghost predicate ValidProject(p: Project) {
    forall id :: id in p.classes ==>
      HasProbes(p.config, p.classes[id]) && WellFormedClass(p.classes[id]) && DistinctMethods(p.classes[id].methods)
  }

  function TotalOf(p: Project, id: int): nat
    requires id in p.classes
  {
    ProbeTotal(p.config, p.classes[id].methods)
  }

  function BodiesOf(p: Project, id: int): seq<Body>
    requires id in p.classes
  {
    RewriteAll(ProgramOf(p.config, p.classes[id]))
  }

  /** Start a method of a class, let one of its activations take a step, or let other code act. */
  datatype JvmEvent =
    | Call(id: int, index: nat, arguments: seq<Slot>)
    | Proceed(id: int, activation: nat)
    | Elsewhere(what: nat)

  datatype Jvm<W> = Jvm(world: W, store: Store, activations: map<int, seq<Activation>>)

  /** The step that an event is for the class `id` itself. */
  function OwnEvent(e: JvmEvent, id: int): Option<Code.Event> {
    match e
    case Call(k, index, arguments) => if k == id then Some(Start(index, arguments)) else None
    case Proceed(k, a) => if k == id then Some(Advance(a)) else None
    case Elsewhere(_) => None
  }

  // ---- The instrumented process ----

  /** The store knows classes of the project only, each with an array of its own size. */
  ghost predicate Sound<W>(p: Project, j: Jvm<W>) {
    && Consistent(j.store)
    && forall id :: id in j.store.entries ==> id in p.classes && |Data(j.store, id)| == TotalOf(p, id)
  }

  function ActivationsOf(activations: map<int, seq<Activation>>, id: int): seq<Activation> {
    if id in activations then activations[id] else []
  }

  /** A class's field is null until its initializer has registered it, and then holds the array of the store. */
  function FieldOf(p: Project, s: Store, id: int): Field
    requires Consistent(s) && id in p.classes
  {
    if id in s.entries then Field(true, Data(s, id)) else Field(false, Falses(TotalOf(p, id)))
  }

  /** What a class sees: the world, its own field and its own activations. */
  function MachineOf<W>(p: Project, j: Jvm<W>, id: int): Machine<W>
    requires Consistent(j.store) && id in p.classes
  {
    Machine(j.world, FieldOf(p, j.store, id), ActivationsOf(j.activations, id))
  }

  const DOT: CodeUnit := 0x2E

  /** `className.replace('/', '.')`: the name that an initializer registers its class under. */
  function Dotted(name: Text): Text {
    seq(|name|, i requires 0 <= i < |name| => if name[i] == SLASH then DOT else name[i])
  }

  /** The store once a class's field is as given: a registration asks it for the array, and probe stores go there. */
  function Held(p: Project, s: Store, id: int, field: Field): Store
    requires Consistent(s) && id in p.classes
  {
    if field.isSet then
      var s' := Register(s, id, Dotted(p.classes[id].name), TotalOf(p, id));
      s'.(arrays := s'.arrays[s'.entries[id].handle := field.elements])
    else s
  }

  function InClass<W>(sem: Semantics<W>, p: Project, j: Jvm<W>, id: int, e: Code.Event): Jvm<W>
    requires Consistent(j.store) && id in p.classes
  {
    var m := Step(sem, BodiesOf(p, id), MachineOf(p, j, id), e);
    Jvm(m.world, Held(p, j.store, id, m.field), j.activations[id := m.activations])
  }

  function JvmStep<W>(sem: Semantics<W>, p: Project, j: Jvm<W>, e: JvmEvent): Jvm<W>
    requires Sound(p, j)
  {
    if e.Elsewhere? then j.(world := sem.outside(e.what, j.world))
    else if e.id in p.classes then InClass(sem, p, j, e.id, OwnEvent(e, e.id).value)
    else j
  }

  lemma HeldIsSound<W>(p: Project, j: Jvm<W>, id: int, field: Field)
    requires Sound(p, j) && id in p.classes && |field.elements| == TotalOf(p, id)
    requires id in j.store.entries ==> field.isSet
    requires !field.isSet ==> field.elements == Falses(TotalOf(p, id))
    ensures
      var s := Held(p, j.store, id, field);
      && Consistent(s) && (forall k :: k in s.entries ==> k in p.classes && |Data(s, k)| == TotalOf(p, k))
      && FieldOf(p, s, id) == field
      && forall k :: k in p.classes && k != id ==> FieldOf(p, s, k) == FieldOf(p, j.store, k)
  {
    hide TotalOf, Falses, Dotted;
  }

  /** A class's step leaves its field null or keeps it set, and changes no element of an array it has not got. */
  lemma StepKeepsField<W>(sem: Semantics<W>, bodies: seq<Body>, m: Machine<W>, e: Code.Event)
    ensures
      var field := Step(sem, bodies, m, e).field;
      && |field.elements| == |m.field.elements|
      && (m.field.isSet ==> field.isSet)
      && (!m.field.isSet ==> field.elements == m.field.elements)
  {
    hide Unwind, Find;
  }

  lemma InClassIsSound<W>(sem: Semantics<W>, p: Project, j: Jvm<W>, id: int, e: Code.Event)
    requires Sound(p, j) && id in p.classes
    ensures
      var j' := InClass(sem, p, j, id, e);
      && Sound(p, j')
      && MachineOf(p, j', id) == Step(sem, BodiesOf(p, id), MachineOf(p, j, id), e)
      && forall k :: k in p.classes && k != id ==> MachineOf(p, j', k) == MachineOf(p, j, k).(world := j'.world)
  {
    hide TotalOf, BodiesOf, Step, Held, Falses;
    StepKeepsField(sem, BodiesOf(p, id), MachineOf(p, j, id), e);
    HeldIsSound(p, j, id, Step(sem, BodiesOf(p, id), MachineOf(p, j, id), e).field);
  }

  lemma StepIsSound<W>(sem: Semantics<W>, p: Project, j: Jvm<W>, e: JvmEvent)
    requires Sound(p, j)
    ensures Sound(p, JvmStep(sem, p, j, e))
  {
    hide TotalOf, BodiesOf, InClass;
    if !e.Elsewhere? && e.id in p.classes {
      InClassIsSound(sem, p, j, e.id, OwnEvent(e, e.id).value);
    }
  }

  /** The process after a run, from an empty store. */
  function JvmRun<W>(sem: Semantics<W>, p: Project, world: W, events: seq<JvmEvent>): (j: Jvm<W>)
    ensures Sound(p, j)
  {
    if events == [] then Jvm(world, EMPTY, map[])
    else
      var before := JvmRun(sem, p, world, events[..|events| - 1]);
      StepIsSound(sem, p, before, events[|events| - 1]);
      JvmStep(sem, p, before, events[|events| - 1])
  }

  /** The event makes an activation store into a field that is still null. */
  predicate FaultsIn<W>(p: Project, j: Jvm<W>, e: JvmEvent)
    requires Sound(p, j)
  {
    !e.Elsewhere? && e.id in p.classes && FaultsAt(BodiesOf(p, e.id), MachineOf(p, j, e.id), OwnEvent(e, e.id).value)
  }

  /** None of the first `n` events does. */
  ghost predicate FaultlessTo<W>(sem: Semantics<W>, p: Project, world: W, events: seq<JvmEvent>, n: nat)
    requires n <= |events|
  {
    forall k :: 0 <= k < n ==> !FaultsIn(p, JvmRun(sem, p, world, events[..k]), events[k])
  }

  // ---- The original process ----

  datatype OriginalJvm<W> = OriginalJvm(world: W, activations: map<int, seq<Activation>>)

  function OriginalBodies(p: Project, id: int): seq<Body>
    requires id in p.classes
  {
    ProgramOf(p.config, p.classes[id]).bodies
  }

  function OriginalMachine<W>(o: OriginalJvm<W>, id: int): Machine<W> {
    Machine(o.world, Field(false, []), ActivationsOf(o.activations, id))
  }

  function OriginalStep<W>(sem: Semantics<W>, p: Project, o: OriginalJvm<W>, e: JvmEvent): OriginalJvm<W> {
    if e.Elsewhere? then o.(world := sem.outside(e.what, o.world))
    else if e.id in p.classes then
      var m := Step(sem, OriginalBodies(p, e.id), OriginalMachine(o, e.id), OwnEvent(e, e.id).value);
      OriginalJvm(m.world, o.activations[e.id := m.activations])
    else o
  }

  /** All the original classes together. */
  function OriginalJvmRun<W>(sem: Semantics<W>, p: Project, world: W, schedule: seq<JvmEvent>): OriginalJvm<W> {
    if schedule == [] then OriginalJvm(world, map[])
    else OriginalStep(sem, p, OriginalJvmRun(sem, p, world, schedule[..|schedule| - 1]), schedule[|schedule| - 1])
  }

  /** The sites of class `id` that they pass. */
  function SitesOfRun<W>(sem: Semantics<W>, p: Project, world: W, schedule: seq<JvmEvent>, id: int): set<Passed>
    requires id in p.classes
  {
    if schedule == [] then {}
    else
      var front, e := schedule[..|schedule| - 1], schedule[|schedule| - 1];
      SitesOfRun(sem, p, world, front, id)
      + if OwnEvent(e, id).Some? then
          PassedIn(sem, OriginalBodies(p, id), OriginalMachine(OriginalJvmRun(sem, p, world, front), id), OwnEvent(e, id).value)
        else {}
  }

  // ---- What one class sees of a run ----

  /** The same semantics, with everything outside one class taken from the run itself. */
  function SeenFrom<W>(sem: Semantics<W>, p: Project, world: W, events: seq<JvmEvent>): Semantics<W> {
    sem.(outside := (k: nat, w: W) => if k < |events| then JvmRun(sem, p, world, events[..k + 1]).world else w)
  }

  /** Event `k` for class `id`: its own step, or an outside effect. */
  function ProjectedEvent(events: seq<JvmEvent>, id: int, k: nat): Code.Event
    requires k < |events|
  {
    if OwnEvent(events[k], id).Some? then OwnEvent(events[k], id).value else Outside(k)
  }

  function Projected(events: seq<JvmEvent>, id: int): (own: seq<Code.Event>)
    ensures |own| == |events|
  {
    seq(|events|, k requires 0 <= k < |events| => ProjectedEvent(events, id, k))
  }

  lemma {:induction false} UnwindIgnoresOutside<W>(sem: Semantics<W>, other: Semantics<W>, code: seq<Insn>, handlers: seq<Handler>, pc: nat, e: Slot)
    requires other == sem.(outside := other.outside)
    ensures Unwind(other, code, handlers, pc, e) == Unwind(sem, code, handlers, pc, e)
  {
    if handlers != [] {
      UnwindIgnoresOutside(sem, other, code, handlers[1..], pc, e);
    }
  }

  lemma StepIgnoresOutside<W>(sem: Semantics<W>, other: Semantics<W>, bodies: seq<Body>, m: Machine<W>, e: Code.Event)
    requires other == sem.(outside := other.outside) && !e.Outside?
    ensures Step(other, bodies, m, e) == Step(sem, bodies, m, e)
  {
    hide Unwind, Find;
    if e.Advance? && e.activation < |m.activations| && m.activations[e.activation].index < |bodies| {
      var f, body := m.activations[e.activation].frame, bodies[m.activations[e.activation].index];
      FrameStepIgnoresOutside(sem, other, body, m.world, m.field, f);
      hide FrameStep;
    }
  }

  lemma FrameStepIgnoresOutside<W>(sem: Semantics<W>, other: Semantics<W>, body: Body, world: W, field: Field, f: Frame)
    requires other == sem.(outside := other.outside)
    ensures FrameStep(other, body, world, field, f) == FrameStep(sem, body, world, field, f)
  {
    hide Unwind, Find;
    forall pc: nat, e { UnwindIgnoresOutside(sem, other, body.code, body.handlers, pc, e); }
    if f.Running? {
      UnwindIgnoresOutside(sem, other, body.code, body.handlers, f.pc, sem.nullPointer(world).1);
    }
  }

  /** The run of class `id` alone that the process amounts to, after `n` events. */
  function OwnRun<W>(sem: Semantics<W>, p: Project, world: W, events: seq<JvmEvent>, id: int, n: nat): Machine<W>
    requires id in p.classes && n <= |events|
  {
    Run(SeenFrom(sem, p, world, events), BodiesOf(p, id), AtRest(world, Falses(TotalOf(p, id))), Projected(events, id)[..n])
  }

  ghost predicate Agrees<W>(sem: Semantics<W>, p: Project, world: W, events: seq<JvmEvent>, id: int, n: nat)
    requires id in p.classes && n <= |events|
  {
    OwnRun(sem, p, world, events, id, n) == MachineOf(p, JvmRun(sem, p, world, events[..n]), id)
  }

  lemma OwnRunOneMore<W>(sem: Semantics<W>, p: Project, world: W, events: seq<JvmEvent>, id: int, n: nat)
    requires id in p.classes && n < |events|
    ensures OwnRun(sem, p, world, events, id, n + 1)
         == Step(SeenFrom(sem, p, world, events), BodiesOf(p, id), OwnRun(sem, p, world, events, id, n), ProjectedEvent(events, id, n))
    ensures JvmRun(sem, p, world, events[..n + 1]) == JvmStep(sem, p, JvmRun(sem, p, world, events[..n]), events[n])
  {
    hide Step, SeenFrom, JvmStep;
    var own := Projected(events, id);
    assert own[..n + 1][..n] == own[..n] && own[n] == ProjectedEvent(events, id, n);
    assert events[..n + 1][..n] == events[..n];
  }

  /** What a step of the process does to a class, as a step of that class. */
  lemma StepAgrees<W>(sem: Semantics<W>, p: Project, world: W, events: seq<JvmEvent>, id: int, n: nat)
    requires id in p.classes && n < |events| && Agrees(sem, p, world, events, id, n)
    ensures Agrees(sem, p, world, events, id, n + 1)
  {
    hide Step, JvmRun, Projected, TotalOf, BodiesOf, Falses, Run, InClass, OwnRun, FieldOf;
    var j, e, r := JvmRun(sem, p, world, events[..n]), events[n], OwnRun(sem, p, world, events, id, n);
    var seen := SeenFrom(sem, p, world, events);
    OwnRunOneMore(sem, p, world, events, id, n);
    OutsideStep(seen, BodiesOf(p, id), r, n);
    if !e.Elsewhere? && e.id in p.classes {
      InClassIsSound(sem, p, j, e.id, OwnEvent(e, e.id).value);
      if e.id == id {
        StepIgnoresOutside(sem, seen, BodiesOf(p, id), r, OwnEvent(e, id).value);
      }
    }
  }

  lemma OutsideStep<W>(sem: Semantics<W>, bodies: seq<Body>, m: Machine<W>, n: nat)
    ensures Step(sem, bodies, m, Outside(n)) == m.(world := sem.outside(n, m.world))
  {
  }

  lemma StartAgrees<W>(sem: Semantics<W>, p: Project, world: W, events: seq<JvmEvent>, id: int)
    requires id in p.classes
    ensures Agrees(sem, p, world, events, id, 0)
  {
    hide BodiesOf, TotalOf, Falses;
    assert events[..0] == [] && Projected(events, id)[..0] == [];
  }

  lemma {:induction false} ProcessProjects<W>(sem: Semantics<W>, p: Project, world: W, events: seq<JvmEvent>, id: int, n: nat)
    requires id in p.classes && n <= |events|
    ensures Agrees(sem, p, world, events, id, n)
  {
    hide Agrees;
    if n == 0 {
      StartAgrees(sem, p, world, events, id);
    } else {
      ProcessProjects(sem, p, world, events, id, n - 1);
      StepAgrees(sem, p, world, events, id, n - 1);
    }
  }

  /** A process without faults is one for each of its classes. */
  lemma {:induction false} FaultlessProjects<W>(sem: Semantics<W>, p: Project, world: W, events: seq<JvmEvent>, id: int, n: nat)
    requires id in p.classes && n <= |events| && FaultlessTo(sem, p, world, events, n)
    ensures Faultless(SeenFrom(sem, p, world, events), BodiesOf(p, id), AtRest(world, Falses(TotalOf(p, id))), Projected(events, id)[..n])
  {
    hide BodiesOf, TotalOf, JvmRun, SeenFrom, FaultsAt, Run;
    var own := Projected(events, id);
    if n == 0 {
      assert own[..n] == [];
    } else {
      FaultlessProjects(sem, p, world, events, id, n - 1);
      ProcessProjects(sem, p, world, events, id, n - 1);
      assert own[..n][..n - 1] == own[..n - 1] && own[..n][n - 1] == ProjectedEvent(events, id, n - 1);
      assert !FaultsIn(p, JvmRun(sem, p, world, events[..n - 1]), events[n - 1]);
      if OwnEvent(events[n - 1], id).None? {
        OutsideNeverFaults(BodiesOf(p, id), OwnRun(sem, p, world, events, id, n - 1), n - 1);
      }
    }
  }

  lemma OutsideNeverFaults<W>(bodies: seq<Body>, m: Machine<W>, n: nat)
    ensures !FaultsAt(bodies, m, Outside(n))
  {
  }

  // ---- The two processes together ----

  /** What the first `n` events are for class `id`, followed along in the original class. */
  function ClassShadow<W>(sem: Semantics<W>, p: Project, world: W, events: seq<JvmEvent>, id: int, n: nat): Shadow
    requires id in p.classes && n <= |events|
  {
    Follow(SeenFrom(sem, p, world, events), ProgramOf(p.config, p.classes[id]), world, Projected(events, id)[..n])
  }

  /** Class `id` alone, under the events of its original so far. */
  function ClassOriginal<W>(sem: Semantics<W>, p: Project, world: W, events: seq<JvmEvent>, id: int, n: nat): Machine<W>
    requires id in p.classes && n <= |events|
  {
    Run(SeenFrom(sem, p, world, events), OriginalBodies(p, id), AtRest(world, []), ClassShadow(sem, p, world, events, id, n).schedule)
  }

  /** Event `n` runs probe code of its class. */
  predicate IsProbeEvent<W>(sem: Semantics<W>, p: Project, world: W, events: seq<JvmEvent>, n: nat)
    requires n < |events|
  {
    var e := events[n];
    && !e.Elsewhere? && e.id in p.classes
    && IsStutter(ProgramOf(p.config, p.classes[e.id]), ClassOriginal(sem, p, world, events, e.id, n).activations,
                 ClassShadow(sem, p, world, events, e.id, n).spots, OwnEvent(e, e.id).value)
  }

  /** The first `n` events without those that run probe code: what the original process does meanwhile. */
  function OriginalSchedule<W>(sem: Semantics<W>, p: Project, world: W, events: seq<JvmEvent>, n: nat): seq<JvmEvent>
    requires n <= |events|
  {
    if n == 0 then []
    else OriginalSchedule(sem, p, world, events, n - 1)
         + if IsProbeEvent(sem, p, world, events, n - 1) then [] else [events[n - 1]]
  }

  function OriginalAfter<W>(sem: Semantics<W>, p: Project, world: W, events: seq<JvmEvent>, n: nat): OriginalJvm<W>
    requires n <= |events|
  {
    OriginalJvmRun(sem, p, world, OriginalSchedule(sem, p, world, events, n))
  }

  /** The sites of class `id` that the original process passes during the first `n` events. */
  function TakenBy<W>(sem: Semantics<W>, p: Project, world: W, events: seq<JvmEvent>, id: int, n: nat): set<Passed>
    requires id in p.classes && n <= |events|
  {
    SitesOfRun(sem, p, world, OriginalSchedule(sem, p, world, events, n), id)
  }

  /** The original process, its classes one by one, and the instrumented process are in step. */
  ghost predicate InStep<W>(sem: Semantics<W>, p: Project, world: W, events: seq<JvmEvent>, id: int, n: nat)
    requires id in p.classes && n <= |events|
  {
    && ClassOriginal(sem, p, world, events, id, n) == OriginalMachine(OriginalAfter(sem, p, world, events, n), id)
    && OriginalAfter(sem, p, world, events, n).world == JvmRun(sem, p, world, events[..n]).world
    && TakenBy(sem, p, world, events, id, n)
       == SitesPassed(SeenFrom(sem, p, world, events), p.config, p.classes[id], world, ClassShadow(sem, p, world, events, id, n).schedule)
  }

  /** A class by itself keeps up with the process. */
  lemma ClassKeepsUp<W>(sem: Semantics<W>, p: Project, world: W, events: seq<JvmEvent>, id: int, n: nat)
    requires ValidProject(p) && id in p.classes && n <= |events| && FaultlessTo(sem, p, world, events, n)
    ensures
      var j := JvmRun(sem, p, world, events[..n]);
      var m := MachineOf(p, j, id);
      var o := ClassOriginal(sem, p, world, events, id, n);
      && SameBehaviour(ProgramOf(p.config, p.classes[id]), m, o)
      && o.field == Field(false, [])
      && TellsSites(p.config, p.classes[id], m.field.elements, m.activations,
                    SitesPassed(SeenFrom(sem, p, world, events), p.config, p.classes[id], world, ClassShadow(sem, p, world, events, id, n).schedule))
  {
    hide JvmRun, Run, PassedBy, RewriteAll, ProgramOf, SameBehaviour, TellsSites, ProbeTotal, Projected, Follow, SeenFrom, WellFormedClass,
         Faultless, FaultlessTo;
    var cls, seen, own := p.classes[id], SeenFrom(sem, p, world, events), Projected(events, id)[..n];
    assert Falses(TotalOf(p, id)) == seq(TotalOf(p, id), _ => false);
    ProcessProjects(sem, p, world, events, id, n);
    FaultlessProjects(sem, p, world, events, id, n);
    InstrumentedRunTellsSites(seen, p.config, cls, world, own);
    assert InstrumentedRun(seen, p.config, cls, world, own) == MachineOf(p, JvmRun(sem, p, world, events[..n]), id);
    ClassOriginalHasNoField(sem, p, world, events, id, n);
  }

  /** One more event, as one class follows it. */
  lemma ShadowOneMore<W>(sem: Semantics<W>, p: Project, world: W, events: seq<JvmEvent>, id: int, n: nat)
    requires id in p.classes && n < |events|
    ensures ClassShadow(sem, p, world, events, id, n + 1).schedule
         == ClassShadow(sem, p, world, events, id, n).schedule
            + if OwnEvent(events[n], id).Some? && IsProbeEvent(sem, p, world, events, n) then [] else [ProjectedEvent(events, id, n)]
  {
    hide Step, SeenFrom, ProgramOf, NextSpot, Run, SetsField;
    var own := Projected(events, id);
    assert own[..n + 1][..n] == own[..n] && own[n] == ProjectedEvent(events, id, n);
    var schedule := ClassShadow(sem, p, world, events, id, n).schedule;
    assert schedule + [] == schedule;
  }

  lemma ClassOneMore<W>(sem: Semantics<W>, p: Project, world: W, events: seq<JvmEvent>, id: int, n: nat)
    requires id in p.classes && n < |events|
    ensures
      var seen, own := SeenFrom(sem, p, world, events), ProjectedEvent(events, id, n);
      var s, s' := ClassShadow(sem, p, world, events, id, n), ClassShadow(sem, p, world, events, id, n + 1);
      var o, o' := ClassOriginal(sem, p, world, events, id, n), ClassOriginal(sem, p, world, events, id, n + 1);
      var taken, taken' := SitesPassed(seen, p.config, p.classes[id], world, s.schedule), SitesPassed(seen, p.config, p.classes[id], world, s'.schedule);
      if OwnEvent(events[n], id).Some? && IsProbeEvent(sem, p, world, events, n) then o' == o && taken' == taken
      else
        && o' == Step(seen, OriginalBodies(p, id), o, own)
        && taken' == taken + PassedIn(seen, OriginalBodies(p, id), o, own)
  {
    hide Step, SeenFrom, ProgramOf, PassedIn, ClassShadow, IsProbeEvent, ProjectedEvent;
    ShadowOneMore(sem, p, world, events, id, n);
    var schedule := ClassShadow(sem, p, world, events, id, n).schedule;
    assert schedule + [] == schedule;
    assert (schedule + [ProjectedEvent(events, id, n)])[..|schedule|] == schedule;
  }

  /** One more event, as the original process follows it. */
  lemma OriginalOneMore<W>(sem: Semantics<W>, p: Project, world: W, events: seq<JvmEvent>, id: int, n: nat)
    requires id in p.classes && n < |events|
    ensures
      var o, o' := OriginalAfter(sem, p, world, events, n), OriginalAfter(sem, p, world, events, n + 1);
      var taken, taken' := TakenBy(sem, p, world, events, id, n), TakenBy(sem, p, world, events, id, n + 1);
      if IsProbeEvent(sem, p, world, events, n) then o' == o && taken' == taken
      else
        && o' == OriginalStep(sem, p, o, events[n])
        && taken' == taken + if OwnEvent(events[n], id).Some? then PassedIn(sem, OriginalBodies(p, id), OriginalMachine(o, id), OwnEvent(events[n], id).value) else {}
  {
    hide IsProbeEvent, OriginalStep, PassedIn;
    var schedule := OriginalSchedule(sem, p, world, events, n);
    assert (schedule + [events[n]])[..|schedule|] == schedule && schedule + [] == schedule;
  }

  /** What a class passes does not depend on what happens outside it. */
  lemma PassedInIgnoresOutside<W>(sem: Semantics<W>, other: Semantics<W>, bodies: seq<Body>, m: Machine<W>, e: Code.Event)
    requires other == sem.(outside := other.outside)
    ensures PassedIn(other, bodies, m, e) == PassedIn(sem, bodies, m, e)
  {
  }

  ghost predicate SameWorld<W>(sem: Semantics<W>, p: Project, world: W, events: seq<JvmEvent>, n: nat)
    requires n <= |events|
  {
    OriginalAfter(sem, p, world, events, n).world == JvmRun(sem, p, world, events[..n]).world
  }

  lemma SeenOutside<W>(sem: Semantics<W>, p: Project, world: W, events: seq<JvmEvent>, n: nat, w: W)
    requires n < |events|
    ensures SeenFrom(sem, p, world, events) == sem.(outside := SeenFrom(sem, p, world, events).outside)
    ensures SeenFrom(sem, p, world, events).outside(n, w) == JvmRun(sem, p, world, events[..n + 1]).world
  {
    hide JvmRun;
  }

  lemma JvmOneMore<W>(sem: Semantics<W>, p: Project, world: W, events: seq<JvmEvent>, n: nat)
    requires n < |events|
    ensures JvmRun(sem, p, world, events[..n + 1]) == JvmStep(sem, p, JvmRun(sem, p, world, events[..n]), events[n])
  {
    hide JvmStep;
    assert events[..n + 1][..n] == events[..n];
  }

  lemma WorldStaysSame<W>(sem: Semantics<W>, p: Project, world: W, events: seq<JvmEvent>, n: nat)
    requires ValidProject(p) && n < |events| && FaultlessTo(sem, p, world, events, n + 1) && SameWorld(sem, p, world, events, n)
    requires !events[n].Elsewhere? && events[n].id in p.classes ==> InStep(sem, p, world, events, events[n].id, n)
    ensures SameWorld(sem, p, world, events, n + 1)
  {
    hide Step, JvmRun, Projected, SeenFrom, IsProbeEvent, SitesPassed, PassedIn, ClassOriginal, ClassShadow, OriginalAfter, TakenBy,
         TellsSites, ProgramOf, ValidProject, FaultlessTo, OriginalBodies, InClass, FieldOf, TotalOf;
    var e, seen := events[n], SeenFrom(sem, p, world, events);
    JvmOneMore(sem, p, world, events, n);
    SeenOutside(sem, p, world, events, n, world);
    if !e.Elsewhere? && e.id in p.classes {
      var o := OriginalAfter(sem, p, world, events, n);
      ClassKeepsUp(sem, p, world, events, e.id, n + 1);
      ClassOneMore(sem, p, world, events, e.id, n);
      OriginalOneMore(sem, p, world, events, e.id, n);
      StepIgnoresOutside(sem, seen, OriginalBodies(p, e.id), OriginalMachine(o, e.id), OwnEvent(e, e.id).value);
    } else {
      PlainEvent(sem, p, world, events, n);
    }
  }

  lemma PlainEvent<W>(sem: Semantics<W>, p: Project, world: W, events: seq<JvmEvent>, n: nat)
    requires n < |events| && (events[n].Elsewhere? || events[n].id !in p.classes)
    ensures OriginalAfter(sem, p, world, events, n + 1) == OriginalStep(sem, p, OriginalAfter(sem, p, world, events, n), events[n])
  {
    hide OriginalStep;
    var schedule := OriginalSchedule(sem, p, world, events, n);
    assert (schedule + [events[n]])[..|schedule|] == schedule;
  }

  lemma StaysInStep<W>(sem: Semantics<W>, p: Project, world: W, events: seq<JvmEvent>, id: int, n: nat)
    requires ValidProject(p) && id in p.classes && n < |events|
    requires InStep(sem, p, world, events, id, n) && SameWorld(sem, p, world, events, n + 1)
    ensures InStep(sem, p, world, events, id, n + 1)
  {
    hide Step, JvmRun, Projected, SeenFrom, IsProbeEvent, SitesPassed, PassedIn, ClassOriginal, ClassShadow, OriginalAfter, TakenBy,
         ProgramOf, ValidProject, OriginalBodies, FieldOf, TotalOf;
    var e, seen := events[n], SeenFrom(sem, p, world, events);
    var o := OriginalAfter(sem, p, world, events, n);
    SeenOutside(sem, p, world, events, n, o.world);
    ClassOneMore(sem, p, world, events, id, n);
    OriginalOneMore(sem, p, world, events, id, n);
    OutsideStep(seen, OriginalBodies(p, id), OriginalMachine(o, id), n);
    PassedInIgnoresOutside(sem, seen, OriginalBodies(p, id), OriginalMachine(o, id), ProjectedEvent(events, id, n));
    OutsidePassesNothing(sem, OriginalBodies(p, id), OriginalMachine(o, id), n);
    ClassOriginalHasNoField(sem, p, world, events, id, n + 1);
    if OwnEvent(e, id).Some? {
      StepIgnoresOutside(sem, seen, OriginalBodies(p, id), OriginalMachine(o, id), OwnEvent(e, id).value);
    }
  }

  lemma ClassOriginalHasNoField<W>(sem: Semantics<W>, p: Project, world: W, events: seq<JvmEvent>, id: int, n: nat)
    requires ValidProject(p) && id in p.classes && n <= |events|
    ensures ClassOriginal(sem, p, world, events, id, n).field == Field(false, [])
  {
    hide SeenFrom, Projected, ProgramOf, ProbeTotal, WellFormedClass;
    ClassProgramIsValid(p.config, p.classes[id]);
    OriginalHasNoField(SeenFrom(sem, p, world, events), ProgramOf(p.config, p.classes[id]), world, ClassShadow(sem, p, world, events, id, n).schedule);
  }

  lemma OutsidePassesNothing<W>(sem: Semantics<W>, bodies: seq<Body>, m: Machine<W>, n: nat)
    ensures PassedIn(sem, bodies, m, Outside(n)) == {}
  {
  }

  lemma StartInStep<W>(sem: Semantics<W>, p: Project, world: W, events: seq<JvmEvent>)
    ensures SameWorld(sem, p, world, events, 0)
    ensures forall id :: id in p.classes ==> InStep(sem, p, world, events, id, 0)
  {
    hide ProgramOf, SeenFrom;
    assert events[..0] == [];
    forall id | id in p.classes ensures InStep(sem, p, world, events, id, 0) {
      assert Projected(events, id)[..0] == [];
    }
  }

  /** A process without faults does what the original process does, its probe code left out. */
  lemma {:induction false} ProcessKeepsUp<W>(sem: Semantics<W>, p: Project, world: W, events: seq<JvmEvent>, n: nat)
    requires ValidProject(p) && n <= |events| && FaultlessTo(sem, p, world, events, n)
    ensures SameWorld(sem, p, world, events, n)
    ensures forall id :: id in p.classes ==> InStep(sem, p, world, events, id, n)
  {
    hide InStep, SameWorld, ValidProject;
    if n == 0 {
      StartInStep(sem, p, world, events);
    } else {
      ProcessKeepsUp(sem, p, world, events, n - 1);
      WorldStaysSame(sem, p, world, events, n - 1);
      forall id | id in p.classes ensures InStep(sem, p, world, events, id, n) {
        StaysInStep(sem, p, world, events, id, n - 1);
      }
    }
  }

  // ---- What the arrays say ----

  /** At the end of a run, class `id` has the behaviour of the original and an array that tells the sites it passed. */
  ghost predicate ClassTells<W>(sem: Semantics<W>, p: Project, world: W, events: seq<JvmEvent>, id: int)
    requires id in p.classes
  {
    var n := |events|;
    var m := MachineOf(p, JvmRun(sem, p, world, events), id);
    && SameBehaviour(ProgramOf(p.config, p.classes[id]), m, OriginalMachine(OriginalAfter(sem, p, world, events, n), id))
    && TellsSites(p.config, p.classes[id], m.field.elements, m.activations, TakenBy(sem, p, world, events, id, n))
  }

  /**
   * A process of many instrumented classes in which nothing stores into a null field does what the
   * original process does under one schedule for all its classes: the same world, activations alike.
   * Each class's array tells exactly the sites the original process has passed, but for those that an
   * activation is about to set.
   */
  lemma ProcessTellsSites<W>(sem: Semantics<W>, p: Project, world: W, events: seq<JvmEvent>)
    requires ValidProject(p) && FaultlessTo(sem, p, world, events, |events|)
    ensures SameWorld(sem, p, world, events, |events|)
    ensures forall id :: id in p.classes ==> ClassTells(sem, p, world, events, id)
  {
    hide JvmRun, SameBehaviour, TellsSites, ProgramOf, ClassOriginal, SitesPassed, OriginalAfter, TakenBy, FieldOf, FaultlessTo, ValidProject;
    assert events[..|events|] == events;
    ProcessKeepsUp(sem, p, world, events, |events|);
    forall id | id in p.classes ensures ClassTells(sem, p, world, events, id) {
      ClassKeepsUp(sem, p, world, events, id, |events|);
    }
  }

  /** The event that faults parts the two processes. */
  lemma FaultPartsProcess<W(!new)>(sem: Semantics<W>, p: Project, world: W, events: seq<JvmEvent>, n: nat)
    requires ValidProject(p) && n < |events| && FaultlessTo(sem, p, world, events, n) && RaisingShows(sem)
    requires FaultsIn(p, JvmRun(sem, p, world, events[..n]), events[n])
    ensures !SameWorld(sem, p, world, events, n + 1)
  {
    hide JvmRun, Projected, SeenFrom, FaultsAt, ClassOriginal, OriginalSchedule, ProgramOf, ValidProject, FaultlessTo, FieldOf, RaisingShows, InStep;
    var e := events[n];
    var j := JvmRun(sem, p, world, events[..n]);
    JvmOneMore(sem, p, world, events, n);
    ProcessKeepsUp(sem, p, world, events, n);
    ProbeEventFaults(sem, p, world, events, n);
    FaultRaises(sem, BodiesOf(p, e.id), MachineOf(p, j, e.id), OwnEvent(e, e.id).value);
    OriginalOneMore(sem, p, world, events, e.id, n);
  }

  lemma FaultRaises<W(!new)>(sem: Semantics<W>, bodies: seq<Body>, m: Machine<W>, e: Code.Event)
    requires FaultsAt(bodies, m, e) && RaisingShows(sem)
    ensures Step(sem, bodies, m, e).world == sem.nullPointer(m.world).0 != m.world
  {
    hide Unwind;
  }

  lemma ProbeEventFaults<W>(sem: Semantics<W>, p: Project, world: W, events: seq<JvmEvent>, n: nat)
    requires ValidProject(p) && n < |events| && FaultlessTo(sem, p, world, events, n)
    requires FaultsIn(p, JvmRun(sem, p, world, events[..n]), events[n])
    ensures IsProbeEvent(sem, p, world, events, n)
  {
    hide JvmRun, Projected, SeenFrom, FaultsAt, Run, Follow, ProgramOf, WellFormedClass, ProbeTotal, FaultlessTo, FieldOf, Aligned, ProbesReflect, RewriteAll, RangesFit, Falses;
    var id := events[n].id;
    var own := Projected(events, id)[..n];
    var program, seen := ProgramOf(p.config, p.classes[id]), SeenFrom(sem, p, world, events);
    ProcessProjects(sem, p, world, events, id, n);
    FaultlessProjects(sem, p, world, events, id, n);
    ClassProgramIsValid(p.config, p.classes[id]);
    InvariantHolds(seen, program, world, Falses(TotalOf(p, id)), own);
    FaultsAreDoomed(program, OwnRun(sem, p, world, events, id, n), ClassOriginal(sem, p, world, events, id, n),
                    ClassShadow(sem, p, world, events, id, n).spots, OwnEvent(events[n], id).value);
  }

  /** The exact condition for a process: the original one is in the same world after every event if and only if nothing stores into null. */
  lemma {:induction false} FaultlessIffSameWorld<W(!new)>(sem: Semantics<W>, p: Project, world: W, events: seq<JvmEvent>, n: nat)
    requires ValidProject(p) && n <= |events| && RaisingShows(sem)
    ensures FaultlessTo(sem, p, world, events, n) <==> forall k :: 0 <= k <= n ==> SameWorld(sem, p, world, events, k)
  {
    hide JvmRun, SameWorld, RaisingShows, FaultsIn, ValidProject;
    if n == 0 {
      ProcessKeepsUp(sem, p, world, events, 0);
    } else {
      FaultlessIffSameWorld(sem, p, world, events, n - 1);
      if FaultlessTo(sem, p, world, events, n) {
        ProcessKeepsUp(sem, p, world, events, n);
      } else if FaultlessTo(sem, p, world, events, n - 1) {
        FaultPartsProcess(sem, p, world, events, n - 1);
      }
    }
  }

  // ---- Initialization in order ----

  predicate CallsProbed(p: Project, e: JvmEvent) {
    e.Call? && e.id in p.classes && Probed(ProgramOf(p.config, p.classes[e.id]), e.index)
  }

  /** A method with probes is called only when its class's initializer has registered the class. */
  ghost predicate CallsInOrder<W>(sem: Semantics<W>, p: Project, world: W, events: seq<JvmEvent>) {
    forall k :: 0 <= k < |events| && CallsProbed(p, events[k]) ==>
      events[k].id in JvmRun(sem, p, world, events[..k]).store.entries
  }

  lemma {:induction false} ClassFaultless<W>(sem: Semantics<W>, p: Project, world: W, events: seq<JvmEvent>, id: int, own: seq<Code.Event>, k: nat)
    requires id in p.classes && own <= Projected(events, id) && k < |own| && OwnEvent(events[k], id).Some?
    requires Faultless(SeenFrom(sem, p, world, events), BodiesOf(p, id), AtRest(world, Falses(TotalOf(p, id))), own)
    ensures !FaultsIn(p, JvmRun(sem, p, world, events[..k]), events[k])
    decreases |own|
  {
    hide BodiesOf, TotalOf, JvmRun, SeenFrom, FaultsAt, Run, Falses;
    var front := own[..|own| - 1];
    if k < |front| {
      ClassFaultless(sem, p, world, events, id, front, k);
    } else {
      ProcessProjects(sem, p, world, events, id, k);
      assert front == Projected(events, id)[..k];
    }
  }

  /** Where classes are initialized before their methods are called, no process faults. */
  lemma OrderedCallsAreFaultless<W>(sem: Semantics<W>, p: Project, world: W, events: seq<JvmEvent>)
    requires ValidProject(p) && CallsInOrder(sem, p, world, events)
    ensures FaultlessTo(sem, p, world, events, |events|)
  {
    hide JvmRun, Projected, SeenFrom, FaultsAt, BodiesOf, TotalOf, Falses, ProgramOf, WellFormedClass, ProbeTotal, Run, RangesFit, Faultless, RewriteAll;
    forall k | 0 <= k < |events| ensures !FaultsIn(p, JvmRun(sem, p, world, events[..k]), events[k]) {
      if !events[k].Elsewhere? && events[k].id in p.classes {
        ClassStartsInOrder(sem, p, world, events, events[k].id);
        ClassFaultless(sem, p, world, events, events[k].id, Projected(events, events[k].id), k);
      }
    }
  }

  lemma ClassStartsInOrder<W>(sem: Semantics<W>, p: Project, world: W, events: seq<JvmEvent>, id: int)
    requires ValidProject(p) && CallsInOrder(sem, p, world, events) && id in p.classes
    ensures Faultless(SeenFrom(sem, p, world, events), BodiesOf(p, id), AtRest(world, Falses(TotalOf(p, id))), Projected(events, id))
  {
    hide JvmRun, SeenFrom, FaultsAt, Falses, ProgramOf, WellFormedClass, ProbeTotal, Run, RangesFit, Faultless, RewriteAll;
    var program, seen, own := ProgramOf(p.config, p.classes[id]), SeenFrom(sem, p, world, events), Projected(events, id);
    ClassProgramIsValid(p.config, p.classes[id]);
    forall k | 0 <= k < |own| && own[k].Start? && Probed(program, own[k].index)
      ensures Run(seen, RewriteAll(program), AtRest(world, Falses(TotalOf(p, id))), own[..k]).field.isSet
    {
      ProcessProjects(sem, p, world, events, id, k);
    }
    OrderedStartsAreFaultless(seen, program, world, Falses(TotalOf(p, id)), own);
  }

  /** Slashes become dots and nothing else changes. */
  lemma DottedIs(name: Text, i: nat)
    requires i < |name|
    ensures |Dotted(name)| == |name| && Dotted(name)[i] == if name[i] == 0x2F then 0x2E else name[i]
  {
  }
}
