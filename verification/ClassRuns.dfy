/** What the probe array of one instrumented class says after a run. */
module ClassRuns {
  import opened Bytecode
  import opened ProbeMap
  import opened ProbeLayout
  import opened ProbeLabels
  import opened ProbeInserter
  import opened ClassInstrumenter
  import opened ClassTransformer
  import opened Simulation
  import opened Interleaving
  import opened Lockstep
  import opened Text
  import opened Wrappers

  /** A class without an initializer behaves as one whose initializer does nothing (section 5.5 of the Java Virtual Machine Specification). */
  function WithClinit(methods: seq<MethodNode>): (ms: seq<MethodNode>)
    ensures methods <= ms
  {
    if HasClinit(methods) then methods
    else methods + [MethodNode(CLINIT, CLINIT_DESC, Access(false, false, false), false, Body([Return], []))]
  }

  function ProgramOf(config: AgentConfig, cls: ClassNode): (p: Program)
    ensures |p.plans| == |p.bodies| == |WithClinit(cls.methods)|
  {
    var ms, total := WithClinit(cls.methods), ProbeTotal(config, cls.methods);
    Program(seq(|ms|, k requires 0 <= k < |ms| => PlanOf(config, total, ms[k], ProbeTotal(config, ms[..k]))),
            seq(|ms|, k requires 0 <= k < |ms| => ms[k].body))
  }

  /** What the JVM's verifier guarantees of every method. */
  ghost predicate WellFormedClass(cls: ClassNode) {
    forall k :: 0 <= k < |cls.methods| ==> WellFormed(cls.methods[k].body)
  }

  lemma ClinitAddsNoProbes(config: AgentConfig, cls: ClassNode)
    ensures ProbeTotal(config, WithClinit(cls.methods)) == ProbeTotal(config, cls.methods)
  {
    hide Sites, ProbeTotal;
    if !HasClinit(cls.methods) {
      OneMoreMethod(config, cls.methods, WithClinit(cls.methods)[|cls.methods|]);
    }
  }

  lemma NewClinitIsRewritten(config: AgentConfig, total: nat, offset: nat, m: MethodNode)
    requires total > 0 && m.name == CLINIT && m.body == Body([Return], [])
    ensures Rewrite(PlanOf(config, total, m, offset), m.body) == NewClinit(total).body
  {
    PrefixedLayout([RegisterProbes(total)], [Return]);
  }

  /** The methods of the instrumented class are the rewritten bodies of the program. */
  lemma InstrumentedIsRewritten(config: AgentConfig, cls: ClassNode)
    requires HasProbes(config, cls)
    ensures
      var out := Instrumented(config, cls).methods;
      && |out| == |WithClinit(cls.methods)|
      && forall k :: 0 <= k < |out| ==> out[k].body == RewriteAll(ProgramOf(config, cls))[k]
  {
    hide Sites, Layout, RewrittenMethods, ProbeTotal, PlanOf;
    var ms, total := WithClinit(cls.methods), ProbeTotal(config, cls.methods);
    var out := Instrumented(config, cls).methods;
    forall k | 0 <= k < |out| ensures out[k].body == RewriteAll(ProgramOf(config, cls))[k] {
      if k < |cls.methods| {
        RewrittenIs(config, total, cls.methods, k);
        assert ms[..k] == cls.methods[..k];
      } else {
        NewClinitIsRewritten(config, total, ProbeTotal(config, ms[..k]), ms[k]);
      }
    }
  }

  lemma {:induction false} OffsetsGrow(config: AgentConfig, methods: seq<MethodNode>, k: nat, l: nat)
    requires k < l <= |methods|
    ensures ProbeTotal(config, methods[..k]) + |MethodSites(config, methods[k])| <= ProbeTotal(config, methods[..l])
    decreases l
  {
    hide MethodSites;
    assert methods[..l][..l - 1] == methods[..l - 1];
    if k < l - 1 {
      OffsetsGrow(config, methods, k, l - 1);
    }
  }

  lemma ClassProgramIsValid(config: AgentConfig, cls: ClassNode)
    requires HasProbes(config, cls) && WellFormedClass(cls)
    ensures ValidProgram(ProgramOf(config, cls)) && RangesFit(ProgramOf(config, cls), ProbeTotal(config, cls.methods))
  {
    hide Sites, Layout, ProbeTotal, PlanOf, MethodSites, WellFormed, IsPrologue;
    var p, ms, total := ProgramOf(config, cls), WithClinit(cls.methods), ProbeTotal(config, cls.methods);
    ClinitAddsNoProbes(config, cls);
    assert ms[..|ms|] == ms;
    forall k | 0 <= k < |ms|
      ensures WellFormed(p.bodies[k])
      ensures IsPrologue(p.plans[k].prologue) && |p.plans[k].prologue| <= 1
      ensures p.plans[k].prologue != [] ==> !p.plans[k].probing
      ensures Probed(p, k) ==> p.plans[k].offset == ProbeTotal(config, ms[..k]) && MethodSites(config, ms[k]) == Sites(ms[k].body.code)
      ensures p.plans[k].offset + (if Probed(p, k) then |Sites(p.bodies[k].code)| else 0) <= total
    {
      if k == |cls.methods| { ReturnIsWellFormed(); }
      PlanCoversSites(config, total, ms[k], ProbeTotal(config, ms[..k]));
      OffsetsGrow(config, ms, k, |ms|);
      UnprobedPlan(config, total, ms[k], ProbeTotal(config, ms[..k]));
    }
    forall k, l | 0 <= k < l < |ms| && Probed(p, k) && Probed(p, l)
      ensures p.plans[k].offset + |Sites(p.bodies[k].code)| <= p.plans[l].offset
    {
      OffsetsGrow(config, ms, k, l);
    }
  }

  lemma UnprobedPlan(config: AgentConfig, total: nat, m: MethodNode, offset: nat)
    ensures !PlanOf(config, total, m, offset).probing ==> PlanOf(config, total, m, offset).offset == 0
    ensures PlanOf(config, total, m, offset).prologue != [] ==> !PlanOf(config, total, m, offset).probing
  {
  }

  lemma ReturnIsWellFormed()
    ensures WellFormed(Body([Return], []))
  {
  }

  /** The sites of one method, as sites of its class. */
  function SitesOfMethod(index: nat, sites: seq<Site>): (passed: seq<Passed>)
    ensures |passed| == |sites|
  {
    seq(|sites|, s requires 0 <= s < |sites| => Passed(index, sites[s]))
  }

  /** The sites of a class in probe order: probe `n` stands for site `n`. */
  function ClassSites(config: AgentConfig, methods: seq<MethodNode>): (sites: seq<Passed>)
    ensures |sites| == ProbeTotal(config, methods)
  {
    if methods == [] then []
    else
      var front := methods[..|methods| - 1];
      ClassSites(config, front) + SitesOfMethod(|front|, MethodSites(config, methods[|front|]))
  }

  lemma {:induction false} ClassSiteIs(config: AgentConfig, methods: seq<MethodNode>, k: nat, s: nat)
    requires k < |methods| && s < |MethodSites(config, methods[k])|
    ensures
      var n := ProbeTotal(config, methods[..k]) + s;
      n < ProbeTotal(config, methods) && ClassSites(config, methods)[n] == Passed(k, MethodSites(config, methods[k])[s])
  {
    hide MethodSites;
    var front := methods[..|methods| - 1];
    if k < |front| {
      ClassSiteIs(config, front, k, s);
      assert front[..k] == methods[..k];
    } else {
      assert front == methods[..k];
    }
  }

  // ---- Runs ----

  function BodiesOfClass(config: AgentConfig, cls: ClassNode): seq<Body> {
    RewriteAll(ProgramOf(config, cls))
  }

  /** The class before anything has happened to it: the field is null, and the array will be clear. */
  function Unstarted<W>(config: AgentConfig, cls: ClassNode, world: W): Machine<W> {
    AtRest(world, seq(ProbeTotal(config, cls.methods), _ => false))
  }

  function InstrumentedRun<W>(sem: Semantics<W>, config: AgentConfig, cls: ClassNode, world: W, events: seq<Event>): Machine<W> {
    Run(sem, BodiesOfClass(config, cls), Unstarted(config, cls, world), events)
  }

  function OriginalRun<W>(sem: Semantics<W>, config: AgentConfig, cls: ClassNode, world: W, schedule: seq<Event>): Machine<W> {
    Run(sem, ProgramOf(config, cls).bodies, AtRest(world, []), schedule)
  }

  /** The sites the original class passes under a schedule. */
  function SitesPassed<W>(sem: Semantics<W>, config: AgentConfig, cls: ClassNode, world: W, schedule: seq<Event>): set<Passed> {
    PassedBy(sem, ProgramOf(config, cls).bodies, AtRest(world, []), schedule)
  }

  /** No event of the run stores into a field that is still null. */
  predicate RunsFaultless<W>(sem: Semantics<W>, config: AgentConfig, cls: ClassNode, world: W, events: seq<Event>) {
    Faultless(sem, BodiesOfClass(config, cls), Unstarted(config, cls, world), events)
  }

  /**
   * The array after a run: an element is true only if the site of its probe is among those passed,
   * and is false for such a site only while an activation is about to set it.
   */
  ghost predicate TellsSites(config: AgentConfig, cls: ClassNode, elements: seq<bool>, activations: seq<Activation>, passed: set<Passed>) {
    && |elements| == ProbeTotal(config, cls.methods)
    && forall n :: 0 <= n < |elements| ==>
         && (elements[n] ==> ClassSites(config, cls.methods)[n] in passed)
         && (ClassSites(config, cls.methods)[n] in passed ==> elements[n] || IsAwaited(BodiesOfClass(config, cls), activations, n))
  }

  /** Under `schedule` the original class does the same, and the array tells the sites it passes. */
  ghost predicate ToldBy<W>(sem: Semantics<W>, config: AgentConfig, cls: ClassNode, world: W, events: seq<Event>, schedule: seq<Event>) {
    var r, o := InstrumentedRun(sem, config, cls, world, events), OriginalRun(sem, config, cls, world, schedule);
    && SameBehaviour(ProgramOf(config, cls), r, o)
    && TellsSites(config, cls, r.field.elements, r.activations, SitesPassed(sem, config, cls, world, schedule))
  }

  /** The events of the original class that a run of the instrumented one amounts to. */
  function ScheduleOf<W>(sem: Semantics<W>, config: AgentConfig, cls: ClassNode, world: W, events: seq<Event>): seq<Event> {
    Follow(sem, ProgramOf(config, cls), world, events).schedule
  }

  /**
   * A run of an instrumented class that never stores into null is a run of the original, and at every
   * moment of it the array tells which sites that run of the original has passed.
   */
  lemma InstrumentedRunTellsSites<W>(sem: Semantics<W>, config: AgentConfig, cls: ClassNode, world: W, events: seq<Event>)
    requires HasProbes(config, cls) && WellFormedClass(cls) && RunsFaultless(sem, config, cls, world, events)
    ensures ToldBy(sem, config, cls, world, events, ScheduleOf(sem, config, cls, world, events))
    ensures exists schedule: seq<Event> :: ToldBy(sem, config, cls, world, events, schedule)
  {
    hide Explains, ToldBy, ProgramOf, ProbeTotal, Follow, Faultless;
    ClassProgramIsValid(config, cls);
    var p, initial := ProgramOf(config, cls), seq(ProbeTotal(config, cls.methods), _ => false);
    RewrittenRunsAreOriginal(sem, p, world, initial, events);
    ExplainedIsTold(sem, config, cls, world, events, ScheduleOf(sem, config, cls, world, events));
  }

  lemma SoundMeansTells<W>(config: AgentConfig, cls: ClassNode, r: Machine<W>, passed: set<Passed>)
    requires HasProbes(config, cls) && WellFormedClass(cls) && |r.field.elements| == ProbeTotal(config, cls.methods)
    requires ProbesAreSound(ProgramOf(config, cls), seq(ProbeTotal(config, cls.methods), _ => false), r, passed)
    ensures TellsSites(config, cls, r.field.elements, r.activations, passed)
  {
    hide Sites, Layout, ProbeTotal, PlanOf, MethodSites, WellFormed, IsPrologue, ClassSites, IsAwaited, RewriteAll;
    var p, ms, total := ProgramOf(config, cls), WithClinit(cls.methods), ProbeTotal(config, cls.methods);
    forall n | 0 <= n < total
      ensures r.field.elements[n] ==> ClassSites(config, cls.methods)[n] in passed
      ensures ClassSites(config, cls.methods)[n] in passed ==> r.field.elements[n] || IsAwaited(RewriteAll(p), r.activations, n)
    {
      var k, s := OwnerOfIndex(config, cls.methods, n);
      ClassSiteIs(config, cls.methods, k, s);
      assert ms[..k] == cls.methods[..k];
      PlanCoversSites(config, total, ms[k], ProbeTotal(config, ms[..k]));
      assert IsProbeOf(p, k, s);
    }
  }

  lemma ExplainedIsTold<W>(sem: Semantics<W>, config: AgentConfig, cls: ClassNode, world: W, events: seq<Event>, schedule: seq<Event>)
    requires HasProbes(config, cls) && WellFormedClass(cls)
    requires Explains(sem, ProgramOf(config, cls), world, seq(ProbeTotal(config, cls.methods), _ => false), events, schedule)
    ensures ToldBy(sem, config, cls, world, events, schedule)
  {
    hide Run, PassedBy, RewriteAll, ProgramOf, SameBehaviour, ProbesAreSound, TellsSites, ProbeTotal;
    SoundMeansTells(config, cls, InstrumentedRun(sem, config, cls, world, events), SitesPassed(sem, config, cls, world, schedule));
  }

  // ---- Before the initializer ----

  /** The name `go`, and a class with a method of that name that does nothing on line 7. */
  const GO: Text := [0x67, 0x6F]

  const IDLE := ClassNode([0x44], None, false, [MethodNode(GO, CLINIT_DESC, Access(false, false, false), false, Body([Line(7), Return], []))])

  /** The method is called and runs to its end before the class's initializer has. */
  const CALLED_EARLY: seq<Event> := [Start(0, []), Advance(0), Advance(0), Advance(0), Advance(0), Advance(0)]

  lemma IdleSites()
    ensures Sites([Line(7), Return]) == [Site(0, 0)]
  {
    var code: seq<Insn> := [Line(7), Return];
    assert code[..1] == [Line(7)] && code[..1][..0] == [];
    assert Sites([]) == [] && Sites([Line(7)]) == [Site(0, 0)];
  }

  lemma IdleLayout()
    ensures Layout(Plan([], true, 0), [Line(7), Return])
         == [Line(7), GetProbes, PushInt(IConst, 0), PushInt(IConst, 1), BaStore, Return]
  {
    var code: seq<Insn> := [Line(7), Return];
    var plan := Plan([], true, 0);
    assert code[..1] == [Line(7)] && code[..1][..0] == [];
    assert Sites([]) == [] && Layout(plan, []) == [];
    assert Layout(plan, [Line(7)]) == [Line(7)] + Store(0);
    assert Layout(plan, code) == [Line(7)] + Store(0) + [Return];
    assert Store(0) == [GetProbes, PushInt(IConst, 0), PushInt(IConst, 1), BaStore];
  }

  lemma IdleIsInstrumented(config: AgentConfig)
    requires !config.excludes(GO)
    ensures HasProbes(config, IDLE) && WellFormedClass(IDLE) && ProbeTotal(config, IDLE.methods) == 1
    ensures ProgramOf(config, IDLE).bodies == [Body([Line(7), Return], []), Body([Return], [])]
    ensures BodiesOfClass(config, IDLE)[0] == Body([Line(7), GetProbes, PushInt(IConst, 0), PushInt(IConst, 1), BaStore, Return], [])
  {
    hide Sites, Layout;
    IdleSites();
    IdleLayout();
    var m := IDLE.methods[0];
    assert GO[0] != CLINIT[0];
    assert IDLE.methods[..0] == [] && |MethodSites(config, m)| == 1;
    var ms := WithClinit(IDLE.methods);
    assert ms == [m, ms[1]] && ms[..0] == [];
    assert PlanOf(config, 1, m, 0) == Plan([], true, 0);
  }

  lemma OneMoreStep<W>(sem: Semantics<W>, bodies: seq<Body>, m: Machine<W>, events: seq<Event>, e: Event)
    ensures Run(sem, bodies, m, events + [e]) == Step(sem, bodies, Run(sem, bodies, m, events), e)
  {
    assert (events + [e])[..|events|] == events;
  }

  lemma FirstStart<W>(sem: Semantics<W>, bodies: seq<Body>, m: Machine<W>)
    requires bodies != [] && m.activations == []
    ensures Run(sem, bodies, m, [Start(0, [])]) == m.(activations := [Activation(0, Running(0, []))])
  {
    hide FrameStep;
    var start: seq<Event> := [Start(0, [])];
    assert start[..0] == [];
    assert Run(sem, bodies, m, start) == Step(sem, bodies, Run(sem, bodies, m, []), Start(0, []));
  }

  /** Five steps: the marker, the read of null, both pushes and the store. */
  lemma {:induction false} IdleFaults<W>(sem: Semantics<W>, bodies: seq<Body>, m: Machine<W>)
    requires bodies != [] && bodies[0].handlers == []
    requires bodies[0].code == [Line(7), GetProbes, PushInt(IConst, 0), PushInt(IConst, 1), BaStore, Return]
    requires !m.field.isSet && m.activations == []
    ensures Run(sem, bodies, m, CALLED_EARLY).activations == [Activation(0, Threw(sem.nullPointer(m.world).1))]
  {
    hide Run;
    var none: seq<Slot> := [];
    assert none + [Null] == [Null] && [Null] + [Word(0)] == [Null, Word(0)] && [Null, Word(0)] + [Word(1)] == [Null, Word(0), Word(1)];
    FirstStart(sem, bodies, m);
    var e1: seq<Event> := [Start(0, [])];
    var e2, e3, e4, e5 := e1 + [Advance(0)], e1 + [Advance(0)] + [Advance(0)], e1 + [Advance(0)] + [Advance(0)] + [Advance(0)],
      e1 + [Advance(0)] + [Advance(0)] + [Advance(0)] + [Advance(0)];
    FirstAdvances(sem, bodies, m, e1, Running(0, []));
    FirstAdvances(sem, bodies, m, e2, Running(1, []));
    FirstAdvances(sem, bodies, m, e3, Running(2, [Null]));
    FirstAdvances(sem, bodies, m, e4, Running(3, [Null, Word(0)]));
    FirstAdvances(sem, bodies, m, e5, Running(4, [Null, Word(0), Word(1)]));
    assert CALLED_EARLY == e5 + [Advance(0)];
  }

  lemma {:induction false} FirstAdvances<W>(sem: Semantics<W>, bodies: seq<Body>, m: Machine<W>, events: seq<Event>, f: Frame)
    requires bodies != [] && bodies[0].handlers == []
    requires bodies[0].code == [Line(7), GetProbes, PushInt(IConst, 0), PushInt(IConst, 1), BaStore, Return]
    requires Run(sem, bodies, m, events) == m.(activations := [Activation(0, f)]) && !m.field.isSet
    ensures f.Running? && f.pc == 0 ==> Run(sem, bodies, m, events + [Advance(0)]) == m.(activations := [Activation(0, Running(1, f.stack))])
    ensures f.Running? && f.pc == 1 ==> Run(sem, bodies, m, events + [Advance(0)]) == m.(activations := [Activation(0, Running(2, f.stack + [Null]))])
    ensures f.Running? && 2 <= f.pc <= 3 ==>
      Run(sem, bodies, m, events + [Advance(0)]) == m.(activations := [Activation(0, Running(f.pc + 1, f.stack + [Word(f.pc - 2)]))])
    ensures f == Running(4, [Null, Word(0), Word(1)]) ==>
      Run(sem, bodies, m, events + [Advance(0)]).activations == [Activation(0, Threw(sem.nullPointer(m.world).1))]
  {
    OneMoreStep(sem, bodies, m, events, Advance(0));
    var s := FrameStep(sem, bodies[0], m.world, m.field, f);
  }

  lemma IdleStep<W>(sem: Semantics<W>, body: Body, world: W, field: Field, f: Frame)
    requires !f.Threw? && (body == Body([Line(7), Return], []) || body == Body([Return], []))
    ensures !FrameStep(sem, body, world, field, f).frame.Threw?
  {
  }

  predicate NoneThrew(activations: seq<Activation>) {
    forall a :: 0 <= a < |activations| ==> !activations[a].frame.Threw?
  }

  /** The original has nothing that throws. */
  lemma {:induction false} IdleNeverThrows<W>(sem: Semantics<W>, bodies: seq<Body>, world: W, schedule: seq<Event>)
    requires bodies == [Body([Line(7), Return], []), Body([Return], [])]
    ensures NoneThrew(Run(sem, bodies, AtRest(world, []), schedule).activations)
  {
    hide FrameStep;
    if schedule != [] {
      var front, e := schedule[..|schedule| - 1], schedule[|schedule| - 1];
      IdleNeverThrows(sem, bodies, world, front);
      var o := Run(sem, bodies, AtRest(world, []), front);
      if e.Advance? && e.activation < |o.activations| && o.activations[e.activation].index < 2 {
        IdleStep(sem, bodies[o.activations[e.activation].index], o.world, o.field, o.activations[e.activation].frame);
      }
    }
  }

  lemma ThrewApart<W>(p: Program, r: Machine<W>, o: Machine<W>)
    requires |p.plans| == |p.bodies| && |r.activations| == 1 && r.activations[0].frame.Threw? && NoneThrew(o.activations)
    ensures !SameBehaviour(p, r, o)
  {
  }

  /**
   * Called from the initializer of a superclass, which section 5.5 of the Java Virtual Machine
   * Specification runs first, the method ends in an exception that the original never throws: the
   * field is still null.
   */
  lemma SuperclassCallsTooEarly<W>(sem: Semantics<W>, config: AgentConfig, world: W)
    requires !config.excludes(GO)
    ensures HasProbes(config, IDLE) && WellFormedClass(IDLE)
    ensures
      var r := InstrumentedRun(sem, config, IDLE, world, CALLED_EARLY);
      && r.activations == [Activation(0, Threw(sem.nullPointer(world).1))]
      && forall schedule: seq<Event> :: !SameBehaviour(ProgramOf(config, IDLE), r, OriginalRun(sem, config, IDLE, world, schedule))
  {
    hide Run, ProbeTotal, SameBehaviour, RewriteAll;
    IdleIsInstrumented(config);
    IdleFaults(sem, BodiesOfClass(config, IDLE), Unstarted(config, IDLE, world));
    var r := InstrumentedRun(sem, config, IDLE, world, CALLED_EARLY);
    forall schedule: seq<Event> ensures !SameBehaviour(ProgramOf(config, IDLE), r, OriginalRun(sem, config, IDLE, world, schedule)) {
      IdleNeverThrows(sem, ProgramOf(config, IDLE).bodies, world, schedule);
      ThrewApart(ProgramOf(config, IDLE), r, OriginalRun(sem, config, IDLE, world, schedule));
    }
  }
}
