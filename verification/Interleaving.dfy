/**
 * A whole class at run time: any number of activations of its methods, started and advanced
 * in any order, in the rewritten class and in the original.
 */
module Interleaving {
  import opened Bytecode
  import opened ProbeLayout
  import opened ProbeLabels
  import opened Simulation

  /** Nothing has been started and the field is null. */
  function AtRest<W>(world: W, elements: seq<bool>): Machine<W> {
    Machine(world, Field(false, elements), [])
  }

  /** The methods of a class and how each of them is rewritten. */
  datatype Program = Program(plans: seq<Plan>, bodies: seq<Body>)

  predicate Probed(p: Program, m: nat) {
    m < |p.plans| && p.plans[m].probing
  }

  ghost predicate ValidProgram(p: Program) {
    && |p.plans| == |p.bodies|
    && (forall m :: 0 <= m < |p.bodies| ==> WellFormed(p.bodies[m]))
    && (forall m :: 0 <= m < |p.plans| ==> IsPrologue(p.plans[m].prologue) && |p.plans[m].prologue| <= 1)
    && (forall m :: 0 <= m < |p.plans| && p.plans[m].prologue != [] ==> !p.plans[m].probing)
  }

  /** The probe ranges of the methods follow each other and fit the array. */
  ghost predicate RangesFit(p: Program, size: nat)
    requires |p.plans| == |p.bodies|
  {
    && (forall m :: 0 <= m < |p.bodies| ==> Probed(p, m) ==> p.plans[m].offset + |Sites(p.bodies[m].code)| <= size)
    && (forall m, m' :: 0 <= m < m' < |p.bodies| && Probed(p, m) && Probed(p, m') ==>
          p.plans[m].offset + |Sites(p.bodies[m].code)| <= p.plans[m'].offset)
  }

  function RewriteAll(p: Program): (bodies: seq<Body>)
    requires |p.plans| == |p.bodies|
    ensures |bodies| == |p.bodies|
  {
    seq(|p.bodies|, m requires 0 <= m < |p.bodies| => Rewrite(p.plans[m], p.bodies[m]))
  }

  // ---- What the original class passes ----

  /** Site `site` of method number `index`. */
  datatype Passed = Passed(index: nat, site: Site)

  function PassedIn<W>(sem: Semantics<W>, bodies: seq<Body>, m: Machine<W>, e: Event): set<Passed> {
    if e.Advance? && e.activation < |m.activations| && m.activations[e.activation].index < |bodies| then
      var a := m.activations[e.activation];
      var p := SitePassed(sem, bodies[a.index].code, a.frame);
      if p.Passing? then {Passed(a.index, p.site)} else {}
    else {}
  }

  /** The markers and arms that a run of the original class goes through. */
  function PassedBy<W>(sem: Semantics<W>, bodies: seq<Body>, m: Machine<W>, events: seq<Event>): set<Passed> {
    if events == [] then {}
    else
      var front := events[..|events| - 1];
      PassedBy(sem, bodies, m, front) + PassedIn(sem, bodies, Run(sem, bodies, m, front), events[|events| - 1])
  }

  // ---- Following the original along ----

  /** The places of the rewritten activations, the events of the original class so far, and whether the field is set. */
  datatype Shadow = Shadow(spots: seq<Spot>, schedule: seq<Event>, isSet: bool)

  function FirstSpot(plan: Plan, arguments: seq<Slot>): Spot {
    Spot(if plan.prologue == [] then At(0) else Prologue(0), arguments)
  }

  predicate IsStutter(p: Program, activations: seq<Activation>, spots: seq<Spot>, e: Event) {
    && e.Advance?
    && e.activation < |activations| && e.activation < |spots|
    && activations[e.activation].index < |p.bodies| && |p.bodies| == |p.plans|
    && var m, spot := activations[e.activation].index, spots[e.activation];
       spot.Spot? && IsWhere(p.plans[m], p.bodies[m].code, spot.w) && !spot.w.At?
  }

  /** The event carries out the registration in front of an initializer. */
  predicate SetsField(p: Program, activations: seq<Activation>, spots: seq<Spot>, e: Event) {
    IsStutter(p, activations, spots, e) && spots[e.activation].w.Prologue?
  }

  function NextSpot<W>(sem: Semantics<W>, p: Program, o: Machine<W>, spots: seq<Spot>, isSet: bool, e: Event): seq<Spot>
    requires |p.plans| == |p.bodies|
  {
    match e
    case Start(index, arguments) =>
      if index < |p.bodies| then spots + [FirstSpot(p.plans[index], arguments)] else spots
    case Advance(a) =>
      if a < |o.activations| && a < |spots| && o.activations[a].index < |p.bodies| then
        var m := o.activations[a].index;
        var plan, code := p.plans[m], p.bodies[m].code;
        var spot :=
          if IsStutter(p, o.activations, spots, e) then Spot(Next(plan, code, spots[a].w, isSet), spots[a].stack)
          else
            var f := FrameStep(sem, p.bodies[m], o.world, o.field, o.activations[a].frame).frame;
            SpotAfter(plan, code, SitePassed(sem, code, o.activations[a].frame), f);
        spots[a := spot]
      else spots
    case Outside(_) => spots
  }

  /** The shadow of a run of the rewritten class: an event inside probe code is no event of the original. */
  function Follow<W>(sem: Semantics<W>, p: Program, world: W, events: seq<Event>): Shadow
    requires |p.plans| == |p.bodies|
  {
    if events == [] then Shadow([], [], false)
    else
      var before, e := Follow(sem, p, world, events[..|events| - 1]), events[|events| - 1];
      var o := Run(sem, p.bodies, AtRest(world, []), before.schedule);
      Shadow(NextSpot(sem, p, o, before.spots, before.isSet, e),
             if IsStutter(p, o.activations, before.spots, e) then before.schedule else before.schedule + [e],
             before.isSet || SetsField(p, o.activations, before.spots, e))
  }

  // ---- The invariant ----

  ghost predicate Aligned<W>(p: Program, r: Machine<W>, o: Machine<W>, spots: seq<Spot>)
    requires |p.plans| == |p.bodies|
  {
    && r.world == o.world
    && |r.activations| == |o.activations| == |spots|
    && forall a :: 0 <= a < |spots| ==>
         && r.activations[a].index == o.activations[a].index < |p.bodies|
         && Matches(p.plans[o.activations[a].index], p.bodies[o.activations[a].index].code, spots[a],
                    r.activations[a].frame, o.activations[a].frame)
         && (spots[a].Spot? ==> Fetched(spots[a].w, r.field.isSet))
  }

  /** An activation on its way to the store of a site it has passed. */
  predicate Pending(spot: Spot, site: Site) {
    spot.Spot? && (spot.w.Enter? || spot.w.Storing?) && site == Site(spot.w.i, spot.w.arm)
  }

  ghost predicate PendingAt(activations: seq<Activation>, spots: seq<Spot>, passed: Passed) {
    exists a :: 0 <= a < |spots| && a < |activations| && activations[a].index == passed.index && Pending(spots[a], passed.site)
  }

  /** Probe `n` of method `m` against the sites passed: true for no other reason, and for no other reason late. */
  ghost predicate Reflects(p: Program, initial: seq<bool>, probes: seq<bool>, activations: seq<Activation>,
                           spots: seq<Spot>, passed: set<Passed>, m: nat, n: nat)
    requires m < |p.bodies| == |p.plans| && n < |Sites(p.bodies[m].code)|
    requires p.plans[m].offset + n < |probes| == |initial|
  {
    var g, site := p.plans[m].offset + n, Passed(m, Sites(p.bodies[m].code)[n]);
    && (probes[g] ==> initial[g] || site in passed)
    && (initial[g] ==> probes[g])
    && (site in passed ==> probes[g] || PendingAt(activations, spots, site))
  }

  ghost predicate ProbesReflect(p: Program, initial: seq<bool>, probes: seq<bool>, activations: seq<Activation>,
                                spots: seq<Spot>, passed: set<Passed>)
    requires |p.plans| == |p.bodies| && RangesFit(p, |initial|) && |probes| == |initial|
  {
    && (forall m, n :: 0 <= m < |p.bodies| && Probed(p, m) && 0 <= n < |Sites(p.bodies[m].code)| ==>
          Reflects(p, initial, probes, activations, spots, passed, m, n))
    && (forall a, site :: 0 <= a < |spots| && a < |activations| && Pending(spots[a], site) ==>
          Passed(activations[a].index, site) in passed)
  }

  /** The array after an event: changed only by the last instruction of a store. */
  function ProbesAfter(p: Program, activations: seq<Activation>, spots: seq<Spot>, e: Event, probes: seq<bool>): (after: seq<bool>)
    ensures |after| == |probes|
  {
    if IsStutter(p, activations, spots, e) && spots[e.activation].w.Storing? && spots[e.activation].w.r == 3 then
      var m, w := activations[e.activation].index, spots[e.activation].w;
      var g := IndexOf(p.plans[m], p.bodies[m].code, w.i, w.arm);
      if g < |probes| then probes[g := true] else probes
    else probes
  }

  lemma StutterKeepsAlignment<W>(sem: Semantics<W>, p: Program, r: Machine<W>, o: Machine<W>, spots: seq<Spot>, e: Event)
    requires ValidProgram(p) && RangesFit(p, |r.field.elements|) && Aligned(p, r, o, spots)
    requires IsStutter(p, o.activations, spots, e) && !IsDoomed(spots[e.activation].w)
    ensures
      var r' := Step(sem, RewriteAll(p), r, e);
      && Aligned(p, r', o, NextSpot(sem, p, o, spots, r.field.isSet, e))
      && r'.field == Field(r.field.isSet || SetsField(p, o.activations, spots, e), ProbesAfter(p, o.activations, spots, e, r.field.elements))
  {
    hide Stutters, WellFormed, Sites, Layout, FrameStep, Rewritten, Original, Rewrite;
    var a := e.activation;
    var m := o.activations[a].index;
    var plan, body, w, stack := p.plans[m], p.bodies[m], spots[a].w, spots[a].stack;
    var field' := Field(r.field.isSet || w.Prologue?, ProbesAfter(p, o.activations, spots, e, r.field.elements));
    assert Stutters(sem, plan, body, r.world, r.field, w, stack, field') by {
      if w.Storing? {
        assert Probed(p, m);
        StoreStep(sem, plan, body, r.world, r.field, w, stack);
      } else if w.Leave? {
        LeaveStep(sem, plan, body, r.world, r.field, w, stack);
      } else {
        MarkerStep(sem, plan, body, r.world, r.field, w, stack);
      }
    }
    StutterMeans(sem, plan, body, r.world, r.field, w, stack, field');
  }

  lemma StutterMeans<W>(sem: Semantics<W>, plan: Plan, body: Body, world: W, field: Field, w: Where, stack: seq<Slot>, field': Field)
    requires IsWhere(plan, body.code, w) && !w.At?
    requires Stutters(sem, plan, body, world, field, w, stack, field')
    ensures
      var s := FrameStep(sem, Rewrite(plan, body), world, field, Rewritten(plan, body.code, w, stack));
      && s.world == world && s.field == field'
      && Matches(plan, body.code, Spot(Next(plan, body.code, w, field.isSet), stack), s.frame, Original(plan, body.code, w, stack))
  {
  }

  lemma MatchKeepsAlignment<W>(sem: Semantics<W>, p: Program, r: Machine<W>, o: Machine<W>, spots: seq<Spot>, e: Event)
    requires ValidProgram(p) && Aligned(p, r, o, spots)
    requires !IsStutter(p, o.activations, spots, e)
    ensures
      var r', o' := Step(sem, RewriteAll(p), r, e), Step(sem, p.bodies, o, e);
      && Aligned(p, r', o', NextSpot(sem, p, o, spots, r.field.isSet, e))
      && r'.field == r.field && o'.field == o.field
  {
    hide WellFormed, Sites, Layout, FrameStep, Rewrite;
    match e
    case Start(index, arguments) =>
      if index < |p.bodies| {
        FirstMatches(p.plans[index], p.bodies[index], arguments);
      }
    case Advance(a) =>
      if a < |spots| {
        var m := o.activations[a].index;
        AdvanceMatches(sem, p.plans[m], p.bodies[m], r.world, r.field, o.field, spots[a], r.activations[a].frame, o.activations[a].frame);
        hide Matches;
      }
    case Outside(_) =>
  }

  lemma FirstMatches(plan: Plan, body: Body, arguments: seq<Slot>)
    ensures Matches(plan, body.code, FirstSpot(plan, arguments), Running(0, arguments), Running(0, arguments))
  {
    hide Sites, Layout;
    assert Layout(plan, body.code[..0]) == plan.prologue by { LayoutOfNothing(plan, body.code); }
  }

  lemma LayoutOfNothing(plan: Plan, code: seq<Insn>)
    ensures Layout(plan, code[..0]) == plan.prologue
  {
  }

  lemma AdvanceMatches<W>(sem: Semantics<W>, plan: Plan, body: Body, world: W, field: Field, others: Field,
                          spot: Spot, rf: Frame, of: Frame)
    requires WellFormed(body) && IsPrologue(plan.prologue) && Matches(plan, body.code, spot, rf, of)
    requires spot.Spot? ==> spot.w.At?
    ensures
      var r := FrameStep(sem, Rewrite(plan, body), world, field, rf);
      var o := FrameStep(sem, body, world, others, of);
      && r.world == o.world && r.field == field && o.field == others
      && Matches(plan, body.code, SpotAfter(plan, body.code, SitePassed(sem, body.code, of), o.frame), r.frame, o.frame)
  {
    if spot.Spot? {
      MatchedStep(sem, plan, body, world, field, others, spot.w.i, spot.stack);
    }
  }

  // ---- The probe array ----

  lemma NextIsPending(plan: Plan, code: seq<Insn>, w: Where, isSet: bool, stack: seq<Slot>, site: Site)
    requires IsWhere(plan, code, w) && !w.At?
    ensures Pending(Spot(Next(plan, code, w, isSet), stack), site) <==> Pending(Spot(w, stack), site) && !(w.Storing? && w.r == 3)
  {
  }

  /** Two sites with one index are one site. */
  lemma SameIndexSameSite(p: Program, size: nat, m: nat, site: Site, m': nat, n: nat)
    requires |p.plans| == |p.bodies| && RangesFit(p, size)
    requires m < |p.bodies| && Probed(p, m) && m' < |p.bodies| && Probed(p, m')
    requires site.pc < |p.bodies[m].code| && site.arm < SiteArity(p.bodies[m].code[..site.pc], p.bodies[m].code[site.pc])
    requires n < |Sites(p.bodies[m'].code)|
    ensures
      (IndexOf(p.plans[m], p.bodies[m].code, site.pc, site.arm) == p.plans[m'].offset + n)
      <==> (m == m' && Sites(p.bodies[m'].code)[n] == site)
  {
    SitesInRange(p.bodies[m'].code, n);
    SiteIsListed(p.bodies[m].code, site);
  }

  lemma StutterKeepsReflection<W>(sem: Semantics<W>, p: Program, o: Machine<W>, spots: seq<Spot>, isSet: bool, e: Event,
                                  initial: seq<bool>, probes: seq<bool>, passed: set<Passed>)
    requires ValidProgram(p) && RangesFit(p, |initial|) && |probes| == |initial| && |spots| == |o.activations|
    requires IsStutter(p, o.activations, spots, e)
    requires ProbesReflect(p, initial, probes, o.activations, spots, passed)
    ensures ProbesReflect(p, initial, ProbesAfter(p, o.activations, spots, e, probes), o.activations,
                          NextSpot(sem, p, o, spots, isSet, e), passed)
  {
    hide WellFormed, Sites, Layout, FrameStep;
    var a := e.activation;
    var m0, w, stack := o.activations[a].index, spots[a].w, spots[a].stack;
    var after, spots' := ProbesAfter(p, o.activations, spots, e, probes), NextSpot(sem, p, o, spots, isSet, e);
    forall b, site | 0 <= b < |spots'| && Pending(spots'[b], site) ensures Pending(spots[b], site) {
      NextIsPending(p.plans[m0], p.bodies[m0].code, w, isSet, stack, site);
    }
    forall m, n | 0 <= m < |p.bodies| && Probed(p, m) && 0 <= n < |Sites(p.bodies[m].code)|
      ensures Reflects(p, initial, after, o.activations, spots', passed, m, n)
    {
      assert Reflects(p, initial, probes, o.activations, spots, passed, m, n);
      var g, site := p.plans[m].offset + n, Passed(m, Sites(p.bodies[m].code)[n]);
      if w.Storing? {
        SameIndexSameSite(p, |initial|, m0, Site(w.i, w.arm), m, n);
        assert Pending(spots[a], Site(w.i, w.arm));
      }
      NextIsPending(p.plans[m0], p.bodies[m0].code, w, isSet, stack, site.site);
      if site in passed && !after[g] {
        var b :| 0 <= b < |spots| && o.activations[b].index == m && Pending(spots[b], site.site);
        assert Pending(spots'[b], site.site);
      }
    }
  }

  /** Having passed a site, an activation is on its way to the store. */
  lemma PassingIsPending<W>(sem: Semantics<W>, plan: Plan, body: Body, world: W, others: Field, f: Frame)
    requires WellFormed(body) && plan.probing && SitePassed(sem, body.code, f).Passing?
    ensures
      var s := SitePassed(sem, body.code, f);
      forall site :: Pending(SpotAfter(plan, body.code, s, FrameStep(sem, body, world, others, f).frame), site) <==> site == s.site
  {
    hide Find, Sites;
    var code := body.code;
    if IsDecision(code[f.pc]) {
      var c := Choose(sem, code[f.pc], f.stack);
      assert c.arm > 0 || !code[f.pc].Jump? ==> Resolves(code, ArmLabel(code[f.pc], c.arm));
    }
  }

  /** The activation that an event is about: the one it advances, or the one it may add. */
  function Mover(spots: seq<Spot>, e: Event): nat {
    if e.Advance? then e.activation else |spots|
  }

  /** What a matching event does to the places: it moves one, and to a store exactly when it passes a probe's site. */
  lemma MatchMoves<W>(sem: Semantics<W>, p: Program, o: Machine<W>, spots: seq<Spot>, isSet: bool, e: Event)
    requires ValidProgram(p) && |spots| == |o.activations| && !IsStutter(p, o.activations, spots, e)
    requires forall a :: 0 <= a < |spots| ==>
               o.activations[a].index < |p.bodies|
               && (spots[a].Spot? ==> IsWhere(p.plans[o.activations[a].index], p.bodies[o.activations[a].index].code, spots[a].w))
    ensures
      var a, o', spots', passing := Mover(spots, e), Step(sem, p.bodies, o, e), NextSpot(sem, p, o, spots, isSet, e), PassedIn(sem, p.bodies, o, e);
      && |spots| <= |spots'| == |o'.activations|
      && (forall b :: 0 <= b < |spots| ==> o'.activations[b].index == o.activations[b].index && (b != a ==> spots'[b] == spots[b]))
      && (forall b, site :: |spots| <= b < |spots'| ==> !Pending(spots'[b], site))
      && (a < |spots| ==> forall site :: !Pending(spots[a], site))
      && (a < |spots| ==> forall site :: Pending(spots'[a], site) ==> Passed(o.activations[a].index, site) in passing)
      && (forall q :: q in passing && Probed(p, q.index) ==>
            a < |spots| && o.activations[a].index == q.index && Pending(spots'[a], q.site))
  {
    hide WellFormed, Sites, Layout, FrameStep;
    if e.Advance? && e.activation < |spots| {
      var m := o.activations[e.activation].index;
      if Probed(p, m) && SitePassed(sem, p.bodies[m].code, o.activations[e.activation].frame).Passing? {
        PassingIsPending(sem, p.plans[m], p.bodies[m], o.world, o.field, o.activations[e.activation].frame);
      }
    }
  }

  lemma MatchKeepsReflection<W>(sem: Semantics<W>, p: Program, o: Machine<W>, spots: seq<Spot>, isSet: bool, e: Event,
                                initial: seq<bool>, probes: seq<bool>, passed: set<Passed>)
    requires ValidProgram(p) && RangesFit(p, |initial|) && |probes| == |initial| && |spots| == |o.activations|
    requires !IsStutter(p, o.activations, spots, e)
    requires forall a :: 0 <= a < |spots| ==>
               o.activations[a].index < |p.bodies|
               && (spots[a].Spot? ==> IsWhere(p.plans[o.activations[a].index], p.bodies[o.activations[a].index].code, spots[a].w))
    requires ProbesReflect(p, initial, probes, o.activations, spots, passed)
    ensures ProbesReflect(p, initial, probes, Step(sem, p.bodies, o, e).activations,
                          NextSpot(sem, p, o, spots, isSet, e), passed + PassedIn(sem, p.bodies, o, e))
  {
    MatchMoves(sem, p, o, spots, isSet, e);
    hide WellFormed, Sites, Step, NextSpot, PassedIn, Pending, IsStutter, IsWhere, Reflects;
    var o', spots', passed' := Step(sem, p.bodies, o, e), NextSpot(sem, p, o, spots, isSet, e), passed + PassedIn(sem, p.bodies, o, e);
    forall b, site | 0 <= b < |spots'| && b < |o'.activations| && Pending(spots'[b], site)
      ensures Passed(o'.activations[b].index, site) in passed'
    {
      assert b < |spots| && spots'[b] == spots[b] ==> Pending(spots[b], site);
    }
    forall m, n | 0 <= m < |p.bodies| && Probed(p, m) && 0 <= n < |Sites(p.bodies[m].code)|
      ensures Reflects(p, initial, probes, o'.activations, spots', passed', m, n)
    {
      StillReflects(p, initial, probes, o.activations, spots, passed, o'.activations, spots', PassedIn(sem, p.bodies, o, e), Mover(spots, e), m, n);
    }
  }

  /** One probe over a matching event: what was pending still is, and a site newly passed is. */
  lemma StillReflects(p: Program, initial: seq<bool>, probes: seq<bool>, acts: seq<Activation>, spots: seq<Spot>, passed: set<Passed>,
                      acts': seq<Activation>, spots': seq<Spot>, passing: set<Passed>, a: nat, m: nat, n: nat)
    requires m < |p.bodies| == |p.plans| && Probed(p, m) && n < |Sites(p.bodies[m].code)|
    requires p.plans[m].offset + n < |probes| == |initial|
    requires |acts| == |spots| <= |spots'| == |acts'|
    requires forall b :: 0 <= b < |spots| ==> acts'[b].index == acts[b].index && (b != a ==> spots'[b] == spots[b])
    requires a < |spots| ==> forall site :: !Pending(spots[a], site)
    requires forall q :: q in passing && Probed(p, q.index) ==> a < |spots| && acts[a].index == q.index && Pending(spots'[a], q.site)
    requires Reflects(p, initial, probes, acts, spots, passed, m, n)
    ensures Reflects(p, initial, probes, acts', spots', passed + passing, m, n)
  {
    hide Sites, Pending;
    var site := Passed(m, Sites(p.bodies[m].code)[n]);
    if site in passed && !probes[p.plans[m].offset + n] {
      var b :| 0 <= b < |spots| && acts[b].index == m && Pending(spots[b], site.site);
      assert Pending(spots'[b], site.site);
    } else if site in passing && site !in passed {
      assert Pending(spots'[a], site.site);
    }
  }

  // ---- Counting steps ----

  function RankOf(p: Program, a: Activation, spot: Spot): nat {
    if |p.plans| == |p.bodies| && a.index < |p.bodies| && spot.Spot?
       && IsWhere(p.plans[a.index], p.bodies[a.index].code, spot.w)
    then Rank(p.plans[a.index], p.bodies[a.index].code, spot.w) else 0
  }

  /** The steps of probe code left in the first `k` activations. */
  function StepsLeft(p: Program, activations: seq<Activation>, spots: seq<Spot>, k: nat): nat
    requires k <= |activations| && k <= |spots|
  {
    if k == 0 then 0 else StepsLeft(p, activations, spots, k - 1) + RankOf(p, activations[k - 1], spots[k - 1])
  }

  lemma {:induction false} StepsLeftChange(p: Program, as0: seq<Activation>, ss0: seq<Spot>, as1: seq<Activation>, ss1: seq<Spot>, a: nat, k: nat)
    requires k <= |as0| <= |as1| && k <= |ss0| <= |ss1| && |as0| == |ss0|
    requires forall b :: 0 <= b < k && b != a ==> as1[b].index == as0[b].index && ss1[b] == ss0[b]
    ensures StepsLeft(p, as1, ss1, k) + (if a < k then RankOf(p, as0[a], ss0[a]) else 0)
         == StepsLeft(p, as0, ss0, k) + (if a < k then RankOf(p, as1[a], ss1[a]) else 0)
  {
    if k > 0 {
      StepsLeftChange(p, as0, ss0, as1, ss1, a, k - 1);
    }
  }

  lemma RankIsSmall(p: Program, a: Activation, spot: Spot)
    requires ValidProgram(p)
    ensures RankOf(p, a, spot) <= 6
  {
  }

  lemma StutterUsesAStep<W>(sem: Semantics<W>, p: Program, r: Machine<W>, o: Machine<W>, spots: seq<Spot>, e: Event)
    requires ValidProgram(p) && Aligned(p, r, o, spots)
    requires IsStutter(p, o.activations, spots, e)
    ensures StepsLeft(p, o.activations, NextSpot(sem, p, o, spots, r.field.isSet, e), |spots|) < StepsLeft(p, o.activations, spots, |spots|)
  {
    hide WellFormed, Sites, Layout, FrameStep, Rewrite, Rank;
    var a := e.activation;
    var m, w := o.activations[a].index, spots[a].w;
    RankFalls(p.plans[m], p.bodies[m], w, r.field.isSet);
    StepsLeftChange(p, o.activations, spots, o.activations, NextSpot(sem, p, o, spots, r.field.isSet, e), a, |spots|);
  }

  lemma RankFalls(plan: Plan, body: Body, w: Where, isSet: bool)
    requires WellFormed(body) && IsPrologue(plan.prologue)
    requires IsWhere(plan, body.code, w) && !w.At?
    ensures IsWhere(plan, body.code, Next(plan, body.code, w, isSet))
    ensures Rank(plan, body.code, Next(plan, body.code, w, isSet)) < Rank(plan, body.code, w)
  {
    if w.Leave? {
      if !(body.code[w.i].Jump? && w.arm == 0) {
        LabelMoves(plan, body, w.i, w.arm);
      }
    } else {
      NextIsPlusOne(plan, body.code, w, isSet);
    }
  }

  lemma MatchLeavesSteps<W>(sem: Semantics<W>, p: Program, r: Machine<W>, o: Machine<W>, spots: seq<Spot>, e: Event)
    requires ValidProgram(p) && Aligned(p, r, o, spots)
    requires !IsStutter(p, o.activations, spots, e)
    ensures
      var o', spots' := Step(sem, p.bodies, o, e), NextSpot(sem, p, o, spots, r.field.isSet, e);
      |o'.activations| == |spots'| && StepsLeft(p, o'.activations, spots', |spots'|) <= StepsLeft(p, o.activations, spots, |spots|) + 6
  {
    hide WellFormed, Sites, Layout, FrameStep, Rewrite, Rank;
    var o', spots' := Step(sem, p.bodies, o, e), NextSpot(sem, p, o, spots, r.field.isSet, e);
    var a := if e.Advance? then e.activation else |spots|;
    StepsLeftChange(p, o.activations, spots, o'.activations, spots', a, |spots|);
    if a < |spots'| {
      RankIsSmall(p, o'.activations[a], spots'[a]);
    }
  }

  // ---- Every run ----

  /** The rewritten class after `events`, the original one after what they amount to, and how they compare. */
  ghost predicate Simulated<W>(sem: Semantics<W>, p: Program, world: W, initial: seq<bool>, events: seq<Event>)
    requires |p.plans| == |p.bodies| && RangesFit(p, |initial|)
  {
    var s := Follow(sem, p, world, events);
    var r := Run(sem, RewriteAll(p), AtRest(world, initial), events);
    var o := Run(sem, p.bodies, AtRest(world, []), s.schedule);
    && |r.field.elements| == |initial| && r.field.isSet == s.isSet && o.field == Field(false, [])
    && Aligned(p, r, o, s.spots)
    && ProbesReflect(p, initial, r.field.elements, o.activations, s.spots, PassedBy(sem, p.bodies, AtRest(world, []), s.schedule))
    && |events| + StepsLeft(p, o.activations, s.spots, |s.spots|) <= 7 * |s.schedule|
  }

  lemma {:induction false} InvariantHolds<W>(sem: Semantics<W>, p: Program, world: W, initial: seq<bool>, events: seq<Event>)
    requires ValidProgram(p) && RangesFit(p, |initial|) && Faultless(sem, RewriteAll(p), AtRest(world, initial), events)
    ensures Simulated(sem, p, world, initial, events)
    decreases |events|
  {
    hide WellFormed, Sites, Layout, FrameStep, Rewrite, Matches, NextSpot, Step, FaultsAt, RewriteAll;
    if events != [] {
      var front, e := events[..|events| - 1], events[|events| - 1];
      InvariantHolds(sem, p, world, initial, front);
      var s := Follow(sem, p, world, front);
      var r := Run(sem, RewriteAll(p), AtRest(world, initial), front);
      var o := Run(sem, p.bodies, AtRest(world, []), s.schedule);
      var passed := PassedBy(sem, p.bodies, AtRest(world, []), s.schedule);
      if IsStutter(p, o.activations, s.spots, e) {
        FaultsAreDoomed(p, r, o, s.spots, e);
        StutterKeepsAlignment(sem, p, r, o, s.spots, e);
        StutterKeepsReflection(sem, p, o, s.spots, s.isSet, e, initial, r.field.elements, passed);
        StutterUsesAStep(sem, p, r, o, s.spots, e);
      } else {
        MatchKeepsAlignment(sem, p, r, o, s.spots, e);
        SpotsAreWheres(p, r, o, s.spots);
        MatchKeepsReflection(sem, p, o, s.spots, s.isSet, e, initial, r.field.elements, passed);
        MatchLeavesSteps(sem, p, r, o, s.spots, e);
        var schedule := s.schedule + [e];
        assert schedule[..|schedule| - 1] == s.schedule;
      }
    }
  }

  /** An event faults exactly when it ends a store that has read null. */
  lemma FaultsAreDoomed<W>(p: Program, r: Machine<W>, o: Machine<W>, spots: seq<Spot>, e: Event)
    requires ValidProgram(p) && Aligned(p, r, o, spots)
    ensures FaultsAt(RewriteAll(p), r, e)
       <==> IsStutter(p, o.activations, spots, e) && IsDoomed(spots[e.activation].w)
  {
    hide WellFormed, Sites, Layout, PcOf, StoresIntoNull;
    if e.Advance? && e.activation < |spots| && spots[e.activation].Spot? {
      var m := o.activations[e.activation].index;
      OnlyDoomedStores(p.plans[m], p.bodies[m], spots[e.activation].w, spots[e.activation].stack);
    } else if e.Advance? && e.activation < |spots| {
      assert !StoresIntoNull(RewriteAll(p)[o.activations[e.activation].index].code, r.activations[e.activation].frame) by {
        EndedStoresNothing(RewriteAll(p)[o.activations[e.activation].index].code, r.activations[e.activation].frame);
      }
    }
  }

  lemma EndedStoresNothing(code: seq<Insn>, f: Frame)
    requires !f.Running?
    ensures !StoresIntoNull(code, f)
  {
  }

  lemma SpotsAreWheres<W>(p: Program, r: Machine<W>, o: Machine<W>, spots: seq<Spot>)
    requires |p.plans| == |p.bodies| && Aligned(p, r, o, spots)
    ensures forall a :: 0 <= a < |spots| ==>
              o.activations[a].index < |p.bodies|
              && (spots[a].Spot? ==> IsWhere(p.plans[o.activations[a].index], p.bodies[o.activations[a].index].code, spots[a].w))
  {
    hide Sites, Layout;
  }

  // ---- The main results ----

  /** The stack slots a method's probes need on top of its own: none for a method without probes. */
  function ExtraStack(p: Program, m: nat): nat
    requires m < |p.bodies| == |p.plans|
  {
    if Probed(p, m) && Sites(p.bodies[m].code) != [] then 3 else 0
  }

  /** The rewritten activation as its caller and its handlers see it: probe operands at most on top of its own. */
  predicate SameFrame(rewritten: Frame, original: Frame, extra: nat) {
    if original.Running? then
      rewritten.Running? && original.stack <= rewritten.stack && |rewritten.stack| <= |original.stack| + extra
    else rewritten == original
  }

  /** One world, the same activations, and each of them at the same point of the same outcome. */
  ghost predicate SameBehaviour<W>(p: Program, r: Machine<W>, o: Machine<W>)
    requires |p.plans| == |p.bodies|
  {
    && r.world == o.world
    && |r.activations| == |o.activations|
    && forall a :: 0 <= a < |o.activations| ==>
         && r.activations[a].index == o.activations[a].index < |p.bodies|
         && SameFrame(r.activations[a].frame, o.activations[a].frame, ExtraStack(p, o.activations[a].index))
  }

  ghost predicate IsProbeOf(p: Program, m: nat, n: nat) {
    |p.plans| == |p.bodies| && m < |p.bodies| && Probed(p, m) && n < |Sites(p.bodies[m].code)|
  }

  /** The activation stands before the store of probe `g`. */
  ghost predicate OnTheWay(bodies: seq<Body>, a: Activation, g: nat) {
    a.index < |bodies| && a.frame.Running? && IsBeforeStore(bodies[a.index].code, a.frame.pc, g)
  }

  ghost predicate IsAwaited(bodies: seq<Body>, activations: seq<Activation>, g: nat) {
    exists a :: 0 <= a < |activations| && OnTheWay(bodies, activations[a], g)
  }

  /** No activation stands in front of a probe's store or inside one. */
  ghost predicate IsQuiet(bodies: seq<Body>, activations: seq<Activation>) {
    forall g: nat :: !IsAwaited(bodies, activations, g)
  }

  /** No probe is true without its site having been passed, and none is late that no activation is about to set. */
  ghost predicate ProbesAreSound<W>(p: Program, initial: seq<bool>, r: Machine<W>, passed: set<Passed>)
    requires |p.plans| == |p.bodies|
  {
    forall m: nat, n: nat :: IsProbeOf(p, m, n) && p.plans[m].offset + n < |r.field.elements| == |initial| ==>
      var g, site := p.plans[m].offset + n, Passed(m, Sites(p.bodies[m].code)[n]);
      && (r.field.elements[g] ==> initial[g] || site in passed)
      && (initial[g] ==> r.field.elements[g])
      && (site in passed ==> r.field.elements[g] || IsAwaited(RewriteAll(p), r.activations, g))
  }

  /** A probe is true exactly when it was to begin with or its site was passed. */
  ghost predicate ProbesAreExact<W>(p: Program, initial: seq<bool>, r: Machine<W>, passed: set<Passed>) {
    && |r.field.elements| == |initial|
    && forall m: nat, n: nat :: IsProbeOf(p, m, n) && p.plans[m].offset + n < |initial| ==>
         (r.field.elements[p.plans[m].offset + n] <==>
          initial[p.plans[m].offset + n] || Passed(m, Sites(p.bodies[m].code)[n]) in passed)
  }

  lemma QuietMeansExact<W>(p: Program, initial: seq<bool>, r: Machine<W>, passed: set<Passed>)
    requires |p.plans| == |p.bodies| && |r.field.elements| == |initial|
    requires ProbesAreSound(p, initial, r, passed) && IsQuiet(RewriteAll(p), r.activations)
    ensures ProbesAreExact(p, initial, r, passed)
  {
    hide Sites, IsAwaited, RewriteAll;
  }

  /** The original class under `schedule` does what the rewritten class does under `events`. */
  ghost predicate Explains<W>(sem: Semantics<W>, p: Program, world: W, initial: seq<bool>, events: seq<Event>, schedule: seq<Event>)
    requires |p.plans| == |p.bodies|
  {
    var r := Run(sem, RewriteAll(p), AtRest(world, initial), events);
    && SameBehaviour(p, r, Run(sem, p.bodies, AtRest(world, []), schedule))
    && |schedule| <= |events| <= 7 * |schedule|
    && |r.field.elements| == |initial|
    && ProbesAreSound(p, initial, r, PassedBy(sem, p.bodies, AtRest(world, []), schedule))
  }

  lemma AlignedBehaves<W>(p: Program, r: Machine<W>, o: Machine<W>, spots: seq<Spot>)
    requires ValidProgram(p) && Aligned(p, r, o, spots)
    ensures SameBehaviour(p, r, o)
    ensures forall a :: 0 <= a < |spots| && spots[a].Spot? ==> r.activations[a].frame.Running?
  {
    hide Sites, Layout, PcOf;
    forall a | 0 <= a < |spots|
      ensures SameFrame(r.activations[a].frame, o.activations[a].frame, ExtraStack(p, o.activations[a].index))
      ensures spots[a].Spot? ==> r.activations[a].frame.Running?
    {
      var m := o.activations[a].index;
      MatchingFrames(p.plans[m], p.bodies[m], spots[a], r.activations[a].frame, o.activations[a].frame);
    }
  }

  lemma MatchingFrames(plan: Plan, body: Body, spot: Spot, rf: Frame, of: Frame)
    requires WellFormed(body) && Matches(plan, body.code, spot, rf, of)
    ensures SameFrame(rf, of, if plan.probing && Sites(body.code) != [] then 3 else 0) && (spot.Spot? ==> rf.Running?)
  {
    hide Sites, Layout, PcOf, Find;
    var code := body.code;
    if spot.Spot? && spot.w.Storing? {
      SitesGrow(code, spot.w.i);
    }
    if spot.Spot? && (spot.w.Enter? || spot.w.Storing? || spot.w.Leave?) && IsDecision(code[spot.w.i]) {
      var i, arm := spot.w.i, spot.w.arm;
      assert (code[i].Jump? && arm == 0) || Resolves(code, ArmLabel(code[i], arm));
    }
  }

  /**
   * Whatever a rewritten class does without storing into null, the original class does under some
   * schedule: the same operations on the same world, activations that return, throw or keep running
   * alike, and at most seven steps for one. Its probes tell exactly which sites that schedule passes,
   * but for those that an activation is about to set.
   */
  lemma RewrittenRunsAreOriginal<W>(sem: Semantics<W>, p: Program, world: W, initial: seq<bool>, events: seq<Event>)
    requires ValidProgram(p) && RangesFit(p, |initial|) && Faultless(sem, RewriteAll(p), AtRest(world, initial), events)
    ensures Explains(sem, p, world, initial, events, Follow(sem, p, world, events).schedule)
    ensures exists schedule: seq<Event> :: Explains(sem, p, world, initial, events, schedule)
  {
    hide WellFormed, Sites, Layout, FrameStep, Rewrite, Matches, NextSpot, Step, Faultless, RewriteAll;
    InvariantHolds(sem, p, world, initial, events);
    var s := Follow(sem, p, world, events);
    var r := Run(sem, RewriteAll(p), AtRest(world, initial), events);
    var o := Run(sem, p.bodies, AtRest(world, []), s.schedule);
    AlignedBehaves(p, r, o, s.spots);
    ScheduleIsShorter(sem, p, world, events);
    ReflectionIsSound(p, initial, r, o, s.spots, PassedBy(sem, p.bodies, AtRest(world, []), s.schedule));
    assert Explains(sem, p, world, initial, events, s.schedule);
  }

  /** What behaving alike means for one activation: it ends alike, or both run, the rewritten one with at most three operands more. */
  lemma AtMostThreeMore<W>(p: Program, r: Machine<W>, o: Machine<W>, a: nat)
    requires |p.plans| == |p.bodies| && SameBehaviour(p, r, o) && a < |o.activations|
    ensures r.world == o.world && |r.activations| == |o.activations| && r.activations[a].index == o.activations[a].index < |p.bodies|
    ensures !o.activations[a].frame.Running? ==> r.activations[a].frame == o.activations[a].frame
    ensures o.activations[a].frame.Running? ==>
      var of, rf, m := o.activations[a].frame, r.activations[a].frame, o.activations[a].index;
      && rf.Running? && of.stack <= rf.stack
      && |rf.stack| - |of.stack| <= if p.plans[m].probing && Sites(p.bodies[m].code) != [] then 3 else 0
  {
    hide Sites;
  }

  lemma {:induction false} ScheduleIsShorter<W>(sem: Semantics<W>, p: Program, world: W, events: seq<Event>)
    requires |p.plans| == |p.bodies|
    ensures |Follow(sem, p, world, events).schedule| <= |events|
  {
    if events != [] {
      ScheduleIsShorter(sem, p, world, events[..|events| - 1]);
    }
  }

  lemma MatchedIsBeforeStore(plan: Plan, body: Body, spot: Spot, rf: Frame, of: Frame, site: Site)
    requires Matches(plan, body.code, spot, rf, of) && Pending(spot, site)
    ensures rf.Running? && IsBeforeStore(Layout(plan, body.code), rf.pc, IndexOf(plan, body.code, site.pc, site.arm))
  {
    hide Sites, Layout, IsBeforeStore, Original, PcOf;
    StoreAhead(plan, body.code, spot.w);
  }

  /** An activation on its way to a store stands before it. */
  lemma PendingIsAwaited<W>(p: Program, r: Machine<W>, o: Machine<W>, spots: seq<Spot>, m: nat, n: nat)
    requires ValidProgram(p) && Aligned(p, r, o, spots) && IsProbeOf(p, m, n)
    requires PendingAt(o.activations, spots, Passed(m, Sites(p.bodies[m].code)[n]))
    ensures IsAwaited(RewriteAll(p), r.activations, p.plans[m].offset + n)
  {
    hide Sites, Layout, WellFormed, IsBeforeStore, Matches, Pending, Fetched;
    var site := Passed(m, Sites(p.bodies[m].code)[n]);
    var a :| 0 <= a < |spots| && a < |o.activations| && o.activations[a].index == m && Pending(spots[a], site.site);
    MatchedIsBeforeStore(p.plans[m], p.bodies[m], spots[a], r.activations[a].frame, o.activations[a].frame, site.site);
    SitesInRange(p.bodies[m].code, n);
    assert OnTheWay(RewriteAll(p), r.activations[a], p.plans[m].offset + n);
  }

  lemma ReflectionIsSound<W>(p: Program, initial: seq<bool>, r: Machine<W>, o: Machine<W>, spots: seq<Spot>, passed: set<Passed>)
    requires ValidProgram(p) && RangesFit(p, |initial|) && |r.field.elements| == |initial| && Aligned(p, r, o, spots)
    requires ProbesReflect(p, initial, r.field.elements, o.activations, spots, passed)
    ensures ProbesAreSound(p, initial, r, passed)
  {
    hide Sites, Layout, WellFormed, Aligned, PendingAt, IsAwaited, RewriteAll;
    forall m: nat, n: nat | IsProbeOf(p, m, n)
      ensures Reflects(p, initial, r.field.elements, o.activations, spots, passed, m, n)
      ensures PendingAt(o.activations, spots, Passed(m, Sites(p.bodies[m].code)[n]))
              ==> IsAwaited(RewriteAll(p), r.activations, p.plans[m].offset + n)
    {
      if PendingAt(o.activations, spots, Passed(m, Sites(p.bodies[m].code)[n])) {
        PendingIsAwaited(p, r, o, spots, m, n);
      }
    }
  }

  /** At the start of a chunk nothing is about to be stored. */
  lemma NothingAhead(plan: Plan, body: Body, i: nat, index: nat)
    requires WellFormed(body) && IsPrologue(plan.prologue) && i <= |body.code|
    ensures !IsBeforeStore(Layout(plan, body.code), Pos(plan, body.code, i), index)
  {
    hide Layout, Chunk, Sites, WellFormed, Find, FreshBefore, Store;
    var code, out, pc := body.code, Layout(plan, body.code), Pos(plan, body.code, i);
    assert IsSourceCode(code) by { SourceOf(body); }
    if i == |code| {
      assert code[..|code|] == code;
    } else {
      InsnAt(plan, code, At(i));
    }
    forall q | IsStoreAt(out, q, index) ensures !Faces(out, pc, q) {
      StoreIs(out, q, index);
    }
  }

  /** With nothing inside probe code no activation stands before a store. */
  lemma SettledIsQuiet<W>(p: Program, r: Machine<W>, o: Machine<W>, spots: seq<Spot>)
    requires ValidProgram(p) && Aligned(p, r, o, spots) && Settled(spots)
    ensures IsQuiet(RewriteAll(p), r.activations)
  {
    hide Sites, Layout, WellFormed, IsBeforeStore, Pos, Original;
    forall a, g: nat | 0 <= a < |r.activations| ensures !OnTheWay(RewriteAll(p), r.activations[a], g) {
      var m := o.activations[a].index;
      if spots[a].Spot? {
        NothingAhead(p.plans[m], p.bodies[m], spots[a].w.i, g);
      }
    }
  }

  /** The original class has no such field. */
  lemma {:induction false} OriginalHasNoField<W>(sem: Semantics<W>, p: Program, world: W, schedule: seq<Event>)
    requires ValidProgram(p)
    ensures Run(sem, p.bodies, AtRest(world, []), schedule).field == Field(false, [])
  {
    hide FrameStep;
    if schedule != [] {
      var front, e := schedule[..|schedule| - 1], schedule[|schedule| - 1];
      OriginalHasNoField(sem, p, world, front);
      var o := Run(sem, p.bodies, AtRest(world, []), front);
      if e.Advance? && e.activation < |o.activations| && o.activations[e.activation].index < |p.bodies| {
        var body := p.bodies[o.activations[e.activation].index];
        SourceOf(body);
        SourceKeepsField(sem, body, o.world, o.field, o.activations[e.activation].frame);
      }
    }
  }

  lemma SourceKeepsField<W>(sem: Semantics<W>, body: Body, world: W, field: Field, f: Frame)
    requires IsSourceCode(body.code)
    ensures FrameStep(sem, body, world, field, f).field == field
  {
    hide Find, Unwind, CanStore;
    assert f.Running? && f.pc < |body.code| ==> IsSourceInsn(body.code[f.pc]);
  }

  // ---- When a store meets null ----

  /** Raising an exception allocates it. */
  ghost predicate RaisingShows<W(!new)>(sem: Semantics<W>) {
    forall w :: sem.nullPointer(w).0 != w
  }

  /** After each event the original class, having taken the same steps, is where the rewritten one is. */
  ghost predicate KeepsUp<W>(sem: Semantics<W>, p: Program, world: W, initial: seq<bool>, events: seq<Event>)
    requires |p.plans| == |p.bodies|
  {
    forall k :: 0 <= k <= |events| ==>
      Explains(sem, p, world, initial, events[..k], Follow(sem, p, world, events[..k]).schedule)
  }

  lemma {:induction false} FaultlessPrefix<W>(sem: Semantics<W>, bodies: seq<Body>, m: Machine<W>, events: seq<Event>, k: nat)
    requires k <= |events| && Faultless(sem, bodies, m, events)
    ensures Faultless(sem, bodies, m, events[..k])
  {
    hide FaultsAt;
    if k == |events| {
      assert events[..k] == events;
    } else {
      FaultlessPrefix(sem, bodies, m, events[..|events| - 1], k);
      assert events[..|events| - 1][..k] == events[..k];
    }
  }

  /** The event that faults parts the two classes: the world has an exception that the original never raises. */
  lemma FaultParts<W(!new)>(sem: Semantics<W>, p: Program, world: W, initial: seq<bool>, front: seq<Event>, e: Event)
    requires ValidProgram(p) && RangesFit(p, |initial|) && RaisingShows(sem)
    requires Faultless(sem, RewriteAll(p), AtRest(world, initial), front)
    requires FaultsAt(RewriteAll(p), Run(sem, RewriteAll(p), AtRest(world, initial), front), e)
    ensures !Explains(sem, p, world, initial, front + [e], Follow(sem, p, world, front + [e]).schedule)
  {
    hide WellFormed, Sites, Layout, FrameStep, PcOf, Rewrite, NextSpot, FaultsAt, ProbesAreSound, Unwind;
    InvariantHolds(sem, p, world, initial, front);
    var s := Follow(sem, p, world, front);
    var r := Run(sem, RewriteAll(p), AtRest(world, initial), front);
    var o := Run(sem, p.bodies, AtRest(world, []), s.schedule);
    FaultsAreDoomed(p, r, o, s.spots, e);
    var m := o.activations[e.activation].index;
    DoomedStep(sem, p.plans[m], p.bodies[m], r.world, r.field, s.spots[e.activation].w, s.spots[e.activation].stack);
    assert (front + [e])[..|front|] == front;
  }

  /**
   * The exact condition: the original class keeps up with the rewritten one through all of a run
   * if and only if no event of the run stores into null.
   */
  lemma {:induction false} FaultlessIffExplained<W(!new)>(sem: Semantics<W>, p: Program, world: W, initial: seq<bool>, events: seq<Event>)
    requires ValidProgram(p) && RangesFit(p, |initial|) && RaisingShows(sem)
    ensures Faultless(sem, RewriteAll(p), AtRest(world, initial), events) <==> KeepsUp(sem, p, world, initial, events)
  {
    hide FaultsAt, Explains, Follow, WellFormed, RewriteAll, RangesFit;
    if Faultless(sem, RewriteAll(p), AtRest(world, initial), events) {
      forall k | 0 <= k <= |events| ensures Explains(sem, p, world, initial, events[..k], Follow(sem, p, world, events[..k]).schedule) {
        FaultlessPrefix(sem, RewriteAll(p), AtRest(world, initial), events, k);
        RewrittenRunsAreOriginal(sem, p, world, initial, events[..k]);
      }
    } else {
      var front, e := events[..|events| - 1], events[|events| - 1];
      assert events == front + [e];
      FaultlessIffExplained(sem, p, world, initial, front);
      if Faultless(sem, RewriteAll(p), AtRest(world, initial), front) {
        FaultParts(sem, p, world, initial, front, e);
        assert events[..|events|] == events;
      } else {
        var k :| 0 <= k <= |front|
          && !Explains(sem, p, world, initial, front[..k], Follow(sem, p, world, front[..k]).schedule);
        assert front[..k] == events[..k];
      }
    }
  }

  /** The event takes the original class past a site that has a probe. */
  ghost predicate PassesProbe<W>(sem: Semantics<W>, p: Program, o: Machine<W>, e: Event) {
    exists q :: q in PassedIn(sem, p.bodies, o, e) && Probed(p, q.index)
  }

  /** Whenever an activation passes a site with a probe, the field has been set. */
  ghost predicate NoEarlyPass<W>(sem: Semantics<W>, p: Program, world: W, events: seq<Event>)
    requires |p.plans| == |p.bodies|
  {
    events == []
    || (var front, e := events[..|events| - 1], events[|events| - 1];
        var s := Follow(sem, p, world, front);
        var o := Run(sem, p.bodies, AtRest(world, []), s.schedule);
        && NoEarlyPass(sem, p, world, front)
        && (!IsStutter(p, o.activations, s.spots, e) && PassesProbe(sem, p, o, e) ==> s.isSet))
  }

  /** Every store under way has an array to go to. */
  predicate Supplied(spots: seq<Spot>, isSet: bool) {
    forall a :: 0 <= a < |spots| && spots[a].Spot? ==>
      && (spots[a].w.Enter? || spots[a].w.Storing? ==> isSet)
      && (spots[a].w.Storing? ==> !spots[a].w.missing)
  }

  lemma StaysSupplied<W>(sem: Semantics<W>, p: Program, o: Machine<W>, spots: seq<Spot>, isSet: bool, e: Event)
    requires |p.plans| == |p.bodies| && |spots| == |o.activations| && Supplied(spots, isSet)
    requires !IsStutter(p, o.activations, spots, e) && PassesProbe(sem, p, o, e) ==> isSet
    ensures Supplied(NextSpot(sem, p, o, spots, isSet, e), isSet || SetsField(p, o.activations, spots, e))
  {
    hide FrameStep, Sites, Find;
    if e.Advance? && e.activation < |spots| && o.activations[e.activation].index < |p.bodies| && !IsStutter(p, o.activations, spots, e) {
      var m := o.activations[e.activation].index;
      var s := SitePassed(sem, p.bodies[m].code, o.activations[e.activation].frame);
      if s.Passing? && Probed(p, m) {
        assert Passed(m, s.site) in PassedIn(sem, p.bodies, o, e);
      }
    }
  }

  /** Enough for a run without faults: sites with probes are passed after the field has been set. */
  lemma {:induction false} NoEarlyPassIsFaultless<W>(sem: Semantics<W>, p: Program, world: W, initial: seq<bool>, events: seq<Event>)
    requires ValidProgram(p) && RangesFit(p, |initial|) && NoEarlyPass(sem, p, world, events)
    ensures Faultless(sem, RewriteAll(p), AtRest(world, initial), events)
    ensures Supplied(Follow(sem, p, world, events).spots, Follow(sem, p, world, events).isSet)
  {
    hide FaultsAt, Aligned, NextSpot, RewriteAll, WellFormed, RangesFit, PassesProbe, ProbesReflect;
    if events != [] {
      var front, e := events[..|events| - 1], events[|events| - 1];
      NoEarlyPassIsFaultless(sem, p, world, initial, front);
      InvariantHolds(sem, p, world, initial, front);
      var s := Follow(sem, p, world, front);
      var r := Run(sem, RewriteAll(p), AtRest(world, initial), front);
      var o := Run(sem, p.bodies, AtRest(world, []), s.schedule);
      FaultsAreDoomed(p, r, o, s.spots, e);
      AlignedCounts(p, r, o, s.spots);
      StaysSupplied(sem, p, o, s.spots, s.isSet, e);
    }
  }

  lemma AlignedCounts<W>(p: Program, r: Machine<W>, o: Machine<W>, spots: seq<Spot>)
    requires |p.plans| == |p.bodies| && Aligned(p, r, o, spots)
    ensures |r.activations| == |spots| == |o.activations|
  {
  }

  predicate NoneProbed(p: Program, activations: seq<Activation>) {
    forall a :: 0 <= a < |activations| ==> !Probed(p, activations[a].index)
  }

  lemma {:induction false} NothingProbedYet<W>(sem: Semantics<W>, p: Program, world: W, events: seq<Event>)
    requires |p.plans| == |p.bodies| && forall j :: 0 <= j < |events| && events[j].Start? ==> !Probed(p, events[j].index)
    ensures NoneProbed(p, Run(sem, p.bodies, AtRest(world, []), Follow(sem, p, world, events).schedule).activations)
    ensures NoEarlyPass(sem, p, world, events)
  {
    hide Step, NextSpot, IsStutter, PassesProbe;
    if events != [] {
      var front, e := events[..|events| - 1], events[|events| - 1];
      NothingProbedYet(sem, p, world, front);
      var s := Follow(sem, p, world, front);
      NothingProbedNext(sem, p, Run(sem, p.bodies, AtRest(world, []), s.schedule), e);
      assert (s.schedule + [e])[..|s.schedule|] == s.schedule;
    }
  }

  lemma NothingProbedNext<W>(sem: Semantics<W>, p: Program, o: Machine<W>, e: Event)
    requires NoneProbed(p, o.activations) && (e.Start? ==> !Probed(p, e.index))
    ensures NoneProbed(p, Step(sem, p.bodies, o, e).activations)
    ensures !PassesProbe(sem, p, o, e)
  {
    hide FrameStep, SitePassed;
  }

  lemma {:induction false} StaysSet<W>(sem: Semantics<W>, p: Program, world: W, events: seq<Event>, n: nat)
    requires |p.plans| == |p.bodies| && n <= |events| && Follow(sem, p, world, events[..n]).isSet
    ensures Follow(sem, p, world, events).isSet
  {
    if n == |events| {
      assert events[..n] == events;
    } else {
      assert events[..|events| - 1][..n] == events[..n];
      StaysSet(sem, p, world, events[..|events| - 1], n);
    }
  }

  lemma {:induction false} NoneIsEarlyAfter<W>(sem: Semantics<W>, p: Program, world: W, events: seq<Event>, n: nat)
    requires |p.plans| == |p.bodies| && n <= |events|
    requires NoEarlyPass(sem, p, world, events[..n]) && Follow(sem, p, world, events[..n]).isSet
    ensures NoEarlyPass(sem, p, world, events)
  {
    hide Follow, PassesProbe, IsStutter;
    if n == |events| {
      assert events[..n] == events;
    } else {
      var front := events[..|events| - 1];
      assert front[..n] == events[..n];
      NoneIsEarlyAfter(sem, p, world, front, n);
      StaysSet(sem, p, world, front, n);
    }
  }

  /** A method with probes is started only when the field has been set. */
  ghost predicate StartsInOrder<W>(sem: Semantics<W>, p: Program, world: W, initial: seq<bool>, events: seq<Event>)
    requires |p.plans| == |p.bodies|
  {
    forall k :: 0 <= k < |events| && events[k].Start? && Probed(p, events[k].index) ==>
      Run(sem, RewriteAll(p), AtRest(world, initial), events[..k]).field.isSet
  }

  /**
   * What the order of initialization has to give: when methods with probes start only after the
   * initializer has registered the array, nothing ever faults.
   */
  lemma OrderedStartsAreFaultless<W>(sem: Semantics<W>, p: Program, world: W, initial: seq<bool>, events: seq<Event>)
    requires ValidProgram(p) && RangesFit(p, |initial|) && StartsInOrder(sem, p, world, initial, events)
    ensures Faultless(sem, RewriteAll(p), AtRest(world, initial), events)
  {
    hide Faultless, Follow, NoEarlyPass, WellFormed, RangesFit, Aligned, ProbesReflect, RewriteAll;
    var n := FirstProbed(p, events);
    var begun := events[..n];
    NothingProbedYet(sem, p, world, begun);
    if n == |events| {
      assert begun == events;
    } else {
      NoEarlyPassIsFaultless(sem, p, world, initial, begun);
      InvariantHolds(sem, p, world, initial, begun);
      NoneIsEarlyAfter(sem, p, world, events, n);
    }
    NoEarlyPassIsFaultless(sem, p, world, initial, events);
  }

  /** The first event that starts a method with probes, or the number of events. */
  function FirstProbed(p: Program, events: seq<Event>): (n: nat)
    ensures n <= |events|
    ensures forall j :: 0 <= j < n && events[j].Start? ==> !Probed(p, events[j].index)
    ensures n < |events| ==> events[n].Start? && Probed(p, events[n].index)
  {
    if events == [] then 0
    else
      var n := FirstProbed(p, events[..|events| - 1]);
      if n < |events| - 1 || (events[n].Start? && Probed(p, events[n].index)) then n else |events|
  }

  /** No activation is inside probe code. */
  ghost predicate Settled(spots: seq<Spot>) {
    forall a :: 0 <= a < |spots| && spots[a].Spot? ==> spots[a].w.At?
  }

  // ---- Schedules of the original ----

  /** The event starts a method that registers the array first. */
  predicate Initializes(p: Program, e: Event) {
    e.Start? && e.index < |p.plans| && e.index < |p.bodies| && p.plans[e.index].prologue != []
  }

  ghost predicate HasInitialized(p: Program, schedule: seq<Event>) {
    exists j :: 0 <= j < |schedule| && Initializes(p, schedule[j])
  }

  /** The schedule starts the initializer before it passes any site with a probe. */
  ghost predicate InitializerFirst<W>(sem: Semantics<W>, p: Program, world: W, schedule: seq<Event>) {
    schedule == []
    || (var front, e := schedule[..|schedule| - 1], schedule[|schedule| - 1];
        && InitializerFirst(sem, p, world, front)
        && (PassesProbe(sem, p, Run(sem, p.bodies, AtRest(world, []), front), e) ==> HasInitialized(p, front)))
  }

  /** An event inside probe code moves its activation to the next place and nothing else. */
  lemma FollowStutter<W>(sem: Semantics<W>, p: Program, world: W, before: seq<Event>, a: nat)
    requires |p.plans| == |p.bodies|
    requires
      var s := Follow(sem, p, world, before);
      IsStutter(p, Run(sem, p.bodies, AtRest(world, []), s.schedule).activations, s.spots, Advance(a))
    ensures
      var s := Follow(sem, p, world, before);
      var m := Run(sem, p.bodies, AtRest(world, []), s.schedule).activations[a].index;
      Follow(sem, p, world, before + [Advance(a)])
      == Shadow(s.spots[a := Spot(Next(p.plans[m], p.bodies[m].code, s.spots[a].w, s.isSet), s.spots[a].stack)], s.schedule,
                s.isSet || s.spots[a].w.Prologue?)
    ensures NoEarlyPass(sem, p, world, before + [Advance(a)]) <==> NoEarlyPass(sem, p, world, before)
  {
    hide Sites, Layout, FrameStep, Run, Next, PassesProbe;
    assert (before + [Advance(a)])[..|before|] == before;
  }

  predicate AtPrologue(spots: seq<Spot>, a: nat) {
    a < |spots| && spots[a].Spot? && spots[a].w.Prologue?
  }

  /** Probe code always runs to its end: advancing one activation settles it without an original step. */
  lemma {:induction false} Drain<W>(sem: Semantics<W>, p: Program, world: W, initial: seq<bool>, events: seq<Event>, a: nat)
    returns (more: seq<Event>)
    requires ValidProgram(p) && RangesFit(p, |initial|) && NoEarlyPass(sem, p, world, events)
    requires
      var spots := Follow(sem, p, world, events).spots;
      forall b :: 0 <= b < |spots| && b != a && spots[b].Spot? ==> spots[b].w.At?
    ensures events <= more && NoEarlyPass(sem, p, world, more)
    ensures Follow(sem, p, world, more).schedule == Follow(sem, p, world, events).schedule
    ensures Settled(Follow(sem, p, world, more).spots)
    ensures Follow(sem, p, world, more).isSet
       <==> Follow(sem, p, world, events).isSet || AtPrologue(Follow(sem, p, world, events).spots, a)
    decreases
      var s := Follow(sem, p, world, events);
      var o := Run(sem, p.bodies, AtRest(world, []), s.schedule);
      if a < |s.spots| && a < |o.activations| then RankOf(p, o.activations[a], s.spots[a]) else 0
  {
    hide WellFormed, Sites, Layout, FrameStep, Rewrite, Rank, Find, SiteArity, Original, Rewritten, Run, Follow, NoEarlyPass, Faultless;
    var s := Follow(sem, p, world, events);
    var r := Run(sem, RewriteAll(p), AtRest(world, initial), events);
    var o := Run(sem, p.bodies, AtRest(world, []), s.schedule);
    NoEarlyPassIsFaultless(sem, p, world, initial, events);
    InvariantHolds(sem, p, world, initial, events);
    if a >= |s.spots| || !s.spots[a].Spot? || s.spots[a].w.At? {
      more := events;
    } else {
      SpotsAreWheres(p, r, o, s.spots);
      var m, w := o.activations[a].index, s.spots[a].w;
      FollowStutter(sem, p, world, events, a);
      RankFalls(p.plans[m], p.bodies[m], w, s.isSet);
      more := Drain(sem, p, world, initial, events + [Advance(a)], a);
    }
  }

  /** When nothing is inside probe code, an event is an event of the original and unsettles at most its own activation. */
  lemma FollowSettled<W>(sem: Semantics<W>, p: Program, world: W, before: seq<Event>, e: Event)
    requires ValidProgram(p)
    requires
      var s := Follow(sem, p, world, before);
      Settled(s.spots) && |s.spots| == |Run(sem, p.bodies, AtRest(world, []), s.schedule).activations|
    ensures
      var s, s' := Follow(sem, p, world, before), Follow(sem, p, world, before + [e]);
      var o := Run(sem, p.bodies, AtRest(world, []), s.schedule);
      && s'.schedule == s.schedule + [e] && s'.isSet == s.isSet
      && (NoEarlyPass(sem, p, world, before + [e])
          <==> NoEarlyPass(sem, p, world, before) && (PassesProbe(sem, p, o, e) ==> s.isSet))
      && (AtPrologue(s'.spots, Mover(s.spots, e)) <==> Initializes(p, e))
      && forall b :: 0 <= b < |s'.spots| && b != Mover(s.spots, e) && s'.spots[b].Spot? ==> s'.spots[b].w.At?
  {
    hide WellFormed, Sites, Layout, FrameStep, Rewrite, SitePassed, Run, PassesProbe;
    assert (before + [e])[..|before|] == before;
  }

  lemma NothingToFollow<W>(sem: Semantics<W>, p: Program, world: W)
    requires |p.plans| == |p.bodies|
    ensures Follow(sem, p, world, []) == Shadow([], [], false) && NoEarlyPass(sem, p, world, [])
  {
  }

  lemma OneMoreInitialized(p: Program, schedule: seq<Event>, e: Event)
    ensures HasInitialized(p, schedule + [e]) <==> HasInitialized(p, schedule) || Initializes(p, e)
  {
    var longer := schedule + [e];
    if HasInitialized(p, schedule) {
      var j :| 0 <= j < |schedule| && Initializes(p, schedule[j]);
      assert Initializes(p, longer[j]);
    }
    if Initializes(p, e) {
      assert Initializes(p, longer[|schedule|]);
    }
  }

  /** A schedule that starts the initializer first is followed by a run of the rewritten class that runs all probe code at once. */
  lemma {:induction false} Realize<W>(sem: Semantics<W>, p: Program, world: W, initial: seq<bool>, schedule: seq<Event>)
    returns (events: seq<Event>)
    requires ValidProgram(p) && RangesFit(p, |initial|) && InitializerFirst(sem, p, world, schedule)
    ensures NoEarlyPass(sem, p, world, events)
    ensures
      var s := Follow(sem, p, world, events);
      s.schedule == schedule && Settled(s.spots) && (s.isSet <==> HasInitialized(p, schedule))
  {
    hide WellFormed, Sites, Layout, RangesFit, Follow, Settled, Run, Rewrite, NoEarlyPass, PassesProbe, HasInitialized, Initializes, AtPrologue;
    if schedule == [] {
      events := [];
      NothingToFollow(sem, p, world);
      assert Settled([]) && !HasInitialized(p, []) by { NothingHappened(p); }
    } else {
      var front, e := schedule[..|schedule| - 1], schedule[|schedule| - 1];
      assert schedule == front + [e];
      var before := Realize(sem, p, world, initial, front);
      var spots := Follow(sem, p, world, before).spots;
      SpotsOfRun(sem, p, world, initial, before);
      FollowSettled(sem, p, world, before, e);
      OneMoreInitialized(p, front, e);
      events := Drain(sem, p, world, initial, before + [e], Mover(spots, e));
    }
  }

  lemma NothingHappened(p: Program)
    ensures Settled([]) && !HasInitialized(p, [])
  {
  }

  lemma SpotsOfRun<W>(sem: Semantics<W>, p: Program, world: W, initial: seq<bool>, events: seq<Event>)
    requires ValidProgram(p) && RangesFit(p, |initial|) && NoEarlyPass(sem, p, world, events)
    ensures
      var s := Follow(sem, p, world, events);
      |s.spots| == |Run(sem, p.bodies, AtRest(world, []), s.schedule).activations|
  {
    hide WellFormed, Sites, Layout, RangesFit, Follow, Run, Rewrite, NoEarlyPass, Faultless;
    NoEarlyPassIsFaultless(sem, p, world, initial, events);
    InvariantHolds(sem, p, world, initial, events);
  }

  /**
   * The rewrite loses no run that starts the initializer first: whatever the original class does
   * under such a schedule, the rewritten one can do, in at most seven steps for one, and then each
   * probe is exactly its site.
   */
  lemma OriginalRunsAreKept<W>(sem: Semantics<W>, p: Program, world: W, initial: seq<bool>, schedule: seq<Event>)
    requires ValidProgram(p) && RangesFit(p, |initial|) && InitializerFirst(sem, p, world, schedule)
    ensures
      exists events: seq<Event> ::
        && Faultless(sem, RewriteAll(p), AtRest(world, initial), events)
        && Explains(sem, p, world, initial, events, schedule)
        && IsQuiet(RewriteAll(p), Run(sem, RewriteAll(p), AtRest(world, initial), events).activations)
        && ProbesAreExact(p, initial, Run(sem, RewriteAll(p), AtRest(world, initial), events),
                          PassedBy(sem, p.bodies, AtRest(world, []), schedule))
  {
    hide WellFormed, Sites, Layout, FrameStep, Rewrite, Matches, NextSpot, Step, Faultless, NoEarlyPass, RewriteAll;
    var events := Realize(sem, p, world, initial, schedule);
    NoEarlyPassIsFaultless(sem, p, world, initial, events);
    InvariantHolds(sem, p, world, initial, events);
    ScheduleIsShorter(sem, p, world, events);
    var s := Follow(sem, p, world, events);
    var r := Run(sem, RewriteAll(p), AtRest(world, initial), events);
    var o := Run(sem, p.bodies, AtRest(world, []), schedule);
    AlignedBehaves(p, r, o, s.spots);
    ReflectionIsSound(p, initial, r, o, s.spots, PassedBy(sem, p.bodies, AtRest(world, []), schedule));
    SettledIsQuiet(p, r, o, s.spots);
    QuietMeansExact(p, initial, r, PassedBy(sem, p.bodies, AtRest(world, []), schedule));
    assert Explains(sem, p, world, initial, events, schedule);
  }

  /** On its way to a store that has not got the array. */
  predicate IsUnsupplied(spots: seq<Spot>, a: nat) {
    && a < |spots| && spots[a].Spot?
    && (spots[a].w.Enter? || (spots[a].w.Storing? && (spots[a].w.r == 0 || spots[a].w.missing)))
  }

  /** While the field is null an activation on its way to a store runs into the fault. */
  lemma {:induction false} RunIntoNull<W>(sem: Semantics<W>, p: Program, world: W, initial: seq<bool>, events: seq<Event>, a: nat)
    returns (more: seq<Event>)
    requires ValidProgram(p) && RangesFit(p, |initial|) && Faultless(sem, RewriteAll(p), AtRest(world, initial), events)
    requires !Follow(sem, p, world, events).isSet && IsUnsupplied(Follow(sem, p, world, events).spots, a)
    ensures Follow(sem, p, world, more).schedule == Follow(sem, p, world, events).schedule
    ensures !Faultless(sem, RewriteAll(p), AtRest(world, initial), more)
    decreases
      var s := Follow(sem, p, world, events);
      var o := Run(sem, p.bodies, AtRest(world, []), s.schedule);
      if a < |s.spots| && a < |o.activations| then RankOf(p, o.activations[a], s.spots[a]) else 0
  {
    hide WellFormed, Sites, Layout, FrameStep, Rewrite, Rank, Find, SiteArity, Original, Rewritten, Run, Follow, FaultsAt;
    var s := Follow(sem, p, world, events);
    var r := Run(sem, RewriteAll(p), AtRest(world, initial), events);
    var o := Run(sem, p.bodies, AtRest(world, []), s.schedule);
    InvariantHolds(sem, p, world, initial, events);
    SpotsAreWheres(p, r, o, s.spots);
    var m, w := o.activations[a].index, s.spots[a].w;
    var longer := events + [Advance(a)];
    assert longer[..|events|] == events;
    FollowStutter(sem, p, world, events, a);
    FaultsAreDoomed(p, r, o, s.spots, Advance(a));
    if IsDoomed(w) {
      more := longer;
    } else {
      RankFalls(p.plans[m], p.bodies[m], w, s.isSet);
      more := RunIntoNull(sem, p, world, initial, longer, a);
    }
  }

  lemma PassingUnsettles<W>(sem: Semantics<W>, p: Program, world: W, initial: seq<bool>, before: seq<Event>, e: Event)
    requires ValidProgram(p) && RangesFit(p, |initial|) && Faultless(sem, RewriteAll(p), AtRest(world, initial), before)
    requires
      var s := Follow(sem, p, world, before);
      var o := Run(sem, p.bodies, AtRest(world, []), s.schedule);
      !IsStutter(p, o.activations, s.spots, e) && PassesProbe(sem, p, o, e)
    ensures e.Advance? && IsUnsupplied(Follow(sem, p, world, before + [e]).spots, e.activation)
    ensures Faultless(sem, RewriteAll(p), AtRest(world, initial), before + [e])
  {
    hide WellFormed, Sites, Layout, Run, Rewrite, FrameStep, Find, ProbesReflect, FaultsAt;
    InvariantHolds(sem, p, world, initial, before);
    var s := Follow(sem, p, world, before);
    var r := Run(sem, RewriteAll(p), AtRest(world, initial), before);
    var o := Run(sem, p.bodies, AtRest(world, []), s.schedule);
    assert (before + [e])[..|before|] == before;
    FaultsAreDoomed(p, r, o, s.spots, e);
    var m := o.activations[e.activation].index;
    PassingIsPending(sem, p.plans[m], p.bodies[m], o.world, o.field, o.activations[e.activation].frame);
    var passing := SitePassed(sem, p.bodies[m].code, o.activations[e.activation].frame);
    assert Pending(Follow(sem, p, world, before + [e]).spots[e.activation], passing.site);
  }

  // ---- Which schedules are always followed without a fault ----

  /** The event is a step of an activation of the initializer. */
  predicate Begins(p: Program, activations: seq<Activation>, e: Event) {
    && e.Advance? && e.activation < |activations|
    && activations[e.activation].index < |p.plans| && p.plans[activations[e.activation].index].prologue != []
  }

  /** Some activation of the initializer has taken a step of its own. */
  ghost predicate HasBegun<W>(sem: Semantics<W>, p: Program, world: W, schedule: seq<Event>) {
    schedule != []
    && (var front := schedule[..|schedule| - 1];
        || HasBegun(sem, p, world, front)
        || Begins(p, Run(sem, p.bodies, AtRest(world, []), front).activations, schedule[|schedule| - 1]))
  }

  /** Sites with probes are passed only after that. */
  ghost predicate BegunFirst<W>(sem: Semantics<W>, p: Program, world: W, schedule: seq<Event>) {
    schedule == []
    || (var front, e := schedule[..|schedule| - 1], schedule[|schedule| - 1];
        && BegunFirst(sem, p, world, front)
        && (PassesProbe(sem, p, Run(sem, p.bodies, AtRest(world, []), front), e) ==> HasBegun(sem, p, world, front)))
  }

  /** As long as the field is null every activation of the initializer waits in front of its registration. */
  ghost predicate InitializersWait(p: Program, activations: seq<Activation>, spots: seq<Spot>, isSet: bool) {
    && |p.plans| == |p.bodies| && |spots| == |activations|
    && forall a :: 0 <= a < |spots| ==>
         && activations[a].index < |p.bodies|
         && (p.plans[activations[a].index].prologue != [] ==> isSet || (spots[a].Spot? && spots[a].w == Prologue(0)))
  }

  lemma InitializersKeepWaiting<W>(sem: Semantics<W>, p: Program, o: Machine<W>, spots: seq<Spot>, isSet: bool, e: Event)
    requires ValidProgram(p) && InitializersWait(p, o.activations, spots, isSet)
    ensures
      var stutters := IsStutter(p, o.activations, spots, e);
      var o' := if stutters then o else Step(sem, p.bodies, o, e);
      && InitializersWait(p, o'.activations, NextSpot(sem, p, o, spots, isSet, e), isSet || SetsField(p, o.activations, spots, e))
      && (!stutters && Begins(p, o.activations, e) ==> isSet)
  {
    hide WellFormed, FrameStep, SitePassed, SpotAfter, Find, Sites;
  }

  lemma {:induction false} BegunIsSet<W>(sem: Semantics<W>, p: Program, world: W, events: seq<Event>)
    requires ValidProgram(p)
    ensures
      var s := Follow(sem, p, world, events);
      && InitializersWait(p, Run(sem, p.bodies, AtRest(world, []), s.schedule).activations, s.spots, s.isSet)
      && (HasBegun(sem, p, world, s.schedule) ==> s.isSet)
  {
    hide WellFormed, Step, NextSpot, IsStutter, SetsField, Begins, InitializersWait;
    if events == [] {
      assert InitializersWait(p, [], [], false) by { NobodyWaits(p); }
    } else {
      var front, e := events[..|events| - 1], events[|events| - 1];
      BegunIsSet(sem, p, world, front);
      var s := Follow(sem, p, world, front);
      var o := Run(sem, p.bodies, AtRest(world, []), s.schedule);
      InitializersKeepWaiting(sem, p, o, s.spots, s.isSet, e);
      assert (s.schedule + [e])[..|s.schedule|] == s.schedule;
    }
  }

  lemma NobodyWaits(p: Program)
    requires ValidProgram(p)
    ensures InitializersWait(p, [], [], false)
  {
  }

  lemma {:induction false} BegunFirstIsNotEarly<W>(sem: Semantics<W>, p: Program, world: W, events: seq<Event>)
    requires ValidProgram(p) && BegunFirst(sem, p, world, Follow(sem, p, world, events).schedule)
    ensures NoEarlyPass(sem, p, world, events)
  {
    hide WellFormed, Step, NextSpot, IsStutter, PassesProbe, InitializersWait;
    if events != [] {
      var front, e := events[..|events| - 1], events[|events| - 1];
      var s := Follow(sem, p, world, front);
      assert (s.schedule + [e])[..|s.schedule|] == s.schedule;
      BegunFirstIsNotEarly(sem, p, world, front);
      BegunIsSet(sem, p, world, front);
    }
  }

  lemma {:induction false} BegunFirstPrefix<W>(sem: Semantics<W>, p: Program, world: W, schedule: seq<Event>, k: nat)
    requires k <= |schedule| && BegunFirst(sem, p, world, schedule)
    ensures BegunFirst(sem, p, world, schedule[..k])
  {
    hide PassesProbe;
    if k == |schedule| {
      assert schedule[..k] == schedule;
    } else {
      BegunFirstPrefix(sem, p, world, schedule[..|schedule| - 1], k);
      assert schedule[..|schedule| - 1][..k] == schedule[..k];
    }
  }

  /** Everything is at the start of a chunk, has ended, or waits in front of the registration. */
  predicate AllIdle(p: Program, activations: seq<Activation>, spots: seq<Spot>) {
    && |spots| == |activations|
    && forall a :: 0 <= a < |spots| && spots[a].Spot? ==>
         || spots[a].w.At?
         || (spots[a].w.Prologue? && activations[a].index < |p.plans| && p.plans[activations[a].index].prologue != [])
  }

  lemma StaysIdle<W>(sem: Semantics<W>, p: Program, o: Machine<W>, spots: seq<Spot>, e: Event)
    requires ValidProgram(p) && InitializersWait(p, o.activations, spots, false) && AllIdle(p, o.activations, spots)
    requires !Begins(p, o.activations, e) && !PassesProbe(sem, p, o, e)
    ensures !IsStutter(p, o.activations, spots, e)
    ensures AllIdle(p, Step(sem, p.bodies, o, e).activations, NextSpot(sem, p, o, spots, false, e))
  {
    hide WellFormed, FrameStep, Find, Sites;
    if e.Advance? && e.activation < |spots| {
      var m := o.activations[e.activation].index;
      var s := SitePassed(sem, p.bodies[m].code, o.activations[e.activation].frame);
      assert s.Passing? ==> Passed(m, s.site) in PassedIn(sem, p.bodies, o, e);
    }
  }

  /** The schedule is followed by itself: nothing that it does takes an activation into probe code. */
  ghost predicate IsOwnFollower<W>(sem: Semantics<W>, p: Program, world: W, schedule: seq<Event>)
    requires |p.plans| == |p.bodies|
  {
    var s, o := Follow(sem, p, world, schedule), Run(sem, p.bodies, AtRest(world, []), schedule);
    s.schedule == schedule && !s.isSet && InitializersWait(p, o.activations, s.spots, false) && AllIdle(p, o.activations, s.spots)
  }

  lemma StaysOwnFollower<W>(sem: Semantics<W>, p: Program, world: W, front: seq<Event>, e: Event)
    requires ValidProgram(p) && IsOwnFollower(sem, p, world, front)
    requires
      var o := Run(sem, p.bodies, AtRest(world, []), front);
      !Begins(p, o.activations, e) && !PassesProbe(sem, p, o, e)
    ensures IsOwnFollower(sem, p, world, front + [e])
  {
    hide WellFormed, Step, NextSpot, IsStutter, PassesProbe, Begins, AllIdle, InitializersWait;
    var s, o := Follow(sem, p, world, front), Run(sem, p.bodies, AtRest(world, []), front);
    StaysIdle(sem, p, o, s.spots, e);
    InitializersKeepWaiting(sem, p, o, s.spots, false, e);
    assert !SetsField(p, o.activations, s.spots, e) by { OnlyStuttersSet(p, o.activations, s.spots, e); }
    assert (front + [e])[..|front|] == front;
  }

  lemma OnlyStuttersSet(p: Program, activations: seq<Activation>, spots: seq<Spot>, e: Event)
    ensures SetsField(p, activations, spots, e) ==> IsStutter(p, activations, spots, e)
  {
  }

  /** A schedule in which no initializer has begun, and so no site with a probe is passed, follows itself. */
  lemma {:induction false} FollowsItself<W>(sem: Semantics<W>, p: Program, world: W, schedule: seq<Event>)
    requires ValidProgram(p) && BegunFirst(sem, p, world, schedule) && !HasBegun(sem, p, world, schedule)
    ensures IsOwnFollower(sem, p, world, schedule)
  {
    hide WellFormed, PassesProbe, Begins, IsOwnFollower;
    if schedule == [] {
      assert IsOwnFollower(sem, p, world, []) by { NothingFollowsItself(sem, p, world); }
    } else {
      var front, e := schedule[..|schedule| - 1], schedule[|schedule| - 1];
      FollowsItself(sem, p, world, front);
      StaysOwnFollower(sem, p, world, front, e);
      assert schedule == front + [e];
    }
  }

  lemma NothingFollowsItself<W>(sem: Semantics<W>, p: Program, world: W)
    requires ValidProgram(p)
    ensures IsOwnFollower(sem, p, world, [])
  {
  }

  /** A site with a probe passed before any initializer has begun leads into a fault. */
  lemma EarlyPassFaults<W>(sem: Semantics<W>, p: Program, world: W, initial: seq<bool>, front: seq<Event>, e: Event)
    returns (events: seq<Event>)
    requires ValidProgram(p) && RangesFit(p, |initial|) && BegunFirst(sem, p, world, front)
    requires !BegunFirst(sem, p, world, front + [e])
    ensures Follow(sem, p, world, events).schedule == front + [e]
    ensures !Faultless(sem, RewriteAll(p), AtRest(world, initial), events)
  {
    hide WellFormed, Sites, Layout, Follow, Run, Rewrite, Faultless, NoEarlyPass, FrameStep, SpotAfter, IsWhere;
    assert (front + [e])[..|front|] == front;
    FollowsItself(sem, p, world, front);
    BegunFirstIsNotEarly(sem, p, world, front);
    NoEarlyPassIsFaultless(sem, p, world, initial, front);
    PassingIsNoStutter(sem, p, world, front, e);
    PassingUnsettles(sem, p, world, initial, front, e);
    NextIsNoStutter(sem, p, world, front, e);
    events := RunIntoNull(sem, p, world, initial, front + [e], e.activation);
  }

  lemma PassingIsNoStutter<W>(sem: Semantics<W>, p: Program, world: W, front: seq<Event>, e: Event)
    requires ValidProgram(p) && IsOwnFollower(sem, p, world, front)
    requires PassesProbe(sem, p, Run(sem, p.bodies, AtRest(world, []), front), e)
    ensures !IsStutter(p, Run(sem, p.bodies, AtRest(world, []), front).activations, Follow(sem, p, world, front).spots, e)
  {
    hide WellFormed, Run, Follow, SitePassed, IsWhere;
  }

  lemma NextIsNoStutter<W>(sem: Semantics<W>, p: Program, world: W, before: seq<Event>, e: Event)
    requires |p.plans| == |p.bodies|
    requires
      var s := Follow(sem, p, world, before);
      !IsStutter(p, Run(sem, p.bodies, AtRest(world, []), s.schedule).activations, s.spots, e)
    ensures
      var s, s' := Follow(sem, p, world, before), Follow(sem, p, world, before + [e]);
      s'.schedule == s.schedule + [e] && s'.isSet == s.isSet
  {
    hide Run, NextSpot;
    assert (before + [e])[..|before|] == before;
  }

  /** The first place where a schedule passes a site too early. */
  lemma {:induction false} FirstEarlyPass<W>(sem: Semantics<W>, p: Program, world: W, schedule: seq<Event>) returns (k: nat)
    requires !BegunFirst(sem, p, world, schedule)
    ensures k < |schedule| && BegunFirst(sem, p, world, schedule[..k]) && !BegunFirst(sem, p, world, schedule[..k] + [schedule[k]])
  {
    hide PassesProbe, HasBegun;
    var front := schedule[..|schedule| - 1];
    if BegunFirst(sem, p, world, front) {
      k := |schedule| - 1;
      assert schedule == front + [schedule[k]];
    } else {
      k := FirstEarlyPass(sem, p, world, front);
      assert front[..k] == schedule[..k];
    }
  }

  /**
   * The exact condition on what the original class is scheduled to do: every run of the rewritten
   * class that follows the schedule, as far as it goes, is without a fault if and only if sites with
   * probes are passed only after some activation of the initializer has taken a step of its own.
   */
  lemma FollowersAreFaultless<W>(sem: Semantics<W>, p: Program, world: W, initial: seq<bool>, schedule: seq<Event>)
    requires ValidProgram(p) && RangesFit(p, |initial|)
    ensures BegunFirst(sem, p, world, schedule) <==>
      forall events: seq<Event> :: Follow(sem, p, world, events).schedule <= schedule ==>
        Faultless(sem, RewriteAll(p), AtRest(world, initial), events)
  {
    hide WellFormed, RangesFit, Faultless, Follow, BegunFirst, RewriteAll;
    if BegunFirst(sem, p, world, schedule) {
      forall events: seq<Event> | Follow(sem, p, world, events).schedule <= schedule
        ensures Faultless(sem, RewriteAll(p), AtRest(world, initial), events)
      {
        var s := Follow(sem, p, world, events).schedule;
        assert s == schedule[..|s|];
        BegunFirstPrefix(sem, p, world, schedule, |s|);
        BegunFirstIsNotEarly(sem, p, world, events);
        NoEarlyPassIsFaultless(sem, p, world, initial, events);
      }
    } else {
      var k := FirstEarlyPass(sem, p, world, schedule);
      var events := EarlyPassFaults(sem, p, world, initial, schedule[..k], schedule[k]);
      assert schedule[..k] + [schedule[k]] <= schedule;
    }
  }
}
