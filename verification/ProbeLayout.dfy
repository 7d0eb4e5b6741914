/**
 * What the rewrite of one method should look like, stated over the prefix of instructions
 * visited so far: the probe sites in order, the entry that describes each of them, and the
 * code each instruction becomes.
 */
module ProbeLayout {
  import opened Bytecode
  import opened ProbeMap
  import opened Text

  // ---- Probe sites ----

  /** Arm `arm` of the instruction at `pc`; a line marker has the single arm 0. */
  datatype Site = Site(pc: nat, arm: nat)

  /** How many probes `insn` gets after `pre`: a line marker only where its line is new. */
  function SiteArity(pre: seq<Insn>, insn: Insn): nat {
    if insn.Line? then if insn in pre then 0 else 1
    else if IsDecision(insn) then ArmCount(insn)
    else 0
  }

  /** The probe sites of a method body, in order of position and then of arm. */
  function Sites(code: seq<Insn>): seq<Site> {
    if code == [] then []
    else
      var front, last := code[..|code| - 1], code[|code| - 1];
      Sites(front) + seq(SiteArity(front, last), arm requires 0 <= arm => Site(|front|, arm))
  }

  /** The line the last marker names, -1 before the first one. */
  function CurrentLine(code: seq<Insn>): int {
    if code == [] then -1
    else match code[|code| - 1]
      case Line(n) => n
      case _ => CurrentLine(code[..|code| - 1])
  }

  /** The number of conditional jumps and switches. */
  function Decisions(code: seq<Insn>): nat {
    if code == [] then 0
    else Decisions(code[..|code| - 1]) + if IsDecision(code[|code| - 1]) then 1 else 0
  }

  /** The parts of a method that end up in its probe entries. */
  datatype Owner = Owner(name: Text, desc: Text, isComposable: bool)

  /** The entry for a site: its line, and for an arm of a decision the number of that decision. */
  function Describe(owner: Owner, code: seq<Insn>, site: Site, index: int): ProbeEntry
    requires site.pc < |code|
  {
    var kind := if code[site.pc].Line? then LINE else BRANCH;
    ProbeEntry(index, CurrentLine(code[..site.pc + 1]), owner.name, owner.desc, kind, owner.isComposable,
               if kind == LINE then NO_BRANCH else Decisions(code[..site.pc]))
  }

  lemma {:induction false} SitesInRange(code: seq<Insn>, n: nat)
    requires n < |Sites(code)|
    ensures
      var s := Sites(code)[n];
      && s.pc < |code|
      && s.arm < SiteArity(code[..s.pc], code[s.pc])
      && n == |Sites(code[..s.pc])| + s.arm
  {
    var front := code[..|code| - 1];
    if n < |Sites(front)| {
      SitesInRange(front, n);
      var s := Sites(front)[n];
      assert code[..s.pc] == front[..s.pc];
    }
  }

  lemma {:induction false} SiteIsListed(code: seq<Insn>, site: Site)
    requires site.pc < |code| && site.arm < SiteArity(code[..site.pc], code[site.pc])
    ensures
      var n := |Sites(code[..site.pc])| + site.arm;
      n < |Sites(code)| && Sites(code)[n] == site
  {
    var front := code[..|code| - 1];
    if site.pc < |front| {
      assert code[..site.pc] == front[..site.pc];
      SiteIsListed(front, site);
    }
  }

  // ---- The probes in numbers ----

  /** The edges of all decisions: two for a jump other than GOTO (167) and JSR (168), one more than it has labels for a switch. */
  function EdgeCount(code: seq<Insn>): nat {
    if code == [] then 0
    else EdgeCount(code[..|code| - 1]) + match code[|code| - 1]
      case Jump(o, _) => if o == 167 || o == 168 then 0 else 2
      case TableSwitch(_, _, _, targets) => |targets| + 1
      case LookupSwitch(_, _, targets) => |targets| + 1
      case _ => 0
  }

  function LineNumbers(code: seq<Insn>): set<int> {
    set i | 0 <= i < |code| && code[i].Line? :: code[i].line
  }

  lemma LineNumbersOneMore(pre: seq<Insn>, insn: Insn)
    ensures LineNumbers(pre + [insn]) == LineNumbers(pre) + if insn.Line? then {insn.line} else {}
    ensures insn.Line? ==> (insn.line in LineNumbers(pre) <==> insn in pre)
  {
    var code := pre + [insn];
    assert forall i :: 0 <= i < |pre| ==> code[i] == pre[i];
    if insn.Line? {
      assert code[|pre|].line in LineNumbers(code);
    }
    forall n | n in LineNumbers(pre) ensures n in LineNumbers(code) {
      var i :| 0 <= i < |pre| && pre[i].Line? && pre[i].line == n;
      assert code[i].line == n;
    }
  }

  /** A method has a probe for each line that has a marker and one for each edge. */
  lemma {:induction false} SiteCount(code: seq<Insn>)
    ensures |Sites(code)| == |LineNumbers(code)| + EdgeCount(code)
  {
    if code != [] {
      var front, last := code[..|code| - 1], code[|code| - 1];
      SiteCount(front);
      LineNumbersOneMore(front, last);
      assert code == front + [last];
    } else {
      assert LineNumbers(code) == {};
    }
  }

  /** A jump adds two probes, GOTO and JSR add none. */
  lemma JumpAdds(pre: seq<Insn>, opcode: nat, target: Label)
    ensures |Sites(pre + [Jump(opcode, target)])| == |Sites(pre)| + if opcode == 167 || opcode == 168 then 0 else 2
  {
    var code := pre + [Jump(opcode, target)];
    assert code[..|code| - 1] == pre;
  }

  /** Which arms of which instructions are sites. */
  lemma SiteIff(code: seq<Insn>, pc: nat, arm: nat)
    ensures Site(pc, arm) in Sites(code) <==>
      && pc < |code|
      && match code[pc]
         case Line(_) => arm == 0 && code[pc] !in code[..pc]
         case Jump(o, _) => o != 167 && o != 168 && arm < 2
         case TableSwitch(_, _, _, targets) => arm < |targets| + 1
         case LookupSwitch(_, _, targets) => arm < |targets| + 1
         case _ => false
  {
    hide Sites;
    if Site(pc, arm) in Sites(code) {
      var n :| 0 <= n < |Sites(code)| && Sites(code)[n] == Site(pc, arm);
      SitesInRange(code, n);
    }
    if pc < |code| && arm < SiteArity(code[..pc], code[pc]) {
      SiteIsListed(code, Site(pc, arm));
    }
  }

  /** All probe entries of a method whose first probe has index `offset`. */
  function Entries(owner: Owner, offset: nat, code: seq<Insn>): (entries: seq<ProbeEntry>)
    ensures |entries| == |Sites(code)|
  {
    if code == [] then []
    else
      var front, last := code[..|code| - 1], code[|code| - 1];
      var first := offset + |Sites(front)|;
      Entries(owner, offset, front)
      + seq(SiteArity(front, last), arm requires 0 <= arm => Describe(owner, code, Site(|front|, arm), first + arm))
  }

  /** The n-th entry describes the n-th site and carries the n-th index. */
  lemma {:induction false} EntryDescribesSite(owner: Owner, offset: nat, code: seq<Insn>, n: nat)
    requires n < |Sites(code)|
    ensures Sites(code)[n].pc < |code|
    ensures Entries(owner, offset, code)[n] == Describe(owner, code, Sites(code)[n], offset + n)
  {
    var front := code[..|code| - 1];
    if n < |Sites(front)| {
      EntryDescribesSite(owner, offset, front, n);
      var s := Sites(front)[n];
      assert code[..s.pc] == front[..s.pc] && code[..s.pc + 1] == front[..s.pc + 1];
    }
  }

  // ---- The rewritten code ----

  predicate Holds(form: PushForm, value: int) {
    match form
    case IConst => -1 <= value <= 5
    case BiPush => -0x80 <= value <= 0x7F
    case SiPush => -0x8000 <= value <= 0x7FFF
    case Ldc => true
  }

  /** The bytes an instruction of the form refers to: its operands, and the constant for the last. */
  function Width(form: PushForm): nat {
    match form
    case IConst => 0
    case BiPush => 1
    case SiPush => 2
    case Ldc => 4
  }

  /** The shortest push instruction that can hold the value. */
  function FormFor(value: int): (form: PushForm)
    ensures Holds(form, value) && forall other :: Holds(other, value) ==> Width(form) <= Width(other)
  {
    if -1 <= value <= 5 then IConst
    else if -0x80 <= value <= 0x7F then BiPush
    else if -0x8000 <= value <= 0x7FFF then SiPush
    else Ldc
  }

  /** The limits and sizes of the forms: the operand of the first is part of the opcode, those of the others are signed bytes. */
  lemma FormLimits(value: int)
    ensures FormFor(value) ==
      if -1 <= value <= 5 then IConst else if -128 <= value <= 127 then BiPush else if -32768 <= value <= 32767 then SiPush else Ldc
    ensures Width(FormFor(value)) == if -1 <= value <= 5 then 0 else if -128 <= value <= 127 then 1 else if -32768 <= value <= 32767 then 2 else 4
  {
  }

  /** `probes[index] = true`. */
  function Store(index: nat): (s: seq<Insn>)
    ensures |s| == 4
  {
    [GetProbes, PushInt(FormFor(index), index), PushInt(IConst, 1), BaStore]
  }

  predicate IsStoreAt(code: seq<Insn>, q: int, index: nat) {
    0 <= q <= |code| - 4 && forall r :: 0 <= r < 4 ==> code[q + r] == Store(index)[r]
  }

  /** At an instruction of a store that starts at `q`, or at the label in front of it. */
  predicate Faces(code: seq<Insn>, pc: nat, q: int) {
    q <= pc < q + 4 || (pc + 1 == q && pc < |code| && code[pc].Mark? && code[pc].at.Probe?)
  }

  ghost predicate IsBeforeStore(code: seq<Insn>, pc: nat, index: nat) {
    exists q :: IsStoreAt(code, q, index) && Faces(code, pc, q)
  }

  lemma StoreIs(code: seq<Insn>, q: int, index: nat)
    requires IsStoreAt(code, q, index)
    ensures code[q] == GetProbes && code[q + 1] == PushInt(FormFor(index), index) && code[q + 2] == PushInt(IConst, 1) && code[q + 3] == BaStore
  {
    var s := Store(index);
    assert s[0] == GetProbes && s[1] == PushInt(FormFor(index), index) && s[2] == PushInt(IConst, 1) && s[3] == BaStore;
  }

  /** No position is before two stores. */
  lemma OneStoreAhead(code: seq<Insn>, pc: nat, a: nat, b: nat)
    requires IsBeforeStore(code, pc, a) && IsBeforeStore(code, pc, b)
    ensures a == b
  {
    var q :| IsStoreAt(code, q, a) && Faces(code, pc, q);
    var s :| IsStoreAt(code, s, b) && Faces(code, pc, s);
    StoreIs(code, q, a);
    StoreIs(code, s, b);
    hide Store;
    assert q == s;
  }

  /** `label: probes[index] = true; goto target`. */
  function Block(at: Label, index: nat, target: Label): (b: seq<Insn>)
    ensures |b| == 6
  {
    [Mark(at)] + Store(index) + [Jump(GOTO, target)]
  }

  /** The first `n` probe blocks of a switch: labels from `base` on, probes from `index` on. */
  function Blocks(base: nat, index: nat, insn: Insn, n: nat): (b: seq<Insn>)
    requires IsSwitch(insn) && n <= ArmCount(insn)
    ensures |b| == 6 * n
  {
    if n == 0 then []
    else Blocks(base, index, insn, n - 1) + Block(Probe(base + n - 1), index + n - 1, ArmLabel(insn, n - 1))
  }

  /** The labels created for `insn`. */
  function FreshCount(insn: Insn): nat {
    if IsDecision(insn) then ArmCount(insn) else 0
  }

  function FreshBefore(code: seq<Insn>): nat {
    if code == [] then 0 else FreshBefore(code[..|code| - 1]) + FreshCount(code[|code| - 1])
  }

  /** A switch with its default and its arms sent to the probe blocks. */
  function Redirected(insn: Insn, base: nat): Insn
    requires IsSwitch(insn)
  {
    var arms := seq(ArmCount(insn) - 1, i requires 0 <= i => Probe(base + 1 + i));
    match insn
    case TableSwitch(min, max, _, _) => TableSwitch(min, max, Probe(base), arms)
    case LookupSwitch(_, keys, _) => LookupSwitch(Probe(base), keys, arms)
  }

  /** A conditional jump with both ways out of it sent through their own probe. */
  function JumpChunk(opcode: nat, target: Label, base: nat, index: nat): (c: seq<Insn>)
    ensures |c| == 13
  {
    [Jump(opcode, Probe(base))]
    + Store(index) + [Jump(GOTO, Probe(base + 1)), Mark(Probe(base))]
    + Store(index + 1) + [Jump(GOTO, target), Mark(Probe(base + 1))]
  }

  /** How one method is rewritten: what goes in front of it, and whether and from which index on it gets probes. */
  datatype Plan = Plan(prologue: seq<Insn>, probing: bool, offset: nat)

  /** What `insn` becomes after `pre`. */
  function Chunk(plan: Plan, pre: seq<Insn>, insn: Insn): (c: seq<Insn>)
    ensures |c| > 0
  {
    var index, base := plan.offset + |Sites(pre)|, FreshBefore(pre);
    if !plan.probing then [insn]
    else if insn.Line? then
      [insn] + if insn in pre then [] else Store(index)
    else if !IsDecision(insn) then
      [insn]
    else if insn.Jump? then
      JumpChunk(insn.opcode, insn.target, base, index)
    else
      [Redirected(insn, base)] + Blocks(base, index, insn, ArmCount(insn))
  }

  function Layout(plan: Plan, code: seq<Insn>): (out: seq<Insn>)
    ensures |out| >= |code|
  {
    if code == [] then plan.prologue
    else
      var front, last := code[..|code| - 1], code[|code| - 1];
      Layout(plan, front) + Chunk(plan, front, last)
  }

  /** The rewritten method: the exception table keeps its labels. */
  function Rewrite(plan: Plan, body: Body): Body {
    Body(Layout(plan, body.code), body.handlers)
  }

  // ---- Where things are in the rewritten code ----

  /** The position of the chunk of instruction `i`; the length of the result for `i == |code|`. */
  function Pos(plan: Plan, code: seq<Insn>, i: nat): nat
    requires i <= |code|
  {
    |Layout(plan, code[..i])|
  }

  lemma {:induction false} LayoutPrefix(plan: Plan, code: seq<Insn>, i: nat)
    requires i <= |code|
    ensures Layout(plan, code[..i]) <= Layout(plan, code)
    decreases |code|
  {
    hide Chunk;
    if i < |code| {
      var front := code[..|code| - 1];
      LayoutPrefix(plan, front, i);
      assert code[..i] == front[..i];
    } else {
      assert code[..i] == code;
    }
  }

  lemma LayoutNext(plan: Plan, code: seq<Insn>, i: nat)
    requires i < |code|
    ensures Layout(plan, code[..i + 1]) == Layout(plan, code[..i]) + Chunk(plan, code[..i], code[i])
    ensures Pos(plan, code, i + 1) == Pos(plan, code, i) + |Chunk(plan, code[..i], code[i])|
  {
    hide Chunk;
    assert code[..i + 1][..i] == code[..i];
  }

  /** Instruction `k` of chunk `i` is where its position says it is. */
  lemma ChunkAt(plan: Plan, code: seq<Insn>, i: nat, k: nat)
    requires i < |code| && k < |Chunk(plan, code[..i], code[i])|
    ensures
      var p, out := Pos(plan, code, i), Layout(plan, code);
      p + k < |out| && out[p + k] == Chunk(plan, code[..i], code[i])[k]
  {
    hide Chunk;
    LayoutNext(plan, code, i);
    LayoutPrefix(plan, code, i + 1);
  }

  lemma {:induction false} PosIsMonotone(plan: Plan, code: seq<Insn>, i: nat, j: nat)
    requires i < j <= |code|
    ensures Pos(plan, code, i) < Pos(plan, code, j)
    decreases j
  {
    hide Chunk;
    LayoutNext(plan, code, j - 1);
    if i < j - 1 {
      PosIsMonotone(plan, code, i, j - 1);
    }
  }
}
