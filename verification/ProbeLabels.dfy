/** Where the labels of a method go when it is rewritten. */
module ProbeLabels {
  import opened Bytecode
  import opened ProbeLayout

  /** The labels an instruction mentions are the class file's own, and it is no probe instruction. */
  predicate IsSourceInsn(insn: Insn) {
    match insn
    case Mark(l) => l.Source?
    case Jump(_, l) => l.Source?
    case TableSwitch(_, _, d, ts) => d.Source? && forall t :: t in ts ==> t.Source?
    case LookupSwitch(d, _, ts) => d.Source? && forall t :: t in ts ==> t.Source?
    case Op(_) => true
    case Line(_) => true
    case Return => true
    case _ => false
  }

  predicate IsSourceCode(code: seq<Insn>) {
    forall i :: 0 <= i < |code| ==> IsSourceInsn(code[i])
  }

  predicate IsPrologue(code: seq<Insn>) {
    forall i :: 0 <= i < |code| ==> code[i].RegisterProbes?
  }

  lemma FindInConcat(a: seq<Insn>, b: seq<Insn>, l: Label)
    ensures Find(a + b, l) == if Find(a, l) < |a| then Find(a, l) else |a| + Find(b, l)
  {
    var p := if Find(a, l) < |a| then Find(a, l) else |a| + Find(b, l);
    if p < |a + b| {
      FindIs(a + b, l, p);
    }
  }

  /** Instruction `r` of block `j`. */
  lemma {:induction false} BlocksAt(base: nat, index: nat, insn: Insn, n: nat, j: nat, r: nat)
    requires IsSwitch(insn) && n <= ArmCount(insn) && j < n && r < 6
    ensures Blocks(base, index, insn, n)[6 * j + r] == Block(Probe(base + j), index + j, ArmLabel(insn, j))[r]
  {
    if j < n - 1 {
      BlocksAt(base, index, insn, n - 1, j, r);
    }
  }

  lemma JumpChunkMarks(opcode: nat, target: Label, base: nat, index: nat, k: nat)
    requires k < 13
    ensures JumpChunk(opcode, target, base, index)[6] == Mark(Probe(base))
    ensures JumpChunk(opcode, target, base, index)[12] == Mark(Probe(base + 1))
    ensures JumpChunk(opcode, target, base, index)[k].Mark? ==> k == 6 || k == 12
  {
  }

  /** The created labels of a chunk: which of them it marks, and where. */
  lemma ChunkMarks(plan: Plan, pre: seq<Insn>, insn: Insn, k: nat)
    requires IsSourceInsn(insn)
    requires k < |Chunk(plan, pre, insn)| && Chunk(plan, pre, insn)[k].Mark?
    ensures
      var l := Chunk(plan, pre, insn)[k].at;
      if l.Source? then Chunk(plan, pre, insn) == [insn] && insn == Mark(l)
      else
        && plan.probing && IsDecision(insn)
        && FreshBefore(pre) <= l.id < FreshBefore(pre) + FreshCount(insn)
        && k == MarkOffset(insn, l.id - FreshBefore(pre))
  {
    hide JumpChunk, Blocks;
    var base, index := FreshBefore(pre), plan.offset + |Sites(pre)|;
    if plan.probing && IsSwitch(insn) {
      if k > 0 {
        var j, r := (k - 1) / 6, (k - 1) % 6;
        BlocksAt(base, index, insn, ArmCount(insn), j, r);
        assert Chunk(plan, pre, insn)[k] == Block(Probe(base + j), index + j, ArmLabel(insn, j))[r];
      }
    } else if plan.probing && IsDecision(insn) {
      JumpChunkMarks(insn.opcode, insn.target, base, index, k);
    }
  }

  /** Where chunk of `insn` marks the label created as its `j`-th. */
  function MarkOffset(insn: Insn, j: nat): nat {
    if IsSwitch(insn) then 1 + 6 * j else if j == 0 then 6 else 12
  }

  lemma ChunkHasMark(plan: Plan, pre: seq<Insn>, insn: Insn, j: nat)
    requires plan.probing && IsSourceInsn(insn) && IsDecision(insn) && j < FreshCount(insn)
    ensures
      var c, k := Chunk(plan, pre, insn), MarkOffset(insn, j);
      k < |c| && c[k] == Mark(Probe(FreshBefore(pre) + j))
  {
    hide JumpChunk, Blocks, Block;
    var base, index := FreshBefore(pre), plan.offset + |Sites(pre)|;
    if IsSwitch(insn) {
      BlocksAt(base, index, insn, ArmCount(insn), j, 0);
      assert Block(Probe(base + j), index + j, ArmLabel(insn, j))[0] == Mark(Probe(base + j)) by { BlockStarts(base + j, index + j, ArmLabel(insn, j)); }
    } else {
      JumpChunkMarks(insn.opcode, insn.target, base, index, 0);
    }
  }

  lemma BlockStarts(id: nat, index: nat, target: Label)
    ensures Block(Probe(id), index, target)[0] == Mark(Probe(id))
  {
  }

  /** A label of the class file is found exactly where the instruction it marked has gone. */
  lemma {:induction false} SourceLabelMoves(plan: Plan, code: seq<Insn>, l: Label)
    requires l.Source? && IsSourceCode(code) && IsPrologue(plan.prologue)
    ensures Find(Layout(plan, code), l) == Pos(plan, code, Find(code, l))
  {
    hide Chunk;
    if code == [] {
      assert code[..0] == code;
    } else {
      var front, last := code[..|code| - 1], code[|code| - 1];
      var a, b, q := Layout(plan, front), Chunk(plan, front, last), Find(front, l);
      SourceLabelMoves(plan, front, l);
      SourceLabelInChunk(plan, front, last, l);
      FindInConcat(a, b, l);
      assert code == front + [last];
      FindInConcat(front, [last], l);
      assert front[..|front|] == front && code[..|front|] == front && code[..|code|] == code;
      if q < |front| {
        assert code[..q] == front[..q];
        PosIsMonotone(plan, front, q, |front|);
      }
    }
  }

  lemma SourceLabelInChunk(plan: Plan, pre: seq<Insn>, insn: Insn, l: Label)
    requires l.Source? && IsSourceInsn(insn)
    ensures
      var c := Chunk(plan, pre, insn);
      Find(c, l) == if insn == Mark(l) then 0 else |c|
  {
    var c := Chunk(plan, pre, insn);
    if insn == Mark(l) {
      FindIs(c, l, 0);
    } else if Find(c, l) < |c| {
      ChunkMarks(plan, pre, insn, Find(c, l));
    }
  }

  /** Created labels are numbered in order, so none is marked before the chunk it belongs to. */
  lemma {:induction false} ProbeMarksAreOld(plan: Plan, code: seq<Insn>, p: nat)
    requires IsSourceCode(code) && IsPrologue(plan.prologue)
    requires p < |Layout(plan, code)| && Layout(plan, code)[p].Mark? && Layout(plan, code)[p].at.Probe?
    ensures Layout(plan, code)[p].at.id < FreshBefore(code)
  {
    hide Chunk;
    if code != [] {
      var front, last := code[..|code| - 1], code[|code| - 1];
      if p < |Layout(plan, front)| {
        ProbeMarksAreOld(plan, front, p);
      } else {
        ChunkMarks(plan, front, last, p - |Layout(plan, front)|);
      }
    }
  }

  /** A created label is found where its own chunk marks it. */
  lemma ProbeLabelFound(plan: Plan, code: seq<Insn>, i: nat, j: nat)
    requires plan.probing && IsSourceCode(code) && IsPrologue(plan.prologue)
    requires i < |code| && IsDecision(code[i]) && j < FreshCount(code[i])
    ensures
      var p := Pos(plan, code, i) + MarkOffset(code[i], j);
      Find(Layout(plan, code), Probe(FreshBefore(code[..i]) + j)) == p < |Layout(plan, code)|
  {
    hide Chunk;
    var pre, l := code[..i], Probe(FreshBefore(code[..i]) + j);
    var p := Pos(plan, code, i) + MarkOffset(code[i], j);
    ChunkHasMark(plan, pre, code[i], j);
    ChunkAt(plan, code, i, MarkOffset(code[i], j));
    LayoutNext(plan, code, i);
    LayoutPrefix(plan, code, i + 1);
    var out := Layout(plan, code);
    forall q | 0 <= q < p ensures out[q] != Mark(l) {
      if out[q] == Mark(l) {
        if q < |Layout(plan, pre)| {
          ProbeMarksAreOld(plan, pre, q);
        } else {
          ChunkMarks(plan, pre, code[i], q - |Layout(plan, pre)|);
        }
      }
    }
    FindIs(out, l, p);
  }
}
