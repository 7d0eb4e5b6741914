/** The visitor that rewrites one method (instrumentation/ProbeInserter.kt). */
module ProbeInserter {
  import opened Bytecode
  import opened ProbeMap
  import opened ProbeLayout

  function Probing(offset: nat): Plan {
    Plan([], true, offset)
  }

  /** The entries of a decision's first `n` arms: one line, one group, consecutive indices. */
  function BranchEntries(owner: Owner, index: nat, line: int, group: int, n: nat): (entries: seq<ProbeEntry>)
    ensures |entries| == n
  {
    seq(n, arm requires 0 <= arm => ProbeEntry(index + arm, line, owner.name, owner.desc, BRANCH, owner.isComposable, group))
  }

  lemma BranchEntriesJoin(owner: Owner, index: nat, line: int, group: int, a: nat, b: nat)
    ensures BranchEntries(owner, index, line, group, a + b)
         == BranchEntries(owner, index, line, group, a) + BranchEntries(owner, index + a, line, group, b)
  {
  }

  lemma BranchEntryIs(owner: Owner, index: nat, line: int, group: int)
    ensures BranchEntries(owner, index, line, group, 1)
         == [ProbeEntry(index, line, owner.name, owner.desc, BRANCH, owner.isComposable, group)]
  {
  }

  /** The entries that one more instruction adds. */
  function NewEntries(owner: Owner, offset: nat, pre: seq<Insn>, insn: Insn): (entries: seq<ProbeEntry>)
    ensures |entries| == SiteArity(pre, insn)
  {
    var index := offset + |Sites(pre)|;
    if insn.Line? then
      if insn in pre then []
      else [ProbeEntry(index, insn.line, owner.name, owner.desc, LINE, owner.isComposable, NO_BRANCH)]
    else BranchEntries(owner, index, CurrentLine(pre), Decisions(pre), SiteArity(pre, insn))
  }

  lemma EntriesOfOneMore(owner: Owner, offset: nat, pre: seq<Insn>, insn: Insn)
    ensures Entries(owner, offset, pre + [insn]) == Entries(owner, offset, pre) + NewEntries(owner, offset, pre, insn)
  {
    var code := pre + [insn];
    assert code[..|code| - 1] == pre;
    assert code[..|pre| + 1] == code;
  }

  lemma OneMore(plan: Plan, pre: seq<Insn>, insn: Insn)
    ensures |Sites(pre + [insn])| == |Sites(pre)| + SiteArity(pre, insn)
    ensures CurrentLine(pre + [insn]) == if insn.Line? then insn.line else CurrentLine(pre)
    ensures Decisions(pre + [insn]) == Decisions(pre) + if IsDecision(insn) then 1 else 0
    ensures FreshBefore(pre + [insn]) == FreshBefore(pre) + FreshCount(insn)
    ensures Layout(plan, pre + [insn]) == Layout(plan, pre) + Chunk(plan, pre, insn)
  {
    assert (pre + [insn])[..|pre|] == pre;
  }

  lemma LineParts(owner: Owner, offset: nat, pre: seq<Insn>, line: int)
    ensures
      var insn, index := Line(line), offset + |Sites(pre)|;
      if insn in pre then Chunk(Probing(offset), pre, insn) == [insn] && NewEntries(owner, offset, pre, insn) == []
      else
        && Chunk(Probing(offset), pre, insn) == [insn] + Store(index)
        && NewEntries(owner, offset, pre, insn) == [ProbeEntry(index, line, owner.name, owner.desc, LINE, owner.isComposable, NO_BRANCH)]
  {
  }

  lemma GotoParts(owner: Owner, offset: nat, pre: seq<Insn>, opcode: nat, target: Label)
    requires !IsConditionalJump(opcode)
    ensures
      var insn := Jump(opcode, target);
      Chunk(Probing(offset), pre, insn) == [insn] && NewEntries(owner, offset, pre, insn) == []
  {
  }

  lemma JumpChunkParts(opcode: nat, target: Label, base: nat, index: nat)
    ensures JumpChunk(opcode, target, base, index)
         == [Jump(opcode, Probe(base))]
            + Store(index) + [Jump(GOTO, Probe(base + 1)), Mark(Probe(base))]
            + Store(index + 1) + [Jump(GOTO, target), Mark(Probe(base + 1))]
  {
    hide Store;
  }

  lemma SwitchParts(owner: Owner, offset: nat, pre: seq<Insn>, insn: Insn)
    requires IsSwitch(insn)
    ensures
      var index, base := offset + |Sites(pre)|, FreshBefore(pre);
      && Chunk(Probing(offset), pre, insn) == [Redirected(insn, base)] + Blocks(base, index, insn, ArmCount(insn))
      && NewEntries(owner, offset, pre, insn)
         == BranchEntries(owner, index, CurrentLine(pre), Decisions(pre), ArmCount(insn))
  {
    hide Redirected, Blocks, Store;
  }

  lemma BlocksGrow(base: nat, index: nat, insn: Insn, n: nat)
    requires IsSwitch(insn) && n <= ArmCount(insn)
    ensures n == 0 ==> Blocks(base, index, insn, n) == []
    ensures n < ArmCount(insn) ==>
      Blocks(base, index, insn, n + 1) == Blocks(base, index, insn, n) + Block(Probe(base + n), index + n, ArmLabel(insn, n))
  {
    hide Block;
  }

  lemma JumpParts(owner: Owner, offset: nat, pre: seq<Insn>, opcode: nat, target: Label)
    requires IsConditionalJump(opcode)
    ensures
      var insn, index := Jump(opcode, target), offset + |Sites(pre)|;
      && Chunk(Probing(offset), pre, insn) == JumpChunk(opcode, target, FreshBefore(pre), index)
      && NewEntries(owner, offset, pre, insn) == BranchEntries(owner, index, CurrentLine(pre), Decisions(pre), 2)
  {
    hide JumpChunk, Blocks, Redirected, Store;
  }

  class ProbeInserter {
    const globalOffset: nat
    const owner: Owner
    const classProbeMap: ClassProbeMap?

    var out: seq<Insn>               // what the delegate has been sent
    var localProbeCount: nat
    var currentLine: int
    var seenLines: set<int>
    var branchGroup: nat
    var labelCount: nat              // labels created so far
    ghost var visited: seq<Insn>     // the instructions this visitor has been shown
    ghost const recorded: seq<ProbeEntry>

    constructor (globalOffset: nat, owner: Owner, classProbeMap: ClassProbeMap?)
      ensures Valid() && visited == []
      ensures this.globalOffset == globalOffset && this.owner == owner && this.classProbeMap == classProbeMap
      ensures classProbeMap != null ==> recorded == classProbeMap.probeEntries
    {
      this.globalOffset, this.owner, this.classProbeMap := globalOffset, owner, classProbeMap;
      out, localProbeCount, currentLine, seenLines, branchGroup, labelCount := [], 0, -1, {}, 0, 0;
      visited := [];
      recorded := if classProbeMap == null then [] else classProbeMap.probeEntries;
    }

    /** The counters, the emitted code and the recorded entries are those of the instructions visited. */
    ghost predicate Valid()
      reads this, classProbeMap
    {
      && localProbeCount == |Sites(visited)|
      && currentLine == CurrentLine(visited)
      && (forall n :: n in seenLines <==> Line(n) in visited)
      && branchGroup == Decisions(visited)
      && labelCount == FreshBefore(visited)
      && out == Layout(Probing(globalOffset), visited)
      && (classProbeMap != null ==> classProbeMap.probeEntries == recorded + Entries(owner, globalOffset, visited))
    }

    function Recorded(): seq<ProbeEntry>
      reads this, classProbeMap
    {
      if classProbeMap == null then [] else classProbeMap.probeEntries
    }

    method Emit(insn: Insn)
      modifies this`out
      ensures out == old(out) + [insn]
    {
      out := out + [insn];
    }

    method NewLabel() returns (l: Label)
      modifies this`labelCount
      ensures l == Probe(old(labelCount)) && labelCount == old(labelCount) + 1
    {
      l := Probe(labelCount);
      labelCount := labelCount + 1;
    }

    method EmitProbeStore(probeIndex: nat)
      modifies this`out
      ensures out == old(out) + Store(probeIndex)
    {
      Emit(GetProbes);
      Emit(PushInt(FormFor(probeIndex), probeIndex));
      Emit(PushInt(IConst, 1));
      Emit(BaStore);
    }

    method RecordAndEmit(kind: ProbeType, group: int)
      modifies this`out, this`localProbeCount, classProbeMap
      ensures localProbeCount == old(localProbeCount) + 1
      ensures out == old(out) + Store(globalOffset + old(localProbeCount))
      ensures Recorded() == if classProbeMap == null then [] else
        old(Recorded()) + [ProbeEntry(globalOffset + old(localProbeCount), currentLine, owner.name, owner.desc, kind, owner.isComposable, group)]
    {
      var probeIndex := globalOffset + localProbeCount;
      localProbeCount := localProbeCount + 1;
      if classProbeMap != null {
        classProbeMap.AddProbe(ProbeEntry(probeIndex, currentLine, owner.name, owner.desc, kind, owner.isComposable, group));
      }
      EmitProbeStore(probeIndex);
    }

    method VisitLineNumber(line: int)
      requires Valid()
      modifies this, classProbeMap
      ensures Valid() && visited == old(visited) + [Line(line)]
      ensures localProbeCount == old(localProbeCount) + if Line(line) in old(visited) then 0 else 1
    {
      hide Sites, CurrentLine, Decisions, FreshBefore, Layout, Entries, Store, Chunk, NewEntries;
      ghost var index := globalOffset + localProbeCount;
      LineParts(owner, globalOffset, visited, line);
      Emit(Line(line));
      currentLine := line;
      if line !in seenLines {
        seenLines := seenLines + {line};
        RecordAndEmit(LINE, NO_BRANCH);
        assert out == old(out) + ([Line(line)] + Store(index));
      }
      OneMore(Probing(globalOffset), visited, Line(line));
      EntriesOfOneMore(owner, globalOffset, visited, Line(line));
      visited := visited + [Line(line)];
    }

    /** Every instruction that is neither a line marker, a jump nor a switch goes straight through. */
    method VisitOther(insn: Insn)
      requires Valid()
      requires !insn.Line? && !insn.Jump? && !IsSwitch(insn)
      modifies this
      ensures Valid() && visited == old(visited) + [insn]
    {
      hide Sites, CurrentLine, Decisions, FreshBefore, Layout, Entries;
      Emit(insn);
      OneMore(Probing(globalOffset), visited, insn);
      EntriesOfOneMore(owner, globalOffset, visited, insn);
      visited := visited + [insn];
    }

    /** The two-way decision: the fall-through's probe first, then the block of the taken edge. */
    method RouteJump(opcode: nat, target: Label)
      modifies this`out, this`localProbeCount, this`branchGroup, this`labelCount, classProbeMap
      ensures localProbeCount == old(localProbeCount) + 2
      ensures branchGroup == old(branchGroup) + 1 && labelCount == old(labelCount) + 2
      ensures out == old(out) + JumpChunk(opcode, target, old(labelCount), globalOffset + old(localProbeCount))
      ensures Recorded() == if classProbeMap == null then [] else
        old(Recorded()) + BranchEntries(owner, globalOffset + old(localProbeCount), currentLine, old(branchGroup), 2)
    {
      hide Store, JumpChunk, BranchEntries;
      BranchEntriesJoin(owner, globalOffset + localProbeCount, currentLine, branchGroup, 1, 1);
      BranchEntryIs(owner, globalOffset + localProbeCount, currentLine, branchGroup);
      BranchEntryIs(owner, globalOffset + localProbeCount + 1, currentLine, branchGroup);
      ghost var index := globalOffset + localProbeCount;
      var group := branchGroup;
      branchGroup := branchGroup + 1;
      var probeTaken := NewLabel();
      var after := NewLabel();
      Emit(Jump(opcode, probeTaken));
      RecordAndEmit(BRANCH, group);
      assert out == old(out) + ([Jump(opcode, probeTaken)] + Store(index));
      Emit(Jump(GOTO, after));
      Emit(Mark(probeTaken));
      assert out == old(out) + ([Jump(opcode, probeTaken)] + Store(index) + [Jump(GOTO, after), Mark(probeTaken)]);
      RecordAndEmit(BRANCH, group);
      Emit(Jump(GOTO, target));
      Emit(Mark(after));
      assert out == old(out) + ([Jump(opcode, probeTaken)] + Store(index) + [Jump(GOTO, after), Mark(probeTaken)]
                                + Store(index + 1) + [Jump(GOTO, target), Mark(after)]);
      JumpChunkParts(opcode, target, labelCount - 2, index);
    }

    method VisitJumpInsn(opcode: nat, target: Label)
      requires Valid()
      modifies this, classProbeMap
      ensures Valid() && visited == old(visited) + [Jump(opcode, target)]
      ensures localProbeCount == old(localProbeCount) + if opcode == 167 || opcode == 168 then 0 else 2
    {
      hide Sites, CurrentLine, Decisions, FreshBefore, Layout, Entries, Store, Chunk, NewEntries, JumpChunk, BranchEntries;
      ghost var insn := Jump(opcode, target);
      if !IsConditionalJump(opcode) {
        Emit(Jump(opcode, target));
        GotoParts(owner, globalOffset, visited, opcode, target);
      } else {
        JumpParts(owner, globalOffset, visited, opcode, target);
        RouteJump(opcode, target);
      }
      OneMore(Probing(globalOffset), visited, insn);
      EntriesOfOneMore(owner, globalOffset, visited, insn);
      visited := visited + [insn];
    }

    /** `probeLabel: probes[i] = true; goto target`. */
    method EmitSwitchProbeBlock(probeLabel: Label, target: Label, group: int)
      modifies this`out, this`localProbeCount, classProbeMap
      ensures localProbeCount == old(localProbeCount) + 1
      ensures out == old(out) + Block(probeLabel, globalOffset + old(localProbeCount), target)
      ensures Recorded() == if classProbeMap == null then [] else old(Recorded()) + BranchEntries(owner, globalOffset + old(localProbeCount), currentLine, group, 1)
    {
      hide Store, BranchEntries;
      BranchEntryIs(owner, globalOffset + localProbeCount, currentLine, group);
      Emit(Mark(probeLabel));
      RecordAndEmit(BRANCH, group);
      Emit(Jump(GOTO, target));
      assert out == old(out) + ([Mark(probeLabel)] + Store(globalOffset + old(localProbeCount)) + [Jump(GOTO, target)]);
    }

    /** Both kinds of switch: one block for the default and then one for every arm, shared targets included. */
    method RouteSwitch(insn: Insn)
      requires IsSwitch(insn)
      modifies this`out, this`localProbeCount, this`branchGroup, this`labelCount, classProbeMap
      ensures localProbeCount == old(localProbeCount) + ArmCount(insn)
      ensures branchGroup == old(branchGroup) + 1 && labelCount == old(labelCount) + ArmCount(insn)
      ensures out == old(out) + ([Redirected(insn, old(labelCount))]
                                 + Blocks(old(labelCount), globalOffset + old(localProbeCount), insn, ArmCount(insn)))
      ensures Recorded() == if classProbeMap == null then [] else
        old(Recorded()) + BranchEntries(owner, globalOffset + old(localProbeCount), currentLine, old(branchGroup), ArmCount(insn))
    {
      hide Store, Block, Redirected, Blocks, BranchEntries;
      assert ArmCount(insn) >= 1;
      hide ArmCount, ArmLabel;
      var group, base := branchGroup, labelCount;
      ghost var index := globalOffset + localProbeCount;
      branchGroup := branchGroup + 1;
      labelCount := labelCount + ArmCount(insn);
      Emit(Redirected(insn, base));
      ghost var head := old(out) + [Redirected(insn, base)];
      BlocksGrow(base, index, insn, 0);
      EmitSwitchProbeBlock(Probe(base), ArmLabel(insn, 0), group);
      for i := 0 to ArmCount(insn) - 1
        invariant branchGroup == group + 1 && labelCount == base + ArmCount(insn)
        invariant globalOffset + localProbeCount == index + i + 1
        invariant out == head + Blocks(base, index, insn, i + 1)
        invariant Recorded() == if classProbeMap == null then [] else
          old(Recorded()) + BranchEntries(owner, index, currentLine, group, i + 1)
      {
        BlocksGrow(base, index, insn, i + 1);
        BranchEntriesJoin(owner, index, currentLine, group, i + 1, 1);
        EmitSwitchProbeBlock(Probe(base + 1 + i), ArmLabel(insn, i + 1), group);
      }
    }

    method VisitTableSwitchInsn(min: int, max: int, dflt: Label, labels: seq<Label>)
      requires Valid()
      modifies this, classProbeMap
      ensures Valid() && visited == old(visited) + [TableSwitch(min, max, dflt, labels)]
      ensures localProbeCount == old(localProbeCount) + |labels| + 1
    {
      VisitSwitch(TableSwitch(min, max, dflt, labels));
    }

    method VisitLookupSwitchInsn(dflt: Label, keys: seq<int>, labels: seq<Label>)
      requires Valid()
      modifies this, classProbeMap
      ensures Valid() && visited == old(visited) + [LookupSwitch(dflt, keys, labels)]
      ensures localProbeCount == old(localProbeCount) + |labels| + 1
    {
      VisitSwitch(LookupSwitch(dflt, keys, labels));
    }

    method VisitSwitch(insn: Insn)
      requires Valid() && IsSwitch(insn)
      modifies this, classProbeMap
      ensures Valid() && visited == old(visited) + [insn]
      ensures localProbeCount == old(localProbeCount) + ArmCount(insn)
    {
      hide Sites, CurrentLine, Decisions, FreshBefore, Layout, Entries, Store, Chunk, NewEntries, Blocks, Redirected, BranchEntries;
      SwitchParts(owner, globalOffset, visited, insn);
      RouteSwitch(insn);
      OneMore(Probing(globalOffset), visited, insn);
      EntriesOfOneMore(owner, globalOffset, visited, insn);
      visited := visited + [insn];
    }

    /** The stack limit that goes with the rewritten code. */
    method VisitMaxs(maxStack: nat) returns (adjustedMaxStack: nat)
      requires Valid()
      ensures adjustedMaxStack == maxStack + if Sites(visited) != [] then 3 else 0
    {
      adjustedMaxStack := if localProbeCount > 0 then maxStack + 3 else maxStack;
    }

    /** The instruction list of a method replayed into the visitor. */
    method Accept(code: seq<Insn>)
      requires Valid() && visited == []
      modifies this, classProbeMap
      ensures Valid() && visited == code
    {
      hide Valid;
      for i := 0 to |code|
        invariant Valid() && visited == code[..i]
      {
        assert code[..i + 1] == code[..i] + [code[i]];
        match code[i] {
          case Line(n) => VisitLineNumber(n);
          case Jump(opcode, target) => VisitJumpInsn(opcode, target);
          case TableSwitch(min, max, dflt, targets) => VisitTableSwitchInsn(min, max, dflt, targets);
          case LookupSwitch(dflt, keys, targets) => VisitLookupSwitchInsn(dflt, keys, targets);
          case insn => VisitOther(insn);
        }
      }
    }
  }
}
