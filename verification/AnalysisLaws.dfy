/** What follows from the analyser's definition: one result, whatever the order, with summaries that count and never fall. */
module AnalysisLaws {
  import opened Analyzer
  import opened CoverageLines
  import opened ExecutionMerge
  import opened Permutations
  import opened ProbeMap
  import opened ProbeMerge
  import opened Sets
  import opened Text
  import opened Wrappers

  // ---- One result ----

  lemma {:induction false} AscendingIsUnique(a: seq<LineCoverage>, b: seq<LineCoverage>)
    requires Ascending(a) && Ascending(b) && forall x :: x in a <==> x in b
    ensures a == b
  {
    assert (a != [] ==> a[0] in a) && (b != [] ==> b[0] in b);
    if a != [] && b != [] {
      forall x ensures x in a[1..] <==> x in b[1..] {
        TailHolds(a, x);
        TailHolds(b, x);
      }
      AscendingIsUnique(a[1..], b[1..]);
      assert a == [a[0]] + a[1..] && b == [b[0]] + b[1..];
    }
  }

  lemma TailHolds(a: seq<LineCoverage>, x: LineCoverage)
    requires a != [] && Ascending(a)
    ensures x in a[1..] <==> x in a && x != a[0]
  {
    if x in a && x != a[0] {
      var k :| 0 <= k < |a| && a[k] == x;
      assert a[1..][k - 1] == x;
    }
    if x in a[1..] {
      var k :| 0 <= k < |a| - 1 && a[1..][k] == x;
      assert a[k + 1] == x;
    }
  }

  lemma {:induction false} InOrderIsUnique(a: seq<FileCoverage>, b: seq<FileCoverage>)
    requires InOrder(a) && InOrder(b) && forall x :: x in a <==> x in b
    ensures a == b
  {
    hide Before;
    assert (a != [] ==> a[0] in a) && (b != [] ==> b[0] in b);
    if a != [] && b != [] {
      BeforeIsTotal(a[0].path, b[0].path);
      forall x ensures x in a[1..] <==> x in b[1..] {
        TailOfFiles(a, x);
        TailOfFiles(b, x);
      }
      InOrderIsUnique(a[1..], b[1..]);
      assert a == [a[0]] + a[1..] && b == [b[0]] + b[1..];
    }
  }

  lemma TailOfFiles(a: seq<FileCoverage>, x: FileCoverage)
    requires a != [] && InOrder(a)
    ensures x in a[1..] <==> x in a && x != a[0]
  {
    hide Before;
    if x in a && x != a[0] {
      var k :| 0 <= k < |a| && a[k] == x;
      assert a[1..][k - 1] == x;
    }
    if x in a[1..] {
      var k :| 0 <= k < |a| - 1 && a[1..][k] == x;
      assert a[k + 1] == x;
      BeforeIsIrreflexive(x.path);
    }
  }

  lemma LineBelongs(lines: seq<LineCoverage>, input: Input, path: Text, l: LineCoverage)
    requires LinesAreOf(lines, input, path)
    ensures l in lines <==> HasLine(input, path, l.lineNumber) && l.hitCount == if IsLineHit(input, path, l.lineNumber) then 1 else 0
  {
    hide HasLine, IsLineHit;
    if l in lines {
      assert ListsLine(lines, l.lineNumber);
    } else if HasLine(input, path, l.lineNumber) {
      assert ListsLine(lines, l.lineNumber);
    }
  }

  lemma CoverageIsUnique(f: FileCoverage, g: FileCoverage, input: Input)
    requires IsCoverageOf(f, input) && IsCoverageOf(g, input) && f.path == g.path
    ensures f == g
  {
    hide HasLine, IsLineHit, Branches, BranchesHit;
    forall l ensures l in f.lines <==> l in g.lines {
      LineBelongs(f.lines, input, f.path, l);
      LineBelongs(g.lines, input, f.path, l);
    }
    AscendingIsUnique(f.lines, g.lines);
  }

  /** The joined data determine the whole report: the order in which classes are visited cannot show. */
  lemma AnalysisIsUnique(r: AnalysisResult, s: AnalysisResult, input: Input)
    requires IsAnalysisOf(r, input) && IsAnalysisOf(s, input)
    ensures r == s
  {
    forall f ensures f in r.files <==> f in s.files {
      FileBelongs(r.files, s.files, input, f);
      FileBelongs(s.files, r.files, input, f);
    }
    InOrderIsUnique(r.files, s.files);
  }

  lemma FileBelongs(a: seq<FileCoverage>, b: seq<FileCoverage>, input: Input, f: FileCoverage)
    requires FilesAreOf(a, input) && FilesAreOf(b, input)
    ensures f in a ==> f in b
  {
    hide IsCoverageOf, HasFile;
    if f in a {
      assert HasPath(a, f.path);
      assert HasPath(b, f.path);
      var g :| g in b && g.path == f.path;
      CoverageIsUnique(f, g, input);
    }
  }

  // ---- The order of the probes of a class ----

  ghost predicate SameProbes(input: Input, other: Input) {
    && input.arrays == other.arrays && input.maps.Keys == other.maps.Keys
    && forall id :: id in input.maps ==>
         && input.maps[id].classId == id
         && Header(input.maps[id]) == Header(other.maps[id])
         && multiset(input.maps[id].probes) == multiset(other.maps[id].probes)
  }

  lemma {:induction false} CountsArePermuted(es: seq<ProbeEntry>, fs: seq<ProbeEntry>, probes: seq<bool>)
    requires multiset(es) == multiset(fs)
    ensures CountBranches(es) == CountBranches(fs) && CountHits(es, probes) == CountHits(fs, probes)
    decreases |es|
  {
    hide CountsAsBranch, IsHit, CountBranches, CountHits;
    SameLength(es, fs);
    if es != [] {
      var k := FindLast(es, fs);
      CountsArePermuted(es[..|es| - 1], fs[..k] + fs[k + 1..], probes);
      CountsWithout(fs, k, probes);
      CountsOneMore(es, probes, |es| - 1);
      assert es[..|es| - 1 + 1] == es;
    }
  }

  lemma {:induction false} CountsWithout(fs: seq<ProbeEntry>, k: nat, probes: seq<bool>)
    requires k < |fs|
    ensures CountBranches(fs) == CountBranches(fs[..k] + fs[k + 1..]) + if CountsAsBranch(fs[k]) then 1 else 0
    ensures CountHits(fs, probes) == CountHits(fs[..k] + fs[k + 1..], probes) + if CountsAsBranch(fs[k]) && IsHit(fs[k], probes) then 1 else 0
    decreases |fs|
  {
    hide CountsAsBranch, IsHit, CountBranches, CountHits;
    var front, last, rest := fs[..|fs| - 1], fs[|fs| - 1], fs[..k] + fs[k + 1..];
    CountsOneMore(fs, probes, |fs| - 1);
    assert fs[..|fs| - 1 + 1] == fs;
    if k < |front| {
      CountsWithout(front, k, probes);
      CountsOneMore(rest, probes, |rest| - 1);
      assert rest[..|rest| - 1] == front[..k] + front[k + 1..] && rest[..|rest| - 1 + 1] == rest;
    } else {
      assert rest == front;
    }
  }

  lemma WithoutOne(input: Input, other: Input, id: int) returns (a: Input, b: Input)
    requires SameProbes(input, other) && id in input.maps
    ensures a == input.(maps := input.maps - {id}) && b == other.(maps := other.maps - {id})
    ensures SameProbes(a, b) && WithClass(a, input.maps[id]) == input && WithClass(b, other.maps[id]) == other
    ensures multiset(input.maps[id].probes) == multiset(other.maps[id].probes) && Header(input.maps[id]) == Header(other.maps[id])
    ensures input.maps[id].classId == id == other.maps[id].classId && input.arrays == other.arrays
  {
    a, b := input.(maps := input.maps - {id}), other.(maps := other.maps - {id});
    assert Header(input.maps[id]).classId == Header(other.maps[id]).classId;
  }

  lemma {:induction false} BranchesArePermuted(input: Input, other: Input, path: Text)
    requires SameProbes(input, other)
    ensures |Branches(input, path)| == |Branches(other, path)| && |BranchesHit(input, path)| == |BranchesHit(other, path)|
    decreases |input.maps|
  {
    hide Branches, BranchesHit, CountBranches, CountHits, PathOf, WithClass;
    if input.maps == map[] {
      assert other.maps == map[];
      assert input == other;
    } else {
      var id := ElementOf(input.maps.Keys);
      var a, b := WithoutOne(input, other, id);
      hide SameProbes;
      var c, d := input.maps[id], other.maps[id];
      BranchesArePermuted(a, b, path);
      BranchesOneMore(a, c, path);
      BranchesOneMore(b, d, path);
      CountsArePermuted(c.probes, d.probes, if id in input.arrays then input.arrays[id] else []);
      PathIsOfHeader(c, d);
    }
  }

  lemma PathIsOfHeader(c: ClassMap, d: ClassMap)
    requires Header(c) == Header(d)
    ensures PathOf(c) == PathOf(d)
  {
    hide PackageOf, BeforeDollar;
    assert c.className == Header(c).className == d.className && c.sourceFile == Header(c).sourceFile == d.sourceFile;
  }

  lemma PermutedLine(input: Input, other: Input, path: Text, n: int)
    requires SameProbes(input, other)
    ensures HasLine(input, path, n) ==> HasLine(other, path, n)
    ensures IsLineHit(input, path, n) ==> IsLineHit(other, path, n)
  {
    hide PathOf, IsHit;
    forall p | IsOn(input, p, path, n)
      ensures exists q :: IsOn(other, q, path, n) && EntryAt(other, q) == EntryAt(input, p) && q.classId == p.classId
    {
      var es, fs := input.maps[p.classId].probes, other.maps[p.classId].probes;
      PathIsOfHeader(input.maps[p.classId], other.maps[p.classId]);
      assert es[p.k] in multiset(es);
      var k :| 0 <= k < |fs| && fs[k] == es[p.k];
      assert IsOn(other, Position(p.classId, k), path, n);
    }
  }

  lemma PermutedFile(input: Input, other: Input, path: Text)
    requires SameProbes(input, other)
    ensures HasFile(input, path) ==> HasFile(other, path)
  {
    hide PathOf;
    if id :| InFile(input, id, path) {
      PathIsOfHeader(input.maps[id], other.maps[id]);
      assert InFile(other, id, path);
    }
  }

  lemma SameProbesIsSymmetric(input: Input, other: Input)
    requires SameProbes(input, other)
    ensures SameProbes(other, input)
  {
    forall id | id in other.maps ensures other.maps[id].classId == id {
      assert Header(input.maps[id]).classId == id;
    }
  }

  /** Listing the probes of a class in another order gives the same report. */
  lemma ProbeOrderIsIrrelevant(r: AnalysisResult, input: Input, other: Input)
    requires SameProbes(input, other) && IsAnalysisOf(r, input)
    ensures IsAnalysisOf(r, other)
  {
    hide HasLine, IsLineHit, HasFile, Branches, BranchesHit, SameProbes;
    SameProbesIsSymmetric(input, other);
    forall path ensures HasFile(input, path) <==> HasFile(other, path) {
      PermutedFile(input, other, path);
      PermutedFile(other, input, path);
    }
    forall f | f in r.files ensures IsCoverageOf(f, other) {
      forall n ensures HasLine(input, f.path, n) <==> HasLine(other, f.path, n)
               ensures IsLineHit(input, f.path, n) <==> IsLineHit(other, f.path, n) {
        PermutedLine(input, other, f.path, n);
        PermutedLine(other, input, f.path, n);
      }
      BranchesArePermuted(input, other, f.path);
    }
  }

  // ---- Summaries as counts ----

  /** All lines of all measured classes. */
  function Lines(input: Input): (s: set<FileLine>)
    ensures forall x :: x in s <==> HasLine(input, x.path, x.n)
  {
    var s := set id, k | id in input.maps && 0 <= k < |input.maps[id].probes| && IsMeasured(input, id)
                         && input.maps[id].probes[k].lineNumber > 0 :: FileLine(PathOf(input.maps[id]), input.maps[id].probes[k].lineNumber);
    assert forall x :: x in s <==> HasLine(input, x.path, x.n) by {
      forall x ensures x in s <==> HasLine(input, x.path, x.n) {
        LineIsListed(input, s, x);
      }
    }
    s
  }

  lemma LineIsListed(input: Input, s: set<FileLine>, x: FileLine)
    requires s == set id, k | id in input.maps && 0 <= k < |input.maps[id].probes| && IsMeasured(input, id)
                         && input.maps[id].probes[k].lineNumber > 0 :: FileLine(PathOf(input.maps[id]), input.maps[id].probes[k].lineNumber)
    ensures x in s <==> HasLine(input, x.path, x.n)
  {
    hide PathOf;
    if x in s {
      var id, k :| id in input.maps && 0 <= k < |input.maps[id].probes| && IsMeasured(input, id)
        && input.maps[id].probes[k].lineNumber > 0 && x == FileLine(PathOf(input.maps[id]), input.maps[id].probes[k].lineNumber);
      assert IsOn(input, Position(id, k), x.path, x.n);
    }
    if p :| IsOn(input, p, x.path, x.n) {
      assert FileLine(PathOf(input.maps[p.classId]), input.maps[p.classId].probes[p.k].lineNumber) in s;
    }
  }

  ghost function LinesHit(input: Input): (s: set<FileLine>)
    ensures forall x :: x in s <==> IsLineHit(input, x.path, x.n)
  {
    assert forall x: FileLine :: IsLineHit(input, x.path, x.n) ==> HasLine(input, x.path, x.n) by {
      forall x: FileLine { HitLinesAreLines(input, x.path, x.n); }
    }
    set x | x in Lines(input) && IsLineHit(input, x.path, x.n)
  }

  ghost function AllBranches(input: Input): (s: set<Position>)
    ensures forall p :: p in s <==> IsPosition(input, p) && CountsAsBranch(EntryAt(input, p))
  {
    set id, k | id in input.maps && 0 <= k < |input.maps[id].probes| && IsMeasured(input, id)
      && CountsAsBranch(input.maps[id].probes[k]) :: Position(id, k)
  }

  ghost function AllBranchesHit(input: Input): (s: set<Position>)
    ensures forall p :: p in s <==>
      IsPosition(input, p) && CountsAsBranch(EntryAt(input, p)) && IsHit(EntryAt(input, p), input.arrays[p.classId])
  {
    set p | p in AllBranches(input) && IsHit(EntryAt(input, p), input.arrays[p.classId])
  }

  ghost predicate ListsHit(lines: seq<LineCoverage>, n: int) {
    exists l :: l in lines && l.lineNumber == n && l.hitCount > 0
  }

  /** The lines of one file, as lines of the report. */
  ghost function LinesIn(path: Text, lines: seq<LineCoverage>): (s: set<FileLine>)
    ensures forall x :: x in s <==> x.path == path && ListsLine(lines, x.n)
  {
    set l | l in lines :: FileLine(path, l.lineNumber)
  }

  ghost function LinesHitIn(path: Text, lines: seq<LineCoverage>): (s: set<FileLine>)
    ensures forall x :: x in s <==> x.path == path && ListsHit(lines, x.n)
  {
    set l | l in lines && l.hitCount > 0 :: FileLine(path, l.lineNumber)
  }

  lemma ListsOneMore(lines: seq<LineCoverage>, n: int)
    requires lines != [] && Ascending(lines)
    ensures
      var front, last := lines[..|lines| - 1], lines[|lines| - 1];
      && (ListsLine(lines, n) <==> ListsLine(front, n) || n == last.lineNumber)
      && (ListsHit(lines, n) <==> ListsHit(front, n) || (n == last.lineNumber && last.hitCount > 0))
      && (ListsHit(front, n) ==> ListsLine(front, n)) && !ListsLine(front, last.lineNumber)
  {
    var front, last := lines[..|lines| - 1], lines[|lines| - 1];
    assert forall l :: l in lines <==> l in front || l == last;
    assert forall l :: l in front ==> l.lineNumber < last.lineNumber;
  }

  lemma LinesInOneMore(path: Text, lines: seq<LineCoverage>)
    requires lines != [] && Ascending(lines)
    ensures
      var front, last := lines[..|lines| - 1], lines[|lines| - 1];
      var x := FileLine(path, last.lineNumber);
      && Ascending(front)
      && LinesIn(path, lines) == LinesIn(path, front) + {x} && x !in LinesIn(path, front)
      && LinesHitIn(path, lines) == LinesHitIn(path, front) + (if last.hitCount > 0 then {x} else {}) && x !in LinesHitIn(path, front)
  {
    hide LinesIn, LinesHitIn, ListsLine, ListsHit;
    var front, last := lines[..|lines| - 1], lines[|lines| - 1];
    var x := FileLine(path, last.lineNumber);
    ListsOneMore(lines, last.lineNumber);
    forall y
      ensures y in LinesIn(path, lines) <==> y in LinesIn(path, front) + {x}
      ensures y in LinesHitIn(path, lines) <==> y in LinesHitIn(path, front) + if last.hitCount > 0 then {x} else {}
    {
      ListsOneMore(lines, y.n);
    }
  }

  lemma {:induction false} LinesAreDistinct(path: Text, lines: seq<LineCoverage>)
    requires Ascending(lines)
    ensures |LinesIn(path, lines)| == |lines| && |LinesHitIn(path, lines)| == CoveredLines(lines)
  {
    hide LinesIn, LinesHitIn, ListsLine, ListsHit, Ascending;
    if lines != [] {
      LinesInOneMore(path, lines);
      LinesAreDistinct(path, lines[..|lines| - 1]);
    } else {
      NoLines(path);
    }
  }

  lemma NoLines(path: Text)
    ensures LinesIn(path, []) == {} && LinesHitIn(path, []) == {}
  {
  }

  lemma LinesInFile(f: FileCoverage, input: Input, x: FileLine)
    requires IsCoverageOf(f, input)
    ensures x in LinesIn(f.path, f.lines) <==> x.path == f.path && HasLine(input, x.path, x.n)
    ensures x in LinesHitIn(f.path, f.lines) <==> x.path == f.path && IsLineHit(input, x.path, x.n)
  {
    hide HasLine, IsLineHit, Branches, BranchesHit;
    HitLinesAreLines(input, x.path, x.n);
    if x.path == f.path {
      assert ListsLine(f.lines, x.n) <==> HasLine(input, x.path, x.n);
    }
  }

  ghost predicate LineFits(files: seq<FileCoverage>, input: Input, lines: set<FileLine>, hits: set<FileLine>, x: FileLine) {
    && (x in lines <==> HasPath(files, x.path) && HasLine(input, x.path, x.n))
    && (x in hits <==> HasPath(files, x.path) && IsLineHit(input, x.path, x.n))
  }

  /** The lines of the files so far as one set, and those hit. */
  ghost predicate CountedLines(files: seq<FileCoverage>, input: Input, lines: set<FileLine>, hits: set<FileLine>) {
    && (forall x :: LineFits(files, input, lines, hits, x))
    && |lines| == LinesTotal(files) && |hits| == LinesCovered(files)
  }

  /** The same for branches. */
  ghost predicate BranchFits(files: seq<FileCoverage>, input: Input, branches: set<Position>, taken: set<Position>, p: Position) {
    && (p in branches <==> IsPosition(input, p) && HasPath(files, PathOf(input.maps[p.classId])) && CountsAsBranch(EntryAt(input, p)))
    && (p in taken <==> p in branches && IsPosition(input, p) && IsHit(EntryAt(input, p), input.arrays[p.classId]))
  }

  ghost predicate CountedBranches(files: seq<FileCoverage>, input: Input, branches: set<Position>, taken: set<Position>) {
    && (forall p :: BranchFits(files, input, branches, taken, p))
    && |branches| == BranchesTotal(files) && |taken| == BranchesCovered(files)
  }

  lemma {:induction false} CountFiles(files: seq<FileCoverage>, input: Input)
    returns (lines: set<FileLine>, hits: set<FileLine>, branches: set<Position>, taken: set<Position>)
    requires InOrder(files) && forall f :: f in files ==> IsCoverageOf(f, input)
    ensures CountedLines(files, input, lines, hits) && CountedBranches(files, input, branches, taken)
  {
    if files == [] {
      lines, hits, branches, taken := {}, {}, {}, {};
    } else {
      hide IsCoverageOf, CountedLines, CountedBranches;
      var front, last := files[..|files| - 1], files[|files| - 1];
      lines, hits, branches, taken := CountFiles(front, input);
      assert files == front + [last];
      CountLinesOneMore(front, last, input, lines, hits);
      CountBranchesOneMore(front, last, input, branches, taken);
      lines, hits := lines + LinesIn(last.path, last.lines), hits + LinesHitIn(last.path, last.lines);
      branches, taken := branches + Branches(input, last.path), taken + BranchesHit(input, last.path);
    }
  }

  lemma PathIsNew(front: seq<FileCoverage>, last: FileCoverage)
    requires InOrder(front + [last])
    ensures !HasPath(front, last.path)
    ensures forall path :: HasPath(front + [last], path) <==> HasPath(front, path) || path == last.path
  {
    hide Before;
    var files := front + [last];
    if f :| f in front && f.path == last.path {
      var k :| 0 <= k < |front| && front[k] == f;
      assert files[k] == f && files[|front|] == last;
      BeforeIsIrreflexive(f.path);
    }
    forall path ensures HasPath(files, path) <==> HasPath(front, path) || path == last.path {
      if f :| f in front && f.path == path { assert f in files; }
      assert last in files;
    }
  }

  lemma TotalsOneMore(front: seq<FileCoverage>, last: FileCoverage)
    ensures LinesTotal(front + [last]) == LinesTotal(front) + |last.lines|
    ensures LinesCovered(front + [last]) == LinesCovered(front) + CoveredLines(last.lines)
    ensures BranchesTotal(front + [last]) == BranchesTotal(front) + last.branchesTotal
    ensures BranchesCovered(front + [last]) == BranchesCovered(front) + last.branchesCovered
  {
    assert (front + [last])[..|front|] == front;
  }

  lemma LineIsOfFile(front: seq<FileCoverage>, last: FileCoverage, input: Input, lines: set<FileLine>, hits: set<FileLine>, x: FileLine)
    requires InOrder(front + [last]) && IsCoverageOf(last, input) && LineFits(front, input, lines, hits, x)
    ensures
      var a, b := LinesIn(last.path, last.lines), LinesHitIn(last.path, last.lines);
      LineFits(front + [last], input, lines + a, hits + b, x) && !(x in lines && x in a) && !(x in hits && x in b)
  {
    hide LinesIn, LinesHitIn, HasLine, IsLineHit, HasPath, InOrder, ListsLine, ListsHit, IsCoverageOf;
    PathIsNew(front, last);
    LinesInFile(last, input, x);
  }

  lemma CountLinesOneMore(front: seq<FileCoverage>, last: FileCoverage, input: Input, lines: set<FileLine>, hits: set<FileLine>)
    requires InOrder(front + [last]) && IsCoverageOf(last, input) && CountedLines(front, input, lines, hits)
    ensures CountedLines(front + [last], input, lines + LinesIn(last.path, last.lines), hits + LinesHitIn(last.path, last.lines))
  {
    hide LinesIn, LinesHitIn, LineFits, InOrder, LinesTotal, LinesCovered, Ascending;
    var a, b := LinesIn(last.path, last.lines), LinesHitIn(last.path, last.lines);
    TotalsOneMore(front, last);
    LinesAreDistinct(last.path, last.lines);
    forall x
      ensures LineFits(front + [last], input, lines + a, hits + b, x)
      ensures !(x in lines && x in a) && !(x in hits && x in b)
    {
      LineIsOfFile(front, last, input, lines, hits, x);
    }
    assert lines !! a && hits !! b;
  }

  lemma BranchIsOfFile(front: seq<FileCoverage>, last: FileCoverage, input: Input, branches: set<Position>, taken: set<Position>, p: Position)
    requires InOrder(front + [last]) && BranchFits(front, input, branches, taken, p)
    ensures BranchFits(front + [last], input, branches + Branches(input, last.path), taken + BranchesHit(input, last.path), p)
    ensures !(p in branches && p in Branches(input, last.path)) && !(p in taken && p in BranchesHit(input, last.path))
  {
    hide Branches, HasPath, PathOf, CountsAsBranch, IsHit, InOrder, BranchesTotal, BranchesCovered;
    PathIsNew(front, last);
  }

  lemma CountBranchesOneMore(front: seq<FileCoverage>, last: FileCoverage, input: Input, branches: set<Position>, taken: set<Position>)
    requires InOrder(front + [last]) && IsCoverageOf(last, input) && CountedBranches(front, input, branches, taken)
    ensures CountedBranches(front + [last], input, branches + Branches(input, last.path), taken + BranchesHit(input, last.path))
  {
    hide Branches, BranchesHit, LinesAreOf, InOrder, BranchesTotal, BranchesCovered, BranchFits;
    var c, d := Branches(input, last.path), BranchesHit(input, last.path);
    TotalsOneMore(front, last);
    forall p
      ensures BranchFits(front + [last], input, branches + c, taken + d, p)
      ensures !(p in branches && p in c) && !(p in taken && p in d)
    {
      BranchIsOfFile(front, last, input, branches, taken, p);
    }
    assert branches !! c && taken !! d;
  }

  /** The summary counts the lines and branches of all measured classes, each once; covered is at most total. */
  lemma SummaryCounts(r: AnalysisResult, input: Input)
    requires IsAnalysisOf(r, input)
    ensures r.summary.linesTotal == |Lines(input)| && r.summary.linesCovered == |LinesHit(input)|
    ensures r.summary.branchesTotal == |AllBranches(input)| && r.summary.branchesCovered == |AllBranchesHit(input)|
    ensures r.summary.linesCovered <= r.summary.linesTotal && r.summary.branchesCovered <= r.summary.branchesTotal
  {
    hide IsCoverageOf, LinesTotal, LinesCovered, BranchesTotal, BranchesCovered, HasLine, IsLineHit, CountsAsBranch, IsHit, PathOf;
    var lines, hits, branches, taken := CountFiles(r.files, input);
    forall path, n | HasLine(input, path, n) ensures HasPath(r.files, path) {
      LineHasFile(input, path, n);
    }
    forall path, n { HitLinesAreLines(input, path, n); }
    forall p | IsPosition(input, p) ensures HasPath(r.files, PathOf(input.maps[p.classId])) {
      assert InFile(input, p.classId, PathOf(input.maps[p.classId]));
    }
    forall x ensures x in lines <==> x in Lines(input) ensures x in hits <==> x in LinesHit(input) {
      assert LineFits(r.files, input, lines, hits, x);
    }
    assert lines == Lines(input) && hits == LinesHit(input);
    forall p ensures p in branches <==> p in AllBranches(input) ensures p in taken <==> p in AllBranchesHit(input) {
      assert BranchFits(r.files, input, branches, taken, p);
    }
    assert branches == AllBranches(input) && taken == AllBranchesHit(input);
    SubsetIsSmaller(hits, lines);
    SubsetIsSmaller(taken, branches);
  }

  lemma LineHasFile(input: Input, path: Text, n: int)
    requires HasLine(input, path, n)
    ensures HasFile(input, path)
  {
    hide PathOf;
    var p :| IsOn(input, p, path, n);
    assert InFile(input, p.classId, path);
  }

  // ---- More hits ----

  /** The same maps, and data that only gained hits, elements and classes. */
  ghost predicate GainsOn(more: Input, input: Input) {
    && more.maps == input.maps
    && forall id :: id in input.arrays ==>
         && id in more.arrays && |input.arrays[id]| <= |more.arrays[id]|
         && forall i :: 0 <= i < |input.arrays[id]| && input.arrays[id][i] ==> more.arrays[id][i]
  }

  lemma HitsAreKept(more: Input, input: Input, path: Text, n: int)
    requires GainsOn(more, input)
    ensures IsLineHit(input, path, n) ==> IsLineHit(more, path, n)
  {
    hide PathOf;
    if p :| IsOn(input, p, path, n) && IsHit(EntryAt(input, p), input.arrays[p.classId]) {
      assert IsOn(more, p, path, n) && IsHit(EntryAt(more, p), more.arrays[p.classId]);
    }
  }

  /** No summary figure falls when hits are added. */
  lemma SummaryIsMonotone(r: AnalysisResult, input: Input, s: AnalysisResult, more: Input)
    requires IsAnalysisOf(r, input) && IsAnalysisOf(s, more) && GainsOn(more, input)
    ensures r.summary.linesCovered <= s.summary.linesCovered && r.summary.branchesCovered <= s.summary.branchesCovered
  {
    hide IsAnalysisOf, IsLineHit, PathOf, CountsAsBranch;
    SummaryCounts(r, input);
    SummaryCounts(s, more);
    forall x: FileLine { HitsAreKept(more, input, x.path, x.n); }
    SubsetIsSmaller(LinesHit(input), LinesHit(more));
    SubsetIsSmaller(AllBranchesHit(input), AllBranchesHit(more));
  }

  lemma FileIsMonotone(f: FileCoverage, input: Input, g: FileCoverage, more: Input)
    requires IsCoverageOf(f, input) && IsCoverageOf(g, more) && GainsOn(more, input) && f.path == g.path
    ensures CoveredLines(f.lines) <= CoveredLines(g.lines)
  {
    LinesAreDistinct(f.path, f.lines);
    LinesAreDistinct(g.path, g.lines);
    forall x | x in LinesHitIn(f.path, f.lines) ensures x in LinesHitIn(g.path, g.lines) {
      LinesInFile(f, input, x);
      LinesInFile(g, more, x);
      HitsAreKept(more, input, x.path, x.n);
    }
    SubsetIsSmaller(LinesHitIn(f.path, f.lines), LinesHitIn(g.path, g.lines));
  }

  lemma BranchesAreMonotone(input: Input, more: Input, path: Text)
    requires GainsOn(more, input)
    ensures |BranchesHit(input, path)| <= |BranchesHit(more, path)|
  {
    hide PathOf, CountsAsBranch, Branches;
    SubsetIsSmaller(BranchesHit(input, path), BranchesHit(more, path));
  }

  /** Nor does any figure of a file: it stays in the report and covers at least as much. */
  lemma FilesAreMonotone(r: AnalysisResult, input: Input, s: AnalysisResult, more: Input, f: FileCoverage)
    returns (g: FileCoverage)
    requires IsAnalysisOf(r, input) && IsAnalysisOf(s, more) && GainsOn(more, input) && f in r.files
    ensures g in s.files && g.path == f.path
    ensures CoveredLines(f.lines) <= CoveredLines(g.lines) && f.branchesCovered <= g.branchesCovered
  {
    hide LinesAreOf, HasFile, GainsOn, InOrder, Summarize;
    assert HasPath(r.files, f.path);
    FileIsKept(more, input, f.path);
    assert HasPath(s.files, f.path);
    g :| g in s.files && g.path == f.path;
    FileIsMonotone(f, input, g, more);
    BranchesAreMonotone(input, more, f.path);
  }

  lemma FileIsKept(more: Input, input: Input, path: Text)
    requires GainsOn(more, input)
    ensures HasFile(input, path) ==> HasFile(more, path)
  {
    hide PathOf;
    if id :| InFile(input, id, path) {
      assert InFile(more, id, path);
    }
  }

  // ---- Which file a class counts for ----

  lemma {:induction false} PackageIs(p: Text, s: Text)
    requires 0x2F !in s
    ensures PackageOf(p + [0x2F] + s) == p
  {
    var name := p + [0x2F] + s;
    if s == [] {
      assert name[..|name| - 1] == p;
    } else {
      assert name[|name| - 1] == s[|s| - 1] && name[..|name| - 1] == p + [0x2F] + s[..|s| - 1];
      PackageIs(p, s[..|s| - 1]);
    }
  }

  lemma {:induction false} NoPackage(s: Text)
    requires 0x2F !in s
    ensures PackageOf(s) == []
  {
    if s != [] {
      NoPackage(s[..|s| - 1]);
    }
  }

  lemma {:induction false} OuterName(a: Text, b: Text)
    requires 0x24 !in a
    ensures BeforeDollar(a) == a && BeforeDollar(a + [0x24] + b) == a
  {
    if a != [] {
      OuterName(a[1..], b);
      assert (a + [0x24] + b)[1..] == a[1..] + [0x24] + b && a == [a[0]] + a[1..];
    }
  }

  /** With a source file: that name in the class's package. */
  lemma PathWithSource(c: ClassMap, p: Text, s: Text, f: Text)
    requires p != [] && 0x2F !in s && c.className == p + [0x2F] + s && c.sourceFile == Some(f)
    ensures PathOf(c) == p + [0x2F] + f
  {
    PackageIs(p, s);
  }

  /** Without a package: that name alone, also where only a slash stands before the class's. */
  lemma PathWithoutPackage(c: ClassMap, s: Text, f: Text)
    requires 0x2F !in s && (c.className == s || c.className == [0x2F] + s) && c.sourceFile == Some(f)
    ensures PathOf(c) == f
  {
    NoPackage(s);
    PackageIs([], s);
    assert [] + [0x2F] + s == [0x2F] + s;
  }

  /** Without a source file: the outermost class's name with `.kt`. */
  lemma PathWithoutSource(c: ClassMap, a: Text, b: Text)
    requires 0x24 !in a && (c.className == a || c.className == a + [0x24] + b) && c.sourceFile == None
    ensures PathOf(c) == a + [0x2E, 0x6B, 0x74]
  {
    OuterName(a, b);
  }

  /** A measured class has a file in the report: under its package and source file, or under its outermost class. */
  lemma ClassHasFile(r: AnalysisResult, input: Input, id: int, p: Text, s: Text, f: Text)
    requires IsAnalysisOf(r, input) && id in input.maps && id in input.arrays
    ensures p != [] && 0x2F !in s && input.maps[id].className == p + [0x2F] + s && input.maps[id].sourceFile == Some(f) ==>
      HasPath(r.files, p + [0x2F] + f)
    ensures 0x2F !in s && input.maps[id].className == s && input.maps[id].sourceFile == Some(f) ==> HasPath(r.files, f)
    ensures 0x24 !in p && input.maps[id].className in {p, p + [0x24] + s} && input.maps[id].sourceFile == None ==>
      HasPath(r.files, p + [0x2E, 0x6B, 0x74])
  {
    hide PathOf, IsCoverageOf, InOrder, Summarize;
    var c := input.maps[id];
    assert InFile(input, id, PathOf(c));
    if p != [] && 0x2F !in s && c.className == p + [0x2F] + s && c.sourceFile == Some(f) {
      PathWithSource(c, p, s, f);
    }
    if 0x2F !in s && c.className == s && c.sourceFile == Some(f) {
      PathWithoutPackage(c, s, f);
    }
    if 0x24 !in p && c.className in {p, p + [0x24] + s} && c.sourceFile == None {
      PathWithoutSource(c, p, s);
    }
  }

  // ---- Figures ----

  /** What an entry counts for: a probe inside the array that is set is hit, and a branch probe on a positive line is a branch. */
  lemma EntryCounts(e: ProbeEntry, probes: seq<bool>)
    ensures IsHit(e, probes) <==> exists i :: 0 <= i < |probes| && i == e.probeIndex && probes[i]
    ensures CountsAsBranch(e) <==> e.kind == BRANCH && e.lineNumber > 0
  {
  }

  /** The rates of a file times its totals are what is covered, and zero where there is nothing to cover. */
  lemma RatesAre(r: AnalysisResult, input: Input, f: FileCoverage)
    requires IsAnalysisOf(r, input) && f in r.files
    ensures f.lineRate * |f.lines| as real == |HitPositions(f.lines)| as real && (f.lines == [] ==> f.lineRate == 0.0)
    ensures f.branchesTotal > 0 ==> f.branchRate * f.branchesTotal as real == f.branchesCovered as real
    ensures f.branchesTotal == 0 ==> f.branchRate == 0.0
  {
    hide LinesAreOf, InOrder, HasFile, Summarize, Rate, CoveredLines, HitPositions;
    LineRateIs(f.lineRate, f.lines);
    RateIs(f.branchesCovered, f.branchesTotal);
  }

  /** So are those of the summary. */
  lemma SummaryRatesAre(r: AnalysisResult, input: Input)
    requires IsAnalysisOf(r, input)
    ensures
      var s := r.summary;
      && (s.linesTotal > 0 ==> s.lineRate * s.linesTotal as real == s.linesCovered as real)
      && (s.branchesTotal > 0 ==> s.branchRate * s.branchesTotal as real == s.branchesCovered as real)
      && (s.linesTotal == 0 ==> s.lineRate == 0.0) && (s.branchesTotal == 0 ==> s.branchRate == 0.0)
  {
    hide FilesAreOf, LinesTotal, LinesCovered, BranchesTotal, BranchesCovered, Rate;
    RateIs(r.summary.linesCovered, r.summary.linesTotal);
    RateIs(r.summary.branchesCovered, r.summary.branchesTotal);
  }
}
