/** From joined data to coverage figures (reporter/CoverageAnalyzer.kt). */
module Analyzer {
  import opened CoverageLines
  import opened ByteStream
  import opened ExecutionStore
  import opened ExecutionMerge
  import opened ProbeMap
  import opened ProbeMerge
  import opened ReportTask
  import opened Sets
  import opened Text
  import opened Wrappers
  import Exec = ExecutionFile
  import Maps = ProbeFile

  // ---- File paths ----

  const DOLLAR: CodeUnit := 0x24
  const KT: Text := [0x2E, 0x6B, 0x74]

  /** What comes before the last slash, nothing when there is none. */
  function PackageOf(className: Text): Text {
    if className == [] then []
    else if className[|className| - 1] == SLASH then className[..|className| - 1]
    else PackageOf(className[..|className| - 1])
  }

  function BeforeDollar(className: Text): Text {
    if className == [] || className[0] == DOLLAR then [] else [className[0]] + BeforeDollar(className[1..])
  }

  function PathOf(c: ClassMap): Text {
    if c.sourceFile.Some? then
      if PackageOf(c.className) == [] then c.sourceFile.value else PackageOf(c.className) + [SLASH] + c.sourceFile.value
    else BeforeDollar(c.className) + KT
  }

  // ---- Results ----

  datatype FileCoverage = FileCoverage(
    path: Text, lineRate: real, branchRate: real, lines: seq<LineCoverage>, branchesCovered: nat, branchesTotal: nat)

  datatype CoverageSummary = CoverageSummary(
    lineRate: real, branchRate: real, linesCovered: nat, linesTotal: nat, branchesCovered: nat, branchesTotal: nat)

  datatype AnalysisResult = AnalysisResult(files: seq<FileCoverage>, summary: CoverageSummary)

  // ---- The definition by sets ----

  /** The joined data: probe maps and probe arrays by class id. */
  datatype Input = Input(maps: ClassMaps, arrays: Arrays)

  /** A class that has both a map and data: the others contribute nothing. */
  predicate IsMeasured(input: Input, id: int) {
    id in input.maps && id in input.arrays
  }

  predicate InFile(input: Input, id: int, path: Text) {
    IsMeasured(input, id) && PathOf(input.maps[id]) == path
  }

  /** Entry `k` of a measured class. */
  datatype Position = Position(classId: int, k: nat)

  predicate IsPosition(input: Input, p: Position) {
    IsMeasured(input, p.classId) && p.k < |input.maps[p.classId].probes|
  }

  function EntryAt(input: Input, p: Position): ProbeEntry
    requires IsPosition(input, p)
  {
    input.maps[p.classId].probes[p.k]
  }

  predicate IsHit(e: ProbeEntry, probes: seq<bool>) {
    0 <= e.probeIndex < |probes| && probes[e.probeIndex]
  }

  /** Entry `p` is on line `n` of the file. */
  predicate IsOn(input: Input, p: Position, path: Text, n: int) {
    IsPosition(input, p) && InFile(input, p.classId, path) && n > 0 && EntryAt(input, p).lineNumber == n
  }

  ghost predicate HasLine(input: Input, path: Text, n: int) {
    exists p :: IsOn(input, p, path, n)
  }

  ghost predicate IsLineHit(input: Input, path: Text, n: int) {
    exists p :: IsOn(input, p, path, n) && IsHit(EntryAt(input, p), input.arrays[p.classId])
  }

  predicate CountsAsBranch(e: ProbeEntry) {
    e.kind == BRANCH && e.lineNumber > 0
  }

  function Branches(input: Input, path: Text): (s: set<Position>)
    ensures forall p :: p in s <==> IsPosition(input, p) && InFile(input, p.classId, path) && CountsAsBranch(EntryAt(input, p))
  {
    set id, k | id in input.maps && 0 <= k < |input.maps[id].probes| && InFile(input, id, path)
      && CountsAsBranch(input.maps[id].probes[k]) :: Position(id, k)
  }

  function BranchesHit(input: Input, path: Text): set<Position> {
    set p | p in Branches(input, path) && IsHit(EntryAt(input, p), input.arrays[p.classId])
  }

  ghost predicate LinesAreOf(lines: seq<LineCoverage>, input: Input, path: Text) {
    && Ascending(lines)
    && (forall n :: ListsLine(lines, n) <==> HasLine(input, path, n))
    && (forall l :: l in lines ==> l.hitCount == if IsLineHit(input, path, l.lineNumber) then 1 else 0)
  }

  /** The distinct positive lines in ascending order, hit when some probe on them is, and the tally of the branches. */
  ghost predicate IsCoverageOf(f: FileCoverage, input: Input) {
    && LinesAreOf(f.lines, input, f.path)
    && f.branchesTotal == |Branches(input, f.path)|
    && f.branchesCovered == |BranchesHit(input, f.path)|
    && f.lineRate == Rate(CoveredLines(f.lines), |f.lines|)
    && f.branchRate == Rate(f.branchesCovered, f.branchesTotal)
  }

  ghost predicate HasFile(input: Input, path: Text) {
    exists id :: InFile(input, id, path)
  }

  ghost predicate HasPath(files: seq<FileCoverage>, path: Text) {
    exists f :: f in files && f.path == path
  }

  ghost predicate InOrder(files: seq<FileCoverage>) {
    forall i, j :: 0 <= i < j < |files| ==> Before(files[i].path, files[j].path)
  }

  ghost predicate FilesAreOf(files: seq<FileCoverage>, input: Input) {
    && InOrder(files)
    && (forall path :: HasPath(files, path) <==> HasFile(input, path))
    && (forall f :: f in files ==> IsCoverageOf(f, input))
  }

  function LinesTotal(files: seq<FileCoverage>): nat {
    if files == [] then 0 else LinesTotal(files[..|files| - 1]) + |files[|files| - 1].lines|
  }

  function LinesCovered(files: seq<FileCoverage>): nat {
    if files == [] then 0 else LinesCovered(files[..|files| - 1]) + CoveredLines(files[|files| - 1].lines)
  }

  function BranchesTotal(files: seq<FileCoverage>): nat {
    if files == [] then 0 else BranchesTotal(files[..|files| - 1]) + files[|files| - 1].branchesTotal
  }

  function BranchesCovered(files: seq<FileCoverage>): nat {
    if files == [] then 0 else BranchesCovered(files[..|files| - 1]) + files[|files| - 1].branchesCovered
  }

  function Summarize(files: seq<FileCoverage>): CoverageSummary {
    var lc, lt, bc, bt := LinesCovered(files), LinesTotal(files), BranchesCovered(files), BranchesTotal(files);
    CoverageSummary(Rate(lc, lt), Rate(bc, bt), lc, lt, bc, bt)
  }

  ghost predicate IsAnalysisOf(r: AnalysisResult, input: Input) {
    FilesAreOf(r.files, input) && r.summary == Summarize(r.files)
  }

  /** A positive line with a negative index makes the array access throw. */
  ghost predicate Throws(input: Input) {
    exists p :: IsPosition(input, p) && EntryAt(input, p).lineNumber > 0 && EntryAt(input, p).probeIndex < 0
  }

  // ---- The accumulating loops ----

  datatype Tally = Tally(covered: nat, total: nat)

  type LineHits = map<int, nat>

  ghost predicate LineIn(es: seq<ProbeEntry>, n: int) {
    exists k :: 0 <= k < |es| && es[k].lineNumber == n
  }

  ghost predicate LineHitIn(es: seq<ProbeEntry>, probes: seq<bool>, n: int) {
    exists k :: 0 <= k < |es| && es[k].lineNumber == n && IsHit(es[k], probes)
  }

  function CountBranches(es: seq<ProbeEntry>): nat {
    if es == [] then 0 else CountBranches(es[..|es| - 1]) + if CountsAsBranch(es[|es| - 1]) then 1 else 0
  }

  function CountHits(es: seq<ProbeEntry>, probes: seq<bool>): nat {
    if es == [] then 0
    else CountHits(es[..|es| - 1], probes) + if CountsAsBranch(es[|es| - 1]) && IsHit(es[|es| - 1], probes) then 1 else 0
  }

  ghost predicate IsFlag(lines: LineHits) {
    forall n :: n in lines ==> lines[n] <= 1
  }

  /** The lines of a file after the entries `es` of one more class. */
  ghost predicate Marked(lines': LineHits, lines: LineHits, es: seq<ProbeEntry>, probes: seq<bool>) {
    && (forall n :: n in lines' <==> n in lines || (n > 0 && LineIn(es, n)))
    && (forall n :: n in lines' ==> (lines'[n] == if (n in lines && lines[n] > 0) || (n > 0 && LineHitIn(es, probes, n)) then 1 else 0))
  }

  lemma LineInOneMore(es: seq<ProbeEntry>, probes: seq<bool>, k: nat, n: int)
    requires k < |es|
    ensures LineIn(es[..k + 1], n) <==> LineIn(es[..k], n) || es[k].lineNumber == n
    ensures LineHitIn(es[..k + 1], probes, n) <==> LineHitIn(es[..k], probes, n) || (es[k].lineNumber == n && IsHit(es[k], probes))
    ensures LineHitIn(es[..k], probes, n) ==> LineIn(es[..k], n)
  {
    var a, b := es[..k], es[..k + 1];
    assert b[k] == es[k];
    if j :| 0 <= j < |a| && a[j].lineNumber == n { assert b[j].lineNumber == n; }
    if j :| 0 <= j < |a| && a[j].lineNumber == n && IsHit(a[j], probes) { assert b[j] == a[j]; }
    if j :| 0 <= j < |b| && b[j].lineNumber == n { assert j < k ==> a[j].lineNumber == n; }
    if j :| 0 <= j < |b| && b[j].lineNumber == n && IsHit(b[j], probes) { assert j < k ==> a[j] == b[j]; }
  }

  lemma CountsOneMore(es: seq<ProbeEntry>, probes: seq<bool>, k: nat)
    requires k < |es|
    ensures CountBranches(es[..k + 1]) == CountBranches(es[..k]) + if CountsAsBranch(es[k]) then 1 else 0
    ensures CountHits(es[..k + 1], probes) == CountHits(es[..k], probes) + if CountsAsBranch(es[k]) && IsHit(es[k], probes) then 1 else 0
  {
    assert es[..k + 1][..k] == es[..k];
  }

  ghost predicate NegativeIn(es: seq<ProbeEntry>) {
    exists k :: 0 <= k < |es| && es[k].lineNumber > 0 && es[k].probeIndex < 0
  }

  /** One entry of a class: what its line and the file's tally become. */
  method TakeEntry(lines: LineHits, tally: Tally, e: ProbeEntry, isHit: bool) returns (lines': LineHits, tally': Tally)
    requires e.lineNumber > 0 && IsFlag(lines)
    ensures lines' == lines[e.lineNumber := if isHit || (e.lineNumber in lines && lines[e.lineNumber] > 0) then 1 else 0]
    ensures tally' == if e.kind == BRANCH then Tally(tally.covered + (if isHit then 1 else 0), tally.total + 1) else tally
  {
    lines', tally' := lines, tally;
    match e.kind
    case LINE =>
      if e.lineNumber !in lines {
        lines' := lines[e.lineNumber := if isHit then 1 else 0];
      } else if isHit && lines[e.lineNumber] == 0 {
        lines' := lines[e.lineNumber := 1];
      }
    case BRANCH =>
      tally' := Tally(tally.covered + (if isHit then 1 else 0), tally.total + 1);
      var existing := if e.lineNumber in lines then lines[e.lineNumber] else 0;
      lines' := lines[e.lineNumber := if isHit && existing == 0 then 1 else existing];
  }

  lemma MarkedOneMore(now: LineHits, lines: LineHits, es: seq<ProbeEntry>, probes: seq<bool>, k: nat)
    requires k < |es| && Marked(now, lines, es[..k], probes)
    ensures
      var e, n := es[k], es[k].lineNumber;
      Marked(if n > 0 then now[n := if IsHit(e, probes) || (n in now && now[n] > 0) then 1 else 0] else now, lines, es[..k + 1], probes)
  {
    hide LineIn, LineHitIn;
    forall n { LineInOneMore(es, probes, k, n); }
  }

  /** The loop over the entries of one class. */
  method TakeEntries(es: seq<ProbeEntry>, probes: array<bool>, lines: LineHits, tally: Tally)
    returns (ok: bool, lines': LineHits, tally': Tally)
    requires IsFlag(lines)
    ensures ok <==> !NegativeIn(es)
    ensures ok ==> Marked(lines', lines, es, probes[..])
    ensures ok ==> tally' == Tally(tally.covered + CountHits(es, probes[..]), tally.total + CountBranches(es))
  {
    hide LineIn, LineHitIn, CountHits, CountBranches;
    lines', tally' := lines, tally;
    MarkedStart(lines, es, probes[..]);
    for k := 0 to |es|
      invariant !NegativeIn(es[..k])
      invariant IsFlag(lines') && Marked(lines', lines, es[..k], probes[..])
      invariant tally' == Tally(tally.covered + CountHits(es[..k], probes[..]), tally.total + CountBranches(es[..k]))
    {
      var e := es[k];
      CountsOneMore(es, probes[..], k);
      MarkedOneMore(lines', lines, es, probes[..], k);
      assert es[..k + 1][k] == e;
      if e.lineNumber > 0 {
        if e.probeIndex < 0 {
          return false, lines', tally';
        }
        var isHit := e.probeIndex < probes.Length && probes[e.probeIndex];
        lines', tally' := TakeEntry(lines', tally', e, isHit);
      }
    }
    assert es[..|es|] == es;
    ok := true;
  }

  lemma MarkedStart(lines: LineHits, es: seq<ProbeEntry>, probes: seq<bool>)
    requires IsFlag(lines)
    ensures Marked(lines, lines, es[..0], probes) && CountHits(es[..0], probes) == 0 && CountBranches(es[..0]) == 0
  {
  }

  // ---- One more class ----

  function WithClass(input: Input, c: ClassMap): Input {
    input.(maps := input.maps[c.classId := c])
  }

  predicate AddsTo(input: Input, c: ClassMap, path: Text) {
    c.classId in input.arrays && PathOf(c) == path
  }

  lemma InFileOneMore(input: Input, c: ClassMap, id: int, path: Text)
    requires c.classId !in input.maps
    ensures InFile(WithClass(input, c), id, path) <==> InFile(input, id, path) || (id == c.classId && AddsTo(input, c, path))
  {
  }

  lemma IsOnOneMore(input: Input, c: ClassMap, p: Position, path: Text, n: int)
    requires c.classId !in input.maps
    ensures p.classId != c.classId ==> (IsOn(WithClass(input, c), p, path, n) <==> IsOn(input, p, path, n))
    ensures p.classId == c.classId ==>
      (IsOn(WithClass(input, c), p, path, n)
       <==> AddsTo(input, c, path) && n > 0 && p.k < |c.probes| && c.probes[p.k].lineNumber == n)
    ensures IsPosition(input, p) ==> p.classId != c.classId && EntryAt(WithClass(input, c), p) == EntryAt(input, p)
  {
    hide PathOf;
  }

  lemma HitOneMore(input: Input, c: ClassMap, path: Text, n: int)
    requires c.classId !in input.maps && n > 0 && AddsTo(input, c, path)
    ensures LineIn(c.probes, n) ==> HasLine(WithClass(input, c), path, n)
    ensures LineHitIn(c.probes, input.arrays[c.classId], n) ==> IsLineHit(WithClass(input, c), path, n)
  {
    hide IsHit, PathOf;
    var with := WithClass(input, c);
    if k :| 0 <= k < |c.probes| && c.probes[k].lineNumber == n {
      assert IsOn(with, Position(c.classId, k), path, n);
    }
    if k :| 0 <= k < |c.probes| && c.probes[k].lineNumber == n && IsHit(c.probes[k], input.arrays[c.classId]) {
      var p := Position(c.classId, k);
      assert IsOn(with, p, path, n) && EntryAt(with, p) == c.probes[k];
    }
  }

  lemma LinesOneMore(input: Input, c: ClassMap, path: Text, n: int)
    requires c.classId !in input.maps
    ensures HasLine(WithClass(input, c), path, n)
       <==> HasLine(input, path, n) || (AddsTo(input, c, path) && n > 0 && LineIn(c.probes, n))
    ensures IsLineHit(WithClass(input, c), path, n)
       <==> IsLineHit(input, path, n) || (AddsTo(input, c, path) && n > 0 && LineHitIn(c.probes, input.arrays[c.classId], n))
  {
    hide IsHit, PathOf;
    var with := WithClass(input, c);
    forall p ensures IsOn(input, p, path, n) ==> IsOn(with, p, path, n) {
      IsOnOneMore(input, c, p, path, n);
    }
    if p :| IsOn(with, p, path, n) { IsOnOneMore(input, c, p, path, n); }
    if p :| IsOn(with, p, path, n) && IsHit(EntryAt(with, p), with.arrays[p.classId]) { IsOnOneMore(input, c, p, path, n); }
    if p :| IsOn(input, p, path, n) && IsHit(EntryAt(input, p), input.arrays[p.classId]) { IsOnOneMore(input, c, p, path, n); }
    if AddsTo(input, c, path) && n > 0 {
      HitOneMore(input, c, path, n);
    }
  }

  function BranchesOf(id: int, es: seq<ProbeEntry>): (s: set<Position>)
    ensures forall p :: p in s <==> p.classId == id && p.k < |es| && CountsAsBranch(es[p.k])
  {
    set k | 0 <= k < |es| && CountsAsBranch(es[k]) :: Position(id, k)
  }

  function HitsOf(id: int, es: seq<ProbeEntry>, probes: seq<bool>): set<Position> {
    set p | p in BranchesOf(id, es) && IsHit(es[p.k], probes)
  }

  lemma BranchOfOneMore(id: int, es: seq<ProbeEntry>, probes: seq<bool>, p: Position)
    requires es != []
    ensures
      var front, last, q := es[..|es| - 1], es[|es| - 1], Position(id, |es| - 1);
      && (p in BranchesOf(id, es) <==> p in BranchesOf(id, front) + if CountsAsBranch(last) then {q} else {})
      && (p in HitsOf(id, es, probes) <==> p in HitsOf(id, front, probes) + if CountsAsBranch(last) && IsHit(last, probes) then {q} else {})
      && (p in BranchesOf(id, front) || p in HitsOf(id, front, probes) ==> p != q)
  {
    hide CountsAsBranch, IsHit, BranchesOf;
  }

  lemma {:induction false} CountsAreSizes(id: int, es: seq<ProbeEntry>, probes: seq<bool>)
    ensures |BranchesOf(id, es)| == CountBranches(es)
    ensures |HitsOf(id, es, probes)| == CountHits(es, probes)
  {
    hide CountsAsBranch, IsHit;
    if es != [] {
      hide BranchesOf, HitsOf;
      var front, last := es[..|es| - 1], es[|es| - 1];
      var q := Position(id, |front|);
      CountsAreSizes(id, front, probes);
      forall p { BranchOfOneMore(id, es, probes, p); }
      UnionCounts(BranchesOf(id, es), BranchesOf(id, front), if CountsAsBranch(last) then {q} else {});
      UnionCounts(HitsOf(id, es, probes), HitsOf(id, front, probes), if CountsAsBranch(last) && IsHit(last, probes) then {q} else {});
    }
  }

  lemma BranchOneMore(input: Input, c: ClassMap, path: Text, p: Position)
    requires c.classId !in input.maps
    ensures p in Branches(WithClass(input, c), path)
       <==> p in Branches(input, path) || (AddsTo(input, c, path) && p in BranchesOf(c.classId, c.probes))
    ensures p in BranchesHit(WithClass(input, c), path)
       <==> p in BranchesHit(input, path) || (AddsTo(input, c, path) && p in HitsOf(c.classId, c.probes, input.arrays[c.classId]))
    ensures p in Branches(input, path) ==> p.classId != c.classId
  {
    hide CountsAsBranch, IsHit, PathOf, Branches, BranchesOf;
  }

  lemma BranchesOneMore(input: Input, c: ClassMap, path: Text)
    requires c.classId !in input.maps
    ensures |Branches(WithClass(input, c), path)|
         == |Branches(input, path)| + if AddsTo(input, c, path) then CountBranches(c.probes) else 0
    ensures |BranchesHit(WithClass(input, c), path)|
         == |BranchesHit(input, path)| + if AddsTo(input, c, path) then CountHits(c.probes, input.arrays[c.classId]) else 0
  {
    var adds := AddsTo(input, c, path);
    var probes := if adds then input.arrays[c.classId] else [];
    var a, b := Branches(input, path), if adds then BranchesOf(c.classId, c.probes) else {};
    var h, i := BranchesHit(input, path), if adds then HitsOf(c.classId, c.probes, probes) else {};
    forall p
      ensures p in Branches(WithClass(input, c), path) <==> p in a + b
      ensures p in BranchesHit(WithClass(input, c), path) <==> p in h + i
      ensures !(p in a && p in b) && !(p in h && p in i)
    {
      BranchOneMore(input, c, path, p);
      HitsAreBranches(c.classId, c.probes, probes);
    }
    hide Branches, BranchesHit, BranchesOf, HitsOf, AddsTo, CountBranches, CountHits, WithClass;
    CountsAreSizes(c.classId, c.probes, probes);
    UnionCounts(Branches(WithClass(input, c), path), a, b);
    UnionCounts(BranchesHit(WithClass(input, c), path), h, i);
  }

  lemma HitsAreBranches(id: int, es: seq<ProbeEntry>, probes: seq<bool>)
    ensures forall p :: p in HitsOf(id, es, probes) ==> p.classId == id
  {
  }

  // ---- The outer loop ----

  type FileLines = map<Text, LineHits>
  type Tallies = map<Text, Tally>

  function LinesOf(fileLines: FileLines, path: Text): LineHits {
    if path in fileLines then fileLines[path] else map[]
  }

  function TallyOf(tallies: Tallies, path: Text): Tally {
    if path in tallies then tallies[path] else Tally(0, 0)
  }

  ghost predicate IsTallied(lines: LineHits, tally: Tally, input: Input, path: Text) {
    && (forall n :: n in lines <==> HasLine(input, path, n))
    && (forall n :: n in lines ==> lines[n] == if IsLineHit(input, path, n) then 1 else 0)
    && tally == Tally(|BranchesHit(input, path)|, |Branches(input, path)|)
  }

  ghost predicate Tallied(fileLines: FileLines, tallies: Tallies, input: Input) {
    && fileLines.Keys == tallies.Keys
    && (forall path :: path in fileLines <==> HasFile(input, path))
    && (forall path :: IsTallied(LinesOf(fileLines, path), TallyOf(tallies, path), input, path))
  }

  lemma TalliedOneMore(lines: LineHits, tally: Tally, lines': LineHits, tally': Tally, input: Input, c: ClassMap, path: Text)
    requires c.classId !in input.maps && IsTallied(lines, tally, input, path)
    requires if AddsTo(input, c, path) then
               && Marked(lines', lines, c.probes, input.arrays[c.classId])
               && tally' == Tally(tally.covered + CountHits(c.probes, input.arrays[c.classId]), tally.total + CountBranches(c.probes))
             else lines' == lines && tally' == tally
    ensures IsTallied(lines', tally', WithClass(input, c), path)
  {
    hide HasLine, IsLineHit, LineIn, LineHitIn, Branches, BranchesHit, CountHits, CountBranches, WithClass;
    BranchesOneMore(input, c, path);
    forall n
      ensures n in lines' <==> HasLine(WithClass(input, c), path, n)
      ensures n in lines' ==> lines'[n] == if IsLineHit(WithClass(input, c), path, n) then 1 else 0
    {
      LinesOneMore(input, c, path, n);
      HitLinesAreLines(input, path, n);
    }
  }

  lemma HitLinesAreLines(input: Input, path: Text, n: int)
    ensures IsLineHit(input, path, n) ==> HasLine(input, path, n)
  {
  }

  lemma HasFileOneMore(input: Input, c: ClassMap, path: Text)
    requires c.classId !in input.maps
    ensures HasFile(WithClass(input, c), path) <==> HasFile(input, path) || AddsTo(input, c, path)
  {
    hide PathOf;
    if id :| InFile(input, id, path) { InFileOneMore(input, c, id, path); }
    if id :| InFile(WithClass(input, c), id, path) { InFileOneMore(input, c, id, path); }
    InFileOneMore(input, c, c.classId, path);
  }

  lemma StepOfTally(fileLines: FileLines, tallies: Tallies, input: Input, c: ClassMap, lines': LineHits, tally': Tally)
    requires c.classId !in input.maps && Tallied(fileLines, tallies, input)
    requires AddsTo(input, c, PathOf(c))
    requires Marked(lines', LinesOf(fileLines, PathOf(c)), c.probes, input.arrays[c.classId])
    requires var tally := TallyOf(tallies, PathOf(c));
             tally' == Tally(tally.covered + CountHits(c.probes, input.arrays[c.classId]), tally.total + CountBranches(c.probes))
    ensures Tallied(fileLines[PathOf(c) := lines'], tallies[PathOf(c) := tally'], WithClass(input, c))
  {
    hide PathOf, IsTallied, HasFile, Marked, CountHits, CountBranches, WithClass;
    var fl, ts := fileLines[PathOf(c) := lines'], tallies[PathOf(c) := tally'];
    forall path ensures IsTallied(LinesOf(fl, path), TallyOf(ts, path), WithClass(input, c), path) {
      TalliedOneMore(LinesOf(fileLines, path), TallyOf(tallies, path), LinesOf(fl, path), TallyOf(ts, path), input, c, path);
    }
    forall path ensures path in fl <==> HasFile(WithClass(input, c), path) {
      HasFileOneMore(input, c, path);
    }
  }

  lemma StepWithoutData(fileLines: FileLines, tallies: Tallies, input: Input, c: ClassMap)
    requires c.classId !in input.maps && c.classId !in input.arrays && Tallied(fileLines, tallies, input)
    ensures Tallied(fileLines, tallies, WithClass(input, c))
  {
    hide PathOf, IsTallied, HasFile, WithClass, Marked, CountHits, CountBranches;
    forall path ensures IsTallied(LinesOf(fileLines, path), TallyOf(tallies, path), WithClass(input, c), path) {
      TalliedOneMore(LinesOf(fileLines, path), TallyOf(tallies, path), LinesOf(fileLines, path), TallyOf(tallies, path), input, c, path);
    }
    forall path ensures path in fileLines <==> HasFile(WithClass(input, c), path) {
      HasFileOneMore(input, c, path);
    }
  }

  lemma ThrowsOneMore(input: Input, c: ClassMap)
    requires c.classId !in input.maps
    ensures Throws(WithClass(input, c)) <==> Throws(input) || (c.classId in input.arrays && NegativeIn(c.probes))
  {
    var with := WithClass(input, c);
    if p :| IsPosition(input, p) && EntryAt(input, p).lineNumber > 0 && EntryAt(input, p).probeIndex < 0 {
      assert IsPosition(with, p) && EntryAt(with, p) == EntryAt(input, p);
    }
    if p :| IsPosition(with, p) && EntryAt(with, p).lineNumber > 0 && EntryAt(with, p).probeIndex < 0 {
      assert p.classId != c.classId ==> IsPosition(input, p) && EntryAt(with, p) == EntryAt(input, p);
    }
    if c.classId in input.arrays && NegativeIn(c.probes) {
      var k :| 0 <= k < |c.probes| && c.probes[k].lineNumber > 0 && c.probes[k].probeIndex < 0;
      var p := Position(c.classId, k);
      assert IsPosition(with, p) && EntryAt(with, p) == c.probes[k];
    }
  }

  // ---- Sorting ----

  function InsertFile(fs: seq<FileCoverage>, f: FileCoverage): seq<FileCoverage> {
    if fs == [] || Before(f.path, fs[0].path) then [f] + fs else [fs[0]] + InsertFile(fs[1..], f)
  }

  lemma {:induction false} InsertFileKeeps(fs: seq<FileCoverage>, f: FileCoverage)
    requires InOrder(fs) && !HasPath(fs, f.path)
    ensures InOrder(InsertFile(fs, f)) && forall x :: x in InsertFile(fs, f) <==> x in fs || x == f
  {
    hide Before;
    if fs != [] {
      assert fs[0] in fs && forall x :: x in fs <==> x == fs[0] || x in fs[1..];
      assert fs[0].path != f.path;
      BeforeIsTotal(f.path, fs[0].path);
      forall x | x in fs[1..] ensures Before(fs[0].path, x.path) && x in fs {
        var k :| 0 <= k < |fs| - 1 && fs[1..][k] == x;
        assert fs[k + 1] == x;
      }
      if Before(f.path, fs[0].path) {
        forall j | 1 <= j < |fs| ensures Before(f.path, fs[j].path) {
          BeforeIsTransitive(f.path, fs[0].path, fs[j].path);
        }
      } else {
        assert InOrder(fs[1..]) && !HasPath(fs[1..], f.path);
        InsertFileKeeps(fs[1..], f);
        var rest := InsertFile(fs[1..], f);
        forall j | 0 <= j < |rest| ensures Before(fs[0].path, rest[j].path) {
          assert rest[j] in rest;
        }
      }
    }
  }

  method BuildFile(path: Text, lines: LineHits, tally: Tally, ghost input: Input) returns (f: FileCoverage)
    requires IsTallied(lines, tally, input, path)
    ensures f.path == path && IsCoverageOf(f, input)
  {
    hide HasLine, IsLineHit, Branches, BranchesHit;
    var ls := SortLines(lines);
    forall n ensures ListsLine(ls, n) <==> n in lines {
      if n in lines { assert LineCoverage(n, lines[n]) in ls; }
    }
    f := FileCoverage(path, Rate(CoveredLines(ls), |ls|), Rate(tally.covered, tally.total), ls, tally.covered, tally.total);
  }

  method BuildFiles(fileLines: FileLines, tallies: Tallies, ghost input: Input) returns (files: seq<FileCoverage>)
    requires Tallied(fileLines, tallies, input)
    ensures FilesAreOf(files, input)
  {
    hide IsTallied, IsCoverageOf, HasFile;
    files := [];
    var todo := fileLines.Keys;
    while todo != {}
      invariant todo <= fileLines.Keys && InOrder(files)
      invariant forall path :: HasPath(files, path) <==> path in fileLines && path !in todo
      invariant forall f :: f in files ==> IsCoverageOf(f, input)
      decreases |todo|
    {
      ghost var _ := ElementOf(todo);
      var path :| path in todo;
      assert IsTallied(LinesOf(fileLines, path), TallyOf(tallies, path), input, path);
      var f := BuildFile(path, fileLines[path], tallies[path], input);
      InsertFileKeeps(files, f);
      PathsAfterInsert(files, f);
      files := InsertFile(files, f);
      todo := todo - {path};
    }
  }

  lemma PathsAfterInsert(fs: seq<FileCoverage>, f: FileCoverage)
    requires forall x :: x in InsertFile(fs, f) <==> x in fs || x == f
    ensures forall path :: HasPath(InsertFile(fs, f), path) <==> HasPath(fs, path) || path == f.path
  {
    forall path ensures HasPath(InsertFile(fs, f), path) <==> HasPath(fs, path) || path == f.path {
      if x :| x in fs && x.path == path { assert x in InsertFile(fs, f); }
      assert f in InsertFile(fs, f);
    }
  }

  // ---- `analyze` ----

  function MapOf(cs: seq<ClassMap>): ClassMaps {
    if cs == [] then map[] else MapOf(cs[..|cs| - 1])[cs[|cs| - 1].classId := cs[|cs| - 1]]
  }

  lemma {:induction false} MapOfHolds(cs: seq<ClassMap>)
    requires Maps.DistinctClasses(cs)
    ensures forall id :: id in MapOf(cs) <==> exists c :: c in cs && c.classId == id
    ensures forall c :: c in cs ==> MapOf(cs)[c.classId] == c
  {
    if cs != [] {
      var front, last := cs[..|cs| - 1], cs[|cs| - 1];
      MapOfHolds(front);
      assert forall c :: c in cs <==> c in front || c == last;
      forall c | c in front ensures c.classId != last.classId {
        var k :| 0 <= k < |front| && front[k] == c;
        assert cs[k] == c;
      }
    }
  }

  lemma MapOfAll(cs: seq<ClassMap>, m: ClassMaps)
    requires Maps.DistinctClasses(cs) && ListsAll(cs, m)
    ensures MapOf(cs) == m
  {
    hide MapOf;
    MapOfHolds(cs);
    forall id ensures id in MapOf(cs) <==> id in m {
      if id in m { assert m[id] in cs; }
    }
    forall id | id in m ensures MapOf(cs)[id] == m[id] {
      assert m[id] in cs;
    }
  }

  lemma NextClass(cs: seq<ClassMap>, i: nat, arrays: Arrays)
    requires Maps.DistinctClasses(cs) && i < |cs|
    ensures cs[i].classId !in MapOf(cs[..i])
    ensures WithClass(Input(MapOf(cs[..i]), arrays), cs[i]) == Input(MapOf(cs[..i + 1]), arrays)
  {
    MapOfHolds(cs[..i]);
    assert cs[..i + 1] == cs[..i] + [cs[i]] && cs[..i + 1][..i] == cs[..i];
    forall c | c in cs[..i] ensures c.classId != cs[i].classId {
      var k :| 0 <= k < i && cs[..i][k] == c;
      assert cs[k] == c;
    }
  }

  /** One class with data: its entries taken into the lines and the tally of its file. */
  method TakeClass(c: ClassMap, probes: array<bool>, fileLines: FileLines, tallies: Tallies, ghost input: Input)
    returns (r: Result<(FileLines, Tallies)>)
    requires c.classId !in input.maps && c.classId in input.arrays && input.arrays[c.classId] == probes[..]
    requires Tallied(fileLines, tallies, input) && !Throws(input)
    ensures r.Ok? <==> !Throws(WithClass(input, c))
    ensures r.Ok? ==> Tallied(r.value.0, r.value.1, WithClass(input, c))
  {
    hide Throws, Tallied, WithClass, PathOf, NegativeIn, Marked, CountHits, CountBranches;
    ThrowsOneMore(input, c);
    var path := PathOf(c);
    IsFlagged(fileLines, tallies, input, path);
    var ok, lines, tally := TakeEntries(c.probes, probes, LinesOf(fileLines, path), TallyOf(tallies, path));
    if !ok {
      return Error;
    }
    StepOfTally(fileLines, tallies, input, c, lines, tally);
    r := Ok((fileLines[path := lines], tallies[path := tally]));
  }

  method Accumulate(cs: seq<ClassMap>, store: ExecutionDataStore) returns (r: Result<(FileLines, Tallies)>)
    requires store.Valid() && Maps.DistinctClasses(cs)
    ensures r.Ok? <==> !Throws(Input(MapOf(cs), DataOf(store)))
    ensures r.Ok? ==> Tallied(r.value.0, r.value.1, Input(MapOf(cs), DataOf(store)))
  {
    hide MapOf, Throws, Tallied, WithClass, NegativeIn, Exec.ViewOf, ArraysOf, Consistent, Maps.DistinctClasses, Data;
    ghost var arrays := DataOf(store);
    var fileLines: FileLines, tallies: Tallies := map[], map[];
    NothingTallied(arrays);
    assert cs[..0] == [];
    for i := 0 to |cs|
      invariant !Throws(Input(MapOf(cs[..i]), arrays))
      invariant Tallied(fileLines, tallies, Input(MapOf(cs[..i]), arrays))
    {
      ghost var input := Input(MapOf(cs[..i]), arrays);
      NextClass(cs, i, arrays);
      DataAt(store, cs[i].classId);
      var probeData := store.GetData(cs[i].classId);
      if probeData.Some? {
        var taken := TakeClass(cs[i], probeData.value.probes, fileLines, tallies, input);
        if taken.Error? {
          MoreThrow(cs, i + 1, arrays);
          return Error;
        }
        fileLines, tallies := taken.value.0, taken.value.1;
      } else {
        ThrowsOneMore(input, cs[i]);
        StepWithoutData(fileLines, tallies, input, cs[i]);
      }
    }
    assert cs[..|cs|] == cs;
    r := Ok((fileLines, tallies));
  }

  lemma DataAt(store: ExecutionDataStore, id: int)
    requires store.Valid()
    ensures id in DataOf(store) <==> id in store.Abstract().entries
    ensures id in store.Abstract().entries ==> DataOf(store)[id] == Data(store.Abstract(), id)
  {
    Exec.KeysOfView(store.Abstract());
    Exec.ViewAt(store.Abstract(), id);
  }

  lemma NothingTallied(arrays: Arrays)
    ensures Tallied(map[], map[], Input(MapOf([]), arrays)) && !Throws(Input(MapOf([]), arrays))
  {
    var input := Input(MapOf([]), arrays);
    forall path ensures |Branches(input, path)| == |BranchesHit(input, path)| == 0 {
      assert Branches(input, path) == {} == BranchesHit(input, path);
    }
  }

  lemma IsFlagged(fileLines: FileLines, tallies: Tallies, input: Input, path: Text)
    requires Tallied(fileLines, tallies, input)
    ensures IsFlag(LinesOf(fileLines, path))
  {
    hide HasLine, IsLineHit, Branches, BranchesHit;
    assert IsTallied(LinesOf(fileLines, path), TallyOf(tallies, path), input, path);
  }

  lemma {:induction false} MoreThrow(cs: seq<ClassMap>, i: nat, arrays: Arrays)
    requires Maps.DistinctClasses(cs) && i <= |cs| && Throws(Input(MapOf(cs[..i]), arrays))
    ensures Throws(Input(MapOf(cs), arrays))
    decreases |cs| - i
  {
    hide MapOf, Throws, NegativeIn, WithClass, Maps.DistinctClasses;
    if i < |cs| {
      NextClass(cs, i, arrays);
      ThrowsOneMore(Input(MapOf(cs[..i]), arrays), cs[i]);
      MoreThrow(cs, i + 1, arrays);
    } else {
      assert cs[..i] == cs;
    }
  }

  method Analyze(store: ExecutionDataStore, probeMap: ProbeMap) returns (r: Result<AnalysisResult>)
    requires store.Valid() && probeMap.Valid()
    ensures r.Ok? <==> !Throws(Input(probeMap.Contents(), DataOf(store)))
    ensures r.Ok? ==> IsAnalysisOf(r.value, Input(probeMap.Contents(), DataOf(store)))
  {
    hide Throws, Tallied, FilesAreOf, MapOf, ListsAll, Summarize, Exec.ViewOf, ArraysOf, Consistent;
    var cs := AllClassMaps(probeMap);
    MapOfAll(cs, probeMap.Contents());
    var collected :- Accumulate(cs, store);
    var files := BuildFiles(collected.0, collected.1, Input(probeMap.Contents(), DataOf(store)));
    r := Ok(AnalysisResult(files, Summarize(files)));
  }
}
