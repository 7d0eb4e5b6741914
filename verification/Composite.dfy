/** The figures of several targets together (compute_composite, routes/pages/mod.rs). */
module Composite {
  import opened CoverageLines
  import opened Permutations
  import opened Sets
  import opened Text
  import opened Wrappers

  datatype FileCoverage = FileCoverage(path: Text, lines: seq<LineCoverage>)

  datatype TargetSnapshot = TargetSnapshot(
    files: seq<FileCoverage>, linesCovered: int, linesTotal: int, fileCount: int, branchesCovered: int, branchesTotal: int)

  datatype CompositeSnapshot = CompositeSnapshot(
    lineRate: real, branchRate: real, linesCovered: int, linesTotal: int, branchesCovered: int, branchesTotal: int,
    fileCount: int, linesAreUnion: bool, branchesAreUnion: bool)

  // ---- What the targets have ----

  predicate HasLines(t: TargetSnapshot) {
    exists f :: f in t.files && f.lines != []
  }

  ghost predicate HasPath(targets: seq<TargetSnapshot>, path: Text) {
    exists t, f :: t in targets && HasLines(t) && f in t.files && f.path == path
  }

  ghost predicate HasLine(targets: seq<TargetSnapshot>, x: FileLine) {
    exists t, f, l :: t in targets && HasLines(t) && f in t.files && f.path == x.path && l in f.lines && l.lineNumber == x.n
  }

  /** Some target with line data hit the line. */
  ghost predicate IsHit(targets: seq<TargetSnapshot>, x: FileLine) {
    exists t, f, l :: t in targets && HasLines(t) && f in t.files && f.path == x.path && l in f.lines && l.lineNumber == x.n && l.hitCount > 0
  }

  ghost function Paths(targets: seq<TargetSnapshot>): (s: set<Text>)
    ensures forall path :: path in s <==> HasPath(targets, path)
  {
    set t, f | t in targets && HasLines(t) && f in t.files :: f.path
  }

  ghost function Lines(targets: seq<TargetSnapshot>): (s: set<FileLine>)
    ensures forall x :: x in s <==> HasLine(targets, x)
  {
    set t, f, l | t in targets && HasLines(t) && f in t.files && l in f.lines :: FileLine(f.path, l.lineNumber)
  }

  ghost function LinesHit(targets: seq<TargetSnapshot>): (s: set<FileLine>)
    ensures forall x :: x in s <==> IsHit(targets, x)
  {
    set t, f, l | t in targets && HasLines(t) && f in t.files && l in f.lines && l.hitCount > 0 :: FileLine(f.path, l.lineNumber)
  }

  /** Covered and total lines, and files, by the summaries of the targets without line data. */
  datatype Totals = Totals(covered: int, total: int, files: int)

  function Plus(a: Totals, b: Totals): Totals {
    Totals(a.covered + b.covered, a.total + b.total, a.files + b.files)
  }

  function SummaryOf(t: TargetSnapshot): Totals {
    Totals(t.linesCovered, t.linesTotal, t.fileCount)
  }

  function Pruned(targets: seq<TargetSnapshot>): Totals {
    if targets == [] then Totals(0, 0, 0)
    else
      var front, last := targets[..|targets| - 1], targets[|targets| - 1];
      if HasLines(last) then Pruned(front) else Plus(Pruned(front), SummaryOf(last))
  }

  function Summed(targets: seq<TargetSnapshot>): Totals {
    if targets == [] then Totals(0, 0, 0)
    else Plus(Summed(targets[..|targets| - 1]), SummaryOf(targets[|targets| - 1]))
  }

  function BranchesCovered(targets: seq<TargetSnapshot>): int {
    if targets == [] then 0 else BranchesCovered(targets[..|targets| - 1]) + targets[|targets| - 1].branchesCovered
  }

  function BranchesTotal(targets: seq<TargetSnapshot>): int {
    if targets == [] then 0 else BranchesTotal(targets[..|targets| - 1]) + targets[|targets| - 1].branchesTotal
  }

  /** The distinct lines of the targets that have them, and the summaries of the others. */
  ghost function CompositeOf(targets: seq<TargetSnapshot>): CompositeSnapshot {
    var pruned := Pruned(targets);
    var covered, total := |LinesHit(targets)| + pruned.covered, |Lines(targets)| + pruned.total;
    var bc, bt := BranchesCovered(targets), BranchesTotal(targets);
    CompositeSnapshot(Rate(covered, total), Rate(bc, bt), covered, total, bc, bt, |Paths(targets)| + pruned.files,
                      forall t :: t in targets ==> HasLines(t), false)
  }

  // ---- The union ----

  type Union = map<Text, map<int, bool>>

  /** The map holds these paths, these lines and, as true, these hit lines. */
  ghost predicate Holds(u: Union, paths: set<Text>, lines: set<FileLine>, hits: set<FileLine>) {
    && (forall p :: p in u <==> p in paths)
    && (forall x :: x in lines <==> x.path in u && x.n in u[x.path])
    && (forall x :: x in hits <==> x.path in u && x.n in u[x.path] && u[x.path][x.n])
  }

  function LinesOf(path: Text, lines: seq<LineCoverage>): (s: set<FileLine>)
    ensures forall x :: x in s <==> x.path == path && exists l :: l in lines && l.lineNumber == x.n
  {
    set l | l in lines :: FileLine(path, l.lineNumber)
  }

  function HitsOf(path: Text, lines: seq<LineCoverage>): (s: set<FileLine>)
    ensures forall x :: x in s <==> x.path == path && exists l :: l in lines && l.lineNumber == x.n && l.hitCount > 0
  {
    set l | l in lines && l.hitCount > 0 :: FileLine(path, l.lineNumber)
  }

  lemma LinesOneMore(path: Text, lines: seq<LineCoverage>, k: nat)
    requires k < |lines|
    ensures LinesOf(path, lines[..k + 1]) == LinesOf(path, lines[..k]) + {FileLine(path, lines[k].lineNumber)}
    ensures HitsOf(path, lines[..k + 1])
         == HitsOf(path, lines[..k]) + if lines[k].hitCount > 0 then {FileLine(path, lines[k].lineNumber)} else {}
  {
    assert lines[..k + 1] == lines[..k] + [lines[k]];
  }

  lemma AddPath(u: Union, path: Text, paths: set<Text>, lines: set<FileLine>, hits: set<FileLine>)
    requires Holds(u, paths, lines, hits)
    ensures Holds(u[path := if path in u then u[path] else map[]], paths + {path}, lines, hits)
  {
  }

  lemma AddLine(u: Union, path: Text, n: int, isHit: bool, paths: set<Text>, lines: set<FileLine>, hits: set<FileLine>)
    requires Holds(u, paths, lines, hits) && path in u
    ensures
      var entry := (if n in u[path] then u[path][n] else false) || isHit;
      Holds(u[path := u[path][n := entry]], paths, lines + {FileLine(path, n)}, hits + if isHit then {FileLine(path, n)} else {})
  {
  }

  /** The loop over the lines of one file. */
  method AddFile(u: Union, f: FileCoverage, ghost paths: set<Text>, ghost lines: set<FileLine>, ghost hits: set<FileLine>)
    returns (out: Union)
    requires Holds(u, paths, lines, hits)
    ensures Holds(out, paths + {f.path}, lines + LinesOf(f.path, f.lines), hits + HitsOf(f.path, f.lines))
  {
    hide LinesOf, HitsOf, Holds;
    AddPath(u, f.path, paths, lines, hits);
    out := u[f.path := if f.path in u then u[f.path] else map[]];
    NoLinesOf(f.path);
    assert f.lines[..0] == [] && lines + {} == lines && hits + {} == hits;
    for k := 0 to |f.lines|
      invariant f.path in out
      invariant Holds(out, paths + {f.path}, lines + LinesOf(f.path, f.lines[..k]), hits + HitsOf(f.path, f.lines[..k]))
    {
      var line := f.lines[k];
      LinesOneMore(f.path, f.lines, k);
      AddLine(out, f.path, line.lineNumber, line.hitCount > 0, paths + {f.path},
              lines + LinesOf(f.path, f.lines[..k]), hits + HitsOf(f.path, f.lines[..k]));
      assert lines + LinesOf(f.path, f.lines[..k + 1]) == lines + LinesOf(f.path, f.lines[..k]) + {FileLine(f.path, line.lineNumber)};
      assert hits + HitsOf(f.path, f.lines[..k + 1])
          == hits + HitsOf(f.path, f.lines[..k]) + if line.hitCount > 0 then {FileLine(f.path, line.lineNumber)} else {};
      var entry := (if line.lineNumber in out[f.path] then out[f.path][line.lineNumber] else false) || line.hitCount > 0;
      out := out[f.path := out[f.path][line.lineNumber := entry]];
    }
    assert f.lines[..|f.lines|] == f.lines;
  }

  lemma NoLinesOf(path: Text)
    ensures LinesOf(path, []) == {} && HitsOf(path, []) == {}
  {
  }

  function PathsIn(files: seq<FileCoverage>): set<Text> {
    set f | f in files :: f.path
  }

  function LinesIn(files: seq<FileCoverage>): set<FileLine> {
    set f, l | f in files && l in f.lines :: FileLine(f.path, l.lineNumber)
  }

  function HitsIn(files: seq<FileCoverage>): set<FileLine> {
    set f, l | f in files && l in f.lines && l.hitCount > 0 :: FileLine(f.path, l.lineNumber)
  }

  lemma FilesOneMore(files: seq<FileCoverage>, k: nat)
    requires k < |files|
    ensures PathsIn(files[..k + 1]) == PathsIn(files[..k]) + {files[k].path}
    ensures LinesIn(files[..k + 1]) == LinesIn(files[..k]) + LinesOf(files[k].path, files[k].lines)
    ensures HitsIn(files[..k + 1]) == HitsIn(files[..k]) + HitsOf(files[k].path, files[k].lines)
  {
    assert files[..k + 1] == files[..k] + [files[k]];
  }

  lemma PathsOneMore(front: seq<TargetSnapshot>, t: TargetSnapshot)
    ensures Paths(front + [t]) == Paths(front) + if HasLines(t) then PathsIn(t.files) else {}
  {
    hide HasLines;
    assert forall x :: x in front + [t] <==> x in front || x == t;
  }

  lemma LinesOfOneMore(front: seq<TargetSnapshot>, t: TargetSnapshot)
    ensures Lines(front + [t]) == Lines(front) + if HasLines(t) then LinesIn(t.files) else {}
  {
    hide HasLines;
    assert forall x :: x in front + [t] <==> x in front || x == t;
  }

  lemma HitsOfOneMore(front: seq<TargetSnapshot>, t: TargetSnapshot)
    ensures LinesHit(front + [t]) == LinesHit(front) + if HasLines(t) then HitsIn(t.files) else {}
  {
    hide HasLines;
    assert forall x :: x in front + [t] <==> x in front || x == t;
  }

  /** The loop over the files of one target. */
  method AddTarget(u: Union, t: TargetSnapshot, ghost front: seq<TargetSnapshot>) returns (out: Union)
    requires Holds(u, Paths(front), Lines(front), LinesHit(front)) && HasLines(t)
    ensures Holds(out, Paths(front + [t]), Lines(front + [t]), LinesHit(front + [t]))
  {
    hide Holds, HasLines, PathsIn, LinesIn, HitsIn, LinesOf, HitsOf, Paths, Lines, LinesHit;
    out := u;
    ghost var ps, ls, hs := Paths(front), Lines(front), LinesHit(front);
    NoFiles();
    assert t.files[..0] == [] && ps + {} == ps && ls + {} == ls && hs + {} == hs;
    for k := 0 to |t.files|
      invariant Holds(out, ps + PathsIn(t.files[..k]), ls + LinesIn(t.files[..k]), hs + HitsIn(t.files[..k]))
    {
      out := AddFile(out, t.files[k], ps + PathsIn(t.files[..k]), ls + LinesIn(t.files[..k]), hs + HitsIn(t.files[..k]));
      FilesOneMore(t.files, k);
      assert ps + PathsIn(t.files[..k + 1]) == ps + PathsIn(t.files[..k]) + {t.files[k].path};
      assert ls + LinesIn(t.files[..k + 1]) == ls + LinesIn(t.files[..k]) + LinesOf(t.files[k].path, t.files[k].lines);
      assert hs + HitsIn(t.files[..k + 1]) == hs + HitsIn(t.files[..k]) + HitsOf(t.files[k].path, t.files[k].lines);
    }
    assert t.files[..|t.files|] == t.files;
    PathsOneMore(front, t);
    LinesOfOneMore(front, t);
    HitsOfOneMore(front, t);
  }

  lemma NoFiles()
    ensures PathsIn([]) == {} && LinesIn([]) == {} && HitsIn([]) == {}
  {
  }

  lemma NoTargets()
    ensures Paths([]) == {} && Lines([]) == {} && LinesHit([]) == {}
  {
  }

  /** The loop over the targets with line data. */
  method Unite(targets: seq<TargetSnapshot>) returns (u: Union)
    ensures Holds(u, Paths(targets), Lines(targets), LinesHit(targets))
  {
    hide Holds, HasLines, Paths, Lines, LinesHit, PathsIn, LinesIn, HitsIn;
    u := map[];
    NoTargets();
    assert Holds(map[], {}, {}, {}) by { EmptyHolds(); }
    assert targets[..0] == [];
    for k := 0 to |targets|
      invariant Holds(u, Paths(targets[..k]), Lines(targets[..k]), LinesHit(targets[..k]))
    {
      assert targets[..k + 1] == targets[..k] + [targets[k]];
      PathsOneMore(targets[..k], targets[k]);
      LinesOfOneMore(targets[..k], targets[k]);
      HitsOfOneMore(targets[..k], targets[k]);
      if HasLines(targets[k]) {
        u := AddTarget(u, targets[k], targets[..k]);
      } else {
        assert Paths(targets[..k]) + {} == Paths(targets[..k]);
        assert Lines(targets[..k]) + {} == Lines(targets[..k]) && LinesHit(targets[..k]) + {} == LinesHit(targets[..k]);
      }
    }
    assert targets[..|targets|] == targets;
  }

  lemma EmptyHolds()
    ensures Holds(map[], {}, {}, {})
  {
  }

  // ---- Counting ----

  function HitKeys(lines: map<int, bool>): set<int> {
    set n | n in lines && lines[n]
  }

  /** The lines among `lines` of the paths in `paths`. */
  function Among(lines: set<FileLine>, paths: set<Text>): set<FileLine> {
    set x | x in lines && x.path in paths
  }

  lemma CountPath(u: Union, paths: set<Text>, lines: set<FileLine>, hits: set<FileLine>, p: Text)
    requires Holds(u, paths, lines, hits) && p in u
    ensures |Among(lines, {p})| == |u[p]| && |Among(hits, {p})| == |HitKeys(u[p])|
  {
    var f := (n: int) => FileLine(p, n);
    forall x | x in Among(lines, {p}) ensures exists n :: n in u[p].Keys && f(n) == x {
      assert f(x.n) == x;
    }
    forall x | x in Among(hits, {p}) ensures exists n :: n in HitKeys(u[p]) && f(n) == x {
      assert f(x.n) == x;
    }
    ImageCounts(u[p].Keys, f, Among(lines, {p}));
    ImageCounts(HitKeys(u[p]), f, Among(hits, {p}));
    assert |u[p]| == |u[p].Keys|;
  }

  lemma AmongOneMore(lines: set<FileLine>, done: set<Text>, p: Text)
    requires p !in done
    ensures |Among(lines, done + {p})| == |Among(lines, done)| + |Among(lines, {p})|
  {
    assert Among(lines, done + {p}) == Among(lines, done) + Among(lines, {p});
    assert Among(lines, done) !! Among(lines, {p});
  }

  lemma CountOneMore(u: Union, paths: set<Text>, lines: set<FileLine>, hits: set<FileLine>, done: set<Text>, p: Text)
    requires Holds(u, paths, lines, hits) && p in u && p !in done
    ensures |Among(lines, done + {p})| == |Among(lines, done)| + |u[p]|
    ensures |Among(hits, done + {p})| == |Among(hits, done)| + |HitKeys(u[p])|
  {
    hide Among, HitKeys, Holds;
    CountPath(u, paths, lines, hits, p);
    AmongOneMore(lines, done, p);
    AmongOneMore(hits, done, p);
  }

  method Count(u: Union, ghost paths: set<Text>, ghost lines: set<FileLine>, ghost hits: set<FileLine>)
    returns (total: nat, covered: nat)
    requires Holds(u, paths, lines, hits)
    ensures total == |lines| && covered == |hits|
  {
    hide Among, HitKeys;
    total, covered := 0, 0;
    var todo := u.Keys;
    NothingAmong(lines, hits);
    assert u.Keys - todo == {};
    while todo != {}
      invariant todo <= u.Keys
      invariant total == |Among(lines, u.Keys - todo)| && covered == |Among(hits, u.Keys - todo)|
      decreases |todo|
    {
      ghost var _ := ElementOf(todo);
      var p :| p in todo;
      CountOneMore(u, paths, lines, hits, u.Keys - todo, p);
      assert u.Keys - (todo - {p}) == u.Keys - todo + {p};
      total, covered := total + |u[p]|, covered + |HitKeys(u[p])|;
      todo := todo - {p};
    }
    assert u.Keys - todo == u.Keys;
    AllAmong(u, paths, lines, hits);
  }

  lemma NothingAmong(lines: set<FileLine>, hits: set<FileLine>)
    ensures Among(lines, {}) == {} && Among(hits, {}) == {}
  {
  }

  lemma AllAmong(u: Union, paths: set<Text>, lines: set<FileLine>, hits: set<FileLine>)
    requires Holds(u, paths, lines, hits)
    ensures Among(lines, u.Keys) == lines && Among(hits, u.Keys) == hits
  {
  }

  // ---- `compute_composite` ----

  method ComputeComposite(targets: seq<TargetSnapshot>) returns (r: Option<CompositeSnapshot>)
    ensures r == if |targets| < 2 then None else Some(CompositeOf(targets))
  {
    hide Holds, HasLines, Paths, Lines, LinesHit, Pruned, Summed, BranchesCovered, BranchesTotal;
    if |targets| < 2 {
      return None;
    }
    var u := Unite(targets);
    var haveFileData := u != map[];
    var linesCovered, linesTotal, fileCount;
    if haveFileData {
      var total, covered := Count(u, Paths(targets), Lines(targets), LinesHit(targets));
      var p := Pruned(targets);
      PathsAreKeys(u, Paths(targets), Lines(targets), LinesHit(targets));
      linesCovered, linesTotal, fileCount := covered + p.covered, total + p.total, |u| + p.files;
    } else {
      var s := Summed(targets);
      NoFileData(targets, u);
      linesCovered, linesTotal, fileCount := s.covered, s.total, s.files;
    }
    var branchesCovered, branchesTotal := BranchesCovered(targets), BranchesTotal(targets);
    var linesAreUnion := haveFileData && forall t :: t in targets ==> HasLines(t);
    UnionNeedsData(targets, u);
    r := Some(CompositeSnapshot(Rate(linesCovered, linesTotal), Rate(branchesCovered, branchesTotal), linesCovered, linesTotal,
                                branchesCovered, branchesTotal, fileCount, linesAreUnion, false));
  }

  lemma PathsAreKeys(u: Union, paths: set<Text>, lines: set<FileLine>, hits: set<FileLine>)
    requires Holds(u, paths, lines, hits)
    ensures |u| == |paths|
  {
    assert u.Keys == paths;
    assert |u| == |u.Keys|;
  }

  lemma LinesGivePaths(targets: seq<TargetSnapshot>, t: TargetSnapshot)
    requires t in targets && HasLines(t)
    ensures Paths(targets) != {}
  {
    var f :| f in t.files && f.lines != [];
    assert HasPath(targets, f.path);
    assert f.path in Paths(targets);
  }

  /** With two targets or more, all of them having lines means there is a union. */
  lemma UnionNeedsData(targets: seq<TargetSnapshot>, u: Union)
    requires |targets| >= 2 && Holds(u, Paths(targets), Lines(targets), LinesHit(targets))
    ensures (u != map[] && forall t :: t in targets ==> HasLines(t)) <==> forall t :: t in targets ==> HasLines(t)
  {
    hide HasLines, Paths, Lines, LinesHit;
    if forall t :: t in targets ==> HasLines(t) {
      assert targets[0] in targets;
      LinesGivePaths(targets, targets[0]);
      var p := ElementOf(Paths(targets));
      assert p in u;
    }
  }

  /** Without file data the sums of the summaries are what the general rule gives. */
  lemma NoFileData(targets: seq<TargetSnapshot>, u: Union)
    requires u == map[] && Holds(u, Paths(targets), Lines(targets), LinesHit(targets))
    ensures Pruned(targets) == Summed(targets)
    ensures Lines(targets) == {} && LinesHit(targets) == {} && Paths(targets) == {}
  {
    hide HasLines, Paths, Lines, LinesHit;
    assert Paths(targets) == {} && Lines(targets) == {} && LinesHit(targets) == {};
    forall t | t in targets ensures !HasLines(t) {
      if HasLines(t) {
        LinesGivePaths(targets, t);
      }
    }
    PrunedIsSummed(targets);
  }

  lemma {:induction false} PrunedIsSummed(targets: seq<TargetSnapshot>)
    requires forall t :: t in targets ==> !HasLines(t)
    ensures Pruned(targets) == Summed(targets)
  {
    hide HasLines;
    if targets != [] {
      assert targets[|targets| - 1] in targets;
      PrunedIsSummed(targets[..|targets| - 1]);
    }
  }

  // ---- Order and repetition ----

  lemma {:induction false} PrunedWithout(targets: seq<TargetSnapshot>, k: nat)
    requires k < |targets|
    ensures
      var rest := targets[..k] + targets[k + 1..];
      && Pruned(targets) == (if HasLines(targets[k]) then Pruned(rest) else Plus(Pruned(rest), SummaryOf(targets[k])))
      && BranchesCovered(targets) == BranchesCovered(rest) + targets[k].branchesCovered
      && BranchesTotal(targets) == BranchesTotal(rest) + targets[k].branchesTotal
    decreases |targets|
  {
    hide HasLines;
    var front, rest := targets[..|targets| - 1], targets[..k] + targets[k + 1..];
    if k < |front| {
      PrunedWithout(front, k);
      assert rest[..|rest| - 1] == front[..k] + front[k + 1..];
    } else {
      assert rest == front;
    }
  }

  lemma {:induction false} SumsArePermuted(a: seq<TargetSnapshot>, b: seq<TargetSnapshot>)
    requires multiset(a) == multiset(b)
    ensures Pruned(a) == Pruned(b) && BranchesCovered(a) == BranchesCovered(b) && BranchesTotal(a) == BranchesTotal(b)
    decreases |a|
  {
    hide HasLines;
    SameLength(a, b);
    if a != [] {
      var k := FindLast(a, b);
      SumsArePermuted(a[..|a| - 1], b[..k] + b[k + 1..]);
      PrunedWithout(b, k);
    }
  }

  lemma SameSets(a: seq<TargetSnapshot>, b: seq<TargetSnapshot>)
    requires forall t :: t in a <==> t in b
    ensures Paths(a) == Paths(b) && Lines(a) == Lines(b) && LinesHit(a) == LinesHit(b)
  {
    hide HasLines;
  }

  /** The order of the targets changes nothing. */
  lemma OrderIsIrrelevant(a: seq<TargetSnapshot>, b: seq<TargetSnapshot>)
    requires multiset(a) == multiset(b)
    ensures CompositeOf(a) == CompositeOf(b)
  {
    hide HasLines, Paths, Lines, LinesHit;
    forall t ensures t in a <==> t in b {
      assert t in a <==> t in multiset(a);
      assert t in b <==> t in multiset(b);
    }
    SameSets(a, b);
    SumsArePermuted(a, b);
  }

  /** Counting a target with line data again changes no line total and no file count. */
  lemma RepetitionAddsNoLines(targets: seq<TargetSnapshot>, t: TargetSnapshot)
    requires t in targets && HasLines(t)
    ensures
      var c, d := CompositeOf(targets), CompositeOf(targets + [t]);
      && d.linesCovered == c.linesCovered && d.linesTotal == c.linesTotal && d.lineRate == c.lineRate
      && d.fileCount == c.fileCount && d.linesAreUnion == c.linesAreUnion
  {
    hide HasLines, Paths, Lines, LinesHit;
    assert (targets + [t])[..|targets|] == targets;
    assert forall x :: x in targets + [t] <==> x in targets;
    SameSets(targets, targets + [t]);
  }

  /** A target without line data counted again is counted twice: its summary is all there is of it. */
  lemma RepetitionAddsSummaries(targets: seq<TargetSnapshot>, t: TargetSnapshot)
    requires t in targets && !HasLines(t)
    ensures
      var c, d := CompositeOf(targets), CompositeOf(targets + [t]);
      && d.linesCovered == c.linesCovered + t.linesCovered && d.linesTotal == c.linesTotal + t.linesTotal
      && d.fileCount == c.fileCount + t.fileCount && d.linesAreUnion == c.linesAreUnion == false
  {
    hide HasLines, Paths, Lines, LinesHit;
    assert (targets + [t])[..|targets|] == targets;
    assert forall x :: x in targets + [t] <==> x in targets;
    SameSets(targets, targets + [t]);
  }

  // ---- In numbers ----

  /** A target without a line in any of its files counts by its summary, and every target by its branches; no targets count nothing. */
  lemma TargetsAdd(targets: seq<TargetSnapshot>, t: TargetSnapshot)
    ensures Pruned([]) == Totals(0, 0, 0) && BranchesCovered([]) == 0 && BranchesTotal([]) == 0
    ensures
      var p, q := Pruned(targets), Pruned(targets + [t]);
      if exists f :: f in t.files && |f.lines| > 0 then q == p
      else q == Totals(p.covered + t.linesCovered, p.total + t.linesTotal, p.files + t.fileCount)
    ensures BranchesCovered(targets + [t]) == BranchesCovered(targets) + t.branchesCovered
    ensures BranchesTotal(targets + [t]) == BranchesTotal(targets) + t.branchesTotal
  {
    assert (targets + [t])[..|targets|] == targets;
  }

  /** The figures: distinct lines and paths with the summaries, and sums of branches. */
  lemma FiguresAre(targets: seq<TargetSnapshot>)
    ensures
      var c := CompositeOf(targets);
      && c.linesCovered == |LinesHit(targets)| + Pruned(targets).covered && c.linesTotal == |Lines(targets)| + Pruned(targets).total
      && c.fileCount == |Paths(targets)| + Pruned(targets).files
      && c.branchesCovered == BranchesCovered(targets) && c.branchesTotal == BranchesTotal(targets)
      && (c.linesAreUnion <==> forall t :: t in targets ==> exists f :: f in t.files && |f.lines| > 0)
      && !c.branchesAreUnion
  {
    hide Pruned, BranchesCovered, BranchesTotal, Rate, HasLine, IsHit, HasPath;
    forall t ensures HasLines(t) <==> exists f :: f in t.files && |f.lines| > 0 {
    }
  }

  /** The rates times the totals are what is covered. */
  lemma RatesAre(targets: seq<TargetSnapshot>)
    ensures
      var c := CompositeOf(targets);
      && (c.linesTotal > 0 ==> c.lineRate * c.linesTotal as real == c.linesCovered as real)
      && (c.linesTotal <= 0 ==> c.lineRate == 0.0)
      && (c.branchesTotal > 0 ==> c.branchRate * c.branchesTotal as real == c.branchesCovered as real)
      && (c.branchesTotal <= 0 ==> c.branchRate == 0.0)
  {
    hide Pruned, BranchesCovered, BranchesTotal, Rate, HasLine, IsHit, HasPath, HasLines;
    var c := CompositeOf(targets);
    RateIs(c.linesCovered, c.linesTotal);
    RateIs(c.branchesCovered, c.branchesTotal);
  }
}
