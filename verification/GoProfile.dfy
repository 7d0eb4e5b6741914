/** Go cover profiles: blocks expanded to lines (parsers/go_coverprofile.rs). */
module GoProfile {
  import opened CoverageLines
  import opened Sets
  import opened Text
  import opened Wrappers

  const MAX_TOTAL_LINES: nat := 2_000_000
  const MAX_LINE_NUMBER: int := 2_000_000

  /** A line of the profile that is not skipped, taken apart. */
  datatype Record = Mode | Block(file: Text, startLine: int, endLine: int, count: int)

  datatype ParseError = BadRange | TooManyLines | MissingMode | NoData

  datatype FileCoverage = FileCoverage(path: Text, lineRate: real, lines: seq<LineCoverage>)

  datatype Profile = Profile(files: seq<FileCoverage>, lineRate: real, linesCovered: nat, linesTotal: nat)

  datatype Outcome = Parsed(profile: Profile) | Failed(error: ParseError)

  // ---- What the blocks say ----

  predicate Covers(r: Record, file: Text, n: int) {
    r.Block? && r.file == file && r.startLine <= n <= r.endLine
  }

  ghost predicate IsCovered(records: seq<Record>, file: Text, n: int) {
    exists r :: r in records && Covers(r, file, n)
  }

  ghost predicate HasFile(records: seq<Record>, file: Text) {
    exists r :: r in records && r.Block? && r.file == file
  }

  /** Zero or the largest count of a covering block. */
  function HitCount(records: seq<Record>, file: Text, n: int): (h: int)
    ensures h >= 0
  {
    if records == [] then 0
    else
      var h, last := HitCount(records[..|records| - 1], file, n), records[|records| - 1];
      if Covers(last, file, n) && last.count > h then last.count else h
  }

  lemma {:induction false} HitCountIsLargest(records: seq<Record>, file: Text, n: int)
    ensures forall r :: r in records && Covers(r, file, n) ==> r.count <= HitCount(records, file, n)
    ensures HitCount(records, file, n) == 0 || exists r :: r in records && Covers(r, file, n) && r.count == HitCount(records, file, n)
  {
    if records != [] {
      var front, last := records[..|records| - 1], records[|records| - 1];
      HitCountIsLargest(front, file, n);
      assert forall r :: r in records <==> r in front || r == last;
    }
  }

  predicate IsPlausible(r: Record) {
    r.Block? ==> 1 <= r.startLine <= r.endLine <= MAX_LINE_NUMBER
  }

  function LengthOf(r: Record): nat {
    if r.Block? && r.startLine <= r.endLine then r.endLine - r.startLine + 1 else 0
  }

  function TotalExpanded(records: seq<Record>): nat {
    if records == [] then 0 else TotalExpanded(records[..|records| - 1]) + LengthOf(records[|records| - 1])
  }

  /** The first thing wrong with the blocks, in their order. */
  function ScanError(records: seq<Record>): Option<ParseError> {
    if records == [] then None
    else
      var before, last := ScanError(records[..|records| - 1]), records[|records| - 1];
      if before.Some? then before
      else if !IsPlausible(last) then Some(BadRange)
      else if TotalExpanded(records) > MAX_TOTAL_LINES then Some(TooManyLines)
      else None
  }

  lemma {:induction false} ScannedIsPlausible(records: seq<Record>)
    ensures ScanError(records).None? <==> (forall r :: r in records ==> IsPlausible(r)) && TotalExpanded(records) <= MAX_TOTAL_LINES
  {
    if records != [] {
      var front, last := records[..|records| - 1], records[|records| - 1];
      ScannedIsPlausible(front);
      assert forall r :: r in records <==> r in front || r == last;
    }
  }

  lemma {:induction false} ErrorStays(records: seq<Record>, k: nat)
    requires k <= |records| && ScanError(records[..k]).Some?
    ensures ScanError(records) == ScanError(records[..k])
    decreases |records|
  {
    if k < |records| {
      var front := records[..|records| - 1];
      assert front[..k] == records[..k];
      ErrorStays(front, k);
    } else {
      assert records[..k] == records;
    }
  }

  // ---- Expansion ----

  type FileLines = map<Text, map<int, int>>

  /** Every covered line of every file, with its count. */
  ghost predicate IsExpansion(files: FileLines, records: seq<Record>) {
    && (forall f :: f in files <==> HasFile(records, f))
    && (forall f :: f in files ==> LinesAre(files[f], records, f))
  }

  ghost predicate LinesAre(lines: map<int, int>, records: seq<Record>, f: Text) {
    && (forall n :: n in lines <==> IsCovered(records, f, n))
    && (forall n :: n in lines ==> lines[n] == HitCount(records, f, n))
  }

  lemma OneMore(front: seq<Record>, r: Record, f: Text, n: int)
    ensures HasFile(front + [r], f) <==> HasFile(front, f) || (r.Block? && r.file == f)
    ensures IsCovered(front + [r], f, n) <==> IsCovered(front, f, n) || Covers(r, f, n)
    ensures HitCount(front + [r], f, n)
         == if Covers(r, f, n) && r.count > HitCount(front, f, n) then r.count else HitCount(front, f, n)
    ensures !IsCovered(front, f, n) ==> HitCount(front, f, n) == 0
  {
    var all := front + [r];
    assert all[..|front|] == front;
    assert forall x :: x in all <==> x in front || x == r;
    if x :| x in front && x.Block? && x.file == f { assert x in all; }
    if x :| x in front && Covers(x, f, n) { assert x in all; }
    assert r in all;
    HitCountIsLargest(front, f, n);
  }

  /** The loop over the lines of one block. */
  method ExpandBlock(lines: map<int, int>, r: Record) returns (out: map<int, int>)
    requires r.Block? && r.startLine <= r.endLine
    ensures forall n :: n in out <==> n in lines || r.startLine <= n <= r.endLine
    ensures forall n :: n in out ==>
      var before := if n in lines then lines[n] else 0;
      out[n] == if r.startLine <= n <= r.endLine && r.count > before then r.count else before
  {
    out := lines;
    for ln := r.startLine to r.endLine + 1
      invariant forall n :: n in out <==> n in lines || r.startLine <= n < ln
      invariant forall n :: n in out ==>
        var before := if n in lines then lines[n] else 0;
        out[n] == if r.startLine <= n < ln && r.count > before then r.count else before
    {
      var existing := if ln in out then out[ln] else 0;
      out := out[ln := if r.count > existing then r.count else existing];
    }
  }

  lemma BlockExpands(files: FileLines, records: seq<Record>, r: Record, out: map<int, int>)
    requires IsExpansion(files, records) && r.Block?
    requires var lines := if r.file in files then files[r.file] else map[];
      && (forall n :: n in out <==> n in lines || r.startLine <= n <= r.endLine)
      && (forall n :: n in out ==>
            var before := if n in lines then lines[n] else 0;
            out[n] == if r.startLine <= n <= r.endLine && r.count > before then r.count else before)
    ensures IsExpansion(files[r.file := out], records + [r])
  {
    hide HitCount, IsCovered, HasFile;
    var now := files[r.file := out];
    forall f ensures f in now <==> HasFile(records + [r], f) {
      OneMore(records, r, f, 0);
    }
    forall f | f in now ensures LinesAre(now[f], records + [r], f) {
      var lines := if f in files then files[f] else map[];
      NoFileNoLines(records, f);
      forall n
        ensures n in now[f] <==> IsCovered(records + [r], f, n)
        ensures n in now[f] ==> now[f][n] == HitCount(records + [r], f, n)
      {
        OneMore(records, r, f, n);
      }
    }
  }

  lemma NoFileNoLines(records: seq<Record>, f: Text)
    ensures !HasFile(records, f) ==> forall n :: !IsCovered(records, f, n)
  {
  }

  lemma ModeExpands(files: FileLines, records: seq<Record>)
    requires IsExpansion(files, records)
    ensures IsExpansion(files, records + [Mode])
  {
    hide HitCount, IsCovered, HasFile;
    forall f ensures f in files <==> HasFile(records + [Mode], f) {
      OneMore(records, Mode, f, 0);
    }
    forall f | f in files ensures LinesAre(files[f], records + [Mode], f) {
      forall n
        ensures n in files[f] <==> IsCovered(records + [Mode], f, n)
        ensures n in files[f] ==> files[f][n] == HitCount(records + [Mode], f, n)
      {
        OneMore(records, Mode, f, n);
      }
    }
  }

  /** The scan: the blocks expanded, or what stops it. */
  method Scan(records: seq<Record>) returns (error: Option<ParseError>, files: FileLines, hasModeLine: bool)
    ensures error == ScanError(records)
    ensures error.None? ==> IsExpansion(files, records) && (hasModeLine <==> Mode in records)
  {
    hide IsExpansion;
    files, hasModeLine := map[], false;
    var totalExpanded: nat := 0;
    NothingExpands();
    assert records[..0] == [];
    for k := 0 to |records|
      invariant ScanError(records[..k]).None? && totalExpanded == TotalExpanded(records[..k])
      invariant IsExpansion(files, records[..k]) && (hasModeLine <==> Mode in records[..k])
    {
      var r := records[k];
      assert records[..k + 1] == records[..k] + [r] && records[..k + 1][..k] == records[..k];
      match r
      case Mode =>
        ModeExpands(files, records[..k]);
        hasModeLine := true;
      case Block(file, startLine, endLine, count) =>
        if startLine < 1 || endLine < startLine || endLine > MAX_LINE_NUMBER {
          ErrorStays(records, k + 1);
          return Some(BadRange), files, hasModeLine;
        }
        totalExpanded := totalExpanded + (endLine - startLine + 1);
        if totalExpanded > MAX_TOTAL_LINES {
          ErrorStays(records, k + 1);
          return Some(TooManyLines), files, hasModeLine;
        }
        var lines := ExpandBlock(if file in files then files[file] else map[], r);
        BlockExpands(files, records[..k], r, lines);
        files := files[file := lines];
    }
    assert records[..|records|] == records;
    error := None;
  }

  lemma NothingExpands()
    ensures IsExpansion(map[], [])
  {
  }

  // ---- The common prefix ----

  /** Empty or ending in a slash, and the beginning of all names. */
  predicate IsDirOfAll(p: Text, names: seq<Text>) {
    (p == [] || p[|p| - 1] == SLASH) && forall n :: n in names ==> p <= n
  }

  ghost predicate IsCommonPrefix(p: Text, names: seq<Text>) {
    IsDirOfAll(p, names) && forall q :: IsDirOfAll(q, names) ==> |q| <= |p|
  }

  /** The order of the names, a hash map's, makes no difference. */
  lemma PrefixIsUnique(p: Text, q: Text, names: seq<Text>, others: seq<Text>)
    requires names != [] && (forall n :: n in names <==> n in others)
    requires IsCommonPrefix(p, names) && IsCommonPrefix(q, others)
    ensures p == q
  {
    assert names[0] in names;
    assert IsDirOfAll(q, names) && IsDirOfAll(p, others);
    assert p <= names[0] && q <= names[0];
  }

  method FindCommonPrefix(names: seq<Text>) returns (prefix: Text)
    requires names != []
    ensures IsCommonPrefix(prefix, names)
  {
    var first := names[0];
    assert first in names;
    var lastValid := 0;
    var i := 0;
    while i < |first|
      invariant 0 <= lastValid <= i <= |first|
      invariant IsDirOfAll(first[..lastValid], names)
      invariant forall q :: IsDirOfAll(q, names) && |q| <= i ==> |q| <= lastValid
    {
      if first[i] == SLASH {
        if forall n :: n in names ==> first[..i + 1] <= n {
          lastValid := i + 1;
        } else {
          LongerIsNoPrefix(names, first, i + 1);
          break;
        }
      } else {
        forall q | IsDirOfAll(q, names) ensures |q| != i + 1 {
          assert q <= first && (q != [] ==> q[|q| - 1] == first[|q| - 1]);
        }
      }
      i := i + 1;
    }
    prefix := first[..lastValid];
    forall q | IsDirOfAll(q, names) ensures |q| <= |prefix| {
      assert q <= first;
    }
  }

  lemma BeginsBoth(q: Text, a: Text, b: Text, k: nat)
    requires q <= a && q <= b && k <= |q|
    ensures a[..k] <= b
  {
    assert a[..k] == q[..k] == b[..k];
  }

  lemma LongerIsNoPrefix(names: seq<Text>, first: Text, k: nat)
    requires first in names && k <= |first| && !(forall n :: n in names ==> first[..k] <= n)
    ensures forall q :: IsDirOfAll(q, names) ==> |q| < k
  {
    var n :| n in names && !(first[..k] <= n);
    forall q | IsDirOfAll(q, names) ensures |q| < k {
      if |q| >= k {
        BeginsBoth(q, first, n, k);
      }
    }
  }

  // ---- The report ----

  /** A file's lines: the union of its blocks, sorted, each once, with its hit count. */
  ghost predicate IsFileOf(lines: seq<LineCoverage>, records: seq<Record>, f: Text) {
    && Ascending(lines)
    && forall l :: l in lines <==> IsCovered(records, f, l.lineNumber) && l.hitCount == HitCount(records, f, l.lineNumber)
  }

  /** The names of the files; as many of them as there are in one pass over a hash map, sorted or not. */
  method Names(files: FileLines) returns (names: seq<Text>, sorted: seq<Text>)
    ensures forall n :: n in names <==> n in files
    ensures NamesInOrder(sorted) && forall n :: n in sorted <==> n in files
  {
    hide Before;
    names, sorted := [], [];
    var todo := files.Keys;
    while todo != {}
      invariant todo <= files.Keys && NamesInOrder(sorted)
      invariant forall n :: n in names <==> n in files && n !in todo
      invariant forall n :: n in sorted <==> n in files && n !in todo
      decreases |todo|
    {
      ghost var _ := ElementOf(todo);
      var n :| n in todo;
      InsertNameKeeps(sorted, n);
      names, sorted := names + [n], InsertName(sorted, n);
      todo := todo - {n};
    }
  }

  /** File `k` of the report is file `names[k]` of the profile, by its path below the common prefix. */
  ghost predicate FilesAre(files: seq<FileCoverage>, names: seq<Text>, prefix: Text, records: seq<Record>) {
    && |files| == |names|
    && forall k :: 0 <= k < |files| ==>
         && prefix + files[k].path == names[k]
         && IsFileOf(files[k].lines, records, names[k])
         && files[k].lineRate == Rate(CoveredLines(files[k].lines), |files[k].lines|)
  }

  function TotalLines(files: seq<FileCoverage>): nat {
    if files == [] then 0 else TotalLines(files[..|files| - 1]) + |files[|files| - 1].lines|
  }

  function TotalHit(files: seq<FileCoverage>): nat {
    if files == [] then 0 else TotalHit(files[..|files| - 1]) + CoveredLines(files[|files| - 1].lines)
  }

  /** All files with blocks, in order, below their longest common directory. */
  ghost predicate IsProfileOf(p: Profile, records: seq<Record>, names: seq<Text>, prefix: Text) {
    && NamesInOrder(names) && (forall f :: f in names <==> HasFile(records, f))
    && IsCommonPrefix(prefix, names)
    && FilesAre(p.files, names, prefix, records)
    && p.linesTotal == TotalLines(p.files) && p.linesCovered == TotalHit(p.files)
    && p.lineRate == Rate(p.linesCovered, p.linesTotal)
  }

  method BuildFiles(files: FileLines, names: seq<Text>, prefix: Text, ghost records: seq<Record>)
    returns (out: seq<FileCoverage>, totalLines: nat, totalHit: nat)
    requires IsExpansion(files, records) && (forall n :: n in names ==> n in files && prefix <= n)
    ensures FilesAre(out, names, prefix, records)
    ensures totalLines == TotalLines(out) && totalHit == TotalHit(out)
  {
    hide HitCount, IsCovered, HasFile;
    out, totalLines, totalHit := [], 0, 0;
    for k := 0 to |names|
      invariant FilesAre(out, names[..k], prefix, records)
      invariant totalLines == TotalLines(out) && totalHit == TotalHit(out)
    {
      assert names[k] in names;
      var lines := SortLines(files[names[k]]);
      assert IsFileOf(lines, records, names[k]);
      var f := FileCoverage(names[k][|prefix|..], Rate(CoveredLines(lines), |lines|), lines);
      assert (out + [f])[..|out|] == out;
      out := out + [f];
      totalLines, totalHit := totalLines + |lines|, totalHit + CoveredLines(lines);
    }
    assert names[..|names|] == names;
  }

  lemma SamePrefix(prefix: Text, names: seq<Text>, others: seq<Text>)
    requires IsCommonPrefix(prefix, names) && forall n :: n in names <==> n in others
    ensures IsCommonPrefix(prefix, others)
  {
    forall q ensures IsDirOfAll(q, others) <==> IsDirOfAll(q, names) {
    }
  }

  method Parse(records: seq<Record>) returns (r: Outcome)
    ensures
      if ScanError(records).Some? then r == Failed(ScanError(records).value)
      else if Mode !in records then r == Failed(MissingMode)
      else if forall f :: !HasFile(records, f) then r == Failed(NoData)
      else r.Parsed? && exists names, prefix :: IsProfileOf(r.profile, records, names, prefix)
  {
    hide IsExpansion, HasFile, ScanError, IsCommonPrefix, FilesAre;
    var error, files, hasModeLine := Scan(records);
    if error.Some? {
      return Failed(error.value);
    }
    if !hasModeLine {
      return Failed(MissingMode);
    }
    FilesOfExpansion(files, records);
    if files == map[] {
      return Failed(NoData);
    }
    var unordered, sorted := Names(files);
    ghost var some := ElementOf(files.Keys);
    assert some in unordered && HasFile(records, some);
    var common := FindCommonPrefix(unordered);
    assert forall n :: n in unordered ==> common <= n by { CommonIsPrefix(common, unordered); }
    var out, totalLines, totalHit := BuildFiles(files, sorted, common, records);
    SamePrefix(common, unordered, sorted);
    r := Parsed(Profile(out, Rate(totalHit, totalLines), totalHit, totalLines));
    assert IsProfileOf(r.profile, records, sorted, common);
  }

  lemma CommonIsPrefix(p: Text, names: seq<Text>)
    requires IsCommonPrefix(p, names)
    ensures forall n :: n in names ==> p <= n
  {
  }

  lemma FilesOfExpansion(files: FileLines, records: seq<Record>)
    requires IsExpansion(files, records)
    ensures forall f :: f in files <==> HasFile(records, f)
  {
  }

  // ---- What the report is like ----

  /** Different files keep different paths. */
  lemma PathsAreDistinct(p: Profile, records: seq<Record>, names: seq<Text>, prefix: Text, i: nat, j: nat)
    requires IsProfileOf(p, records, names, prefix) && i < j < |p.files|
    ensures p.files[i].path != p.files[j].path
  {
    hide Before;
    BeforeIsIrreflexive(names[i]);
  }

  function Cells(file: Text, first: int, last: int): (s: set<FileLine>)
    ensures forall c :: c in s <==> c.path == file && first <= c.n <= last
    ensures |s| == if first <= last then last - first + 1 else 0
    decreases last - first
  {
    if first > last then {} else Cells(file, first, last - 1) + {FileLine(file, last)}
  }

  /** All covered lines: no more than the blocks are long together. */
  lemma {:induction false} AllCells(records: seq<Record>) returns (s: set<FileLine>)
    ensures forall c :: c in s <==> IsCovered(records, c.path, c.n)
    ensures |s| <= TotalExpanded(records)
  {
    if records == [] {
      s := {};
    } else {
      var front, r := records[..|records| - 1], records[|records| - 1];
      var before := AllCells(front);
      var own := if r.Block? then Cells(r.file, r.startLine, r.endLine) else {};
      s := before + own;
      UnionIsSmaller(before, own);
      forall c ensures c in s <==> IsCovered(records, c.path, c.n) {
        assert records == front + [r];
        OneMore(front, r, c.path, c.n);
      }
    }
  }

  lemma UnionIsSmaller(a: set<FileLine>, b: set<FileLine>)
    ensures |a + b| <= |a| + |b|
  {
    assert a + b == a + (b - a);
    SubsetIsSmaller(b - a, b);
  }

  function CellsOf(file: Text, lines: seq<LineCoverage>): set<FileLine> {
    set l | l in lines :: FileLine(file, l.lineNumber)
  }

  lemma {:induction false} CountLines(file: Text, lines: seq<LineCoverage>)
    requires Ascending(lines)
    ensures |CellsOf(file, lines)| == |lines|
  {
    if lines != [] {
      var front, last := lines[..|lines| - 1], lines[|lines| - 1];
      CountLines(file, front);
      assert lines == front + [last];
      assert CellsOf(file, lines) == CellsOf(file, front) + {FileLine(file, last.lineNumber)};
      assert FileLine(file, last.lineNumber) !in CellsOf(file, front);
    }
  }

  /** The lines of the first files of a report, as cells. */
  lemma {:induction false} CountFiles(files: seq<FileCoverage>, names: seq<Text>, prefix: Text, records: seq<Record>) returns (cells: set<FileLine>)
    requires NamesInOrder(names) && FilesAre(files, names, prefix, records)
    ensures |cells| == TotalLines(files) && forall c :: c in cells ==> IsCovered(records, c.path, c.n) && c.path in names
  {
    hide Before, IsCovered, HitCount;
    if files == [] {
      cells := {};
    } else {
      var front, last, name := files[..|files| - 1], files[|files| - 1], names[|names| - 1];
      var before := CountFiles(front, names[..|names| - 1], prefix, records);
      CountLines(name, last.lines);
      BeforeIsIrreflexive(name);
      assert name !in names[..|names| - 1];
      assert before !! CellsOf(name, last.lines);
      cells := before + CellsOf(name, last.lines);
    }
  }

  /** A report never has more lines than the limit, whatever the ranges were. */
  lemma TotalIsBounded(p: Profile, records: seq<Record>, names: seq<Text>, prefix: Text)
    requires IsProfileOf(p, records, names, prefix) && ScanError(records).None?
    ensures p.linesTotal <= MAX_TOTAL_LINES && p.linesCovered <= p.linesTotal
  {
    hide IsFileOf, HasFile, IsCommonPrefix, ScanError, NamesInOrder, TotalLines, TotalHit;
    ScannedIsPlausible(records);
    var cells := CountFiles(p.files, names, prefix, records);
    var all := AllCells(records);
    SubsetIsSmaller(cells, all);
    HitIsSmaller(p.files);
  }

  lemma {:induction false} HitIsSmaller(files: seq<FileCoverage>)
    ensures TotalHit(files) <= TotalLines(files)
  {
    if files != [] {
      HitIsSmaller(files[..|files| - 1]);
    }
  }

  // ---- Which error, and the figures ----

  /** A block whose lines cannot be those of a file. */
  predicate IsBadRange(r: Record) {
    r.Block? && (r.startLine < 1 || r.endLine < r.startLine || r.endLine > 2_000_000)
  }

  /** The lines of all blocks, as often as blocks have them. */
  function BlockLines(records: seq<Record>): int {
    if records == [] then 0
    else
      var r := records[|records| - 1];
      BlockLines(records[..|records| - 1]) + if r.Block? then r.endLine - r.startLine + 1 else 0
  }

  /** Nothing is wrong with the first `k` records. */
  ghost predicate SoundTo(records: seq<Record>, k: nat)
    requires k <= |records|
  {
    forall j :: 0 <= j < k ==> !IsBadRange(records[j]) && BlockLines(records[..j + 1]) <= 2_000_000
  }

  lemma {:induction false} SoundHasNoError(records: seq<Record>, k: nat)
    requires k <= |records| && SoundTo(records, k)
    ensures ScanError(records[..k]).None? && TotalExpanded(records[..k]) == BlockLines(records[..k])
  {
    if k > 0 {
      SoundHasNoError(records, k - 1);
      assert records[..k][..k - 1] == records[..k - 1];
    }
  }

  /** The first record something is wrong with decides the error: a bad range goes before too many lines. */
  lemma FirstErrorDecides(records: seq<Record>, k: nat)
    requires k < |records| && SoundTo(records, k)
    ensures IsBadRange(records[k]) ==> ScanError(records) == Some(BadRange)
    ensures !IsBadRange(records[k]) && BlockLines(records[..k + 1]) > 2_000_000 ==> ScanError(records) == Some(TooManyLines)
  {
    SoundHasNoError(records, k);
    assert records[..k + 1][..k] == records[..k];
    if IsBadRange(records[k]) || BlockLines(records[..k + 1]) > 2_000_000 {
      ErrorStays(records, k + 1);
    }
  }

  lemma NoErrorWhenSound(records: seq<Record>)
    requires SoundTo(records, |records|)
    ensures ScanError(records) == None
  {
    SoundHasNoError(records, |records|);
    assert records[..|records|] == records;
  }

  /** Rates times totals are what is hit. */
  lemma RatesAre(p: Profile, records: seq<Record>, names: seq<Text>, prefix: Text)
    requires IsProfileOf(p, records, names, prefix)
    ensures p.linesTotal > 0 ==> p.lineRate * p.linesTotal as real == p.linesCovered as real
    ensures p.linesTotal == 0 ==> p.lineRate == 0.0
  {
    hide FilesAre, TotalLines, TotalHit, Rate, IsCommonPrefix;
    RateIs(p.linesCovered, p.linesTotal);
  }

  lemma FileRatesAre(p: Profile, records: seq<Record>, names: seq<Text>, prefix: Text, k: nat)
    requires IsProfileOf(p, records, names, prefix) && k < |p.files|
    ensures
      var f := p.files[k];
      f.lineRate * |f.lines| as real == |HitPositions(f.lines)| as real && (f.lines == [] ==> f.lineRate == 0.0)
  {
    hide IsFileOf, TotalLines, TotalHit, Rate, CoveredLines, IsCommonPrefix;
    LineRateIs(p.files[k].lineRate, p.files[k].lines);
  }

  /** The totals add up file by file. */
  lemma TotalsAre(p: Profile, records: seq<Record>, names: seq<Text>, prefix: Text)
    requires IsProfileOf(p, records, names, prefix)
    ensures p.linesTotal == TotalLines(p.files) && p.linesCovered == TotalHit(p.files)
  {
  }

  lemma FilesAdd(files: seq<FileCoverage>, f: FileCoverage)
    ensures TotalLines([]) == 0 == TotalHit([])
    ensures TotalLines(files + [f]) == TotalLines(files) + |f.lines| && TotalHit(files + [f]) == TotalHit(files) + |HitPositions(f.lines)|
  {
    assert (files + [f])[..|files|] == files;
    CoveredAreHit(f.lines);
  }
}
