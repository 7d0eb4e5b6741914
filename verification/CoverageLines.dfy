/** Covered lines and rates, as every report has them. */
module CoverageLines {
  import opened Sets
  import opened Text

  datatype LineCoverage = LineCoverage(lineNumber: int, hitCount: int)

  /** Line `n` of a file. */
  datatype FileLine = FileLine(path: Text, n: int)

  function Rate(covered: int, total: int): real {
    if total > 0 then covered as real / total as real else 0.0
  }

  function CoveredLines(lines: seq<LineCoverage>): (n: nat)
    ensures n <= |lines|
  {
    if lines == [] then 0
    else CoveredLines(lines[..|lines| - 1]) + if lines[|lines| - 1].hitCount > 0 then 1 else 0
  }

  /** A rate is what its total has to be multiplied by, and nothing of nothing is none. */
  lemma RateIs(covered: int, total: int)
    ensures total > 0 ==> Rate(covered, total) * total as real == covered as real
    ensures total <= 0 ==> Rate(covered, total) == 0.0
  {
  }

  function HitPositions(lines: seq<LineCoverage>): set<int> {
    set i | 0 <= i < |lines| && lines[i].hitCount > 0
  }

  /** Covered are the lines with a positive count. */
  lemma {:induction false} CoveredAreHit(lines: seq<LineCoverage>)
    ensures CoveredLines(lines) == |HitPositions(lines)|
  {
    if lines != [] {
      var front := lines[..|lines| - 1];
      CoveredAreHit(front);
      assert HitPositions(lines) == HitPositions(front) + if lines[|front|].hitCount > 0 then {|front|} else {};
    } else {
      assert HitPositions(lines) == {};
    }
  }

  /** The rate of some lines. */
  lemma LineRateIs(rate: real, lines: seq<LineCoverage>)
    requires rate == Rate(CoveredLines(lines), |lines|)
    ensures rate * |lines| as real == |HitPositions(lines)| as real && (lines == [] ==> rate == 0.0)
  {
    hide Rate, CoveredLines;
    RateIs(CoveredLines(lines), |lines|);
    CoveredAreHit(lines);
    if lines == [] {
      assert HitPositions(lines) == {};
    }
  }

  ghost predicate Ascending(lines: seq<LineCoverage>) {
    forall i, j :: 0 <= i < j < |lines| ==> lines[i].lineNumber < lines[j].lineNumber
  }

  ghost predicate ListsLine(lines: seq<LineCoverage>, n: int) {
    exists l :: l in lines && l.lineNumber == n
  }

  function InsertLine(ls: seq<LineCoverage>, l: LineCoverage): seq<LineCoverage> {
    if ls == [] || l.lineNumber < ls[0].lineNumber then [l] + ls else [ls[0]] + InsertLine(ls[1..], l)
  }

  lemma {:induction false} InsertLineKeeps(ls: seq<LineCoverage>, l: LineCoverage)
    requires Ascending(ls) && !ListsLine(ls, l.lineNumber)
    ensures Ascending(InsertLine(ls, l)) && forall x :: x in InsertLine(ls, l) <==> x in ls || x == l
  {
    if ls != [] && l.lineNumber >= ls[0].lineNumber {
      assert ls[0] in ls && forall x :: x in ls <==> x == ls[0] || x in ls[1..];
      InsertLineKeeps(ls[1..], l);
      LaterLines(ls, l);
    } else if ls != [] {
      assert ls[0] in ls;
    }
  }

  lemma LaterLines(ls: seq<LineCoverage>, l: LineCoverage)
    requires ls != [] && Ascending(ls) && ls[0].lineNumber < l.lineNumber && Ascending(InsertLine(ls[1..], l))
    requires forall x :: x in InsertLine(ls[1..], l) ==> x in ls[1..] || x == l
    ensures Ascending([ls[0]] + InsertLine(ls[1..], l))
  {
    hide InsertLine;
    var rest := InsertLine(ls[1..], l);
    forall j | 0 <= j < |rest| ensures ls[0].lineNumber < rest[j].lineNumber {
      assert rest[j] in rest;
    }
  }

  /** The lines of a map in ascending order. */
  method SortLines(lines: map<int, int>) returns (ls: seq<LineCoverage>)
    ensures Ascending(ls)
    ensures forall l :: l in ls <==> l.lineNumber in lines && l.hitCount == lines[l.lineNumber]
  {
    ls := [];
    var todo := lines.Keys;
    while todo != {}
      invariant todo <= lines.Keys && Ascending(ls)
      invariant forall l :: l in ls <==> l.lineNumber in lines && l.lineNumber !in todo && l.hitCount == lines[l.lineNumber]
      decreases |todo|
    {
      ghost var _ := ElementOf(todo);
      var n :| n in todo;
      InsertLineKeeps(ls, LineCoverage(n, lines[n]));
      ls := InsertLine(ls, LineCoverage(n, lines[n]));
      todo := todo - {n};
    }
  }
}
