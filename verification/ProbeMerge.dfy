/** Joining the probe maps of several files (the second half of `mergeData`, OmnivoreReportTask.kt). */
module ProbeMerge {
  import opened ByteStream
  import opened MethodNames
  import opened ProbeMap
  import opened Sets
  import opened Text
  import opened Wrappers
  import Maps = ProbeFile

  type ClassMaps = map<int, ClassMap>

  // ---- What a probe means, as a string ----

  const BAR: CodeUnit := 0x7C

  function Digits(n: nat): (t: Text)
    ensures |t| > 0 && forall i :: 0 <= i < |t| ==> 0x30 <= t[i] <= 0x39
  {
    if n < 10 then [0x30 + n] else Digits(n / 10) + [0x30 + n % 10]
  }

  function Decimal(n: int): Text {
    if n < 0 then [0x2D] + Digits(-n) else Digits(n)
  }

  /** The number written as `t`. */
  function ValueOf(t: Text): int {
    if t == [] then 0 else 10 * ValueOf(t[..|t| - 1]) + t[|t| - 1] as int - 0x30
  }

  function KindName(kind: ProbeType): Text {
    if kind == LINE then [0x4C, 0x49, 0x4E, 0x45] else [0x42, 0x52, 0x41, 0x4E, 0x43, 0x48]
  }

  /** Line, method name, descriptor and type, with bars between them. */
  function Meaning(e: ProbeEntry): Text {
    Decimal(e.lineNumber) + [BAR] + (e.methodName + [BAR] + e.methodDesc + [BAR] + KindName(e.kind))
  }

  lemma {:induction false} DigitsAreValue(n: nat)
    ensures ValueOf(Digits(n)) == n
  {
    if n >= 10 {
      DigitsAreValue(n / 10);
      assert Digits(n)[..|Digits(n)| - 1] == Digits(n / 10);
    } else {
      assert Digits(n)[..0] == [];
    }
  }

  lemma DecimalIsInjective(n: int, m: int)
    requires Decimal(n) == Decimal(m)
    ensures n == m
  {
    hide Digits, ValueOf;
    assert Decimal(n)[0] == Decimal(m)[0];
    if n < 0 && m < 0 {
      assert Digits(-n) == Decimal(n)[1..] == Decimal(m)[1..] == Digits(-m);
      DigitsAreValue(-n);
      DigitsAreValue(-m);
    } else if n >= 0 && m >= 0 {
      DigitsAreValue(n);
      DigitsAreValue(m);
    }
  }

  /** Two texts that agree, cut at their first bar. */
  lemma CutAtFirstBar(a: Text, x: Text, b: Text, y: Text)
    requires BAR !in a && BAR !in b && a + [BAR] + x == b + [BAR] + y
    ensures a == b && x == y
  {
    var s, t := a + [BAR] + x, b + [BAR] + y;
    assert s[|a|] == BAR && t[|b|] == BAR;
    assert a == s[..|a|] && b == t[..|b|] && x == s[|a| + 1..] && y == t[|b| + 1..];
  }

  lemma CutAtLastBar(x: Text, a: Text, y: Text, b: Text)
    requires BAR !in a && BAR !in b && x + [BAR] + a == y + [BAR] + b
    ensures a == b && x == y
  {
    var s, t := x + [BAR] + a, y + [BAR] + b;
    assert s[|x|] == BAR && t[|y|] == BAR;
    assert x == s[..|x|] && y == t[..|y|] && a == s[|x| + 1..] && b == t[|y| + 1..];
  }

  /** Equal meanings: the same line and type, and method names and descriptors that read the same once joined by a bar. */
  lemma MeaningTells(e: ProbeEntry, f: ProbeEntry)
    ensures Meaning(e) == Meaning(f) <==>
      && e.lineNumber == f.lineNumber && e.kind == f.kind
      && e.methodName + [BAR] + e.methodDesc == f.methodName + [BAR] + f.methodDesc
  {
    hide Digits;
    if Meaning(e) == Meaning(f) {
      CutAtFirstBar(Decimal(e.lineNumber), e.methodName + [BAR] + e.methodDesc + [BAR] + KindName(e.kind),
                    Decimal(f.lineNumber), f.methodName + [BAR] + f.methodDesc + [BAR] + KindName(f.kind));
      DecimalIsInjective(e.lineNumber, f.lineNumber);
      CutAtLastBar(e.methodName + [BAR] + e.methodDesc, KindName(e.kind), f.methodName + [BAR] + f.methodDesc, KindName(f.kind));
      assert |KindName(LINE)| == 4 && |KindName(BRANCH)| == 6;
    }
  }

  /** Where no method name has a bar, equal meanings are equal lines, names, descriptors and types. */
  lemma MeaningTellsFields(e: ProbeEntry, f: ProbeEntry)
    requires BAR !in e.methodName && BAR !in f.methodName
    ensures Meaning(e) == Meaning(f) <==>
      e.lineNumber == f.lineNumber && e.kind == f.kind && e.methodName == f.methodName && e.methodDesc == f.methodDesc
  {
    MeaningTells(e, f);
    if e.methodName + [BAR] + e.methodDesc == f.methodName + [BAR] + f.methodDesc {
      CutAtFirstBar(e.methodName, e.methodDesc, f.methodName, f.methodDesc);
    }
  }

  predicate HasBar(e: ProbeEntry) {
    BAR in e.methodName || BAR in e.methodDesc
  }

  /** `f` belongs to another method and yet means the same. */
  ghost predicate Confusable(e: ProbeEntry, f: ProbeEntry) {
    Meaning(e) == Meaning(f) && (e.methodName != f.methodName || e.methodDesc != f.methodDesc)
  }

  lemma NoBarNoConfusion(e: ProbeEntry, f: ProbeEntry)
    requires !HasBar(e)
    ensures !Confusable(e, f)
  {
    hide Meaning;
    MeaningTells(e, f);
    var s, t := e.methodName + [BAR] + e.methodDesc, f.methodName + [BAR] + f.methodDesc;
    if s == t {
      assert t[|f.methodName|] == BAR;
      assert forall i :: 0 <= i < |s| && i != |e.methodName| ==> s[i] != BAR;
      assert e.methodName == s[..|e.methodName|] && f.methodName == t[..|f.methodName|];
      assert e.methodDesc == s[|e.methodName| + 1..] && f.methodDesc == t[|f.methodName| + 1..];
    }
  }

  /** The entry of the method that comes out when the joined text is cut at another bar. */
  lemma BarConfuses(e: ProbeEntry) returns (f: ProbeEntry)
    requires HasBar(e)
    ensures Confusable(e, f)
  {
    hide Meaning;
    if BAR in e.methodName {
      var i :| 0 <= i < |e.methodName| && e.methodName[i] == BAR;
      f := e.(methodName := e.methodName[..i], methodDesc := e.methodName[i + 1..] + [BAR] + e.methodDesc);
      assert e.methodName == e.methodName[..i] + [BAR] + e.methodName[i + 1..];
      assert |f.methodName| != |e.methodName|;
    } else {
      var i :| 0 <= i < |e.methodDesc| && e.methodDesc[i] == BAR;
      f := e.(methodName := e.methodName + [BAR] + e.methodDesc[..i], methodDesc := e.methodDesc[i + 1..]);
      assert e.methodDesc == e.methodDesc[..i] + [BAR] + e.methodDesc[i + 1..];
      assert |f.methodName| != |e.methodName|;
    }
    assert e.methodName + [BAR] + e.methodDesc == f.methodName + [BAR] + f.methodDesc;
    MeaningTells(e, f);
  }

  /** An entry can be taken for one of another method exactly when its name or its descriptor has a bar. */
  lemma ConfusableIffBar(e: ProbeEntry)
    ensures HasBar(e) <==> exists f :: Confusable(e, f)
  {
    hide Confusable;
    if HasBar(e) {
      var f := BarConfuses(e);
    }
    if f :| Confusable(e, f) {
      if !HasBar(e) { NoBarNoConfusion(e, f); }
    }
  }

  /** The entry is of a method that a class file can have. */
  predicate IsOfMethod(e: ProbeEntry) {
    IsMethodName(e.methodName) && IsDescriptor(e.methodDesc)
  }

  /** The joined text read with the bar at `i` between name and descriptor. */
  predicate CutsAt(e: ProbeEntry, i: nat) {
    var text := e.methodName + [BAR] + e.methodDesc;
    i < |text| && text[i] == BAR && IsMethodName(text[..i]) && IsDescriptor(text[i + 1..])
  }

  lemma OtherCut(e: ProbeEntry, f: ProbeEntry)
    requires IsOfMethod(f) && Confusable(e, f)
    ensures |f.methodName| != |e.methodName| && CutsAt(e, |f.methodName|)
  {
    hide Meaning, IsMethodName, IsDescriptor;
    MeaningTells(e, f);
    var text, i := e.methodName + [BAR] + e.methodDesc, |f.methodName|;
    assert text[..i] == f.methodName && text[i + 1..] == f.methodDesc && text[i] == BAR;
  }

  lemma CutConfuses(e: ProbeEntry, i: nat) returns (f: ProbeEntry)
    requires i != |e.methodName| && CutsAt(e, i)
    ensures IsOfMethod(f) && Confusable(e, f)
  {
    hide Meaning, IsMethodName, IsDescriptor;
    var text := e.methodName + [BAR] + e.methodDesc;
    f := e.(methodName := text[..i], methodDesc := text[i + 1..]);
    assert text == f.methodName + [BAR] + f.methodDesc;
    MeaningTells(e, f);
    assert |f.methodName| != |e.methodName|;
  }

  /** Among the methods class files can have: another bar has a name before it and a descriptor after it. */
  lemma ConfusableIffOtherCut(e: ProbeEntry)
    ensures (exists f :: IsOfMethod(f) && Confusable(e, f)) <==> exists i: nat :: i != |e.methodName| && CutsAt(e, i)
  {
    hide Confusable, CutsAt, IsOfMethod;
    if f :| IsOfMethod(f) && Confusable(e, f) {
      OtherCut(e, f);
    }
    if i: nat :| i != |e.methodName| && CutsAt(e, i) {
      var f := CutConfuses(e, i);
    }
  }

  /** `f` of `(La|(Lb;)V` and `f|(La` of `(Lb;)V`. */
  const SHORT_NAME: Text := [0x66]
  const LONG_DESC: Text := [0x28, 0x4C, 0x61, BAR, 0x28, 0x4C, 0x62, 0x3B, 0x29, 0x56]
  const LONG_NAME: Text := [0x66, BAR, 0x28, 0x4C, 0x61]
  const SHORT_DESC: Text := [0x28, 0x4C, 0x62, 0x3B, 0x29, 0x56]

  lemma BarsAreValid()
    ensures IsMethodName(SHORT_NAME) && IsDescriptor(LONG_DESC) && IsMethodName(LONG_NAME) && IsDescriptor(SHORT_DESC)
  {
    hide IsDescriptor;
    DescriptorOfOne([0x61, BAR, 0x28, 0x4C, 0x62]);
    DescriptorOfOne([0x62]);
    assert LONG_DESC == [OPEN, 0x4C] + [0x61, BAR, 0x28, 0x4C, 0x62] + [SEMICOLON, CLOSE, 0x56];
    assert SHORT_DESC == [OPEN, 0x4C] + [0x62] + [SEMICOLON, CLOSE, 0x56];
  }

  /** Two methods of one class file that mean the same. */
  lemma BarsConfuse(index: int, line: int)
    ensures
      var e := ProbeEntry(index, line, SHORT_NAME, LONG_DESC, LINE, false, NO_BRANCH);
      var f := ProbeEntry(index, line, LONG_NAME, SHORT_DESC, LINE, false, NO_BRANCH);
      IsOfMethod(e) && IsOfMethod(f) && Confusable(e, f)
  {
    var e := ProbeEntry(index, line, SHORT_NAME, LONG_DESC, LINE, false, NO_BRANCH);
    var f := ProbeEntry(index, line, LONG_NAME, SHORT_DESC, LINE, false, NO_BRANCH);
    BarsAreValid();
    hide IsMethodName, IsDescriptor;
    hide Meaning;
    MeaningTells(e, f);
  }

  /** `(L` name `;)V` */
  lemma DescriptorOfOne(name: Text)
    requires name != [] && forall c :: c in name ==> c !in {0x2E, SEMICOLON, BRACKET}
    ensures IsDescriptor([OPEN, 0x4C] + name + [SEMICOLON, CLOSE, 0x56])
  {
    var t := [OPEN, 0x4C] + name + [SEMICOLON, CLOSE, 0x56];
    var k := |name| + 3;
    var inner := [0x4C] + name + [SEMICOLON];
    assert t[1..k] == inner && t[k] == CLOSE && t[k + 1..] == VOID;
    SemicolonAfter([0x4C] + name, []);
    assert [0x4C] + name + [SEMICOLON] + [] == inner;
    assert inner[1..|name| + 1] == name;
    assert TypeLength(inner) == |inner| && inner[|inner|..] == [];
    assert ClosesAt(t, k);
  }

  lemma {:induction false} SemicolonAfter(a: Text, b: Text)
    requires SEMICOLON !in a
    ensures FindSemicolon(a + [SEMICOLON] + b) == |a|
  {
    if a == [] {
      assert (a + [SEMICOLON] + b)[0] == SEMICOLON;
    } else {
      assert (a + [SEMICOLON] + b)[1..] == a[1..] + [SEMICOLON] + b;
      SemicolonAfter(a[1..], b);
    }
  }

  /** Numbers are written digit by digit, those below zero with a minus sign. */
  lemma NumbersAre(n: int, d: int)
    requires n > 0 && 0 <= d < 10
    ensures Decimal(d) == [0x30 + d as CodeUnit] && Decimal(10 * n + d) == Decimal(n) + [0x30 + d as CodeUnit]
    ensures Decimal(-n) == [0x2D] + Decimal(n)
  {
  }

  /** Line 42 of `f` of `()V` is `42|f|()V|LINE`, or `BRANCH` for a branch probe. */
  lemma MeaningIs(e: ProbeEntry)
    requires e.lineNumber == 42 && e.methodName == [0x66] && e.methodDesc == [0x28, 0x29, 0x56]
    ensures Meaning(e) == [0x34, 0x32, 0x7C, 0x66, 0x7C, 0x28, 0x29, 0x56, 0x7C]
                          + if e.kind == LINE then [0x4C, 0x49, 0x4E, 0x45] else [0x42, 0x52, 0x41, 0x4E, 0x43, 0x48]
  {
    assert Digits(42) == Digits(4) + [0x32];
  }

  // ---- The state of the loops ----

  /** The joined maps, what each index was first seen to mean, and the classes seen to disagree. */
  datatype Progress = Progress(maps: ClassMaps, seen: map<int, map<int, Text>>, conflicting: set<int>)

  const START := Progress(map[], map[], {})

  function Header(c: ClassMap): ClassMap {
    c.(probes := [])
  }

  function TakeHeader(s: Progress, c: ClassMap): Progress {
    Progress(if c.classId in s.maps then s.maps else s.maps[c.classId := Header(c)],
             if c.classId in s.seen then s.seen else s.seen[c.classId := map[]],
             s.conflicting)
  }

  function TakeProbe(s: Progress, id: int, e: ProbeEntry): Progress
    requires id in s.maps && id in s.seen
  {
    var seen, meaning := s.seen[id], Meaning(e);
    if e.probeIndex in seen then
      if seen[e.probeIndex] != meaning then s.(conflicting := s.conflicting + {id}) else s
    else
      s.(maps := s.maps[id := s.maps[id].(probes := s.maps[id].probes + [e])],
         seen := s.seen[id := seen[e.probeIndex := meaning]])
  }

  /** Entry `entry` was seen for class `classId`. */
  datatype Occurrence = Occurrence(classId: int, entry: ProbeEntry)

  ghost predicate DistinctIndices(es: seq<ProbeEntry>) {
    forall j, k :: 0 <= j < k < |es| ==> es[j].probeIndex != es[k].probeIndex
  }

  ghost predicate HasIndex(es: seq<ProbeEntry>, index: int) {
    exists k :: 0 <= k < |es| && es[k].probeIndex == index
  }

  ghost predicate HasHeader(headers: set<ClassMap>, id: int) {
    exists h :: h in headers && h.classId == id
  }

  /** Two occurrences of one index of the class disagree. */
  ghost predicate Clash(occ: set<Occurrence>, id: int) {
    exists o, p :: o in occ && p in occ && o.classId == p.classId == id
      && o.entry.probeIndex == p.entry.probeIndex && Meaning(o.entry) != Meaning(p.entry)
  }

  ghost predicate Recorded(probes: seq<ProbeEntry>, seen: map<int, Text>, id: int, occ: set<Occurrence>) {
    && DistinctIndices(probes)
    && (forall k :: 0 <= k < |probes| ==>
          && Occurrence(id, probes[k]) in occ
          && probes[k].probeIndex in seen && seen[probes[k].probeIndex] == Meaning(probes[k]))
    && (forall index :: index in seen ==> HasIndex(probes, index))
  }

  /** What holds after the headers and occurrences given, in whatever order they came. */
  ghost predicate Settled(s: Progress, headers: set<ClassMap>, occ: set<Occurrence>) {
    && s.seen.Keys == s.maps.Keys
    && (forall id :: id in s.maps <==> HasHeader(headers, id))
    && (forall id :: id in s.maps ==> s.maps[id].classId == id && Header(s.maps[id]) in headers)
    && (forall id :: id in s.maps ==> Recorded(s.maps[id].probes, s.seen[id], id, occ))
    && (forall o :: o in occ ==> o.classId in s.maps && o.entry.probeIndex in s.seen[o.classId])
    && (forall id :: id in s.conflicting <==> Clash(occ, id))
  }

  lemma HeaderKeeps(s: Progress, headers: set<ClassMap>, occ: set<Occurrence>, c: ClassMap)
    requires Settled(s, headers, occ)
    ensures Settled(TakeHeader(s, c), headers + {Header(c)}, occ)
  {
    hide Recorded, Clash;
    var t, all := TakeHeader(s, c), headers + {Header(c)};
    forall id ensures HasHeader(all, id) <==> HasHeader(headers, id) || id == c.classId {
      if id == c.classId {
        assert Header(c) in all;
      }
      if HasHeader(headers, id) {
        var h :| h in headers && h.classId == id;
        assert h in all;
      }
    }
    assert c.classId !in s.maps ==> Recorded([], map[], c.classId, occ) by {
      NothingRecorded(c.classId, occ);
    }
  }

  lemma NothingRecorded(id: int, occ: set<Occurrence>)
    ensures Recorded([], map[], id, occ)
  {
  }

  lemma ClashOneMore(s: Progress, headers: set<ClassMap>, occ: set<Occurrence>, id: int, e: ProbeEntry, other: int)
    requires Settled(s, headers, occ) && id in s.maps
    ensures other in TakeProbe(s, id, e).conflicting <==> Clash(occ + {Occurrence(id, e)}, other)
  {
    hide Meaning, HasHeader;
    var all, o := occ + {Occurrence(id, e)}, Occurrence(id, e);
    if Clash(occ, other) {
      var p, q :| p in occ && q in occ && p.classId == q.classId == other
        && p.entry.probeIndex == q.entry.probeIndex && Meaning(p.entry) != Meaning(q.entry);
      assert p in all && q in all;
    }
    if e.probeIndex in s.seen[id] {
      var k :| 0 <= k < |s.maps[id].probes| && s.maps[id].probes[k].probeIndex == e.probeIndex;
      var first := Occurrence(id, s.maps[id].probes[k]);
      assert first in occ && s.seen[id][e.probeIndex] == Meaning(first.entry);
      assert o in all && first in all;
      if Clash(all, other) && !Clash(occ, other) {
        var p, q :| p in all && q in all && p.classId == q.classId == other
          && p.entry.probeIndex == q.entry.probeIndex && Meaning(p.entry) != Meaning(q.entry);
        var old' := if p == o then q else p;
        assert old' in occ && other == id;
        assert Meaning(old'.entry) == Meaning(first.entry);
      }
    }
  }

  lemma RecordedOneMore(probes: seq<ProbeEntry>, seen: map<int, Text>, id: int, occ: set<Occurrence>, e: ProbeEntry)
    requires Recorded(probes, seen, id, occ)
    ensures Recorded(probes, seen, id, occ + {Occurrence(id, e)})
    ensures e.probeIndex !in seen ==>
      Recorded(probes + [e], seen[e.probeIndex := Meaning(e)], id, occ + {Occurrence(id, e)})
  {
    hide Meaning;
    forall index | index in seen ensures HasIndex(probes + [e], index) {
      var k :| 0 <= k < |probes| && probes[k].probeIndex == index;
      assert (probes + [e])[k].probeIndex == index;
    }
    assert (probes + [e])[|probes|].probeIndex == e.probeIndex;
    assert HasIndex(probes + [e], e.probeIndex);
  }

  lemma RecordedElsewhere(probes: seq<ProbeEntry>, seen: map<int, Text>, id: int, occ: set<Occurrence>, o: Occurrence)
    requires Recorded(probes, seen, id, occ)
    ensures Recorded(probes, seen, id, occ + {o})
  {
    hide Meaning;
  }

  lemma ProbeKeeps(s: Progress, headers: set<ClassMap>, occ: set<Occurrence>, id: int, e: ProbeEntry)
    requires Settled(s, headers, occ) && id in s.maps
    ensures id in s.seen && Settled(TakeProbe(s, id, e), headers, occ + {Occurrence(id, e)})
  {
    hide Meaning, Recorded, Clash, HasHeader;
    var t, all := TakeProbe(s, id, e), occ + {Occurrence(id, e)};
    forall k ensures k in t.conflicting <==> Clash(all, k) {
      ClashOneMore(s, headers, occ, id, e, k);
    }
    forall k | k in t.maps ensures Recorded(t.maps[k].probes, t.seen[k], k, all) {
      RecordedElsewhere(s.maps[k].probes, s.seen[k], k, occ, Occurrence(id, e));
      RecordedOneMore(s.maps[id].probes, s.seen[id], id, occ, e);
    }
  }

  // ---- What the result says about a set of files ----

  ghost predicate SomeFileMaps(files: set<ClassMaps>, id: int) {
    exists f: ClassMaps :: f in files && id in f
  }

  ghost predicate Occurs(files: set<ClassMaps>, id: int, e: ProbeEntry) {
    exists f: ClassMaps :: f in files && id in f && e in f[id].probes
  }

  /** All occurrences of an index agree on what it means. */
  ghost predicate Agreed(files: set<ClassMaps>, id: int) {
    forall e, g :: Occurs(files, id, e) && Occurs(files, id, g) && e.probeIndex == g.probeIndex ==> Meaning(e) == Meaning(g)
  }

  ghost predicate Represented(es: seq<ProbeEntry>, e: ProbeEntry) {
    exists k :: 0 <= k < |es| && es[k].probeIndex == e.probeIndex && Meaning(es[k]) == Meaning(e)
  }

  /** The name and source file are those of one of the files. */
  ghost predicate Headed(c: ClassMap, files: set<ClassMaps>, id: int) {
    exists f: ClassMaps :: f in files && id in f && Header(c) == Header(f[id])
  }

  /**
   * A class is in the result exactly when some file has it and all occurrences of each of its
   * indices agree; each index then appears once, as one of its occurrences.
   */
  ghost predicate IsMergeOf(maps: ClassMaps, files: set<ClassMaps>) {
    && (forall id :: id in maps <==> SomeFileMaps(files, id) && Agreed(files, id))
    && (forall id :: id in maps ==>
          && Headed(maps[id], files, id)
          && DistinctIndices(maps[id].probes)
          && (forall k :: 0 <= k < |maps[id].probes| ==> Occurs(files, id, maps[id].probes[k]))
          && (forall e :: Occurs(files, id, e) ==> Represented(maps[id].probes, e)))
  }

  /** Order and repetition of the files change neither the classes nor what their indices mean. */
  lemma MergeIsUnique(a: ClassMaps, b: ClassMaps, files: set<ClassMaps>, id: int, e: ProbeEntry)
    requires IsMergeOf(a, files) && IsMergeOf(b, files)
    ensures id in a <==> id in b
    ensures id in a && e in a[id].probes ==> Represented(b[id].probes, e)
    ensures id in a ==> |a[id].probes| == |b[id].probes|
  {
    hide Meaning, Occurs, Agreed, SomeFileMaps, Headed;
    assert id in a <==> SomeFileMaps(files, id) && Agreed(files, id);
    if id in a {
      assert id in b;
      if e in a[id].probes {
        var k :| 0 <= k < |a[id].probes| && a[id].probes[k] == e;
        assert Occurs(files, id, a[id].probes[k]);
      }
      SameIndices(a, b, files, id);
      SameIndices(b, a, files, id);
    }
  }

  function Indices(es: seq<ProbeEntry>): set<int> {
    set k | 0 <= k < |es| :: es[k].probeIndex
  }

  lemma SameIndices(a: ClassMaps, b: ClassMaps, files: set<ClassMaps>, id: int)
    requires IsMergeOf(a, files) && IsMergeOf(b, files) && id in a && id in b
    ensures |a[id].probes| <= |b[id].probes|
  {
    hide Meaning, Occurs, Agreed, SomeFileMaps, Headed;
    forall i | i in Indices(a[id].probes) ensures i in Indices(b[id].probes) {
      var k :| 0 <= k < |a[id].probes| && a[id].probes[k].probeIndex == i;
      assert Occurs(files, id, a[id].probes[k]);
      assert Represented(b[id].probes, a[id].probes[k]);
    }
    CountIndices(a[id].probes);
    CountIndices(b[id].probes);
    SubsetIsSmaller(Indices(a[id].probes), Indices(b[id].probes));
  }

  lemma {:induction false} CountIndices(es: seq<ProbeEntry>)
    requires DistinctIndices(es)
    ensures |Indices(es)| == |es|
  {
    if es != [] {
      var front, last := es[..|es| - 1], es[|es| - 1];
      CountIndices(front);
      assert last.probeIndex !in Indices(front);
      assert Indices(es) == Indices(front) + {last.probeIndex};
    }
  }

  // ---- The loops ----

  function OccurrencesOf(id: int, es: seq<ProbeEntry>): set<Occurrence> {
    set e | e in es :: Occurrence(id, e)
  }

  method TakeOne(probeMap: ProbeMap, target: ClassProbeMap, probe: ProbeEntry, seen: map<int, map<int, Text>>, conflicting: set<int>)
    returns (seen': map<int, map<int, Text>>, conflicting': set<int>)
    requires probeMap.Valid() && target.classId in probeMap.entries && probeMap.entries[target.classId] == target
    requires target.classId in seen
    modifies target
    ensures probeMap.Valid() && target.classId in old(probeMap.Contents())
    ensures Progress(probeMap.Contents(), seen', conflicting')
         == TakeProbe(Progress(old(probeMap.Contents()), seen, conflicting), target.classId, probe)
  {
    hide Meaning;
    var id, index, meaning := target.classId, probe.probeIndex, Meaning(probe);
    seen', conflicting' := seen, conflicting;
    if index in seen[id] {
      if seen[id][index] != meaning {
        conflicting' := conflicting + {id};
      }
    } else {
      seen' := seen[id := seen[id][index := meaning]];
      probeMap.AddTo(target, probe);
    }
  }

  lemma OccurrencesOneMore(id: int, es: seq<ProbeEntry>, k: nat)
    requires k < |es|
    ensures OccurrencesOf(id, es[..k + 1]) == OccurrencesOf(id, es[..k]) + {Occurrence(id, es[k])}
  {
    assert es[..k + 1] == es[..k] + [es[k]];
  }

  /** One class of one file. */
  method TakeClass(probeMap: ProbeMap, c: ClassMap, seen: map<int, map<int, Text>>, conflicting: set<int>,
                   ghost headers: set<ClassMap>, ghost occ: set<Occurrence>)
    returns (seen': map<int, map<int, Text>>, conflicting': set<int>)
    requires probeMap.Valid() && Settled(Progress(probeMap.Contents(), seen, conflicting), headers, occ)
    modifies probeMap, probeMap.entries.Values
    ensures probeMap.Valid() && forall m :: m in probeMap.entries.Values ==> m in old(probeMap.entries.Values) || fresh(m)
    ensures Settled(Progress(probeMap.Contents(), seen', conflicting'), headers + {Header(c)}, occ + OccurrencesOf(c.classId, c.probes))
  {
    hide Settled, TakeProbe, Recorded;
    ghost var start := Progress(probeMap.Contents(), seen, conflicting);
    HeaderKeeps(start, headers, occ, c);
    SameKeys(start, headers, occ);
    var target := probeMap.GetOrCreateClassMap(c.classId, c.className, c.sourceFile);
    seen', conflicting' := if c.classId in seen then seen else seen[c.classId := map[]], conflicting;
    assert Progress(probeMap.Contents(), seen', conflicting') == TakeHeader(start, c);
    assert occ + OccurrencesOf(c.classId, c.probes[..0]) == occ;
    for k := 0 to |c.probes|
      invariant probeMap.Valid() && c.classId in probeMap.entries && probeMap.entries[c.classId] == target
      invariant forall m :: m in probeMap.entries.Values ==> m in old(probeMap.entries.Values) || fresh(m)
      invariant Settled(Progress(probeMap.Contents(), seen', conflicting'), headers + {Header(c)}, occ + OccurrencesOf(c.classId, c.probes[..k]))
    {
      ghost var now, here := Progress(probeMap.Contents(), seen', conflicting'), occ + OccurrencesOf(c.classId, c.probes[..k]);
      ProbeKeeps(now, headers + {Header(c)}, here, c.classId, c.probes[k]);
      OccurrencesOneMore(c.classId, c.probes, k);
      assert occ + OccurrencesOf(c.classId, c.probes[..k + 1]) == here + {Occurrence(c.classId, c.probes[k])};
      seen', conflicting' := TakeOne(probeMap, target, c.probes[k], seen', conflicting');
    }
    assert c.probes[..|c.probes|] == c.probes;
  }

  lemma SameKeys(s: Progress, headers: set<ClassMap>, occ: set<Occurrence>)
    requires Settled(s, headers, occ)
    ensures s.seen.Keys == s.maps.Keys
  {
  }

  ghost predicate ListsAll(cs: seq<ClassMap>, f: ClassMaps) {
    && (forall c :: c in cs ==> c.classId in f && f[c.classId] == c)
    && (forall id :: id in f ==> f[id] in cs && f[id].classId == id)
  }

  /** The class maps of a file in any order. */
  method AllClassMaps(probeMap: ProbeMap) returns (all: seq<ClassMap>)
    requires probeMap.Valid()
    ensures ListsAll(all, probeMap.Contents()) && Maps.DistinctClasses(all)
  {
    all := [];
    var todo := probeMap.entries.Keys;
    while todo != {}
      invariant todo <= probeMap.entries.Keys
      invariant forall id :: id in probeMap.entries && id !in todo ==> probeMap.entries[id].Contents() in all
      invariant forall c :: c in all ==> c.classId in probeMap.Contents() && c.classId !in todo && probeMap.Contents()[c.classId] == c
      invariant Maps.DistinctClasses(all)
      decreases |todo|
    {
      ghost var _ := ElementOf(todo);
      var id :| id in todo;
      assert probeMap.Contents()[id] == probeMap.entries[id].Contents();
      all := all + [probeMap.entries[id].Contents()];
      todo := todo - {id};
    }
  }

  // ---- From what was taken to what the files say ----

  function HeadersOf(cs: seq<ClassMap>): set<ClassMap> {
    set c | c in cs :: Header(c)
  }

  function EntriesOf(cs: seq<ClassMap>): set<Occurrence> {
    set c, e | c in cs && e in c.probes :: Occurrence(c.classId, e)
  }

  lemma ClassesOneMore(cs: seq<ClassMap>, k: nat)
    requires k < |cs|
    ensures HeadersOf(cs[..k + 1]) == HeadersOf(cs[..k]) + {Header(cs[k])}
    ensures EntriesOf(cs[..k + 1]) == EntriesOf(cs[..k]) + OccurrencesOf(cs[k].classId, cs[k].probes)
  {
    assert cs[..k + 1] == cs[..k] + [cs[k]];
  }

  method TakeFile(probeMap: ProbeMap, cs: seq<ClassMap>, seen: map<int, map<int, Text>>, conflicting: set<int>,
                  ghost headers: set<ClassMap>, ghost occ: set<Occurrence>)
    returns (seen': map<int, map<int, Text>>, conflicting': set<int>)
    requires probeMap.Valid() && Settled(Progress(probeMap.Contents(), seen, conflicting), headers, occ)
    modifies probeMap, probeMap.entries.Values
    ensures probeMap.Valid() && forall m :: m in probeMap.entries.Values ==> m in old(probeMap.entries.Values) || fresh(m)
    ensures Settled(Progress(probeMap.Contents(), seen', conflicting'), headers + HeadersOf(cs), occ + EntriesOf(cs))
  {
    hide Settled, Header, OccurrencesOf, HeadersOf, EntriesOf;
    seen', conflicting' := seen, conflicting;
    NoClasses();
    assert headers + HeadersOf(cs[..0]) == headers && occ + EntriesOf(cs[..0]) == occ;
    for k := 0 to |cs|
      invariant probeMap.Valid() && forall m :: m in probeMap.entries.Values ==> m in old(probeMap.entries.Values) || fresh(m)
      invariant Settled(Progress(probeMap.Contents(), seen', conflicting'), headers + HeadersOf(cs[..k]), occ + EntriesOf(cs[..k]))
    {
      ghost var hs, os := headers + HeadersOf(cs[..k]), occ + EntriesOf(cs[..k]);
      seen', conflicting' := TakeClass(probeMap, cs[k], seen', conflicting', hs, os);
      ClassesOneMore(cs, k);
      assert headers + HeadersOf(cs[..k + 1]) == hs + {Header(cs[k])};
      assert occ + EntriesOf(cs[..k + 1]) == os + OccurrencesOf(cs[k].classId, cs[k].probes);
    }
    assert cs[..|cs|] == cs;
  }

  lemma NoClasses()
    ensures HeadersOf([]) == {} && EntriesOf([]) == {}
  {
  }

  /** `headers` and `occ` are those of `files`. */
  ghost predicate Covers(headers: set<ClassMap>, occ: set<Occurrence>, files: set<ClassMaps>) {
    && (forall f: ClassMaps, id :: f in files && id in f ==> f[id].classId == id && Header(f[id]) in headers)
    && (forall h :: h in headers ==> exists f: ClassMaps, id :: f in files && id in f && h == Header(f[id]))
    && (forall o :: o in occ <==> Occurs(files, o.classId, o.entry))
  }

  lemma CoversOneMore(headers: set<ClassMap>, occ: set<Occurrence>, files: set<ClassMaps>, f: ClassMaps, cs: seq<ClassMap>)
    requires Covers(headers, occ, files) && ListsAll(cs, f)
    ensures Covers(headers + HeadersOf(cs), occ + EntriesOf(cs), files + {f})
  {
    var hs, os, all := headers + HeadersOf(cs), occ + EntriesOf(cs), files + {f};
    forall h | h in hs ensures exists g: ClassMaps, id :: g in all && id in g && h == Header(g[id]) {
      if h in headers {
        var g: ClassMaps, id :| g in files && id in g && h == Header(g[id]);
        assert g in all;
      } else {
        var c :| c in cs && h == Header(c);
        assert f in all && c.classId in f;
      }
    }
    forall o ensures o in os <==> Occurs(all, o.classId, o.entry) {
      OccursOneMore(occ, files, f, cs, o);
    }
  }

  lemma OccursOneMore(occ: set<Occurrence>, files: set<ClassMaps>, f: ClassMaps, cs: seq<ClassMap>, o: Occurrence)
    requires o in occ <==> Occurs(files, o.classId, o.entry)
    requires ListsAll(cs, f)
    ensures o in occ + EntriesOf(cs) <==> Occurs(files + {f}, o.classId, o.entry)
  {
    var all := files + {f};
    assert f in all;
    if o in EntriesOf(cs) {
      var c, e :| c in cs && e in c.probes && o == Occurrence(c.classId, e);
      assert f in all && o.classId in f && o.entry in f[o.classId].probes;
    }
    if Occurs(files, o.classId, o.entry) {
      var g: ClassMaps :| g in files && o.classId in g && o.entry in g[o.classId].probes;
      assert g in all;
    }
    if o.classId in f && o.entry in f[o.classId].probes {
      assert f[o.classId] in cs;
    }
  }

  /** Once all files are taken and the conflicting classes removed, what remains is the merge. */
  lemma SettledIsMerge(s: Progress, headers: set<ClassMap>, occ: set<Occurrence>, files: set<ClassMaps>)
    requires Settled(s, headers, occ) && Covers(headers, occ, files)
    ensures IsMergeOf(s.maps - s.conflicting, files)
  {
    hide Meaning, Recorded, Occurs, Settled, Covers, SomeFileMaps, Headed, Agreed, Represented, DistinctIndices;
    forall id ensures id in s.maps <==> SomeFileMaps(files, id) {
      MappedBySome(s, headers, occ, files, id);
    }
    forall id ensures id in s.conflicting <==> !Agreed(files, id) {
      ConflictIsDisagreement(s, headers, occ, files, id);
    }
    forall id | id in s.maps - s.conflicting
      ensures Headed(s.maps[id], files, id)
      ensures DistinctIndices(s.maps[id].probes)
      ensures forall k :: 0 <= k < |s.maps[id].probes| ==> Occurs(files, id, s.maps[id].probes[k])
      ensures forall e :: Occurs(files, id, e) ==> Represented(s.maps[id].probes, e)
    {
      HeadedByAFile(s, headers, occ, files, id);
      ResultOf(s, headers, occ, files, id);
    }
  }

  lemma MappedBySome(s: Progress, headers: set<ClassMap>, occ: set<Occurrence>, files: set<ClassMaps>, id: int)
    requires Settled(s, headers, occ) && Covers(headers, occ, files)
    ensures id in s.maps <==> SomeFileMaps(files, id)
  {
    hide Meaning, Recorded, Occurs, Clash;
    if h :| h in headers && h.classId == id {
      var f: ClassMaps, k :| f in files && k in f && h == Header(f[k]);
      assert f[k].classId == k;
    }
    if f: ClassMaps :| f in files && id in f {
      assert Header(f[id]) in headers && HasHeader(headers, id);
    }
  }

  lemma ConflictIsDisagreement(s: Progress, headers: set<ClassMap>, occ: set<Occurrence>, files: set<ClassMaps>, id: int)
    requires Settled(s, headers, occ) && Covers(headers, occ, files)
    ensures id in s.conflicting <==> !Agreed(files, id)
  {
    hide Meaning, Recorded, Occurs, Covers, Agreed, Clash;
    ClashIsDisagreement(occ, headers, files, id);
  }

  lemma HeadedByAFile(s: Progress, headers: set<ClassMap>, occ: set<Occurrence>, files: set<ClassMaps>, id: int)
    requires Settled(s, headers, occ) && Covers(headers, occ, files) && id in s.maps
    ensures Headed(s.maps[id], files, id)
  {
    hide Recorded, Occurs, Clash;
    assert Header(s.maps[id]) in headers;
    var f: ClassMaps, k :| f in files && k in f && Header(s.maps[id]) == Header(f[k]);
    assert f[k].classId == k;
  }

  lemma ClashIsDisagreement(occ: set<Occurrence>, headers: set<ClassMap>, files: set<ClassMaps>, id: int)
    requires Covers(headers, occ, files)
    ensures Clash(occ, id) <==> !Agreed(files, id)
  {
    hide Meaning, Occurs;
    if Clash(occ, id) {
      var o, p :| o in occ && p in occ && o.classId == p.classId == id
        && o.entry.probeIndex == p.entry.probeIndex && Meaning(o.entry) != Meaning(p.entry);
      assert Occurs(files, id, o.entry) && Occurs(files, id, p.entry);
    }
    if e, g :| Occurs(files, id, e) && Occurs(files, id, g) && e.probeIndex == g.probeIndex && Meaning(e) != Meaning(g) {
      assert Occurrence(id, e) in occ && Occurrence(id, g) in occ;
      assert Clash(occ, id);
    }
  }

  lemma ResultOf(s: Progress, headers: set<ClassMap>, occ: set<Occurrence>, files: set<ClassMaps>, id: int)
    requires Settled(s, headers, occ) && Covers(headers, occ, files) && id in s.maps && Agreed(files, id)
    ensures DistinctIndices(s.maps[id].probes)
    ensures forall k :: 0 <= k < |s.maps[id].probes| ==> Occurs(files, id, s.maps[id].probes[k])
    ensures forall e :: Occurs(files, id, e) ==> Represented(s.maps[id].probes, e)
  {
    hide Meaning, Occurs, Clash, HasHeader;
    var es := s.maps[id].probes;
    assert Recorded(es, s.seen[id], id, occ);
    forall k | 0 <= k < |es| ensures Occurs(files, id, es[k]) {
      assert Occurrence(id, es[k]) in occ;
    }
    forall e | Occurs(files, id, e) ensures Represented(es, e) {
      assert Occurrence(id, e) in occ && HasIndex(es, e.probeIndex);
      var k :| 0 <= k < |es| && es[k].probeIndex == e.probeIndex;
      assert Occurs(files, id, es[k]);
    }
  }

  // ---- All files ----

  /** The contents of the files that can be read. */
  ghost function Readable(files: seq<seq<Byte>>): set<ClassMaps> {
    set k | 0 <= k < |files| && Maps.ParseFile(files[k]).Parsed? :: Maps.ParseFile(files[k]).value
  }

  lemma ReadableOneMore(files: seq<seq<Byte>>, k: nat)
    requires k < |files|
    ensures Readable(files[..k + 1]) == Readable(files[..k])
      + if Maps.ParseFile(files[k]).Parsed? then {Maps.ParseFile(files[k]).value} else {}
  {
    hide Maps.ParseFile;
    assert files[..k + 1] == files[..k] + [files[k]];
  }

  method ReadAndTake(probeMap: ProbeMap, bytes: seq<Byte>, seen: map<int, map<int, Text>>, conflicting: set<int>,
                     ghost headers: set<ClassMap>, ghost occ: set<Occurrence>, ghost files: set<ClassMaps>)
    returns (r: Result<()>, seen': map<int, map<int, Text>>, conflicting': set<int>, ghost headers': set<ClassMap>, ghost occ': set<Occurrence>)
    requires probeMap.Valid() && Settled(Progress(probeMap.Contents(), seen, conflicting), headers, occ) && Covers(headers, occ, files)
    modifies probeMap, probeMap.entries.Values
    ensures probeMap.Valid() && forall m :: m in probeMap.entries.Values ==> m in old(probeMap.entries.Values) || fresh(m)
    ensures r.Ok? <==> Maps.ParseFile(bytes).Parsed?
    ensures Settled(Progress(probeMap.Contents(), seen', conflicting'), headers', occ')
    ensures Covers(headers', occ', files + if r.Ok? then {Maps.ParseFile(bytes).value} else {})
  {
    hide Maps.ParseFile, Settled, Covers, HeadersOf, EntriesOf, ListsAll;
    seen', conflicting', headers', occ' := seen, conflicting, headers, occ;
    var read := Maps.Read(bytes);
    if read.Error? {
      assert files + {} == files;
      return Error, seen, conflicting, headers, occ;
    }
    var cs := AllClassMaps(read.value);
    ghost var f := read.value.Contents();
    seen', conflicting' := TakeFile(probeMap, cs, seen, conflicting, headers, occ);
    CoversOneMore(headers, occ, files, f, cs);
    headers', occ' := headers + HeadersOf(cs), occ + EntriesOf(cs);
    r := Ok(());
  }

  method RemoveConflicting(probeMap: ProbeMap, conflicting: set<int>)
    requires probeMap.Valid()
    modifies probeMap
    ensures probeMap.Valid() && probeMap.entries == old(probeMap.entries) - conflicting
    ensures probeMap.Contents() == old(probeMap.Contents()) - conflicting
  {
    var todo := conflicting;
    while todo != {}
      invariant todo <= conflicting && probeMap.Valid()
      invariant probeMap.entries == old(probeMap.entries) - (conflicting - todo)
      invariant probeMap.Contents() == old(probeMap.Contents()) - (conflicting - todo)
      decreases |todo|
    {
      ghost var _ := ElementOf(todo);
      var id :| id in todo;
      probeMap.RemoveClassMap(id);
      assert conflicting - (todo - {id}) == (conflicting - todo) + {id};
      todo := todo - {id};
    }
  }

  /** Unreadable files are skipped; it is an error when there are files and none can be read. */
  method MergeProbeMaps(probeFiles: seq<seq<Byte>>) returns (r: Result<ProbeMap>)
    ensures r.Ok? <==> probeFiles == [] || Readable(probeFiles) != {}
    ensures r.Ok? ==> fresh(r.value) && r.value.Valid() && IsMergeOf(r.value.Contents(), Readable(probeFiles))
  {
    hide Maps.ParseFile, Settled, Covers, Readable, IsMergeOf;
    var probeMap := new ProbeMap();
    var seen: map<int, map<int, Text>>, conflicting: set<int>, unreadable: nat := map[], {}, 0;
    ghost var headers: set<ClassMap>, occ: set<Occurrence> := {}, {};
    StartOfMerge();
    assert probeFiles[..0] == [];
    for k := 0 to |probeFiles|
      invariant fresh(probeMap) && probeMap.Valid() && forall m :: m in probeMap.entries.Values ==> fresh(m)
      invariant Settled(Progress(probeMap.Contents(), seen, conflicting), headers, occ)
      invariant Covers(headers, occ, Readable(probeFiles[..k]))
      invariant unreadable <= k && (unreadable == k <==> Readable(probeFiles[..k]) == {})
    {
      var read;
      read, seen, conflicting, headers, occ :=
        ReadAndTake(probeMap, probeFiles[k], seen, conflicting, headers, occ, Readable(probeFiles[..k]));
      ReadableOneMore(probeFiles, k);
      if read.Error? {
        unreadable := unreadable + 1;
      }
    }
    assert probeFiles[..|probeFiles|] == probeFiles;
    if probeFiles != [] && unreadable == |probeFiles| {
      return Error;
    }
    SettledIsMerge(Progress(probeMap.Contents(), seen, conflicting), headers, occ, Readable(probeFiles));
    RemoveConflicting(probeMap, conflicting);
    r := Ok(probeMap);
  }

  lemma StartOfMerge()
    ensures Settled(START, {}, {}) && Covers({}, {}, Readable([])) && Readable([]) == {}
  {
  }
}
