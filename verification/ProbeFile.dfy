/** `.probes` files (runtime/ProbeMapWriter.kt and ProbeMapReader.kt). */
module ProbeFile {
  import opened ByteStream
  import opened ProbeMap
  import opened Text
  import opened Wrappers

  /** `OMNIPROB` */
  const MAGIC: seq<Byte> := [0x4F, 0x4D, 0x4E, 0x49, 0x50, 0x52, 0x4F, 0x42]
  const VERSION := 3

  type Maps = map<int, ClassMap>

  lemma VersionFits()
    ensures Fits(VERSION, 2)
  {
    assert Pow256(2) == 65536;
  }

  // ---- What is written ----

  /** The fields are a Kotlin `Int` each. */
  predicate IsEntry(e: ProbeEntry) {
    Fits(e.probeIndex, 4) && Fits(e.lineNumber, 4) && Fits(e.branchGroup, 4)
  }

  predicate WritableEntry(e: ProbeEntry) {
    Writable(e.methodName) && Writable(e.methodDesc)
  }

  function KindByte(kind: ProbeType): Byte {
    if kind == LINE then 0 else 1
  }

  function EntryBytes(e: ProbeEntry): seq<Byte>
    requires IsEntry(e) && WritableEntry(e)
  {
    Encode(e.probeIndex, 4) + Encode(e.lineNumber, 4) + EncodeUTF(e.methodName) + EncodeUTF(e.methodDesc)
    + [KindByte(e.kind)] + [if e.isComposable then 1 else 0] + Encode(e.branchGroup, 4)
  }

  predicate AreEntries(es: seq<ProbeEntry>) {
    forall i :: 0 <= i < |es| ==> IsEntry(es[i])
  }

  predicate WritableEntries(es: seq<ProbeEntry>) {
    forall i :: 0 <= i < |es| ==> WritableEntry(es[i])
  }

  function EntriesBytes(es: seq<ProbeEntry>): seq<Byte>
    requires AreEntries(es) && WritableEntries(es)
  {
    if es == [] then [] else EntryBytes(es[0]) + EntriesBytes(es[1..])
  }

  function SourceName(c: ClassMap): Text {
    if c.sourceFile.Some? then c.sourceFile.value else []
  }

  predicate IsClass(c: ClassMap) {
    Fits(c.classId, 8) && Fits(|c.probes|, 4) && AreEntries(c.probes)
  }

  predicate WritableClass(c: ClassMap) {
    Writable(c.className) && Writable(SourceName(c)) && WritableEntries(c.probes)
  }

  function ClassBytes(c: ClassMap): seq<Byte>
    requires IsClass(c) && WritableClass(c)
  {
    Encode(c.classId, 8) + EncodeUTF(c.className) + EncodeUTF(SourceName(c)) + Encode(|c.probes|, 4) + EntriesBytes(c.probes)
  }

  predicate AreClasses(cs: seq<ClassMap>) {
    forall i :: 0 <= i < |cs| ==> IsClass(cs[i])
  }

  predicate WritableClasses(cs: seq<ClassMap>) {
    forall i :: 0 <= i < |cs| ==> WritableClass(cs[i])
  }

  function ClassesBytes(cs: seq<ClassMap>): seq<Byte>
    requires AreClasses(cs) && WritableClasses(cs)
  {
    if cs == [] then [] else ClassBytes(cs[0]) + ClassesBytes(cs[1..])
  }

  function FileBytes(cs: seq<ClassMap>): seq<Byte>
    requires AreClasses(cs) && WritableClasses(cs) && Fits(|cs|, 4)
  {
    VersionFits();
    HeaderBytes(MAGIC, VERSION, |cs|) + ClassesBytes(cs)
  }

  // ---- What is read ----

  function ParseEntry(input: seq<Byte>): Parsed<ProbeEntry> {
    var (index, r1) :- ParseInteger(input, 4);
    var (line, r2) :- ParseInteger(r1, 4);
    var (name, r3) :- ParseUTF(r2);
    var (desc, r4) :- ParseUTF(r3);
    var (kind, r5) :- ParseInteger(r4, 1);
    if kind != 0 && kind != 1 then Failed
    else
      var (composable, r6) :- ParseInteger(r5, 1);
      var (group, r7) :- ParseInteger(r6, 4);
      Parsed(ProbeEntry(index, line, name, desc, if kind == 0 then LINE else BRANCH, composable == 1, group), r7)
  }

  function ParseEntries(n: nat, input: seq<Byte>): Parsed<seq<ProbeEntry>> {
    if n == 0 then Parsed([], input)
    else
      var (e, rest) :- ParseEntry(input);
      var (es, after) :- ParseEntries(n - 1, rest);
      Parsed([e] + es, after)
  }

  /** `getOrCreateClassMap` and the probes added to what it returns. */
  function AddClass(m: Maps, c: ClassMap): Maps {
    if c.classId in m then m[c.classId := m[c.classId].(probes := m[c.classId].probes + c.probes)] else m[c.classId := c]
  }

  function ParseClass(m: Maps, input: seq<Byte>): Parsed<Maps> {
    var (classId, r1) :- ParseInteger(input, 8);
    var (className, r2) :- ParseUTF(r1);
    var (source, r3) :- ParseUTF(r2);
    ParseProbes(m, ClassMap(classId, className, if source == [] then None else Some(source), []), r3)
  }

  /** The probes of a class whose other fields are those of `c`. */
  function ParseProbes(m: Maps, c: ClassMap, input: seq<Byte>): Parsed<Maps> {
    var (count, r1) :- ParseInteger(input, 4);
    var (probes, r2) :- ParseEntries(if count < 0 then 0 else count, r1);
    Parsed(AddClass(m, c.(probes := probes)), r2)
  }

  function ParseClasses(m: Maps, n: nat, input: seq<Byte>): Parsed<Maps>
    decreases n
  {
    if n == 0 then Parsed(m, input)
    else
      var (m', rest) :- ParseClass(m, input);
      ParseClasses(m', n - 1, rest)
  }

  function ParseFile(input: seq<Byte>): Parsed<Maps> {
    var (count, rest) :- ParseHeader(MAGIC, VERSION, input);
    ParseClasses(map[], if count < 0 then 0 else count, rest)
  }

  // ---- Round trips ----

  /** An empty source file name is read back as none. */
  function Normal(c: ClassMap): ClassMap {
    if c.sourceFile == Some([]) then c.(sourceFile := None) else c
  }

  lemma ByteParses(b: Byte, rest: seq<Byte>)
    ensures ParseInteger([b] + rest, 1) == Parsed(if b < 0x80 then b as int else b as int - 0x100, rest)
  {
    BytesParse([b], rest);
    assert Pow256(1) == 0x100;
    assert DecodeNat([]) == 0 && [b][..0] == [] && DecodeNat([b]) == b;
  }

  lemma EntryParses(e: ProbeEntry, rest: seq<Byte>)
    requires IsEntry(e) && WritableEntry(e)
    ensures ParseEntry(EntryBytes(e) + rest) == Parsed(e, rest)
  {
    hide EncodeUTF, ParseUTF, ParseInteger, Encode, Fits, Writable;
    var flag: Byte := if e.isComposable then 1 else 0;
    var s7 := Encode(e.branchGroup, 4) + rest;
    var s6 := [flag] + s7;
    var s5 := [KindByte(e.kind)] + s6;
    var s4 := EncodeUTF(e.methodDesc) + s5;
    var s3 := EncodeUTF(e.methodName) + s4;
    var s2 := Encode(e.lineNumber, 4) + s3;
    assert EntryBytes(e) + rest == Encode(e.probeIndex, 4) + s2;
    IntegerParses(e.probeIndex, 4, s2);
    IntegerParses(e.lineNumber, 4, s3);
    UTFParses(e.methodName, s4);
    UTFParses(e.methodDesc, s5);
    ByteParses(KindByte(e.kind), s6);
    ByteParses(flag, s7);
    IntegerParses(e.branchGroup, 4, rest);
  }

  lemma {:induction false} EntriesParse(es: seq<ProbeEntry>, rest: seq<Byte>)
    requires AreEntries(es) && WritableEntries(es)
    ensures ParseEntries(|es|, EntriesBytes(es) + rest) == Parsed(es, rest)
  {
    hide EntryBytes, ParseEntry, IsEntry, WritableEntry;
    if es == [] {
      assert EntriesBytes(es) + rest == rest;
    } else {
      EntryParses(es[0], EntriesBytes(es[1..]) + rest);
      assert EntriesBytes(es) + rest == EntryBytes(es[0]) + (EntriesBytes(es[1..]) + rest);
      EntriesParse(es[1..], rest);
      assert [es[0]] + es[1..] == es;
    }
  }

  lemma ClassParses(m: Maps, c: ClassMap, rest: seq<Byte>)
    requires IsClass(c) && WritableClass(c)
    ensures ParseClass(m, ClassBytes(c) + rest) == Parsed(AddClass(m, Normal(c)), rest)
  {
    hide EncodeUTF, ParseUTF, ParseInteger, Encode, Fits, Writable, EntriesBytes, ParseEntries, AddClass;
    var s5 := EntriesBytes(c.probes) + rest;
    var s4 := Encode(|c.probes|, 4) + s5;
    var s3 := EncodeUTF(SourceName(c)) + s4;
    var s2 := EncodeUTF(c.className) + s3;
    assert ClassBytes(c) + rest == Encode(c.classId, 8) + s2;
    IntegerParses(c.classId, 8, s2);
    UTFParses(c.className, s3);
    UTFParses(SourceName(c), s4);
    IntegerParses(|c.probes|, 4, s5);
    EntriesParse(c.probes, rest);
  }

  function AddAll(m: Maps, cs: seq<ClassMap>): Maps
    decreases |cs|
  {
    if cs == [] then m else AddAll(AddClass(m, Normal(cs[0])), cs[1..])
  }

  lemma {:induction false} ClassesParse(m: Maps, cs: seq<ClassMap>, rest: seq<Byte>)
    requires AreClasses(cs) && WritableClasses(cs)
    ensures ParseClasses(m, |cs|, ClassesBytes(cs) + rest) == Parsed(AddAll(m, cs), rest)
    decreases |cs|
  {
    hide ParseClass, ClassBytes, AddClass, IsClass, WritableClass;
    if cs == [] {
      assert ClassesBytes(cs) + rest == rest;
    } else {
      ClassParses(m, cs[0], ClassesBytes(cs[1..]) + rest);
      assert ClassesBytes(cs) + rest == ClassBytes(cs[0]) + (ClassesBytes(cs[1..]) + rest);
      ClassesParse(AddClass(m, Normal(cs[0])), cs[1..], rest);
    }
  }

  predicate DistinctClasses(cs: seq<ClassMap>) {
    forall i, j :: 0 <= i < j < |cs| ==> cs[i].classId != cs[j].classId
  }

  /** The maps by id, as a probe map keeps them. */
  function AsMaps(cs: seq<ClassMap>): Maps {
    if cs == [] then map[] else AsMaps(cs[..|cs| - 1])[cs[|cs| - 1].classId := Normal(cs[|cs| - 1])]
  }

  lemma {:induction false} AsMapsHolds(cs: seq<ClassMap>)
    requires DistinctClasses(cs)
    ensures forall id :: id in AsMaps(cs) <==> exists i :: 0 <= i < |cs| && cs[i].classId == id
    ensures forall i :: 0 <= i < |cs| ==> cs[i].classId in AsMaps(cs) && AsMaps(cs)[cs[i].classId] == Normal(cs[i])
  {
    if cs != [] {
      AsMapsHolds(cs[..|cs| - 1]);
    }
  }

  lemma {:induction false} AddOneMore(m: Maps, cs: seq<ClassMap>, c: ClassMap)
    ensures AddAll(m, cs + [c]) == AddClass(AddAll(m, cs), Normal(c))
    decreases |cs|
  {
    hide AddClass, Normal;
    if cs == [] {
      assert cs + [c] == [c] && [c][1..] == [];
    } else {
      assert (cs + [c])[0] == cs[0] && (cs + [c])[1..] == cs[1..] + [c];
      AddOneMore(AddClass(m, Normal(cs[0])), cs[1..], c);
    }
  }

  lemma {:induction false} AddAllIsAsMaps(cs: seq<ClassMap>)
    requires DistinctClasses(cs)
    ensures AddAll(map[], cs) == AsMaps(cs)
  {
    if cs != [] {
      var front, last := cs[..|cs| - 1], cs[|cs| - 1];
      AddAllIsAsMaps(front);
      AsMapsHolds(front);
      AddOneMore(map[], front, last);
      assert cs == front + [last];
    }
  }

  /** Reading what was written gives the maps back, probe order and all. */
  lemma FileRoundTrip(cs: seq<ClassMap>)
    requires AreClasses(cs) && WritableClasses(cs) && Fits(|cs|, 4) && DistinctClasses(cs)
    ensures ParseFile(FileBytes(cs)) == Parsed(AsMaps(cs), [])
  {
    hide ParseHeader, HeaderBytes, ClassesBytes, ParseClasses, AddAll, AsMaps, IsClass, WritableClass, Fits;
    VersionFits();
    HeaderParses(MAGIC, VERSION, |cs|, ClassesBytes(cs));
    ClassesParse(map[], cs, []);
    assert ClassesBytes(cs) + [] == ClassesBytes(cs);
    AddAllIsAsMaps(cs);
  }

  /** Files of the two older formats are refused. */
  lemma OlderVersionsFail(input: seq<Byte>, version: int, count: int, rest: seq<Byte>)
    requires Fits(version, 2) && Fits(count, 4) && version != VERSION
    requires input == HeaderBytes(MAGIC, version, count) + rest
    ensures ParseFile(input) == Failed
  {
    hide ParseInteger, Encode, Fits;
    assert input == MAGIC + (Encode(version, 2) + (Encode(count, 4) + rest));
    BytesParse(MAGIC, Encode(version, 2) + (Encode(count, 4) + rest));
    IntegerParses(version, 2, Encode(count, 4) + rest);
  }

  // ---- The writer ----

  method WriteEntry(out: DataOutput, e: ProbeEntry) returns (ok: bool)
    requires IsEntry(e)
    modifies out
    ensures ok == WritableEntry(e)
    ensures ok ==> out.bytes == old(out.bytes) + EntryBytes(e)
  {
    hide Encode, EncodeUTF, Writable, Fits;
    ghost var before := out.bytes;
    out.WriteInteger(e.probeIndex, 4);
    out.WriteInteger(e.lineNumber, 4);
    ok := out.WriteUTF(e.methodName);
    if !ok { return; }
    ok := out.WriteUTF(e.methodDesc);
    if !ok { return; }
    assert out.bytes == before + (Encode(e.probeIndex, 4) + Encode(e.lineNumber, 4) + EncodeUTF(e.methodName) + EncodeUTF(e.methodDesc));
    out.WriteBytes([KindByte(e.kind)]);
    out.WriteBytes([if e.isComposable then 1 else 0]);
    out.WriteInteger(e.branchGroup, 4);
  }

  lemma {:induction false} OneMoreEntry(es: seq<ProbeEntry>, e: ProbeEntry)
    requires AreEntries(es) && WritableEntries(es) && IsEntry(e) && WritableEntry(e)
    ensures EntriesBytes(es + [e]) == EntriesBytes(es) + EntryBytes(e)
  {
    hide EntryBytes, IsEntry, WritableEntry;
    if es == [] {
      assert es + [e] == [e] && [e][1..] == [];
    } else {
      OneMoreEntry(es[1..], e);
      assert (es + [e])[1..] == es[1..] + [e];
    }
  }

  lemma {:induction false} OneMoreClass(cs: seq<ClassMap>, c: ClassMap)
    requires AreClasses(cs) && WritableClasses(cs) && IsClass(c) && WritableClass(c)
    ensures ClassesBytes(cs + [c]) == ClassesBytes(cs) + ClassBytes(c)
  {
    hide ClassBytes, IsClass, WritableClass;
    if cs == [] {
      assert cs + [c] == [c] && [c][1..] == [];
    } else {
      OneMoreClass(cs[1..], c);
      assert (cs + [c])[1..] == cs[1..] + [c];
    }
  }

  method WriteEntries(out: DataOutput, es: seq<ProbeEntry>) returns (ok: bool)
    requires AreEntries(es)
    modifies out
    ensures ok == WritableEntries(es)
    ensures ok ==> out.bytes == old(out.bytes) + EntriesBytes(es)
  {
    hide EntryBytes, IsEntry, WritableEntry;
    assert out.bytes == old(out.bytes) + EntriesBytes(es[..0]);
    for j := 0 to |es|
      invariant WritableEntries(es[..j]) && out.bytes == old(out.bytes) + EntriesBytes(es[..j])
    {
      assert es[..j + 1] == es[..j] + [es[j]];
      ok := WriteEntry(out, es[j]);
      if !ok { return; }
      OneMoreEntry(es[..j], es[j]);
    }
    assert es[..|es|] == es;
    ok := true;
  }

  method WriteClass(out: DataOutput, c: ClassMap) returns (ok: bool)
    requires IsClass(c)
    modifies out
    ensures ok == WritableClass(c)
    ensures ok ==> out.bytes == old(out.bytes) + ClassBytes(c)
  {
    hide Encode, EncodeUTF, Writable, Fits, EntriesBytes;
    out.WriteInteger(c.classId, 8);
    ok := out.WriteUTF(c.className);
    if !ok { return; }
    ok := out.WriteUTF(SourceName(c));
    if !ok { return; }
    out.WriteInteger(|c.probes|, 4);
    ok := WriteEntries(out, c.probes);
    assert ok ==> out.bytes == old(out.bytes) + ClassBytes(c);
  }

  /** A string too long for `writeUTF` stops the writer. */
  method Write(classMaps: seq<ClassMap>) returns (r: Result<seq<Byte>>)
    requires AreClasses(classMaps) && Fits(|classMaps|, 4)
    ensures r == if WritableClasses(classMaps) then Ok(FileBytes(classMaps)) else Error
  {
    hide HeaderBytes, ClassBytes, IsClass, WritableClass, Fits;
    VersionFits();
    var out := new DataOutput();
    out.WriteHeader(MAGIC, VERSION, |classMaps|);
    ghost var head := HeaderBytes(MAGIC, VERSION, |classMaps|);
    assert out.bytes == head + ClassesBytes(classMaps[..0]);
    for i := 0 to |classMaps|
      invariant fresh(out) && WritableClasses(classMaps[..i]) && out.bytes == head + ClassesBytes(classMaps[..i])
    {
      assert classMaps[..i + 1] == classMaps[..i] + [classMaps[i]];
      var ok := WriteClass(out, classMaps[i]);
      if !ok { return Error; }
      OneMoreClass(classMaps[..i], classMaps[i]);
    }
    assert classMaps[..|classMaps|] == classMaps;
    r := Ok(out.bytes);
  }

  // ---- The reader ----

  method ReadEntry(input: DataInput) returns (r: Result<ProbeEntry>)
    modifies input
    ensures Reads(ParseEntry(old(input.rest)), r, input.rest)
  {
    hide ParseInteger, ParseUTF;
    var probeIndex :- input.ReadInteger(4);
    var lineNumber :- input.ReadInteger(4);
    var methodName :- input.ReadUTF();
    var methodDesc :- input.ReadUTF();
    var kind :- input.ReadInteger(1);
    if kind != 0 && kind != 1 { return Error; }
    var isComposable :- input.ReadInteger(1);
    var branchGroup :- input.ReadInteger(4);
    r := Ok(ProbeEntry(probeIndex, lineNumber, methodName, methodDesc, if kind == 0 then LINE else BRANCH, isComposable == 1, branchGroup));
  }

  /** The probes of one class, added one by one to its map. */
  method ReadEntries(input: DataInput, count: int, m: ClassProbeMap, probeMap: ProbeMap) returns (r: Result<()>)
    requires probeMap.Valid() && m.classId in probeMap.entries && probeMap.entries[m.classId] == m
    modifies input, m
    ensures probeMap.Valid() && m.classId in old(probeMap.Contents())
    ensures
      var p := ParseEntries(if count < 0 then 0 else count, old(input.rest));
      var before := old(probeMap.Contents());
      if p.Failed? then r.Error?
      else
        && r.Ok? && input.rest == p.rest
        && probeMap.Contents() == before[m.classId := before[m.classId].(probes := before[m.classId].probes + p.value)]
  {
    hide ParseEntry;
    ghost var total: nat, start := if count < 0 then 0 else count, input.rest;
    ghost var before := probeMap.Contents();
    ghost var own := before[m.classId];
    ghost var done: seq<ProbeEntry> := [];
    var j := 0;
    assert own.probes + [] == own.probes;
    AfterNothing(ParseEntries(total, start));
    while j < count
      invariant 0 <= j <= total
      invariant probeMap.Valid()
      invariant probeMap.Contents() == before[m.classId := own.(probes := own.probes + done)]
      invariant ParseEntries(total, start) == After(done, ParseEntries(total - j, input.rest))
    {
      ghost var here := input.rest;
      var e :- ReadEntry(input);
      probeMap.AddTo(m, e);
      assert own.probes + done + [e] == own.probes + (done + [e]);
      AfterOneMore(done, e, ParseEntries(total - j - 1, input.rest));
      done := done + [e];
      j := j + 1;
    }
    assert done + [] == done;
    r := Ok(());
  }

  /** The outcome of a list parse when `done` has been read before. */
  function After(done: seq<ProbeEntry>, p: Parsed<seq<ProbeEntry>>): Parsed<seq<ProbeEntry>> {
    if p.Parsed? then Parsed(done + p.value, p.rest) else Failed
  }

  lemma AfterNothing(p: Parsed<seq<ProbeEntry>>)
    ensures After([], p) == p
  {
    if p.Parsed? {
      assert [] + p.value == p.value;
    }
  }

  lemma AfterOneMore(done: seq<ProbeEntry>, e: ProbeEntry, p: Parsed<seq<ProbeEntry>>)
    ensures After(done + [e], p) == if p.Parsed? then After(done, Parsed([e] + p.value, p.rest)) else Failed
  {
    if p.Parsed? {
      assert done + [e] + p.value == done + ([e] + p.value);
    }
  }

  lemma AddClassInSteps(m: Maps, c: ClassMap)
    ensures
      var m' := if c.classId in m then m else m[c.classId := c.(probes := [])];
      AddClass(m, c) == m'[c.classId := m'[c.classId].(probes := m'[c.classId].probes + c.probes)]
  {
    assert [] + c.probes == c.probes;
  }

  method ReadProbes(input: DataInput, c: ClassMap, probeMap: ProbeMap) returns (r: Result<()>)
    requires probeMap.Valid() && c.probes == []
    modifies input, probeMap, probeMap.entries.Values
    ensures probeMap.Valid()
    ensures forall m :: m in probeMap.entries.Values ==> m in old(probeMap.entries.Values) || fresh(m)
    ensures
      var p := ParseProbes(old(probeMap.Contents()), c, old(input.rest));
      if p.Parsed? then r.Ok? && probeMap.Contents() == p.value && input.rest == p.rest else r.Error?
  {
    hide ParseInteger, ParseEntries, AddClass;
    ghost var before := probeMap.Contents();
    var m := probeMap.GetOrCreateClassMap(c.classId, c.className, c.sourceFile);
    assert forall x :: x in probeMap.entries.Values ==> x == m || x in old(probeMap.entries.Values);
    var probeCount :- input.ReadInteger(4);
    ghost var p := ParseEntries(if probeCount < 0 then 0 else probeCount, input.rest);
    var _ :- ReadEntries(input, probeCount, m, probeMap);
    AddClassInSteps(before, c.(probes := p.value));
    r := Ok(());
  }

  method ReadClass(input: DataInput, probeMap: ProbeMap) returns (r: Result<()>)
    requires probeMap.Valid()
    modifies input, probeMap, probeMap.entries.Values
    ensures probeMap.Valid()
    ensures forall m :: m in probeMap.entries.Values ==> m in old(probeMap.entries.Values) || fresh(m)
    ensures
      var p := ParseClass(old(probeMap.Contents()), old(input.rest));
      if p.Parsed? then r.Ok? && probeMap.Contents() == p.value && input.rest == p.rest else r.Error?
  {
    hide ParseInteger, ParseUTF, ParseProbes;
    var classId :- input.ReadInteger(8);
    var className :- input.ReadUTF();
    var source :- input.ReadUTF();
    r := ReadProbes(input, ClassMap(classId, className, if source == [] then None else Some(source), []), probeMap);
  }

  method Read(bytes: seq<Byte>) returns (r: Result<ProbeMap>)
    ensures
      var p := ParseFile(bytes);
      if p.Parsed? then r.Ok? && fresh(r.value) && r.value.Valid() && r.value.Contents() == p.value
                        && forall m :: m in r.value.entries.Values ==> fresh(m)
      else r.Error?
  {
    hide ParseClass, ParseHeader;
    var probeMap := new ProbeMap();
    var input := new DataInput(bytes);
    var classCount :- input.ReadHeader(MAGIC, VERSION);
    ghost var total: nat, start := if classCount < 0 then 0 else classCount, input.rest;
    var i := 0;
    while i < classCount
      invariant 0 <= i <= total
      invariant fresh(probeMap) && fresh(input) && probeMap.Valid()
      invariant forall m :: m in probeMap.entries.Values ==> fresh(m)
      invariant ParseClasses(probeMap.Contents(), total - i, input.rest) == ParseClasses(map[], total, start)
    {
      var _ :- ReadClass(input, probeMap);
      i := i + 1;
    }
    r := Ok(probeMap);
  }
}
