/** The probe map a class carries in an annotation (instrumentation/EmbeddedProbeMap.kt). */
module EmbeddedProbeMap {
  import opened ByteStream
  import opened ProbeMap
  import opened Text
  import opened Wrappers
  import ProbeFile

  // ---- Base64 (section 4 of RFC 4648) ----

  const PAD: CodeUnit := 0x3D

  /** The alphabet: A-Z, a-z, 0-9, + and /. */
  function Symbol(v: int): (c: CodeUnit)
    requires 0 <= v < 64
    ensures c != PAD && 0 < c < 0x80
  {
    if v < 26 then 0x41 + v
    else if v < 52 then 0x61 + v - 26
    else if v < 62 then 0x30 + v - 52
    else if v == 62 then 0x2B
    else 0x2F
  }

  predicate IsSymbol(c: CodeUnit) {
    0x41 <= c <= 0x5A || 0x61 <= c <= 0x7A || 0x30 <= c <= 0x39 || c == 0x2B || c == 0x2F
  }

  function SymbolValue(c: CodeUnit): (v: int)
    requires IsSymbol(c)
    ensures 0 <= v < 64 && Symbol(v) == c
  {
    if 0x41 <= c <= 0x5A then c - 0x41
    else if 0x61 <= c <= 0x7A then c as int - 0x61 + 26
    else if 0x30 <= c <= 0x39 then c + 4
    else if c == 0x2B then 62
    else 63
  }

  /** The symbols of one, two or three bytes: one more than there are bytes. */
  function Symbols(b: seq<Byte>): (t: Text)
    requires 1 <= |b| <= 3
    ensures |t| == |b| + 1
  {
    [Symbol(b[0] / 4)]
    + if |b| == 1 then [Symbol(b[0] % 4 * 16)]
      else
        [Symbol(b[0] % 4 * 16 + b[1] / 16)]
        + if |b| == 2 then [Symbol(b[1] % 16 * 4)]
          else [Symbol(b[1] % 16 * 4 + b[2] / 64), Symbol(b[2] % 64)]
  }

  function Base64(bytes: seq<Byte>): Text {
    if bytes == [] then []
    else if |bytes| == 1 then Symbols(bytes) + [PAD, PAD]
    else if |bytes| == 2 then Symbols(bytes) + [PAD]
    else Symbols(bytes[..3]) + Base64(bytes[3..])
  }

  datatype Bytes = Bytes(bytes: seq<Byte>) | Illegal

  /** The one, two or three bytes of a group of two, three or four symbols. */
  function Group(t: Text): (b: seq<Byte>)
    requires 2 <= |t| <= 4 && forall i :: 0 <= i < |t| ==> IsSymbol(t[i])
    ensures |b| == |t| - 1
  {
    var v0, v1 := SymbolValue(t[0]), SymbolValue(t[1]);
    [v0 * 4 + v1 / 16]
    + (if |t| == 2 then []
       else
         var v2 := SymbolValue(t[2]);
         [v1 % 16 * 16 + v2 / 4] + if |t| == 3 then [] else [v2 % 4 * 64 + SymbolValue(t[3])])
  }

  predicate AllSymbols(t: Text) {
    forall i :: 0 <= i < |t| ==> IsSymbol(t[i])
  }

  /** `Base64.getDecoder()`: the last group may come with its padding or without, and nothing may follow it. */
  function Unbase64(t: Text): Bytes {
    if t == [] then Bytes([])
    else if |t| >= 4 && AllSymbols(t[..4]) then
      var rest := Unbase64(t[4..]);
      if rest.Bytes? then Bytes(Group(t[..4]) + rest.bytes) else Illegal
    else if 2 <= |t| <= 3 && AllSymbols(t) then Bytes(Group(t))
    else if |t| == 4 && t[3] == PAD && AllSymbols(t[..3]) then Bytes(Group(t[..3]))
    else if |t| == 4 && t[2] == PAD && t[3] == PAD && AllSymbols(t[..2]) then Bytes(Group(t[..2]))
    else Illegal
  }

  lemma SymbolRoundTrip(v: int)
    requires 0 <= v < 64
    ensures IsSymbol(Symbol(v)) && SymbolValue(Symbol(v)) == v
  {
  }

  lemma OneByteRoundTrip(b: seq<Byte>)
    requires |b| == 1
    ensures AllSymbols(Symbols(b)) && Group(Symbols(b)) == b
  {
    hide Symbol, SymbolValue, IsSymbol;
    SymbolRoundTrip(b[0] / 4);
    SymbolRoundTrip(b[0] % 4 * 16);
  }

  lemma TwoByteRoundTrip(b: seq<Byte>)
    requires |b| == 2
    ensures AllSymbols(Symbols(b)) && Group(Symbols(b)) == b
  {
    hide Symbol, SymbolValue, IsSymbol;
    SixBits(b[0], b[1], 0);
    SymbolRoundTrip(b[0] / 4);
    SymbolRoundTrip(b[0] % 4 * 16 + b[1] / 16);
    SymbolRoundTrip(b[1] % 16 * 4);
  }

  /** Three bytes cut into four groups of six bits, and put together again. */
  lemma SixBits(x: int, y: int, z: int)
    requires 0 <= x < 256 && 0 <= y < 256 && 0 <= z < 256
    ensures
      var v0, v1, v2, v3 := x / 4, x % 4 * 16 + y / 16, y % 16 * 4 + z / 64, z % 64;
      && 0 <= v0 < 64 && 0 <= v1 < 64 && 0 <= v2 < 64 && 0 <= v3 < 64
      && v0 * 4 + v1 / 16 == x && v1 % 16 * 16 + v2 / 4 == y && v2 % 4 * 64 + v3 == z
  {
    assert (x % 4 * 16 + y / 16) / 16 == x % 4 && (x % 4 * 16 + y / 16) % 16 == y / 16;
    assert (y % 16 * 4 + z / 64) / 4 == y % 16 && (y % 16 * 4 + z / 64) % 4 == z / 64;
  }

  lemma GroupOfFour(v0: int, v1: int, v2: int, v3: int)
    requires 0 <= v0 < 64 && 0 <= v1 < 64 && 0 <= v2 < 64 && 0 <= v3 < 64
    ensures
      var t := [Symbol(v0), Symbol(v1), Symbol(v2), Symbol(v3)];
      AllSymbols(t) && Group(t) == [v0 * 4 + v1 / 16, v1 % 16 * 16 + v2 / 4, v2 % 4 * 64 + v3]
  {
    hide Symbol, SymbolValue, IsSymbol;
    SymbolRoundTrip(v0);
    SymbolRoundTrip(v1);
    SymbolRoundTrip(v2);
    SymbolRoundTrip(v3);
  }

  lemma ThreeByteRoundTrip(b: seq<Byte>)
    requires |b| == 3
    ensures AllSymbols(Symbols(b)) && Group(Symbols(b)) == b
  {
    hide Symbol, SymbolValue, IsSymbol, Group, AllSymbols;
    SixBits(b[0], b[1], b[2]);
    var v0, v1, v2, v3 := b[0] / 4, b[0] % 4 * 16 + b[1] / 16, b[1] % 16 * 4 + b[2] / 64, b[2] % 64;
    GroupOfFour(v0, v1, v2, v3);
    assert Symbols(b) == [Symbol(v0), Symbol(v1), Symbol(v2), Symbol(v3)];
    assert b == [b[0], b[1], b[2]];
  }

  lemma GroupRoundTrip(b: seq<Byte>)
    requires 1 <= |b| <= 3
    ensures AllSymbols(Symbols(b)) && Group(Symbols(b)) == b
  {
    hide Symbols, Group, AllSymbols;
    if |b| == 1 {
      OneByteRoundTrip(b);
    } else if |b| == 2 {
      TwoByteRoundTrip(b);
    } else {
      ThreeByteRoundTrip(b);
    }
  }

  lemma PadIsNoSymbol()
    ensures !IsSymbol(PAD)
  {
  }

  lemma {:induction false} Base64RoundTrip(bytes: seq<Byte>)
    ensures Unbase64(Base64(bytes)) == Bytes(bytes)
  {
    hide Symbols, Group, IsSymbol;
    PadIsNoSymbol();
    var t := Base64(bytes);
    if |bytes| >= 3 {
      GroupRoundTrip(bytes[..3]);
      Base64RoundTrip(bytes[3..]);
      assert t[..4] == Symbols(bytes[..3]) && t[4..] == Base64(bytes[3..]);
      assert bytes[..3] + bytes[3..] == bytes;
    } else if bytes != [] {
      GroupRoundTrip(bytes);
      assert t[..|bytes| + 1] == Symbols(bytes);
      assert t[..4][3] == PAD && (|bytes| == 1 ==> t[..3][2] == PAD);
    }
  }

  // ---- Chunks ----

  const CHUNK_SIZE := 60000

  function Chunked(t: Text): (chunks: seq<Text>) {
    if t == [] then []
    else if |t| <= CHUNK_SIZE then [t]
    else [t[..CHUNK_SIZE]] + Chunked(t[CHUNK_SIZE..])
  }

  function Joined(chunks: seq<Text>): Text {
    if chunks == [] then [] else chunks[0] + Joined(chunks[1..])
  }

  lemma {:induction false} ChunksJoin(t: Text)
    ensures Joined(Chunked(t)) == t
  {
    if |t| > CHUNK_SIZE {
      ChunksJoin(t[CHUNK_SIZE..]);
      assert t[..CHUNK_SIZE] + t[CHUNK_SIZE..] == t;
    } else if t != [] {
      assert [t][1..] == [];
    }
  }

  lemma {:induction false} JoinedConcat(a: seq<Text>, b: seq<Text>)
    ensures Joined(a + b) == Joined(a) + Joined(b)
  {
    if a == [] {
      assert a + b == b;
    } else {
      assert (a + b)[0] == a[0] && (a + b)[1..] == a[1..] + b;
      JoinedConcat(a[1..], b);
    }
  }

  predicate IsAscii(t: Text) {
    forall i :: 0 <= i < |t| ==> 0 < t[i] < 0x80
  }

  lemma {:induction false} Base64IsAscii(bytes: seq<Byte>)
    ensures IsAscii(Base64(bytes))
  {
    hide Symbol;
    if |bytes| >= 3 {
      Base64IsAscii(bytes[3..]);
    }
  }

  lemma {:induction false} AsciiSize(t: Text)
    requires IsAscii(t)
    ensures |EncodeText(t)| == |t|
  {
    if t != [] {
      AsciiSize(t[1..]);
    }
  }

  /** Every chunk fits a constant-pool string. */
  lemma {:induction false} ChunksAreWritable(t: Text)
    requires IsAscii(t)
    ensures forall i :: 0 <= i < |Chunked(t)| ==> Writable(Chunked(t)[i])
  {
    if |t| > CHUNK_SIZE {
      AsciiSize(t[..CHUNK_SIZE]);
      ChunksAreWritable(t[CHUNK_SIZE..]);
    } else {
      AsciiSize(t);
    }
  }

  // ---- The annotation ----

  /** An annotation with the strings of its arrays. */
  datatype Annotation = Annotation(descriptor: Text, chunks: seq<Text>)

  function Without(annotations: seq<Annotation>, descriptor: Text): (kept: seq<Annotation>)
    ensures forall a :: a in kept ==> a.descriptor != descriptor
  {
    if annotations == [] then []
    else (if annotations[0].descriptor == descriptor then [] else [annotations[0]]) + Without(annotations[1..], descriptor)
  }

  /** The annotations of other types stay, in their order. */
  lemma OthersStay(a: Annotation, rest: seq<Annotation>, descriptor: Text)
    ensures Without([], descriptor) == []
    ensures Without([a] + rest, descriptor)
         == if a.descriptor == descriptor then Without(rest, descriptor) else [a] + Without(rest, descriptor)
  {
    assert ([a] + rest)[1..] == rest;
  }

  /** The chunks of all annotations with this descriptor, in order. */
  function ChunksOf(annotations: seq<Annotation>, descriptor: Text): seq<Text> {
    if annotations == [] then []
    else (if annotations[0].descriptor == descriptor then annotations[0].chunks else []) + ChunksOf(annotations[1..], descriptor)
  }

  predicate Carries(annotations: seq<Annotation>, descriptor: Text) {
    exists i :: 0 <= i < |annotations| && annotations[i].descriptor == descriptor
  }

  class AnnotatedClass {
    var visible: seq<Annotation>
    var invisible: seq<Annotation>
  }

  /** Replaces any embedded map of the class by this one; fails where the map cannot be written. */
  method Attach(cls: AnnotatedClass, descriptor: Text, classMap: ClassMap) returns (ok: bool)
    requires ProbeFile.IsClass(classMap)
    modifies cls`invisible
    ensures ok == ProbeFile.WritableClass(classMap)
    ensures !ok ==> cls.invisible == old(cls.invisible)
    ensures ok ==> cls.invisible == WithMap(old(cls.invisible), descriptor, classMap)
  {
    hide ProbeFile.IsClass, ProbeFile.WritableClass, ProbeFile.FileBytes, Fits;
    OneFits();
    assert [classMap][0] == classMap;
    var written := ProbeFile.Write([classMap]);
    ok := written.Ok?;
    if ok {
      cls.invisible := Without(cls.invisible, descriptor) + [Annotation(descriptor, Chunked(Base64(written.value)))];
    }
  }

  lemma OneFits()
    ensures Fits(1, 4)
  {
    assert Pow256(4) >= 256;
  }

  function WithMap(annotations: seq<Annotation>, descriptor: Text, c: ClassMap): seq<Annotation>
    requires ProbeFile.IsClass(c) && ProbeFile.WritableClass(c)
  {
    OneFits();
    Without(annotations, descriptor) + [Annotation(descriptor, Chunked(Base64(ProbeFile.FileBytes([c]))))]
  }

  /** What `read` makes of a class file's annotations: an exception, no map, or a map. */
  datatype Embedded = Broken | NoMap | Found(classMap: ClassMap)

  lemma HasKey<T>(m: map<int, T>)
    requires |m| == 1
    ensures exists id :: id in m
  {
    assert (forall id :: id !in m) ==> m == map[];
  }

  /** `singleOrNull` */
  ghost function Single(m: map<int, ClassMap>): Embedded {
    if |m| == 1 then
      HasKey(m);
      var id :| id in m;
      Found(m[id])
    else NoMap
  }

  lemma SingleOf(m: map<int, ClassMap>, id: int)
    requires id in m && |m| == 1
    ensures Single(m) == Found(m[id])
  {
    assert m.Keys == {id} by {
      assert |m.Keys - {id}| == 0;
    }
  }

  ghost function Extract(visible: seq<Annotation>, invisible: seq<Annotation>, descriptor: Text): Embedded {
    if !Carries(visible, descriptor) && !Carries(invisible, descriptor) then NoMap
    else
      var bytes := Unbase64(Joined(ChunksOf(visible, descriptor) + ChunksOf(invisible, descriptor)));
      if bytes.Illegal? then Broken
      else
        var p := ProbeFile.ParseFile(bytes.bytes);
        if p.Parsed? then Single(p.value) else Broken
  }

  method Read(cls: AnnotatedClass, descriptor: Text) returns (r: Embedded)
    ensures r == Extract(cls.visible, cls.invisible, descriptor)
  {
    hide ProbeFile.ParseFile, Unbase64, Single, Carries, ChunksOf;
    var chunks, found := [], false;
    var annotations := cls.visible + cls.invisible;
    NothingLeft(annotations[..0], descriptor);
    for i := 0 to |annotations|
      invariant chunks == ChunksOf(annotations[..i], descriptor) && found == Carries(annotations[..i], descriptor)
    {
      OneMoreAnnotation(annotations[..i], annotations[i], descriptor);
      assert annotations[..i + 1] == annotations[..i] + [annotations[i]];
      if annotations[i].descriptor == descriptor {
        found := true;
        chunks := chunks + annotations[i].chunks;
      }
    }
    assert annotations[..|annotations|] == annotations;
    BothLists(cls.visible, cls.invisible, descriptor);
    if !found { return NoMap; }
    var bytes := Unbase64(Joined(chunks));
    if bytes.Illegal? { return Broken; }
    var map_ := ProbeFile.Read(bytes.bytes);
    if map_.Error? { return Broken; }
    var entries := map_.value.entries;
    assert |map_.value.Contents()| == |entries| by { assert map_.value.Contents().Keys == entries.Keys; }
    if |entries| == 1 {
      HasKey(entries);
      var id :| id in entries;
      SingleOf(map_.value.Contents(), id);
      r := Found(entries[id].Contents());
    } else {
      r := NoMap;
      NoSingle(map_.value.Contents());
    }
  }

  lemma NoSingle(m: map<int, ClassMap>)
    requires |m| != 1
    ensures Single(m) == NoMap
  {
  }

  lemma {:induction false} OneMoreAnnotation(pre: seq<Annotation>, a: Annotation, descriptor: Text)
    ensures ChunksOf(pre + [a], descriptor) == ChunksOf(pre, descriptor) + if a.descriptor == descriptor then a.chunks else []
    ensures Carries(pre + [a], descriptor) <==> Carries(pre, descriptor) || a.descriptor == descriptor
  {
    hide Carries;
    OneMoreCarries(pre, a, descriptor);
    if pre == [] {
      assert pre + [a] == [a] && [a][1..] == [];
      assert a.chunks + [] == a.chunks && [] + a.chunks == a.chunks;
    } else {
      OneMoreAnnotation(pre[1..], a, descriptor);
      assert (pre + [a])[0] == pre[0] && (pre + [a])[1..] == pre[1..] + [a];
      var first := if pre[0].descriptor == descriptor then pre[0].chunks else [];
      var last := if a.descriptor == descriptor then a.chunks else [];
      assert first + (ChunksOf(pre[1..], descriptor) + last) == first + ChunksOf(pre[1..], descriptor) + last;
    }
  }

  lemma OneMoreCarries(pre: seq<Annotation>, a: Annotation, descriptor: Text)
    ensures Carries(pre + [a], descriptor) <==> Carries(pre, descriptor) || a.descriptor == descriptor
  {
    assert (pre + [a])[|pre|] == a;
    if Carries(pre, descriptor) {
      var i :| 0 <= i < |pre| && pre[i].descriptor == descriptor;
      assert (pre + [a])[i] == pre[i];
    }
  }

  lemma {:induction false} BothLists(a: seq<Annotation>, b: seq<Annotation>, descriptor: Text)
    ensures ChunksOf(a + b, descriptor) == ChunksOf(a, descriptor) + ChunksOf(b, descriptor)
    ensures Carries(a + b, descriptor) <==> Carries(a, descriptor) || Carries(b, descriptor)
  {
    if b == [] {
      assert a + b == a;
    } else {
      var front := b[..|b| - 1];
      BothLists(a, front, descriptor);
      assert a + b == (a + front) + [b[|b| - 1]] && b == front + [b[|b| - 1]];
      OneMoreAnnotation(a + front, b[|b| - 1], descriptor);
      OneMoreAnnotation(front, b[|b| - 1], descriptor);
    }
  }

  lemma {:induction false} NothingLeft(annotations: seq<Annotation>, descriptor: Text)
    requires forall a :: a in annotations ==> a.descriptor != descriptor
    ensures ChunksOf(annotations, descriptor) == [] && !Carries(annotations, descriptor)
  {
    if annotations != [] {
      NothingLeft(annotations[1..], descriptor);
    }
  }

  /**
   * What was attached is read back, through the file format, Base64, chunks and annotations, and
   * whatever map the class carried before; a visible annotation of this type is never written.
   */
  lemma AttachedMapIsRead(visible: seq<Annotation>, invisible: seq<Annotation>, descriptor: Text, c: ClassMap)
    requires ProbeFile.IsClass(c) && ProbeFile.WritableClass(c) && !Carries(visible, descriptor)
    ensures Extract(visible, WithMap(invisible, descriptor, c), descriptor) == Found(ProbeFile.Normal(c))
  {
    hide ProbeFile.IsClass, ProbeFile.WritableClass, ProbeFile.FileBytes, ProbeFile.ParseFile, ProbeFile.Normal, Base64, Unbase64, Single;
    OneFits();
    assert [c][0] == c;
    var bytes := ProbeFile.FileBytes([c]);
    var added := Annotation(descriptor, Chunked(Base64(bytes)));
    var kept := Without(invisible, descriptor);
    NothingLeft(visible, descriptor);
    NothingLeft(kept, descriptor);
    OneMoreAnnotation(kept, added, descriptor);
    assert [] + added.chunks == added.chunks;
    ChunksJoin(Base64(bytes));
    Base64RoundTrip(bytes);
    ProbeFile.FileRoundTrip([c]);
    assert ProbeFile.AsMaps([c]) == map[c.classId := ProbeFile.Normal(c)] by {
      assert [c][..0] == [];
    }
    SingleOf(ProbeFile.AsMaps([c]), c.classId);
  }
}
