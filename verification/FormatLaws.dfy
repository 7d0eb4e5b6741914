/** The file formats byte by byte: integers, strings, packed probes, Base64 and a file of each kind. */
module FormatLaws {
  import opened ByteStream
  import opened EmbeddedProbeMap
  import opened ProbeMap
  import opened Text
  import opened Wrappers
  import Exec = ExecutionFile
  import Maps = ProbeFile

  // ---- Integers ----

  lemma EncodedNats(u: nat)
    ensures EncodeNat(u, 2) == [u / 0x100 % 0x100, u % 0x100]
    ensures EncodeNat(u, 4) == [u / 0x100_0000 % 0x100, u / 0x1_0000 % 0x100, u / 0x100 % 0x100, u % 0x100]
  {
    assert EncodeNat(u, 0) == [] && EncodeNat(u / 0x100, 0) == [];
    Quotients(u);
    assert EncodeNat(u / 0x100, 1) == [u / 0x100 % 0x100];
    assert EncodeNat(u / 0x100 / 0x100 / 0x100, 1) == [u / 0x100_0000 % 0x100];
    assert EncodeNat(u / 0x100 / 0x100, 2) == [u / 0x100_0000 % 0x100, u / 0x1_0000 % 0x100];
    assert EncodeNat(u / 0x100, 3) == [u / 0x100_0000 % 0x100, u / 0x1_0000 % 0x100, u / 0x100 % 0x100];
  }

  lemma Quotients(u: nat)
    ensures u / 0x100 / 0x100 == u / 0x1_0000 && u / 0x100 / 0x100 / 0x100 == u / 0x100_0000
    ensures u / 0x1_0000 / 0x1_0000 == u / 0x1_0000_0000
  {
  }

  lemma TopBytes(u: nat)
    ensures u < 0x1_0000 ==> EncodeNat(u, 2) == [u / 0x100, u % 0x100]
    ensures u < 0x1_0000_0000 ==> EncodeNat(u, 4) == [u / 0x100_0000, u / 0x1_0000 % 0x100, u / 0x100 % 0x100, u % 0x100]
  {
    EncodedNats(u);
    hide EncodeNat;
  }

  /** Two's complement, the highest byte first, in two, four and eight bytes. */
  lemma IntegersAre(n: int)
    ensures -0x8000 <= n < 0x8000 ==>
      Fits(n, 2) && var u := if n < 0 then n + 0x1_0000 else n; Encode(n, 2) == [u / 0x100, u % 0x100]
    ensures -0x8000_0000 <= n < 0x8000_0000 ==>
      && Fits(n, 4)
      && var u := if n < 0 then n + 0x1_0000_0000 else n;
         Encode(n, 4) == [u / 0x100_0000, u / 0x1_0000 % 0x100, u / 0x100 % 0x100, u % 0x100]
  {
    assert Pow256(2) == 0x1_0000 && Pow256(4) == 0x1_0000_0000;
    hide Pow256, EncodeNat;
    if -0x8000 <= n < 0x8000 {
      TopBytes(if n < 0 then n + 0x1_0000 else n);
    }
    if -0x8000_0000 <= n < 0x8000_0000 {
      TopBytes(if n < 0 then n + 0x1_0000_0000 else n);
    }
  }

  lemma {:induction false} NatInHalves(u: nat, k: nat)
    ensures EncodeNat(u, k + 4) == EncodeNat(u / 0x1_0000_0000, k) + EncodeNat(u % 0x1_0000_0000, 4)
  {
    EncodedNats(u);
    EncodedNats(u % 0x1_0000_0000);
    Quotients(u);
    var a, b, c := u / 0x100, u / 0x100 / 0x100, u / 0x100 / 0x100 / 0x100;
    assert c / 0x100 == u / 0x1_0000_0000;
    assert EncodeNat(c, k + 1) == EncodeNat(c / 0x100, k) + [c % 0x100];
    assert EncodeNat(b, k + 2) == EncodeNat(c, k + 1) + [b % 0x100];
    assert EncodeNat(a, k + 3) == EncodeNat(b, k + 2) + [a % 0x100];
    assert EncodeNat(u, k + 4) == EncodeNat(a, k + 3) + [u % 0x100];
    Remainders(u);
  }

  lemma Skip(high: nat, low: nat, x: nat)
    requires x == high * 0x100 + low
    ensures x % 0x100 == low % 0x100
  {
  }

  lemma Remainders(u: nat)
    ensures
      var low := u % 0x1_0000_0000;
      && low / 0x100_0000 % 0x100 == u / 0x100_0000 % 0x100 && low / 0x1_0000 % 0x100 == u / 0x1_0000 % 0x100
      && low / 0x100 % 0x100 == u / 0x100 % 0x100 && low % 0x100 == u % 0x100
  {
    var high, low := u / 0x1_0000_0000, u % 0x1_0000_0000;
    assert u == high * 0x1_0000_0000 + low;
    HigherBytes(u, high, low);
    LowerBytes(u, high, low);
  }

  lemma HigherBytes(u: nat, high: nat, low: nat)
    requires u == high * 0x1_0000_0000 + low
    ensures low / 0x100_0000 % 0x100 == u / 0x100_0000 % 0x100 && low / 0x1_0000 % 0x100 == u / 0x1_0000 % 0x100
  {
    Skip(high, low / 0x100_0000, u / 0x100_0000);
    Skip(high * 0x100, low / 0x1_0000, u / 0x1_0000);
  }

  lemma LowerBytes(u: nat, high: nat, low: nat)
    requires u == high * 0x1_0000_0000 + low
    ensures low / 0x100 % 0x100 == u / 0x100 % 0x100 && low % 0x100 == u % 0x100
  {
    Skip(high * 0x1_0000, low / 0x100, u / 0x100);
    Skip(high * 0x100_0000, low, u);
  }

  /** A `Long` is its two halves, the higher first. */
  lemma LongsAre(n: int)
    requires -0x8000_0000_0000_0000 <= n < 0x8000_0000_0000_0000
    ensures Fits(n, 8)
    ensures
      var u := if n < 0 then n + 0x1_0000_0000_0000_0000 else n;
      Encode(n, 8) == EncodeNat(u / 0x1_0000_0000, 4) + EncodeNat(u % 0x1_0000_0000, 4)
  {
    assert Pow256(8) == 0x1_0000_0000_0000_0000;
    hide Pow256;
    NatInHalves(if n < 0 then n + 0x1_0000_0000_0000_0000 else n, 4);
  }

  // ---- Strings ----

  /** Modified UTF-8: one byte for ASCII but the null character, two up to 0x7FF and for that, three for the rest. */
  lemma UnitsAre(c: CodeUnit)
    ensures 0x01 <= c <= 0x7F ==> EncodeUnit(c) == [c]
    ensures c == 0 ==> EncodeUnit(c) == [0xC0, 0x80]
    ensures 0x80 <= c <= 0x7FF ==>
      var b := EncodeUnit(c);
      |b| == 2 && 0xC0 <= b[0] <= 0xDF && 0x80 <= b[1] <= 0xBF && (b[0] as int - 0xC0) * 0x40 + (b[1] as int - 0x80) == c
    ensures 0x800 <= c ==>
      var b := EncodeUnit(c);
      && |b| == 3 && 0xE0 <= b[0] <= 0xEF && 0x80 <= b[1] <= 0xBF && 0x80 <= b[2] <= 0xBF
      && (b[0] as int - 0xE0) * 0x1000 + (b[1] as int - 0x80) * 0x40 + (b[2] as int - 0x80) == c
  {
  }

  /** The units one after another, with the length of all in front in two bytes. */
  lemma StringsAre(t: Text, c: CodeUnit)
    ensures EncodeText([]) == [] && EncodeText([c] + t) == EncodeUnit(c) + EncodeText(t)
    ensures Writable(t) <==> |EncodeText(t)| <= 65535
    ensures Writable(t) ==> EncodeUTF(t) == [|EncodeText(t)| / 0x100, |EncodeText(t)| % 0x100] + EncodeText(t)
  {
    assert EncodeText([c] + t) == EncodeUnit(c) + EncodeText(t) by {
      hide EncodeUnit;
      assert ([c] + t)[1..] == t;
    }
    assert EncodeText([]) == [];
    hide EncodeText, EncodeUnit, EncodeNat;
    TopBytes(|EncodeText(t)|);
  }

  // ---- Packed probes ----

  function Weight(bits: seq<bool>, i: int, weight: int): int {
    if 0 <= i < |bits| && bits[i] then weight else 0
  }

  lemma EightBits(w: seq<bool>)
    requires |w| <= 8
    ensures Exec.ByteOf(w)
         == Weight(w, 0, 1) + Weight(w, 1, 2) + Weight(w, 2, 4) + Weight(w, 3, 8)
            + Weight(w, 4, 16) + Weight(w, 5, 32) + Weight(w, 6, 64) + Weight(w, 7, 128)
  {
    if |w| > 0 {
      var a := w[1..];
      SevenBits(a);
      assert forall i, k :: 0 <= i < 7 ==> Weight(w, i + 1, 2 * k) == 2 * Weight(a, i, k);
    }
  }

  lemma SevenBits(w: seq<bool>)
    requires |w| <= 7
    ensures Exec.ByteOf(w)
         == Weight(w, 0, 1) + Weight(w, 1, 2) + Weight(w, 2, 4) + Weight(w, 3, 8)
            + Weight(w, 4, 16) + Weight(w, 5, 32) + Weight(w, 6, 64)
  {
    Unrolled(w, 7);
  }

  /** The weighted sum of the first `n` bits. */
  function Sum(w: seq<bool>, n: nat): int {
    if n == 0 then 0 else Weight(w, 0, 1) + 2 * Sum(if w == [] then [] else w[1..], n - 1)
  }

  lemma {:induction false} Unrolled(w: seq<bool>, n: nat)
    requires |w| <= n <= 8
    ensures Exec.ByteOf(w) == Sum(w, n)
  {
    if n > 0 {
      Unrolled(if w == [] then [] else w[1..], n - 1);
    }
  }

  /** Byte `j` holds probes `8 * j` and up, the first in its lowest bit. */
  lemma PackedIs(bits: seq<bool>, j: nat)
    requires j < (|bits| + 7) / 8
    ensures |Exec.Pack(bits)| == (|bits| + 7) / 8
    ensures Exec.Pack(bits)[j] as int
         == Weight(bits, 8 * j, 1) + Weight(bits, 8 * j + 1, 2) + Weight(bits, 8 * j + 2, 4) + Weight(bits, 8 * j + 3, 8)
            + Weight(bits, 8 * j + 4, 16) + Weight(bits, 8 * j + 5, 32) + Weight(bits, 8 * j + 6, 64) + Weight(bits, 8 * j + 7, 128)
  {
    var w := Exec.Window(bits, j, |bits|);
    EightBits(w);
    assert forall i, k :: 0 <= i < 8 ==> Weight(w, i, k) == Weight(bits, 8 * j + i, k);
  }

  // ---- A file of each kind ----

  lemma FourBytes(a: Byte, b: Byte, c: Byte, d: Byte)
    ensures EncodeNat(((a as nat * 0x100 + b as nat) * 0x100 + c as nat) * 0x100 + d as nat, 4) == [a, b, c, d]
  {
    var n3 := a as nat;
    var n2 := n3 * 0x100 + b as nat;
    var n1 := n2 * 0x100 + c as nat;
    var n0 := n1 * 0x100 + d as nat;
    assert EncodeNat(0, 0) == [];
    assert n3 / 256 == 0 && n2 / 256 == n3 && n1 / 256 == n2 && n0 / 256 == n1;
    assert EncodeNat(n3, 1) == [a];
    assert EncodeNat(n2, 2) == [a, b];
    assert EncodeNat(n1, 3) == [a, b, c];
  }

  const SOME_ID: int := 0x0102_0304_0506_0708

  lemma SomeIdIs()
    ensures Fits(SOME_ID, 8) && Encode(SOME_ID, 8) == [1, 2, 3, 4, 5, 6, 7, 8]
  {
    LongsAre(SOME_ID);
    FourBytes(1, 2, 3, 4);
    FourBytes(5, 6, 7, 8);
    hide EncodeNat, Encode, Fits;
    assert SOME_ID / 0x1_0000_0000 == 0x0102_0304 && SOME_ID % 0x1_0000_0000 == 0x0506_0708;
  }

  /** Strings of one, two and three ASCII characters. */
  lemma AsciiIs(a: CodeUnit, b: CodeUnit, c: CodeUnit)
    requires 0 < a < 0x80 && 0 < b < 0x80 && 0 < c < 0x80
    ensures Writable([]) && EncodeUTF([]) == [0, 0]
    ensures Writable([a]) && EncodeUTF([a]) == [0, 1, a]
    ensures Writable([a, b, c]) && EncodeUTF([a, b, c]) == [0, 3, a, b, c]
  {
    StringsAre([], c);
    StringsAre([c], b);
    StringsAre([b, c], a);
    StringsAre([], a);
    assert [c] == [c] + [] && [b, c] == [b] + [c] && [a, b, c] == [a] + [b, c] && [a] == [a] + [];
    EncodedNats(0);
    EncodedNats(1);
    EncodedNats(3);
  }

  const NINE_PROBES := [true, false, true, false, false, false, false, false, true]

  lemma NinePacked()
    ensures Exec.Pack(NINE_PROBES) == [5, 1]
  {
    PackedIs(NINE_PROBES, 0);
    PackedIs(NINE_PROBES, 1);
  }

  /** `OMNIVORE` and version 1, `OMNIPROB` and version 3, and a count of one. */
  lemma HeadersAre()
    ensures Fits(1, 2) && Fits(3, 2) && Fits(1, 4) && Exec.VERSION == 1 && Maps.VERSION == 3
    ensures HeaderBytes(Exec.MAGIC, 1, 1) == [0x4F, 0x4D, 0x4E, 0x49, 0x56, 0x4F, 0x52, 0x45] + [0, 1] + [0, 0, 0, 1]
    ensures HeaderBytes(Maps.MAGIC, 3, 1) == [0x4F, 0x4D, 0x4E, 0x49, 0x50, 0x52, 0x4F, 0x42] + [0, 3] + [0, 0, 0, 1]
  {
    IntegersAre(1);
    IntegersAre(3);
    hide Encode, Fits;
  }

  lemma RecordIs(r: Exec.ExecRecord)
    requires r == Exec.ExecRecord(SOME_ID, [0x61, 0x2F, 0x42], NINE_PROBES)
    ensures Exec.IsRecord(r) && Exec.WritableRecord(r)
    ensures Exec.RecordBytes(r) == [1, 2, 3, 4, 5, 6, 7, 8] + [0, 3, 0x61, 0x2F, 0x42] + [0, 0, 0, 9] + [5, 1]
  {
    hide Encode, EncodeUTF, EncodeText, EncodeNat, Exec.Pack, Fits, Writable;
    SomeIdIs();
    AsciiIs(0x61, 0x2F, 0x42);
    NinePacked();
    IntegersAre(9);
    Exec.AllocatableCounts(9);
    hide Exec.SizeFor;
  }

  /** An execution file of one class `a/B` with nine probes, the first, third and ninth of them hit. */
  lemma ExecutionFileIs()
    ensures
      var rs := [Exec.ExecRecord(SOME_ID, [0x61, 0x2F, 0x42], NINE_PROBES)];
      && Exec.AreRecords(rs) && Exec.WritableRecords(rs)
      && Exec.FileBytes(rs) == [0x4F, 0x4D, 0x4E, 0x49, 0x56, 0x4F, 0x52, 0x45] + [0, 1] + [0, 0, 0, 1]
                               + ([1, 2, 3, 4, 5, 6, 7, 8] + [0, 3, 0x61, 0x2F, 0x42] + [0, 0, 0, 9] + [5, 1])
  {
    var r := Exec.ExecRecord(SOME_ID, [0x61, 0x2F, 0x42], NINE_PROBES);
    RecordIs(r);
    HeadersAre();
    hide HeaderBytes, Fits, Exec.RecordBytes, Exec.IsRecord, Exec.WritableRecord;
    assert [r][1..] == [] && Exec.RecordsBytes([]) == [];
    assert Exec.RecordsBytes([r]) == Exec.RecordBytes(r);
  }

  lemma EntriesAre(e: ProbeEntry)
    requires e == ProbeEntry(2, 7, [0x66], [0x28, 0x29, 0x56], BRANCH, true, 1)
    ensures Maps.AreEntries([e]) && Maps.WritableEntries([e])
    ensures Maps.EntriesBytes([e])
         == [0, 0, 0, 2] + [0, 0, 0, 7] + [0, 1, 0x66] + [0, 3, 0x28, 0x29, 0x56] + [1] + [1] + [0, 0, 0, 1]
  {
    EntryIs(e);
    hide Maps.EntryBytes, Maps.IsEntry, Maps.WritableEntry;
    assert [e][1..] == [] && Maps.EntriesBytes([]) == [];
  }

  lemma ClassIs(e: ProbeEntry, c: ClassMap)
    requires e == ProbeEntry(2, 7, [0x66], [0x28, 0x29, 0x56], BRANCH, true, 1)
    requires c == ClassMap(SOME_ID, [0x61, 0x2F, 0x42], None, [e])
    ensures Maps.IsClass(c) && Maps.WritableClass(c)
    ensures Maps.ClassBytes(c) == [1, 2, 3, 4, 5, 6, 7, 8] + [0, 3, 0x61, 0x2F, 0x42] + [0, 0] + [0, 0, 0, 1]
                               + ([0, 0, 0, 2] + [0, 0, 0, 7] + [0, 1, 0x66] + [0, 3, 0x28, 0x29, 0x56] + [1] + [1] + [0, 0, 0, 1])
  {
    hide Encode, EncodeUTF, Fits, Writable, EncodeText, EncodeNat, Maps.AreEntries, Maps.WritableEntries, Maps.EntriesBytes;
    EntriesAre(e);
    SomeIdIs();
    AsciiIs(0x61, 0x2F, 0x42);
    IntegersAre(1);
    hide SOME_ID;
  }

  /** A probe file of the same class, without a source file, and one branch probe of a composable method `f`. */
  lemma ProbeFileIs()
    ensures
      var cs := [ClassMap(SOME_ID, [0x61, 0x2F, 0x42], None, [ProbeEntry(2, 7, [0x66], [0x28, 0x29, 0x56], BRANCH, true, 1)])];
      && Maps.AreClasses(cs) && Maps.WritableClasses(cs) && Fits(1, 4)
      && Maps.FileBytes(cs) == [0x4F, 0x4D, 0x4E, 0x49, 0x50, 0x52, 0x4F, 0x42] + [0, 3] + [0, 0, 0, 1]
                               + ([1, 2, 3, 4, 5, 6, 7, 8] + [0, 3, 0x61, 0x2F, 0x42] + [0, 0] + [0, 0, 0, 1]
                                  + ([0, 0, 0, 2] + [0, 0, 0, 7] + [0, 1, 0x66] + [0, 3, 0x28, 0x29, 0x56] + [1] + [1] + [0, 0, 0, 1]))
  {
    var e := ProbeEntry(2, 7, [0x66], [0x28, 0x29, 0x56], BRANCH, true, 1);
    var c := ClassMap(SOME_ID, [0x61, 0x2F, 0x42], None, [e]);
    ClassIs(e, c);
    HeadersAre();
    hide HeaderBytes, Fits, Maps.ClassBytes, Maps.IsClass, Maps.WritableClass;
    assert [c][1..] == [] && Maps.ClassesBytes([]) == [];
    assert Maps.ClassesBytes([c]) == Maps.ClassBytes(c);
  }

  lemma EntryIs(e: ProbeEntry)
    requires e == ProbeEntry(2, 7, [0x66], [0x28, 0x29, 0x56], BRANCH, true, 1)
    ensures Maps.IsEntry(e) && Maps.WritableEntry(e)
    ensures Maps.EntryBytes(e) == [0, 0, 0, 2] + [0, 0, 0, 7] + [0, 1, 0x66] + [0, 3, 0x28, 0x29, 0x56] + [1] + [1] + [0, 0, 0, 1]
  {
    hide Encode, EncodeUTF, Fits, Writable, EncodeText, EncodeNat;
    AsciiIs(0x66, 0x66, 0x66);
    AsciiIs(0x28, 0x29, 0x56);
    IntegersAre(1);
    IntegersAre(2);
    IntegersAre(7);
  }

  /** The other values of the two bytes of an entry. */
  lemma KindsAre()
    ensures Maps.KindByte(LINE) == 0 && Maps.KindByte(BRANCH) == 1
  {
  }

  // ---- Base64 ----

  /** Table 1 of RFC 4648: the upper-case letters, the lower-case ones, the digits, `+` and `/`. */
  lemma AlphabetIs(v: int)
    requires 0 <= v < 64
    ensures v <= 25 ==> Symbol(v) as int == 0x41 + v
    ensures 26 <= v <= 51 ==> Symbol(v) as int == 0x61 + (v - 26)
    ensures 52 <= v <= 61 ==> Symbol(v) as int == 0x30 + (v - 52)
    ensures Symbol(62) == 0x2B && Symbol(63) == 0x2F
  {
  }

  /** `f`, `fo` and `foo` are `Zg==`, `Zm8=` and `Zm9v` (section 10 of RFC 4648), and further bytes go on from there. */
  lemma VectorsAre(rest: seq<Byte>)
    ensures Base64([]) == []
    ensures Base64([0x66]) == [0x5A, 0x67, 0x3D, 0x3D]
    ensures Base64([0x66, 0x6F]) == [0x5A, 0x6D, 0x38, 0x3D]
    ensures Base64([0x66, 0x6F, 0x6F] + rest) == [0x5A, 0x6D, 0x39, 0x76] + Base64(rest)
  {
    var t: seq<Byte> := [0x66, 0x6F, 0x6F];
    assert (t + rest)[..3] == t && (t + rest)[3..] == rest;
  }

  /** Chunks of 60000 symbols, the last one possibly shorter and none empty. */
  lemma {:induction false} ChunksAre(t: Text, k: nat)
    requires k < |Chunked(t)|
    ensures if k < |Chunked(t)| - 1 then |Chunked(t)[k]| == 60000 else 0 < |Chunked(t)[k]| <= 60000
  {
    if k > 0 {
      ChunksAre(t[60000..], k - 1);
    } else if |t| > 60000 {
      assert Chunked(t[60000..]) != [];
    }
  }

  // ---- What readers refuse ----

  lemma TwoBytes(a: Byte, b: Byte)
    ensures Decode([a, b]) == if a < 0x80 then a * 0x100 + b else a * 0x100 + b - 0x1_0000
  {
    assert Pow256(2) == 0x1_0000;
    assert DecodeNat([]) == 0 && [a, b][..1] == [a] && [a][..0] == [];
    assert DecodeNat([a]) == a && DecodeNat([a, b]) == 0x100 * a + b;
  }

  lemma HeaderChecks(magic: seq<Byte>, version: int, input: seq<Byte>)
    requires 0 <= version < 0x80 && ParseHeader(magic, version, input).Parsed?
    ensures |input| >= 14 && input[..8] == magic && input[8] == 0 && input[9] as int == version
  {
    var tail := input[8..];
    assert tail[..2] == [input[8], input[9]];
    TwoBytes(input[8], input[9]);
    hide Decode;
  }

  /** Anything else than the magic of its format and its one version is refused, and so is a file cut short in its header. */
  lemma OthersAreRefused(input: seq<Byte>)
    ensures Exec.ParseFile(input).Parsed? ==>
      |input| >= 14 && input[..10] == [0x4F, 0x4D, 0x4E, 0x49, 0x56, 0x4F, 0x52, 0x45, 0, 1]
    ensures Maps.ParseFile(input).Parsed? ==>
      |input| >= 14 && input[..10] == [0x4F, 0x4D, 0x4E, 0x49, 0x50, 0x52, 0x4F, 0x42, 0, 3]
  {
    if Exec.ParseFile(input).Parsed? {
      HeaderChecks(Exec.MAGIC, 1, input);
      assert input[..10] == input[..8] + [0, 1];
    }
    if Maps.ParseFile(input).Parsed? {
      HeaderChecks(Maps.MAGIC, 3, input);
      assert input[..10] == input[..8] + [0, 3];
    }
    hide ParseHeader, Exec.ParseRecords, Maps.ParseClasses;
  }

  /** The kind of a probe is 0 for a line and 1 for a branch, and nothing else; its flag is set by 1 alone. */
  lemma KindIsRead(e: ProbeEntry, kind: Byte, flag: Byte, rest: seq<Byte>)
    requires Maps.IsEntry(e) && Maps.WritableEntry(e)
    ensures
      Maps.ParseEntry(Encode(e.probeIndex, 4) + Encode(e.lineNumber, 4) + EncodeUTF(e.methodName) + EncodeUTF(e.methodDesc)
                      + [kind] + [flag] + Encode(e.branchGroup, 4) + rest)
      == if kind == 0 then Parsed(e.(kind := LINE, isComposable := flag == 1), rest)
         else if kind == 1 then Parsed(e.(kind := BRANCH, isComposable := flag == 1), rest)
         else Failed
  {
    hide EncodeUTF, ParseUTF, ParseInteger, Encode, Fits, Writable;
    var s7 := Encode(e.branchGroup, 4) + rest;
    var s6 := [flag] + s7;
    var s5 := [kind] + s6;
    var s4 := EncodeUTF(e.methodDesc) + s5;
    var s3 := EncodeUTF(e.methodName) + s4;
    var s2 := Encode(e.lineNumber, 4) + s3;
    assert Encode(e.probeIndex, 4) + Encode(e.lineNumber, 4) + EncodeUTF(e.methodName) + EncodeUTF(e.methodDesc)
           + [kind] + [flag] + Encode(e.branchGroup, 4) + rest == Encode(e.probeIndex, 4) + s2;
    IntegerParses(e.probeIndex, 4, s2);
    IntegerParses(e.lineNumber, 4, s3);
    UTFParses(e.methodName, s4);
    UTFParses(e.methodDesc, s5);
    Maps.ByteParses(kind, s6);
    Maps.ByteParses(flag, s7);
    IntegerParses(e.branchGroup, 4, rest);
  }

  /** `readUTF`: a byte that no unit starts with, or a unit cut short or not continued as it should be. */
  lemma MalformedAre(b: Byte, rest: seq<Byte>)
    ensures 0x80 <= b <= 0xBF || 0xF0 <= b ==> DecodeText([b] + rest) == Malformed
    ensures 0xC0 <= b <= 0xDF && (rest == [] || !(0x80 <= rest[0] <= 0xBF)) ==> DecodeText([b] + rest) == Malformed
    ensures 0xE0 <= b <= 0xEF && (|rest| < 2 || !(0x80 <= rest[0] <= 0xBF) || !(0x80 <= rest[1] <= 0xBF)) ==>
      DecodeText([b] + rest) == Malformed
  {
  }

  lemma {:induction false} SymbolsOrPads(t: Text)
    requires Unbase64(t).Bytes?
    ensures |t| % 4 != 1
    ensures forall i :: 0 <= i < |t| ==> t[i] == PAD || IsSymbol(t[i])
  {
    hide IsSymbol, Group;
    if |t| >= 4 && AllSymbols(t[..4]) {
      SymbolsOrPads(t[4..]);
      forall i | 0 <= i < |t| ensures t[i] == PAD || IsSymbol(t[i]) {
        assert t[i] == if i < 4 then t[..4][i] else t[4..][i - 4];
      }
    } else {
      assert forall i :: 0 <= i < 2 && |t| >= 2 ==> t[i] == t[..2][i];
      assert forall i :: 0 <= i < 3 && |t| >= 3 ==> t[i] == t[..3][i];
    }
  }

  /** What can be decoded has symbols of the alphabet and padding only, and not one symbol more than groups of four. */
  lemma DecodableIs(t: Text)
    requires Unbase64(t).Bytes?
    ensures |t| % 4 != 1
    ensures forall c :: c in t ==> c == 0x3D || 0x41 <= c <= 0x5A || 0x61 <= c <= 0x7A || 0x30 <= c <= 0x39 || c == 0x2B || c == 0x2F
  {
    hide Unbase64;
    SymbolsOrPads(t);
  }

  /** A second map of one class adds its probes to the first, whose name and source file stay. */
  lemma SecondMapAdds(m: Maps.Maps, c: ClassMap)
    ensures c.classId !in m ==> Maps.AddClass(m, c) == m[c.classId := c]
    ensures c.classId in m ==>
      var a := m[c.classId];
      Maps.AddClass(m, c) == m[c.classId := ClassMap(a.classId, a.className, a.sourceFile, a.probes + c.probes)]
  {
  }
}
