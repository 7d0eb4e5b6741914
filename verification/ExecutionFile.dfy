/** `.omnivore` files (runtime/ExecutionDataWriter.kt and ExecutionDataReader.kt). */
module ExecutionFile {
  import opened ByteStream
  import opened ExecutionStore
  import opened Text
  import opened Wrappers

  // ---- Bits ----

  function ByteOf(bits: seq<bool>): (b: nat)
  {
    if bits == [] then 0 else (if bits[0] then 1 else 0) + 2 * ByteOf(bits[1..])
  }

  function BitOf(b: nat, k: nat): bool {
    if k == 0 then b % 2 == 1 else BitOf(b / 2, k - 1)
  }

  function Pow2(k: nat): (p: nat)
    ensures p >= 1
  {
    if k == 0 then 1 else 2 * Pow2(k - 1)
  }

  /** `b or (1 shl k)` */
  function SetBit(b: nat, k: nat): nat {
    if BitOf(b, k) then b else b + Pow2(k)
  }

  lemma {:induction false} ByteOfIsSmall(bits: seq<bool>)
    ensures ByteOf(bits) < Pow2(|bits|)
  {
    if bits != [] {
      ByteOfIsSmall(bits[1..]);
    }
  }

  lemma {:induction false} BitOfByte(bits: seq<bool>, k: nat)
    ensures BitOf(ByteOf(bits), k) == (k < |bits| && bits[k])
    decreases k
  {
    if bits == [] {
      if k > 0 { BitOfByte([], k - 1); }
    } else if k > 0 {
      BitOfByte(bits[1..], k - 1);
    }
  }

  /** The next bit of a byte: `or` of a bit not yet set adds its value. */
  lemma {:induction false} ByteOfOneMore(bits: seq<bool>, bit: bool)
    ensures ByteOf(bits + [bit]) == if bit then SetBit(ByteOf(bits), |bits|) else ByteOf(bits)
  {
    BitOfByte(bits, |bits|);
    if bits != [] {
      ByteOfOneMore(bits[1..], bit);
      BitOfByte(bits[1..], |bits| - 1);
      assert (bits + [bit])[1..] == bits[1..] + [bit];
    } else {
      assert (bits + [bit])[1..] == [];
    }
  }

  /** The bits among the first `i` that go into byte `j`. */
  function Window(bits: seq<bool>, j: nat, i: nat): (w: seq<bool>)
    requires i <= |bits|
    ensures |w| <= 8
  {
    if i <= 8 * j then [] else bits[8 * j..if i < 8 * j + 8 then i else 8 * j + 8]
  }

  function PackedSize(n: nat): nat {
    (n + 7) / 8
  }

  /** A 32-bit `Int`: beyond either end it comes round. */
  function Int32(n: int): int {
    (n + 0x8000_0000) % 0x1_0000_0000 - 0x8000_0000
  }

  /** `(count + 7) / 8` as writer and reader compute it: the sum wraps around, and Kotlin's division truncates. */
  function SizeFor(count: int): int {
    var sum := Int32(count + 7);
    if sum >= 0 then sum / 8 else -(-sum / 8)
  }

  /** An array can have that size: `ByteArray` refuses a negative one. */
  predicate IsAllocatable(count: int) {
    SizeFor(count) >= 0
  }

  /** Among the values of an `Int` those down to -14 ask for no bytes, and the seven largest for a negative number of them. */
  lemma AllocatableCounts(count: int)
    requires -0x8000_0000 <= count < 0x8000_0000
    ensures IsAllocatable(count) <==> -14 <= count <= 0x7FFF_FFFF - 7
    ensures IsAllocatable(count) ==> SizeFor(count) == if count < 0 then 0 else PackedSize(count)
  {
  }

  function Pack(bits: seq<bool>): (bytes: seq<Byte>)
    ensures |bytes| == PackedSize(|bits|)
  {
    seq(PackedSize(|bits|), j requires 0 <= j => PackedByte(bits, j))
  }

  function PackedByte(bits: seq<bool>, j: nat): Byte {
    var w := Window(bits, j, |bits|);
    ByteOfIsSmall(w);
    assert Pow2(|w|) <= 256 by { Pow2Grows(|w|, 8); }
    ByteOf(w)
  }

  lemma {:induction false} Pow2Grows(a: nat, b: nat)
    requires a <= b
    ensures Pow2(a) <= Pow2(b) && Pow2(8) == 256
  {
    if a > 0 {
      Pow2Grows(a - 1, b - 1);
    }
  }

  function Unpack(bytes: seq<Byte>, n: nat): (bits: seq<bool>)
    requires |bytes| == PackedSize(n)
    ensures |bits| == n
  {
    seq(n, i requires 0 <= i < n => BitOf(bytes[i / 8], i % 8))
  }

  lemma PackRoundTrip(bits: seq<bool>)
    ensures Unpack(Pack(bits), |bits|) == bits
  {
    forall i | 0 <= i < |bits| ensures Unpack(Pack(bits), |bits|)[i] == bits[i] {
      BitOfByte(Window(bits, i / 8, |bits|), i % 8);
    }
  }

  method PackProbes(probes: array<bool>, packedSize: nat) returns (packed: array<nat>)
    requires packedSize == PackedSize(probes.Length)
    ensures fresh(packed) && packed.Length == packedSize
    ensures forall j :: 0 <= j < packed.Length ==> packed[j] == Pack(probes[..])[j]
  {
    packed := new nat[packedSize](_ => 0);
    ghost var bits := probes[..];
    for i := 0 to probes.Length
      invariant probes[..] == bits
      invariant forall j :: 0 <= j < packed.Length ==> packed[j] == ByteOf(Window(bits, j, i))
    {
      hide ByteOf, Window, SetBit, Pack;
      var j := i / 8;
      forall k | 0 <= k < packed.Length { WindowOneMore(bits, k, i); }
      ByteOfOneMore(Window(bits, j, i), bits[i]);
      if probes[i] {
        packed[j] := SetBit(packed[j], i % 8);
      }
    }
  }

  lemma WindowOneMore(bits: seq<bool>, j: nat, i: nat)
    requires i < |bits|
    ensures Window(bits, j, i + 1) == if j == i / 8 then Window(bits, j, i) + [bits[i]] else Window(bits, j, i)
    ensures j == i / 8 ==> |Window(bits, j, i)| == i % 8
  {
  }

  // ---- Records ----

  datatype ExecRecord = ExecRecord(classId: int, className: Text, probes: seq<bool>)

  type ExecData = map<int, ExecRecord>

  function Or(a: seq<bool>, b: seq<bool>): (c: seq<bool>)
    ensures |c| == if |a| < |b| then |b| else |a|
    ensures forall i :: 0 <= i < |c| ==> c[i] == ((i < |a| && a[i]) || (i < |b| && b[i]))
  {
    seq(if |a| < |b| then |b| else |a|, i requires 0 <= i => (i < |a| && a[i]) || (i < |b| && b[i]))
  }

  /** What a store that holds `m` holds after taking in one more record. */
  function Join(m: ExecData, r: ExecRecord): ExecData {
    if r.classId !in m then m[r.classId := r]
    else
      var e := m[r.classId];
      m[r.classId := ExecRecord(r.classId, if |e.probes| < |r.probes| then r.className else e.className, Or(e.probes, r.probes))]
  }

  /** The values of a `Long`, a string and an array size. */
  predicate IsRecord(r: ExecRecord) {
    Fits(r.classId, 8) && Fits(|r.probes|, 4)
  }

  /** The name is short enough for `writeUTF`, and there are few enough probes for the array they are packed into. */
  predicate WritableRecord(r: ExecRecord) {
    Writable(r.className) && IsAllocatable(|r.probes|)
  }

  predicate WritableRecords(rs: seq<ExecRecord>) {
    forall i :: 0 <= i < |rs| ==> WritableRecord(rs[i])
  }

  predicate AreRecords(rs: seq<ExecRecord>) {
    Fits(|rs|, 4) && forall i :: 0 <= i < |rs| ==> IsRecord(rs[i])
  }

  function RecordBytes(r: ExecRecord): seq<Byte>
    requires IsRecord(r) && WritableRecord(r)
  {
    Encode(r.classId, 8) + EncodeUTF(r.className) + Encode(|r.probes|, 4) + Pack(r.probes)
  }

  function RecordsBytes(rs: seq<ExecRecord>): seq<Byte>
    requires (forall i :: 0 <= i < |rs| ==> IsRecord(rs[i])) && WritableRecords(rs)
  {
    if rs == [] then [] else RecordBytes(rs[0]) + RecordsBytes(rs[1..])
  }

  /** `OMNIVORE` */
  const MAGIC: seq<Byte> := [0x4F, 0x4D, 0x4E, 0x49, 0x56, 0x4F, 0x52, 0x45]
  const VERSION := 1

  lemma VersionFits()
    ensures Fits(VERSION, 2)
  {
    assert Pow256(2) == 65536;
  }

  function FileBytes(rs: seq<ExecRecord>): seq<Byte>
    requires AreRecords(rs) && WritableRecords(rs)
  {
    VersionFits();
    HeaderBytes(MAGIC, VERSION, |rs|) + RecordsBytes(rs)
  }

  // ---- Reading ----

  datatype RecordHead = RecordHead(classId: int, className: Text, probeCount: int)

  function ParseHead(input: seq<Byte>): Parsed<RecordHead> {
    var (classId, input1) :- ParseInteger(input, 8);
    var (className, input2) :- ParseUTF(input1);
    var (probeCount, input3) :- ParseInteger(input2, 4);
    Parsed(RecordHead(classId, className, probeCount), input3)
  }

  /** The packed bits of a record, and the store after them; a class already there can have a small negative count. */
  function ParseProbes(m: ExecData, h: RecordHead, input: seq<Byte>): Parsed<ExecData> {
    if !IsAllocatable(h.probeCount) then Failed
    else if h.probeCount < 0 then (if h.classId in m then Parsed(m, input) else Failed)
    else
      var (packed, rest) :- ParseBytes(input, PackedSize(h.probeCount));
      Parsed(Join(m, ExecRecord(h.classId, h.className, Unpack(packed, h.probeCount))), rest)
  }

  function ParseRecord(m: ExecData, input: seq<Byte>): Parsed<ExecData> {
    var (h, rest) :- ParseHead(input);
    ParseProbes(m, h, rest)
  }

  function ParseRecords(m: ExecData, n: nat, input: seq<Byte>): Parsed<ExecData>
    decreases n
  {
    if n == 0 then Parsed(m, input)
    else
      var (m', rest) :- ParseRecord(m, input);
      ParseRecords(m', n - 1, rest)
  }

  /** What reading a file gives; bytes after the last record are not looked at. */
  function ParseFile(input: seq<Byte>): Parsed<ExecData> {
    var (count, rest) :- ParseHeader(MAGIC, VERSION, input);
    ParseRecords(map[], if count < 0 then 0 else count, rest)
  }

  function JoinAll(m: ExecData, rs: seq<ExecRecord>): ExecData
    decreases |rs|
  {
    if rs == [] then m else JoinAll(Join(m, rs[0]), rs[1..])
  }

  lemma RecordParses(m: ExecData, r: ExecRecord, rest: seq<Byte>)
    requires IsRecord(r) && WritableRecord(r)
    ensures ParseRecord(m, RecordBytes(r) + rest) == Parsed(Join(m, r), rest)
  {
    hide EncodeUTF, ParseUTF, ParseInteger, Encode, Pack, Unpack, Writable, Fits, IsAllocatable;
    var name, size, packed := EncodeUTF(r.className), Encode(|r.probes|, 4), Pack(r.probes);
    assert RecordBytes(r) + rest == Encode(r.classId, 8) + (name + (size + (packed + rest)));
    IntegerParses(r.classId, 8, name + (size + (packed + rest)));
    UTFParses(r.className, size + (packed + rest));
    IntegerParses(|r.probes|, 4, packed + rest);
    BytesParse(packed, rest);
    PackRoundTrip(r.probes);
  }

  lemma {:induction false} RecordsParse(m: ExecData, rs: seq<ExecRecord>, rest: seq<Byte>)
    requires (forall i :: 0 <= i < |rs| ==> IsRecord(rs[i])) && WritableRecords(rs)
    ensures ParseRecords(m, |rs|, RecordsBytes(rs) + rest) == Parsed(JoinAll(m, rs), rest)
    decreases |rs|
  {
    hide ParseRecord, RecordBytes, Join, IsRecord, WritableRecord;
    if rs == [] {
      assert RecordsBytes(rs) + rest == rest;
    } else {
      RecordParses(m, rs[0], RecordsBytes(rs[1..]) + rest);
      assert RecordsBytes(rs) + rest == RecordBytes(rs[0]) + (RecordsBytes(rs[1..]) + rest);
      RecordsParse(Join(m, rs[0]), rs[1..], rest);
    }
  }

  /** The records of a store: one for each id, under its own id. */
  predicate DistinctRecords(rs: seq<ExecRecord>) {
    forall i, j :: 0 <= i < j < |rs| ==> rs[i].classId != rs[j].classId
  }

  function AsMap(rs: seq<ExecRecord>): (m: ExecData)
  {
    if rs == [] then map[] else AsMap(rs[..|rs| - 1])[rs[|rs| - 1].classId := rs[|rs| - 1]]
  }

  lemma {:induction false} AsMapHolds(rs: seq<ExecRecord>)
    requires DistinctRecords(rs)
    ensures forall id :: id in AsMap(rs) <==> exists i :: 0 <= i < |rs| && rs[i].classId == id
    ensures forall i :: 0 <= i < |rs| ==> rs[i].classId in AsMap(rs) && AsMap(rs)[rs[i].classId] == rs[i]
  {
    if rs != [] {
      AsMapHolds(rs[..|rs| - 1]);
    }
  }

  lemma {:induction false} JoinAllConcat(m: ExecData, a: seq<ExecRecord>, b: seq<ExecRecord>)
    ensures JoinAll(m, a + b) == JoinAll(JoinAll(m, a), b)
    decreases |a|
  {
    hide Join;
    if a == [] {
      assert a + b == b;
    } else {
      assert (a + b)[0] == a[0] && (a + b)[1..] == a[1..] + b;
      JoinAllConcat(Join(m, a[0]), a[1..], b);
    }
  }

  lemma {:induction false} JoinOfDistinct(rs: seq<ExecRecord>)
    requires DistinctRecords(rs)
    ensures JoinAll(map[], rs) == AsMap(rs)
  {
    if rs != [] {
      var front, last := rs[..|rs| - 1], rs[|rs| - 1];
      JoinOfDistinct(front);
      AsMapHolds(front);
      JoinAllConcat(map[], front, [last]);
      assert rs == front + [last];
    }
  }

  /** Whatever can be written is read back as it was. */
  lemma FileRoundTrip(rs: seq<ExecRecord>)
    requires AreRecords(rs) && WritableRecords(rs) && DistinctRecords(rs)
    ensures ParseFile(FileBytes(rs)) == Parsed(AsMap(rs), [])
  {
    hide ParseHeader, HeaderBytes, RecordsBytes, ParseRecords, JoinAll, AsMap, IsRecord, WritableRecord;
    VersionFits();
    HeaderParses(MAGIC, VERSION, |rs|, RecordsBytes(rs));
    RecordsParse(map[], rs, []);
    assert RecordsBytes(rs) + [] == RecordsBytes(rs);
    JoinOfDistinct(rs);
  }

  // ---- The writer and the reader ----

  function RecordOf(d: ProbeData): ExecRecord
    reads d.probes
  {
    ExecRecord(d.classId, d.className, d.probes[..])
  }

  ghost function RecordsOf(data: seq<ProbeData>): (rs: seq<ExecRecord>)
    reads set d | d in data :: d.probes
    ensures |rs| == |data| && forall i :: 0 <= i < |data| ==> rs[i] == RecordOf(data[i])
  {
    seq(|data|, i requires 0 <= i < |data| reads set d | d in data :: d.probes => RecordOf(data[i]))
  }

  method WriteRecord(out: DataOutput, data: ProbeData) returns (ok: bool)
    requires IsRecord(RecordOf(data))
    modifies out
    ensures ok == WritableRecord(RecordOf(data))
    ensures ok ==> out.bytes == old(out.bytes) + RecordBytes(RecordOf(data))
  {
    hide Encode, EncodeUTF, Pack, Writable, IsAllocatable;
    ghost var r := RecordOf(data);
    out.WriteInteger(data.classId, 8);
    ok := out.WriteUTF(data.className);
    if !ok {
      return;
    }
    out.WriteInteger(data.probes.Length, 4);
    ok := WritePacked(out, data.probes);
    if ok {
      assert out.bytes == old(out.bytes) + (Encode(r.classId, 8) + EncodeUTF(r.className) + Encode(|r.probes|, 4) + Pack(r.probes));
    }
  }

  /** The probes as packed bits, where there is an array of their size. */
  method WritePacked(out: DataOutput, probes: array<bool>) returns (ok: bool)
    requires Fits(probes.Length, 4)
    modifies out
    ensures ok == IsAllocatable(probes.Length)
    ensures ok ==> out.bytes == old(out.bytes) + Pack(probes[..])
  {
    hide Pack;
    IntBounds(probes.Length);
    AllocatableCounts(probes.Length);
    var packedSize := SizeFor(probes.Length);
    if packedSize < 0 {
      return false;
    }
    var packed := PackProbes(probes, packedSize);
    assert packed[..] == Pack(probes[..]);
    out.WriteBytes(packed[..]);
    ok := true;
  }

  lemma IntBounds(n: int)
    ensures Fits(n, 4) <==> -0x8000_0000 <= n < 0x8000_0000
  {
    assert Pow256(4) == 0x1_0000_0000;
  }

  /** Writes the collected data in the order given, and fails where a name or an array is too long. */
  method Write(allData: seq<ProbeData>) returns (r: Result<seq<Byte>>)
    requires AreRecords(RecordsOf(allData))
    ensures r == if WritableRecords(RecordsOf(allData)) then Ok(FileBytes(RecordsOf(allData))) else Error
  {
    hide HeaderBytes, RecordBytes, RecordsBytes, WritableRecord, Fits, IsRecord;
    ghost var rs := RecordsOf(allData);
    var out := new DataOutput();
    VersionFits();
    out.WriteHeader(MAGIC, VERSION, |allData|);
    ghost var head := out.bytes;
    assert head == HeaderBytes(MAGIC, VERSION, |rs|);
    assert RecordsBytes([]) == [] by { NoRecords(); }
    for i := 0 to |allData|
      invariant fresh(out) && forall k :: 0 <= k < |allData| ==> RecordOf(allData[k]) == rs[k]
      invariant WritableRecords(rs[..i]) && out.bytes == head + RecordsBytes(rs[..i])
    {
      assert IsRecord(rs[i]) && rs[i] == RecordOf(allData[i]);
      var ok := WriteRecord(out, allData[i]);
      if !ok {
        assert RecordsOf(allData) == rs && !WritableRecord(rs[i]);
        return Error;
      }
      assert rs[..i + 1] == rs[..i] + [rs[i]];
      OneMoreRecord(rs[..i], rs[i]);
    }
    assert rs[..|allData|] == rs && RecordsOf(allData) == rs;
    r := Ok(out.bytes);
  }

  lemma NoRecords()
    ensures RecordsBytes([]) == []
  {
  }

  lemma {:induction false} OneMoreRecord(rs: seq<ExecRecord>, r: ExecRecord)
    requires (forall i :: 0 <= i < |rs| ==> IsRecord(rs[i])) && WritableRecords(rs) && IsRecord(r) && WritableRecord(r)
    ensures RecordsBytes(rs + [r]) == RecordsBytes(rs) + RecordBytes(r)
  {
    hide RecordBytes, IsRecord, WritableRecord;
    if rs == [] {
      assert rs + [r] == [r] && [r][1..] == [];
    } else {
      OneMoreRecord(rs[1..], r);
      assert (rs + [r])[1..] == rs[1..] + [r];
    }
  }

  /** What a store holds, id by id. */
  function ViewOf(s: Store): (m: ExecData)
    requires Consistent(s)
    ensures m.Keys == s.entries.Keys
  {
    map id | id in s.entries :: ExecRecord(id, s.entries[id].className, Data(s, id))
  }

  /** The first `j` hits of `b` added to `a`. */
  function OrFirst(a: seq<bool>, b: seq<bool>, j: nat): (c: seq<bool>)
    ensures |c| == |a|
  {
    seq(|a|, i requires 0 <= i < |a| => a[i] || (i < j && i < |b| && b[i]))
  }

  lemma OrFirstIsOr(a: seq<bool>, b: seq<bool>)
    ensures |b| <= |a| ==> OrFirst(a, b, |b|) == Or(a, b)
    ensures |a| < |b| ==> OrFirst(a + Falses(|b| - |a|), b, |b|) == Or(a, b)
    ensures OrFirst(Falses(|b|), b, |b|) == b
    ensures OrFirst(a, b, 0) == a
  {
  }

  lemma JoinKeepsOthers(s: Store, u: Store, id: int, r: ExecRecord)
    requires Consistent(s) && Consistent(u) && r.classId == id
    requires u.entries.Keys == s.entries.Keys + {id}
    requires forall k :: k in s.entries && k != id ==> u.entries[k] == s.entries[k] && Data(u, k) == Data(s, k)
    requires ExecRecord(id, u.entries[id].className, Data(u, id)) == Join(ViewOf(s), r)[id]
    ensures ViewOf(u) == Join(ViewOf(s), r)
  {
    hide Or, Data;
    var j := Join(ViewOf(s), r);
    assert ViewOf(u).Keys == j.Keys;
    forall k | k in u.entries ensures ViewOf(u)[k] == j[k] {
      if k != id {
        assert k in ViewOf(s) && j[k] == ViewOf(s)[k];
      }
    }
  }

  /** The store after a registration whose array then got the hits of `bits`. */
  function Absorbed(s: Store, id: int, className: Text, bits: seq<bool>): Store
    requires Consistent(s)
  {
    var t := Register(s, id, className, |bits|);
    var h := t.entries[id].handle;
    t.(arrays := t.arrays[h := OrFirst(t.arrays[h], bits, |bits|)])
  }

  lemma AbsorbedEntry(s: Store, id: int, className: Text, bits: seq<bool>)
    requires Consistent(s)
    ensures
      var u := Absorbed(s, id, className, bits);
      && Consistent(u)
      && ExecRecord(id, u.entries[id].className, Data(u, id))
         == if id !in s.entries then ExecRecord(id, className, bits)
            else ExecRecord(id, if |Data(s, id)| < |bits| then className else s.entries[id].className, Or(Data(s, id), bits))
  {
    hide Falses, Or, OrFirst;
    OrFirstIsOr(if id in s.entries then Data(s, id) else [], bits);
  }

  lemma AbsorbedOthers(s: Store, id: int, className: Text, bits: seq<bool>)
    requires Consistent(s) && Consistent(Absorbed(s, id, className, bits))
    ensures
      var u := Absorbed(s, id, className, bits);
      && u.entries.Keys == s.entries.Keys + {id}
      && forall k :: k in s.entries && k != id ==> u.entries[k] == s.entries[k] && Data(u, k) == Data(s, k)
  {
    hide Falses, Or, OrFirst;
  }

  lemma AbsorbMeansJoin(s: Store, id: int, className: Text, bits: seq<bool>)
    requires Consistent(s)
    ensures
      var u := Absorbed(s, id, className, bits);
      Consistent(u) && ViewOf(u) == Join(ViewOf(s), ExecRecord(id, className, bits))
  {
    hide Or, Absorbed, Data, ViewOf;
    AbsorbedEntry(s, id, className, bits);
    AbsorbedOthers(s, id, className, bits);
    ViewAt(s, id);
    assert id in Join(ViewOf(s), ExecRecord(id, className, bits));
    JoinKeepsOthers(s, Absorbed(s, id, className, bits), id, ExecRecord(id, className, bits));
  }

  lemma ViewAt(s: Store, id: int)
    requires Consistent(s)
    ensures id in s.entries ==> id in ViewOf(s) && ViewOf(s)[id] == ExecRecord(id, s.entries[id].className, Data(s, id))
  {
  }

  method SetBits(store: ExecutionDataStore, probes: array<bool>, bits: seq<bool>, ghost h: nat)
    requires store.Valid() && h < |store.arrays| && store.arrays[h] == probes && |bits| <= probes.Length
    modifies probes
    ensures store.Valid()
    ensures store.Abstract() == old(store.Abstract()).(arrays :=
      old(store.Abstract()).arrays[h := OrFirst(old(probes[..]), bits, |bits|)])
  {
    hide Consistent, OrFirst;
    ghost var s, a := store.Abstract(), probes[..];
    OrFirstIsOr(a, bits);
    for j := 0 to |bits|
      invariant store.Valid()
      invariant store.Abstract() == s.(arrays := s.arrays[h := OrFirst(a, bits, j)])
    {
      OrOneMore(a, bits, j);
      if bits[j] {
        store.RecordHit(probes, j, h);
      }
    }
  }

  lemma OrOneMore(a: seq<bool>, b: seq<bool>, j: nat)
    requires j < |b| <= |a|
    ensures OrFirst(a, b, j + 1) == if b[j] then OrFirst(a, b, j)[j := true] else OrFirst(a, b, j)
  {
  }

  /** Registers the class and sets the probes that `bits` has set: growing the array loses nothing. */
  method Absorb(store: ExecutionDataStore, id: int, className: Text, bits: seq<bool>)
    requires store.Valid()
    modifies store, store.arrays
    ensures store.Valid()
    ensures ViewOf(store.Abstract()) == Join(old(ViewOf(store.Abstract())), ExecRecord(id, className, bits))
    ensures old(store.arrays) <= store.arrays && forall h :: |old(store.arrays)| <= h < |store.arrays| ==> fresh(store.arrays[h])
  {
    hide Register, Join, ViewOf, OrFirst;
    AbsorbMeansJoin(store.Abstract(), id, className, bits);
    var probes := store.GetOrCreateProbes(id, className, |bits|);
    SetBits(store, probes, bits, store.handles[id]);
  }

  method ReadHead(input: DataInput) returns (r: Result<RecordHead>)
    modifies input
    ensures
      var p := ParseHead(old(input.rest));
      if p.Parsed? then r == Ok(p.value) && input.rest == p.rest else r.Error?
    ensures r.Ok? ==> Fits(r.value.probeCount, 4)
  {
    hide ParseInteger, ParseUTF, Fits;
    var classId :- input.ReadInteger(8);
    var className :- input.ReadUTF();
    ParsedFits(input.rest, 4);
    var probeCount :- input.ReadInteger(4);
    r := Ok(RecordHead(classId, className, probeCount));
  }

  method ReadProbes(input: DataInput, store: ExecutionDataStore, h: RecordHead) returns (r: Result<()>)
    requires store.Valid() && Fits(h.probeCount, 4)
    modifies input, store, store.arrays
    ensures store.Valid()
    ensures old(store.arrays) <= store.arrays && forall k :: |old(store.arrays)| <= k < |store.arrays| ==> fresh(store.arrays[k])
    ensures
      var p := ParseProbes(old(ViewOf(store.Abstract())), h, old(input.rest));
      if p.Parsed? then r.Ok? && ViewOf(store.Abstract()) == p.value && input.rest == p.rest else r.Error?
  {
    hide Join, ViewOf, Unpack, Consistent, Fits, SizeFor;
    IntBounds(h.probeCount);
    AllocatableCounts(h.probeCount);
    var packedSize := SizeFor(h.probeCount);
    if packedSize < 0 { return Error; }
    var packed :- input.ReadFully(packedSize);
    if h.probeCount < 0 {
      // no bytes were read; a new class would ask for an array of negative size
      KeysOfView(store.Abstract());
      return if h.classId in store.probes then Ok(()) else Error;
    }
    Absorb(store, h.classId, h.className, Unpack(packed, h.probeCount));
    r := Ok(());
  }

  /** One record of a file. */
  method ReadRecord(input: DataInput, store: ExecutionDataStore) returns (r: Result<()>)
    requires store.Valid()
    modifies input, store, store.arrays
    ensures store.Valid()
    ensures old(store.arrays) <= store.arrays && forall k :: |old(store.arrays)| <= k < |store.arrays| ==> fresh(store.arrays[k])
    ensures
      var p := ParseRecord(old(ViewOf(store.Abstract())), old(input.rest));
      if p.Parsed? then r.Ok? && ViewOf(store.Abstract()) == p.value && input.rest == p.rest else r.Error?
  {
    hide ParseHead, ParseProbes, ViewOf, Consistent, Fits;
    var h :- ReadHead(input);
    r := ReadProbes(input, store, h);
  }

  lemma KeysOfView(s: Store)
    requires Consistent(s)
    ensures ViewOf(s).Keys == s.entries.Keys
  {
  }

  method Read(bytes: seq<Byte>) returns (r: Result<ExecutionDataStore>)
    ensures
      var p := ParseFile(bytes);
      if p.Parsed? then r.Ok? && fresh(r.value) && r.value.Valid() && ViewOf(r.value.Abstract()) == p.value else r.Error?
  {
    hide ParseRecord, ParseHeader, ViewOf, Consistent;
    var store := new ExecutionDataStore();
    assert ViewOf(store.Abstract()) == map[] by { NothingToView(); }
    var input := new DataInput(bytes);
    var classCount :- input.ReadHeader(MAGIC, VERSION);
    ghost var total: nat := if classCount < 0 then 0 else classCount;
    ghost var start := input.rest;
    var i := 0;
    while i < classCount
      invariant 0 <= i <= total
      invariant fresh(store) && fresh(input) && store.Valid() && forall h :: 0 <= h < |store.arrays| ==> fresh(store.arrays[h])
      invariant ParseRecords(ViewOf(store.Abstract()), total - i, input.rest) == ParseRecords(map[], total, start)
    {
      var _ :- ReadRecord(input, store);
      i := i + 1;
    }
    r := Ok(store);
  }

  lemma NothingToView()
    ensures ViewOf(EMPTY) == map[]
  {
  }
}
