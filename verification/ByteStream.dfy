/**
 * `java.io.DataOutputStream` and `DataInputStream`: big-endian two's complement integers, and
 * strings in the modified UTF-8 of section 4.4.7 of the Java Virtual Machine Specification.
 */
module ByteStream {
  import opened Text
  import opened Wrappers

  type Byte = b: int | 0 <= b < 256

  // ---- Integers ----

  function Pow256(k: nat): (p: int)
    ensures p >= 1
  {
    if k == 0 then 1 else 256 * Pow256(k - 1)
  }

  /** The value fits a signed integer of `k` bytes. */
  predicate Fits(n: int, k: nat) {
    -Pow256(k) <= 2 * n < Pow256(k)
  }

  function EncodeNat(u: nat, k: nat): (bytes: seq<Byte>)
    ensures |bytes| == k
  {
    if k == 0 then [] else EncodeNat(u / 256, k - 1) + [u % 256]
  }

  function DecodeNat(bytes: seq<Byte>): (u: nat) {
    if bytes == [] then 0 else 256 * DecodeNat(bytes[..|bytes| - 1]) + bytes[|bytes| - 1]
  }

  /** A signed integer in `k` bytes. */
  function Encode(n: int, k: nat): (bytes: seq<Byte>)
    requires Fits(n, k)
    ensures |bytes| == k
  {
    EncodeNat(if n < 0 then n + Pow256(k) else n, k)
  }

  function Decode(bytes: seq<Byte>): int {
    var u, p := DecodeNat(bytes), Pow256(|bytes|);
    if 2 * u < p then u else u - p
  }

  lemma {:induction false} NatRoundTrip(u: nat, k: nat)
    requires u < Pow256(k)
    ensures DecodeNat(EncodeNat(u, k)) == u
  {
    if k > 0 {
      NatRoundTrip(u / 256, k - 1);
      var e := EncodeNat(u, k);
      assert e[..k - 1] == EncodeNat(u / 256, k - 1);
    }
  }

  lemma IntegerRoundTrip(n: int, k: nat)
    requires Fits(n, k)
    ensures Decode(Encode(n, k)) == n
  {
    NatRoundTrip(if n < 0 then n + Pow256(k) else n, k);
  }

  // ---- Strings ----

  function EncodeUnit(c: CodeUnit): (bytes: seq<Byte>)
    ensures 1 <= |bytes| <= 3
  {
    if 1 <= c <= 0x7F then [c]
    else if c <= 0x7FF then [0xC0 + c / 64, 0x80 + c % 64]
    else [0xE0 + c / 4096, 0x80 + c / 64 % 64, 0x80 + c % 64]
  }

  function EncodeText(t: Text): seq<Byte> {
    if t == [] then [] else EncodeUnit(t[0]) + EncodeText(t[1..])
  }

  predicate IsContinuation(b: Byte) {
    0x80 <= b < 0xC0
  }

  function Payload(b: Byte): (p: int)
    requires IsContinuation(b)
    ensures 0 <= p < 64
  {
    b as int - 0x80
  }

  datatype Decoded = Text(text: Text) | Malformed

  function Prepend(c: CodeUnit, rest: Decoded): Decoded {
    if rest.Text? then Text([c] + rest.text) else Malformed
  }

  /** `DataInputStream.readUTF` after the length: by the high four bits of the leading byte. */
  function DecodeText(bytes: seq<Byte>): Decoded {
    if bytes == [] then Text([])
    else
      var b: int := bytes[0];
      if b < 0x80 then Prepend(b, DecodeText(bytes[1..]))
      else if 0xC0 <= b < 0xE0 then
        if |bytes| >= 2 && IsContinuation(bytes[1]) then
          Prepend((b - 0xC0) * 64 + Payload(bytes[1]), DecodeText(bytes[2..]))
        else Malformed
      else if 0xE0 <= b < 0xF0 then
        if |bytes| >= 3 && IsContinuation(bytes[1]) && IsContinuation(bytes[2]) then
          Prepend((b - 0xE0) * 4096 + Payload(bytes[1]) * 64 + Payload(bytes[2]), DecodeText(bytes[3..]))
        else Malformed
      else Malformed
  }

  lemma {:induction false} TextRoundTrip(t: Text)
    ensures DecodeText(EncodeText(t)) == Text(t)
  {
    if t != [] {
      TextRoundTrip(t[1..]);
      UnitRoundTrip(t[0], EncodeText(t[1..]));
      assert [t[0]] + t[1..] == t;
    }
  }

  lemma UnitRoundTrip(c: CodeUnit, rest: seq<Byte>)
    ensures DecodeText(EncodeUnit(c) + rest) == Prepend(c, DecodeText(rest))
  {
    var bytes := EncodeUnit(c) + rest;
    assert bytes[|EncodeUnit(c)|..] == rest;
  }

  // ---- Parsing ----

  /** A value and the input after it, or the exception the stream throws. */
  datatype Parsed<+T> = Parsed(value: T, rest: seq<Byte>) | Failed {
    predicate IsFailure() { Failed? }
    function PropagateFailure<U>(): Parsed<U> requires Failed? { Failed }
    function Extract(): (T, seq<Byte>) requires Parsed? { (value, rest) }
  }

  function ParseBytes(input: seq<Byte>, k: nat): (p: Parsed<seq<Byte>>) {
    if k <= |input| then Parsed(input[..k], input[k..]) else Failed
  }

  function ParseInteger(input: seq<Byte>, k: nat): (p: Parsed<int>) {
    var (bytes, rest) :- ParseBytes(input, k);
    Parsed(Decode(bytes), rest)
  }

  function ParseUTF(input: seq<Byte>): (p: Parsed<Text>) {
    var (size, rest) :- ParseBytes(input, 2);
    var (bytes, after) :- ParseBytes(rest, DecodeNat(size));
    var t := DecodeText(bytes);
    if t.Text? then Parsed(t.text, after) else Failed
  }

  /** `writeUTF` throws for a string of more than 65535 encoded bytes. */
  predicate Writable(t: Text) {
    |EncodeText(t)| <= 0xFFFF
  }

  function EncodeUTF(t: Text): seq<Byte>
    requires Writable(t)
  {
    EncodeNat(|EncodeText(t)|, 2) + EncodeText(t)
  }

  lemma BytesParse(bytes: seq<Byte>, rest: seq<Byte>)
    ensures ParseBytes(bytes + rest, |bytes|) == Parsed(bytes, rest)
  {
  }

  lemma {:induction false} DecodeNatIsSmall(bytes: seq<Byte>)
    ensures DecodeNat(bytes) < Pow256(|bytes|)
  {
    if bytes != [] {
      DecodeNatIsSmall(bytes[..|bytes| - 1]);
    }
  }

  /** What is read from `k` bytes is an integer of `k` bytes. */
  lemma ParsedFits(input: seq<Byte>, k: nat)
    ensures ParseInteger(input, k).Parsed? ==> Fits(ParseInteger(input, k).value, k)
  {
    hide DecodeNat, Pow256;
    if ParseInteger(input, k).Parsed? {
      DecodeNatIsSmall(input[..k]);
    }
  }

  lemma IntegerParses(n: int, k: nat, rest: seq<Byte>)
    requires Fits(n, k)
    ensures ParseInteger(Encode(n, k) + rest, k) == Parsed(n, rest)
  {
    BytesParse(Encode(n, k), rest);
    IntegerRoundTrip(n, k);
  }

  lemma UTFParses(t: Text, rest: seq<Byte>)
    requires Writable(t)
    ensures ParseUTF(EncodeUTF(t) + rest) == Parsed(t, rest)
  {
    var size, body := EncodeNat(|EncodeText(t)|, 2), EncodeText(t);
    assert EncodeUTF(t) + rest == size + (body + rest);
    BytesParse(size, body + rest);
    assert Pow256(2) == 0x1_0000;
    NatRoundTrip(|body|, 2);
    BytesParse(body, rest);
    TextRoundTrip(t);
  }

  /** Both file formats start with eight bytes, a version and a count. */
  function HeaderBytes(magic: seq<Byte>, version: int, count: int): seq<Byte>
    requires Fits(version, 2) && Fits(count, 4)
  {
    magic + Encode(version, 2) + Encode(count, 4)
  }

  function ParseHeader(magic: seq<Byte>, version: int, input: seq<Byte>): Parsed<int> {
    var (head, input1) :- ParseBytes(input, 8);
    if head != magic then Failed
    else
      var (v, input2) :- ParseInteger(input1, 2);
      if v != version then Failed else ParseInteger(input2, 4)
  }

  lemma HeaderParses(magic: seq<Byte>, version: int, count: int, rest: seq<Byte>)
    requires |magic| == 8 && Fits(version, 2) && Fits(count, 4)
    ensures ParseHeader(magic, version, HeaderBytes(magic, version, count) + rest) == Parsed(count, rest)
  {
    hide ParseInteger, Encode, Fits;
    assert HeaderBytes(magic, version, count) + rest == magic + (Encode(version, 2) + (Encode(count, 4) + rest));
    BytesParse(magic, Encode(version, 2) + (Encode(count, 4) + rest));
    IntegerParses(version, 2, Encode(count, 4) + rest);
    IntegerParses(count, 4, rest);
  }

  // ---- The streams ----

  class DataOutput {
    var bytes: seq<Byte>

    constructor ()
      ensures bytes == []
    {
      bytes := [];
    }

    method WriteBytes(b: seq<Byte>)
      modifies this
      ensures bytes == old(bytes) + b
    {
      bytes := bytes + b;
    }

    method WriteInteger(n: int, k: nat)
      requires Fits(n, k)
      modifies this
      ensures bytes == old(bytes) + Encode(n, k)
    {
      bytes := bytes + Encode(n, k);
    }

    method WriteHeader(magic: seq<Byte>, version: int, count: int)
      requires Fits(version, 2) && Fits(count, 4)
      modifies this
      ensures bytes == old(bytes) + HeaderBytes(magic, version, count)
    {
      WriteBytes(magic);
      WriteInteger(version, 2);
      WriteInteger(count, 4);
    }

    /** Nothing is written when the string is too long. */
    method WriteUTF(t: Text) returns (ok: bool)
      modifies this
      ensures ok == Writable(t)
      ensures bytes == if Writable(t) then old(bytes) + EncodeUTF(t) else old(bytes)
    {
      var encoded := EncodeText(t);
      ok := |encoded| <= 0xFFFF;
      if ok {
        bytes := bytes + EncodeNat(|encoded|, 2) + encoded;
        assert bytes == old(bytes) + EncodeUTF(t);
      }
    }
  }

  /** The outcome `r` of a read that leaves `rest` is the one `p` describes. */
  predicate Reads<T(==)>(p: Parsed<T>, r: Result<T>, rest: seq<Byte>) {
    match p
    case Parsed(value, after) => r == Ok(value) && rest == after
    case Failed => r == Error
  }

  class DataInput {
    var rest: seq<Byte>

    constructor (bytes: seq<Byte>)
      ensures rest == bytes
    {
      rest := bytes;
    }

    method ReadFully(k: nat) returns (r: Result<seq<Byte>>)
      modifies this
      ensures Reads(ParseBytes(old(rest), k), r, rest)
    {
      if k > |rest| { return Error; }
      r := Ok(rest[..k]);
      rest := rest[k..];
    }

    method ReadInteger(k: nat) returns (r: Result<int>)
      modifies this
      ensures Reads(ParseInteger(old(rest), k), r, rest)
    {
      var bytes :- ReadFully(k);
      r := Ok(Decode(bytes));
    }

    method ReadUTF() returns (r: Result<Text>)
      modifies this
      ensures Reads(ParseUTF(old(rest)), r, rest)
    {
      var size :- ReadFully(2);
      var bytes :- ReadFully(DecodeNat(size));
      var t := DecodeText(bytes);
      r := if t.Text? then Ok(t.text) else Error;
    }

    method ReadHeader(magic: seq<Byte>, version: int) returns (r: Result<int>)
      modifies this
      ensures Reads(ParseHeader(magic, version, old(rest)), r, rest)
    {
      var head :- ReadFully(8);
      if head != magic { return Error; }
      var v :- ReadInteger(2);
      if v != version { return Error; }
      r := ReadInteger(4);
    }
  }
}
