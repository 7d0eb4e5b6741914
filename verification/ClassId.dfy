/**
 * Class identifiers: a CRC-64 over the bytes of the class name (runtime/ClassId.kt).
 *
 * A `Long` is its 64 bits and a byte its 8, least significant first.
 */
module ClassId {

  type Word = w: seq<bool> | |w| == 64 witness Zeros(64)
  type Octet = w: seq<bool> | |w| == 8 witness Zeros(8)

  function Zeros(n: nat): (z: seq<bool>)
    ensures |z| == n && forall i :: 0 <= i < n ==> !z[i]
  {
    seq(n, _ => false)
  }

  function Xor(a: seq<bool>, b: seq<bool>): (c: seq<bool>)
    requires |a| == |b|
    ensures |c| == |a| && forall i :: 0 <= i < |a| ==> c[i] == (a[i] != b[i])
  {
    seq(|a|, i requires 0 <= i < |a| => a[i] != b[i])
  }

  /** `w ushr n` */
  function Ushr(w: Word, n: nat): (s: Word)
    requires n <= 64
    ensures forall i :: 0 <= i < 64 ==> s[i] == (i + n < 64 && w[i + n])
  {
    w[n..] + Zeros(n)
  }

  function Nibble(d: int): (n: seq<bool>)
    ensures |n| == 4
  {
    [d % 2 == 1, d / 2 % 2 == 1, d / 4 % 2 == 1, d / 8 % 2 == 1]
  }

  /** The bits of four hexadecimal digits, the lowest first. */
  function Quarter(a: int, b: int, c: int, d: int): (q: seq<bool>)
    ensures |q| == 16
  {
    Nibble(a) + Nibble(b) + Nibble(c) + Nibble(d)
  }

  /** 0xC96C5795D7870F42, the polynomial of annex B of ECMA-182 with its bits reversed. */
  const POLY: Word :=
    Quarter(0x2, 0x4, 0xF, 0x0) + Quarter(0x7, 0x8, 0x7, 0xD) + Quarter(0x5, 0x9, 0x7, 0x5) + Quarter(0xC, 0x6, 0x9, 0xC)

  lemma PolyTop()
    ensures POLY[63]
  {
    assert POLY[63] == Quarter(0xC, 0x6, 0x9, 0xC)[15] by { PolyQuarters(15); }
  }

  lemma PolyQuarters(i: nat)
    requires i < 16
    ensures POLY[i] == Quarter(0x2, 0x4, 0xF, 0x0)[i] && POLY[16 + i] == Quarter(0x7, 0x8, 0x7, 0xD)[i]
    ensures POLY[32 + i] == Quarter(0x5, 0x9, 0x7, 0x5)[i] && POLY[48 + i] == Quarter(0xC, 0x6, 0x9, 0xC)[i]
  {
    hide Quarter;
  }

  function ToInt(bits: seq<bool>): (n: nat) {
    if bits == [] then 0 else (if bits[0] then 1 else 0) + 2 * ToInt(bits[1..])
  }

  function FromInt(n: nat, length: nat): (bits: seq<bool>)
    ensures |bits| == length
  {
    if length == 0 then [] else [n % 2 == 1] + FromInt(n / 2, length - 1)
  }

  lemma {:induction false} FromIntOfToInt(bits: seq<bool>, extra: nat)
    ensures FromInt(ToInt(bits), |bits| + extra) == bits + Zeros(extra)
  {
    if bits == [] {
      FromIntOfZero(extra);
    } else {
      FromIntOfToInt(bits[1..], extra);
      assert bits == [bits[0]] + bits[1..];
    }
  }

  lemma {:induction false} FromIntOfZero(length: nat)
    ensures FromInt(0, length) == Zeros(length)
  {
    if length > 0 {
      FromIntOfZero(length - 1);
    }
  }

  function Pow2(n: nat): nat {
    if n == 0 then 1 else 2 * Pow2(n - 1)
  }

  lemma {:induction false} ToIntBound(bits: seq<bool>)
    ensures ToInt(bits) < Pow2(|bits|)
  {
    if bits != [] {
      ToIntBound(bits[1..]);
    }
  }

  // ---- The bit-by-bit register ----

  function BitStep(w: Word): Word {
    if w[0] then Xor(Ushr(w, 1), POLY) else Ushr(w, 1)
  }

  function Steps(w: Word, n: nat): Word
    decreases n
  {
    if n == 0 then w else Steps(BitStep(w), n - 1)
  }

  /** Up to 64 bits as a word, the rest zero. */
  function Widen(bits: seq<bool>): (w: Word)
    requires |bits| <= 64
    ensures forall i :: 0 <= i < 64 ==> w[i] == (i < |bits| && bits[i])
  {
    bits + Zeros(64 - |bits|)
  }

  /** The register after taking in `bits` one by one. */
  function Feed(w: Word, bits: seq<bool>): Word {
    if bits == [] then w
    else BitStep(Xor(Feed(w, bits[..|bits| - 1]), Widen([bits[|bits| - 1]])))
  }

  /** All bits of a byte string, in the order in which the register takes them in. */
  function Flatten(bytes: seq<Octet>): (bits: seq<bool>)
    ensures |bits| == 8 * |bytes|
  {
    if bytes == [] then [] else Flatten(bytes[..|bytes| - 1]) + bytes[|bytes| - 1]
  }

  lemma BitStepXor(v: Word, w: Word)
    ensures BitStep(Xor(v, w)) == Xor(BitStep(v), BitStep(w))
  {
    hide Quarter;
    var l, r := BitStep(Xor(v, w)), Xor(BitStep(v), BitStep(w));
    forall i | 0 <= i < 64 ensures l[i] == r[i] {
    }
  }

  lemma {:induction false} StepsXor(v: Word, w: Word, n: nat)
    ensures Steps(Xor(v, w), n) == Xor(Steps(v, n), Steps(w, n))
    decreases n
  {
    hide BitStep;
    if n > 0 {
      BitStepXor(v, w);
      StepsXor(BitStep(v), BitStep(w), n - 1);
    }
  }

  lemma {:induction false} FeedConcat(w: Word, a: seq<bool>, b: seq<bool>)
    ensures Feed(w, a + b) == Feed(Feed(w, a), b)
    decreases |b|
  {
    hide BitStep;
    if b == [] {
      assert a + b == a;
    } else {
      var front := b[..|b| - 1];
      FeedConcat(w, a, front);
      assert (a + b)[..|a + b| - 1] == a + front;
    }
  }

  /** At most 64 bits may as well be added all at once. */
  /** The first bit can be taken in before the others. */
  lemma StepTakesBit(w: Word, bits: seq<bool>)
    requires 0 < |bits| <= 64
    ensures BitStep(Xor(w, Widen(bits))) == Xor(BitStep(Xor(w, Widen([bits[0]]))), Widen(bits[1..]))
  {
    hide BitStep;
    var rest, v := bits[1..], Xor(w, Widen([bits[0]]));
    assert Xor(w, Widen(bits)) == Xor(v, Widen([false] + rest));
    BitStepXor(v, Widen([false] + rest));
    ShiftIn(rest);
  }

  lemma {:induction false} FeedIsSteps(w: Word, bits: seq<bool>)
    requires |bits| <= 64
    ensures Feed(w, bits) == Steps(Xor(w, Widen(bits)), |bits|)
    decreases |bits|
  {
    hide BitStep;
    if bits == [] {
      assert Xor(w, Widen([])) == w;
    } else {
      hide Feed, Widen, Xor;
      var bit, rest := bits[0], bits[1..];
      assert bits == [bit] + rest;
      FeedConcat(w, [bit], rest);
      FeedOne(w, bit);
      StepTakesBit(w, bits);
      FeedIsSteps(BitStep(Xor(w, Widen([bit]))), rest);
    }
  }

  lemma FeedOne(w: Word, bit: bool)
    ensures Feed(w, [bit]) == BitStep(Xor(w, Widen([bit])))
  {
    hide BitStep;
    assert [bit][..0] == [];
  }

  lemma ShiftIn(rest: seq<bool>)
    requires |rest| < 64
    ensures BitStep(Widen([false] + rest)) == Widen(rest)
  {
  }

  // ---- The table-driven loop ----

  /** `b.toLong()` */
  function SignExtend(b: Octet): (w: Word) {
    b + seq(56, _ => b[7])
  }

  /** The identifier, stated bit by bit. */
  function Crc64(bytes: seq<Octet>): Word {
    Feed(Zeros(64), Flatten(bytes))
  }

  /** One turn of the table loop is eight turns of the register. */
  lemma TableTurn(crc: Word, b: Octet)
    ensures
      var index := ToInt(Xor(crc, SignExtend(b))[..8]);
      index < 256 && Feed(crc, b) == Xor(Steps(FromInt(index, 64), 8), Ushr(crc, 8))
  {
    hide BitStep, Steps, Feed, ToInt, FromInt;
    var low := Xor(crc, SignExtend(b))[..8];
    ToIntBound(low);
    assert Pow2(8) == 256;
    FromIntOfToInt(low, 56);
    FeedIsSteps(crc, b);
    var high := Zeros(8) + crc[8..];
    assert Xor(crc, Widen(b)) == Xor(low + Zeros(56), high);
    StepsXor(low + Zeros(56), high, 8);
    ShiftOut(crc[8..], 8);
    assert Zeros(8) + crc[8..] + Zeros(0) == high;
    assert crc[8..] + Zeros(8) == Ushr(crc, 8);
  }

  /** Zeros at the low end are shifted out without touching the rest. */
  lemma {:induction false} ShiftOut(high: seq<bool>, n: nat)
    requires |high| + n <= 64
    ensures Steps(Zeros(n) + high + Zeros(64 - n - |high|), n) == high + Zeros(64 - |high|)
  {
    var w: Word := Zeros(n) + high + Zeros(64 - n - |high|);
    if n == 0 {
      assert w == high + Zeros(64 - |high|);
    } else {
      var v: Word := Zeros(n - 1) + high + Zeros(64 - (n - 1) - |high|);
      assert Ushr(w, 1) == v;
      assert BitStep(w) == v by {
        hide POLY, Quarter, Xor, Ushr;
        assert !w[0];
      }
      hide BitStep;
      assert Steps(w, n) == Steps(v, n - 1);
      ShiftOut(high, n - 1);
    }
  }

  method BuildTable() returns (table: array<Word>)
    ensures fresh(table) && table.Length == 256
    ensures forall i :: 0 <= i < 256 ==> table[i] == Steps(FromInt(i, 64), 8)
  {
    hide BitStep, FromInt;
    table := new Word[256](_ => Zeros(64));
    for i := 0 to 256
      invariant forall k :: 0 <= k < i ==> table[k] == Steps(FromInt(k, 64), 8)
    {
      var value: Word := FromInt(i, 64);
      for n := 0 to 8
        invariant Steps(value, 8 - n) == Steps(FromInt(i, 64), 8)
      {
        value := BitStep(value);
      }
      table[i] := value;
    }
  }

  method ComputeCrc64(table: array<Word>, bytes: seq<Octet>) returns (crc: Word)
    requires table.Length == 256
    requires forall i :: 0 <= i < 256 ==> table[i] == Steps(FromInt(i, 64), 8)
    ensures crc == Crc64(bytes)
  {
    hide BitStep, Steps, Feed, ToInt, FromInt;
    crc := Zeros(64);
    assert Crc64(bytes[..0]) == crc by { FeedNothing(); }
    for i := 0 to |bytes|
      invariant crc == Crc64(bytes[..i])
    {
      var index := ToInt(Xor(crc, SignExtend(bytes[i]))[..8]);
      TableTurn(crc, bytes[i]);
      assert bytes[..i + 1][..i] == bytes[..i];
      FeedConcat(Zeros(64), Flatten(bytes[..i]), bytes[i]);
      crc := Xor(table[index], Ushr(crc, 8));
    }
    assert bytes[..|bytes|] == bytes;
  }

  lemma FeedNothing()
    ensures Crc64([]) == Zeros(64)
  {
  }

  // ---- Division ----

  /** The coefficient of x^e in the message: the first bit has the highest degree. */
  function MessageCoef(bits: seq<bool>, e: int): bool {
    0 <= e < |bits| && bits[|bits| - 1 - e]
  }

  /** The coefficient of x^e in the register, whose bits are reversed. */
  function RegisterCoef(w: Word, e: int): bool {
    0 <= e < 64 && w[63 - e]
  }

  /** A polynomial over GF(2), by the exponents of its terms. */
  type Polynomial = set<int>

  /** The polynomial of annex B of ECMA-182. */
  const ECMA_182: Polynomial :=
    {64, 62, 57, 55, 54, 53, 52, 47, 46, 45, 40, 39, 38, 37, 35, 33, 32, 31, 29, 27, 24, 23, 22, 21, 19, 17, 13, 12, 10, 9, 7, 4, 1, 0}

  lemma EcmaHighest(i: nat)
    requires i < 16
    ensures Quarter(0x2, 0x4, 0xF, 0x0)[i] <==> 63 - i in ECMA_182
  {
    hide POLY;
    assert Nibble(0x2) == [false, true, false, false];
    assert Nibble(0x4) == [false, false, true, false];
    assert Nibble(0xF) == [true, true, true, true];
    assert Nibble(0x0) == [false, false, false, false];
    hide Nibble;
    assert Quarter(0x2, 0x4, 0xF, 0x0)
      == [false, true, false, false, false, false, true, false, true, true, true, true, false, false, false, false];
  }

  lemma EcmaUpper(i: nat)
    requires i < 16
    ensures Quarter(0x7, 0x8, 0x7, 0xD)[i] <==> 47 - i in ECMA_182
  {
    hide POLY;
    assert Nibble(0x7) == [true, true, true, false];
    assert Nibble(0x8) == [false, false, false, true];
    assert Nibble(0xD) == [true, false, true, true];
    hide Nibble;
    assert Quarter(0x7, 0x8, 0x7, 0xD)
      == [true, true, true, false, false, false, false, true, true, true, true, false, true, false, true, true];
  }

  lemma EcmaLower(i: nat)
    requires i < 16
    ensures Quarter(0x5, 0x9, 0x7, 0x5)[i] <==> 31 - i in ECMA_182
  {
    hide POLY;
    assert Nibble(0x5) == [true, false, true, false];
    assert Nibble(0x9) == [true, false, false, true];
    assert Nibble(0x7) == [true, true, true, false];
    hide Nibble;
    assert Quarter(0x5, 0x9, 0x7, 0x5)
      == [true, false, true, false, true, false, false, true, true, true, true, false, true, false, true, false];
  }

  lemma EcmaLowest(i: nat)
    requires i < 16
    ensures Quarter(0xC, 0x6, 0x9, 0xC)[i] <==> 15 - i in ECMA_182
  {
    hide POLY;
    assert Nibble(0xC) == [false, false, true, true];
    assert Nibble(0x6) == [false, true, true, false];
    assert Nibble(0x9) == [true, false, false, true];
    hide Nibble;
    assert Quarter(0xC, 0x6, 0x9, 0xC)
      == [false, false, true, true, false, true, true, false, true, false, false, true, false, false, true, true];
  }

  /** The constant of the source is that polynomial, its highest term left out and its bits reversed. */
  lemma PolyIsEcma(e: int)
    requires 0 <= e < 64
    ensures POLY[63 - e] <==> e in ECMA_182
  {
    hide POLY, ECMA_182, Quarter;
    var i := 63 - e;
    PolyQuarters(i % 16);
    EcmaHighest(i % 16);
    EcmaUpper(i % 16);
    EcmaLower(i % 16);
    EcmaLowest(i % 16);
    assert i == i / 16 * 16 + i % 16 && 0 <= i / 16 < 4;
  }

  lemma EcmaLeads()
    ensures 64 in ECMA_182 && forall e :: e in ECMA_182 ==> 0 <= e <= 64
  {
  }

  /** The coefficient of x^e in quotient times divisor, by Horner's rule. */
  function ProductCoef(divisor: Polynomial, quotient: seq<bool>, e: int): bool {
    if quotient == [] then false
    else ProductCoef(divisor, quotient[..|quotient| - 1], e - 1) != (quotient[|quotient| - 1] && e in divisor)
  }

  /** message * x^64 = quotient * divisor + register, coefficient by coefficient over GF(2). */
  ghost predicate Divides(divisor: Polynomial, bits: seq<bool>, quotient: seq<bool>, w: Word) {
    |quotient| == |bits|
    && forall e: int :: MessageCoef(bits, e - 64) == (ProductCoef(divisor, quotient, e) != RegisterCoef(w, e))
  }

  /** One step of the register: multiplied by x, and less the divisor when its highest term comes out. */
  lemma RegisterStep(v: Word, e: int)
    ensures RegisterCoef(BitStep(v), e) == ((RegisterCoef(v, e - 1) && e < 64) != (0 <= e < 64 && v[0] && e in ECMA_182))
  {
    if 0 <= e < 64 {
      PolyIsEcma(e);
    }
    hide Quarter, ECMA_182, POLY;
  }

  lemma DivisionStep(bits: seq<bool>, quotient: seq<bool>, w: Word, bit: bool)
    requires Divides(ECMA_182, bits, quotient, w)
    ensures Divides(ECMA_182, bits + [bit], quotient + [w[0] != bit], BitStep(Xor(w, Widen([bit]))))
  {
    EcmaLeads();
    hide Quarter, ECMA_182, POLY, BitStep;
    var v, q := Xor(w, Widen([bit])), quotient + [w[0] != bit];
    assert q[..|quotient|] == quotient;
    forall e: int
      ensures MessageCoef(bits + [bit], e - 64) == (ProductCoef(ECMA_182, q, e) != RegisterCoef(BitStep(v), e))
    {
      assert MessageCoef(bits, e - 1 - 64) == (ProductCoef(ECMA_182, quotient, e - 1) != RegisterCoef(w, e - 1));
      RegisterStep(v, e);
    }
  }

  /** The register always holds the remainder of the message, followed by 64 zeros, divided by the polynomial. */
  lemma {:induction false} FeedDivides(bits: seq<bool>) returns (quotient: seq<bool>)
    ensures Divides(ECMA_182, bits, quotient, Feed(Zeros(64), bits))
  {
    hide BitStep;
    if bits == [] {
      quotient := [];
    } else {
      var front, bit := bits[..|bits| - 1], bits[|bits| - 1];
      var q := FeedDivides(front);
      var w := Feed(Zeros(64), front);
      DivisionStep(front, q, w, bit);
      assert bits == front + [bit];
      quotient := q + [w[0] != bit];
    }
  }

  lemma {:induction false} ProductXor(q: seq<bool>, r: seq<bool>, e: int)
    requires |q| == |r|
    ensures ProductCoef(ECMA_182, Xor(q, r), e) == (ProductCoef(ECMA_182, q, e) != ProductCoef(ECMA_182, r, e))
    decreases |q|
  {
    hide Quarter;
    if q != [] {
      var x, y := q[..|q| - 1], r[..|r| - 1];
      ProductXor(x, y, e - 1);
      assert Xor(q, r)[..|q| - 1] == Xor(x, y);
    }
  }

  lemma {:induction false} ProductOfZero(q: seq<bool>, e: int)
    requires forall k :: 0 <= k < |q| ==> !q[k]
    ensures !ProductCoef(ECMA_182, q, e)
    decreases |q|
  {
    if q != [] {
      ProductOfZero(q[..|q| - 1], e - 1);
    }
  }

  /** A quotient that is not zero makes the product's degree at least 64. */
  lemma {:induction false} ProductLeads(q: seq<bool>, j: nat)
    requires j < |q| && q[j] && forall k :: 0 <= k < j ==> !q[k]
    ensures ProductCoef(ECMA_182, q, 64 + |q| - 1 - j)
    decreases |q|
  {
    var front := q[..|q| - 1];
    if j < |front| {
      ProductLeads(front, j);
    } else {
      ProductOfZero(front, 63);
    }
  }

  /** There is only one remainder below degree 64. */
  lemma RemainderIsUnique(bits: seq<bool>, q: seq<bool>, w: Word, r: seq<bool>, v: Word)
    requires Divides(ECMA_182, bits, q, w) && Divides(ECMA_182, bits, r, v)
    ensures q == r && w == v
  {
    if q != r {
      var j := FirstDifference(q, r);
      var e := 64 + |q| - 1 - j;
      assert MessageCoef(bits, e - 64) == (ProductCoef(ECMA_182, q, e) != RegisterCoef(w, e));
      ProductXor(q, r, e);
      ProductLeads(Xor(q, r), j);
      assert false;
    }
    forall i | 0 <= i < 64 ensures w[i] == v[i] {
      assert MessageCoef(bits, 63 - i - 64) == (ProductCoef(ECMA_182, q, 63 - i) != RegisterCoef(w, 63 - i));
    }
  }

  lemma {:induction false} FirstDifference(q: seq<bool>, r: seq<bool>) returns (j: nat)
    requires |q| == |r| && q != r
    ensures j < |q| && q[j] != r[j] && q[..j] == r[..j]
  {
    if q[0] != r[0] {
      j := 0;
    } else {
      assert q == [q[0]] + q[1..] && r == [r[0]] + r[1..];
      var i := FirstDifference(q[1..], r[1..]);
      j := i + 1;
      assert q[..j] == [q[0]] + q[1..][..i] && r[..j] == [r[0]] + r[1..][..i];
    }
  }

  ghost predicate IsRemainder(divisor: Polynomial, bits: seq<bool>, w: Word) {
    exists quotient: seq<bool> :: Divides(divisor, bits, quotient, w)
  }

  lemma FeedIsRemainder(bits: seq<bool>, w: Word)
    ensures w == Feed(Zeros(64), bits) <==> IsRemainder(ECMA_182, bits, w)
  {
    hide Divides, Feed;
    var q := FeedDivides(bits);
    assert Divides(ECMA_182, bits, q, Feed(Zeros(64), bits));
    if IsRemainder(ECMA_182, bits, w) {
      var quotient: seq<bool> :| Divides(ECMA_182, bits, quotient, w);
      RemainderIsUnique(bits, quotient, w, q, Feed(Zeros(64), bits));
    }
  }

  /** The class id is the remainder of the name's bits by the polynomial of annex B of ECMA-182, and the only one. */
  lemma Crc64IsRemainder(bytes: seq<Octet>, w: Word)
    ensures w == Crc64(bytes) <==>
      IsRemainder({64, 62, 57, 55, 54, 53, 52, 47, 46, 45, 40, 39, 38, 37, 35, 33, 32, 31, 29, 27, 24, 23, 22, 21, 19, 17, 13, 12, 10, 9, 7, 4, 1, 0},
                  Flatten(bytes), w)
  {
    hide IsRemainder;
    FeedIsRemainder(Flatten(bytes), w);
  }

  lemma FlattenOne(b: Octet)
    ensures Flatten([b]) == b
  {
    assert [b][..0] == [];
  }

  lemma OneBitGivesPoly()
    ensures BitStep(Xor(Zeros(64), Widen([true]))) == POLY
  {
    hide POLY;
    var v := Xor(Zeros(64), Widen([true]));
    forall i | 0 <= i < 64 ensures BitStep(v)[i] == POLY[i] {
    }
  }

  /** The byte 0x80 alone, whose highest bit comes last, gives the constant of the source. */
  lemma IdOfHighestBit()
    ensures Crc64([[false, false, false, false, false, false, false, true]]) == POLY
  {
    hide POLY, Feed, BitStep, Xor, Widen, Flatten;
    var b: Octet := [false, false, false, false, false, false, false, true];
    FlattenOne(b);
    assert b == Zeros(7) + [true];
    FeedConcat(Zeros(64), Zeros(7), [true]);
    FeedZeros(Zeros(64), 7);
    StepsOfZero(7);
    FeedOne(Zeros(64), true);
    OneBitGivesPoly();
  }

  // ---- Collisions ----

  lemma {:induction false} FeedXor(v: Word, w: Word, a: seq<bool>, b: seq<bool>)
    requires |a| == |b|
    ensures Feed(Xor(v, w), Xor(a, b)) == Xor(Feed(v, a), Feed(w, b))
    decreases |a|
  {
    hide BitStep;
    if a != [] {
      var x, y := a[..|a| - 1], b[..|b| - 1];
      FeedXor(v, w, x, y);
      var p, q := a[|a| - 1], b[|b| - 1];
      assert Xor(a, b)[..|a| - 1] == Xor(x, y);
      BitStepXor(Xor(Feed(v, x), Widen([p])), Xor(Feed(w, y), Widen([q])));
      assert Xor(Xor(Feed(v, x), Feed(w, y)), Widen([p != q])) == Xor(Xor(Feed(v, x), Widen([p])), Xor(Feed(w, y), Widen([q])));
    }
  }

  lemma BitStepInjective(v: Word, w: Word)
    requires BitStep(v) == BitStep(w)
    ensures v == w
  {
    hide Quarter;
    PolyTop();
    assert BitStep(v)[63] == v[0] && BitStep(w)[63] == w[0];
    forall i | 0 <= i < 64 ensures v[i] == w[i] {
      if i > 0 {
        assert BitStep(v)[i - 1] == (v[i] != (v[0] && POLY[i - 1]));
        assert BitStep(w)[i - 1] == (w[i] != (w[0] && POLY[i - 1]));
      }
    }
  }

  lemma BitStepZero()
    ensures BitStep(Zeros(64)) == Zeros(64)
  {
  }

  lemma {:induction false} StepsNonZero(w: Word, n: nat)
    requires w != Zeros(64)
    ensures Steps(w, n) != Zeros(64)
    decreases n
  {
    hide BitStep;
    if n > 0 {
      BitStepZero();
      if BitStep(w) == Zeros(64) {
        BitStepInjective(w, Zeros(64));
      }
      StepsNonZero(BitStep(w), n - 1);
    }
  }

  lemma {:induction false} FeedZeros(w: Word, n: nat)
    ensures Feed(w, Zeros(n)) == Steps(w, n)
    decreases n
  {
    hide BitStep;
    if n > 0 {
      assert Zeros(n) == [false] + Zeros(n - 1);
      FeedConcat(w, [false], Zeros(n - 1));
      FeedOne(w, false);
      assert Xor(w, Widen([false])) == w;
      FeedZeros(BitStep(w), n - 1);
    }
  }

  lemma {:induction false} StepsOfZero(n: nat)
    ensures Steps(Zeros(64), n) == Zeros(64)
    decreases n
  {
    hide BitStep;
    if n > 0 {
      BitStepZero();
      StepsOfZero(n - 1);
    }
  }

  lemma XorIsZero(v: Word, w: Word)
    ensures Xor(v, w) == Zeros(64) <==> v == w
  {
    if Xor(v, w) == Zeros(64) {
      assert forall i :: 0 <= i < 64 ==> Xor(v, w)[i] == Zeros(64)[i];
    }
  }

  lemma BurstIsNotZero(i: nat, window: seq<bool>, rest: nat)
    requires |window| <= 64 && true in window
    ensures Feed(Zeros(64), Zeros(i) + window + Zeros(rest)) != Zeros(64)
  {
    hide BitStep, Feed;
    FeedConcat(Zeros(64), Zeros(i) + window, Zeros(rest));
    FeedConcat(Zeros(64), Zeros(i), window);
    FeedZeros(Zeros(64), i);
    StepsOfZero(i);
    FeedIsSteps(Zeros(64), window);
    assert Xor(Zeros(64), Widen(window)) == Widen(window);
    var k :| 0 <= k < |window| && window[k];
    assert Widen(window)[k];
    StepsNonZero(Widen(window), |window|);
    FeedZeros(Feed(Zeros(64), Zeros(i) + window), rest);
    StepsNonZero(Feed(Zeros(64), Zeros(i) + window), rest);
  }

  /** Bits that differ only inside a 64-bit window leave different registers. */
  lemma WindowChangesRegister(a: seq<bool>, b: seq<bool>, i: nat, n: nat)
    requires |a| == |b| && a != b && n <= 64 && i + n <= |a|
    requires forall k :: 0 <= k < |a| && !(i <= k < i + n) ==> a[k] == b[k]
    ensures Feed(Zeros(64), a) != Feed(Zeros(64), b)
  {
    hide BitStep, Feed;
    var d := Xor(a, b);
    var window, rest := d[i..i + n], |a| - i - n;
    var k :| 0 <= k < |a| && a[k] != b[k];
    assert window[k - i];
    assert d == Zeros(i) + window + Zeros(rest);
    BurstIsNotZero(i, window, rest);
    FeedXor(Zeros(64), Zeros(64), a, b);
    assert Xor(Zeros(64), Zeros(64)) == Zeros(64);
    XorIsZero(Feed(Zeros(64), a), Feed(Zeros(64), b));
  }

  lemma {:induction false} FlattenAt(bytes: seq<Octet>, k: nat)
    requires k < 8 * |bytes|
    ensures Flatten(bytes)[k] == bytes[k / 8][k % 8]
  {
    if k < 8 * (|bytes| - 1) {
      FlattenAt(bytes[..|bytes| - 1], k);
    } else {
      assert k / 8 == |bytes| - 1;
    }
  }

  /** Linearity: over equally long names, the id of the difference is the difference of the ids. */
  lemma Crc64IsLinear(a: seq<Octet>, b: seq<Octet>, d: seq<Octet>)
    requires |a| == |b| == |d| && forall k :: 0 <= k < |a| ==> d[k] == Xor(a[k], b[k])
    ensures Crc64(d) == Xor(Crc64(a), Crc64(b))
  {
    hide Feed;
    forall k | 0 <= k < 8 * |a| ensures Flatten(d)[k] == Xor(Flatten(a), Flatten(b))[k] {
      FlattenAt(a, k);
      FlattenAt(b, k);
      FlattenAt(d, k);
    }
    assert Flatten(d) == Xor(Flatten(a), Flatten(b));
    FeedXor(Zeros(64), Zeros(64), Flatten(a), Flatten(b));
    assert Xor(Zeros(64), Zeros(64)) == Zeros(64);
  }

  /** Two equally long names that differ, but only inside eight consecutive bytes, have different ids. */
  lemma NearbyNamesDiffer(a: seq<Octet>, b: seq<Octet>, i: nat)
    requires |a| == |b| && a != b
    requires forall k :: 0 <= k < |a| && !(i <= k < i + 8) ==> a[k] == b[k]
    ensures Crc64(a) != Crc64(b)
  {
    hide Feed, Flatten;
    var j :| 0 <= j < |a| && a[j] != b[j];
    assert i <= j < i + 8;
    var n := if i + 8 <= |a| then 64 else 8 * (|a| - i);
    var x, y := Flatten(a), Flatten(b);
    forall k | 0 <= k < |x| && !(8 * i <= k < 8 * i + n) ensures x[k] == y[k] {
      FlattenAt(a, k);
      FlattenAt(b, k);
    }
    var t :| 0 <= t < 8 && a[j][t] != b[j][t];
    FlattenAt(a, 8 * j + t);
    FlattenAt(b, 8 * j + t);
    WindowChangesRegister(x, y, 8 * i, n);
  }
}
