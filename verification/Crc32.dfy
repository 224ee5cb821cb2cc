/** CRC-32: the table-driven loop of the broker, against the bit-serial definition of section 8 of RFC 1952. */
module Crc32 {
  import opened Bytes

  const POLYNOMIAL: bv32 := 0xEDB88320
  const INITIAL: bv32 := 0xFFFF_FFFF

  function Xor(a: bv32, b: bv32): bv32 {
    a ^ b
  }

  /** One shift of the reflected register. */
  function Shift(c: bv32): bv32 {
    if c & 1 == 1 then (c >> 1) ^ POLYNOMIAL else c >> 1
  }

  function Shifts(c: bv32, n: nat): bv32
    decreases n
  {
    if n == 0 then c else Shifts(Shift(c), n - 1)
  }

  function Twice(v: bv32, odd: bool): bv32 {
    (v << 1) | (if odd then 1 else 0)
  }

  /** The `n` low bits of a number, as a register value. */
  function ToBits(b: nat, n: nat): bv32
    decreases n
  {
    if n == 0 then 0 else Twice(ToBits(b / 2, n - 1), b % 2 == 1)
  }

  /** The byte as it enters the register. */
  function Word(b: byte): bv32 {
    ToBits(b, 8)
  }

  function LowBit(v: bv32): bv32 {
    v & 1
  }

  function Half(v: bv32): bv32 {
    v >> 1
  }

  /** Feeds the `n` low bits of `v` into the register, one at a time, lowest first. */
  function FeedBits(c: bv32, v: bv32, n: nat): bv32
    decreases n
  {
    if n == 0 then c else FeedBits(Shift(Xor(c, LowBit(v))), Half(v), n - 1)
  }

  function FeedByte(c: bv32, b: byte): bv32 {
    FeedBits(c, Word(b), 8)
  }

  /** The bit-serial reference: every byte contributes its eight bits, lowest first. */
  function Feed(c: bv32, data: bytes): bv32
    decreases |data|
  {
    if data == [] then c else Feed(FeedByte(c, data[0]), data[1..])
  }

  function Finalize(c: bv32): uint32 {
    (c ^ 0xFFFF_FFFF) as int
  }

  /** The checksum of a byte string. */
  function Checksum(data: bytes): uint32 {
    Finalize(Feed(INITIAL, data))
  }

  // ---- The register is linear -------------------------------------------------------------

  function Feedback(odd: bool): bv32 {
    if odd then POLYNOMIAL else 0
  }

  lemma ShiftAsXor(c: bv32)
    ensures Shift(c) == (c >> 1) ^ Feedback(c & 1 == 1)
  {
  }

  lemma XorParts(x: bv32, y: bv32)
    ensures (x ^ y) >> 1 == (x >> 1) ^ (y >> 1)
    ensures ((x ^ y) & 1 == 1) == ((x & 1 == 1) != (y & 1 == 1))
  {
  }

  lemma FeedbackXor(a: bool, b: bool)
    ensures Feedback(a != b) == Feedback(a) ^ Feedback(b)
  {
  }

  lemma XorSwap(a: bv32, b: bv32, p: bv32, q: bv32)
    ensures (a ^ b) ^ (p ^ q) == (a ^ p) ^ (b ^ q)
  {
  }

  lemma ShiftLinearBits(x: bv32, y: bv32)
    ensures Shift(x ^ y) == Shift(x) ^ Shift(y)
  {
    var a, b := x & 1 == 1, y & 1 == 1;
    calc {
      Shift(x ^ y);
      { ShiftAsXor(x ^ y); XorParts(x, y); }
      ((x >> 1) ^ (y >> 1)) ^ Feedback(a != b);
      { FeedbackXor(a, b); }
      ((x >> 1) ^ (y >> 1)) ^ (Feedback(a) ^ Feedback(b));
      { XorSwap(x >> 1, y >> 1, Feedback(a), Feedback(b)); }
      ((x >> 1) ^ Feedback(a)) ^ ((y >> 1) ^ Feedback(b));
      { ShiftAsXor(x); ShiftAsXor(y); }
      Shift(x) ^ Shift(y);
    }
  }

  lemma ShiftLinear(x: bv32, y: bv32)
    ensures Shift(Xor(x, y)) == Xor(Shift(x), Shift(y))
  {
    ShiftLinearBits(x, y);
  }

  lemma {:induction false} ShiftsLinear(x: bv32, y: bv32, n: nat)
    ensures Shifts(Xor(x, y), n) == Xor(Shifts(x, n), Shifts(y, n))
    decreases n
  {
    if n > 0 {
      ShiftLinear(x, y);
      ShiftsLinear(Shift(x), Shift(y), n - 1);
    }
  }

  // ---- The table step equals eight serial bits ---------------------------------------------

  function DropBits(v: bv32, n: nat): bv32
    decreases n
  {
    if n == 0 then v else DropBits(Half(v), n - 1)
  }

  function HighBits(v: bv32): bv32 {
    v & 0xFFFF_FFFE
  }

  lemma LowBitApart(c: bv32, v: bv32)
    ensures c ^ v == (c ^ (v & 1)) ^ (v & 0xFFFF_FFFE)
  {
  }

  lemma HighBitsMove(v: bv32)
    ensures Shift(HighBits(v)) == Half(v)
  {
  }

  lemma SplitLowBit(c: bv32, v: bv32)
    ensures Xor(c, v) == Xor(Xor(c, LowBit(v)), HighBits(v))
  {
    LowBitApart(c, v);
  }

  lemma ShiftAbsorbs(c: bv32, v: bv32)
    ensures Shift(Xor(c, v)) == Xor(Shift(Xor(c, LowBit(v))), Half(v))
  {
    SplitLowBit(c, v);
    HighBitsMove(v);
    ShiftLinear(Xor(c, LowBit(v)), HighBits(v));
  }

  /** Xoring all bits in at once and then shifting is the same as feeding them one by one. */
  lemma {:induction false} FeedBitsIsShifts(c: bv32, v: bv32, n: nat)
    ensures Shifts(Xor(c, v), n) == Xor(FeedBits(c, v, n), DropBits(v, n))
    decreases n
  {
    if n > 0 {
      ShiftAbsorbs(c, v);
      FeedBitsIsShifts(Shift(Xor(c, LowBit(v))), Half(v), n - 1);
    }
  }

  /** The largest value of `n` bits. */
  function Ones(n: nat): bv32
    requires n <= 8
  {
    if n == 0 then 0 else if n == 1 then 1 else if n == 2 then 3 else if n == 3 then 7 else if n == 4 then 0xF
    else if n == 5 then 0x1F else if n == 6 then 0x3F else if n == 7 then 0x7F else 0xFF
  }

  predicate Fits(v: bv32, n: nat)
    requires n <= 8
  {
    v <= Ones(n)
  }

  lemma TwiceFits(v: bv32, odd: bool, n: nat)
    requires n < 8 && Fits(v, n)
    ensures Fits(Twice(v, odd), n + 1)
  {
  }

  lemma {:induction false} ToBitsFits(b: nat, n: nat)
    requires n <= 8
    ensures Fits(ToBits(b, n), n)
    decreases n
  {
    if n > 0 {
      ToBitsFits(b / 2, n - 1);
      TwiceFits(ToBits(b / 2, n - 1), b % 2 == 1, n - 1);
    }
  }

  lemma HalfOfTwice(v: bv32, odd: bool)
    requires Fits(v, 8)
    ensures Half(Twice(v, odd)) == v && (LowBit(Twice(v, odd)) == 1 <==> odd)
  {
  }

  lemma TwiceOfHalf(v: bv32)
    ensures Twice(Half(v), LowBit(v) == 1) == v
  {
  }

  lemma HalfFits(v: bv32, n: nat)
    requires 0 < n <= 8 && Fits(v, n)
    ensures Fits(Half(v), n - 1)
  {
  }

  lemma {:induction false} FitsDrops(v: bv32, n: nat)
    requires n <= 8 && Fits(v, n)
    ensures DropBits(v, n) == 0
    decreases n
  {
    if n > 0 {
      HalfFits(v, n);
      FitsDrops(Half(v), n - 1);
    }
  }

  lemma FitsMore(v: bv32, n: nat)
    requires n <= 8 && Fits(v, n)
    ensures Fits(v, 8)
  {
  }

  function FromBits(v: bv32, n: nat): nat
    decreases n
  {
    if n == 0 then 0 else 2 * FromBits(Half(v), n - 1) + if LowBit(v) == 1 then 1 else 0
  }

  function Pow2(n: nat): nat {
    if n == 0 then 1 else 2 * Pow2(n - 1)
  }

  lemma {:induction false} FromToBits(b: nat, n: nat)
    requires n <= 8 && b < Pow2(n)
    ensures FromBits(ToBits(b, n), n) == b
    decreases n
  {
    if n > 0 {
      var v := ToBits(b / 2, n - 1);
      ToBitsFits(b / 2, n - 1);
      FitsMore(v, n - 1);
      HalfOfTwice(v, b % 2 == 1);
      FromToBits(b / 2, n - 1);
    }
  }

  lemma FitsNothing(v: bv32)
    requires Fits(v, 0)
    ensures v == 0
  {
  }

  lemma {:induction false} FromBitsBound(v: bv32, n: nat)
    ensures FromBits(v, n) < Pow2(n)
    decreases n
  {
    hide Half, LowBit;
    if n > 0 {
      FromBitsBound(Half(v), n - 1);
    }
  }

  lemma ToBitsStep(v: bv32, n: nat)
    requires n > 0
    ensures ToBits(FromBits(v, n), n) == Twice(ToBits(FromBits(Half(v), n - 1), n - 1), LowBit(v) == 1)
  {
    hide Half, Twice, LowBit;
    Halves(FromBits(Half(v), n - 1), LowBit(v) == 1);
  }

  lemma {:induction false} ToFromBits(v: bv32, n: nat)
    requires n <= 8 && Fits(v, n)
    ensures ToBits(FromBits(v, n), n) == v
    decreases n
  {
    hide Half, Twice, LowBit, Fits;
    if n == 0 {
      FitsNothing(v);
    } else {
      HalfFits(v, n);
      ToFromBits(Half(v), n - 1);
      ToBitsStep(v, n);
      TwiceOfHalf(v);
    }
  }

  lemma Halves(f: nat, odd: bool)
    ensures var b := 2 * f + (if odd then 1 else 0); b / 2 == f && (b % 2 == 1 <==> odd)
  {
  }

  lemma EightBits()
    ensures Pow2(8) == 256
  {
    assert Pow2(8) == 16 * Pow2(4);
  }

  lemma WordFits(b: byte)
    ensures Fits(Word(b), 8) && DropBits(Word(b), 8) == 0
  {
    ToBitsFits(b, 8);
    FitsDrops(Word(b), 8);
  }

  lemma XorZero(x: bv32)
    ensures Xor(x, 0) == x
  {
  }

  lemma FeedByteIsShifts(c: bv32, b: byte)
    ensures FeedByte(c, b) == Shifts(Xor(c, Word(b)), 8)
  {
    FeedBitsIsShifts(c, Word(b), 8);
    WordFits(b);
    XorZero(FeedByte(c, b));
  }

  function LowByte(x: bv32): bv32 {
    x & 0xFF
  }

  function HighBytes(x: bv32): bv32 {
    x & 0xFFFF_FF00
  }

  function ShiftOut(x: bv32): bv32 {
    x >> 8
  }

  lemma ShiftsUnroll(x: bv32)
    ensures Shifts(x, 8) == Shift(Shift(Shift(Shift(Shift(Shift(Shift(Shift(x))))))))
  {
    assert Shifts(x, 8) == Shifts(Shift(Shift(Shift(Shift(x)))), 4);
  }

  lemma HighBytesOnlyMove(x: bv32)
    requires x & 0xFF == 0
    ensures Shift(Shift(Shift(Shift(Shift(Shift(Shift(Shift(x)))))))) == x >> 8
  {
  }

  lemma SplitLowByte(x: bv32)
    ensures x == Xor(HighBytes(x), LowByte(x))
    ensures HighBytes(x) & 0xFF == 0 && HighBytes(x) >> 8 == ShiftOut(x)
  {
  }

  lemma HighBytesShifted(x: bv32)
    ensures Shifts(HighBytes(x), 8) == ShiftOut(x)
  {
    SplitLowByte(x);
    ShiftsUnroll(HighBytes(x));
    HighBytesOnlyMove(HighBytes(x));
  }

  lemma TableStep(x: bv32)
    ensures Shifts(x, 8) == Xor(ShiftOut(x), Shifts(LowByte(x), 8))
  {
    SplitLowByte(x);
    ShiftsLinear(HighBytes(x), LowByte(x), 8);
    HighBytesShifted(x);
  }

  lemma ByteKeepsHighBytes(c: bv32, w: bv32)
    requires Fits(w, 8)
    ensures ShiftOut(Xor(c, w)) == ShiftOut(c)
  {
  }

  /** The register after one byte, as the table-driven loop computes it. */
  lemma TableStepFeedsByte(c: bv32, b: byte)
    ensures FeedByte(c, b) == Xor(ShiftOut(c), Shifts(LowByte(Xor(c, Word(b))), 8))
  {
    FeedByteIsShifts(c, b);
    TableStep(Xor(c, Word(b)));
    WordFits(b);
    ByteKeepsHighBytes(c, Word(b));
  }

  // ---- The loops of the source -------------------------------------------------------------

  lemma {:induction false} ShiftsSnoc(c: bv32, n: nat)
    ensures Shifts(c, n + 1) == Shift(Shifts(c, n))
    decreases n
  {
    if n > 0 {
      ShiftsSnoc(Shift(c), n - 1);
    }
  }

  /** The inner loop of the table: eight conditional shifts. */
  method TableEntry(i: bv32) returns (crc: bv32)
    ensures crc == Shifts(i, 8)
  {
    crc := i;
    for j := 0 to 8
      invariant crc == Shifts(i, j)
    {
      ShiftsSnoc(i, j);
      if crc & 1 == 1 {
        crc := (crc >> 1) ^ 0xEDB88320;
      } else {
        crc := crc >> 1;
      }
    }
  }

  /** The table: entry `i` is `i` shifted eight times. */
  method BuildTable() returns (table: array<bv32>)
    ensures fresh(table) && table.Length == 256
    ensures forall i: nat :: i < 256 ==> table[i] == Shifts(Word(i), 8)
  {
    table := new bv32[256];
    for i := 0 to 256
      invariant forall k: nat :: k < i ==> table[k] == Shifts(Word(k), 8)
    {
      table[i] := TableEntry(Word(i));
    }
  }

  lemma {:induction false} FeedConcat(c: bv32, a: bytes, b: bytes)
    ensures Feed(c, a + b) == Feed(Feed(c, a), b)
    decreases |a|
  {
    if a == [] {
      assert a + b == b;
    } else {
      assert (a + b)[1..] == a[1..] + b;
      FeedConcat(FeedByte(c, a[0]), a[1..], b);
    }
  }

  lemma FeedSnoc(c: bv32, data: bytes, i: nat)
    requires i < |data|
    ensures Feed(c, data[..i + 1]) == FeedByte(Feed(c, data[..i]), data[i])
  {
    assert data[..i + 1] == data[..i] + [data[i]];
    FeedConcat(c, data[..i], [data[i]]);
    var c' := Feed(c, data[..i]);
    assert Feed(c', [data[i]]) == Feed(FeedByte(c', data[i]), []);
  }

  lemma LowByteFits(x: bv32)
    ensures Fits(LowByte(x), 8)
  {
  }

  /** `static_cast<uint8_t>(x & 0xFF)`, as an index. */
  function TableIndex(x: bv32): (i: byte)
    ensures Word(i) == LowByte(x)
  {
    LowByteFits(x);
    ToFromBits(LowByte(x), 8);
    FromBitsBound(LowByte(x), 8);
    EightBits();
    FromBits(LowByte(x), 8)
  }

  /** `Crc32::update`: the table-driven register equals the bit-serial one. */
  method Update(raw: bv32, data: bytes) returns (crc: bv32)
    ensures crc == Feed(raw, data)
  {
    var table := BuildTable();
    crc := raw;
    for i := 0 to |data|
      modifies {}
      invariant crc == Feed(raw, data[..i])
    {
      FeedSnoc(raw, data, i);
      TableStepFeedsByte(crc, data[i]);
      var index := TableIndex(Xor(crc, Word(data[i])));
      crc := Xor(ShiftOut(crc), table[index]);
    }
    assert data[..|data|] == data;
  }

  /** `Crc32::calculate`. */
  method Calculate(data: bytes) returns (sum: uint32)
    ensures sum == Checksum(data)
  {
    var raw := Update(INITIAL, data);
    sum := Finalize(raw);
  }

  // ---- What the checksum detects -----------------------------------------------------------

  lemma ShiftInjective(x: bv32, y: bv32)
    requires Shift(x) == Shift(y)
    ensures x == y
  {
  }

  lemma {:induction false} ShiftsInjective(x: bv32, y: bv32, n: nat)
    requires Shifts(x, n) == Shifts(y, n)
    ensures x == y
    decreases n
  {
    if n > 0 {
      ShiftsInjective(Shift(x), Shift(y), n - 1);
      ShiftInjective(x, y);
    }
  }

  lemma XorInjective(x: bv32, y: bv32, k: bv32)
    requires Xor(x, k) == Xor(y, k)
    ensures x == y
  {
  }

  /** Two different registers never meet again on the same input. */
  lemma {:induction false} FeedInjective(x: bv32, y: bv32, data: bytes)
    requires Feed(x, data) == Feed(y, data)
    ensures x == y
    decreases |data|
  {
    if data != [] {
      var b := data[0];
      FeedInjective(FeedByte(x, b), FeedByte(y, b), data[1..]);
      FeedByteIsShifts(x, b);
      FeedByteIsShifts(y, b);
      ShiftsInjective(Xor(x, Word(b)), Xor(y, Word(b)), 8);
      XorInjective(x, y, Word(b));
    }
  }

  lemma AsIntInjective(x: bv32, y: bv32)
    requires x as int == y as int
    ensures x == y
  {
    assert (x as int) as bv32 == x;
  }

  lemma FinalizeInjective(x: bv32, y: bv32)
    requires Finalize(x) == Finalize(y)
    ensures x == y
  {
    AsIntInjective(x ^ 0xFFFF_FFFF, y ^ 0xFFFF_FFFF);
  }

  function Raise(v: bv32): bv32 {
    v << 8
  }

  /** Up to four bytes as one register value, first byte lowest. */
  function Pack(data: bytes): bv32
    decreases |data|
  {
    if data == [] then 0 else Xor(Word(data[0]), Raise(Pack(data[1..])))
  }

  function ShiftBytes(c: bv32, n: nat): bv32
    decreases n
  {
    if n == 0 then c else ShiftBytes(Shifts(c, 8), n - 1)
  }

  /** `v` has at most `8 * n` significant bits. */
  predicate Narrow(v: bv32, n: nat)
    requires n <= 3
  {
    if n == 0 then v == 0 else if n == 1 then v <= 0xFF else if n == 2 then v <= 0xFFFF else v <= 0xFF_FFFF
  }

  lemma WordNarrow(b: byte)
    ensures Narrow(Word(b), 1)
  {
    WordFits(b);
  }

  lemma PackStep(w: bv32, v: bv32, n: nat)
    requires n < 3 && Narrow(w, 1) && Narrow(v, n)
    ensures Narrow(Xor(w, Raise(v)), n + 1)
  {
  }

  lemma {:induction false} PackFits(data: bytes)
    requires |data| <= 3
    ensures Narrow(Pack(data), |data|) && Narrow(Pack(data), 3)
    decreases |data|
  {
    if data != [] {
      PackFits(data[1..]);
      WordNarrow(data[0]);
      PackStep(Word(data[0]), Pack(data[1..]), |data| - 1);
    }
  }

  lemma RaiseLow(v: bv32)
    requires Narrow(v, 3)
    ensures HighBytes(Raise(v)) == Raise(v) && ShiftOut(Raise(v)) == v
  {
  }

  lemma RaisedShifted(v: bv32)
    requires Narrow(v, 3)
    ensures Shifts(Raise(v), 8) == v
  {
    RaiseLow(v);
    HighBytesShifted(Raise(v));
  }

  lemma XorAssocBits(a: bv32, b: bv32, c: bv32)
    ensures (a ^ b) ^ c == a ^ (b ^ c)
  {
  }

  lemma XorAssoc(a: bv32, b: bv32, c: bv32)
    ensures Xor(Xor(a, b), c) == Xor(a, Xor(b, c))
  {
    XorAssocBits(a, b, c);
  }

  /** Feeding up to four bytes is xoring them in together and shifting them through. */
  lemma {:induction false} FeedIsPack(c: bv32, data: bytes)
    requires |data| <= 4
    ensures Feed(c, data) == ShiftBytes(Xor(c, Pack(data)), |data|)
    decreases |data|
  {
    if data == [] {
      XorZero(c);
    } else {
      var b, t := Word(data[0]), Pack(data[1..]);
      PackFits(data[1..]);
      FeedIsPack(FeedByte(c, data[0]), data[1..]);
      FeedByteIsShifts(c, data[0]);
      RaisedShifted(t);
      ShiftsLinear(Xor(c, b), Raise(t), 8);
      XorAssoc(c, b, Raise(t));
    }
  }

  lemma {:induction false} ShiftBytesInjective(x: bv32, y: bv32, n: nat)
    requires ShiftBytes(x, n) == ShiftBytes(y, n)
    ensures x == y
    decreases n
  {
    if n > 0 {
      ShiftBytesInjective(Shifts(x, 8), Shifts(y, 8), n - 1);
      ShiftsInjective(x, y, 8);
    }
  }

  lemma UnpackStep(w: bv32, v: bv32)
    requires Narrow(w, 1) && Narrow(v, 3)
    ensures LowByte(Xor(w, Raise(v))) == w && ShiftOut(Xor(w, Raise(v))) == v
  {
  }

  lemma WordInjective(x: byte, y: byte)
    requires Word(x) == Word(y)
    ensures x == y
  {
    EightBits();
    FromToBits(x, 8);
    FromToBits(y, 8);
  }

  lemma {:induction false} PackInjective(a: bytes, b: bytes)
    requires |a| == |b| <= 4 && Pack(a) == Pack(b)
    ensures a == b
    decreases |a|
  {
    if a != [] {
      PackFits(a[1..]);
      PackFits(b[1..]);
      WordNarrow(a[0]);
      WordNarrow(b[0]);
      UnpackStep(Word(a[0]), Pack(a[1..]));
      UnpackStep(Word(b[0]), Pack(b[1..]));
      WordInjective(a[0], b[0]);
      PackInjective(a[1..], b[1..]);
      assert a == [a[0]] + a[1..] && b == [b[0]] + b[1..];
    }
  }

  lemma XorCommutes(a: bv32, b: bv32)
    ensures Xor(a, b) == Xor(b, a)
  {
  }

  /** Every change confined to four neighbouring bytes changes the checksum. */
  lemma BurstDetected(pre: bytes, a: bytes, b: bytes, post: bytes)
    requires |a| == |b| <= 4 && a != b
    ensures Checksum(pre + a + post) != Checksum(pre + b + post)
  {
    if Checksum(pre + a + post) == Checksum(pre + b + post) {
      var c := Feed(INITIAL, pre);
      FinalizeInjective(Feed(INITIAL, pre + a + post), Feed(INITIAL, pre + b + post));
      FeedConcat(INITIAL, pre + a, post);
      FeedConcat(INITIAL, pre + b, post);
      FeedConcat(INITIAL, pre, a);
      FeedConcat(INITIAL, pre, b);
      FeedInjective(Feed(c, a), Feed(c, b), post);
      FeedIsPack(c, a);
      FeedIsPack(c, b);
      ShiftBytesInjective(Xor(c, Pack(a)), Xor(c, Pack(b)), |a|);
      XorCommutes(c, Pack(a));
      XorCommutes(c, Pack(b));
      XorInjective(Pack(a), Pack(b), c);
      PackInjective(a, b);
    }
  }
}
