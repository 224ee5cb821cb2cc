/** The checksum as a remainder: the bits of a message are the coefficients of a polynomial over the field of two
    elements, and the checksum is what is left of it after division by the generator of CRC-32, in the normal order of
    its coefficients (x^32 + x^26 + x^23 + x^22 + x^16 + x^12 + x^11 + x^10 + x^8 + x^7 + x^5 + x^4 + x^2 + x + 1). */
module CrcPolynomial {
  import opened Bytes
  import opened Crc32

  /** The generator without its leading term, which is what x^32 leaves. */
  const GENERATOR: bv32 := 0x04C1_1DB7

  const ONES: bv32 := 0xFFFF_FFFF
  const TOP: bv32 := 0x8000_0000

  // ---- Remainders --------------------------------------------------------------------------------

  /** A remainder times x: shifted, and reduced if a term x^32 comes out. */
  function TimesX(r: bv32): bv32 {
    Xor(Double(r), Reduce(High(r)))
  }

  function Double(r: bv32): bv32 {
    r << 1
  }

  predicate High(r: bv32) {
    r & 0x8000_0000 != 0
  }

  function Reduce(high: bool): bv32 {
    if high then GENERATOR else 0
  }

  function TimesXs(r: bv32, n: nat): bv32
    decreases n
  {
    if n == 0 then r else TimesX(TimesXs(r, n - 1))
  }

  function Unit(bit: bool): bv32 {
    if bit then 1 else 0
  }

  /** The remainder of the polynomial with these coefficients, highest first: Horner's scheme. */
  function Remainder(bits: seq<bool>): bv32 {
    if bits == [] then 0 else Xor(TimesX(Remainder(bits[..|bits| - 1])), Unit(bits[|bits| - 1]))
  }

  /** The bits of a message: byte after byte, the lowest bit of each first. */
  function ByteBits(b: nat, n: nat): (bits: seq<bool>)
    ensures |bits| == n
    decreases n
  {
    if n == 0 then [] else [b % 2 == 1] + ByteBits(b / 2, n - 1)
  }

  function MessageBits(data: bytes): (bits: seq<bool>)
    ensures |bits| == 8 * |data|
    decreases |data|
  {
    if data == [] then [] else ByteBits(data[0], 8) + MessageBits(data[1..])
  }

  /** A register read from the other end. */
  function Mirror(v: bv32): bv32 {
    var a := ((v >> 1) & 0x5555_5555) | ((v & 0x5555_5555) << 1);
    var b := ((a >> 2) & 0x3333_3333) | ((a & 0x3333_3333) << 2);
    var c := ((b >> 4) & 0x0F0F_0F0F) | ((b & 0x0F0F_0F0F) << 4);
    var d := ((c >> 8) & 0x00FF_00FF) | ((c & 0x00FF_00FF) << 8);
    (d >> 16) | (d << 16)
  }

  // ---- Arithmetic of remainders --------------------------------------------------------------------

  lemma DoubleBits(a: bv32, b: bv32)
    ensures (a ^ b) << 1 == (a << 1) ^ (b << 1)
  {
  }

  lemma DoubleXor(a: bv32, b: bv32)
    ensures Double(Xor(a, b)) == Xor(Double(a), Double(b))
  {
    DoubleBits(a, b);
  }

  lemma HighXor(a: bv32, b: bv32)
    ensures High(Xor(a, b)) == (High(a) != High(b))
  {
  }

  lemma ReduceXor(x: bool, y: bool)
    ensures Reduce(x != y) == Xor(Reduce(x), Reduce(y))
  {
  }

  lemma XorRegroup(a: bv32, b: bv32, c: bv32)
    ensures Xor(Xor(a, b), c) == Xor(a, Xor(b, c)) && Xor(0, a) == a && Xor(a, 0) == a
  {
  }

  lemma XorCommutes(a: bv32, b: bv32)
    ensures Xor(a, b) == Xor(b, a)
  {
  }

  lemma XorPairs(a: bv32, b: bv32, p: bv32, q: bv32)
    ensures Xor(Xor(a, b), Xor(p, q)) == Xor(Xor(a, p), Xor(b, q))
  {
    hide Xor;
    XorRegroup(a, b, Xor(p, q));
    XorRegroup(b, p, q);
    XorCommutes(b, p);
    XorRegroup(p, b, q);
    XorRegroup(a, p, Xor(b, q));
  }

  lemma TimesXLinear(a: bv32, b: bv32)
    ensures TimesX(Xor(a, b)) == Xor(TimesX(a), TimesX(b))
  {
    hide Xor, Double, High, Reduce;
    DoubleXor(a, b);
    HighXor(a, b);
    ReduceXor(High(a), High(b));
    XorPairs(Double(a), Double(b), Reduce(High(a)), Reduce(High(b)));
  }

  lemma {:induction false} TimesXsLinear(a: bv32, b: bv32, n: nat)
    ensures TimesXs(Xor(a, b), n) == Xor(TimesXs(a, n), TimesXs(b, n))
  {
    hide Xor, TimesX;
    if n > 0 {
      TimesXsLinear(a, b, n - 1);
      TimesXLinear(TimesXs(a, n - 1), TimesXs(b, n - 1));
    }
  }

  lemma {:induction false} TimesXsMore(r: bv32, n: nat)
    ensures TimesXs(TimesX(r), n) == TimesX(TimesXs(r, n))
  {
    hide TimesX;
    if n > 0 {
      TimesXsMore(r, n - 1);
    }
  }

  lemma {:induction false} TimesXsSum(r: bv32, m: nat, n: nat)
    ensures TimesXs(TimesXs(r, m), n) == TimesXs(r, m + n)
    decreases n
  {
    hide TimesX;
    if n > 0 {
      TimesXsSum(r, m, n - 1);
    }
  }

  lemma FourTimes(a: bv32, b: bv32, c: bv32, d: bv32, e: bv32)
    requires TimesX(a) == b && TimesX(b) == c && TimesX(c) == d && TimesX(d) == e
    ensures TimesXs(a, 4) == e
  {
    hide TimesX;
    assert TimesXs(a, 1) == b;
    assert TimesXs(a, 2) == c;
    assert TimesXs(a, 3) == d;
  }

  /** The remainder of x^32 is the generator without its leading term. */
  lemma ThirtyTwo()
    ensures TimesXs(1, 32) == GENERATOR
  {
    hide TimesXs;
    FourTimes(0x1, 0x2, 0x4, 0x8, 0x10);
    FourTimes(0x10, 0x20, 0x40, 0x80, 0x100);
    FourTimes(0x100, 0x200, 0x400, 0x800, 0x1000);
    FourTimes(0x1000, 0x2000, 0x4000, 0x8000, 0x1_0000);
    FourTimes(0x1_0000, 0x2_0000, 0x4_0000, 0x8_0000, 0x10_0000);
    FourTimes(0x10_0000, 0x20_0000, 0x40_0000, 0x80_0000, 0x100_0000);
    FourTimes(0x100_0000, 0x200_0000, 0x400_0000, 0x800_0000, 0x1000_0000);
    FourTimes(0x1000_0000, 0x2000_0000, 0x4000_0000, TOP, GENERATOR);
    var r: bv32 := 1;
    TimesXsSum(r, 4, 4);
    TimesXsSum(r, 8, 4);
    TimesXsSum(r, 12, 4);
    TimesXsSum(r, 16, 4);
    TimesXsSum(r, 20, 4);
    TimesXsSum(r, 24, 4);
    TimesXsSum(r, 28, 4);
  }

  // ---- The register ------------------------------------------------------------------------------

  /** A bit enters a register of the normal order at its high end. */
  function Enter(r: bv32, bit: bool): bv32 {
    TimesX(Xor(r, if bit then TOP else 0))
  }

  function EnterAll(r: bv32, bits: seq<bool>): bv32
    decreases |bits|
  {
    if bits == [] then r else EnterAll(Enter(r, bits[0]), bits[1..])
  }

  lemma {:induction false} EnterSnoc(r: bv32, bits: seq<bool>)
    requires bits != []
    ensures EnterAll(r, bits) == Enter(EnterAll(r, bits[..|bits| - 1]), bits[|bits| - 1])
    decreases |bits|
  {
    hide Enter;
    var n := |bits| - 1;
    if n == 0 {
      assert bits[1..] == [] && bits[..0] == [];
    } else {
      EnterSnoc(Enter(r, bits[0]), bits[1..]);
      assert bits[1..][..n - 1] == bits[..n][1..];
    }
  }

  lemma TopTimes()
    ensures TimesX(TOP) == GENERATOR && TimesX(0) == 0
  {
  }

  lemma EnterBit(r: bv32, bit: bool)
    ensures Enter(r, bit) == Xor(TimesX(r), if bit then GENERATOR else 0)
  {
    hide Xor;
    TimesXLinear(r, if bit then TOP else 0);
    TopTimes();
  }

  lemma {:induction false} NoneTimes(n: nat)
    ensures TimesXs(0, n) == 0
  {
    if n > 0 {
      NoneTimes(n - 1);
      assert TimesX(0) == 0;
    }
  }

  /** Registers compute remainders: the first contents times x^n, and the message times x^32. */
  lemma {:induction false} RegisterIsRemainder(r: bv32, bits: seq<bool>)
    ensures EnterAll(r, bits) == Xor(TimesXs(r, |bits|), TimesXs(Remainder(bits), 32))
    decreases |bits|
  {
    hide Xor, TimesX, TimesXs, Enter, Unit;
    if bits == [] {
      NoneTimes(32);
      XorRegroup(r, 0, 0);
      assert TimesXs(r, 0) == r by { NoTimes(r); }
    } else {
      var n := |bits| - 1;
      var front, bit := bits[..n], bits[n];
      var a, b := TimesXs(r, n), TimesXs(Remainder(front), 32);
      var g := if bit then GENERATOR else 0;
      EnterSnoc(r, bits);
      RegisterIsRemainder(r, front);
      EnterBit(Xor(a, b), bit);
      TimesXLinear(a, b);
      XorRegroup(TimesX(a), TimesX(b), g);
      assert TimesX(a) == TimesXs(r, n + 1) by { OneMoreTime(r, n); }
      TimesXsLinear(TimesX(Remainder(front)), Unit(bit), 32);
      TimesXsMore(Remainder(front), 32);
      assert TimesXs(Unit(bit), 32) == g by { UnitTimes(bit); }
    }
  }

  lemma NoTimes(r: bv32)
    ensures TimesXs(r, 0) == r
  {
  }

  lemma OneMoreTime(r: bv32, n: nat)
    ensures TimesXs(r, n + 1) == TimesX(TimesXs(r, n))
  {
    hide TimesX;
  }

  lemma UnitTimes(bit: bool)
    ensures TimesXs(Unit(bit), 32) == if bit then GENERATOR else 0
  {
    hide TimesXs;
    if bit {
      ThirtyTwo();
    } else {
      NoneTimes(32);
    }
  }

  // ---- The broker's register is the mirror image ---------------------------------------------------

  lemma MirrorShift(c: bv32)
    ensures Mirror(Shift(c)) == TimesX(Mirror(c))
  {
    hide Mirror, Double, High, Xor;
    MirrorHalf(c);
    MirrorLow(c);
    MirrorGenerator();
    ShiftAs(c);
    MirrorXor(Half(c), POLYNOMIAL);
    XorRegroup(Mirror(Half(c)), 0, 0);
  }

  lemma ShiftAs(c: bv32)
    ensures Shift(c) == if LowBit(c) == 1 then Xor(Half(c), POLYNOMIAL) else Half(c)
  {
  }

  lemma MirrorHalf(c: bv32)
    ensures Mirror(Half(c)) == Double(Mirror(c))
  {
    hide Mirror;
    MirrorHalfBits(c);
  }

  lemma MirrorHalfBits(c: bv32)
    ensures Mirror(c >> 1) == Mirror(c) << 1
  {
  }

  lemma MirrorLow(c: bv32)
    ensures (LowBit(c) == 1) == High(Mirror(c))
  {
  }

  lemma MirrorGenerator()
    ensures Mirror(POLYNOMIAL) == GENERATOR
  {
  }

  lemma MirrorXor(a: bv32, b: bv32)
    ensures Mirror(Xor(a, b)) == Xor(Mirror(a), Mirror(b))
  {
  }

  lemma MirrorUnit(bit: bool)
    ensures Mirror(Unit(bit)) == if bit then TOP else 0
  {
  }

  lemma LowBitIs(b: nat, n: nat)
    requires n > 0 && SmallBits(ToBits(b / 2, n - 1))
    ensures LowBit(ToBits(b, n)) == Unit(b % 2 == 1) && Half(ToBits(b, n)) == ToBits(b / 2, n - 1)
  {
    TwiceParts(ToBits(b / 2, n - 1), b % 2 == 1);
  }

  predicate SmallBits(v: bv32) {
    v & TOP == 0
  }

  lemma TwiceParts(v: bv32, odd: bool)
    ensures LowBit(Twice(v, odd)) == Unit(odd)
    ensures SmallBits(v) ==> Half(Twice(v, odd)) == v
  {
  }

  predicate BelowBits(v: bv32, n: nat)
    requires n <= 8
  {
    v <= (match n case 0 => 0 case 1 => 1 case 2 => 3 case 3 => 7 case 4 => 15 case 5 => 31 case 6 => 63
                  case 7 => 127 case _ => 255)
  }

  lemma {:induction false} ToBitsSmall(b: nat, n: nat)
    requires n <= 8
    ensures BelowBits(ToBits(b, n), n)
    decreases n
  {
    if n > 0 {
      ToBitsSmall(b / 2, n - 1);
      TwiceBelow(ToBits(b / 2, n - 1), b % 2 == 1, n);
    }
  }

  lemma TwiceBelow(v: bv32, odd: bool, n: nat)
    requires 0 < n <= 8 && BelowBits(v, n - 1)
    ensures BelowBits(Twice(v, odd), n)
  {
  }

  lemma BelowIsSmall(v: bv32, n: nat)
    requires n <= 8 && BelowBits(v, n)
    ensures SmallBits(v)
  {
    assert v <= 255;
  }

  lemma {:induction false} FeedBitsMirrored(c: bv32, b: nat, n: nat)
    requires n <= 8
    ensures Mirror(FeedBits(c, ToBits(b, n), n)) == EnterAll(Mirror(c), ByteBits(b, n))
    decreases n
  {
    hide Mirror, Shift, Xor, ToBits, TimesX, LowBit, Half, Unit, SmallBits, BelowBits;
    if n > 0 {
      var bit := b % 2 == 1;
      ToBitsSmall(b / 2, n - 1);
      BelowIsSmall(ToBits(b / 2, n - 1), n - 1);
      LowBitIs(b, n);
      var c' := Shift(Xor(c, Unit(bit)));
      MirrorShift(Xor(c, Unit(bit)));
      MirrorXor(c, Unit(bit));
      MirrorUnit(bit);
      FeedBitsMirrored(c', b / 2, n - 1);
      assert ByteBits(b, n)[1..] == ByteBits(b / 2, n - 1);
    }
  }

  lemma {:induction false} EnterConcat(r: bv32, a: seq<bool>, b: seq<bool>)
    ensures EnterAll(r, a + b) == EnterAll(EnterAll(r, a), b)
    decreases |a|
  {
    hide Enter;
    if a == [] {
      assert a + b == b;
    } else {
      assert (a + b)[1..] == a[1..] + b;
      EnterConcat(Enter(r, a[0]), a[1..], b);
    }
  }

  lemma {:induction false} FeedMirrored(c: bv32, data: bytes)
    ensures Mirror(Feed(c, data)) == EnterAll(Mirror(c), MessageBits(data))
    decreases |data|
  {
    hide Mirror, FeedBits, ToBits, ByteBits;
    if data != [] {
      FeedBitsMirrored(c, data[0], 8);
      FeedMirrored(FeedByte(c, data[0]), data[1..]);
      EnterConcat(Mirror(c), ByteBits(data[0], 8), MessageBits(data[1..]));
    }
  }

  lemma MirrorTwice(v: bv32)
    ensures Mirror(Mirror(v)) == v
  {
  }

  /** What is left of the message times x^32, with all ones added to its first 32 coefficients. */
  function Rest(data: bytes): bv32 {
    Xor(TimesXs(ONES, 8 * |data|), TimesXs(Remainder(MessageBits(data)), 32))
  }

  lemma RegisterHoldsRest(data: bytes)
    ensures Feed(INITIAL, data) == Mirror(Rest(data))
  {
    hide Mirror, Feed, TimesXs, Remainder, Xor, MessageBits, EnterAll;
    FeedMirrored(INITIAL, data);
    assert Mirror(INITIAL) == ONES by { MirrorOnes(); }
    RegisterIsRemainder(ONES, MessageBits(data));
    MirrorTwice(Feed(INITIAL, data));
  }

  /** The checksum is the remainder of the message times x^32, with all ones added to its first 32 coefficients, by the
      CRC-32 generator; read from the other end, and complemented. */
  lemma ChecksumIsRemainder(data: bytes)
    ensures Checksum(data) == (Mirror(Rest(data)) ^ 0xFFFF_FFFF) as int
  {
    hide Mirror, Feed, Rest;
    RegisterHoldsRest(data);
  }

  lemma MirrorOnes()
    ensures Mirror(INITIAL) == ONES
  {
  }
}
