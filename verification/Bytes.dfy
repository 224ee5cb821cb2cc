/** Fixed-width integers and the big-endian layouts that every file and frame of the broker uses. */
module Bytes {

  type byte = x: int | 0 <= x < 0x100
  type uint16 = x: int | 0 <= x < 0x1_0000
  type uint32 = x: int | 0 <= x < 0x1_0000_0000
  type uint64 = x: int | 0 <= x < 0x1_0000_0000_0000_0000
  type int64 = x: int | -0x8000_0000_0000_0000 <= x < 0x8000_0000_0000_0000

  type bytes = seq<byte>

  datatype Option<+T> = None | Some(value: T)

  function Max(a: int, b: int): int {
    if a < b then b else a
  }

  lemma {:induction false} SubsetSmaller<T>(a: set<T>, b: set<T>)
    requires a <= b
    ensures |a| <= |b|
    decreases a
  {
    if x :| x in a {
      SubsetSmaller(a - {x}, b - {x});
    }
  }

  lemma Assoc<T>(a: seq<T>, b: seq<T>, c: seq<T>)
    ensures (a + b) + c == a + (b + c)
  {
  }

  /** `static_cast<uint64_t>` of a signed value. */
  function ToUnsigned(v: int64): (u: uint64) {
    if v < 0 then v + 0x1_0000_0000_0000_0000 else v
  }

  /** `static_cast<int64_t>` of an unsigned value. */
  function ToSigned(u: uint64): (v: int64) {
    if u < 0x8000_0000_0000_0000 then u else u - 0x1_0000_0000_0000_0000
  }

  function U16(v: uint16): (s: bytes)
    ensures |s| == 2
  {
    [v / 0x100, v % 0x100]
  }

  function U32(v: uint32): (s: bytes)
    ensures |s| == 4
  {
    U16(v / 0x1_0000) + U16(v % 0x1_0000)
  }

  function U64(v: uint64): (s: bytes)
    ensures |s| == 8
  {
    U32(v / 0x1_0000_0000) + U32(v % 0x1_0000_0000)
  }

  function GetU16(s: bytes, at: nat): (v: uint16)
    requires at + 2 <= |s|
  {
    (s[at] as int) * 0x100 + s[at + 1]
  }

  function GetU32(s: bytes, at: nat): (v: uint32)
    requires at + 4 <= |s|
  {
    (GetU16(s, at) as int) * 0x1_0000 + GetU16(s, at + 2)
  }

  function GetU64(s: bytes, at: nat): (v: uint64)
    requires at + 8 <= |s|
  {
    (GetU32(s, at) as int) * 0x1_0000_0000 + GetU32(s, at + 4)
  }

  /** `w` occurs in `s` at position `at`. */
  ghost predicate At(s: bytes, at: nat, w: bytes) {
    at + |w| <= |s| && s[at..at + |w|] == w
  }

  lemma AtConcat(s: bytes, at: nat, a: bytes, b: bytes)
    ensures At(s, at, a + b) <==> At(s, at, a) && At(s, at + |a|, b)
  {
    if at + |a| + |b| <= |s| {
      var m, n := at + |a|, at + |a| + |b|;
      assert s[at..n] == s[at..m] + s[m..n];
      if s[at..n] == a + b {
        assert s[at..m] == s[at..n][..|a|] && s[m..n] == s[at..n][|a|..];
      }
    }
  }

  lemma At16(s: bytes, at: nat, v: uint16)
    requires at + 2 <= |s|
    ensures At(s, at, U16(v)) <==> GetU16(s, at) == v
  {
    assert s[at..at + 2] == [s[at], s[at + 1]];
  }

  /** Reading undoes writing, and writing what was read gives the same four bytes. */
  lemma At32(s: bytes, at: nat, v: uint32)
    requires at + 4 <= |s|
    ensures At(s, at, U32(v)) <==> GetU32(s, at) == v
  {
    var hi, lo := v / 0x1_0000, v % 0x1_0000;
    At16(s, at, hi);
    At16(s, at + 2, lo);
    assert s[at..at + 4] == s[at..at + 2] + s[at + 2..at + 4];
    if At(s, at, U32(v)) {
      assert s[at..at + 2] == U32(v)[..2] && s[at + 2..at + 4] == U32(v)[2..];
    }
  }

  /** The same for eight bytes. */
  lemma At64(s: bytes, at: nat, v: uint64)
    requires at + 8 <= |s|
    ensures At(s, at, U64(v)) <==> GetU64(s, at) == v
  {
    var hi, lo := v / 0x1_0000_0000, v % 0x1_0000_0000;
    At32(s, at, hi);
    At32(s, at + 4, lo);
    assert s[at..at + 8] == s[at..at + 4] + s[at + 4..at + 8];
    if At(s, at, U64(v)) {
      assert s[at..at + 4] == U64(v)[..4] && s[at + 4..at + 8] == U64(v)[4..];
    }
  }

  lemma SignRoundTrip(v: int64, u: uint64)
    ensures ToSigned(ToUnsigned(v)) == v && ToUnsigned(ToSigned(u)) == u
  {
  }
}
