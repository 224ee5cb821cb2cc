/** Names and numbers as byte strings. */
module Text {
  import opened Bytes

  const DASH: byte := 45
  const PIPE: byte := 124
  const DOT: byte := 46
  const UNDERSCORE: byte := 95
  const ZERO: byte := 48

  predicate IsDigit(c: byte) {
    48 <= c <= 57
  }

  predicate AllDigits(s: bytes) {
    forall i :: 0 <= i < |s| ==> IsDigit(s[i])
  }

  /** `std::to_string` of an unsigned number. */
  function Decimal(n: nat): (s: bytes)
    ensures s != [] && AllDigits(s)
  {
    if n < 10 then [ZERO + n] else Decimal(n / 10) + [ZERO + n % 10]
  }

  /** The number that a digit string denotes. */
  function Number(s: bytes): nat
    requires AllDigits(s)
  {
    if s == [] then 0 else 10 * Number(s[..|s| - 1]) + (s[|s| - 1] - ZERO)
  }

  lemma {:induction false} NumberOfDecimal(n: nat)
    ensures Number(Decimal(n)) == n
  {
    if n >= 10 {
      NumberOfDecimal(n / 10);
      assert Decimal(n)[..|Decimal(n)| - 1] == Decimal(n / 10);
    } else {
      assert Decimal(n)[..0] == [];
    }
  }

  function Zeros(n: nat): (s: bytes)
    ensures |s| == n && AllDigits(s)
  {
    seq(n, i => ZERO)
  }

  /** `%08llu`. */
  function Padded(n: nat): (s: bytes)
    ensures AllDigits(s)
  {
    var d := Decimal(n);
    if |d| < 8 then Zeros(8 - |d|) + d else d
  }

  lemma {:induction false} NumberPadded(k: nat, s: bytes)
    requires AllDigits(s)
    ensures Number(Zeros(k) + s) == Number(s)
    decreases k + |s|
  {
    var t := Zeros(k) + s;
    if s != [] {
      assert t[..|t| - 1] == Zeros(k) + s[..|s| - 1];
      NumberPadded(k, s[..|s| - 1]);
    } else if k > 0 {
      assert t[..k - 1] == Zeros(k - 1) + [];
      NumberPadded(k - 1, []);
    }
  }

  lemma PaddedInjective(a: nat, b: nat)
    requires Padded(a) == Padded(b)
    ensures a == b
  {
    NumberOfDecimal(a);
    NumberOfDecimal(b);
    NumberPadded(if |Decimal(a)| < 8 then 8 - |Decimal(a)| else 0, Decimal(a));
    NumberPadded(if |Decimal(b)| < 8 then 8 - |Decimal(b)| else 0, Decimal(b));
    assert Zeros(0) + Decimal(a) == Decimal(a) && Zeros(0) + Decimal(b) == Decimal(b);
  }

  function HexDigit(d: nat): byte
    requires d < 16
  {
    if d < 10 then ZERO + d else 87 + d
  }

  /** `%04x` of a 16-bit number. */
  function Hex4(r: uint16): (s: bytes)
    ensures |s| == 4
  {
    [HexDigit(r / 0x1000), HexDigit(r / 0x100 % 0x10), HexDigit(r / 0x10 % 0x10), HexDigit(r % 0x10)]
  }

  /** `GroupCoordinator::generate_member_id`. */
  function MemberId(group: bytes, counter: nat, salt: uint16): bytes {
    group + [DASH] + Padded(counter) + [DASH] + Hex4(salt)
  }

  lemma HexDigitInjective(a: nat, b: nat)
    requires a < 16 && b < 16 && HexDigit(a) == HexDigit(b)
    ensures a == b
  {
  }

  lemma HexParts(r: uint16)
    ensures r == 0x1000 * (r / 0x1000) + 0x100 * (r / 0x100 % 0x10) + 0x10 * (r / 0x10 % 0x10) + r % 0x10
  {
    var a, b := r / 0x10, r / 0x100;
    assert r == 0x10 * a + r % 0x10;
    assert a / 0x10 == b && a == 0x10 * b + a % 0x10;
    assert b / 0x10 == r / 0x1000 && b == 0x10 * (r / 0x1000) + b % 0x10;
  }

  lemma Hex4Injective(a: uint16, b: uint16)
    requires Hex4(a) == Hex4(b)
    ensures a == b
  {
    hide HexDigit;
    HexDigitInjective(a / 0x1000, b / 0x1000);
    HexDigitInjective(a / 0x100 % 0x10, b / 0x100 % 0x10);
    HexDigitInjective(a / 0x10 % 0x10, b / 0x10 % 0x10);
    HexDigitInjective(a % 0x10, b % 0x10);
    HexParts(a);
    HexParts(b);
  }

  /** Two ids of one group differ if they were issued at different counts, whatever the random part, or with different
      random parts. */
  lemma MemberIdsDiffer(group: bytes, c1: nat, s1: uint16, c2: nat, s2: uint16)
    requires MemberId(group, c1, s1) == MemberId(group, c2, s2)
    ensures c1 == c2 && s1 == s2
  {
    hide Padded, Hex4;
    var a, b := MemberId(group, c1, s1), MemberId(group, c2, s2);
    var n := |group| + 1;
    assert |Padded(c1)| == |Padded(c2)|;
    assert a[n..n + |Padded(c1)|] == Padded(c1);
    assert b[n..n + |Padded(c2)|] == Padded(c2);
    PaddedInjective(c1, c2);
    assert a[|a| - 4..] == Hex4(s1) && b[|b| - 4..] == Hex4(s2);
    Hex4Injective(s1, s2);
  }

  predicate Reserved(name: bytes) {
    |name| >= 2 && name[0] == UNDERSCORE && name[1] == UNDERSCORE
  }

  predicate IsLetter(c: byte) {
    97 <= c <= 122 || 65 <= c <= 90
  }

  /** `GroupCoordinator::validate_group_id`. */
  predicate ValidGroupId(g: bytes) {
    && 0 < |g| <= 64
    && !Reserved(g)
    && g[0] != DOT && g[|g| - 1] != DOT
    && forall i :: 0 <= i < |g| ==> IsLetter(g[i]) || IsDigit(g[i]) || g[i] == DOT || g[i] == UNDERSCORE || g[i] == DASH
  }

  // ---- Dictionary order --------------------------------------------------------------------

  /** Byte strings in dictionary order. */
  predicate TextLess(a: bytes, b: bytes)
    decreases |a|
  {
    if b == [] then false
    else if a == [] then true
    else if a[0] != b[0] then a[0] < b[0]
    else TextLess(a[1..], b[1..])
  }

  lemma {:induction false} TextLessAsymmetric(a: bytes, b: bytes)
    requires TextLess(a, b)
    ensures !TextLess(b, a)
    decreases |a|
  {
    if a != [] && a[0] == b[0] {
      TextLessAsymmetric(a[1..], b[1..]);
    }
  }

  lemma {:induction false} TextLessTotal(a: bytes, b: bytes)
    ensures a == b || TextLess(a, b) || TextLess(b, a)
    decreases |a|
  {
    if a != [] && b != [] && a[0] == b[0] {
      TextLessTotal(a[1..], b[1..]);
      assert a == [a[0]] + a[1..] && b == [b[0]] + b[1..];
    }
  }

  lemma {:induction false} TextLessTransitive(a: bytes, b: bytes, c: bytes)
    requires TextLess(a, b) && TextLess(b, c)
    ensures TextLess(a, c)
    decreases |a|
  {
    if a != [] && a[0] == b[0] && b[0] == c[0] {
      TextLessTransitive(a[1..], b[1..], c[1..]);
    }
  }

  /** Every name before every later one. */
  ghost predicate Ordered(names: seq<bytes>) {
    forall i, j :: 0 <= i < j < |names| ==> TextLess(names[i], names[j])
  }

  /** `std::sort` of the keys of a map, taken in any order. */
  method SortedNames(names: set<bytes>) returns (order: seq<bytes>)
    ensures Ordered(order) && forall n :: n in order <==> n in names
  {
    order := [];
    var todo := names;
    while todo != {}
      invariant Ordered(order) && todo <= names
      invariant forall n :: n in order <==> n in names && n !in todo
      decreases |todo|
    {
      var n :| n in todo;
      todo := todo - {n};
      order := InsertName(order, n);
    }
  }

  method InsertName(order: seq<bytes>, n: bytes) returns (r: seq<bytes>)
    requires Ordered(order) && n !in order
    ensures Ordered(r) && forall m :: m in r <==> m in order || m == n
  {
    hide TextLess;
    var k := 0;
    while k < |order| && TextLess(order[k], n)
      invariant 0 <= k <= |order| && forall i :: 0 <= i < k ==> TextLess(order[i], n)
    {
      k := k + 1;
    }
    r := order[..k] + [n] + order[k..];
    forall j | k <= j < |order|
      ensures TextLess(n, order[j])
    {
      TextLessTotal(order[k], n);
      if j > k {
        TextLessTransitive(n, order[k], order[j]);
      }
    }
    assert order == order[..k] + order[k..];
    assert forall m :: m in r <==> m in order[..k] || m == n || m in order[k..];
  }

  lemma OrderedDistinct(names: seq<bytes>, i: nat, j: nat)
    requires Ordered(names) && i < |names| && j < |names| && i != j
    ensures names[i] != names[j]
  {
    if i < j {
      Irreflexive(names[i], names[j]);
    } else {
      Irreflexive(names[j], names[i]);
    }
  }

  lemma Irreflexive(a: bytes, b: bytes)
    requires TextLess(a, b)
    ensures a != b
  {
    TextLessAsymmetric(a, b);
  }

  /** There is only one dictionary order of given names. */
  lemma {:induction false} OrderedUnique(a: seq<bytes>, b: seq<bytes>)
    requires Ordered(a) && Ordered(b) && forall n :: n in a <==> n in b
    ensures a == b
    decreases |a|
  {
    hide TextLess;
    EmptyTogether(a, b);
    if a != [] {
      var x, y := a[|a| - 1], b[|b| - 1];
      LastIsLargest(a, b);
      LastIsLargest(b, a);
      if x != y {
        TextLessAsymmetric(x, y);
      }
      var p, q := a[..|a| - 1], b[..|b| - 1];
      assert a == p + [x] && b == q + [x];
      FrontKeeps(p, q, x);
      FrontKeeps(q, p, x);
      OrderedUnique(p, q);
    }
  }

  lemma EmptyTogether(a: seq<bytes>, b: seq<bytes>)
    requires forall n :: n in a <==> n in b
    ensures a == [] <==> b == []
  {
    assert a != [] ==> a[0] in a;
    assert b != [] ==> b[0] in b;
  }

  lemma LastIsLargest(a: seq<bytes>, b: seq<bytes>)
    requires Ordered(a) && a != [] && b != [] && b[|b| - 1] in a
    ensures b[|b| - 1] == a[|a| - 1] || TextLess(b[|b| - 1], a[|a| - 1])
  {
    var i :| 0 <= i < |a| && a[i] == b[|b| - 1];
    assert i < |a| - 1 ==> TextLess(a[i], a[|a| - 1]);
  }

  lemma FrontKeeps(p: seq<bytes>, q: seq<bytes>, x: bytes)
    requires Ordered(p + [x]) && forall n :: n in p + [x] <==> n in q + [x]
    ensures forall n :: n in p ==> n in q
  {
    hide TextLess;
    var a := p + [x];
    forall n | n in p
      ensures n in q
    {
      var i :| 0 <= i < |p| && p[i] == n;
      assert a[i] == n && a[|p|] == x;
      Irreflexive(a[i], a[|p|]);
      assert n in a && n in q + [x];
    }
  }
}
