/** The keys and values of the committed-offsets log. */
module OffsetKeys {
  import opened Bytes
  import opened Text

  const ULONG_MAX := 0xFFFF_FFFF

  datatype Key = Key(group: bytes, topic: bytes, partition: uint16)

  /** `OffsetStore::make_key`. */
  function MakeKey(k: Key): bytes {
    k.group + [PIPE] + k.topic + [PIPE] + Decimal(k.partition)
  }

  /** The first index at or after `from` that holds a pipe, or the end. */
  function FindPipe(s: bytes, from: nat): (i: nat)
    requires from <= |s|
    ensures from <= i <= |s| && (i < |s| ==> s[i] == PIPE) && forall j :: from <= j < i ==> s[j] != PIPE
    decreases |s| - from
  {
    if from == |s| || s[from] == PIPE then from else FindPipe(s, from + 1)
  }

  predicate IsSpace(c: byte) {
    c == 32 || 9 <= c <= 13
  }

  function SkipSpaces(s: bytes, from: nat): (i: nat)
    requires from <= |s|
    ensures from <= i <= |s|
    decreases |s| - from
  {
    if from < |s| && IsSpace(s[from]) then SkipSpaces(s, from + 1) else from
  }

  function SkipDigits(s: bytes, from: nat): (i: nat)
    requires from <= |s|
    ensures from <= i <= |s| && AllDigits(s[from..i]) && (i < |s| ==> !IsDigit(s[i]))
    decreases |s| - from
  {
    if from < |s| && IsDigit(s[from]) then
      var i := SkipDigits(s, from + 1);
      assert s[from..i] == [s[from]] + s[from + 1..i];
      i
    else from
  }

  datatype Scanned = Scanned(value: nat, used: nat)

  /** `std::stoul` in base ten, where `unsigned long` has 32 bits: spaces, a sign, digits, and the sign negates modulo
      2^32. */
  function Stoul(s: bytes): Option<Scanned> {
    var i := SkipSpaces(s, 0);
    var j := if i < |s| && (s[i] == 43 || s[i] == DASH) then i + 1 else i;
    var k := SkipDigits(s, j);
    if k == j || Number(s[j..k]) > ULONG_MAX then None
    else
      var n := Number(s[j..k]);
      Some(Scanned(if j > i && s[i] == DASH then (ULONG_MAX + 1 - n) % (ULONG_MAX + 1) else n, k))
  }

  /** `OffsetStore::parse_key`. */
  function ParseKey(s: bytes): Option<Key> {
    var first := FindPipe(s, 0);
    if first == |s| then None
    else
      var second := FindPipe(s, first + 1);
      if second == |s| then None
      else
        var group, topic, part := s[..first], s[first + 1..second], s[second + 1..];
        if group == [] || topic == [] || part == [] then None
        else
          match Stoul(part)
          case None => None
          case Some(n) => if n.used != |part| || n.value > 0xFFFF then None else Some(Key(group, topic, n.value))
  }

  /** The keys that can be read back. */
  predicate Plain(k: Key) {
    k.group != [] && k.topic != [] && PIPE !in k.group && PIPE !in k.topic
  }

  // ---- Reading back ------------------------------------------------------------------------

  lemma FindPipeAt(s: bytes, from: nat, i: nat)
    requires from <= i < |s| && s[i] == PIPE && forall j :: from <= j < i ==> s[j] != PIPE
    ensures FindPipe(s, from) == i
  {
  }

  lemma {:induction false} SkipAllDigits(s: bytes, from: nat)
    requires from <= |s| && AllDigits(s)
    ensures SkipDigits(s, from) == |s|
    decreases |s| - from
  {
    if from < |s| {
      SkipAllDigits(s, from + 1);
    }
  }

  lemma StoulDecimal(n: uint16)
    ensures Stoul(Decimal(n)) == Some(Scanned(n, |Decimal(n)|))
  {
    var s := Decimal(n);
    NumberOfDecimal(n);
    SkipAllDigits(s, 0);
    assert IsDigit(s[0]);
    assert s[0..|s|] == s;
  }

  /** What comes back from a key: the key itself, exactly if its group and topic are non-empty and hold no pipe;
      otherwise nothing at all. */
  lemma KeyRoundTrip(k: Key)
    ensures ParseKey(MakeKey(k)) == if Plain(k) then Some(k) else None
  {
    hide Decimal, Stoul;
    if Plain(k) {
      PlainParses(k);
    } else if PIPE in k.group {
      GroupWithPipe(k);
    } else if PIPE in k.topic {
      TopicWithPipe(k);
    } else {
      EmptyPart(k);
    }
  }

  lemma PlainParses(k: Key)
    requires Plain(k)
    ensures ParseKey(MakeKey(k)) == Some(k)
  {
    hide Decimal, Stoul, FindPipe;
    var s := MakeKey(k);
    var a, b := |k.group|, |k.group| + 1 + |k.topic|;
    FindPipeAt(s, 0, a);
    FindPipeAt(s, a + 1, b);
    assert s[..a] == k.group && s[a + 1..b] == k.topic && s[b + 1..] == Decimal(k.partition);
    StoulDecimal(k.partition);
  }

  /** `stoul` never takes a pipe. */
  lemma StoulStops(s: bytes)
    requires PIPE in s
    ensures Stoul(s).Some? ==> Stoul(s).value.used != |s|
  {
    hide Stoul;
    var p :| 0 <= p < |s| && s[p] == PIPE;
    if Stoul(s).Some? && Stoul(s).value.used == |s| {
      StoulTakes(s, p);
    }
  }

  lemma StoulTakes(s: bytes, p: nat)
    requires Stoul(s).Some? && p < Stoul(s).value.used <= |s|
    ensures s[p] != PIPE
  {
    hide Number;
    var i := SkipSpaces(s, 0);
    SpacesOnly(s, 0);
    var j := if i < |s| && (s[i] == 43 || s[i] == DASH) then i + 1 else i;
    if p >= j {
      assert s[j..SkipDigits(s, j)][p - j] == s[p];
    }
  }

  lemma {:induction false} SpacesOnly(s: bytes, from: nat)
    requires from <= |s|
    ensures forall j :: from <= j < SkipSpaces(s, from) ==> IsSpace(s[j])
    decreases |s| - from
  {
    if from < |s| && IsSpace(s[from]) {
      SpacesOnly(s, from + 1);
    }
  }

  /** A third pipe spoils the partition number. */
  lemma ThirdPipe(s: bytes, first: nat, second: nat, third: nat)
    requires first < second < third < |s| && s[first] == s[second] == s[third] == PIPE
    requires (forall j :: 0 <= j < first ==> s[j] != PIPE) && (forall j :: first < j < second ==> s[j] != PIPE)
    ensures ParseKey(s) == None
  {
    hide Stoul, FindPipe;
    FindPipeAt(s, 0, first);
    FindPipeAt(s, first + 1, second);
    var part := s[second + 1..];
    assert part[third - second - 1] == PIPE;
    StoulStops(part);
  }

  lemma GroupWithPipe(k: Key)
    requires PIPE in k.group
    ensures ParseKey(MakeKey(k)) == None
  {
    hide Decimal, ParseKey;
    var s := MakeKey(k);
    var a := FindPipe(k.group, 0);
    assert a < |k.group| by {
      var p :| 0 <= p < |k.group| && k.group[p] == PIPE;
    }
    var b := FindPipe(s, a + 1);
    var mid, end := |k.group|, |k.group| + 1 + |k.topic|;
    assert s[mid] == PIPE && s[end] == PIPE && s[a] == PIPE;
    assert b <= mid;
    assert forall j :: 0 <= j < a ==> s[j] == k.group[j];
    ThirdPipe(s, a, b, end);
  }

  lemma TopicWithPipe(k: Key)
    requires PIPE !in k.group && PIPE in k.topic
    ensures ParseKey(MakeKey(k)) == None
  {
    hide Decimal, ParseKey;
    var s := MakeKey(k);
    var a := |k.group|;
    var p := FindPipe(k.topic, 0);
    assert p < |k.topic| by {
      var q :| 0 <= q < |k.topic| && k.topic[q] == PIPE;
    }
    var b, end := a + 1 + p, a + 1 + |k.topic|;
    assert s[a] == PIPE && s[b] == PIPE && s[end] == PIPE;
    assert forall j :: 0 <= j < a ==> s[j] == k.group[j];
    assert forall j :: a < j < b ==> s[j] == k.topic[j - a - 1];
    ThirdPipe(s, a, b, end);
  }

  lemma EmptyPart(k: Key)
    requires PIPE !in k.group && PIPE !in k.topic && (k.group == [] || k.topic == [])
    ensures ParseKey(MakeKey(k)) == None
  {
    hide Decimal, Stoul, FindPipe;
    var s := MakeKey(k);
    var a, b := |k.group|, |k.group| + 1 + |k.topic|;
    FindPipeAt(s, 0, a);
    FindPipeAt(s, a + 1, b);
    assert s[..a] == k.group && s[a + 1..b] == k.topic;
  }

  // ---- Telling keys apart ------------------------------------------------------------------

  lemma LastPipe(s: bytes, t: bytes, d: bytes, e: bytes)
    requires s + [PIPE] + d == t + [PIPE] + e && PIPE !in d && PIPE !in e
    ensures s == t && d == e
  {
    var a, b := s + [PIPE] + d, t + [PIPE] + e;
    NoPipeAfter(s, d);
    NoPipeAfter(t, e);
    assert a[|s|] == PIPE && b[|t|] == PIPE;
    assert a[..|s|] == s && b[..|t|] == t;
    assert a[|s| + 1..] == d && b[|t| + 1..] == e;
  }

  lemma NoPipeAfter(s: bytes, d: bytes)
    requires PIPE !in d
    ensures var a := s + [PIPE] + d;
            forall i :: |s| < i < |a| ==> a[i] != PIPE
  {
    var a := s + [PIPE] + d;
    assert forall i :: |s| < i < |a| ==> a[i] == d[i - |s| - 1];
  }

  lemma DecimalNoPipe(n: nat)
    ensures PIPE !in Decimal(n)
  {
    assert AllDigits(Decimal(n));
  }

  /** Keys of topics without a pipe are never confused, whatever the group ids. */
  lemma KeysDiffer(a: Key, b: Key)
    requires PIPE !in a.topic && PIPE !in b.topic && MakeKey(a) == MakeKey(b)
    ensures a == b
  {
    hide Decimal;
    DecimalNoPipe(a.partition);
    DecimalNoPipe(b.partition);
    LastPipe(a.group + [PIPE] + a.topic, b.group + [PIPE] + b.topic, Decimal(a.partition), Decimal(b.partition));
    LastPipe(a.group, b.group, a.topic, b.topic);
    NumberOfDecimal(a.partition);
    NumberOfDecimal(b.partition);
  }
}
