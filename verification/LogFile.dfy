/** A log file as a list of encoded records, and the scan that recovers such a list from arbitrary bytes. */
module LogFile {
  import opened Bytes
  import opened RecordCodec

  /** The encodings of the records, one after the other. */
  function Flatten(rs: seq<Stored>): bytes {
    if rs == [] then [] else Encode(rs[0]) + Flatten(rs[1..])
  }

  /** The file position where record `k` starts. */
  function Pos(rs: seq<Stored>, k: nat): nat
    requires k <= |rs|
  {
    |Flatten(rs[..k])|
  }

  lemma SizeFits(r: Stored, buf: bytes)
    requires Decode(buf) == Decoded(r)
    ensures 28 <= r.Size() <= |buf|
  {
    hide Encode, Decode;
    DecodesExactlyEncodings(buf, r);
  }

  /** The records reached by successive successful decodes, from the start of the bytes. What follows them ends the
      scan, unless the decoder runs past its buffer there: see `Overruns`. */
  function Scan(log: bytes): (rs: seq<Stored>)
    decreases |log|
  {
    match Decode(log)
    case Decoded(r) =>
      SizeFits(r, log);
      [r] + Scan(log[r.Size()..])
    case _ => []
  }

  /** The scan reaches a record on which the decoder copies from beyond its buffer. */
  predicate Overruns(log: bytes)
    decreases |log|
  {
    match Decode(log)
    case Decoded(r) =>
      SizeFits(r, log);
      Overruns(log[r.Size()..])
    case Overread => true
    case _ => false
  }

  // ---- Flatten -----------------------------------------------------------------------------

  lemma {:induction false} FlattenConcat(a: seq<Stored>, b: seq<Stored>)
    ensures Flatten(a + b) == Flatten(a) + Flatten(b)
  {
    hide Encode;
    if a == [] {
      assert a + b == b;
    } else {
      FlattenConcat(a[1..], b);
      assert (a + b)[0] == a[0] && (a + b)[1..] == a[1..] + b;
      assert Flatten(a + b) == Encode(a[0]) + (Flatten(a[1..]) + Flatten(b));
      Assoc(Encode(a[0]), Flatten(a[1..]), Flatten(b));
    }
  }

  lemma FlattenOne(r: Stored)
    ensures Flatten([r]) == Encode(r)
  {
    hide Encode;
    assert Flatten([r]) == Encode(r) + Flatten([]);
  }

  lemma FlattenSnoc(rs: seq<Stored>, r: Stored)
    ensures Flatten(rs + [r]) == Flatten(rs) + Encode(r)
  {
    hide Encode;
    FlattenConcat(rs, [r]);
    FlattenOne(r);
  }

  lemma FlattenSplit(rs: seq<Stored>, k: nat)
    requires k <= |rs|
    ensures Flatten(rs) == Flatten(rs[..k]) + Flatten(rs[k..])
  {
    hide Encode, Flatten;
    FlattenConcat(rs[..k], rs[k..]);
    assert rs == rs[..k] + rs[k..];
  }

  lemma FlattenAt(rs: seq<Stored>, k: nat)
    requires k < |rs|
    ensures Pos(rs, k + 1) == Pos(rs, k) + rs[k].Size() <= |Flatten(rs)|
    ensures Flatten(rs)[Pos(rs, k)..] == Encode(rs[k]) + Flatten(rs[k + 1..])
  {
    hide Encode, Flatten;
    FlattenSnoc(rs[..k], rs[k]);
    assert rs[..k + 1] == rs[..k] + [rs[k]];
    FlattenSplit(rs, k + 1);
    Assoc(Flatten(rs[..k]), Encode(rs[k]), Flatten(rs[k + 1..]));
  }

  lemma {:induction false} PosMonotone(rs: seq<Stored>, j: nat, k: nat)
    requires j <= k <= |rs|
    ensures Pos(rs, j) + 28 * (k - j) <= Pos(rs, k) <= |Flatten(rs)|
    decreases k - j
  {
    hide Encode;
    if j == k {
      FlattenSplit(rs, k);
    } else {
      FlattenAt(rs, k - 1);
      PosMonotone(rs, j, k - 1);
    }
  }

  /** Positions of a list do not change when records are appended. */
  lemma PosStable(rs: seq<Stored>, more: seq<Stored>, k: nat)
    requires k <= |rs|
    ensures Pos(rs + more, k) == Pos(rs, k)
  {
    assert (rs + more)[..k] == rs[..k];
  }

  // ---- Scan --------------------------------------------------------------------------------

  /** The scan reads back a list of encodings, and stops where no further record can be decoded. */
  lemma {:induction false} ScanFlatten(rs: seq<Stored>, rest: bytes)
    ensures Scan(Flatten(rs) + rest) == rs + Scan(rest)
  {
    hide Encode, Decode;
    if rs == [] {
      assert Flatten(rs) + rest == rest;
    } else {
      var log := Flatten(rs) + rest;
      assert log == Encode(rs[0]) + (Flatten(rs[1..]) + rest);
      DecodesExactlyEncodings(log, rs[0]);
      assert log[rs[0].Size()..] == Flatten(rs[1..]) + rest;
      ScanFlatten(rs[1..], rest);
    }
  }

  /** The scan keeps a prefix of the bytes, and nothing can be decoded after it. */
  lemma {:induction false} ScanKeepsPrefix(log: bytes)
    ensures Flatten(Scan(log)) <= log
    ensures !Decode(log[|Flatten(Scan(log))|..]).Decoded?
    decreases |log|
  {
    hide Encode, Decode;
    match Decode(log)
    case Decoded(r) =>
      SizeFits(r, log);
      DecodesExactlyEncodings(log, r);
      var rest := log[r.Size()..];
      ScanKeepsPrefix(rest);
      assert log == Encode(r) + rest;
      assert Scan(log)[1..] == Scan(rest);
      assert log[|Flatten(Scan(log))|..] == rest[|Flatten(Scan(rest))|..];
    case _ =>
      assert log[0..] == log;
  }

  /** The scan is maximal: every list of records whose encoding starts the bytes is part of what it keeps. */
  lemma ScanIsLongest(log: bytes, rs: seq<Stored>)
    requires Flatten(rs) <= log
    ensures rs <= Scan(log)
  {
    var rest := log[|Flatten(rs)|..];
    assert log == Flatten(rs) + rest;
    ScanFlatten(rs, rest);
  }

  /** Scanning what a scan kept changes nothing. */
  lemma ScanIdempotent(log: bytes)
    ensures Scan(Flatten(Scan(log))) == Scan(log)
  {
    hide Encode, Decode;
    ScanFlatten(Scan(log), []);
    assert Flatten(Scan(log)) + [] == Flatten(Scan(log));
    assert Scan([]) == [] by { ScanEmpty(); }
  }

  lemma ScanEmpty()
    ensures Scan([]) == []
  {
  }

  /** A write that was cut short leaves a proper prefix of an encoding. */
  ghost predicate Torn(tail: bytes) {
    exists r: Stored :: tail < Encode(r)
  }

  lemma EmptyIsTorn()
    ensures Torn([])
  {
    var r := Record(0, 0, [], []);
    assert [] < Encode(r);
  }

  /** A torn tail is dropped, and nothing else. */
  lemma ScanDropsTornTail(rs: seq<Stored>, tail: bytes)
    requires Torn(tail)
    ensures Scan(Flatten(rs) + tail) == rs
  {
    hide Encode, Decode;
    ScanFlatten(rs, tail);
    var r: Stored :| tail < Encode(r);
    TornPrefixRejected(r, tail);
  }

  // ---- Where the decoder runs past its buffer ----------------------------------------------------

  /** A scan overruns exactly if the bytes after the records it reaches pass every check of the header and announce a
      key length that wraps the 32-bit bound. In all other files it stops there, and what it keeps is what `Scan`
      says. */
  lemma {:induction false} OverrunsExactly(log: bytes)
    ensures Flatten(Scan(log)) <= log
    ensures var stop := log[|Flatten(Scan(log))|..];
            Overruns(log) <==> HeaderOk(stop) && GetU32(stop, 24) >= 0x1_0000_0000 - 24
    decreases |log|
  {
    hide Encode, Decode, HeaderOk, GetU32;
    ScanKeepsPrefix(log);
    match Decode(log)
    case Decoded(r) =>
      SizeFits(r, log);
      DecodesExactlyEncodings(log, r);
      var rest := log[r.Size()..];
      OverrunsExactly(rest);
      assert Scan(log)[1..] == Scan(rest);
      assert log[|Flatten(Scan(log))|..] == rest[|Flatten(Scan(rest))|..];
    case _ =>
      assert log[0..] == log;
      OverreadExactlyOnWrap(log);
  }

  lemma {:induction false} OverrunsAfter(rs: seq<Stored>, rest: bytes)
    ensures Overruns(Flatten(rs) + rest) == Overruns(rest)
    decreases |rs|
  {
    hide Encode, Decode;
    if rs == [] {
      assert Flatten(rs) + rest == rest;
    } else {
      var log := Flatten(rs) + rest;
      assert log == Encode(rs[0]) + (Flatten(rs[1..]) + rest);
      DecodesExactlyEncodings(log, rs[0]);
      assert log[rs[0].Size()..] == Flatten(rs[1..]) + rest;
      OverrunsAfter(rs[1..], rest);
    }
  }

  /** No file of whole records and a torn tail makes a scan overrun. */
  lemma TornTailStops(rs: seq<Stored>, tail: bytes)
    requires Torn(tail)
    ensures !Overruns(Flatten(rs) + tail)
  {
    hide Encode, Decode;
    OverrunsAfter(rs, tail);
    var r: Stored :| tail < Encode(r);
    TornPrefixRejected(r, tail);
  }

  /** After any records there can be bytes that make the scan overrun. */
  lemma OverrunHappens(rs: seq<Stored>) returns (log: bytes)
    ensures Scan(log) == rs && Overruns(log)
  {
    hide Encode, Decode;
    var buf := OverreadHappens();
    log := Flatten(rs) + buf;
    OverrunsAfter(rs, buf);
    ScanFlatten(rs, buf);
    assert rs + [] == rs;
  }
}
