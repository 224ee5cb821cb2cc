/** What the start-up checks find when a log file has been damaged on disk. */
module Damage {
  import opened Bytes
  import opened RecordCodec
  import opened LogFile
  import opened OffsetIndex
  import opened Disk
  import opened SegmentModel
  import opened Layout
  import opened PartitionModel
  import opened AppendSafety
  import opened Recovery
  import Crc32

  // ---- Reading and checking, told by the decoder alone ------------------------------------------

  /** The decoder looks at no more than the length field announces. */
  lemma DecodeFront(buf: bytes, n: nat)
    requires 28 <= n <= |buf| && 24 <= GetU32(buf, 0) <= MAX_RECORD_SIZE && 4 + GetU32(buf, 0) <= n
    ensures Decode(buf[..n]) == Decode(buf)
  {
    hide GetU32, GetU64, Crc32.Checksum;
    var a := buf[..n];
    var length := GetU32(buf, 0);
    SameFields(buf, n);
    assert a[8..4 + length] == buf[8..4 + length];
    if GetU32(buf, 4) == Crc32.Checksum(buf[8..4 + length]) && 24 + GetU32(buf, 24) <= length {
      var k := GetU32(buf, 24);
      assert a[28..28 + k] == buf[28..28 + k] && a[28 + k..4 + length] == buf[28 + k..4 + length];
    }
  }

  lemma SameFields(buf: bytes, n: nat)
    requires 28 <= n <= |buf|
    ensures var a := buf[..n];
            && GetU32(a, 0) == GetU32(buf, 0) && GetU32(a, 4) == GetU32(buf, 4) && GetU64(a, 8) == GetU64(buf, 8)
            && GetU64(a, 16) == GetU64(buf, 16) && GetU32(a, 24) == GetU32(buf, 24)
  {
    assert forall i :: 0 <= i < n ==> buf[..n][i] == buf[i];
  }

  /** What the decoder makes of the bytes from a position on. */
  function DecodeFrom(log: bytes, pos: nat): DecodeResult {
    if pos > |log| then Corrupt else Decode(log[pos..])
  }

  /** A guarded read at a position is a decode of all that follows it. */
  lemma RecordAtExactly(s: Segment, log: bytes, pos: nat)
    ensures RecordAt(s, log, pos) ==
            if pos >= s.size then Beyond
            else match DecodeFrom(log, pos) case Decoded(r) => Got(r) case Overread => Overrun case _ => Bad
  {
    hide GetU32, Decode;
    if pos < s.size && pos <= |log| {
      var rest := log[pos..];
      ShortIsCorrupt(rest);
      if 28 <= |rest| {
        GetShifted(log, pos);
        var length := GetU32(log, pos);
        if 24 <= length <= MAX_RECORD_SIZE && pos + 4 + length <= |log| {
          assert log[pos..pos + 4 + length] == rest[..4 + length];
          DecodeFront(rest, 4 + length);
        } else {
          BadLength(rest);
        }
      }
    }
  }

  lemma ShortIsCorrupt(buf: bytes)
    ensures |buf| < 28 ==> Decode(buf) == Corrupt
  {
  }

  lemma BadLength(buf: bytes)
    requires |buf| >= 28
    requires GetU32(buf, 0) < 24 || GetU32(buf, 0) > MAX_RECORD_SIZE || 4 + GetU32(buf, 0) > |buf|
    ensures Decode(buf) == Corrupt || Decode(buf) == TooLarge
  {
  }

  /** The size is that of a header at least, and no index entry points beyond the file. */
  predicate Screened(s: Segment) {
    s.size >= 28 && forall i :: 0 <= i < |s.entries| ==> s.entries[i].pos < s.size
  }

  /** The quick check passes exactly if the file is empty, or it is screened and the decoder finds a record at its start
      and at the last position; it fails exactly if it is not screened or one of the two is no record, and the decoder
      does not run past its buffer first. */
  lemma QuickExactly(s: Segment, log: bytes)
    ensures var first, last := DecodeFrom(log, 0), DecodeFrom(log, LastPos(s));
            && (QuickResult(s, log) == Passes <==>
                s.size == 0 || (Screened(s) && first.Decoded? && (LastPos(s) >= s.size || last.Decoded?)))
            && (QuickResult(s, log) == RunsOver <==>
                && s.size > 0 && Screened(s)
                && (first.Overread? || (first.Decoded? && LastPos(s) < s.size && last.Overread?)))
  {
    hide RecordAt, DecodeFrom, LastPos;
    RecordAtExactly(s, log, 0);
    RecordAtExactly(s, log, LastPos(s));
  }

  // ---- One damaged record -----------------------------------------------------------------------

  /** A change within the checksum field, or within four neighbouring bytes of the body. */
  ghost predicate Hit(r: Stored, buf: bytes, lo: nat, hi: nat) {
    && |buf| == r.Size() && buf != Encode(r)
    && ((lo == 4 && hi == 8) || (8 <= lo <= hi <= |buf| && hi - lo <= 4))
    && buf[..lo] == Encode(r)[..lo] && buf[hi..] == Encode(r)[hi..]
  }

  /** The file with other bytes in the place of record `k`. */
  function Replaced(rs: seq<Stored>, k: nat, buf: bytes): bytes
    requires k < |rs|
  {
    Flatten(rs[..k]) + (buf + Flatten(rs[k + 1..]))
  }

  lemma HitIsCorrupt(r: Stored, buf: bytes, lo: nat, hi: nat, rest: bytes)
    requires Hit(r, buf, lo, hi)
    ensures Decode(buf + rest) == Corrupt
  {
    hide Encode, Decode, GetU32;
    DamageDetected(r, buf, lo, hi);
    EncodedFields(r);
    SamePrefixFields(buf, Encode(r), lo);
    var whole := buf + rest;
    assert whole[..|buf|] == buf;
    SameFields(whole, |buf|);
    DecodeFront(whole, |buf|);
  }

  lemma ReplacedSize(rs: seq<Stored>, k: nat, buf: bytes)
    requires k < |rs| && |buf| == rs[k].Size()
    ensures |Replaced(rs, k, buf)| == |Flatten(rs)|
  {
    hide Encode, Flatten;
    FlattenAt(rs, k);
    FlattenSplit(rs, k + 1);
  }

  /** Every record but the damaged one still decodes where it was. */
  lemma ReplacedAt(rs: seq<Stored>, k: nat, buf: bytes, lo: nat, hi: nat, j: nat)
    requires k < |rs| && Hit(rs[k], buf, lo, hi) && j < |rs|
    ensures DecodeFrom(Replaced(rs, k, buf), Pos(rs, j)) == if j == k then Corrupt else Decoded(rs[j])
  {
    hide Encode, Flatten, Decode, Hit;
    assert |buf| == rs[k].Size() by { HitSize(rs[k], buf, lo, hi); }
    var log, rest := Replaced(rs, k, buf), Flatten(rs[k + 1..]);
    if j == k {
      assert log[Pos(rs, k)..] == buf + rest;
      HitIsCorrupt(rs[k], buf, lo, hi, rest);
    } else if j < k {
      BeforeReplaced(rs, k, buf, j);
    } else {
      AfterReplaced(rs, k, buf, j);
    }
  }

  lemma HitSize(r: Stored, buf: bytes, lo: nat, hi: nat)
    requires Hit(r, buf, lo, hi)
    ensures |buf| == r.Size()
  {
  }

  lemma BeforeReplaced(rs: seq<Stored>, k: nat, buf: bytes, j: nat)
    requires j < k < |rs|
    ensures DecodeFrom(Replaced(rs, k, buf), Pos(rs, j)) == Decoded(rs[j])
  {
    hide Encode, Flatten, Decode;
    var front, log := rs[..k], Replaced(rs, k, buf);
    FlattenAt(front, j);
    assert front[..j] == rs[..j] && front[j] == rs[j];
    var p := Pos(rs, j);
    assert log[p..] == Flatten(front)[p..] + (buf + Flatten(rs[k + 1..]));
    var tail := Flatten(front[j + 1..]) + (buf + Flatten(rs[k + 1..]));
    assert log[p..] == Encode(rs[j]) + tail;
    DecodesExactlyEncodings(log[p..], rs[j]);
  }

  lemma AfterReplaced(rs: seq<Stored>, k: nat, buf: bytes, j: nat)
    requires k < j < |rs| && |buf| == rs[k].Size()
    ensures DecodeFrom(Replaced(rs, k, buf), Pos(rs, j)) == Decoded(rs[j])
  {
    hide Encode, Flatten, Decode;
    var log, after := Replaced(rs, k, buf), rs[k + 1..];
    var i := j - k - 1;
    FlattenAt(rs, k);
    FlattenAt(after, i);
    FlattenConcat(rs[..k + 1], after[..i]);
    assert rs[..k + 1] + after[..i] == rs[..j] && after[i] == rs[j] && after[i + 1..] == rs[j + 1..];
    var p, q := Pos(rs, j), Pos(after, i);
    assert p == Pos(rs, k + 1) + q;
    assert log[p..] == Flatten(after)[q..];
    DecodesExactlyEncodings(log[p..], rs[j]);
  }

  // ---- The last position of a serving segment ----------------------------------------------------

  /** The number of the record that the quick check looks at besides the first one: the last one in the index. */
  function LastIndexed(s: Segment): nat {
    if s.entries == [] then 0 else s.entries[|s.entries| - 1].rel
  }

  lemma LastPosIs(s: Segment, rs: seq<Stored>)
    requires SegmentModel.Serves(s, rs) && rs != [] && (Summarises(s, rs) || SummaryLost(s))
    requires |Flatten(rs)| < U32_SIZE
    ensures LastIndexed(s) < |rs| && LastPos(s) == Pos(rs, LastIndexed(s))
  {
    hide Flatten, MaxTimestamp, Lookup;
    assert rs[..0] == [];
    NothingFlat();
    FewRecords(rs);
    if Summarises(s, rs) {
      LookupOfLast(s, rs);
    }
  }

  lemma LookupOfLast(s: Segment, rs: seq<Stored>)
    requires SegmentModel.Serves(s, rs) && rs != [] && |rs| < U32_SIZE && s.last == s.base + |rs| - 1
    ensures LookupPosition(s, s.last) == Pos(rs, LastIndexed(s))
  {
    hide Flatten, Lookup;
    if s.last <= s.base {
      assert LastIndexed(s) == 0;
      assert rs[..0] == [];
      NothingFlat();
    } else if s.entries == [] {
      EmptyLookup(s.last - s.base);
      assert rs[..0] == [];
      NothingFlat();
    } else {
      var k := LookupLastEntry(s.entries, rs, |rs| - 1);
    }
  }

  lemma EmptyLookup(target: uint32)
    ensures Lookup([], target) == 0
  {
  }

  lemma LookupLastEntry(es: seq<Entry>, rs: seq<Stored>, target: uint32) returns (k: nat)
    requires Sound(es, rs) && es != [] && target == |rs| - 1
    ensures k == es[|es| - 1].rel && Lookup(es, target) == Pos(rs, k) == es[|es| - 1].pos
  {
    hide Flatten;
    var n := |es|;
    UpperBoundSplits(es, target, 0, n, n - 1);
    k := es[n - 1].rel;
  }

  // ---- What the checks find ------------------------------------------------------------------------

  /** The quick check finds the damage exactly if it is in the first record or in the last one of the index. */
  lemma QuickFindsExactly(s: Segment, rs: seq<Stored>, k: nat, buf: bytes, lo: nat, hi: nat)
    requires SegmentModel.Serves(s, rs) && (Summarises(s, rs) || SummaryLost(s)) && |Flatten(rs)| < U32_SIZE
    requires k < |rs| && Hit(rs[k], buf, lo, hi)
    ensures QuickResult(s, Replaced(rs, k, buf)) == if k == 0 || k == LastIndexed(s) then Fails else Passes
  {
    hide Flatten, MaxTimestamp, Hit, QuickResult, LastPos, DecodeFrom, LastIndexed, Replaced, Summarises, SummaryLost;
    var log, last := Replaced(rs, k, buf), LastIndexed(s);
    QuickExactly(s, log);
    LastPosIs(s, rs);
    ReplacedAt(rs, k, buf, lo, hi, 0);
    ReplacedAt(rs, k, buf, lo, hi, last);
    assert Pos(rs, 0) == 0 by {
      assert rs[..0] == [];
      NothingFlat();
    }
    FewRecords(rs);
    FlattenAt(rs, last);
    assert Screened(s) by { AllInside(s, rs); }
  }

  lemma AllInside(s: Segment, rs: seq<Stored>)
    requires SegmentModel.Serves(s, rs) && s.size >= 28
    ensures Screened(s)
  {
    hide SegmentModel.Serves;
    forall i | 0 <= i < |s.entries|
      ensures s.entries[i].pos < s.size
    {
      EntryInside(s, rs, i);
    }
  }

  /** A full scan finds any damage, and keeps the records before it. */
  lemma FullFinds(rs: seq<Stored>, k: nat, buf: bytes, lo: nat, hi: nat)
    requires k < |rs| && Hit(rs[k], buf, lo, hi)
    ensures Scan(Replaced(rs, k, buf)) == rs[..k] && |Flatten(rs[..k])| < |Replaced(rs, k, buf)|
  {
    hide Encode, Flatten, Decode, Hit;
    var rest := buf + Flatten(rs[k + 1..]);
    HitSize(rs[k], buf, lo, hi);
    HitIsCorrupt(rs[k], buf, lo, hi, Flatten(rs[k + 1..]));
    ScanFlatten(rs[..k], rest);
    assert Scan(rest) == [];
    assert rs[..k] + [] == rs[..k];
  }

  // ---- When a start marks the partition degraded ----------------------------------------------------

  /** A start of this kind finds something wrong with this segment. */
  predicate FoundBad(cfg: Config, full: bool, d: Files, base: uint64) {
    var log := Content(d, Name(base, Log));
    && Name(base, Sealed) in d
    && if full then |Flatten(Scan(log))| < |log| else QuickResult(Opened(base, cfg.interval, d), log) != Passes
  }

  lemma SameFound(cfg: Config, full: bool, d: Files, d': Files, base: uint64)
    requires AgreeOn(d, d', base)
    ensures FoundBad(cfg, full, d, base) <==> FoundBad(cfg, full, d', base)
  {
    hide QuickResult, Scan, Flatten, Load, ParseMarker;
  }

  lemma BadIsFound(cfg: Config, full: bool, d: Files, base: uint64)
    ensures OpenSealed(cfg, full, d, base).bad <==> FoundBad(cfg, full, d, base)
  {
    hide QuickResult, Scan, Flatten, Rebuilt, Opened, RebuildWrites, SealWrites, Content;
    OpenedBase(base, cfg.interval, d);
  }

  lemma {:induction false} OpenDegraded(cfg: Config, full: bool, d: Files, bases: seq<uint64>)
    requires bases != [] && forall i, j :: 0 <= i < j < |bases| ==> bases[i] < bases[j]
    ensures OpenAll(cfg, full, d, bases).partition.degraded <==>
            exists i :: 0 <= i < |bases| - 1 && FoundBad(cfg, full, d, bases[i])
    decreases |bases|
  {
    hide OpenSealed, OpenActive, OpenNext, ApplyAll, FoundBad;
    if |bases| > 1 {
      var o := OpenSealed(cfg, full, d, bases[0]);
      var d1, rest := ApplyAll(d, o.writes), bases[1..];
      BadIsFound(cfg, full, d, bases[0]);
      OpenDegraded(cfg, full, d1, rest);
      forall i | 0 <= i < |rest|
        ensures FoundBad(cfg, full, d1, rest[i]) <==> FoundBad(cfg, full, d, bases[i + 1])
      {
        OpenedAt(cfg, full, d, bases[0]);
        OthersAgree(d, o.writes, bases[0], Name(rest[i], Log));
        OthersAgree(d, o.writes, bases[0], Name(rest[i], Index));
        OthersAgree(d, o.writes, bases[0], Name(rest[i], Sealed));
        SameFound(cfg, full, d, d1, rest[i]);
      }
      LaterFound(cfg, full, d, d1, bases);
    }
  }

  lemma LaterFound(cfg: Config, full: bool, d: Files, d1: Files, bases: seq<uint64>)
    requires |bases| > 1
    requires forall i :: 0 <= i < |bases[1..]| ==>
               (FoundBad(cfg, full, d1, bases[1..][i]) <==> FoundBad(cfg, full, d, bases[i + 1]))
    ensures (exists i :: 0 <= i < |bases| - 1 && FoundBad(cfg, full, d, bases[i])) <==>
            FoundBad(cfg, full, d, bases[0]) ||
            exists i :: 0 <= i < |bases[1..]| - 1 && FoundBad(cfg, full, d1, bases[1..][i])
  {
    hide FoundBad;
    if i :| 0 <= i < |bases| - 1 && FoundBad(cfg, full, d, bases[i]) {
      if i > 0 {
        assert bases[1..][i - 1] == bases[i - 1 + 1];
      }
    }
    if i :| 0 <= i < |bases[1..]| - 1 && FoundBad(cfg, full, d1, bases[1..][i]) {
      assert FoundBad(cfg, full, d, bases[i + 1]);
    }
  }

  /** For every directory: a start marks the partition degraded exactly if, in some segment but the last that has a
      marker, the full scan does not reach the end of the file, or the quick check does not pass. */
  lemma DegradedExactly(cfg: Config, full: bool, d: Files, bases: seq<uint64>)
    requires ListsLogs(d, bases)
    ensures Recover(cfg, full, d, bases).partition.degraded <==>
            exists i :: 0 <= i < |bases| - 1 && FoundBad(cfg, full, d, bases[i])
  {
    hide FoundBad, OpenAll;
    OpenDegraded(cfg, full, d, if bases == [] then [0] else bases);
  }

  /** The directory with one damaged log file. */
  function Damaged(d: Files, c: Chunk, k: nat, buf: bytes): Files
    requires k < |c.recs|
  {
    d[Name(c.base, Log) := Replaced(c.recs, k, buf)]
  }

  /** One record of a sealed segment is damaged while the broker is down. A full start marks the partition degraded
      exactly if the segment has its marker; a quick start, exactly if moreover the record is the first one or the last
      one of the index. A segment without its marker is cut before the damage, and nothing is marked. */
  lemma DamageDegrades(cfg: Config, full: bool, d: Files, cs: seq<Chunk>, tail: bytes, bases: seq<uint64>,
                       j: nat, k: nat, buf: bytes, lo: nat, hi: nat)
    requires OnDisk(d, cs, tail, cfg.segmentMax) && ListsLogs(d, bases)
    requires j < |cs| - 1 && k < |cs[j].recs| && Hit(cs[j].recs[k], buf, lo, hi)
    ensures Recover(cfg, full, Damaged(d, cs[j], k, buf), bases).partition.degraded <==>
            && Name(cs[j].base, Sealed) in d
            && (full || k == 0 || k == LastIndexed(Opened(cs[j].base, cfg.interval, d)))
  {
    hide OnDisk, ListsLogs, Recover, FoundBad, Hit, Opened, LastIndexed, Replaced;
    var d' := Damaged(d, cs[j], k, buf);
    ListingIsChain(d, cs, tail, cfg.segmentMax, bases);
    assert ListsLogs(d', bases) by { SameListing(d, cs, j, tail, cfg.segmentMax, k, buf, bases); }
    DegradedExactly(cfg, full, d', bases);
    forall i | 0 <= i < |cs| - 1 && i != j
      ensures !FoundBad(cfg, full, d', bases[i])
    {
      OtherSound(cfg, full, d, cs, tail, i, j, k, buf);
    }
    HitFound(cfg, full, d, cs, tail, j, k, buf, lo, hi);
    assert FoundBad(cfg, full, d', bases[j]) ==> exists i :: 0 <= i < |bases| - 1 && FoundBad(cfg, full, d', bases[i]);
  }

  lemma SameListing(d: Files, cs: seq<Chunk>, j: nat, tail: bytes, max: uint32, k: nat, buf: bytes, bases: seq<uint64>)
    requires OnDisk(d, cs, tail, max) && ListsLogs(d, bases) && j < |cs| && k < |cs[j].recs|
    ensures ListsLogs(Damaged(d, cs[j], k, buf), bases)
  {
    hide OnDisk, Replaced;
    ScanChunk(d, cs, j, tail, max);
  }

  lemma OtherSound(cfg: Config, full: bool, d: Files, cs: seq<Chunk>, tail: bytes, i: nat, j: nat, k: nat, buf: bytes)
    requires OnDisk(d, cs, tail, cfg.segmentMax) && i < |cs| - 1 && j < |cs| && i != j && k < |cs[j].recs|
    ensures !FoundBad(cfg, full, Damaged(d, cs[j], k, buf), cs[i].base)
  {
    hide OnDisk, FoundBad, Replaced, OpenSealed, ApplyAll, SegLive;
    OpenSealedGood(cfg, full, d, cs, i, tail);
    BadIsFound(cfg, full, d, cs[i].base);
    assert cs[i].base != cs[j].base by { BasesDiffer(d, cs, tail, cfg.segmentMax, i, j); }
    SameFound(cfg, full, d, Damaged(d, cs[j], k, buf), cs[i].base);
  }

  lemma BasesDiffer(d: Files, cs: seq<Chunk>, tail: bytes, max: uint32, i: nat, j: nat)
    requires OnDisk(d, cs, tail, max) && i < |cs| && j < |cs| && i != j
    ensures cs[i].base != cs[j].base
  {
    hide ChunksOnDisk, NothingElse, Torn, ChunkOk;
    if i < j {
      BasesRise(cs, i, j);
    } else {
      BasesRise(cs, j, i);
    }
  }

  lemma HitFound(cfg: Config, full: bool, d: Files, cs: seq<Chunk>, tail: bytes, j: nat, k: nat, buf: bytes,
                 lo: nat, hi: nat)
    requires OnDisk(d, cs, tail, cfg.segmentMax) && j < |cs| - 1
    requires k < |cs[j].recs| && Hit(cs[j].recs[k], buf, lo, hi)
    ensures FoundBad(cfg, full, Damaged(d, cs[j], k, buf), cs[j].base) <==>
            && Name(cs[j].base, Sealed) in d
            && (full || k == 0 || k == LastIndexed(Opened(cs[j].base, cfg.interval, d)))
  {
    hide OnDisk, Hit, LastIndexed, Replaced, QuickResult, Flatten, Scan, SegmentModel.Serves, Opened, MarkerOnDisk,
         Summarises, SummaryLost;
    var c, d' := cs[j], Damaged(d, cs[j], k, buf);
    if Name(c.base, Sealed) in d {
      if full {
        FullFinds(c.recs, k, buf, lo, hi);
      } else {
        MarkedServes(cfg, d, cs, j, tail);
        MarkerLoads(d, c, cfg.interval);
        ChunkBounds(d, cs, j, tail, cfg.segmentMax);
        ChunkFits(c, cfg.segmentMax);
        QuickFindsExactly(Opened(c.base, cfg.interval, d), c.recs, k, buf, lo, hi);
        SameOpened(cfg, d, c, k, buf, lo, hi);
      }
    }
  }

  /** The damage does not change what opening loads. */
  lemma SameOpened(cfg: Config, d: Files, c: Chunk, k: nat, buf: bytes, lo: nat, hi: nat)
    requires k < |c.recs| && Hit(c.recs[k], buf, lo, hi) && Content(d, Name(c.base, Log)) == Flatten(c.recs)
    ensures Opened(c.base, cfg.interval, Damaged(d, c, k, buf)) == Opened(c.base, cfg.interval, d)
  {
    hide Hit, Replaced, Flatten, Load, ParseMarker;
    HitSize(c.recs[k], buf, lo, hi);
    ReplacedSize(c.recs, k, buf);
  }
}
