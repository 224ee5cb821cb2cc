/** What a start knows of its segments, and what age retention makes of it: record count, last offset and newest
    timestamp of a segment come from a scan or from its marker, and a marker can be cut by a crash. */
module Summaries {
  import opened Bytes
  import opened RecordCodec
  import opened LogFile
  import opened OffsetIndex
  import opened Disk
  import opened SegmentModel
  import opened Layout
  import opened PartitionModel
  import opened AppendSafety
  import opened Recovery
  import opened Retention
  import opened PartitionRuns

  // ---- The two scan modes --------------------------------------------------------------------

  /** The summary is right, unless a quick start finds a cut marker: then it is lost. */
  ghost predicate Known(s: Segment, full: bool, d: Files, c: Chunk) {
    s.base == c.base && if !full && CutMarker(d, c.base) then SummaryLost(s) else Summarises(s, c.recs)
  }

  lemma TracksKnown(s: Segment, rs: seq<Stored>)
    requires Tracks(s, rs)
    ensures Summarises(s, rs) && Summarises(s.(isSealed := true), rs)
  {
    hide Flatten, MaxTimestamp, SegmentModel.Serves;
  }

  lemma OpenSealedKnown(cfg: Config, full: bool, d: Files, cs: seq<Chunk>, j: nat, tail: bytes)
    requires OnDisk(d, cs, tail, cfg.segmentMax) && j < |cs| - 1
    ensures Known(OpenSealed(cfg, full, d, cs[j].base).seg, full, d, cs[j])
  {
    hide OnDisk, Rebuilt, Opened, Tracks, Sound, Scan, QuickCheck, SegmentModel.Serves, MaxTimestamp, MarkerOnDisk,
         Content, RebuildWrites, SealWrites;
    var c := cs[j];
    ScanChunk(d, cs, j, tail, cfg.segmentMax);
    OpenedBase(c.base, cfg.interval, d);
    ChunkBounds(d, cs, j, tail, cfg.segmentMax);
    RebuiltChunk(Opened(c.base, cfg.interval, d), c, cfg.segmentMax);
    TracksKnown(Rebuilt(Opened(c.base, cfg.interval, d), c.recs), c.recs);
    if Name(c.base, Sealed) in d {
      MarkedServes(cfg, d, cs, j, tail);
      MarkerLoads(d, c, cfg.interval);
    }
  }

  lemma OpenActiveKnown(cfg: Config, full: bool, d: Files, cs: seq<Chunk>, tail: bytes)
    requires OnDisk(d, cs, tail, cfg.segmentMax) && cs != []
    ensures Known(OpenActive(cfg, d, Last(cs).base).seg, full, d, Last(cs))
  {
    hide OnDisk, Rebuilt, Opened, Tracks, Sound, Scan, Content, RebuildWrites, Summarises, ChunkOk, Flatten;
    var c := Last(cs);
    ScanChunk(d, cs, |cs| - 1, tail, cfg.segmentMax);
    OpenedBase(c.base, cfg.interval, d);
    ChunkBounds(d, cs, |cs| - 1, tail, cfg.segmentMax);
    RebuiltChunk(Opened(c.base, cfg.interval, d), c, cfg.segmentMax);
    TracksKnown(Rebuilt(Opened(c.base, cfg.interval, d), c.recs), c.recs);
    LastUnsealed(d, cs, tail, cfg.segmentMax);
  }

  /** A start writes a marker where there is none, and leaves every other one as it is, whole or cut. */
  lemma OpenSealedMarker(cfg: Config, full: bool, d: Files, cs: seq<Chunk>, j: nat, tail: bytes)
    requires OnDisk(d, cs, tail, cfg.segmentMax) && j < |cs| - 1
    ensures CutMarker(ApplyAll(d, OpenSealed(cfg, full, d, cs[j].base).writes), cs[j].base) <==>
            CutMarker(d, cs[j].base)
  {
    hide OnDisk, Rebuilt, Opened, Scan, QuickCheck, Content, RebuildWrites, SealWrites, ApplyAll, MarkerBytes,
         MarkerOf, OpenWrites, CrashDisk, Save;
    var c, s := cs[j], Opened(cs[j].base, cfg.interval, d);
    var log := Content(d, Name(c.base, Log));
    OpenedBase(c.base, cfg.interval, d);
    OpenThenRebuild(cfg, d, cs, j, tail, cfg.segmentMax, 0, 0);
    if Name(c.base, Sealed) !in d {
      var a, b := OpenWrites(c.base) + RebuildWrites(s, log), SealWrites(Rebuilt(s, Scan(log)));
      RebuiltBase(s, Scan(log));
      ApplyConcat(d, a, b);
      SealSteps(ApplyAll(d, a), Rebuilt(s, Scan(log)));
    } else if !full {
      OpenFilesHold(d, cs, j, tail, cfg.segmentMax, 0, 0);
    }
  }

  lemma SameMarker(d: Files, d': Files, base: uint64)
    requires Agree(d, d', Name(base, Sealed))
    ensures CutMarker(d, base) <==> CutMarker(d', base)
  {
  }

  lemma BaseOther(d: Files, cs: seq<Chunk>, i: nat, j: nat, tail: bytes, max: uint32)
    requires OnDisk(d, cs, tail, max) && i < j < |cs|
    ensures cs[i].base < cs[j].base
  {
    hide ChunksOnDisk, NothingElse, Torn, ChunkOk;
    BasesRise(cs, i, j);
  }

  /** Recovery of the segments from `i` on, seen at segment `j`. */
  lemma {:induction false} OpenAllKnown(cfg: Config, full: bool, d: Files, cs: seq<Chunk>, i: nat, j: nat, tail: bytes)
    requires OnDisk(d, cs, tail, cfg.segmentMax) && i <= j < |cs|
    ensures var r := OpenAll(cfg, full, d, BasesOf(cs)[i..]);
            && |r.partition.segs| == |cs| - i
            && Known(r.partition.segs[j - i], full, d, cs[j])
            && (CutMarker(ApplyAll(d, r.writes), cs[j].base) <==> CutMarker(d, cs[j].base))
    decreases |cs| - i
  {
    hide OnDisk, ApplyAll, OpenSealed, OpenActive, OpenNext, SummaryLost, Summarises, CutMarker;
    var bases := BasesOf(cs)[i..];
    if i == |cs| - 1 {
      OpenActiveKnown(cfg, full, d, cs, tail);
      NoMarkerStays(cfg, full, d, cs, tail);
    } else {
      var o := OpenSealed(cfg, full, d, cs[i].base);
      var d1 := ApplyAll(d, o.writes);
      assert bases[1..] == BasesOf(cs)[i + 1..];
      var rest := OpenAll(cfg, full, d1, bases[1..]);
      OpenSealedGood(cfg, full, d, cs, i, tail);
      ApplyConcat(d, o.writes, rest.writes);
      OpenAllKnown(cfg, full, d1, cs, i + 1, if i < j then j else i + 1, tail);
      if i == j {
        OpenSealedKnown(cfg, full, d, cs, j, tail);
        OpenSealedMarker(cfg, full, d, cs, j, tail);
        LaterBases(d, cs, j, tail, cfg.segmentMax);
        OpenAllAgrees(cfg, full, d1, bases[1..], Name(cs[j].base, Sealed));
        SameMarker(d1, ApplyAll(d1, rest.writes), cs[j].base);
      } else {
        BaseOther(d, cs, i, j, tail, cfg.segmentMax);
        OpenedAt(cfg, full, d, cs[i].base);
        OthersAgree(d, o.writes, cs[i].base, Name(cs[j].base, Sealed));
        SameMarker(d, d1, cs[j].base);
      }
    }
  }

  lemma NoMarkerStays(cfg: Config, full: bool, d: Files, cs: seq<Chunk>, tail: bytes)
    requires OnDisk(d, cs, tail, cfg.segmentMax) && cs != []
    ensures CutMarker(ApplyAll(d, OpenActive(cfg, d, Last(cs).base).writes), Last(cs).base) <==>
            CutMarker(d, Last(cs).base)
  {
    hide OnDisk, ApplyAll, OpenActive, SegLive, ActiveOk;
    OpenActiveGood(cfg, d, cs, tail);
    LastUnsealed(d, cs, tail, cfg.segmentMax);
    LastUnsealed(ApplyAll(d, OpenActive(cfg, d, Last(cs).base).writes), cs, [], cfg.segmentMax);
  }

  /** From everything a crash can leave, a start knows the summary of every segment, except that a quick start loses
      those whose markers are cut; and it leaves the cut markers cut, so that the next quick start loses them again. */
  lemma RecoverKnown(cfg: Config, full: bool, d: Files, cs: seq<Chunk>, tail: bytes, bases: seq<uint64>, j: nat)
    requires OnDisk(d, cs, tail, cfg.segmentMax) && ListsLogs(d, bases) && j < |cs|
    ensures var r := Recover(cfg, full, d, bases);
            && |r.partition.segs| == |cs|
            && Known(r.partition.segs[j], full, d, cs[j])
            && (CutMarker(ApplyAll(d, r.writes), cs[j].base) <==> CutMarker(d, cs[j].base))
  {
    hide OnDisk, ApplyAll, OpenAll, SummaryLost, Summarises, CutMarker, ListsLogs;
    ListingIsChain(d, cs, tail, cfg.segmentMax, bases);
    assert BasesOf(cs)[0..] == BasesOf(cs);
    OpenAllKnown(cfg, full, d, cs, 0, j, tail);
  }

  predicate SameSummary(a: Segment, b: Segment) {
    a.count == b.count && a.last == b.last && a.maxTimestamp == b.maxTimestamp
  }

  /** The scan modes agree on count, last offset and newest timestamp of a sealed segment exactly if its marker is whole
      or absent. If it is cut, the quick mode has zeros for all three. */
  lemma ModesAgreeExactly(cfg: Config, d: Files, cs: seq<Chunk>, tail: bytes, bases: seq<uint64>, j: nat)
    requires OnDisk(d, cs, tail, cfg.segmentMax) && ListsLogs(d, bases) && j < |cs| - 1
    ensures var quick, full := Recover(cfg, false, d, bases).partition, Recover(cfg, true, d, bases).partition;
            && |quick.segs| == |full.segs| == |cs|
            && (SameSummary(quick.segs[j], full.segs[j]) <==> !CutMarker(d, cs[j].base))
            && (SummaryLost(quick.segs[j]) <==> CutMarker(d, cs[j].base))
            && Summarises(full.segs[j], cs[j].recs)
  {
    hide OnDisk, Recover, ListsLogs, MaxTimestamp, CutMarker, ApplyAll;
    RecoverKnown(cfg, false, d, cs, tail, bases, j);
    RecoverKnown(cfg, true, d, cs, tail, bases, j);
    FullChunk(d, cs, j, tail, cfg.segmentMax);
  }

  /** Every crash within the write of a marker makes them disagree. */
  lemma CutMarkerLeft(cfg: Config, p: Partition, d: Files, cs: seq<Chunk>, k: nat, n: nat, bases: seq<uint64>)
    requires Good(cfg, p, d, cs, k) && Last(cs).recs != [] && p.next < OFFSET_LIMIT && n < 32
    requires ListsLogs(CrashDisk(d, RollWrites(p), 3, n), bases)
    ensures var d' := CrashDisk(d, RollWrites(p), 3, n);
            var quick, full := Recover(cfg, false, d', bases).partition, Recover(cfg, true, d', bases).partition;
            && |quick.segs| == |full.segs| == |cs| + 1
            && SummaryLost(quick.segs[|cs| - 1]) && Summarises(full.segs[|cs| - 1], Last(cs).recs)
  {
    hide OnDisk, SegLive, ActiveOk, Recover, ListsLogs, MaxTimestamp, RollWrites, MarkerBytes, MarkerOf, RollDisk,
         Summarises, SummaryLost;
    RollSteps(p, d);
    RollStart(cfg, p, d, cs, k);
    RollMarker(cfg, p, d, cs, k, n);
    var d', cs' := CrashDisk(d, RollWrites(p), 3, n), cs + [Chunk(p.next, [])];
    assert d' == Apply(RollDisk(p, d, 3), Torn1(RollWrites(p)[3], n)) by { CrashInMarker(p, d, n); }
    assert CutMarker(d', Last(cs).base);
    ModesAgreeExactly(cfg, d', cs', [], bases, |cs| - 1);
  }

  lemma CrashInMarker(p: Partition, d: Files, n: nat)
    requires p.segs != [] && p.next < OFFSET_LIMIT && |RollWrites(p)| == 4 && RollWrites(p)[3].Append?
    ensures CrashDisk(d, RollWrites(p), 3, n) == Apply(RollDisk(p, d, 3), Torn1(RollWrites(p)[3], n))
  {
    hide Apply, ApplyAll, RollWrites, Torn1;
  }

  // ---- Age retention -------------------------------------------------------------------------

  predicate Old(r: Stored, now: int64, ageMs: uint64) {
    now - r.timestamp > ToSigned(ageMs)
  }

  predicate AllOld(rs: seq<Stored>, now: int64, ageMs: uint64) {
    forall i :: 0 <= i < |rs| ==> Old(rs[i], now, ageMs)
  }

  /** The clock was set when at least one of the records was written. */
  predicate Dated(rs: seq<Stored>) {
    exists i :: 0 <= i < |rs| && rs[i].timestamp > 0
  }

  lemma {:induction false} NewestIsMax(rs: seq<Stored>)
    ensures forall i :: 0 <= i < |rs| ==> rs[i].timestamp <= MaxTimestamp(rs)
    ensures MaxTimestamp(rs) > 0 ==> exists i :: 0 <= i < |rs| && rs[i].timestamp == MaxTimestamp(rs)
    ensures MaxTimestamp(rs) >= 0
  {
    if rs != [] {
      var k := |rs| - 1;
      NewestIsMax(rs[..k]);
      forall i | 0 <= i < |rs|
        ensures rs[i].timestamp <= MaxTimestamp(rs)
      {
        if i < k {
          assert rs[i] == rs[..k][i];
        }
      }
      if MaxTimestamp(rs) > 0 && MaxTimestamp(rs) != rs[k].timestamp {
        var i :| 0 <= i < k && rs[..k][i].timestamp == MaxTimestamp(rs[..k]);
        assert rs[i].timestamp == MaxTimestamp(rs);
      }
    }
  }

  /** A segment counts as expired exactly if all its records are too old, one of them is dated, and its summary is not
      lost. */
  lemma ExpiredExactly(s: Segment, d: Files, c: Chunk, now: int64, ageMs: uint64)
    requires SegLive(s, d, c) && c.recs != []
    ensures Expired(s, now, ageMs) <==> !SummaryLost(s) && Dated(c.recs) && AllOld(c.recs, now, ageMs)
    ensures SummaryLost(s) ==> CutMarker(d, c.base)
  {
    hide Flatten, SegmentModel.Serves, MaxTimestamp, ToSigned, CutMarker;
    NewestIsMax(c.recs);
    if Summarises(s, c.recs) && s.maxTimestamp > 0 {
      var i :| 0 <= i < |c.recs| && c.recs[i].timestamp == s.maxTimestamp;
      assert AllOld(c.recs, now, ageMs) ==> Old(c.recs[i], now, ageMs);
    }
  }

  /** What lies in the first `k` segments, as a part of the log. */
  lemma {:induction false} FrontOld(cs: seq<Chunk>, k: nat, log: seq<Stored>, max: uint32, now: int64, ageMs: uint64)
    requires LayoutOk(cs, max) && k < |cs| && Matches(cs, log)
    requires forall i :: 0 <= i < k ==> AllOld(cs[i].recs, now, ageMs)
    ensures cs[0].base <= cs[k].base <= |log| && AllOld(log[cs[0].base..cs[k].base], now, ageMs)
    decreases k
  {
    hide Old, LayoutOk, Matches;
    MatchesIs(cs, log);
    if k > 0 {
      FirstChunk(cs, log, max);
      LayoutSuffix(cs, 1, max);
      MatchesDrop(cs, 1, log, max);
      forall i | 0 <= i < k - 1
        ensures AllOld(cs[1..][i].recs, now, ageMs)
      {
        assert cs[1..][i] == cs[i + 1];
      }
      FrontOld(cs[1..], k - 1, log, max, now, ageMs);
      assert log[cs[0].base..cs[k].base] == log[cs[0].base..cs[1].base] + log[cs[1].base..cs[k].base];
    }
  }

  lemma FirstChunk(cs: seq<Chunk>, log: seq<Stored>, max: uint32)
    requires LayoutOk(cs, max) && |cs| > 1 && Matches(cs, log)
    ensures cs[0].base <= cs[1].base <= |log| && cs[0].recs == log[cs[0].base..cs[1].base] && cs[0].recs != []
  {
    hide Flatten;
    assert Chained(cs) && cs[1].base == cs[0].End();
    assert log[cs[0].base..][..|cs[0].recs|] == cs[0].recs;
  }

  /** The records of the first segment, as a part of the log. */
  function Front(s: State): seq<Stored>
    requires s.phase.Serving? && |s.phase.part.segs| > 1
    requires s.phase.part.segs[0].base <= s.phase.part.segs[1].base <= |s.log|
  {
    s.log[s.phase.part.segs[0].base..s.phase.part.segs[1].base]
  }

  lemma ServesAt(p: Partition, d: Files, cs: seq<Chunk>, log: seq<Stored>, i: nat)
    requires PartitionRuns.Serves(p, d, cs, log) && i < |cs|
    ensures |p.segs| == |cs| && SegLive(p.segs[i], d, cs[i]) && p.segs[i].base == cs[i].base && Matches(cs, log)
  {
    hide Flat, SegmentModel.Serves, Summarises, ActiveOk;
  }

  lemma FullBefore(cs: seq<Chunk>, max: uint32, i: nat)
    requires LayoutOk(cs, max) && i < |cs| - 1
    ensures cs[i].recs != []
  {
  }

  /** What the age rule takes, in a serving partition of any run: only segments all of whose records are too old. */
  lemma AgeCountOld(cfg: Config, run: seq<State>, j: nat, now: int64, ageMs: uint64)
    requires IsRun(cfg, run) && j < |run| && Quiet(run[j])
    ensures var p := run[j].phase.part;
            var k := AgeCount(p.segs, now, ageMs);
            && k < |p.segs|
            && p.segs[0].base <= p.segs[k].base <= |run[j].log|
            && AllOld(run[j].log[p.segs[0].base..p.segs[k].base], now, ageMs)
  {
    hide IsRun, PartitionRuns.Serves, LayoutOk, SegLive, Expired, AllOld, Matches;
    var p, k := run[j].phase.part, AgeCount(run[j].phase.part.segs, now, ageMs);
    var cs := CrashRefinement(cfg, run, j, j);
    AgeCountExact(p.segs, now, ageMs);
    assert cs != [] by { SomeChunk(p, run[j].disk, cs, run[j].log); }
    ServesAt(p, run[j].disk, cs, run[j].log, 0);
    ServesAt(p, run[j].disk, cs, run[j].log, k);
    forall i | 0 <= i < k
      ensures AllOld(cs[i].recs, now, ageMs)
    {
      ServesAt(p, run[j].disk, cs, run[j].log, i);
      FullBefore(cs, cfg.segmentMax, i);
      ExpiredExactly(p.segs[i], run[j].disk, cs[i], now, ageMs);
    }
    FrontOld(cs, k, run[j].log, cfg.segmentMax, now, ageMs);
  }

  lemma SomeChunk(p: Partition, d: Files, cs: seq<Chunk>, log: seq<Stored>)
    requires PartitionRuns.Serves(p, d, cs, log)
    ensures cs != [] && |p.segs| == |cs|
  {
    hide Flat, SegLive, ActiveOk;
  }

  /** Where the first segment ends, in a serving partition of any run. */
  lemma FrontIs(cfg: Config, run: seq<State>, j: nat) returns (c: Chunk)
    requires IsRun(cfg, run) && j < |run| && Quiet(run[j]) && |run[j].phase.part.segs| > 1
    ensures var s := run[j];
            && s.phase.part.segs[0].base < s.phase.part.segs[1].base <= |s.log|
            && SegLive(s.phase.part.segs[0], s.disk, c) && c.recs == Front(s) && c.recs != []
            && c.base == s.phase.part.segs[0].base
  {
    hide IsRun, PartitionRuns.Serves, LayoutOk, SegLive, Matches;
    var p := run[j].phase.part;
    var cs := CrashRefinement(cfg, run, j, j);
    SomeChunk(p, run[j].disk, cs, run[j].log);
    ServesAt(p, run[j].disk, cs, run[j].log, 0);
    ServesAt(p, run[j].disk, cs, run[j].log, 1);
    FirstChunk(cs, run[j].log, cfg.segmentMax);
    c := cs[0];
  }

  /** Over every run, a retention pass by age alone drops only records older than the limit; and it drops anything
      exactly if there are two segments, all records of the first are older than the limit, one of them is dated, and
      the summary of that segment is not lost, which it can only be to a cut marker. */
  lemma AgePassExactly(cfg: Config, run: seq<State>, j: nat, now: int64, ageMs: uint64)
    requires IsRun(cfg, run) && j + 1 < |run| && Retain(run[j], run[j + 1], now, ageMs, 0) && ageMs > 0
    ensures var s, first, after := run[j], Earliest(run[j].phase.part), Earliest(run[j + 1].phase.part);
            && first <= after <= |s.log| && AllOld(s.log[first..after], now, ageMs)
            && (first < after <==> && |s.phase.part.segs| > 1
                                   && s.phase.part.segs[0].base <= s.phase.part.segs[1].base <= |s.log|
                                   && AllOld(Front(s), now, ageMs) && Dated(Front(s))
                                   && !SummaryLost(s.phase.part.segs[0]))
            && (|s.phase.part.segs| > 1 && SummaryLost(s.phase.part.segs[0]) ==> CutMarker(s.disk, first))
  {
    hide IsRun, Expired, AllOld, SegLive, Dated, SummaryLost, CutMarker, Front;
    var p, k := run[j].phase.part, AgeCount(run[j].phase.part.segs, now, ageMs);
    AgeCountOld(cfg, run, j, now, ageMs);
    assert run[j + 1].phase.part == Dropped(p, k);
    if |p.segs| > 1 {
      var c := FrontIs(cfg, run, j);
      ExpiredExactly(p.segs[0], run[j].disk, c, now, ageMs);
      RisesWith(cfg, run, j, k);
    }
  }

  lemma RisesWith(cfg: Config, run: seq<State>, j: nat, k: nat)
    requires IsRun(cfg, run) && j < |run| && Quiet(run[j]) && k < |run[j].phase.part.segs|
    ensures run[j].phase.part.segs[0].base < run[j].phase.part.segs[k].base <==> k > 0
  {
    hide IsRun, PartitionRuns.Serves, LayoutOk, SegLive, Matches;
    var p := run[j].phase.part;
    var cs := CrashRefinement(cfg, run, j, j);
    SomeChunk(p, run[j].disk, cs, run[j].log);
    ServesAt(p, run[j].disk, cs, run[j].log, 0);
    ServesAt(p, run[j].disk, cs, run[j].log, k);
    if k > 0 {
      LayoutRises(cs, cfg.segmentMax, k);
    }
  }

  lemma LayoutRises(cs: seq<Chunk>, max: uint32, k: nat)
    requires LayoutOk(cs, max) && 0 < k < |cs|
    ensures cs[0].base < cs[k].base
  {
    hide ChunkOk;
    BasesRise(cs, 0, k);
  }
}
