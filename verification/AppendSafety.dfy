/** Appends, rolls and batches, cut by a crash at any write, leave a recoverable directory. */
module AppendSafety {
  import opened Bytes
  import opened RecordCodec
  import opened LogFile
  import opened OffsetIndex
  import opened Disk
  import opened SegmentModel
  import opened Layout
  import opened PartitionModel
  import Crc32

  // ---- Rolling -----------------------------------------------------------------------------

  lemma MarkerIsTrue(s: Segment, c: Chunk)
    requires s.base == c.base && Tracks(s, c.recs) && c.recs != [] && c.End() < OFFSET_LIMIT
    ensures MarkerOf(s) == MarkerFor(c)
  {
    hide Flatten, Sound, Crc32.Feed;
  }

  lemma IndexFileSound(s: Segment, d: Files, c: Chunk)
    requires ActiveOk(s, d, c)
    ensures Sound(Load(Content(d, Name(c.base, Index))), c.recs)
  {
    hide Flatten, Sound, Crc32.Feed, Load, Save;
    LoadSaved(s.entries);
  }

  /** The directory after the first `i` of the four writes of a roll. */
  function RollDisk(p: Partition, d: Files, i: nat): Files
    requires p.segs != [] && p.next < OFFSET_LIMIT && i <= 4
  {
    After(d, RollWrites(p), i)
  }

  lemma RollSteps(p: Partition, d: Files)
    requires p.segs != [] && p.next < OFFSET_LIMIT
    ensures |RollWrites(p)| == 4
    ensures RollDisk(p, d, 0) == d && RollDisk(p, d, 4) == ApplyAll(d, RollWrites(p))
    ensures RollDisk(p, d, 1) == Apply(d, Create(Name(p.next, Log)))
    ensures RollDisk(p, d, 2) == Apply(RollDisk(p, d, 1), Create(Name(p.next, Index)))
    ensures RollDisk(p, d, 3) == Apply(RollDisk(p, d, 2), Create(Name(Active(p).base, Sealed)))
    ensures RollDisk(p, d, 4) == Apply(RollDisk(p, d, 3), RollWrites(p)[3])
    ensures RollWrites(p)[3] == Append(Name(Active(p).base, Sealed), MarkerBytes(MarkerOf(Active(p))))
  {
    hide Apply, ApplyAll, After, MarkerBytes, MarkerOf;
    var ws := RollWrites(p);
    AfterNone(d, ws);
    AfterStep(d, ws, 0);
    AfterStep(d, ws, 1);
    AfterStep(d, ws, 2);
    AfterStep(d, ws, 3);
  }

  lemma RollStart(cfg: Config, p: Partition, d: Files, cs: seq<Chunk>, k: nat)
    requires Good(cfg, p, d, cs, k) && Last(cs).recs != [] && p.next < OFFSET_LIMIT
    ensures var cs' := cs + [Chunk(p.next, [])];
            && p.next == Last(cs).End() && Active(p).base == Last(cs).base
            && OnDisk(RollDisk(p, d, 1), cs', [], cfg.segmentMax)
            && OnDisk(RollDisk(p, d, 2), cs', [], cfg.segmentMax)
            && Agree(d, RollDisk(p, d, 2), Name(Last(cs).base, Index))
            && Name(Last(cs).base, Sealed) !in RollDisk(p, d, 2)
  {
    hide Apply, OnDisk, SegLive, ActiveOk, MarkerBytes, MarkerOf, Flatten, RollDisk;
    RollSteps(p, d);
    assert Last(cs[k..]) == Last(cs);
    assert Active(p).base == Last(cs).base by { ActiveBase(Active(p), d, Last(cs)); }
    var cs' := cs + [Chunk(p.next, [])];
    var d1, d2 := RollDisk(p, d, 1), RollDisk(p, d, 2);
    NextLogCreated(d, cs, cfg.segmentMax);
    LastIndexWrite(d1, cs', Create(Name(p.next, Index)), [], cfg.segmentMax);
    WriteFrame(d, Create(Name(p.next, Log)), Name(Last(cs).base, Index));
    WriteFrame(d1, Create(Name(p.next, Index)), Name(Last(cs).base, Index));
    NoMarkerYet(d, cs, cfg.segmentMax);
    WriteFrame(d, Create(Name(p.next, Log)), Name(Last(cs).base, Sealed));
    WriteFrame(d1, Create(Name(p.next, Index)), Name(Last(cs).base, Sealed));
  }

  lemma ActiveBase(s: Segment, d: Files, c: Chunk)
    requires ActiveOk(s, d, c)
    ensures s.base == c.base
  {
  }

  lemma NoMarkerYet(d: Files, cs: seq<Chunk>, max: uint32)
    requires OnDisk(d, cs, [], max) && cs != []
    ensures Name(Last(cs).base, Sealed) !in d
  {
    hide Flatten, MarkerOnDisk, LayoutOk, NothingElse;
  }

  /** A torn or whole marker beside the sealed segment. */
  lemma RollMarker(cfg: Config, p: Partition, d: Files, cs: seq<Chunk>, k: nat, n: nat)
    requires Good(cfg, p, d, cs, k) && Last(cs).recs != [] && p.next < OFFSET_LIMIT
    ensures var cs' := cs + [Chunk(p.next, [])];
            && OnDisk(RollDisk(p, d, 3), cs', [], cfg.segmentMax)
            && OnDisk(Apply(RollDisk(p, d, 3), Torn1(RollWrites(p)[3], n)), cs', [], cfg.segmentMax)
  {
    hide OnDisk, SegLive, ActiveOk, MarkerBytes, Flatten, Sound, Load, MarkerFor, MarkerOf, Tracks, RollDisk,
         RollWrites;
    RollSteps(p, d);
    RollStart(cfg, p, d, cs, k);
    assert Last(cs[k..]) == Last(cs);
    var c, cs', d2, d3 := Last(cs), cs + [Chunk(p.next, [])], RollDisk(p, d, 2), RollDisk(p, d, 3);
    IndexFileSound(Active(p), d, c);
    assert Content(d2, Name(c.base, Index)) == Content(d, Name(c.base, Index));
    MarkerWritten(d2, cs', |cs| - 1, Create(Name(c.base, Sealed)), [], cfg.segmentMax);
    assert Content(d3, Name(c.base, Sealed)) == [];
    assert Content(d3, Name(c.base, Index)) == Content(d, Name(c.base, Index));
    assert MarkerOf(Active(p)) == MarkerFor(c) by { ActiveMarker(Active(p), d, c); }
    MarkerWritten(d3, cs', |cs| - 1, Torn1(RollWrites(p)[3], n), [], cfg.segmentMax);
  }

  lemma ActiveMarker(s: Segment, d: Files, c: Chunk)
    requires ActiveOk(s, d, c) && c.recs != [] && c.End() < OFFSET_LIMIT
    ensures MarkerOf(s) == MarkerFor(c)
  {
    hide Tracks, MarkerOf, MarkerFor;
    MarkerIsTrue(s, c);
  }

  /** A roll cut anywhere: the same records, in one more segment or not yet. */
  lemma RollCrash(cfg: Config, p: Partition, d: Files, cs: seq<Chunk>, k: nat, i: nat, n: nat)
    requires Good(cfg, p, d, cs, k) && Last(cs).recs != [] && p.next < OFFSET_LIMIT && i <= 4
    ensures Survives(CrashDisk(d, RollWrites(p), i, n), cs, [], cfg.segmentMax)
    ensures OnDisk(ApplyAll(d, RollWrites(p)), cs + [Chunk(p.next, [])], [], cfg.segmentMax)
  {
    hide OnDisk, SegLive, ActiveOk, Apply, ApplyAll, After, Torn1, MarkerBytes, MarkerOf, Extends;
    RollSteps(p, d);
    RollStart(cfg, p, d, cs, k);
    RollMarker(cfg, p, d, cs, k, n);
    RollMarker(cfg, p, d, cs, k, 32);
    WholeMarker(p, d);
    ExtendsSelf(cs);
    ExtendsRoll(cs);
    var d' := CrashDisk(d, RollWrites(p), i, n);
    if i == 0 {
      assert SurvivesAs(d', cs, [], cfg.segmentMax, cs, [], 0);
    } else {
      assert SurvivesAs(d', cs, [], cfg.segmentMax, cs + [Chunk(p.next, [])], [], 0);
    }
  }

  lemma WholeMarker(p: Partition, d: Files)
    requires p.segs != [] && p.next < OFFSET_LIMIT
    ensures RollDisk(p, d, 4) == Apply(RollDisk(p, d, 3), Torn1(RollWrites(p)[3], 32))
  {
    hide MarkerBytes, Apply, RollDisk, RollWrites;
    RollSteps(p, d);
    var b := MarkerBytes(MarkerOf(Active(p)));
    assert b[..32] == b;
  }

  lemma LiveFrame(p: Partition, d: Files, d': Files, cs: seq<Chunk>)
    requires Live(p, d, cs)
    requires forall i :: 0 <= i < |cs| ==>
               Agree(d, d', Name(cs[i].base, Log)) && Agree(d, d', Name(cs[i].base, Sealed))
    requires Agree(d, d', Name(Last(cs).base, Index))
    ensures Live(p, d', cs)
  {
    hide Flatten, Sound, Save, Tracks, Serves, Summarises;
  }

  lemma FreshTracks(base: uint64, interval: uint32)
    ensures Tracks(Fresh(base, interval), [])
  {
    NothingFlat();
    NothingFed();
    hide Flatten, Crc32.Feed;
  }

  lemma SealedStillLive(s: Segment, d: Files, c: Chunk)
    requires SegLive(s, d, c)
    ensures SegLive(s.(isSealed := true), d, c)
  {
    hide Flatten, Sound, MaxTimestamp;
  }

  lemma NewSegLive(d: Files, base: uint64, interval: uint32)
    requires Name(base, Log) in d && d[Name(base, Log)] == []
    requires Name(base, Index) in d && d[Name(base, Index)] == []
    ensures SegLive(Fresh(base, interval), d, Chunk(base, []))
    ensures ActiveOk(Fresh(base, interval), d, Chunk(base, []))
  {
    FreshTracks(base, interval);
    NothingFlat();
    hide Flatten, Sound;
  }

  lemma RollAgree(p: Partition, d: Files, n: Name)
    requires p.segs != [] && p.next < OFFSET_LIMIT
    requires n.base != p.next && n != Name(Active(p).base, Sealed)
    ensures Agree(d, ApplyAll(d, RollWrites(p)), n)
  {
    hide MarkerBytes, Apply, MarkerOf, RollDisk;
    RollSteps(p, d);
    WriteFrame(d, Create(Name(p.next, Log)), n);
    WriteFrame(RollDisk(p, d, 1), Create(Name(p.next, Index)), n);
    WriteFrame(RollDisk(p, d, 2), Create(Name(Active(p).base, Sealed)), n);
    WriteFrame(RollDisk(p, d, 3), RollWrites(p)[3], n);
  }

  lemma RollFiles(p: Partition, d: Files)
    requires p.segs != [] && p.next < OFFSET_LIMIT && Active(p).base != p.next
    requires Name(p.next, Log) !in d && Name(p.next, Index) !in d
    ensures var d' := ApplyAll(d, RollWrites(p));
            && Name(p.next, Log) in d' && d'[Name(p.next, Log)] == []
            && Name(p.next, Index) in d' && d'[Name(p.next, Index)] == []
  {
    hide MarkerBytes, MarkerOf, RollDisk, RollWrites;
    RollSteps(p, d);
  }

  lemma BeyondLast(d: Files, cs: seq<Chunk>, max: uint32, n: Name)
    requires OnDisk(d, cs, [], max) && cs != [] && n.base > Last(cs).base
    ensures n !in d
  {
    hide ChunksOnDisk, LayoutOk, Torn;
  }

  /** After a roll, memory and directory agree again. */
  lemma RollGood(cfg: Config, p: Partition, d: Files, cs: seq<Chunk>, k: nat)
    requires Good(cfg, p, d, cs, k) && Last(cs).recs != [] && p.next < OFFSET_LIMIT
    ensures Good(cfg, Rolled(cfg, p), ApplyAll(d, RollWrites(p)), cs + [Chunk(p.next, [])], k)
  {
    hide OnDisk, SegLive, ActiveOk, RollWrites, ApplyAll;
    RollCrash(cfg, p, d, cs, k, 4, 0);
    assert Last(cs[k..]) == Last(cs);
    ActiveBase(Active(p), d, Last(cs));
    var d', q, live := ApplyAll(d, RollWrites(p)), Rolled(cfg, p), cs[k..] + [Chunk(p.next, [])];
    BeyondLast(d, cs, cfg.segmentMax, Name(p.next, Log));
    BeyondLast(d, cs, cfg.segmentMax, Name(p.next, Index));
    RollFiles(p, d);
    NewSegLive(d', p.next, cfg.interval);
    assert (cs + [Chunk(p.next, [])])[k..] == live;
    forall i | 0 <= i < |live|
      ensures SegLive(q.segs[i], d', live[i])
    {
      if i < |cs[k..]| {
        ChainBelow(cs, k + i, cfg.segmentMax, d);
        RollAgree(p, d, Name(live[i].base, Log));
        if i < |cs[k..]| - 1 {
          ChainOrder(cs, k + i, cfg.segmentMax, d);
          RollAgree(p, d, Name(live[i].base, Sealed));
          SegFrame(p.segs[i], d, d', live[i]);
        } else {
          ActiveTracks(p.segs[i], d, live[i]);
          TrackedFrame(p.segs[i], d, d', live[i]);
        }
        SealedStillLive(p.segs[i], d', live[i]);
      }
    }
  }

  lemma ChainBelow(cs: seq<Chunk>, i: nat, max: uint32, d: Files)
    requires OnDisk(d, cs, [], max) && i < |cs|
    ensures cs[i].base <= Last(cs).base
  {
    hide ChunksOnDisk, NothingElse, Torn;
    if i < |cs| - 1 {
      BasesRise(cs, i, |cs| - 1);
    }
  }

  lemma SegFrame(s: Segment, d: Files, d': Files, c: Chunk)
    requires SegLive(s, d, c) && Agree(d, d', Name(c.base, Log)) && Agree(d, d', Name(c.base, Sealed))
    ensures SegLive(s, d', c)
  {
    hide Flatten, Serves, Summarises;
  }

  lemma TrackedFrame(s: Segment, d: Files, d': Files, c: Chunk)
    requires SegLive(s, d, c) && Tracks(s, c.recs) && Agree(d, d', Name(c.base, Log))
    ensures SegLive(s, d', c)
  {
    hide Flatten, Serves, Summarises;
  }

  // ---- Appending one record ----------------------------------------------------------------

  /** The active chunk with one more record is still within bounds. */
  lemma RoomForOne(cfg: Config, p: Partition, d: Files, cs: seq<Chunk>, k: nat, r: Stored)
    requires Good(cfg, p, d, cs, k) && r.offset == p.next && p.next + 1 < OFFSET_LIMIT
    requires !RollDue(cfg, p, r.Size())
    ensures ChunkOk(Chunk(Last(cs).base, Last(cs).recs + [r]), cfg.segmentMax)
    ensures |Flatten(Last(cs).recs)| + r.Size() < U32_SIZE
  {
    hide ChunksOnDisk, NothingElse, Torn, SegLive, Flatten, Encode, Sound, Crc32.Feed;
    assert Last(cs[k..]) == Last(cs);
    var c := Last(cs);
    assert ChunkOk(c, cfg.segmentMax);
    FlattenSnoc(c.recs, r);
    FewRecords(c.recs);
    assert Active(p).size == |Flatten(c.recs)|;
    if c.recs == [] {
      NothingFlat();
    }
  }

  lemma AppendIndexGood(s: Segment, d: Files, c: Chunk, r: Stored)
    requires ActiveOk(s, d, c) && r.offset == c.base + |c.recs|
    requires |Flatten(c.recs)| + r.Size() < U32_SIZE
    ensures ActiveOk(Appended(s, r), ApplyAll(d, AppendWrites(s, r)), Chunk(c.base, c.recs + [r]))
  {
    hide Flatten, Sound, Crc32.Feed, Encode, Save, SaveEntry, Tracks, ApplyAll, AppendWrites;
    AppendTracks(s, c.recs, r);
    SaveSnoc(s.entries, EntryFor(s, r));
    AppendDisk(s, d, r);
  }

  lemma AppendCrashDisk(s: Segment, d: Files, r: Stored, i: nat, n: nat)
    requires i <= |AppendWrites(s, r)|
    ensures var d1 := Apply(d, Append(s.LogName(), Encode(r)));
            CrashDisk(d, AppendWrites(s, r), i, n) ==
            if i == 0 then Apply(d, Append(s.LogName(), Encode(r)[..if n <= r.Size() then n else r.Size()]))
            else if i == 1 && IndexDue(s) then Apply(d1, Torn1(Append(s.IndexName(), SaveEntry(EntryFor(s, r))), n))
            else ApplyAll(d, AppendWrites(s, r))
  {
    hide Apply, ApplyAll, After, Encode, SaveEntry;
    AppendDisk(s, d, r);
    AfterNone(d, AppendWrites(s, r));
    AfterStep(d, AppendWrites(s, r), 0);
  }

  /** An append cut anywhere: all earlier records, and the new one or a torn part of it. */
  lemma AppendCrash(cfg: Config, p: Partition, d: Files, cs: seq<Chunk>, k: nat, r: Stored, i: nat, n: nat)
    requires Good(cfg, p, d, cs, k) && r.offset == p.next && p.next + 1 < OFFSET_LIMIT
    requires !RollDue(cfg, p, r.Size()) && i <= |AppendWrites(Active(p), r)|
    ensures Survives(CrashDisk(d, AppendWrites(Active(p), r), i, n), cs, [r], cfg.segmentMax)
    ensures OnDisk(ApplyAll(d, AppendWrites(Active(p), r)), Grow(cs, r), [], cfg.segmentMax)
  {
    hide OnDisk, SegLive, ActiveOk, Encode, SaveEntry, Apply, ApplyAll, CrashDisk, ChunkOk, Flatten, AppendWrites,
         RollDue;
    assert Last(cs[k..]) == Last(cs);
    ActiveBase(Active(p), d, Last(cs));
    RoomForOne(cfg, p, d, cs, k, r);
    var s, max, g := Active(p), cfg.segmentMax, Grow(cs, r);
    var d1, d' := Apply(d, Append(s.LogName(), Encode(r))), CrashDisk(d, AppendWrites(s, r), i, n);
    LogWriteWhole(d, cs, r, max);
    AppendDisk(s, d, r);
    AppendCrashDisk(s, d, r, i, n);
    ExtendsSelf(cs);
    ExtendsGrow(cs, r);
    if IndexDue(s) {
      LastIndexWrite(d1, g, Append(s.IndexName(), SaveEntry(EntryFor(s, r))), [], max);
      LastIndexWrite(d1, g, Torn1(Append(s.IndexName(), SaveEntry(EntryFor(s, r))), n), [], max);
    }
    if i == 0 && n < r.Size() {
      LogWriteTorn(d, cs, r, n, max);
      assert SurvivesAs(d', cs, [r], max, cs, Encode(r)[..n], 0);
    } else {
      assert Encode(r)[..r.Size()] == Encode(r);
      assert [r][..1] == [r];
      assert SurvivesAs(d', cs, [r], max, g, [], 1);
    }
  }

  lemma AppendAgree(s: Segment, d: Files, r: Stored, n: Name)
    requires n.base != s.base
    ensures Agree(d, ApplyAll(d, AppendWrites(s, r)), n)
  {
    hide Apply, Encode, SaveEntry;
    AppendDisk(s, d, r);
    var ws := AppendWrites(s, r);
    WriteFrame(d, ws[0], n);
    if IndexDue(s) {
      WriteFrame(Apply(d, ws[0]), ws[1], n);
    }
  }

  lemma AppendLogFile(s: Segment, d: Files, c: Chunk, r: Stored)
    requires SegLive(s, d, c)
    ensures var d' := ApplyAll(d, AppendWrites(s, r));
            s.LogName() in d' && d'[s.LogName()] == Flatten(c.recs + [r])
  {
    hide Encode, SaveEntry, Flatten, Serves;
    AppendDisk(s, d, r);
    FlattenSnoc(c.recs, r);
  }

  lemma TrackedLive(s: Segment, d: Files, c: Chunk)
    requires s.base == c.base && Tracks(s, c.recs) && Name(c.base, Log) in d && d[Name(c.base, Log)] == Flatten(c.recs)
    ensures SegLive(s, d, c)
  {
    hide Flatten, Sound;
  }

  lemma ActiveTracks(s: Segment, d: Files, c: Chunk)
    requires ActiveOk(s, d, c)
    ensures Tracks(s, c.recs) && s.base == c.base
  {
  }

  /** After an append, memory and directory agree again. */
  lemma AppendGood(cfg: Config, p: Partition, d: Files, cs: seq<Chunk>, k: nat, r: Stored)
    requires Good(cfg, p, d, cs, k) && r.offset == p.next && p.next + 1 < OFFSET_LIMIT
    requires !RollDue(cfg, p, r.Size())
    ensures Good(cfg, Put(p, r), ApplyAll(d, AppendWrites(Active(p), r)), Grow(cs, r), k)
  {
    hide OnDisk, SegLive, ActiveOk, AppendWrites, ApplyAll, RollDue, Appended, Flatten, Tracks;
    AppendCrash(cfg, p, d, cs, k, r, 0, 0);
    RoomForOne(cfg, p, d, cs, k, r);
    assert Last(cs[k..]) == Last(cs);
    var s, c := Active(p), Last(cs);
    var d', q, c', live := ApplyAll(d, AppendWrites(s, r)), Put(p, r), Chunk(c.base, c.recs + [r]), Grow(cs[k..], r);
    assert Grow(cs, r)[k..] == live;
    ActiveTracks(s, d, c);
    AppendIndexGood(s, d, c, r);
    ActiveTracks(Appended(s, r), d', c');
    forall i | 0 <= i < |live|
      ensures SegLive(q.segs[i], d', live[i])
    {
      assert SegLive(p.segs[i], d, cs[k..][i]);
      if i < |live| - 1 {
        ChainOrder(cs, k + i, cfg.segmentMax, d);
        AppendAgree(s, d, r, Name(live[i].base, Log));
        AppendAgree(s, d, r, Name(live[i].base, Sealed));
        SegFrame(p.segs[i], d, d', live[i]);
      } else {
        AppendLogFile(s, d, c, r);
        TrackedLive(Appended(s, r), d', c');
      }
    }
  }

  lemma ChainOrder(cs: seq<Chunk>, i: nat, max: uint32, d: Files)
    requires OnDisk(d, cs, [], max) && i < |cs| - 1
    ensures cs[i].base < Last(cs).base
  {
    hide ChunksOnDisk, NothingElse, Torn;
    BasesRise(cs, i, |cs| - 1);
  }

  // ---- Rolling if needed, then appending ---------------------------------------------------

  /** The chain after one more record. */
  function OneChunks(cfg: Config, p: Partition, cs: seq<Chunk>, r: Stored): seq<Chunk>
    requires p.segs != [] && p.next < OFFSET_LIMIT && cs != []
  {
    if RollDue(cfg, p, r.Size()) then Grow(cs + [Chunk(p.next, [])], r) else Grow(cs, r)
  }

  lemma RollOnlyFull(cfg: Config, p: Partition, d: Files, cs: seq<Chunk>, k: nat, size: nat)
    requires Good(cfg, p, d, cs, k) && RollDue(cfg, p, size)
    ensures Last(cs).recs != []
  {
    hide OnDisk, SegLive, Flatten, Sound, Crc32.Feed;
    assert Last(cs[k..]) == Last(cs);
    NothingFlat();
  }

  /** One record appended: memory and directory agree on a chain that is longer by exactly that record. */
  lemma OneGood(cfg: Config, p: Partition, d: Files, cs: seq<Chunk>, k: nat, r: Stored)
    requires Good(cfg, p, d, cs, k) && r.offset == p.next && p.next + 1 < OFFSET_LIMIT
    ensures Good(cfg, One(cfg, p, r), ApplyAll(d, OneWrites(cfg, p, r)), OneChunks(cfg, p, cs, r), k)
    ensures Extends(OneChunks(cfg, p, cs, r), cs, [r])
  {
    hide Good, OnDisk, ApplyAll, RollWrites, AppendWrites, Extends, Appended, Flat;
    GoodShape(cfg, p, d, cs, k);
    if RollDue(cfg, p, r.Size()) {
      var q, cs1 := Rolled(cfg, p), cs + [Chunk(p.next, [])];
      RollOnlyFull(cfg, p, d, cs, k, r.Size());
      RollGood(cfg, p, d, cs, k);
      ApplyConcat(d, RollWrites(p), AppendWrites(Active(q), r));
      AppendGood(cfg, q, ApplyAll(d, RollWrites(p)), cs1, k, r);
      ExtendsRoll(cs);
      ExtendsGrow(cs1, r);
      ExtendsTrans(cs, cs1, Grow(cs1, r), [], [r]);
      assert [] + [r] == [r];
    } else {
      assert OneWrites(cfg, p, r) == AppendWrites(Active(p), r);
      AppendGood(cfg, p, d, cs, k, r);
      ExtendsGrow(cs, r);
    }
  }

  lemma GoodShape(cfg: Config, p: Partition, d: Files, cs: seq<Chunk>, k: nat)
    requires Good(cfg, p, d, cs, k)
    ensures k < |cs| && |p.segs| == |cs| - k && p.next == Last(cs).End() && !p.degraded
    ensures OnDisk(d, cs, [], cfg.segmentMax)
  {
    hide OnDisk, SegLive, ActiveOk;
    assert Last(cs[k..]) == Last(cs);
  }

  lemma SurvivesMore(d: Files, cs: seq<Chunk>, rs: seq<Stored>, more: seq<Stored>, max: uint32)
    requires Survives(d, cs, rs, max)
    ensures Survives(d, cs, rs + more, max)
  {
    hide OnDisk, Extends;
    var cs', tail, m: nat :| SurvivesAs(d, cs, rs, max, cs', tail, m);
    assert (rs + more)[..m] == rs[..m];
    assert SurvivesAs(d, cs, rs + more, max, cs', tail, m);
  }

  lemma SurvivesAfter(d: Files, cs: seq<Chunk>, cs1: seq<Chunk>, rs: seq<Stored>, rs1: seq<Stored>, max: uint32)
    requires cs != [] && Extends(cs1, cs, rs) && Survives(d, cs1, rs1, max)
    ensures Survives(d, cs, rs + rs1, max)
  {
    hide OnDisk, Extends;
    var cs', tail, m: nat :| SurvivesAs(d, cs1, rs1, max, cs', tail, m);
    ExtendsTrans(cs, cs1, cs', rs, rs1[..m]);
    assert (rs + rs1)[..|rs| + m] == rs + rs1[..m];
    assert SurvivesAs(d, cs, rs + rs1, max, cs', tail, |rs| + m);
  }

  lemma CrashInFirst(d: Files, a: seq<Write>, b: seq<Write>, i: nat, n: nat,
                     cs: seq<Chunk>, rs: seq<Stored>, more: seq<Stored>, max: uint32)
    requires i < |a| && Survives(CrashDisk(d, a, i, n), cs, rs, max)
    ensures Survives(CrashDisk(d, a + b, i, n), cs, rs + more, max)
  {
    hide CrashDisk, Survives;
    CrashConcat(d, a, b, i, n);
    SurvivesMore(CrashDisk(d, a, i, n), cs, rs, more, max);
  }

  lemma CrashInSecond(d: Files, a: seq<Write>, b: seq<Write>, i: nat, n: nat,
                      cs: seq<Chunk>, cs1: seq<Chunk>, rs: seq<Stored>, rs1: seq<Stored>, max: uint32)
    requires |a| <= i <= |a| + |b| && cs != [] && Extends(cs1, cs, rs)
    requires Survives(CrashDisk(ApplyAll(d, a), b, i - |a|, n), cs1, rs1, max)
    ensures Survives(CrashDisk(d, a + b, i, n), cs, rs + rs1, max)
  {
    hide CrashDisk, Survives, Extends, ApplyAll;
    CrashConcat(d, a, b, i, n);
    SurvivesAfter(CrashDisk(ApplyAll(d, a), b, i - |a|, n), cs, cs1, rs, rs1, max);
  }

  lemma RollCrashBefore(cfg: Config, p: Partition, d: Files, cs: seq<Chunk>, k: nat, b: seq<Write>, r: Stored, i: nat,
                        n: nat)
    requires Good(cfg, p, d, cs, k) && p.next < OFFSET_LIMIT && Last(cs).recs != [] && |p.segs| > 0 && i < 4
    requires |RollWrites(p)| == 4
    ensures Survives(CrashDisk(d, RollWrites(p) + b, i, n), cs, [r], cfg.segmentMax)
  {
    hide Good, OnDisk, RollWrites, CrashDisk, Survives;
    RollCrash(cfg, p, d, cs, k, i, n);
    CrashInFirst(d, RollWrites(p), b, i, n, cs, [], [r], cfg.segmentMax);
    assert [] + [r] == [r];
  }

  lemma RollCrashAfter(cfg: Config, p: Partition, d: Files, cs: seq<Chunk>, k: nat, r: Stored, i: nat, n: nat)
    requires Good(cfg, p, d, cs, k) && r.offset == p.next && p.next + 1 < OFFSET_LIMIT && Last(cs).recs != []
    requires |p.segs| > 0 && i <= |AppendWrites(Active(Rolled(cfg, p)), r)| && |RollWrites(p)| == 4
    ensures Survives(CrashDisk(d, RollWrites(p) + AppendWrites(Active(Rolled(cfg, p)), r), 4 + i, n), cs, [r],
                     cfg.segmentMax)
  {
    hide Good, OnDisk, ApplyAll, AppendWrites, RollWrites, Extends, CrashDisk, Survives;
    GoodShape(cfg, p, d, cs, k);
    var q, cs1 := Rolled(cfg, p), cs + [Chunk(p.next, [])];
    RollGood(cfg, p, d, cs, k);
    AppendCrash(cfg, q, ApplyAll(d, RollWrites(p)), cs1, k, r, i, n);
    ExtendsRoll(cs);
    CrashInSecond(d, RollWrites(p), AppendWrites(Active(q), r), 4 + i, n, cs, cs1, [], [r], cfg.segmentMax);
    assert [] + [r] == [r];
  }

  /** One append, roll included, cut anywhere. */
  lemma OneCrash(cfg: Config, p: Partition, d: Files, cs: seq<Chunk>, k: nat, r: Stored, i: nat, n: nat)
    requires Good(cfg, p, d, cs, k) && r.offset == p.next && p.next + 1 < OFFSET_LIMIT
    requires |p.segs| > 0 && i <= |OneWrites(cfg, p, r)|
    ensures Survives(CrashDisk(d, OneWrites(cfg, p, r), i, n), cs, [r], cfg.segmentMax)
  {
    hide Good, OnDisk, ApplyAll, AppendWrites, RollWrites, RollDue, CrashDisk, Survives, MarkerBytes, MarkerOf;
    GoodShape(cfg, p, d, cs, k);
    if RollDue(cfg, p, r.Size()) {
      RollSteps(p, d);
      RollOnlyFull(cfg, p, d, cs, k, r.Size());
      if i < 4 {
        RollCrashBefore(cfg, p, d, cs, k, AppendWrites(Active(Rolled(cfg, p)), r), r, i, n);
      } else {
        RollCrashAfter(cfg, p, d, cs, k, r, i - 4, n);
      }
    } else {
      assert OneWrites(cfg, p, r) == AppendWrites(Active(p), r);
      AppendCrash(cfg, p, d, cs, k, r, i, n);
    }
  }

  // ---- Batches -----------------------------------------------------------------------------

  function ManyChunks(cfg: Config, p: Partition, cs: seq<Chunk>, rs: seq<Stored>): seq<Chunk>
    requires p.segs != [] && p.next + |rs| < OFFSET_LIMIT && cs != []
    decreases |rs|
  {
    if rs == [] then cs else ManyChunks(cfg, One(cfg, p, rs[0]), OneChunks(cfg, p, cs, rs[0]), rs[1..])
  }

  /** A batch appended: the chain is longer by exactly the batch. */
  lemma {:induction false} ManyGood(cfg: Config, p: Partition, d: Files, cs: seq<Chunk>, k: nat, rs: seq<Stored>)
    requires Good(cfg, p, d, cs, k) && p.segs != [] && cs != [] && Following(p.next, rs)
    ensures Good(cfg, Many(cfg, p, rs), ApplyAll(d, ManyWrites(cfg, p, rs)), ManyChunks(cfg, p, cs, rs), k)
    ensures Extends(ManyChunks(cfg, p, cs, rs), cs, rs)
    decreases |rs|
  {
    hide Good, OnDisk, ApplyAll, OneWrites, Extends, One, OneChunks;
    if rs == [] {
      ExtendsSelf(cs);
      assert ApplyAll(d, []) == d by { AfterNone(d, []); }
    } else {
      var p1, cs1, ws := One(cfg, p, rs[0]), OneChunks(cfg, p, cs, rs[0]), OneWrites(cfg, p, rs[0]);
      OneGood(cfg, p, d, cs, k, rs[0]);
      GoodShape(cfg, p1, ApplyAll(d, ws), cs1, k);
      FollowingTail(p.next, rs);
      ManyGood(cfg, p1, ApplyAll(d, ws), cs1, k, rs[1..]);
      ApplyConcat(d, ws, ManyWrites(cfg, p1, rs[1..]));
      ExtendsTrans(cs, cs1, ManyChunks(cfg, p1, cs1, rs[1..]), [rs[0]], rs[1..]);
      assert [rs[0]] + rs[1..] == rs;
    }
  }

  // ---- Where records go --------------------------------------------------------------------

  /** A record goes into the last segment, unless that has records and would grow beyond the limit. */
  function Pack(cs: seq<Chunk>, r: Stored, max: uint32): (cs': seq<Chunk>)
    requires cs != [] && Last(cs).End() < OFFSET_LIMIT
    ensures cs' != [] && Last(cs').End() == Last(cs).End() + 1
  {
    var c := Last(cs);
    if c.recs != [] && |Flatten(c.recs)| + r.Size() > max then cs + [Chunk(c.End(), [r])] else Grow(cs, r)
  }

  function Packed(cs: seq<Chunk>, rs: seq<Stored>, max: uint32): (cs': seq<Chunk>)
    requires cs != [] && Last(cs).End() + |rs| <= OFFSET_LIMIT
    ensures cs' != [] && Last(cs').End() == Last(cs).End() + |rs|
    decreases |rs|
  {
    if rs == [] then cs else Pack(Packed(cs, rs[..|rs| - 1], max), rs[|rs| - 1], max)
  }

  ghost predicate IsPacked(cs: seq<Chunk>, rs: seq<Stored>, max: uint32, cs': seq<Chunk>) {
    cs != [] && Last(cs).End() + |rs| <= OFFSET_LIMIT && cs' == Packed(cs, rs, max)
  }

  lemma PackedNone(cs: seq<Chunk>, max: uint32)
    requires cs != [] && Last(cs).End() <= OFFSET_LIMIT
    ensures IsPacked(cs, [], max, cs)
  {
  }

  lemma PackedSnoc(cs: seq<Chunk>, rs: seq<Stored>, r: Stored, max: uint32, mid: seq<Chunk>, cs': seq<Chunk>)
    requires IsPacked(cs, rs, max, mid) && mid != [] && Last(mid).End() < OFFSET_LIMIT && cs' == Pack(mid, r, max)
    ensures IsPacked(cs, rs + [r], max, cs')
  {
    hide Pack;
    assert (rs + [r])[..|rs|] == rs;
  }

  /** An append adds a segment exactly if the last one has records and would grow beyond the limit. */
  lemma RollsExactly(cfg: Config, p: Partition, d: Files, cs: seq<Chunk>, k: nat, r: Stored)
    requires Good(cfg, p, d, cs, k) && p.next < OFFSET_LIMIT && p.segs != []
    ensures cs != [] && Last(cs).End() == p.next && OneChunks(cfg, p, cs, r) == Pack(cs, r, cfg.segmentMax)
    ensures var rolls := Last(cs).recs != [] && |Flatten(Last(cs).recs)| + r.Size() > cfg.segmentMax;
            |One(cfg, p, r).segs| == |p.segs| + if rolls then 1 else 0
  {
    hide OnDisk, SegLive, Flatten, Sound, Crc32.Feed, Appended, MaxTimestamp;
    assert Last(cs[k..]) == Last(cs);
    FewRecords(Last(cs).recs);
    if Last(cs).recs == [] {
      NothingFlat();
    }
    var grown := cs + [Chunk(p.next, [])];
    assert grown[..|grown| - 1] == cs && [] + [r] == [r];
  }

  /** The chain after a batch is the greedy packing of its records. */
  lemma {:induction false} ManyPacked(cfg: Config, p: Partition, d: Files, cs: seq<Chunk>, k: nat, rs: seq<Stored>)
    requires Good(cfg, p, d, cs, k) && p.segs != [] && cs != [] && Following(p.next, rs)
    ensures IsPacked(cs, rs, cfg.segmentMax, ManyChunks(cfg, p, cs, rs))
    decreases |rs|
  {
    hide Good, ApplyAll, OneWrites, One, OneChunks, Pack, IsPacked, Extends;
    GoodEnd(cfg, p, d, cs, k);
    if rs == [] {
      PackedNone(cs, cfg.segmentMax);
    } else {
      var p1, cs1, ws := One(cfg, p, rs[0]), OneChunks(cfg, p, cs, rs[0]), OneWrites(cfg, p, rs[0]);
      RollsExactly(cfg, p, d, cs, k, rs[0]);
      OneGood(cfg, p, d, cs, k, rs[0]);
      GoodShape(cfg, p1, ApplyAll(d, ws), cs1, k);
      FollowingTail(p.next, rs);
      ManyPacked(cfg, p1, ApplyAll(d, ws), cs1, k, rs[1..]);
      PackedFirst(cs, rs, cfg.segmentMax, cs1, ManyChunks(cfg, p1, cs1, rs[1..]));
    }
  }

  lemma PackedFirst(cs: seq<Chunk>, rs: seq<Stored>, max: uint32, cs1: seq<Chunk>, cs': seq<Chunk>)
    requires cs != [] && rs != [] && Last(cs).End() < OFFSET_LIMIT && cs1 == Pack(cs, rs[0], max)
    requires IsPacked(cs1, rs[1..], max, cs')
    ensures IsPacked(cs, rs, max, cs')
  {
    hide Pack, Packed;
    PackedCons(cs, rs, max);
  }

  lemma {:induction false} PackedCons(cs: seq<Chunk>, rs: seq<Stored>, max: uint32)
    requires cs != [] && rs != [] && Last(cs).End() + |rs| <= OFFSET_LIMIT
    ensures Packed(cs, rs, max) == Packed(Pack(cs, rs[0], max), rs[1..], max)
    decreases |rs|
  {
    hide Pack;
    var n := |rs| - 1;
    if n == 0 {
      assert rs[..0] == [] && rs[1..] == [];
    } else {
      PackedCons(cs, rs[..n], max);
      assert rs[..n][1..] == rs[1..][..n - 1];
    }
  }

  lemma GoodEnd(cfg: Config, p: Partition, d: Files, cs: seq<Chunk>, k: nat)
    requires Good(cfg, p, d, cs, k)
    ensures cs != [] && Last(cs).End() == p.next
  {
    hide OnDisk, SegLive, ActiveOk;
    assert Last(cs[k..]) == Last(cs);
  }

  lemma FirstOfMany(cfg: Config, p: Partition, d: Files, cs: seq<Chunk>, k: nat, r: Stored)
    requires Good(cfg, p, d, cs, k) && |p.segs| > 0 && cs != [] && r.offset == p.next && p.next + 1 < OFFSET_LIMIT
    ensures var d1, cs1 := ApplyAll(d, OneWrites(cfg, p, r)), OneChunks(cfg, p, cs, r);
            Good(cfg, One(cfg, p, r), d1, cs1, k) && cs1 != [] && Extends(cs1, cs, [r])
  {
    hide Good, OnDisk, ApplyAll, OneWrites, Extends, One, OneChunks;
    OneGood(cfg, p, d, cs, k, r);
    GoodShape(cfg, One(cfg, p, r), ApplyAll(d, OneWrites(cfg, p, r)), OneChunks(cfg, p, cs, r), k);
  }

  /** A batch cut anywhere: all earlier records, and a prefix of the batch. */
  lemma {:induction false} ManyCrash(cfg: Config, p: Partition, d: Files, cs: seq<Chunk>, k: nat, rs: seq<Stored>,
                                     i: nat, n: nat)
    requires Good(cfg, p, d, cs, k) && |p.segs| > 0 && cs != [] && Following(p.next, rs)
    requires i <= |ManyWrites(cfg, p, rs)|
    ensures Survives(CrashDisk(d, ManyWrites(cfg, p, rs), i, n), cs, rs, cfg.segmentMax)
    decreases |rs|
  {
    hide Good, OnDisk, ApplyAll, OneWrites, Extends, One, OneChunks, CrashDisk, Survives, Many;
    if rs == [] {
      GoodShape(cfg, p, d, cs, k);
      NoWritesSurvive(d, cs, cfg.segmentMax, n);
    } else if i < |OneWrites(cfg, p, rs[0])| {
      OneCrash(cfg, p, d, cs, k, rs[0], i, n);
      CrashInFirst(d, OneWrites(cfg, p, rs[0]), ManyWrites(cfg, One(cfg, p, rs[0]), rs[1..]), i, n, cs, [rs[0]],
                   rs[1..], cfg.segmentMax);
      assert [rs[0]] + rs[1..] == rs;
    } else {
      ManyCrashLater(cfg, p, d, cs, k, rs, i, n);
    }
  }

  lemma {:induction false} ManyCrashLater(cfg: Config, p: Partition, d: Files, cs: seq<Chunk>, k: nat,
                                          rs: seq<Stored>, i: nat, n: nat)
    requires Good(cfg, p, d, cs, k) && |p.segs| > 0 && cs != [] && rs != [] && Following(p.next, rs)
    requires |OneWrites(cfg, p, rs[0])| <= i <= |ManyWrites(cfg, p, rs)|
    ensures Survives(CrashDisk(d, ManyWrites(cfg, p, rs), i, n), cs, rs, cfg.segmentMax)
    decreases |rs|, 0
  {
    hide Good, OnDisk, ApplyAll, OneWrites, Extends, One, OneChunks, CrashDisk, Survives, Many;
    var p1, cs1, ws := One(cfg, p, rs[0]), OneChunks(cfg, p, cs, rs[0]), OneWrites(cfg, p, rs[0]);
    FirstOfMany(cfg, p, d, cs, k, rs[0]);
    FollowingTail(p.next, rs);
    ManyCrash(cfg, p1, ApplyAll(d, ws), cs1, k, rs[1..], i - |ws|, n);
    CrashInSecond(d, ws, ManyWrites(cfg, p1, rs[1..]), i, n, cs, cs1, [rs[0]], rs[1..], cfg.segmentMax);
    assert [rs[0]] + rs[1..] == rs;
  }

  lemma NoWritesSurvive(d: Files, cs: seq<Chunk>, max: uint32, n: nat)
    requires OnDisk(d, cs, [], max)
    ensures Survives(CrashDisk(d, [], 0, n), cs, [], max)
  {
    hide OnDisk, Extends;
    ExtendsSelf(cs);
    AfterNone(d, []);
    assert SurvivesAs(d, cs, [], max, cs, [], 0);
  }
}
