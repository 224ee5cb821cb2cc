/** Opening a partition from whatever a crash left behind. */
module Recovery {
  import opened Bytes
  import opened RecordCodec
  import opened LogFile
  import opened OffsetIndex
  import opened Disk
  import opened SegmentModel
  import opened Layout
  import opened PartitionModel
  import opened AppendSafety
  import Crc32

  datatype Opening = Opening(seg: Segment, writes: seq<Write>, bad: bool)

  /** A segment that is not the last one. Without a marker it is scanned and sealed again; with one it is
      scanned in full, or only spot-checked. */
  function OpenSealed(cfg: Config, full: bool, d: Files, base: uint64): Opening {
    var s := Opened(base, cfg.interval, d);
    var log := Content(d, s.LogName());
    var s' := Rebuilt(s, Scan(log));
    if s.SealedName() !in d then
      Opening(s'.(isSealed := true), OpenWrites(base) + RebuildWrites(s, log) + SealWrites(s'), false)
    else if full then
      Opening(s'.(isSealed := true), OpenWrites(base) + RebuildWrites(s, log), |Flatten(Scan(log))| < |log|)
    else
      Opening(s.(isSealed := true), OpenWrites(base), !QuickCheck(s, log))
  }

  /** The last segment: always scanned, and its torn tail cut off. */
  function OpenActive(cfg: Config, d: Files, base: uint64): Opening {
    var s := Opened(base, cfg.interval, d);
    var log := Content(d, s.LogName());
    Opening(Rebuilt(s, Scan(log)), OpenWrites(base) + RebuildWrites(s, log), false)
  }

  /** The next offset after recovery. */
  function OpenNext(cfg: Config, d: Files, base: uint64): uint64 {
    var s := Opened(base, cfg.interval, d);
    var next := NextAfter(s, Scan(Content(d, s.LogName())));
    if next < base then base else next
  }

  /** Opening an earlier segment makes the decoder run past its buffer. */
  predicate SealedOverruns(cfg: Config, full: bool, d: Files, base: uint64) {
    var s := Opened(base, cfg.interval, d);
    var log := Content(d, s.LogName());
    if s.SealedName() !in d || full then Overruns(log) else QuickResult(s, log) == RunsOver
  }

  datatype Result = Result(partition: Partition, writes: seq<Write>)

  /** All segments in ascending order of base offset. */
  function OpenAll(cfg: Config, full: bool, d: Files, bases: seq<uint64>): (r: Result)
    requires bases != []
    ensures r.partition.segs != []
    decreases |bases|
  {
    if |bases| == 1 then
      var o := OpenActive(cfg, d, bases[0]);
      Result(Partition([o.seg], OpenNext(cfg, d, bases[0]), false), o.writes)
    else
      var o := OpenSealed(cfg, full, d, bases[0]);
      var rest := OpenAll(cfg, full, ApplyAll(d, o.writes), bases[1..]);
      Result(Partition([o.seg] + rest.partition.segs, rest.partition.next, o.bad || rest.partition.degraded),
             o.writes + rest.writes)
  }

  /** Opening the segments makes the decoder run past its buffer, in the one segment or another. */
  predicate OpenOverruns(cfg: Config, full: bool, d: Files, bases: seq<uint64>)
    requires bases != []
    decreases |bases|
  {
    if |bases| == 1 then Overruns(Content(d, Name(bases[0], Log)))
    else
      || SealedOverruns(cfg, full, d, bases[0])
      || OpenOverruns(cfg, full, ApplyAll(d, OpenSealed(cfg, full, d, bases[0]).writes), bases[1..])
  }

  /** The base offsets of the log files, ascending; a new partition starts at zero. */
  ghost predicate ListsLogs(d: Files, bases: seq<uint64>) {
    && (forall i, j :: 0 <= i < j < |bases| ==> bases[i] < bases[j])
    && (forall b: uint64 :: b in bases <==> Name(b, Log) in d)
  }

  // ---- A list of rising numbers is determined by its elements -------------------------------

  lemma {:induction false} SameRising(a: seq<uint64>, b: seq<uint64>)
    requires forall i, j :: 0 <= i < j < |a| ==> a[i] < a[j]
    requires forall i, j :: 0 <= i < j < |b| ==> b[i] < b[j]
    requires forall x: uint64 :: x in a <==> x in b
    ensures a == b
  {
    assert a != [] ==> a[0] in b;
    assert b != [] ==> b[0] in a;
    if a != [] && b != [] {
      assert a[0] == b[0];
      forall x: uint64
        ensures x in a[1..] <==> x in b[1..]
      {
        TailHas(a, x);
        TailHas(b, x);
      }
      SameRising(a[1..], b[1..]);
      assert a == [a[0]] + a[1..] && b == [b[0]] + b[1..];
    }
  }

  lemma TailHas(a: seq<uint64>, x: uint64)
    requires a != [] && forall i, j :: 0 <= i < j < |a| ==> a[i] < a[j]
    ensures x in a[1..] <==> x in a && x != a[0]
  {
    if x in a && x != a[0] {
      var i :| 0 <= i < |a| && a[i] == x;
      assert a[1..][i - 1] == x;
    }
  }

  lemma LogThere(d: Files, c: Chunk, sealable: bool, tail: bytes)
    requires ChunkOnDisk(d, c, sealable, tail)
    ensures Name(c.base, Log) in d
  {
  }

  /** The chain of a good directory is a listing of it. */
  lemma ChainIsListed(d: Files, cs: seq<Chunk>, tail: bytes, max: uint32)
    requires OnDisk(d, cs, tail, max)
    ensures ListsLogs(d, BasesOf(cs))
  {
    hide Flatten, MarkerOnDisk, ChunkOk, Torn, ChunkOnDisk;
    var bs := BasesOf(cs);
    forall i, j | 0 <= i < j < |bs|
      ensures bs[i] < bs[j]
    {
      BasesRise(cs, i, j);
    }
    forall x: uint64
      ensures x in bs <==> Name(x, Log) in d
    {
      if Name(x, Log) in d {
        var i :| 0 <= i < |cs| && cs[i].base == x;
        assert bs[i] == x;
      }
      if x in bs {
        var i :| 0 <= i < |bs| && bs[i] == x;
        LogThere(d, cs[i], i < |cs| - 1, if i < |cs| - 1 then [] else tail);
      }
    }
  }

  /** There is no other listing. */
  lemma ListingIsChain(d: Files, cs: seq<Chunk>, tail: bytes, max: uint32, bases: seq<uint64>)
    requires OnDisk(d, cs, tail, max) && ListsLogs(d, bases)
    ensures bases == BasesOf(cs)
  {
    hide OnDisk;
    ChainIsListed(d, cs, tail, max);
    SameRising(bases, BasesOf(cs));
  }

  // ---- One segment -------------------------------------------------------------------------

  ghost predicate Holds(d: Files, cs: seq<Chunk>, max: uint32) {
    exists tail :: OnDisk(d, cs, tail, max)
  }

  function TailOf(cs: seq<Chunk>, j: nat, tail: bytes): bytes
    requires j < |cs|
  {
    if j == |cs| - 1 then tail else []
  }

  lemma ChunkAt(d: Files, cs: seq<Chunk>, j: nat, tail: bytes, max: uint32)
    requires OnDisk(d, cs, tail, max) && j < |cs|
    ensures ChunkOnDisk(d, cs[j], j < |cs| - 1, TailOf(cs, j, tail)) && ChunkOk(cs[j], max)
    ensures Torn(TailOf(cs, j, tail))
  {
    hide ChunkOnDisk, ChunkOk, Torn, NothingElse;
    EmptyIsTorn();
  }

  /** Every write of a list is to files of one segment. */
  ghost predicate AllAt(ws: seq<Write>, base: uint64) {
    forall i :: 0 <= i < |ws| ==> ws[i].name.base == base
  }

  lemma {:induction false} OthersAgree(d: Files, ws: seq<Write>, base: uint64, n: Name)
    requires AllAt(ws, base) && n.base != base
    ensures Agree(d, ApplyAll(d, ws), n)
    decreases |ws|
  {
    hide Apply;
    if ws != [] {
      WriteFrame(d, ws[0], n);
      OthersAgree(Apply(d, ws[0]), ws[1..], base, n);
    }
  }

  lemma OpenSteps(d: Files, base: uint64)
    requires Name(base, Log) in d
    ensures After(d, OpenWrites(base), 0) == d && After(d, OpenWrites(base), 1) == d
    ensures ApplyAll(d, OpenWrites(base)) == After(d, OpenWrites(base), 2) == Apply(d, Create(Name(base, Index)))
  {
    hide ApplyAll, After;
    var ws := OpenWrites(base);
    AfterNone(d, ws);
    AfterStep(d, ws, 0);
    AfterStep(d, ws, 1);
  }

  /** Opening the files of a segment changes nothing that matters, wherever it is cut. */
  lemma OpenFilesHold(d: Files, cs: seq<Chunk>, j: nat, tail: bytes, max: uint32, i: nat, n: nat)
    requires OnDisk(d, cs, tail, max) && j < |cs| && i <= 2
    ensures OnDisk(CrashDisk(d, OpenWrites(cs[j].base), i, n), cs, tail, max)
    ensures OnDisk(ApplyAll(d, OpenWrites(cs[j].base)), cs, tail, max)
    ensures var d' := ApplyAll(d, OpenWrites(cs[j].base));
            && Name(cs[j].base, Index) in d' && Content(d', Name(cs[j].base, Index)) ==
                Content(d, Name(cs[j].base, Index))
            && Agree(d, d', Name(cs[j].base, Log)) && Agree(d, d', Name(cs[j].base, Sealed))
  {
    hide OnDisk, ApplyAll, After, Flatten, Sound, Load, MarkerBytes;
    ChunkAt(d, cs, j, tail, max);
    OpenSteps(d, cs[j].base);
    IndexWritten(d, cs, j, Create(Name(cs[j].base, Index)), tail, max);
  }

  /** The rewritten index, whole or cut, loads as sound entries. */
  lemma CutIndexSound(es: seq<Entry>, rs: seq<Stored>, n: nat)
    requires Sound(es, rs) && n <= |Save(es)|
    ensures Sound(Load(Save(es)[..n]), rs)
  {
    hide Sound, Load, Save;
    LoadCut(es, n);
    SoundPrefix(es, Load(Save(es)[..n]), rs);
  }

  lemma IndexSteps(d: Files, name: Name, es: seq<Entry>)
    requires name in d
    ensures var ws := IndexWrites(name, es);
            && After(d, ws, 0) == d && After(d, ws, 1) == Apply(d, Truncate(name, 0))
            && ApplyAll(d, ws) == (if es == [] then Apply(d, Truncate(name, 0))
                                   else Apply(Apply(d, Truncate(name, 0)), Append(name, Save(es))))
            && name in ApplyAll(d, ws) && ApplyAll(d, ws)[name] == Save(es)
  {
    hide ApplyAll, After;
    var ws := IndexWrites(name, es);
    AfterNone(d, ws);
    AfterStep(d, ws, 0);
    if es != [] {
      AfterStep(d, ws, 1);
    }
  }

  lemma NothingSound(rs: seq<Stored>)
    ensures Sound(Load([]), rs)
  {
    hide Flatten;
  }

  /** Rewriting an index with sound entries is safe wherever it is cut. */
  lemma IndexWritesHold(d: Files, cs: seq<Chunk>, j: nat, es: seq<Entry>, tail: bytes, max: uint32, i: nat, n: nat)
    requires OnDisk(d, cs, tail, max) && j < |cs| && Name(cs[j].base, Index) in d && Sound(es, cs[j].recs)
    requires i <= |IndexWrites(Name(cs[j].base, Index), es)|
    ensures OnDisk(CrashDisk(d, IndexWrites(Name(cs[j].base, Index), es), i, n), cs, tail, max)
    ensures OnDisk(ApplyAll(d, IndexWrites(Name(cs[j].base, Index), es)), cs, tail, max)
  {
    hide OnDisk, ApplyAll, After, Sound, Load, Save;
    var name := Name(cs[j].base, Index);
    var ws, d1 := IndexWrites(name, es), Apply(d, Truncate(name, 0));
    IndexSteps(d, name, es);
    AfterNone(d, ws);
    NothingSound(cs[j].recs);
    assert d1[name] == [];
    IndexWritten(d, cs, j, Truncate(name, 0), tail, max);
    if es != [] {
      var m := if n <= |Save(es)| then n else |Save(es)|;
      CutIndexSound(es, cs[j].recs, m);
      CutIndexSound(es, cs[j].recs, |Save(es)|);
      assert Save(es)[..|Save(es)|] == Save(es);
      assert [] + Save(es)[..m] == Save(es)[..m] && [] + Save(es) == Save(es);
      IndexWritten(d1, cs, j, Append(name, Save(es)[..m]), tail, max);
      IndexWritten(d1, cs, j, Append(name, Save(es)), tail, max);
    }
  }

  lemma ScanChunk(d: Files, cs: seq<Chunk>, j: nat, tail: bytes, max: uint32)
    requires OnDisk(d, cs, tail, max) && j < |cs|
    ensures Content(d, Name(cs[j].base, Log)) == Flatten(cs[j].recs) + TailOf(cs, j, tail)
    ensures Scan(Content(d, Name(cs[j].base, Log))) == cs[j].recs
    ensures Name(cs[j].base, Log) in d
  {
    hide OnDisk, Flatten, Torn, MarkerOnDisk, ChunkOk, TailOf;
    ChunkAt(d, cs, j, tail, max);
    ScanDropsTornTail(cs[j].recs, TailOf(cs, j, tail));
  }

  lemma RebuiltChunk(s: Segment, c: Chunk, max: uint32)
    requires s.base == c.base && ChunkOk(c, max)
    ensures Tracks(Rebuilt(s, c.recs), c.recs) && Rebuilt(s, c.recs).base == c.base
    ensures Sound(Rebuilt(s, c.recs).entries, c.recs)
    ensures Rebuilt(s, c.recs).isSealed == s.isSealed && Rebuilt(s, c.recs).interval == s.interval
  {
    hide Flatten, Crc32.Feed, Rebuilt, Sound;
    ChunkFits(c, max);
    RebuiltTracks(s, c.recs);
  }

  lemma CutTail(d: Files, cs: seq<Chunk>, tail: bytes, max: uint32)
    requires OnDisk(d, cs, tail, max) && cs != [] && Name(Last(cs).base, Index) in d
    ensures var d1 := ApplyAll(d, [Truncate(Name(Last(cs).base, Log), |Flatten(Last(cs).recs)|)]);
            && OnDisk(d1, cs, [], max) && Name(Last(cs).base, Index) in d1
            && Agree(d, d1, Name(Last(cs).base, Sealed))
  {
    hide OnDisk, ApplyAll, Flatten;
    var w := Truncate(Name(Last(cs).base, Log), |Flatten(Last(cs).recs)|);
    ApplyOne(d, w);
    TailTruncated(d, cs, tail, max);
    WriteFrame(d, w, Name(Last(cs).base, Index));
    WriteFrame(d, w, Name(Last(cs).base, Sealed));
  }

  /** A torn segment is cut, then re-indexed; an intact one is only re-indexed. */
  lemma RebuildShape(d: Files, cs: seq<Chunk>, j: nat, s: Segment, tail: bytes, max: uint32)
    requires OnDisk(d, cs, tail, max) && j < |cs| && s.base == cs[j].base
    ensures var c := cs[j];
            RebuildWrites(s, Content(d, Name(c.base, Log))) ==
            (if TailOf(cs, j, tail) != [] then [Truncate(Name(c.base, Log), |Flatten(c.recs)|)] else [])
            + IndexWrites(Name(c.base, Index), Rebuilt(s, c.recs).entries)
  {
    hide OnDisk, Flatten, Scan, Rebuilt, IndexWrites, TailOf;
    ScanChunk(d, cs, j, tail, max);
  }

  lemma IntactRebuildHolds(d: Files, cs: seq<Chunk>, j: nat, s: Segment, tail: bytes, max: uint32, i: nat, n: nat)
    requires OnDisk(d, cs, tail, max) && j < |cs| && Name(cs[j].base, Index) in d && s.base == cs[j].base
    requires TailOf(cs, j, tail) == [] && i <= |RebuildWrites(s, Content(d, Name(cs[j].base, Log)))|
    ensures var ws := RebuildWrites(s, Content(d, Name(cs[j].base, Log)));
            && OnDisk(CrashDisk(d, ws, i, n), cs, tail, max) && OnDisk(ApplyAll(d, ws), cs, tail, max)
            && ws == IndexWrites(Name(cs[j].base, Index), Rebuilt(s, cs[j].recs).entries)
  {
    hide OnDisk, Flatten, Scan, Rebuilt, TailOf, CrashDisk, ApplyAll, Tracks, RebuildWrites, IndexWrites, Sound,
         ChunkOnDisk, ChunkOk;
    RebuildShape(d, cs, j, s, tail, max);
    var es := Rebuilt(s, cs[j].recs).entries;
    assert RebuildWrites(s, Content(d, Name(cs[j].base, Log))) == IndexWrites(Name(cs[j].base, Index), es);
    ChunkAt(d, cs, j, tail, max);
    RebuiltChunk(s, cs[j], max);
    IndexWritesHold(d, cs, j, es, tail, max, i, n);
  }

  lemma TornRebuildHolds(d: Files, cs: seq<Chunk>, s: Segment, tail: bytes, max: uint32, i: nat, n: nat)
    requires OnDisk(d, cs, tail, max) && cs != [] && Name(Last(cs).base, Index) in d && s.base == Last(cs).base
    requires tail != [] && i <= |RebuildWrites(s, Content(d, Name(Last(cs).base, Log)))|
    ensures var ws := RebuildWrites(s, Content(d, Name(Last(cs).base, Log)));
            && Holds(CrashDisk(d, ws, i, n), cs, max) && OnDisk(ApplyAll(d, ws), cs, [], max)
            && ws == [Truncate(Name(Last(cs).base, Log), |Flatten(Last(cs).recs)|)]
                     + IndexWrites(Name(Last(cs).base, Index), Rebuilt(s, Last(cs).recs).entries)
  {
    hide OnDisk, Flatten, Scan, Rebuilt, CrashDisk, ApplyAll, Tracks, RebuildWrites, IndexWrites, Sound, ChunkOnDisk,
         ChunkOk;
    var j, c := |cs| - 1, Last(cs);
    var es := Rebuilt(s, c.recs).entries;
    var a, b := [Truncate(Name(c.base, Log), |Flatten(c.recs)|)], IndexWrites(Name(c.base, Index), es);
    RebuildShape(d, cs, j, s, tail, max);
    ChunkAt(d, cs, j, tail, max);
    RebuiltChunk(s, c, max);
    CutTail(d, cs, tail, max);
    ApplyConcat(d, a, b);
    CrashConcat(d, a, b, i, n);
    if i == 0 {
      assert CrashDisk(d, a, 0, n) == d by { NotAppend(d, a[0], n); }
      IndexWritesHold(ApplyAll(d, a), cs, j, es, [], max, 0, n);
    } else {
      IndexWritesHold(ApplyAll(d, a), cs, j, es, [], max, i - 1, n);
    }
  }

  lemma NotAppend(d: Files, w: Write, n: nat)
    requires !w.Append?
    ensures CrashDisk(d, [w], 0, n) == d
  {
    hide Apply, ApplyAll;
    AfterNone(d, [w]);
  }

  /** Scanning a segment, cutting its torn tail and rewriting its index: safe wherever it is cut, and what is left
      afterwards is exactly the segment's records and a file copy of the rebuilt index. */
  lemma RebuildHolds(d: Files, cs: seq<Chunk>, j: nat, s: Segment, tail: bytes, max: uint32, i: nat, n: nat)
    requires OnDisk(d, cs, tail, max) && j < |cs| && Name(cs[j].base, Index) in d && s.base == cs[j].base
    requires i <= |RebuildWrites(s, Content(d, Name(cs[j].base, Log)))|
    ensures var ws := RebuildWrites(s, Content(d, Name(cs[j].base, Log)));
            && Holds(CrashDisk(d, ws, i, n), cs, max)
            && OnDisk(ApplyAll(d, ws), cs, if j == |cs| - 1 then [] else tail, max)
            && Name(cs[j].base, Index) in ApplyAll(d, ws)
            && ApplyAll(d, ws)[Name(cs[j].base, Index)] == Save(Rebuilt(s, cs[j].recs).entries)
            && Agree(d, ApplyAll(d, ws), Name(cs[j].base, Sealed))
  {
    hide OnDisk, Flatten, Scan, Rebuilt, CrashDisk, ApplyAll, RebuildWrites, IndexWrites, Apply;
    var es, name := Rebuilt(s, cs[j].recs).entries, Name(cs[j].base, Index);
    if TailOf(cs, j, tail) == [] {
      IntactRebuildHolds(d, cs, j, s, tail, max, i, n);
      IndexSteps(d, name, es);
      SealedAgree(d, name, es);
    } else {
      TornRebuildHolds(d, cs, s, tail, max, i, n);
      CutTail(d, cs, tail, max);
      var a := [Truncate(Name(cs[j].base, Log), |Flatten(cs[j].recs)|)];
      ApplyConcat(d, a, IndexWrites(name, es));
      IndexSteps(ApplyAll(d, a), name, es);
      SealedAgree(ApplyAll(d, a), name, es);
    }
  }

  lemma SealedAgree(d: Files, name: Name, es: seq<Entry>)
    requires name in d && name.kind == Index
    ensures Agree(d, ApplyAll(d, IndexWrites(name, es)), Name(name.base, Sealed))
    ensures Agree(d, ApplyAll(d, IndexWrites(name, es)), Name(name.base, Log))
  {
    hide ApplyAll, Save;
    IndexSteps(d, name, es);
  }

  /** The directory once a segment's files are open and its scan is done. */
  lemma OpenThenRebuild(cfg: Config, d: Files, cs: seq<Chunk>, j: nat, tail: bytes, max: uint32, i: nat, n: nat)
    requires OnDisk(d, cs, tail, max) && j < |cs|
    requires var s := Opened(cs[j].base, cfg.interval, d);
             i <= |OpenWrites(cs[j].base) + RebuildWrites(s, Content(d, Name(cs[j].base, Log)))|
    ensures var s, c := Opened(cs[j].base, cfg.interval, d), cs[j];
            var ws := OpenWrites(c.base) + RebuildWrites(s, Content(d, Name(c.base, Log)));
            && Holds(CrashDisk(d, ws, i, n), cs, max)
            && OnDisk(ApplyAll(d, ws), cs, if j == |cs| - 1 then [] else tail, max)
            && Name(c.base, Index) in ApplyAll(d, ws)
            && ApplyAll(d, ws)[Name(c.base, Index)] == Save(Rebuilt(s, c.recs).entries)
            && Agree(d, ApplyAll(d, ws), Name(c.base, Sealed))
  {
    hide OnDisk, Rebuilt, CrashDisk, ApplyAll, RebuildWrites, Save, Opened;
    var s, c := Opened(cs[j].base, cfg.interval, d), cs[j];
    assert s.base == c.base by { OpenedBase(c.base, cfg.interval, d); }
    var a, d1 := OpenWrites(c.base), ApplyAll(d, OpenWrites(c.base));
    var b := RebuildWrites(s, Content(d, Name(c.base, Log)));
    OpenFilesHold(d, cs, j, tail, max, if i < 2 then i else 0, n);
    assert Content(d1, Name(c.base, Log)) == Content(d, Name(c.base, Log));
    RebuildHolds(d1, cs, j, s, tail, max, if i < 2 then 0 else i - 2, n);
    ApplyConcat(d, a, b);
    CrashConcat(d, a, b, i, n);
  }

  lemma OpenedBase(base: uint64, interval: uint32, d: Files)
    ensures Opened(base, interval, d).base == base && Opened(base, interval, d).interval == interval
    ensures Name(base, Sealed) !in d ==> !Opened(base, interval, d).isSealed
    ensures Opened(base, interval, d).entries == Load(Content(d, Name(base, Index)))
    ensures Opened(base, interval, d).size == |Content(d, Name(base, Log))| % U32_SIZE
  {
    hide ParseMarker, Load;
  }

  lemma LastUnsealed(d: Files, cs: seq<Chunk>, tail: bytes, max: uint32)
    requires OnDisk(d, cs, tail, max) && cs != []
    ensures Name(Last(cs).base, Sealed) !in d
  {
    hide OnDisk, MarkerOnDisk, ChunkOk, Torn;
    ChunkAt(d, cs, |cs| - 1, tail, max);
  }

  lemma NextFollows(cfg: Config, d: Files, cs: seq<Chunk>, tail: bytes)
    requires OnDisk(d, cs, tail, cfg.segmentMax) && cs != []
    ensures OpenNext(cfg, d, Last(cs).base) == Last(cs).End()
  {
    hide OnDisk, Opened, Scan, ChunkOk, NextAfter;
    OpenedBase(Last(cs).base, cfg.interval, d);
    ScanChunk(d, cs, |cs| - 1, tail, cfg.segmentMax);
    ChunkBounds(d, cs, |cs| - 1, tail, cfg.segmentMax);
    NextOfChunk(Opened(Last(cs).base, cfg.interval, d), Last(cs), cfg.segmentMax);
  }

  lemma NextOfChunk(s: Segment, c: Chunk, max: uint32)
    requires s.base == c.base && ChunkOk(c, max)
    ensures NextAfter(s, c.recs) == c.End()
  {
    hide Flatten;
  }

  /** Recovery of the last segment gives back exactly its records, ready for appends. */
  lemma OpenActiveGood(cfg: Config, d: Files, cs: seq<Chunk>, tail: bytes)
    requires OnDisk(d, cs, tail, cfg.segmentMax) && cs != []
    ensures var o := OpenActive(cfg, d, Last(cs).base);
            var d' := ApplyAll(d, o.writes);
            && OnDisk(d', cs, [], cfg.segmentMax)
            && SegLive(o.seg, d', Last(cs)) && ActiveOk(o.seg, d', Last(cs))
  {
    hide OnDisk, Rebuilt, CrashDisk, ApplyAll, RebuildWrites, Save, Opened, Tracks, Flatten, Scan, Sound, OpenWrites,
         Holds, ChunkOk, SegLive;
    var c, s, max := Last(cs), Opened(Last(cs).base, cfg.interval, d), cfg.segmentMax;
    OpenThenRebuild(cfg, d, cs, |cs| - 1, tail, max, 0, 0);
    ScanChunk(d, cs, |cs| - 1, tail, max);
    ChunkBounds(d, cs, |cs| - 1, tail, max);
    OpenedBase(c.base, cfg.interval, d);
    LastUnsealed(d, cs, tail, max);
    RebuiltChunk(s, c, max);
    var d' := ApplyAll(d, OpenWrites(c.base) + RebuildWrites(s, Content(d, Name(c.base, Log))));
    ScanChunk(d', cs, |cs| - 1, [], max);
    assert Flatten(c.recs) + [] == Flatten(c.recs);
    TrackedLive(Rebuilt(s, c.recs), d', c);
  }

  lemma OpenActiveCrash(cfg: Config, d: Files, cs: seq<Chunk>, tail: bytes, i: nat, n: nat)
    requires OnDisk(d, cs, tail, cfg.segmentMax) && cs != [] && i <= |OpenActive(cfg, d, Last(cs).base).writes|
    ensures Holds(CrashDisk(d, OpenActive(cfg, d, Last(cs).base).writes, i, n), cs, cfg.segmentMax)
  {
    hide OnDisk, Rebuilt, CrashDisk, ApplyAll, RebuildWrites, Save, Opened, Tracks, Flatten, Scan, Sound, OpenWrites,
         Holds;
    OpenedBase(Last(cs).base, cfg.interval, d);
    OpenThenRebuild(cfg, d, cs, |cs| - 1, tail, cfg.segmentMax, i, n);
  }

  // ---- Sealed segments ---------------------------------------------------------------------

  lemma SealSteps(d: Files, s: Segment)
    ensures After(d, SealWrites(s), 0) == d && After(d, SealWrites(s), 1) == Apply(d, Create(s.SealedName()))
    ensures ApplyAll(d, SealWrites(s)) == Apply(Apply(d, Create(s.SealedName())), SealWrites(s)[1])
    ensures |SealWrites(s)| == 2 && SealWrites(s)[1] == Append(s.SealedName(), MarkerBytes(MarkerOf(s)))
  {
    hide Apply, ApplyAll, After, MarkerBytes, MarkerOf;
    var ws := SealWrites(s);
    AfterNone(d, ws);
    AfterStep(d, ws, 0);
    AfterStep(d, ws, 1);
  }

  /** Writing the marker of a scanned segment, cut anywhere. */
  lemma SealHolds(d: Files, cs: seq<Chunk>, j: nat, s: Segment, tail: bytes, max: uint32, i: nat, n: nat)
    requires OnDisk(d, cs, tail, max) && j < |cs| - 1 && i <= 2
    requires s.base == cs[j].base && Tracks(s, cs[j].recs) && Name(s.base, Sealed) !in d
    requires Content(d, Name(s.base, Index)) == Save(s.entries)
    ensures OnDisk(CrashDisk(d, SealWrites(s), i, n), cs, tail, max)
    ensures OnDisk(ApplyAll(d, SealWrites(s)), cs, tail, max)
  {
    hide OnDisk, ApplyAll, After, MarkerBytes, MarkerOf, MarkerFor, Flatten, Sound, Save, Load, Crc32.Feed,
         MaxTimestamp;
    var c, name := cs[j], Name(cs[j].base, Sealed);
    SealSteps(d, s);
    AfterNone(d, SealWrites(s));
    assert c.recs != [] && c.End() < OFFSET_LIMIT by { FullChunk(d, cs, j, tail, max); }
    MarkerIsTrue(s, c);
    LoadSaved(s.entries);
    MarkerWritten(d, cs, j, Create(name), tail, max);
    var d1, b := Apply(d, Create(name)), MarkerBytes(MarkerOf(s));
    var m := if n <= |b| then n else |b|;
    MarkerWritten(d1, cs, j, Append(name, b[..m]), tail, max);
    MarkerWritten(d1, cs, j, Append(name, b), tail, max);
  }

  lemma FullChunk(d: Files, cs: seq<Chunk>, j: nat, tail: bytes, max: uint32)
    requires OnDisk(d, cs, tail, max) && j < |cs| - 1
    ensures cs[j].recs != [] && cs[j].End() < OFFSET_LIMIT
  {
    hide ChunksOnDisk, NothingElse, Torn;
    assert ChunkOk(cs[j], max);
  }

  /** A segment without a marker is scanned and sealed again. */
  lemma ResealGood(cfg: Config, d: Files, cs: seq<Chunk>, j: nat, tail: bytes, i: nat, n: nat)
    requires OnDisk(d, cs, tail, cfg.segmentMax) && j < |cs| - 1 && Name(cs[j].base, Sealed) !in d
    requires var s, log := Opened(cs[j].base, cfg.interval, d), Content(d, Name(cs[j].base, Log));
             i <= |OpenWrites(s.base) + RebuildWrites(s, log) + SealWrites(Rebuilt(s, cs[j].recs))|
    ensures var s, log := Opened(cs[j].base, cfg.interval, d), Content(d, Name(cs[j].base, Log));
            var ws := OpenWrites(s.base) + RebuildWrites(s, log) + SealWrites(Rebuilt(s, cs[j].recs));
            && Holds(CrashDisk(d, ws, i, n), cs, cfg.segmentMax)
            && OnDisk(ApplyAll(d, ws), cs, tail, cfg.segmentMax)
            && SegLive(Rebuilt(s, cs[j].recs).(isSealed := true), ApplyAll(d, ws), cs[j])
  {
    hide OnDisk, Rebuilt, CrashDisk, ApplyAll, RebuildWrites, Save, Opened, Tracks, Flatten, Sound, OpenWrites,
         SealWrites, SegLive, ChunkOnDisk, ChunkOk;
    var c, max := cs[j], cfg.segmentMax;
    var s, log := Opened(c.base, cfg.interval, d), Content(d, Name(c.base, Log));
    OpenedBase(c.base, cfg.interval, d);
    var s', a := Rebuilt(s, c.recs), OpenWrites(c.base) + RebuildWrites(s, log);
    var b, d1 := SealWrites(s'), ApplyAll(d, a);
    OpenThenRebuild(cfg, d, cs, j, tail, max, if i < |a| then i else 0, n);
    ChunkAt(d, cs, j, tail, max);
    RebuiltChunk(s, c, max);
    assert |b| == 2 by { SealSteps(d1, s'); }
    SealHolds(d1, cs, j, s', tail, max, if i < |a| then 0 else i - |a|, n);
    CrashConcat(d, a, b, i, n);
    ApplyConcat(d, a, b);
    var d' := ApplyAll(d1, b);
    RebuiltLive(d', cs, j, s', tail, max);
    SealedStillLive(s', d', c);
  }

  lemma RebuiltLive(d: Files, cs: seq<Chunk>, j: nat, s: Segment, tail: bytes, max: uint32)
    requires OnDisk(d, cs, tail, max) && j < |cs| - 1 && s.base == cs[j].base && Tracks(s, cs[j].recs)
    ensures SegLive(s, d, cs[j])
  {
    hide OnDisk, Tracks, Flatten;
    ScanChunk(d, cs, j, tail, max);
    assert Flatten(cs[j].recs) + [] == Flatten(cs[j].recs);
    TrackedLive(s, d, cs[j]);
  }

  /** A whole marker gives back the summary of its log; a cut one gives back nothing. */
  lemma MarkerLoads(d: Files, c: Chunk, interval: uint32)
    requires Name(c.base, Sealed) in d && MarkerOnDisk(d, c)
    ensures var s := Opened(c.base, interval, d);
            if CutMarker(d, c.base) then SummaryLost(s) else Summarises(s, c.recs)
  {
    hide MarkerBytes, ParseMarker, MaxTimestamp, Sound, Load, Flatten, Crc32.Feed;
    var b := d[Name(c.base, Sealed)];
    MarkerRoundTrip(MarkerFor(c), |b|);
    assert b == MarkerBytes(MarkerFor(c))[..|b|];
  }

  /** The loaded state of a segment with a marker serves its records. */
  lemma MarkedServes(cfg: Config, d: Files, cs: seq<Chunk>, j: nat, tail: bytes)
    requires OnDisk(d, cs, tail, cfg.segmentMax) && j < |cs| - 1 && Name(cs[j].base, Sealed) in d
    ensures Serves(Opened(cs[j].base, cfg.interval, d), cs[j].recs)
    ensures Content(d, Name(cs[j].base, Log)) == Flatten(cs[j].recs)
    ensures MarkerOnDisk(d, cs[j])
  {
    hide OnDisk, Opened, Flatten, Sound, Load, MarkerBytes, MarkerFor, Torn;
    var c := cs[j];
    ChunkAt(d, cs, j, tail, cfg.segmentMax);
    ChunkFits(c, cfg.segmentMax);
    OpenedBase(c.base, cfg.interval, d);
    assert Flatten(c.recs) + [] == Flatten(c.recs);
  }

  /** Recovery of any earlier segment: nothing found wrong, all its records served, in either scan mode. */
  lemma OpenSealedGood(cfg: Config, full: bool, d: Files, cs: seq<Chunk>, j: nat, tail: bytes)
    requires OnDisk(d, cs, tail, cfg.segmentMax) && j < |cs| - 1
    ensures var o := OpenSealed(cfg, full, d, cs[j].base);
            var d' := ApplyAll(d, o.writes);
            OnDisk(d', cs, tail, cfg.segmentMax) && SegLive(o.seg, d', cs[j]) && !o.bad
  {
    hide OnDisk, Rebuilt, CrashDisk, ApplyAll, RebuildWrites, Save, Opened, Tracks, Flatten, Sound, OpenWrites,
         SealWrites, SegLive, Scan, QuickCheck, Serves, Summarises;
    var c, max := cs[j], cfg.segmentMax;
    var s := Opened(c.base, cfg.interval, d);
    ScanChunk(d, cs, j, tail, max);
    OpenedBase(c.base, cfg.interval, d);
    if Name(c.base, Sealed) !in d {
      ResealGood(cfg, d, cs, j, tail, 0, 0);
    } else if full {
      OpenThenRebuild(cfg, d, cs, j, tail, max, 0, 0);
      ChunkBounds(d, cs, j, tail, max);
      RebuiltChunk(s, c, max);
      var d' := ApplyAll(d, OpenWrites(c.base) + RebuildWrites(s, Content(d, Name(c.base, Log))));
      RebuiltLive(d', cs, j, Rebuilt(s, c.recs), tail, max);
      SealedStillLive(Rebuilt(s, c.recs), d', c);
    } else {
      MarkedServes(cfg, d, cs, j, tail);
      IntactPassesQuickCheck(s, c.recs);
      OpenFilesHold(d, cs, j, tail, max, 0, 0);
      var d' := ApplyAll(d, OpenWrites(c.base));
      MarkerLoads(d, c, cfg.interval);
      ServesLive(s, d', c);
      SealedStillLive(s, d', c);
    }
  }

  lemma ChunkBounds(d: Files, cs: seq<Chunk>, j: nat, tail: bytes, max: uint32)
    requires OnDisk(d, cs, tail, max) && j < |cs|
    ensures ChunkOk(cs[j], max)
  {
    hide ChunksOnDisk, NothingElse, Torn, ChunkOk;
  }

  lemma ServesLive(s: Segment, d: Files, c: Chunk)
    requires s.base == c.base && Serves(s, c.recs) && Content(d, Name(c.base, Log)) == Flatten(c.recs) &&
             Name(c.base, Log) in d
    requires Summarises(s, c.recs) || (SummaryLost(s) && CutMarker(d, c.base))
    ensures SegLive(s, d, c)
  {
    hide Flatten, Serves, Summarises;
  }

  lemma OpenSealedCrash(cfg: Config, full: bool, d: Files, cs: seq<Chunk>, j: nat, tail: bytes, i: nat, n: nat)
    requires OnDisk(d, cs, tail, cfg.segmentMax) && j < |cs| - 1 && i <= |OpenSealed(cfg, full, d, cs[j].base).writes|
    ensures Holds(CrashDisk(d, OpenSealed(cfg, full, d, cs[j].base).writes, i, n), cs, cfg.segmentMax)
  {
    hide OnDisk, Rebuilt, CrashDisk, ApplyAll, RebuildWrites, Save, Opened, Tracks, Flatten, Sound, SealWrites,
         SegLive, Scan, QuickCheck, Serves;
    var c, max := cs[j], cfg.segmentMax;
    ScanChunk(d, cs, j, tail, max);
    OpenedBase(c.base, cfg.interval, d);
    if Name(c.base, Sealed) !in d {
      ResealGood(cfg, d, cs, j, tail, i, n);
    } else if full {
      OpenThenRebuild(cfg, d, cs, j, tail, max, i, n);
    } else {
      OpenFilesHold(d, cs, j, tail, max, i, n);
      assert Holds(CrashDisk(d, OpenWrites(c.base), i, n), cs, max);
    }
  }

  // ---- The whole partition -----------------------------------------------------------------

  lemma OpenedAt(cfg: Config, full: bool, d: Files, base: uint64)
    ensures AllAt(OpenSealed(cfg, full, d, base).writes, base)
    ensures AllAt(OpenActive(cfg, d, base).writes, base)
  {
    hide Rebuilt, Opened, Flatten, Scan, QuickCheck, MarkerBytes, MarkerOf, Save, Content;
    OpenedBase(base, cfg.interval, d);
    var s := Opened(base, cfg.interval, d);
    assert Rebuilt(s, Scan(Content(d, Name(base, Log)))).base == base by {
      RebuiltBase(s, Scan(Content(d, Name(base, Log))));
    }
  }

  lemma {:induction false} RebuiltBase(s: Segment, rs: seq<Stored>)
    ensures Rebuilt(s, rs).base == s.base
  {
    hide Encode, Crc32.Feed;
    if rs != [] {
      RebuiltBase(s, rs[..|rs| - 1]);
    }
  }

  /** Recovery touches no file outside the listed segments. */
  lemma {:induction false} OpenAllAgrees(cfg: Config, full: bool, d: Files, bases: seq<uint64>, n: Name)
    requires bases != [] && n.base !in bases
    ensures Agree(d, ApplyAll(d, OpenAll(cfg, full, d, bases).writes), n)
    decreases |bases|
  {
    hide ApplyAll, OpenSealed, OpenActive, OpenNext;
    OpenedAt(cfg, full, d, bases[0]);
    if |bases| == 1 {
      OthersAgree(d, OpenActive(cfg, d, bases[0]).writes, bases[0], n);
    } else {
      var ws := OpenSealed(cfg, full, d, bases[0]).writes;
      OthersAgree(d, ws, bases[0], n);
      OpenAllAgrees(cfg, full, ApplyAll(d, ws), bases[1..], n);
      ApplyConcat(d, ws, OpenAll(cfg, full, ApplyAll(d, ws), bases[1..]).writes);
    }
  }

  /** Memory describes the chain from segment `j` on. */
  ghost predicate LiveFrom(p: Partition, d: Files, cs: seq<Chunk>, j: nat) {
    j < |cs| && Live(p, d, cs[j..])
  }

  lemma LiveOne(s: Segment, d: Files, c: Chunk, next: nat)
    requires SegLive(s, d, c) && ActiveOk(s, d, c) && next == c.End()
    ensures Live(Partition([s], next, false), d, [c])
  {
    hide SegLive, ActiveOk;
  }

  lemma LiveCons(s: Segment, p: Partition, d: Files, c: Chunk, cs: seq<Chunk>)
    requires SegLive(s, d, c) && Live(p, d, cs)
    ensures Live(p.(segs := [s] + p.segs), d, [c] + cs)
  {
    hide SegLive, ActiveOk;
    var p' := p.(segs := [s] + p.segs);
    assert Last([c] + cs) == Last(cs) && Active(p') == Active(p);
    forall i | 0 <= i < |cs| + 1
      ensures SegLive(p'.segs[i], d, ([c] + cs)[i])
    {
      if i > 0 {
        assert p'.segs[i] == p.segs[i - 1] && ([c] + cs)[i] == cs[i - 1];
      }
    }
  }

  /** Recovery of the segments from `j` on. */
  lemma {:induction false} OpenAllGood(cfg: Config, full: bool, d: Files, cs: seq<Chunk>, j: nat, tail: bytes)
    requires OnDisk(d, cs, tail, cfg.segmentMax) && j < |cs|
    ensures var r := OpenAll(cfg, full, d, BasesOf(cs)[j..]);
            var d' := ApplyAll(d, r.writes);
            OnDisk(d', cs, [], cfg.segmentMax) && LiveFrom(r.partition, d', cs, j)
    decreases |cs| - j
  {
    hide OnDisk, ApplyAll, OpenSealed, OpenActive, OpenNext, SegLive, ActiveOk, Live, BasesOf;
    var bases := BasesOf(cs)[j..];
    if j == |cs| - 1 {
      OpenActiveGood(cfg, d, cs, tail);
      NextFollows(cfg, d, cs, tail);
      var o := OpenActive(cfg, d, Last(cs).base);
      LiveOne(o.seg, ApplyAll(d, o.writes), Last(cs), OpenNext(cfg, d, Last(cs).base));
      assert cs[j..] == [Last(cs)];
    } else {
      OpenAllStep(cfg, full, d, cs, j, tail);
    }
  }

  lemma {:induction false} OpenAllStep(cfg: Config, full: bool, d: Files, cs: seq<Chunk>, j: nat, tail: bytes)
    requires OnDisk(d, cs, tail, cfg.segmentMax) && j < |cs| - 1
    ensures var r := OpenAll(cfg, full, d, BasesOf(cs)[j..]);
            var d' := ApplyAll(d, r.writes);
            OnDisk(d', cs, [], cfg.segmentMax) && LiveFrom(r.partition, d', cs, j)
    decreases |cs| - j, 0
  {
    hide OnDisk, ApplyAll, OpenSealed, OpenActive, OpenNext, SegLive, ActiveOk, Live;
    var bases := BasesOf(cs)[j..];
    var o := OpenSealed(cfg, full, d, cs[j].base);
    var d1 := ApplyAll(d, o.writes);
    assert bases[1..] == BasesOf(cs)[j + 1..];
    var rest := OpenAll(cfg, full, d1, bases[1..]);
    var d' := ApplyAll(d1, rest.writes);
    OpenSealedGood(cfg, full, d, cs, j, tail);
    OpenAllGood(cfg, full, d1, cs, j + 1, tail);
    ApplyConcat(d, o.writes, rest.writes);
    LaterBases(d, cs, j, tail, cfg.segmentMax);
    OpenAllAgrees(cfg, full, d1, bases[1..], Name(cs[j].base, Log));
    OpenAllAgrees(cfg, full, d1, bases[1..], Name(cs[j].base, Sealed));
    SegFrame(o.seg, d1, d', cs[j]);
    LiveCons(o.seg, rest.partition, d', cs[j], cs[j + 1..]);
    assert cs[j..] == [cs[j]] + cs[j + 1..];
    LiveSound(rest.partition, d', cs[j + 1..]);
  }

  lemma LiveSound(p: Partition, d: Files, cs: seq<Chunk>)
    requires Live(p, d, cs)
    ensures !p.degraded
  {
    hide SegLive, ActiveOk;
  }

  lemma LaterBases(d: Files, cs: seq<Chunk>, j: nat, tail: bytes, max: uint32)
    requires OnDisk(d, cs, tail, max) && j < |cs|
    ensures cs[j].base !in BasesOf(cs)[j + 1..]
  {
    hide ChunksOnDisk, NothingElse, Torn;
    forall i | j < i < |cs|
      ensures cs[i].base != cs[j].base
    {
      BasesRise(cs, j, i);
    }
  }

  lemma {:induction false} OpenAllCrash(cfg: Config, full: bool, d: Files, cs: seq<Chunk>, j: nat, tail: bytes,
                                        i: nat, n: nat)
    requires OnDisk(d, cs, tail, cfg.segmentMax) && j < |cs| && i <= |OpenAll(cfg, full, d, BasesOf(cs)[j..]).writes|
    ensures Holds(CrashDisk(d, OpenAll(cfg, full, d, BasesOf(cs)[j..]).writes, i, n), cs, cfg.segmentMax)
    decreases |cs| - j
  {
    hide OnDisk, ApplyAll, OpenSealed, OpenActive, OpenNext, CrashDisk, Holds;
    var bases := BasesOf(cs)[j..];
    if j == |cs| - 1 {
      OpenActiveCrash(cfg, d, cs, tail, i, n);
    } else {
      var o := OpenSealed(cfg, full, d, cs[j].base);
      var d1 := ApplyAll(d, o.writes);
      assert bases[1..] == BasesOf(cs)[j + 1..];
      var rest := OpenAll(cfg, full, d1, bases[1..]);
      CrashConcat(d, o.writes, rest.writes, i, n);
      if i < |o.writes| {
        OpenSealedCrash(cfg, full, d, cs, j, tail, i, n);
      } else {
        OpenSealedGood(cfg, full, d, cs, j, tail);
        OpenAllCrash(cfg, full, d1, cs, j + 1, tail, i - |o.writes|, n);
      }
    }
  }

  /** `open_and_recover`: list the log files, start at zero if there is none, and open every segment. */
  function Recover(cfg: Config, full: bool, d: Files, bases: seq<uint64>): (r: Result)
    ensures r.partition.segs != []
  {
    OpenAll(cfg, full, d, if bases == [] then [0] else bases)
  }

  predicate RecoverOverruns(cfg: Config, full: bool, d: Files, bases: seq<uint64>) {
    OpenOverruns(cfg, full, d, if bases == [] then [0] else bases)
  }

  function Started(cs: seq<Chunk>): seq<Chunk> {
    if cs == [] then [Chunk(0, [])] else cs
  }

  /** An empty directory is opened as if its first log file were already there. */
  lemma NewPartition(cfg: Config, full: bool, i: nat, n: nat)
    requires i <= |OpenAll(cfg, full, map[], [0]).writes|
    ensures var d1, r := Apply(map[], Create(Name(0, Log))), OpenAll(cfg, full, map[], [0]);
            && OpenAll(cfg, full, d1, [0]) == r
            && ApplyAll(map[], r.writes) == ApplyAll(d1, r.writes)
            && CrashDisk(map[], r.writes, i, n) == if i == 0 then map[] else CrashDisk(d1, r.writes, i, n)
  {
    hide CrashDisk, After, Rebuilt, Scan, Flatten, RebuildWrites;
    var d0: Files := map[];
    var d1 := Apply(d0, Create(Name(0, Log)));
    assert d1 == map[Name(0, Log) := []];
    var ws := OpenActive(cfg, d0, 0).writes;
    assert OpenActive(cfg, d1, 0) == OpenActive(cfg, d0, 0) && OpenNext(cfg, d1, 0) == OpenNext(cfg, d0, 0);
    assert Apply(d1, ws[0]) == d1;
    SameAfterFirst(d0, d1, ws, i, n);
  }

  lemma SameAfterFirst(d0: Files, d1: Files, ws: seq<Write>, i: nat, n: nat)
    requires ws != [] && ws[0].Create? && Apply(d0, ws[0]) == Apply(d1, ws[0]) && i <= |ws|
    ensures ApplyAll(d0, ws) == ApplyAll(d1, ws)
    ensures CrashDisk(d0, ws, i, n) == if i == 0 then d0 else CrashDisk(d1, ws, i, n)
  {
    hide Apply, Torn1;
    AfterNone(d0, ws);
    if i > 0 {
      assert ws[..i][0] == ws[0];
    }
  }

  /** From everything a crash can leave: the same records, all served, the next offset following on, nothing marked
      degraded, in either scan mode. */
  lemma RecoverGood(cfg: Config, full: bool, d: Files, cs: seq<Chunk>, tail: bytes, bases: seq<uint64>)
    requires OnDisk(d, cs, tail, cfg.segmentMax) && ListsLogs(d, bases)
    ensures var r := Recover(cfg, full, d, bases);
            Good(cfg, r.partition, ApplyAll(d, r.writes), Started(cs), 0)
    ensures Extends(Started(cs), cs, [])
  {
    hide OnDisk, ApplyAll, OpenAll, Live, BasesOf, CrashDisk, Apply, Flat, ListsLogs;
    ListingIsChain(d, cs, tail, cfg.segmentMax, bases);
    if cs == [] {
      assert bases == [] by { NoBases(cs); }
      assert d == map[] && tail == [] by { NothingThere(d, cs, tail, cfg.segmentMax); }
      NewPartition(cfg, full, 0, 0);
      FirstLogCreated(cfg.segmentMax);
      OpenAllGood(cfg, full, Apply(map[], Create(Name(0, Log))), Started(cs), 0, []);
      assert BasesOf(Started(cs))[0..] == [0] by { OneBase(); }
      ExtendsStart();
    } else {
      assert BasesOf(cs)[0..] == BasesOf(cs) && BasesOf(cs) != [];
      OpenAllGood(cfg, full, d, cs, 0, tail);
      ExtendsSelf(cs);
    }
    assert Started(cs)[0..] == Started(cs);
  }

  lemma NoBases(cs: seq<Chunk>)
    requires cs == []
    ensures BasesOf(cs) == []
  {
  }

  lemma OneBase()
    ensures BasesOf([Chunk(0, [])])[0..] == [0]
  {
  }

  lemma ExtendsStart()
    ensures Extends([Chunk(0, [])], [], [])
  {
    FlatOne(Chunk(0, []));
  }

  lemma NothingThere(d: Files, cs: seq<Chunk>, tail: bytes, max: uint32)
    requires OnDisk(d, cs, tail, max) && cs == []
    ensures d == map[] && tail == []
  {
  }

  /** A crash during recovery loses nothing either. */
  lemma RecoverCrash(cfg: Config, full: bool, d: Files, cs: seq<Chunk>, tail: bytes, bases: seq<uint64>, i: nat, n: nat)
    requires OnDisk(d, cs, tail, cfg.segmentMax) && ListsLogs(d, bases) && i <= |Recover(cfg, full, d, bases).writes|
    ensures Survives(CrashDisk(d, Recover(cfg, full, d, bases).writes, i, n), cs, [], cfg.segmentMax)
  {
    hide OnDisk, ApplyAll, OpenAll, BasesOf, CrashDisk, Apply, Extends, ListsLogs;
    var max, d' := cfg.segmentMax, CrashDisk(d, Recover(cfg, full, d, bases).writes, i, n);
    ListingIsChain(d, cs, tail, max, bases);
    ExtendsSelf(cs);
    if cs == [] {
      assert bases == [] by { NoBases(cs); }
      assert d == map[] && tail == [] by { NothingThere(d, cs, tail, max); }
      NewPartition(cfg, full, i, n);
      if i == 0 {
        assert SurvivesAs(d', cs, [], max, cs, [], 0);
      } else {
        FirstLogCreated(max);
        OneBase();
        OpenAllCrash(cfg, full, Apply(map[], Create(Name(0, Log))), Started(cs), 0, [], i, n);
        ExtendsStart();
        var tail' :| OnDisk(d', Started(cs), tail', max);
        assert SurvivesAs(d', cs, [], max, Started(cs), tail', 0);
      }
    } else {
      assert BasesOf(cs)[0..] == BasesOf(cs) && BasesOf(cs) != [];
      OpenAllCrash(cfg, full, d, cs, 0, tail, i, n);
      var tail' :| OnDisk(d', cs, tail', max);
      assert SurvivesAs(d', cs, [], max, cs, tail', 0);
    }
  }

  // ---- No overrun ----------------------------------------------------------------------------

  lemma ChunkStops(d: Files, cs: seq<Chunk>, j: nat, tail: bytes, max: uint32)
    requires OnDisk(d, cs, tail, max) && j < |cs|
    ensures !Overruns(Content(d, Name(cs[j].base, Log)))
  {
    hide Overruns, Flatten;
    ChunkAt(d, cs, j, tail, max);
    EmptyIsTorn();
    assert Torn(TailOf(cs, j, tail)) by { hide ChunksOnDisk, NothingElse, LayoutOk; }
    TornTailStops(cs[j].recs, TailOf(cs, j, tail));
  }

  lemma SealedStops(cfg: Config, full: bool, d: Files, cs: seq<Chunk>, j: nat, tail: bytes)
    requires OnDisk(d, cs, tail, cfg.segmentMax) && j < |cs| - 1
    ensures !SealedOverruns(cfg, full, d, cs[j].base)
  {
    hide OnDisk, Opened, Overruns, QuickResult, Flatten;
    var s := Opened(cs[j].base, cfg.interval, d);
    OpenedBase(cs[j].base, cfg.interval, d);
    ChunkStops(d, cs, j, tail, cfg.segmentMax);
    if Name(cs[j].base, Sealed) in d && !full {
      MarkedServes(cfg, d, cs, j, tail);
      IntactPassesQuickCheck(s, cs[j].recs);
    }
  }

  lemma {:induction false} OpenStops(cfg: Config, full: bool, d: Files, cs: seq<Chunk>, j: nat, tail: bytes)
    requires OnDisk(d, cs, tail, cfg.segmentMax) && j < |cs|
    ensures !OpenOverruns(cfg, full, d, BasesOf(cs)[j..])
    decreases |cs| - j
  {
    hide OnDisk, ApplyAll, OpenSealed, SealedOverruns, Overruns, SegLive;
    var bases := BasesOf(cs)[j..];
    if j == |cs| - 1 {
      ChunkStops(d, cs, j, tail, cfg.segmentMax);
    } else {
      assert bases[1..] == BasesOf(cs)[j + 1..];
      SealedStops(cfg, full, d, cs, j, tail);
      OpenSealedGood(cfg, full, d, cs, j, tail);
      OpenStops(cfg, full, ApplyAll(d, OpenSealed(cfg, full, d, cs[j].base).writes), cs, j + 1, tail);
    }
  }

  /** No recovery from what a crash can leave runs past a buffer. */
  lemma RecoverStops(cfg: Config, full: bool, d: Files, cs: seq<Chunk>, tail: bytes, bases: seq<uint64>)
    requires OnDisk(d, cs, tail, cfg.segmentMax) && ListsLogs(d, bases)
    ensures !RecoverOverruns(cfg, full, d, bases)
  {
    hide OnDisk, ListsLogs, Overruns;
    ListingIsChain(d, cs, tail, cfg.segmentMax, bases);
    if cs == [] {
      assert bases == [] by { NoBases(cs); }
      assert d == map[] && tail == [] by { NothingThere(d, cs, tail, cfg.segmentMax); }
      EmptyStops();
    } else {
      OpenStops(cfg, full, d, cs, 0, tail);
      assert BasesOf(cs)[0..] == BasesOf(cs);
    }
  }

  lemma EmptyStops()
    ensures !Overruns([])
  {
  }
}
