/** The partition object: an ordered list of segment objects over one directory. */
module PartitionStore {
  import opened Bytes
  import opened RecordCodec
  import opened LogFile
  import opened OffsetIndex
  import opened Disk
  import opened SegmentModel
  import opened Layout
  import opened PartitionModel
  import opened AppendSafety
  import opened Recovery
  import opened Retention
  import opened Budget
  import opened Reading
  import opened PartitionRuns
  import opened LogSegment
  import Crc32

  datatype ProduceStatus = Produced(first: uint64) | EmptyBatch | RecordTooLarge

  datatype ReadStatus = Ok | OutOfRange | Damaged

  // ---- Appending one more to a batch --------------------------------------------------------

  /** One record has been appended: memory, writes and chain say so. */
  ghost predicate TookOne(cfg: Config, v: Partition, tr: seq<Write>, cs: seq<Chunk>,
                          v': Partition, tr': seq<Write>, cs': seq<Chunk>, r: Record)
  {
    && r.Readable() && v.segs != [] && v.next < OFFSET_LIMIT
    && v' == One(cfg, v, r)
    && tr' == tr + OneWrites(cfg, v, r)
    && Extends(cs', cs, [r]) && IsPacked(cs, [r], cfg.segmentMax, cs')
  }

  lemma {:induction false} ManySnoc(cfg: Config, p: Partition, rs: seq<Stored>, r: Stored)
    requires p.segs != [] && p.next + |rs| + 1 < OFFSET_LIMIT
    ensures Many(cfg, p, rs).segs != [] && Many(cfg, p, rs).next == p.next + |rs|
    ensures Many(cfg, p, rs + [r]) == One(cfg, Many(cfg, p, rs), r)
    ensures ManyWrites(cfg, p, rs + [r]) == ManyWrites(cfg, p, rs) + OneWrites(cfg, Many(cfg, p, rs), r)
    decreases |rs|
  {
    hide One, OneWrites;
    if rs == [] {
      assert rs + [r] == [r] && [r][1..] == [];
      assert Many(cfg, p, [r]) == Many(cfg, One(cfg, p, r), []);
      assert ManyWrites(cfg, p, [r]) == OneWrites(cfg, p, r) + ManyWrites(cfg, One(cfg, p, r), []);
    } else {
      assert (rs + [r])[1..] == rs[1..] + [r] && (rs + [r])[0] == rs[0];
      ManySnoc(cfg, One(cfg, p, rs[0]), rs[1..], r);
      Assoc(OneWrites(cfg, p, rs[0]), ManyWrites(cfg, One(cfg, p, rs[0]), rs[1..]),
                  OneWrites(cfg, Many(cfg, p, rs), r));
    }
  }

  class PartitionLog {
    const cfg: Config
    const dir: Directory
    var segments: seq<LogSegment>
    var next: nat
    var degraded: bool

    ghost var chain: seq<Chunk>  // what the directory holds
    ghost var lag: nat           // segments dropped from memory whose files are still there

    ghost predicate Shape()
      reads this
    {
      && (forall i :: 0 <= i < |segments| ==> segments[i].dir == dir && segments[i].interval == cfg.interval)
      && (forall i, j :: 0 <= i < j < |segments| ==> segments[i] != segments[j])
    }

    function Values(): (vs: seq<Segment>)
      reads this, segments
      ensures |vs| == |segments| && forall i :: 0 <= i < |segments| ==> vs[i] == segments[i].Value()
    {
      seq(|segments|, i requires 0 <= i < |segments| reads this, segments => segments[i].Value())
    }

    function Value(): Partition
      reads this, segments
    {
      Partition(Values(), next, degraded)
    }

    /** Memory and directory agree. */
    ghost predicate Valid()
      reads this, segments, dir
    {
      Shape() && Good(cfg, Value(), dir.files, chain, lag)
    }

    constructor (cfg: Config, dir: Directory)
      ensures this.cfg == cfg && this.dir == dir && segments == [] && next == 0 && !degraded
    {
      this.cfg, this.dir := cfg, dir;
      segments, next, degraded := [], 0, false;
      chain, lag := [], 0;
    }

    function Earliest(): uint64
      reads this
    {
      if segments == [] then 0 else segments[0].base
    }

    // ---- Appending -------------------------------------------------------------------------

    method StartSegment()
      requires Shape() && next < OFFSET_LIMIT && forall kind :: Name(next, kind) !in dir.files
      modifies this, dir
      ensures next == old(next) && degraded == old(degraded) && chain == old(chain) && lag == old(lag)
      ensures Shape() && |segments| == |old(segments)| + 1 && segments[..|old(segments)|] == old(segments)
      ensures fresh(segments[|old(segments)|]) && segments[|old(segments)|].Value() == Fresh(next, cfg.interval)
      ensures dir.files == ApplyAll(old(dir.files), OpenWrites(next)) && dir.trace == old(dir.trace) + OpenWrites(next)
    {
      hide ApplyAll, Opened;
      FreshOpened(next, cfg.interval, dir.files);
      var seg := new LogSegment(next, cfg.interval, dir);
      seg.Open();
      segments := segments + [seg];
    }

    static method SealAndMark(seg: LogSegment)
      modifies seg, seg.dir
      ensures seg.Value() == old(seg.Value()).(isSealed := true)
      ensures seg.dir.files == ApplyAll(old(seg.dir.files), SealWrites(old(seg.Value())))
      ensures seg.dir.trace == old(seg.dir.trace) + SealWrites(old(seg.Value()))
    {
      hide ApplyAll, SealWrites;
      SealsAlike(seg.Value());
      seg.Seal();
      seg.WriteSealedMarker();
    }

    /** `Partition::roll_segment_unlocked`. */
    method Roll()
      requires Shape() && segments != [] && next < OFFSET_LIMIT
      requires forall kind :: Name(next, kind) !in dir.files
      modifies this, segments, dir
      ensures Shape() && segments != [] && next == old(next) && fresh(segments[|segments| - 1])
      ensures Value() == Rolled(cfg, old(Value()))
      ensures dir.files == ApplyAll(old(dir.files), RollWrites(old(Value())))
      ensures dir.trace == old(dir.trace) + RollWrites(old(Value()))
      ensures chain == old(chain) && lag == old(lag)
      ensures segments[..|segments| - 1] == old(segments)
    {
      hide ApplyAll, OpenWrites, SealWrites, Rolled;
      ghost var d, v := dir.files, Value();
      var prev := segments[|segments| - 1];
      assert prev.Value() == Active(v);
      StartSegment();
      assert segments[|segments| - 2] == segments[..|v.segs|][|segments| - 2] == prev;
      SealAndMark(prev);
      ApplyConcat(d, OpenWrites(next), SealWrites(Active(v)));
      forall i | 0 <= i < |v.segs| - 1
        ensures Values()[i] == v.segs[i]
      {
        assert segments[i] == segments[..|v.segs|][i] == old(segments)[i];
      }
      RolledSegs(cfg, v, Values());
    }

    /** `Partition::append_with_timestamp`. */
    method AppendWithTimestamp(item: Item, timestamp: int64) returns (status: ProduceStatus)
      requires Valid() && next + 1 < OFFSET_LIMIT
      modifies this, segments, dir
      ensures Valid() && lag == old(lag)
      ensures status == if Record(0, timestamp, item.key, item.value).Size() > 1048576 then RecordTooLarge
                        else Produced(old(next))
      ensures status == RecordTooLarge ==>
                Value() == old(Value()) && dir.files == old(dir.files) && dir.trace == old(dir.trace) &&
                    chain == old(chain)
      ensures status != RecordTooLarge ==>
                TookOne(cfg, old(Value()), old(dir.trace), old(chain), Value(), dir.trace, chain,
                        Record(old(next), timestamp, item.key, item.value))
    {
      hide Good, One, OneWrites, Extends, ApplyAll, Pack;
      if 28 + |item.key| + |item.value| > MAX_RECORD_SIZE {
        return RecordTooLarge;
      }
      var first := next;
      ghost var v, tr, cs := Value(), dir.trace, chain;
      AppendOne(Record(next, timestamp, item.key, item.value));
      PackedNone(cs, cfg.segmentMax);
      PackedSnoc(cs, [], Record(first, timestamp, item.key, item.value), cfg.segmentMax, cs, chain);
      assert [] + [Record(first, timestamp, item.key, item.value)] == [Record(first, timestamp, item.key, item.value)];
      status := Produced(first);
      assert TookOne(cfg, v, tr, cs, Value(), dir.trace, chain, Record(first, timestamp, item.key, item.value));
    }

    /** `Partition::append_batch`: all sizes are checked before anything is written. */
    method AppendBatch(items: seq<Item>, now: int64) returns (status: ProduceStatus)
      requires Valid() && next + |items| < OFFSET_LIMIT
      modifies this, segments, dir
      ensures Valid() && lag == old(lag)
      ensures status ==
              if items == [] then EmptyBatch
              else if exists i :: 0 <= i < |items| && Record(0, now, items[i].key, items[i].value).Size() > 1048576
              then RecordTooLarge
              else Produced(old(next))
      ensures !status.Produced? ==>
                Value() == old(Value()) && dir.files == old(dir.files) && dir.trace == old(dir.trace) &&
                    chain == old(chain)
      ensures status.Produced? ==>
                var rs := Batch(items, now, old(next));
                && old(Value()).segs != []
                && Value() == Many(cfg, old(Value()), rs)
                && dir.files == ApplyAll(old(dir.files), ManyWrites(cfg, old(Value()), rs))
                && dir.trace == old(dir.trace) + ManyWrites(cfg, old(Value()), rs)
                && Extends(chain, old(chain), rs) && IsPacked(old(chain), rs, cfg.segmentMax, chain)
    {
      hide Good, Many, ManyWrites, Extends, ApplyAll, IsPacked;
      if items == [] {
        return EmptyBatch;
      }
      var fit := CheckSizes(items);
      if !fit {
        return RecordTooLarge;
      }
      var first := next;
      AppendAll(items, now);
      status := Produced(first);
    }

    static method CheckSizes(items: seq<Item>) returns (fit: bool)
      ensures fit == AllFit(items)
    {
      for i := 0 to |items|
        invariant forall j :: 0 <= j < i ==> Fits(items[j])
      {
        if 28 + |items[i].key| + |items[i].value| > MAX_RECORD_SIZE {
          return false;
        }
      }
      fit := true;
    }

    /** Since the state (v, d, tr, cs), exactly the first `i` of the records have been appended. */
    ghost predicate Progress(v: Partition, d: Files, tr: seq<Write>, cs: seq<Chunk>, rs: seq<Stored>, i: nat)
      reads this, segments, dir
    {
      && i <= |rs| && v.segs != [] && v.next + |rs| < OFFSET_LIMIT && cs != []
      && Valid()
      && Value() == Many(cfg, v, rs[..i])
      && dir.files == ApplyAll(d, ManyWrites(cfg, v, rs[..i]))
      && dir.trace == tr + ManyWrites(cfg, v, rs[..i])
      && Extends(chain, cs, rs[..i]) && IsPacked(cs, rs[..i], cfg.segmentMax, chain)
    }

    method AppendNext(r: Stored, ghost v: Partition, ghost d: Files, ghost tr: seq<Write>, ghost cs: seq<Chunk>,
                      ghost rs: seq<Stored>, ghost i: nat)
      requires Progress(v, d, tr, cs, rs, i) && i < |rs| && r == rs[i] && r.offset == next && r.Appendable()
      modifies this, segments, dir
      ensures Progress(v, d, tr, cs, rs, i + 1) && lag == old(lag) && next == old(next) + 1
      ensures forall j :: 0 <= j < |segments| ==> segments[j] in old(segments) || fresh(segments[j])
    {
      hide Good, OnDisk, One, OneWrites, Many, ManyWrites, Extends, ApplyAll, Pack, IsPacked;
      BatchStep(cfg, v, d, cs, rs, i);
      ghost var cs1, ws := chain, ManyWrites(cfg, v, rs[..i]);
      AppendOne(r);
      ExtendsTrans(cs, cs1, chain, rs[..i], [r]);
      PackedSnoc(cs, rs[..i], r, cfg.segmentMax, cs1, chain);
      assert rs[..i] + [r] == rs[..i + 1];
      Assoc(tr, ws, OneWrites(cfg, Many(cfg, v, rs[..i]), r));
    }

    method AppendAll(items: seq<Item>, now: int64)
      requires Valid() && next + |items| < OFFSET_LIMIT && AllFit(items)
      modifies this, segments, dir
      ensures Valid() && lag == old(lag) && old(Value()).segs != []
      ensures var rs := Batch(items, now, old(next));
              && Value() == Many(cfg, old(Value()), rs)
              && dir.files == ApplyAll(old(dir.files), ManyWrites(cfg, old(Value()), rs))
              && dir.trace == old(dir.trace) + ManyWrites(cfg, old(Value()), rs)
              && Extends(chain, old(chain), rs) && IsPacked(old(chain), rs, cfg.segmentMax, chain)
    {
      hide Good, Many, ManyWrites, Extends, ApplyAll, IsPacked;
      var first := next;
      ghost var v, d, cs, tr := Value(), dir.files, chain, dir.trace;
      ghost var rs := Batch(items, now, first);
      BatchStart(cfg, v, d, cs, lag);
      assert rs[..0] == [];
      for i := 0 to |items|
        invariant Progress(v, d, tr, cs, rs, i) && lag == old(lag) && next == first + i
        invariant forall j :: 0 <= j < |segments| ==> segments[j] in old(segments) || fresh(segments[j])
      {
        hide Progress;
        assert Fits(items[i]);
        AppendNext(Record(next, now, items[i].key, items[i].value), v, d, tr, cs, rs, i);
      }
      assert rs[..|rs|] == rs;
    }

    /** Roll if the active segment would outgrow its limit. */
    method Prepare(size: nat)
      requires Shape() && segments != [] && next < OFFSET_LIMIT
      requires segments[|segments| - 1].size > 0 ==> forall kind :: Name(next, kind) !in dir.files
      modifies this, segments, dir
      ensures Shape() && segments != [] && next == old(next) && chain == old(chain) && lag == old(lag)
      ensures Value() == Prepared(cfg, old(Value()), size)
      ensures dir.files == ApplyAll(old(dir.files), PrepareWrites(cfg, old(Value()), size))
      ensures dir.trace == old(dir.trace) + PrepareWrites(cfg, old(Value()), size)
      ensures forall i :: 0 <= i < |segments| ==> segments[i] in old(segments) || fresh(segments[i])
    {
      hide ApplyAll, RollWrites, Rolled;
      var active := segments[|segments| - 1];
      assert active.Value() == Active(Value());
      NoneApplied(dir.files);
      if active.size > 0 && active.size + size > cfg.segmentMax {
        Roll();
        assert segments == segments[..|segments| - 1] + [segments[|segments| - 1]];
      }
    }

    /** The active segment takes the record. */
    method AppendActive(r: Stored)
      requires Shape() && segments != [] && !segments[|segments| - 1].isSealed && r.Appendable()
      modifies this, segments[|segments| - 1], dir
      ensures Shape() && segments == old(segments) && chain == old(chain) && lag == old(lag)
      ensures Value() == Put(old(Value()), r)
      ensures dir.files == ApplyAll(old(dir.files), AppendWrites(Active(old(Value())), r))
      ensures dir.trace == old(dir.trace) + AppendWrites(Active(old(Value())), r)
    {
      hide ApplyAll, AppendWrites, Appended;
      ghost var v := Value();
      var active := segments[|segments| - 1];
      assert active.Value() == Active(v);
      var status := active.Append(r);
      next := next + 1;
      assert Values() == Put(v, r).segs;
    }

    /** Prepare, then append. */
    method RollAndAppend(r: Stored)
      requires Shape() && segments != [] && next < OFFSET_LIMIT && r.Appendable()
      requires segments[|segments| - 1].size > 0 ==> forall kind :: Name(next, kind) !in dir.files
      requires !Active(Prepared(cfg, Value(), r.Size())).isSealed
      modifies this, segments, dir
      ensures Shape() && segments != [] && chain == old(chain) && lag == old(lag)
      ensures Value() == One(cfg, old(Value()), r)
      ensures dir.files == ApplyAll(old(dir.files), OneWrites(cfg, old(Value()), r))
      ensures dir.trace == old(dir.trace) + OneWrites(cfg, old(Value()), r)
      ensures forall i :: 0 <= i < |segments| ==> segments[i] in old(segments) || fresh(segments[i])
    {
      hide ApplyAll, PrepareWrites, Prepared, Put, AppendWrites, Active, Shape, One, OneWrites;
      OneSplit(cfg, Value(), dir.files, dir.trace, r);
      Prepare(r.Size());
      LastIsActive();
      AppendActive(r);
    }

    /** One record of `append_with_timestamp` or `append_batch`. */
    method AppendOne(r: Stored)
      requires Valid() && r.offset == next && next + 1 < OFFSET_LIMIT && r.Appendable()
      modifies this, segments, dir
      ensures Valid() && lag == old(lag)
      ensures old(Value()).segs != []
      ensures Value() == One(cfg, old(Value()), r)
      ensures dir.files == ApplyAll(old(dir.files), OneWrites(cfg, old(Value()), r))
      ensures dir.trace == old(dir.trace) + OneWrites(cfg, old(Value()), r)
      ensures Extends(chain, old(chain), [r])
      ensures old(chain) != [] && Last(old(chain)).End() == old(next)
      ensures chain == Pack(old(chain), r, cfg.segmentMax)
      ensures forall i :: 0 <= i < |segments| ==> segments[i] in old(segments) || fresh(segments[i])
    {
      hide Good, OnDisk, ApplyAll, One, OneWrites, Prepared, Extends, OneChunks, Active, Pack;
      ghost var d, v, cs := dir.files, Value(), chain;
      GoodShape(cfg, v, d, cs, lag);
      OneGood(cfg, v, d, cs, lag, r);
      RollsExactly(cfg, v, d, cs, lag, r);
      NothingBeyond(cfg, v, d, cs, lag);
      LastIsActive();
      PreparedUnsealed(cfg, v, d, cs, lag, r.Size());
      RollAndAppend(r);
      ghost var w := Value();
      chain := OneChunks(cfg, v, cs, r);
      assert Values() == w.segs;
      assert Good(cfg, w, dir.files, chain, lag);
    }

    // ---- Reading ---------------------------------------------------------------------------

    /** The records that memory and directory describe. */
    ghost function Flattened(): seq<Stored>
      requires lag <= |chain|
      reads this
    {
      Flat(chain[lag..])
    }

    /** The last segment that starts at or before the offset. */
    method FindSegment(start: uint64) returns (i: nat)
      requires segments != [] && segments[0].base <= start
      ensures i < |segments| && segments[i].base <= start
      ensures i + 1 < |segments| ==> start < segments[i + 1].base
    {
      i := 0;
      while i + 1 < |segments| && segments[i + 1].base <= start
        invariant i < |segments| && segments[i].base <= start
      {
        i := i + 1;
      }
    }

    /** The inner loop of a read: from the sparse lookup to the end of one segment. */
    static method ReadSegment(seg: LogSegment, start: uint64, messages: nat, bytes: nat, before: seq<Stored>,
                              totalBefore: nat,
                              ghost c: Chunk, ghost flat: seq<Stored>, ghost e: uint64)
      returns (done: bool, status: ReadStatus, records: seq<Stored>, total: nat)
      requires SegmentModel.Serves(seg.Value(), c.recs) && seg.base == c.base && Located(flat, e, c)
      requires Content(seg.dir.files, seg.LogName()) == Flatten(c.recs)
      requires totalBefore == SizeOf(before) && OpenPage(flat, before, start - e, c.base - e, messages, bytes)
      ensures status == Ok && total == SizeOf(records)
      ensures done ==> 0 <= start - e <= |flat| && IsPage(flat[start - e..], records, messages, bytes)
      ensures !done ==> OpenPage(flat, records, start - e, c.End() - e, messages, bytes)
    {
      hide IsPage, Reaches, RecordAt, Flatten, SizeOf, OpenPage, Lookup, Sound;
      ghost var v := seg.Value();
      done, status, records, total := false, Ok, before, totalBefore;
      var found := seg.LookupFilePosition(start);
      ghost var k := LookupLands(v, c.recs, start);
      PageSkips(flat, records, start - e, c.base - e, c.base + k - e, messages, bytes);
      var pos: nat := found;
      while pos < seg.size && !done
        invariant 0 <= k <= |c.recs| && pos == Pos(c.recs, k)
        invariant status == Ok && total == SizeOf(records)
        invariant done ==> 0 <= start - e <= |flat| && IsPage(flat[start - e..], records, messages, bytes)
        invariant !done ==> OpenPage(flat, records, start - e, c.base + k - e, messages, bytes)
        decreases seg.size - pos
      {
        InsideSegment(c.recs, k);
        RecordAtStart(v, c.recs, k);
        var r := seg.ReadRecordAt(pos);
        if !r.Got? {
          if r.Bad? {
            done, status := true, Damaged;
          }
          break;
        }
        var rec := r.record;
        pos := pos + 28 + |rec.key| + |rec.value|;
        if rec.offset < start {
          PassOver(flat, records, start - e, c.base + k - e, messages, bytes);
        } else {
          Join(flat, records, start - e, c.base + k - e, messages, bytes);
          records := records + [rec];
          total := total + rec.Size();
          done := |records| >= messages || total >= bytes;
          ReachesIs(records, total, messages, bytes);
        }
        k := k + 1;
      }
      SegmentEnds(c, k, pos, seg.size);
    }

    /** `Partition::read`: segment selection, sparse lookup and forward scan return a page of the flat log. */
    method Read(start: uint64, messages: nat, bytes: nat) returns (status: ReadStatus, records: seq<Stored>)
      requires Valid()
      ensures lag < |chain| && Earliest() == chain[lag].base && next == Earliest() + |Flattened()|
      ensures start > next || start < Earliest() ==> status == OutOfRange && records == []
      ensures Earliest() <= start <= next ==>
                status == Ok && IsPage(Flattened()[start - Earliest()..], records, messages, bytes)
    {
      hide Good, Flat, IsPage, OpenPage, LayoutOk, SegmentModel.Serves, SizeOf, Located, Consecutive, Flatten;
      ReadStart(cfg, Value(), dir.files, chain, lag);
      ghost var cs := chain[lag..];
      if start == next {
        EmptyPage(messages, bytes);
        assert Flat(cs)[start - Earliest()..] == [];
        return Ok, [];
      }
      if start > next || start < Earliest() {
        return OutOfRange, [];
      }
      ghost var flat, e := Flat(cs), Earliest();
      status, records := Ok, [];
      var i := FindSegment(start);
      var total := 0;
      ReadBase(cfg, Value(), dir.files, chain, lag, i);
      PageBegins(flat, start - e, FrontOf(cs, i) - e, messages, bytes);
      NothingSized();
      while i < |segments|
        invariant 0 <= i <= |segments| == |cs|
        invariant status == Ok && total == SizeOf(records)
        invariant OpenPage(flat, records, start - e, FrontOf(cs, i) - e, messages, bytes)
      {
        var done := false;
        SegmentServes(cfg, Value(), dir.files, chain, lag, i);
        FlatLocates(cs, i, cfg.segmentMax);
        ghost var v := Value();
        assert segments[i].Value() == v.segs[i];
        done, status, records, total := ReadSegment(segments[i], start, messages, bytes, records, total, cs[i], flat,
                                                    e);
        if done {
          return;
        }
        i := i + 1;
      }
      WholeRest(flat, records, start - e, messages, bytes);
    }

    /** Reading on from the last offset plus one, with any limits, from the earliest offset: every record, once, in
        order. */
    method PageThrough(messages: nat, bytes: nat) returns (all: seq<Stored>)
      requires Valid()
      ensures lag < |chain| && all == Flattened()
    {
      hide Good, Flat, IsPage, LayoutOk;
      ReadStart(cfg, Value(), dir.files, chain, lag);
      FollowingOffsets(chain[lag..], cfg.segmentMax);
      all := [];
      var at := Earliest();
      while at < next
        invariant Earliest() <= at <= next && at < OFFSET_LIMIT && all == Flattened()[..at - Earliest()]
        decreases next - at
      {
        var status, page := Read(at, messages, bytes);
        ghost var i := at - Earliest();
        PageInside(Flattened(), i, page, messages, bytes);
        all := all + page;
        at := page[|page| - 1].offset + 1;
        assert all == Flattened()[..i + |page|];
      }
      assert Flattened()[..|Flattened()|] == Flattened();
    }

    // ---- Opening ---------------------------------------------------------------------------

    /** One earlier segment of `open_and_recover`. */
    static method OpenEarlier(cfg: Config, dir: Directory, full: bool, base: uint64)
      returns (seg: LogSegment, bad: bool, overran: bool)
      requires |Content(dir.files, Name(base, Log))| < U32_SIZE
      modifies dir
      ensures fresh(seg) && overran == SealedOverruns(cfg, full, old(dir.files), base)
      ensures !overran ==> seg.dir == dir && seg.interval == cfg.interval && seg.base == base
      ensures !overran ==>
                var o := OpenSealed(cfg, full, old(dir.files), base);
                && seg.Value() == o.seg && bad == o.bad
                && dir.files == ApplyAll(old(dir.files), o.writes) && dir.trace == old(dir.trace) + o.writes
    {
      hide ApplyAll, Opened, Scan, Overruns, Rebuilt, RebuildWrites, SealWrites, QuickResult, Flatten, OpenWrites;
      ghost var d, tr := dir.files, dir.trace;
      seg := new LogSegment(base, cfg.interval, dir);
      seg.Open();
      OpenKeepsLog(d, base);
      OpenedBase(base, cfg.interval, d);
      ghost var v, d1, log := seg.Value(), dir.files, Content(d, Name(base, Log));
      ghost var a := OpenWrites(base);
      bad, overran := false, false;
      if seg.SealedName() !in dir.files {
        var next, over := seg.RecoverAndRebuildIndex();
        if over {
          return seg, false, true;
        }
        ghost var b, c := RebuildWrites(v, log), SealWrites(seg.Value());
        PartitionLog.SealAndMark(seg);
        ApplyConcat(d, a, b);
        ApplyConcat(d, a + b, c);
        assert dir.trace == tr + (a + b + c);
      } else {
        if full {
          var scanned, records, corruptions, over := seg.VerifyAndRebuildFull();
          if over {
            return seg, false, true;
          }
          bad := corruptions > 0;
          ApplyConcat(d, a, RebuildWrites(v, log));
          assert dir.trace == tr + (a + RebuildWrites(v, log));
        } else {
          var quick := seg.VerifyQuick();
          if quick.RunsOver? {
            return seg, false, true;
          }
          bad := quick.Fails?;
        }
        seg.Seal();
      }
    }

    /** The last segment of `open_and_recover`. */
    static method OpenLast(cfg: Config, dir: Directory, base: uint64)
      returns (seg: LogSegment, next: uint64, overran: bool)
      requires |Content(dir.files, Name(base, Log))| < U32_SIZE
      modifies dir
      ensures fresh(seg) && overran == Overruns(old(Content(dir.files, Name(base, Log))))
      ensures !overran ==> seg.dir == dir && seg.interval == cfg.interval && seg.base == base
      ensures !overran ==>
                var o := OpenActive(cfg, old(dir.files), base);
                && seg.Value() == o.seg && next == OpenNext(cfg, old(dir.files), base)
                && dir.files == ApplyAll(old(dir.files), o.writes) && dir.trace == old(dir.trace) + o.writes
    {
      hide ApplyAll, Opened, Scan, Overruns, Rebuilt, RebuildWrites, Flatten, OpenWrites, NextAfter;
      ghost var d, tr := dir.files, dir.trace;
      seg := new LogSegment(base, cfg.interval, dir);
      seg.Open();
      OpenKeepsLog(d, base);
      OpenedBase(base, cfg.interval, d);
      ghost var a, b := OpenWrites(base), RebuildWrites(seg.Value(), Content(d, Name(base, Log)));
      next, overran := seg.RecoverAndRebuildIndex();
      if overran {
        return;
      }
      if next < base {
        next := base;
      }
      ApplyConcat(d, a, b);
      assert dir.trace == tr + (a + b);
    }

    /** The segments opened so far and the listing still to be opened make up the whole recovery. */
    ghost predicate Opening(full: bool, d: Files, tr: seq<Write>, bases: seq<uint64>, i: nat)
      reads this, segments, dir
    {
      && i < |bases| == |bases[i..]| + i && Shape() && |segments| == i
      && var r, rest := OpenAll(cfg, full, d, bases), OpenAll(cfg, full, dir.files, bases[i..]);
      && r.partition == Partition(Values() + rest.partition.segs, rest.partition.next,
                                  degraded || rest.partition.degraded)
      && ApplyAll(d, r.writes) == ApplyAll(dir.files, rest.writes)
      && tr + r.writes == dir.trace + rest.writes
      && OpenOverruns(cfg, full, d, bases) == OpenOverruns(cfg, full, dir.files, bases[i..])
    }

    method OpenNextEarlier(full: bool, ghost d: Files, ghost tr: seq<Write>, bases: seq<uint64>, i: nat)
      returns (overran: bool)
      requires Opening(full, d, tr, bases, i) && i + 1 < |bases| && |Content(dir.files, Name(bases[i], Log))| < U32_SIZE
      modifies this, dir
      ensures overran ==> OpenOverruns(cfg, full, d, bases)
      ensures !overran ==> Opening(full, d, tr, bases, i + 1) && chain == old(chain) && lag == old(lag)
      ensures !overran ==> forall n: Name :: n.base != bases[i] ==> Agree(old(dir.files), dir.files, n)
      ensures !overran ==> segments[..i] == old(segments) && fresh(segments[i])
      ensures overran ==> Shape() && segments == old(segments)
    {
      hide ApplyAll, OpenSealed, OpenAll, OpenOverruns, SealedOverruns, Agree;
      OverrunsUnfold(cfg, full, dir.files, bases, i);
      OpenAllUnfold(cfg, full, dir.files, bases, i, Values(), dir.trace);
      OpenedAgrees(cfg, full, dir.files, bases[i]);
      var seg, bad, over := OpenEarlier(cfg, dir, full, bases[i]);
      overran := over;
      if overran {
        return;
      }
      Push(seg, degraded || bad, next);
    }

    method Push(seg: LogSegment, bad: bool, after: nat)
      requires Shape() && seg !in segments && seg.dir == dir && seg.interval == cfg.interval
      modifies this
      ensures Shape() && segments == old(segments) + [seg] && degraded == bad && next == after
      ensures Values() == old(Values()) + [seg.Value()] && chain == old(chain) && lag == old(lag)
    {
      segments := segments + [seg];
      degraded, next := bad, after;
    }

    method OpenFinal(full: bool, ghost d: Files, ghost tr: seq<Write>, bases: seq<uint64>) returns (overran: bool)
      requires bases != [] && Opening(full, d, tr, bases, |bases| - 1)
      requires |Content(dir.files, Name(bases[|bases| - 1], Log))| < U32_SIZE
      modifies this, dir
      ensures Shape() && overran == OpenOverruns(cfg, full, d, bases)
      ensures !overran ==> chain == old(chain) && lag == old(lag)
      ensures !overran ==> Value() == OpenAll(cfg, full, d, bases).partition
      ensures !overran ==> dir.files == ApplyAll(d, OpenAll(cfg, full, d, bases).writes)
      ensures !overran ==> dir.trace == tr + OpenAll(cfg, full, d, bases).writes
    {
      hide ApplyAll, OpenSealed, OpenActive, OpenNext, Overruns;
      var base := bases[|bases| - 1];
      assert bases[|bases| - 1..] == [base];
      var seg, after, over := OpenLast(cfg, dir, base);
      overran := over;
      if overran {
        return;
      }
      Push(seg, degraded, after);
    }

    /** `Partition::open_and_recover`. The decoder runs past a buffer exactly on the directories that overrun, and then
        nothing is promised; no directory that a crash can leave is of that kind. */
    method OpenAndRecover(full: bool, ghost cs: seq<Chunk>, ghost tail: bytes)
      returns (overran: bool, ghost listed: seq<uint64>)
      requires segments == [] && next == 0 && !degraded
      requires forall b: uint64 :: |Content(dir.files, Name(b, Log))| < U32_SIZE
      modifies this, dir
      ensures ListsLogs(old(dir.files), listed) && overran == RecoverOverruns(cfg, full, old(dir.files), listed)
      ensures !overran ==> Shape() && Value() == Recover(cfg, full, old(dir.files), listed).partition
      ensures !overran ==> dir.files == ApplyAll(old(dir.files), Recover(cfg, full, old(dir.files), listed).writes)
      ensures !overran ==> dir.trace == old(dir.trace) + Recover(cfg, full, old(dir.files), listed).writes
      ensures OnDisk(old(dir.files), cs, tail, cfg.segmentMax) ==>
                !overran && Valid() && chain == Started(cs) && lag == 0
    {
      hide ApplyAll, OpenAll, OpenOverruns, OnDisk, Good, ListsLogs, Started;
      ghost var d, tr := dir.files, dir.trace;
      var bases := SortedLogs(dir.files);
      listed := bases;
      if bases == [] {
        bases := [0];
      }
      RisingDistinct(d, listed, bases);
      overran := OpenListed(full, bases);
      if OnDisk(d, cs, tail, cfg.segmentMax) {
        RecoverStops(cfg, full, d, cs, tail, listed);
        RecoverGood(cfg, full, d, cs, tail, listed);
      }
      SetChain(Started(cs));
    }

    ghost method SetChain(cs: seq<Chunk>)
      modifies `chain, `lag
      ensures chain == cs && lag == 0 && Value() == old(Value())
    {
      ghost var v := Value();
      chain, lag := cs, 0;
      assert Values() == v.segs;
    }

    /** The loop of `open_and_recover`. */
    method OpenListed(full: bool, bases: seq<uint64>) returns (overran: bool)
      requires segments == [] && !degraded && bases != []
      requires forall b: uint64 :: |Content(dir.files, Name(b, Log))| < U32_SIZE
      requires forall i, j :: 0 <= i < j < |bases| ==> bases[j] != bases[i]
      modifies this, dir
      ensures Shape() && overran == OpenOverruns(cfg, full, old(dir.files), bases)
      ensures !overran ==> Value() == OpenAll(cfg, full, old(dir.files), bases).partition
      ensures !overran ==> dir.files == ApplyAll(old(dir.files), OpenAll(cfg, full, old(dir.files), bases).writes)
      ensures !overran ==> dir.trace == old(dir.trace) + OpenAll(cfg, full, old(dir.files), bases).writes
    {
      hide ApplyAll, OpenAll, OpenOverruns;
      ghost var d, tr := dir.files, dir.trace;
      assert bases[0..] == bases && Values() == [];
      assert Opening(full, d, tr, bases, 0) by {
        assert [] + OpenAll(cfg, full, d, bases).partition.segs == OpenAll(cfg, full, d, bases).partition.segs;
      }
      var i := 0;
      while i < |bases| - 1
        invariant 0 <= i < |bases| && Opening(full, d, tr, bases, i)
        invariant forall j :: i <= j < |bases| ==> Agree(d, dir.files, Name(bases[j], Log))
        decreases |bases| - i
      {
        hide Opening;
        overran := OpenNextEarlier(full, d, tr, bases, i);
        if overran {
          return;
        }
        i := i + 1;
      }
      hide Opening;
      overran := OpenFinal(full, d, tr, bases);
    }

    // ---- Retention -------------------------------------------------------------------------

    method CountExpired(now: int64, ageMs: uint64) returns (count: nat)
      requires segments != []
      ensures count == AgeCount(Values(), now, ageMs)
    {
      count := 0;
      ghost var vs := Values();
      assert vs[0..] == vs;
      while count < |segments| - 1 && segments[count].maxTimestamp > 0 &&
          now - segments[count].maxTimestamp > ToSigned(ageMs)
        invariant 0 <= count <= |segments| - 1
        invariant AgeCount(vs, now, ageMs) == count + AgeCount(vs[count..], now, ageMs)
      {
        assert vs[count] == segments[count].Value();
        assert vs[count..][1..] == vs[count + 1..];
        count := count + 1;
      }
      assert count < |segments| - 1 ==> vs[count] == segments[count].Value();
    }

    method CountOversize(budget: uint64) returns (count: nat)
      requires segments != []
      ensures count == SizeCount(Values(), budget)
    {
      ghost var vs := Values();
      assert vs[0..] == vs;
      var total := 0;
      var i := |segments|;
      while i > 0
        invariant 0 <= i <= |segments|
        invariant total == Total(vs[i..])
      {
        i := i - 1;
        assert vs[i] == segments[i].Value();
        assert vs[i..][1..] == vs[i + 1..];
        total := total + segments[i].size;
      }
      count := 0;
      while count < |segments| - 1 && total > budget
        invariant 0 <= count <= |segments| - 1
        invariant total == Total(vs[count..])
        invariant SizeCount(vs, budget) == count + SizeCount(vs[count..], budget)
      {
        assert vs[count] == segments[count].Value();
        assert vs[count..][1..] == vs[count + 1..];
        total := total - segments[count].size;
        count := count + 1;
      }
    }

    method ListFiles(count: nat) returns (names: seq<Name>)
      requires count <= |segments|
      ensures names == FilesOfAll(SegBases(Values()[..count]))
    {
      ghost var vs := Values();
      names := [];
      for i := 0 to count
        invariant names == FilesOfAll(SegBases(vs[..i]))
      {
        ListMore(vs, i);
        assert vs[i] == segments[i].Value();
        names := names + FilesOf(segments[i].base);
      }
    }

    /** `Partition::scan_and_delete_segments`, up to the point where the lock is released: the segments leave memory and
        their files are listed for removal. */
    method ScanAndDrop(now: int64, ageMs: uint64, budget: uint64, dryRun: bool) returns (doomed: seq<Name>)
      requires Valid()
      modifies this
      ensures Valid() && chain == old(chain)
      ensures var k := DropCount(old(Values()), now, ageMs, budget);
              && k < |old(segments)|
              && doomed == FilesOfAll(SegBases(old(Values())[..k]))
              && (dryRun ==> Value() == old(Value()) && lag == old(lag))
              && (!dryRun ==> Value() == Dropped(old(Value()), k) && lag == old(lag) + k)
      ensures old(lag) <= lag < |chain| && next == old(next)
      ensures CutsFront(old(Flattened()), old(Earliest()), Flattened(), Earliest())
      ensures !dryRun && budget > 0 ==> |Flatten(Flattened())| <= budget || |segments| == 1
      ensures |old(segments)| == |chain[old(lag)..]|
      ensures forall i :: 0 <= i < DropCount(old(Values()), now, ageMs, budget) ==>
                Needed(old(Values()), chain[old(lag)..], i, now, ageMs, budget)
    {
      hide Good, Live, FilesOfAll, DropCount, SegBases, Flat, CutsFront, Flatten, Needed;
      ghost var v := Value();
      GoodIsLive(cfg, v, dir.files, chain, lag);
      DropBytesExact(v, dir.files, chain[lag..], now, ageMs, budget);
      var count := CountDoomed(now, ageMs, budget);
      doomed := ListFiles(count);
      if dryRun {
        TailCutsFront(Flattened(), Earliest(), Earliest());
        assert Flattened()[0..] == Flattened();
      } else {
        assert chain[lag..][count..] == chain[lag + count..];
        Drop(count);
      }
    }

    method CountDoomed(now: int64, ageMs: uint64, budget: uint64) returns (count: nat)
      requires segments != []
      ensures count == DropCount(Values(), now, ageMs, budget)
    {
      hide AgeCount, SizeCount;
      var byAge, bySize := 0, 0;
      if ageMs > 0 {
        byAge := CountExpired(now, ageMs);
      }
      if budget > 0 {
        bySize := CountOversize(budget);
      }
      count := if byAge < bySize then bySize else byAge;
    }

    /** The first segments leave memory. */
    method Drop(count: nat)
      requires Valid() && count < |segments|
      modifies this
      ensures Valid() && chain == old(chain) && lag == old(lag) + count < |chain|
      ensures Value() == Dropped(old(Value()), count) && next == old(next)
      ensures CutsFront(old(Flattened()), old(Earliest()), Flattened(), Earliest())
    {
      hide Good, Flat, CutsFront, Shape;
      ghost var v, cs, k := Value(), chain, lag;
      GoodShape(cfg, v, dir.files, cs, k);
      DropGood(cfg, v, dir.files, cs, k, count);
      DropCuts(cfg, v, dir.files, cs, k, count);
      assert Earliest() == v.segs[0].base by { assert segments[0].Value() == v.segs[0]; }
      Forget(count);
      assert Earliest() == v.segs[count].base by { assert segments[0].Value() == Value().segs[0]; }
    }

    method Forget(count: nat)
      requires Shape() && count <= |segments| && Good(cfg, Dropped(Value(), count), dir.files, chain, lag + count)
      modifies this
      ensures Valid() && chain == old(chain) && lag == old(lag) + count && Value() == Dropped(old(Value()), count)
    {
      hide Good;
      ghost var v := Value();
      segments := segments[count..];
      lag := lag + count;
      assert Values() == v.segs[count..];
    }

    /** The removal of the listed files, after the lock is released. */
    method RemoveFiles(doomed: seq<Name>)
      modifies dir
      ensures dir.files == ApplyAll(old(dir.files), Removals(doomed)) && dir.trace == old(dir.trace) + Removals(doomed)
    {
      ghost var d := dir.files;
      for i := 0 to |doomed|
        invariant dir.files == ApplyAll(d, Removals(doomed[..i])) && dir.trace == old(dir.trace) + Removals(doomed[..i])
      {
        dir.Delete(doomed[i]);
        assert Removals(doomed[..i + 1]) == Removals(doomed[..i]) + [Remove(doomed[i])];
        ApplySnoc(d, Removals(doomed[..i]), Remove(doomed[i]));
      }
      assert doomed[..|doomed|] == doomed;
    }

    lemma LastIsActive()
      requires segments != []
      ensures segments[|segments| - 1].Value() == Active(Value())
    {
    }
  }

  lemma PageInside(flat: seq<Stored>, at: nat, page: seq<Stored>, messages: nat, bytes: nat)
    requires at < |flat| && IsPage(flat[at..], page, messages, bytes)
    ensures page != [] && at + |page| <= |flat|
    ensures forall i :: 0 <= i < |page| ==> page[i] == flat[at + i]
  {
  }

  lemma FollowingOffsets(cs: seq<Chunk>, max: uint32)
    requires LayoutOk(cs, max) && cs != []
    ensures cs[0].base + |Flat(cs)| < OFFSET_LIMIT
    ensures forall i :: 0 <= i < |Flat(cs)| ==> Flat(cs)[i].offset == cs[0].base + i
  {
    FlatOffsets(cs, max);
  }

  /** What is left after dropping segments is the end of what was there. */
  lemma DropKeepsTail(cfg: Config, p: Partition, d: Files, cs: seq<Chunk>, k: nat, count: nat)
    requires Good(cfg, p, d, cs, k) && count < |p.segs|
    ensures k + count < |cs| && 0 <= p.segs[count].base - p.segs[0].base <= |Flat(cs[k..])|
    ensures Flat(cs[k + count..]) == Flat(cs[k..])[p.segs[count].base - p.segs[0].base..]
  {
    hide Good, Flat, LayoutOk;
    ReadStart(cfg, p, d, cs, k);
    DropGood(cfg, p, d, cs, k, count);
    ReadStart(cfg, Dropped(p, count), d, cs, k + count);
    var front, rest := cs[k..k + count], cs[k + count..];
    assert cs[k..] == front + rest;
    FlatConcat(front, rest);
    assert |Flat(front)| == p.segs[count].base - p.segs[0].base;
  }

  lemma DropCuts(cfg: Config, p: Partition, d: Files, cs: seq<Chunk>, k: nat, count: nat)
    requires Good(cfg, p, d, cs, k) && count < |p.segs|
    ensures k + count < |cs| && CutsFront(Flat(cs[k..]), p.segs[0].base, Flat(cs[k + count..]), p.segs[count].base)
  {
    hide Good, Flat, CutsFront;
    DropKeepsTail(cfg, p, d, cs, k, count);
    TailCutsFront(Flat(cs[k..]), p.segs[0].base, p.segs[count].base);
  }

  lemma OneSplit(cfg: Config, p: Partition, d: Files, tr: seq<Write>, r: Stored)
    requires p.segs != [] && p.next < OFFSET_LIMIT
    ensures var q := Prepared(cfg, p, r.Size());
            var a, b := PrepareWrites(cfg, p, r.Size()), AppendWrites(Active(q), r);
            && One(cfg, p, r) == Put(q, r)
            && ApplyAll(d, OneWrites(cfg, p, r)) == ApplyAll(ApplyAll(d, a), b)
            && tr + OneWrites(cfg, p, r) == tr + a + b
  {
    hide ApplyAll, PrepareWrites, Prepared, Put, AppendWrites, Active;
    var a, b := PrepareWrites(cfg, p, r.Size()), AppendWrites(Active(Prepared(cfg, p, r.Size())), r);
    ApplyConcat(d, a, b);
    Assoc(tr, a, b);
  }

  lemma BatchStart(cfg: Config, p: Partition, d: Files, cs: seq<Chunk>, k: nat)
    requires Good(cfg, p, d, cs, k) && p.next < OFFSET_LIMIT
    ensures p.segs != [] && cs != [] && Many(cfg, p, []) == p && ManyWrites(cfg, p, []) == [] && ApplyAll(d, []) == d
    ensures Extends(cs, cs, []) && IsPacked(cs, [], cfg.segmentMax, cs)
  {
    hide Good, OnDisk;
    GoodShape(cfg, p, d, cs, k);
    ExtendsSelf(cs);
    GoodEnd(cfg, p, d, cs, k);
    PackedNone(cs, cfg.segmentMax);
  }

  lemma BatchStep(cfg: Config, p: Partition, d: Files, cs: seq<Chunk>, rs: seq<Stored>, i: nat)
    requires p.segs != [] && i < |rs| && p.next + |rs| < OFFSET_LIMIT
    ensures Many(cfg, p, rs[..i]).segs != [] && Many(cfg, p, rs[..i]).next == p.next + i
    ensures Many(cfg, p, rs[..i + 1]) == One(cfg, Many(cfg, p, rs[..i]), rs[i])
    ensures var a, b := ManyWrites(cfg, p, rs[..i]), OneWrites(cfg, Many(cfg, p, rs[..i]), rs[i]);
            && ManyWrites(cfg, p, rs[..i + 1]) == a + b
            && ApplyAll(d, a + b) == ApplyAll(ApplyAll(d, a), b)
  {
    hide One, OneWrites, ApplyAll, Many, ManyWrites;
    assert rs[..i + 1] == rs[..i] + [rs[i]];
    ManySnoc(cfg, p, rs[..i], rs[i]);
    ApplyConcat(d, ManyWrites(cfg, p, rs[..i]), OneWrites(cfg, Many(cfg, p, rs[..i]), rs[i]));
  }

  lemma ReadStart(cfg: Config, p: Partition, d: Files, cs: seq<Chunk>, k: nat)
    requires Good(cfg, p, d, cs, k)
    ensures k < |cs| && |p.segs| == |cs[k..]| > 0 && p.segs[0].base == cs[k].base == cs[k..][0].base
    ensures LayoutOk(cs[k..], cfg.segmentMax)
    ensures p.next == cs[k].base + |Flat(cs[k..])| && FrontOf(cs[k..], |p.segs|) == p.next
  {
    hide Good, OnDisk, LayoutOk, Flat;
    GoodShape(cfg, p, d, cs, k);
    LayoutOf(d, cs, cfg.segmentMax);
    LayoutSuffix(cs, k, cfg.segmentMax);
    FlatOffsets(cs[k..], cfg.segmentMax);
    DroppedBases(cfg, p, d, cs, k, 0);
    assert Last(cs[k..]) == Last(cs);
  }

  lemma ReadBase(cfg: Config, p: Partition, d: Files, cs: seq<Chunk>, k: nat, i: nat)
    requires Good(cfg, p, d, cs, k) && i < |p.segs|
    ensures k + i < |cs| && p.segs[i].base == cs[k + i].base == cs[k..][i].base
  {
    hide Good, OnDisk;
    GoodShape(cfg, p, d, cs, k);
    DroppedBases(cfg, p, d, cs, k, i);
  }

  lemma SegmentServes(cfg: Config, p: Partition, d: Files, cs: seq<Chunk>, k: nat, i: nat)
    requires Good(cfg, p, d, cs, k) && i < |cs| - k
    ensures k < |cs| && |p.segs| == |cs| - k && SegmentModel.Serves(p.segs[i], cs[k..][i].recs)
    ensures p.segs[i].base == cs[k..][i].base && Consecutive(cs[k..][i].base, cs[k..][i].recs)
    ensures Content(d, Name(p.segs[i].base, Log)) == Flatten(cs[k..][i].recs) && LayoutOk(cs[k..], cfg.segmentMax)
  {
    hide OnDisk, ActiveOk, Flatten, Sound;
    GoodShape(cfg, p, d, cs, k);
    assert SegLive(p.segs[i], d, cs[k..][i]);
    LayoutOf(d, cs, cfg.segmentMax);
    hide LayoutOk;
    LayoutSuffix(cs, k, cfg.segmentMax);
  }

  lemma PageBegins(flat: seq<Stored>, start: nat, at: int, messages: nat, bytes: nat)
    requires at <= start <= |flat|
    ensures OpenPage(flat, [], start, at, messages, bytes)
  {
    hide Reaches;
  }

  lemma PageSkips(flat: seq<Stored>, page: seq<Stored>, start: int, at: int, to: int, messages: nat, bytes: nat)
    requires OpenPage(flat, page, start, at, messages, bytes) && (to == at || at <= to <= start)
    ensures OpenPage(flat, page, start, to, messages, bytes)
  {
    hide Reaches;
  }

  lemma InsideSegment(rs: seq<Stored>, k: nat)
    requires k <= |rs| && Pos(rs, k) < |Flatten(rs)|
    ensures k < |rs| && Pos(rs, k + 1) == Pos(rs, k) + rs[k].Size()
  {
    hide Flatten;
    assert rs[..|rs|] == rs;
    if k < |rs| {
      FlattenAt(rs, k);
    }
  }

  lemma SegmentEnds(c: Chunk, k: nat, pos: nat, size: nat)
    requires k <= |c.recs| && pos == Pos(c.recs, k) && size == |Flatten(c.recs)|
    ensures pos >= size ==> c.base + k == c.End()
  {
    hide Flatten;
    if k < |c.recs| {
      FlattenAt(c.recs, k);
    }
  }

  lemma NothingSized()
    ensures SizeOf([]) == 0
  {
  }

  lemma ReachesIs(page: seq<Stored>, total: nat, messages: nat, bytes: nat)
    requires total == SizeOf(page)
    ensures Reaches(page, messages, bytes) <==> |page| >= messages || total >= bytes
  {
  }

  /** The records of a segment sit in the flat log where their offsets say. */
  ghost predicate Located(flat: seq<Stored>, e: uint64, c: Chunk) {
    && e <= c.base && c.End() - e <= |flat|
    && Consecutive(c.base, c.recs)
    && forall k :: 0 <= k < |c.recs| ==> flat[c.base + k - e] == c.recs[k]
  }

  lemma FrontsFollow(cs: seq<Chunk>, i: nat, max: uint32)
    requires LayoutOk(cs, max) && i < |cs|
    ensures FrontOf(cs, i) == cs[i].base && FrontOf(cs, i + 1) == cs[i].End()
    ensures cs[0].base <= cs[i].base && cs[i].End() <= Last(cs).End()
  {
    hide ChunkOk;
    if i > 0 {
      BasesRise(cs, 0, i);
    }
    if i < |cs| - 1 {
      BasesRise(cs, i, |cs| - 1);
    }
  }

  lemma FlatLocates(cs: seq<Chunk>, i: nat, max: uint32)
    requires LayoutOk(cs, max) && i < |cs|
    ensures Located(Flat(cs), cs[0].base, cs[i])
    ensures FrontOf(cs, i) == cs[i].base && FrontOf(cs, i + 1) == cs[i].End()
  {
    hide Flat, LayoutOk, Consecutive;
    LayoutConsecutive(cs, i, max);
    FrontsFollow(cs, i, max);
    FlatOffsets(cs, max);
    forall k | 0 <= k < |cs[i].recs|
      ensures cs[i].base + k - cs[0].base < |Flat(cs)|
      ensures Flat(cs)[cs[i].base + k - cs[0].base] == cs[i].recs[k]
    {
      FlatAt(cs, i, k, max);
    }
  }

  lemma LayoutConsecutive(cs: seq<Chunk>, i: nat, max: uint32)
    requires LayoutOk(cs, max) && i < |cs|
    ensures Consecutive(cs[i].base, cs[i].recs)
  {
    assert ChunkOk(cs[i], max);
  }

  function Removals(names: seq<Name>): (ws: seq<Write>)
    ensures |ws| == |names| && forall i :: 0 <= i < |names| ==> ws[i] == Remove(names[i])
  {
    seq(|names|, i requires 0 <= i < |names| => Remove(names[i]))
  }

  lemma ListMore(segs: seq<Segment>, i: nat)
    requires i < |segs|
    ensures FilesOfAll(SegBases(segs[..i + 1])) == FilesOfAll(SegBases(segs[..i])) + FilesOf(segs[i].base)
  {
    var a := SegBases(segs[..i]);
    assert SegBases(segs[..i + 1]) == a + [segs[i].base];
    FilesOfAllConcat(a, [segs[i].base]);
    assert FilesOfAll([segs[i].base]) == FilesOf(segs[i].base) + FilesOfAll([]);
  }

  lemma OpenKeepsLog(d: Files, base: uint64)
    ensures var d' := ApplyAll(d, OpenWrites(base));
            && Name(base, Log) in d' && d'[Name(base, Log)] == Content(d, Name(base, Log)) && Name(base, Index) in d'
            && (Name(base, Sealed) in d' <==> Name(base, Sealed) in d)
  {
    TwoWrites(d, Create(Name(base, Log)), Create(Name(base, Index)));
  }

  // ---- Listing the directory ----------------------------------------------------------------

  /** Where a number belongs in a rising list that does not hold it. */
  method Insert(bases: seq<uint64>, b: uint64) returns (r: seq<uint64>)
    requires (forall i, j :: 0 <= i < j < |bases| ==> bases[i] < bases[j]) && b !in bases
    ensures forall i, j :: 0 <= i < j < |r| ==> r[i] < r[j]
    ensures forall x: uint64 :: x in r <==> x in bases || x == b
  {
    var k := 0;
    while k < |bases| && bases[k] < b
      invariant 0 <= k <= |bases| && forall i :: 0 <= i < k ==> bases[i] < b
    {
      k := k + 1;
    }
    r := bases[..k] + [b] + bases[k..];
    forall j | k <= j < |bases|
      ensures b < bases[j]
    {
      assert bases[k] != b && bases[k] <= bases[j];
    }
    InsertedMembers(bases, k, b);
  }

  lemma InsertedMembers(bases: seq<uint64>, k: nat, b: uint64)
    requires k <= |bases|
    ensures forall x: uint64 :: x in bases[..k] + [b] + bases[k..] <==> x in bases || x == b
  {
    assert bases == bases[..k] + bases[k..];
  }

  /** The base offsets of all log files, in ascending order. */
  method SortedLogs(files: Files) returns (bases: seq<uint64>)
    ensures ListsLogs(files, bases)
  {
    var todo := set n | n in files && n.kind == Log;
    bases := [];
    while todo != {}
      invariant forall i, j :: 0 <= i < j < |bases| ==> bases[i] < bases[j]
      invariant forall n :: n in todo ==> n in files && n.kind == Log
      invariant forall b: uint64 :: b in bases <==> Name(b, Log) in files && Name(b, Log) !in todo
      decreases |todo|
    {
      var n :| n in todo;
      assert n == Name(n.base, Log);
      todo := todo - {n};
      bases := Insert(bases, n.base);
    }
  }

  lemma RisingDistinct(d: Files, listed: seq<uint64>, bases: seq<uint64>)
    requires ListsLogs(d, listed) && bases == (if listed == [] then [0] else listed)
    ensures forall i, j :: 0 <= i < j < |bases| ==> bases[j] != bases[i]
  {
  }

  lemma OpenedAgrees(cfg: Config, full: bool, d: Files, base: uint64)
    ensures forall n: Name :: n.base != base ==> Agree(d, ApplyAll(d, OpenSealed(cfg, full, d, base).writes), n)
  {
    hide OpenSealed, ApplyAll, Agree;
    OpenedAt(cfg, full, d, base);
    forall n: Name | n.base != base
      ensures Agree(d, ApplyAll(d, OpenSealed(cfg, full, d, base).writes), n)
    {
      OthersAgree(d, OpenSealed(cfg, full, d, base).writes, base, n);
    }
  }

  lemma OverrunsUnfold(cfg: Config, full: bool, d: Files, bases: seq<uint64>, i: nat)
    requires i + 1 < |bases|
    ensures OpenOverruns(cfg, full, d, bases[i..]) ==
            (|| SealedOverruns(cfg, full, d, bases[i])
             || OpenOverruns(cfg, full, ApplyAll(d, OpenSealed(cfg, full, d, bases[i]).writes), bases[i + 1..]))
  {
    hide SealedOverruns, OpenSealed, ApplyAll;
    assert bases[i..][1..] == bases[i + 1..];
  }

  lemma OpenAllUnfold(cfg: Config, full: bool, d: Files, bases: seq<uint64>, i: nat, vs: seq<Segment>, tr: seq<Write>)
    requires i + 1 < |bases|
    ensures var o := OpenSealed(cfg, full, d, bases[i]);
            var r, rest := OpenAll(cfg, full, d, bases[i..]), OpenAll(cfg, full, ApplyAll(d, o.writes), bases[i + 1..]);
            && r.partition.next == rest.partition.next && r.partition.degraded == (o.bad || rest.partition.degraded)
            && vs + r.partition.segs == (vs + [o.seg]) + rest.partition.segs
            && ApplyAll(d, r.writes) == ApplyAll(ApplyAll(d, o.writes), rest.writes)
            && tr + r.writes == (tr + o.writes) + rest.writes
  {
    hide ApplyAll, OpenSealed, OpenActive, OpenNext;
    assert bases[i..][1..] == bases[i + 1..] && bases[i..][0] == bases[i];
    var o := OpenSealed(cfg, full, d, bases[i]);
    var rest := OpenAll(cfg, full, ApplyAll(d, o.writes), bases[i + 1..]);
    ApplyConcat(d, o.writes, rest.writes);
    Assoc(vs, [o.seg], rest.partition.segs);
    Assoc(tr, o.writes, rest.writes);
  }

  lemma RolledSegs(cfg: Config, p: Partition, vs: seq<Segment>)
    requires p.segs != [] && p.next < OFFSET_LIMIT && |vs| == |p.segs| + 1
    requires forall i :: 0 <= i < |p.segs| - 1 ==> vs[i] == p.segs[i]
    requires vs[|p.segs| - 1] == Active(p).(isSealed := true) && vs[|p.segs|] == Fresh(p.next, cfg.interval)
    ensures Rolled(cfg, p) == Partition(vs, p.next, p.degraded)
  {
  }

  lemma FreshOpened(base: uint64, interval: uint32, d: Files)
    requires forall kind :: Name(base, kind) !in d
    ensures Opened(base, interval, d) == Fresh(base, interval)
  {
  }

  lemma NoneApplied(d: Files)
    ensures ApplyAll(d, []) == d
  {
  }

  lemma SealsAlike(s: Segment)
    ensures SealWrites(s.(isSealed := true)) == SealWrites(s)
  {
    hide MarkerBytes;
  }

  lemma NothingBeyond(cfg: Config, p: Partition, d: Files, cs: seq<Chunk>, k: nat)
    requires Good(cfg, p, d, cs, k)
    ensures p.segs != []
    ensures Active(p).size > 0 && p.next < OFFSET_LIMIT ==> forall kind :: Name(p.next, kind) !in d
  {
    hide OnDisk, SegLive, Flatten, Sound, Crc32.Feed;
    GoodShape(cfg, p, d, cs, k);
    assert Last(cs[k..]) == Last(cs);
    NothingFlat();
    if Active(p).size > 0 && p.next < OFFSET_LIMIT {
      forall kind
        ensures Name(p.next, kind) !in d
      {
        BeyondLast(d, cs, cfg.segmentMax, Name(p.next, kind));
      }
    }
  }

  lemma PreparedUnsealed(cfg: Config, p: Partition, d: Files, cs: seq<Chunk>, k: nat, size: nat)
    requires Good(cfg, p, d, cs, k) && p.segs != [] && p.next < OFFSET_LIMIT
    ensures !Active(Prepared(cfg, p, size)).isSealed
  {
    hide OnDisk, SegLive, Tracks;
  }
}
