/** A partition as a value: its segments in memory, and the writes its operations make. */
module PartitionModel {
  import opened Bytes
  import opened RecordCodec
  import opened LogFile
  import opened OffsetIndex
  import opened Disk
  import opened SegmentModel
  import opened Layout

  datatype Config = Config(segmentMax: uint32, interval: uint32)

  datatype Partition = Partition(segs: seq<Segment>, next: nat, degraded: bool)

  datatype Item = Item(key: bytes, value: bytes)

  /** The size check that every append makes before anything is written. */
  predicate Fits(item: Item) {
    28 + |item.key| + |item.value| <= MAX_RECORD_SIZE
  }

  predicate AllFit(items: seq<Item>) {
    forall i :: 0 <= i < |items| ==> Fits(items[i])
  }

  /** The records of a batch, with the offsets they get. */
  function Batch(items: seq<Item>, timestamp: int64, next: nat): (rs: seq<Stored>)
    requires AllFit(items) && next + |items| < OFFSET_LIMIT
    ensures |rs| == |items|
    ensures forall i :: 0 <= i < |items| ==> rs[i] == Record(next + i, timestamp, items[i].key, items[i].value)
  {
    seq(|items|, i requires 0 <= i < |items| => Record(next + i, timestamp, items[i].key, items[i].value))
  }

  function Active(p: Partition): Segment
    requires p.segs != []
  {
    p.segs[|p.segs| - 1]
  }

  // ---- Appending ---------------------------------------------------------------------------

  predicate RollDue(cfg: Config, p: Partition, size: nat)
    requires p.segs != []
  {
    Active(p).size > 0 && Active(p).size + size > cfg.segmentMax
  }

  /** A new, empty segment takes over; the old one is sealed. */
  function Rolled(cfg: Config, p: Partition): Partition
    requires p.segs != [] && p.next < OFFSET_LIMIT
  {
    p.(segs := p.segs[..|p.segs| - 1] + [Active(p).(isSealed := true), Fresh(p.next, cfg.interval)])
  }

  function RollWrites(p: Partition): seq<Write>
    requires p.segs != [] && p.next < OFFSET_LIMIT
  {
    OpenWrites(p.next) + SealWrites(Active(p))
  }

  function Prepared(cfg: Config, p: Partition, size: nat): (q: Partition)
    requires p.segs != [] && p.next < OFFSET_LIMIT
    ensures q.segs != [] && q.next == p.next
  {
    if RollDue(cfg, p, size) then Rolled(cfg, p) else p
  }

  function PrepareWrites(cfg: Config, p: Partition, size: nat): seq<Write>
    requires p.segs != [] && p.next < OFFSET_LIMIT
  {
    if RollDue(cfg, p, size) then RollWrites(p) else []
  }

  function Put(p: Partition, r: Stored): Partition
    requires p.segs != []
  {
    p.(segs := p.segs[..|p.segs| - 1] + [Appended(Active(p), r)], next := p.next + 1)
  }

  /** One record appended, after a roll if the active segment would outgrow its limit. */
  function One(cfg: Config, p: Partition, r: Stored): (q: Partition)
    requires p.segs != [] && p.next < OFFSET_LIMIT
    ensures q.segs != [] && q.next == p.next + 1
  {
    Put(Prepared(cfg, p, r.Size()), r)
  }

  function OneWrites(cfg: Config, p: Partition, r: Stored): seq<Write>
    requires p.segs != [] && p.next < OFFSET_LIMIT
  {
    PrepareWrites(cfg, p, r.Size()) + AppendWrites(Active(Prepared(cfg, p, r.Size())), r)
  }

  /** Every record may be appended in turn: sizes are within the limit, and offsets follow on. */
  ghost predicate Following(next: nat, rs: seq<Stored>) {
    && next + |rs| < OFFSET_LIMIT
    && forall i :: 0 <= i < |rs| ==> rs[i].offset == next + i
  }

  lemma FollowingTail(next: nat, rs: seq<Stored>)
    requires Following(next, rs) && rs != []
    ensures Following(next + 1, rs[1..])
  {
  }

  function Many(cfg: Config, p: Partition, rs: seq<Stored>): Partition
    requires p.segs != [] && p.next + |rs| < OFFSET_LIMIT
    decreases |rs|
  {
    if rs == [] then p else Many(cfg, One(cfg, p, rs[0]), rs[1..])
  }

  function ManyWrites(cfg: Config, p: Partition, rs: seq<Stored>): seq<Write>
    requires p.segs != [] && p.next + |rs| < OFFSET_LIMIT
    decreases |rs|
  {
    if rs == [] then [] else OneWrites(cfg, p, rs[0]) + ManyWrites(cfg, One(cfg, p, rs[0]), rs[1..])
  }

  // ---- What a partition in memory means ----------------------------------------------------

  /** A segment serves its records, and its summary is theirs, or lost with its marker. */
  ghost predicate SegLive(s: Segment, d: Files, c: Chunk) {
    && s.base == c.base
    && Serves(s, c.recs)
    && (Summarises(s, c.recs) || (SummaryLost(s) && CutMarker(d, c.base)))
    && Name(c.base, Log) in d
    && d[Name(c.base, Log)] == Flatten(c.recs)
  }

  /** The active segment tracks its records exactly, accepts appends, and mirrors its index in its file. */
  ghost predicate ActiveOk(s: Segment, d: Files, c: Chunk) {
    && s.base == c.base
    && Tracks(s, c.recs)
    && !s.isSealed
    && Name(c.base, Index) in d
    && d[Name(c.base, Index)] == Save(s.entries)
  }

  /** Memory describes exactly these segments, all of them are on disk, and the next offset follows on. */
  ghost predicate Live(p: Partition, d: Files, cs: seq<Chunk>) {
    && |p.segs| == |cs| > 0
    && (forall i :: 0 <= i < |cs| ==> SegLive(p.segs[i], d, cs[i]))
    && ActiveOk(Active(p), d, Last(cs))
    && p.next == Last(cs).End()
    && !p.degraded
  }

  /** The directory holds the chain `cs`, and memory describes it from segment `k` on
      (earlier segments have been dropped by retention and wait for their files to be removed). */
  ghost predicate Good(cfg: Config, p: Partition, d: Files, cs: seq<Chunk>, k: nat) {
    && OnDisk(d, cs, [], cfg.segmentMax)
    && k < |cs|
    && Live(p, d, cs[k..])
  }

  // ---- Crashes -----------------------------------------------------------------------------

  function Torn1(w: Write, n: nat): Write {
    match w
    case Append(name, data) => Append(name, data[..if n <= |data| then n else |data|])
    case _ => w
  }

  /** The directory after the first `i` writes. */
  function After(d: Files, ws: seq<Write>, i: nat): Files
    requires i <= |ws|
  {
    ApplyAll(d, ws[..i])
  }

  /** The directory after the first `i` writes and, if the next one is an append, its first `n` bytes. */
  function CrashDisk(d: Files, ws: seq<Write>, i: nat, n: nat): Files
    requires i <= |ws|
  {
    if i < |ws| && ws[i].Append? then Apply(After(d, ws, i), Torn1(ws[i], n)) else After(d, ws, i)
  }

  lemma AfterStep(d: Files, ws: seq<Write>, i: nat)
    requires i < |ws|
    ensures After(d, ws, i + 1) == Apply(After(d, ws, i), ws[i])
  {
    hide Apply, ApplyAll;
    assert ws[..i + 1] == ws[..i] + [ws[i]];
    ApplySnoc(d, ws[..i], ws[i]);
  }

  lemma AfterNone(d: Files, ws: seq<Write>)
    ensures After(d, ws, 0) == d && After(d, ws, |ws|) == ApplyAll(d, ws)
  {
    assert ws[..|ws|] == ws;
  }

  lemma CrashConcat(d: Files, a: seq<Write>, b: seq<Write>, i: nat, n: nat)
    requires i <= |a| + |b|
    ensures CrashDisk(d, a + b, i, n) ==
            if i < |a| then CrashDisk(d, a, i, n) else CrashDisk(ApplyAll(d, a), b, i - |a|, n)
  {
    hide Apply, ApplyAll, Torn1;
    if i < |a| {
      assert (a + b)[..i] == a[..i];
    } else {
      assert (a + b)[..i] == a + b[..i - |a|];
      ApplyConcat(d, a, b[..i - |a|]);
    }
  }

  /** The chain grew by these records, and all segments but the last kept theirs. */
  ghost predicate Extends(cs': seq<Chunk>, cs: seq<Chunk>, rs: seq<Stored>) {
    && |cs| <= |cs'|
    && (cs != [] ==> cs'[..|cs| - 1] == cs[..|cs| - 1] && cs'[|cs| - 1].base == Last(cs).base)
    && (cs == [] && cs' != [] ==> cs'[0].base == 0)
    && Flat(cs') == Flat(cs) + rs
  }

  /** The directory holds the chain and some prefix of the records in flight, then perhaps a torn tail. */
  ghost predicate Survives(d: Files, cs: seq<Chunk>, inflight: seq<Stored>, max: uint32) {
    exists cs', tail, m: nat :: SurvivesAs(d, cs, inflight, max, cs', tail, m)
  }

  ghost predicate SurvivesAs(d: Files, cs: seq<Chunk>, inflight: seq<Stored>, max: uint32,
                             cs': seq<Chunk>, tail: bytes, m: nat)
  {
    m <= |inflight| && OnDisk(d, cs', tail, max) && Extends(cs', cs, inflight[..m])
  }

  lemma ExtendsSelf(cs: seq<Chunk>)
    ensures Extends(cs, cs, [])
  {
    hide Flat;
  }

  lemma ExtendsRoll(cs: seq<Chunk>)
    requires cs != [] && Last(cs).End() < OFFSET_LIMIT
    ensures Extends(cs + [Chunk(Last(cs).End(), [])], cs, [])
  {
    hide Flat;
    var c := Chunk(Last(cs).End(), []);
    FlatConcat(cs, [c]);
    FlatOne(c);
  }

  lemma ExtendsGrow(cs: seq<Chunk>, r: Stored)
    requires cs != []
    ensures Extends(Grow(cs, r), cs, [r])
  {
    hide Flat;
    FlatGrow(cs, r);
  }

  lemma ExtendsTrans(a: seq<Chunk>, b: seq<Chunk>, c: seq<Chunk>, rs: seq<Stored>, rs': seq<Stored>)
    requires Extends(b, a, rs) && Extends(c, b, rs') && a != []
    ensures Extends(c, a, rs + rs')
  {
    hide Flat;
    Assoc(Flat(a), rs, rs');
    var k := |a| - 1;
    assert c[..k] == c[..|b| - 1][..k] == b[..|b| - 1][..k] == b[..k];
    if |a| < |b| {
      assert c[k] == c[..|b| - 1][k] == b[k];
    }
  }
}
