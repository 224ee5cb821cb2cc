/** Whole runs of one partition: appends, rolls, retention and file removal interleaved write by write, process
    crashes at any point (also during recovery), and restarts. */
module PartitionRuns {
  import opened Bytes
  import opened RecordCodec
  import opened LogFile
  import opened OffsetIndex
  import opened Disk
  import opened SegmentModel
  import opened Layout
  import opened PartitionModel
  import opened AppendSafety
  import opened Recovery
  import opened Retention

  datatype Phase =
    | Down
    | Recovering(goal: Result, made: nat)                           // this many of its writes are made
    | Serving(part: Partition, done: nat, doomed: seq<Name>)        // of the append in progress; files to remove

  /** `log` is what the partition should hold: every record acknowledged to a producer or found by a recovery, in offset
      order from zero. `inflight` is the append in progress, or the one that a crash cut off. `floor` is the highest
      offset up to which a retention pass has ever dropped segments. */
  datatype State = State(disk: Files, phase: Phase, log: seq<Stored>, inflight: seq<Stored>, floor: nat)

  /** The earliest offset of a partition in memory. */
  function Earliest(p: Partition): nat {
    if p.segs == [] then 0 else p.segs[0].base
  }

  // ---- Steps -------------------------------------------------------------------------------

  ghost predicate Init(s: State) {
    s == State(map[], Down, [], [], 0)
  }

  ghost predicate Boot(cfg: Config, s: State, s': State, full: bool, bases: seq<uint64>) {
    && s.phase.Down?
    && ListsLogs(s.disk, bases)
    && s' == s.(phase := Recovering(Recover(cfg, full, s.disk, bases), 0))
  }

  ghost predicate RecoveryWrite(s: State, s': State) {
    && s.phase.Recovering? && s.phase.made < |s.phase.goal.writes|
    && s' == s.(disk := Apply(s.disk, s.phase.goal.writes[s.phase.made]), phase := s.phase.(made := s.phase.made + 1))
  }

  function Clamp(rs: seq<Stored>, n: int): seq<Stored> {
    if n < 0 then [] else if n <= |rs| then rs[..n] else rs
  }

  /** The recovered next offset tells how much of a cut-off append was found. */
  ghost predicate Ready(s: State, s': State) {
    && s.phase.Recovering? && s.phase.made == |s.phase.goal.writes|
    && var p := s.phase.goal.partition;
       s' == State(s.disk, Serving(p, 0, []), s.log + Clamp(s.inflight, p.next - |s.log|), [], s.floor)
  }

  predicate Quiet(s: State) {
    s.phase.Serving? && s.inflight == []
  }

  ghost predicate Produce(s: State, s': State, items: seq<Item>, timestamp: int64) {
    && Quiet(s)
    && items != [] && AllFit(items) && s.phase.part.next + |items| < OFFSET_LIMIT
    && s' == s.(inflight := Batch(items, timestamp, s.phase.part.next), phase := s.phase.(done := 0))
  }

  ghost predicate Appendable(s: State) {
    s.phase.Serving? && s.phase.part.segs != [] && s.phase.part.next + |s.inflight| < OFFSET_LIMIT
  }

  ghost predicate AppendWrite(cfg: Config, s: State, s': State) {
    && Appendable(s)
    && var ws := ManyWrites(cfg, s.phase.part, s.inflight);
    && s.phase.done < |ws|
    && s' == s.(disk := Apply(s.disk, ws[s.phase.done]), phase := s.phase.(done := s.phase.done + 1))
  }

  ghost predicate Acknowledge(cfg: Config, s: State, s': State) {
    && Appendable(s) && s.inflight != []
    && s.phase.done == |ManyWrites(cfg, s.phase.part, s.inflight)|
    && s' == s.(phase := s.phase.(part := Many(cfg, s.phase.part, s.inflight), done := 0), log := s.log + s.inflight,
                inflight := [])
  }

  ghost predicate Retain(s: State, s': State, now: int64, ageMs: uint64, budget: uint64) {
    && Quiet(s)
    && var p := s.phase.part;
    var k := DropCount(p.segs, now, ageMs, budget);
    && k <= |p.segs|
    && s' == s.(phase := Serving(Dropped(p, k), 0, s.phase.doomed + FilesOfAll(SegBases(p.segs[..k]))),
                floor := Max(s.floor, Earliest(Dropped(p, k))))
  }

  ghost predicate Retains(s: State, s': State) {
    exists now, ageMs, budget :: Retain(s, s', now, ageMs, budget)
  }

  ghost predicate RemoveFile(s: State, s': State) {
    && s.phase.Serving? && s.phase.doomed != []
    && s' == s.(disk := Apply(s.disk, Remove(s.phase.doomed[0])), phase := s.phase.(doomed := s.phase.doomed[1..]))
  }

  /** The write that is in progress, if it is an append, may leave any number of its bytes. */
  function Interrupted(d: Files, ws: seq<Write>, done: nat, n: nat): Files {
    if done < |ws| && ws[done].Append? then Apply(d, Torn1(ws[done], n)) else d
  }

  ghost predicate Crash(cfg: Config, s: State, s': State, n: nat) {
    && (s.phase.Recovering? || Appendable(s))
    && s' == s.(phase := Down, disk :=
                  if s.phase.Recovering? then Interrupted(s.disk, s.phase.goal.writes, s.phase.made, n)
                  else Interrupted(s.disk, ManyWrites(cfg, s.phase.part, s.inflight), s.phase.done, n))
  }

  ghost predicate Next(cfg: Config, s: State, s': State) {
    || (exists full, bases :: Boot(cfg, s, s', full, bases))
    || RecoveryWrite(s, s')
    || Ready(s, s')
    || (exists items, timestamp :: Produce(s, s', items, timestamp))
    || AppendWrite(cfg, s, s')
    || Acknowledge(cfg, s, s')
    || Retains(s, s')
    || RemoveFile(s, s')
    || (exists n: nat :: Crash(cfg, s, s', n))
  }

  // ---- The invariant -----------------------------------------------------------------------

  /** The chain holds exactly the log from its first retained offset on. */
  ghost predicate Matches(cs: seq<Chunk>, log: seq<Stored>) {
    && (cs == [] ==> log == [])
    && (cs != [] ==> cs[0].base <= |log| && Flat(cs) == log[cs[0].base..])
  }

  /** The first segment on disk lies between these bounds. */
  ghost predicate Starts(cs: seq<Chunk>, lo: nat, hi: nat) {
    if cs == [] then lo == 0 else lo <= cs[0].base <= hi
  }

  ghost predicate DownAs(cfg: Config, s: State, cs: seq<Chunk>, tail: bytes, m: nat, lo: nat, hi: nat) {
    && OnDisk(s.disk, cs, tail, cfg.segmentMax) && Starts(cs, lo, hi)
    && m <= |s.inflight| && Matches(cs, s.log + s.inflight[..m])
  }

  ghost predicate RecoveringAs(cfg: Config, s: State, full: bool, d: Files, bases: seq<uint64>,
                               cs: seq<Chunk>, tail: bytes, m: nat, lo: nat, hi: nat)
    requires s.phase.Recovering?
  {
    && OnDisk(d, cs, tail, cfg.segmentMax) && ListsLogs(d, bases) && Starts(cs, lo, hi)
    && s.phase.goal == Recover(cfg, full, d, bases)
    && s.phase.made <= |s.phase.goal.writes|
    && s.disk == After(d, s.phase.goal.writes, s.phase.made)
    && m <= |s.inflight| && Matches(cs, s.log + s.inflight[..m])
  }

  /** `d` is the directory without the writes of the append in progress. */
  ghost predicate ServingAs(cfg: Config, s: State, d: Files, cs: seq<Chunk>, k: nat, left: nat, lo: nat, hi: nat)
    requires s.phase.Serving?
  {
    && Good(cfg, s.phase.part, d, cs, k) && lo <= cs[0].base && Earliest(s.phase.part) <= hi
    && Doomed(s.phase.doomed, cs, k, left)
    && Matches(cs, s.log)
    && Appendable(s)
    && s.phase.done <= |ManyWrites(cfg, s.phase.part, s.inflight)|
    && s.disk == After(d, ManyWrites(cfg, s.phase.part, s.inflight), s.phase.done)
    && s.phase.part.next == |s.log|
  }

  ghost predicate PhaseInv(cfg: Config, s: State, lo: nat, hi: nat) {
    match s.phase
    case Down => exists cs, tail, m: nat :: DownAs(cfg, s, cs, tail, m, lo, hi)
    case Recovering(_, _) =>
      exists full, d, bases, cs, tail, m: nat :: RecoveringAs(cfg, s, full, d, bases, cs, tail, m, lo, hi)
    case Serving(_, _, _) => exists d, cs, k: nat, left: nat :: ServingAs(cfg, s, d, cs, k, left, lo, hi)
  }

  /** Offsets are positions, in the log and in the append in progress. */
  ghost predicate Numbered(s: State) {
    && (forall i :: 0 <= i < |s.log| ==> s.log[i].offset == i)
    && Following(|s.log|, s.inflight)
  }

  /** What every reachable state keeps. No file before `lo` was ever there, and nothing from `hi` on was ever
      dropped. */
  ghost predicate Inv(cfg: Config, s: State, lo: nat, hi: nat) {
    PhaseInv(cfg, s, lo, hi) && Numbered(s)
  }

  // ---- Supporting facts --------------------------------------------------------------------

  lemma MatchesExtend(cs: seq<Chunk>, cs': seq<Chunk>, log: seq<Stored>, more: seq<Stored>)
    requires Matches(cs, log) && Extends(cs', cs, more) && (cs == [] ==> more == [])
    ensures Matches(cs', log + more)
  {
    hide Flat;
    if cs != [] {
      assert cs'[0].base == cs[0].base by {
        if |cs| > 1 {
          assert cs'[0] == cs'[..|cs| - 1][0] == cs[..|cs| - 1][0];
        }
      }
      assert (log + more)[cs[0].base..] == log[cs[0].base..] + more;
    } else {
      assert Flat(cs) == [] by { FlatNone(); }
      if cs' != [] {
        assert log[0..] == [];
      } else {
        assert log + more == [];
      }
    }
  }

  lemma FlatNone()
    ensures Flat([]) == []
  {
  }

  lemma MatchesNext(cfg: Config, p: Partition, d: Files, cs: seq<Chunk>, k: nat, log: seq<Stored>)
    requires Good(cfg, p, d, cs, k) && Matches(cs, log)
    ensures p.next == |log| && p.segs != []
  {
    hide OnDisk, Live, Flat;
    assert LayoutOk(cs, cfg.segmentMax) by { LayoutOf(d, cs, cfg.segmentMax); }
    FlatOffsets(cs, cfg.segmentMax);
    GoodShape(cfg, p, d, cs, k);
  }

  lemma LayoutOf(d: Files, cs: seq<Chunk>, max: uint32)
    requires OnDisk(d, cs, [], max)
    ensures LayoutOk(cs, max)
  {
    hide LayoutOk, ChunksOnDisk, NothingElse, Torn;
  }

  /** Removing the first segment's log leaves a shorter suffix of the log. */
  lemma MatchesRemove(cs: seq<Chunk>, log: seq<Stored>, d: Files, max: uint32)
    requires Matches(cs, log) && |cs| > 1 && OnDisk(d, cs, [], max)
    ensures Matches(cs[1..], log)
  {
    hide OnDisk;
    LayoutOf(d, cs, max);
    hide LayoutOk;
    assert cs[1].base == cs[0].End() by { LayoutChained(cs, max); }
    assert Flat(cs) == cs[0].recs + Flat(cs[1..]);
    assert log[cs[1].base..] == log[cs[0].base..][|cs[0].recs|..];
  }

  ghost predicate AllFrom(ws: seq<Write>, base: uint64) {
    forall i :: 0 <= i < |ws| ==> ws[i].name.base >= base
  }

  lemma AllFromConcat(a: seq<Write>, b: seq<Write>, base: uint64)
    requires AllFrom(a, base) && AllFrom(b, base)
    ensures AllFrom(a + b, base)
  {
  }

  lemma OneFrom(cfg: Config, p: Partition, r: Stored, base: uint64)
    requires p.segs != [] && base <= p.next < OFFSET_LIMIT && Active(p).base >= base
    ensures AllFrom(OneWrites(cfg, p, r), base) && Active(One(cfg, p, r)).base >= base
  {
    hide Encode, SaveEntry, MarkerBytes, MarkerOf, Extended;
    var q := Prepared(cfg, p, r.Size());
    assert Active(q).base >= base;
    AppendedBase(Active(q), r);
    AllFromConcat(PrepareWrites(cfg, p, r.Size()), AppendWrites(Active(q), r), base);
  }

  lemma AppendedBase(s: Segment, r: Stored)
    ensures Appended(s, r).base == s.base
  {
    hide Encode;
  }

  /** Appends write only at or beyond the active segment. */
  lemma {:induction false} ManyFrom(cfg: Config, p: Partition, rs: seq<Stored>, base: uint64)
    requires p.segs != [] && p.next + |rs| < OFFSET_LIMIT && base <= p.next && Active(p).base >= base
    ensures AllFrom(ManyWrites(cfg, p, rs), base)
    decreases |rs|
  {
    hide OneWrites, One;
    if rs != [] {
      OneFrom(cfg, p, rs[0], base);
      ManyFrom(cfg, One(cfg, p, rs[0]), rs[1..], base);
      AllFromConcat(OneWrites(cfg, p, rs[0]), ManyWrites(cfg, One(cfg, p, rs[0]), rs[1..]), base);
    }
  }

  lemma Commute(d: Files, w: Write, v: Write)
    requires w.name != v.name
    ensures Apply(Apply(d, w), v) == Apply(Apply(d, v), w)
  {
    var a, b := Apply(Apply(d, w), v), Apply(Apply(d, v), w);
    assert forall n :: n in a <==> n in b;
    assert forall n :: n in a ==> a[n] == b[n];
  }

  lemma {:induction false} CommuteAll(d: Files, ws: seq<Write>, v: Write)
    requires forall i :: 0 <= i < |ws| ==> ws[i].name != v.name
    ensures Apply(ApplyAll(d, ws), v) == ApplyAll(Apply(d, v), ws)
    decreases |ws|
  {
    hide Apply;
    if ws != [] {
      Commute(d, ws[0], v);
      CommuteAll(Apply(d, ws[0]), ws[1..], v);
    }
  }

  lemma ActiveBeyond(cfg: Config, p: Partition, d: Files, cs: seq<Chunk>, k: nat)
    requires Good(cfg, p, d, cs, k)
    ensures p.segs != [] && Active(p).base == Last(cs).base <= p.next
  {
    hide OnDisk, SegLive, Tracks;
    assert Last(cs[k..]) == Last(cs);
  }

  // ---- Every step keeps the invariant ------------------------------------------------------

  lemma InitInv(cfg: Config, s: State)
    requires Init(s)
    ensures Inv(cfg, s, 0, 0)
  {
    EmptyIsTorn();
    hide Torn;
    assert OnDisk(map[], [], [], cfg.segmentMax);
    assert DownAs(cfg, s, [], [], 0, 0, 0);
  }

  lemma BootInv(cfg: Config, s: State, s': State, full: bool, bases: seq<uint64>, lo: nat, hi: nat)
    requires Inv(cfg, s, lo, hi) && Boot(cfg, s, s', full, bases)
    ensures Inv(cfg, s', lo, hi) && !RecoverOverruns(cfg, full, s.disk, bases)
  {
    hide OnDisk, Recover, RecoverOverruns, After, Matches, ListsLogs, Starts;
    var cs, tail, m: nat :| DownAs(cfg, s, cs, tail, m, lo, hi);
    AfterNone(s.disk, s'.phase.goal.writes);
    RecoverStops(cfg, full, s.disk, cs, tail, bases);
    assert RecoveringAs(cfg, s', full, s.disk, bases, cs, tail, m, lo, hi);
  }

  lemma RecoveryWriteInv(cfg: Config, s: State, s': State, lo: nat, hi: nat)
    requires Inv(cfg, s, lo, hi) && RecoveryWrite(s, s')
    ensures Inv(cfg, s', lo, hi)
  {
    hide OnDisk, Recover, After, Matches, ListsLogs, Apply, Starts;
    var full, d, bases, cs, tail, m: nat :| RecoveringAs(cfg, s, full, d, bases, cs, tail, m, lo, hi);
    AfterStep(d, s.phase.goal.writes, s.phase.made);
    assert RecoveringAs(cfg, s', full, d, bases, cs, tail, m, lo, hi);
  }

  lemma ReadyInv(cfg: Config, s: State, s': State, lo: nat, hi: nat)
    requires Inv(cfg, s, lo, hi) && Ready(s, s')
    ensures Inv(cfg, s', lo, hi)
    ensures s'.log <= s.log + s.inflight && s'.phase.part.next == |s'.log|
  {
    hide OnDisk, Recover, After, Matches, ListsLogs, Good, Extends, ManyWrites, Many, FilesOfAll;
    var full, d, bases, cs, tail, m: nat :| RecoveringAs(cfg, s, full, d, bases, cs, tail, m, lo, hi);
    var p, log := s.phase.goal.partition, s.log + s.inflight[..m];
    AfterNone(d, s.phase.goal.writes);
    RecoverGood(cfg, full, d, cs, tail, bases);
    MatchesExtend(cs, Started(cs), log, []);
    assert log + [] == log;
    MatchesNext(cfg, p, s.disk, Started(cs), 0, log);
    DroppedBases(cfg, p, s.disk, Started(cs), 0, 0);
    assert s'.log == log;
    assert Doomed([], Started(cs), 0, 0) by { NothingDoomed(Started(cs)); }
    NoWrites(cfg, p, s.disk);
    assert ServingAs(cfg, s', s.disk, Started(cs), 0, 0, lo, hi);
  }

  lemma NothingDoomed(cs: seq<Chunk>)
    requires cs != []
    ensures Doomed([], cs, 0, 0)
  {
    assert BasesOf(cs[..0]) == [];
  }

  lemma NoWrites(cfg: Config, p: Partition, d: Files)
    requires p.segs != [] && p.next < OFFSET_LIMIT
    ensures ManyWrites(cfg, p, []) == [] && After(d, [], 0) == d
  {
    AfterNone(d, []);
  }

  lemma ProduceInv(cfg: Config, s: State, s': State, items: seq<Item>, timestamp: int64, lo: nat, hi: nat)
    requires Inv(cfg, s, lo, hi) && Produce(s, s', items, timestamp)
    ensures Inv(cfg, s', lo, hi)
  {
    hide Good, After, Matches, Doomed, ManyWrites;
    var d, cs: seq<Chunk>, k: nat, left: nat :| ServingAs(cfg, s, d, cs, k, left, lo, hi);
    NoWrites(cfg, s.phase.part, d);
    AfterNone(d, ManyWrites(cfg, s.phase.part, s'.inflight));
    assert ServingAs(cfg, s', d, cs, k, left, lo, hi);
  }

  lemma AppendWriteInv(cfg: Config, s: State, s': State, lo: nat, hi: nat)
    requires Inv(cfg, s, lo, hi) && AppendWrite(cfg, s, s')
    ensures Inv(cfg, s', lo, hi)
  {
    hide Good, After, Matches, Doomed, ManyWrites, Apply;
    var d, cs: seq<Chunk>, k: nat, left: nat :| ServingAs(cfg, s, d, cs, k, left, lo, hi);
    AfterStep(d, ManyWrites(cfg, s.phase.part, s.inflight), s.phase.done);
    assert ServingAs(cfg, s', d, cs, k, left, lo, hi);
  }

  /** Appending never moves the first segments. */
  lemma FrontStays(cs: seq<Chunk>, cs': seq<Chunk>, i: nat, rs: seq<Stored>)
    requires Extends(cs', cs, rs) && i < |cs|
    ensures i < |cs'| && cs'[i].base == cs[i].base && cs'[0].base == cs[0].base
  {
    hide Flat;
    if |cs| > 1 {
      assert cs'[0] == cs'[..|cs| - 1][0];
      if i < |cs| - 1 {
        assert cs'[i] == cs'[..|cs| - 1][i];
      }
    }
  }

  lemma StartsStays(cs: seq<Chunk>, cs': seq<Chunk>, rs: seq<Stored>, lo: nat, hi: nat)
    requires Extends(cs', cs, rs) && Starts(cs, lo, hi)
    ensures Starts(cs', lo, hi)
  {
    hide Flat;
    if cs != [] {
      FrontStays(cs, cs', 0, rs);
    }
  }

  lemma DoomedGrow(names: seq<Name>, cs: seq<Chunk>, cs': seq<Chunk>, k: nat, left: nat, rs: seq<Stored>)
    requires Doomed(names, cs, k, left) && Extends(cs', cs, rs)
    ensures Doomed(names, cs', k, left)
  {
    hide FilesOfAll, Flat;
    assert cs'[..k] == cs'[..|cs| - 1][..k] == cs[..|cs| - 1][..k] == cs[..k];
    assert cs'[0].base == cs[0].base by {
      if |cs| > 1 {
        assert cs'[0] == cs'[..|cs| - 1][0];
      }
    }
  }

  lemma AcknowledgeInv(cfg: Config, s: State, s': State, lo: nat, hi: nat)
    requires Inv(cfg, s, lo, hi) && Acknowledge(cfg, s, s')
    ensures Inv(cfg, s', lo, hi)
  {
    hide Good, After, Matches, Doomed, ManyWrites, Many, Extends, ManyChunks, ApplyAll, OnDisk;
    var d, cs: seq<Chunk>, k: nat, left: nat :| ServingAs(cfg, s, d, cs, k, left, lo, hi);
    var p := s.phase.part;
    var ws := ManyWrites(cfg, p, s.inflight);
    AfterNone(d, ws);
    GoodShape(cfg, p, d, cs, k);
    ManyGood(cfg, p, d, cs, k, s.inflight);
    var cs' := ManyChunks(cfg, p, cs, s.inflight);
    MatchesExtend(cs, cs', s.log, s.inflight);
    MatchesNext(cfg, s'.phase.part, s'.disk, cs', k, s'.log);
    FrontStays(cs, cs', k, s.inflight);
    DroppedBases(cfg, p, d, cs, k, 0);
    DroppedBases(cfg, s'.phase.part, s'.disk, cs', k, 0);
    DoomedGrow(s.phase.doomed, cs, cs', k, left, s.inflight);
    NoWrites(cfg, s'.phase.part, s'.disk);
    assert ServingAs(cfg, s', s'.disk, cs', k, left, lo, hi);
  }

  lemma RetainInv(cfg: Config, s: State, s': State, now: int64, ageMs: uint64, budget: uint64, lo: nat, hi: nat)
    requires Inv(cfg, s, lo, hi) && Retain(s, s', now, ageMs, budget)
    ensures Inv(cfg, s', lo, Max(hi, s'.floor))
  {
    hide Good, After, Matches, Doomed, ManyWrites, DropCount, FilesOfAll;
    var d, cs: seq<Chunk>, k: nat, left: nat :| ServingAs(cfg, s, d, cs, k, left, lo, hi);
    var p := s.phase.part;
    var count := DropCount(p.segs, now, ageMs, budget);
    DropCountExact(p.segs, now, ageMs, budget);
    DropGood(cfg, p, d, cs, k, count);
    DoomedDrop(cfg, p, d, s.phase.doomed, cs, k, left, count);
    NoWrites(cfg, p, d);
    NoWrites(cfg, s'.phase.part, d);
    assert ServingAs(cfg, s', d, cs, k + count, left, lo, Max(hi, s'.floor));
  }

  lemma RemoveCommutes(cfg: Config, p: Partition, rs: seq<Stored>, d: Files, cs: seq<Chunk>, k: nat, n: Name, done: nat)
    requires Good(cfg, p, d, cs, k) && cs != [] && n.base < Last(cs).base && p.segs != [] &&
             p.next + |rs| < OFFSET_LIMIT
    requires done <= |ManyWrites(cfg, p, rs)|
    ensures Apply(After(d, ManyWrites(cfg, p, rs), done), Remove(n)) ==
            After(Apply(d, Remove(n)), ManyWrites(cfg, p, rs), done)
  {
    hide Good, ManyWrites, Apply, ApplyAll;
    ActiveBeyond(cfg, p, d, cs, k);
    ManyFrom(cfg, p, rs, Last(cs).base);
    CommuteAll(d, ManyWrites(cfg, p, rs)[..done], Remove(n));
  }

  lemma RemoveFileInv(cfg: Config, s: State, s': State, lo: nat, hi: nat)
    requires Inv(cfg, s, lo, hi) && RemoveFile(s, s')
    ensures Inv(cfg, s', lo, hi)
  {
    hide Good, After, Matches, Doomed, ManyWrites, Apply, OnDisk;
    var d, cs: seq<Chunk>, k: nat, left: nat :| ServingAs(cfg, s, d, cs, k, left, lo, hi);
    var p, n := s.phase.part, s.phase.doomed[0];
    GoodShape(cfg, p, d, cs, k);
    DoomedBelow(cfg, p, d, s.phase.doomed, cs, k, left);
    RemoveCommutes(cfg, p, s.inflight, d, cs, k, n, s.phase.done);
    if left > 0 {
      RemoveOrphan(cfg, p, d, s.phase.doomed, cs, k, left);
      assert ServingAs(cfg, s', Apply(d, Remove(n)), cs, k, left - 1, lo, hi);
    } else {
      RemoveFirst(cfg, p, d, s.phase.doomed, cs, k);
      MatchesRemove(cs, s.log, d, cfg.segmentMax);
      assert cs[0].base <= cs[1].base by { FirstIsLeast(cs, 1, cfg.segmentMax, d); }
      assert ServingAs(cfg, s', Apply(d, Remove(n)), cs[1..], k - 1, 2, lo, hi);
    }
  }

  lemma DoomedBelow(cfg: Config, p: Partition, d: Files, names: seq<Name>, cs: seq<Chunk>, k: nat, left: nat)
    requires Good(cfg, p, d, cs, k) && Doomed(names, cs, k, left) && names != []
    ensures names[0].base < Last(cs).base
  {
    hide OnDisk, Live, FilesOfAll;
    FirstIsLeast(cs, |cs| - 1, cfg.segmentMax, d);
    if left == 0 {
      DoomedHead(names, cs, k);
      LiveBeyond(cs, 1, |cs| - 1, cfg.segmentMax, d);
    }
  }

  lemma FirstIsLeastGood(cfg: Config, p: Partition, d: Files, cs: seq<Chunk>, k: nat)
    requires Good(cfg, p, d, cs, k)
    ensures cs[0].base <= cs[k].base
  {
    hide OnDisk, Live;
    FirstIsLeast(cs, k, cfg.segmentMax, d);
  }

  /** A crash of a serving partition leaves the chain that is on disk, from its first segment on. */
  lemma CrashLeaves(cfg: Config, s: State, s': State, n: nat,
                    d: Files, cs: seq<Chunk>, k: nat, left: nat, lo: nat, hi: nat)
    requires s.phase.Serving? && ServingAs(cfg, s, d, cs, k, left, lo, hi) && Numbered(s) && Crash(cfg, s, s', n)
    ensures k < |cs| && lo <= cs[0].base <= cs[k].base == Earliest(s.phase.part) <= hi
    ensures Inv(cfg, s', cs[0].base, cs[0].base)
  {
    hide Good, After, Matches, Doomed, ManyWrites, Apply, OnDisk, Extends;
    var p, ws := s.phase.part, ManyWrites(cfg, s.phase.part, s.inflight);
    GoodShape(cfg, p, d, cs, k);
    ManyCrash(cfg, p, d, cs, k, s.inflight, s.phase.done, n);
    assert s'.disk == CrashDisk(d, ws, s.phase.done, n);
    var cs', tail, m: nat :| SurvivesAs(s'.disk, cs, s.inflight, cfg.segmentMax, cs', tail, m);
    MatchesExtend(cs, cs', s.log, s.inflight[..m]);
    DroppedBases(cfg, p, d, cs, k, 0);
    assert cs[0].base <= cs[k].base by { FirstIsLeastGood(cfg, p, d, cs, k); }
    StartsStays(cs, cs', s.inflight[..m], cs[0].base, cs[0].base);
    assert DownAs(cfg, s', cs', tail, m, cs[0].base, cs[0].base);
  }

  lemma CrashServingInv(cfg: Config, s: State, s': State, n: nat, lo: nat, hi: nat)
    requires Inv(cfg, s, lo, hi) && s.phase.Serving? && Crash(cfg, s, s', n)
    ensures Inv(cfg, s', lo, hi)
  {
    hide Good, After, Matches, Doomed, ManyWrites, Apply, Crash, Numbered;
    var d, cs: seq<Chunk>, k: nat, left: nat :| ServingAs(cfg, s, d, cs, k, left, lo, hi);
    CrashLeaves(cfg, s, s', n, d, cs, k, left, lo, hi);
    InvWider(cfg, s', cs[0].base, cs[0].base, lo, hi);
  }

  lemma CrashRecoveringInv(cfg: Config, s: State, s': State, n: nat, lo: nat, hi: nat)
    requires Inv(cfg, s, lo, hi) && s.phase.Recovering? && Crash(cfg, s, s', n)
    ensures Inv(cfg, s', lo, hi)
  {
    hide OnDisk, Recover, After, Matches, ListsLogs, Apply, Extends;
    var full, d, bases, cs, tail, m: nat :| RecoveringAs(cfg, s, full, d, bases, cs, tail, m, lo, hi);
    RecoverCrash(cfg, full, d, cs, tail, bases, s.phase.made, n);
    assert s'.disk == CrashDisk(d, s.phase.goal.writes, s.phase.made, n);
    var cs', tail', m': nat :| SurvivesAs(s'.disk, cs, [], cfg.segmentMax, cs', tail', m');
    var log := s.log + s.inflight[..m];
    MatchesExtend(cs, cs', log, []);
    StartsStays(cs, cs', [], lo, hi);
    assert log + [] == log;
    assert DownAs(cfg, s', cs', tail', m, lo, hi);
  }

  /** Every step keeps the invariant, and only a retention pass raises the upper bound. */
  lemma StepInv(cfg: Config, s: State, s': State, lo: nat, hi: nat)
    requires Inv(cfg, s, lo, hi) && Next(cfg, s, s')
    ensures Inv(cfg, s', lo, Max(hi, s'.floor)) && s.log <= s'.log && s.floor <= s'.floor
    ensures !Retains(s, s') ==> Inv(cfg, s', lo, hi)
  {
    hide Inv, Boot, RecoveryWrite, Ready, Produce, AppendWrite, Acknowledge, Retain, RemoveFile, Crash, Retains;
    LogGrows(cfg, s, s');
    if Retains(s, s') {
      RetainOf(s, s');
      var now, ageMs, budget :| Retain(s, s', now, ageMs, budget);
      RetainInv(cfg, s, s', now, ageMs, budget, lo, hi);
    } else {
      OtherStepInv(cfg, s, s', lo, hi);
      InvWider(cfg, s', lo, hi, lo, Max(hi, s'.floor));
    }
  }

  lemma RetainOf(s: State, s': State)
    requires Retains(s, s')
    ensures exists now, ageMs, budget :: Retain(s, s', now, ageMs, budget)
  {
    hide Retain;
  }

  lemma InvWider(cfg: Config, s: State, lo: nat, hi: nat, lo': nat, hi': nat)
    requires Inv(cfg, s, lo, hi) && lo' <= lo && hi <= hi'
    ensures Inv(cfg, s, lo', hi')
  {
    hide OnDisk, Recover, After, Matches, ListsLogs, Good, Doomed, ManyWrites;
    match s.phase
    case Down =>
      var cs, tail, m: nat :| DownAs(cfg, s, cs, tail, m, lo, hi);
      assert DownAs(cfg, s, cs, tail, m, lo', hi');
    case Recovering(_, _) =>
      var full, d, bases, cs, tail, m: nat :| RecoveringAs(cfg, s, full, d, bases, cs, tail, m, lo, hi);
      assert RecoveringAs(cfg, s, full, d, bases, cs, tail, m, lo', hi');
    case Serving(_, _, _) =>
      var d, cs: seq<Chunk>, k: nat, left: nat :| ServingAs(cfg, s, d, cs, k, left, lo, hi);
      assert ServingAs(cfg, s, d, cs, k, left, lo', hi');
  }

  lemma OtherStepInv(cfg: Config, s: State, s': State, lo: nat, hi: nat)
    requires Inv(cfg, s, lo, hi) && Next(cfg, s, s') && !Retains(s, s')
    ensures Inv(cfg, s', lo, hi)
  {
    hide Inv, Boot, RecoveryWrite, Ready, Produce, AppendWrite, Acknowledge, Retains, RemoveFile, Crash;
    if full, bases :| Boot(cfg, s, s', full, bases) {
      BootInv(cfg, s, s', full, bases, lo, hi);
    } else if RecoveryWrite(s, s') {
      RecoveryWriteInv(cfg, s, s', lo, hi);
    } else if Ready(s, s') {
      ReadyInv(cfg, s, s', lo, hi);
    } else if items, timestamp :| Produce(s, s', items, timestamp) {
      ProduceInv(cfg, s, s', items, timestamp, lo, hi);
    } else if AppendWrite(cfg, s, s') {
      AppendWriteInv(cfg, s, s', lo, hi);
    } else if Acknowledge(cfg, s, s') {
      AcknowledgeInv(cfg, s, s', lo, hi);
    } else if RemoveFile(s, s') {
      RemoveFileInv(cfg, s, s', lo, hi);
    } else {
      var n: nat :| Crash(cfg, s, s', n);
      if s.phase.Recovering? {
        CrashRecoveringInv(cfg, s, s', n, lo, hi);
      } else {
        assert s.phase.Serving? by { CrashesWhen(cfg, s, s', n); }
        CrashServingInv(cfg, s, s', n, lo, hi);
      }
    }
  }

  lemma CrashesWhen(cfg: Config, s: State, s': State, n: nat)
    requires Crash(cfg, s, s', n)
    ensures s.phase.Recovering? || s.phase.Serving?
  {
    hide ManyWrites, Apply;
  }

  lemma LogGrows(cfg: Config, s: State, s': State)
    requires Next(cfg, s, s')
    ensures s.log <= s'.log && s.floor <= s'.floor
  {
    hide Recover, ManyWrites, Many, Apply, ListsLogs, DropCount, FilesOfAll;
  }

  // ---- Whole runs --------------------------------------------------------------------------

  ghost predicate IsRun(cfg: Config, run: seq<State>) {
    && run != [] && Init(run[0])
    && forall i :: 0 <= i < |run| - 1 ==> Next(cfg, run[i], run[i + 1])
  }

  /** The invariant holds in every state of every run, no state changes a record of an earlier state's log, and
      nothing at or above the floor was ever dropped. */
  lemma {:induction false} RunInv(cfg: Config, run: seq<State>, i: nat, j: nat)
    requires IsRun(cfg, run) && i <= j < |run|
    ensures Inv(cfg, run[j], 0, run[j].floor) && run[i].log <= run[j].log && run[i].floor <= run[j].floor
    decreases j
  {
    hide Inv, Next, Init;
    if j == 0 {
      InitInv(cfg, run[0]);
      assert run[0].floor == 0 by { NoFloor(run[0]); }
    } else {
      RunInv(cfg, run, if i < j then i else j - 1, j - 1);
      StepInv(cfg, run[j - 1], run[j], 0, run[j - 1].floor);
    }
  }

  lemma NoFloor(s: State)
    requires Init(s)
    ensures s.floor == 0
  {
  }

  /** Without a retention pass, the bounds on the first segment stay as they are. */
  lemma {:induction false} SteadyInv(cfg: Config, run: seq<State>, i: nat, j: nat, lo: nat, hi: nat)
    requires IsRun(cfg, run) && i <= j < |run| && Inv(cfg, run[i], lo, hi)
    requires forall n :: i <= n < j ==> !Retains(run[n], run[n + 1])
    ensures Inv(cfg, run[j], lo, hi)
    decreases j
  {
    hide Inv, Next, Init, Retains;
    if i < j {
      SteadyInv(cfg, run, i, j - 1, lo, hi);
      assert !Retains(run[j - 1], run[j - 1 + 1]);
      StepInv(cfg, run[j - 1], run[j], lo, hi);
    }
  }

  /** Memory and files describe exactly these segments. */
  ghost predicate Serves(p: Partition, d: Files, cs: seq<Chunk>, log: seq<Stored>) {
    && Live(p, d, cs)
    && cs[0].base <= |log| && Flat(cs) == log[cs[0].base..]
    && p.next == |log| && !p.degraded
  }

  lemma {:induction false} MatchesDrop(cs: seq<Chunk>, k: nat, log: seq<Stored>, max: uint32)
    requires Matches(cs, log) && k < |cs| && LayoutOk(cs, max)
    ensures Matches(cs[k..], log)
    decreases k
  {
    if k == 0 {
      assert cs[0..] == cs;
    } else {
      assert cs[1].base == cs[0].End();
      assert log[cs[1].base..] == log[cs[0].base..][|cs[0].recs|..];
      LayoutSuffix(cs, 1, max);
      hide LayoutOk;
      MatchesDrop(cs[1..], k - 1, log, max);
      assert cs[1..][k - 1..] == cs[k..];
    }
  }

  lemma QuietServes(cfg: Config, s: State, lo: nat, hi: nat) returns (cs: seq<Chunk>)
    requires Inv(cfg, s, lo, hi) && Quiet(s)
    ensures Serves(s.phase.part, s.disk, cs, s.log) && LayoutOk(cs, cfg.segmentMax)
    ensures cs[0].base == Earliest(s.phase.part) && lo <= cs[0].base <= hi
  {
    hide Good, After, Doomed, ManyWrites, OnDisk, Flat, LayoutOk, Matches, Live, Numbered;
    var d, cs0, k: nat, left: nat :| ServingAs(cfg, s, d, cs0, k, left, lo, hi);
    var p := s.phase.part;
    NoWrites(cfg, p, d);
    GoodShape(cfg, p, d, cs0, k);
    LayoutOf(d, cs0, cfg.segmentMax);
    MatchesDrop(cs0, k, s.log, cfg.segmentMax);
    LayoutSuffix(cs0, k, cfg.segmentMax);
    cs := cs0[k..];
    GoodIsLive(cfg, p, d, cs0, k);
    MatchesIs(cs, s.log);
    DroppedBases(cfg, p, d, cs0, k, 0);
    FirstIsLeastGood(cfg, p, d, cs0, k);
  }

  /** Crash refinement: whenever a partition serves and no append is in progress, it serves every record that was ever
      acknowledged (and whatever recovery found of appends that were cut off) and that no retention pass has ever
      dropped, in order and without a gap, with the next offset following on and the partition not marked degraded. */
  lemma CrashRefinement(cfg: Config, run: seq<State>, i: nat, j: nat) returns (cs: seq<Chunk>)
    requires IsRun(cfg, run) && i <= j < |run| && Quiet(run[j])
    ensures run[i].log <= run[j].log && run[i].floor <= run[j].floor
    ensures Serves(run[j].phase.part, run[j].disk, cs, run[j].log)
    ensures cs[0].base == Earliest(run[j].phase.part) <= run[j].floor
    ensures LayoutOk(cs, cfg.segmentMax)
  {
    hide Next, Init, Inv, Serves, LayoutOk;
    RunInv(cfg, run, i, j);
    cs := QuietServes(cfg, run[j], 0, run[j].floor);
  }

  /** Between retention passes, through any appends, removals, crashes and recoveries, the earliest offset never
      rises: no segment is lost. It can fall, when a crash comes between a pass and the removal of its files; if none
      was left to remove, it stays the same. */
  lemma EarliestSteady(cfg: Config, run: seq<State>, i: nat, j: nat)
    requires IsRun(cfg, run) && i <= j < |run| && Quiet(run[i]) && Quiet(run[j])
    requires forall n :: i <= n < j ==> !Retains(run[n], run[n + 1])
    ensures Earliest(run[j].phase.part) <= Earliest(run[i].phase.part)
    ensures run[i].phase.doomed == [] ==> Earliest(run[j].phase.part) == Earliest(run[i].phase.part)
  {
    hide Next, Init, Inv, Retains, Serves, LayoutOk;
    RunInv(cfg, run, i, i);
    var e := Earliest(run[i].phase.part);
    var lo := Tight(cfg, run[i], 0, run[i].floor);
    SteadyInv(cfg, run, i, j, lo, e);
    var cs := QuietServes(cfg, run[j], lo, e);
  }

  /** Where a log begins after a crash, from the removals that were still to be made: at the first log file among them,
      or else where it began in memory. */
  function ComesBackTo(doomed: seq<Name>, earliest: nat): nat {
    if doomed == [] then earliest
    else if doomed[0].kind == Log then doomed[0].base
    else ComesBackTo(doomed[1..], earliest)
  }

  lemma {:induction false} FirstDoomedLog(names: seq<Name>, cs: seq<Chunk>, k: nat, left: nat)
    requires Doomed(names, cs, k, left)
    ensures ComesBackTo(names, cs[k].base) == cs[0].base
    ensures (exists m :: 0 <= m < |names| && names[m].kind == Log) <==> k > 0
    decreases left
  {
    hide FilesOfAll;
    if left > 0 {
      assert names[1..][left - 1..] == names[left..];
      FirstDoomedLog(names[1..], cs, k, left - 1);
      if m :| 0 <= m < |names| && names[m].kind == Log {
        assert names[1..][m - 1].kind == Log;
      }
    } else if names != [] {
      DoomedHead(names, cs, k);
    } else {
      NoneDoomed(cs, k, left);
    }
  }

  /** After a crash and until the next retention pass, a partition begins at the first log file that a pass had dropped
      and not yet removed; so the earliest offset falls exactly if there was one. */
  lemma ComesBackExactly(cfg: Config, run: seq<State>, i: nat, j: nat, n: nat)
    requires IsRun(cfg, run) && i < j < |run| && run[i].phase.Serving? && Crash(cfg, run[i], run[i + 1], n)
    requires Quiet(run[j]) && forall m :: i <= m < j ==> !Retains(run[m], run[m + 1])
    ensures var before, after := Earliest(run[i].phase.part), Earliest(run[j].phase.part);
            && after == ComesBackTo(run[i].phase.doomed, before)
            && (after < before <==>
                exists m :: 0 <= m < |run[i].phase.doomed| && run[i].phase.doomed[m].kind == Log)
  {
    hide Next, Init, Retains, Serves, LayoutOk, Crash, Good, After, ManyWrites, Matches, FilesOfAll, Numbered;
    RunInv(cfg, run, i, i);
    var d, cs: seq<Chunk>, k: nat, left: nat :| ServingAs(cfg, run[i], d, cs, k, left, 0, run[i].floor);
    CrashLeaves(cfg, run[i], run[i + 1], n, d, cs, k, left, 0, run[i].floor);
    SteadyInv(cfg, run, i + 1, j, cs[0].base, cs[0].base);
    var live := QuietServes(cfg, run[j], cs[0].base, cs[0].base);
    FirstDoomedLog(run[i].phase.doomed, cs, k, left);
    if k > 0 {
      FrontRises(cfg, run[i].phase.part, d, cs, k);
    }
  }

  lemma FrontRises(cfg: Config, p: Partition, d: Files, cs: seq<Chunk>, k: nat)
    requires Good(cfg, p, d, cs, k) && k > 0
    ensures cs[0].base < cs[k].base
  {
    hide OnDisk, Live;
    LiveBeyond(cs, k, k, cfg.segmentMax, d);
  }

  /** The bounds of a serving partition can be taken to be its own first offset. */
  lemma Tight(cfg: Config, s: State, lo: nat, hi: nat) returns (lo': nat)
    requires Inv(cfg, s, lo, hi) && s.phase.Serving?
    ensures Inv(cfg, s, lo', Earliest(s.phase.part))
    ensures s.phase.doomed == [] ==> lo' == Earliest(s.phase.part)
  {
    hide Good, After, ManyWrites, Matches, FilesOfAll;
    var d, cs: seq<Chunk>, k: nat, left: nat :| ServingAs(cfg, s, d, cs, k, left, lo, hi);
    var e := Earliest(s.phase.part);
    lo' := cs[0].base;
    DroppedBases(cfg, s.phase.part, d, cs, k, 0);
    if s.phase.doomed == [] {
      NoneDoomed(cs, k, left);
    }
    assert ServingAs(cfg, s, d, cs, k, left, lo', e);
  }

  lemma NoneDoomed(cs: seq<Chunk>, k: nat, left: nat)
    requires Doomed([], cs, k, left)
    ensures k == 0
  {
  }

  /** The next offset never falls, whatever happens in between. */
  lemma NextGrows(cfg: Config, run: seq<State>, i: nat, j: nat)
    requires IsRun(cfg, run) && i <= j < |run| && run[i].phase.Serving? && run[j].phase.Serving?
    ensures run[i].phase.part.next <= run[j].phase.part.next
  {
    hide Next, Init, Inv;
    RunInv(cfg, run, i, i);
    RunInv(cfg, run, i, j);
    NextIsLog(cfg, run[i], 0, run[i].floor);
    NextIsLog(cfg, run[j], 0, run[j].floor);
  }

  lemma NextIsLog(cfg: Config, s: State, lo: nat, hi: nat)
    requires Inv(cfg, s, lo, hi) && s.phase.Serving?
    ensures s.phase.part.next == |s.log|
  {
    hide Good, After, Doomed, ManyWrites, Matches;
  }

  lemma MatchesIs(cs: seq<Chunk>, log: seq<Stored>)
    requires Matches(cs, log) && cs != []
    ensures cs[0].base <= |log| && Flat(cs) == log[cs[0].base..]
  {
  }

  lemma GoodIsLive(cfg: Config, p: Partition, d: Files, cs: seq<Chunk>, k: nat)
    requires Good(cfg, p, d, cs, k)
    ensures k < |cs| && Live(p, d, cs[k..])
  {
    hide OnDisk, Live;
  }
}
