/** Concrete runs of a partition: age retention keeps a segment that is too old, because a crash cut its marker; and a
    segment that retention has dropped comes back, because a crash came before its files were removed. */
module PartitionExample {
  import opened Bytes
  import opened RecordCodec
  import opened LogFile
  import opened OffsetIndex
  import opened Disk
  import opened SegmentModel
  import opened Layout
  import opened PartitionModel
  import opened AppendSafety
  import opened Recovery
  import opened Retention
  import opened PartitionRuns
  import opened Summaries

  // ---- Going on with a run -------------------------------------------------------------------

  function End(run: seq<State>): State
    requires run != []
  {
    run[|run| - 1]
  }

  lemma OneMore(cfg: Config, run: seq<State>, s: State)
    requires run != [] && IsRun(cfg, run) && Next(cfg, End(run), s)
    ensures IsRun(cfg, run + [s])
  {
    hide Next, Init;
    var run' := run + [s];
    forall i | 0 <= i < |run'| - 1
      ensures Next(cfg, run'[i], run'[i + 1])
    {
      if i < |run| - 1 {
        assert run'[i] == run[i] && run'[i + 1] == run[i + 1];
      }
    }
  }

  /** The run goes on, and does not serve until its end. */
  ghost predicate GoesOn(run: seq<State>, run': seq<State>) {
    && 0 < |run| < |run'| && run'[..|run|] == run
    && forall m :: |run| <= m < |run'| - 1 ==> !run'[m].phase.Serving?
  }

  /** A recovery can make all its writes and then serve. */
  lemma {:induction false} Recovers(cfg: Config, run: seq<State>) returns (run': seq<State>)
    requires run != [] && IsRun(cfg, run) && End(run).phase.Recovering?
    requires End(run).phase.made <= |End(run).phase.goal.writes|
    ensures IsRun(cfg, run') && GoesOn(run, run')
    ensures var s, p := End(run), End(run).phase.goal.partition;
            && End(run').phase == Serving(p, 0, []) && End(run').floor == s.floor && End(run').inflight == []
            && End(run').log == s.log + Clamp(s.inflight, p.next - |s.log|)
    decreases |End(run).phase.goal.writes| - End(run).phase.made
  {
    hide IsRun, Apply;
    var s := End(run);
    if s.phase.made < |s.phase.goal.writes| {
      var s' := s.(disk := Apply(s.disk, s.phase.goal.writes[s.phase.made]),
                   phase := s.phase.(made := s.phase.made + 1));
      assert RecoveryWrite(s, s');
      OneMore(cfg, run, s');
      run' := Recovers(cfg, run + [s']);
      GoesOnFurther(run, s', run');
    } else {
      var p := s.phase.goal.partition;
      var s' := State(s.disk, Serving(p, 0, []), s.log + Clamp(s.inflight, p.next - |s.log|), [], s.floor);
      assert Ready(s, s');
      OneMore(cfg, run, s');
      run' := run + [s'];
    }
  }

  /** A start from a directory that is down. */
  lemma Boots(cfg: Config, run: seq<State>, full: bool, bases: seq<uint64>) returns (run': seq<State>)
    requires run != [] && IsRun(cfg, run) && End(run).phase.Down? && ListsLogs(End(run).disk, bases)
    ensures IsRun(cfg, run') && GoesOn(run, run')
    ensures var s, p := End(run), Recover(cfg, full, End(run).disk, bases).partition;
            && End(run').phase == Serving(p, 0, []) && End(run').floor == s.floor && End(run').inflight == []
            && End(run').log == s.log + Clamp(s.inflight, p.next - |s.log|)
  {
    hide IsRun, ListsLogs, Recover;
    var s := End(run);
    var s' := s.(phase := Recovering(Recover(cfg, full, s.disk, bases), 0));
    assert Boot(cfg, s, s', full, bases);
    OneMore(cfg, run, s');
    run' := Recovers(cfg, run + [s']);
    GoesOnFurther(run, s', run');
  }

  lemma GoesOnFurther(run: seq<State>, s: State, run': seq<State>)
    requires run != [] && GoesOn(run + [s], run') && !s.phase.Serving?
    ensures GoesOn(run, run')
  {
    assert run'[..|run|] == run'[..|run| + 1][..|run|] == run;
    assert run'[|run|] == run'[..|run| + 1][|run|] == s;
  }

  /** The first `m` writes of the append in progress. */
  lemma {:induction false} Writes(cfg: Config, run: seq<State>, m: nat) returns (run': seq<State>)
    requires run != [] && IsRun(cfg, run) && Appendable(End(run)) && End(run).phase.done == 0
    requires m <= |ManyWrites(cfg, End(run).phase.part, End(run).inflight)|
    ensures run' != [] && IsRun(cfg, run')
    ensures var s := End(run);
            End(run') == s.(disk := After(s.disk, ManyWrites(cfg, s.phase.part, s.inflight), m),
                            phase := s.phase.(done := m))
  {
    hide IsRun, ManyWrites, Apply, After;
    var s := End(run);
    var ws := ManyWrites(cfg, s.phase.part, s.inflight);
    AfterNone(s.disk, ws);
    if m == 0 {
      run' := run;
    } else {
      run' := Writes(cfg, run, m - 1);
      AfterStep(s.disk, ws, m - 1);
      var t := End(run');
      var t' := t.(disk := Apply(t.disk, ws[m - 1]), phase := t.phase.(done := m));
      assert AppendWrite(cfg, t, t');
      OneMore(cfg, run', t');
      run' := run' + [t'];
    }
  }

  /** A produce request of one record, as far as its first writes. */
  lemma Produces(cfg: Config, run: seq<State>, item: Item, timestamp: int64) returns (run': seq<State>)
    requires run != [] && IsRun(cfg, run) && Quiet(End(run)) && Fits(item)
    requires End(run).phase.part.segs != [] && End(run).phase.part.next + 1 < OFFSET_LIMIT
    ensures run' != [] && IsRun(cfg, run')
    ensures var s, p := End(run), End(run).phase.part;
            End(run') == s.(inflight := [Record(p.next, timestamp, item.key, item.value)],
                            phase := s.phase.(done := 0)) && Appendable(End(run'))
  {
    hide IsRun;
    var s := End(run);
    var s' := s.(inflight := Batch([item], timestamp, s.phase.part.next), phase := s.phase.(done := 0));
    assert s'.inflight == [Record(s.phase.part.next, timestamp, item.key, item.value)];
    assert Produce(s, s', [item], timestamp);
    OneMore(cfg, run, s');
    run' := run + [s'];
  }

  /** A produce request that is acknowledged. */
  lemma Appends(cfg: Config, run: seq<State>, item: Item, timestamp: int64) returns (run': seq<State>)
    requires run != [] && IsRun(cfg, run) && Quiet(End(run)) && Fits(item)
    requires End(run).phase.part.segs != [] && End(run).phase.part.next + 1 < OFFSET_LIMIT
    ensures run' != [] && IsRun(cfg, run') && Quiet(End(run'))
    ensures var s, r := End(run), Record(End(run).phase.part.next, timestamp, item.key, item.value);
            && End(run').phase.part == One(cfg, s.phase.part, r) && End(run').phase.doomed == s.phase.doomed
            && End(run').log == s.log + [r] && End(run').floor == s.floor
  {
    hide IsRun, ManyWrites, After, One;
    var s := End(run);
    run' := Produces(cfg, run, item, timestamp);
    var rs := End(run').inflight;
    run' := Writes(cfg, run', |ManyWrites(cfg, s.phase.part, rs)|);
    var t := End(run');
    var t' := t.(phase := t.phase.(part := Many(cfg, s.phase.part, rs), done := 0), log := t.log + rs, inflight := []);
    assert Acknowledge(cfg, t, t');
    OneMore(cfg, run', t');
    run' := run' + [t'];
    assert Many(cfg, s.phase.part, rs) == One(cfg, s.phase.part, rs[0]) by {
      assert rs[1..] == [];
    }
  }

  lemma Retained(cfg: Config, run: seq<State>, now: int64, ageMs: uint64, budget: uint64) returns (run': seq<State>)
    requires run != [] && IsRun(cfg, run) && Quiet(End(run)) && End(run).phase.part.segs != []
    ensures |run'| == |run| + 1 && IsRun(cfg, run') && run'[..|run|] == run
    ensures Retain(End(run), End(run'), now, ageMs, budget)
  {
    hide IsRun, DropCount, FilesOfAll;
    var s, p := End(run), End(run).phase.part;
    var k := DropCount(p.segs, now, ageMs, budget);
    DropCountExact(p.segs, now, ageMs, budget);
    var s' := s.(phase := Serving(Dropped(p, k), 0, s.phase.doomed + FilesOfAll(SegBases(p.segs[..k]))),
                 floor := Max(s.floor, Earliest(Dropped(p, k))));
    assert Retain(s, s', now, ageMs, budget);
    assert Retains(s, s');
    OneMore(cfg, run, s');
    run' := run + [s'];
  }

  // ---- The example ---------------------------------------------------------------------------

  /** Segments of one byte, so that every record but the first starts a new one. */
  const CFG := Config(1, 1)
  const ITEM := Item([], [])
  const FIRST: Stored := Record(0, 1, [], [])
  const CHUNK := Chunk(0, [FIRST])

  /** A new partition. */
  lemma Opens() returns (run: seq<State>)
    ensures run != [] && IsRun(CFG, run) && Quiet(End(run)) && End(run).phase.doomed == []
    ensures End(run).log == [] && End(run).floor == 0
    ensures var p := End(run).phase.part;
            |p.segs| == 1 && p.next == 0 && p.segs[0].base == 0 && p.segs[0].size == 0
  {
    hide Recover, IsRun, Good, OnDisk, ListsLogs, ApplyAll;
    var s := State(map[], Down, [], [], 0);
    assert IsRun(CFG, [s]) by { Begins(CFG, s); }
    assert OnDisk(map[], [], [], CFG.segmentMax) && ListsLogs(s.disk, []) by { NothingYet(); }
    run := Boots(CFG, [s], false, []);
    RecoverGood(CFG, false, map[], [], [], []);
    NewIsEmpty(CFG, Recover(CFG, false, map[], []).partition, ApplyAll(map[], Recover(CFG, false, map[], []).writes));
    assert [] + Clamp([], 0) == [];
  }

  lemma Begins(cfg: Config, s: State)
    requires Init(s)
    ensures IsRun(cfg, [s])
  {
    hide Next;
  }

  lemma NothingYet()
    ensures OnDisk(map[], [], [], CFG.segmentMax) && ListsLogs(map[], [])
  {
    EmptyIsTorn();
    hide Torn;
    ChainIsListed(map[], [], [], CFG.segmentMax);
    NoBases([]);
  }

  lemma NewIsEmpty(cfg: Config, p: Partition, d: Files)
    requires Good(cfg, p, d, [Chunk(0, [])], 0)
    ensures |p.segs| == 1 && p.next == 0 && p.segs[0].base == 0 && p.segs[0].size == 0
  {
    hide OnDisk, Tracks, Sound;
    var cs := [Chunk(0, [])];
    assert cs[0..] == cs;
    assert SegLive(p.segs[0], d, cs[0]);
    NothingFlat();
  }

  /** One record, dated 1, is in the log. */
  lemma HasFirst() returns (run: seq<State>)
    ensures run != [] && IsRun(CFG, run) && Quiet(End(run)) && End(run).phase.doomed == []
    ensures End(run).log == [FIRST] && End(run).floor == 0
    ensures Good(CFG, End(run).phase.part, End(run).disk, [CHUNK], 0)
    ensures var p := End(run).phase.part;
            |p.segs| == 1 && p.next == 1 && p.segs[0].base == 0 && p.segs[0].size == 28
  {
    hide IsRun, Good, Inv, One;
    var before := Opens();
    run := Appends(CFG, before, ITEM, 1);
    FirstFits(End(before).phase.part);
    assert [] + [FIRST] == [FIRST];
    RunInv(CFG, run, |run| - 1, |run| - 1);
    OneSegment(End(run));
  }

  lemma FirstFits(p: Partition)
    requires |p.segs| == 1 && p.next == 0 && p.segs[0].base == 0 && p.segs[0].size == 0
    ensures var q := One(CFG, p, FIRST);
            |q.segs| == 1 && q.next == 1 && q.segs[0].base == 0 && q.segs[0].size == 28
  {
    hide Encode;
    AppendedBase(p.segs[0], FIRST);
  }

  lemma OneSegment(s: State)
    requires Inv(CFG, s, 0, 0) && Quiet(s) && s.phase.doomed == [] && s.log == [FIRST] && |s.phase.part.segs| == 1
    ensures Good(CFG, s.phase.part, s.disk, [CHUNK], 0)
  {
    hide Good, ManyWrites, After, Doomed, Matches, Live, Flat;
    var d, cs: seq<Chunk>, k: nat, left: nat :| ServingAs(CFG, s, d, cs, k, left, 0, 0);
    NoneDoomed(cs, k, left);
    NoWrites(CFG, s.phase.part, d);
    GoodIsLive(CFG, s.phase.part, d, cs, 0);
    LiveCount(s.phase.part, d, cs[0..]);
    DroppedBases(CFG, s.phase.part, d, cs, 0, 0);
    OneChunk(cs, s.log);
  }

  lemma OneChunk(cs: seq<Chunk>, log: seq<Stored>)
    requires |cs| == 1 && cs[0].base == 0 && Matches(cs, log) && log == [FIRST]
    ensures cs == [CHUNK]
  {
    hide Flat;
    FlatOne(cs[0]);
    assert cs == [cs[0]] && log[0..] == log;
  }

  lemma LiveCount(p: Partition, d: Files, cs: seq<Chunk>)
    requires Live(p, d, cs)
    ensures |p.segs| == |cs|
  {
    hide SegLive, ActiveOk;
  }

  /** The second record makes the partition roll, and the process dies when the marker has been created. */
  lemma Dies() returns (run: seq<State>, p: Partition, d: Files)
    ensures run != [] && IsRun(CFG, run) && End(run).phase.Down? && End(run).floor == 0
    ensures End(run).log == [FIRST] && End(run).inflight == [Record(1, 2, [], [])]
    ensures Good(CFG, p, d, [CHUNK], 0) && p.segs != [] && p.next == 1
    ensures End(run).disk == CrashDisk(d, RollWrites(p), 3, 0)
  {
    hide IsRun, Good, ManyWrites, RollWrites, Apply, After;
    var before := HasFirst();
    p, d := End(before).phase.part, End(before).disk;
    run := Produces(CFG, before, ITEM, 2);
    RollComesFirst(p, d, Record(1, 2, [], []));
    run := Writes(CFG, run, 3);
    var t := End(run);
    var t' := t.(phase := Down, disk := Interrupted(t.disk, ManyWrites(CFG, p, t.inflight), 3, 0));
    assert Crash(CFG, t, t', 0);
    OneMore(CFG, run, t');
    run := run + [t'];
  }

  lemma RollComesFirst(p: Partition, d: Files, r: Stored)
    requires |p.segs| == 1 && p.next == 1 && p.segs[0].size == 28
    ensures var ws := ManyWrites(CFG, p, [r]);
            && |ws| >= 4 && |RollWrites(p)| == 4
            && Interrupted(After(d, ws, 3), ws, 3, 0) == CrashDisk(d, RollWrites(p), 3, 0)
  {
    hide Apply, ApplyAll, Torn1, MarkerBytes, MarkerOf, Encode, SaveEntry, One, Rolled;
    var ws, rest := ManyWrites(CFG, p, [r]), AppendWrites(Active(Prepared(CFG, p, r.Size())), r);
    assert [r][1..] == [] && ManyWrites(CFG, One(CFG, p, r), []) == [];
    assert ws == RollWrites(p) + rest;
    CrashConcat(d, RollWrites(p), rest, 3, 0);
  }

  /** The restart, in either mode: the same record, two segments. */
  lemma Restarts(full: bool) returns (run: seq<State>)
    ensures run != [] && IsRun(CFG, run) && Quiet(End(run)) && End(run).log == [FIRST]
    ensures var p := End(run).phase.part;
            && |p.segs| == 2 && p.segs[0].base == 0 && p.segs[1].base == 1
            && (SummaryLost(p.segs[0]) <==> !full)
  {
    hide IsRun, Good, RollWrites, CrashDisk, Recover, ListsLogs, OnDisk;
    var before, p, d := Dies();
    var d', cs := End(before).disk, [CHUNK, Chunk(1, [])];
    assert Last([CHUNK]) == CHUNK && [CHUNK] + [Chunk(1, [])] == cs;
    assert OnDisk(d', cs, [], CFG.segmentMax) by { AfterDeath(p, d); }
    ChainIsListed(d', cs, [], CFG.segmentMax);
    CutMarkerLeft(CFG, p, d, [CHUNK], 0, 0, BasesOf(cs));
    RecoverGood(CFG, full, d', cs, [], BasesOf(cs));
    run := Boots(CFG, before, full, BasesOf(cs));
    var q := Recover(CFG, full, d', BasesOf(cs));
    TwoSegments(q.partition, ApplyAll(d', q.writes));
    assert [FIRST] + Clamp([Record(1, 2, [], [])], 0) == [FIRST];
  }

  lemma AfterDeath(p: Partition, d: Files)
    requires Good(CFG, p, d, [CHUNK], 0) && p.segs != [] && p.next == 1
    ensures OnDisk(CrashDisk(d, RollWrites(p), 3, 0), [CHUNK, Chunk(1, [])], [], CFG.segmentMax)
  {
    hide OnDisk, Good, RollDisk, CrashDisk, RollWrites, Torn1;
    RollSteps(p, d);
    RollMarker(CFG, p, d, [CHUNK], 0, 0);
    CrashInMarker(p, d, 0);
    assert [CHUNK] + [Chunk(1, [])] == [CHUNK, Chunk(1, [])];
  }

  lemma TwoSegments(p: Partition, d: Files)
    requires Good(CFG, p, d, [CHUNK, Chunk(1, [])], 0)
    ensures |p.segs| == 2 && p.next == 1 && p.segs[0].base == 0 && p.segs[1].base == 1
  {
    hide OnDisk, SegmentModel.Serves, Summarises, ActiveOk, Flatten;
    var cs := [CHUNK, Chunk(1, [])];
    assert cs[0..] == cs;
    assert SegLive(p.segs[0], d, cs[0]) && SegLive(p.segs[1], d, cs[1]);
  }

  /** The first segment is wholly older than the limit, and the pass by age runs. */
  ghost predicate Passes(run: seq<State>) {
    && |run| > 1 && IsRun(CFG, run)
    && var s := run[|run| - 2];
       && Retain(s, End(run), 1000, 1, 0)
       && |s.phase.part.segs| > 1 && s.phase.part.segs[0].base <= s.phase.part.segs[1].base <= |s.log|
       && Front(s) == [FIRST] && AllOld(Front(s), 1000, 1) && Dated(Front(s))
  }

  lemma Ages(full: bool) returns (run: seq<State>)
    ensures Passes(run)
    ensures Earliest(run[|run| - 2].phase.part) <= Earliest(End(run).phase.part)
    ensures Earliest(run[|run| - 2].phase.part) < Earliest(End(run).phase.part) <==> full
  {
    hide IsRun, Retain, SummaryLost, CutMarker, AllOld, Dated;
    var before := Restarts(full);
    run := Retained(CFG, before, 1000, 1, 0);
    var s := End(before);
    assert run[|run| - 2] == run[..|run| - 1][|run| - 2] == s;
    assert s.log[0..1] == [FIRST];
    FirstIsOld();
    AgePassExactly(CFG, run, |before| - 1, 1000, 1);
  }

  lemma FirstIsOld()
    ensures AllOld([FIRST], 1000, 1) && Dated([FIRST])
  {
    assert [FIRST][0].timestamp > 0;
  }

  /** The same crash, the same clock and the same limit: after a full start the old segment goes, after a quick start it
      stays. */
  lemma OldSegmentStays() returns (quick: seq<State>, full: seq<State>)
    ensures Passes(quick) && Earliest(End(quick).phase.part) == Earliest(quick[|quick| - 2].phase.part)
    ensures Passes(full) && Earliest(End(full).phase.part) > Earliest(full[|full| - 2].phase.part)
  {
    hide Passes;
    quick := Ages(false);
    full := Ages(true);
  }

  // ---- A dropped segment comes back ----------------------------------------------------------

  /** The process can die at any time, and be started again in either mode. */
  lemma DiesAndBoots(cfg: Config, run: seq<State>, full: bool) returns (run': seq<State>)
    requires run != [] && IsRun(cfg, run) && Appendable(End(run))
    ensures IsRun(cfg, run') && GoesOn(run, run') && |run| < |run'| - 1 && Quiet(End(run'))
    ensures Crash(cfg, End(run), run'[|run|], 0)
  {
    hide IsRun, ManyWrites, Apply, ListsLogs, Recover;
    var s := End(run);
    var s' := s.(phase := Down,
                 disk := Interrupted(s.disk, ManyWrites(cfg, s.phase.part, s.inflight), s.phase.done, 0));
    assert Crash(cfg, s, s', 0);
    OneMore(cfg, run, s');
    RunInv(cfg, run + [s'], |run|, |run|);
    var bases := Listing(cfg, s', s'.floor);
    run' := Boots(cfg, run + [s'], full, bases);
    GoesOnFurther(run, s', run');
    assert run'[|run|] == run'[..|run| + 1][|run|] == s';
  }

  lemma Listing(cfg: Config, s: State, hi: nat) returns (bases: seq<uint64>)
    requires Inv(cfg, s, 0, hi) && s.phase.Down?
    ensures ListsLogs(s.disk, bases)
  {
    hide OnDisk, ListsLogs, Matches;
    var cs, tail, m: nat :| DownAs(cfg, s, cs, tail, m, 0, hi);
    ChainIsListed(s.disk, cs, tail, cfg.segmentMax);
    bases := BasesOf(cs);
  }

  /** A segment that a retention pass has dropped is served again after a crash, since its files were still there. */
  lemma DroppedReturns() returns (run: seq<State>, i: nat)
    ensures IsRun(CFG, run) && i < |run| && Quiet(run[i]) && Quiet(End(run))
    ensures Earliest(End(run).phase.part) < Earliest(run[i].phase.part)
  {
    hide IsRun, Crash, Passes, Inv, Retains, Appendable, GoesOn, Earliest;
    var before := Ages(true);
    PassEnds(before);
    var s := End(before);
    i := |before| - 1;
    RunInv(CFG, before, i, i);
    QuietAppendable(CFG, s, 0, s.floor);
    run := DiesAndBoots(CFG, before, false);
    NoPass(CFG, before, run, 0);
    ComesBackExactly(CFG, run, i, |run| - 1, 0);
    StillDoomed(before);
  }

  lemma PassEnds(run: seq<State>)
    requires Passes(run)
    ensures run != [] && IsRun(CFG, run) && Quiet(End(run))
  {
    hide IsRun, DropCount, FilesOfAll, AllOld, Dated;
  }

  lemma NoPass(cfg: Config, run: seq<State>, run': seq<State>, n: nat)
    requires GoesOn(run, run') && |run| < |run'| - 1 && Crash(cfg, End(run), run'[|run|], n)
    ensures run'[|run| - 1] == End(run)
    ensures forall m :: |run| - 1 <= m < |run'| - 1 ==> !Retains(run'[m], run'[m + 1])
  {
    hide Crash, DropCount, FilesOfAll;
    assert run'[|run| - 1] == run'[..|run|][|run| - 1];
    CrashIsDown(cfg, End(run), run'[|run|], n);
    forall m | |run| - 1 <= m < |run'| - 1
      ensures !Retains(run'[m], run'[m + 1])
    {
      assert m >= |run| ==> !run'[m].phase.Serving?;
    }
  }

  lemma QuietAppendable(cfg: Config, s: State, lo: nat, hi: nat)
    requires Inv(cfg, s, lo, hi) && s.phase.Serving?
    ensures Appendable(s)
  {
    hide Good, After, Doomed, ManyWrites, Matches;
  }

  lemma CrashIsDown(cfg: Config, s: State, s': State, n: nat)
    requires Crash(cfg, s, s', n)
    ensures s'.phase.Down?
  {
    hide ManyWrites, Apply;
  }

  lemma StillDoomed(run: seq<State>)
    requires Passes(run) && Earliest(run[|run| - 2].phase.part) < Earliest(End(run).phase.part)
    ensures exists m :: 0 <= m < |End(run).phase.doomed| && End(run).phase.doomed[m].kind == Log
  {
    hide IsRun, DropCount;
    var s := run[|run| - 2];
    var p, k := s.phase.part, DropCount(s.phase.part.segs, 1000, 1, 0);
    assert k > 0 by { assert Dropped(p, 0) == p; }
    var bs := SegBases(p.segs[..k]);
    assert FilesOfAll(bs)[0] == Name(bs[0], Log);
    assert End(run).phase.doomed[|s.phase.doomed|] == FilesOfAll(bs)[0];
  }
}
