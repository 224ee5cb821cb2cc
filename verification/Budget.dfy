/** What the size rule of retention counts: the bytes of the log files, from the first segment in memory to the last. */
module Budget {
  import opened Bytes
  import opened RecordCodec
  import opened LogFile
  import opened Disk
  import opened SegmentModel
  import opened Layout
  import opened PartitionModel
  import opened AppendSafety
  import opened Retention
  import opened PartitionRuns

  /** The sizes of the log files of these segments, together. */
  function FileBytes(d: Files, cs: seq<Chunk>): nat {
    if cs == [] then 0 else |Content(d, Name(cs[0].base, Log))| + FileBytes(d, cs[1..])
  }

  lemma {:induction false} TotalLive(segs: seq<Segment>, d: Files, cs: seq<Chunk>)
    requires |segs| == |cs| && forall i :: 0 <= i < |cs| ==> SegLive(segs[i], d, cs[i])
    ensures Total(segs) == |Flatten(Flat(cs))| == FileBytes(d, cs)
    decreases |cs|
  {
    hide Flatten, SegLive;
    if cs == [] {
      NothingHeld(cs);
    } else {
      LiveSize(segs[0], d, cs[0]);
      forall i | 0 <= i < |cs[1..]|
        ensures SegLive(segs[1..][i], d, cs[1..][i])
      {
        assert segs[1..][i] == segs[i + 1] && cs[1..][i] == cs[i + 1];
      }
      TotalLive(segs[1..], d, cs[1..]);
      FlattenConcat(cs[0].recs, Flat(cs[1..]));
    }
  }

  lemma NothingHeld(cs: seq<Chunk>)
    requires cs == []
    ensures Flatten(Flat(cs)) == []
  {
  }

  lemma LiveSize(s: Segment, d: Files, c: Chunk)
    requires SegLive(s, d, c)
    ensures s.size == |Flatten(c.recs)| == |Content(d, Name(c.base, Log))|
  {
    hide Flatten, Summarises;
  }

  /** Under the invariant, the bytes counted from any segment on are those of its records and all later ones, and of
      their files. */
  lemma TotalIsBytes(p: Partition, d: Files, cs: seq<Chunk>, i: nat)
    requires Live(p, d, cs) && i <= |cs|
    ensures |p.segs| == |cs| && Total(p.segs[i..]) == |Flatten(Flat(cs[i..]))| == FileBytes(d, cs[i..])
  {
    hide SegLive, ActiveOk, Flatten, Total, FileBytes;
    forall j | 0 <= j < |cs[i..]|
      ensures SegLive(p.segs[i..][j], d, cs[i..][j])
    {
      assert SegLive(p.segs[i + j], d, cs[i + j]);
    }
    TotalLive(p.segs[i..], d, cs[i..]);
  }

  /** Why segment `i` has to go: it has expired, or it has, with all later ones, more bytes than the budget. */
  ghost predicate Needed(segs: seq<Segment>, cs: seq<Chunk>, i: nat, now: int64, ageMs: uint64, budget: uint64)
    requires i < |segs| == |cs|
  {
    (ageMs > 0 && Expired(segs[i], now, ageMs)) || (budget > 0 && |Flatten(Flat(cs[i..]))| > budget)
  }

  /** The size rule, told by bytes: the rest is within the budget or only the last segment is left, and every segment
      that goes had to. */
  lemma DropBytesExact(p: Partition, d: Files, cs: seq<Chunk>, now: int64, ageMs: uint64, budget: uint64)
    requires Live(p, d, cs)
    ensures var n := DropCount(p.segs, now, ageMs, budget);
            && n < |p.segs| == |cs|
            && (budget > 0 ==> |Flatten(Flat(cs[n..]))| <= budget || n == |p.segs| - 1)
            && forall i :: 0 <= i < n ==> Needed(p.segs, cs, i, now, ageMs, budget)
  {
    hide Live, Flatten, Total, Expired, DropCount, Flat, FileBytes;
    var n := DropCount(p.segs, now, ageMs, budget);
    LiveSegs(p, d, cs);
    DropLimit(p.segs, now, ageMs, budget);
    TotalIsBytes(p, d, cs, n);
    forall i | 0 <= i < n
      ensures Needed(p.segs, cs, i, now, ageMs, budget)
    {
      DropReason(p.segs, now, ageMs, budget, i);
      TotalIsBytes(p, d, cs, i);
    }
  }

  lemma LiveSegs(p: Partition, d: Files, cs: seq<Chunk>)
    requires Live(p, d, cs)
    ensures |p.segs| == |cs| > 0
  {
    hide SegLive, ActiveOk;
  }

  lemma DropLimit(segs: seq<Segment>, now: int64, ageMs: uint64, budget: uint64)
    requires segs != []
    ensures var n := DropCount(segs, now, ageMs, budget);
            n < |segs| && (budget > 0 ==> Total(segs[n..]) <= budget || n == |segs| - 1)
  {
    hide Expired, Total, DropCount;
    DropCountExact(segs, now, ageMs, budget);
  }

  lemma DropReason(segs: seq<Segment>, now: int64, ageMs: uint64, budget: uint64, i: nat)
    requires segs != [] && i < DropCount(segs, now, ageMs, budget)
    ensures i < |segs|
    ensures (ageMs > 0 && Expired(segs[i], now, ageMs)) || (budget > 0 && Total(segs[i..]) > budget)
  {
    hide Expired, Total, AgeCount, SizeCount;
    AgeCountExact(segs, now, ageMs);
    SizeCountExact(segs, budget);
  }

  // ---- Over whole runs -------------------------------------------------------------------------

  /** The bytes of the log from an offset on. */
  function BytesFrom(log: seq<Stored>, offset: nat): nat
    requires offset <= |log|
  {
    |Flatten(log[offset..])|
  }

  lemma QuietTotal(cfg: Config, run: seq<State>, j: nat, i: nat)
    requires IsRun(cfg, run) && j < |run| && Quiet(run[j]) && i < |run[j].phase.part.segs|
    ensures var p := run[j].phase.part;
            p.segs[i].base <= |run[j].log| && Total(p.segs[i..]) == BytesFrom(run[j].log, p.segs[i].base)
  {
    hide IsRun, PartitionRuns.Serves, LayoutOk, Flatten, Total, Flat;
    var p, log := run[j].phase.part, run[j].log;
    var cs := CrashRefinement(cfg, run, j, j);
    ServesTail(p, run[j].disk, cs, log, i, cfg.segmentMax);
  }

  lemma ServesTail(p: Partition, d: Files, cs: seq<Chunk>, log: seq<Stored>, i: nat, max: uint32)
    requires PartitionRuns.Serves(p, d, cs, log) && LayoutOk(cs, max) && i < |p.segs|
    ensures p.segs[i].base <= |log| && Total(p.segs[i..]) == BytesFrom(log, p.segs[i].base)
  {
    hide LayoutOk, Flatten, Total, Flat, SegLive, ActiveOk, FileBytes;
    MatchesDrop(cs, i, log, max);
    MatchesIs(cs[i..], log);
    assert SegLive(p.segs[i], d, cs[i]);
    assert p.segs[i].base == cs[i].base by { LiveBase(p.segs[i], d, cs[i]); }
    TotalIsBytes(p, d, cs, i);
  }

  lemma LiveBase(s: Segment, d: Files, c: Chunk)
    requires SegLive(s, d, c)
    ensures s.base == c.base
  {
    hide Flatten, Summarises, SegmentModel.Serves;
  }

  /** Over every run, a pass by size leaves the log within the budget or in one segment; every segment that it drops
      was too much, counted with all that follow; and so it drops anything exactly if there are two segments and the
      whole log has more bytes than the budget. */
  lemma BudgetExactly(cfg: Config, run: seq<State>, j: nat, now: int64, budget: uint64)
    requires IsRun(cfg, run) && j + 1 < |run| && Retain(run[j], run[j + 1], now, 0, budget) && budget > 0
    ensures var log, segs, segs' := run[j].log, run[j].phase.part.segs, run[j + 1].phase.part.segs;
            && 0 < |segs'| <= |segs| && segs' == segs[|segs| - |segs'|..]
            && (forall i :: 0 <= i < |segs| ==> segs[i].base <= |log|)
            && (|segs'| == 1 || BytesFrom(log, segs'[0].base) <= budget)
            && (forall i :: 0 <= i < |segs| - |segs'| ==> BytesFrom(log, segs[i].base) > budget)
            && (|segs'| < |segs| <==> |segs| > 1 && BytesFrom(log, segs[0].base) > budget)
  {
    hide IsRun, Total, BytesFrom, DropCount;
    var p := run[j].phase.part;
    var n := DropCount(p.segs, now, 0, budget);
    SegsThere(cfg, run, j);
    DropCountExact(p.segs, now, 0, budget);
    forall i | 0 <= i < |p.segs|
      ensures p.segs[i].base <= |run[j].log| && Total(p.segs[i..]) == BytesFrom(run[j].log, p.segs[i].base)
    {
      QuietTotal(cfg, run, j, i);
    }
    assert run[j + 1].phase.part.segs == p.segs[n..];
    assert p.segs[0..] == p.segs;
  }

  lemma SegsThere(cfg: Config, run: seq<State>, j: nat)
    requires IsRun(cfg, run) && j < |run| && Quiet(run[j])
    ensures run[j].phase.part.segs != []
  {
    hide IsRun, Inv;
    RunInv(cfg, run, j, j);
    StillThere(cfg, run[j], 0, run[j].floor);
  }

  lemma StillThere(cfg: Config, s: State, lo: nat, hi: nat)
    requires Inv(cfg, s, lo, hi) && s.phase.Serving?
    ensures s.phase.part.segs != []
  {
    hide Good, After, Doomed, ManyWrites, Matches;
  }
}
