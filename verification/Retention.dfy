/** Retention: whole segments leave from the front, first from memory and then, file by file, from the directory. */
module Retention {
  import opened Bytes
  import opened LogFile
  import opened Disk
  import opened SegmentModel
  import opened Layout
  import opened PartitionModel
  import opened AppendSafety

  predicate Expired(s: Segment, now: int64, ageMs: uint64) {
    s.maxTimestamp > 0 && now - s.maxTimestamp > ToSigned(ageMs)
  }

  /** The expired segments at the front, the last segment excluded. */
  function AgeCount(segs: seq<Segment>, now: int64, ageMs: uint64): nat {
    if |segs| <= 1 || !Expired(segs[0], now, ageMs) then 0 else 1 + AgeCount(segs[1..], now, ageMs)
  }

  function Total(segs: seq<Segment>): nat {
    if segs == [] then 0 else segs[0].size + Total(segs[1..])
  }

  /** The segments that must go before the rest fits the budget, the last segment excluded. */
  function SizeCount(segs: seq<Segment>, budget: uint64): nat {
    if |segs| <= 1 || Total(segs) <= budget then 0 else 1 + SizeCount(segs[1..], budget)
  }

  /** How many segments one pass removes; zero switches a policy off. */
  function DropCount(segs: seq<Segment>, now: int64, ageMs: uint64, budget: uint64): nat {
    Max(if ageMs > 0 then AgeCount(segs, now, ageMs) else 0, if budget > 0 then SizeCount(segs, budget) else 0)
  }

  function Dropped(p: Partition, count: nat): Partition
    requires count <= |p.segs|
  {
    p.(segs := p.segs[count..])
  }

  /** The files to remove, in order. */
  function FilesOf(base: uint64): seq<Name> {
    [Name(base, Log), Name(base, Index), Name(base, Sealed)]
  }

  function FilesOfAll(bases: seq<uint64>): seq<Name> {
    if bases == [] then [] else FilesOf(bases[0]) + FilesOfAll(bases[1..])
  }

  function SegBases(segs: seq<Segment>): (bs: seq<uint64>)
    ensures |bs| == |segs| && forall i :: 0 <= i < |segs| ==> bs[i] == segs[i].base
  {
    seq(|segs|, i requires 0 <= i < |segs| => segs[i].base)
  }

  // ---- Exactly what has to go --------------------------------------------------------------

  lemma {:induction false} AgeCountExact(segs: seq<Segment>, now: int64, ageMs: uint64)
    ensures var k := AgeCount(segs, now, ageMs);
            && (segs != [] ==> k < |segs|) && k <= |segs|
            && (forall i :: 0 <= i < k ==> Expired(segs[i], now, ageMs))
            && (k < |segs| - 1 ==> !Expired(segs[k], now, ageMs))
  {
    hide Expired;
    if |segs| > 1 && Expired(segs[0], now, ageMs) {
      var k := AgeCount(segs[1..], now, ageMs);
      AgeCountExact(segs[1..], now, ageMs);
      forall i | 0 <= i < k + 1
        ensures Expired(segs[i], now, ageMs)
      {
        if i > 0 {
          assert segs[i] == segs[1..][i - 1];
        }
      }
    }
  }

  lemma {:induction false} SizeCountExact(segs: seq<Segment>, budget: uint64)
    ensures var k := SizeCount(segs, budget);
            && (segs != [] ==> k < |segs|) && k <= |segs|
            && (forall i :: 0 <= i < k ==> Total(segs[i..]) > budget)
            && (k < |segs| - 1 ==> Total(segs[k..]) <= budget)
  {
    if |segs| > 1 && Total(segs) > budget {
      var k := SizeCount(segs[1..], budget);
      SizeCountExact(segs[1..], budget);
      forall i | 0 <= i < k + 1
        ensures Total(segs[i..]) > budget
      {
        if i == 0 {
          assert segs[0..] == segs;
        } else {
          assert segs[i..] == segs[1..][i - 1..];
        }
      }
      assert segs[k + 1..] == segs[1..][k..];
    } else if segs != [] {
      assert segs[0..] == segs;
    }
  }

  lemma {:induction false} TotalShrinks(segs: seq<Segment>, i: nat, j: nat)
    requires i <= j <= |segs|
    ensures Total(segs[j..]) <= Total(segs[i..])
    decreases j - i
  {
    if i < j {
      assert segs[i..][1..] == segs[i + 1..];
      TotalShrinks(segs, i + 1, j);
    }
  }

  /** A pass never takes the last segment, leaves the rest within the budget or only the last segment, and takes no
      segment that neither the expired front nor the budget requires. */
  lemma DropCountExact(segs: seq<Segment>, now: int64, ageMs: uint64, budget: uint64)
    requires segs != []
    ensures var k := DropCount(segs, now, ageMs, budget);
            && k < |segs|
            && (budget > 0 ==> Total(segs[k..]) <= budget || k == |segs| - 1)
            && (ageMs > 0 ==> k == |segs| - 1 || !(forall i :: 0 <= i <= k ==> Expired(segs[i], now, ageMs)))
            && (forall j :: 0 <= j < k ==>
                  || (ageMs > 0 && forall i :: 0 <= i <= j ==> Expired(segs[i], now, ageMs))
                  || (budget > 0 && Total(segs[j..]) > budget))
  {
    hide Expired, Total;
    AgeCountExact(segs, now, ageMs);
    SizeCountExact(segs, budget);
    var k, a, b := DropCount(segs, now, ageMs, budget), AgeCount(segs, now, ageMs), SizeCount(segs, budget);
    if budget > 0 && b < |segs| - 1 {
      TotalShrinks(segs, b, k);
    }
    if ageMs > 0 && k < |segs| - 1 {
      assert a <= k && !Expired(segs[a], now, ageMs);
    }
  }

  // ---- Memory ------------------------------------------------------------------------------

  /** Dropping segments from memory leaves the rest, and the next offset, as they were. */
  lemma DropGood(cfg: Config, p: Partition, d: Files, cs: seq<Chunk>, k: nat, count: nat)
    requires Good(cfg, p, d, cs, k) && count < |p.segs|
    ensures Good(cfg, Dropped(p, count), d, cs, k + count)
    ensures Dropped(p, count).next == p.next
  {
    hide OnDisk, SegLive, ActiveOk;
    var q := Dropped(p, count);
    assert cs[k + count..] == cs[k..][count..];
    assert Last(cs[k..][count..]) == Last(cs[k..]) && Active(q) == Active(p);
    forall i | 0 <= i < |q.segs|
      ensures SegLive(q.segs[i], d, cs[k..][count..][i])
    {
      assert SegLive(p.segs[count + i], d, cs[k..][count + i]);
    }
  }

  lemma DroppedBases(cfg: Config, p: Partition, d: Files, cs: seq<Chunk>, k: nat, i: nat)
    requires Good(cfg, p, d, cs, k) && i < |p.segs|
    ensures p.segs[i].base == cs[k + i].base
  {
    hide OnDisk, ActiveOk, Serves, Flatten;
    assert SegLive(p.segs[i], d, cs[k..][i]);
  }

  // ---- Files -------------------------------------------------------------------------------

  /** The removals still to be made: leftovers of a segment whose log is gone, then all files of the first `k`
      segments. */
  ghost predicate Doomed(names: seq<Name>, cs: seq<Chunk>, k: nat, left: nat) {
    && k < |cs| && left <= |names|
    && (forall i :: 0 <= i < left ==> names[i].kind != Log && names[i].base < cs[0].base)
    && names[left..] == FilesOfAll(BasesOf(cs[..k]))
  }

  lemma {:induction false} FilesOfAllConcat(a: seq<uint64>, b: seq<uint64>)
    ensures FilesOfAll(a + b) == FilesOfAll(a) + FilesOfAll(b)
  {
    hide FilesOf;
    if a == [] {
      assert a + b == b;
    } else {
      assert (a + b)[1..] == a[1..] + b;
      FilesOfAllConcat(a[1..], b);
      Assoc(FilesOf(a[0]), FilesOfAll(a[1..]), FilesOfAll(b));
    }
  }

  lemma DoomedMore(names: seq<Name>, cs: seq<Chunk>, k: nat, left: nat, count: nat, more: seq<uint64>)
    requires Doomed(names, cs, k, left) && k + count < |cs| && |more| == count
    requires forall i :: 0 <= i < count ==> more[i] == cs[k + i].base
    ensures Doomed(names + FilesOfAll(more), cs, k + count, left)
  {
    hide FilesOfAll;
    var a, b := BasesOf(cs[..k]), BasesOf(cs[..k + count]);
    assert b == a + more;
    FilesOfAllConcat(a, more);
    assert (names + FilesOfAll(more))[left..] == names[left..] + FilesOfAll(more);
  }

  /** Dropping more segments adds their files to the list. */
  lemma DoomedDrop(cfg: Config, p: Partition, d: Files, names: seq<Name>, cs: seq<Chunk>, k: nat, left: nat, count: nat)
    requires Good(cfg, p, d, cs, k) && count < |p.segs| && Doomed(names, cs, k, left)
    ensures Doomed(names + FilesOfAll(SegBases(p.segs[..count])), cs, k + count, left)
  {
    hide Good, OnDisk, FilesOfAll, Doomed;
    GoodShape(cfg, p, d, cs, k);
    var more := SegBases(p.segs[..count]);
    forall i | 0 <= i < count
      ensures more[i] == cs[k + i].base
    {
      DroppedBases(cfg, p, d, cs, k, i);
    }
    DoomedMore(names, cs, k, left, count, more);
  }

  lemma LiveBeyond(cs: seq<Chunk>, k: nat, i: nat, max: uint32, d: Files)
    requires OnDisk(d, cs, [], max) && k <= i < |cs| && 0 < k
    ensures cs[0].base < cs[i].base
  {
    hide ChunksOnDisk, NothingElse, Torn;
    BasesRise(cs, 0, i);
  }

  lemma RemoveLive(p: Partition, d: Files, cs: seq<Chunk>, n: Name)
    requires Live(p, d, cs) && forall i :: 0 <= i < |cs| ==> n.base < cs[i].base
    ensures Live(p, Apply(d, Remove(n)), cs)
  {
    hide SegLive, ActiveOk, Live, Apply;
    var d' := Apply(d, Remove(n));
    assert |cs| > 0 by { LiveSome(p, d, cs); }
    forall i | 0 <= i < |cs|
      ensures Agree(d, d', Name(cs[i].base, Log)) && Agree(d, d', Name(cs[i].base, Sealed))
    {
      WriteFrame(d, Remove(n), Name(cs[i].base, Log));
      WriteFrame(d, Remove(n), Name(cs[i].base, Sealed));
    }
    WriteFrame(d, Remove(n), Name(Last(cs).base, Index));
    LiveFrame(p, d, d', cs);
  }

  lemma LiveSome(p: Partition, d: Files, cs: seq<Chunk>)
    requires Live(p, d, cs)
    ensures |cs| > 0
  {
  }

  /** Each removal leaves a good directory: the first segment goes with its log, its other files are leftovers. */
  lemma RemoveOrphan(cfg: Config, p: Partition, d: Files, names: seq<Name>, cs: seq<Chunk>, k: nat, left: nat)
    requires Good(cfg, p, d, cs, k) && Doomed(names, cs, k, left) && left > 0
    ensures Good(cfg, p, Apply(d, Remove(names[0])), cs, k)
    ensures Doomed(names[1..], cs, k, left - 1)
  {
    hide OnDisk, Live, FilesOfAll, Apply;
    OrphanRemoved(d, cs, names[0], [], cfg.segmentMax);
    forall i | 0 <= i < |cs[k..]|
      ensures names[0].base < cs[k..][i].base
    {
      FirstIsLeast(cs, k + i, cfg.segmentMax, d);
    }
    RemoveLive(p, d, cs[k..], names[0]);
    assert names[1..][left - 1..] == names[left..];
  }

  lemma FirstIsLeast(cs: seq<Chunk>, i: nat, max: uint32, d: Files)
    requires OnDisk(d, cs, [], max) && i < |cs|
    ensures cs[0].base <= cs[i].base
  {
    hide ChunksOnDisk, NothingElse, Torn;
    if i > 0 {
      BasesRise(cs, 0, i);
    }
  }

  lemma DoomedHead(names: seq<Name>, cs: seq<Chunk>, k: nat)
    requires Doomed(names, cs, k, 0) && names != []
    ensures k > 0 && names[0] == Name(cs[0].base, Log)
  {
    assert names[0..] == names;
    if k > 0 {
      assert BasesOf(cs[..k])[0] == cs[0].base;
    }
  }

  lemma DoomedNext(names: seq<Name>, cs: seq<Chunk>, k: nat)
    requires Doomed(names, cs, k, 0) && k > 0 && cs[0].base < cs[1].base
    ensures Doomed(names[1..], cs[1..], k - 1, 2)
  {
    var bs := BasesOf(cs[..k]);
    assert names[0..] == names;
    assert bs[1..] == BasesOf(cs[1..][..k - 1]);
    assert FilesOfAll(bs) == FilesOf(bs[0]) + FilesOfAll(bs[1..]);
    assert names[1..][2..] == names[3..] == FilesOfAll(bs[1..]);
    assert names[1] == Name(cs[0].base, Index) && names[2] == Name(cs[0].base, Sealed);
  }

  lemma RemoveFirst(cfg: Config, p: Partition, d: Files, names: seq<Name>, cs: seq<Chunk>, k: nat)
    requires Good(cfg, p, d, cs, k) && Doomed(names, cs, k, 0) && names != []
    ensures Good(cfg, p, Apply(d, Remove(names[0])), cs[1..], k - 1)
    ensures Doomed(names[1..], cs[1..], k - 1, 2) && k > 0
  {
    hide OnDisk, Live, FilesOfAll, Apply, Doomed;
    DoomedHead(names, cs, k);
    LiveBeyond(cs, 1, 1, cfg.segmentMax, d);
    DoomedNext(names, cs, k);
    FirstLogRemoved(d, cs, [], cfg.segmentMax);
    forall i | 0 <= i < |cs[k..]|
      ensures names[0].base < cs[k..][i].base
    {
      LiveBeyond(cs, k, k + i, cfg.segmentMax, d);
    }
    RemoveLive(p, d, cs[k..], names[0]);
    assert cs[1..][k - 1..] == cs[k..];
  }
}
