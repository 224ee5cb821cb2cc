/** What a partition directory holds: a chain of segments, the last one possibly with a torn tail. */
module Layout {
  import opened Bytes
  import opened RecordCodec
  import opened LogFile
  import opened OffsetIndex
  import opened Disk
  import opened SegmentModel
  import Crc32

  const OFFSET_LIMIT := 0x1_0000_0000_0000_0000

  /** The records of one segment. */
  datatype Chunk = Chunk(base: uint64, recs: seq<Stored>) {
    function End(): nat {
      base + |recs|
    }
  }

  /** Consecutive offsets, and a size within the limit unless a single record exceeds it. */
  ghost predicate ChunkOk(c: Chunk, max: uint32) {
    && Consecutive(c.base, c.recs)
    && (|Flatten(c.recs)| <= max || |c.recs| == 1)
    && c.End() < OFFSET_LIMIT
  }

  ghost predicate Chained(cs: seq<Chunk>) {
    forall i :: 0 <= i < |cs| - 1 ==> cs[i].recs != [] && cs[i + 1].base == cs[i].End()
  }

  ghost predicate LayoutOk(cs: seq<Chunk>, max: uint32) {
    && (forall i :: 0 <= i < |cs| ==> ChunkOk(cs[i], max))
    && Chained(cs)
  }

  function Last(cs: seq<Chunk>): Chunk
    requires cs != []
  {
    cs[|cs| - 1]
  }

  function BasesOf(cs: seq<Chunk>): (bs: seq<uint64>)
    ensures |bs| == |cs| && forall i :: 0 <= i < |cs| ==> bs[i] == cs[i].base
  {
    seq(|cs|, i requires 0 <= i < |cs| => cs[i].base)
  }

  /** All records, in order. */
  function Flat(cs: seq<Chunk>): seq<Stored> {
    if cs == [] then [] else cs[0].recs + Flat(cs[1..])
  }

  ghost predicate HasBase(cs: seq<Chunk>, b: uint64) {
    exists i :: 0 <= i < |cs| && cs[i].base == b
  }

  function MarkerFor(c: Chunk): Marker
    requires c.recs != [] && c.End() < OFFSET_LIMIT
  {
    Marker(|c.recs|, c.End() - 1, Crc32.Checksum(Flatten(c.recs)), MaxTimestamp(c.recs))
  }

  /** A sealed marker goes with a sound index file and holds (a prefix of) the true summary of its log. */
  ghost predicate MarkerOnDisk(d: Files, c: Chunk) {
    && c.recs != [] && c.End() < OFFSET_LIMIT
    && Sound(Load(Content(d, Name(c.base, Index))), c.recs)
    && Content(d, Name(c.base, Sealed)) <= MarkerBytes(MarkerFor(c))
  }

  /** A crash while the marker was written left it incomplete. */
  predicate CutMarker(d: Files, base: uint64) {
    Name(base, Sealed) in d && |d[Name(base, Sealed)]| < 32
  }

  ghost predicate ChunkOnDisk(d: Files, c: Chunk, sealable: bool, tail: bytes) {
    && Name(c.base, Log) in d
    && d[Name(c.base, Log)] == Flatten(c.recs) + tail
    && (Name(c.base, Sealed) in d ==> sealable && MarkerOnDisk(d, c))
  }

  ghost predicate ChunksOnDisk(d: Files, cs: seq<Chunk>, tail: bytes) {
    && (forall i :: 0 <= i < |cs| - 1 ==> ChunkOnDisk(d, cs[i], true, []))
    && (cs != [] ==> ChunkOnDisk(d, Last(cs), false, tail))
  }

  /** No log file outside the chain, and no file beyond the last segment. */
  ghost predicate NothingElse(d: Files, cs: seq<Chunk>) {
    && (cs == [] ==> d == map[])
    && (forall n :: n in d && n.kind == Log ==> HasBase(cs, n.base))
    && (forall n :: n in d && cs != [] ==> n.base <= Last(cs).base)
  }

  /** The directory holds exactly this chain of segments, then a torn tail. */
  ghost predicate OnDisk(d: Files, cs: seq<Chunk>, tail: bytes, max: uint32) {
    && LayoutOk(cs, max)
    && Torn(tail)
    && (cs == [] ==> tail == [])
    && ChunksOnDisk(d, cs, tail)
    && NothingElse(d, cs)
  }

  // ---- Layouts -----------------------------------------------------------------------------

  lemma {:induction false} BasesRise(cs: seq<Chunk>, i: nat, j: nat)
    requires Chained(cs) && i < j < |cs|
    ensures cs[i].End() <= cs[j].base && cs[i].base < cs[j].base
    decreases j
  {
    if i < j - 1 {
      BasesRise(cs, i, j - 1);
    }
  }

  lemma ChunkFits(c: Chunk, max: uint32)
    requires ChunkOk(c, max)
    ensures |Flatten(c.recs)| < U32_SIZE
  {
    hide Flatten;
    if |c.recs| == 1 {
      assert c.recs == [c.recs[0]];
      FlattenOne(c.recs[0]);
    }
  }

  /** The layout after one more record. */
  function Grow(cs: seq<Chunk>, r: Stored): seq<Chunk>
    requires cs != []
  {
    cs[..|cs| - 1] + [Chunk(Last(cs).base, Last(cs).recs + [r])]
  }

  lemma {:induction false} FlatConcat(a: seq<Chunk>, b: seq<Chunk>)
    ensures Flat(a + b) == Flat(a) + Flat(b)
  {
    if a == [] {
      assert a + b == b;
    } else {
      FlatConcat(a[1..], b);
      assert (a + b)[1..] == a[1..] + b;
      Assoc(a[0].recs, Flat(a[1..]), Flat(b));
    }
  }

  lemma FlatOne(c: Chunk)
    ensures Flat([c]) == c.recs
  {
    assert Flat([c]) == c.recs + Flat([]);
  }

  lemma FlatGrow(cs: seq<Chunk>, r: Stored)
    requires cs != []
    ensures Flat(Grow(cs, r)) == Flat(cs) + [r]
  {
    hide Flat;
    var front, c := cs[..|cs| - 1], Last(cs);
    FlatConcat(front, [c]);
    FlatConcat(front, [Chunk(c.base, c.recs + [r])]);
    FlatOne(c);
    FlatOne(Chunk(c.base, c.recs + [r]));
    assert cs == front + [c];
  }

  /** Offsets are consecutive across segments. */
  lemma {:induction false} FlatOffsets(cs: seq<Chunk>, max: uint32)
    requires cs != [] && LayoutOk(cs, max)
    ensures Consecutive(cs[0].base, Flat(cs))
    ensures Last(cs).End() == cs[0].base + |Flat(cs)|
  {
    if |cs| == 1 {
      assert cs == [cs[0]];
      FlatOne(cs[0]);
    } else {
      assert LayoutOk(cs[1..], max) by { LayoutSuffix(cs, 1, max); }
      FlatOffsets(cs[1..], max);
      ChainOffsets(cs[0], Flat(cs[1..]));
    }
  }

  lemma ChainOffsets(c: Chunk, rest: seq<Stored>)
    requires Consecutive(c.base, c.recs) && c.End() < OFFSET_LIMIT && Consecutive(c.End(), rest)
    ensures Consecutive(c.base, c.recs + rest)
  {
  }

  lemma LayoutSuffix(cs: seq<Chunk>, k: nat, max: uint32)
    requires LayoutOk(cs, max) && k <= |cs|
    ensures LayoutOk(cs[k..], max)
  {
    assert forall i :: 0 <= i < |cs[k..]| ==> cs[k..][i] == cs[k + i];
  }

  lemma GrowOk(cs: seq<Chunk>, r: Stored, max: uint32)
    requires LayoutOk(cs, max) && cs != []
    requires ChunkOk(Chunk(Last(cs).base, Last(cs).recs + [r]), max)
    ensures LayoutOk(Grow(cs, r), max)
  {
    hide ChunkOk;
    var cs' := Grow(cs, r);
    assert forall i :: 0 <= i < |cs| - 1 ==> cs'[i] == cs[i];
    assert forall i :: 0 <= i < |cs| ==> cs'[i].base == cs[i].base;
  }

  lemma RollOk(cs: seq<Chunk>, max: uint32)
    requires LayoutOk(cs, max) && cs != [] && Last(cs).recs != []
    ensures LayoutOk(cs + [Chunk(Last(cs).End(), [])], max)
  {
    NothingFlat();
    hide Flatten;
    var cs' := cs + [Chunk(Last(cs).End(), [])];
    assert forall i :: 0 <= i < |cs| ==> cs'[i] == cs[i];
  }

  // ---- Frames ------------------------------------------------------------------------------

  /** The two directories have the same file of this name, or both have none. */
  ghost predicate Agree(d: Files, d': Files, n: Name) {
    (n in d <==> n in d') && (n in d ==> d[n] == d'[n])
  }

  ghost predicate AgreeOn(d: Files, d': Files, b: uint64) {
    Agree(d, d', Name(b, Log)) && Agree(d, d', Name(b, Index)) && Agree(d, d', Name(b, Sealed))
  }

  lemma ChunkFrame(d: Files, d': Files, c: Chunk, sealable: bool, tail: bytes)
    requires ChunkOnDisk(d, c, sealable, tail) && AgreeOn(d, d', c.base)
    ensures ChunkOnDisk(d', c, sealable, tail)
  {
    hide Flatten, Load, MarkerBytes, Sound;
  }

  /** A write leaves every file but its own alone. */
  lemma WriteFrame(d: Files, w: Write, n: Name)
    requires n != w.name
    ensures Agree(d, Apply(d, w), n)
  {
  }

  lemma OtherChunks(d: Files, w: Write, c: Chunk, sealable: bool, tail: bytes)
    requires ChunkOnDisk(d, c, sealable, tail) && w.name.base != c.base
    ensures ChunkOnDisk(Apply(d, w), c, sealable, tail)
  {
    hide ChunkOnDisk, Apply;
    WriteFrame(d, w, Name(c.base, Log));
    WriteFrame(d, w, Name(c.base, Index));
    WriteFrame(d, w, Name(c.base, Sealed));
    ChunkFrame(d, Apply(d, w), c, sealable, tail);
  }

  /** A write into the last segment leaves the others as they were. */
  lemma FrontUntouched(d: Files, w: Write, cs: seq<Chunk>, tail: bytes)
    requires Chained(cs) && cs != [] && ChunksOnDisk(d, cs, tail)
    requires w.name.base >= Last(cs).base
    ensures forall i :: 0 <= i < |cs| - 1 ==> ChunkOnDisk(Apply(d, w), cs[i], true, [])
  {
    hide ChunkOnDisk, Apply;
    forall i | 0 <= i < |cs| - 1
      ensures ChunkOnDisk(Apply(d, w), cs[i], true, [])
    {
      BasesRise(cs, i, |cs| - 1);
      OtherChunks(d, w, cs[i], true, []);
    }
  }

  // ---- One write at a time -----------------------------------------------------------------

  lemma LogGrows(d: Files, c: Chunk, data: bytes)
    requires ChunkOnDisk(d, c, false, [])
    ensures var d' := Apply(d, Append(Name(c.base, Log), data));
            && Name(c.base, Log) in d' && d'[Name(c.base, Log)] == Flatten(c.recs) + data
            && Name(c.base, Sealed) !in d'
  {
    hide Flatten, MarkerOnDisk;
    assert Flatten(c.recs) + [] == Flatten(c.recs);
  }

  /** Part of an encoding reaches the log: the directory holds the same records, then a torn tail. */
  lemma LogWriteTorn(d: Files, cs: seq<Chunk>, r: Stored, n: nat, max: uint32)
    requires OnDisk(d, cs, [], max) && cs != [] && n < r.Size()
    ensures OnDisk(Apply(d, Append(Name(Last(cs).base, Log), Encode(r)[..n])), cs, Encode(r)[..n], max)
  {
    hide Encode, Flatten, MarkerOnDisk, LayoutOk, Apply;
    var data := Encode(r)[..n];
    var w := Append(Name(Last(cs).base, Log), data);
    FrontUntouched(d, w, cs, []) by { LayoutChained(cs, max); }
    assert Torn(data) by { assert data < Encode(r); }
    LogGrows(d, Last(cs), data);
    WriteNames(d, w);
    SameBases(d, Apply(d, w), cs, cs);
  }

  lemma LayoutChained(cs: seq<Chunk>, max: uint32)
    requires LayoutOk(cs, max)
    ensures Chained(cs)
  {
  }

  lemma WriteNames(d: Files, w: Write)
    ensures forall n :: n in Apply(d, w) ==> n in d || n == w.name
  {
  }

  /** The whole encoding reaches the log: one more record. */
  lemma LogWriteWhole(d: Files, cs: seq<Chunk>, r: Stored, max: uint32)
    requires OnDisk(d, cs, [], max) && cs != []
    requires ChunkOk(Chunk(Last(cs).base, Last(cs).recs + [r]), max)
    ensures OnDisk(Apply(d, Append(Name(Last(cs).base, Log), Encode(r))), Grow(cs, r), [], max)
  {
    hide Encode, Flatten, MarkerOnDisk, LayoutOk, Apply, Torn, ChunkOk;
    var c, cs' := Last(cs), Grow(cs, r);
    var w := Append(Name(c.base, Log), Encode(r));
    GrowOk(cs, r, max);
    FrontUntouched(d, w, cs, []) by { LayoutChained(cs, max); }
    LogGrows(d, c, Encode(r));
    FlattenSnoc(c.recs, r);
    assert Flatten(c.recs + [r]) + [] == Flatten(c.recs + [r]);
    assert forall i :: 0 <= i < |cs| - 1 ==> cs'[i] == cs[i];
    WriteNames(d, w);
    SameBases(d, Apply(d, w), cs, cs');
  }

  lemma SameBases(d: Files, d': Files, cs: seq<Chunk>, cs': seq<Chunk>)
    requires NothingElse(d, cs) && cs != [] && |cs| == |cs'|
    requires forall i :: 0 <= i < |cs| ==> cs'[i].base == cs[i].base
    requires forall n :: n in d' ==> n in d || (n.base == Last(cs).base)
    ensures NothingElse(d', cs')
  {
    forall n | n in d' && n.kind == Log
      ensures HasBase(cs', n.base)
    {
      if n in d {
        var i :| 0 <= i < |cs| && cs[i].base == n.base;
        assert cs'[i].base == n.base;
      } else {
        assert cs'[|cs| - 1].base == n.base;
      }
    }
  }

  /** Writes to the last segment's index do not matter: that index is rebuilt on recovery. */
  lemma LastIndexWrite(d: Files, cs: seq<Chunk>, w: Write, tail: bytes, max: uint32)
    requires OnDisk(d, cs, tail, max) && cs != []
    requires w.name == Name(Last(cs).base, Index) && !w.Remove?
    ensures OnDisk(Apply(d, w), cs, tail, max)
  {
    hide Flatten, MarkerBytes, Sound, Load, ChunkOk, Torn;
    FrontUntouched(d, w, cs, tail);
    WriteFrame(d, w, Name(Last(cs).base, Log));
    WriteFrame(d, w, Name(Last(cs).base, Sealed));
    SameBases(d, Apply(d, w), cs, cs);
  }

  lemma FreshLog(d: Files, base: uint64)
    requires forall n :: n in d ==> n.base < base
    ensures ChunkOnDisk(Apply(d, Create(Name(base, Log))), Chunk(base, []), false, [])
  {
    NothingFlat();
    hide Flatten, MarkerOnDisk;
    assert Name(base, Log) !in d && Name(base, Sealed) !in d;
  }

  lemma OneMoreBase(d: Files, d': Files, cs: seq<Chunk>, c: Chunk)
    requires NothingElse(d, cs)
    requires forall n :: n in d' ==> n in d || n.base == c.base
    requires cs != [] ==> Last(cs).base <= c.base
    ensures NothingElse(d', cs + [c])
  {
    var cs' := cs + [c];
    forall n | n in d' && n.kind == Log
      ensures HasBase(cs', n.base)
    {
      if n in d {
        var i :| 0 <= i < |cs| && cs[i].base == n.base;
        assert cs'[i].base == n.base;
      } else {
        assert cs'[|cs|].base == n.base;
      }
    }
  }

  /** Creating the next log file starts a new, empty segment. */
  lemma NextLogCreated(d: Files, cs: seq<Chunk>, max: uint32)
    requires OnDisk(d, cs, [], max) && cs != [] && Last(cs).recs != [] && Last(cs).End() < OFFSET_LIMIT
    ensures OnDisk(Apply(d, Create(Name(Last(cs).End(), Log))), cs + [Chunk(Last(cs).End(), [])], [], max)
  {
    hide Flatten, MarkerOnDisk, LayoutOk, Apply, Torn, ChunkOnDisk;
    RollOk(cs, max);
    var c, newChunk := Last(cs), Chunk(Last(cs).End(), []);
    var w := Create(Name(c.End(), Log));
    FrontUntouched(d, w, cs, []) by { LayoutChained(cs, max); }
    OtherChunks(d, w, c, false, []);
    LastBecomesSealable(Apply(d, w), c);
    FreshLog(d, c.End());
    WriteNames(d, w);
    OneMoreBase(d, Apply(d, w), cs, newChunk);
    var cs' := cs + [newChunk];
    assert forall i :: 0 <= i < |cs| ==> cs'[i] == cs[i];
  }

  lemma LastBecomesSealable(d: Files, c: Chunk)
    requires ChunkOnDisk(d, c, false, [])
    ensures ChunkOnDisk(d, c, true, [])
  {
    hide Flatten, MarkerOnDisk;
  }

  lemma SingleEmptyOk(base: uint64, max: uint32)
    ensures LayoutOk([Chunk(base, [])], max)
  {
    NothingFlat();
    hide Flatten;
  }

  lemma FirstLogCreated(max: uint32)
    ensures OnDisk(Apply(map[], Create(Name(0, Log))), [Chunk(0, [])], [], max)
  {
    hide Torn, Apply, ChunkOnDisk, NothingElse, LayoutOk;
    EmptyIsTorn();
    FreshLog(map[], 0);
    WriteNames(map[], Create(Name(0, Log)));
    assert NothingElse(map[], []) by { NothingAtAll(); }
    OneMoreBase(map[], Apply(map[], Create(Name(0, Log))), [], Chunk(0, []));
    SingleEmptyOk(0, max);
    assert [] + [Chunk(0, [])] == [Chunk(0, [])];
  }

  lemma NothingAtAll()
    ensures NothingElse(map[], [])
  {
  }

  /** The marker file appears, empty or with a prefix of the true summary, beside a sound index. */
  lemma MarkerWritten(d: Files, cs: seq<Chunk>, i: nat, w: Write, tail: bytes, max: uint32)
    requires OnDisk(d, cs, tail, max) && i < |cs| - 1
    requires w.name == Name(cs[i].base, Sealed) && (w.Create? || w.Append?)
    requires Sound(Load(Content(d, Name(cs[i].base, Index))), cs[i].recs)
    requires w.Append? ==> Content(d, w.name) == [] && w.data <= MarkerBytes(MarkerFor(cs[i]))
    ensures OnDisk(Apply(d, w), cs, tail, max)
  {
    hide Flatten, MarkerBytes, Sound, Load, Torn, MarkerFor;
    var d' := Apply(d, w);
    forall j | 0 <= j < |cs|
      ensures ChunkOnDisk(d', cs[j], j < |cs| - 1, if j < |cs| - 1 then [] else tail)
    {
      if j != i {
        if j < i { BasesRise(cs, j, i); } else { BasesRise(cs, i, j); }
        OtherChunks(d, w, cs[j], j < |cs| - 1, if j < |cs| - 1 then [] else tail);
      } else {
        WriteFrame(d, w, Name(cs[i].base, Log));
        WriteFrame(d, w, Name(cs[i].base, Index));
      }
    }
    BasesRise(cs, i, |cs| - 1);
  }

  /** Writing the index of any segment, cut anywhere, keeps the directory good as long as the entries
      beside a sealed marker are sound. */
  lemma IndexWritten(d: Files, cs: seq<Chunk>, i: nat, w: Write, tail: bytes, max: uint32)
    requires OnDisk(d, cs, tail, max) && i < |cs|
    requires w.name == Name(cs[i].base, Index) && !w.Remove?
    requires Name(cs[i].base, Sealed) in d ==> Sound(Load(Content(Apply(d, w), w.name)), cs[i].recs)
    ensures OnDisk(Apply(d, w), cs, tail, max)
  {
    hide Flatten, MarkerBytes, Sound, Load, Torn;
    var d' := Apply(d, w);
    forall j | 0 <= j < |cs|
      ensures ChunkOnDisk(d', cs[j], j < |cs| - 1, if j < |cs| - 1 then [] else tail)
    {
      if j != i {
        if j < i { BasesRise(cs, j, i); } else { BasesRise(cs, i, j); }
        OtherChunks(d, w, cs[j], j < |cs| - 1, if j < |cs| - 1 then [] else tail);
      } else {
        WriteFrame(d, w, Name(cs[i].base, Log));
        WriteFrame(d, w, Name(cs[i].base, Sealed));
      }
    }
    if i < |cs| - 1 {
      BasesRise(cs, i, |cs| - 1);
    }
  }

  /** Cutting the torn tail off. */
  lemma TailTruncated(d: Files, cs: seq<Chunk>, tail: bytes, max: uint32)
    requires OnDisk(d, cs, tail, max) && cs != []
    ensures OnDisk(Apply(d, Truncate(Name(Last(cs).base, Log), |Flatten(Last(cs).recs)|)), cs, [], max)
  {
    EmptyIsTorn();
    hide Flatten, MarkerBytes, Sound, Load, Torn, ChunkOk;
    var c := Last(cs);
    var w := Truncate(Name(c.base, Log), |Flatten(c.recs)|);
    FrontUntouched(d, w, cs, tail);
    assert (Flatten(c.recs) + tail)[..|Flatten(c.recs)|] == Flatten(c.recs) + [];
    SameBases(d, Apply(d, w), cs, cs);
  }

  /** Removing the first log file removes the first segment. */
  lemma FirstLogRemoved(d: Files, cs: seq<Chunk>, tail: bytes, max: uint32)
    requires OnDisk(d, cs, tail, max) && |cs| > 1
    ensures OnDisk(Apply(d, Remove(Name(cs[0].base, Log))), cs[1..], tail, max)
  {
    hide Flatten, MarkerBytes, Sound, Load, Torn, ChunkOk;
    var w := Remove(Name(cs[0].base, Log));
    var d', cs' := Apply(d, w), cs[1..];
    LayoutSuffix(cs, 1, max);
    forall j | 1 <= j < |cs|
      ensures ChunkOnDisk(d', cs[j], j < |cs| - 1, if j < |cs| - 1 then [] else tail)
    {
      BasesRise(cs, 0, j);
      OtherChunks(d, w, cs[j], j < |cs| - 1, if j < |cs| - 1 then [] else tail);
    }
    forall n | n in d' && n.kind == Log
      ensures HasBase(cs', n.base)
    {
      var i :| 0 <= i < |cs| && cs[i].base == n.base;
      assert cs'[i - 1].base == n.base;
    }
  }

  /** Files left behind by a removed segment can go at any time. */
  lemma OrphanRemoved(d: Files, cs: seq<Chunk>, n: Name, tail: bytes, max: uint32)
    requires OnDisk(d, cs, tail, max) && cs != [] && n.base < cs[0].base
    ensures OnDisk(Apply(d, Remove(n)), cs, tail, max)
  {
    hide Flatten, MarkerBytes, Sound, Load, Torn, ChunkOk;
    var d' := Apply(d, Remove(n));
    forall j | 0 <= j < |cs|
      ensures ChunkOnDisk(d', cs[j], j < |cs| - 1, if j < |cs| - 1 then [] else tail)
    {
      if j > 0 { BasesRise(cs, 0, j); }
      OtherChunks(d, Remove(n), cs[j], j < |cs| - 1, if j < |cs| - 1 then [] else tail);
    }
  }
}
