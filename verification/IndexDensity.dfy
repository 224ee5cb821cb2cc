/** How far apart the entries of the sparse index are. */
module IndexDensity {
  import opened RecordCodec
  import opened LogFile
  import opened OffsetIndex
  import opened SegmentModel
  import Crc32

  /** Neighbouring entries are at least `least` and at most `most` bytes apart. */
  ghost predicate Spaced(es: seq<Entry>, least: nat, most: nat) {
    forall i :: 0 <= i < |es| - 1 ==> es[i].pos + least <= es[i + 1].pos <= es[i].pos + most
  }

  function EndPos(es: seq<Entry>): nat
    requires es != []
  {
    es[|es| - 1].pos
  }

  /** The counter lags behind the distance from the last entry by at most `lag`. The two ways of building an index count
      differently: appending does not count the record that an entry names, rebuilding does. */
  ghost predicate Counts(s: Segment, lag: nat, m: nat) {
    && s.sinceIndex <= s.interval + m
    && (s.entries != [] ==> EndPos(s.entries) + s.sinceIndex <= s.size <= EndPos(s.entries) + s.sinceIndex + lag)
  }

  ghost predicate Dense(s: Segment, lag: nat, m: nat) {
    Counts(s, lag, m) && Spaced(s.entries, s.interval, s.interval + m + lag)
  }

  lemma SpacedAdd(es: seq<Entry>, e: Entry, least: nat, most: nat)
    requires Spaced(es, least, most) && (es != [] ==> EndPos(es) + least <= e.pos <= EndPos(es) + most)
    ensures Spaced(es + [e], least, most)
  {
    var all := es + [e];
    forall i | 0 <= i < |all| - 1
      ensures all[i].pos + least <= all[i + 1].pos <= all[i].pos + most
    {
      if i < |es| - 1 {
        assert es[i].pos + least <= es[i + 1].pos;
      }
    }
  }

  lemma AppendDense(s: Segment, r: Stored, m: nat)
    requires Dense(s, m, m) && r.Size() <= m && s.size + r.Size() < U32_SIZE && s.interval + m < U32_SIZE
    ensures Dense(Appended(s, r), m, m)
    ensures Appended(s, r).size == s.size + r.Size() && Appended(s, r).interval == s.interval
  {
    hide Encode, Crc32.Feed;
    if IndexDue(s) {
      SpacedAdd(s.entries, EntryFor(s, r), s.interval, s.interval + m + m);
    }
  }

  lemma ScanDense(s: Segment, r: Stored, m: nat)
    requires Dense(s, 0, m) && r.Size() <= m && s.size + r.Size() < U32_SIZE && s.interval + m < U32_SIZE
    ensures Dense(Scanned(s, r), 0, m)
    ensures Scanned(s, r).size == s.size + r.Size() && Scanned(s, r).interval == s.interval
  {
    hide Encode, Crc32.Feed;
    if IndexDue(s) {
      SpacedAdd(s.entries, EntryFor(s, r), s.interval, s.interval + m);
    }
  }

  ghost predicate AllWithin(rs: seq<Stored>, m: nat) {
    forall i :: 0 <= i < |rs| ==> rs[i].Size() <= m
  }

  /** Rebuilding an index puts its entries at least the interval, and at most one record more, apart. */
  lemma {:induction false} RebuiltDense(s: Segment, rs: seq<Stored>, m: nat)
    requires AllWithin(rs, m) && m > 0 && |Flatten(rs)| < U32_SIZE && s.interval + m < U32_SIZE
    ensures var t := Rebuilt(s, rs);
            t.interval == s.interval && t.size == |Flatten(rs)| && Dense(t, 0, m)
    decreases |rs|
  {
    hide Flatten, Encode, Crc32.Feed;
    if rs == [] {
      NothingFlat();
    } else {
      var n := |rs| - 1;
      FlattenSize(rs, n);
      RebuiltDense(s, rs[..n], m);
      hide Dense, Scanned;
      ScanDense(Rebuilt(s, rs[..n]), rs[n], m);
    }
  }

  lemma FlattenSize(rs: seq<Stored>, n: nat)
    requires |rs| == n + 1
    ensures |Flatten(rs)| == |Flatten(rs[..n])| + rs[n].Size()
  {
    hide Encode, Flatten;
    var front, r := rs[..n], rs[n];
    assert rs == front + [r];
    FlattenSnoc(front, r);
  }

  function AppendedAll(s: Segment, rs: seq<Stored>): Segment {
    if rs == [] then s else Appended(AppendedAll(s, rs[..|rs| - 1]), rs[|rs| - 1])
  }

  /** Over the life of a segment, from an empty file or from a recovered one and through any appends, its index
      entries are at least the interval, and at most two records more, apart. */
  lemma {:induction false} LifeDense(s: Segment, recovered: seq<Stored>, added: seq<Stored>, m: nat)
    requires AllWithin(recovered, m) && AllWithin(added, m) && m > 0
    requires |Flatten(recovered)| + |Flatten(added)| < U32_SIZE && s.interval + m < U32_SIZE
    ensures var t := AppendedAll(Rebuilt(s, recovered), added);
            t.interval == s.interval && t.size == |Flatten(recovered)| + |Flatten(added)| && Dense(t, m, m)
    decreases |added|
  {
    hide Flatten, Encode, Crc32.Feed, Appended, Rebuilt, Dense;
    if added == [] {
      NothingFlat();
      RebuiltDense(s, recovered, m);
      DenseMore(Rebuilt(s, recovered), m);
    } else {
      var n := |added| - 1;
      FlattenSize(added, n);
      LifeDense(s, recovered, added[..n], m);
      AppendDense(AppendedAll(Rebuilt(s, recovered), added[..n]), added[n], m);
    }
  }

  lemma DenseMore(s: Segment, m: nat)
    requires Dense(s, 0, m)
    ensures Dense(s, m, m)
  {
  }
}
