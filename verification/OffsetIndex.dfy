/** The sparse index of a segment: a few (relative offset, file position) pairs, and its file. */
module OffsetIndex {
  import opened Bytes
  import opened RecordCodec
  import opened LogFile

  datatype Entry = Entry(rel: uint32, pos: uint32)

  /** The index file: eight bytes an entry. */
  function Save(es: seq<Entry>): bytes {
    if es == [] then [] else SaveEntry(es[0]) + Save(es[1..])
  }

  function SaveEntry(e: Entry): (b: bytes)
    ensures |b| == 8
  {
    U32(e.rel) + U32(e.pos)
  }

  /** Loading ignores an incomplete last entry. */
  function Load(file: bytes): seq<Entry> {
    if |file| < 8 then [] else [Entry(GetU32(file, 0), GetU32(file, 4))] + Load(file[8..])
  }

  /** `std::upper_bound`: the first index in `[first, first + count)` whose entry lies beyond the target. */
  function UpperBound(es: seq<Entry>, target: uint32, first: nat, count: nat): (i: nat)
    requires first + count <= |es|
    ensures first <= i <= first + count
    decreases count
  {
    if count == 0 then first
    else
      var half := count / 2;
      if target < es[first + half].rel then UpperBound(es, target, first, half)
      else UpperBound(es, target, first + half + 1, count - half - 1)
  }

  /** The file position from which a scan for the target starts. */
  function Lookup(es: seq<Entry>, target: uint32): uint32 {
    if es == [] then 0
    else
      var i := UpperBound(es, target, 0, |es|);
      if i == 0 then es[0].pos else es[i - 1].pos
  }

  // ---- Round trip --------------------------------------------------------------------------

  lemma LoadEntry(e: Entry, rest: bytes)
    ensures Load(SaveEntry(e) + rest) == [e] + Load(rest)
  {
    var file := SaveEntry(e) + rest;
    AtConcat(file, 0, SaveEntry(e), rest);
    AtConcat(file, 0, U32(e.rel), U32(e.pos));
    assert file[8..] == rest;
    At32(file, 0, e.rel);
    At32(file, 4, e.pos);
  }

  /** An index file that was cut anywhere loads as the whole entries before the cut. */
  lemma {:induction false} LoadCut(es: seq<Entry>, n: nat)
    requires n <= |Save(es)|
    ensures n / 8 <= |es| && Load(Save(es)[..n]) == es[..n / 8]
  {
    if n >= 8 {
      assert n / 8 == (n - 8) / 8 + 1;
      var rest := Save(es[1..])[..n - 8];
      assert Save(es)[..n] == SaveEntry(es[0]) + rest;
      LoadEntry(es[0], rest);
      LoadCut(es[1..], n - 8);
    }
  }

  lemma {:induction false} LoadSaved(es: seq<Entry>)
    ensures Load(Save(es)) == es && |Save(es)| == 8 * |es|
  {
    if es != [] {
      LoadEntry(es[0], Save(es[1..]));
      LoadSaved(es[1..]);
    }
  }

  lemma {:induction false} SaveSnoc(es: seq<Entry>, e: Entry)
    ensures Save(es + [e]) == Save(es) + SaveEntry(e)
  {
    hide SaveEntry;
    if es == [] {
      assert es + [e] == [e] && [e][1..] == [];
      assert Save([e]) == SaveEntry(e) + Save([]);
    } else {
      assert (es + [e])[1..] == es[1..] + [e];
      SaveSnoc(es[1..], e);
      Assoc(SaveEntry(es[0]), Save(es[1..]), SaveEntry(e));
    }
  }

  // ---- Soundness ---------------------------------------------------------------------------

  ghost predicate Rising(es: seq<Entry>) {
    forall i, j :: 0 <= i < j < |es| ==> es[i].rel < es[j].rel && es[i].pos < es[j].pos
  }

  /** Every entry names the true start of its record, entries rise strictly, and the first one is (0, 0). */
  ghost predicate Sound(es: seq<Entry>, rs: seq<Stored>) {
    && Rising(es)
    && (es != [] ==> es[0] == Entry(0, 0))
    && forall i :: 0 <= i < |es| ==> es[i].rel < |rs| && es[i].pos == Pos(rs, es[i].rel)
  }

  lemma SoundPrefix(es: seq<Entry>, es': seq<Entry>, rs: seq<Stored>)
    requires Sound(es, rs) && es' <= es
    ensures Sound(es', rs)
  {
    assert forall i :: 0 <= i < |es'| ==> es'[i] == es[i];
  }

  lemma SoundExtend(es: seq<Entry>, rs: seq<Stored>, more: seq<Stored>)
    requires Sound(es, rs)
    ensures Sound(es, rs + more)
  {
    forall i | 0 <= i < |es|
      ensures es[i].rel < |rs + more| && es[i].pos == Pos(rs + more, es[i].rel)
    {
      PosStable(rs, more, es[i].rel);
    }
  }

  /** Adding an entry for the next record keeps the index sound. */
  lemma SoundAdd(es: seq<Entry>, rs: seq<Stored>, r: Stored, e: Entry)
    requires Sound(es, rs) && e.rel == |rs| && e.pos == |Flatten(rs)|
    requires es == [] ==> rs == []
    ensures Sound(es + [e], rs + [r])
  {
    hide Flatten;
    SoundExtend(es, rs, [r]);
    assert (rs + [r])[..|rs|] == rs;
    forall i | 0 <= i < |es|
      ensures es[i].rel < e.rel && es[i].pos < e.pos
    {
      PosMonotone(rs, es[i].rel, |rs|);
      assert rs[..|rs|] == rs;
    }
    assert es == [] ==> e == Entry(0, 0) by {
      if es == [] {
        NothingFlat();
      }
    }
  }

  lemma NothingFlat()
    ensures Flatten([]) == []
  {
  }

  lemma {:induction false} UpperBoundSplits(es: seq<Entry>, target: uint32, first: nat, count: nat, j: nat)
    requires Rising(es) && first <= j < first + count <= |es|
    ensures j < UpperBound(es, target, first, count) <==> es[j].rel <= target
    decreases count
  {
    var mid := first + count / 2;
    if target < es[mid].rel {
      if j < mid {
        UpperBoundSplits(es, target, first, count / 2, j);
      } else {
        assert j == mid || es[mid].rel < es[j].rel;
      }
    } else if mid < j {
      UpperBoundSplits(es, target, mid + 1, count - count / 2 - 1, j);
    } else {
      assert j == mid || es[j].rel < es[mid].rel;
    }
  }

  /** Lookup answers the start of a record at or before the target. */
  lemma LookupStartsBefore(es: seq<Entry>, rs: seq<Stored>, target: uint32) returns (k: nat)
    requires Sound(es, rs)
    ensures k <= target && k <= |rs| && Lookup(es, target) == Pos(rs, k)
    ensures es != [] ==> k < |rs|
    ensures forall i :: 0 <= i < |es| && es[i].rel <= target ==> es[i].rel <= k
  {
    hide Flatten;
    if es == [] {
      k := 0;
      assert rs[..0] == [];
      NothingFlat();
    } else {
      var i := UpperBound(es, target, 0, |es|);
      UpperBoundSplits(es, target, 0, |es|, 0);
      UpperBoundSplits(es, target, 0, |es|, i - 1);
      k := es[i - 1].rel;
      forall j | 0 <= j < |es| && es[j].rel <= target
        ensures es[j].rel <= k
      {
        UpperBoundSplits(es, target, 0, |es|, j);
      }
    }
  }

  // ---- The index's own loops ---------------------------------------------------------------

  /** The binary search of `std::upper_bound`, then one step back. */
  method FindPosition(es: seq<Entry>, target: uint32) returns (pos: uint32)
    ensures pos == Lookup(es, target)
  {
    if es == [] {
      return 0;
    }
    var first, count := 0, |es|;
    while count > 0
      invariant 0 <= first && 0 <= count && first + count <= |es|
      invariant UpperBound(es, target, first, count) == UpperBound(es, target, 0, |es|)
      decreases count
    {
      var half := count / 2;
      if target < es[first + half].rel {
        count := half;
      } else {
        first, count := first + half + 1, count - half - 1;
      }
    }
    pos := if first == 0 then es[0].pos else es[first - 1].pos;
  }

  lemma LoadNext(file: bytes, i: nat)
    requires 8 * i + 8 <= |file|
    ensures Load(file[8 * i..]) == [Entry(GetU32(file, 8 * i), GetU32(file, 8 * i + 4))] + Load(file[8 * (i + 1)..])
  {
    assert file[8 * i..][8..] == file[8 * (i + 1)..];
  }

  /** `OffsetIndex::load_from_file`. */
  method LoadEntries(file: bytes) returns (es: seq<Entry>)
    ensures es == Load(file)
  {
    es := [];
    var n := |file| / 8;
    var i := 0;
    assert file[0..] == file;
    while i < n
      invariant 0 <= i <= n
      invariant Load(file) == es + Load(file[8 * i..])
    {
      LoadNext(file, i);
      es := es + [Entry(GetU32(file, 8 * i), GetU32(file, 8 * i + 4))];
      i := i + 1;
    }
  }

  /** `OffsetIndex::rewrite_file`: the bytes of all entries. */
  method SaveEntries(es: seq<Entry>) returns (file: bytes)
    ensures file == Save(es)
  {
    file := [];
    for i := 0 to |es|
      invariant file == Save(es[..i])
    {
      SaveSnoc(es[..i], es[i]);
      assert es[..i + 1] == es[..i] + [es[i]];
      file := file + SaveEntry(es[i]);
    }
    assert es[..|es|] == es;
  }
}
