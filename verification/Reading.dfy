/** What a read of a partition should return: a page of the flat log. */
module Reading {
  import opened Bytes
  import opened RecordCodec
  import opened Layout

  function SizeOf(rs: seq<Stored>): nat {
    if rs == [] then 0 else SizeOf(rs[..|rs| - 1]) + rs[|rs| - 1].Size()
  }

  /** The page is full: it has enough messages, or enough bytes. */
  predicate Reaches(page: seq<Stored>, messages: nat, bytes: nat) {
    |page| >= messages || SizeOf(page) >= bytes
  }

  /** The shortest non-empty front of the records that is full, or all of them if none is. */
  ghost predicate IsPage(rest: seq<Stored>, page: seq<Stored>, messages: nat, bytes: nat) {
    && page <= rest
    && (rest != [] ==> page != [])
    && (|page| < |rest| ==> Reaches(page, messages, bytes))
    && (|page| > 1 ==> !Reaches(page[..|page| - 1], messages, bytes))
  }

  lemma {:induction false} SizeGrows(rs: seq<Stored>, i: nat, j: nat)
    requires i <= j <= |rs|
    ensures SizeOf(rs[..i]) <= SizeOf(rs[..j])
    decreases j
  {
    if i < j {
      assert rs[..j][..j - 1] == rs[..j - 1];
      SizeGrows(rs, i, j - 1);
    }
  }

  /** A page is determined by the records and the limits. */
  lemma PageUnique(rest: seq<Stored>, a: seq<Stored>, b: seq<Stored>, messages: nat, bytes: nat)
    requires IsPage(rest, a, messages, bytes) && IsPage(rest, b, messages, bytes)
    ensures a == b
  {
    if |a| < |b| {
      ShorterIsNotFull(rest, a, b, messages, bytes);
    } else if |b| < |a| {
      ShorterIsNotFull(rest, b, a, messages, bytes);
    }
  }

  lemma ShorterIsNotFull(rest: seq<Stored>, a: seq<Stored>, b: seq<Stored>, messages: nat, bytes: nat)
    requires a <= rest && b <= rest && 0 < |a| < |b| && !Reaches(b[..|b| - 1], messages, bytes)
    ensures !Reaches(a, messages, bytes)
  {
    var k := |b| - 1;
    SizeGrows(b, |a|, k);
    assert a == rest[..|a|] == b[..|a|];
  }

  /** While the log grows, a page only grows, and a full page never changes. */
  lemma PageGrows(rest: seq<Stored>, more: seq<Stored>, a: seq<Stored>, b: seq<Stored>, messages: nat, bytes: nat)
    requires IsPage(rest, a, messages, bytes) && IsPage(rest + more, b, messages, bytes)
    ensures a <= b
    ensures a != [] && Reaches(a, messages, bytes) ==> a == b
  {
    if |b| < |a| {
      ShorterIsNotFull(rest, b, a, messages, bytes);
    } else if a != [] && |a| < |b| {
      ShorterIsNotFull(rest + more, a, b, messages, bytes);
    }
    assert (rest + more)[..|a|] == rest[..|a|];
  }

  /** The records from an offset on, of a log that begins at offset `first`. */
  function From(flat: seq<Stored>, first: nat, start: nat): seq<Stored>
    requires first <= start <= first + |flat|
  {
    flat[start - first..]
  }

  /** A log that begins at offset `cut` has the same pages, from there on, as one that begins at `first`. */
  ghost predicate SamePages(flat: seq<Stored>, first: nat, flat': seq<Stored>, cut: nat) {
    && first <= cut && cut + |flat'| == first + |flat|
    && forall start: nat, page, messages: nat, bytes: nat :: cut <= start <= cut + |flat'| ==>
         (IsPage(From(flat', cut, start), page, messages, bytes) <==>
          IsPage(From(flat, first, start), page, messages, bytes))
  }

  /** The log now begins at `cut`: its records from there on are what they were, and so is every page. */
  ghost predicate CutsFront(flat: seq<Stored>, first: nat, flat': seq<Stored>, cut: nat) {
    && first <= cut <= first + |flat| && flat' == flat[cut - first..]
    && SamePages(flat, first, flat', cut)
  }

  lemma TailCutsFront(flat: seq<Stored>, first: nat, cut: nat)
    requires first <= cut <= first + |flat|
    ensures CutsFront(flat, first, flat[cut - first..], cut)
  {
    hide IsPage;
    var flat' := flat[cut - first..];
    forall start: nat | cut <= start <= first + |flat|
      ensures From(flat', cut, start) == From(flat, first, start)
    {
    }
  }

  // ---- Positions in the flat log ------------------------------------------------------------

  /** Record `k` of segment `i` sits in the flat log where its offset says. */
  lemma {:induction false} FlatAt(cs: seq<Chunk>, i: nat, k: nat, max: uint32)
    requires LayoutOk(cs, max) && i < |cs| && k < |cs[i].recs|
    ensures cs[i].base + k - cs[0].base < |Flat(cs)| && cs[0].base <= cs[i].base
    ensures Flat(cs)[cs[i].base + k - cs[0].base] == cs[i].recs[k]
    decreases i
  {
    hide ChunkOk;
    if i > 0 {
      LayoutSuffix(cs, 1, max);
      assert cs[1].base == cs[0].End();
      FlatAt(cs[1..], i - 1, k, max);
    }
  }

  /** Extending a slice of the flat log by the next record. */
  lemma SliceSnoc(flat: seq<Stored>, from: nat, to: nat)
    requires from <= to < |flat|
    ensures flat[from..to + 1] == flat[from..to] + [flat[to]]
  {
  }

  lemma SizeSnoc(page: seq<Stored>, r: Stored)
    ensures SizeOf(page + [r]) == SizeOf(page) + r.Size()
  {
    assert (page + [r])[..|page|] == page;
  }

  lemma {:induction false} SizeFirst(rs: seq<Stored>)
    requires rs != []
    ensures SizeOf(rs) == rs[0].Size() + SizeOf(rs[1..])
    decreases |rs|
  {
    if |rs| > 1 {
      var n := |rs| - 1;
      SizeFirst(rs[..n]);
      assert rs[..n][1..] == rs[1..][..n - 1];
    }
  }

  // ---- A page under construction ------------------------------------------------------------

  /** The flat log has been read up to `at`; the records from `start` on are in the page, and it is not full. */
  ghost predicate OpenPage(flat: seq<Stored>, page: seq<Stored>, start: int, at: int, messages: nat, bytes: nat) {
    && 0 <= start <= |flat| && at <= |flat|
    && page == flat[start..Max(start, at)]
    && (page != [] ==> !Reaches(page, messages, bytes))
  }

  /** The offset at which segment `i` starts, or the next offset after the last one. */
  function FrontOf(cs: seq<Chunk>, i: nat): nat
    requires i <= |cs| && cs != []
  {
    if i < |cs| then cs[i].base else Layout.Last(cs).End()
  }

  lemma WholeRest(flat: seq<Stored>, page: seq<Stored>, start: nat, messages: nat, bytes: nat)
    requires OpenPage(flat, page, start, |flat|, messages, bytes) && start < |flat|
    ensures IsPage(flat[start..], page, messages, bytes)
  {
    assert page == flat[start..];
    if |page| > 1 {
      NotFullEarlier(page, messages, bytes);
    }
  }

  lemma NotFullEarlier(page: seq<Stored>, messages: nat, bytes: nat)
    requires page != [] && !Reaches(page, messages, bytes)
    ensures !Reaches(page[..|page| - 1], messages, bytes)
  {
  }

  /** A record before the start is passed over. */
  lemma PassOver(flat: seq<Stored>, page: seq<Stored>, start: int, at: int, messages: nat, bytes: nat)
    requires OpenPage(flat, page, start, at, messages, bytes) && at < start
    ensures OpenPage(flat, page, start, at + 1, messages, bytes)
  {
  }

  /** A record from the start on joins the page; the page is then full, or still open. */
  lemma Join(flat: seq<Stored>, page: seq<Stored>, start: int, at: int, messages: nat, bytes: nat)
    requires OpenPage(flat, page, start, at, messages, bytes) && start <= at < |flat|
    ensures 0 <= start <= |flat|
    ensures var page' := page + [flat[at]];
            && SizeOf(page') == SizeOf(page) + flat[at].Size()
            && (Reaches(page', messages, bytes) ==> IsPage(flat[start..], page', messages, bytes))
            && (!Reaches(page', messages, bytes) ==> OpenPage(flat, page', start, at + 1, messages, bytes))
  {
    var page' := page + [flat[at]];
    SliceSnoc(flat, start, at);
    SizeSnoc(page, flat[at]);
    assert page'[..|page|] == page;
    assert page' == flat[start..at + 1] == flat[start..][..at + 1 - start];
  }

  lemma EmptyPage(messages: nat, bytes: nat)
    ensures IsPage([], [], messages, bytes)
  {
  }
}
