/** The two strategies that divide the partitions of the subscribed topics among the members of a group. */
module Assignor {
  import opened Bytes
  import opened Text

  datatype TopicPartition = TopicPartition(topic: bytes, partition: uint16)

  datatype TopicSize = TopicSize(topic: bytes, partitions: uint16)

  type Assignment = map<bytes, seq<TopicPartition>>

  // ---- What is to be divided ---------------------------------------------------------------

  /** Partitions `from` to `from + count` of a topic. */
  function Interval(topic: bytes, from: nat, count: nat): (tps: seq<TopicPartition>)
    requires from + count <= 0x1_0000
    ensures |tps| == count
    ensures forall i :: 0 <= i < count ==> tps[i] == TopicPartition(topic, from + i)
  {
    seq(count, i requires 0 <= i < count => TopicPartition(topic, from + i))
  }

  /** All partitions of all topics, in order. */
  function Everything(topics: seq<TopicSize>): seq<TopicPartition> {
    if topics == [] then []
    else
      var t := topics[|topics| - 1];
      Everything(topics[..|topics| - 1]) + Interval(t.topic, 0, t.partitions)
  }

  /** How often a partition occurs in a list. */
  function Times(tps: seq<TopicPartition>, x: TopicPartition): nat {
    multiset(tps)[x]
  }

  /** How often the members together hold a partition. */
  function Held(members: seq<bytes>, a: Assignment, x: TopicPartition): nat
    requires forall i :: 0 <= i < |members| ==> members[i] in a
  {
    if members == [] then 0 else Held(members[..|members| - 1], a, x) + Times(a[members[|members| - 1]], x)
  }

  ghost predicate Distinct<T>(xs: seq<T>) {
    forall i, j :: 0 <= i < j < |xs| ==> xs[i] != xs[j]
  }

  // ---- Range -------------------------------------------------------------------------------

  function Min(a: nat, b: nat): nat {
    if a < b then a else b
  }

  /** The first partition of member `i` among `k`. */
  function RangeStart(n: nat, k: nat, i: nat): nat
    requires k > 0
  {
    i * (n / k) + Min(i, n % k)
  }

  function RangeCount(n: nat, k: nat, i: nat): nat
    requires k > 0
  {
    n / k + if i < n % k then 1 else 0
  }

  lemma RangeFollows(n: nat, k: nat, i: nat)
    requires k > 0 && i < k
    ensures RangeStart(n, k, i) + RangeCount(n, k, i) == RangeStart(n, k, i + 1)
  {
  }

  lemma RangeEnds(n: nat, k: nat)
    requires k > 0
    ensures RangeStart(n, k, 0) == 0 && RangeStart(n, k, k) == n
  {
  }

  lemma {:induction false} RangeStartGrows(n: nat, k: nat, i: nat, j: nat)
    requires k > 0 && i <= j <= k
    ensures RangeStart(n, k, i) <= RangeStart(n, k, j)
    decreases j
  {
    if i < j {
      RangeStartGrows(n, k, i, j - 1);
      RangeFollows(n, k, j - 1);
    }
  }

  lemma RangeFits(n: nat, k: nat, i: nat)
    requires k > 0 && i < k
    ensures RangeStart(n, k, i) + RangeCount(n, k, i) <= n
  {
    RangeFollows(n, k, i);
    RangeStartGrows(n, k, i + 1, k);
    RangeEnds(n, k);
  }

  /** The slice of one topic that member `i` among `k` gets. */
  function Slice(t: TopicSize, k: nat, i: nat): seq<TopicPartition>
    requires i < k
  {
    RangeFits(t.partitions, k, i);
    Interval(t.topic, RangeStart(t.partitions, k, i), RangeCount(t.partitions, k, i))
  }

  /** All that member `i` among `k` gets. */
  function RangeShare(topics: seq<TopicSize>, k: nat, i: nat): seq<TopicPartition>
    requires i < k
  {
    if topics == [] then [] else RangeShare(topics[..|topics| - 1], k, i) + Slice(topics[|topics| - 1], k, i)
  }

  /** `RangeAssignor::assign`. */
  method AssignRange(members: seq<bytes>, topics: seq<TopicSize>) returns (a: Assignment)
    requires Distinct(members)
    ensures forall m :: m in a <==> m in members
    ensures forall i: nat :: i < |members| ==> a[members[i]] == RangeShare(topics, |members|, i)
  {
    a := map m | m in members :: [];
    if members == [] {
      return;
    }
    var k := |members|;
    for t := 0 to |topics|
      invariant forall m :: m in a <==> m in members
      invariant forall i: nat :: i < k ==> a[members[i]] == RangeShare(topics[..t], k, i)
    {
      hide Slice;
      assert topics[..t + 1][..t] == topics[..t];
      a := AddTopic(members, topics[t], a);
    }
    assert topics[..|topics|] == topics;
  }

  /** The loop over the members, for one topic. */
  method AddTopic(members: seq<bytes>, t: TopicSize, before: Assignment) returns (a: Assignment)
    requires Distinct(members) && forall m :: m in before <==> m in members
    ensures forall m :: m in a <==> m in members
    ensures forall i: nat :: i < |members| ==> a[members[i]] == before[members[i]] + Slice(t, |members|, i)
  {
    hide Slice;
    var k := |members|;
    a := before;
    for i := 0 to k
      invariant forall m :: m in a <==> m in members
      invariant forall j: nat :: j < i ==> a[members[j]] == before[members[j]] + Slice(t, k, j)
      invariant forall j: nat :: i <= j < k ==> a[members[j]] == before[members[j]]
    {
      var slice := SliceOf(t, k, i);
      a := a[members[i] := a[members[i]] + slice];
    }
  }

  /** The innermost loop: one partition after the other. */
  method SliceOf(t: TopicSize, k: nat, i: nat) returns (slice: seq<TopicPartition>)
    requires i < k
    ensures slice == Slice(t, k, i)
  {
    var base, extra := t.partitions / k, t.partitions % k;
    var count := base + if i < extra then 1 else 0;
    var start := i * base + Min(i, extra);
    RangeFits(t.partitions, k, i);
    slice := [];
    for p := 0 to count
      invariant slice == Interval(t.topic, start, p)
    {
      slice := slice + [TopicPartition(t.topic, start + p)];
    }
  }

  // ---- Round robin -------------------------------------------------------------------------

  /** Every `k`-th element, beginning with number `i`. */
  function DealtTo(all: seq<TopicPartition>, k: nat, i: nat): seq<TopicPartition>
    requires i < k
  {
    if all == [] then []
    else
      var n := |all| - 1;
      DealtTo(all[..n], k, i) + if n % k == i then [all[n]] else []
  }

  predicate Before(x: TopicPartition, y: TopicPartition) {
    if x.topic != y.topic then TextLess(x.topic, y.topic) else x.partition < y.partition
  }

  ghost predicate Ascending(all: seq<TopicPartition>) {
    forall i :: 0 <= i < |all| - 1 ==> !Before(all[i + 1], all[i])
  }

  /** `std::sort`. */
  method Sort(all: seq<TopicPartition>) returns (sorted: seq<TopicPartition>)
    ensures multiset(sorted) == multiset(all) && Ascending(sorted)
  {
    sorted := [];
    for n := 0 to |all|
      invariant multiset(sorted) == multiset(all[..n]) && Ascending(sorted)
    {
      sorted := InsertSorted(sorted, all[n]);
      assert all[..n + 1] == all[..n] + [all[n]];
    }
    assert all[..|all|] == all;
  }

  method InsertSorted(sorted: seq<TopicPartition>, x: TopicPartition) returns (r: seq<TopicPartition>)
    requires Ascending(sorted)
    ensures multiset(r) == multiset(sorted) + multiset{x} && Ascending(r)
  {
    hide Before, Ascending;
    var k := |sorted|;
    while k > 0 && Before(x, sorted[k - 1])
      invariant 0 <= k <= |sorted|
      invariant k < |sorted| ==> Before(x, sorted[k])
    {
      k := k - 1;
    }
    if k < |sorted| {
      BeforeAsymmetric(x, sorted[k]);
    }
    r := sorted[..k] + [x] + sorted[k..];
    AscendingInsert(sorted, k, x);
    assert sorted == sorted[..k] + sorted[k..];
  }

  lemma AscendingInsert(sorted: seq<TopicPartition>, k: nat, x: TopicPartition)
    requires Ascending(sorted) && k <= |sorted|
    requires (k > 0 ==> !Before(x, sorted[k - 1])) && (k < |sorted| ==> !Before(sorted[k], x))
    ensures Ascending(sorted[..k] + [x] + sorted[k..])
  {
    hide Before;
    var r := sorted[..k] + [x] + sorted[k..];
    forall i | 0 <= i < |r| - 1
      ensures !Before(r[i + 1], r[i])
    {
      if i + 1 < k {
        assert r[i] == sorted[i] && r[i + 1] == sorted[i + 1];
      } else if i > k {
        assert r[i] == sorted[i - 1] && r[i + 1] == sorted[i];
      }
    }
  }

  lemma BeforeAsymmetric(x: TopicPartition, y: TopicPartition)
    requires Before(x, y)
    ensures !Before(y, x)
  {
    if x.topic != y.topic {
      TextLessAsymmetric(x.topic, y.topic);
    }
  }

  /** `RoundRobinAssignor::assign`: flatten, sort, deal. */
  method AssignRoundRobin(members: seq<bytes>, topics: seq<TopicSize>)
      returns (a: Assignment, ghost dealt: seq<TopicPartition>)
    requires Distinct(members)
    ensures multiset(dealt) == multiset(Everything(topics)) && Ascending(dealt)
    ensures forall m :: m in a <==> m in members
    ensures forall i: nat :: i < |members| ==> a[members[i]] == DealtTo(dealt, |members|, i)
  {
    a := map m | m in members :: [];
    var all := [];
    for t := 0 to |topics|
      invariant all == Everything(topics[..t])
    {
      assert topics[..t + 1][..t] == topics[..t];
      all := all + Interval(topics[t].topic, 0, topics[t].partitions);
    }
    assert topics[..|topics|] == topics;
    all := Sort(all);
    dealt := all;
    if members == [] {
      return;
    }
    var k := |members|;
    for n := 0 to |all|
      invariant forall m :: m in a <==> m in members
      invariant forall i: nat :: i < k ==> a[members[i]] == DealtTo(all[..n], k, i)
    {
      forall i: nat | i < k
        ensures DealtTo(all[..n + 1], k, i) == DealtTo(all[..n], k, i) + if n % k == i then [all[n]] else []
      {
        assert all[..n + 1][..n] == all[..n];
      }
      var m := members[n % k];
      a := a[m := a[m] + [all[n]]];
    }
    assert all[..|all|] == all;
  }

  // ---- Nothing lost, nothing added ----------------------------------------------------------

  lemma TimesConcat(a: seq<TopicPartition>, b: seq<TopicPartition>, x: TopicPartition)
    ensures Times(a + b, x) == Times(a, x) + Times(b, x)
  {
  }

  lemma TimesOne(y: TopicPartition, x: TopicPartition)
    ensures Times([y], x) == (if x == y then 1 else 0) && Times([], x) == 0
  {
  }

  /** How often members `0` to `j` of `k` hold `x` of one topic, and of all topics, under Range. */
  function SliceSum(t: TopicSize, k: nat, j: nat, x: TopicPartition): nat
    requires j <= k
  {
    if j == 0 then 0 else SliceSum(t, k, j - 1, x) + Times(Slice(t, k, j - 1), x)
  }

  function RangeSum(topics: seq<TopicSize>, k: nat, j: nat, x: TopicPartition): nat
    requires j <= k
  {
    if j == 0 then 0 else RangeSum(topics, k, j - 1, x) + Times(RangeShare(topics, k, j - 1), x)
  }

  lemma {:induction false} SlicesCover(t: TopicSize, k: nat, j: nat, x: TopicPartition)
    requires 0 < k && j <= k
    ensures RangeStart(t.partitions, k, j) <= t.partitions
    ensures SliceSum(t, k, j, x) == Times(Interval(t.topic, 0, RangeStart(t.partitions, k, j)), x)
    decreases j
  {
    hide Times;
    RangeStartGrows(t.partitions, k, j, k);
    RangeEnds(t.partitions, k);
    if j == 0 {
      assert Interval(t.topic, 0, 0) == [];
      TimesOne(x, x);
    } else {
      SlicesCover(t, k, j - 1, x);
      RangeFollows(t.partitions, k, j - 1);
      var a, b := RangeStart(t.partitions, k, j - 1), RangeStart(t.partitions, k, j);
      assert Interval(t.topic, 0, b) == Interval(t.topic, 0, a) + Slice(t, k, j - 1);
      TimesConcat(Interval(t.topic, 0, a), Slice(t, k, j - 1), x);
    }
  }

  lemma {:induction false} RangeSumSplits(topics: seq<TopicSize>, k: nat, j: nat, x: TopicPartition)
    requires topics != [] && j <= k
    ensures RangeSum(topics, k, j, x) ==
            RangeSum(topics[..|topics| - 1], k, j, x) + SliceSum(topics[|topics| - 1], k, j, x)
    decreases j
  {
    hide Times, Slice;
    if j > 0 {
      RangeSumSplits(topics, k, j - 1, x);
      TimesConcat(RangeShare(topics[..|topics| - 1], k, j - 1), Slice(topics[|topics| - 1], k, j - 1), x);
    }
  }

  lemma {:induction false} RangeSumNothing(k: nat, j: nat, x: TopicPartition)
    requires j <= k
    ensures RangeSum([], k, j, x) == 0
    decreases j
  {
    if j > 0 {
      RangeSumNothing(k, j - 1, x);
    }
  }

  lemma {:induction false} RangeConserves(topics: seq<TopicSize>, k: nat, x: TopicPartition)
    requires k > 0
    ensures RangeSum(topics, k, k, x) == Times(Everything(topics), x)
    decreases |topics|
  {
    hide Times, RangeSum, SliceSum;
    if topics == [] {
      RangeSumNothing(k, k, x);
      TimesOne(x, x);
    } else {
      var front, t := topics[..|topics| - 1], topics[|topics| - 1];
      RangeSumSplits(topics, k, k, x);
      RangeConserves(front, k, x);
      SlicesCover(t, k, k, x);
      RangeEnds(t.partitions, k);
      TimesConcat(Everything(front), Interval(t.topic, 0, t.partitions), x);
    }
  }

  lemma {:induction false} HeldIsRangeSum(members: seq<bytes>, a: Assignment, topics: seq<TopicSize>, k: nat, j: nat,
                                          x: TopicPartition)
    requires j <= |members| == k
    requires forall i: nat :: i < k ==> members[i] in a && a[members[i]] == RangeShare(topics, k, i)
    ensures Held(members[..j], a, x) == RangeSum(topics, k, j, x)
    decreases j
  {
    hide Times, RangeShare;
    if j > 0 {
      HeldIsRangeSum(members, a, topics, k, j - 1, x);
      assert members[..j][..j - 1] == members[..j - 1];
    }
  }

  /** Under Range, the members together hold every partition of every topic exactly as often as it is listed. */
  lemma RangeHolds(members: seq<bytes>, a: Assignment, topics: seq<TopicSize>, x: TopicPartition)
    requires members != []
    requires forall i: nat :: i < |members| ==> members[i] in a && a[members[i]] == RangeShare(topics, |members|, i)
    ensures Held(members, a, x) == Times(Everything(topics), x)
  {
    HeldIsRangeSum(members, a, topics, |members|, |members|, x);
    assert members[..|members|] == members;
    RangeConserves(topics, |members|, x);
  }

  /** How often players `0` to `j` of `k` are dealt `x`. */
  function DealtSum(all: seq<TopicPartition>, k: nat, j: nat, x: TopicPartition): nat
    requires j <= k
  {
    if j == 0 then 0 else DealtSum(all, k, j - 1, x) + Times(DealtTo(all, k, j - 1), x)
  }

  lemma {:induction false} DealtSumStep(all: seq<TopicPartition>, k: nat, j: nat, x: TopicPartition)
    requires all != [] && j <= k && k > 0
    ensures var n := |all| - 1;
            DealtSum(all, k, j, x) == DealtSum(all[..n], k, j, x) + if n % k < j && all[n] == x then 1 else 0
    decreases j
  {
    hide Times;
    if j > 0 {
      var n := |all| - 1;
      DealtSumStep(all, k, j - 1, x);
      TimesConcat(DealtTo(all[..n], k, j - 1), if n % k == j - 1 then [all[n]] else [], x);
      TimesOne(all[n], x);
    }
  }

  lemma {:induction false} DealtSumNothing(k: nat, j: nat, x: TopicPartition)
    requires j <= k
    ensures DealtSum([], k, j, x) == 0
    decreases j
  {
    if j > 0 {
      DealtSumNothing(k, j - 1, x);
    }
  }

  lemma {:induction false} DealConserves(all: seq<TopicPartition>, k: nat, x: TopicPartition)
    requires k > 0
    ensures DealtSum(all, k, k, x) == Times(all, x)
    decreases |all|
  {
    hide Times, DealtSum;
    if all == [] {
      DealtSumNothing(k, k, x);
      TimesOne(x, x);
    } else {
      var n := |all| - 1;
      DealtSumStep(all, k, k, x);
      DealConserves(all[..n], k, x);
      assert all == all[..n] + [all[n]];
      TimesConcat(all[..n], [all[n]], x);
      TimesOne(all[n], x);
    }
  }

  lemma {:induction false} HeldIsDealtSum(members: seq<bytes>, a: Assignment, all: seq<TopicPartition>, k: nat,
                                          j: nat, x: TopicPartition)
    requires j <= |members| == k
    requires forall i: nat :: i < k ==> members[i] in a && a[members[i]] == DealtTo(all, k, i)
    ensures Held(members[..j], a, x) == DealtSum(all, k, j, x)
    decreases j
  {
    hide Times, DealtTo;
    if j > 0 {
      HeldIsDealtSum(members, a, all, k, j - 1, x);
      assert members[..j][..j - 1] == members[..j - 1];
    }
  }

  /** Under RoundRobin, the same. */
  lemma RoundRobinHolds(members: seq<bytes>, a: Assignment, topics: seq<TopicSize>, all: seq<TopicPartition>,
                        x: TopicPartition)
    requires members != []
    requires forall i: nat :: i < |members| ==> members[i] in a && a[members[i]] == DealtTo(all, |members|, i)
    requires multiset(all) == multiset(Everything(topics))
    ensures Held(members, a, x) == Times(Everything(topics), x)
  {
    HeldIsDealtSum(members, a, all, |members|, |members|, x);
    assert members[..|members|] == members;
    DealConserves(all, |members|, x);
  }

  // ---- Balance -----------------------------------------------------------------------------

  /** Under Range, the slices of one topic differ by at most one, and earlier members are never behind. */
  lemma RangeBalanced(t: TopicSize, k: nat, i: nat, j: nat)
    requires i <= j < k
    ensures |Slice(t, k, j)| <= |Slice(t, k, i)| <= |Slice(t, k, j)| + 1
  {
    RangeFits(t.partitions, k, i);
    RangeFits(t.partitions, k, j);
  }

  lemma {:induction false} DealtLength(all: seq<TopicPartition>, k: nat, i: nat)
    requires i < k
    ensures |DealtTo(all, k, i)| == |all| / k + if i < |all| % k then 1 else 0
    decreases |all|
  {
    if all == [] {
      DivSmall(k);
    } else {
      var n := |all| - 1;
      DealtLength(all[..n], k, i);
      DivNext(n, k);
    }
  }

  lemma DivSmall(k: nat)
    requires k > 0
    ensures 0 / k == 0 && 0 % k == 0
  {
  }

  lemma DivNext(n: nat, k: nat)
    requires k > 0
    ensures n % k < k - 1 ==> (n + 1) / k == n / k && (n + 1) % k == n % k + 1
    ensures n % k == k - 1 ==> (n + 1) / k == n / k + 1 && (n + 1) % k == 0
  {
    var q, r := n / k, n % k;
    assert n == q * k + r;
    if r < k - 1 {
      DivUnique(n + 1, k, q, r + 1);
    } else {
      DivUnique(n + 1, k, q + 1, 0);
    }
  }

  lemma DivUnique(n: nat, k: nat, q: nat, r: nat)
    requires k > 0 && n == q * k + r && r < k
    ensures n / k == q && n % k == r
  {
    var d := n / k - q;
    assert d * k == r - n % k;
    Multiple(d, k);
  }

  lemma Multiple(d: int, k: int)
    requires k > 0
    ensures d > 0 ==> d * k >= k
    ensures d < 0 ==> d * k <= -k
  {
  }

  /** Under RoundRobin, total loads differ by at most one. */
  lemma RoundRobinBalanced(all: seq<TopicPartition>, k: nat, i: nat, j: nat)
    requires i <= j < k
    ensures |DealtTo(all, k, j)| <= |DealtTo(all, k, i)| <= |DealtTo(all, k, j)| + 1
  {
    DealtLength(all, k, i);
    DealtLength(all, k, j);
  }

  // ---- Exclusive ownership -------------------------------------------------------------------

  function TopicNames(topics: seq<TopicSize>): (names: seq<bytes>)
    ensures |names| == |topics| && forall i :: 0 <= i < |topics| ==> names[i] == topics[i].topic
  {
    seq(|topics|, i requires 0 <= i < |topics| => topics[i].topic)
  }

  /** How often a topic with enough partitions is listed. */
  function Listed(topics: seq<TopicSize>, x: TopicPartition): nat {
    if topics == [] then 0
    else
      var t := topics[|topics| - 1];
      Listed(topics[..|topics| - 1], x) + if t.topic == x.topic && x.partition < t.partitions then 1 else 0
  }

  lemma {:induction false} IntervalCount(topic: bytes, n: nat, x: TopicPartition)
    requires n <= 0x1_0000
    ensures Times(Interval(topic, 0, n), x) == if topic == x.topic && x.partition < n then 1 else 0
    decreases n
  {
    if n > 0 {
      hide Times;
      IntervalCount(topic, n - 1, x);
      assert Interval(topic, 0, n) == Interval(topic, 0, n - 1) + [TopicPartition(topic, n - 1)];
      TimesConcat(Interval(topic, 0, n - 1), [TopicPartition(topic, n - 1)], x);
      TimesOne(TopicPartition(topic, n - 1), x);
    }
  }

  lemma {:induction false} EverythingCount(topics: seq<TopicSize>, x: TopicPartition)
    ensures Times(Everything(topics), x) == Listed(topics, x)
    decreases |topics|
  {
    if topics != [] {
      hide Times;
      var front, t := topics[..|topics| - 1], topics[|topics| - 1];
      EverythingCount(front, x);
      IntervalCount(t.topic, t.partitions, x);
      TimesConcat(Everything(front), Interval(t.topic, 0, t.partitions), x);
    }
  }

  /** A partition is wanted if it belongs to a listed topic. */
  ghost predicate Wanted(topics: seq<TopicSize>, x: TopicPartition) {
    exists i :: 0 <= i < |topics| && topics[i].topic == x.topic && x.partition < topics[i].partitions
  }

  /** The members hold each wanted partition once, and nothing else. */
  ghost predicate Exclusive(topics: seq<TopicSize>, members: seq<bytes>, a: Assignment) {
    && (forall i :: 0 <= i < |members| ==> members[i] in a)
    && forall x :: Held(members, a, x) == if Wanted(topics, x) then 1 else 0
  }

  lemma {:induction false} ListedOnce(topics: seq<TopicSize>, x: TopicPartition)
    requires Distinct(TopicNames(topics))
    ensures Listed(topics, x) == if Wanted(topics, x) then 1 else 0
    decreases |topics|
  {
    if topics != [] {
      var n := |topics| - 1;
      var front, t := topics[..n], topics[n];
      assert forall i :: 0 <= i < n ==> TopicNames(front)[i] == TopicNames(topics)[i];
      ListedOnce(front, x);
      WantedSplits(topics, x);
      if t.topic == x.topic {
        forall i | 0 <= i < n
          ensures front[i].topic != x.topic
        {
          assert TopicNames(topics)[i] != TopicNames(topics)[n];
        }
      }
    }
  }

  lemma WantedSplits(topics: seq<TopicSize>, x: TopicPartition)
    requires topics != []
    ensures var n := |topics| - 1;
            Wanted(topics, x) <==>
            Wanted(topics[..n], x) || (topics[n].topic == x.topic && x.partition < topics[n].partitions)
  {
    var n := |topics| - 1;
    var front := topics[..n];
    assert forall i :: 0 <= i < n ==> front[i] == topics[i];
  }

  lemma {:induction false} ListedTwice(topics: seq<TopicSize>, i: nat, j: nat, x: TopicPartition)
    requires i < j < |topics| && topics[i].topic == x.topic == topics[j].topic
    requires x.partition < topics[i].partitions && x.partition < topics[j].partitions
    ensures Listed(topics, x) >= 2
    decreases |topics|
  {
    var n := |topics| - 1;
    if j < n {
      ListedTwice(topics[..n], i, j, x);
    } else {
      ListedAtLeastOnce(topics[..n], i, x);
    }
  }

  lemma {:induction false} ListedAtLeastOnce(topics: seq<TopicSize>, i: nat, x: TopicPartition)
    requires i < |topics| && topics[i].topic == x.topic && x.partition < topics[i].partitions
    ensures Listed(topics, x) >= 1
    decreases |topics|
  {
    var n := |topics| - 1;
    if i < n {
      ListedAtLeastOnce(topics[..n], i, x);
    }
  }

  /** Whatever strategy made it, an assignment that loses and adds nothing is exclusive exactly when no topic (with at
      least one partition) is listed twice. */
  lemma ExclusiveIffDistinct(topics: seq<TopicSize>, members: seq<bytes>, a: Assignment)
    requires forall i :: 0 <= i < |topics| ==> topics[i].partitions > 0
    requires forall i :: 0 <= i < |members| ==> members[i] in a
    requires forall x :: Held(members, a, x) == Times(Everything(topics), x)
    ensures Exclusive(topics, members, a) <==> Distinct(TopicNames(topics))
  {
    hide Times, Everything, Held;
    if Distinct(TopicNames(topics)) {
      forall x
        ensures Held(members, a, x) == if Wanted(topics, x) then 1 else 0
      {
        EverythingCount(topics, x);
        ListedOnce(topics, x);
      }
    } else {
      var i, j :| 0 <= i < j < |topics| && TopicNames(topics)[i] == TopicNames(topics)[j];
      var x := TopicPartition(topics[i].topic, 0);
      EverythingCount(topics, x);
      ListedTwice(topics, i, j, x);
      assert Held(members, a, x) >= 2;
    }
  }
}
