/** When a group's assignment has one owner per partition. */
module Ownership {
  import opened Bytes
  import opened Text
  import opened Assignor
  import opened GroupModel

  ghost predicate OneOwnerEach(g: Group) {
    forall m1, m2, x ::
      m1 in g.members && m2 in g.members && x in g.members[m1].assignment && x in g.members[m2].assignment ==> m1 == m2
  }

  /** What a group must be like for its partitions to have one owner each: see `OneOwnerExactly`. */
  ghost predicate Fenceable(g: Group) {
    g.strategy == Range || Distinct(g.topics) || |g.members| <= 1
  }

  // ---- Range -------------------------------------------------------------------------------

  ghost predicate SizedBy(cat: Catalog, topics: seq<TopicSize>) {
    forall j :: 0 <= j < |topics| ==> topics[j].topic in cat && topics[j].partitions == cat[topics[j].topic]
  }

  lemma {:induction false} RangeShareInside(cat: Catalog, topics: seq<TopicSize>, k: nat, i: nat, x: TopicPartition)
    requires i < k && x in RangeShare(topics, k, i)
    requires SizedBy(cat, topics)
    ensures x.topic in cat
    ensures RangeStart(cat[x.topic], k, i) <= x.partition < RangeStart(cat[x.topic], k, i + 1)
    decreases |topics|
  {
    var n := |topics| - 1;
    if x in RangeShare(topics[..n], k, i) {
      RangeShareInside(cat, topics[..n], k, i, x);
    } else {
      RangeFits(topics[n].partitions, k, i);
      RangeFollows(topics[n].partitions, k, i);
    }
  }

  /** Under Range, a partition determines its owner, even when a topic is named twice. */
  lemma RangeOneOwner(cat: Catalog, topics: seq<TopicSize>, k: nat, i: nat, j: nat, x: TopicPartition)
    requires i < k && j < k && x in RangeShare(topics, k, i) && x in RangeShare(topics, k, j)
    requires SizedBy(cat, topics)
    ensures i == j
  {
    hide RangeShare, RangeStart;
    RangeShareInside(cat, topics, k, i, x);
    RangeShareInside(cat, topics, k, j, x);
    RangeApart(cat[x.topic], k, i, j);
    RangeApart(cat[x.topic], k, j, i);
  }

  lemma RangeApart(n: nat, k: nat, i: nat, j: nat)
    requires i < k && j < k
    ensures i < j ==> RangeStart(n, k, i + 1) <= RangeStart(n, k, j)
  {
    if i < j {
      RangeStartGrows(n, k, i + 1, j);
    }
  }

  // ---- RoundRobin --------------------------------------------------------------------------

  lemma {:induction false} Dealt(all: seq<TopicPartition>, k: nat, a: nat)
    requires k > 0 && a < |all|
    ensures all[a] in DealtTo(all, k, a % k)
    decreases |all|
  {
    var n := |all| - 1;
    if a < n {
      Dealt(all[..n], k, a);
      assert all[a] == all[..n][a];
    }
  }

  lemma BeforeTotal(x: TopicPartition, y: TopicPartition)
    ensures x == y || Before(x, y) || Before(y, x)
  {
    TextLessTotal(x.topic, y.topic);
  }

  lemma BeforeTransitive(x: TopicPartition, y: TopicPartition, z: TopicPartition)
    requires Before(x, y) && Before(y, z)
    ensures Before(x, z)
  {
    if x.topic != y.topic && y.topic != z.topic {
      TextLessTransitive(x.topic, y.topic, z.topic);
      Irreflexive(x.topic, z.topic);
    }
  }

  lemma {:induction false} AscendingFar(all: seq<TopicPartition>, a: nat, b: nat)
    requires Ascending(all) && a <= b < |all|
    ensures all[a] == all[b] || Before(all[a], all[b])
    decreases b
  {
    hide Before;
    if a < b {
      AscendingFar(all, a, b - 1);
      assert !Before(all[b - 1 + 1], all[b - 1]);
      BeforeTotal(all[b - 1], all[b]);
      if Before(all[a], all[b - 1]) && Before(all[b - 1], all[b]) {
        BeforeTransitive(all[a], all[b - 1], all[b]);
      }
    }
  }

  /** In a sorted list, what occurs twice occurs in a row. */
  lemma AscendingNeighbours(all: seq<TopicPartition>, a: nat, b: nat)
    requires Ascending(all) && a < b < |all| && all[a] == all[b]
    ensures all[a + 1] == all[a]
  {
    hide Before;
    AscendingFar(all, a, a + 1);
    AscendingFar(all, a + 1, b);
    BothWays(all[a], all[a + 1]);
  }

  lemma BothWays(x: TopicPartition, y: TopicPartition)
    requires (x == y || Before(x, y)) && (x == y || Before(y, x))
    ensures x == y
  {
    if Before(x, y) {
      BeforeAsymmetric(x, y);
    }
  }

  lemma OccursOnce(s: seq<TopicPartition>, x: TopicPartition) returns (a: nat)
    requires Times(s, x) >= 1
    ensures a < |s| && s[a] == x
  {
    assert x in s;
    a :| 0 <= a < |s| && s[a] == x;
  }

  lemma OccursTwice(s: seq<TopicPartition>, x: TopicPartition) returns (a: nat, b: nat)
    requires Times(s, x) >= 2
    ensures a < b < |s| && s[a] == x == s[b]
  {
    hide Times;
    var i := OccursOnce(s, x);
    var p, q := s[..i], s[i + 1..];
    assert s == p + [x] + q;
    TimesConcat(p + [x], q, x);
    TimesConcat(p, [x], x);
    TimesOne(x, x);
    if Times(p, x) >= 1 {
      a := OccursOnce(p, x);
      b := i;
    } else {
      var j := OccursOnce(q, x);
      a, b := i, i + 1 + j;
    }
  }

  lemma NextDiffers(a: nat, k: nat)
    requires k > 1
    ensures a % k != (a + 1) % k
  {
    DivNext(a, k);
  }

  /** Under RoundRobin, a topic named twice has a partition with two owners as soon as there are two members. */
  lemma RoundRobinTwoOwners(topics: seq<TopicSize>, dealt: seq<TopicPartition>, k: nat, i: nat, j: nat)
      returns (p: nat, q: nat, x: TopicPartition)
    requires k > 1 && multiset(dealt) == multiset(Everything(topics)) && Ascending(dealt)
    requires i < j < |topics| && topics[i].topic == topics[j].topic && topics[i].partitions > 0 &&
             topics[j].partitions > 0
    ensures p < k && q < k && p != q && x in DealtTo(dealt, k, p) && x in DealtTo(dealt, k, q)
    ensures x == TopicPartition(topics[i].topic, 0)
  {
    hide Ascending, DealtTo, Everything, Listed;
    x := TopicPartition(topics[i].topic, 0);
    EverythingCount(topics, x);
    ListedTwice(topics, i, j, x);
    var a, b := OccursTwice(dealt, x);
    AscendingNeighbours(dealt, a, b);
    Dealt(dealt, k, a);
    Dealt(dealt, k, a + 1);
    NextDiffers(a, k);
    p, q := a % k, (a + 1) % k;
  }

  // ---- Groups ------------------------------------------------------------------------------

  lemma SizesListed(cat: Catalog, topics: seq<bytes>)
    requires Catalogued(cat, topics)
    ensures SizedBy(cat, Sizes(cat, topics))
  {
    SizesAll(cat, topics);
  }

  lemma RangeGroupOneOwner(cat: Catalog, g: Group, m1: bytes, m2: bytes, x: TopicPartition)
    requires GroupOk(cat, g) && Catalogued(cat, g.topics) && g.strategy == Range
    requires m1 in g.members && m2 in g.members && x in g.members[m1].assignment && x in g.members[m2].assignment
    ensures m1 == m2
  {
    hide RangeShare, Sizes, Ordered;
    var order, dealt :| AssignedBy(cat, g, order, dealt);
    assert m1 in order && m2 in order;
    var i :| 0 <= i < |order| && order[i] == m1;
    var j :| 0 <= j < |order| && order[j] == m2;
    SizesListed(cat, g.topics);
    RangeOneOwner(cat, Sizes(cat, g.topics), |order|, i, j, x);
  }

  lemma {:induction false} OrderSize(order: seq<bytes>, names: set<bytes>)
    requires Ordered(order) && forall n :: n in order <==> n in names
    ensures |order| == |names|
    decreases |order|
  {
    if order == [] {
      assert forall n :: n !in names;
      assert names == {};
    } else {
      var k := |order| - 1;
      forall i | 0 <= i < k
        ensures order[i] != order[k]
      {
        OrderedDistinct(order, i, k);
      }
      var front, x := order[..k], order[k];
      assert order == front + [x];
      assert x in order;
      assert forall n :: n in front ==> n in order;
      OrderSize(front, names - {x});
    }
  }

  lemma RoundRobinGroupTwoOwners(cat: Catalog, g: Group) returns (m1: bytes, m2: bytes, x: TopicPartition)
    requires GroupOk(cat, g) && Catalogued(cat, g.topics) && g.strategy == RoundRobin
    requires !Distinct(g.topics) && |g.members| > 1
    ensures m1 != m2 && m1 in g.members && m2 in g.members
    ensures x in g.members[m1].assignment && x in g.members[m2].assignment
    ensures !Reserved(x.topic) && x.topic in cat && x.partition < cat[x.topic]
  {
    hide DealtTo, Everything, Sizes, Ordered, Ascending;
    assert g.members != map[];
    var order, dealt :| AssignedBy(cat, g, order, dealt);
    OrderSize(order, g.members.Keys);
    SizesAll(cat, g.topics);
    var i, j :| 0 <= i < j < |g.topics| && g.topics[i] == g.topics[j];
    var p, q, y := RoundRobinTwoOwners(Sizes(cat, g.topics), dealt, |order|, i, j);
    OrderedDistinct(order, p, q);
    assert order[p] in g.members && order[q] in g.members;
    m1, m2, x := order[p], order[q], y;
  }

  lemma SoleMember(g: Group, m1: bytes, m2: bytes)
    requires |g.members| <= 1 && m1 in g.members && m2 in g.members
    ensures m1 == m2
  {
    if m1 != m2 {
      assert {m1, m2} <= g.members.Keys;
      SubsetSmaller({m1, m2}, g.members.Keys);
    }
  }

  /** Two members of a group hold the same partition exactly when the group deals round robin, has two members, and
      names a topic twice. */
  lemma OneOwnerExactly(cat: Catalog, g: Group)
    requires GroupOk(cat, g) && Catalogued(cat, g.topics)
    ensures OneOwnerEach(g) <==> Fenceable(g)
  {
    hide GroupOk, Catalogued, Distinct;
    if Fenceable(g) {
      forall m1, m2, x | m1 in g.members && m2 in g.members && x in g.members[m1].assignment &&
          x in g.members[m2].assignment
        ensures m1 == m2
      {
        if g.strategy == Range {
          RangeGroupOneOwner(cat, g, m1, m2, x);
        } else if Distinct(g.topics) {
          OneOwner(cat, g, m1, m2, x);
        } else {
          SoleMember(g, m1, m2);
        }
      }
    } else {
      var m1, m2, x := RoundRobinGroupTwoOwners(cat, g);
    }
  }

  // ---- Balance -------------------------------------------------------------------------------

  /** How many partitions of a topic are in an assignment. */
  function TopicLoad(a: seq<TopicPartition>, topic: bytes): nat {
    if a == [] then 0 else TopicLoad(a[..|a| - 1], topic) + if a[|a| - 1].topic == topic then 1 else 0
  }

  /** How often a subscription names a topic. */
  function Namings(topics: seq<bytes>, topic: bytes): nat {
    if topics == [] then 0 else Namings(topics[..|topics| - 1], topic) + if topics[|topics| - 1] == topic then 1 else 0
  }

  lemma {:induction false} NamedOnce(topics: seq<bytes>, topic: bytes)
    requires Distinct(topics)
    ensures Namings(topics, topic) <= 1
    ensures topic !in topics ==> Namings(topics, topic) == 0
    decreases |topics|
  {
    if topics != [] {
      var n := |topics| - 1;
      NamedOnce(topics[..n], topic);
      if topics[n] == topic {
        assert forall i :: 0 <= i < n ==> topics[i] != topics[n];
      }
    }
  }

  lemma {:induction false} LoadConcat(a: seq<TopicPartition>, b: seq<TopicPartition>, topic: bytes)
    ensures TopicLoad(a + b, topic) == TopicLoad(a, topic) + TopicLoad(b, topic)
    decreases |b|
  {
    if b == [] {
      assert a + b == a;
    } else {
      var n := |b| - 1;
      LoadConcat(a, b[..n], topic);
      assert (a + b)[..|a| + n] == a + b[..n];
    }
  }

  lemma {:induction false} SliceLoad(a: seq<TopicPartition>, name: bytes, topic: bytes)
    requires forall i :: 0 <= i < |a| ==> a[i].topic == name
    ensures TopicLoad(a, topic) == if name == topic then |a| else 0
    decreases |a|
  {
    if a != [] {
      SliceLoad(a[..|a| - 1], name, topic);
    }
  }

  /** Under Range, what members hold of a topic differs by at most the number of times it is named. */
  lemma {:induction false} RangeLoads(cat: Catalog, topics: seq<TopicSize>, k: nat, i: nat, j: nat, topic: bytes)
    requires i < k && j < k && SizedBy(cat, topics)
    ensures TopicLoad(RangeShare(topics, k, i), topic) <=
            TopicLoad(RangeShare(topics, k, j), topic) + Namings(TopicNames(topics), topic)
    decreases |topics|
  {
    hide Slice;
    if topics != [] {
      var n := |topics| - 1;
      var t := topics[n];
      RangeLoads(cat, topics[..n], k, i, j, topic);
      LoadConcat(RangeShare(topics[..n], k, i), Slice(t, k, i), topic);
      LoadConcat(RangeShare(topics[..n], k, j), Slice(t, k, j), topic);
      SliceTopics(t, k, i);
      SliceLoad(Slice(t, k, i), t.topic, topic);
      SliceTopics(t, k, j);
      SliceLoad(Slice(t, k, j), t.topic, topic);
      SliceSizes(t, k, i, j);
      assert TopicNames(topics)[..n] == TopicNames(topics[..n]);
    }
  }

  lemma SliceTopics(t: TopicSize, k: nat, i: nat)
    requires i < k
    ensures forall n :: 0 <= n < |Slice(t, k, i)| ==> Slice(t, k, i)[n].topic == t.topic
  {
    RangeFits(t.partitions, k, i);
  }

  lemma SliceSizes(t: TopicSize, k: nat, i: nat, j: nat)
    requires i < k && j < k
    ensures |Slice(t, k, i)| <= |Slice(t, k, j)| + 1
  {
    if i <= j {
      RangeBalanced(t, k, i, j);
    } else {
      RangeBalanced(t, k, j, i);
    }
  }

  /** No member holds much more than another. */
  ghost predicate Balanced(g: Group, m1: bytes, m2: bytes, topic: bytes)
    requires m1 in g.members && m2 in g.members
  {
    var a, b := g.members[m1].assignment, g.members[m2].assignment;
    match g.strategy
    case Range => TopicLoad(a, topic) <= TopicLoad(b, topic) + Namings(g.topics, topic)
    case RoundRobin => |a| <= |b| + 1
  }

  /** In every group that keeps the invariant, loads are balanced: total loads under round robin, and per topic under
      Range, up to one for each time that the topic is named. */
  lemma GroupBalanced(cat: Catalog, g: Group, m1: bytes, m2: bytes, topic: bytes)
    requires GroupOk(cat, g) && Catalogued(cat, g.topics) && m1 in g.members && m2 in g.members
    ensures Balanced(g, m1, m2, topic)
    ensures Distinct(g.topics) && g.strategy == Range ==>
              TopicLoad(g.members[m1].assignment, topic) <= TopicLoad(g.members[m2].assignment, topic) + 1
  {
    hide RangeShare, DealtTo, Ordered, TopicLoad, Namings, Everything, Ascending;
    var order, dealt :| AssignedBy(cat, g, order, dealt);
    assert m1 in order && m2 in order;
    var i :| 0 <= i < |order| && order[i] == m1;
    var j :| 0 <= j < |order| && order[j] == m2;
    var topics := Sizes(cat, g.topics);
    if g.strategy == Range {
      SizesListed(cat, g.topics);
      SizesAll(cat, g.topics);
      assert TopicNames(topics) == g.topics;
      RangeLoads(cat, topics, |order|, i, j, topic);
      if Distinct(g.topics) {
        NamedOnce(g.topics, topic);
      }
    } else if i <= j {
      RoundRobinBalanced(dealt, |order|, i, j);
    } else {
      RoundRobinBalanced(dealt, |order|, j, i);
    }
  }

  /** The members in dictionary order. */
  ghost predicate IsOrder(g: Group, order: seq<bytes>) {
    Ordered(order) && forall m :: m in order <==> m in g.members
  }

  /** Every partition of every subscribed topic has exactly one owner, and nothing else is owned, exactly when no
      topic is named twice. */
  lemma ExclusiveExactly(cat: Catalog, g: Group, order: seq<bytes>)
    requires GroupOk(cat, g) && Catalogued(cat, g.topics) && g.members != map[] && IsOrder(g, order)
    ensures Exclusive(Sizes(cat, g.topics), order, Assignments(g)) <==> Distinct(g.topics)
  {
    hide GroupOk, Ordered, Exclusive, Sizes;
    var order' := GroupExclusive(cat, g);
    OrderedUnique(order, order');
  }
}
