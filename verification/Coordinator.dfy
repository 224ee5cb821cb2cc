/** The group coordinator, updated in place. */
module Coordinator {
  import opened Bytes
  import opened Text
  import opened Assignor
  import opened GroupModel

  class GroupCoordinator {
    const cfg: Config
    const catalog: Catalog
    var groups: map<bytes, Group>
    var counter: nat
    var committed: map<CommitKey, uint64>

    constructor (cfg: Config, catalog: Catalog)
      ensures this.cfg == cfg && this.catalog == catalog && Value() == State(map[], 0, map[])
    {
      this.cfg, this.catalog := cfg, catalog;
      groups, counter, committed := map[], 0, map[];
    }

    function Value(): State
      reads this
    {
      State(groups, counter, committed)
    }

    method Join(q: JoinRequest, now: int, salt: uint16) returns (r: JoinResult)
      modifies this
      ensures JoinStep(cfg, catalog, old(Value()), Value(), q, now, salt, r)
    {
      hide MemberId, Assigned, ValidGroupId;
      if !ValidGroupId(q.group) || q.topics == [] || q.timeout < cfg.minTimeout || q.timeout > cfg.maxTimeout ||
          q.strategy > 1 {
        return Refused(INVALID_ARGUMENT);
      }
      var refusal := CheckTopics(catalog, q.topics);
      if refusal != 0 {
        return Refused(refusal);
      }
      var g: Group;
      if q.group !in groups {
        if |groups| >= cfg.maxGroups {
          return Refused(INVALID_ARGUMENT);
        }
        g := Group(0, StrategyOf(q.strategy), q.topics, Empty, map[]);
      } else {
        g := groups[q.group];
      }
      if g.members == map[] {
        g := g.(strategy := StrategyOf(q.strategy), topics := q.topics);
      }
      groups := groups[q.group := g];
      if g.strategy != StrategyOf(q.strategy) {
        return Refused(INVALID_ARGUMENT);
      }
      if g.topics != q.topics {
        return Refused(INVALID_ARGUMENT);
      }
      r := Enter(q, g, now, salt);
    }

    /** The part of `join` that tells new members from known ones. */
    method Enter(q: JoinRequest, g: Group, now: int, salt: uint16) returns (r: JoinResult)
      requires q.group in groups && groups[q.group] == g
      modifies this
      ensures EnterStep(cfg, catalog, old(Value()), Value(), q, g, now, salt, r)
    {
      hide MemberId, Assigned;
      if q.member == [] {
        if |g.members| >= cfg.maxMembers {
          return Refused(INVALID_ARGUMENT);
        }
        var id := MemberId(q.group, counter, salt);
        counter := counter + 1;
        var g' := Rebalance(catalog, WithNewMember(g, id, q.timeout, now));
        groups := groups[q.group := g'];
        assert id in g'.members;
        return Joined(id, g'.generation, q.timeout / 3, g'.members[id].assignment);
      }
      if q.member !in g.members {
        return Refused(UNKNOWN_MEMBER);
      }
      groups := groups[q.group := Refreshed(g, q.member, q.timeout, now)];
      return Joined(q.member, g.generation, q.timeout / 3, g.members[q.member].assignment);
    }

    method Heartbeat(group: bytes, member: bytes, generation: uint32, now: int) returns (code: nat)
      modifies this`groups
      ensures HeartbeatStep(old(Value()), Value(), group, member, generation, now, code)
    {
      if group !in groups || member !in groups[group].members {
        return UNKNOWN_MEMBER;
      }
      var g := groups[group];
      if generation != g.generation {
        return ILLEGAL_GENERATION;
      }
      groups := groups[group := g.(members := g.members[member := g.members[member].(heartbeat := now)])];
      return 0;
    }

    method Leave(group: bytes, member: bytes) returns (code: nat)
      modifies this`groups
      ensures LeaveStep(catalog, old(Value()), Value(), group, member, code)
    {
      hide Assigned;
      if group !in groups || member !in groups[group].members {
        return UNKNOWN_MEMBER;
      }
      var g := groups[group];
      g := g.(members := g.members - {member}, generation := Next(g.generation));
      if g.members == map[] {
        g := g.(state := Empty);
      } else {
        g := Rebalance(catalog, g);
      }
      groups := groups[group := g];
      return 0;
    }

    /** One turn of the loop over all groups in `expire_members`. */
    method ExpireGroup(group: bytes, now: int) returns (expired: nat)
      requires group in groups
      modifies this`groups
      ensures ExpireStep(catalog, old(Value()), Value(), group, now)
      ensures expired == |Silent(old(groups)[group], now)|
    {
      hide Assigned;
      var g := groups[group];
      var gone := FindSilent(g, now);
      expired := |gone|;
      if gone == {} {
        return;
      }
      g := g.(members := g.members - gone, generation := Next(g.generation));
      if g.members == map[] {
        g := g.(state := Empty);
      } else {
        g := Rebalance(catalog, g);
      }
      groups := groups[group := g];
    }

    method Commit(marks: Watermarks, group: bytes, member: bytes, generation: uint32, entries: seq<Entry>,
                  durable: bool)
      returns (code: nat)
      modifies this`committed
      ensures CommitStep(catalog, marks, old(Value()), Value(), group, member, generation, entries, durable, code)
    {
      code := CheckEntries(catalog, entries);
      if code != 0 {
        return;
      }
      if member == [] && generation == STANDALONE {
        if group in groups && groups[group].members != map[] {
          return ILLEGAL_GENERATION;
        }
      } else {
        if group !in groups || member !in groups[group].members {
          return UNKNOWN_MEMBER;
        }
        if generation != groups[group].generation {
          return ILLEGAL_GENERATION;
        }
        var held := CheckHeld(groups[group].members[member].assignment, entries);
        if !held {
          return NOT_ASSIGNED;
        }
      }
      var within := CheckWithin(marks, entries);
      if !within {
        return OFFSET_OUT_OF_RANGE;
      }
      if !durable {
        return INTERNAL_ERROR;
      }
      committed := StoreAll(committed, group, entries);
      return 0;
    }

    /** `fetch_offsets`: the last committed offset of every queried partition, or -1. */
    method FetchOffsets(group: bytes, queries: seq<TopicPartition>) returns (offsets: seq<int>)
      ensures |offsets| == |queries|
      ensures forall i :: 0 <= i < |queries| ==> offsets[i] == CommittedOffset(committed, group, queries[i])
    {
      offsets := [];
      for i := 0 to |queries|
        invariant |offsets| == i
        invariant forall j :: 0 <= j < i ==> offsets[j] == CommittedOffset(committed, group, queries[j])
      {
        offsets := offsets + [CommittedOffset(committed, group, queries[i])];
      }
    }
  }

  // ---- The loops -----------------------------------------------------------------------------

  method Rebalance(cat: Catalog, g: Group) returns (r: Group)
    ensures Rebalanced(cat, g, r)
  {
    if g.members == map[] {
      return g.(state := Empty);
    }
    var order := SortedNames(g.members.Keys);
    forall i, j | 0 <= i < j < |order|
      ensures order[i] != order[j]
    {
      OrderedDistinct(order, i, j);
    }
    var topics := ListTopics(cat, g.topics);
    var a: Assignment;
    ghost var dealt: seq<TopicPartition> := [];
    if g.strategy == Range {
      a := AssignRange(order, topics);
    } else {
      a, dealt := AssignRoundRobin(order, topics);
    }
    r := g.(state := Stable, members := map m | m in g.members :: g.members[m].(assignment := a[m]));
    RebalancedBy(cat, g, r, order, dealt, a);
  }

  lemma RebalancedBy(cat: Catalog, g: Group, r: Group, order: seq<bytes>, dealt: seq<TopicPartition>, a: Assignment)
    requires g.members != map[] && Ordered(order) && (forall m :: m in order <==> m in g.members)
    requires forall m :: m in a <==> m in order
    requires r == g.(state := Stable, members := map m | m in g.members :: g.members[m].(assignment := a[m]))
    requires g.strategy == Range ==>
               forall i: nat :: i < |order| ==> a[order[i]] == RangeShare(Sizes(cat, g.topics), |order|, i)
    requires g.strategy == RoundRobin ==>
               && multiset(dealt) == multiset(Everything(Sizes(cat, g.topics))) && Ascending(dealt)
               && forall i: nat :: i < |order| ==> a[order[i]] == DealtTo(dealt, |order|, i)
    ensures Rebalanced(cat, g, r)
  {
    hide RangeShare, DealtTo, Everything, Ascending, Ordered, Sizes;
    assert r.members.Keys == g.members.Keys;
    assert AssignedBy(cat, r, order, dealt);
  }

  method ListTopics(cat: Catalog, names: seq<bytes>) returns (topics: seq<TopicSize>)
    ensures topics == Sizes(cat, names)
  {
    topics := [];
    for n := 0 to |names|
      invariant topics == Sizes(cat, names[..n])
    {
      assert names[..n + 1][..n] == names[..n];
      if names[n] in cat {
        topics := topics + [TopicSize(names[n], cat[names[n]])];
      }
    }
    assert names[..|names|] == names;
  }

  method CheckTopics(cat: Catalog, topics: seq<bytes>) returns (code: nat)
    ensures code == TopicsRefusal(cat, topics)
  {
    code := 0;
    for i := 0 to |topics|
      invariant code == 0
      invariant TopicsRefusal(cat, topics) == TopicsRefusal(cat, topics[i..])
    {
      if Reserved(topics[i]) {
        return INVALID_TOPIC_NAME;
      }
      if topics[i] !in cat {
        return UNKNOWN_TOPIC;
      }
      assert topics[i..][1..] == topics[i + 1..];
    }
  }

  method CheckEntries(cat: Catalog, entries: seq<Entry>) returns (code: nat)
    ensures code == EntriesRefusal(cat, entries)
  {
    code := 0;
    for i := 0 to |entries|
      invariant code == 0
      invariant EntriesRefusal(cat, entries) == EntriesRefusal(cat, entries[i..])
    {
      var tp := entries[i].tp;
      if Reserved(tp.topic) {
        return INVALID_TOPIC_NAME;
      }
      if tp.topic !in cat {
        return UNKNOWN_TOPIC;
      }
      if tp.partition >= cat[tp.topic] {
        return INVALID_PARTITION;
      }
      assert entries[i..][1..] == entries[i + 1..];
    }
  }

  method CheckHeld(assignment: seq<TopicPartition>, entries: seq<Entry>) returns (ok: bool)
    ensures ok == AllHeld(assignment, entries)
  {
    for i := 0 to |entries|
      invariant AllHeld(assignment, entries[..i])
    {
      var found := false;
      for k := 0 to |assignment|
        invariant found == (entries[i].tp in assignment[..k])
      {
        if assignment[k] == entries[i].tp {
          found := true;
        }
      }
      assert assignment[..|assignment|] == assignment;
      if !found {
        return false;
      }
    }
    return true;
  }

  method CheckWithin(marks: Watermarks, entries: seq<Entry>) returns (ok: bool)
    ensures ok == WithinLog(marks, entries)
  {
    for i := 0 to |entries|
      invariant WithinLog(marks, entries[..i])
    {
      if entries[i].tp !in marks || entries[i].offset > marks[entries[i].tp] {
        return false;
      }
    }
    return true;
  }

  method StoreAll(before: map<CommitKey, uint64>, group: bytes, entries: seq<Entry>) returns (c: map<CommitKey, uint64>)
    ensures c == Stored(before, group, entries)
  {
    c := before;
    for i := 0 to |entries|
      invariant Stored(before, group, entries) == Stored(c, group, entries[i..])
    {
      c := c[CommitKey(group, entries[i].tp) := entries[i].offset];
      assert entries[i..][1..] == entries[i + 1..];
    }
  }

  method FindSilent(g: Group, now: int) returns (gone: set<bytes>)
    ensures gone == Silent(g, now)
  {
    gone := {};
    var todo := g.members.Keys;
    while todo != {}
      invariant todo <= g.members.Keys
      invariant gone == set m | m in g.members && m !in todo && now - g.members[m].heartbeat > g.members[m].timeout
      decreases |todo|
    {
      var m :| m in todo;
      todo := todo - {m};
      if now - g.members[m].heartbeat > g.members[m].timeout {
        gone := gone + {m};
      }
    }
  }

  // ---- The coordinator's own check -------------------------------------------------------------

  /** Each partition of each subscribed topic is counted once, and no member holds an unknown partition. */
  ghost predicate CountsOnce(cat: Catalog, g: Group, order: seq<bytes>, n: nat)
    requires n <= |g.topics| && forall i :: 0 <= i < |order| ==> order[i] in g.members
  {
    forall i :: 0 <= i < n ==>
      && g.topics[i] in cat
      && forall p: uint16 :: p < cat[g.topics[i]] ==> Held(order, Assignments(g), TopicPartition(g.topics[i], p)) == 1
  }

  ghost predicate Known(cat: Catalog, tps: seq<TopicPartition>) {
    forall k :: 0 <= k < |tps| ==> tps[k].topic in cat && tps[k].partition < cat[tps[k].topic]
  }

  method Count(g: Group, order: seq<bytes>, x: TopicPartition) returns (count: nat)
    requires forall i :: 0 <= i < |order| ==> order[i] in g.members
    ensures count == Held(order, Assignments(g), x)
  {
    count := 0;
    for i := 0 to |order|
      invariant count == Held(order[..i], Assignments(g), x)
    {
      var tps := g.members[order[i]].assignment;
      var here := CountIn(tps, x);
      assert order[..i + 1][..i] == order[..i];
      count := count + here;
    }
    assert order[..|order|] == order;
  }

  method CountIn(tps: seq<TopicPartition>, x: TopicPartition) returns (count: nat)
    ensures count == Times(tps, x)
  {
    count := 0;
    for k := 0 to |tps|
      invariant count == Times(tps[..k], x)
    {
      assert tps[..k + 1] == tps[..k] + [tps[k]];
      if tps[k] == x {
        count := count + 1;
      }
    }
    assert tps[..|tps|] == tps;
  }

  method CheckTopic(n: uint16, topic: bytes, g: Group, order: seq<bytes>) returns (ok: bool)
    requires forall i :: 0 <= i < |order| ==> order[i] in g.members
    ensures ok <==> forall p: uint16 :: p < n ==> Held(order, Assignments(g), TopicPartition(topic, p)) == 1
  {
    for p := 0 to n
      invariant forall k: uint16 :: k < p ==> Held(order, Assignments(g), TopicPartition(topic, k)) == 1
    {
      var count := Count(g, order, TopicPartition(topic, p));
      if count != 1 {
        return false;
      }
    }
    return true;
  }

  method CheckKnown(cat: Catalog, tps: seq<TopicPartition>) returns (ok: bool)
    ensures ok == Known(cat, tps)
  {
    for k := 0 to |tps|
      invariant Known(cat, tps[..k])
    {
      if tps[k].topic !in cat || tps[k].partition >= cat[tps[k].topic] {
        return false;
      }
    }
    return true;
  }

  /** `debug_check_invariants`, over any group whatsoever. */
  method DebugCheckInvariants(cat: Catalog, g: Group) returns (ok: bool, ghost order: seq<bytes>)
    ensures Ordered(order) && forall m :: m in order <==> m in g.members
    ensures ok <==>
            if g.members == map[] then g.state == Empty
            else CountsOnce(cat, g, order, |g.topics|) &&
                 forall m :: m in g.members ==> Known(cat, g.members[m].assignment)
  {
    hide Held, Ordered;
    var names := SortedNames(g.members.Keys);
    order := names;
    if g.members == map[] {
      return g.state == Empty, names;
    }
    for i := 0 to |g.topics|
      invariant CountsOnce(cat, g, names, i)
    {
      if g.topics[i] !in cat {
        return false, names;
      }
      var once := CheckTopic(cat[g.topics[i]], g.topics[i], g, names);
      if !once {
        return false, names;
      }
    }
    for i := 0 to |names|
      invariant forall k :: 0 <= k < i ==> Known(cat, g.members[names[k]].assignment)
    {
      var known := CheckKnown(cat, g.members[names[i]].assignment);
      if !known {
        return false, names;
      }
    }
    return true, names;
  }

  /** In every group that keeps the invariant, the coordinator's own check passes exactly when the subscription names no
      topic twice (or the group is empty). */
  lemma DebugCheckMeaning(cat: Catalog, g: Group, order: seq<bytes>)
    requires GroupOk(cat, g) && g.members != map[] && Catalogued(cat, g.topics)
    requires Ordered(order) && forall m :: m in order <==> m in g.members
    ensures CountsOnce(cat, g, order, |g.topics|) &&
            (forall m :: m in g.members ==> Known(cat, g.members[m].assignment))
            <==> Distinct(g.topics)
  {
    hide Held, Ordered, GroupOk, Sizes;
    var order0 := GroupExclusive(cat, g);
    OrderedUnique(order, order0);
    SizesAll(cat, g.topics);
    var topics, a := Sizes(cat, g.topics), Assignments(g);
    if Distinct(g.topics) {
      ExclusiveCountsOnce(cat, g, order);
      forall m | m in g.members
        ensures Known(cat, g.members[m].assignment)
      {
        ExclusiveKnown(cat, g, order, m);
      }
    } else if CountsOnce(cat, g, order, |g.topics|) {
      var i, j :| 0 <= i < j < |g.topics| && g.topics[i] == g.topics[j];
      TwiceHeld(cat, g, order, i, j);
    }
  }

  lemma ExclusiveCountsOnce(cat: Catalog, g: Group, order: seq<bytes>)
    requires Catalogued(cat, g.topics) && forall m :: m in order <==> m in g.members
    requires Exclusive(Sizes(cat, g.topics), order, Assignments(g))
    ensures CountsOnce(cat, g, order, |g.topics|)
  {
    hide Held, Sizes;
    var topics := Sizes(cat, g.topics);
    SizesAll(cat, g.topics);
    forall i | 0 <= i < |g.topics|
      ensures forall p: uint16 :: p < cat[g.topics[i]] ==>
              Held(order, Assignments(g), TopicPartition(g.topics[i], p)) == 1
    {
      assert topics[i] == TopicSize(g.topics[i], cat[g.topics[i]]);
      assert forall p: uint16 :: p < cat[g.topics[i]] ==> Wanted(topics, TopicPartition(g.topics[i], p));
    }
  }

  lemma ExclusiveKnown(cat: Catalog, g: Group, order: seq<bytes>, m: bytes)
    requires Catalogued(cat, g.topics) && m in g.members && forall m :: m in order <==> m in g.members
    requires Exclusive(Sizes(cat, g.topics), order, Assignments(g))
    ensures Known(cat, g.members[m].assignment)
  {
    hide Held, Sizes;
    var topics, tps := Sizes(cat, g.topics), g.members[m].assignment;
    SizesAll(cat, g.topics);
    var i :| 0 <= i < |order| && order[i] == m;
    forall k | 0 <= k < |tps|
      ensures tps[k].topic in cat && tps[k].partition < cat[tps[k].topic]
    {
      HolderCounts(order, Assignments(g), i, tps[k]);
      assert Wanted(topics, tps[k]);
    }
  }

  /** A topic named twice is held twice. */
  lemma TwiceHeld(cat: Catalog, g: Group, order: seq<bytes>, i: nat, j: nat)
    requires GroupOk(cat, g) && g.members != map[] && Catalogued(cat, g.topics)
    requires Ordered(order) && forall m :: m in order <==> m in g.members
    requires i < j < |g.topics| && g.topics[i] == g.topics[j]
    ensures Held(order, Assignments(g), TopicPartition(g.topics[i], 0)) >= 2
  {
    hide Held, Ordered, Everything, Times, RangeShare, DealtTo, Ascending;
    var topics, a, x := Sizes(cat, g.topics), Assignments(g), TopicPartition(g.topics[i], 0);
    SizesAll(cat, g.topics);
    var order0, dealt :| AssignedBy(cat, g, order0, dealt);
    OrderedUnique(order, order0);
    assert order != [] by {
      var m :| m in g.members;
      assert m in order;
    }
    if g.strategy == Range {
      RangeHolds(order, a, topics, x);
    } else {
      RoundRobinHolds(order, a, topics, dealt, x);
    }
    EverythingCount(topics, x);
    ListedTwice(topics, i, j, x);
  }
}
