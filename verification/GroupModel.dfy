/** The consumer-group protocol, one atomic step at a time. */
module GroupModel {
  import opened Bytes
  import opened Text
  import opened Assignor

  const UNKNOWN_TOPIC := 4
  const INVALID_TOPIC_NAME := 6
  const INVALID_PARTITION := 7
  const OFFSET_OUT_OF_RANGE := 8
  const INTERNAL_ERROR := 12
  const INVALID_ARGUMENT := 13
  const UNKNOWN_MEMBER := 14
  const ILLEGAL_GENERATION := 15
  const NOT_ASSIGNED := 16

  const STANDALONE := 0xFFFF_FFFF

  datatype Strategy = Range | RoundRobin

  datatype GroupState = Empty | Stable

  datatype Member = Member(timeout: uint32, heartbeat: int, assignment: seq<TopicPartition>)

  datatype Group = Group(generation: uint32, strategy: Strategy, topics: seq<bytes>, state: GroupState,
                         members: map<bytes, Member>)

  datatype Config = Config(minTimeout: uint32, maxTimeout: uint32, maxMembers: nat, maxGroups: nat)

  datatype CommitKey = CommitKey(group: bytes, tp: TopicPartition)

  datatype Entry = Entry(tp: TopicPartition, offset: uint64)

  /** The number of partitions of every topic. */
  type Catalog = map<bytes, uint16>

  datatype State = State(groups: map<bytes, Group>, counter: nat, committed: map<CommitKey, uint64>)

  datatype JoinRequest = JoinRequest(group: bytes, member: bytes, timeout: uint32, topics: seq<bytes>, strategy: byte)

  datatype JoinResult =
    | Joined(member: bytes, generation: uint32, interval: nat, assignment: seq<TopicPartition>)
    | Refused(code: nat)

  // ---- Rebalancing -------------------------------------------------------------------------

  /** The subscribed topics that exist, with their sizes. */
  function Sizes(cat: Catalog, topics: seq<bytes>): seq<TopicSize> {
    if topics == [] then []
    else
      var n := |topics| - 1;
      Sizes(cat, topics[..n]) + if topics[n] in cat then [TopicSize(topics[n], cat[topics[n]])] else []
  }

  /** Every member, in dictionary order, holds its share under the group's strategy. */
  ghost predicate AssignedBy(cat: Catalog, g: Group, order: seq<bytes>, dealt: seq<TopicPartition>) {
    && Ordered(order) && (forall m :: m in order <==> m in g.members)
    && var topics := Sizes(cat, g.topics);
    match g.strategy
    case Range =>
      forall i: nat :: i < |order| ==> g.members[order[i]].assignment == RangeShare(topics, |order|, i)
    case RoundRobin =>
      && multiset(dealt) == multiset(Everything(topics)) && Ascending(dealt)
      && forall i: nat :: i < |order| ==> g.members[order[i]].assignment == DealtTo(dealt, |order|, i)
  }

  ghost predicate Assigned(cat: Catalog, g: Group) {
    exists order, dealt :: AssignedBy(cat, g, order, dealt)
  }

  ghost predicate SameButAssignment(m: Member, m': Member) {
    m'.timeout == m.timeout && m'.heartbeat == m.heartbeat
  }

  /** `GroupCoordinator::rebalance_unlocked`. */
  ghost predicate Rebalanced(cat: Catalog, g: Group, g': Group) {
    if g.members == map[] then g' == g.(state := Empty)
    else
      && g' == g.(state := Stable, members := g'.members)
      && g'.members.Keys == g.members.Keys
      && (forall m :: m in g.members ==> SameButAssignment(g.members[m], g'.members[m]))
      && Assigned(cat, g')
  }

  // ---- Join --------------------------------------------------------------------------------

  /** The first topic that cannot be subscribed to decides. */
  function TopicsRefusal(cat: Catalog, topics: seq<bytes>): nat {
    if topics == [] then 0
    else if Reserved(topics[0]) then INVALID_TOPIC_NAME
    else if topics[0] !in cat then UNKNOWN_TOPIC
    else TopicsRefusal(cat, topics[1..])
  }

  function JoinRefusal(cfg: Config, cat: Catalog, q: JoinRequest): nat {
    if !ValidGroupId(q.group) then INVALID_ARGUMENT
    else if q.topics == [] then INVALID_ARGUMENT
    else if q.timeout < cfg.minTimeout || q.timeout > cfg.maxTimeout then INVALID_ARGUMENT
    else if q.strategy > 1 then INVALID_ARGUMENT
    else TopicsRefusal(cat, q.topics)
  }

  function StrategyOf(code: byte): Strategy {
    if code == 0 then Range else RoundRobin
  }

  function Put(s: State, id: bytes, g: Group): State {
    s.(groups := s.groups[id := g])
  }

  /** The group as the request finds it: a new one is created, an empty one takes over the request's subscription. */
  function Subscribed(s: State, q: JoinRequest): Group {
    var g := if q.group in s.groups then s.groups[q.group]
        else Group(0, StrategyOf(q.strategy), q.topics, Empty, map[]);
    if g.members == map[] then g.(strategy := StrategyOf(q.strategy), topics := q.topics) else g
  }

  /** `generation++` on 32 bits. */
  function Next(generation: uint32): uint32 {
    (generation + 1) % 0x1_0000_0000
  }

  function WithNewMember(g: Group, id: bytes, timeout: uint32, now: int): Group {
    g.(members := g.members[id := Member(timeout, now, [])], generation := Next(g.generation))
  }

  function Refreshed(g: Group, id: bytes, timeout: uint32, now: int): Group
    requires id in g.members
  {
    g.(members := g.members[id := g.members[id].(heartbeat := now, timeout := timeout)])
  }

  ghost predicate JoinStep(cfg: Config, cat: Catalog, s: State, s': State, q: JoinRequest, now: int, salt: uint16,
                           r: JoinResult) {
    var refusal := JoinRefusal(cfg, cat, q);
    if refusal != 0 then s' == s && r == Refused(refusal)
    else if q.group !in s.groups && |s.groups| >= cfg.maxGroups then s' == s && r == Refused(INVALID_ARGUMENT)
    else
      var g := Subscribed(s, q);
      if g.strategy != StrategyOf(q.strategy) || g.topics != q.topics then
        s' == Put(s, q.group, g) && r == Refused(INVALID_ARGUMENT)
      else EnterStep(cfg, cat, Put(s, q.group, g), s', q, g, now, salt, r)
  }

  ghost predicate EnterStep(cfg: Config, cat: Catalog, s: State, s': State, q: JoinRequest, g: Group, now: int,
                            salt: uint16,
                            r: JoinResult)
  {
    if q.member == [] then
      if |g.members| >= cfg.maxMembers then s' == s && r == Refused(INVALID_ARGUMENT)
      else JoinNew(cat, s, s', q, g, now, salt, r)
    else if q.member !in g.members then s' == s && r == Refused(UNKNOWN_MEMBER)
    else
      && s' == Put(s, q.group, Refreshed(g, q.member, q.timeout, now))
      && r == Joined(q.member, g.generation, q.timeout / 3, g.members[q.member].assignment)
  }

  ghost predicate JoinNew(cat: Catalog, s: State, s': State, q: JoinRequest, g: Group, now: int, salt: uint16,
                          r: JoinResult) {
    var id := MemberId(q.group, s.counter, salt);
    && q.group in s'.groups
    && var g' := s'.groups[q.group];
    && Rebalanced(cat, WithNewMember(g, id, q.timeout, now), g')
    && s' == Put(s, q.group, g').(counter := s.counter + 1)
    && id in g'.members
    && r == Joined(id, g'.generation, q.timeout / 3, g'.members[id].assignment)
  }

  // ---- Heartbeat, leave, expiry --------------------------------------------------------------

  ghost predicate HeartbeatStep(s: State, s': State, group: bytes, member: bytes, generation: uint32, now: int,
                                code: nat) {
    if group !in s.groups || member !in s.groups[group].members then s' == s && code == UNKNOWN_MEMBER
    else if generation != s.groups[group].generation then s' == s && code == ILLEGAL_GENERATION
    else
      var g := s.groups[group];
      s' == Put(s, group, Refreshed(g, member, g.members[member].timeout, now)) && code == 0
  }

  function Without(g: Group, gone: set<bytes>): Group {
    g.(members := g.members - gone, generation := Next(g.generation))
  }

  ghost predicate LeaveStep(cat: Catalog, s: State, s': State, group: bytes, member: bytes, code: nat) {
    if group !in s.groups || member !in s.groups[group].members then s' == s && code == UNKNOWN_MEMBER
    else
      && code == 0 && group in s'.groups
      && s' == Put(s, group, s'.groups[group])
      && Rebalanced(cat, Without(s.groups[group], {member}), s'.groups[group])
  }

  /** The members whose last heartbeat is longer ago than their session timeout. */
  function Silent(g: Group, now: int): set<bytes> {
    set m | m in g.members && now - g.members[m].heartbeat > g.members[m].timeout
  }

  ghost predicate ExpireStep(cat: Catalog, s: State, s': State, group: bytes, now: int) {
    && group in s.groups
    && var g := s.groups[group];
    if Silent(g, now) == {} then s' == s
    else
      && group in s'.groups && s' == Put(s, group, s'.groups[group])
      && Rebalanced(cat, Without(g, Silent(g, now)), s'.groups[group])
  }

  // ---- Commit ------------------------------------------------------------------------------

  function EntriesRefusal(cat: Catalog, entries: seq<Entry>): nat {
    if entries == [] then 0
    else
      var tp := entries[0].tp;
      if Reserved(tp.topic) then INVALID_TOPIC_NAME
      else if tp.topic !in cat then UNKNOWN_TOPIC
      else if tp.partition >= cat[tp.topic] then INVALID_PARTITION
      else EntriesRefusal(cat, entries[1..])
  }

  predicate AllHeld(assignment: seq<TopicPartition>, entries: seq<Entry>) {
    forall i :: 0 <= i < |entries| ==> entries[i].tp in assignment
  }

  /** Who may commit: a member in the current generation for its own partitions, or nobody's client while the group
      has no members. */
  function CommitRefusal(s: State, group: bytes, member: bytes, generation: uint32, entries: seq<Entry>): nat {
    if member == [] && generation == STANDALONE then
      if group in s.groups && s.groups[group].members != map[] then ILLEGAL_GENERATION else 0
    else if group !in s.groups || member !in s.groups[group].members then UNKNOWN_MEMBER
    else if generation != s.groups[group].generation then ILLEGAL_GENERATION
    else if !AllHeld(s.groups[group].members[member].assignment, entries) then NOT_ASSIGNED
    else 0
  }

  /** The next offset of every partition. */
  type Watermarks = map<TopicPartition, uint64>

  predicate WithinLog(marks: Watermarks, entries: seq<Entry>) {
    forall i :: 0 <= i < |entries| ==> entries[i].tp in marks && entries[i].offset <= marks[entries[i].tp]
  }

  /** The commits of one request, in order. */
  function Stored(c: map<CommitKey, uint64>, group: bytes, entries: seq<Entry>): map<CommitKey, uint64>
    decreases |entries|
  {
    if entries == [] then c
    else Stored(c[CommitKey(group, entries[0].tp) := entries[0].offset], group, entries[1..])
  }

  /** What the offsets log holds for a partition, cast to a signed number. */
  function CommittedOffset(committed: map<CommitKey, uint64>, group: bytes, tp: TopicPartition): int {
    var key := CommitKey(group, tp);
    if key !in committed then -1 else ToSigned(committed[key])
  }

  function CommitCode(cat: Catalog, marks: Watermarks, s: State, group: bytes, member: bytes, generation: uint32,
                      entries: seq<Entry>): nat {
    if EntriesRefusal(cat, entries) != 0 then EntriesRefusal(cat, entries)
    else if CommitRefusal(s, group, member, generation, entries) != 0 then
        CommitRefusal(s, group, member, generation, entries)
    else if !WithinLog(marks, entries) then OFFSET_OUT_OF_RANGE
    else 0
  }

  /** `durable` says whether the offsets log took the commits. */
  ghost predicate CommitStep(cat: Catalog, marks: Watermarks, s: State, s': State, group: bytes, member: bytes,
                             generation: uint32, entries: seq<Entry>, durable: bool, code: nat)
  {
    var refusal := CommitCode(cat, marks, s, group, member, generation, entries);
    if refusal != 0 then s' == s && code == refusal
    else if !durable then s' == s && code == INTERNAL_ERROR
    else s' == s.(committed := Stored(s.committed, group, entries)) && code == 0
  }

  // ---- The invariant of every group ----------------------------------------------------------

  /** No members exactly in the Empty state; otherwise every member holds its share. */
  ghost predicate GroupOk(cat: Catalog, g: Group) {
    && (g.members == map[] <==> g.state == Empty)
    && (g.members != map[] ==> Assigned(cat, g))
  }

  lemma RebalancedOk(cat: Catalog, g: Group, g': Group)
    requires Rebalanced(cat, g, g')
    ensures GroupOk(cat, g')
  {
    hide Assigned;
    if g.members != map[] {
      var m :| m in g.members;
      assert m in g'.members;
    }
  }

  /** Refreshing a member changes no assignment. */
  lemma RefreshedOk(cat: Catalog, g: Group, id: bytes, timeout: uint32, now: int)
    requires GroupOk(cat, g) && id in g.members
    ensures GroupOk(cat, Refreshed(g, id, timeout, now))
  {
    var g' := Refreshed(g, id, timeout, now);
    assert id in g'.members;
    var order, dealt :| AssignedBy(cat, g, order, dealt);
    assert forall m :: m in g.members ==> g'.members[m].assignment == g.members[m].assignment;
    assert AssignedBy(cat, g', order, dealt);
  }

  // ---- What the invariant means --------------------------------------------------------------

  function Assignments(g: Group): (a: Assignment)
    ensures a.Keys == g.members.Keys && forall m :: m in g.members ==> a[m] == g.members[m].assignment
  {
    map m | m in g.members :: g.members[m].assignment
  }

  ghost predicate Catalogued(cat: Catalog, topics: seq<bytes>) {
    forall i :: 0 <= i < |topics| ==> !Reserved(topics[i]) && topics[i] in cat && cat[topics[i]] > 0
  }

  lemma {:induction false} SizesAll(cat: Catalog, topics: seq<bytes>)
    requires Catalogued(cat, topics)
    ensures |Sizes(cat, topics)| == |topics|
    ensures forall i :: 0 <= i < |topics| ==> Sizes(cat, topics)[i] == TopicSize(topics[i], cat[topics[i]])
  {
    if topics != [] {
      var n := |topics| - 1;
      SizesAll(cat, topics[..n]);
      forall i | 0 <= i < |topics|
        ensures Sizes(cat, topics)[i] == TopicSize(topics[i], cat[topics[i]])
      {
        if i < n {
          assert topics[..n][i] == topics[i];
        }
      }
    }
  }

  /** Every partition of every subscribed topic is held by exactly one member, once, and nothing else is held; and
      this is so exactly when the subscription names no topic twice. */
  lemma GroupExclusive(cat: Catalog, g: Group) returns (order: seq<bytes>)
    requires GroupOk(cat, g) && g.members != map[] && Catalogued(cat, g.topics)
    ensures Ordered(order) && forall m :: m in order <==> m in g.members
    ensures Exclusive(Sizes(cat, g.topics), order, Assignments(g)) <==> Distinct(g.topics)
  {
    hide Held, Times, Everything, RangeShare, DealtTo, TextLess, Ascending;
    var topics, a := Sizes(cat, g.topics), Assignments(g);
    var order0, dealt :| AssignedBy(cat, g, order0, dealt);
    order := order0;
    SizesAll(cat, g.topics);
    assert TopicNames(topics) == g.topics;
    assert order != [] by {
      var m :| m in g.members;
      assert m in order;
    }
    forall x
      ensures Held(order, a, x) == Times(Everything(topics), x)
    {
      if g.strategy == Range {
        RangeHolds(order, a, topics, x);
      } else {
        RoundRobinHolds(order, a, topics, dealt, x);
      }
    }
    ExclusiveIffDistinct(topics, order, a);
  }

  lemma {:induction false} HolderCounts(members: seq<bytes>, a: Assignment, i: nat, x: TopicPartition)
    requires (forall j :: 0 <= j < |members| ==> members[j] in a) && i < |members| && x in a[members[i]]
    ensures Held(members, a, x) >= 1
    decreases |members|
  {
    var n := |members| - 1;
    if i < n {
      HolderCounts(members[..n], a, i, x);
    }
  }

  lemma {:induction false} TwoHoldersCount(members: seq<bytes>, a: Assignment, i: nat, j: nat, x: TopicPartition)
    requires (forall n :: 0 <= n < |members| ==> members[n] in a) && i < j < |members| && x in a[members[i]] &&
             x in a[members[j]]
    ensures Held(members, a, x) >= 2
    decreases |members|
  {
    var n := |members| - 1;
    if j < n {
      TwoHoldersCount(members[..n], a, i, j, x);
    } else {
      HolderCounts(members[..n], a, i, x);
    }
  }

  /** In a group whose subscription names no topic twice, two members never hold the same partition. */
  lemma OneOwner(cat: Catalog, g: Group, m1: bytes, m2: bytes, x: TopicPartition)
    requires GroupOk(cat, g) && Catalogued(cat, g.topics) && Distinct(g.topics)
    requires m1 in g.members && m2 in g.members && x in g.members[m1].assignment && x in g.members[m2].assignment
    ensures m1 == m2
  {
    hide Held, GroupOk, Wanted, TextLess, Sizes;
    var order := GroupExclusive(cat, g);
    var a := Assignments(g);
    var i :| 0 <= i < |order| && order[i] == m1;
    var j :| 0 <= j < |order| && order[j] == m2;
    var topics := Sizes(cat, g.topics);
    assert Held(order, a, x) == if Wanted(topics, x) then 1 else 0;
    if i < j {
      TwoHoldersCount(order, a, i, j, x);
    } else if j < i {
      TwoHoldersCount(order, a, j, i, x);
    }
  }
}
