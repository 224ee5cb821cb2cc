/** Who is a member, who is let in and who is sent away, told from the calls alone. */
module GroupLife {
  import opened Bytes
  import opened Text
  import opened Assignor
  import opened GroupModel
  import opened Ownership
  import opened GroupRuns

  /** The latest accepted call of a member: when it was made, and what its latest join asked for. */
  datatype Call = Call(time: int, timeout: uint32, topics: seq<bytes>, strategy: byte)

  /** What an event means for a member: a join or heartbeat that is accepted is a call; a leave that is accepted, an
      expiry after longer silence than its timeout, and a restart end the membership. */
  function After(last: Option<Call>, e: Event, id: Id): Option<Call> {
    match e
    case JoinCall(q, now, _, r) =>
      if r.Joined? && q.group == id.group && r.member == id.member then
        Some(Call(now, q.timeout, q.topics, q.strategy))
      else last
    case HeartbeatCall(who, _, now, code) =>
      if code == 0 && who == id && last.Some? then Some(last.value.(time := now)) else last
    case LeaveCall(who, code) => if code == 0 && who == id then None else last
    case ExpireCall(group, now) =>
      if group == id.group && last.Some? && now - last.value.time > last.value.timeout then None else last
    case Restart(_, _, _, _, _) => None
    case _ => last
  }

  /** The latest call of a member among the first `n` events, if its membership has not ended since. */
  function LastCall(es: seq<Event>, n: nat, id: Id): Option<Call>
    requires n <= |es|
  {
    if n == 0 then None else After(LastCall(es, n - 1, id), es[n - 1], id)
  }

  /** The coordinator knows the member exactly as its calls say. */
  ghost predicate Agrees(s: State, id: Id, last: Option<Call>) {
    match last
    case None => id.member !in Members(s, id.group)
    case Some(c) =>
      && id.member in Members(s, id.group)
      && var g := s.groups[id.group];
      && g.members[id.member].heartbeat == c.time && g.members[id.member].timeout == c.timeout
      && g.topics == c.topics && g.strategy == StrategyOf(c.strategy)
  }

  // ---- Steps -------------------------------------------------------------------------------------

  lemma RebalancedAgrees(cat: Catalog, g: Group, g': Group, m: bytes)
    requires Rebalanced(cat, g, g')
    ensures g'.members.Keys == g.members.Keys && g'.topics == g.topics && g'.strategy == g.strategy
    ensures m in g.members ==>
              g'.members[m].heartbeat == g.members[m].heartbeat && g'.members[m].timeout == g.members[m].timeout
  {
    hide Assigned;
  }

  lemma JoinAgrees(cfg: Config, cat: Catalog, s: State, s': State, q: JoinRequest, now: int, salt: uint16,
                   r: JoinResult, id: Id, last: Option<Call>)
    requires JoinStep(cfg, cat, s, s', q, now, salt, r) && Agrees(s, id, last)
    ensures Agrees(s', id, After(last, JoinCall(q, now, salt, r), id))
  {
    hide Rebalanced, MemberId, JoinRefusal;
    if r.Joined? && q.member == [] {
      var g := Subscribed(s, q);
      var mid := WithNewMember(g, r.member, q.timeout, now);
      RebalancedAgrees(cat, mid, s'.groups[q.group], id.member);
      RebalancedAgrees(cat, mid, s'.groups[q.group], r.member);
    }
  }

  lemma HeartbeatAgrees(s: State, s': State, who: Id, generation: uint32, now: int, code: nat,
                        id: Id, last: Option<Call>)
    requires HeartbeatStep(s, s', who.group, who.member, generation, now, code) && Agrees(s, id, last)
    ensures Agrees(s', id, After(last, HeartbeatCall(who, generation, now, code), id))
  {
  }

  lemma LeaveAgrees(cat: Catalog, s: State, s': State, who: Id, code: nat, id: Id, last: Option<Call>)
    requires LeaveStep(cat, s, s', who.group, who.member, code) && Agrees(s, id, last)
    ensures Agrees(s', id, After(last, LeaveCall(who, code), id))
  {
    hide Rebalanced;
    if code == 0 {
      RebalancedAgrees(cat, Without(s.groups[who.group], {who.member}), s'.groups[who.group], id.member);
    }
  }

  lemma ExpireAgrees(cat: Catalog, s: State, s': State, group: bytes, now: int, id: Id, last: Option<Call>)
    requires ExpireStep(cat, s, s', group, now) && Agrees(s, id, last)
    ensures Agrees(s', id, After(last, ExpireCall(group, now), id))
  {
    hide Rebalanced;
    var g := s.groups[group];
    if id.group == group && last.Some? {
      assert id.member in Silent(g, now) <==> now - last.value.time > last.value.timeout;
    }
    if Silent(g, now) != {} {
      RebalancedAgrees(cat, Without(g, Silent(g, now)), s'.groups[group], id.member);
    }
  }

  lemma StepAgrees(cfg: Config, w: World, e: Event, w': World, id: Id, last: Option<Call>)
    requires Step(cfg, w, e, w') && Agrees(w.s, id, last)
    ensures Agrees(w'.s, id, After(last, e, id))
  {
    hide JoinStep, HeartbeatStep, LeaveStep, ExpireStep, CommitCode, CommitTaken, Stored;
    match e
    case JoinCall(q, now, salt, r) => JoinAgrees(cfg, w.cat, w.s, w'.s, q, now, salt, r, id, last);
    case HeartbeatCall(who, generation, now, code) =>
      HeartbeatAgrees(w.s, w'.s, who, generation, now, code, id, last);
    case LeaveCall(who, code) => LeaveAgrees(w.cat, w.s, w'.s, who, code, id, last);
    case ExpireCall(group, now) => ExpireAgrees(w.cat, w.s, w'.s, group, now, id, last);
    case _ =>
  }

  /** In every run: the members of a group are those whose last call has not been ended, and the coordinator holds that
      call's time, and the timeout and subscription of the latest join. */
  lemma {:induction false} MembersExactly(cfg: Config, ws: seq<World>, es: seq<Event>, n: nat, id: Id)
    requires Run(cfg, ws, es) && n < |ws|
    ensures Agrees(ws[n].s, id, LastCall(es, n, id))
    decreases n
  {
    hide Step, Agrees, After;
    if n == 0 {
      NoneYet(ws[0], id);
    } else {
      MembersExactly(cfg, ws, es, n - 1, id);
      assert Step(cfg, ws[n - 1], es[n - 1], ws[n - 1 + 1]);
      StepAgrees(cfg, ws[n - 1], es[n - 1], ws[n], id, LastCall(es, n - 1, id));
    }
  }

  lemma NoneYet(w: World, id: Id)
    requires Begin(w)
    ensures Agrees(w.s, id, None)
  {
  }

  // ---- Expiry --------------------------------------------------------------------------------------

  /** An accepted join, rejoin or heartbeat of the member at this time. */
  predicate IsCall(e: Event, id: Id, time: int) {
    || (e.JoinCall? && e.joinReply.Joined? && e.q.group == id.group && e.joinReply.member == id.member &&
        e.joinTime == time)
    || (e.HeartbeatCall? && e.beatCode == 0 && e.beating == id && e.beatTime == time)
  }

  /** The last call is indeed the latest one, and the coordinator has not been restarted since. */
  lemma {:induction false} LastCallIsLatest(es: seq<Event>, n: nat, id: Id) returns (k: nat)
    requires n <= |es| && LastCall(es, n, id).Some?
    ensures k < n && IsCall(es[k], id, LastCall(es, n, id).value.time)
    ensures forall i :: k < i < n ==> !es[i].Restart? && es[i] != LeaveCall(id, 0) && forall t :: !IsCall(es[i], id, t)
    decreases n
  {
    var e := es[n - 1];
    if IsCall(e, id, LastCall(es, n, id).value.time) {
      k := n - 1;
    } else {
      assert LastCall(es, n, id) == LastCall(es, n - 1, id) && forall t :: !IsCall(e, id, t);
      k := LastCallIsLatest(es, n - 1, id);
    }
  }

  /** In every run, an expiry sends a member away exactly if its latest accepted join, rejoin or heartbeat is longer ago
      than its latest timeout. */
  lemma ExpiresExactly(cfg: Config, ws: seq<World>, es: seq<Event>, n: nat, id: Id, now: int)
    requires Run(cfg, ws, es) && n < |es| && es[n] == ExpireCall(id.group, now)
    requires id.member in Members(ws[n].s, id.group)
    ensures LastCall(es, n, id).Some?
    ensures var c := LastCall(es, n, id).value;
            id.member !in Members(ws[n + 1].s, id.group) <==> now - c.time > c.timeout
  {
    hide Step, Members, LastCall;
    MembersExactly(cfg, ws, es, n, id);
    MembersExactly(cfg, ws, es, n + 1, id);
    assert LastCall(es, n + 1, id) == After(LastCall(es, n, id), es[n], id) by { OneMore(es, n, id); }
  }

  lemma OneMore(es: seq<Event>, n: nat, id: Id)
    requires n < |es|
    ensures LastCall(es, n + 1, id) == After(LastCall(es, n, id), es[n], id)
  {
    hide After;
  }

  /** The member has called no longer ago than its timeout when the expiry runs. */
  predicate InTime(es: seq<Event>, k: nat, id: Id)
    requires k < |es|
  {
    es[k].ExpireCall? && es[k].expiring == id.group && LastCall(es, k, id).Some? ==>
      es[k].expireTime - LastCall(es, k, id).value.time <= LastCall(es, k, id).value.timeout
  }

  /** A member that calls at least once per timeout is never sent away. */
  lemma {:induction false} PunctualStays(cfg: Config, ws: seq<World>, es: seq<Event>, i: nat, j: nat, id: Id)
    requires Run(cfg, ws, es) && i <= j < |ws| && id.member in Members(ws[i].s, id.group)
    requires forall k :: i <= k < j ==> !es[k].Restart? && es[k] != LeaveCall(id, 0) && InTime(es, k, id)
    ensures id.member in Members(ws[j].s, id.group)
    decreases j
  {
    hide Step, LastCall;
    MembersExactly(cfg, ws, es, j, id);
    if i < j {
      PunctualStays(cfg, ws, es, i, j - 1, id);
      MembersExactly(cfg, ws, es, j - 1, id);
      OneMore(es, j - 1, id);
      assert InTime(es, j - 1, id);
    }
  }

  // ---- Answers -------------------------------------------------------------------------------------

  predicate IsAlive(es: seq<Event>, n: nat, id: Id)
    requires n <= |es|
  {
    LastCall(es, n, id).Some?
  }

  /** The generation of a group: how often its membership has changed, on 32 bits. */
  function GenerationNow(w: World, group: bytes): uint32 {
    (if group in w.epochs then w.epochs[group] else 0) % 0x1_0000_0000
  }

  lemma GenerationIs(cfg: Config, ws: seq<World>, es: seq<Event>, n: nat, group: bytes)
    requires Run(cfg, ws, es) && n < |ws| && group in ws[n].s.groups
    ensures ws[n].s.groups[group].generation == GenerationNow(ws[n], group)
  {
    hide Step, GroupOk, Catalogued, OneOwnerEach, Fenceable, ValidGroupId;
    ReachableGroups(cfg, ws, es, n, group);
  }

  lemma AliveIs(cfg: Config, ws: seq<World>, es: seq<Event>, n: nat, id: Id)
    requires Run(cfg, ws, es) && n < |ws|
    ensures IsAlive(es, n, id) <==> id.member in Members(ws[n].s, id.group)
  {
    hide Step, LastCall;
    MembersExactly(cfg, ws, es, n, id);
  }

  /** A heartbeat is accepted exactly from a member in the present generation. */
  lemma HeartbeatExactly(cfg: Config, ws: seq<World>, es: seq<Event>, n: nat)
    requires Run(cfg, ws, es) && n < |es| && es[n].HeartbeatCall?
    ensures var id, generation, code := es[n].beating, es[n].beatGeneration, es[n].beatCode;
            code == if !IsAlive(es, n, id) then 14 else if generation != GenerationNow(ws[n], id.group) then 15 else 0
  {
    hide IsAlive, GenerationNow;
    var id := es[n].beating;
    AliveIs(cfg, ws, es, n, id);
    if id.group in ws[n].s.groups {
      GenerationIs(cfg, ws, es, n, id.group);
    }
    assert Step(cfg, ws[n], es[n], ws[n + 1]);
  }

  /** A leave is accepted exactly from a member, which then is one no more. */
  lemma LeaveExactly(cfg: Config, ws: seq<World>, es: seq<Event>, n: nat)
    requires Run(cfg, ws, es) && n < |es| && es[n].LeaveCall?
    ensures es[n].leaveCode == if IsAlive(es, n, es[n].leaving) then 0 else 14
    ensures es[n].leaving.member !in Members(ws[n + 1].s, es[n].leaving.group)
  {
    hide IsAlive;
    var id := es[n].leaving;
    AliveIs(cfg, ws, es, n, id);
    assert Step(cfg, ws[n], es[n], ws[n + 1]);
    LeaveEnds(es, n, id);
    AliveIs(cfg, ws, es, n + 1, id);
  }

  lemma LeaveEnds(es: seq<Event>, n: nat, id: Id)
    requires n < |es| && es[n].LeaveCall? && es[n].leaving == id
    ensures IsAlive(es, n + 1, id) <==> IsAlive(es, n, id) && es[n].leaveCode != 0
  {
    OneMore(es, n, id);
  }

  /** What a join has to ask for. */
  predicate WellFormed(cfg: Config, cat: Catalog, q: JoinRequest) {
    && ValidGroupId(q.group) && q.topics != [] && cfg.minTimeout <= q.timeout <= cfg.maxTimeout && q.strategy <= 1
    && forall i :: 0 <= i < |q.topics| ==> !Reserved(q.topics[i]) && q.topics[i] in cat
  }

  lemma {:induction false} TopicsAccepted(cat: Catalog, topics: seq<bytes>)
    ensures TopicsRefusal(cat, topics) == 0 <==>
            forall i :: 0 <= i < |topics| ==> !Reserved(topics[i]) && topics[i] in cat
    decreases |topics|
  {
    hide Reserved;
    if topics != [] {
      TopicsAccepted(cat, topics[1..]);
      assert forall i :: 0 <= i < |topics[1..]| ==> topics[1..][i] == topics[i + 1];
      assert forall i :: 0 < i < |topics| ==> topics[i] == topics[1..][i - 1];
    }
  }

  /** Every member of the group asked for the same topics and the same strategy. */
  ghost predicate SameWish(es: seq<Event>, n: nat, w: World, q: JoinRequest)
    requires n <= |es|
  {
    forall m :: m in Members(w.s, q.group) ==>
      && IsAlive(es, n, Id(q.group, m))
      && var c := LastCall(es, n, Id(q.group, m)).value;
      c.topics == q.topics && StrategyOf(c.strategy) == StrategyOf(q.strategy)
  }

  lemma WishIs(cfg: Config, ws: seq<World>, es: seq<Event>, n: nat, q: JoinRequest)
    requires Run(cfg, ws, es) && n < |ws|
    ensures var g := Subscribed(ws[n].s, q);
            SameWish(es, n, ws[n], q) <==> g.strategy == StrategyOf(q.strategy) && g.topics == q.topics
  {
    hide Step, LastCall, StrategyOf;
    forall m | m in Members(ws[n].s, q.group)
      ensures Agrees(ws[n].s, Id(q.group, m), LastCall(es, n, Id(q.group, m)))
    {
      MembersExactly(cfg, ws, es, n, Id(q.group, m));
    }
    if Members(ws[n].s, q.group) != {} {
      var m :| m in Members(ws[n].s, q.group);
      assert Agrees(ws[n].s, Id(q.group, m), LastCall(es, n, Id(q.group, m)));
    }
  }

  /** A join is accepted exactly if it is well formed, its group exists or there is room for one more, all members asked
      for the same, and it comes from a member, or from nobody yet and there is room for one more. */
  lemma JoinExactly(cfg: Config, ws: seq<World>, es: seq<Event>, n: nat)
    requires Run(cfg, ws, es) && n < |es| && es[n].JoinCall?
    ensures var q, s := es[n].q, ws[n].s;
            es[n].joinReply.Joined? <==>
            && WellFormed(cfg, ws[n].cat, q)
            && (q.group in s.groups || |s.groups| < cfg.maxGroups)
            && SameWish(es, n, ws[n], q)
            && if q.member == [] then |Members(s, q.group)| < cfg.maxMembers else IsAlive(es, n, Id(q.group, q.member))
  {
    hide IsAlive, SameWish, StrategyOf, ValidGroupId;
    var q, w := es[n].q, ws[n];
    TopicsAccepted(w.cat, q.topics);
    WishIs(cfg, ws, es, n, q);
    AliveIs(cfg, ws, es, n, Id(q.group, q.member));
    assert Step(cfg, w, es[n], ws[n + 1]);
    JoinedIff(cfg, w.cat, w.s, ws[n + 1].s, q, es[n].joinTime, es[n].salt, es[n].joinReply);
  }

  lemma JoinedIff(cfg: Config, cat: Catalog, s: State, s': State, q: JoinRequest, now: int, salt: uint16,
                  r: JoinResult)
    requires JoinStep(cfg, cat, s, s', q, now, salt, r)
    ensures var g := Subscribed(s, q);
            r.Joined? <==>
            && JoinRefusal(cfg, cat, q) == 0
            && (q.group in s.groups || |s.groups| < cfg.maxGroups)
            && g.strategy == StrategyOf(q.strategy) && g.topics == q.topics
            && if q.member == [] then |Members(s, q.group)| < cfg.maxMembers else q.member in Members(s, q.group)
  {
    hide Rebalanced, MemberId, JoinRefusal, StrategyOf;
    var g := Subscribed(s, q);
    assert g.members.Keys == Members(s, q.group) && |g.members| == |g.members.Keys|;
  }

  /** The reply to a join: the caller is a member now, with that generation and those partitions, and is to call three
      times per session timeout. */
  lemma JoinReply(cfg: Config, ws: seq<World>, es: seq<Event>, n: nat)
    requires Run(cfg, ws, es) && n < |es| && es[n].JoinCall? && es[n].joinReply.Joined?
    ensures var q, r, w' := es[n].q, es[n].joinReply, ws[n + 1];
            && (q.member != [] ==> r.member == q.member)
            && q.group in w'.s.groups && r.member in w'.s.groups[q.group].members
            && r.generation == GenerationNow(w', q.group)
            && r.assignment == w'.s.groups[q.group].members[r.member].assignment
            && 3 * r.interval <= q.timeout < 3 * r.interval + 3
  {
    hide GenerationNow, Rebalanced, MemberId, JoinRefusal;
    assert Step(cfg, ws[n], es[n], ws[n + 1]);
    GenerationIs(cfg, ws, es, n + 1, es[n].q.group);
  }

  // ---- Commits -------------------------------------------------------------------------------------

  /** The partition exists, is not reserved, and has at least that many records. */
  predicate Committable(cat: Catalog, marks: Watermarks, e: Entry) {
    && !Reserved(e.tp.topic) && e.tp.topic in cat && e.tp.partition < cat[e.tp.topic]
    && e.tp in marks && e.offset <= marks[e.tp]
  }

  lemma {:induction false} EntriesAccepted(cat: Catalog, entries: seq<Entry>)
    ensures EntriesRefusal(cat, entries) == 0 <==>
            forall i :: 0 <= i < |entries| ==>
              var tp := entries[i].tp; !Reserved(tp.topic) && tp.topic in cat && tp.partition < cat[tp.topic]
    decreases |entries|
  {
    hide Reserved;
    if entries != [] {
      EntriesAccepted(cat, entries[1..]);
      assert forall i :: 0 <= i < |entries[1..]| ==> entries[1..][i] == entries[i + 1];
      assert forall i :: 0 < i < |entries| ==> entries[i] == entries[1..][i - 1];
    }
  }

  /** A commit is accepted exactly if the offsets log takes it, every entry names an offset within an existing log, and
      it comes from a member in the present generation that owns all those partitions, or from nobody while the group
      has no members. */
  lemma CommitExactly(cfg: Config, ws: seq<World>, es: seq<Event>, n: nat)
    requires Run(cfg, ws, es) && n < |es| && es[n].CommitCall?
    ensures var w, id, generation, entries := ws[n], es[n].committer, es[n].commitGeneration, es[n].entries;
            es[n].commitCode == 0 <==>
            && es[n].durable
            && (forall i :: 0 <= i < |entries| ==> Committable(w.cat, w.marks, entries[i]))
            && if Standalone(id, generation) then Members(w.s, id.group) == {}
               else && IsAlive(es, n, id) && id.group in w.s.groups && id.member in w.s.groups[id.group].members
                    && generation == GenerationNow(w, id.group)
                    && forall i :: 0 <= i < |entries| ==>
                         entries[i].tp in w.s.groups[id.group].members[id.member].assignment
  {
    hide IsAlive, GenerationNow, EntriesRefusal, CommitTaken, Stored, Reserved;
    var w, id := ws[n], es[n].committer;
    EntriesAccepted(w.cat, es[n].entries);
    AliveIs(cfg, ws, es, n, id);
    if id.group in w.s.groups {
      GenerationIs(cfg, ws, es, n, id.group);
    }
    assert Step(cfg, w, es[n], ws[n + 1]);
  }

  // ---- Limits --------------------------------------------------------------------------------------

  ghost predicate GroupWithin(cfg: Config, g: Group) {
    && |g.members| <= cfg.maxMembers
    && forall m :: m in g.members ==> cfg.minTimeout <= g.members[m].timeout <= cfg.maxTimeout
  }

  ghost predicate Within(cfg: Config, s: State) {
    |s.groups| <= cfg.maxGroups && forall g :: g in s.groups ==> GroupWithin(cfg, s.groups[g])
  }

  lemma PutWithin(cfg: Config, s: State, name: bytes, g: Group)
    requires Within(cfg, s) && GroupWithin(cfg, g) && (name in s.groups || |s.groups| < cfg.maxGroups)
    ensures Within(cfg, Put(s, name, g))
  {
    if name in s.groups {
      assert Put(s, name, g).groups.Keys == s.groups.Keys;
      assert |Put(s, name, g).groups.Keys| == |s.groups.Keys|;
    }
  }

  lemma RebalancedWithin(cfg: Config, cat: Catalog, g: Group, g': Group)
    requires Rebalanced(cat, g, g') && GroupWithin(cfg, g)
    ensures GroupWithin(cfg, g')
  {
    hide Assigned;
    assert g'.members.Keys == g.members.Keys;
    assert |g'.members.Keys| == |g.members.Keys|;
  }

  lemma JoinWithin(cfg: Config, cat: Catalog, s: State, s': State, q: JoinRequest, now: int, salt: uint16,
                   r: JoinResult)
    requires JoinStep(cfg, cat, s, s', q, now, salt, r) && Within(cfg, s)
    ensures Within(cfg, s')
  {
    hide Rebalanced, MemberId, ValidGroupId, TopicsRefusal, Within, GroupWithin;
    if JoinRefusal(cfg, cat, q) == 0 && (q.group in s.groups || |s.groups| < cfg.maxGroups) {
      var g := Subscribed(s, q);
      assert GroupWithin(cfg, g) by { SubscribedWithin(cfg, s, q); }
      PutWithin(cfg, s, q.group, g);
      if r.Joined? && q.member == [] {
        var mid := WithNewMember(g, r.member, q.timeout, now);
        assert GroupWithin(cfg, mid) by { MoreWithin(cfg, g, r.member, q.timeout, now); }
        RebalancedWithin(cfg, cat, mid, s'.groups[q.group]);
        PutWithin(cfg, s, q.group, s'.groups[q.group]);
        CounterApart(cfg, Put(s, q.group, s'.groups[q.group]), s');
        assert Put(Put(s, q.group, g), q.group, s'.groups[q.group]).groups == s'.groups;
      } else if r.Joined? {
        var g' := Refreshed(g, q.member, q.timeout, now);
        assert GroupWithin(cfg, g') by { RefreshedWithin(cfg, g, q.member, q.timeout, now); }
        PutWithin(cfg, s, q.group, g');
        assert Put(Put(s, q.group, g), q.group, g') == Put(s, q.group, g');
      }
    }
  }

  lemma CounterApart(cfg: Config, s: State, s': State)
    requires Within(cfg, s) && s'.groups == s.groups
    ensures Within(cfg, s')
  {
  }

  lemma SubscribedWithin(cfg: Config, s: State, q: JoinRequest)
    requires Within(cfg, s)
    ensures GroupWithin(cfg, Subscribed(s, q))
  {
  }

  lemma MoreWithin(cfg: Config, g: Group, id: bytes, timeout: uint32, now: int)
    requires GroupWithin(cfg, g) && |g.members| < cfg.maxMembers && cfg.minTimeout <= timeout <= cfg.maxTimeout
    ensures GroupWithin(cfg, WithNewMember(g, id, timeout, now))
  {
  }

  lemma RefreshedWithin(cfg: Config, g: Group, id: bytes, timeout: uint32, now: int)
    requires GroupWithin(cfg, g) && id in g.members && cfg.minTimeout <= timeout <= cfg.maxTimeout
    ensures GroupWithin(cfg, Refreshed(g, id, timeout, now))
  {
    assert Refreshed(g, id, timeout, now).members.Keys == g.members.Keys;
    assert |Refreshed(g, id, timeout, now).members.Keys| == |g.members.Keys|;
  }

  lemma WithoutWithin(cfg: Config, g: Group, gone: set<bytes>)
    requires GroupWithin(cfg, g)
    ensures GroupWithin(cfg, Without(g, gone))
  {
    var left := Without(g, gone).members;
    assert left.Keys <= g.members.Keys && |left| == |left.Keys| && |g.members| == |g.members.Keys|;
    SubsetSmaller(left.Keys, g.members.Keys);
  }

  lemma StepWithin(cfg: Config, w: World, e: Event, w': World)
    requires Step(cfg, w, e, w') && Within(cfg, w.s)
    ensures Within(cfg, w'.s)
  {
    hide JoinStep, Rebalanced, CommitCode, CommitTaken, Stored, Within, GroupWithin;
    match e
    case JoinCall(q, now, salt, r) => JoinWithin(cfg, w.cat, w.s, w'.s, q, now, salt, r);
    case HeartbeatCall(id, generation, now, code) =>
      if code == 0 {
        GroupOf(cfg, w.s, id.group);
        var g := w.s.groups[id.group];
        MemberOf(cfg, g, id.member);
        RefreshedWithin(cfg, g, id.member, g.members[id.member].timeout, now);
        PutWithin(cfg, w.s, id.group, w'.s.groups[id.group]);
      }
    case LeaveCall(id, code) =>
      if code == 0 {
        GroupOf(cfg, w.s, id.group);
        WithoutWithin(cfg, w.s.groups[id.group], {id.member});
        RebalancedWithin(cfg, w.cat, Without(w.s.groups[id.group], {id.member}), w'.s.groups[id.group]);
        PutWithin(cfg, w.s, id.group, w'.s.groups[id.group]);
      }
    case ExpireCall(group, now) =>
      if w'.s != w.s {
        GroupOf(cfg, w.s, group);
        var g := w.s.groups[group];
        WithoutWithin(cfg, g, Silent(g, now));
        RebalancedWithin(cfg, w.cat, Without(g, Silent(g, now)), w'.s.groups[group]);
        PutWithin(cfg, w.s, group, w'.s.groups[group]);
      }
    case Restart(_, _, _, _, _) => NoneWithin(cfg, w'.s);
    case _ => CounterApart(cfg, w.s, w'.s);
  }

  lemma GroupOf(cfg: Config, s: State, name: bytes)
    requires Within(cfg, s) && name in s.groups
    ensures GroupWithin(cfg, s.groups[name])
  {
  }

  lemma MemberOf(cfg: Config, g: Group, m: bytes)
    requires GroupWithin(cfg, g) && m in g.members
    ensures cfg.minTimeout <= g.members[m].timeout <= cfg.maxTimeout
  {
  }

  lemma NoneWithin(cfg: Config, s: State)
    requires s.groups == map[]
    ensures Within(cfg, s)
  {
  }

  /** In every run the configured limits hold: groups, members of a group, and session timeouts. */
  lemma {:induction false} LimitsHold(cfg: Config, ws: seq<World>, es: seq<Event>, n: nat)
    requires Run(cfg, ws, es) && n < |ws|
    ensures Within(cfg, ws[n].s)
    decreases n
  {
    hide Step, Within;
    if n == 0 {
      NoneWithin(cfg, ws[0].s);
    } else {
      LimitsHold(cfg, ws, es, n - 1);
      assert Step(cfg, ws[n - 1], es[n - 1], ws[n - 1 + 1]);
      StepWithin(cfg, ws[n - 1], es[n - 1], ws[n]);
    }
  }
}
