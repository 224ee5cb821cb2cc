/** Runs of the group coordinator: any interleaving of its operations, with process crashes and restarts. */
module GroupRuns {
  import opened Bytes
  import opened Text
  import opened Assignor
  import opened GroupModel
  import opened Ownership

  datatype Id = Id(group: bytes, member: bytes)

  /** A member's commit that took effect. The epoch counts the membership changes of the group; `fenceable` says what
      the group was like then. */
  datatype Taken = Taken(life: nat, group: bytes, epoch: nat, generation: uint32, tp: TopicPartition, member: bytes,
                         fenceable: bool)

  /** A standalone commit that found no group and now runs without a lock. */
  datatype Loose = Loose(group: bytes, entries: seq<Entry>)

  /** The coordinator, the logs it looks at, and what has happened so far. */
  datatype World = World(
    cat: Catalog,
    marks: Watermarks,
    s: State,
    loose: seq<Loose>,
    life: nat,
    epochs: map<bytes, nat>,
    gone: set<Id>,
    taken: set<Taken>)

  datatype Event =
    | JoinCall(q: JoinRequest, joinTime: int, salt: uint16, joinReply: JoinResult)
    | HeartbeatCall(beating: Id, beatGeneration: uint32, beatTime: int, beatCode: nat)
    | LeaveCall(leaving: Id, leaveCode: nat)
    | ExpireCall(expiring: bytes, expireTime: int)
    | CommitCall(committer: Id, commitGeneration: uint32, entries: seq<Entry>, durable: bool, commitCode: nat)
    | StandaloneBegins(beginner: bytes, found: seq<Entry>)
    | StandaloneEnds(which: nat)
    | TopicCreated(topic: bytes, partitions: uint16)
    | LogsGrow(grown: Watermarks)
    | Restart(cut: Id, cutGeneration: uint32, cutEntries: seq<Entry>, kept: nat, recovered: Watermarks)

  // ---- Steps -------------------------------------------------------------------------------

  function Members(s: State, group: bytes): set<bytes> {
    if group in s.groups then s.groups[group].members.Keys else {}
  }

  function Departed(s: State, s': State): set<Id> {
    set g, m | g in s.groups && m in s.groups[g].members && m !in Members(s', g) :: Id(g, m)
  }

  function Epoch(w: World, s': State, group: bytes): nat {
    var before := if group in w.epochs then w.epochs[group] else 0;
    if Members(s', group) == Members(w.s, group) then before else before + 1
  }

  /** The world after the coordinator moved to `s'`. */
  function Moved(w: World, s': State): World {
    w.(s := s', epochs := map g | g in s'.groups :: Epoch(w, s', g), gone := w.gone + Departed(w.s, s'))
  }

  ghost function Takes(w: World, id: Id, entries: seq<Entry>): set<Taken>
    requires id.group in w.s.groups && id.group in w.epochs
  {
    var g := w.s.groups[id.group];
    set i | 0 <= i < |entries| ::
      Taken(w.life, id.group, w.epochs[id.group], g.generation, entries[i].tp, id.member, Fenceable(g))
  }

  predicate Standalone(id: Id, generation: uint32) {
    id.member == [] && generation == STANDALONE
  }

  ghost predicate Grown(marks: Watermarks, marks': Watermarks) {
    forall tp :: tp in marks ==> tp in marks' && marks[tp] <= marks'[tp]
  }

  ghost predicate CommitTaken(w: World, id: Id, generation: uint32, entries: seq<Entry>, taken: set<Taken>) {
    if Standalone(id, generation) then taken == w.taken
    else id.group in w.s.groups && id.group in w.epochs && taken == w.taken + Takes(w, id, entries)
  }

  /** A crash may cut the one commit that is being written: a prefix of its entries stays. That this is all that a
      restart does to offsets is proved of the logs themselves, in `Restarts`. */
  ghost predicate Restarted(w: World, id: Id, generation: uint32, entries: seq<Entry>, kept: nat, marks: Watermarks,
                            w': World) {
    && kept <= |entries| && Grown(w.marks, marks)
    && (if kept == 0 || Loose(id.group, entries) in w.loose then w'.taken == w.taken
        else && CommitCode(w.cat, w.marks, w.s, id.group, id.member, generation, entries) == 0
             && CommitTaken(w, id, generation, entries[..kept], w'.taken))
    && w' == World(w.cat, marks, State(map[], 0, Stored(w.s.committed, id.group, entries[..kept])), [],
                   w.life + 1, map[], {},
                   w'.taken)
  }

  ghost predicate Step(cfg: Config, w: World, e: Event, w': World) {
    match e
    case JoinCall(q, now, salt, r) => JoinStep(cfg, w.cat, w.s, w'.s, q, now, salt, r) && w' == Moved(w, w'.s)
    case HeartbeatCall(id, generation, now, code) =>
      HeartbeatStep(w.s, w'.s, id.group, id.member, generation, now, code) && w' == Moved(w, w'.s)
    case LeaveCall(id, code) => LeaveStep(w.cat, w.s, w'.s, id.group, id.member, code) && w' == Moved(w, w'.s)
    case ExpireCall(group, now) => ExpireStep(w.cat, w.s, w'.s, group, now) && w' == Moved(w, w'.s)
    case CommitCall(id, generation, entries, durable, code) =>
      && CommitStep(w.cat, w.marks, w.s, w'.s, id.group, id.member, generation, entries, durable, code)
      && w' == w.(s := w'.s, taken := w'.taken)
      && if code == 0 then CommitTaken(w, id, generation, entries, w'.taken) else w'.taken == w.taken
    case StandaloneBegins(group, entries) =>
      && group !in w.s.groups && CommitCode(w.cat, w.marks, w.s, group, [], STANDALONE, entries) == 0
      && w' == w.(loose := w.loose + [Loose(group, entries)])
    case StandaloneEnds(i) =>
      && i < |w.loose|
      && w' == w.(s := w.s.(committed := Stored(w.s.committed, w.loose[i].group, w.loose[i].entries)),
                  loose := w.loose[..i] + w.loose[i + 1..])
    case TopicCreated(topic, n) => topic !in w.cat && n > 0 && w' == w.(cat := w.cat[topic := n])
    case LogsGrow(marks) => Grown(w.marks, marks) && w' == w.(marks := marks)
    case Restart(id, generation, entries, kept, marks) => Restarted(w, id, generation, entries, kept, marks, w')
  }

  ghost predicate Begin(w: World) {
    && (forall t :: t in w.cat ==> w.cat[t] > 0)
    && w.s == State(map[], 0, map[]) && w.loose == [] && w.epochs == map[] && w.gone == {} && w.taken == {}
  }

  ghost predicate Run(cfg: Config, ws: seq<World>, es: seq<Event>) {
    && |ws| == |es| + 1 && Begin(ws[0])
    && forall i :: 0 <= i < |es| ==> Step(cfg, ws[i], es[i], ws[i + 1])
  }

  // ---- The invariant -------------------------------------------------------------------------

  ghost predicate Issued(group: bytes, counter: nat, member: bytes) {
    exists c: nat, salt: uint16 :: c < counter && member == MemberId(group, c, salt)
  }

  ghost predicate GroupInv(cat: Catalog, counter: nat, name: bytes, g: Group, epoch: nat) {
    && GroupOk(cat, g) && Catalogued(cat, g.topics) && ValidGroupId(name)
    && g.generation == epoch % 0x1_0000_0000
    && forall m :: m in g.members ==> Issued(name, counter, m)
  }

  ghost predicate GroupsInv(w: World) {
    && (forall t :: t in w.cat ==> w.cat[t] > 0)
    && w.epochs.Keys == w.s.groups.Keys
    && forall g :: g in w.s.groups ==> GroupInv(w.cat, w.s.counter, g, w.s.groups[g], w.epochs[g])
  }

  ghost predicate GoneInv(w: World) {
    forall id :: id in w.gone ==> Issued(id.group, w.s.counter, id.member) && id.member !in Members(w.s, id.group)
  }

  /** What is known of a commit made in the group's current epoch. */
  ghost predicate Current(g: Group, t: Taken) {
    t.member in g.members && t.tp in g.members[t.member].assignment && t.fenceable == Fenceable(g)
  }

  ghost predicate TakenAt(w: World, t: Taken) {
    && t.life <= w.life && t.generation == t.epoch % 0x1_0000_0000
    && (t.life == w.life ==>
      && t.group in w.s.groups && t.group in w.epochs && t.epoch <= w.epochs[t.group]
      && (t.epoch == w.epochs[t.group] ==> Current(w.s.groups[t.group], t)))
  }

  ghost predicate SamePlace(t: Taken, u: Taken) {
    t.life == u.life && t.group == u.group && t.epoch == u.epoch && t.tp == u.tp
  }

  ghost predicate TakenInv(w: World) {
    && (forall t :: t in w.taken ==> TakenAt(w, t))
    && forall t, u :: t in w.taken && u in w.taken && SamePlace(t, u) && t.fenceable ==> t.member == u.member
  }

  ghost predicate CommittedInv(w: World) {
    && (forall k :: k in w.s.committed ==> k.tp in w.marks && w.s.committed[k] <= w.marks[k.tp])
    && forall i :: 0 <= i < |w.loose| ==> WithinLog(w.marks, w.loose[i].entries)
  }

  ghost predicate Inv(w: World) {
    GroupsInv(w) && GoneInv(w) && TakenInv(w) && CommittedInv(w)
  }

  // ---- What one operation does to one group ----------------------------------------------------

  /** Nothing that ownership depends on has changed. */
  ghost predicate Quiet(g: Group, g': Group) {
    && g'.members.Keys == g.members.Keys && g'.generation == g.generation
    && (g.members != map[] ==> g'.strategy == g.strategy && g'.topics == g.topics)
    && forall m :: m in g.members ==> g'.members[m].assignment == g.members[m].assignment
  }

  ghost predicate Shifts(counter': nat, name: bytes, g: Group, g': Group) {
    || Quiet(g, g')
    || (&& g'.members.Keys != g.members.Keys && g'.generation == Next(g.generation)
        && forall m :: m in g'.members && m !in g.members ==> Issued(name, counter', m))
  }

  const NOBODY := Group(0, Range, [], Empty, map[])

  function Before(s: State, group: bytes): Group {
    if group in s.groups then s.groups[group] else NOBODY
  }

  /** One coordinator operation as the other members of its group see it. */
  ghost predicate Shift(cat: Catalog, s: State, s': State) {
    && s.counter <= s'.counter && s'.committed == s.committed
    && s.groups.Keys <= s'.groups.Keys
    && forall g :: g in s'.groups ==>
      && GroupOk(cat, s'.groups[g]) && Catalogued(cat, s'.groups[g].topics) && ValidGroupId(g)
      && Shifts(s'.counter, g, Before(s, g), s'.groups[g])
      && (s.counter < s'.counter ==>
            forall m :: m in s'.groups[g].members && m !in Before(s, g).members ==> !Issued(g, s.counter, m))
      && (s.counter == s'.counter ==> s'.groups[g].members.Keys <= Before(s, g).members.Keys)
  }

  lemma IssuedMore(group: bytes, c: nat, c': nat, m: bytes)
    requires Issued(group, c, m) && c <= c'
    ensures Issued(group, c', m)
  {
    hide MemberId;
    var k: nat, salt: uint16 :| k < c && m == MemberId(group, k, salt);
    assert k < c' && m == MemberId(group, k, salt);
  }

  lemma NewIdUnissued(group: bytes, c: nat, salt: uint16)
    ensures !Issued(group, c, MemberId(group, c, salt)) && Issued(group, c + 1, MemberId(group, c, salt))
    ensures MemberId(group, c, salt) != []
  {
    var m := MemberId(group, c, salt);
    if Issued(group, c, m) {
      var k: nat, salt': uint16 :| k < c && m == MemberId(group, k, salt');
      MemberIdsDiffer(group, k, salt', c, salt);
    }
  }

  lemma OneGroupShift(cat: Catalog, s: State, s': State, name: bytes)
    requires forall g :: g in s.groups ==>
               GroupOk(cat, s.groups[g]) && Catalogued(cat, s.groups[g].topics) && ValidGroupId(g)
    requires name in s'.groups && s.counter <= s'.counter && ValidGroupId(name)
    requires s' == State(s.groups[name := s'.groups[name]], s'.counter, s.committed)
    requires GroupOk(cat, s'.groups[name]) && Catalogued(cat, s'.groups[name].topics)
    requires Shifts(s'.counter, name, Before(s, name), s'.groups[name])
    requires forall m :: m in s'.groups[name].members && m !in Before(s, name).members ==>
                           s.counter < s'.counter && !Issued(name, s.counter, m)
    ensures Shift(cat, s, s')
  {
    hide GroupOk, Catalogued, ValidGroupId, Issued;
    forall g | g in s'.groups && g != name
      ensures Quiet(Before(s, g), s'.groups[g])
    {
    }
    forall m | m in s'.groups[name].members && s.counter == s'.counter
      ensures m in Before(s, name).members
    {
    }
  }

  lemma NothingShifts(cat: Catalog, s: State)
    requires forall g :: g in s.groups ==>
               GroupOk(cat, s.groups[g]) && Catalogued(cat, s.groups[g].topics) && ValidGroupId(g)
    ensures Shift(cat, s, s)
  {
    hide GroupOk, Catalogued, ValidGroupId, Issued;
    forall g | g in s.groups
      ensures Quiet(Before(s, g), s.groups[g])
    {
    }
  }

  lemma {:induction false} TopicsCatalogued(cat: Catalog, topics: seq<bytes>)
    requires TopicsRefusal(cat, topics) == 0 && forall t :: t in cat ==> cat[t] > 0
    ensures Catalogued(cat, topics)
    decreases |topics|
  {
    if topics != [] {
      TopicsCatalogued(cat, topics[1..]);
      assert forall i :: 1 <= i < |topics| ==> topics[i] == topics[1..][i - 1];
    }
  }

  ghost predicate AllOk(cat: Catalog, s: State) {
    && (forall t :: t in cat ==> cat[t] > 0)
    && forall g :: g in s.groups ==>
      && GroupOk(cat, s.groups[g]) && Catalogued(cat, s.groups[g].topics) && ValidGroupId(g)
      && forall m :: m in s.groups[g].members ==> Issued(g, s.counter, m)
  }

  lemma JoinShifts(cfg: Config, cat: Catalog, s: State, s': State, q: JoinRequest, now: int, salt: uint16,
                   r: JoinResult)
    requires AllOk(cat, s) && JoinStep(cfg, cat, s, s', q, now, salt, r)
    ensures Shift(cat, s, s')
  {
    hide GroupOk, Catalogued, ValidGroupId, Issued, EnterStep, Shift, TopicsRefusal;
    if JoinRefusal(cfg, cat, q) != 0 || (q.group !in s.groups && |s.groups| >= cfg.maxGroups) {
      NothingShifts(cat, s);
    } else {
      TopicsCatalogued(cat, q.topics);
      var g := Subscribed(s, q);
      SubscribedQuiet(cat, s, q);
      if g.strategy != StrategyOf(q.strategy) || g.topics != q.topics {
        OneGroupShift(cat, s, s', q.group);
      } else {
        EnterShifts(cfg, cat, s, s', q, g, now, salt, r);
      }
    }
  }

  lemma EnterShifts(cfg: Config, cat: Catalog, s: State, s': State, q: JoinRequest, g: Group, now: int, salt: uint16,
                    r: JoinResult)
    requires AllOk(cat, s) && GroupOk(cat, g) && Catalogued(cat, g.topics) && Quiet(Before(s, q.group), g)
    requires ValidGroupId(q.group)
    requires EnterStep(cfg, cat, Put(s, q.group, g), s', q, g, now, salt, r)
    ensures Shift(cat, s, s')
  {
    hide GroupOk, Catalogued, ValidGroupId, Issued, MemberId, Rebalanced, Shift;
    if q.member == [] && |g.members| < cfg.maxMembers {
      hide Quiet;
      NewMemberShifts(cat, s, s', q, g, now, salt, r);
    } else if q.member != [] && q.member in g.members {
      hide Quiet;
      assert s' == Put(s, q.group, Refreshed(g, q.member, q.timeout, now));
      RefreshShifts(cat, s, s', q.group, g, q.member, q.timeout, now);
    } else {
      OneGroupShift(cat, s, s', q.group);
    }
  }

  lemma SubscribedQuiet(cat: Catalog, s: State, q: JoinRequest)
    requires AllOk(cat, s) && Catalogued(cat, q.topics)
    ensures var g := Subscribed(s, q);
            GroupOk(cat, g) && Catalogued(cat, g.topics) && Quiet(Before(s, q.group), g)
  {
    hide Catalogued, Issued, Assigned;
  }

  lemma RefreshShifts(cat: Catalog, s: State, s': State, name: bytes, g: Group, id: bytes, timeout: uint32, now: int)
    requires AllOk(cat, s) && GroupOk(cat, g) && Catalogued(cat, g.topics) && Quiet(Before(s, name), g) &&
             id in g.members
    requires ValidGroupId(name)
    requires s' == Put(s, name, Refreshed(g, id, timeout, now))
    ensures Shift(cat, s, s')
  {
    hide GroupOk, Catalogued, ValidGroupId, Issued, Shift;
    RefreshedOk(cat, g, id, timeout, now);
    OneGroupShift(cat, s, s', name);
  }

  lemma NewMemberShifts(cat: Catalog, s: State, s': State, q: JoinRequest, g: Group, now: int, salt: uint16,
                        r: JoinResult)
    requires AllOk(cat, s) && Catalogued(cat, g.topics) && Quiet(Before(s, q.group), g) && ValidGroupId(q.group)
    requires JoinNew(cat, Put(s, q.group, g), s', q, g, now, salt, r)
    ensures Shift(cat, s, s')
  {
    hide GroupOk, Catalogued, ValidGroupId, Issued, MemberId, Assigned, Shift;
    var id := MemberId(q.group, s.counter, salt);
    NewIdUnissued(q.group, s.counter, salt);
    var g', mid := s'.groups[q.group], WithNewMember(g, id, q.timeout, now);
    RebalancedOk(cat, mid, g');
    assert id !in Before(s, q.group).members;
    assert id in mid.members;
    assert g'.members.Keys == g.members.Keys + {id};
    OneGroupShift(cat, s, s', q.group);
  }

  lemma RemovalShifts(cat: Catalog, s: State, s': State, name: bytes, out: set<bytes>)
    requires AllOk(cat, s) && name in s.groups && name in s'.groups && out <= s.groups[name].members.Keys && out != {}
    requires s' == Put(s, name, s'.groups[name]) && Rebalanced(cat, Without(s.groups[name], out), s'.groups[name])
    ensures Shift(cat, s, s')
  {
    hide GroupOk, Catalogued, ValidGroupId, Issued, Assigned, Shift;
    var g, g' := s.groups[name], s'.groups[name];
    RebalancedOk(cat, Without(g, out), g');
    assert g'.members.Keys == g.members.Keys - out;
    var m :| m in out;
    assert m in g.members && m !in g'.members;
    OneGroupShift(cat, s, s', name);
  }

  lemma HeartbeatShifts(cat: Catalog, s: State, s': State, group: bytes, member: bytes, generation: uint32, now: int,
                        code: nat)
    requires AllOk(cat, s) && HeartbeatStep(s, s', group, member, generation, now, code)
    ensures Shift(cat, s, s')
  {
    hide GroupOk, Catalogued, ValidGroupId, Issued, Shift;
    if code == 0 {
      RefreshShifts(cat, s, s', group, s.groups[group], member, s.groups[group].members[member].timeout, now);
    } else {
      NothingShifts(cat, s);
    }
  }

  lemma LeaveShifts(cat: Catalog, s: State, s': State, group: bytes, member: bytes, code: nat)
    requires AllOk(cat, s) && LeaveStep(cat, s, s', group, member, code)
    ensures Shift(cat, s, s')
  {
    hide GroupOk, Catalogued, ValidGroupId, Issued, Shift, Rebalanced;
    if code == 0 {
      RemovalShifts(cat, s, s', group, {member});
    } else {
      NothingShifts(cat, s);
    }
  }

  lemma ExpireShifts(cat: Catalog, s: State, s': State, group: bytes, now: int)
    requires AllOk(cat, s) && ExpireStep(cat, s, s', group, now)
    ensures Shift(cat, s, s')
  {
    hide GroupOk, Catalogued, ValidGroupId, Issued, Shift, Rebalanced;
    if Silent(s.groups[group], now) == {} {
      NothingShifts(cat, s);
    } else {
      RemovalShifts(cat, s, s', group, Silent(s.groups[group], now));
    }
  }

  // ---- The invariant is kept -----------------------------------------------------------------

  lemma InvAllOk(w: World)
    requires GroupsInv(w)
    ensures AllOk(w.cat, w.s)
  {
    hide GroupOk, Catalogued, ValidGroupId, Issued;
  }

  lemma NextEpoch(epoch: nat)
    ensures Next(epoch % 0x1_0000_0000) == (epoch + 1) % 0x1_0000_0000
  {
  }

  lemma MovedGroups(w: World, s': State)
    requires GroupsInv(w) && Shift(w.cat, w.s, s')
    ensures GroupsInv(Moved(w, s'))
  {
    hide GroupOk, Catalogued, ValidGroupId, Issued;
    forall g | g in s'.groups
      ensures GroupInv(w.cat, s'.counter, g, s'.groups[g], Epoch(w, s', g))
    {
      MovedGroup(w, s', g);
    }
  }

  lemma MovedGroup(w: World, s': State, name: bytes)
    requires GroupsInv(w) && Shift(w.cat, w.s, s') && name in s'.groups
    ensures GroupInv(w.cat, s'.counter, name, s'.groups[name], Epoch(w, s', name))
  {
    hide GroupOk, Catalogued, ValidGroupId, Issued;
    var g, g' := Before(w.s, name), s'.groups[name];
    var epoch := if name in w.epochs then w.epochs[name] else 0;
    assert g.generation == epoch % 0x1_0000_0000;
    NextEpoch(epoch);
    assert g.members.Keys == Members(w.s, name) && g'.members.Keys == Members(s', name);
    forall m | m in g'.members
      ensures Issued(name, s'.counter, m)
    {
      if m in g.members {
        IssuedMore(name, w.s.counter, s'.counter, m);
      }
    }
  }

  lemma MovedGone(w: World, s': State)
    requires GroupsInv(w) && GoneInv(w) && Shift(w.cat, w.s, s')
    ensures GoneInv(Moved(w, s'))
  {
    hide GroupOk, Catalogued, ValidGroupId, Issued, Shifts;
    forall id | id in w.gone + Departed(w.s, s')
      ensures Issued(id.group, s'.counter, id.member) && id.member !in Members(s', id.group)
    {
      assert Issued(id.group, w.s.counter, id.member);
      IssuedMore(id.group, w.s.counter, s'.counter, id.member);
    }
  }

  lemma QuietFenceable(g: Group, g': Group)
    requires Quiet(g, g') && g.members != map[]
    ensures Fenceable(g) == Fenceable(g')
  {
    assert |g.members| == |g.members.Keys| && |g'.members| == |g'.members.Keys|;
  }

  lemma MovedTaken(w: World, s': State, t: Taken)
    requires GroupsInv(w) && Shift(w.cat, w.s, s') && TakenAt(w, t)
    ensures TakenAt(Moved(w, s'), t)
  {
    hide GroupOk, Catalogued, ValidGroupId, Issued, Fenceable;
    if t.life == w.life {
      var g, g' := Before(w.s, t.group), s'.groups[t.group];
      if t.epoch == Epoch(w, s', t.group) {
        assert Members(w.s, t.group) == g.members.Keys && Members(s', t.group) == g'.members.Keys;
        assert Quiet(g, g');
        QuietFenceable(g, g');
      }
    }
  }

  lemma MovedInv(w: World, s': State)
    requires Inv(w) && Shift(w.cat, w.s, s')
    ensures Inv(Moved(w, s'))
  {
    hide GroupsInv, GoneInv, TakenAt, Fenceable;
    MovedGroups(w, s');
    MovedGone(w, s');
    forall t | t in w.taken
      ensures TakenAt(Moved(w, s'), t)
    {
      MovedTaken(w, s', t);
    }
  }

  // ---- Commits -----------------------------------------------------------------------------

  lemma {:induction false} StoredWithin(c: map<CommitKey, uint64>, group: bytes, entries: seq<Entry>, marks: Watermarks)
    requires WithinLog(marks, entries) && forall k :: k in c ==> k.tp in marks && c[k] <= marks[k.tp]
    ensures var c' := Stored(c, group, entries);
            forall k :: k in c' ==> k.tp in marks && c'[k] <= marks[k.tp]
    decreases |entries|
  {
    if entries != [] {
      assert forall i :: 0 <= i < |entries[1..]| ==> entries[1..][i] == entries[i + 1];
      StoredWithin(c[CommitKey(group, entries[0].tp) := entries[0].offset], group, entries[1..], marks);
    }
  }

  /** A member commit that passes the checks comes from the owner. */
  lemma AcceptedOwner(w: World, id: Id, generation: uint32, entries: seq<Entry>)
    requires CommitCode(w.cat, w.marks, w.s, id.group, id.member, generation, entries) == 0
    ensures WithinLog(w.marks, entries)
    ensures !Standalone(id, generation) ==>
              && id.group in w.s.groups && id.member in w.s.groups[id.group].members
              && w.s.groups[id.group].generation == generation
              && AllHeld(w.s.groups[id.group].members[id.member].assignment, entries)
  {
    hide EntriesRefusal, WithinLog, AllHeld;
  }

  lemma TakesAt(w: World, id: Id, entries: seq<Entry>, t: Taken)
    requires GroupsInv(w) && id.group in w.s.groups && id.member in w.s.groups[id.group].members
    requires AllHeld(w.s.groups[id.group].members[id.member].assignment, entries) && t in Takes(w, id, entries)
    ensures TakenAt(w, t) && t.life == w.life && t.group == id.group && t.epoch == w.epochs[id.group] &&
            t.member == id.member
  {
    hide GroupOk, Catalogued, ValidGroupId, Issued, Fenceable;
  }

  /** Two commits in the current epoch of a fenceable group. */
  lemma CurrentOwner(w: World, t: Taken, u: Taken)
    requires GroupsInv(w) && TakenAt(w, t) && TakenAt(w, u) && SamePlace(t, u) && t.fenceable
    requires t.life == w.life && t.group in w.epochs && t.epoch == w.epochs[t.group]
    ensures t.member == u.member
  {
    hide GroupOk, Catalogued, ValidGroupId, Issued, Fenceable;
    OneOwnerExactly(w.cat, w.s.groups[t.group]);
  }

  lemma CommitKeepsTaken(w: World, id: Id, generation: uint32, entries: seq<Entry>, taken: set<Taken>)
    requires GroupsInv(w) && TakenInv(w) && CommitTaken(w, id, generation, entries, taken)
    requires !Standalone(id, generation) ==>
               && id.group in w.s.groups && id.member in w.s.groups[id.group].members
               && AllHeld(w.s.groups[id.group].members[id.member].assignment, entries)
    ensures TakenInv(w.(taken := taken))
  {
    hide GroupsInv, TakenAt, Takes, AllHeld;
    var w' := w.(taken := taken);
    forall t | t in taken
      ensures TakenAt(w', t)
      ensures t in w.taken || (t.life == w.life && t.group in w.epochs && t.epoch == w.epochs[t.group])
    {
      if t !in w.taken {
        TakesAt(w, id, entries, t);
      } else {
        assert TakenAt(w, t);
      }
      SameTakenAt(w, w', t);
    }
    forall t, u | t in taken && u in taken && SamePlace(t, u) && t.fenceable
      ensures t.member == u.member
    {
      if t !in w.taken || u !in w.taken {
        SameTakenAt(w, w', t);
        CurrentOwner(w', t, u);
      }
    }
  }

  lemma SameTakenAt(w: World, w': World, t: Taken)
    requires w'.life == w.life && w'.s.groups == w.s.groups && w'.epochs == w.epochs
    ensures TakenAt(w, t) == TakenAt(w', t)
    ensures w'.cat == w.cat && w'.s.counter == w.s.counter ==> GroupsInv(w) == GroupsInv(w')
  {
    hide GroupInv, Current;
  }

  lemma CommitKeeps(w: World, id: Id, generation: uint32, entries: seq<Entry>, durable: bool, code: nat, w': World)
    requires Inv(w) && CommitStep(w.cat, w.marks, w.s, w'.s, id.group, id.member, generation, entries, durable, code)
    requires w' == w.(s := w'.s, taken := w'.taken)
    requires if code == 0 then CommitTaken(w, id, generation, entries, w'.taken) else w'.taken == w.taken
    ensures Inv(w')
  {
    hide GroupsInv, GoneInv, TakenInv, CommitTaken, AllHeld, WithinLog, Stored, CommitCode;
    if code == 0 {
      AcceptedOwner(w, id, generation, entries);
      CommitKeepsTaken(w, id, generation, entries, w'.taken);
      StoredWithin(w.s.committed, id.group, entries, w.marks);
      OnlyTaken(w, w'.taken);
      OnlyCommitted(w.(taken := w'.taken), w'.s.committed);
    } else {
      assert w' == w;
    }
  }

  lemma OnlyCommitted(w: World, committed: map<CommitKey, uint64>)
    ensures var w' := w.(s := w.s.(committed := committed));
            && (GroupsInv(w) ==> GroupsInv(w')) && (GoneInv(w) ==> GoneInv(w')) && (TakenInv(w) ==> TakenInv(w'))
  {
    hide GroupInv, Issued, Current;
    var w' := w.(s := w.s.(committed := committed));
    if TakenInv(w) {
      forall t | t in w'.taken
        ensures TakenAt(w', t)
      {
        SameTakenAt(w, w', t);
      }
    }
  }

  lemma OnlyTaken(w: World, taken: set<Taken>)
    ensures GroupsInv(w) ==> GroupsInv(w.(taken := taken))
    ensures GoneInv(w) ==> GoneInv(w.(taken := taken))
  {
    hide GroupInv, Issued;
  }

  lemma WithinMore(marks: Watermarks, marks': Watermarks, entries: seq<Entry>)
    requires WithinLog(marks, entries) && Grown(marks, marks')
    ensures WithinLog(marks', entries)
  {
  }

  lemma GrowKeeps(w: World, marks: Watermarks)
    requires CommittedInv(w) && Grown(w.marks, marks)
    ensures CommittedInv(w.(marks := marks))
  {
    hide WithinLog;
    forall i | 0 <= i < |w.loose|
      ensures WithinLog(marks, w.loose[i].entries)
    {
      WithinMore(w.marks, marks, w.loose[i].entries);
    }
  }

  lemma RestartKeeps(w: World, id: Id, generation: uint32, entries: seq<Entry>, kept: nat, marks: Watermarks, w': World)
    requires Inv(w) && Restarted(w, id, generation, entries, kept, marks, w')
    ensures Inv(w')
  {
    hide GroupsInv, TakenInv, CommitTaken, AllHeld, CommitCode;
    RestartTaken(w, id, generation, entries, kept, marks, w');
    if kept > 0 {
      if Loose(id.group, entries) !in w.loose {
        AcceptedOwner(w, id, generation, entries);
      }
      assert WithinLog(w.marks, entries);
    }
    assert WithinLog(w.marks, entries[..kept]);
    StoredWithin(w.s.committed, id.group, entries[..kept], w.marks);
    EmptyGroups(w');
  }

  lemma EmptyGroups(w: World)
    requires w.s.groups == map[] && w.epochs == map[] && forall t :: t in w.cat ==> w.cat[t] > 0
    ensures GroupsInv(w)
  {
  }

  lemma RestartTaken(w: World, id: Id, generation: uint32, entries: seq<Entry>, kept: nat, marks: Watermarks, w': World)
    requires Inv(w) && Restarted(w, id, generation, entries, kept, marks, w')
    ensures TakenInv(w') && forall t :: t in w'.cat ==> w'.cat[t] > 0
  {
    hide AllHeld, CommitCode, GroupInv, Stored, WithinLog, CommitTaken, Current;
    if kept > 0 && Loose(id.group, entries) !in w.loose {
      AcceptedOwner(w, id, generation, entries);
      HeldPrefix(w, id, generation, entries, kept);
      CommitKeepsTaken(w, id, generation, entries[..kept], w'.taken);
    }
    assert TakenInv(w.(taken := w'.taken));
    forall t | t in w'.taken
      ensures TakenAt(w', t)
    {
      assert TakenAt(w.(taken := w'.taken), t);
    }
  }

  lemma HeldPrefix(w: World, id: Id, generation: uint32, entries: seq<Entry>, kept: nat)
    requires kept <= |entries|
    ensures forall a :: AllHeld(a, entries) ==> AllHeld(a, entries[..kept])
  {
  }

  lemma CatalogueMore(w: World, topic: bytes, n: uint16)
    requires GroupsInv(w) && topic !in w.cat && n > 0
    ensures GroupsInv(w.(cat := w.cat[topic := n]))
  {
    hide Issued, GroupOk;
    var cat := w.cat[topic := n];
    forall g | g in w.s.groups
      ensures GroupInv(cat, w.s.counter, g, w.s.groups[g], w.epochs[g])
    {
      GroupOkMore(w.cat, cat, w.s.groups[g]);
    }
  }

  lemma {:induction false} SizesMore(cat: Catalog, cat': Catalog, topics: seq<bytes>)
    requires Catalogued(cat, topics) && forall t :: t in cat ==> t in cat' && cat'[t] == cat[t]
    ensures Sizes(cat, topics) == Sizes(cat', topics)
    decreases |topics|
  {
    if topics != [] {
      SizesMore(cat, cat', topics[..|topics| - 1]);
    }
  }

  lemma GroupOkMore(cat: Catalog, cat': Catalog, g: Group)
    requires GroupOk(cat, g) && Catalogued(cat, g.topics) && forall t :: t in cat ==> t in cat' && cat'[t] == cat[t]
    ensures GroupOk(cat', g)
  {
    hide RangeShare, DealtTo, Everything, Ordered, Ascending, Sizes;
    SizesMore(cat, cat', g.topics);
    if g.members != map[] {
      var order, dealt :| AssignedBy(cat, g, order, dealt);
      assert AssignedBy(cat', g, order, dealt);
    }
  }

  lemma LooseKeeps(w: World, e: Event, w': World, cfg: Config)
    requires Inv(w) && Step(cfg, w, e, w')
    requires e.StandaloneBegins? || e.StandaloneEnds? || e.LogsGrow? || e.TopicCreated?
    ensures Inv(w')
  {
    hide GroupsInv, GoneInv, AllHeld, Stored, TakenAt, WithinLog;
    match e
    case StandaloneBegins(group, entries) =>
      AcceptedOwner(w, Id(group, []), STANDALONE, entries);
      SameRest(w, w');
    case StandaloneEnds(i) =>
      StoredWithin(w.s.committed, w.loose[i].group, w.loose[i].entries, w.marks);
      OnlyCommitted(w, w'.s.committed);
      SameRest(w.(s := w'.s), w');
    case LogsGrow(marks) =>
      GrowKeeps(w, marks);
      SameRest(w, w');
    case TopicCreated(topic, n) =>
      CatalogueMore(w, topic, n);
      SameRest(w.(cat := w'.cat), w');
      SameTaken(w, w');
  }

  lemma SameRest(w: World, w': World)
    requires w'.cat == w.cat && w'.s == w.s && w'.life == w.life && w'.epochs == w.epochs && w'.gone == w.gone &&
             w'.taken == w.taken
    ensures GroupsInv(w) == GroupsInv(w') && GoneInv(w) == GoneInv(w') && TakenInv(w) == TakenInv(w')
  {
    hide GroupInv, Issued;
    SameTaken(w, w');
  }

  lemma SameTaken(w: World, w': World)
    requires w'.s == w.s && w'.life == w.life && w'.epochs == w.epochs && w'.gone == w.gone && w'.taken == w.taken
    ensures GoneInv(w) == GoneInv(w') && TakenInv(w) == TakenInv(w')
  {
    hide Issued, Current;
    assert forall t :: TakenAt(w, t) == TakenAt(w', t);
  }

  lemma StepKeeps(cfg: Config, w: World, e: Event, w': World)
    requires Inv(w) && Step(cfg, w, e, w')
    ensures Inv(w')
  {
    hide Inv, JoinStep, HeartbeatStep, LeaveStep, ExpireStep, CommitStep, CommitTaken, Restarted, Shift, Moved, AllOk,
         CommitCode, Stored;
    assert GroupsInv(w) by { GroupsOf(w); }
    InvAllOk(w);
    match e
    case JoinCall(q, now, salt, r) =>
      JoinShifts(cfg, w.cat, w.s, w'.s, q, now, salt, r);
      MovedInv(w, w'.s);
    case HeartbeatCall(id, generation, now, code) =>
      HeartbeatShifts(w.cat, w.s, w'.s, id.group, id.member, generation, now, code);
      MovedInv(w, w'.s);
    case LeaveCall(id, code) =>
      LeaveShifts(w.cat, w.s, w'.s, id.group, id.member, code);
      MovedInv(w, w'.s);
    case ExpireCall(group, now) =>
      ExpireShifts(w.cat, w.s, w'.s, group, now);
      MovedInv(w, w'.s);
    case CommitCall(id, generation, entries, durable, code) =>
      CommitKeeps(w, id, generation, entries, durable, code, w');
    case Restart(id, generation, entries, kept, marks) =>
      RestartKeeps(w, id, generation, entries, kept, marks, w');
    case _ =>
      LooseKeeps(w, e, w', cfg);
  }

  lemma GroupsOf(w: World)
    requires Inv(w)
    ensures GroupsInv(w)
  {
  }

  // ---- Whole runs ----------------------------------------------------------------------------

  lemma {:induction false} RunKeeps(cfg: Config, ws: seq<World>, es: seq<Event>, n: nat)
    requires Run(cfg, ws, es) && n < |ws|
    ensures Inv(ws[n])
    decreases n
  {
    hide Inv, Step;
    if n == 0 {
      BeginInv(ws[0]);
    } else {
      RunKeeps(cfg, ws, es, n - 1);
      assert Step(cfg, ws[n - 1], es[n - 1], ws[n - 1 + 1]);
      StepKeeps(cfg, ws[n - 1], es[n - 1], ws[n]);
    }
  }

  lemma BeginInv(w: World)
    requires Begin(w)
    ensures Inv(w)
  {
    EmptyGroups(w);
  }

  /** In every reachable state, an empty group is exactly a group in the Empty state. In every other group the members
      hold their shares: each partition of each subscribed topic has exactly one owner, exactly if no topic is named
      twice; no partition has two owners, exactly if the group is fenceable; and loads are balanced. The generation
      counts the membership changes. */
  lemma ReachableGroups(cfg: Config, ws: seq<World>, es: seq<Event>, n: nat, name: bytes)
    requires Run(cfg, ws, es) && n < |ws| && name in ws[n].s.groups
    ensures var g := ws[n].s.groups[name];
            && (g.members == map[] <==> g.state == Empty)
            && GroupOk(ws[n].cat, g) && Catalogued(ws[n].cat, g.topics) && ValidGroupId(name)
            && (OneOwnerEach(g) <==> Fenceable(g))
            && name in ws[n].epochs && g.generation == ws[n].epochs[name] % 0x1_0000_0000
    ensures var g := ws[n].s.groups[name];
            forall order :: g.members != map[] && IsOrder(g, order) ==>
              (Exclusive(Sizes(ws[n].cat, g.topics), order, Assignments(g)) <==> Distinct(g.topics))
    ensures var g := ws[n].s.groups[name];
            forall m1, m2, topic :: m1 in g.members && m2 in g.members ==> Balanced(g, m1, m2, topic)
  {
    hide Step, OneOwnerEach, Fenceable, Issued, Catalogued, Assigned, ValidGroupId, Exclusive, Distinct, IsOrder,
         Balanced;
    RunKeeps(cfg, ws, es, n);
    var cat, g := ws[n].cat, ws[n].s.groups[name];
    OneOwnerExactly(cat, g);
    forall order | g.members != map[] && IsOrder(g, order)
      ensures Exclusive(Sizes(cat, g.topics), order, Assignments(g)) <==> Distinct(g.topics)
    {
      ExclusiveExactly(cat, g, order);
    }
    forall m1, m2, topic | m1 in g.members && m2 in g.members
      ensures Balanced(g, m1, m2, topic)
    {
      GroupBalanced(cat, g, m1, m2, topic);
    }
  }

  /** Fencing: two member commits that took effect in the same coordinator lifetime, for the same group and partition
      and under the same generation, came from the same member, unless the generation number came round after 2^32
      membership changes in between, or the group deals round robin over a topic that it names twice. */
  lemma Fencing(cfg: Config, ws: seq<World>, es: seq<Event>, n: nat, t: Taken, u: Taken)
    requires Run(cfg, ws, es) && n < |ws| && t in ws[n].taken && u in ws[n].taken
    requires t.life == u.life && t.group == u.group && t.tp == u.tp && t.generation == u.generation
    requires t.epoch - 0x1_0000_0000 < u.epoch < t.epoch + 0x1_0000_0000 && t.fenceable
    ensures t.member == u.member
  {
    hide Step, Current;
    RunKeeps(cfg, ws, es, n);
    assert TakenAt(ws[n], t) && TakenAt(ws[n], u);
    SameRemainder(t.epoch, u.epoch);
  }

  /** The condition of `Fencing` cannot be dropped: in every reachable group that is not fenceable, two members can
      commit the same partition under the current generation, one after the other. */
  lemma UnfenceableCommits(cfg: Config, ws: seq<World>, es: seq<Event>, n: nat, name: bytes)
      returns (m1: bytes, m2: bytes, x: TopicPartition)
    requires Run(cfg, ws, es) && n < |ws| && name in ws[n].s.groups && !Fenceable(ws[n].s.groups[name])
    requires forall t, p: uint16 :: t in ws[n].cat && p < ws[n].cat[t] ==> TopicPartition(t, p) in ws[n].marks
    ensures m1 != m2
    ensures var w := ws[n];
            forall m :: m in {m1, m2} ==>
              CommitCode(w.cat, w.marks, w.s, name, m, w.s.groups[name].generation, [Entry(x, 0)]) == 0
  {
    hide Step, GoneInv, TakenInv, CommittedInv, GroupOk, Distinct, OneOwnerEach, CommitCode;
    RunKeeps(cfg, ws, es, n);
    var w := ws[n];
    m1, m2, x := RoundRobinGroupTwoOwners(w.cat, w.s.groups[name]);
    assert x == TopicPartition(x.topic, x.partition);
    HolderCommits(w, name, m1, x);
    HolderCommits(w, name, m2, x);
  }

  lemma HolderCommits(w: World, name: bytes, m: bytes, x: TopicPartition)
    requires name in w.s.groups && m in w.s.groups[name].members && Issued(name, w.s.counter, m)
    requires x in w.s.groups[name].members[m].assignment && x in w.marks
    requires !Reserved(x.topic) && x.topic in w.cat && x.partition < w.cat[x.topic]
    ensures CommitCode(w.cat, w.marks, w.s, name, m, w.s.groups[name].generation, [Entry(x, 0)]) == 0
  {
    hide Issued;
    IssuedNonEmpty(name, w.s.counter, m);
    var es := [Entry(x, 0)];
    assert es[1..] == [] && es[0].tp == x;
    assert EntriesRefusal(w.cat, es[1..]) == 0;
    assert EntriesRefusal(w.cat, es) == 0;
    assert AllHeld(w.s.groups[name].members[m].assignment, es);
    assert WithinLog(w.marks, es);
  }

  lemma SameRemainder(a: nat, b: nat)
    requires a % 0x1_0000_0000 == b % 0x1_0000_0000 && a - 0x1_0000_0000 < b < a + 0x1_0000_0000
    ensures a == b
  {
  }

  /** Whether an operation in a member's name is turned down. */
  ghost predicate TurnsDown(e: Event, id: Id) {
    match e
    case JoinCall(q, _, _, r) => q.group == id.group && q.member == id.member ==> r.Refused?
    case HeartbeatCall(caller, _, _, code) => caller == id ==> code == UNKNOWN_MEMBER
    case LeaveCall(caller, code) => caller == id ==> code == UNKNOWN_MEMBER
    case CommitCall(caller, _, _, _, code) => caller == id ==> code != 0
    case _ => true
  }

  lemma GoneTurnsDown(cfg: Config, w: World, e: Event, w': World, id: Id)
    requires Inv(w) && Step(cfg, w, e, w') && id in w.gone
    ensures TurnsDown(e, id)
  {
    hide GroupsInv, TakenInv, CommittedInv, EntriesRefusal, JoinStep, Rebalanced, Moved, Restarted, CommitTaken,
         ExpireStep, Stored;
    IssuedNonEmpty(id.group, w.s.counter, id.member);
    assert id.member !in Members(w.s, id.group);
    match e
    case JoinCall(q, now, salt, r) =>
      if q.group == id.group && q.member == id.member {
        GoneJoin(cfg, w, w', q, now, salt, r, id);
      }
    case _ =>
  }

  lemma GoneJoin(cfg: Config, w: World, w': World, q: JoinRequest, now: int, salt: uint16, r: JoinResult, id: Id)
    requires id.member != [] && id.member !in Members(w.s, id.group)
    requires JoinStep(cfg, w.cat, w.s, w'.s, q, now, salt, r) && q.group == id.group && q.member == id.member
    ensures r.Refused?
  {
    hide JoinRefusal, JoinNew;
  }

  lemma IssuedNonEmpty(group: bytes, counter: nat, member: bytes)
    requires Issued(group, counter, member)
    ensures member != []
  {
    hide Padded, Hex4;
    var c: nat, salt: uint16 :| c < counter && member == MemberId(group, c, salt);
    assert |member| >= 1;
  }

  lemma {:induction false} GoneStays(cfg: Config, ws: seq<World>, es: seq<Event>, i: nat, j: nat, id: Id)
    requires Run(cfg, ws, es) && i <= j < |ws| && id in ws[i].gone
    requires forall k :: i <= k < j ==> !es[k].Restart?
    ensures id in ws[j].gone
    decreases j
  {
    hide JoinStep, HeartbeatStep, LeaveStep, ExpireStep, CommitStep, CommitTaken, Restarted, CommitCode, Stored;
    if i < j {
      GoneStays(cfg, ws, es, i, j - 1, id);
      assert Step(cfg, ws[j - 1], es[j - 1], ws[j - 1 + 1]);
    }
  }

  /** Once a member has left or been expired, no rejoin, heartbeat, leave or commit in its name succeeds for the rest
      of the coordinator's life. */
  lemma GoneForGood(cfg: Config, ws: seq<World>, es: seq<Event>, i: nat, j: nat, id: Id)
    requires Run(cfg, ws, es) && i <= j < |es| && id in ws[i].gone
    requires forall k :: i <= k < j ==> !es[k].Restart?
    ensures TurnsDown(es[j], id)
  {
    hide Inv, Step, TurnsDown;
    RunKeeps(cfg, ws, es, j);
    GoneStays(cfg, ws, es, i, j, id);
    assert Step(cfg, ws[j], es[j], ws[j + 1]);
    GoneTurnsDown(cfg, ws[j], es[j], ws[j + 1], id);
  }

  /** Whoever departs in a step is recorded as gone: leaving and expiry are the only ways out. */
  lemma DepartureRecorded(cfg: Config, w: World, e: Event, w': World, group: bytes, m: bytes)
    requires Step(cfg, w, e, w') && !e.Restart? && m in Members(w.s, group) && m !in Members(w'.s, group)
    ensures Id(group, m) in w'.gone && (e.LeaveCall? || e.ExpireCall?)
  {
    hide JoinStep, LeaveStep, ExpireStep, HeartbeatStep, CommitStep, CommitCode, CommitTaken, Restarted, Stored;
    match e
    case JoinCall(q, now, salt, r) => JoinKeepsMembers(cfg, w.cat, w.s, w'.s, q, now, salt, r, group, m);
    case HeartbeatCall(id, generation, now, code) => HeartbeatKeepsMembers(w.s, w'.s, id, generation, now, code, group);
    case CommitCall(id, generation, entries, durable, code) =>
      CommitKeepsMembers(w.cat, w.marks, w.s, w'.s, id, generation, entries, durable, code);
    case _ =>
  }

  lemma JoinKeepsMembers(cfg: Config, cat: Catalog, s: State, s': State, q: JoinRequest, now: int, salt: uint16,
                         r: JoinResult,
                         group: bytes, m: bytes)
    requires JoinStep(cfg, cat, s, s', q, now, salt, r) && m in Members(s, group)
    ensures m in Members(s', group)
  {
    hide JoinRefusal, Assigned, MemberId;
  }

  lemma HeartbeatKeepsMembers(s: State, s': State, id: Id, generation: uint32, now: int, code: nat, group: bytes)
    requires HeartbeatStep(s, s', id.group, id.member, generation, now, code)
    ensures Members(s', group) == Members(s, group)
  {
  }

  lemma CommitKeepsMembers(cat: Catalog, marks: Watermarks, s: State, s': State, id: Id, generation: uint32,
                           entries: seq<Entry>, durable: bool, code: nat)
    requires CommitStep(cat, marks, s, s', id.group, id.member, generation, entries, durable, code)
    ensures s'.groups == s.groups
  {
  }

  /** Every committed offset stays at most its partition's next offset, through appends, commits and crashes. */
  lemma CommittedWithinLog(cfg: Config, ws: seq<World>, es: seq<Event>, n: nat, k: CommitKey)
    requires Run(cfg, ws, es) && n < |ws| && k in ws[n].s.committed
    ensures k.tp in ws[n].marks && ws[n].s.committed[k] <= ws[n].marks[k.tp]
  {
    hide Step, GroupsInv, TakenInv, GoneInv;
    RunKeeps(cfg, ws, es, n);
  }
}
