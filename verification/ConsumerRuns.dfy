/** What holds over every history of client loops: committed offsets and processed records. */
module ConsumerRuns {
  import opened Bytes
  import opened Text
  import opened Assignor
  import opened GroupModel
  import opened GroupRuns
  import opened ConsumerModel

  // ---- The invariant -------------------------------------------------------------------------

  /** A client's hold on a partition, in the form of a commit made in the epoch of its join. */
  function Claim(c: Client, p: uint16): Taken {
    Taken(c.life, c.group, c.epoch, c.generation, Tp(c, p), c.member, true)
  }

  ghost predicate IsCurrent(v: View, c: Client) {
    c.life == v.w.life && c.group in v.w.epochs && c.epoch == v.w.epochs[c.group]
  }

  ghost predicate Shape(c: Client) {
    && c.unc.Keys <= c.pos.Keys <= c.parts && c.asked <= c.parts && c.asked !! c.pos.Keys
    && (forall p :: p in c.unc ==> c.unc[p] == c.pos[p])
    && c.epoch < 0xFFFF_FFFF
  }

  ghost predicate InLog(v: View, c: Client) {
    && (forall p :: p in c.pos ==> Tp(c, p) in v.w.marks && c.pos[p] <= v.w.marks[Tp(c, p)])
    && (c.left > 0 ==> c.at in c.pos && c.pos[c.at] + c.left <= v.w.marks[Tp(c, c.at)])
  }

  ghost predicate Claims(w: World, c: Client) {
    forall p :: p in c.parts ==> TakenAt(w, Claim(c, p))
  }

  ghost predicate Named(v: View, c: Client) {
    && c.life <= v.w.life
    && (c.member != [] ==>
      if c.life == v.w.life then Issued(c.group, v.w.s.counter, c.member) else MeId(c) in v.former)
  }

  /** Nothing beyond the client's positions has been committed in its epoch. */
  ghost predicate Ahead(v: View, c: Client) {
    IsCurrent(v, c) ==>
      && (forall p :: p in c.pos && Key(c, p) in v.w.s.committed && LateOn(c, p) !in v.late ==>
        v.w.s.committed[Key(c, p)] <= c.pos[p])
      && (forall p :: p in c.asked && LateOn(c, p) !in v.late ==> Key(c, p) !in v.w.s.committed)
  }

  function LateOn(c: Client, p: uint16): Late {
    Late(Spot(c.life, c.group, c.epoch), Tp(c, p))
  }

  ghost predicate ClientInv(v: View, c: Client) {
    Shape(c) && InLog(v, c) && Claims(v.w, c) && Named(v, c) && Ahead(v, c)
  }

  ghost predicate SameLoop(c: Client, d: Client) {
    c.member != [] && c.group == d.group && c.life == d.life && c.member == d.member
  }

  ghost predicate OneLoopPerId(v: View) {
    forall i, j :: i in v.clients && j in v.clients && i != j ==> !SameLoop(v.clients[i], v.clients[j])
  }

  ghost predicate FormerInv(v: View) {
    forall id :: id in v.former ==> id.member !in Members(v.w.s, id.group)
  }

  ghost predicate EarliestInv(v: View) {
    forall tp :: tp in v.earliest ==>
      tp in v.w.marks && v.earliest[tp] <= v.w.marks[tp] && tp in v.dropped && v.earliest[tp] <= v.dropped[tp]
  }

  ghost predicate ViewInv(v: View) {
    && Inv(v.w) && OneLoopPerId(v) && FormerInv(v) && EarliestInv(v)
    && forall i :: i in v.clients ==> ClientInv(v, v.clients[i])
  }

  // ---- What coordinator steps do to claims -----------------------------------------------------

  lemma ClaimStays(cfg: Config, w: World, e: Event, w': World, t: Taken)
    requires Inv(w) && Step(cfg, w, e, w') && TakenAt(w, t)
    ensures TakenAt(w', t)
  {
    hide JoinStep, HeartbeatStep, LeaveStep, ExpireStep, CommitStep, CommitTaken, CommitCode, Stored, Current, Shift,
         AllOk, GroupsInv;
    GroupsOf(w);
    InvAllOk(w);
    match e
    case JoinCall(q, now, salt, r) =>
      JoinShifts(cfg, w.cat, w.s, w'.s, q, now, salt, r);
      MovedTaken(w, w'.s, t);
    case HeartbeatCall(id, generation, now, code) =>
      HeartbeatShifts(w.cat, w.s, w'.s, id.group, id.member, generation, now, code);
      MovedTaken(w, w'.s, t);
    case LeaveCall(id, code) =>
      LeaveShifts(w.cat, w.s, w'.s, id.group, id.member, code);
      MovedTaken(w, w'.s, t);
    case ExpireCall(group, now) =>
      ExpireShifts(w.cat, w.s, w'.s, group, now);
      MovedTaken(w, w'.s, t);
    case CommitCall(id, generation, entries, durable, code) =>
      CommitKeepsMembers(w.cat, w.marks, w.s, w'.s, id, generation, entries, durable, code);
      SameTakenAt(w, w', t);
    case Restart(_, _, _, _, _) =>
    case _ => SameTakenAt(w, w', t);
  }

  lemma ClaimsStay(cfg: Config, w: World, e: Event, w': World, c: Client)
    requires Inv(w) && Step(cfg, w, e, w') && Claims(w, c)
    ensures Claims(w', c)
  {
    hide Step, Inv, TakenAt;
    forall p | p in c.parts
      ensures TakenAt(w', Claim(c, p))
    {
      ClaimStays(cfg, w, e, w', Claim(c, p));
    }
  }

  /** What the background does not touch. */
  ghost predicate Calm(w: World, w': World) {
    && w'.s.committed == w.s.committed && w'.life == w.life && w.s.counter <= w'.s.counter
    && Grown(w.marks, w'.marks)
    && forall g :: g in w.epochs ==> g in w'.epochs && w.epochs[g] <= w'.epochs[g]
  }

  lemma MovedCalm(w: World, s': State)
    requires GroupsInv(w) && Shift(w.cat, w.s, s')
    ensures Calm(w, Moved(w, s'))
  {
    hide GroupInv, Shifts, Issued;
  }

  lemma BackgroundCalm(cfg: Config, w: World, e: Event, w': World)
    requires Inv(w) && Background(e) && Step(cfg, w, e, w')
    ensures Calm(w, w')
  {
    hide JoinStep, HeartbeatStep, LeaveStep, ExpireStep, CommitStep, CommitTaken, CommitCode, Stored, Shift, AllOk,
         GroupsInv, Moved, Inv;
    GroupsOf(w);
    InvAllOk(w);
    match e
    case JoinCall(q, now, salt, r) =>
      JoinShifts(cfg, w.cat, w.s, w'.s, q, now, salt, r);
      MovedCalm(w, w'.s);
    case HeartbeatCall(id, generation, now, code) =>
      HeartbeatShifts(w.cat, w.s, w'.s, id.group, id.member, generation, now, code);
      MovedCalm(w, w'.s);
    case LeaveCall(id, code) =>
      LeaveShifts(w.cat, w.s, w'.s, id.group, id.member, code);
      MovedCalm(w, w'.s);
    case ExpireCall(group, now) =>
      ExpireShifts(w.cat, w.s, w'.s, group, now);
      MovedCalm(w, w'.s);
    case _ =>
  }

  /** Only a join brings in a member, and only the one it replies to. */
  lemma NewcomerIsJoiner(cfg: Config, w: World, e: Event, w': World, group: bytes, m: bytes)
    requires Inv(w) && Background(e) && Step(cfg, w, e, w') && m in Members(w'.s, group) && m !in Members(w.s, group)
    ensures e.JoinCall? && e.joinReply.Joined? && e.q.member == [] && e.q.group == group && e.joinReply.member == m
  {
    hide JoinStep, HeartbeatStep, LeaveStep, ExpireStep, CommitStep, CommitTaken, CommitCode, Stored, Shift, AllOk,
         GroupsInv, Inv;
    GroupsOf(w);
    InvAllOk(w);
    match e
    case JoinCall(q, now, salt, r) => JoinNewcomer(cfg, w.cat, w.s, w'.s, q, now, salt, r, group, m);
    case HeartbeatCall(id, generation, now, code) => HeartbeatKeepsMembers(w.s, w'.s, id, generation, now, code, group);
    case LeaveCall(id, code) => LeaveNewcomer(w.cat, w.s, w'.s, id.group, id.member, code, group);
    case ExpireCall(g, now) => ExpireNewcomer(w.cat, w.s, w'.s, g, now, group);
    case _ =>
  }

  lemma LeaveNewcomer(cat: Catalog, s: State, s': State, group: bytes, member: bytes, code: nat, other: bytes)
    requires LeaveStep(cat, s, s', group, member, code)
    ensures Members(s', other) <= Members(s, other)
  {
    hide Assigned;
  }

  lemma ExpireNewcomer(cat: Catalog, s: State, s': State, group: bytes, now: int, other: bytes)
    requires ExpireStep(cat, s, s', group, now)
    ensures Members(s', other) <= Members(s, other)
  {
    hide Assigned;
  }

  lemma JoinNewcomer(cfg: Config, cat: Catalog, s: State, s': State, q: JoinRequest, now: int, salt: uint16,
                     r: JoinResult,
                     group: bytes, m: bytes)
    requires JoinStep(cfg, cat, s, s', q, now, salt, r) && m in Members(s', group) && m !in Members(s, group)
    ensures r.Joined? && q.member == [] && q.group == group && r.member == m && m == MemberId(group, s.counter, salt)
  {
    hide JoinRefusal, Assigned, MemberId;
  }

  // ---- Background steps ------------------------------------------------------------------------

  /** A session with partitions that is current now was current before. */
  lemma CurrentBefore(v: View, v': View, c: Client, p: uint16)
    requires Calm(v.w, v'.w) && Claims(v.w, c) && p in c.parts && IsCurrent(v', c)
    ensures IsCurrent(v, c)
  {
    assert TakenAt(v.w, Claim(c, p));
  }

  lemma CalmAhead(v: View, v': View, c: Client)
    requires Calm(v.w, v'.w) && v'.late == v.late && Shape(c) && Claims(v.w, c) && Ahead(v, c)
    ensures Ahead(v', c)
  {
    hide Claims, IsCurrent;
    if IsCurrent(v', c) && c.parts != {} {
      var p :| p in c.parts;
      CurrentBefore(v, v', c, p);
    }
  }

  lemma CalmNamed(v: View, v': View, c: Client)
    requires v'.w.life == v.w.life && v.w.s.counter <= v'.w.s.counter && v.former <= v'.former && Named(v, c)
    ensures Named(v', c)
  {
    hide Issued;
    if c.member != [] && c.life == v.w.life {
      IssuedMore(c.group, v.w.s.counter, v'.w.s.counter, c.member);
    }
  }

  lemma CalmClient(cfg: Config, v: View, e: Event, v': View, c: Client)
    requires Inv(v.w) && Background(e) && Step(cfg, v.w, e, v'.w) && v'.late == v.late && v'.former == v.former
    requires ClientInv(v, c)
    ensures ClientInv(v', c)
  {
    hide Step, Inv, Claims, Ahead, Named, IsCurrent;
    BackgroundCalm(cfg, v.w, e, v'.w);
    ClaimsStay(cfg, v.w, e, v'.w, c);
    CalmAhead(v, v', c);
    CalmNamed(v, v', c);
  }

  lemma BackgroundFormer(cfg: Config, v: View, e: Event, v': View)
    requires Inv(v.w) && FormerInv(v) && Background(e) && Step(cfg, v.w, e, v'.w) && NewId(v, e) &&
             v'.former == v.former
    ensures FormerInv(v')
  {
    hide Step, Inv;
    forall id | id in v'.former && id.member in Members(v'.w.s, id.group)
      ensures false
    {
      NewcomerIsJoiner(cfg, v.w, e, v'.w, id.group, id.member);
    }
  }

  lemma OthersKeep(cfg: Config, v: View, e: Event, v': View)
    requires ViewInv(v) && Background(e) && Step(cfg, v.w, e, v'.w) && NewId(v, e) && v' == v.(w := v'.w)
    ensures ViewInv(v')
  {
    hide Step, Inv, ClientInv, FormerInv;
    StepKeeps(cfg, v.w, e, v'.w);
    BackgroundFormer(cfg, v, e, v');
    BackgroundCalm(cfg, v.w, e, v'.w);
    forall i | i in v'.clients
      ensures ClientInv(v', v'.clients[i])
    {
      CalmClient(cfg, v, e, v', v.clients[i]);
    }
  }

  // ---- Joining -----------------------------------------------------------------------------

  lemma JoinedFacts(cfg: Config, cat: Catalog, s: State, s': State, q: JoinRequest, now: int, salt: uint16,
                    r: JoinResult)
    requires JoinStep(cfg, cat, s, s', q, now, salt, r) && r.Joined?
    ensures q.group in s'.groups
    ensures var g := s'.groups[q.group];
            && r.member in g.members && g.members[r.member].assignment == r.assignment
            && g.generation == r.generation && g.topics == q.topics
    ensures q.member != [] ==> r.member == q.member && q.member in Members(s, q.group)
    ensures q.member == [] ==> r.member == MemberId(q.group, s.counter, salt)
  {
    hide JoinRefusal, Assigned, MemberId;
  }

  lemma UnknownFacts(cfg: Config, cat: Catalog, s: State, s': State, q: JoinRequest, now: int, salt: uint16,
                     r: JoinResult)
    requires JoinStep(cfg, cat, s, s', q, now, salt, r) && r == Refused(UNKNOWN_MEMBER)
    ensures q.member != [] && q.member !in Members(s', q.group)
  {
    hide Assigned, MemberId;
    TopicCodes(cat, q.topics);
  }

  lemma {:induction false} TopicCodes(cat: Catalog, topics: seq<bytes>)
    ensures TopicsRefusal(cat, topics) in {0, UNKNOWN_TOPIC, INVALID_TOPIC_NAME}
    decreases |topics|
  {
    if topics != [] {
      TopicCodes(cat, topics[1..]);
    }
  }

  /** The only member assignments in a group with one topic are partitions of that topic. */
  lemma OneTopicOnly(cat: Catalog, g: Group, topic: bytes, m: bytes, x: TopicPartition)
    requires GroupOk(cat, g) && Catalogued(cat, g.topics) && g.topics == [topic]
    requires m in g.members && x in g.members[m].assignment
    ensures x.topic == topic
  {
    hide Held, GroupOk, TextLess, Sizes;
    var order := GroupExclusive(cat, g);
    var i :| 0 <= i < |order| && order[i] == m;
    HolderCounts(order, Assignments(g), i, x);
    SizesAll(cat, g.topics);
    assert Wanted(Sizes(cat, g.topics), x);
  }

  lemma JoinClaims(cfg: Config, v: View, e: Event, w': World, c: Client)
    requires Inv(v.w) && Inv(w') && e.JoinCall? && Step(cfg, v.w, e, w') && e.joinReply.Joined?
    requires e.q.group == c.group && e.q.topics == [c.topic]
    ensures Claims(w', AfterJoin(c, e.joinReply, w'))
    ensures c.group in w'.epochs && Issued(c.group, w'.s.counter, e.joinReply.member)
  {
    hide JoinStep, Issued, GroupOk, Catalogued;
    JoinedFacts(cfg, v.w.cat, v.w.s, w'.s, e.q, e.joinTime, e.salt, e.joinReply);
    var c' := AfterJoin(c, e.joinReply, w');
    var g := w'.s.groups[c.group];
    assert GroupInv(w'.cat, w'.s.counter, c.group, g, w'.epochs[c.group]);
    forall p | p in c'.parts
      ensures TakenAt(w', Claim(c', p))
    {
      var x :| x in e.joinReply.assignment && x.partition == p;
      OneTopicOnly(w'.cat, g, c.topic, e.joinReply.member, x);
      assert x == Tp(c', p);
      assert Distinct(g.topics);
    }
  }

  lemma JoinedClient(cfg: Config, v: View, e: Event, v': View, c: Client)
    requires ViewInv(v) && Inv(v'.w) && Bounded(v') && e.JoinCall? && Step(cfg, v.w, e, v'.w) && e.joinReply.Joined?
    requires e.q.group == c.group && e.q.topics == [c.topic]
    ensures ClientInv(v', AfterJoin(c, e.joinReply, v'.w))
  {
    hide Step, Inv, Claims, Issued;
    JoinClaims(cfg, v, e, v'.w, c);
  }

  lemma RefusedClient(cfg: Config, v: View, e: Event, v': View, c: Client)
    requires ViewInv(v) && ClientInv(v', c) && e.JoinCall? && Step(cfg, v.w, e, v'.w)
    requires e.q.group == c.group && e.q.member == c.member && e.joinReply.Refused?
    ensures ClientInv(v', AfterJoin(c, e.joinReply, v'.w))
  {
    hide Inv, Issued, JoinStep;
    var c' := AfterJoin(c, e.joinReply, v'.w);
    if e.joinReply.code == UNKNOWN_MEMBER {
      UnknownFacts(cfg, v.w.cat, v.w.s, v'.w.s, e.q, e.joinTime, e.salt, e.joinReply);
      forall p | p in c'.parts
        ensures TakenAt(v'.w, Claim(c', p))
      {
        assert TakenAt(v'.w, Claim(c, p));
      }
    }
  }

  /** A join never gives one client another client's id. */
  lemma JoinKeepsLoops(cfg: Config, v: View, e: Event, w': World, c: Client, d: Client)
    requires Inv(v.w) && FormerInv(v) && Named(v, c) && Named(v, d) && !SameLoop(c, d)
    requires e.JoinCall? && Step(cfg, v.w, e, w') && e.q.group == c.group && e.q.member == c.member
    ensures !SameLoop(AfterJoin(c, e.joinReply, w'), d) && !SameLoop(d, AfterJoin(c, e.joinReply, w'))
  {
    hide JoinStep, Inv, Issued, MemberId;
    if e.joinReply.Joined? {
      JoinedFacts(cfg, v.w.cat, v.w.s, w'.s, e.q, e.joinTime, e.salt, e.joinReply);
      if e.q.member == [] {
        NewIdUnissued(c.group, v.w.s.counter, e.salt);
      }
    }
  }

  lemma JoinsKeep(cfg: Config, v: View, i: nat, e: Event, v': View)
    requires ViewInv(v) && Bounded(v') && i in v.clients && ClientMove(cfg, v, Joins(i, e), i, v')
    ensures ViewInv(v')
  {
    hide Step, Inv, ClientInv, FormerInv, SameLoop, AfterJoin, Bounded, NewId;
    var c := v.clients[i];
    var mid := v.(w := v'.w);
    OthersKeep(cfg, v, e, mid);
    forall j | j in v.clients && j != i
      ensures !SameLoop(v'.clients[i], v'.clients[j]) && !SameLoop(v'.clients[j], v'.clients[i])
    {
      assert Named(v, c) && Named(v, v.clients[j]) by { NamedOf(v, i); NamedOf(v, j); }
      JoinKeepsLoops(cfg, v, e, v'.w, c, v.clients[j]);
    }
    if e.joinReply.Joined? {
      JoinedClient(cfg, v, e, v', c);
    } else {
      SameView(mid, v', c);
      RefusedClient(cfg, v, e, v', c);
    }
    forall j | j in v.clients && j != i
      ensures ClientInv(v', v'.clients[j])
    {
      SameView(mid, v', v.clients[j]);
    }
    SameFormer(mid, v');
  }

  lemma NamedOf(v: View, i: nat)
    requires ViewInv(v) && i in v.clients
    ensures ClientInv(v, v.clients[i]) && Named(v, v.clients[i])
  {
    hide Named, Claims, Inv;
  }

  lemma SameView(v: View, v': View, c: Client)
    requires v'.w == v.w && v'.former == v.former && v'.late == v.late
    ensures ClientInv(v, c) == ClientInv(v', c)
  {
    hide Claims, Issued;
  }

  lemma SameFormer(v: View, v': View)
    requires v'.w == v.w && v'.former == v.former
    ensures FormerInv(v) == FormerInv(v')
  {
  }

  // ---- Steps inside one client -------------------------------------------------------------------

  predicate Local(m: Move) {
    m.ReadsOffset? || m.Describes? || m.DescribeFails? || m.Fetches? || m.Processes? || m.StopsEarly? || m.Resets?
  }

  /** A step inside one client that keeps its session. */
  lemma LocalKeeps(v: View, i: nat, c': Client, processed: set<Mark>)
    requires ViewInv(v) && i in v.clients
    requires var c := v.clients[i];
             && c'.group == c.group && c'.topic == c.topic && c'.member == c.member && c'.life == c.life &&
                 c'.epoch == c.epoch
             && c'.generation == c.generation && c'.parts == c.parts
    requires Shape(c') && InLog(v, c') && Ahead(v, c')
    ensures ViewInv(With(v, i, c').(processed := processed))
  {
    hide Inv, TakenAt, Issued;
    var v', c := With(v, i, c').(processed := processed), v.clients[i];
    forall j | j in v'.clients && j != i
      ensures ClientInv(v', v'.clients[j])
    {
      SameView(v, v', v.clients[j]);
    }
    forall p | p in c'.parts
      ensures TakenAt(v'.w, Claim(c', p))
    {
      assert Claim(c', p) == Claim(c, p);
    }
    SameView(v, v', c');
    SameFormer(v, v');
  }

  lemma SmallCommitted(v: View, c: Client, p: uint16)
    requires Inv(v.w) && Bounded(v)
    ensures var o := CommittedOffset(v.w.s.committed, c.group, Tp(c, p));
            if Key(c, p) in v.w.s.committed then o == v.w.s.committed[Key(c, p)] else o < 0
  {
    hide GroupsInv, GoneInv, TakenInv;
  }

  /** What is known of one client, apart from its claims and its name. */
  lemma OwnInv(v: View, i: nat)
    requires ViewInv(v) && i in v.clients
    ensures Shape(v.clients[i]) && InLog(v, v.clients[i]) && Ahead(v, v.clients[i]) && EarliestInv(v) && Inv(v.w)
  {
    hide Inv, Shape, InLog, Ahead, Claims, Named, EarliestInv;
    assert ClientInv(v, v.clients[i]);
  }

  lemma ReadKeeps(cfg: Config, v: View, i: nat, p: uint16, v': View)
    requires ViewInv(v) && Bounded(v) && i in v.clients && ClientMove(cfg, v, ReadsOffset(i, p), i, v')
    ensures ViewInv(v')
  {
    hide ViewInv, Shape, InLog, Ahead, AfterRead, Bounded;
    OwnInv(v, i);
    var c := v.clients[i];
    ReadClient(v, c, p);
    LocalKeeps(v, i, AfterRead(v, c, p), v.processed);
    assert v' == With(v, i, AfterRead(v, c, p)).(processed := v.processed);
  }

  lemma ReadClient(v: View, c: Client, p: uint16)
    requires Inv(v.w) && Bounded(v) && Shape(c) && InLog(v, c) && Ahead(v, c) && p in c.parts && p !in c.pos &&
             p !in c.asked
    ensures var c' := AfterRead(v, c, p);
            && Shape(c') && InLog(v, c') && Ahead(v, c')
            && c' == c.(pos := c'.pos, asked := c'.asked)
  {
    hide Inv, Bounded, CommittedOffset, Ahead, InLog, Shape;
    SmallCommitted(v, c, p);
    if Key(c, p) in v.w.s.committed {
      CommittedInLog(v, c, p);
      ReadFound(v, c, p, v.w.s.committed[Key(c, p)]);
    } else {
      ReadMissing(v, c, p);
    }
  }

  lemma ReadFound(v: View, c: Client, p: uint16, offset: uint64)
    requires Shape(c) && InLog(v, c) && Ahead(v, c) && p in c.parts && p !in c.pos && p !in c.asked
    requires Key(c, p) in v.w.s.committed && v.w.s.committed[Key(c, p)] == offset
    requires Tp(c, p) in v.w.marks && offset <= v.w.marks[Tp(c, p)]
    ensures var c' := c.(pos := c.pos[p := offset]);
            Shape(c') && InLog(v, c') && Ahead(v, c')
  {
  }

  lemma ReadMissing(v: View, c: Client, p: uint16)
    requires Shape(c) && InLog(v, c) && Ahead(v, c) && p in c.parts && p !in c.pos && p !in c.asked
    requires Key(c, p) !in v.w.s.committed
    ensures var c' := c.(asked := c.asked + {p});
            Shape(c') && InLog(v, c') && Ahead(v, c')
  {
  }

  lemma CommittedInLog(v: View, c: Client, p: uint16)
    requires Inv(v.w) && Key(c, p) in v.w.s.committed
    ensures Tp(c, p) in v.w.marks && v.w.s.committed[Key(c, p)] <= v.w.marks[Tp(c, p)]
  {
    hide GroupsInv, GoneInv, TakenInv;
  }

  lemma DescribeKeeps(cfg: Config, v: View, i: nat, p: uint16, v': View)
    requires ViewInv(v) && i in v.clients && ClientMove(cfg, v, Describes(i, p), i, v')
    ensures ViewInv(v')
  {
    hide ViewInv, Shape, InLog, Ahead, EarliestInv;
    OwnInv(v, i);
    var c := v.clients[i];
    assert v.earliest[Tp(c, p)] <= v.w.marks[Tp(c, p)] by { BeginsInside(v, Tp(c, p)); }
    DescribeClient(v, c, p, if c.latest then v.w.marks[Tp(c, p)] else v.earliest[Tp(c, p)]);
    LocalKeeps(v, i, v'.clients[i], v.processed);
    assert v' == With(v, i, v'.clients[i]).(processed := v.processed);
  }

  lemma DescribeFailKeeps(cfg: Config, v: View, i: nat, p: uint16, v': View)
    requires ViewInv(v) && i in v.clients && ClientMove(cfg, v, DescribeFails(i, p), i, v')
    ensures ViewInv(v')
  {
    hide ViewInv, Shape, InLog, Ahead, EarliestInv;
    OwnInv(v, i);
    DescribeClient(v, v.clients[i], p, 0);
    LocalKeeps(v, i, v'.clients[i], v.processed);
    assert v' == With(v, i, v'.clients[i]).(processed := v.processed);
  }

  lemma BeginsInside(v: View, tp: TopicPartition)
    requires EarliestInv(v) && tp in v.earliest
    ensures tp in v.w.marks && v.earliest[tp] <= v.w.marks[tp]
  {
  }

  /** Where nothing is committed, a client may begin anywhere in the log. */
  lemma DescribeClient(v: View, c: Client, p: uint16, offset: uint64)
    requires Shape(c) && InLog(v, c) && Ahead(v, c) && p in c.asked
    requires Tp(c, p) in v.w.marks && offset <= v.w.marks[Tp(c, p)]
    ensures var c' := c.(asked := c.asked - {p}, pos := c.pos[p := offset]);
            Shape(c') && InLog(v, c') && Ahead(v, c')
  {
  }

  lemma FetchKeeps(cfg: Config, v: View, i: nat, p: uint16, n: nat, v': View)
    requires ViewInv(v) && i in v.clients && ClientMove(cfg, v, Fetches(i, p, n), i, v')
    ensures ViewInv(v')
  {
    hide ViewInv, Shape, InLog, Ahead, EarliestInv;
    OwnInv(v, i);
    FetchClient(v, v.clients[i], p, n);
    LocalKeeps(v, i, v'.clients[i], v.processed);
    assert v' == With(v, i, v'.clients[i]).(processed := v.processed);
  }

  lemma FetchClient(v: View, c: Client, p: uint16, n: nat)
    requires Shape(c) && InLog(v, c) && Ahead(v, c) && p in c.pos && c.pos[p] + n <= v.w.marks[Tp(c, p)]
    ensures var c' := c.(at := p, left := n);
            Shape(c') && InLog(v, c') && Ahead(v, c')
  {
  }

  lemma ProcessKeeps(cfg: Config, v: View, i: nat, v': View)
    requires ViewInv(v) && i in v.clients && ClientMove(cfg, v, Processes(i), i, v')
    ensures ViewInv(v')
  {
    hide ViewInv, Shape, InLog, Ahead, EarliestInv;
    OwnInv(v, i);
    ProcessClient(v, v.clients[i]);
    LocalKeeps(v, i, v'.clients[i], v'.processed);
    assert v' == With(v, i, v'.clients[i]).(processed := v'.processed);
  }

  lemma ProcessClient(v: View, c: Client)
    requires Shape(c) && InLog(v, c) && Ahead(v, c) && c.left > 0 && c.at in c.pos
    ensures var c' := AfterRecord(c);
            Shape(c') && InLog(v, c') && Ahead(v, c')
    ensures Following(c.pos[c.at]) == c.pos[c.at] + 1
  {
  }

  lemma StopKeeps(cfg: Config, v: View, i: nat, v': View)
    requires ViewInv(v) && i in v.clients && ClientMove(cfg, v, StopsEarly(i), i, v')
    ensures ViewInv(v')
  {
    hide ViewInv, Shape, InLog, Ahead, EarliestInv;
    OwnInv(v, i);
    FetchStops(v, v.clients[i]);
    LocalKeeps(v, i, v'.clients[i], v.processed);
    assert v' == With(v, i, v'.clients[i]).(processed := v.processed);
  }

  lemma FetchStops(v: View, c: Client)
    requires Shape(c) && InLog(v, c) && Ahead(v, c)
    ensures var c' := c.(left := 0);
            Shape(c') && InLog(v, c') && Ahead(v, c')
  {
  }

  /** The reset only ever moves forward, since no position is beyond the end of the log. */
  lemma ResetKeeps(cfg: Config, v: View, i: nat, p: uint16, v': View)
    requires ViewInv(v) && i in v.clients && ClientMove(cfg, v, Resets(i, p), i, v')
    ensures ViewInv(v')
  {
    hide ViewInv, Shape, InLog, Ahead, EarliestInv;
    OwnInv(v, i);
    ResetClient(v, v.clients[i], p);
    LocalKeeps(v, i, v'.clients[i], v.processed);
    assert v' == With(v, i, v'.clients[i]).(processed := v.processed);
  }

  lemma ResetClient(v: View, c: Client, p: uint16)
    requires EarliestInv(v) && Shape(c) && InLog(v, c) && Ahead(v, c) && p in c.pos && HasLog(v, Tp(c, p)) &&
             c.left == 0
    requires c.pos[p] < v.earliest[Tp(c, p)] || c.pos[p] > v.w.marks[Tp(c, p)]
    ensures var c' := c.(pos := c.pos[p := v.earliest[Tp(c, p)]], unc := c.unc[p := v.earliest[Tp(c, p)]]);
            Shape(c') && InLog(v, c') && Ahead(v, c') && c.pos[p] < c'.pos[p]
  {
  }

  lemma LocalMoveKeeps(cfg: Config, v: View, m: Move, v': View)
    requires ViewInv(v) && Bounded(v) && Local(m) && m.i in v.clients && ClientMove(cfg, v, m, m.i, v')
    ensures ViewInv(v')
  {
    hide ViewInv, Bounded, ClientMove;
    match m
    case ReadsOffset(i, p) => ReadKeeps(cfg, v, i, p, v');
    case Describes(i, p) => DescribeKeeps(cfg, v, i, p, v');
    case DescribeFails(i, p) => DescribeFailKeeps(cfg, v, i, p, v');
    case Fetches(i, p, n) => FetchKeeps(cfg, v, i, p, n, v');
    case Processes(i) => ProcessKeeps(cfg, v, i, v');
    case StopsEarly(i) => StopKeeps(cfg, v, i, v');
    case Resets(i, p) => ResetKeeps(cfg, v, i, p, v');
  }

  // ---- Commits -----------------------------------------------------------------------------

  lemma {:induction false} StoredValue(c: map<CommitKey, uint64>, group: bytes, entries: seq<Entry>, key: CommitKey)
    ensures var c' := Stored(c, group, entries);
            && (key in c ==> key in c')
            && (key in c' ==>
              || (key in c && c'[key] == c[key])
              || (key.group == group &&
                  exists i :: 0 <= i < |entries| && entries[i].tp == key.tp && entries[i].offset == c'[key]))
    decreases |entries|
  {
    if entries != [] {
      var c1 := c[CommitKey(group, entries[0].tp) := entries[0].offset];
      StoredValue(c1, group, entries[1..], key);
      assert forall i :: 0 <= i < |entries[1..]| ==> entries[1..][i] == entries[i + 1];
    }
  }

  lemma {:induction false} EntriesBelowAre(c: Client, n: nat, i: nat)
    requires n <= 0x1_0000 && i < |EntriesBelow(c, n)|
    ensures var e := EntriesBelow(c, n)[i];
            e.tp.topic == c.topic && e.tp.partition in c.unc && e.offset == c.unc[e.tp.partition]
    decreases n
  {
    if n > 0 && i < |EntriesBelow(c, n - 1)| {
      EntriesBelowAre(c, n - 1, i);
    }
  }

  /** A commit by a client changes a key only to the client's own position. */
  lemma ClientStores(before: map<CommitKey, uint64>, c: Client, kept: nat, key: CommitKey)
    requires kept <= |Entries(c)|
    ensures var after := Stored(before, c.group, Entries(c)[..kept]);
            && (key in before ==> key in after)
            && (key in after && (key !in before || after[key] != before[key]) ==>
              key.tp.partition in c.unc && key == Key(c, key.tp.partition) && after[key] == c.unc[key.tp.partition])
  {
    hide Entries, Stored;
    var es := Entries(c)[..kept];
    var after := Stored(before, c.group, es);
    StoredValue(before, c.group, es, key);
    if key in after && (key !in before || after[key] != before[key]) {
      var i :| 0 <= i < |es| && es[i].tp == key.tp && es[i].offset == after[key];
      assert es[i] == Entries(c)[i];
      EntriesAre(c, i);
    }
  }

  lemma EntriesAre(c: Client, i: nat)
    requires i < |Entries(c)|
    ensures var e := Entries(c)[i];
            e.tp.topic == c.topic && e.tp.partition in c.unc && e.offset == c.unc[e.tp.partition]
  {
    hide EntriesBelow;
    EntriesBelowAre(c, 0x1_0000, i);
  }

  /** A client whose commit passes the checks is in the group's current epoch. */
  lemma AcceptedIsCurrent(v: View, c: Client, entries: seq<Entry>)
    requires Inv(v.w) && Bounded(v) && FormerInv(v) && Shape(c) && Claims(v.w, c) && Named(v, c) && c.unc != map[]
    requires CommitCode(v.w.cat, v.w.marks, v.w.s, c.group, c.member, c.generation, entries) == 0
    ensures IsCurrent(v, c) && c.member != []
  {
    hide CommitCode, GoneInv, TakenInv, CommittedInv, GroupOk, Catalogued, Issued, AllHeld, WithinLog;
    var p :| p in c.unc;
    assert TakenAt(v.w, Claim(c, p));
    AcceptedOwner(v.w, MeId(c), c.generation, entries);
    SmallGeneration(c.epoch);
    IssuedOf(v.w, c.group, c.member);
    assert c.member in Members(v.w.s, c.group);
    SmallGeneration(v.w.epochs[c.group]);
  }

  lemma SmallGeneration(epoch: nat)
    requires epoch < 0xFFFF_FFFF
    ensures epoch % 0x1_0000_0000 == epoch
  {
  }

  lemma IssuedOf(w: World, group: bytes, member: bytes)
    requires Inv(w) && group in w.s.groups && member in w.s.groups[group].members
    ensures member != [] && group in w.epochs && w.s.groups[group].generation == w.epochs[group] % 0x1_0000_0000
  {
    hide GoneInv, TakenInv, CommittedInv, GroupOk, Catalogued, Issued;
    assert GroupInv(w.cat, w.s.counter, group, w.s.groups[group], w.epochs[group]);
    IssuedNonEmpty(group, w.s.counter, member);
  }

  /** Two clients that are current in the same epoch and claim the same partition are the same client. */
  lemma SameClaimant(v: View, i: nat, j: nat, p: uint16)
    requires ViewInv(v) && i in v.clients && j in v.clients
    requires var c, d := v.clients[i], v.clients[j];
             && c.group == d.group && c.topic == d.topic && p in c.parts && p in d.parts && c.member != []
             && IsCurrent(v, c) && IsCurrent(v, d)
    ensures i == j
  {
    hide Issued, Current, GroupInv, GoneInv, TakenInv, CommittedInv;
    var c, d := v.clients[i], v.clients[j];
    assert ClientInv(v, c) && ClientInv(v, d);
    assert TakenAt(v.w, Claim(c, p)) && TakenAt(v.w, Claim(d, p));
    GroupsOf(v.w);
    CurrentOwner(v.w, Claim(c, p), Claim(d, p));
  }

  /** The world after a commit differs in the committed offsets and in what was taken only. */
  lemma CommitOnly(cfg: Config, w: World, id: Id, generation: uint32, entries: seq<Entry>, durable: bool, code: nat,
                   w': World)
    requires Step(cfg, w, CommitCall(id, generation, entries, durable, code), w')
    ensures w' == w.(s := w.s.(committed := w'.s.committed), taken := w'.taken)
    ensures code != 0 ==> w' == w
    ensures code == 0 <==>
            durable && CommitCode(w.cat, w.marks, w.s, id.group, id.member, generation, entries) == 0
    ensures code == 0 ==> w'.s.committed == Stored(w.s.committed, id.group, entries)
  {
    hide CommitCode, Stored, CommitTaken;
  }

  /** After a commit, a client is as it was, except for what is committed. */
  lemma CommitClient(cfg: Config, v: View, e: Event, v': View, d: Client)
    requires Inv(v.w) && ClientInv(v, d) && e.CommitCall? && Step(cfg, v.w, e, v'.w) && v'.former == v.former
    requires Ahead(v', d)
    ensures ClientInv(v', d)
  {
    hide Step, Inv, Claims, Ahead, Issued;
    ClaimsStay(cfg, v.w, e, v'.w, d);
    CommitOnly(cfg, v.w, e.committer, e.commitGeneration, e.entries, e.durable, e.commitCode, v'.w);
  }

  ghost predicate CommitOf(v: View, i: nat, v': View)
    requires i in v.clients
  {
    && IsCurrent(v, v.clients[i]) && v.clients[i].member != []
    && v'.w == v.w.(s := v.w.s.(committed := v'.w.s.committed), taken := v'.w.taken) && v'.late == v.late
    && v'.w.s.committed == Stored(v.w.s.committed, v.clients[i].group, Entries(v.clients[i]))
  }

  /** What a current client's commit does to a partition of another current client: nothing. */
  lemma CommitReaches(v: View, v': View, i: nat, j: nat, p: uint16)
    requires ViewInv(v) && i in v.clients && j in v.clients && CommitOf(v, i, v')
    requires IsCurrent(v, v.clients[j]) && p in v.clients[j].parts
    ensures var key, before, after := Key(v.clients[j], p), v.w.s.committed, v'.w.s.committed;
            key in after && (key !in before || after[key] != before[key]) ==>
              i == j && p in v.clients[i].unc && after[key] == v.clients[i].unc[p]
  {
    hide ViewInv, Stored, Entries, InLog, IsCurrent, Ahead;
    var c, d := v.clients[i], v.clients[j];
    var key, before, after := Key(d, p), v.w.s.committed, v'.w.s.committed;
    assert Entries(c)[..|Entries(c)|] == Entries(c);
    ClientStores(before, c, |Entries(c)|, key);
    if key in after && (key !in before || after[key] != before[key]) {
      OwnInv(v, i);
      SameClaimant(v, i, j, p);
    }
  }

  /** A current client's commit leaves nobody behind. */
  lemma CommitAhead(v: View, v': View, i: nat, j: nat)
    requires ViewInv(v) && i in v.clients && j in v.clients && CommitOf(v, i, v')
    ensures Ahead(v', v.clients[j])
  {
    hide ViewInv, Stored, Entries, InLog, CommitOf;
    var d := v.clients[j];
    OwnInv(v, j);
    assert IsCurrent(v', d) ==> IsCurrent(v, d) by { SameCurrent(v, v', i, d); }
    if IsCurrent(v', d) {
      assert v'.late == v.late by { SameCurrent(v, v', i, d); }
      forall p | p in d.pos && Key(d, p) in v'.w.s.committed && LateOn(d, p) !in v'.late
        ensures v'.w.s.committed[Key(d, p)] <= d.pos[p]
      {
        CommitReaches(v, v', i, j, p);
      }
      forall p | p in d.asked && LateOn(d, p) !in v'.late
        ensures Key(d, p) !in v'.w.s.committed
      {
        CommitReaches(v, v', i, j, p);
      }
    }
  }

  lemma SameCurrent(v: View, v': View, i: nat, d: Client)
    requires i in v.clients && CommitOf(v, i, v')
    ensures IsCurrent(v', d) == IsCurrent(v, d) && v'.late == v.late
  {
    hide Stored, Entries;
  }

  lemma CommitsKeep(cfg: Config, v: View, i: nat, durable: bool, code: nat, heard: bool, v': View)
    requires ViewInv(v) && Bounded(v) && i in v.clients && ClientMove(cfg, v, Commits(i, durable, code, heard), i, v')
    ensures ViewInv(v')
  {
    hide Step, Inv, ClientInv, FormerInv, OneLoopPerId, Bounded, Entries, Stored, CommitCode;
    var c := v.clients[i];
    var e := CommitCall(MeId(c), c.generation, Entries(c), durable, code);
    CommitOnly(cfg, v.w, MeId(c), c.generation, Entries(c), durable, code, v'.w);
    if code == 0 {
      StepKeeps(cfg, v.w, e, v'.w);
      CommitterCurrent(v, i);
      assert CommitOf(v, i, v');
      forall j | j in v.clients
        ensures ClientInv(v', v.clients[j])
      {
        hide CommitOf;
        CommitAhead(v, v', i, j);
        CommitClient(cfg, v, e, v', v.clients[j]);
      }
      Cleared(v', c);
      SameLoops(v, v');
    } else {
      assert v.clients[i := c] == v.clients;
      assert v' == v;
    }
  }

  lemma CommitterCurrent(v: View, i: nat)
    requires ViewInv(v) && Bounded(v) && i in v.clients && v.clients[i].unc != map[]
    requires var c := v.clients[i];
             CommitCode(v.w.cat, v.w.marks, v.w.s, c.group, c.member, c.generation, Entries(c)) == 0
    ensures IsCurrent(v, v.clients[i]) && v.clients[i].member != []
  {
    hide CommitCode, Entries, Inv, Shape, Claims, Named, InLog, Ahead, IsCurrent, Bounded, OneLoopPerId, FormerInv;
    assert ClientInv(v, v.clients[i]);
    AcceptedIsCurrent(v, v.clients[i], Entries(v.clients[i]));
  }

  lemma Cleared(v: View, c: Client)
    requires ClientInv(v, c)
    ensures ClientInv(v, c.(unc := map[]))
  {
    hide TakenAt, Issued;
    var c' := c.(unc := map[]);
    forall p | p in c'.parts
      ensures TakenAt(v.w, Claim(c', p))
    {
      assert Claim(c', p) == Claim(c, p);
    }
  }

  /** The names of the clients and of the members are as before. */
  lemma SameLoops(v: View, v': View)
    requires v'.clients.Keys == v.clients.Keys && v'.former == v.former && v'.w.s.groups == v.w.s.groups
    requires forall j :: j in v.clients ==>
               && v'.clients[j].group == v.clients[j].group && v'.clients[j].life == v.clients[j].life
               && v'.clients[j].member == v.clients[j].member
    ensures OneLoopPerId(v) ==> OneLoopPerId(v')
    ensures FormerInv(v) ==> FormerInv(v')
  {
  }

  // ---- Late commits, restarts and the rest -------------------------------------------------------

  lemma LateAhead(v: View, v': View, group: bytes, entries: seq<Entry>, d: Client)
    requires Ahead(v, d)
    requires v'.w == v.w.(s := v.w.s.(committed := Stored(v.w.s.committed, group, entries)), taken := v'.w.taken)
    requires v'.late == v.late + Landed(SpotNow(v.w, group), entries)
    ensures Ahead(v', d)
  {
    hide Stored, Landed;
    if IsCurrent(v', d) {
      forall p: uint16 | LateOn(d, p) !in v'.late
        ensures Key(d, p) in v'.w.s.committed ==>
                  Key(d, p) in v.w.s.committed && v'.w.s.committed[Key(d, p)] == v.w.s.committed[Key(d, p)]
      {
        StoredValue(v.w.s.committed, group, entries, Key(d, p));
        LandedHas(SpotNow(v.w, group), entries);
      }
    }
  }

  lemma LandedHas(spot: Spot, entries: seq<Entry>)
    ensures forall i :: 0 <= i < |entries| ==> Late(spot, entries[i].tp) in Landed(spot, entries)
  {
  }

  lemma LateKeeps(cfg: Config, v: View, k: nat, durable: bool, code: nat, v': View)
    requires ViewInv(v) && Acts(cfg, v, LateCommit(k, durable, code), v')
    ensures ViewInv(v')
  {
    hide Step, Inv, ClientInv, FormerInv, OneLoopPerId, Stored, CommitCode, Ahead;
    var r := v.pending[k];
    var e := CommitCall(r.id, r.generation, r.entries, durable, code);
    CommitOnly(cfg, v.w, r.id, r.generation, r.entries, durable, code, v'.w);
    SameLoops(v, v');
    if code == 0 {
      StepKeeps(cfg, v.w, e, v'.w);
      forall j | j in v.clients
        ensures ClientInv(v', v.clients[j])
      {
        assert Ahead(v, v.clients[j]) by { OwnInv(v, j); }
        LateAhead(v, v', r.id.group, r.entries, v.clients[j]);
        CommitClient(cfg, v, e, v', v.clients[j]);
      }
    } else {
      forall j | j in v.clients
        ensures ClientInv(v', v.clients[j])
      {
        SameView(v, v', v.clients[j]);
      }
    }
  }

  lemma RestartClient(cfg: Config, v: View, e: Event, v': View, c: Client)
    requires Inv(v.w) && ClientInv(v, c) && e.Restart? && Step(cfg, v.w, e, v'.w)
    requires MeId(c) in v'.former
    ensures ClientInv(v', c)
  {
    hide Inv, Claims, CommitTaken, CommitCode, Stored, Issued;
    ClaimsStay(cfg, v.w, e, v'.w, c);
  }

  lemma RestartsKeep(cfg: Config, v: View, cut: Cut, kept: nat, marks: Watermarks, back: Watermarks, v': View)
    requires ViewInv(v) && RestartMove(cfg, v, cut, kept, marks, back, v')
    ensures ViewInv(v')
  {
    hide Step, Inv, ClientInv, CutBy, FormerInv, Landed;
    var id, generation, entries :| RestartedAs(cfg, v, cut, kept, marks, back, v', id, generation, entries);
    var e := Restart(id, generation, entries, kept, marks);
    StepKeeps(cfg, v.w, e, v'.w);
    forall j | j in v.clients
      ensures ClientInv(v', v.clients[j])
    {
      assert MeId(v.clients[j]) in v'.former;
      RestartClient(cfg, v, e, v', v.clients[j]);
    }
    RestartEmpty(cfg, v, e, v');
  }

  lemma RestartEmpty(cfg: Config, v: View, e: Event, v': View)
    requires EarliestInv(v) && e.Restart? && Step(cfg, v.w, e, v'.w)
    requires ComesBack(v.earliest, v'.earliest) && v'.dropped == v.dropped
    ensures FormerInv(v') && EarliestInv(v')
  {
    hide CommitTaken, CommitCode, Stored;
  }

  /** Fewer clients in the same world. */
  lemma FewerClients(v: View, v': View)
    requires ViewInv(v) && v'.w == v.w && v'.former == v.former && v'.late == v.late && EarliestInv(v')
    requires forall j :: j in v'.clients ==> j in v.clients && v'.clients[j] == v.clients[j]
    ensures ViewInv(v')
  {
    hide Inv, ClientInv, SameLoop;
    forall j | j in v'.clients
      ensures ClientInv(v', v'.clients[j])
    {
      SameView(v, v', v.clients[j]);
    }
    SameFormer(v, v');
  }

  lemma RestKeeps(cfg: Config, v: View, m: Move, v': View)
    requires ViewInv(v) && Acts(cfg, v, m, v') && (m.Dies? || m.Abandons? || m.Trims?)
    ensures ViewInv(v')
  {
    hide Inv, ClientInv, OneLoopPerId, FormerInv, Entries, Step;
    FewerClients(v, v');
  }

  lemma StartsKeep(v: View, i: nat, group: bytes, topic: bytes, latest: bool)
    requires ViewInv(v) && i !in v.clients
    ensures ViewInv(With(v, i, NewClient(group, topic, latest)))
  {
    hide Inv, ClientInv;
    var v' := With(v, i, NewClient(group, topic, latest));
    forall j | j in v.clients
      ensures ClientInv(v', v.clients[j])
    {
      SameView(v, v', v.clients[j]);
    }
    StartsFine(v', group, topic, latest);
    SameFormer(v, v');
  }

  lemma StartsFine(v: View, group: bytes, topic: bytes, latest: bool)
    ensures ClientInv(v, NewClient(group, topic, latest))
  {
  }

  lemma MoveKeeps(cfg: Config, v: View, m: Move, v': View)
    requires ViewInv(v) && Bounded(v) && Bounded(v') && Acts(cfg, v, m, v')
    ensures ViewInv(v')
  {
    hide ViewInv, Bounded, ClientMove, Step, RestartMove;
    match m
    case Others(e) => OthersKeep(cfg, v, e, v');
    case Starts(i, group, topic, latest) => StartsKeep(v, i, group, topic, latest);
    case Joins(i, e) => JoinsKeep(cfg, v, i, e, v');
    case Commits(i, durable, code, heard) => CommitsKeep(cfg, v, i, durable, code, heard, v');
    case LateCommit(k, durable, code) => LateKeeps(cfg, v, k, durable, code, v');
    case BrokerRestarts(cut, kept, marks, back) => RestartsKeep(cfg, v, cut, kept, marks, back, v');
    case _ =>
      if Local(m) {
        LocalMoveKeeps(cfg, v, m, v');
      } else {
        RestKeeps(cfg, v, m, v');
      }
  }

  lemma {:induction false} HistoryKeeps(cfg: Config, vs: seq<View>, ms: seq<Move>, n: nat)
    requires History(cfg, vs, ms) && n < |vs|
    ensures ViewInv(vs[n])
    decreases n
  {
    hide ViewInv, Acts, Bounded;
    if n == 0 {
      OpeningInv(vs[0]);
    } else {
      HistoryKeeps(cfg, vs, ms, n - 1);
      assert Acts(cfg, vs[n - 1], ms[n - 1], vs[n - 1 + 1]);
      MoveKeeps(cfg, vs[n - 1], ms[n - 1], vs[n]);
    }
  }

  lemma OpeningInv(v: View)
    requires Opening(v)
    ensures ViewInv(v)
  {
    hide Inv;
    BeginInv(v.w);
  }
}
