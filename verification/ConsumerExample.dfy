/** A history in which a committed offset goes down, and one in which dropped records come back. */
module ConsumerExample {
  import opened Bytes
  import opened Text
  import opened Assignor
  import opened GroupModel
  import opened Ownership
  import opened GroupRuns
  import opened ConsumerModel

  const CFG := Config(1000, 60000, 64, 1024)
  const GROUP: bytes := [103]
  const TOPIC: bytes := [116]
  const TP := TopicPartition(TOPIC, 0)
  const CAT: Catalog := map[TOPIC := 1]
  const LOG: Watermarks := map[TP := 2]
  const ID: bytes := MemberId(GROUP, 0, 0)
  const KEY := CommitKey(GROUP, TP)
  const REQUEST := JoinRequest(GROUP, [], 3000, [TOPIC], 0)
  const REJOIN := JoinRequest(GROUP, ID, 3000, [TOPIC], 0)
  const REPLY := Joined(ID, 1, 1000, [TP])
  const MEMBERS: Group := Group(1, Range, [TOPIC], Stable, map[ID := Member(3000, 0, [TP])])
  const FRESH: State := State(map[], 0, map[])

  ghost const TAKEN: Taken := Taken(0, GROUP, 1, 1, TP, ID, true)

  /** The coordinator with its one member, and an offset committed or not. */
  function Running(committed: map<CommitKey, uint64>): State {
    State(map[GROUP := MEMBERS], 1, committed)
  }

  ghost function Around(s: State, taken: set<Taken>): World {
    World(CAT, LOG, s, [], 0, map g | g in s.groups :: 1, {}, taken)
  }

  const NEWCOMER: Client := NewClient(GROUP, TOPIC, false)
  const SESSION: Client := Client(GROUP, TOPIC, false, ID, 1, 0, 1, {0}, {}, map[], map[], 0, 0)
  const ASKED: Client := SESSION.(asked := {0})

  /** The client at a position, with so many records of its page left. */
  function At(pos: uint64, left: nat): Client {
    SESSION.(pos := map[0 := pos], unc := if pos == 0 then map[] else map[0 := pos], left := left)
  }

  ghost function Seen(s: State, taken: set<Taken>, c: Client, pending: seq<Pending>, n: nat): View {
    View(Around(s, taken), map[TP := 0], map[TP := 0], map[0 := c], pending, set o | 0 <= o < n :: Mark(GROUP, TP, o),
         {}, {})
  }

  const LOST: Pending := Pending(Id(GROUP, ID), 1, [Entry(TP, 1)])

  lemma {:induction false} EntriesSingle(c: Client, x: uint64, n: nat)
    requires c.unc == map[0 := x] && n <= 0x1_0000
    ensures EntriesBelow(c, n) == if n == 0 then [] else [Entry(Tp(c, 0), x)]
    decreases n
  {
    if n > 0 {
      EntriesSingle(c, x, n - 1);
    }
  }

  lemma GroupAssigned()
    ensures Assigned(CAT, MEMBERS)
  {
    var order := [ID];
    assert Sizes(CAT, [TOPIC][..0]) == [];
    assert Sizes(CAT, [TOPIC]) == [TopicSize(TOPIC, 1)];
    var topics := [TopicSize(TOPIC, 1)];
    assert topics[..0] == [];
    assert RangeShare(topics, 1, 0) == RangeShare(topics[..0], 1, 0) + Slice(topics[0], 1, 0);
    assert Slice(topics[0], 1, 0) == [TP];
    assert AssignedBy(CAT, MEMBERS, order, []);
  }

  lemma Accepted()
    ensures JoinRefusal(CFG, CAT, REQUEST) == 0 && JoinRefusal(CFG, CAT, REJOIN) == 0
  {
    assert [TOPIC][1..] == [];
    assert TopicsRefusal(CAT, [TOPIC][1..]) == 0;
    assert TopicsRefusal(CAT, [TOPIC]) == 0;
    assert ValidGroupId(GROUP);
  }

  lemma JoinFirst()
    ensures JoinStep(CFG, CAT, FRESH, Running(map[]), REQUEST, 0, 0, REPLY)
  {
    hide Assigned, MemberId;
    GroupAssigned();
    Accepted();
    var g := Subscribed(FRESH, REQUEST);
    var mid := WithNewMember(g, ID, 3000, 0);
    assert mid.members.Keys == {ID} == MEMBERS.members.Keys;
    assert Rebalanced(CAT, mid, MEMBERS);
    assert JoinNew(CAT, Put(FRESH, GROUP, g), Running(map[]), REQUEST, g, 0, 0, REPLY);
  }

  lemma JoinAgain()
    ensures JoinStep(CFG, CAT, Running(map[]), Running(map[]), REJOIN, 0, 0, REPLY)
  {
    Accepted();
    assert ID != [];
    assert Refreshed(MEMBERS, ID, 3000, 0) == MEMBERS;
    assert Put(Running(map[]), GROUP, MEMBERS) == Running(map[]);
  }

  lemma CommitPasses(before: map<CommitKey, uint64>, x: uint64)
    requires x <= 2
    ensures CommitStep(CAT, LOG, Running(before), Running(before[KEY := x]), GROUP, ID, 1, [Entry(TP, x)], true, 0)
  {
    var es := [Entry(TP, x)];
    assert es[1..] == [] && es[0].tp == TP;
    assert EntriesRefusal(CAT, es[1..]) == 0;
    assert EntriesRefusal(CAT, es) == 0;
    assert AllHeld([TP], es) && WithinLog(LOG, es);
    var after := before[CommitKey(GROUP, es[0].tp) := es[0].offset];
    assert Stored(before, GROUP, es) == Stored(after, GROUP, es[1..]) == after;
  }

  // ---- The moves -----------------------------------------------------------------------------

  ghost const V0: View := View(Around(FRESH, {}), map[TP := 0], map[TP := 0], map[], [], {}, {}, {})
  ghost const V1: View := Seen(FRESH, {}, NEWCOMER, [], 0)

  /** The client in its session, before anything is committed. */
  ghost function Session(c: Client, pending: seq<Pending>, n: nat): View {
    Seen(Running(map[]), {}, c, pending, n)
  }

  ghost const V14: View := Seen(Running(map[KEY := 2]), {TAKEN}, At(2, 0).(unc := map[]), [LOST], 2)
  ghost const V15: View := Seen(Running(map[KEY := 1]), {TAKEN}, At(2, 0).(unc := map[]), [],
                                2).(late := {Late(Spot(0, GROUP, 1), TP)})

  const FIRST: Event := JoinCall(REQUEST, 0, 0, REPLY)
  const AGAIN: Event := JoinCall(REJOIN, 0, 0, REPLY)

  lemma FirstWorld()
    ensures Step(CFG, Around(FRESH, {}), FIRST, Around(Running(map[]), {}))
  {
    hide MemberId, JoinStep;
    JoinFirst();
    var w, w' := Around(FRESH, {}), Around(Running(map[]), {});
    assert ID in Members(w'.s, GROUP);
    assert Departed(FRESH, w'.s) == {};
    assert Epoch(w, w'.s, GROUP) == 1;
    assert w' == Moved(w, w'.s);
  }

  lemma SecondWorld()
    ensures Step(CFG, Around(Running(map[]), {}), AGAIN, Around(Running(map[]), {}))
  {
    hide MemberId, JoinStep;
    JoinAgain();
    var w := Around(Running(map[]), {});
    assert Departed(w.s, w.s) == {};
    assert w == Moved(w, w.s);
  }

  lemma GotSession(c: Client)
    requires c == NEWCOMER || c == At(1, 0)
    ensures AfterJoin(c, REPLY, Around(Running(map[]), {})) == SESSION
  {
    hide MemberId;
    assert PartsOf([TP]) == {0} by { assert TP in [TP]; }
  }

  lemma FirstJoin()
    ensures Acts(CFG, V1, Joins(0, FIRST), Session(SESSION, [], 0))
  {
    hide MemberId, Step, AfterJoin;
    FirstWorld();
    GotSession(NEWCOMER);
    assert V1.clients[0 := SESSION] == Session(SESSION, [], 0).clients;
  }

  lemma SecondJoin()
    ensures Acts(CFG, Session(At(1, 0), [LOST], 1), Joins(0, AGAIN), Session(SESSION, [LOST], 1))
  {
    hide MemberId, Step, AfterJoin;
    SecondWorld();
    GotSession(At(1, 0));
    assert Session(At(1, 0), [LOST], 1).clients[0 := SESSION] == Session(SESSION, [LOST], 1).clients;
  }

  lemma Asks(pending: seq<Pending>, n: nat)
    ensures Acts(CFG, Session(SESSION, pending, n), ReadsOffset(0, 0), Session(ASKED, pending, n))
    ensures Acts(CFG, Session(ASKED, pending, n), Describes(0, 0), Session(At(0, 0), pending, n))
  {
    hide MemberId, Step, RestartMove, EntriesBelow;
    var v, w := Session(SESSION, pending, n), Session(ASKED, pending, n);
    assert AfterRead(v, SESSION, 0) == ASKED;
    assert v.clients[0 := ASKED] == w.clients;
    assert w.clients[0 := At(0, 0)] == Session(At(0, 0), pending, n).clients;
    assert ASKED.asked - {0} == {};
    assert ASKED.pos[0 := 0] == At(0, 0).pos;
  }

  lemma Turns(pending: seq<Pending>, n: nat, left: nat, seen: nat)
    requires left + n <= 2
    ensures Acts(CFG, Session(At(n, 0), pending, seen), Fetches(0, 0, left), Session(At(n, left), pending, seen))
  {
    hide MemberId;
    var v, v' := Session(At(n, 0), pending, seen), Session(At(n, left), pending, seen);
    assert At(n, 0).pos.Keys == {0};
    assert v.clients[0 := At(n, left)] == v'.clients;
  }

  lemma Reads(pending: seq<Pending>, n: nat, left: nat, seen: nat, seen': nat)
    requires left + n <= 2 && left > 0 && n <= seen && seen' == if n == seen then n + 1 else seen
    ensures Acts(CFG, Session(At(n, left), pending, seen), Processes(0), Session(At(n + 1, left - 1), pending, seen'))
  {
    hide MemberId, Step, RestartMove, EntriesBelow;
    var v, v' := Session(At(n, left), pending, seen), Session(At(n + 1, left - 1), pending, seen');
    assert AfterRecord(At(n, left)) == At(n + 1, left - 1);
    assert v.clients[0 := At(n + 1, left - 1)] == v'.clients;
    assert v'.processed == v.processed + {Mark(GROUP, TP, n)};
  }

  lemma GivesUp()
    ensures Acts(CFG, Session(At(1, 0), [], 1), Abandons(0), Session(At(1, 0), [LOST], 1))
  {
    hide MemberId, EntriesBelow;
    EntriesSingle(At(1, 0), 1, 0x1_0000);
    assert 0 in At(1, 0).unc;
  }

  lemma CommitStored(before: map<CommitKey, uint64>, x: uint64, taken: set<Taken>, taken': set<Taken>)
    requires x <= 2 && taken' == taken + {TAKEN}
    ensures Step(CFG, Around(Running(before), taken), CommitCall(Id(GROUP, ID), 1, [Entry(TP, x)], true, 0),
                 Around(Running(before[KEY := x]), taken'))
  {
    hide MemberId, CommitStep, Stored;
    CommitPasses(before, x);
    var w := Around(Running(before), taken);
    var es := [Entry(TP, x)];
    assert Fenceable(MEMBERS);
    assert Takes(w, Id(GROUP, ID), es) == {TAKEN} by {
      assert es[0].tp == TP;
    }
  }

  lemma CommitsTwo()
    ensures Acts(CFG, Session(At(2, 0), [LOST], 2), Commits(0, true, 0, true), V14)
  {
    hide MemberId, EntriesBelow, Step;
    EntriesSingle(At(2, 0), 2, 0x1_0000);
    CommitStored(map[], 2, {}, {TAKEN});
    assert map[][KEY := 2] == map[KEY := 2];
    assert 0 in At(2, 0).unc;
    assert Session(At(2, 0), [LOST], 2).clients[0 := V14.clients[0]] == V14.clients;
  }

  lemma CommitsLate()
    ensures Acts(CFG, V14, LateCommit(0, true, 0), V15)
  {
    hide MemberId, Step;
    CommitStored(map[KEY := 2], 1, {TAKEN}, {TAKEN});
    assert map[KEY := 2][KEY := 1] == map[KEY := 1];
    assert V14.pending[..0] + V14.pending[1..] == [];
    assert Landed(Spot(0, GROUP, 1), LOST.entries) == {Late(Spot(0, GROUP, 1), TP)} by {
      assert LOST.entries[0].tp == TP;
    }
  }

  lemma Opens()
    ensures Opening(V0) && Acts(CFG, V0, Starts(0, GROUP, TOPIC, false), V1)
  {
    hide MemberId;
    assert (map g | g in FRESH.groups :: 1) == map[];
    assert V0.clients[0 := NEWCOMER] == V1.clients;
    assert V1.processed == {};
  }

  /** A client reads one record and commits offset 1; its connection breaks, so that it joins again, reads both
      records and commits offset 2; then the first request is served at last, and the committed offset is 1 again. */
  lemma LateCommitGoesBack() returns (vs: seq<View>, ms: seq<Move>)
    ensures History(CFG, vs, ms)
    ensures |ms| == 15 && KEY in vs[14].w.s.committed && KEY in vs[15].w.s.committed
    ensures vs[15].w.s.committed[KEY] < vs[14].w.s.committed[KEY]
  {
    hide Acts, Opening, Bounded, Seen, Session, At, Around, Running, MemberId;
    var p := [LOST];
    vs := [V0, V1, Session(SESSION, [], 0), Session(ASKED, [], 0), Session(At(0, 0), [], 0), Session(At(0, 1), [], 0),
           Session(At(1, 0), [], 1), Session(At(1, 0), p, 1), Session(SESSION, p, 1), Session(ASKED, p, 1),
           Session(At(0, 0), p, 1), Session(At(0, 2), p, 1), Session(At(1, 1), p, 1), Session(At(2, 0), p, 2), V14,
               V15];
    ms := [Starts(0, GROUP, TOPIC, false), Joins(0, FIRST), ReadsOffset(0, 0), Describes(0, 0), Fetches(0, 0, 1),
           Processes(0),
           Abandons(0), Joins(0, AGAIN), ReadsOffset(0, 0), Describes(0, 0), Fetches(0, 0, 2), Processes(0),
               Processes(0),
           Commits(0, true, 0, true), LateCommit(0, true, 0)];
    Opens();
    FirstJoin();
    Asks([], 0);
    Turns([], 0, 1, 0);
    Reads([], 0, 1, 0, 1);
    GivesUp();
    SecondJoin();
    Asks(p, 1);
    Turns(p, 0, 2, 1);
    Reads(p, 0, 2, 1, 1);
    Reads(p, 1, 1, 1, 2);
    CommitsTwo();
    CommitsLate();
    FewBounded();
    Ends();
  }

  lemma Ends()
    ensures KEY in V14.w.s.committed && KEY in V15.w.s.committed && V15.w.s.committed[KEY] < V14.w.s.committed[KEY]
  {
    hide MemberId;
  }

  lemma FewBounded()
    ensures Bounded(V0) && Bounded(V1) && Bounded(V14) && Bounded(V15)
    ensures forall c, p, n :: Bounded(Session(c, p, n))
  {
    hide MemberId;
  }

  // ---- Dropped records come back ---------------------------------------------------------------

  const CUT: Watermarks := map[TP := 1]

  /** After a retention pass has dropped record 0. */
  ghost function Trimmed(s: State, taken: set<Taken>, c: Client, processed: set<Mark>): View {
    View(Around(s, taken), CUT, CUT, map[0 := c], [], processed, {}, {})
  }

  const SECOND: Mark := Mark(GROUP, TP, 1)

  /** The client that begins with record 1. */
  function From1(left: nat): Client {
    SESSION.(pos := map[0 := 1], left := left)
  }

  ghost const B8: View := Trimmed(Running(map[KEY := 2]), {TAKEN}, At(2, 0).(unc := map[]), {SECOND})
  ghost const B9: View :=
    View(World(CAT, LOG, State(map[], 0, map[KEY := 2]), [], 1, map[], {}, {TAKEN}), map[TP := 0], CUT, B8.clients, [],
         {SECOND}, {Id(GROUP, ID)}, {})

  ghost function Early(c: Client, processed: set<Mark>): View {
    Trimmed(Running(map[]), {}, c, processed)
  }

  lemma Drops()
    ensures Acts(CFG, Session(SESSION, [], 0), Trims(CUT), Early(SESSION, {}))
  {
    hide MemberId, Step, RestartMove, EntriesBelow;
    assert Raised(map[TP := 0], CUT) == CUT;
    assert Session(SESSION, [], 0).processed == {};
  }

  lemma AsksEarly()
    ensures Acts(CFG, Early(SESSION, {}), ReadsOffset(0, 0), Early(ASKED, {}))
    ensures Acts(CFG, Early(ASKED, {}), Describes(0, 0), Early(From1(0), {}))
  {
    hide MemberId, Step, RestartMove, EntriesBelow;
    var v, w := Early(SESSION, {}), Early(ASKED, {});
    assert AfterRead(v, SESSION, 0) == ASKED;
    assert v.clients[0 := ASKED] == w.clients;
    assert w.clients[0 := From1(0)] == Early(From1(0), {}).clients;
    assert ASKED.asked - {0} == {};
    assert ASKED.pos[0 := 1] == From1(0).pos;
  }

  lemma FetchesSecond()
    ensures Acts(CFG, Early(From1(0), {}), Fetches(0, 0, 1), Early(From1(1), {}))
  {
    hide MemberId;
    assert From1(0).pos.Keys == {0};
    assert Early(From1(0), {}).clients[0 := From1(1)] == Early(From1(1), {}).clients;
  }

  lemma ReadsSecond()
    ensures Acts(CFG, Early(From1(1), {}), Processes(0), Early(At(2, 0), {SECOND}))
  {
    hide MemberId;
    assert AfterRecord(From1(1)) == At(2, 0);
    assert Early(From1(1), {}).clients[0 := At(2, 0)] == Early(At(2, 0), {SECOND}).clients;
    assert {} + {SECOND} == {SECOND};
  }

  lemma CommitsSecond()
    ensures Acts(CFG, Early(At(2, 0), {SECOND}), Commits(0, true, 0, true), B8)
  {
    hide MemberId, EntriesBelow, Step;
    EntriesSingle(At(2, 0), 2, 0x1_0000);
    CommitStored(map[], 2, {}, {TAKEN});
    assert map[][KEY := 2] == map[KEY := 2];
    assert 0 in At(2, 0).unc;
    assert Early(At(2, 0), {SECOND}).clients[0 := B8.clients[0]] == B8.clients;
  }

  lemma CrashWorld()
    ensures Step(CFG, B8.w, Restart(Id(GROUP, ID), 0, [], 0, LOG), B9.w)
  {
    hide MemberId, CommitCode, CommitTaken;
    var none: seq<Entry> := [];
    assert none[..0] == [] && Stored(map[KEY := 2], GROUP, none[..0]) == map[KEY := 2];
  }

  lemma OneFormer()
    ensures (set i | i in B8.clients :: MeId(B8.clients[i])) == {Id(GROUP, ID)}
  {
    hide MemberId;
    assert 0 in B8.clients && MeId(B8.clients[0]) == Id(GROUP, ID);
  }

  lemma CrashView()
    ensures B9 == B8.(w := B9.w, earliest := map[TP := 0], pending := [], former := {} + {Id(GROUP, ID)},
                      late := {} + {})
    ensures B8.former == {} && B8.late == {} && B8.earliest == CUT
  {
    hide MemberId, Running, At;
  }

  lemma CrashesBeforeRemoval()
    ensures Acts(CFG, B8, BrokerRestarts(NoCut, 0, LOG, map[TP := 0]), B9)
  {
    hide MemberId, Step, Trimmed, At, Running, Landed, Entries;
    CrashWorld();
    OneFormer();
    CrashView();
    assert ComesBack(CUT, map[TP := 0]);
    assert RestartedAs(CFG, B8, NoCut, 0, LOG, map[TP := 0], B9, Id(GROUP, ID), 0, []);
  }

  lemma EarlyBounded()
    ensures Bounded(B8) && Bounded(B9) && forall c, processed :: Bounded(Early(c, processed))
  {
    hide MemberId;
  }

  /** Retention drops record 0 from memory, a client begins with record 1 and commits offset 2, and the broker dies
      before the file is removed: after the restart record 0 is there again, below the committed offset and never
      processed. */
  lemma DroppedComesBack() returns (vs: seq<View>, ms: seq<Move>)
    ensures History(CFG, vs, ms)
    ensures |ms| == 9 && var v := vs[9];
            && KEY in v.w.s.committed && 0 < v.w.s.committed[KEY]
            && Mark(GROUP, TP, 0) !in v.processed && TP in v.earliest && v.earliest[TP] == 0
  {
    hide Acts, Opening, Bounded, Seen, Session, At, Around, Running, MemberId, Trimmed, Early, From1;
    vs := [V0, V1, Session(SESSION, [], 0), Early(SESSION, {}), Early(ASKED, {}), Early(From1(0), {}),
           Early(From1(1), {}),
           Early(At(2, 0), {SECOND}), B8, B9];
    ms := [Starts(0, GROUP, TOPIC, false), Joins(0, FIRST), Trims(CUT), ReadsOffset(0, 0), Describes(0, 0),
           Fetches(0, 0, 1), Processes(0), Commits(0, true, 0, true), BrokerRestarts(NoCut, 0, LOG, map[TP := 0])];
    Opens();
    FirstJoin();
    Drops();
    AsksEarly();
    FetchesSecond();
    ReadsSecond();
    CommitsSecond();
    CrashesBeforeRemoval();
    FewBounded();
    EarlyBounded();
    assert SECOND != Mark(GROUP, TP, 0);
  }
}
