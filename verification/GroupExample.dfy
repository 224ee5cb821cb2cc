/** A group in which two members own the same partition is reachable. */
module GroupExample {
  import opened Bytes
  import opened Text
  import opened Assignor
  import opened GroupModel
  import opened Ownership
  import opened GroupRuns

  const CFG := Config(1000, 60000, 64, 1024)
  const GROUP: bytes := [103]
  const TOPIC: bytes := [116]
  const TWICE := [TOPIC, TOPIC]
  const TP := TopicPartition(TOPIC, 0)
  const CAT: Catalog := map[TOPIC := 1]
  const LOG: Watermarks := map[TP := 0]
  const ID0: bytes := MemberId(GROUP, 0, 0)
  const ID1: bytes := MemberId(GROUP, 1, 0)
  const REQUEST := JoinRequest(GROUP, [], 3000, TWICE, 1)

  const ALONE: Group := Group(1, RoundRobin, TWICE, Stable, map[ID0 := Member(3000, 0, [TP, TP])])
  const BOTH: Group := Group(2, RoundRobin, TWICE, Stable,
                             map[ID0 := Member(3000, 0, [TP]), ID1 := Member(3000, 0, [TP])])

  const S0: State := State(map[], 0, map[])
  const S1: State := State(map[GROUP := ALONE], 1, map[])
  const S2: State := State(map[GROUP := BOTH], 2, map[])

  const FIRST: Event := JoinCall(REQUEST, 0, 0, Joined(ID0, 1, 1000, [TP, TP]))
  const SECOND: Event := JoinCall(REQUEST, 0, 0, Joined(ID1, 2, 1000, [TP]))

  ghost function Around(s: State, epochs: map<bytes, nat>): World {
    World(CAT, LOG, s, [], 0, epochs, {}, {})
  }

  lemma Accepted()
    ensures JoinRefusal(CFG, CAT, REQUEST) == 0
  {
    assert TWICE[1..] == [TOPIC] && [TOPIC][1..] == [];
    assert TopicsRefusal(CAT, []) == 0;
    assert TopicsRefusal(CAT, [TOPIC]) == 0;
    assert TopicsRefusal(CAT, TWICE) == 0;
    assert ValidGroupId(GROUP);
  }

  /** The one partition is listed twice, so it is dealt twice. */
  lemma Listed()
    ensures Everything(Sizes(CAT, TWICE)) == [TP, TP] && Ascending([TP, TP])
  {
    var one := TopicSize(TOPIC, 1);
    assert TWICE[..1] == [TOPIC] && [TOPIC][..0] == [];
    assert Sizes(CAT, [TOPIC]) == [one];
    assert Sizes(CAT, TWICE) == [one, one];
    assert [one, one][..1] == [one] && [one][..0] == [];
    assert Interval(TOPIC, 0, 1) == [TP];
    assert Everything([one]) == [TP];
  }

  lemma Dealt()
    ensures DealtTo([TP, TP], 1, 0) == [TP, TP]
    ensures DealtTo([TP, TP], 2, 0) == [TP] && DealtTo([TP, TP], 2, 1) == [TP]
  {
    var all := [TP, TP];
    assert all[..1] == [TP] && [TP][..0] == [];
    assert DealtTo([TP], 1, 0) == [TP];
    assert DealtTo([TP], 2, 0) == [TP] && DealtTo([TP], 2, 1) == [];
  }

  lemma AloneAssigned()
    ensures Assigned(CAT, ALONE)
  {
    hide MemberId, Everything, Sizes, DealtTo;
    Listed();
    Dealt();
    assert AssignedBy(CAT, ALONE, [ID0], [TP, TP]);
  }

  lemma BothAssigned()
    ensures Assigned(CAT, BOTH) && ID0 != ID1
  {
    hide MemberId, Everything, Sizes, DealtTo, TextLess;
    Listed();
    Dealt();
    if ID0 == ID1 {
      MemberIdsDiffer(GROUP, 0, 0, 1, 0);
    }
    TextLessTotal(ID0, ID1);
    var order := if TextLess(ID0, ID1) then [ID0, ID1] else [ID1, ID0];
    assert AssignedBy(CAT, BOTH, order, [TP, TP]);
  }

  lemma FirstJoins()
    ensures JoinStep(CFG, CAT, S0, S1, REQUEST, 0, 0, Joined(ID0, 1, 1000, [TP, TP]))
  {
    hide Assigned, MemberId, JoinRefusal;
    AloneAssigned();
    Accepted();
    var g := Subscribed(S0, REQUEST);
    var mid := WithNewMember(g, ID0, 3000, 0);
    assert mid.members.Keys == {ID0} == ALONE.members.Keys;
    assert Rebalanced(CAT, mid, ALONE);
    assert JoinNew(CAT, Put(S0, GROUP, g), S1, REQUEST, g, 0, 0, Joined(ID0, 1, 1000, [TP, TP]));
  }

  lemma SecondJoins()
    ensures JoinStep(CFG, CAT, S1, S2, REQUEST, 0, 0, Joined(ID1, 2, 1000, [TP]))
  {
    hide Assigned, MemberId, JoinRefusal;
    BothAssigned();
    Accepted();
    assert Subscribed(S1, REQUEST) == ALONE && Put(S1, GROUP, ALONE) == S1;
    var mid := WithNewMember(ALONE, ID1, 3000, 0);
    assert mid.members.Keys == {ID0, ID1} == BOTH.members.Keys;
    assert Rebalanced(CAT, mid, BOTH);
    assert JoinNew(CAT, S1, S2, REQUEST, ALONE, 0, 0, Joined(ID1, 2, 1000, [TP]));
  }

  lemma FirstStep()
    ensures Step(CFG, Around(S0, map[]), FIRST, Around(S1, map[GROUP := 1]))
  {
    hide MemberId, JoinStep;
    FirstJoins();
    var w, w' := Around(S0, map[]), Around(S1, map[GROUP := 1]);
    assert ID0 in Members(w'.s, GROUP);
    assert Departed(w.s, w'.s) == {} && Epoch(w, w'.s, GROUP) == 1;
    assert w' == Moved(w, w'.s);
  }

  lemma SecondStep()
    ensures Step(CFG, Around(S1, map[GROUP := 1]), SECOND, Around(S2, map[GROUP := 2]))
  {
    hide MemberId, JoinStep;
    SecondJoins();
    BothAssigned();
    var w, w' := Around(S1, map[GROUP := 1]), Around(S2, map[GROUP := 2]);
    assert ID1 in Members(w'.s, GROUP) && ID1 !in Members(w.s, GROUP);
    assert Departed(w.s, w'.s) == {} && Epoch(w, w'.s, GROUP) == 2;
    assert w' == Moved(w, w'.s);
  }

  lemma NotFenceable()
    ensures !Fenceable(BOTH)
  {
    hide MemberId;
    BothAssigned();
    assert BOTH.members.Keys == {ID0, ID1};
    assert TWICE[0] == TWICE[1];
  }

  /** Two joins that name a topic twice, with the round-robin strategy: both members own its only partition, and both
      may commit it under the same generation. */
  lemma TwoOwnersReached() returns (ws: seq<World>, es: seq<Event>, m1: bytes, m2: bytes, x: TopicPartition)
    ensures Run(CFG, ws, es) && |ws| == 3 && GROUP in ws[2].s.groups && !Fenceable(ws[2].s.groups[GROUP])
    ensures m1 != m2
    ensures var w := ws[2];
            forall m :: m in {m1, m2} ==>
              CommitCode(w.cat, w.marks, w.s, GROUP, m, w.s.groups[GROUP].generation, [Entry(x, 0)]) == 0
  {
    hide MemberId, Step, Fenceable, CommitCode;
    ws := [Around(S0, map[]), Around(S1, map[GROUP := 1]), Around(S2, map[GROUP := 2])];
    es := [FIRST, SECOND];
    FirstStep();
    SecondStep();
    NotFenceable();
    m1, m2, x := UnfenceableCommits(CFG, ws, es, 2, GROUP);
  }
}
