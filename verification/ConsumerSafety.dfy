/** Committed offsets never go backwards, and nothing below them was skipped. */
module ConsumerSafety {
  import opened Bytes
  import opened Assignor
  import opened GroupModel
  import opened GroupRuns
  import opened ConsumerModel
  import opened ConsumerRuns

  // ---- Never backwards -----------------------------------------------------------------------

  /** A late landing on this key in the present epoch of its group. */
  function LateAt(v: View, key: CommitKey): Late {
    Late(SpotNow(v.w, key.group), key.tp)
  }

  ghost predicate Kept(v: View, v': View, key: CommitKey)
    requires key in v.w.s.committed
  {
    && key in v'.w.s.committed
    && (v.w.s.committed[key] <= v'.w.s.committed[key] || LateAt(v, key) in v'.late)
  }

  lemma ClientNeverBack(v: View, i: nat, kept: nat, key: CommitKey)
    requires ViewInv(v) && Bounded(v) && i in v.clients && kept <= |Entries(v.clients[i])| && key in v.w.s.committed
    requires var c := v.clients[i];
             kept > 0 ==> CommitCode(v.w.cat, v.w.marks, v.w.s, c.group, c.member, c.generation, Entries(c)) == 0
    ensures var after := Stored(v.w.s.committed, v.clients[i].group, Entries(v.clients[i])[..kept]);
            key in after && (v.w.s.committed[key] <= after[key] || LateAt(v, key) in v.late)
  {
    hide ViewInv, Bounded, CommitCode, Stored, Entries, InLog;
    var c, before := v.clients[i], v.w.s.committed;
    var after := Stored(before, c.group, Entries(c)[..kept]);
    ClientStores(before, c, kept, key);
    if after[key] != before[key] {
      var p := key.tp.partition;
      assert c.unc != map[];
      assert kept > 0 by { NothingStored(before, c.group, Entries(c)); }
      CommitterCurrent(v, i);
      OwnInv(v, i);
      assert p in c.pos && key == Key(c, p);
    }
  }

  lemma NothingStored(before: map<CommitKey, uint64>, group: bytes, entries: seq<Entry>)
    ensures Stored(before, group, entries[..0]) == before
  {
  }

  lemma CommitNeverBack(cfg: Config, v: View, i: nat, durable: bool, code: nat, heard: bool, v': View, key: CommitKey)
    requires ViewInv(v) && Bounded(v) && i in v.clients && ClientMove(cfg, v, Commits(i, durable, code, heard), i, v')
    requires key in v.w.s.committed
    ensures Kept(v, v', key)
  {
    hide ViewInv, Bounded, Step, CommitCode, Stored, Entries;
    var c := v.clients[i];
    CommitOnly(cfg, v.w, MeId(c), c.generation, Entries(c), durable, code, v'.w);
    if code == 0 {
      assert Entries(c)[..|Entries(c)|] == Entries(c);
      ClientNeverBack(v, i, |Entries(c)|, key);
    }
  }

  lemma LateFlagged(cfg: Config, v: View, k: nat, durable: bool, code: nat, v': View, key: CommitKey)
    requires Acts(cfg, v, LateCommit(k, durable, code), v') && key in v.w.s.committed
    ensures Kept(v, v', key)
  {
    hide Step, Stored, CommitCode, Landed;
    var r := v.pending[k];
    CommitOnly(cfg, v.w, r.id, r.generation, r.entries, durable, code, v'.w);
    StoredValue(v.w.s.committed, r.id.group, r.entries, key);
    LandedHas(SpotNow(v.w, r.id.group), r.entries);
  }

  lemma RestartNeverBack(cfg: Config, v: View, cut: Cut, kept: nat, marks: Watermarks, back: Watermarks, v': View,
                         key: CommitKey)
    requires ViewInv(v) && Bounded(v) && v.w.loose == [] && RestartMove(cfg, v, cut, kept, marks, back, v')
    requires key in v.w.s.committed
    ensures Kept(v, v', key)
  {
    hide ViewInv, Bounded, CommitCode, Stored, Entries, CommitTaken, Landed;
    var id, generation, entries :| RestartedAs(cfg, v, cut, kept, marks, back, v', id, generation, entries);
    assert v'.w.s.committed == Stored(v.w.s.committed, id.group, entries[..kept]);
    match cut
    case NoCut => NothingStored(v.w.s.committed, id.group, entries);
    case ByClient(i) => ClientNeverBack(v, i, kept, key);
    case ByPending(_) =>
      StoredValue(v.w.s.committed, id.group, entries[..kept], key);
      LandedHas(SpotNow(v.w, id.group), entries);
      assert forall i :: 0 <= i < kept ==> entries[..kept][i] == entries[i];
  }

  lemma MoveNeverBack(cfg: Config, v: View, m: Move, v': View, key: CommitKey)
    requires ViewInv(v) && Bounded(v) && v.w.loose == [] && Acts(cfg, v, m, v') && key in v.w.s.committed
    ensures Kept(v, v', key)
  {
    hide ViewInv, Bounded, Step, RestartMove, ClientMove, Inv;
    match m
    case Others(e) =>
      WorldOf(v);
      BackgroundCalm(cfg, v.w, e, v'.w);
    case Joins(i, e) =>
      WorldOf(v);
      JoinsStep(cfg, v, i, e, v');
      BackgroundCalm(cfg, v.w, e, v'.w);
    case Commits(i, durable, code, heard) => CommitNeverBack(cfg, v, i, durable, code, heard, v', key);
    case LateCommit(k, durable, code) => LateFlagged(cfg, v, k, durable, code, v', key);
    case BrokerRestarts(cut, kept, marks, back) => RestartNeverBack(cfg, v, cut, kept, marks, back, v', key);
    case _ => StillWorld(cfg, v, m, v');
  }

  lemma JoinsStep(cfg: Config, v: View, i: nat, e: Event, v': View)
    requires i in v.clients && ClientMove(cfg, v, Joins(i, e), i, v')
    ensures e.JoinCall? && Step(cfg, v.w, e, v'.w)
  {
    hide Step;
  }

  predicate Offline(m: Move) {
    Local(m) || m.Starts? || m.Dies? || m.Abandons? || m.Trims?
  }

  /** Most moves do not involve the coordinator. */
  lemma StillWorld(cfg: Config, v: View, m: Move, v': View)
    requires Acts(cfg, v, m, v') && Offline(m)
    ensures v'.w == v.w
  {
    hide Step, RestartMove, Entries;
  }

  lemma WorldOf(v: View)
    requires ViewInv(v)
    ensures Inv(v.w)
  {
    hide Inv, ClientInv, OneLoopPerId, FormerInv, EarliestInv;
  }

  lemma StepLoose(cfg: Config, w: World, e: Event, w': World)
    requires w.loose == [] && Step(cfg, w, e, w') && !e.StandaloneBegins?
    ensures w'.loose == []
  {
    hide JoinStep, HeartbeatStep, LeaveStep, ExpireStep, CommitStep, CommitTaken, CommitCode, Stored, Epoch, Departed;
  }

  lemma NotLoose(cfg: Config, v: View, m: Move, v': View)
    requires v.w.loose == [] && Acts(cfg, v, m, v')
    ensures v'.w.loose == []
  {
    hide Step, Entries, CutBy;
    match m
    case Others(e) => StepLoose(cfg, v.w, e, v'.w);
    case Joins(i, e) => StepLoose(cfg, v.w, e, v'.w);
    case Commits(i, durable, code, heard) =>
      var c := v.clients[i];
      StepLoose(cfg, v.w, CommitCall(MeId(c), c.generation, Entries(c), durable, code), v'.w);
    case LateCommit(k, durable, code) =>
      var r := v.pending[k];
      StepLoose(cfg, v.w, CommitCall(r.id, r.generation, r.entries, durable, code), v'.w);
    case BrokerRestarts(cut, kept, marks, back) =>
      var id, generation, entries :| RestartedAs(cfg, v, cut, kept, marks, back, v', id, generation, entries);
      StepLoose(cfg, v.w, Restart(id, generation, entries, kept, marks), v'.w);
    case _ => StillWorld(cfg, v, m, v');
  }

  lemma {:induction false} NeverLoose(cfg: Config, vs: seq<View>, ms: seq<Move>, n: nat)
    requires History(cfg, vs, ms) && n < |vs|
    ensures vs[n].w.loose == []
    decreases n
  {
    hide Acts, Bounded;
    if n > 0 {
      NeverLoose(cfg, vs, ms, n - 1);
      assert Acts(cfg, vs[n - 1], ms[n - 1], vs[n - 1 + 1]);
      NotLoose(cfg, vs[n - 1], ms[n - 1], vs[n]);
    }
  }

  /** In every history of client loops, joins, rebalances, expiries, crashes and restarts, a committed offset stays,
      and goes down only if, in the present epoch of its group and on its own partition, a commit has landed whose
      client had already given up on it. */
  lemma NeverBackwards(cfg: Config, vs: seq<View>, ms: seq<Move>, n: nat, key: CommitKey)
    requires History(cfg, vs, ms) && n < |ms| && key in vs[n].w.s.committed
    ensures key in vs[n + 1].w.s.committed
    ensures vs[n].w.s.committed[key] <= vs[n + 1].w.s.committed[key] || LateAt(vs[n], key) in vs[n + 1].late
  {
    hide ViewInv, Acts, Bounded;
    HistoryKeeps(cfg, vs, ms, n);
    NeverLoose(cfg, vs, ms, n);
    assert Acts(cfg, vs[n], ms[n], vs[n + 1]);
    MoveNeverBack(cfg, vs[n], ms[n], vs[n + 1], key);
  }

  /** The last entry of a request for a partition. */
  function LastFor(entries: seq<Entry>, tp: TopicPartition): Option<uint64> {
    if entries == [] then None
    else
      var n := |entries| - 1;
      if entries[n].tp == tp then Some(entries[n].offset) else LastFor(entries[..n], tp)
  }

  lemma {:induction false} StoredSplits(c: map<CommitKey, uint64>, group: bytes, a: seq<Entry>, b: seq<Entry>)
    ensures Stored(c, group, a + b) == Stored(Stored(c, group, a), group, b)
    decreases |a|
  {
    if a == [] {
      assert a + b == b;
    } else {
      assert (a + b)[1..] == a[1..] + b;
      StoredSplits(c[CommitKey(group, a[0].tp) := a[0].offset], group, a[1..], b);
    }
  }

  lemma {:induction false} StoredIsLast(c: map<CommitKey, uint64>, group: bytes, entries: seq<Entry>, key: CommitKey)
    requires key in c
    ensures var after, last := Stored(c, group, entries), LastFor(entries, key.tp);
            key in after && after[key] == if key.group == group && last.Some? then last.value else c[key]
    decreases |entries|
  {
    if entries != [] {
      var n := |entries| - 1;
      var front, e := entries[..n], entries[n];
      StoredIsLast(c, group, front, key);
      assert entries == front + [e];
      StoredSplits(c, group, front, [e]);
      assert [e][1..] == [];
      var mid := Stored(c, group, front);
      assert Stored(mid, group, [e]) == Stored(mid[CommitKey(group, e.tp) := e.offset], group, [e][1..]);
    }
  }

  /** A late commit lowers a committed offset exactly when the coordinator accepts it, the offsets log takes it, and it
      names a lower one. */
  lemma LateLowersExactly(cfg: Config, v: View, k: nat, durable: bool, code: nat, v': View, key: CommitKey)
    requires Acts(cfg, v, LateCommit(k, durable, code), v') && key in v.w.s.committed
    ensures key in v'.w.s.committed
    ensures var r := v.pending[k];
            v'.w.s.committed[key] < v.w.s.committed[key] <==>
            && durable && r.id.group == key.group
            && CommitCode(v.w.cat, v.w.marks, v.w.s, r.id.group, r.id.member, r.generation, r.entries) == 0
            && LastFor(r.entries, key.tp).Some? && LastFor(r.entries, key.tp).value < v.w.s.committed[key]
  {
    hide Step, Stored, CommitCode, Landed, LastFor;
    var r := v.pending[k];
    CommitOnly(cfg, v.w, r.id, r.generation, r.entries, durable, code, v'.w);
    StoredIsLast(v.w.s.committed, r.id.group, r.entries, key);
  }

  /** A commit that its client waits for lowers a committed offset exactly when the coordinator accepts it, the offsets
      log takes it, and it names a lower one; which takes an earlier late landing on that partition in that epoch. */
  lemma CommitLowersExactly(cfg: Config, v: View, i: nat, durable: bool, code: nat, heard: bool, v': View,
                            key: CommitKey)
    requires ViewInv(v) && Bounded(v) && i in v.clients && ClientMove(cfg, v, Commits(i, durable, code, heard), i, v')
    requires key in v.w.s.committed
    ensures key in v'.w.s.committed
    ensures v'.w.s.committed[key] < v.w.s.committed[key] ==> LateAt(v, key) in v.late
    ensures var c := v.clients[i];
            v'.w.s.committed[key] < v.w.s.committed[key] <==>
            && durable && c.group == key.group
            && CommitCode(v.w.cat, v.w.marks, v.w.s, c.group, c.member, c.generation, Entries(c)) == 0
            && LastFor(Entries(c), key.tp).Some? && LastFor(Entries(c), key.tp).value < v.w.s.committed[key]
  {
    hide ViewInv, Bounded, Step, Stored, CommitCode, Entries, LastFor;
    var c := v.clients[i];
    CommitNeverBack(cfg, v, i, durable, code, heard, v', key);
    CommitOnly(cfg, v.w, MeId(c), c.generation, Entries(c), durable, code, v'.w);
    StoredIsLast(v.w.s.committed, c.group, Entries(c), key);
  }

  lemma {:induction false} NoneLate(cfg: Config, vs: seq<View>, ms: seq<Move>, n: nat)
    requires History(cfg, vs, ms) && n < |vs| && forall i :: 0 <= i < n ==> !ms[i].Abandons?
    ensures vs[n].pending == [] && vs[n].late == {}
    decreases n
  {
    hide Bounded, Acts;
    if n > 0 {
      NoneLate(cfg, vs, ms, n - 1);
      assert Acts(cfg, vs[n - 1], ms[n - 1], vs[n - 1 + 1]);
      StillNoneLate(cfg, vs[n - 1], ms[n - 1], vs[n]);
    }
  }

  lemma StillNoneLate(cfg: Config, v: View, m: Move, v': View)
    requires Acts(cfg, v, m, v') && !m.Abandons? && v.pending == [] && v.late == {}
    ensures v'.pending == [] && v'.late == {}
  {
    hide Step, Entries;
  }

  /** Where no client gives up on a commit, no committed offset ever goes down. */
  lemma PatientNeverBackwards(cfg: Config, vs: seq<View>, ms: seq<Move>, i: nat, j: nat, key: CommitKey)
    requires History(cfg, vs, ms) && i <= j < |vs| && key in vs[i].w.s.committed
    requires forall n :: 0 <= n < j ==> !ms[n].Abandons?
    ensures key in vs[j].w.s.committed && vs[i].w.s.committed[key] <= vs[j].w.s.committed[key]
    decreases j
  {
    hide Bounded, Acts;
    if i < j {
      PatientNeverBackwards(cfg, vs, ms, i, j - 1, key);
      NeverBackwards(cfg, vs, ms, j - 1, key);
      NoneLate(cfg, vs, ms, j);
    }
  }

  // ---- At least once -------------------------------------------------------------------------

  /** Every record below `n` was processed by a member of the group or dropped by retention. */
  ghost predicate Covered(v: View, group: bytes, tp: TopicPartition, n: nat) {
    forall o: nat :: o < n ==> Mark(group, tp, o) in v.processed || (tp in v.dropped && o < v.dropped[tp])
  }

  ghost predicate ClientCovered(v: View, c: Client) {
    !c.latest && forall p :: p in c.pos ==> Covered(v, c.group, Tp(c, p), c.pos[p])
  }

  ghost predicate RequestCovered(v: View, group: bytes, entries: seq<Entry>) {
    forall i :: 0 <= i < |entries| ==> Covered(v, group, entries[i].tp, entries[i].offset)
  }

  ghost predicate CommittedCovered(v: View) {
    forall key :: key in v.w.s.committed ==> Covered(v, key.group, key.tp, v.w.s.committed[key])
  }

  ghost predicate CoverInv(v: View) {
    && (forall i :: i in v.clients ==> ClientCovered(v, v.clients[i]))
    && (forall k :: 0 <= k < |v.pending| ==> RequestCovered(v, v.pending[k].id.group, v.pending[k].entries))
    && CommittedCovered(v)
  }

  ghost predicate More(v: View, v': View) {
    v.processed <= v'.processed && Grown(v.dropped, v'.dropped)
  }

  lemma CoveredMore(v: View, v': View, group: bytes, tp: TopicPartition, n: nat)
    requires Covered(v, group, tp, n) && More(v, v')
    ensures Covered(v', group, tp, n)
  {
  }

  lemma ClientCoveredMore(v: View, v': View, c: Client)
    requires ClientCovered(v, c) && More(v, v')
    ensures ClientCovered(v', c)
  {
    hide Covered, More;
    forall p | p in c.pos
      ensures Covered(v', c.group, Tp(c, p), c.pos[p])
    {
      CoveredMore(v, v', c.group, Tp(c, p), c.pos[p]);
    }
  }

  lemma RequestCoveredMore(v: View, v': View, group: bytes, entries: seq<Entry>)
    requires RequestCovered(v, group, entries) && More(v, v')
    ensures RequestCovered(v', group, entries)
  {
    hide Covered, More;
    forall i | 0 <= i < |entries|
      ensures Covered(v', group, entries[i].tp, entries[i].offset)
    {
      CoveredMore(v, v', group, entries[i].tp, entries[i].offset);
    }
  }

  lemma CommittedCoveredMore(v: View, v': View)
    requires CommittedCovered(v) && More(v, v') && v'.w.s.committed == v.w.s.committed
    ensures CommittedCovered(v')
  {
    hide Covered, More;
    forall key | key in v.w.s.committed
      ensures Covered(v', key.group, key.tp, v.w.s.committed[key])
    {
      CoveredMore(v, v', key.group, key.tp, v.w.s.committed[key]);
    }
  }

  /** What a client has not yet committed is covered like its positions. */
  lemma ClientRequestCovered(v: View, c: Client)
    requires Shape(c) && ClientCovered(v, c)
    ensures RequestCovered(v, c.group, Entries(c))
  {
    hide Covered, Entries;
    forall i | 0 <= i < |Entries(c)|
      ensures Covered(v, c.group, Entries(c)[i].tp, Entries(c)[i].offset)
    {
      EntriesAre(c, i);
      assert Entries(c)[i].tp == Tp(c, Entries(c)[i].tp.partition);
    }
  }

  lemma StoredCovered(v: View, v': View, group: bytes, entries: seq<Entry>)
    requires CommittedCovered(v) && RequestCovered(v, group, entries) && More(v, v')
    requires v'.w.s.committed == Stored(v.w.s.committed, group, entries)
    ensures CommittedCovered(v')
  {
    hide Covered, More, Stored;
    forall key | key in v'.w.s.committed
      ensures Covered(v', key.group, key.tp, v'.w.s.committed[key])
    {
      StoredValue(v.w.s.committed, group, entries, key);
      CoveredMore(v, v', key.group, key.tp, v'.w.s.committed[key]);
    }
  }

  /** All clients but one are as before, and so is what is committed. */
  lemma OneClientCovered(v: View, v': View, i: nat)
    requires CoverInv(v) && More(v, v') && v'.w.s.committed == v.w.s.committed && v'.pending == v.pending
    requires i in v'.clients && v'.clients == v.clients[i := v'.clients[i]] && ClientCovered(v', v'.clients[i])
    ensures CoverInv(v')
  {
    hide ClientCovered, RequestCovered, CommittedCovered, More;
    CommittedCoveredMore(v, v');
    forall j | j in v'.clients && j != i
      ensures ClientCovered(v', v'.clients[j])
    {
      ClientCoveredMore(v, v', v.clients[j]);
    }
    forall k | 0 <= k < |v'.pending|
      ensures RequestCovered(v', v'.pending[k].id.group, v'.pending[k].entries)
    {
      RequestCoveredMore(v, v', v.pending[k].id.group, v.pending[k].entries);
    }
  }

  /** The clients and their requests are as before or fewer. */
  lemma RestCovered(v: View, v': View)
    requires CoverInv(v) && More(v, v') && CommittedCovered(v')
    requires forall j :: j in v'.clients ==> j in v.clients && v'.clients[j] == v.clients[j]
    requires forall k :: 0 <= k < |v'.pending| ==> v'.pending[k] in v.pending
    ensures CoverInv(v')
  {
    hide ClientCovered, RequestCovered, CommittedCovered, More;
    forall j | j in v'.clients
      ensures ClientCovered(v', v'.clients[j])
    {
      ClientCoveredMore(v, v', v.clients[j]);
    }
    forall k | 0 <= k < |v'.pending|
      ensures RequestCovered(v', v'.pending[k].id.group, v'.pending[k].entries)
    {
      var l :| 0 <= l < |v.pending| && v.pending[l] == v'.pending[k];
      RequestCoveredMore(v, v', v.pending[l].id.group, v.pending[l].entries);
    }
  }

  lemma LocalCovered(cfg: Config, v: View, m: Move, v': View)
    requires ViewInv(v) && Bounded(v) && CoverInv(v) && Local(m) && m.i in v.clients && ClientMove(cfg, v, m, m.i, v')
    ensures CoverInv(v')
  {
    hide ViewInv, Bounded, Covered, CommittedCovered, RequestCovered, CoverInv, Ahead, Shape, InLog, AfterRead,
         ClientCovered;
    var c := v.clients[m.i];
    OwnInv(v, m.i);
    CoverOf(v, m.i);
    if m.ReadsOffset? {
      ReadCovered(v, c, m.p);
      ClientCoveredMore(v, v', AfterRead(v, c, m.p));
    } else {
      OtherLocalCovered(cfg, v, m, v');
    }
    OneClientCovered(v, v', m.i);
  }

  lemma OtherLocalCovered(cfg: Config, v: View, m: Move, v': View)
    requires EarliestInv(v) && Local(m) && !m.ReadsOffset? && m.i in v.clients && ClientMove(cfg, v, m, m.i, v')
    requires var c := v.clients[m.i];
             Shape(c) && InLog(v, c) && Ahead(v, c) && ClientCovered(v, c)
    ensures m.i in v'.clients && ClientCovered(v', v'.clients[m.i])
  {
    hide Covered, Ahead, Shape, InLog;
    var c := v.clients[m.i];
    ClientCoveredMore(v, v', c);
    match m
    case Describes(i, p) => EarliestCovered(v', c.group, Tp(c, p));
    case DescribeFails(i, p) => NothingBelow(v', c.group, Tp(c, p));
    case Resets(i, p) => EarliestCovered(v', c.group, Tp(c, p));
    case Processes(i) =>
      ProcessClient(v, c);
      RecordCovered(v, v', c.group, Tp(c, c.at), c.pos[c.at]);
    case _ =>
  }

  lemma CoverOf(v: View, i: nat)
    requires CoverInv(v) && i in v.clients
    ensures ClientCovered(v, v.clients[i]) && CommittedCovered(v)
  {
    hide ClientCovered, CommittedCovered, RequestCovered;
  }

  lemma ReadCovered(v: View, c: Client, p: uint16)
    requires Inv(v.w) && Bounded(v) && CommittedCovered(v) && ClientCovered(v, c)
    ensures ClientCovered(v, AfterRead(v, c, p))
  {
    hide Inv, Bounded, Covered, CommittedOffset;
    SmallCommitted(v, c, p);
  }

  lemma NothingBelow(v: View, group: bytes, tp: TopicPartition)
    ensures Covered(v, group, tp, 0)
  {
  }

  lemma EarliestCovered(v: View, group: bytes, tp: TopicPartition)
    requires tp in v.earliest && EarliestInv(v)
    ensures Covered(v, group, tp, v.earliest[tp])
  {
  }

  lemma RecordCovered(v: View, v': View, group: bytes, tp: TopicPartition, n: nat)
    requires Covered(v, group, tp, n) && More(v, v') && Mark(group, tp, n) in v'.processed
    ensures Covered(v', group, tp, n + 1)
  {
    CoveredMore(v, v', group, tp, n);
  }

  lemma CommitCovered(cfg: Config, v: View, i: nat, durable: bool, code: nat, heard: bool, v': View)
    requires ViewInv(v) && CoverInv(v) && i in v.clients && ClientMove(cfg, v, Commits(i, durable, code, heard), i, v')
    ensures CoverInv(v')
  {
    hide ViewInv, Step, CommitCode, Stored, Entries, CoverInv, CommittedCovered, RequestCovered, Covered, InLog, Ahead;
    var c := v.clients[i];
    CommitOnly(cfg, v.w, MeId(c), c.generation, Entries(c), durable, code, v'.w);
    OwnInv(v, i);
    CoverOf(v, i);
    ClientRequestCovered(v, c);
    var mid := v.(w := v'.w);
    if code == 0 {
      StoredCovered(v, mid, c.group, Entries(c));
    }
    RestCovered(v, mid);
    ClientCoveredMore(v, v', c);
    OneClientCovered(mid, v', i);
  }

  lemma LateCovered(cfg: Config, v: View, k: nat, durable: bool, code: nat, v': View)
    requires CoverInv(v) && Acts(cfg, v, LateCommit(k, durable, code), v')
    ensures CoverInv(v')
  {
    hide Step, CommitCode, Stored, CommittedCovered, RequestCovered, ClientCovered;
    var r := v.pending[k];
    CommitOnly(cfg, v.w, r.id, r.generation, r.entries, durable, code, v'.w);
    if code == 0 {
      StoredCovered(v, v', r.id.group, r.entries);
    } else {
      CommittedCoveredMore(v, v');
    }
    RestCovered(v, v');
  }

  lemma RestartCovered(cfg: Config, v: View, cut: Cut, kept: nat, marks: Watermarks, back: Watermarks, v': View)
    requires ViewInv(v) && CoverInv(v) && RestartMove(cfg, v, cut, kept, marks, back, v')
    ensures CoverInv(v')
  {
    hide ViewInv, CommitCode, Stored, Entries, CommitTaken, CommittedCovered, Covered, CoverInv, Shape, Landed;
    var id, generation, entries :| RestartedAs(cfg, v, cut, kept, marks, back, v', id, generation, entries);
    assert v'.w.s.committed == Stored(v.w.s.committed, id.group, entries[..kept]);
    CutCovered(v, cut, id, generation, entries, kept);
    assert CommittedCovered(v) by { CommittedOf(v); }
    StoredCovered(v, v', id.group, entries[..kept]);
    RestCovered(v, v');
  }

  lemma CommittedOf(v: View)
    requires CoverInv(v)
    ensures CommittedCovered(v)
  {
  }

  lemma CutCovered(v: View, cut: Cut, id: Id, generation: uint32, entries: seq<Entry>, kept: nat)
    requires ViewInv(v) && CoverInv(v) && CutBy(v, cut, id, generation, entries, kept) && kept <= |entries|
    ensures RequestCovered(v, id.group, entries[..kept])
  {
    hide ViewInv, Entries, CommittedCovered, Covered;
    match cut
    case NoCut =>
    case ByClient(i) =>
      OwnInv(v, i);
      ClientRequestCovered(v, v.clients[i]);
    case ByPending(k) =>
      assert RequestCovered(v, v.pending[k].id.group, v.pending[k].entries);
  }

  lemma JoinCovered(cfg: Config, v: View, i: nat, e: Event, v': View)
    requires ViewInv(v) && CoverInv(v) && i in v.clients && ClientMove(cfg, v, Joins(i, e), i, v')
    ensures CoverInv(v')
  {
    hide ViewInv, Step, CoverInv, CommittedCovered, RequestCovered, Covered;
    WorldOf(v);
    BackgroundCalm(cfg, v.w, e, v'.w);
    CoverOf(v, i);
    ClientCoveredMore(v, v', v.clients[i]);
    OneClientCovered(v, v', i);
  }

  lemma AbandonCovered(cfg: Config, v: View, i: nat, v': View)
    requires ViewInv(v) && CoverInv(v) && i in v.clients && ClientMove(cfg, v, Abandons(i), i, v')
    ensures CoverInv(v')
  {
    hide ViewInv, Entries, CommittedCovered, Covered, InLog, Ahead;
    var c := v.clients[i];
    OwnInv(v, i);
    ClientRequestCovered(v, c);
    CommittedCoveredMore(v, v');
    RequestCoveredMore(v, v', c.group, Entries(c));
    forall j | j in v'.clients
      ensures ClientCovered(v', v'.clients[j])
    {
      ClientCoveredMore(v, v', v.clients[j]);
    }
    forall k | 0 <= k < |v.pending|
      ensures RequestCovered(v', v.pending[k].id.group, v.pending[k].entries)
    {
      RequestCoveredMore(v, v', v.pending[k].id.group, v.pending[k].entries);
    }
  }

  lemma MoveCovered(cfg: Config, v: View, m: Move, v': View)
    requires ViewInv(v) && Bounded(v) && CoverInv(v) && Acts(cfg, v, m, v') && (m.Starts? ==> !m.latest)
    ensures CoverInv(v')
  {
    hide ViewInv, Bounded, CoverInv, Step, RestartMove, CommittedCovered, RequestCovered, Covered;
    match m
    case Others(e) =>
      WorldOf(v);
      BackgroundCalm(cfg, v.w, e, v'.w);
      CommittedOf(v);
      CommittedCoveredMore(v, v');
      RestCovered(v, v');
    case Starts(i, group, topic, latest) => OneClientCovered(v, v', i);
    case Dies(i) =>
      CommittedOf(v);
      CommittedCoveredMore(v, v');
      RestCovered(v, v');
    case Trims(_) =>
      CommittedOf(v);
      CommittedCoveredMore(v, v');
      RestCovered(v, v');
    case Joins(i, e) => JoinCovered(cfg, v, i, e, v');
    case Commits(i, durable, code, heard) => CommitCovered(cfg, v, i, durable, code, heard, v');
    case Abandons(i) => AbandonCovered(cfg, v, i, v');
    case LateCommit(k, durable, code) => LateCovered(cfg, v, k, durable, code, v');
    case BrokerRestarts(cut, kept, marks, back) => RestartCovered(cfg, v, cut, kept, marks, back, v');
    case _ => LocalCovered(cfg, v, m, v');
  }

  ghost predicate AllFromEarliest(ms: seq<Move>) {
    forall n :: 0 <= n < |ms| && ms[n].Starts? ==> !ms[n].latest
  }

  lemma {:induction false} HistoryCovered(cfg: Config, vs: seq<View>, ms: seq<Move>, n: nat)
    requires History(cfg, vs, ms) && AllFromEarliest(ms) && n < |vs|
    ensures CoverInv(vs[n])
    decreases n
  {
    hide ViewInv, Acts, Bounded;
    if n > 0 {
      hide CoverInv;
      HistoryCovered(cfg, vs, ms, n - 1);
      HistoryKeeps(cfg, vs, ms, n - 1);
      assert Acts(cfg, vs[n - 1], ms[n - 1], vs[n - 1 + 1]);
      MoveCovered(cfg, vs[n - 1], ms[n - 1], vs[n]);
    }
  }

  /** At least once: when every client starts from the earliest record, then in every history every record below a
      committed offset was processed by some member of the group, or was dropped by a retention pass at some time. */
  lemma AtLeastOnce(cfg: Config, vs: seq<View>, ms: seq<Move>, n: nat, key: CommitKey, o: nat)
    requires History(cfg, vs, ms) && AllFromEarliest(ms) && n < |vs|
    requires key in vs[n].w.s.committed && o < vs[n].w.s.committed[key]
    ensures Mark(key.group, key.tp, o) in vs[n].processed || (key.tp in vs[n].dropped && o < vs[n].dropped[key.tp])
  {
    hide Acts, Bounded, ClientCovered, RequestCovered;
    HistoryCovered(cfg, vs, ms, n);
    assert Covered(vs[n], key.group, key.tp, vs[n].w.s.committed[key]);
  }

  /** No restart so far has brought dropped records back. */
  ghost predicate NoneBack(vs: seq<View>, ms: seq<Move>, n: nat)
    requires n < |vs| == |ms| + 1
  {
    forall i :: 0 <= i < n && ms[i].BrokerRestarts? ==> vs[i + 1].earliest == vs[i].earliest
  }

  lemma {:induction false} DroppedIsGone(cfg: Config, vs: seq<View>, ms: seq<Move>, n: nat)
    requires History(cfg, vs, ms) && n < |vs| && NoneBack(vs, ms, n)
    ensures vs[n].dropped == vs[n].earliest
    decreases n
  {
    hide Acts, Bounded;
    if n > 0 {
      DroppedIsGone(cfg, vs, ms, n - 1);
      assert Acts(cfg, vs[n - 1], ms[n - 1], vs[n - 1 + 1]);
      StillGone(cfg, vs[n - 1], ms[n - 1], vs[n]);
    }
  }

  lemma StillGone(cfg: Config, v: View, m: Move, v': View)
    requires Acts(cfg, v, m, v') && v.dropped == v.earliest && (m.BrokerRestarts? ==> v'.earliest == v.earliest)
    ensures v'.dropped == v'.earliest
  {
    hide Step, Entries;
  }

  /** Where no crash comes between a retention pass and the removal of its files, every record below a committed
      offset was processed or is deleted for good. */
  lemma AtLeastOnceOrDeleted(cfg: Config, vs: seq<View>, ms: seq<Move>, n: nat, key: CommitKey, o: nat)
    requires History(cfg, vs, ms) && AllFromEarliest(ms) && n < |vs| && NoneBack(vs, ms, n)
    requires key in vs[n].w.s.committed && o < vs[n].w.s.committed[key]
    ensures Mark(key.group, key.tp, o) in vs[n].processed || (key.tp in vs[n].earliest && o < vs[n].earliest[key.tp])
  {
    hide Acts, Bounded;
    AtLeastOnce(cfg, vs, ms, n, key, o);
    DroppedIsGone(cfg, vs, ms, n);
  }

  /** A record below a committed offset is neither processed nor deleted exactly if it was never processed and lies
      among the records that retention dropped and a restart brought back. */
  lemma CameBackExactly(cfg: Config, vs: seq<View>, ms: seq<Move>, n: nat, key: CommitKey, o: nat)
    requires History(cfg, vs, ms) && AllFromEarliest(ms) && n < |vs|
    requires key in vs[n].w.s.committed && o < vs[n].w.s.committed[key] && key.tp in vs[n].earliest
    ensures var v := vs[n];
            var lost := Mark(key.group, key.tp, o) !in v.processed && o >= v.earliest[key.tp];
            && (lost <==> && Mark(key.group, key.tp, o) !in v.processed && key.tp in v.dropped
                          && v.earliest[key.tp] <= o < v.dropped[key.tp])
            && (lost ==> !NoneBack(vs, ms, n))
  {
    hide Acts, Bounded, NoneBack;
    AtLeastOnce(cfg, vs, ms, n, key, o);
    if NoneBack(vs, ms, n) {
      AtLeastOnceOrDeleted(cfg, vs, ms, n, key, o);
    }
  }
}
