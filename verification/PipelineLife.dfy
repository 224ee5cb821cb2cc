/** When connections come and go, told from what was received, answered and sent. */
module PipelineLife {
  import opened Bytes
  import opened Frames
  import opened Pipeline
  import opened PipelineRuns

  /** How many bytes of its answers a connection has not been sent yet. */
  function Owed(h: History, id: nat): int
    requires id in h.answers && id in h.sent
  {
    |Wire(h.answers[id])| - |h.sent[id]|
  }

  /** The same without the last answer. */
  function OwedBefore(h: History, id: nat): int
    requires id in h.answers && id in h.sent && h.answers[id] != []
  {
    |Wire(h.answers[id][..|h.answers[id]| - 1])| - |h.sent[id]|
  }

  /** The completion at hand is for this connection. */
  predicate IsFor(s: Server, a: Action, id: nat) {
    a.Handles? && s.batch != [] && s.batch[0].conn == id
  }

  /** What ends a connection: a close, a failed send, or an answer with which it is owed more than the limit. */
  ghost predicate Ends(w: World, a: Action, maxOutput: nat, id: nat)
    requires id in w.h.answers && id in w.h.sent
  {
    || a == Closes(id)
    || a == Flushes(id, Failed)
    || (IsFor(w.s, a, id) &&
        (Owed(w.h, id) > maxOutput || (a.result.Failed? && w.h.answers[id] != [] && OwedBefore(w.h, id) == 0)))
  }

  lemma OwedIs(w: World, id: nat, returning: bytes)
    requires Accounts(w, id, [], returning) && IsLast(w, Completion(id, returning))
    ensures Owed(w.h, id) == |w.s.conns[id].Unsent()| + |returning| && OwedBefore(w.h, id) == |w.s.conns[id].Unsent()|
  {
    hide Encode;
  }

  /** What handling a completion does to a live connection. */
  lemma HandleExactly(maxConns: nat, maxOutput: nat, w: World, r: SendResult, w': World)
    requires Inv(w) && Step(maxConns, maxOutput, w, Handles(r), w') && w.s.batch[0].conn in w.s.conns
    ensures var id := w.s.batch[0].conn;
            && id in w.h.answers && id in w.h.sent
            && (id in w'.s.conns <==> !Ends(w, Handles(r), maxOutput, id))
            && w'.s.conns.Keys == if id in w'.s.conns then w.s.conns.Keys else w.s.conns.Keys - {id}
  {
    hide Jobs, Encode, Taken, Wire, DispatchNext, Loads, Accounts, IsLast;
    var id := w.s.batch[0].conn;
    assert DoneInv(w, w.s.batch[0]);
    LoggedOf(w, id, [], w.s.batch[0].response);
    OwedIs(w, id, w.s.batch[0].response);
    LastThere(w, w.s.batch[0]);
    var c := w.s.conns[id].(inFlight := false);
    assert c.Valid() && c.Unsent() == w.s.conns[id].Unsent();
    EmitConserves(c, w.s.batch[0].response, r);
    HandleKeys(w.s, maxOutput, r);
  }

  lemma LastThere(w: World, d: Completion)
    requires IsLast(w, d)
    ensures d.conn in w.h.answers && w.h.answers[d.conn] != []
  {
  }

  lemma HandleKeys(s: Server, limit: nat, r: SendResult)
    requires s.batch != [] && s.batch[0].conn in s.conns && forall id :: id in s.conns ==> s.conns[id].Valid()
    ensures var id, c := s.batch[0].conn, s.conns[s.batch[0].conn].(inFlight := false);
            Handle(s, limit, r).conns.Keys ==
            if |s.conns[id].Unsent()| + |s.batch[0].response| > limit || Emit(c, s.batch[0].response, r).None?
            then s.conns.Keys - {id} else s.conns.Keys
  {
    hide Emit;
  }

  /** Over every interleaving, a live connection goes exactly when it is closed, a send on it fails, or a response comes
      with which it is owed more than the limit of bytes; that counts what was answered and not sent, nothing else. */
  lemma EndsExactly(maxConns: nat, maxOutput: nat, ws: seq<World>, actions: seq<Action>, n: nat, id: nat)
    requires Run(maxConns, maxOutput, ws, actions) && n < |actions| && id in ws[n].s.conns
    ensures id in ws[n].h.answers && id in ws[n].h.sent
    ensures id !in ws[n + 1].s.conns <==> Ends(ws[n], actions[n], maxOutput, id)
  {
    hide Step, Accounts, Jobs, Loads, Items, IdleInv, Owed, OwedBefore;
    RunKeeps(maxConns, maxOutput, ws, actions, n);
    var w, a, w' := ws[n], actions[n], ws[n + 1];
    assert Step(maxConns, maxOutput, w, a, w');
    assert Logged(w, id);
    if a.Handles? {
      HandleGuard(maxConns, maxOutput, w, a.result, w');
      if w.s.batch[0].conn in w.s.conns {
        HandleExactly(maxConns, maxOutput, w, a.result, w');
      } else {
        HandleGone(maxConns, maxOutput, w, a.result, w');
      }
    } else {
      OthersStay(maxConns, maxOutput, w, a, w', id);
    }
  }

  lemma OthersStay(maxConns: nat, maxOutput: nat, w: World, a: Action, w': World, id: nat)
    requires Step(maxConns, maxOutput, w, a, w') && !a.Handles? && id in w.s.conns
    ensures id !in w'.s.conns <==> a == Closes(id) || a == Flushes(id, Failed)
  {
    hide Handle, HandleHistory, Encode;
  }

  /** When a response comes and the connection stays, it is on the wire or waits its turn: what was sent and what waits
      are all the answers, this one included. */
  lemma AnswerGoesOut(maxConns: nat, maxOutput: nat, ws: seq<World>, actions: seq<Action>, n: nat, id: nat)
    requires Run(maxConns, maxOutput, ws, actions) && n < |actions| && IsFor(ws[n].s, actions[n], id)
    requires id in ws[n].s.conns && id in ws[n + 1].s.conns
    ensures var w, w' := ws[n], ws[n + 1];
            && id in w.h.answers && Logged(w', id) && w'.h.answers == w.h.answers
            && w'.h.sent[id] + w'.s.conns[id].Unsent() == Wire(w.h.answers[id])
  {
    hide Step, Accounts, Jobs, Loads, IdleInv, Emit, Taken, Wire, DispatchNext, Encode, IsLast;
    RunKeeps(maxConns, maxOutput, ws, actions, n);
    var w, r, w' := ws[n], actions[n].result, ws[n + 1];
    assert Step(maxConns, maxOutput, w, actions[n], w');
    HandleGuard(maxConns, maxOutput, w, r, w');
    HandleStays(maxConns, maxOutput, w, r, w');
    assert DoneInv(w, w.s.batch[0]);
    EmitAccounts(w, r);
    AllOut(Emitted(w, r), id);
    DispatchOut(Emitted(w, r), id);
  }

  lemma AllOut(w: World, id: nat)
    requires Accounts(w, id, [], [])
    ensures Logged(w, id) && w.h.sent[id] + w.s.conns[id].Unsent() == Wire(w.h.answers[id])
  {
    hide Wire;
    var out := w.h.sent[id] + w.s.conns[id].Unsent();
    assert out + [] == out;
  }

  lemma DispatchOut(w: World, id: nat)
    requires Logged(w, id)
    ensures var w' := World(DispatchNext(w.s, id), w.h);
            Logged(w', id) && w'.s.conns[id].Unsent() == w.s.conns[id].Unsent()
  {
  }

  /** What a step gives to the socket of a connection: of a response, if nothing waits before it, and of what waits. */
  function Given(h: History, s: Server, a: Action, id: nat): nat
    requires id in h.answers && id in h.sent
  {
    if IsFor(s, a, id) && a.result.Accepted? && h.answers[id] != [] && OwedBefore(h, id) == 0 then a.result.n
    else if a.Flushes? && a.conn == id && a.result.Accepted? then a.result.n
    else 0
  }

  /** A connection that stays has been sent exactly what its socket took. */
  lemma SentExactly(maxConns: nat, maxOutput: nat, ws: seq<World>, actions: seq<Action>, n: nat, id: nat)
    requires Run(maxConns, maxOutput, ws, actions) && n < |actions| && id in ws[n].s.conns && id in ws[n + 1].s.conns
    ensures var h, h' := ws[n].h, ws[n + 1].h;
            && id in h.answers && id in h.sent && id in h'.sent
            && |h'.sent[id]| == |h.sent[id]| + Given(h, ws[n].s, actions[n], id) && h.sent[id] <= h'.sent[id]
  {
    hide Step, Accounts, Jobs, Loads, Items, IdleInv, OwedBefore;
    RunKeeps(maxConns, maxOutput, ws, actions, n);
    var w, a, w' := ws[n], actions[n], ws[n + 1];
    assert Step(maxConns, maxOutput, w, a, w');
    assert Logged(w, id);
    if IsFor(w.s, a, id) {
      HandleSends(maxConns, maxOutput, w, a.result, w');
    } else {
      OthersSend(maxConns, maxOutput, w, a, w', id);
    }
  }

  lemma HandleSends(maxConns: nat, maxOutput: nat, w: World, r: SendResult, w': World)
    requires Inv(w) && Step(maxConns, maxOutput, w, Handles(r), w') && w.s.batch[0].conn in w.s.conns
    requires w.s.batch[0].conn in w'.s.conns
    ensures var id := w.s.batch[0].conn;
            && id in w.h.answers && id in w.h.sent && id in w'.h.sent && w.h.sent[id] <= w'.h.sent[id]
            && |w'.h.sent[id]| == |w.h.sent[id]| + Given(w.h, w.s, Handles(r), id)
  {
    hide Step, Accounts, Jobs, Emit, Wire, DispatchNext, Loads, Encode, IsLast;
    HandleGuard(maxConns, maxOutput, w, r, w');
    var id := w.s.batch[0].conn;
    assert DoneInv(w, w.s.batch[0]);
    LoggedOf(w, id, [], w.s.batch[0].response);
    OwedIs(w, id, w.s.batch[0].response);
    LastThere(w, w.s.batch[0]);
    HandleStays(maxConns, maxOutput, w, r, w');
  }

  lemma OthersSend(maxConns: nat, maxOutput: nat, w: World, a: Action, w': World, id: nat)
    requires Step(maxConns, maxOutput, w, a, w') && !IsFor(w.s, a, id) && id in w.s.conns && id in w'.s.conns
    requires id in w.h.answers && id in w.h.sent && id < w.s.nextId
    ensures id in w'.h.sent && w.h.sent[id] <= w'.h.sent[id]
    ensures |w'.h.sent[id]| == |w.h.sent[id]| + Given(w.h, w.s, a, id)
  {
    hide Handle, Encode, Taken, OwedBefore;
  }

  // ---- New connections -----------------------------------------------------------------------------

  /** There are never more connections than the limit, and a new one is refused exactly if there are as many. */
  lemma {:induction false} ConnectionLimit(maxConns: nat, maxOutput: nat, ws: seq<World>, actions: seq<Action>, n: nat)
    requires Run(maxConns, maxOutput, ws, actions) && n < |ws|
    ensures |ws[n].s.conns| <= maxConns
    ensures n < |actions| && actions[n].Accepts? ==>
              if |ws[n].s.conns| == maxConns then ws[n + 1] == ws[n]
              else ws[n + 1].s.conns == ws[n].s.conns[ws[n].s.nextId := NEW] && ws[n].s.nextId !in ws[n].s.conns
    decreases n
  {
    hide Accounts, Jobs, Loads, Items, IdleInv, Step;
    RunKeeps(maxConns, maxOutput, ws, actions, n);
    if n > 0 {
      ConnectionLimit(maxConns, maxOutput, ws, actions, n - 1);
      assert Step(maxConns, maxOutput, ws[n - 1], actions[n - 1], ws[n - 1 + 1]);
      StaysWithin(maxConns, maxOutput, ws[n - 1], actions[n - 1], ws[n]);
    }
    if n < |actions| && actions[n].Accepts? {
      assert Step(maxConns, maxOutput, ws[n], actions[n], ws[n + 1]);
      AcceptExactly(maxConns, maxOutput, ws[n], ws[n + 1]);
    }
  }

  lemma AcceptExactly(maxConns: nat, maxOutput: nat, w: World, w': World)
    requires Step(maxConns, maxOutput, w, Accepts, w') && |w.s.conns| <= maxConns
    requires forall id :: id in w.s.conns ==> id < w.s.nextId
    ensures if |w.s.conns| == maxConns then w' == w
            else w'.s.conns == w.s.conns[w.s.nextId := NEW] && w.s.nextId !in w.s.conns
  {
  }

  lemma StaysWithin(maxConns: nat, maxOutput: nat, w: World, a: Action, w': World)
    requires Step(maxConns, maxOutput, w, a, w') && |w.s.conns| <= maxConns
    ensures |w'.s.conns| <= maxConns
  {
    hide HandleHistory, Encode;
    if a.Accepts? {
    } else if a.Handles? && w.s.batch[0].conn in w.s.conns {
      HandleKeys(w.s, maxOutput, a.result);
      Fewer(w'.s.conns, w.s.conns);
    } else {
      FewerKeys(maxConns, maxOutput, w, a, w');
      Fewer(w'.s.conns, w.s.conns);
    }
  }

  lemma FewerKeys(maxConns: nat, maxOutput: nat, w: World, a: Action, w': World)
    requires Step(maxConns, maxOutput, w, a, w') && !a.Accepts?
    requires a.Handles? ==> w.s.batch[0].conn !in w.s.conns
    ensures w'.s.conns.Keys <= w.s.conns.Keys
  {
    hide HandleHistory, Encode, Emit;
  }

  lemma Fewer(a: map<nat, Connection>, b: map<nat, Connection>)
    requires a.Keys <= b.Keys
    ensures |a| <= |b|
  {
    assert |a| == |a.Keys| && |b| == |b.Keys|;
    SubsetSmaller(a.Keys, b.Keys);
  }
}
