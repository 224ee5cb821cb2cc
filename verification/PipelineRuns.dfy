/** Whatever the interleaving of the I/O thread and the workers, every connection gets its responses in request
    order. */
module PipelineRuns {
  import opened Bytes
  import opened Frames
  import opened Pipeline

  // ---- Where the requests are ----------------------------------------------------------------------

  function One(b: bool): nat {
    if b then 1 else 0
  }

  function TaskCount(ts: seq<Task>, id: nat): nat {
    if ts == [] then 0 else One(ts[0].conn == id) + TaskCount(ts[1..], id)
  }

  function DoneCount(ds: seq<Completion>, id: nat): nat {
    if ds == [] then 0 else One(ds[0].conn == id) + DoneCount(ds[1..], id)
  }

  predicate Holds(w: Option<Task>, id: nat) {
    w.Some? && w.value.conn == id
  }

  function HeldCount(ws: seq<Option<Task>>, id: nat): nat {
    if ws == [] then 0 else One(Holds(ws[0], id)) + HeldCount(ws[1..], id)
  }

  /** How many requests of a connection are in the task queue, with a worker, or on the way back. */
  function Jobs(s: Server, id: nat): nat {
    TaskCount(s.tasks, id) + HeldCount(s.workers, id) + DoneCount(s.completions, id) + DoneCount(s.batch, id)
  }

  lemma {:induction false} TaskCountSnoc(ts: seq<Task>, t: Task, id: nat)
    ensures TaskCount(ts + [t], id) == TaskCount(ts, id) + One(t.conn == id)
    decreases |ts|
  {
    if ts == [] {
      assert ts + [t] == [t] && [t][1..] == [];
    } else {
      TaskCountSnoc(ts[1..], t, id);
      assert (ts + [t])[1..] == ts[1..] + [t];
    }
  }

  lemma {:induction false} DoneCountSnoc(ds: seq<Completion>, d: Completion, id: nat)
    ensures DoneCount(ds + [d], id) == DoneCount(ds, id) + One(d.conn == id)
    decreases |ds|
  {
    if ds == [] {
      assert ds + [d] == [d] && [d][1..] == [];
    } else {
      DoneCountSnoc(ds[1..], d, id);
      assert (ds + [d])[1..] == ds[1..] + [d];
    }
  }

  lemma {:induction false} HeldUpdate(ws: seq<Option<Task>>, k: nat, w: Option<Task>, id: nat)
    requires k < |ws|
    ensures HeldCount(ws[k := w], id) + One(Holds(ws[k], id)) == HeldCount(ws, id) + One(Holds(w, id))
    decreases |ws|
  {
    if k == 0 {
      assert ws[k := w][1..] == ws[1..];
    } else {
      HeldUpdate(ws[1..], k - 1, w, id);
      assert ws[k := w][1..] == ws[1..][k - 1 := w];
    }
  }

  lemma {:induction false} TaskCounted(ts: seq<Task>, i: nat)
    requires i < |ts|
    ensures TaskCount(ts, ts[i].conn) >= 1
    decreases |ts|
  {
    if i > 0 {
      TaskCounted(ts[1..], i - 1);
    }
  }

  lemma {:induction false} DoneCounted(ds: seq<Completion>, i: nat)
    requires i < |ds|
    ensures DoneCount(ds, ds[i].conn) >= 1
    decreases |ds|
  {
    if i > 0 {
      DoneCounted(ds[1..], i - 1);
    }
  }

  lemma {:induction false} HeldCounted(ws: seq<Option<Task>>, k: nat)
    requires k < |ws| && ws[k].Some?
    ensures HeldCount(ws, ws[k].value.conn) >= 1
    decreases |ws|
  {
    if k > 0 {
      HeldCounted(ws[1..], k - 1);
    }
  }

  // ---- The invariant -------------------------------------------------------------------------------

  function Requests(answers: seq<Answer>): (rs: seq<Frame>)
    ensures |rs| == |answers| && forall i :: 0 <= i < |rs| ==> rs[i] == answers[i].request
  {
    seq(|answers|, i requires 0 <= i < |answers| => answers[i].request)
  }

  function Responses(answers: seq<Answer>): (rs: seq<Frame>)
    ensures |rs| == |answers| && forall i :: 0 <= i < |rs| ==> rs[i] == answers[i].response
  {
    seq(|answers|, i requires 0 <= i < |answers| => answers[i].response)
  }

  /** The responses as they go over the wire. */
  function Wire(answers: seq<Answer>): bytes {
    if answers == [] then [] else Wire(answers[..|answers| - 1]) + Encode(answers[|answers| - 1].response)
  }

  ghost predicate Logged(w: World, id: nat) {
    && id in w.s.conns && w.s.conns[id].Valid() && id < w.s.nextId
    && id in w.h.received && id in w.h.answers && id in w.h.sent
  }

  /** The received requests are those answered, those under way, and those waiting; and the answers are on the wire,
      in the output buffer, or on the way there. */
  ghost predicate Accounts(w: World, id: nat, underWay: seq<Frame>, returning: bytes) {
    && Logged(w, id)
    && w.h.received[id] == Requests(w.h.answers[id]) + underWay + w.s.conns[id].pending
    && Wire(w.h.answers[id]) == w.h.sent[id] + w.s.conns[id].Unsent() + returning
  }

  ghost predicate TaskInv(w: World, t: Task) {
    t.conn in w.h.answers && t.conn < w.s.nextId && (t.conn in w.s.conns ==> Accounts(w, t.conn, [t.request], []))
  }

  ghost predicate DoneInv(w: World, d: Completion) {
    d.conn < w.s.nextId && (d.conn in w.s.conns ==> Accounts(w, d.conn, [], d.response) && IsLast(w, d))
  }

  /** The response is that to the last request answered. */
  ghost predicate IsLast(w: World, d: Completion) {
    && d.conn in w.h.answers && w.h.answers[d.conn] != []
    && var answers := w.h.answers[d.conn];
    d.response == Encode(answers[|answers| - 1].response)
  }

  ghost predicate IdleInv(w: World, id: nat)
    requires id in w.s.conns
  {
    !w.s.conns[id].inFlight ==> w.s.conns[id].pending == [] && Accounts(w, id, [], [])
  }

  ghost predicate Loads(s: Server) {
    && (forall id :: Jobs(s, id) <= 1)
    && forall id :: id in s.conns ==> (s.conns[id].inFlight <==> Jobs(s, id) == 1)
  }

  ghost predicate Items(w: World) {
    && (forall i :: 0 <= i < |w.s.tasks| ==> TaskInv(w, w.s.tasks[i]))
    && (forall k :: 0 <= k < |w.s.workers| && w.s.workers[k].Some? ==> TaskInv(w, w.s.workers[k].value))
    && (forall i :: 0 <= i < |w.s.completions| ==> DoneInv(w, w.s.completions[i]))
    && (forall i :: 0 <= i < |w.s.batch| ==> DoneInv(w, w.s.batch[i]))
  }

  ghost predicate Inv(w: World) {
    && Loads(w.s) && Items(w)
    && (forall id :: id in w.h.sent ==> id < w.s.nextId)
    && forall id :: id in w.s.conns ==> Logged(w, id) && IdleInv(w, id)
  }

  // ---- What a step leaves alone --------------------------------------------------------------------

  /** For this connection nothing has changed. */
  ghost predicate Same(w: World, w': World, id: nat) {
    && w.s.nextId <= w'.s.nextId
    && (id in w.h.answers ==> id in w'.h.answers)
    && (id in w'.s.conns ==>
      && id in w.s.conns && w'.s.conns[id] == w.s.conns[id]
      && (id in w.h.received ==> id in w'.h.received && w'.h.received[id] == w.h.received[id])
      && (id in w.h.answers ==> w'.h.answers[id] == w.h.answers[id])
      && (id in w.h.sent ==> id in w'.h.sent && w'.h.sent[id] == w.h.sent[id]))
  }

  lemma SameTask(w: World, w': World, t: Task)
    requires TaskInv(w, t) && Same(w, w', t.conn)
    ensures TaskInv(w', t)
  {
  }

  lemma SameDone(w: World, w': World, d: Completion)
    requires DoneInv(w, d) && Same(w, w', d.conn)
    ensures DoneInv(w', d)
  {
  }

  lemma SameIdle(w: World, w': World, id: nat)
    requires id in w.s.conns && id in w'.s.conns && Logged(w, id) && IdleInv(w, id) && Same(w, w', id)
    ensures Logged(w', id) && IdleInv(w', id)
  {
  }

  /** A connection without requests under way has no item anywhere. */
  ghost predicate Nowhere(s: Server, id: nat) {
    && (forall i :: 0 <= i < |s.tasks| ==> s.tasks[i].conn != id)
    && (forall k :: 0 <= k < |s.workers| && s.workers[k].Some? ==> s.workers[k].value.conn != id)
    && (forall i :: 0 <= i < |s.completions| ==> s.completions[i].conn != id)
    && (forall i :: 0 <= i < |s.batch| ==> s.batch[i].conn != id)
  }

  lemma NoJobs(s: Server, id: nat)
    requires Jobs(s, id) == 0
    ensures Nowhere(s, id)
  {
    forall i | 0 <= i < |s.tasks| ensures s.tasks[i].conn != id { TaskCounted(s.tasks, i); }
    forall k | 0 <= k < |s.workers| && s.workers[k].Some?
      ensures s.workers[k].value.conn != id
    {
      HeldCounted(s.workers, k);
    }
    forall i | 0 <= i < |s.completions| ensures s.completions[i].conn != id { DoneCounted(s.completions, i); }
    forall i | 0 <= i < |s.batch| ensures s.batch[i].conn != id { DoneCounted(s.batch, i); }
  }

  lemma {:induction false} NoTasks(ts: seq<Task>, id: nat)
    requires forall i :: 0 <= i < |ts| ==> ts[i].conn != id
    ensures TaskCount(ts, id) == 0
    decreases |ts|
  {
    if ts != [] {
      NoTasks(ts[1..], id);
    }
  }

  lemma {:induction false} NoHeld(ws: seq<Option<Task>>, id: nat)
    requires forall k :: 0 <= k < |ws| && ws[k].Some? ==> ws[k].value.conn != id
    ensures HeldCount(ws, id) == 0
    decreases |ws|
  {
    if ws != [] {
      NoHeld(ws[1..], id);
    }
  }

  lemma {:induction false} NoDones(ds: seq<Completion>, id: nat)
    requires forall i :: 0 <= i < |ds| ==> ds[i].conn != id
    ensures DoneCount(ds, id) == 0
    decreases |ds|
  {
    if ds != [] {
      NoDones(ds[1..], id);
    }
  }

  lemma NowhereNoJobs(s: Server, id: nat)
    requires Nowhere(s, id)
    ensures Jobs(s, id) == 0
  {
    NoTasks(s.tasks, id);
    NoHeld(s.workers, id);
    NoDones(s.completions, id);
    NoDones(s.batch, id);
  }

  lemma SameJobs(s: Server, s': Server)
    requires s'.tasks == s.tasks && s'.workers == s.workers && s'.completions == s.completions && s'.batch == s.batch
    ensures forall id :: Jobs(s', id) == Jobs(s, id)
  {
  }

  lemma NewTaskJobs(s: Server, s': Server, t: Task)
    requires s'.tasks == s.tasks + [t] && s'.workers == s.workers && s'.completions == s.completions &&
             s'.batch == s.batch
    ensures forall id :: Jobs(s', id) == Jobs(s, id) + One(t.conn == id)
  {
    forall id
      ensures Jobs(s', id) == Jobs(s, id) + One(t.conn == id)
    {
      TaskCountSnoc(s.tasks, t, id);
    }
  }

  lemma TakeJobs(s: Server, k: nat)
    requires k < |s.workers| && s.workers[k].None? && s.tasks != []
    ensures forall id :: Jobs(Take(s, k), id) == Jobs(s, id)
  {
    forall id
      ensures Jobs(Take(s, k), id) == Jobs(s, id)
    {
      HeldUpdate(s.workers, k, Some(s.tasks[0]), id);
    }
  }

  lemma CompleteJobs(s: Server, k: nat, response: Frame)
    requires k < |s.workers| && s.workers[k].Some?
    ensures forall id :: Jobs(Complete(s, k, response), id) == Jobs(s, id)
  {
    hide Encode;
    forall id
      ensures Jobs(Complete(s, k, response), id) == Jobs(s, id)
    {
      HeldUpdate(s.workers, k, None, id);
      DoneCountSnoc(s.completions, Completion(s.workers[k].value.conn, Encode(response)), id);
    }
  }

  lemma PopJobs(s: Server)
    requires s.batch == []
    ensures forall id :: Jobs(PopAll(s), id) == Jobs(s, id)
  {
  }

  lemma BatchJobs(s: Server, s': Server)
    requires s.batch != [] && s'.tasks == s.tasks && s'.workers == s.workers && s'.completions == s.completions
    requires s'.batch == s.batch[1..]
    ensures forall id :: Jobs(s, id) == Jobs(s', id) + One(s.batch[0].conn == id)
  {
  }

  /** What a worker holds is nowhere else. */
  lemma HeldAlone(s: Server, k: nat)
    requires k < |s.workers| && s.workers[k].Some? && Jobs(s, s.workers[k].value.conn) <= 1
    ensures Nowhere(s.(workers := s.workers[k := None]), s.workers[k].value.conn)
  {
    var id := s.workers[k].value.conn;
    HeldUpdate(s.workers, k, None, id);
    NoJobs(s.(workers := s.workers[k := None]), id);
  }

  // ---- Every step keeps the invariant ---------------------------------------------------------------

  /** All items of `w'` are items of `w`, except that those of one connection are accounted for separately. */
  ghost predicate Carried(w: World, w': World, id: nat) {
    && (forall i :: 0 <= i < |w'.s.tasks| ==>
          TaskInv(w', w'.s.tasks[i]) || (w'.s.tasks[i].conn != id && TaskInv(w, w'.s.tasks[i])))
    && (forall k :: 0 <= k < |w'.s.workers| && w'.s.workers[k].Some? ==>
      TaskInv(w', w'.s.workers[k].value) || (w'.s.workers[k].value.conn != id && TaskInv(w, w'.s.workers[k].value)))
    && (forall i :: 0 <= i < |w'.s.completions| ==>
      DoneInv(w', w'.s.completions[i]) || (w'.s.completions[i].conn != id && DoneInv(w, w'.s.completions[i])))
    && (forall i :: 0 <= i < |w'.s.batch| ==>
          DoneInv(w', w'.s.batch[i]) || (w'.s.batch[i].conn != id && DoneInv(w, w'.s.batch[i])))
  }

  lemma CarriedItems(w: World, w': World, id: nat)
    requires Carried(w, w', id) && forall other :: other != id ==> Same(w, w', other)
    ensures Items(w')
  {
    hide TaskInv, DoneInv, Same;
    forall i | 0 <= i < |w'.s.tasks| ensures TaskInv(w', w'.s.tasks[i]) {
      if !TaskInv(w', w'.s.tasks[i]) { SameTask(w, w', w'.s.tasks[i]); }
    }
    forall k | 0 <= k < |w'.s.workers| && w'.s.workers[k].Some? ensures TaskInv(w', w'.s.workers[k].value) {
      if !TaskInv(w', w'.s.workers[k].value) { SameTask(w, w', w'.s.workers[k].value); }
    }
    forall i | 0 <= i < |w'.s.completions| ensures DoneInv(w', w'.s.completions[i]) {
      if !DoneInv(w', w'.s.completions[i]) { SameDone(w, w', w'.s.completions[i]); }
    }
    forall i | 0 <= i < |w'.s.batch| ensures DoneInv(w', w'.s.batch[i]) {
      if !DoneInv(w', w'.s.batch[i]) { SameDone(w, w', w'.s.batch[i]); }
    }
  }

  /** Everything but one connection, which is given. */
  lemma Rest(w: World, w': World, id: nat)
    requires Inv(w) && Loads(w'.s) && Carried(w, w', id) && forall other :: other != id ==> Same(w, w', other)
    requires w.s.nextId <= w'.s.nextId && forall j :: j in w'.h.sent ==> j in w.h.sent || j < w'.s.nextId
    requires id in w'.s.conns ==> Logged(w', id) && IdleInv(w', id)
    ensures Inv(w')
  {
    hide TaskInv, DoneInv, Loads, Carried, IdleInv, Logged;
    CarriedItems(w, w', id);
    forall other | other in w'.s.conns && other != id
      ensures Logged(w', other) && IdleInv(w', other)
    {
      assert Same(w, w', other);
      SameIdle(w, w', other);
    }
  }

  lemma AcceptKeeps(maxConns: nat, maxOutput: nat, w: World, w': World)
    requires Inv(w) && Step(maxConns, maxOutput, w, Accepts, w')
    ensures Inv(w')
  {
    hide Accounts, Jobs, Encode;
    var id := w.s.nextId;
    if w'.s != w.s {
      assert Nowhere(w.s, id);
      NowhereNoJobs(w.s, id);
      SameJobs(w.s, w'.s);
      NewAccounts(w', id);
      Rest(w, w', id);
    }
  }

  lemma NewAccounts(w: World, id: nat)
    requires Logged(w, id) && w.s.conns[id] == NEW && w.h.received[id] == [] && w.h.answers[id] == [] &&
             w.h.sent[id] == []
    ensures Accounts(w, id, [], [])
  {
  }

  lemma ReceiveKeeps(maxConns: nat, maxOutput: nat, w: World, id: nat, f: Frame, w': World)
    requires Inv(w) && Step(maxConns, maxOutput, w, Receives(id, f), w')
    ensures Inv(w')
  {
    if w.s.conns[id].inFlight {
      ReceiveLater(maxConns, maxOutput, w, id, f, w');
    } else {
      ReceiveNow(maxConns, maxOutput, w, id, f, w');
    }
  }

  lemma MoreWaits(w: World, w': World, id: nat, f: Frame, under: seq<Frame>, returning: bytes)
    requires Accounts(w, id, under, returning)
    requires w'.s == w.s.(conns := w.s.conns[id := w.s.conns[id].(pending := w.s.conns[id].pending + [f])])
    requires w'.h == w.h.(received := w.h.received[id := w.h.received[id] + [f]])
    ensures Accounts(w', id, under, returning)
  {
  }

  lemma ReceiveLater(maxConns: nat, maxOutput: nat, w: World, id: nat, f: Frame, w': World)
    requires Inv(w) && Step(maxConns, maxOutput, w, Receives(id, f), w') && w.s.conns[id].inFlight
    ensures Inv(w')
  {
    hide Accounts, Jobs, Encode;
    SameJobs(w.s, w'.s);
    forall under, returning | Accounts(w, id, under, returning)
      ensures Accounts(w', id, under, returning)
    {
      MoreWaits(w, w', id, f, under, returning);
    }
    Rest(w, w', id);
  }

  lemma ReceiveNow(maxConns: nat, maxOutput: nat, w: World, id: nat, f: Frame, w': World)
    requires Inv(w) && Step(maxConns, maxOutput, w, Receives(id, f), w') && !w.s.conns[id].inFlight
    ensures Inv(w')
  {
    hide Accounts, Jobs, Encode;
    NoJobs(w.s, id);
    NewTaskJobs(w.s, w'.s, Task(id, f));
    StartsAccounts(w, w', id, f);
    Rest(w, w', id);
  }

  lemma StartsAccounts(w: World, w': World, id: nat, f: Frame)
    requires Accounts(w, id, [], []) && w.s.conns[id].pending == []
    requires Logged(w', id) && w'.s.conns[id] == w.s.conns[id].(inFlight := true)
    requires w'.h == w.h.(received := w.h.received[id := w.h.received[id] + [f]])
    ensures Accounts(w', id, [f], [])
  {
  }

  lemma TakeKeeps(maxConns: nat, maxOutput: nat, w: World, k: nat, w': World)
    requires Inv(w) && Step(maxConns, maxOutput, w, Takes(k), w')
    ensures Inv(w')
  {
    hide Accounts, Jobs, Encode;
    TakeJobs(w.s, k);
    forall i | 0 <= i < |w'.s.tasks| ensures TaskInv(w, w'.s.tasks[i]) {
      assert w'.s.tasks[i] == w.s.tasks[i + 1];
    }
    Rest(w, w', w.s.nextId);
  }

  lemma PopKeeps(maxConns: nat, maxOutput: nat, w: World, w': World)
    requires Inv(w) && Step(maxConns, maxOutput, w, PopsAll, w')
    ensures Inv(w')
  {
    hide Accounts, Jobs, Encode;
    PopJobs(w.s);
    Rest(w, w', w.s.nextId);
  }

  lemma AnswerAccounts(w: World, w': World, id: nat, a: Answer)
    requires Accounts(w, id, [a.request], []) && Logged(w', id) && w'.s.conns[id] == w.s.conns[id]
    requires w'.h == w.h.(answers := w.h.answers[id := w.h.answers[id] + [a]])
    ensures Accounts(w', id, [], Encode(a.response))
  {
    hide Encode;
    var before, after := w.h.answers[id], w'.h.answers[id];
    assert after[..|after| - 1] == before;
    assert Requests(after) == Requests(before) + [a.request];
  }

  lemma AnswerKeeps(maxConns: nat, maxOutput: nat, w: World, k: nat, response: Frame, w': World)
    requires Inv(w) && Step(maxConns, maxOutput, w, Answers(k, response), w')
    ensures Inv(w')
  {
    hide Accounts, Jobs, Encode;
    var t := w.s.workers[k].value;
    CompleteJobs(w.s, k, response);
    HeldAlone(w.s, k);
    assert Nowhere(w.s.(workers := w'.s.workers), t.conn);
    if t.conn in w.s.conns {
      AnswerAccounts(w, w', t.conn, Answer(t.request, response));
      WorkerBusy(w.s, k);
    }
    Rest(w, w', t.conn);
  }

  lemma WorkerBusy(s: Server, k: nat)
    requires Loads(s) && k < |s.workers| && s.workers[k].Some? && s.workers[k].value.conn in s.conns
    ensures s.conns[s.workers[k].value.conn].inFlight
  {
    HeldCounted(s.workers, k);
  }

  lemma FlushAccounts(w: World, w': World, id: nat, n: nat, under: seq<Frame>, returning: bytes)
    requires Accounts(w, id, under, returning) && Logged(w', id) && n <= |w.s.conns[id].Unsent()|
    requires w'.s.conns[id].pending == w.s.conns[id].pending && w'.s.conns[id].Unsent() == w.s.conns[id].Unsent()[n..]
    requires w'.h == Sent(w.h, id, w.s.conns[id].Unsent()[..n])
    ensures Accounts(w', id, under, returning)
  {
    var u := w.s.conns[id].Unsent();
    assert u == u[..n] + u[n..];
    assert w'.h.sent[id] + u[n..] == w.h.sent[id] + u;
  }

  lemma FlushKeeps(maxConns: nat, maxOutput: nat, w: World, id: nat, r: SendResult, w': World)
    requires Inv(w) && Step(maxConns, maxOutput, w, Flushes(id, r), w')
    ensures Inv(w')
  {
    hide Accounts, Jobs, Encode;
    SameJobs(w.s, w'.s);
    if r.Accepted? {
      FlushConserves(w.s, id, r);
      forall under, returning | Accounts(w, id, under, returning)
        ensures Accounts(w', id, under, returning)
      {
        FlushAccounts(w, w', id, r.n, under, returning);
      }
    }
    Rest(w, w', id);
  }

  lemma FlushConserves(s: Server, id: nat, r: SendResult)
    requires id in s.conns && s.conns[id].Valid() && r.Accepted? && r.n <= |s.conns[id].Unsent()|
    ensures var s' := Flush(s, id, r);
            && s'.conns[id].Valid() && s'.conns[id].Unsent() == s.conns[id].Unsent()[r.n..]
            && s'.conns[id].pending == s.conns[id].pending && s'.conns[id].inFlight == s.conns[id].inFlight
  {
  }

  lemma CloseKeeps(maxConns: nat, maxOutput: nat, w: World, id: nat, w': World)
    requires Inv(w) && Step(maxConns, maxOutput, w, Closes(id), w')
    ensures Inv(w')
  {
    hide Accounts, Jobs, Encode;
    SameJobs(w.s, w'.s);
    Rest(w, w', id);
  }

  // ---- Handling a completion -------------------------------------------------------------------------

  /** What is handled is nowhere else. */
  lemma BatchAlone(s: Server, s': Server)
    requires s.batch != [] && Jobs(s, s.batch[0].conn) <= 1
    requires s'.tasks == s.tasks && s'.workers == s.workers && s'.completions == s.completions &&
             s'.batch == s.batch[1..]
    ensures Nowhere(s', s.batch[0].conn)
  {
    BatchJobs(s, s');
    NoJobs(s', s.batch[0].conn);
  }

  /** No byte of a response is lost or sent twice. */
  lemma EmitConserves(c: Connection, response: bytes, r: SendResult)
    requires c.Valid() && (r.Accepted? ==> 0 < r.n <= |response|)
    ensures var e := Emit(c, response, r);
            e.Some? ==>
              && e.value.Valid() && Taken(c, response, r) + e.value.Unsent() == c.Unsent() + response
              && e.value.pending == c.pending && e.value.inFlight == c.inFlight
    ensures Emit(c, response, r).None? <==> c.Unsent() == [] && r.Failed?
  {
    if c.Unsent() == [] {
      EmitNow(c, response, r);
    }
  }

  lemma EmitNow(c: Connection, response: bytes, r: SendResult)
    requires c.Valid() && (r.Accepted? ==> 0 < r.n <= |response|) && c.Unsent() == []
    ensures var e := Emit(c, response, r);
            && (e.None? <==> r.Failed?)
            && (e.Some? ==>
              && e.value.Valid() && Taken(c, response, r) + e.value.Unsent() == response
              && e.value.pending == c.pending && e.value.inFlight == c.inFlight)
  {
    if r.Accepted? {
      assert response == response[..r.n] + response[r.n..];
    }
  }

  /** The connection after its response has joined the output, before the next request is dispatched. */
  function Emitted(w: World, r: SendResult): World
    requires w.s.batch != [] && w.s.batch[0].conn in w.s.conns && w.s.conns[w.s.batch[0].conn].Valid()
    requires w.s.batch[0].conn in w.h.sent
    requires Emit(w.s.conns[w.s.batch[0].conn].(inFlight := false), w.s.batch[0].response, r).Some?
  {
    var d := w.s.batch[0];
    var c := w.s.conns[d.conn];
    World(w.s.(batch := w.s.batch[1..], conns := w.s.conns[d.conn := Emit(c.(inFlight := false), d.response, r).value]),
          Sent(w.h, d.conn, Taken(c, d.response, r)))
  }

  lemma EmitAccounts(w: World, r: SendResult)
    requires w.s.batch != [] && w.s.batch[0].conn in w.s.conns && (r.Accepted? ==> 0 < r.n <= |w.s.batch[0].response|)
    requires Accounts(w, w.s.batch[0].conn, [], w.s.batch[0].response)
    requires Emit(w.s.conns[w.s.batch[0].conn].(inFlight := false), w.s.batch[0].response, r).Some?
    ensures var id, mid := w.s.batch[0].conn, Emitted(w, r);
            && Accounts(mid, id, [], []) && !mid.s.conns[id].inFlight &&
                mid.s.conns[id].pending == w.s.conns[id].pending
  {
    hide Wire, Emit, Taken;
    var d, mid := w.s.batch[0], Emitted(w, r);
    var c := w.s.conns[d.conn].(inFlight := false);
    assert c.Unsent() == w.s.conns[d.conn].Unsent();
    EmitConserves(c, d.response, r);
    assert Taken(c, d.response, r) == Taken(w.s.conns[d.conn], d.response,
                                            r) by { SameTaken(w.s.conns[d.conn], d.response, r); }
    var sent, taken, left := w.h.sent[d.conn], Taken(c, d.response, r), mid.s.conns[d.conn].Unsent();
    assert (sent + taken) + left == sent + (taken + left) == sent + (c.Unsent() + d.response) ==
           (sent + c.Unsent()) + d.response;
  }

  lemma SameTaken(c: Connection, response: bytes, r: SendResult)
    requires c.Valid()
    ensures Taken(c.(inFlight := false), response, r) == Taken(c, response, r)
  {
  }

  lemma DispatchAccounts(mid: World, id: nat)
    requires Accounts(mid, id, [], []) && mid.s.conns[id].pending != []
    ensures var w' := World(DispatchNext(mid.s, id), mid.h);
            Accounts(w', id, [mid.s.conns[id].pending[0]], [])
  {
    var p := mid.s.conns[id].pending;
    assert p == [p[0]] + p[1..];
  }

  /** A completion for a connection that is gone changes nothing but the batch. */
  lemma HandleGone(maxConns: nat, maxOutput: nat, w: World, r: SendResult, w': World)
    requires Inv(w) && Step(maxConns, maxOutput, w, Handles(r), w') && w.s.batch[0].conn !in w.s.conns
    ensures Inv(w') && w'.h == w.h && w'.s == w.s.(batch := w.s.batch[1..])
  {
    hide Accounts, Jobs, Encode;
    BatchJobs(w.s, w'.s);
    Rest(w, w', w.s.nextId);
  }

  lemma HandleClosing(maxConns: nat, maxOutput: nat, w: World, r: SendResult, w': World)
    requires Inv(w) && Step(maxConns, maxOutput, w, Handles(r), w') && w.s.batch[0].conn in w.s.conns
    requires w.s.batch[0].conn !in w'.s.conns
    ensures Inv(w')
  {
    hide Accounts, Jobs, Emit, Taken, Encode;
    var id := w.s.batch[0].conn;
    var mid := w.s.(batch := w.s.batch[1..]);
    assert w'.s == Close(mid, id);
    BatchJobs(w.s, w'.s);
    Rest(w, w', id);
  }

  lemma HandleStays(maxConns: nat, maxOutput: nat, w: World, r: SendResult, w': World)
    requires Inv(w) && Step(maxConns, maxOutput, w, Handles(r), w') && w.s.batch[0].conn in w.s.conns
    requires w.s.batch[0].conn in w'.s.conns
    ensures var id := w.s.batch[0].conn;
            && w.s.conns[id].Valid() && id in w.h.sent
            && Emit(w.s.conns[id].(inFlight := false), w.s.batch[0].response, r).Some?
            && w' == World(DispatchNext(Emitted(w, r).s, id), Emitted(w, r).h)
  {
    hide Accounts, Jobs, Emit, Taken, Encode;
  }

  lemma HandleLive(maxConns: nat, maxOutput: nat, w: World, r: SendResult, w': World)
    requires Inv(w) && Step(maxConns, maxOutput, w, Handles(r), w') && w.s.batch[0].conn in w.s.conns
    requires w.s.batch[0].conn in w'.s.conns
    ensures Inv(w')
  {
    hide Accounts, Jobs, Step, Emit, Taken, DispatchNext;
    HandleGuard(maxConns, maxOutput, w, r, w');
    var id := w.s.batch[0].conn;
    HandleStays(maxConns, maxOutput, w, r, w');
    assert DoneInv(w, w.s.batch[0]);
    EmitAccounts(w, r);
    var mid := Emitted(w, r);
    BatchJobs(w.s, mid.s);
    BatchAlone(w.s, mid.s);
    AfterEmit(w, mid, w', id);
  }

  lemma HandleGuard(maxConns: nat, maxOutput: nat, w: World, r: SendResult, w': World)
    requires Step(maxConns, maxOutput, w, Handles(r), w')
    ensures w.s.batch != [] && (r.Accepted? ==> 0 < r.n <= |w.s.batch[0].response|)
  {
    hide Handle, HandleHistory;
  }

  lemma AfterEmit(w: World, mid: World, w': World, id: nat)
    requires Inv(w) && w.s.batch != [] && id == w.s.batch[0].conn && id in w.s.conns && id in mid.s.conns
    requires mid.s == w.s.(batch := w.s.batch[1..], conns := w.s.conns[id := mid.s.conns[id]])
    requires id in w.h.sent && id in mid.h.sent && mid.h == w.h.(sent := w.h.sent[id := mid.h.sent[id]])
    requires Accounts(mid, id, [], []) && !mid.s.conns[id].inFlight
    requires w' == World(DispatchNext(mid.s, id), mid.h)
    requires (forall j :: Jobs(w.s, j) == Jobs(mid.s, j) + One(id == j)) && Nowhere(mid.s, id)
    ensures Inv(w')
  {
    hide Accounts, Jobs, Encode;
    if mid.s.conns[id].pending != [] {
      NewTaskJobs(mid.s, w'.s, Task(id, mid.s.conns[id].pending[0]));
      DispatchAccounts(mid, id);
      LoggedOf(w', id, [mid.s.conns[id].pending[0]], []);
    } else {
      LoggedOf(w', id, [], []);
    }
    Rest(w, w', id);
  }

  lemma LoggedOf(w: World, id: nat, under: seq<Frame>, returning: bytes)
    requires Accounts(w, id, under, returning)
    ensures Logged(w, id)
  {
  }

  lemma HandleKeeps(maxConns: nat, maxOutput: nat, w: World, r: SendResult, w': World)
    requires Inv(w) && Step(maxConns, maxOutput, w, Handles(r), w')
    ensures Inv(w')
  {
    hide Inv, Step;
    HandleGuard(maxConns, maxOutput, w, r, w');
    if w.s.batch[0].conn !in w.s.conns {
      HandleGone(maxConns, maxOutput, w, r, w');
    } else if w.s.batch[0].conn in w'.s.conns {
      HandleLive(maxConns, maxOutput, w, r, w');
    } else {
      HandleClosing(maxConns, maxOutput, w, r, w');
    }
  }

  // ---- Whole runs ------------------------------------------------------------------------------------

  lemma StepKeeps(maxConns: nat, maxOutput: nat, w: World, a: Action, w': World)
    requires Inv(w) && Step(maxConns, maxOutput, w, a, w')
    ensures Inv(w')
  {
    hide Inv, Step;
    match a
    case Accepts => AcceptKeeps(maxConns, maxOutput, w, w');
    case Receives(id, f) => ReceiveKeeps(maxConns, maxOutput, w, id, f, w');
    case Takes(k) => TakeKeeps(maxConns, maxOutput, w, k, w');
    case Answers(k, response) => AnswerKeeps(maxConns, maxOutput, w, k, response, w');
    case PopsAll => PopKeeps(maxConns, maxOutput, w, w');
    case Handles(r) => HandleKeeps(maxConns, maxOutput, w, r, w');
    case Flushes(id, r) => FlushKeeps(maxConns, maxOutput, w, id, r, w');
    case Closes(id) => CloseKeeps(maxConns, maxOutput, w, id, w');
  }

  lemma BeginInv(w: World)
    requires Begin(w)
    ensures Inv(w)
  {
    forall id
      ensures Jobs(w.s, id) == 0
    {
      NowhereNoJobs(w.s, id);
    }
  }

  lemma {:induction false} RunKeeps(maxConns: nat, maxOutput: nat, ws: seq<World>, actions: seq<Action>, n: nat)
    requires Run(maxConns, maxOutput, ws, actions) && n < |ws|
    ensures Inv(ws[n])
    decreases n
  {
    hide Inv, Step;
    if n == 0 {
      BeginInv(ws[0]);
    } else {
      RunKeeps(maxConns, maxOutput, ws, actions, n - 1);
      assert Step(maxConns, maxOutput, ws[n - 1], actions[n - 1], ws[n - 1 + 1]);
      StepKeeps(maxConns, maxOutput, ws[n - 1], actions[n - 1], ws[n]);
    }
  }

  /** In every interleaving, a connection id has at most one request in the task queue, with a worker and in the
      completion queue together; for a live connection, one exactly when it is in flight; and a connection that is not
      in flight has no request waiting. */
  lemma OneInFlight(maxConns: nat, maxOutput: nat, ws: seq<World>, actions: seq<Action>, n: nat, id: nat)
    requires Run(maxConns, maxOutput, ws, actions) && n < |ws|
    ensures var s := ws[n].s;
            && Jobs(s, id) <= 1
            && (id in s.conns ==> (s.conns[id].inFlight <==> Jobs(s, id) == 1))
            && (id in s.conns && !s.conns[id].inFlight ==> s.conns[id].pending == [])
  {
    hide Step, Accounts, Jobs;
    RunKeeps(maxConns, maxOutput, ws, actions, n);
    if id in ws[n].s.conns {
      assert IdleInv(ws[n], id);
    }
  }

  /** How many of a connection's answers have reached the output. */
  ghost predicate Through(w: World, id: nat, k: nat)
    requires id in w.s.conns && id in w.h.answers && id in w.h.sent && id in w.h.received && w.s.conns[id].Valid()
  {
    var answers := w.h.answers[id];
    && k <= |answers| <= k + 1 && |answers| <= |w.h.received[id]|
    && Wire(answers[..k]) == w.h.sent[id] + w.s.conns[id].Unsent()
    && Requests(answers) == w.h.received[id][..|answers|]
  }

  /** Somewhere there is an item for every connection in flight. */
  lemma {:induction false} TaskThere(ts: seq<Task>, id: nat) returns (i: nat)
    requires TaskCount(ts, id) > 0
    ensures i < |ts| && ts[i].conn == id
    decreases |ts|
  {
    if ts[0].conn == id {
      i := 0;
    } else {
      var j := TaskThere(ts[1..], id);
      i := j + 1;
    }
  }

  lemma {:induction false} DoneThere(ds: seq<Completion>, id: nat) returns (i: nat)
    requires DoneCount(ds, id) > 0
    ensures i < |ds| && ds[i].conn == id
    decreases |ds|
  {
    if ds[0].conn == id {
      i := 0;
    } else {
      var j := DoneThere(ds[1..], id);
      i := j + 1;
    }
  }

  lemma {:induction false} HeldThere(ws: seq<Option<Task>>, id: nat) returns (k: nat)
    requires HeldCount(ws, id) > 0
    ensures k < |ws| && Holds(ws[k], id)
    decreases |ws|
  {
    if Holds(ws[0], id) {
      k := 0;
    } else {
      var j := HeldThere(ws[1..], id);
      k := j + 1;
    }
  }

  lemma UnderWay(w: World, id: nat) returns (under: seq<Frame>, returning: bytes)
    requires Inv(w) && id in w.s.conns
    ensures Accounts(w, id, under, returning)
    ensures returning == [] || (under == [] && IsLast(w, Completion(id, returning)))
  {
    hide Accounts, Encode;
    under, returning := [], [];
    if w.s.conns[id].inFlight {
      assert Jobs(w.s, id) == 1;
      if TaskCount(w.s.tasks, id) > 0 {
        var i := TaskThere(w.s.tasks, id);
        assert TaskInv(w, w.s.tasks[i]);
        under := [w.s.tasks[i].request];
      } else if HeldCount(w.s.workers, id) > 0 {
        var k := HeldThere(w.s.workers, id);
        assert TaskInv(w, w.s.workers[k].value);
        under := [w.s.workers[k].value.request];
      } else if DoneCount(w.s.completions, id) > 0 {
        var i := DoneThere(w.s.completions, id);
        assert DoneInv(w, w.s.completions[i]);
        returning := w.s.completions[i].response;
      } else {
        var i := DoneThere(w.s.batch, id);
        assert DoneInv(w, w.s.batch[i]);
        returning := w.s.batch[i].response;
      }
    }
  }

  /** Per-connection order: in every interleaving, what has been sent on a live connection and what waits to be sent
      are the responses to its first requests, in the order in which the requests came; at most one more has been
      answered. */
  lemma ResponsesInOrder(maxConns: nat, maxOutput: nat, ws: seq<World>, actions: seq<Action>, n: nat, id: nat)
      returns (k: nat)
    requires Run(maxConns, maxOutput, ws, actions) && n < |ws| && id in ws[n].s.conns
    ensures Logged(ws[n], id) && Through(ws[n], id, k)
  {
    hide Step, Jobs, Loads, Items, IdleInv;
    var w := ws[n];
    RunKeeps(maxConns, maxOutput, ws, actions, n);
    var under, returning := UnderWay(w, id);
    k := OutOf(w, id, under, returning);
  }

  lemma OutOf(w: World, id: nat, under: seq<Frame>, returning: bytes) returns (k: nat)
    requires Accounts(w, id, under, returning) && (returning == [] ||
                                                   (under == [] && IsLast(w, Completion(id, returning))))
    ensures Through(w, id, k)
  {
    hide Encode;
    var answers, out := w.h.answers[id], w.h.sent[id] + w.s.conns[id].Unsent();
    k := if returning == [] then |answers| else |answers| - 1;
    var rs := Requests(answers);
    assert rs == w.h.received[id][..|answers|];
    if returning == [] {
      assert answers[..k] == answers && out + [] == out;
    } else {
      SameFront(Wire(answers[..k]), out, returning);
    }
  }

  lemma SameFront(a: bytes, b: bytes, c: bytes)
    requires a + c == b + c
    ensures a == b
  {
    assert |a| == |b|;
    assert (a + c)[..|a|] == a && (b + c)[..|b|] == b;
  }

  lemma {:induction false} WireSnoc(fs: seq<Frame>, f: Frame)
    ensures EncodeAll(fs + [f]) == EncodeAll(fs) + Encode(f)
    decreases |fs|
  {
    hide Encode;
    if fs == [] {
      assert fs + [f] == [f] && [f][1..] == [];
    } else {
      WireSnoc(fs[1..], f);
      assert (fs + [f])[1..] == fs[1..] + [f] && (fs + [f])[0] == fs[0];
    }
  }

  lemma {:induction false} WireEncodes(answers: seq<Answer>)
    ensures Wire(answers) == EncodeAll(Responses(answers))
    decreases |answers|
  {
    hide Encode, EncodeAll;
    if answers == [] {
      EncodeNone([]);
      assert Responses(answers) == [] && EncodeAll([]) + [] == EncodeAll([]);
    } else {
      var n := |answers| - 1;
      WireEncodes(answers[..n]);
      WireSnoc(Responses(answers[..n]), answers[n].response);
      assert Responses(answers) == Responses(answers[..n]) + [answers[n].response];
    }
  }

  ghost predicate Echoes(h: History) {
    forall id :: id in h.answers ==>
      forall i :: 0 <= i < |h.answers[id]| ==> h.answers[id][i].response.requestId == h.answers[id][i].request.requestId
  }

  lemma StepEchoes(maxConns: nat, maxOutput: nat, w: World, a: Action, w': World)
    requires Step(maxConns, maxOutput, w, a, w') && Echoes(w.h)
    ensures Echoes(w'.h)
  {
    hide Handle, Emit, Taken, Encode, DispatchNext;
  }

  lemma {:induction false} RunEchoes(maxConns: nat, maxOutput: nat, ws: seq<World>, actions: seq<Action>, n: nat)
    requires Run(maxConns, maxOutput, ws, actions) && n < |ws|
    ensures Echoes(ws[n].h)
    decreases n
  {
    hide Step, Echoes;
    if n == 0 {
      assert Echoes(ws[0].h) by { NoEchoes(ws[0]); }
    } else {
      RunEchoes(maxConns, maxOutput, ws, actions, n - 1);
      assert Step(maxConns, maxOutput, ws[n - 1], actions[n - 1], ws[n - 1 + 1]);
      StepEchoes(maxConns, maxOutput, ws[n - 1], actions[n - 1], ws[n]);
    }
  }

  lemma NoEchoes(w: World)
    requires Begin(w)
    ensures Echoes(w.h)
  {
  }

  /** What the peer sees: the frames in the bytes that it has been sent are the first responses, and the i-th of them
      carries the request id of the i-th request on the connection. The peer's frame limit must admit the responses. */
  lemma PeerSeesOrder(maxConns: nat, maxOutput: nat, ws: seq<World>, actions: seq<Action>, n: nat, id: nat,
                      limit: uint32)
    requires Run(maxConns, maxOutput, ws, actions) && n < |ws| && id in ws[n].s.conns
    requires id in ws[n].h.answers && forall i :: 0 <= i < |ws[n].h.answers[id]| ==>
             ws[n].h.answers[id][i].response.Within(limit)
    ensures id in ws[n].h.sent && id in ws[n].h.received
    ensures var seen, h := Drain(ws[n].h.sent[id], limit).frames, ws[n].h;
            && |seen| <= |h.answers[id]| <= |h.received[id]|
            && forall i :: 0 <= i < |seen| ==>
              seen[i] == h.answers[id][i].response && h.answers[id][i].request == h.received[id][i] &&
              seen[i].requestId == h.received[id][i].requestId
  {
    hide Step, Drain, EncodeAll, Wire, Encode, Begin;
    var w := ws[n];
    var k := ResponsesInOrder(maxConns, maxOutput, ws, actions, n, id);
    RunEchoes(maxConns, maxOutput, ws, actions, n);
    var answers := w.h.answers[id];
    var out, rest := w.h.sent[id], w.s.conns[id].Unsent();
    WireEncodes(answers[..k]);
    var rs := Responses(answers[..k]);
    forall i | 0 <= i < |rs| ensures rs[i].Within(limit) { assert rs[i] == answers[i].response; }
    DrainEncoded(rs, limit);
    DrainConcat(out, rest, limit);
    var seen := Drain(out, limit).frames;
    assert seen <= rs;
    forall i | 0 <= i < |seen|
      ensures seen[i] == answers[i].response && answers[i].request == w.h.received[id][i]
    {
      assert seen[i] == rs[i];
      assert Requests(answers)[i] == w.h.received[id][..|answers|][i];
    }
  }

  // ---- Closed connections ------------------------------------------------------------------------------

  /** A closed connection stays closed, its id is not issued again, and no byte is sent on it any more. */
  lemma ClosedStep(maxConns: nat, maxOutput: nat, w: World, a: Action, w': World, id: nat)
    requires Step(maxConns, maxOutput, w, a, w') && id < w.s.nextId && id !in w.s.conns && id in w.h.sent
    ensures id < w'.s.nextId && id !in w'.s.conns && id in w'.h.sent && w'.h.sent[id] == w.h.sent[id]
  {
    hide Emit, Taken, Encode;
  }

  lemma {:induction false} ClosedForGood(maxConns: nat, maxOutput: nat, ws: seq<World>, actions: seq<Action>, i: nat,
                                         j: nat, id: nat)
    requires Run(maxConns, maxOutput, ws, actions) && i <= j < |ws|
    requires id < ws[i].s.nextId && id !in ws[i].s.conns && id in ws[i].h.sent
    ensures id < ws[j].s.nextId && id !in ws[j].s.conns && id in ws[j].h.sent && ws[j].h.sent[id] == ws[i].h.sent[id]
    decreases j
  {
    hide Step;
    if i < j {
      ClosedForGood(maxConns, maxOutput, ws, actions, i, j - 1, id);
      assert Step(maxConns, maxOutput, ws[j - 1], actions[j - 1], ws[j - 1 + 1]);
      ClosedStep(maxConns, maxOutput, ws[j - 1], actions[j - 1], ws[j], id);
    }
  }
}
