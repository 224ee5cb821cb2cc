/** The server between the sockets and the request handler: one I/O thread, N workers, two queues. */
module Pipeline {
  import opened Bytes
  import opened Frames

  datatype Task = Task(conn: nat, request: Frame)

  datatype Completion = Completion(conn: nat, response: bytes)

  datatype Connection = Connection(inFlight: bool, pending: seq<Frame>, output: bytes, offset: nat) {
    predicate Valid() {
      offset <= |output|
    }

    function Unsent(): bytes
      requires Valid()
    {
      output[offset..]
    }
  }

  /** The shared state. `batch` is what the I/O thread has popped from the completion queue and not yet handled; a
      worker holds at most one task. */
  datatype Server = Server(
    conns: map<nat, Connection>,
    nextId: nat,
    tasks: seq<Task>,
    workers: seq<Option<Task>>,
    completions: seq<Completion>,
    batch: seq<Completion>)

  datatype Answer = Answer(request: Frame, response: Frame)

  /** What has happened on each connection: requests received, requests answered by a worker, bytes given to the
      socket. */
  datatype History = History(received: map<nat, seq<Frame>>, answers: map<nat, seq<Answer>>, sent: map<nat, bytes>)

  datatype SendResult = Accepted(n: nat) | WouldBlock | Failed

  datatype World = World(s: Server, h: History)

  datatype Action =
    | Accepts
    | Receives(conn: nat, frame: Frame)
    | Takes(worker: nat)
    | Answers(worker: nat, response: Frame)
    | PopsAll
    | Handles(result: SendResult)
    | Flushes(conn: nat, result: SendResult)
    | Closes(conn: nat)

  const NEW := Connection(false, [], [], 0)

  // ---- Single steps of the I/O thread ------------------------------------------------------------

  function Accept(s: Server, limit: nat): Server {
    if |s.conns| >= limit then s else s.(conns := s.conns[s.nextId := NEW], nextId := s.nextId + 1)
  }

  /** A frame from a connection is dispatched, or waits while another one is in flight. */
  function Receive(s: Server, id: nat, f: Frame): Server
    requires id in s.conns
  {
    var c := s.conns[id];
    if c.inFlight then s.(conns := s.conns[id := c.(pending := c.pending + [f])])
    else s.(conns := s.conns[id := c.(inFlight := true)], tasks := s.tasks + [Task(id, f)])
  }

  function Close(s: Server, id: nat): Server {
    s.(conns := s.conns - {id})
  }

  /** A response joins the output: sent at once as far as possible if nothing waits before it, else appended. `None`
      when the socket fails. */
  function Emit(c: Connection, response: bytes, r: SendResult): Option<Connection>
    requires c.Valid()
  {
    if c.Unsent() == [] then
      match r
      case Accepted(n) => Some(if 0 < n < |response| then c.(output := response[n..], offset := 0) else c)
      case WouldBlock => Some(c.(output := response, offset := 0))
      case Failed => None
    else Some(c.(output := c.Unsent() + response, offset := 0))
  }

  /** What the socket takes of a response at once. */
  function Taken(c: Connection, response: bytes, r: SendResult): bytes
    requires c.Valid()
  {
    if c.Unsent() == [] && r.Accepted? && r.n <= |response| then response[..r.n] else []
  }

  /** The next waiting request, if any, is dispatched. */
  function DispatchNext(s: Server, id: nat): Server
    requires id in s.conns
  {
    var c := s.conns[id];
    if c.pending == [] then s
    else s.(conns := s.conns[id := c.(pending := c.pending[1..], inFlight := true)],
            tasks := s.tasks + [Task(id, c.pending[0])])
  }

  /** One turn of the loop in `process_completions`. */
  function Handle(s: Server, limit: nat, r: SendResult): Server
    requires s.batch != [] && forall id :: id in s.conns ==> s.conns[id].Valid()
  {
    var done := s.batch[0];
    var s1 := s.(batch := s.batch[1..]);
    if done.conn !in s.conns then s1
    else
      var c := s.conns[done.conn].(inFlight := false);
      assert s.conns[done.conn].Valid();
      if |c.Unsent()| + |done.response| > limit then Close(s1, done.conn)
      else
        match Emit(c, done.response, r)
        case None => Close(s1, done.conn)
        case Some(c') => DispatchNext(s1.(conns := s1.conns[done.conn := c']), done.conn)
  }

  /** Output that was waiting goes to the socket. */
  function Flush(s: Server, id: nat, r: SendResult): Server
    requires id in s.conns && s.conns[id].Valid()
    requires r.Accepted? ==> r.n <= |s.conns[id].Unsent()|
  {
    var c := s.conns[id];
    match r
    case Accepted(n) =>
      var offset := c.offset + n;
      s.(conns := s.conns[id := if offset == |c.output| then c.(output := [], offset := 0) else c.(offset := offset)])
    case WouldBlock => s
    case Failed => Close(s, id)
  }

  // ---- Single steps of the workers -----------------------------------------------------------------

  function Take(s: Server, w: nat): Server
    requires w < |s.workers| && s.workers[w].None? && s.tasks != []
  {
    s.(tasks := s.tasks[1..], workers := s.workers[w := Some(s.tasks[0])])
  }

  function Complete(s: Server, w: nat, response: Frame): Server
    requires w < |s.workers| && s.workers[w].Some?
  {
    s.(workers := s.workers[w := None],
       completions := s.completions + [Completion(s.workers[w].value.conn, Encode(response))])
  }

  function PopAll(s: Server): Server
    requires s.batch == []
  {
    s.(batch := s.completions, completions := [])
  }

  // ---- Steps with their history --------------------------------------------------------------------

  function Sent(h: History, id: nat, data: bytes): History
    requires id in h.sent
  {
    h.(sent := h.sent[id := h.sent[id] + data])
  }

  /** `limits`: the number of connections and the size of an output buffer. A worker's response echoes the request
      id. */
  ghost predicate Step(maxConns: nat, maxOutput: nat, w: World, a: Action, w': World) {
    var s, h := w.s, w.h;
    && (forall id :: id in s.conns ==> s.conns[id].Valid() && id in h.sent && id in h.received)
    && match a
       case Accepts =>
         && w'.s == Accept(s, maxConns)
         && w'.h == if |s.conns| >= maxConns then h
                    else History(h.received[s.nextId := []], h.answers[s.nextId := []], h.sent[s.nextId := []])
       case Receives(id, f) =>
         id in s.conns && w' == World(Receive(s, id, f), h.(received := h.received[id := h.received[id] + [f]]))
       case Takes(k) => k < |s.workers| && s.workers[k].None? && s.tasks != [] && w' == World(Take(s, k), h)
       case Answers(k, response) =>
         && k < |s.workers| && s.workers[k].Some? && s.workers[k].value.conn in h.answers
         && var t := s.workers[k].value;
         && response.requestId == t.request.requestId
         && w' == World(Complete(s, k, response),
                        h.(answers := h.answers[t.conn := h.answers[t.conn] + [Answer(t.request, response)]]))
       case PopsAll => s.batch == [] && w' == World(PopAll(s), h)
       case Handles(r) =>
         && s.batch != []
         && (r.Accepted? ==> 0 < r.n <= |s.batch[0].response|)
         && w'.s == Handle(s, maxOutput, r)
         && w'.h == HandleHistory(s, h, maxOutput, r)
       case Flushes(id, r) =>
         && id in s.conns && (r.Accepted? ==> 0 < r.n <= |s.conns[id].Unsent()|)
         && w' == World(Flush(s, id, r), if r.Accepted? then Sent(h, id, s.conns[id].Unsent()[..r.n]) else h)
       case Closes(id) => w' == World(Close(s, id), h)
  }

  function HandleHistory(s: Server, h: History, limit: nat, r: SendResult): History
    requires s.batch != [] && forall id :: id in s.conns ==> s.conns[id].Valid() && id in h.sent
  {
    var done := s.batch[0];
    if done.conn !in s.conns then h
    else
      var c := s.conns[done.conn];
      if |c.Unsent()| + |done.response| > limit then h else Sent(h, done.conn, Taken(c, done.response, r))
  }

  ghost predicate Begin(w: World) {
    && w.s.conns == map[] && w.s.tasks == [] && w.s.completions == [] && w.s.batch == []
    && (forall k :: 0 <= k < |w.s.workers| ==> w.s.workers[k] == None)
    && w.h == History(map[], map[], map[])
  }

  ghost predicate Run(maxConns: nat, maxOutput: nat, ws: seq<World>, actions: seq<Action>) {
    && |ws| == |actions| + 1 && Begin(ws[0])
    && forall i :: 0 <= i < |actions| ==> Step(maxConns, maxOutput, ws[i], actions[i], ws[i + 1])
  }
}
