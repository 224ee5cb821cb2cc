/** The server's queues and the parts of its event loop that touch connections, updated in place. */
module TcpServer {
  import opened Bytes
  import opened Frames
  import opened Pipeline

  class TaskQueue {
    var queue: seq<Task>
    var stopped: bool

    constructor ()
      ensures queue == [] && !stopped
    {
      queue, stopped := [], false;
    }

    method Push(t: Task)
      modifies this`queue
      ensures queue == old(queue) + [t]
    {
      queue := queue + [t];
    }

    /** What `pop` does once its wait is over. */
    method Pop() returns (t: Option<Task>)
      requires stopped || queue != []
      modifies this`queue
      ensures t == None <==> old(queue) == []
      ensures t.Some? ==> old(queue) == [t.value] + queue
      ensures t.None? ==> queue == old(queue)
    {
      if stopped && queue == [] {
        return None;
      }
      t := Some(queue[0]);
      queue := queue[1..];
    }

    method Stop()
      modifies this`stopped
      ensures stopped
    {
      stopped := true;
    }
  }

  class CompletionQueue {
    var queue: seq<Completion>

    constructor ()
      ensures queue == []
    {
      queue := [];
    }

    method Push(c: Completion)
      modifies this
      ensures queue == old(queue) + [c]
    {
      queue := queue + [c];
    }

    method PopAll() returns (all: seq<Completion>)
      modifies this
      ensures all == old(queue) && queue == []
    {
      all := [];
      while queue != []
        invariant all + queue == old(queue)
        decreases |queue|
      {
        all := all + [queue[0]];
        queue := queue[1..];
      }
    }
  }

  /** The completions of a batch, handled one after the other. */
  function HandleAll(s: Server, limit: nat, rs: seq<SendResult>): Server
    requires |rs| == |s.batch| && AllValid(s) && Possible(s.batch, rs)
    decreases |rs|
  {
    if rs == [] then s
    else
      HandleValid(s, limit, rs[0]);
      HandleAll(Handle(s, limit, rs[0]), limit, rs[1..])
  }

  ghost predicate AllValid(s: Server) {
    forall id :: id in s.conns ==> s.conns[id].Valid()
  }

  /** A send takes at least one byte and no more than there are. */
  ghost predicate Possible(batch: seq<Completion>, rs: seq<SendResult>)
    requires |rs| == |batch|
  {
    forall i :: 0 <= i < |rs| && rs[i].Accepted? ==> 0 < rs[i].n <= |batch[i].response|
  }

  lemma HandleValid(s: Server, limit: nat, r: SendResult)
    requires s.batch != [] && AllValid(s)
    ensures AllValid(Handle(s, limit, r)) && Handle(s, limit, r).batch == s.batch[1..]
  {
    var d := s.batch[0];
    if d.conn in s.conns {
      var c := s.conns[d.conn].(inFlight := false);
      assert s.conns[d.conn].Valid();
      assert c.Valid();
    }
  }

  class TcpServer {
    const maxConnections: nat
    const maxOutput: nat
    const tasks: TaskQueue
    const completions: CompletionQueue
    var conns: map<nat, Connection>
    var nextId: nat

    constructor (maxConnections: nat, maxOutput: nat, tasks: TaskQueue, completions: CompletionQueue)
      ensures this.maxConnections == maxConnections && this.maxOutput == maxOutput
      ensures this.tasks == tasks && this.completions == completions && conns == map[] && nextId == 1
    {
      this.maxConnections, this.maxOutput := maxConnections, maxOutput;
      this.tasks, this.completions := tasks, completions;
      conns, nextId := map[], 1;
    }

    /** The state that the server shares with its workers, of which those two parts are elsewhere. */
    function Value(workers: seq<Option<Task>>, batch: seq<Completion>): Server
      reads this, tasks, completions
    {
      Server(conns, nextId, tasks.queue, workers, completions.queue, batch)
    }

    ghost predicate Valid()
      reads this
    {
      forall id :: id in conns ==> conns[id].Valid()
    }

    /** One accepted socket. */
    method AcceptOne()
      requires Valid()
      modifies this
      ensures Valid() && forall ws, b :: Value(ws, b) == Accept(old(Value(ws, b)), maxConnections)
    {
      if |conns| >= maxConnections {
        return;
      }
      conns := conns[nextId := Connection(false, [], [], 0)];
      nextId := nextId + 1;
    }

    method CloseConnection(id: nat)
      requires Valid()
      modifies this`conns
      ensures Valid() && forall ws, b :: Value(ws, b) == Close(old(Value(ws, b)), id)
    {
      if id in conns {
        conns := conns - {id};
      }
      assert old(conns) - {id} == conns;
    }

    /** The dispatch of one extracted frame. */
    method Dispatch(id: nat, f: Frame)
      requires Valid() && id in conns
      modifies this`conns, tasks`queue
      ensures Valid() && forall ws, b :: Value(ws, b) == Receive(old(Value(ws, b)), id, f)
      ensures conns.Keys == old(conns.Keys)
    {
      var c := conns[id];
      assert c.Valid();
      if c.inFlight {
        conns := conns[id := c.(pending := c.pending + [f])];
      } else {
        conns := conns[id := c.(inFlight := true)];
        tasks.Push(Task(id, f));
      }
    }

    /** The output branch of the event loop. */
    method SendOutput(id: nat, r: SendResult)
      requires Valid() && id in conns && (r.Accepted? ==> r.n <= |conns[id].Unsent()|)
      modifies this`conns
      ensures Valid() && forall ws, b :: Value(ws, b) == Flush(old(Value(ws, b)), id, r)
    {
      var c := conns[id];
      match r
      case Accepted(n) =>
        var offset := c.offset + n;
        if offset == |c.output| {
          conns := conns[id := c.(output := [], offset := 0)];
        } else {
          conns := conns[id := c.(offset := offset)];
        }
      case WouldBlock =>
      case Failed => CloseConnection(id);
    }

    /** A response is sent at once, as far as it goes, when nothing waits before it. */
    static method Output(before: Connection, response: bytes, r: SendResult) returns (out: Option<Connection>)
      requires before.Valid() && (r.Accepted? ==> 0 < r.n <= |response|)
      ensures out == Emit(before, response, r)
      ensures out.Some? ==> out.value.Valid() && out.value.pending == before.pending
    {
      var c := before;
      if |c.output| - c.offset == 0 {
        match r
        case Accepted(n) =>
          if n < |response| {
            c := c.(output := response[n..], offset := 0);
          }
        case WouldBlock => c := c.(output := response, offset := 0);
        case Failed => return None;
      } else {
        if c.offset > 0 {
          c := c.(output := c.output[c.offset..], offset := 0);
        }
        c := c.(output := c.output + response);
      }
      return Some(c);
    }

    /** One turn of the loop in `process_completions`. */
    method HandleCompletion(done: Completion, r: SendResult)
      requires Valid() && (r.Accepted? ==> 0 < r.n <= |done.response|)
      modifies this`conns, tasks`queue
      ensures Valid()
      ensures forall ws, b :: Value(ws, b) == Handle(old(Value(ws, [done] + b)), maxOutput, r)
    {
      hide Emit;
      Popped(done);
      if done.conn !in conns {
        return;
      }
      var c := conns[done.conn];
      assert c.Valid();
      c := c.(inFlight := false);
      var unsent := |c.output| - c.offset;
      if unsent + |done.response| > maxOutput {
        conns := conns - {done.conn};
        return;
      }
      var out := Output(c, done.response, r);
      if out.None? {
        conns := conns - {done.conn};
        return;
      }
      c := out.value;
      if c.pending != [] {
        var request := c.pending[0];
        conns := conns[done.conn := c.(pending := c.pending[1..], inFlight := true)];
        tasks.Push(Task(done.conn, request));
      } else {
        conns := conns[done.conn := c];
      }
    }

    /** `process_completions`: the whole completion queue, popped at once and handled in order. */
    method ProcessCompletions(rs: seq<SendResult>, ghost ws: seq<Option<Task>>)
      requires Valid() && |rs| == |completions.queue| && Possible(completions.queue, rs)
      modifies this`conns, tasks`queue, completions
      ensures Valid() && completions.queue == []
      ensures AllValid(PopAll(old(Value(ws, []))))
      ensures Value(ws, []) == HandleAll(PopAll(old(Value(ws, []))), maxOutput, rs)
    {
      hide Handle;
      var batch := completions.PopAll();
      ghost var popped := Value(ws, batch);
      var i := 0;
      while i < |batch|
        invariant 0 <= i <= |batch| && Valid() && completions.queue == [] && nextId == old(nextId)
        invariant HandleAll(popped, maxOutput, rs) == HandleAll(Value(ws, batch[i..]), maxOutput, rs[i..])
      {
        assert batch[i..] == [batch[i]] + batch[i + 1..];
        assert rs[i..][1..] == rs[i + 1..];
        HandleCompletion(batch[i], rs[i]);
        i := i + 1;
      }
    }
  }

  lemma Popped(d: Completion)
    ensures forall b: seq<Completion> :: ([d] + b)[0] == d && ([d] + b)[1..] == b
  {
    forall b: seq<Completion>
      ensures ([d] + b)[0] == d && ([d] + b)[1..] == b
    {
      assert ([d] + b)[1..] == b;
    }
  }
}
