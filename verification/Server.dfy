/** The server: it takes its ports, drains requests in cycles, and gives everything
    back.  `log` is what iceoryx2 sees of it. */
module Server {
  import opened Prelude
  import opened Sessions
  import opened Endpoint
  import opened Ports

  // ---------------------------------------------------------------- transport

  datatype PortKind = Rpc | Schema

  /** A request taken from a port, with what goes wrong on the way back, if anything. */
  datatype ActiveRequest = ActiveRequest(
    token: nat, payload: seq<byte>, sendFault: Option<Exc>, deleteFault: Option<Exc>)

  datatype Receive = Got(request: ActiveRequest) | ReceiveFails(exc: Exc)

  datatype HandleKind = ServiceHandle | ServerHandle

  datatype Handle = Handle(kind: HandleKind, port: PortKind, number: nat)

  datatype Event =
    | Obtain(handle: Handle)
    | Release(handle: Handle)
    | Received(port: PortKind, token: nat, request: seq<byte>)
    | Sent(port: PortKind, token: nat, payload: seq<byte>)
    | Deleted(port: PortKind, token: nat)

  // ---------------------------------------------------------------- draining

  /** What one request leaves in the log: it is deleted whatever happened before. */
  function Exchange(port: PortKind, r: ActiveRequest, a: ByteAnswer): seq<Event> {
    if a.Bytes? && r.sendFault == None
    then [Received(port, r.token, r.payload), Sent(port, r.token, a.payload), Deleted(port, r.token)]
    else [Received(port, r.token, r.payload), Deleted(port, r.token)]
  }

  /** The exception one request ends with; one raised by `delete` hides an earlier one. */
  function FaultOf(r: ActiveRequest, a: ByteAnswer): Option<Exc> {
    if r.deleteFault.Some? then r.deleteFault
    else if a.BytesEscape? then Some(a.exc)
    else r.sendFault
  }

  /** `served` counts the requests taken from the port. */
  datatype DrainRun<+S> = DrainRun(state: S, log: seq<Event>, served: nat, raised: Option<Exc>)

  function Drain<S>(
      f: (S, seq<byte>) -> Step<S, ByteAnswer>, port: PortKind, s: S, log: seq<Event>, queue: seq<Receive>): DrainRun<S>
    decreases queue
  {
    if queue == [] then DrainRun(s, log, 0, None)
    else
      match queue[0]
      case ReceiveFails(exc) => DrainRun(s, log, 0, Some(exc))
      case Got(r) =>
        var step := f(s, r.payload);
        var log' := log + Exchange(port, r, step.answer);
        var fault := FaultOf(r, step.answer);
        if fault.Some? then DrainRun(step.state, log', 1, fault)
        else
          var later := Drain(f, port, step.state, log', queue[1..]);
          later.(served := later.served + 1)
  }

  /** The schema port answers every request with the descriptor. */
  function SchemaHandler<S>(descriptor: seq<byte>): (S, seq<byte>) -> Step<S, ByteAnswer> {
    (s, raw) => Step(s, Bytes(descriptor))
  }

  predicate AllGot(queue: seq<Receive>) {
    forall i :: 0 <= i < |queue| ==> queue[i].Got?
  }

  function Payloads(queue: seq<Receive>): (r: seq<seq<byte>>)
    requires AllGot(queue)
    ensures |r| == |queue|
  {
    seq(|queue|, i requires 0 <= i < |queue| => queue[i].request.payload)
  }

  /** The exchanges of a queue with their answers, one after the other. */
  function Exchanges(port: PortKind, queue: seq<Receive>, answers: seq<ByteAnswer>): seq<Event>
    requires AllGot(queue) && |answers| == |queue|
  {
    if queue == [] then []
    else Exchange(port, queue[0].request, answers[0]) + Exchanges(port, queue[1..], answers[1..])
  }

  /** No request of the queue raises, given its answers. */
  predicate NoFault(queue: seq<Receive>, answers: seq<ByteAnswer>)
    requires AllGot(queue) && |answers| == |queue|
  {
    forall i :: 0 <= i < |queue| ==> FaultOf(queue[i].request, answers[i]) == None
  }

  /** Draining, with whatever faults, is sequential execution of the requests it took:
      they are the front of the queue, each is answered in order by the machine, and
      each is deleted once. */
  lemma {:induction false} DrainIsSequential<S>(
      f: (S, seq<byte>) -> Step<S, ByteAnswer>, port: PortKind, s: S, log: seq<Event>, queue: seq<Receive>)
    ensures var run := Drain(f, port, s, log, queue);
            && run.served <= |queue|
            && AllGot(queue[..run.served])
            && var session := RunAll(f, s, Payloads(queue[..run.served]));
               && run.state == session.state
               && run.log == log + Exchanges(port, queue[..run.served], session.answers)
    decreases queue
  {
    if queue != [] && queue[0].Got? {
      var r := queue[0].request;
      var step := f(s, r.payload);
      var log' := log + Exchange(port, r, step.answer);
      hide FaultOf, Exchange, Exchanges, Payloads, RunAll;
      if FaultOf(r, step.answer) == None {
        DrainIsSequential(f, port, step.state, log', queue[1..]);
      }
      var n := Drain(f, port, s, log, queue).served;
      var later := RunAll(f, step.state, Payloads(queue[1..][..n - 1]));
      FrontSession(f, s, queue, n);
      FrontExchanges(port, queue, n, step.answer, later.answers);
      if FaultOf(r, step.answer) != None {
        NothingExchanged(f, port, step.state, queue[1..]);
      }
    }
  }

  lemma NothingExchanged<S>(f: (S, seq<byte>) -> Step<S, ByteAnswer>, port: PortKind, s: S, queue: seq<Receive>)
    ensures RunAll(f, s, Payloads(queue[..0])) == Session(s, [])
    ensures Exchanges(port, queue[..0], []) == []
  {
  }

  /** Of the first n requests only the last one may raise.  If it does, that is what was
      raised; if not, either the queue was exhausted or receiving the next one raised. */
  predicate StopsAtFirstFault(queue: seq<Receive>, n: nat, answers: seq<ByteAnswer>, raised: Option<Exc>)
    requires n <= |queue| && n == |answers| && AllGot(queue[..n])
  {
    && (forall i :: 0 <= i < n - 1 ==> FaultOf(queue[..n][i].request, answers[i]) == None)
    && var last := if n == 0 then None else FaultOf(queue[..n][n - 1].request, answers[n - 1]);
       if last.Some? then raised == last
       else if n == |queue| then raised == None
       else raised.Some? && queue[n] == ReceiveFails(raised.value)
  }

  lemma StopsOneLater(queue: seq<Receive>, n: nat, a: ByteAnswer, answers: seq<ByteAnswer>, raised: Option<Exc>)
    requires 0 < n <= |queue| && n - 1 == |answers| && queue[0].Got? && AllGot(queue[1..][..n - 1])
    requires AllGot(queue[..n])
    requires FaultOf(queue[0].request, a) == None && StopsAtFirstFault(queue[1..], n - 1, answers, raised)
    ensures StopsAtFirstFault(queue, n, [a] + answers, raised)
  {
    hide FaultOf;
    var tail := queue[1..][..n - 1];
    assert forall i :: 0 < i < n ==> queue[..n][i] == tail[i - 1];
  }

  /** The drain stops early exactly at the first exception, and raises that one. */
  lemma {:induction false} DrainStopsAtFirstFault<S>(
      f: (S, seq<byte>) -> Step<S, ByteAnswer>, port: PortKind, s: S, log: seq<Event>, queue: seq<Receive>)
    ensures var run := Drain(f, port, s, log, queue);
            && run.served <= |queue| && AllGot(queue[..run.served])
            && StopsAtFirstFault(
                 queue, run.served, RunAll(f, s, Payloads(queue[..run.served])).answers, run.raised)
    decreases queue
  {
    var run := Drain(f, port, s, log, queue);
    if queue != [] && queue[0].Got? {
      var r := queue[0].request;
      var step := f(s, r.payload);
      var log' := log + Exchange(port, r, step.answer);
      if FaultOf(r, step.answer) == None {
        DrainStopsAtFirstFault(f, port, step.state, log', queue[1..]);
        FrontSession(f, s, queue, run.served);
        hide StopsAtFirstFault, RunAll, FaultOf;
        StopsOneLater(queue, run.served, step.answer,
                      RunAll(f, step.state, Payloads(queue[1..][..run.served - 1])).answers, run.raised);
      } else {
        FrontSession(f, s, queue, 1);
      }
    }
  }

  /** The session over the front of a queue, one request at a time. */
  lemma FrontSession<S>(f: (S, seq<byte>) -> Step<S, ByteAnswer>, s: S, queue: seq<Receive>, n: nat)
    requires 0 < n <= |queue| && queue[0].Got? && AllGot(queue[1..][..n - 1])
    ensures AllGot(queue[..n])
    ensures var step := f(s, queue[0].request.payload);
            var later := RunAll(f, step.state, Payloads(queue[1..][..n - 1]));
            RunAll(f, s, Payloads(queue[..n])) == Session(later.state, [step.answer] + later.answers)
  {
    FrontTail(queue, n);
    assert Payloads(queue[..n])[0] == queue[0].request.payload;
  }

  lemma FrontTail(queue: seq<Receive>, n: nat)
    requires 0 < n <= |queue| && queue[0].Got? && AllGot(queue[1..][..n - 1])
    ensures queue[..n][1..] == queue[1..][..n - 1]
    ensures AllGot(queue[..n])
    ensures Payloads(queue[..n])[1..] == Payloads(queue[..n][1..])
  {
    var front := queue[..n];
    assert front[1..] == queue[1..][..n - 1];
    assert forall i :: 0 < i < n ==> front[i] == front[1..][i - 1];
  }

  lemma FrontExchanges(port: PortKind, queue: seq<Receive>, n: nat, a: ByteAnswer, answers: seq<ByteAnswer>)
    requires 0 < n <= |queue| && queue[0].Got? && AllGot(queue[1..][..n - 1]) && |answers| == n - 1
    ensures AllGot(queue[..n])
    ensures Exchanges(port, queue[..n], [a] + answers)
            == Exchange(port, queue[0].request, a) + Exchanges(port, queue[1..][..n - 1], answers)
  {
    FrontTail(queue, n);
    hide Exchange;
    assert ([a] + answers)[1..] == answers;
  }

  lemma {:induction false} FaultlessDrain<S>(
      f: (S, seq<byte>) -> Step<S, ByteAnswer>, port: PortKind, s: S, log: seq<Event>, queue: seq<Receive>)
    requires AllGot(queue)
    requires NoFault(queue, RunAll(f, s, Payloads(queue)).answers)
    ensures var session := RunAll(f, s, Payloads(queue));
            Drain(f, port, s, log, queue)
            == DrainRun(session.state, log + Exchanges(port, queue, session.answers), |queue|, None)
    decreases queue
  {
    if queue != [] {
      var answers := RunAll(f, s, Payloads(queue)).answers;
      var step := f(s, queue[0].request.payload);
      assert Payloads(queue)[1..] == Payloads(queue[1..]);
      assert answers[0] == step.answer && FaultOf(queue[0].request, answers[0]) == None;
      assert answers[1..] == RunAll(f, step.state, Payloads(queue[1..])).answers;
      forall i | 0 <= i < |queue[1..]| ensures FaultOf(queue[1..][i].request, answers[1..][i]) == None {
        assert FaultOf(queue[i + 1].request, answers[i + 1]) == None;
      }
      FaultlessDrain(f, port, step.state, log + Exchange(port, queue[0].request, step.answer), queue[1..]);
    }
  }

  /** Without faults, draining empties the queue and leaves the controller where
      handling the requests one by one would; every request gets its own answer. */
  lemma DrainRefinesHandling<S>(c: Controller<S>, s: S, log: seq<Event>, queue: seq<Receive>)
    requires AllGot(queue)
    requires NoFault(queue, RunAll(Handler(c), s, Payloads(queue)).answers)
    ensures var session := RunAll(Handler(c), s, Payloads(queue));
            Drain(Handler(c), Rpc, s, log, queue)
            == DrainRun(session.state, log + Exchanges(Rpc, queue, session.answers), |queue|, None)
  {
    FaultlessDrain(Handler(c), Rpc, s, log, queue);
  }

  lemma FaultlessExchange(port: PortKind, r: ActiveRequest, a: ByteAnswer)
    requires FaultOf(r, a) == None
    ensures a.Bytes?
    ensures Exchange(port, r, a)
            == [Received(port, r.token, r.payload), Sent(port, r.token, a.payload), Deleted(port, r.token)]
  {
  }

  // ---------------------------------------------------------------- lifecycle

  datatype Held = Held(
    rpcService: Option<Handle>, schemaService: Option<Handle>, rpcServer: Option<Handle>, schemaServer: Option<Handle>)

  datatype ServerState<+S> = ServerState(state: S, held: Held, log: seq<Event>)

  const NOTHING_HELD := Held(None, None, None, None)

  /** Past the creation of the two services. */
  function Opened<S>(s: S, rpc: nat, schema: nat): ServerState<S> {
    var rpcService := Handle(ServiceHandle, Rpc, rpc);
    var schemaService := Handle(ServiceHandle, Schema, schema);
    ServerState(s, Held(Some(rpcService), Some(schemaService), None, None), [Obtain(rpcService), Obtain(schemaService)])
  }

  function ReleaseEvents(h: Option<Handle>): seq<Event> {
    if h.Some? then [Release(h.value)] else []
  }

  /** Servers are released before services; what is already gone is skipped. */
  function CloseAll<S>(st: ServerState<S>): ServerState<S> {
    var h := st.held;
    st.(held := NOTHING_HELD,
        log := st.log + ReleaseEvents(h.schemaServer) + ReleaseEvents(h.rpcServer)
               + ReleaseEvents(h.schemaService) + ReleaseEvents(h.rpcService))
  }

  datatype Constructed<+S> = Constructed(server: ServerState<S>, raised: Option<Exc>)

  function WithRpcServer<S>(st: ServerState<S>, server: nat): ServerState<S> {
    var h := Handle(ServerHandle, Rpc, server);
    st.(held := st.held.(rpcServer := Some(h)), log := st.log + [Obtain(h)])
  }

  function WithSchemaServer<S>(st: ServerState<S>, server: nat): ServerState<S> {
    var h := Handle(ServerHandle, Schema, server);
    st.(held := st.held.(schemaServer := Some(h)), log := st.log + [Obtain(h)])
  }

  /** A failed construction closes what it has and raises again, but not on an interrupt. */
  function Abandon<S>(st: ServerState<S>, exc: Exc): Constructed<S> {
    Constructed(if exc.Interrupt? then st else CloseAll(st), Some(exc))
  }

  /** The rest of the constructor, given how the two acquisitions end. */
  function CreateServers<S>(st: ServerState<S>, rpc: Acquisition, schema: Acquisition): Constructed<S> {
    if !rpc.Acquired? then Abandon(st, rpc.Raises().value)
    else
      var st1 := WithRpcServer(st, rpc.server);
      if !schema.Acquired? then Abandon(st1, schema.Raises().value)
      else Constructed(WithSchemaServer(st1, schema.server), None)
  }

  datatype Op = DrainSchema(queue: seq<Receive>) | DrainRpc(queue: seq<Receive>) | Close

  datatype Done<+S> = Done(server: ServerState<S>, raised: Option<Exc>)

  function DrainPort<S>(
      f: (S, seq<byte>) -> Step<S, ByteAnswer>, port: PortKind, st: ServerState<S>, queue: seq<Receive>): Done<S>
  {
    if (if port.Rpc? then st.held.rpcServer else st.held.schemaServer) == None then Done(st, None)
    else
      var run := Drain(f, port, st.state, st.log, queue);
      Done(st.(state := run.state, log := run.log), run.raised)
  }

  function Perform<S>(c: Controller<S>, descriptor: seq<byte>, st: ServerState<S>, op: Op): Done<S> {
    match op
    case DrainSchema(queue) => DrainPort(SchemaHandler(descriptor), Schema, st, queue)
    case DrainRpc(queue) => DrainPort(Handler(c), Rpc, st, queue)
    case Close => Done(CloseAll(st), None)
  }

  /** Any calls in any order; the caller survives their exceptions. */
  function PerformAll<S>(c: Controller<S>, descriptor: seq<byte>, st: ServerState<S>, ops: seq<Op>): ServerState<S>
    decreases ops
  {
    if ops == [] then st
    else PerformAll(c, descriptor, Perform(c, descriptor, st, ops[0]).server, ops[1..])
  }

  /** One turn of `run_forever`: what the wait does and what then lies in the ports. */
  datatype Cycle = Cycle(wait: Option<Exc>, schema: seq<Receive>, rpc: seq<Receive>)

  /** The turns up to the exception that ends them; a run that outlives its script is
      ended by an interrupt. */
  function Turns<S>(c: Controller<S>, descriptor: seq<byte>, st: ServerState<S>, cycles: seq<Cycle>): (ServerState<S>, Exc)
    decreases cycles
  {
    if cycles == [] then (st, Interrupt)
    else if cycles[0].wait.Some? then (st, cycles[0].wait.value)
    else
      var one := Perform(c, descriptor, st, DrainSchema(cycles[0].schema));
      if one.raised.Some? then (one.server, one.raised.value)
      else
        var two := Perform(c, descriptor, one.server, DrainRpc(cycles[0].rpc));
        if two.raised.Some? then (two.server, two.raised.value)
        else Turns(c, descriptor, two.server, cycles[1..])
  }

  // ---------------------------------------------------------------- the class

  class Iox2JsonRpcServer<S> {
    const endpoint: ControllerRpcEndpoint<S>
    const descriptor: seq<byte>
    var held: Held
    var log: seq<Event>

    function View(): ServerState<S>
      reads this, endpoint
    {
      ServerState(endpoint.state, held, log)
    }

    /** The constructor up to its try block, with the two services just created. */
    constructor (controller: Controller<S>, state: S, descriptor: seq<byte>, rpc: nat, schema: nat)
      ensures fresh(endpoint) && endpoint.controller == controller && this.descriptor == descriptor
      ensures View() == Opened(state, rpc, schema)
    {
      endpoint := new ControllerRpcEndpoint(controller, state);
      this.descriptor := descriptor;
      held := Opened(state, rpc, schema).held;
      log := Opened(state, rpc, schema).log;
    }

    method ReleaseHandle(h: Option<Handle>)
      modifies this`log
      ensures log == old(log) + ReleaseEvents(h)
    {
      if h.Some? {
        log := log + [Release(h.value)];
      }
    }

    method CloseServer()
      modifies this
      ensures View() == CloseAll(old(View()))
    {
      ReleaseHandle(held.schemaServer);
      held := held.(schemaServer := None);
      ReleaseHandle(held.rpcServer);
      held := held.(rpcServer := None);
      ReleaseHandle(held.schemaService);
      held := held.(schemaService := None);
      ReleaseHandle(held.rpcService);
      held := held.(rpcService := None);
    }

    /** The constructor's try block. */
    method CreatePorts(rpc: nat -> Attempt, schema: nat -> Attempt, maxAttempts: int) returns (raised: Option<Exc>)
      modifies this
      ensures Constructed(View(), raised)
              == CreateServers(old(View()), Acquire(rpc, 0, maxAttempts), Acquire(schema, 0, maxAttempts))
    {
      var first, _, _, _ := CreateServerWithDeadNodeCleanup(rpc, maxAttempts);
      raised := first.Raises();
      if raised == None {
        var handle := Handle(ServerHandle, Rpc, first.server);
        held := held.(rpcServer := Some(handle));
        log := log + [Obtain(handle)];
        var second, _, _, _ := CreateServerWithDeadNodeCleanup(schema, maxAttempts);
        raised := second.Raises();
        if raised == None {
          var handle' := Handle(ServerHandle, Schema, second.server);
          held := held.(schemaServer := Some(handle'));
          log := log + [Obtain(handle')];
        }
      }
      if raised.Some? && !raised.value.Interrupt? {
        CloseServer();
      }
    }

    /** Loans a slice of the payload's length, copies, and sends. */
    method SendResponse(port: PortKind, r: ActiveRequest, payload: seq<byte>) returns (raised: Option<Exc>)
      modifies this`log
      ensures raised == r.sendFault
      ensures log == old(log) + if raised == None then [Sent(port, r.token, payload)] else []
    {
      var slice := new byte[|payload|];
      WriteBytesToUninitSlice(slice, payload);
      assert slice[..] == payload;
      raised := r.sendFault;
      if raised == None {
        log := log + [Sent(port, r.token, slice[..])];
      }
    }

    method BuildResponse(port: PortKind, r: ActiveRequest) returns (answer: ByteAnswer)
      modifies endpoint
      ensures Step(endpoint.state, answer) == (match port
                                               case Schema => SchemaHandler(descriptor)(old(endpoint.state), r.payload)
                                               case Rpc => Handler(endpoint.controller)(old(endpoint.state), r.payload))
    {
      match port
      case Schema =>
        answer := Bytes(descriptor);
      case Rpc =>
        var slice := new byte[|r.payload|](i requires 0 <= i < |r.payload| => r.payload[i]);
        var raw := SliceToBytes(slice);
        assert raw == r.payload;
        answer := endpoint.HandleRaw(raw);
    }

    function MachineOf(port: PortKind): (S, seq<byte>) -> Step<S, ByteAnswer> {
      match port
      case Schema => SchemaHandler(descriptor)
      case Rpc => Handler(endpoint.controller)
    }

    /** One request: the response is built and sent, and the request is deleted on every
        way out; an exception from `delete` replaces an earlier one. */
    method ServeRequest(port: PortKind, r: ActiveRequest) returns (raised: Option<Exc>)
      modifies this`log, endpoint
      ensures var step := MachineOf(port)(old(endpoint.state), r.payload);
              && endpoint.state == step.state
              && log == old(log) + Exchange(port, r, step.answer)
              && raised == FaultOf(r, step.answer)
    {
      ghost var before := log;
      log := log + [Received(port, r.token, r.payload)];
      var answer := BuildResponse(port, r);
      if answer.Bytes? {
        raised := SendResponse(port, r, answer.payload);
      } else {
        raised := Some(answer.exc);
      }
      log := log + [Deleted(port, r.token)];
      assert log == before + Exchange(port, r, answer);
      if r.deleteFault.Some? {
        raised := r.deleteFault;
      }
    }

    method DrainRequests(port: PortKind, queue: seq<Receive>) returns (raised: Option<Exc>)
      modifies this`log, endpoint
      ensures Done(View(), raised) == DrainPort(MachineOf(port), port, old(View()), queue)
    {
      if (if port.Rpc? then held.rpcServer else held.schemaServer) == None {
        return None;
      }
      ghost var f := MachineOf(port);
      ghost var whole := Drain(f, port, endpoint.state, log, queue);
      for i := 0 to |queue|
        invariant var rest := Drain(f, port, endpoint.state, log, queue[i..]);
                  rest.(served := whole.served) == whole
      {
        if queue[i].ReceiveFails? {
          return Some(queue[i].exc);
        }
        raised := ServeRequest(port, queue[i].request);
        if raised.Some? {
          return;
        }
      }
      raised := None;
    }

    /** Serves until an exception; the two ways to stop a server are swallowed.  The
        server is closed on every way out. */
    method RunForever(cycles: seq<Cycle>) returns (raised: Option<Exc>)
      modifies this, endpoint
      ensures var (served, exc) := Turns(endpoint.controller, descriptor, old(View()), cycles);
              && View() == CloseAll(served)
              && raised == if exc.Error? then Some(exc) else None
    {
      var exc := Interrupt;
      for i := 0 to |cycles|
        invariant held == old(held)
        invariant Turns(endpoint.controller, descriptor, View(), cycles[i..])
                  == Turns(endpoint.controller, descriptor, old(View()), cycles)
        invariant exc == Interrupt
      {
        if cycles[i].wait.Some? {
          exc := cycles[i].wait.value;
          break;
        }
        var fault := DrainRequests(Schema, cycles[i].schema);
        if fault.Some? {
          exc := fault.value;
          break;
        }
        fault := DrainRequests(Rpc, cycles[i].rpc);
        if fault.Some? {
          exc := fault.value;
          break;
        }
      }
      CloseServer();
      raised := if exc.Error? then Some(exc) else None;
    }
  }
}
