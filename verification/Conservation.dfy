/** What holds over a whole server run: nothing is leaked, nothing is given back
    twice, and the controller has lived through the received requests one by one. */
module Conservation {
  import opened Prelude
  import opened Sessions
  import opened Endpoint
  import opened Ports
  import opened Server

  // ---------------------------------------------------------------- views of the log

  function Project<T>(log: seq<Event>, pick: Event -> Option<T>): seq<T> {
    if log == [] then []
    else (if pick(log[0]).Some? then [pick(log[0]).value] else []) + Project(log[1..], pick)
  }

  lemma ProjectFirst<T>(log: seq<Event>, pick: Event -> Option<T>)
    requires log != []
    ensures Project(log, pick)
            == (if pick(log[0]).Some? then [pick(log[0]).value] else []) + Project(log[1..], pick)
  {
  }

  lemma {:induction false} ProjectAppend<T>(a: seq<Event>, b: seq<Event>, pick: Event -> Option<T>)
    ensures Project(a + b, pick) == Project(a, pick) + Project(b, pick)
  {
    if a == [] {
      assert a + b == b;
    } else {
      assert (a + b)[0] == a[0] && (a + b)[1..] == a[1..] + b;
      ProjectAppend(a[1..], b, pick);
      ProjectFirst(a, pick);
      ProjectFirst(a + b, pick);
      hide Project;
      var head := if pick(a[0]).Some? then [pick(a[0]).value] else [];
      assert head + (Project(a[1..], pick) + Project(b, pick)) == (head + Project(a[1..], pick)) + Project(b, pick);
    }
  }

  lemma ProjectOne<T>(e: Event, pick: Event -> Option<T>)
    ensures Project([e], pick) == if pick(e).Some? then [pick(e).value] else []
  {
    assert [e][1..] == [];
  }

  function PickObtained(e: Event): Option<Handle> {
    if e.Obtain? then Some(e.handle) else None
  }

  function PickReleased(e: Event): Option<Handle> {
    if e.Release? then Some(e.handle) else None
  }

  function PickReceived(e: Event): Option<(PortKind, nat)> {
    if e.Received? then Some((e.port, e.token)) else None
  }

  function PickDeleted(e: Event): Option<(PortKind, nat)> {
    if e.Deleted? then Some((e.port, e.token)) else None
  }

  function PickRpcPayload(e: Event): Option<seq<byte>> {
    if e.Received? && e.port.Rpc? then Some(e.request) else None
  }

  /** The requests taken from the rpc port, in order. */
  function RpcPayloads(log: seq<Event>): seq<seq<byte>> {
    Project(log, PickRpcPayload)
  }

  function AsSet(h: Option<Handle>): multiset<Handle> {
    if h.Some? then multiset{h.value} else multiset{}
  }

  function HeldHandles(h: Held): multiset<Handle> {
    AsSet(h.rpcService) + AsSet(h.schemaService) + AsSet(h.rpcServer) + AsSet(h.schemaServer)
  }

  // ---------------------------------------------------------------- the invariant

  predicate IsKind(h: Option<Handle>, kind: HandleKind) {
    h.Some? ==> h.value.kind == kind
  }

  predicate GivesBack(e: Event, kind: HandleKind) {
    e.Release? && e.handle.kind == kind
  }

  /** No server is given back after a service. */
  ghost predicate ServersFirst(log: seq<Event>) {
    forall i, j :: 0 <= i < j < |log| && GivesBack(log[i], ServiceHandle) ==> !GivesBack(log[j], ServerHandle)
  }

  ghost predicate NoServiceReleased(log: seq<Event>) {
    forall i :: 0 <= i < |log| ==> !GivesBack(log[i], ServiceHandle)
  }

  ghost predicate Balanced<S>(st: ServerState<S>) {
    && multiset(Project(st.log, PickObtained)) == multiset(Project(st.log, PickReleased)) + HeldHandles(st.held)
    && Project(st.log, PickReceived) == Project(st.log, PickDeleted)
    && IsKind(st.held.rpcService, ServiceHandle) && IsKind(st.held.schemaService, ServiceHandle)
    && IsKind(st.held.rpcServer, ServerHandle) && IsKind(st.held.schemaServer, ServerHandle)
    && ServersFirst(st.log)
    && (NoServiceReleased(st.log) || st.held == NOTHING_HELD)
  }

  /** Growing the log by events that touch no handle and balance their requests. */
  lemma QuietEventsKeepBalance<S>(st: ServerState<S>, events: seq<Event>, state: S)
    requires Balanced(st)
    requires forall i :: 0 <= i < |events| ==> !events[i].Obtain? && !events[i].Release?
    requires Project(events, PickReceived) == Project(events, PickDeleted)
    ensures Balanced(st.(log := st.log + events, state := state))
  {
    hide Project;
    ProjectAppend(st.log, events, PickObtained);
    ProjectAppend(st.log, events, PickReleased);
    ProjectAppend(st.log, events, PickReceived);
    ProjectAppend(st.log, events, PickDeleted);
    ProjectNothing(events, PickObtained);
    ProjectNothing(events, PickReleased);
    assert Project(st.log, PickObtained) + [] == Project(st.log, PickObtained);
    assert Project(st.log, PickReleased) + [] == Project(st.log, PickReleased);
    var log := st.log + events;
    assert forall i :: |st.log| <= i < |log| ==> log[i] == events[i - |st.log|];
  }

  lemma {:induction false} ProjectNothing<T>(events: seq<Event>, pick: Event -> Option<T>)
    requires forall i :: 0 <= i < |events| ==> pick(events[i]) == None
    ensures Project(events, pick) == []
  {
    if events != [] {
      ProjectNothing(events[1..], pick);
    }
  }

  lemma ExchangeIsQuiet(port: PortKind, r: ActiveRequest, a: ByteAnswer)
    ensures forall e :: e in Exchange(port, r, a) ==> !e.Obtain? && !e.Release?
    ensures Project(Exchange(port, r, a), PickReceived) == [(port, r.token)]
    ensures Project(Exchange(port, r, a), PickDeleted) == [(port, r.token)]
    ensures RpcPayloads(Exchange(port, r, a)) == if port.Rpc? then [r.payload] else []
  {
    ExchangeProjects(port, r, a, PickReceived);
    ExchangeProjects(port, r, a, PickDeleted);
    ExchangeProjects(port, r, a, PickRpcPayload);
  }

  lemma ExchangeProjects<T>(port: PortKind, r: ActiveRequest, a: ByteAnswer, pick: Event -> Option<T>)
    requires a.Bytes? ==> pick(Sent(port, r.token, a.payload)) == None
    ensures Project(Exchange(port, r, a), pick)
            == Project([Received(port, r.token, r.payload)], pick) + Project([Deleted(port, r.token)], pick)
    ensures Project([Received(port, r.token, r.payload)], pick)
            == (var v := pick(Received(port, r.token, r.payload)); if v.Some? then [v.value] else [])
    ensures Project([Deleted(port, r.token)], pick)
            == (var v := pick(Deleted(port, r.token)); if v.Some? then [v.value] else [])
  {
    hide Project;
    var first, last := Received(port, r.token, r.payload), Deleted(port, r.token);
    ProjectOne(first, pick);
    ProjectOne(last, pick);
    if a.Bytes? && r.sendFault == None {
      var sent := Sent(port, r.token, a.payload);
      ProjectOne(sent, pick);
      ProjectAppend([first], [sent] + [last], pick);
      ProjectAppend([sent], [last], pick);
      assert Exchange(port, r, a) == [first] + ([sent] + [last]);
      assert [] + Project([last], pick) == Project([last], pick);
    } else {
      ProjectAppend([first], [last], pick);
      assert Exchange(port, r, a) == [first] + [last];
    }
  }

  // ------------------------------------------------ one response per request, in order

  function PickSent(e: Event): Option<(nat, seq<byte>)> {
    if e.Sent? then Some((e.token, e.payload)) else None
  }

  lemma FaultlessExchangeSends(port: PortKind, r: ActiveRequest, a: ByteAnswer)
    requires FaultOf(r, a) == None
    ensures a.Bytes? && Project(Exchange(port, r, a), PickSent) == [(r.token, a.payload)]
  {
    FaultlessExchange(port, r, a);
    var x := Exchange(port, r, a);
    assert x == [x[0]] + ([x[1]] + [x[2]]);
    hide Project, Exchange;
    ProjectOne(x[0], PickSent);
    ProjectOne(x[1], PickSent);
    ProjectOne(x[2], PickSent);
    ProjectAppend([x[1]], [x[2]], PickSent);
    ProjectAppend([x[0]], [x[1]] + [x[2]], PickSent);
  }

  /** A faultless drain sends exactly one response per request, in order: to each
      request its own answer. */
  lemma {:induction false} FaultlessDrainAnswersEach(port: PortKind, queue: seq<Receive>, answers: seq<ByteAnswer>)
    requires AllGot(queue) && |answers| == |queue| && NoFault(queue, answers)
    ensures forall i :: 0 <= i < |queue| ==> answers[i].Bytes?
    ensures Project(Exchanges(port, queue, answers), PickSent)
            == seq(|queue|, i requires 0 <= i < |queue| => (queue[i].request.token, answers[i].payload))
  {
    if queue != [] {
      assert FaultOf(queue[0].request, answers[0]) == None;
      FaultlessExchangeSends(port, queue[0].request, answers[0]);
      forall i | 0 <= i < |queue[1..]| ensures FaultOf(queue[1..][i].request, answers[1..][i]) == None {
        assert FaultOf(queue[i + 1].request, answers[i + 1]) == None;
      }
      FaultlessDrainAnswersEach(port, queue[1..], answers[1..]);
      forall i | 0 <= i < |queue| ensures answers[i].Bytes? {
        assert i > 0 ==> answers[1..][i - 1].Bytes?;
      }
      ProjectAppend(Exchange(port, queue[0].request, answers[0]), Exchanges(port, queue[1..], answers[1..]), PickSent);
    }
  }

  lemma {:induction false} DrainKeepsBalance<S>(
      f: (S, seq<byte>) -> Step<S, ByteAnswer>, port: PortKind, st: ServerState<S>, queue: seq<Receive>)
    requires Balanced(st)
    ensures var run := Drain(f, port, st.state, st.log, queue);
            Balanced(st.(state := run.state, log := run.log))
    decreases queue
  {
    if queue != [] && queue[0].Got? {
      var r := queue[0].request;
      var step := f(st.state, r.payload);
      ExchangeIsQuiet(port, r, step.answer);
      QuietEventsKeepBalance(st, Exchange(port, r, step.answer), step.state);
      hide Project, ServersFirst, NoServiceReleased, HeldHandles, Exchange, FaultOf, Balanced;
      if FaultOf(r, step.answer) == None {
        DrainKeepsBalance(f, port, st.(log := st.log + Exchange(port, r, step.answer), state := step.state), queue[1..]);
      }
    }
  }

  lemma ReleaseProjects(h: Option<Handle>)
    ensures Project(ReleaseEvents(h), PickObtained) == []
    ensures multiset(Project(ReleaseEvents(h), PickReleased)) == AsSet(h)
    ensures Project(ReleaseEvents(h), PickReceived) == Project(ReleaseEvents(h), PickDeleted) == []
  {
    if h.Some? {
      assert ReleaseEvents(h)[1..] == [];
    }
  }

  /** Giving back one handle, the last one of its kind to go in the right order. */
  lemma ReleaseProjectsAppended(log: seq<Event>, h: Option<Handle>)
    ensures var log' := log + ReleaseEvents(h);
            && Project(log', PickObtained) == Project(log, PickObtained)
            && multiset(Project(log', PickReleased)) == multiset(Project(log, PickReleased)) + AsSet(h)
            && Project(log', PickReceived) == Project(log, PickReceived)
            && Project(log', PickDeleted) == Project(log, PickDeleted)
  {
    var more := ReleaseEvents(h);
    ReleaseProjects(h);
    ProjectAppend(log, more, PickObtained);
    ProjectAppend(log, more, PickReleased);
    ProjectAppend(log, more, PickReceived);
    ProjectAppend(log, more, PickDeleted);
  }

  lemma ServerReleaseKeepsOrder(log: seq<Event>, h: Option<Handle>)
    requires ServersFirst(log) && IsKind(h, ServerHandle)
    requires NoServiceReleased(log) || h == None
    ensures ServersFirst(log + ReleaseEvents(h))
    ensures NoServiceReleased(log) ==> NoServiceReleased(log + ReleaseEvents(h))
  {
  }

  lemma ServiceReleaseKeepsOrder(log: seq<Event>, h: Option<Handle>)
    requires ServersFirst(log) && IsKind(h, ServiceHandle)
    ensures ServersFirst(log + ReleaseEvents(h))
  {
  }

  lemma CloseKeepsOrder<S>(st: ServerState<S>)
    requires Balanced(st)
    ensures ServersFirst(CloseAll(st).log)
  {
    hide Project;
    var h := st.held;
    var log1 := st.log + ReleaseEvents(h.schemaServer);
    var log2 := log1 + ReleaseEvents(h.rpcServer);
    ServerReleaseKeepsOrder(st.log, h.schemaServer);
    ServerReleaseKeepsOrder(log1, h.rpcServer);
    hide NoServiceReleased, ServersFirst;
    ServiceReleaseKeepsOrder(log2, h.schemaService);
    ServiceReleaseKeepsOrder(log2 + ReleaseEvents(h.schemaService), h.rpcService);
  }

  /** Closing gives back what is held, servers first. */
  lemma CloseKeepsBalance<S>(st: ServerState<S>)
    requires Balanced(st)
    ensures Balanced(CloseAll(st))
  {
    CloseKeepsOrder(st);
    hide Project, ServersFirst, NoServiceReleased;
    var h := st.held;
    var log1 := st.log + ReleaseEvents(h.schemaServer);
    var log2 := log1 + ReleaseEvents(h.rpcServer);
    ReleaseProjectsAppended(st.log, h.schemaServer);
    ReleaseProjectsAppended(log1, h.rpcServer);
    ReleaseProjectsAppended(log2, h.schemaService);
    ReleaseProjectsAppended(log2 + ReleaseEvents(h.schemaService), h.rpcService);
    ReleasesAddUp(multiset(Project(st.log, PickReleased)), h);
    hide AsSet, HeldHandles;
    var log := CloseAll(st).log;
    assert multiset(Project(log, PickObtained)) == multiset(Project(log, PickReleased)) + multiset{};
  }

  lemma ReleasesAddUp(released: multiset<Handle>, h: Held)
    ensures released + AsSet(h.schemaServer) + AsSet(h.rpcServer) + AsSet(h.schemaService) + AsSet(h.rpcService)
            == released + HeldHandles(h)
    ensures HeldHandles(NOTHING_HELD) == multiset{}
  {
  }

  lemma ObtainKeepsOrder(log: seq<Event>, h: Handle)
    requires ServersFirst(log) && NoServiceReleased(log)
    ensures ServersFirst(log + [Obtain(h)]) && NoServiceReleased(log + [Obtain(h)])
  {
  }

  lemma ObtainKeepsBalance<S>(st: ServerState<S>, h: Handle, held: Held)
    requires Balanced(st) && NoServiceReleased(st.log)
    requires h.kind == ServerHandle && HeldHandles(held) == HeldHandles(st.held) + multiset{h}
    requires held.rpcService == st.held.rpcService && held.schemaService == st.held.schemaService
    requires IsKind(held.rpcServer, ServerHandle) && IsKind(held.schemaServer, ServerHandle)
    ensures Balanced(st.(held := held, log := st.log + [Obtain(h)]))
    ensures NoServiceReleased(st.log + [Obtain(h)])
    ensures Project(st.log + [Obtain(h)], PickReleased) == Project(st.log, PickReleased)
  {
    hide Project, ServersFirst, NoServiceReleased;
    ObtainKeepsOrder(st.log, h);
    var more := [Obtain(h)];
    ProjectOne(more[0], PickObtained);
    ProjectOne(more[0], PickReleased);
    ProjectOne(more[0], PickReceived);
    ProjectOne(more[0], PickDeleted);
    ProjectAppend(st.log, more, PickObtained);
    ProjectAppend(st.log, more, PickReleased);
    ProjectAppend(st.log, more, PickReceived);
    ProjectAppend(st.log, more, PickDeleted);
    assert Project(st.log, PickReleased) + [] == Project(st.log, PickReleased);
    assert Project(st.log, PickReceived) + [] == Project(st.log, PickReceived);
    assert Project(st.log, PickDeleted) + [] == Project(st.log, PickDeleted);
  }

  lemma OpenedIsBalanced<S>(s: S, rpc: nat, schema: nat)
    ensures Balanced(Opened(s, rpc, schema)) && NoServiceReleased(Opened(s, rpc, schema).log)
    ensures Project(Opened(s, rpc, schema).log, PickReleased) == []
  {
    hide Project, ServersFirst, NoServiceReleased;
    var st := Opened(s, rpc, schema);
    OpenedProjects(st.log, PickObtained);
    OpenedProjects(st.log, PickReleased);
    OpenedProjects(st.log, PickReceived);
    OpenedProjects(st.log, PickDeleted);
    assert Project(st.log, PickObtained) == [st.log[0].handle, st.log[1].handle];
    assert Project(st.log, PickReleased) == [];
    assert Project(st.log, PickReceived) == [];
    assert Project(st.log, PickDeleted) == [];
    NothingReleased(st.log);
  }

  lemma NothingReleased(log: seq<Event>)
    requires forall i :: 0 <= i < |log| ==> log[i].Obtain?
    ensures NoServiceReleased(log) && ServersFirst(log)
  {
  }

  lemma OpenedProjects<T>(log: seq<Event>, pick: Event -> Option<T>)
    requires |log| == 2
    ensures Project(log, pick) == (if pick(log[0]).Some? then [pick(log[0]).value] else [])
                                  + (if pick(log[1]).Some? then [pick(log[1]).value] else [])
  {
    hide Project;
    ProjectOne(log[0], pick);
    ProjectOne(log[1], pick);
    ProjectAppend([log[0]], [log[1]], pick);
    assert log == [log[0]] + [log[1]];
  }

  lemma AbandonIsBalanced<S>(st: ServerState<S>, exc: Exc)
    requires Balanced(st) && st.held.rpcService.Some?
    ensures var built := Abandon(st, exc);
            && Balanced(built.server)
            && built.raised == Some(exc)
            && (built.server.held == NOTHING_HELD <==> exc != Interrupt)
            && (exc == Interrupt ==> built.server == st)
  {
    CloseKeepsBalance(st);
  }

  lemma RpcServerKeepsBalance<S>(st: ServerState<S>, server: nat)
    requires Balanced(st) && NoServiceReleased(st.log) && st.held.rpcServer == None
    ensures var st' := WithRpcServer(st, server);
            && Balanced(st') && NoServiceReleased(st'.log)
            && Project(st'.log, PickReleased) == Project(st.log, PickReleased)
  {
    ObtainKeepsBalance(st, Handle(ServerHandle, Rpc, server), WithRpcServer(st, server).held);
  }

  lemma SchemaServerKeepsBalance<S>(st: ServerState<S>, server: nat)
    requires Balanced(st) && NoServiceReleased(st.log) && st.held.schemaServer == None
    ensures Balanced(WithSchemaServer(st, server))
  {
    ObtainKeepsBalance(st, Handle(ServerHandle, Schema, server), WithSchemaServer(st, server).held);
  }

  /** The constructor is balanced however the two acquisitions end.  It leaves
      nothing behind on an exception, unless that is an interrupt: then it leaves
      everything it had obtained. */
  lemma ConstructorIsBalanced<S>(s: S, rpc: nat, schema: nat, a: Acquisition, b: Acquisition)
    ensures var built := CreateServers(Opened(s, rpc, schema), a, b);
            && Balanced(built.server)
            && (built.raised.Some? ==>
                  (built.server.held == NOTHING_HELD <==> built.raised.value != Interrupt))
            && (built.raised == Some(Interrupt) ==> Project(built.server.log, PickReleased) == [])
            && (built.raised == None ==> built.server.held.rpcServer.Some? && built.server.held.schemaServer.Some?)
  {
    var st := Opened(s, rpc, schema);
    OpenedIsBalanced(s, rpc, schema);
    hide Project, Balanced, NoServiceReleased, CloseAll;
    if !a.Acquired? {
      AbandonIsBalanced(st, a.Raises().value);
    } else {
      var st1 := WithRpcServer(st, a.server);
      RpcServerKeepsBalance(st, a.server);
      if !b.Acquired? {
        AbandonIsBalanced(st1, b.Raises().value);
      } else {
        SchemaServerKeepsBalance(st1, b.server);
      }
    }
  }

  lemma PerformKeepsBalance<S>(c: Controller<S>, descriptor: seq<byte>, st: ServerState<S>, op: Op)
    requires Balanced(st)
    ensures Balanced(Perform(c, descriptor, st, op).server)
  {
    match op
    case Close => CloseKeepsBalance(st);
    case DrainRpc(queue) => DrainKeepsBalance(Handler(c), Rpc, st, queue);
    case DrainSchema(queue) => DrainKeepsBalance(SchemaHandler(descriptor), Schema, st, queue);
  }

  lemma {:induction false} PerformAllKeepsBalance<S>(
      c: Controller<S>, descriptor: seq<byte>, st: ServerState<S>, ops: seq<Op>)
    requires Balanced(st)
    ensures Balanced(PerformAll(c, descriptor, st, ops))
    decreases ops
  {
    if ops != [] {
      PerformKeepsBalance(c, descriptor, st, ops[0]);
      PerformAllKeepsBalance(c, descriptor, Perform(c, descriptor, st, ops[0]).server, ops[1..]);
    }
  }

  /** A closed server does nothing more, whatever is called on it. */
  lemma {:induction false} ClosedServerIsInert<S>(
      c: Controller<S>, descriptor: seq<byte>, st: ServerState<S>, ops: seq<Op>)
    requires st.held == NOTHING_HELD
    ensures PerformAll(c, descriptor, st, ops) == st
    decreases ops
  {
    if ops != [] {
      assert CloseAll(st).log == st.log;
      ClosedServerIsInert(c, descriptor, st, ops[1..]);
    }
  }

  lemma {:induction false} PerformAllSplits<S>(
      c: Controller<S>, descriptor: seq<byte>, st: ServerState<S>, front: seq<Op>, back: seq<Op>)
    ensures PerformAll(c, descriptor, st, front + back)
            == PerformAll(c, descriptor, PerformAll(c, descriptor, st, front), back)
    decreases front
  {
    if front == [] {
      assert front + back == back;
    } else {
      assert (front + back)[1..] == front[1..] + back;
      PerformAllSplits(c, descriptor, Perform(c, descriptor, st, front[0]).server, front[1..], back);
    }
  }

  /** Nothing is leaked and nothing is given back twice: after a construction that
      succeeds, any calls, a close, and any further calls, every handle obtained has
      been released once, servers before services, every request received has been
      deleted once, in the order of receipt, and the calls after the close did nothing. */
  lemma EverythingIsGivenBack<S>(
      c: Controller<S>, descriptor: seq<byte>, s: S, rpc: nat, schema: nat, a: Acquisition, b: Acquisition,
      before: seq<Op>, after: seq<Op>)
    requires a.Acquired? && b.Acquired?
    ensures var built := CreateServers(Opened(s, rpc, schema), a, b).server;
            var final := PerformAll(c, descriptor, built, before + [Close] + after);
            && multiset(Project(final.log, PickReleased)) == multiset(Project(final.log, PickObtained))
            && Project(final.log, PickDeleted) == Project(final.log, PickReceived)
            && ServersFirst(final.log)
            && final == PerformAll(c, descriptor, built, before + [Close])
  {
    var built := CreateServers(Opened(s, rpc, schema), a, b).server;
    ConstructorIsBalanced(s, rpc, schema, a, b);
    PerformAllSplits(c, descriptor, built, before + [Close], after);
    PerformAllSplits(c, descriptor, built, before, [Close]);
    var open := PerformAll(c, descriptor, built, before);
    assert PerformAll(c, descriptor, open, [Close]) == CloseAll(open) by {
      assert [Close][1..] == [];
    }
    hide PerformAll, CreateServers, Project, ServersFirst, NoServiceReleased, Balanced;
    ClosedServerIsInert(c, descriptor, CloseAll(open), after);
    PerformAllKeepsBalance(c, descriptor, built, before);
    CloseKeepsBalance(open);
    ClosedIsSettled(open);
  }

  /** An acquisition ends in an interrupt, and the constructor does not close. */
  predicate Interrupted(a: Acquisition, b: Acquisition) {
    a == Reraised(Interrupt) || (a.Acquired? && b == Reraised(Interrupt))
  }

  lemma InterruptLeaves<S>(s: S, rpc: nat, schema: nat, a: Acquisition, b: Acquisition)
    requires CreateServers(Opened(s, rpc, schema), a, b).raised.Some?
    ensures var built := CreateServers(Opened(s, rpc, schema), a, b);
            && (built.raised.value == Interrupt <==> Interrupted(a, b))
            && (built.raised.value == Interrupt ==> built.server.held.rpcService.Some?)
  {
    hide CloseAll;
  }

  /** A failed construction releases what it obtained, in the right order, if and only if
      no acquisition was interrupted. */
  lemma FailedConstructionReleasesIff<S>(s: S, rpc: nat, schema: nat, a: Acquisition, b: Acquisition)
    requires CreateServers(Opened(s, rpc, schema), a, b).raised.Some?
    ensures var built := CreateServers(Opened(s, rpc, schema), a, b);
            && (multiset(Project(built.server.log, PickReleased)) == multiset(Project(built.server.log, PickObtained))
                <==> !Interrupted(a, b))
            && ServersFirst(built.server.log)
  {
    var built := CreateServers(Opened(s, rpc, schema), a, b);
    ConstructorIsBalanced(s, rpc, schema, a, b);
    InterruptLeaves(s, rpc, schema, a, b);
    hide CreateServers, Project, ServersFirst, NoServiceReleased;
    if Interrupted(a, b) {
      assert built.server.held.rpcService.Some?;
      assert built.server.held.rpcService.value in HeldHandles(built.server.held);
    }
  }

  // ------------------------------------------------- the controller's history

  /** The controller is where the requests received at the rpc port lead it, and every
      response sent there is the answer to the latest of them. */
  ghost predicate Faithful<S>(c: Controller<S>, origin: S, st: ServerState<S>) {
    var session := RunAll(Handler(c), origin, RpcPayloads(st.log));
    && st.state == session.state
    && forall i :: 0 <= i < |st.log| && st.log[i].Sent? && st.log[i].port.Rpc? ==>
         SentIsAnswer(st.log, i, session.answers)
  }

  ghost predicate SentIsAnswer(log: seq<Event>, i: nat, answers: seq<ByteAnswer>)
    requires i < |log| && log[i].Sent?
  {
    var n := |RpcPayloads(log[..i])|;
    0 < n <= |answers| && answers[n - 1] == Bytes(log[i].payload)
  }

  lemma {:induction false} PrefixHasFewerPayloads(log: seq<Event>, i: nat)
    requires i <= |log|
    ensures RpcPayloads(log[..i]) <= RpcPayloads(log)
  {
    assert log == log[..i] + log[i..];
    ProjectAppend(log[..i], log[i..], PickRpcPayload);
  }

  lemma OtherEventsKeepFaith<S>(c: Controller<S>, origin: S, st: ServerState<S>, events: seq<Event>, held: Held)
    requires Faithful(c, origin, st)
    requires RpcPayloads(events) == []
    requires forall i :: 0 <= i < |events| ==> !(events[i].Sent? && events[i].port.Rpc?)
    ensures Faithful(c, origin, st.(log := st.log + events, held := held))
  {
    hide Project, HandleBytes;
    var log := st.log + events;
    ProjectAppend(st.log, events, PickRpcPayload);
    assert RpcPayloads(st.log) + [] == RpcPayloads(st.log);
    var answers := RunAll(Handler(c), origin, RpcPayloads(log)).answers;
    forall i | 0 <= i < |log| && log[i].Sent? && log[i].port.Rpc? ensures SentIsAnswer(log, i, answers) {
      assert i < |st.log|;
      assert SentIsAnswer(st.log, i, answers);
      assert log[..i] == st.log[..i];
    }
  }

  lemma RpcExchangeKeepsFaith<S>(c: Controller<S>, origin: S, st: ServerState<S>, r: ActiveRequest)
    requires Faithful(c, origin, st)
    ensures var step := HandleBytes(c, st.state, r.payload);
            Faithful(c, origin, st.(log := st.log + Exchange(Rpc, r, step.answer), state := step.state))
  {
    var step := HandleBytes(c, st.state, r.payload);
    var events := Exchange(Rpc, r, step.answer);
    var log := st.log + events;
    ExchangeIsQuiet(Rpc, r, step.answer);
    ProjectAppend(st.log, events, PickRpcPayload);
    RunAllExtends(Handler(c), origin, RpcPayloads(st.log), r.payload);
    hide HandleBytes, RunAll, Project;
    var old' := RunAll(Handler(c), origin, RpcPayloads(st.log));
    var new' := RunAll(Handler(c), origin, RpcPayloads(log));
    assert new' == Session(step.state, old'.answers + [step.answer]);
    SentStaysAnswered(st.log, r, step.answer, old'.answers);
  }

  /** After one more exchange every response sent is still an answer, and so is the new one. */
  lemma SentStaysAnswered(log: seq<Event>, r: ActiveRequest, a: ByteAnswer, answers: seq<ByteAnswer>)
    requires |answers| == |RpcPayloads(log)|
    requires forall i :: 0 <= i < |log| && log[i].Sent? && log[i].port.Rpc? ==> SentIsAnswer(log, i, answers)
    ensures var log' := log + Exchange(Rpc, r, a);
            forall i :: 0 <= i < |log'| && log'[i].Sent? && log'[i].port.Rpc? ==> SentIsAnswer(log', i, answers + [a])
  {
    var first := Received(Rpc, r.token, r.payload);
    var log' := log + Exchange(Rpc, r, a);
    ProjectAppend(log, [first], PickRpcPayload);
    ProjectOne(first, PickRpcPayload);
    hide Project;
    forall i | 0 <= i < |log'| && log'[i].Sent? && log'[i].port.Rpc? ensures SentIsAnswer(log', i, answers + [a]) {
      if i < |log| {
        assert SentIsAnswer(log, i, answers);
        assert log'[..i] == log[..i];
      } else {
        assert i == |log| + 1;
        assert log'[..i] == log + [first];
      }
    }
  }

  lemma {:induction false} DrainKeepsFaith<S>(c: Controller<S>, origin: S, st: ServerState<S>, queue: seq<Receive>)
    requires Faithful(c, origin, st)
    ensures var run := Drain(Handler(c), Rpc, st.state, st.log, queue);
            Faithful(c, origin, st.(state := run.state, log := run.log))
    decreases queue
  {
    if queue != [] && queue[0].Got? {
      var r := queue[0].request;
      RpcExchangeKeepsFaith(c, origin, st, r);
      hide HandleBytes, Faithful;
      var step := HandleBytes(c, st.state, r.payload);
      DrainKeepsFaith(c, origin, st.(log := st.log + Exchange(Rpc, r, step.answer), state := step.state), queue[1..]);
    }
  }

  lemma {:induction false} SchemaDrainKeepsFaith<S>(
      c: Controller<S>, origin: S, descriptor: seq<byte>, st: ServerState<S>, queue: seq<Receive>)
    requires Faithful(c, origin, st)
    ensures var run := Drain(SchemaHandler(descriptor), Schema, st.state, st.log, queue);
            run.state == st.state && Faithful(c, origin, st.(state := run.state, log := run.log))
    decreases queue
  {
    if queue != [] && queue[0].Got? {
      var r := queue[0].request;
      ExchangeIsQuiet(Schema, r, Bytes(descriptor));
      OtherEventsKeepFaith(c, origin, st, Exchange(Schema, r, Bytes(descriptor)), st.held);
      SchemaDrainKeepsFaith(c, origin, descriptor, st.(log := st.log + Exchange(Schema, r, Bytes(descriptor))), queue[1..]);
    }
  }

  lemma ReleaseKeepsFaith<S>(c: Controller<S>, origin: S, st: ServerState<S>, h: Option<Handle>, held: Held)
    requires Faithful(c, origin, st)
    ensures Faithful(c, origin, st.(log := st.log + ReleaseEvents(h), held := held))
  {
    hide Faithful;
    ProjectNothing(ReleaseEvents(h), PickRpcPayload);
    OtherEventsKeepFaith(c, origin, st, ReleaseEvents(h), held);
  }

  lemma CloseKeepsFaith<S>(c: Controller<S>, origin: S, st: ServerState<S>)
    requires Faithful(c, origin, st)
    ensures Faithful(c, origin, CloseAll(st))
  {
    hide Faithful;
    var h := st.held;
    ReleaseKeepsFaith(c, origin, st, h.schemaServer, h);
    var st1 := st.(log := st.log + ReleaseEvents(h.schemaServer));
    ReleaseKeepsFaith(c, origin, st1, h.rpcServer, h);
    var st2 := st1.(log := st1.log + ReleaseEvents(h.rpcServer));
    ReleaseKeepsFaith(c, origin, st2, h.schemaService, h);
    var st3 := st2.(log := st2.log + ReleaseEvents(h.schemaService));
    ReleaseKeepsFaith(c, origin, st3, h.rpcService, NOTHING_HELD);
  }

  lemma PerformKeepsFaith<S>(c: Controller<S>, origin: S, descriptor: seq<byte>, st: ServerState<S>, op: Op)
    requires Faithful(c, origin, st)
    ensures Faithful(c, origin, Perform(c, descriptor, st, op).server)
  {
    match op
    case DrainRpc(queue) => DrainKeepsFaith(c, origin, st, queue);
    case DrainSchema(queue) => SchemaDrainKeepsFaith(c, origin, descriptor, st, queue);
    case Close => CloseKeepsFaith(c, origin, st);
  }

  lemma {:induction false} TurnsKeepInvariants<S>(
      c: Controller<S>, origin: S, descriptor: seq<byte>, st: ServerState<S>, cycles: seq<Cycle>)
    requires Balanced(st) && Faithful(c, origin, st)
    ensures var final := Turns(c, descriptor, st, cycles).0;
            Balanced(final) && Faithful(c, origin, final)
    decreases cycles
  {
    hide Faithful, Balanced, Perform;
    if cycles != [] && cycles[0].wait == None {
      var schema, rpc := DrainSchema(cycles[0].schema), DrainRpc(cycles[0].rpc);
      var one := Perform(c, descriptor, st, schema);
      PerformKeepsBalance(c, descriptor, st, schema);
      PerformKeepsFaith(c, origin, descriptor, st, schema);
      if one.raised == None {
        var two := Perform(c, descriptor, one.server, rpc);
        PerformKeepsBalance(c, descriptor, one.server, rpc);
        PerformKeepsFaith(c, origin, descriptor, one.server, rpc);
        if two.raised == None {
          TurnsKeepInvariants(c, origin, descriptor, two.server, cycles[1..]);
        }
      }
    }
  }

  lemma BuiltIsFaithful<S>(c: Controller<S>, s: S, rpc: nat, schema: nat, a: Acquisition, b: Acquisition)
    requires a.Acquired? && b.Acquired?
    ensures Faithful(c, s, CreateServers(Opened(s, rpc, schema), a, b).server)
  {
    ProjectNothing(CreateServers(Opened(s, rpc, schema), a, b).server.log, PickRpcPayload);
  }

  /** A served life, from construction through `run_forever` whatever ends it:
      everything obtained is released, every request is deleted, the controller is
      where the received requests lead a fresh one, and every response sent is the
      answer of that execution. */
  lemma ServedLife<S>(
      c: Controller<S>, descriptor: seq<byte>, s: S, rpc: nat, schema: nat, a: Acquisition, b: Acquisition,
      cycles: seq<Cycle>)
    requires a.Acquired? && b.Acquired?
    ensures var built := CreateServers(Opened(s, rpc, schema), a, b).server;
            var final := CloseAll(Turns(c, descriptor, built, cycles).0);
            && multiset(Project(final.log, PickReleased)) == multiset(Project(final.log, PickObtained))
            && Project(final.log, PickDeleted) == Project(final.log, PickReceived)
            && ServersFirst(final.log)
            && Faithful(c, s, final)
  {
    hide Faithful, Balanced, Project, CreateServers, Turns, CloseAll;
    var built := CreateServers(Opened(s, rpc, schema), a, b).server;
    ConstructorIsBalanced(s, rpc, schema, a, b);
    BuiltIsFaithful(c, s, rpc, schema, a, b);
    TurnsKeepInvariants(c, s, descriptor, built, cycles);
    var served := Turns(c, descriptor, built, cycles).0;
    CloseKeepsBalance(served);
    CloseKeepsFaith(c, s, served);
    ClosedIsSettled(served);
  }

  lemma ClosedIsSettled<S>(st: ServerState<S>)
    requires Balanced(CloseAll(st))
    ensures var log := CloseAll(st).log;
            && multiset(Project(log, PickReleased)) == multiset(Project(log, PickObtained))
            && Project(log, PickDeleted) == Project(log, PickReceived)
            && ServersFirst(log)
  {
  }
}
