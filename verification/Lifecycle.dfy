/** Which handles a server takes and gives back, one by one and in which order. */
module Lifecycle {
  import opened Prelude
  import opened Sessions
  import opened Endpoint
  import opened Ports
  import opened Server
  import opened Conservation

  function Obtained(log: seq<Event>): seq<Handle> {
    Project(log, PickObtained)
  }

  function Released(log: seq<Event>): seq<Handle> {
    Project(log, PickReleased)
  }

  /** The handles of a server with these services and servers, in the order of taking them. */
  function Four(rpc: nat, schema: nat, rpcServer: nat, schemaServer: nat): seq<Handle> {
    [Handle(ServiceHandle, Rpc, rpc), Handle(ServiceHandle, Schema, schema),
     Handle(ServerHandle, Rpc, rpcServer), Handle(ServerHandle, Schema, schemaServer)]
  }

  /** The same in the order of giving them back: the last one taken goes first. */
  function FourBack(rpc: nat, schema: nat, rpcServer: nat, schemaServer: nat): seq<Handle> {
    [Handle(ServerHandle, Schema, schemaServer), Handle(ServerHandle, Rpc, rpcServer),
     Handle(ServiceHandle, Schema, schema), Handle(ServiceHandle, Rpc, rpc)]
  }

  // ---------------------------------------------------------------- appending to the log

  lemma Appended(log: seq<Event>, events: seq<Event>)
    ensures Obtained(log + events) == Obtained(log) + Obtained(events)
    ensures Released(log + events) == Released(log) + Released(events)
  {
    ProjectAppend(log, events, PickObtained);
    ProjectAppend(log, events, PickReleased);
  }

  lemma SingleEvents(h: Handle)
    ensures Obtained([Obtain(h)]) == [h] && Released([Obtain(h)]) == []
    ensures Obtained([Release(h)]) == [] && Released([Release(h)]) == [h]
    ensures Obtained([]) == [] && Released([]) == []
  {
    ProjectOne(Obtain(h), PickObtained);
    ProjectOne(Obtain(h), PickReleased);
    ProjectOne(Release(h), PickObtained);
    ProjectOne(Release(h), PickReleased);
  }

  lemma GivingBack(log: seq<Event>, h: Option<Handle>)
    ensures Obtained(log + ReleaseEvents(h)) == Obtained(log)
    ensures Released(log + ReleaseEvents(h)) == Released(log) + if h.Some? then [h.value] else []
  {
    Appended(log, ReleaseEvents(h));
    if h.Some? {
      SingleEvents(h.value);
    }
  }

  lemma Taking(log: seq<Event>, h: Handle)
    ensures Obtained(log + [Obtain(h)]) == Obtained(log) + [h]
    ensures Released(log + [Obtain(h)]) == Released(log)
  {
    Appended(log, [Obtain(h)]);
    SingleEvents(h);
  }

  /** Closing gives back what is held: the schema server, the rpc server, the schema
      service, the rpc service, each if it is held. */
  lemma ClosingGivesBack<S>(st: ServerState<S>)
    ensures var h, log := st.held, CloseAll(st).log;
            && CloseAll(st).held == NOTHING_HELD && CloseAll(st).state == st.state
            && Obtained(log) == Obtained(st.log)
            && Released(log) == Released(st.log)
                                + (if h.schemaServer.Some? then [h.schemaServer.value] else [])
                                + (if h.rpcServer.Some? then [h.rpcServer.value] else [])
                                + (if h.schemaService.Some? then [h.schemaService.value] else [])
                                + (if h.rpcService.Some? then [h.rpcService.value] else [])
  {
    hide Obtained, Released, ReleaseEvents;
    var h := st.held;
    var log1 := st.log + ReleaseEvents(h.schemaServer);
    var log2 := log1 + ReleaseEvents(h.rpcServer);
    GivingBack(st.log, h.schemaServer);
    GivingBack(log1, h.rpcServer);
    GivingBack(log2, h.schemaService);
    GivingBack(log2 + ReleaseEvents(h.schemaService), h.rpcService);
  }

  // ---------------------------------------------------------------- construction

  /** What the constructor raises: what the first acquisition that fails raises. */
  function FirstFailure(a: Acquisition, b: Acquisition): Option<Acquisition> {
    if !a.Acquired? then Some(a) else if !b.Acquired? then Some(b) else None
  }

  lemma OpenedHolds<S>(s: S, rpc: nat, schema: nat)
    ensures var st := Opened(s, rpc, schema);
            && Obtained(st.log) == Four(rpc, schema, 0, 0)[..2] && Released(st.log) == []
            && st.held == Held(Some(Handle(ServiceHandle, Rpc, rpc)), Some(Handle(ServiceHandle, Schema, schema)), None, None)
  {
    var st := Opened(s, rpc, schema);
    var one, two := Handle(ServiceHandle, Rpc, rpc), Handle(ServiceHandle, Schema, schema);
    assert st.log == [] + [Obtain(one)] + [Obtain(two)];
    SingleEvents(one);
    hide Obtained, Released;
    Taking([], one);
    Taking([Obtain(one)], two);
    assert [] + [Obtain(one)] == [Obtain(one)];
  }

  /** The constructor takes its services and then its servers, rpc first.  It succeeds if
      and only if both servers are acquired, and then holds all four; otherwise it raises
      what the failing acquisition raises, and gives back all it has taken, the last one
      first, unless that is an interrupt. */
  lemma ConstructionTakesInOrder<S>(s: S, rpc: nat, schema: nat, a: Acquisition, b: Acquisition)
    ensures var built := CreateServers(Opened(s, rpc, schema), a, b);
            var log, failure := built.server.log, FirstFailure(a, b);
            && (built.raised == None <==> failure == None)
            && (failure.Some? && failure.value.Reraised? ==> built.raised == Some(failure.value.exc))
            && (failure.Some? && !failure.value.Reraised? ==> built.raised.Some? && built.raised.value.Error?)
            && built.server.state == s
            && (match failure
                case None =>
                  && built.server.held == HeldAfter(rpc, schema, a.server, b.server)
                  && Obtained(log) == Four(rpc, schema, a.server, b.server) && Released(log) == []
                case Some(_) =>
                  var taken := if a.Acquired? then 3 else 2;
                  var server := if a.Acquired? then a.server else 0;
                  && Obtained(log) == Four(rpc, schema, server, 0)[..taken]
                  && Released(log) == if Interrupted(a, b) then [] else FourBack(rpc, schema, server, 0)[4 - taken..])
  {
    var st := Opened(s, rpc, schema);
    OpenedHolds(s, rpc, schema);
    hide Obtained, Released, CloseAll;
    if a.Acquired? {
      var one := WithRpcServer(st, a.server);
      Taking(st.log, Handle(ServerHandle, Rpc, a.server));
      if b.Acquired? {
        Taking(one.log, Handle(ServerHandle, Schema, b.server));
      } else {
        ClosingGivesBack(one);
      }
    } else {
      ClosingGivesBack(st);
    }
  }

  function HeldAfter(rpc: nat, schema: nat, rpcServer: nat, schemaServer: nat): Held {
    Held(Some(Handle(ServiceHandle, Rpc, rpc)), Some(Handle(ServiceHandle, Schema, schema)),
         Some(Handle(ServerHandle, Rpc, rpcServer)), Some(Handle(ServerHandle, Schema, schemaServer)))
  }

  // ---------------------------------------------------------------- a whole life

  /** A server that has taken these four handles: it holds them all, or has given them
      all back in order. */
  ghost predicate InOrder<S>(st: ServerState<S>, rpc: nat, schema: nat, rpcServer: nat, schemaServer: nat) {
    && Obtained(st.log) == Four(rpc, schema, rpcServer, schemaServer)
    && (|| (st.held == HeldAfter(rpc, schema, rpcServer, schemaServer) && Released(st.log) == [])
        || (st.held == NOTHING_HELD && Released(st.log) == FourBack(rpc, schema, rpcServer, schemaServer)))
  }

  lemma {:induction false} DrainTakesNothing<S>(
      f: (S, seq<byte>) -> Step<S, ByteAnswer>, port: PortKind, s: S, log: seq<Event>, queue: seq<Receive>)
    ensures Obtained(Drain(f, port, s, log, queue).log) == Obtained(log)
    ensures Released(Drain(f, port, s, log, queue).log) == Released(log)
    decreases queue
  {
    if queue != [] && queue[0].Got? {
      var r := queue[0].request;
      var step := f(s, r.payload);
      var events := Exchange(port, r, step.answer);
      ExchangeIsQuiet(port, r, step.answer);
      ProjectNothing(events, PickObtained);
      ProjectNothing(events, PickReleased);
      Appended(log, events);
      assert Obtained(log) + [] == Obtained(log) && Released(log) + [] == Released(log);
      hide Obtained, Released, Exchange, FaultOf;
      if FaultOf(r, step.answer) == None {
        DrainTakesNothing(f, port, step.state, log + events, queue[1..]);
      }
    }
  }

  lemma PerformKeepsOrder<S>(
      c: Controller<S>, descriptor: seq<byte>, st: ServerState<S>, op: Op, rpc: nat, schema: nat, a: nat, b: nat)
    requires InOrder(st, rpc, schema, a, b)
    ensures InOrder(Perform(c, descriptor, st, op).server, rpc, schema, a, b)
    ensures op == Close ==> Perform(c, descriptor, st, op).server.held == NOTHING_HELD
  {
    hide Obtained, Released, Drain, CloseAll;
    match op
    case DrainRpc(queue) => DrainTakesNothing(Handler(c), Rpc, st.state, st.log, queue);
    case DrainSchema(queue) => DrainTakesNothing(SchemaHandler(descriptor), Schema, st.state, st.log, queue);
    case Close => ClosingGivesBack(st);
  }

  lemma {:induction false} CallsKeepOrder<S>(
      c: Controller<S>, descriptor: seq<byte>, st: ServerState<S>, ops: seq<Op>, rpc: nat, schema: nat, a: nat, b: nat)
    requires InOrder(st, rpc, schema, a, b)
    ensures InOrder(PerformAll(c, descriptor, st, ops), rpc, schema, a, b)
    ensures Close in ops || st.held == NOTHING_HELD ==> PerformAll(c, descriptor, st, ops).held == NOTHING_HELD
    decreases ops
  {
    if ops != [] {
      hide InOrder;
      PerformKeepsOrder(c, descriptor, st, ops[0], rpc, schema, a, b);
      NothingStaysNothing(c, descriptor, st, ops[0]);
      hide Perform;
      assert ops == [ops[0]] + ops[1..];
      CallsKeepOrder(c, descriptor, Perform(c, descriptor, st, ops[0]).server, ops[1..], rpc, schema, a, b);
    }
  }

  lemma NothingStaysNothing<S>(c: Controller<S>, descriptor: seq<byte>, st: ServerState<S>, op: Op)
    ensures st.held == NOTHING_HELD ==> Perform(c, descriptor, st, op).server.held == NOTHING_HELD
  {
    hide Drain;
  }

  lemma {:induction false} TurnsKeepOrder<S>(
      c: Controller<S>, descriptor: seq<byte>, st: ServerState<S>, cycles: seq<Cycle>, rpc: nat, schema: nat, a: nat, b: nat)
    requires InOrder(st, rpc, schema, a, b)
    ensures InOrder(Turns(c, descriptor, st, cycles).0, rpc, schema, a, b)
    decreases cycles
  {
    hide InOrder, Perform;
    if cycles != [] && cycles[0].wait == None {
      var drainSchema, drainRpc := DrainSchema(cycles[0].schema), DrainRpc(cycles[0].rpc);
      PerformKeepsOrder(c, descriptor, st, drainSchema, rpc, schema, a, b);
      var one := Perform(c, descriptor, st, drainSchema);
      if one.raised == None {
        PerformKeepsOrder(c, descriptor, one.server, drainRpc, rpc, schema, a, b);
        var two := Perform(c, descriptor, one.server, drainRpc);
        if two.raised == None {
          TurnsKeepOrder(c, descriptor, two.server, cycles[1..], rpc, schema, a, b);
        }
      }
    }
  }

  /** A server that was built and is closed at some time, by any of its calls or by
      `run_forever`, has taken exactly its four handles, and has given back the same
      four, each once, in the opposite order. */
  lemma LifeInOrder<S>(
      c: Controller<S>, descriptor: seq<byte>, s: S, rpc: nat, schema: nat, a: Acquisition, b: Acquisition,
      ops: seq<Op>, cycles: seq<Cycle>)
    requires a.Acquired? && b.Acquired?
    ensures var built := CreateServers(Opened(s, rpc, schema), a, b).server;
            && (Close in ops ==>
                  var final := PerformAll(c, descriptor, built, ops);
                  && final.held == NOTHING_HELD
                  && Obtained(final.log) == Four(rpc, schema, a.server, b.server)
                  && Released(final.log) == FourBack(rpc, schema, a.server, b.server))
            && var final := CloseAll(Turns(c, descriptor, built, cycles).0);
               && final.held == NOTHING_HELD
               && Obtained(final.log) == Four(rpc, schema, a.server, b.server)
               && Released(final.log) == FourBack(rpc, schema, a.server, b.server)
  {
    hide Obtained, Released, CreateServers, Turns, PerformAll, CloseAll;
    ConstructionTakesInOrder(s, rpc, schema, a, b);
    var built := CreateServers(Opened(s, rpc, schema), a, b).server;
    CallsKeepOrder(c, descriptor, built, ops, rpc, schema, a.server, b.server);
    TurnsKeepOrder(c, descriptor, built, cycles, rpc, schema, a.server, b.server);
    PerformKeepsOrder(c, descriptor, Turns(c, descriptor, built, cycles).0, Close, rpc, schema, a.server, b.server);
  }
}
