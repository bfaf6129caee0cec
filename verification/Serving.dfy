/** What a server does with what it is given: every request that lies in a port in some
    turn is taken and answered, until the first exception. */
module Serving {
  import opened Prelude
  import opened Sessions
  import opened Endpoint
  import opened Ports
  import opened Server
  import opened Conservation

  // ---------------------------------------------------------------- the script, item by item

  /** One thing that comes up in a turn: the wait, or one receive from a port. */
  datatype Item = Wait(fault: Option<Exc>) | Take(port: PortKind, receive: Receive)

  function Takes(port: PortKind, queue: seq<Receive>): (r: seq<Item>)
    ensures |r| == |queue|
    ensures forall i :: 0 <= i < |queue| ==> r[i] == Take(port, queue[i])
  {
    seq(|queue|, i requires 0 <= i < |queue| => Take(port, queue[i]))
  }

  /** A turn: the wait, then the schema port, then the rpc port, as far as they are open. */
  function TurnItems(held: Held, cycle: Cycle): seq<Item> {
    [Wait(cycle.wait)]
    + (if held.schemaServer.Some? then Takes(Schema, cycle.schema) else [])
    + (if held.rpcServer.Some? then Takes(Rpc, cycle.rpc) else [])
  }

  function Script(held: Held, cycles: seq<Cycle>): seq<Item> {
    if cycles == [] then [] else TurnItems(held, cycles[0]) + Script(held, cycles[1..])
  }

  /** What one item does: to the controller, in the log, and what it raises. */
  datatype Effect<+S> = Effect(state: S, events: seq<Event>, fault: Option<Exc>)

  /** A request is received, answered by the controller or with the descriptor, and deleted
      last; what deleting raises hides what answering or sending has raised. */
  function EffectOf<S>(c: Controller<S>, descriptor: seq<byte>, s: S, item: Item): Effect<S> {
    match item
    case Wait(fault) => Effect(s, [], fault)
    case Take(_, ReceiveFails(exc)) => Effect(s, [], Some(exc))
    case Take(port, Got(r)) =>
      var step := if port.Rpc? then HandleBytes(c, s, r.payload) else Step(s, Bytes(descriptor));
      var received, deleted := Received(port, r.token, r.payload), Deleted(port, r.token);
      match step.answer
      case BytesEscape(exc) =>
        Effect(step.state, [received, deleted], if r.deleteFault.Some? then r.deleteFault else Some(exc))
      case Bytes(payload) =>
        if r.sendFault.Some? then
          Effect(step.state, [received, deleted], if r.deleteFault.Some? then r.deleteFault else r.sendFault)
        else Effect(step.state, [received, Sent(port, r.token, payload), deleted], r.deleteFault)
  }

  /** The controller after the first n items. */
  function StateAt<S>(c: Controller<S>, descriptor: seq<byte>, s: S, items: seq<Item>, n: nat): S
    requires n <= |items|
  {
    if n == 0 then s else EffectOf(c, descriptor, StateAt(c, descriptor, s, items, n - 1), items[n - 1]).state
  }

  function EffectAt<S>(c: Controller<S>, descriptor: seq<byte>, s: S, items: seq<Item>, n: nat): Effect<S>
    requires n < |items|
  {
    EffectOf(c, descriptor, StateAt(c, descriptor, s, items, n), items[n])
  }

  /** What the first n items leave in the log. */
  function LogAt<S>(c: Controller<S>, descriptor: seq<byte>, s: S, items: seq<Item>, n: nat): seq<Event>
    requires n <= |items|
  {
    if n == 0 then [] else LogAt(c, descriptor, s, items, n - 1) + EffectAt(c, descriptor, s, items, n - 1).events
  }

  /** The first n items raise nothing.  Either they are all, or the next one raises this. */
  ghost predicate EndsAt<S>(
      c: Controller<S>, descriptor: seq<byte>, s: S, items: seq<Item>, n: nat, state: S, log: seq<Event>, raised: Option<Exc>)
  {
    && n <= |items|
    && (forall i :: 0 <= i < n ==> EffectAt(c, descriptor, s, items, i).fault == None)
    && raised == (if n == |items| then None else EffectAt(c, descriptor, s, items, n).fault)
    && (raised == None ==> n == |items|)
    && var done := if n == |items| then n else n + 1;
       state == StateAt(c, descriptor, s, items, done) && log == LogAt(c, descriptor, s, items, done)
  }

  // ------------------------------------------------- the turns follow the script

  datatype Flat<+S> = Flat(state: S, log: seq<Event>, raised: Option<Exc>)

  /** The script from the front. */
  function RunItems<S>(c: Controller<S>, descriptor: seq<byte>, s: S, log: seq<Event>, items: seq<Item>): Flat<S>
    decreases items
  {
    if items == [] then Flat(s, log, None)
    else
      var e := EffectOf(c, descriptor, s, items[0]);
      if e.fault.Some? then Flat(e.state, log + e.events, e.fault)
      else RunItems(c, descriptor, e.state, log + e.events, items[1..])
  }

  function Machine<S>(c: Controller<S>, descriptor: seq<byte>, port: PortKind): (S, seq<byte>) -> Step<S, ByteAnswer> {
    if port.Rpc? then Handler(c) else SchemaHandler(descriptor)
  }

  lemma TakingIsExchanging<S>(c: Controller<S>, descriptor: seq<byte>, s: S, port: PortKind, r: ActiveRequest)
    ensures var step := Machine(c, descriptor, port)(s, r.payload);
            EffectOf(c, descriptor, s, Take(port, Got(r)))
            == Effect(step.state, Exchange(port, r, step.answer), FaultOf(r, step.answer))
  {
    hide HandleBytes;
  }

  lemma {:induction false} DrainFollowsItems<S>(
      c: Controller<S>, descriptor: seq<byte>, port: PortKind, s: S, log: seq<Event>, queue: seq<Receive>, more: seq<Item>)
    ensures var run := Drain(Machine(c, descriptor, port), port, s, log, queue);
            RunItems(c, descriptor, s, log, Takes(port, queue) + more)
            == if run.raised.Some? then Flat(run.state, run.log, run.raised)
               else RunItems(c, descriptor, run.state, run.log, more)
    decreases queue
  {
    var items := Takes(port, queue) + more;
    if queue == [] {
      assert items == more;
    } else {
      assert items[0] == Take(port, queue[0]);
      assert items[1..] == Takes(port, queue[1..]) + more;
      hide EffectOf, Takes, FaultOf, Exchange, Machine;
      if queue[0].Got? {
        var r := queue[0].request;
        TakingIsExchanging(c, descriptor, s, port, r);
        var step := Machine(c, descriptor, port)(s, r.payload);
        DrainFollowsItems(c, descriptor, port, step.state, log + Exchange(port, r, step.answer), queue[1..], more);
      } else {
        ReceiveFailing(c, descriptor, s, port, queue[0].exc);
        assert log + [] == log;
      }
    }
  }

  lemma ReceiveFailing<S>(c: Controller<S>, descriptor: seq<byte>, s: S, port: PortKind, exc: Exc)
    ensures EffectOf(c, descriptor, s, Take(port, ReceiveFails(exc))) == Effect(s, [], Some(exc))
  {
  }

  lemma PortFollowsItems<S>(
      c: Controller<S>, descriptor: seq<byte>, port: PortKind, st: ServerState<S>, queue: seq<Receive>, more: seq<Item>)
    ensures var done := DrainPort(Machine(c, descriptor, port), port, st, queue);
            var isOpen := (if port.Rpc? then st.held.rpcServer else st.held.schemaServer).Some?;
            && done.server.held == st.held
            && RunItems(c, descriptor, st.state, st.log, (if isOpen then Takes(port, queue) else []) + more)
               == if done.raised.Some? then Flat(done.server.state, done.server.log, done.raised)
                  else RunItems(c, descriptor, done.server.state, done.server.log, more)
  {
    hide Takes, RunItems, Machine;
    DrainFollowsItems(c, descriptor, port, st.state, st.log, queue, more);
    assert [] + more == more;
  }

  lemma {:induction false} TurnsFollowItems<S>(c: Controller<S>, descriptor: seq<byte>, st: ServerState<S>, cycles: seq<Cycle>)
    ensures var (final, exc) := Turns(c, descriptor, st, cycles);
            var flat := RunItems(c, descriptor, st.state, st.log, Script(st.held, cycles));
            && final == st.(state := flat.state, log := flat.log)
            && exc == match flat.raised case Some(raised) => raised case None => Interrupt
    decreases cycles
  {
    if cycles != [] {
      var cycle, held, later := cycles[0], st.held, Script(st.held, cycles[1..]);
      var schema := if held.schemaServer.Some? then Takes(Schema, cycle.schema) else [];
      var rpc := if held.rpcServer.Some? then Takes(Rpc, cycle.rpc) else [];
      assert Script(held, cycles) == [Wait(cycle.wait)] + (schema + (rpc + later));
      WaitFollowsItems(c, descriptor, st, cycle.wait, schema + (rpc + later));
      if cycle.wait == None {
        PortFollowsItems(c, descriptor, Schema, st, cycle.schema, rpc + later);
        var one := Perform(c, descriptor, st, DrainSchema(cycle.schema));
        assert one == DrainPort(Machine(c, descriptor, Schema), Schema, st, cycle.schema);
        hide Takes, RunItems, DrainPort;
        if one.raised == None {
          PortFollowsItems(c, descriptor, Rpc, one.server, cycle.rpc, later);
          var two := Perform(c, descriptor, one.server, DrainRpc(cycle.rpc));
          if two.raised == None {
            TurnsFollowItems(c, descriptor, two.server, cycles[1..]);
          }
        }
      }
    }
  }

  lemma WaitFollowsItems<S>(
      c: Controller<S>, descriptor: seq<byte>, st: ServerState<S>, wait: Option<Exc>, more: seq<Item>)
    ensures RunItems(c, descriptor, st.state, st.log, [Wait(wait)] + more)
            == if wait.Some? then Flat(st.state, st.log, wait) else RunItems(c, descriptor, st.state, st.log, more)
  {
    assert ([Wait(wait)] + more)[1..] == more;
    assert st.log + [] == st.log;
  }

  // ------------------------------------------------- item by item

  /** Positions shift by one behind the first item. */
  lemma {:induction false} StateShifts<S>(c: Controller<S>, descriptor: seq<byte>, s: S, items: seq<Item>, n: nat)
    requires 0 < n <= |items|
    ensures StateAt(c, descriptor, s, items, n)
            == StateAt(c, descriptor, EffectOf(c, descriptor, s, items[0]).state, items[1..], n - 1)
  {
    hide EffectOf;
    if n > 1 {
      StateShifts(c, descriptor, s, items, n - 1);
      assert items[1..][n - 2] == items[n - 1];
    } else {
      assert StateAt(c, descriptor, s, items, 0) == s;
    }
  }

  lemma {:induction false} LogShifts<S>(c: Controller<S>, descriptor: seq<byte>, s: S, items: seq<Item>, n: nat)
    requires 0 < n <= |items|
    ensures var first := EffectOf(c, descriptor, s, items[0]);
            LogAt(c, descriptor, s, items, n) == first.events + LogAt(c, descriptor, first.state, items[1..], n - 1)
  {
    hide EffectOf;
    var first := EffectOf(c, descriptor, s, items[0]);
    if n > 1 {
      LogShifts(c, descriptor, s, items, n - 1);
      StateShifts(c, descriptor, s, items, n - 1);
      assert items[1..][n - 2] == items[n - 1];
    } else {
      assert LogAt(c, descriptor, s, items, 0) == [];
      assert LogAt(c, descriptor, first.state, items[1..], 0) == [];
      assert StateAt(c, descriptor, s, items, 0) == s;
    }
  }

  lemma {:induction false} ItemsEnd<S>(c: Controller<S>, descriptor: seq<byte>, s: S, log: seq<Event>, items: seq<Item>)
    returns (n: nat, events: seq<Event>)
    ensures var flat := RunItems(c, descriptor, s, log, items);
            flat.log == log + events && EndsAt(c, descriptor, s, items, n, flat.state, events, flat.raised)
    decreases items
  {
    hide EffectOf;
    if items == [] {
      n, events := 0, [];
    } else {
      var e := EffectOf(c, descriptor, s, items[0]);
      if e.fault.Some? {
        n, events := 0, e.events;
        OneItem(c, descriptor, s, items);
      } else {
        var m, more := ItemsEnd(c, descriptor, e.state, log + e.events, items[1..]);
        n, events := m + 1, e.events + more;
        EndsOneLater(c, descriptor, s, items, m, RunItems(c, descriptor, s, log, items), more);
      }
    }
  }

  lemma OneItem<S>(c: Controller<S>, descriptor: seq<byte>, s: S, items: seq<Item>)
    requires items != []
    ensures EffectAt(c, descriptor, s, items, 0) == EffectOf(c, descriptor, s, items[0])
    ensures StateAt(c, descriptor, s, items, 1) == EffectOf(c, descriptor, s, items[0]).state
    ensures LogAt(c, descriptor, s, items, 1) == EffectOf(c, descriptor, s, items[0]).events
  {
    hide EffectOf;
    assert StateAt(c, descriptor, s, items, 0) == s;
    assert LogAt(c, descriptor, s, items, 0) == [];
  }

  lemma EffectShifts<S>(c: Controller<S>, descriptor: seq<byte>, s: S, items: seq<Item>, n: nat)
    requires 0 < n < |items|
    ensures EffectAt(c, descriptor, s, items, n)
            == EffectAt(c, descriptor, EffectOf(c, descriptor, s, items[0]).state, items[1..], n - 1)
  {
    StateShifts(c, descriptor, s, items, n);
    hide EffectOf, StateAt;
  }

  lemma EndsOneLater<S>(
      c: Controller<S>, descriptor: seq<byte>, s: S, items: seq<Item>, m: nat, flat: Flat<S>, more: seq<Event>)
    requires items != [] && EffectOf(c, descriptor, s, items[0]).fault == None
    requires EndsAt(c, descriptor, EffectOf(c, descriptor, s, items[0]).state, items[1..], m, flat.state, more, flat.raised)
    ensures EndsAt(c, descriptor, s, items, m + 1, flat.state, EffectOf(c, descriptor, s, items[0]).events + more, flat.raised)
  {
    hide EffectOf, EffectAt, StateAt, LogAt;
    OneItem(c, descriptor, s, items);
    var s' := EffectOf(c, descriptor, s, items[0]).state;
    forall i | 0 < i <= m && i < |items|
      ensures EffectAt(c, descriptor, s, items, i) == EffectAt(c, descriptor, s', items[1..], i - 1)
    {
      EffectShifts(c, descriptor, s, items, i);
    }
    if m + 1 < |items| {
      EffectShifts(c, descriptor, s, items, m + 1);
    }
    var done := if m == |items[1..]| then m else m + 1;
    StateShifts(c, descriptor, s, items, done + 1);
    LogShifts(c, descriptor, s, items, done + 1);
  }

  /** The turns of a server take up the items of their script one by one, each with its
      effect on the controller and in the log, and end at the first that raises, with what
      it raises; nothing of the script is left out before that. */
  lemma TurnsFollowTheScript<S>(c: Controller<S>, descriptor: seq<byte>, st: ServerState<S>, cycles: seq<Cycle>)
    returns (n: nat, events: seq<Event>, raised: Option<Exc>)
    ensures var (final, exc) := Turns(c, descriptor, st, cycles);
            && final.held == st.held && final.log == st.log + events
            && exc == (if raised.Some? then raised.value else Interrupt)
            && EndsAt(c, descriptor, st.state, Script(st.held, cycles), n, final.state, events, raised)
  {
    hide Turns, Script, EndsAt, RunItems;
    TurnsFollowItems(c, descriptor, st, cycles);
    n, events := ItemsEnd(c, descriptor, st.state, st.log, Script(st.held, cycles));
    raised := RunItems(c, descriptor, st.state, st.log, Script(st.held, cycles)).raised;
  }

  // ------------------------------------------------- when nothing is raised

  /** Everything received at the rpc port over these turns. */
  function RpcQueue(cycles: seq<Cycle>): seq<Receive> {
    if cycles == [] then [] else cycles[0].rpc + RpcQueue(cycles[1..])
  }

  function SchemaQueue(cycles: seq<Cycle>): seq<Receive> {
    if cycles == [] then [] else cycles[0].schema + SchemaQueue(cycles[1..])
  }

  /** Receiving, sending and deleting raise nothing. */
  predicate IsClean(queue: seq<Receive>) {
    forall i :: 0 <= i < |queue| ==>
      queue[i].Got? && queue[i].request.sendFault == None && queue[i].request.deleteFault == None
  }

  predicate AllAnswered(answers: seq<ByteAnswer>) {
    forall i :: 0 <= i < |answers| ==> answers[i].Bytes?
  }

  /** Each request with its own answer. */
  function Responses(queue: seq<Receive>, answers: seq<ByteAnswer>): (r: seq<(nat, seq<byte>)>)
    requires AllGot(queue) && |answers| == |queue| && AllAnswered(answers)
    ensures |r| == |queue|
  {
    seq(|queue|, i requires 0 <= i < |queue| => (queue[i].request.token, answers[i].payload))
  }

  function PickRpcSent(e: Event): Option<(nat, seq<byte>)> {
    if e.Sent? && e.port.Rpc? then Some((e.token, e.payload)) else None
  }

  function PickSchemaSent(e: Event): Option<(nat, seq<byte>)> {
    if e.Sent? && e.port.Schema? then Some((e.token, e.payload)) else None
  }

  lemma CleanExchange(port: PortKind, r: ActiveRequest, a: ByteAnswer)
    requires FaultOf(r, a) == None
    ensures a.Bytes?
    ensures RpcPayloads(Exchange(port, r, a)) == if port.Rpc? then [r.payload] else []
    ensures Project(Exchange(port, r, a), PickRpcSent) == if port.Rpc? then [(r.token, a.payload)] else []
    ensures Project(Exchange(port, r, a), PickSchemaSent) == if port.Schema? then [(r.token, a.payload)] else []
  {
    FaultlessExchange(port, r, a);
    var received, sent, deleted := Received(port, r.token, r.payload), Sent(port, r.token, a.payload), Deleted(port, r.token);
    hide Project, Exchange;
    ProjectThree(received, sent, deleted, PickRpcPayload);
    ProjectThree(received, sent, deleted, PickRpcSent);
    ProjectThree(received, sent, deleted, PickSchemaSent);
  }

  function Picked<T>(e: Event, pick: Event -> Option<T>): seq<T> {
    if pick(e).Some? then [pick(e).value] else []
  }

  lemma ProjectThree<T>(a: Event, b: Event, c: Event, pick: Event -> Option<T>)
    ensures Project([a, b, c], pick) == Picked(a, pick) + Picked(b, pick) + Picked(c, pick)
  {
    hide Project;
    ProjectOne(a, pick);
    ProjectOne(b, pick);
    ProjectOne(c, pick);
    ProjectAppend([a], [b], pick);
    ProjectAppend([a] + [b], [c], pick);
    assert [a, b, c] == [a] + [b] + [c];
  }

  lemma CleanTail(queue: seq<Receive>, answers: seq<ByteAnswer>)
    requires AllGot(queue) && |answers| == |queue| && NoFault(queue, answers) && AllAnswered(answers) && queue != []
    ensures AllGot(queue[1..]) && NoFault(queue[1..], answers[1..]) && AllAnswered(answers[1..])
    ensures FaultOf(queue[0].request, answers[0]) == None
    ensures Payloads(queue) == [queue[0].request.payload] + Payloads(queue[1..])
    ensures Responses(queue, answers)
            == [(queue[0].request.token, answers[0].payload)] + Responses(queue[1..], answers[1..])
  {
    hide FaultOf;
    forall i | 0 <= i < |queue[1..]| ensures FaultOf(queue[1..][i].request, answers[1..][i]) == None {
      assert FaultOf(queue[i + 1].request, answers[i + 1]) == None;
    }
  }

  lemma {:induction false} CleanExchanges(port: PortKind, queue: seq<Receive>, answers: seq<ByteAnswer>)
    requires AllGot(queue) && |answers| == |queue| && NoFault(queue, answers) && AllAnswered(answers)
    ensures var events := Exchanges(port, queue, answers);
            && RpcPayloads(events) == (if port.Rpc? then Payloads(queue) else [])
            && Project(events, PickRpcSent) == (if port.Rpc? then Responses(queue, answers) else [])
            && Project(events, PickSchemaSent) == (if port.Schema? then Responses(queue, answers) else [])
  {
    if queue != [] {
      CleanTail(queue, answers);
      hide Exchange, Project, FaultOf, NoFault, Responses, Payloads;
      CleanExchange(port, queue[0].request, answers[0]);
      CleanExchanges(port, queue[1..], answers[1..]);
      var first, others := Exchange(port, queue[0].request, answers[0]), Exchanges(port, queue[1..], answers[1..]);
      ProjectAppend(first, others, PickRpcPayload);
      ProjectAppend(first, others, PickRpcSent);
      ProjectAppend(first, others, PickSchemaSent);
    } else {
      hide Project, FaultOf, NoFault;
      ProjectEmpty(PickRpcPayload);
      ProjectEmpty(PickRpcSent);
      ProjectEmpty(PickSchemaSent);
    }
  }

  lemma ProjectEmpty<T>(pick: Event -> Option<T>)
    ensures Project([], pick) == []
  {
  }

  /** The log has grown by these requests and responses. */
  ghost predicate Served(
      log: seq<Event>, log': seq<Event>, received: seq<seq<byte>>, rpc: seq<(nat, seq<byte>)>, schema: seq<(nat, seq<byte>)>)
  {
    && RpcPayloads(log') == RpcPayloads(log) + received
    && Project(log', PickRpcSent) == Project(log, PickRpcSent) + rpc
    && Project(log', PickSchemaSent) == Project(log, PickSchemaSent) + schema
  }

  lemma ServedTogether(
      a: seq<Event>, b: seq<Event>, c: seq<Event>, received: seq<seq<byte>>, rpc: seq<(nat, seq<byte>)>,
      schema: seq<(nat, seq<byte>)>, received': seq<seq<byte>>, rpc': seq<(nat, seq<byte>)>, schema': seq<(nat, seq<byte>)>)
    requires Served(a, b, received, rpc, schema) && Served(b, c, received', rpc', schema')
    ensures Served(a, c, received + received', rpc + rpc', schema + schema')
  {
    hide Project;
  }

  lemma ServedInTurn(
      a: seq<Event>, b: seq<Event>, c: seq<Event>, schema: seq<(nat, seq<byte>)>,
      received: seq<seq<byte>>, rpc: seq<(nat, seq<byte>)>)
    requires Served(a, b, [], [], schema) && Served(b, c, received, rpc, [])
    ensures Served(a, c, received, rpc, schema)
  {
    hide Project;
  }

  /** A clean drain of an open port. */
  lemma CleanDrain<S>(c: Controller<S>, descriptor: seq<byte>, port: PortKind, s: S, log: seq<Event>, queue: seq<Receive>)
    requires IsClean(queue) && AllAnswered(RunAll(Machine(c, descriptor, port), s, Payloads(queue)).answers)
    ensures var session := RunAll(Machine(c, descriptor, port), s, Payloads(queue));
            var run := Drain(Machine(c, descriptor, port), port, s, log, queue);
            && run.raised == None && run.state == session.state
            && Served(log, run.log, if port.Rpc? then Payloads(queue) else [],
                      if port.Rpc? then Responses(queue, session.answers) else [],
                      if port.Schema? then Responses(queue, session.answers) else [])
  {
    hide Machine, RunAll, Project, Exchange, Exchanges;
    var answers := RunAll(Machine(c, descriptor, port), s, Payloads(queue)).answers;
    assert NoFault(queue, answers);
    FaultlessDrain(Machine(c, descriptor, port), port, s, log, queue);
    CleanExchanges(port, queue, answers);
    var events := Exchanges(port, queue, answers);
    ProjectAppend(log, events, PickRpcPayload);
    ProjectAppend(log, events, PickRpcSent);
    ProjectAppend(log, events, PickSchemaSent);
  }

  /** Each schema request with the descriptor. */
  function Descriptors(queue: seq<Receive>, descriptor: seq<byte>): (r: seq<(nat, seq<byte>)>)
    requires AllGot(queue)
    ensures |r| == |queue|
  {
    seq(|queue|, i requires 0 <= i < |queue| => (queue[i].request.token, descriptor))
  }

  lemma {:induction false} SchemaSession<S>(descriptor: seq<byte>, s: S, raws: seq<seq<byte>>)
    ensures var session := RunAll(SchemaHandler(descriptor), s, raws);
            session.state == s && forall i :: 0 <= i < |raws| ==> session.answers[i] == Bytes(descriptor)
  {
    if raws != [] {
      SchemaSession(descriptor, s, raws[1..]);
    }
  }

  lemma CleanSchemaDrain<S>(c: Controller<S>, descriptor: seq<byte>, st: ServerState<S>, queue: seq<Receive>)
    requires IsClean(queue) && st.held.schemaServer.Some?
    ensures var done := Perform(c, descriptor, st, DrainSchema(queue));
            && done.raised == None && done.server == st.(log := done.server.log)
            && Served(st.log, done.server.log, [], [], Descriptors(queue, descriptor))
  {
    SchemaSession(descriptor, st.state, Payloads(queue));
    CleanDrain(c, descriptor, Schema, st.state, st.log, queue);
    hide RunAll, Served, Drain;
    var answers := RunAll(Machine(c, descriptor, Schema), st.state, Payloads(queue)).answers;
    assert Responses(queue, answers) == Descriptors(queue, descriptor);
  }

  lemma CleanRpcDrain<S>(c: Controller<S>, descriptor: seq<byte>, st: ServerState<S>, queue: seq<Receive>)
    requires IsClean(queue) && st.held.rpcServer.Some?
    requires AllAnswered(RunAll(Handler(c), st.state, Payloads(queue)).answers)
    ensures var session := RunAll(Handler(c), st.state, Payloads(queue));
            var done := Perform(c, descriptor, st, DrainRpc(queue));
            && done.raised == None && done.server == st.(state := session.state, log := done.server.log)
            && Served(st.log, done.server.log, Payloads(queue), Responses(queue, session.answers), [])
  {
    CleanDrain(c, descriptor, Rpc, st.state, st.log, queue);
  }

  /** While its ports are open and nothing is raised, a server takes every request that
      lies in a port in some turn, in order, and sends each its own answer: that of the
      controller executing them one after the other, or the descriptor. */
  lemma {:induction false} CleanTurnsServeAll<S>(
      c: Controller<S>, descriptor: seq<byte>, st: ServerState<S>, cycles: seq<Cycle>)
    requires st.held.rpcServer.Some? && st.held.schemaServer.Some?
    requires forall i :: 0 <= i < |cycles| ==> cycles[i].wait == None
    requires IsClean(RpcQueue(cycles)) && IsClean(SchemaQueue(cycles))
    requires AllAnswered(RunAll(Handler(c), st.state, Payloads(RpcQueue(cycles))).answers)
    ensures var (final, exc) := Turns(c, descriptor, st, cycles);
            var session := RunAll(Handler(c), st.state, Payloads(RpcQueue(cycles)));
            && exc == Interrupt && final.state == session.state && final.held == st.held
            && Served(st.log, final.log, Payloads(RpcQueue(cycles)), Responses(RpcQueue(cycles), session.answers),
                      Descriptors(SchemaQueue(cycles), descriptor))
    decreases cycles
  {
    hide RunAll, Served, Perform;
    if cycles == [] {
      NothingServed(c, st, descriptor);
    } else {
      var cycle, rpc, schema := cycles[0], RpcQueue(cycles[1..]), SchemaQueue(cycles[1..]);
      QueuesSplit(c, st.state, cycle.rpc, rpc, cycle.schema, schema, descriptor);
      CleanSchemaDrain(c, descriptor, st, cycle.schema);
      var one := Perform(c, descriptor, st, DrainSchema(cycle.schema)).server;
      CleanRpcDrain(c, descriptor, one, cycle.rpc);
      var two := Perform(c, descriptor, one, DrainRpc(cycle.rpc)).server;
      var first := RunAll(Handler(c), st.state, Payloads(cycle.rpc));
      var later := RunAll(Handler(c), first.state, Payloads(rpc));
      CleanTurnsServeAll(c, descriptor, two, cycles[1..]);
      var final := Turns(c, descriptor, st, cycles).0;
      ServedInTurn(st.log, one.log, two.log, Descriptors(cycle.schema, descriptor),
                   Payloads(cycle.rpc), Responses(cycle.rpc, first.answers));
      ServedTogether(st.log, two.log, final.log,
                     Payloads(cycle.rpc), Responses(cycle.rpc, first.answers), Descriptors(cycle.schema, descriptor),
                     Payloads(rpc), Responses(rpc, later.answers), Descriptors(schema, descriptor));
    }
  }

  /** Everything received at the rpc port over these calls. */
  function CallsRpcQueue(ops: seq<Op>): seq<Receive> {
    if ops == [] then [] else (if ops[0].DrainRpc? then ops[0].queue else []) + CallsRpcQueue(ops[1..])
  }

  function CallsSchemaQueue(ops: seq<Op>): seq<Receive> {
    if ops == [] then [] else (if ops[0].DrainSchema? then ops[0].queue else []) + CallsSchemaQueue(ops[1..])
  }

  /** The same for a server that is drained by single calls, in any order, until it is closed. */
  lemma {:induction false} CleanCallsServeAll<S>(c: Controller<S>, descriptor: seq<byte>, st: ServerState<S>, ops: seq<Op>)
    requires st.held.rpcServer.Some? && st.held.schemaServer.Some? && Close !in ops
    requires IsClean(CallsRpcQueue(ops)) && IsClean(CallsSchemaQueue(ops))
    requires AllAnswered(RunAll(Handler(c), st.state, Payloads(CallsRpcQueue(ops))).answers)
    ensures var final := PerformAll(c, descriptor, st, ops);
            var session := RunAll(Handler(c), st.state, Payloads(CallsRpcQueue(ops)));
            && final.state == session.state && final.held == st.held
            && Served(st.log, final.log, Payloads(CallsRpcQueue(ops)), Responses(CallsRpcQueue(ops), session.answers),
                      Descriptors(CallsSchemaQueue(ops), descriptor))
    decreases ops
  {
    hide RunAll, Served, Perform;
    if ops == [] {
      NothingServed(c, st, descriptor);
    } else {
      var op, later := ops[0], ops[1..];
      assert op in ops && Close !in later;
      var rpc := if op.DrainRpc? then op.queue else [];
      var schema := if op.DrainSchema? then op.queue else [];
      QueuesSplit(c, st.state, rpc, CallsRpcQueue(later), schema, CallsSchemaQueue(later), descriptor);
      var one := Perform(c, descriptor, st, op).server;
      var first := RunAll(Handler(c), st.state, Payloads(rpc));
      if op.DrainRpc? {
        CleanRpcDrain(c, descriptor, st, op.queue);
        assert Descriptors(schema, descriptor) == [];
      } else {
        CleanSchemaDrain(c, descriptor, st, op.queue);
        NothingServed(c, st, descriptor);
      }
      CleanCallsServeAll(c, descriptor, one, later);
      ServedTogether(st.log, one.log, PerformAll(c, descriptor, st, ops).log,
                     Payloads(rpc), Responses(rpc, first.answers), Descriptors(schema, descriptor),
                     Payloads(CallsRpcQueue(later)),
                     Responses(CallsRpcQueue(later), RunAll(Handler(c), first.state, Payloads(CallsRpcQueue(later))).answers),
                     Descriptors(CallsSchemaQueue(later), descriptor));
    }
  }

  lemma NothingServed<S>(c: Controller<S>, st: ServerState<S>, descriptor: seq<byte>)
    ensures var session := RunAll(Handler(c), st.state, Payloads([]));
            && session.state == st.state && session.answers == []
            && Payloads([]) == [] && Responses([], []) == [] && Descriptors([], descriptor) == []
            && Served(st.log, st.log, [], [], [])
  {
    hide Project;
  }

  lemma QueuesSplit<S>(
      c: Controller<S>, s: S, rpc: seq<Receive>, rpc': seq<Receive>, schema: seq<Receive>, schema': seq<Receive>,
      descriptor: seq<byte>)
    requires IsClean(rpc + rpc') && IsClean(schema + schema')
    requires AllAnswered(RunAll(Handler(c), s, Payloads(rpc + rpc')).answers)
    ensures IsClean(rpc) && IsClean(rpc') && IsClean(schema) && IsClean(schema')
    ensures Payloads(rpc + rpc') == Payloads(rpc) + Payloads(rpc')
    ensures Descriptors(schema + schema', descriptor) == Descriptors(schema, descriptor) + Descriptors(schema', descriptor)
    ensures var first := RunAll(Handler(c), s, Payloads(rpc));
            var later := RunAll(Handler(c), first.state, Payloads(rpc'));
            var session := RunAll(Handler(c), s, Payloads(rpc + rpc'));
            && AllAnswered(first.answers) && AllAnswered(later.answers)
            && session.state == later.state
            && Responses(rpc + rpc', session.answers) == Responses(rpc, first.answers) + Responses(rpc', later.answers)
  {
    CleanSplits(rpc, rpc');
    CleanSplits(schema, schema');
    hide RunAll, IsClean, AllAnswered, Payloads, Responses, Descriptors;
    PayloadsSplit(rpc, rpc');
    DescriptorsSplit(schema, schema', descriptor);
    RunAllSplits(Handler(c), s, Payloads(rpc), Payloads(rpc'));
    var first := RunAll(Handler(c), s, Payloads(rpc));
    var later := RunAll(Handler(c), first.state, Payloads(rpc'));
    AnsweredSplits(first.answers, later.answers);
    ResponsesSplit(rpc, rpc', first.answers, later.answers);
  }

  lemma PayloadsSplit(a: seq<Receive>, b: seq<Receive>)
    requires AllGot(a) && AllGot(b)
    ensures AllGot(a + b) && Payloads(a + b) == Payloads(a) + Payloads(b)
  {
  }

  lemma DescriptorsSplit(a: seq<Receive>, b: seq<Receive>, descriptor: seq<byte>)
    requires AllGot(a) && AllGot(b)
    ensures AllGot(a + b) && Descriptors(a + b, descriptor) == Descriptors(a, descriptor) + Descriptors(b, descriptor)
  {
  }

  lemma ResponsesSplit(a: seq<Receive>, b: seq<Receive>, x: seq<ByteAnswer>, y: seq<ByteAnswer>)
    requires AllGot(a) && AllGot(b) && |x| == |a| && |y| == |b| && AllAnswered(x) && AllAnswered(y)
    ensures AllGot(a + b) && AllAnswered(x + y) && Responses(a + b, x + y) == Responses(a, x) + Responses(b, y)
  {
  }

  lemma CleanSplits(a: seq<Receive>, b: seq<Receive>)
    requires IsClean(a + b)
    ensures IsClean(a) && IsClean(b) && AllGot(a) && AllGot(b)
  {
    forall i | 0 <= i < |a| ensures a[i] == (a + b)[i] {
    }
    forall i | 0 <= i < |b| ensures b[i] == (a + b)[|a| + i] {
    }
  }

  lemma AnsweredSplits(a: seq<ByteAnswer>, b: seq<ByteAnswer>)
    requires AllAnswered(a + b)
    ensures AllAnswered(a) && AllAnswered(b)
  {
    forall i | 0 <= i < |a| ensures a[i] == (a + b)[i] {
    }
    forall i | 0 <= i < |b| ensures b[i] == (a + b)[|a| + i] {
    }
  }
}
