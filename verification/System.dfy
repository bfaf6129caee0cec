/** The whole system as a state machine: any number of gateway calls and refreshes
    running as threads of atomic steps, the registries they share, the requests in
    flight, and the servers that answer them. */
module System {
  import opened Prelude
  import opened Json
  import opened Messages
  import opened Sessions
  import opened Endpoint
  import opened Discovery
  import opened Registry
  import opened Gateway

  // ---------------------------------------------------------------- state

  /** A registry object: its services are fixed once it is published, its counter is
      shared without a lock. */
  datatype RegistryObject = RegistryObject(services: seq<Service>, counter: int)

  /** A request in flight.  Its index is the pending handle its sender polls. */
  datatype Message = Message(owner: nat, endpoint: string, payload: seq<byte>, reply: Option<seq<byte>>)

  /** What the threads share. */
  datatype Board = Board(
    shared: Shared<nat>, commits: seq<Commit<nat>>, registries: seq<RegistryObject>, wire: seq<Message>)

  /** A service and the registry it was found in. */
  datatype Route = Route(service: Service, found: nat)

  datatype Ending =
    | NotSelected
    | NoRegistry
    | NotSent(route: Route)
    | TimedOut(route: Route, number: int, handle: nat)
    | Answered(route: Route, number: int, handle: nat)

  /** Where a call is: after reading the registry once, after reading it again, between
      the steps of numbering, waiting, and done. */
  datatype Pc =
    | Start
    | Selected(route: Route)
    | Checked(route: Route, via: nat)
    | CounterRead(route: Route, via: nat, seen: int)
    | CounterWritten(route: Route, via: nat)
    | Numbered(route: Route, via: nat, number: int)
    | Waiting(route: Route, number: int, handle: nat)
    | Finished(response: Response, ending: Ending)

  /** Where a refresh is: building a registry, holding the result, past its lock
      section, and done. */
  datatype RefreshPc =
    | Building
    | Built(commit: Commit<nat>)
    | Committed(position: nat)
    | Reported(position: nat, status: Status)

  datatype Thread = CallThread(call: Call, pc: Pc) | RefreshThread(stage: RefreshPc)

  /** A server: it looks at the wire from `cursor` on and has handled these messages. */
  datatype Slot<!S> = Slot(controller: Controller<S>, origin: S, state: S, handled: seq<nat>, cursor: nat, up: bool)

  datatype State<!S> = State(board: Board, threads: seq<Thread>, servers: map<string, Slot<S>>)

  // ---------------------------------------------------------------- steps of a call

  const NO_REGISTRY := "No RPC registry has been loaded yet."

  function ServicesOf(b: Board, r: nat): seq<Service> {
    if r < |b.registries| then b.registries[r].services else []
  }

  function CounterOf(b: Board, r: nat): int {
    if r < |b.registries| then b.registries[r].counter else 0
  }

  function SetCounter(b: Board, r: nat, value: int): Board {
    if r < |b.registries| then b.(registries := b.registries[r := b.registries[r].(counter := value)]) else b
  }

  /** An exception while calling: `call_rpc` reports it as an unknown method. */
  function FailureCode(call: Call): int {
    if call.RpcCall? then METHOD_NOT_FOUND else INTERNAL_ERROR
  }

  function CallFailure(call: Call, message: string): Response {
    if call.RpcCall? then Fail(call.CallerId(), METHOD_NOT_FOUND, message, Null)
    else Fail(call.CallerId(), INTERNAL_ERROR, "Gateway call failed", Str(message))
  }

  function RequestPayload(call: Call, number: int): seq<byte> {
    EncodeRequest(WireRequest(number, call.Target(), Some(call.SentParams())))
  }

  /** What the caller gets for these response bytes. */
  function AnswerFrom(call: Call, reply: seq<byte>): Response {
    match Finish(Delivered(reply))
    case Responded(response) => RewriteId(response, call.CallerId())
    case CallRaised(exc) => CallFailure(call, Describe(exc))
  }

  /** The first look at the registry. */
  function FirstLook(b: Board, call: Call): Pc {
    match b.shared.registry
    case None =>
      if call.RpcCall? then Finished(Fail(call.CallerId(), METHOD_NOT_FOUND, NO_REGISTRY, Null), NotSelected)
      else Finished(call.SelectionFailure([]), NotSelected)
    case Some(r) =>
      var matches := call.Candidates(ServicesOf(b, r));
      if |matches| == 1 then Selected(Route(matches[0], r)) else Finished(call.SelectionFailure(matches), NotSelected)
  }

  /** The second look, except for `call_rpc`, which keeps the registry it has. */
  function SecondLook(b: Board, call: Call, route: Route): Pc {
    var via := if call.RpcCall? then Some(route.found) else b.shared.registry;
    match via
    case None => Finished(Fail(call.CallerId(), METHOD_NOT_FOUND, NO_REGISTRY, Null), NoRegistry)
    case Some(r) =>
      if route.service.client == None then Finished(CallFailure(call, NO_CLIENT.message), NotSent(route))
      else Checked(route, r)
  }

  /** One step of a call; `fault` is the exception this step raises, if any: sending
      can fail, and waiting can end without a response. */
  function CallStep(b: Board, t: nat, call: Call, pc: Pc, fault: Option<string>): (Board, Pc) {
    match pc
    case Start => (b, FirstLook(b, call))
    case Selected(route) => (b, SecondLook(b, call, route))
    case Checked(route, via) => (b, CounterRead(route, via, CounterOf(b, via)))
    case CounterRead(route, via, seen) => (SetCounter(b, via, seen + 1), CounterWritten(route, via))
    case CounterWritten(route, via) => (b, Numbered(route, via, CounterOf(b, via)))
    case Numbered(route, via, number) =>
      if fault.Some? then (b, Finished(CallFailure(call, fault.value), NotSent(route)))
      else if route.service.client == None then (b, pc)
      else
        var message := Message(t, route.service.client.value.endpoint, RequestPayload(call, number), None);
        (b.(wire := b.wire + [message]), Waiting(route, number, |b.wire|))
    case Waiting(route, number, handle) =>
      if fault.Some? then (b, Finished(CallFailure(call, fault.value), TimedOut(route, number, handle)))
      else if handle >= |b.wire| || b.wire[handle].reply == None then (b, pc)
      else (b, Finished(AnswerFrom(call, b.wire[handle].reply.value), Answered(route, number, handle)))
    case Finished(_, _) => (b, pc)
  }

  // ---------------------------------------------------------------- steps of a refresh

  /** What the factory does: the default one discovers and loads, a custom one may
      return a new registry with any services, one that exists already, or None, and
      either may raise. */
  datatype Factory =
    | Discovers(entries: seq<Details>, attempts: seq<Attempts>)
    | Custom(services: seq<Service>)
    | Again(registry: nat)
    | ReturnsNone
    | Raises(message: string)

  function WithRegistry(b: Board, services: seq<Service>): Board {
    b.(registries := b.registries + [RegistryObject(services, 0)])
  }

  /** Building; it does not take place if it is to give back a registry that does not exist. */
  function Build(b: Board, factory: Factory): (Board, RefreshPc) {
    match factory
    case Raises(message) => (b, Built(Bad(message)))
    case ReturnsNone => (b, Built(Good(None)))
    case Custom(services) => (WithRegistry(b, services), Built(Good(Some(|b.registries|))))
    case Again(r) => (b, if r < |b.registries| then Built(Good(Some(r))) else Building)
    case Discovers(entries, attempts) =>
      (WithRegistry(b, BuiltServices(entries, attempts)), Built(Good(Some(|b.registries|))))
  }

  /** How many services a registry has. */
  function SizeIn(registries: seq<RegistryObject>): (size: nat -> nat)
    ensures forall r: nat :: r < |registries| ==> size(r) == |registries[r].services|
  {
    (r: nat) => if r < |registries| then |registries[r].services| else 0
  }

  function RefreshStep(b: Board, stage: RefreshPc, factory: Factory): (Board, RefreshPc) {
    match stage
    case Building => Build(b, factory)
    case Built(c) => (b.(shared := Apply(b.shared, c), commits := b.commits + [c]), Committed(|b.commits|))
    case Committed(position) => (b, Reported(position, StatusOf(b.shared, SizeIn(b.registries))))
    case Reported(_, _) => (b, stage)
  }

  // ---------------------------------------------------------------- steps of a server

  /** The first message for this endpoint at or after `from`, or the end of the wire. */
  function NextFor(wire: seq<Message>, endpoint: string, from: nat): (h: nat)
    requires from <= |wire|
    ensures from <= h <= |wire|
    ensures h < |wire| ==> wire[h].endpoint == endpoint
    ensures forall k :: from <= k < h ==> wire[k].endpoint != endpoint
    decreases |wire| - from
  {
    if from == |wire| || wire[from].endpoint == endpoint then from else NextFor(wire, endpoint, from + 1)
  }

  /** Handling one message.  An exception, in handling or in sending, ends the server. */
  function Serve<S>(s: State<S>, endpoint: string, lost: bool): State<S> {
    if endpoint !in s.servers || !s.servers[endpoint].up || s.servers[endpoint].cursor > |s.board.wire| then s
    else
      var slot := s.servers[endpoint];
      var wire := s.board.wire;
      var h := NextFor(wire, endpoint, slot.cursor);
      if h == |wire| then s
      else
        var step := HandleBytes(slot.controller, slot.state, wire[h].payload);
        var replied := step.answer.Bytes? && !lost;
        var slot' := slot.(state := step.state, handled := slot.handled + [h], cursor := h + 1, up := replied);
        State(
          if replied then s.board.(wire := wire[h := wire[h].(reply := Some(step.answer.payload))]) else s.board,
          s.threads, s.servers[endpoint := slot'])
  }

  // ---------------------------------------------------------------- runs

  datatype Action =
    | Call(call: Call)
    | Refresh
    | Advance(thread: nat, fault: Option<string>, factory: Factory)
    | ServeOne(endpoint: string, lost: bool)
    | Stop(endpoint: string)

  function Next<S>(s: State<S>, a: Action): State<S> {
    match a
    case Call(call) => s.(threads := s.threads + [CallThread(call, Start)])
    case Refresh => s.(threads := s.threads + [RefreshThread(Building)])
    case ServeOne(endpoint, lost) => Serve(s, endpoint, lost)
    case Stop(endpoint) =>
      if endpoint in s.servers then s.(servers := s.servers[endpoint := s.servers[endpoint].(up := false)]) else s
    case Advance(t, fault, factory) =>
      if t >= |s.threads| then s
      else
        match s.threads[t]
        case CallThread(call, pc) =>
          var (board, pc') := CallStep(s.board, t, call, pc, fault);
          s.(board := board, threads := s.threads[t := CallThread(call, pc')])
        case RefreshThread(stage) =>
          var (board, stage') := RefreshStep(s.board, stage, factory);
          s.(board := board, threads := s.threads[t := RefreshThread(stage')])
  }

  const EMPTY_BOARD := Board(Shared(None, None, 0), [], [], [])

  /** No gateway activity yet, and any servers that have handled nothing. */
  ghost predicate Initial<S>(s: State<S>) {
    && s.board == EMPTY_BOARD
    && s.threads == []
    && forall e :: e in s.servers ==>
         var slot := s.servers[e];
         slot.state == slot.origin && slot.handled == [] && slot.cursor == 0
  }

  function Run<S>(s: State<S>, actions: seq<Action>): State<S> {
    if actions == [] then s else Next(Run(s, actions[..|actions| - 1]), actions[|actions| - 1])
  }
}
