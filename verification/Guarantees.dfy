/** What callers, operators and servers can rely on in every run of the system. */
module Guarantees {
  import opened Prelude
  import opened Json
  import opened Messages
  import opened Sessions
  import opened Endpoint
  import opened Discovery
  import opened Registry
  import opened Gateway
  import opened System
  import opened Interleavings
  import opened Histories
  import Server

  // ---------------------------------------------------------------- where requests go

  /** Every request in flight belongs to one call, and went to the server of the service
      that was the only match for that call in the registry that was active at the moment
      of the run when the call first looked, whatever registry was active when it was sent. */
  lemma ForwardedToUniqueMatch<S>(s: State<S>, actions: seq<Action>, h: nat)
    requires Initial(s)
    requires h < |Run(s, actions).board.wire|
    ensures var final := Run(s, actions);
            var message := final.board.wire[h];
            && message.owner < |final.threads|
            && final.threads[message.owner].CallThread?
            && exists k: nat, service, number ::
                 WasRouted(s, actions, k, final.threads[message.owner].call, message, service, number)
  {
    hide Run, RequestPayload, BoardOk, ServersOk, IsUniqueMatch, LookedUp, Moves;
    var final := Run(s, actions);
    EveryRunIsOk(s, actions);
    var message := final.board.wire[h];
    assert MessageOk(final.threads, final.board.wire, h);
    assert ThreadOk(final.board, message.owner, final.threads[message.owner]);
    var CallThread(call, pc) := final.threads[message.owner];
    CallLookedUp(s, actions, message.owner);
    var k :| LookedUp(s, actions, k, message.owner, call, pc);
    var number := if pc.Waiting? then pc.number else pc.ending.number;
    RoutedAsLookedUp(s, actions, k, call, pc, message, number);
  }

  /** At its first step, action number k, the call found this service as the only match
      in the active registry; the message is its request, sent through that service's client. */
  ghost predicate WasRouted<S>(
      s: State<S>, actions: seq<Action>, k: nat, call: Call, message: Message, service: Service, number: int) {
    && Moves(s, actions, k, message.owner, CallThread(call, Start))
    && CandidatesNow(Run(s, actions[..k]).board, call) == [service]
    && service.client == Some(Client(message.endpoint))
    && IsRequestFor(message.payload, call, number)
  }

  /** The payload is read as a request with this number, the method the call names (within
      its controller, unless the name is qualified already) and the very parameters given. */
  ghost predicate IsRequestFor(payload: seq<byte>, call: Call, number: int) {
    var r := DecodeRequest(payload);
    && r.Some? && r.value.id == IntId(number) && r.value.params.Some?
    && var given := match call
         case MethodCall(_, _, params, _, _) => params
         case ControllerCall(_, request, _) => request.params
         case RpcCall(request) => request.params;
       && r.value.params.value == (match given case Some(members) => members case None => [])
       && r.value.target == match call
            case MethodCall(controller, name, _, _, _) => controller + "." + name
            case ControllerCall(controller, request, _) =>
              if '.' in request.target then request.target else controller + "." + request.target
            case RpcCall(request) => request.target
  }

  /** What goes over the wire is the call. */
  lemma PayloadIsRequestFor(call: Call, number: int)
    ensures IsRequestFor(RequestPayload(call, number), call, number)
  {
    RequestRoundTrip(WireRequest(number, call.Target(), Some(call.SentParams())));
    hide EncodeRequest, DecodeRequest;
  }

  lemma RoutedAsLookedUp<S>(
      s: State<S>, actions: seq<Action>, k: nat, call: Call, pc: Pc, message: Message, number: int)
    requires LookedUp(s, actions, k, message.owner, call, pc) && RouteOf(pc).Some?
    requires RouteOf(pc).value.service.client == Some(Client(message.endpoint))
    requires message.payload == RequestPayload(call, number)
    ensures WasRouted(s, actions, k, call, message, RouteOf(pc).value.service, number)
  {
    hide Run, RequestPayload, IsRequestFor;
    PayloadIsRequestFor(call, number);
  }

  /** Every call under way has, at its first step, been treated as the registry active
      just then demands: it is turned away if and only if not exactly one service matches.
      A call turned away is told so, and sends nothing, ever. */
  lemma TurnedAwayIff<S>(s: State<S>, actions: seq<Action>, t: nat)
    requires Initial(s)
    requires t < |Run(s, actions).threads| && Run(s, actions).threads[t].CallThread?
    requires Run(s, actions).threads[t].pc != Start
    ensures var CallThread(call, pc) := Run(s, actions).threads[t];
            exists k: nat :: LookedUp(s, actions, k, t, call, pc)
    ensures Unselected(Run(s, actions).threads[t].pc) ==>
              && Run(s, actions).threads[t].pc.response.Fails(METHOD_NOT_FOUND)
              && forall h :: 0 <= h < |Run(s, actions).board.wire| ==> Run(s, actions).board.wire[h].owner != t
  {
    hide Run, BoardOk, ServersOk, LookedUp;
    var final := Run(s, actions);
    EveryRunIsOk(s, actions);
    CallLookedUp(s, actions, t);
    assert ThreadOk(final.board, t, final.threads[t]);
    if Unselected(final.threads[t].pc) {
      forall h | 0 <= h < |final.board.wire| ensures final.board.wire[h].owner != t {
        assert MessageOk(final.threads, final.board.wire, h);
      }
    }
  }

  /** A call sends at most one request. */
  lemma OneRequestPerCall<S>(s: State<S>, actions: seq<Action>, g: nat, h: nat)
    requires Initial(s)
    requires g < |Run(s, actions).board.wire| && h < |Run(s, actions).board.wire|
    requires Run(s, actions).board.wire[g].owner == Run(s, actions).board.wire[h].owner
    ensures g == h
  {
    var final := Run(s, actions);
    EveryRunIsOk(s, actions);
    assert MessageOk(final.threads, final.board.wire, g);
    assert MessageOk(final.threads, final.board.wire, h);
  }

  // ---------------------------------------------------------------- what servers do

  /** The servers are those the run began with.  Each has handled exactly the requests
      sent to it so far, up to its cursor, each once and in the order they were sent, and
      is in the state that handling them one after the other leads to from the state it
      began with. */
  lemma ServersAreSequential<S>(s: State<S>, actions: seq<Action>, endpoint: string)
    requires Initial(s)
    ensures endpoint in Run(s, actions).servers <==> endpoint in s.servers
    ensures endpoint in s.servers ==>
            var wire := Run(s, actions).board.wire;
            var first, slot := s.servers[endpoint], Run(s, actions).servers[endpoint];
            && slot.cursor <= |wire| && AllBelow(slot.handled, |wire|)
            && (forall h :: h in slot.handled <==> 0 <= h < slot.cursor && wire[h].endpoint == endpoint)
            && (forall i, j :: 0 <= i < j < |slot.handled| ==> slot.handled[i] < slot.handled[j])
            && slot.controller == first.controller
            && slot.state == RunAll(Handler(first.controller), first.state, PayloadsAt(wire, slot.handled)).state
  {
    hide Run, BoardOk, ThreadsOk;
    var final := Run(s, actions);
    EveryRunIsOk(s, actions);
    ServersStay(s, actions);
    if endpoint in s.servers {
      assert SlotOk(final.board.wire, endpoint, final.servers[endpoint]);
    }
  }

  /** One step of a server here is a drain of one request: the same state, a response
      exactly when one was sent, with the same bytes, and the end of the server exactly
      when the drain raises. */
  lemma ServeIsOneDrainStep<S>(s: State<S>, endpoint: string, sendFault: Option<Exc>, log: seq<Server.Event>)
    requires endpoint in s.servers && s.servers[endpoint].up
    requires s.servers[endpoint].cursor <= |s.board.wire|
    requires NextFor(s.board.wire, endpoint, s.servers[endpoint].cursor) < |s.board.wire|
    requires s.board.wire[NextFor(s.board.wire, endpoint, s.servers[endpoint].cursor)].reply == None
    ensures var slot := s.servers[endpoint];
            var h := NextFor(s.board.wire, endpoint, slot.cursor);
            var request := Server.ActiveRequest(h, s.board.wire[h].payload, sendFault, None);
            var run := Server.Drain(Handler(slot.controller), Server.Rpc, slot.state, log, [Server.Got(request)]);
            var s' := Serve(s, endpoint, sendFault.Some?);
            && s'.servers[endpoint].state == run.state
            && s'.servers[endpoint].up == (run.raised == None)
            && run.log == log + match s'.board.wire[h].reply
                                case Some(b) => [Server.Received(Server.Rpc, h, request.payload), Server.Sent(Server.Rpc, h, b),
                                                 Server.Deleted(Server.Rpc, h)]
                                case None => [Server.Received(Server.Rpc, h, request.payload), Server.Deleted(Server.Rpc, h)]
  {
    hide HandleBytes;
    var slot := s.servers[endpoint];
    var h := NextFor(s.board.wire, endpoint, slot.cursor);
    var request := Server.ActiveRequest(h, s.board.wire[h].payload, sendFault, None);
    assert [Server.Got(request)][1..] == [];
    var step := HandleBytes(slot.controller, slot.state, request.payload);
    assert step == Handler(slot.controller)(slot.state, request.payload);
    var log' := log + Server.Exchange(Server.Rpc, request, step.answer);
    assert Server.Drain(Handler(slot.controller), Server.Rpc, step.state, log', []) == Server.DrainRun(step.state, log', 0, None);
  }

  // ---------------------------------------------------------------- what callers get

  /** The request as a local caller would make it. */
  function LocalRequest(call: Call): Request {
    Request(call.CallerId(), call.Target(), if call.MethodCall? then call.params else call.request.params)
  }

  /** Through the bytes, the server does what the local call does. */
  lemma RequestThroughBytes<S>(c: Controller<S>, s: S, call: Call, number: int)
    ensures var local, remote := Handle(c, s, LocalRequest(call)), HandleBytes(c, s, RequestPayload(call, number));
            && remote.state == local.state
            && (remote.answer.Bytes? <==> local.answer.Reply?)
    ensures RunsBytes(c, RequestPayload(call, number)) <==> Runs(c, LocalRequest(call))
  {
    var sent := WireRequest(number, call.Target(), Some(call.SentParams()));
    RequestRoundTrip(sent);
    hide EncodeRequest, DecodeRequest, EncodeResponse;
    var local := LocalRequest(call);
    IdIsOnlyEchoed(c, s, local, IntId(number));
    MissingParamsAreEmpty(c, s, local.(id := IntId(number)));
    assert local.(id := IntId(number)).(params := Some(ParamsOf(local.params))) == sent;
    assert Runs(c, sent) <==> Runs(c, local);
  }

  /** ... and back, the server's answer is the local one. */
  lemma AnswerThroughBytes<S>(c: Controller<S>, s: S, call: Call, number: int, reply: seq<byte>)
    requires HandleBytes(c, s, RequestPayload(call, number)).answer == Bytes(reply)
    ensures Handle(c, s, LocalRequest(call)).answer == Reply(AnswerFrom(call, reply))
  {
    var sent := WireRequest(number, call.Target(), Some(call.SentParams()));
    RequestRoundTrip(sent);
    hide EncodeRequest, DecodeRequest, EncodeResponse, DecodeResponse;
    var local := LocalRequest(call);
    IdIsOnlyEchoed(c, s, local, IntId(number));
    MissingParamsAreEmpty(c, s, local.(id := IntId(number)));
    assert local.(id := IntId(number)).(params := Some(ParamsOf(local.params))) == sent;
    var response := Handle(c, s, sent).answer.response;
    ReplyClassifies(c, s, sent);
    ResponseRoundTripIff(response);
  }

  /** The local outcome of a call on the state a server that began in `origin` was in
      when it handled message number i of its history. */
  function LocalStep<S>(
      c: Controller<S>, origin: S, wire: seq<Message>, handled: seq<nat>, i: nat, call: Call): Step<S, Answer>
    requires AllBelow(handled, |wire|) && i < |handled|
  {
    Handle(c, RunAll(Handler(c), origin, PayloadsAt(wire, handled)[..i]).state, LocalRequest(call))
  }

  /** The server has handled message h, and locally the call would have been answered
      like this. */
  ghost predicate HandledAs<S>(
      c: Controller<S>, origin: S, wire: seq<Message>, handled: seq<nat>, h: nat, call: Call, response: Response) {
    && AllBelow(handled, |wire|)
    && exists i :: 0 <= i < |handled| && handled[i] == h
         && LocalStep(c, origin, wire, handled, i, call).answer == Reply(response)
  }

  lemma HandledAsLocal<S>(wire: seq<Message>, endpoint: string, slot: Slot<S>, i: nat, call: Call, number: int)
    requires SlotOk(wire, endpoint, slot) && i < |slot.handled|
    requires wire[slot.handled[i]].payload == RequestPayload(call, number)
    requires wire[slot.handled[i]].reply.Some?
    ensures LocalStep(slot.controller, slot.origin, wire, slot.handled, i, call).answer
            == Reply(AnswerFrom(call, wire[slot.handled[i]].reply.value))
  {
    hide HandleBytes, RequestPayload, Handle, AnswerFrom;
    var payloads := PayloadsAt(wire, slot.handled);
    RunAllAt(Handler(slot.controller), slot.origin, payloads, i);
    var before := RunAll(Handler(slot.controller), slot.origin, payloads[..i]).state;
    AnswerThroughBytes(slot.controller, before, call, number, wire[slot.handled[i]].reply.value);
  }

  predicate IsAnswered<S>(s: State<S>, t: nat) {
    && t < |s.threads|
    && s.threads[t].CallThread?
    && s.threads[t].pc.Finished?
    && s.threads[t].pc.ending.Answered?
  }

  /** A remote call is a local call: in every interleaving, what an answered caller gets
      is what handling its own request, under its own id, gives locally in the state its
      server was in when it handled it, starting from the state the server began with.
      The server is the one of the service that was the only match when the call looked,
      and handled the request once. */
  lemma RemoteRefinesLocal<S>(s: State<S>, actions: seq<Action>, t: nat)
    requires Initial(s)
    requires IsAnswered(Run(s, actions), t)
    ensures var final := Run(s, actions);
            var CallThread(call, pc) := final.threads[t];
            var h := pc.ending.handle;
            && h < |final.board.wire| && final.board.wire[h].owner == t
            && pc.ending.route.service.client == Some(Client(final.board.wire[h].endpoint))
            && AnsweredAsLocally(s.servers, final, h, call, pc.response)
            && exists k: nat :: LookedUp(s, actions, k, t, call, pc)
  {
    hide Run, HandledAs, LookedUp, StateOk, Initial;
    var final := Run(s, actions);
    EveryRunIsOk(s, actions);
    ServersStay(s, actions);
    AnsweredThroughServer(final, t);
    AnsweredAsLocal(final, t);
    OriginsAreFirstStates(s);
    CallLookedUp(s, actions, t);
  }

  lemma OriginsAreFirstStates<S>(s: State<S>)
    requires Initial(s)
    ensures s.threads == [] && forall e :: e in s.servers ==> s.servers[e].origin == s.servers[e].state
  {
  }

  /** Message h went to one of the first servers, which handled it, and its caller has
      the response that handling the call locally gives. */
  ghost predicate AnsweredAsLocally<S>(
      first: map<string, Slot<S>>, s: State<S>, h: nat, call: Call, response: Response)
    requires h < |s.board.wire|
  {
    var endpoint := s.board.wire[h].endpoint;
    && endpoint in first && endpoint in s.servers
    && HandledAs(first[endpoint].controller, first[endpoint].state,
                 s.board.wire, s.servers[endpoint].handled, h, call, response)
  }

  lemma AnsweredThroughServer<S>(s: State<S>, t: nat)
    requires StateOk(s) && IsAnswered(s, t)
    ensures var pc, wire := s.threads[t].pc, s.board.wire;
            var h := pc.ending.handle;
            && h < |wire| && wire[h].owner == t
            && pc.ending.route.service.client == Some(Client(wire[h].endpoint))
            && wire[h].payload == RequestPayload(s.threads[t].call, pc.ending.number)
            && wire[h].reply.Some? && pc.response == AnswerFrom(s.threads[t].call, wire[h].reply.value)
            && wire[h].endpoint in s.servers && h in s.servers[wire[h].endpoint].handled
            && SlotOk(wire, wire[h].endpoint, s.servers[wire[h].endpoint])
  {
    hide SlotOk, BoardOk, RequestPayload, AnswerFrom, IsUniqueMatch;
    assert ThreadOk(s.board, t, s.threads[t]);
  }

  lemma AnsweredAsLocal<S>(s: State<S>, t: nat)
    requires StateOk(s) && IsAnswered(s, t)
    requires s.threads[t].pc.ending.handle < |s.board.wire|
    requires s.board.wire[s.threads[t].pc.ending.handle].endpoint in s.servers
    ensures var h := s.threads[t].pc.ending.handle;
            var slot := s.servers[s.board.wire[h].endpoint];
            HandledAs(slot.controller, slot.origin, s.board.wire, slot.handled, h, s.threads[t].call, s.threads[t].pc.response)
  {
    hide StateOk, RequestPayload, AnswerFrom, LocalStep;
    AnsweredThroughServer(s, t);
    var pc, wire := s.threads[t].pc, s.board.wire;
    var h := pc.ending.handle;
    var slot := s.servers[wire[h].endpoint];
    var i :| 0 <= i < |slot.handled| && slot.handled[i] == h;
    HandledAsLocal(wire, wire[h].endpoint, slot, i, s.threads[t].call, pc.ending.number);
  }

  /** Answers respect real time: a call that starts after another one was answered is
      handled after it.  With `ServersAreSequential` and `RemoteRefinesLocal`, calls
      through the gateway are linearizable. */
  lemma AnswersRespectRealTime<S>(s: State<S>, actions: seq<Action>, later: seq<Action>, first: nat, second: nat)
    requires Initial(s)
    requires IsAnswered(Run(s, actions), first) && |Run(s, actions).threads| <= second
    requires IsAnswered(Run(s, actions + later), second)
    ensures IsAnswered(Run(s, actions + later), first)
    ensures var threads := Run(s, actions + later).threads;
            var g, h := threads[first].pc.ending.handle, threads[second].pc.ending.handle;
            && g < h
            && forall e, i, j ::
                 (&& e in Run(s, actions + later).servers
                  && InHistory(Run(s, actions + later), e, i, g) && InHistory(Run(s, actions + later), e, j, h))
                 ==> i < j
  {
    hide Run, Next, PcOk, StageOk, BoardOk;
    var early, final := Run(s, actions), Run(s, actions + later);
    FinishedStays(s, actions, later, first);
    EveryRunIsOk(s, actions);
    EveryRunIsOk(s, actions + later);
    RunGrows(s, actions, later);
    var g, h := final.threads[first].pc.ending.handle, final.threads[second].pc.ending.handle;
    AnsweredIsOwn(early, first);
    AnsweredIsOwn(final, second);
    SendersExist(early);
    forall e, i, j | e in final.servers && InHistory(final, e, i, g) && InHistory(final, e, j, h) ensures i < j {
      assert SlotOk(final.board.wire, e, final.servers[e]);
    }
  }

  lemma SendersExist<S>(s: State<S>)
    requires StateOk(s)
    ensures forall h :: 0 <= h < |s.board.wire| ==> s.board.wire[h].owner < |s.threads|
  {
    forall h | 0 <= h < |s.board.wire| ensures s.board.wire[h].owner < |s.threads| {
      assert MessageOk(s.threads, s.board.wire, h);
    }
  }

  /** Message h is number i in the history of the server. */
  predicate InHistory<S>(s: State<S>, endpoint: string, i: nat, h: nat)
    requires endpoint in s.servers
  {
    i < |s.servers[endpoint].handled| && s.servers[endpoint].handled[i] == h
  }

  lemma AnsweredIsOwn<S>(s: State<S>, t: nat)
    requires StateOk(s) && IsAnswered(s, t)
    ensures s.threads[t].pc.ending.handle < |s.board.wire|
    ensures s.board.wire[s.threads[t].pc.ending.handle].owner == t
  {
    assert ThreadOk(s.board, t, s.threads[t]);
  }

  /** Every call that is made gets a thread of its own, which stays that call's; once it is
      done, the response is under the id the caller gave. */
  lemma CallersGetTheirId<S>(s: State<S>, actions: seq<Action>, k: nat)
    requires Initial(s)
    requires k < |actions| && actions[k].Call?
    ensures var t := |Run(s, actions[..k]).threads|;
            && t < |Run(s, actions).threads|
            && Run(s, actions).threads[t].CallThread? && Run(s, actions).threads[t].call == actions[k].call
            && (Run(s, actions).threads[t].pc.Finished? ==>
                  Run(s, actions).threads[t].pc.response.id == actions[k].call.CallerId())
  {
    hide Run;
    EveryCallHasItsThread(s, actions, k);
    EveryRunIsOk(s, actions);
    var t := |Run(s, actions[..k]).threads|;
    assert ThreadOk(Run(s, actions).board, t, Run(s, actions).threads[t]);
  }

  // ---------------------------------------------------------------- what a refusal means

  predicate IsRefused(r: Response) {
    r.Fails(METHOD_NOT_FOUND) || r.Fails(INVALID_PARAMS)
  }

  lemma {:induction false} FinishedStays<S>(s: State<S>, actions: seq<Action>, later: seq<Action>, t: nat)
    requires t < |Run(s, actions).threads| && Run(s, actions).threads[t].CallThread?
    requires Run(s, actions).threads[t].pc.Finished?
    ensures t < |Run(s, actions + later).threads|
    ensures Run(s, actions + later).threads[t] == Run(s, actions).threads[t]
    decreases later
  {
    if later == [] {
      assert actions + later == actions;
    } else {
      var n := |later| - 1;
      assert (actions + later)[..|actions + later| - 1] == actions + later[..n];
      FinishedStays(s, actions, later[..n], t);
      FinishedThreadStays(Run(s, actions + later[..n]), later[n], t);
    }
  }

  lemma FinishedThreadStays<S>(s: State<S>, a: Action, t: nat)
    requires t < |s.threads| && s.threads[t].CallThread? && s.threads[t].pc.Finished?
    ensures t < |Next(s, a).threads| && Next(s, a).threads[t] == s.threads[t]
  {
    hide HandleBytes, RefreshStep;
  }

  lemma MessageIsTheCalls<S>(s: State<S>, t: nat, h: nat)
    requires StateOk(s) && t < |s.threads| && h < |s.board.wire| && s.board.wire[h].owner == t
    requires s.threads[t].CallThread? && s.threads[t].pc.Finished?
    ensures var CallThread(call, pc) := s.threads[t];
            && (pc.ending.TimedOut? || pc.ending.Answered?)
            && pc.ending.handle == h
            && s.board.wire[h].payload == RequestPayload(call, pc.ending.number)
  {
    hide RequestPayload, IsUniqueMatch, AnswerFrom, ServersOk, BoardOk;
    assert ThreadOk(s.board, t, s.threads[t]);
    assert MessageOk(s.threads, s.board.wire, h);
  }

  /** A refusal that was received, and not made up by `call_rpc`, was the controller's own. */
  lemma RefusedMessageCannotRun<S>(s: State<S>, t: nat, h: nat)
    requires StateOk(s)
    requires t < |s.threads| && s.threads[t].CallThread?
    requires s.threads[t].pc.Finished? && IsRefused(s.threads[t].pc.response)
    requires !(s.threads[t].call.RpcCall? && s.threads[t].pc.ending.TimedOut?)
    requires h < |s.board.wire| && s.board.wire[h].owner == t
    ensures s.board.wire[h].endpoint in s.servers
    ensures !Runs(s.servers[s.board.wire[h].endpoint].controller, LocalRequest(s.threads[t].call))
  {
    hide StateOk, RequestPayload, AnswerFrom, LocalStep, Runs, SlotOk;
    MessageIsTheCalls(s, t, h);
    RefusalWasAnswered(s, t);
    AnsweredThroughServer(s, t);
    var slot := s.servers[s.board.wire[h].endpoint];
    var i :| 0 <= i < |slot.handled| && slot.handled[i] == h;
    HandledAsLocal(s.board.wire, s.board.wire[h].endpoint, slot, i, s.threads[t].call, s.threads[t].pc.ending.number);
    SlotHandledIsBelow(s.board.wire, s.board.wire[h].endpoint, slot);
    LocalRefusalRunsNothing(s.board.wire, slot, i, s.threads[t].call, s.threads[t].pc.response);
  }

  lemma SlotHandledIsBelow<S>(wire: seq<Message>, endpoint: string, slot: Slot<S>)
    requires SlotOk(wire, endpoint, slot)
    ensures AllBelow(slot.handled, |wire|)
  {
    hide RunAll;
  }

  /** A call that has sent a request and stopped waiting reports an unknown method only if
      it is a `call_rpc`. */
  lemma RefusalWasAnswered<S>(s: State<S>, t: nat)
    requires StateOk(s)
    requires t < |s.threads| && s.threads[t].CallThread?
    requires s.threads[t].pc.Finished? && IsRefused(s.threads[t].pc.response)
    requires s.threads[t].pc.ending.TimedOut? ==> !s.threads[t].call.RpcCall?
    ensures !s.threads[t].pc.ending.TimedOut?
  {
    hide RequestPayload, AnswerFrom, IsUniqueMatch, ServersOk, BoardOk, SentOk;
    assert ThreadOk(s.board, t, s.threads[t]);
  }

  lemma LocalRefusalRunsNothing<S>(wire: seq<Message>, slot: Slot<S>, i: nat, call: Call, response: Response)
    requires AllBelow(slot.handled, |wire|) && i < |slot.handled|
    requires LocalStep(slot.controller, slot.origin, wire, slot.handled, i, call).answer == Reply(response)
    requires IsRefused(response)
    ensures !Runs(slot.controller, LocalRequest(call))
  {
    var before := RunAll(Handler(slot.controller), slot.origin, PayloadsAt(wire, slot.handled)[..i]).state;
    ReplyClassifies(slot.controller, before, LocalRequest(call));
  }

  /** When a call reports an unknown method or invalid parameters, then, now and in every
      continuation, its request is one that runs controller code if and only if this was
      a `call_rpc` that stopped waiting, which reports every exception as an unknown
      method, and the method exists and accepts the parameters.  In every other case the
      request went to a known server, and nothing has run or will run for it. */
  lemma RefusalMeansNothingRan<S>(s: State<S>, actions: seq<Action>, later: seq<Action>, t: nat, h: nat)
    requires Initial(s)
    requires t < |Run(s, actions).threads| && Run(s, actions).threads[t].CallThread?
    requires Run(s, actions).threads[t].pc.Finished? && IsRefused(Run(s, actions).threads[t].pc.response)
    requires h < |Run(s, actions + later).board.wire| && Run(s, actions + later).board.wire[h].owner == t
    ensures var CallThread(call, pc) := Run(s, actions).threads[t];
            var message := Run(s, actions + later).board.wire[h];
            && (!(call.RpcCall? && pc.ending.TimedOut?) ==> message.endpoint in s.servers)
            && (message.endpoint in s.servers ==>
                  var c := s.servers[message.endpoint].controller;
                  RunsBytes(c, message.payload)
                  <==> call.RpcCall? && pc.ending.TimedOut? && Runs(c, LocalRequest(call)))
  {
    hide Run, RunsBytes, Runs, StateOk, RequestPayload, HandleBytes, Handle;
    FinishedStays(s, actions, later, t);
    EveryRunIsOk(s, actions + later);
    ServersStay(s, actions + later);
    var final := Run(s, actions + later);
    var CallThread(call, pc) := final.threads[t];
    MessageIsTheCalls(final, t, h);
    if !(call.RpcCall? && pc.ending.TimedOut?) {
      RefusedMessageCannotRun(final, t, h);
    }
    var endpoint := final.board.wire[h].endpoint;
    if endpoint in s.servers {
      RequestThroughBytes(s.servers[endpoint].controller, s.servers[endpoint].state, call, pc.ending.number);
    }
  }

  // ---------------------------------------------------------------- what refreshes keep

  /** The status tells of the commits made so far at some moment not before this one. */
  ghost predicate ReportTells(b: Board, position: nat, status: Status) {
    && position < status.refreshCount <= |b.commits|
    && Tells(b.commits[..status.refreshCount], SizeIn(b.registries), status)
  }

  /** In every interleaving of refreshes: each refresh past its lock section has made
      exactly one commit, the commits are numbered in the order of the lock sections, and
      the counter is the number of such refreshes; the last error is that of the latest
      commit, the active registry is that of the latest successful one, and a status
      reported by a refresh describes a moment not before its own commit. */
  lemma RefreshesAccount<S>(s: State<S>, actions: seq<Action>)
    requires Initial(s)
    ensures var final := Run(s, actions);
            var commits := final.board.commits;
            && final.board.shared.refreshCount == |commits| == |PastLock(final.threads)|
            && OneCommitEach(final.threads, |commits|)
            && (final.board.shared.lastError == None <==> commits == [] || commits[|commits| - 1].Good?)
            && (forall k: nat :: IsLatestGood(commits, k) ==> final.board.shared.registry == commits[k].registry)
            && (final.board.shared.registry.Some? ==> exists k: nat :: IsLatestGood(commits, k))
            && (forall t :: 0 <= t < |final.threads| && final.threads[t].RefreshThread? && final.threads[t].stage.Reported? ==>
                  ReportTells(final.board, final.threads[t].stage.position, final.threads[t].stage.status))
  {
    hide Run;
    var final := Run(s, actions);
    EveryRunIsOk(s, actions);
    CommitsAccount(final.board.commits);
    EveryCommitIsOneRefresh(s, actions);
    forall t | 0 <= t < |final.threads| && final.threads[t].RefreshThread? && final.threads[t].stage.Reported?
      ensures ReportTells(final.board, final.threads[t].stage.position, final.threads[t].stage.status)
    {
      assert ThreadOk(final.board, t, final.threads[t]);
      StatusTells(final.board.commits[..final.threads[t].stage.status.refreshCount], SizeIn(final.board.registries));
    }
  }

  /** Every commit is the work of one refresh: what its factory gave when it built, as
      committed in its lock section, the one that made it number `position`; a registry
      is an object of its own unless the factory gave back an earlier one. */
  lemma EveryCommitWasBuilt<S>(s: State<S>, actions: seq<Action>, position: nat)
    requires Initial(s) && position < |Run(s, actions).board.commits|
    ensures exists t, built, k :: Commits(s, actions, built, k, t, position, Run(s, actions).board.commits[position])
    ensures forall t :: HasCommitted(Run(s, actions).threads, t, position) ==>
              exists built, k :: Commits(s, actions, built, k, t, position, Run(s, actions).board.commits[position])
  {
    hide Run, Commits, HasCommitted, PastLock;
    EveryCommitIsOneRefresh(s, actions);
    assert IsCommitted(Run(s, actions).threads, position);
    forall t | HasCommitted(Run(s, actions).threads, t, position)
      ensures exists built, k :: Commits(s, actions, built, k, t, position, Run(s, actions).board.commits[position])
    {
      RefreshCommitted(s, actions, t, position);
    }
  }

  /** Every refresh of the run that builds uses a factory of this kind. */
  ghost predicate FactoriesAre<S>(s: State<S>, actions: seq<Action>, kind: Factory -> bool) {
    forall k: nat, t: nat :: Moves(s, actions, k, t, RefreshThread(Building)) ==> kind(actions[k].factory)
  }

  lemma FactoriesOfFront<S>(s: State<S>, actions: seq<Action>, kind: Factory -> bool)
    requires actions != [] && FactoriesAre(s, actions, kind)
    ensures FactoriesAre(s, actions[..|actions| - 1], kind)
    ensures BuildsBy(Run(s, actions[..|actions| - 1]), actions[|actions| - 1], kind)
  {
    hide Run;
    var n := |actions| - 1;
    RunStep(s, actions);
    forall k: nat, t: nat | Moves(s, actions[..n], k, t, RefreshThread(Building)) ensures kind(actions[..n][k].factory) {
      assert Moves(s, actions, k, t, RefreshThread(Building));
    }
    if IsBuildingStep(Run(s, actions[..n]), actions[n]) {
      assert Moves(s, actions, n, actions[n].thread, RefreshThread(Building));
    }
  }

  predicate IsBuildingStep<S>(s: State<S>, a: Action) {
    a.Advance? && a.thread < |s.threads| && s.threads[a.thread] == RefreshThread(Building)
  }

  predicate BuildsBy<S>(s: State<S>, a: Action, kind: Factory -> bool) {
    IsBuildingStep(s, a) ==> kind(a.factory)
  }

  /** The default factory, which discovers, or raises. */
  predicate ByDefault(f: Factory) {
    f.Discovers? || f.Raises?
  }

  ghost predicate DefaultOk(b: Board) {
    forall r :: 0 <= r < |b.registries| ==> BuiltByDiscovery(b.registries[r].services)
  }

  lemma NextKeepsDefault<S>(s: State<S>, a: Action)
    requires DefaultOk(s.board) && BuildsBy(s, a, ByDefault)
    ensures DefaultOk(Next(s, a).board)
  {
    hide BuiltByDiscovery, CallStep, HandleBytes;
    if a.Advance? && a.thread < |s.threads| {
      match s.threads[a.thread]
      case CallThread(call, pc) => CallKeepsRegistries(s.board, a.thread, call, pc, a.fault);
      case RefreshThread(stage) =>
        if stage == Building && a.factory.Discovers? {
          DiscoveryBuilds(a.factory.entries, a.factory.attempts);
          hide BuiltServices;
        }
    }
  }

  lemma DiscoveryBuilds(entries: seq<Details>, attempts: seq<Attempts>)
    ensures BuiltByDiscovery(BuiltServices(entries, attempts))
  {
    assert DiscoveredAs(BuiltServices(entries, attempts), entries, attempts);
  }

  lemma {:induction false} DefaultRunsKeepDefault<S>(s: State<S>, actions: seq<Action>)
    requires Initial(s) && FactoriesAre(s, actions, ByDefault)
    ensures DefaultOk(Run(s, actions).board)
    decreases actions
  {
    if actions != [] {
      FactoriesOfFront(s, actions, ByDefault);
      DefaultRunsKeepDefault(s, actions[..|actions| - 1]);
      NextKeepsDefault(Run(s, actions[..|actions| - 1]), actions[|actions| - 1]);
    }
  }

  /** With the default factory, whatever fails: every registry the gateway ever holds
      lists each endpoint once and each service all-or-nothing. */
  lemma RegistriesAreAllOrNothing<S>(s: State<S>, actions: seq<Action>, r: nat)
    requires Initial(s) && FactoriesAre(s, actions, ByDefault)
    requires r < |Run(s, actions).board.registries|
    ensures var services := Run(s, actions).board.registries[r].services;
            && DistinctEndpoints(services)
            && forall i :: 0 <= i < |services| ==> AllOrNothing(services[i])
  {
    DefaultRunsKeepDefault(s, actions);
    DiscoveryIsAllOrNothing(Run(s, actions).board.registries[r].services);
  }

  // ---------------------------------------------------------------- calls without a registry

  /** The latest successful commit is a None. */
  ghost predicate EndsInNone(commits: seq<Commit<nat>>) {
    exists k: nat :: IsLatestGood(commits, k) && commits[k] == Good(None)
  }

  /** Action number k is the second look of the call, and there the latest successful
      commit decides whether it ends without a registry. */
  ghost predicate SecondLookDecides<S>(
      s: State<S>, actions: seq<Action>, k: nat, t: nat, call: Call, route: Route, ending: Ending) {
    && Moves(s, actions, k, t, CallThread(call, Selected(route)))
    && (ending.NoRegistry? <==> !call.RpcCall? && EndsInNone(Run(s, actions[..k]).board.commits))
  }

  /** A controller-scoped call that has found its service ends without a registry if and
      only if, at its second look, the latest refresh that succeeded had brought None. */
  lemma NoRegistryIff<S>(s: State<S>, actions: seq<Action>, t: nat)
    requires Initial(s)
    requires t < |Run(s, actions).threads| && Run(s, actions).threads[t].CallThread?
    requires Run(s, actions).threads[t].pc.Finished? && !Run(s, actions).threads[t].pc.ending.NotSelected?
    ensures var CallThread(call, pc) := Run(s, actions).threads[t];
            exists k: nat, route :: SecondLookDecides(s, actions, k, t, call, route, pc.ending)
  {
    hide Run, EndsInNone, StateOk;
    CallLookedAgain(s, actions, t);
    var CallThread(call, pc) := Run(s, actions).threads[t];
    var k: nat, route :| LookedAgain(s, actions, k, t, call, route, pc);
    EveryRunIsOk(s, actions[..k]);
    NoneIsTheLatest(Run(s, actions[..k]), t);
    assert SecondLookDecides(s, actions, k, t, call, route, pc.ending);
  }

  /** Once a service has been selected, a registry was committed, and having none means
      that None came later. */
  lemma NoneIsTheLatest<S>(s: State<S>, t: nat)
    requires StateOk(s) && t < |s.threads| && s.threads[t].CallThread? && s.threads[t].pc.Selected?
    ensures s.board.shared.registry == None <==> EndsInNone(s.board.commits)
  {
    hide Replay, ServersOk, IsUniqueMatch;
    assert ThreadOk(s.board, t, s.threads[t]);
    var commits, found := s.board.commits, s.threads[t].pc.route.found;
    CommitsAccount(commits);
    var j :| 0 <= j < |commits| && commits[j] == Good(Some(found));
    LatestGoodExists(commits, j);
    var k: nat :| IsLatestGood(commits, k);
    assert commits[k] == Good(s.board.shared.registry);
  }

  predicate NeverNone(f: Factory) {
    !f.ReturnsNone?
  }

  ghost predicate NoneFree(b: Board, threads: seq<Thread>) {
    && Good(None) !in b.commits
    && forall t :: 0 <= t < |threads| ==> threads[t] != RefreshThread(Built(Good(None)))
  }

  lemma NextKeepsNoneFree<S>(s: State<S>, a: Action)
    requires NoneFree(s.board, s.threads) && BuildsBy(s, a, NeverNone)
    ensures NoneFree(Next(s, a).board, Next(s, a).threads)
  {
    hide CallStep, HandleBytes, BuiltServices;
    if a.Advance? && a.thread < |s.threads| && s.threads[a.thread].CallThread? {
      CallKeepsRegistries(s.board, a.thread, s.threads[a.thread].call, s.threads[a.thread].pc, a.fault);
    }
  }

  lemma {:induction false} RunKeepsNoneFree<S>(s: State<S>, actions: seq<Action>)
    requires Initial(s) && FactoriesAre(s, actions, NeverNone)
    ensures NoneFree(Run(s, actions).board, Run(s, actions).threads)
    decreases actions
  {
    if actions != [] {
      FactoriesOfFront(s, actions, NeverNone);
      RunKeepsNoneFree(s, actions[..|actions| - 1]);
      NextKeepsNoneFree(Run(s, actions[..|actions| - 1]), actions[|actions| - 1]);
    }
  }

  /** If no refresh builds with a factory that returns None, no call that has found its service meets
      a gateway without a registry; `Scenarios.NoneEndsTheCall` is the converse. */
  lemma NoRegistryNeedsNone<S>(s: State<S>, actions: seq<Action>, t: nat)
    requires Initial(s) && FactoriesAre(s, actions, NeverNone)
    requires t < |Run(s, actions).threads| && Run(s, actions).threads[t].CallThread?
    ensures var pc := Run(s, actions).threads[t].pc;
            pc.Finished? ==> !pc.ending.NoRegistry?
  {
    hide Run;
    EveryRunIsOk(s, actions);
    RunKeepsNoneFree(s, actions);
    assert ThreadOk(Run(s, actions).board, t, Run(s, actions).threads[t]);
  }
}
