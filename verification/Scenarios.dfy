/** Runs that exist: the undisturbed call, and the runs that show why some claims are
    not made. */
module Scenarios {
  import opened Prelude
  import opened Json
  import opened Messages
  import opened Names
  import opened Sessions
  import opened Endpoint
  import opened Camera
  import opened Discovery
  import opened Registry
  import opened Gateway
  import opened System
  import opened Interleavings
  import opened Guarantees
  import opened Numbering

  ghost predicate Reaches<S>(s: State<S>, s': State<S>) {
    exists actions :: Run(s, actions) == s'
  }

  lemma ReachesItself<S>(s: State<S>)
    ensures Reaches(s, s)
  {
    assert Run(s, []) == s;
  }

  lemma ReachesNext<S>(s: State<S>, s': State<S>, a: Action)
    requires Reaches(s, s')
    ensures Reaches(s, Next(s', a))
  {
    var actions :| Run(s, actions) == s';
    var longer := actions + [a];
    assert longer[..|longer| - 1] == actions;
    assert Run(s, longer) == Next(s', a);
  }

  /** One step of a thread, with the exception it raises, if any. */
  function Go(t: nat, fault: Option<string>): Action {
    Advance(t, fault, ReturnsNone)
  }

  /** A registry is active and offers exactly one service for the call, with a client. */
  predicate Offered(b: Board, call: Call, service: Service, endpoint: string) {
    && b.shared.registry.Some? && b.shared.registry.value < |b.registries|
    && call.Candidates(b.registries[b.shared.registry.value].services) == [service]
    && service.client == Some(Client(endpoint))
  }

  /** A call nobody interferes with finds its service and a registry to call through. */
  lemma UndisturbedLookup<S>(s: State<S>, now: State<S>, call: Call, service: Service, endpoint: string)
    returns (s': State<S>)
    requires Reaches(s, now) && Offered(now.board, call, service, endpoint)
    ensures Reaches(s, s')
    ensures var r := now.board.shared.registry.value;
            && s'.servers == now.servers && s'.board == now.board
            && s'.threads == now.threads + [CallThread(call, Checked(Route(service, r), r))]
  {
    var t := |now.threads|;
    var r := now.board.shared.registry.value;
    ReachesNext(s, now, Call(call));
    s' := Next(now, Call(call));
    s' := StepTo(s, s', t, call, Selected(Route(service, r)));
    s' := StepTo(s, s', t, call, Checked(Route(service, r), r));
  }

  /** ... and from there gets its request onto the wire under the next number. */
  lemma UndisturbedNumbering<S>(s: State<S>, now: State<S>, t: nat, call: Call, route: Route, r: nat, endpoint: string)
    returns (s': State<S>)
    requires Reaches(s, now) && r < |now.board.registries| && route.service.client == Some(Client(endpoint))
    requires t < |now.threads| && now.threads[t] == CallThread(call, Checked(route, r))
    ensures Reaches(s, s')
    ensures var number, h := now.board.registries[r].counter + 1, |now.board.wire|;
            && s'.servers == now.servers
            && s'.board.wire == now.board.wire + [Message(t, endpoint, RequestPayload(call, number), None)]
            && s'.threads == now.threads[t := CallThread(call, Waiting(route, number, h))]
  {
    hide RequestPayload, Reaches, FirstLook, SecondLook, AnswerFrom, CallFailure;
    var seen := now.board.registries[r].counter;
    s' := StepTo(s, now, t, call, CounterRead(route, r, seen));
    s' := StepTo(s, s', t, call, CounterWritten(route, r));
    s' := StepTo(s, s', t, call, Numbered(route, r, seen + 1));
    s' := StepTo(s, s', t, call, Waiting(route, seen + 1, |now.board.wire|));
  }

  lemma UndisturbedRequest<S>(s: State<S>, call: Call, service: Service, endpoint: string) returns (s': State<S>)
    requires Offered(s.board, call, service, endpoint)
    ensures Reaches(s, s')
    ensures var r := s.board.shared.registry.value;
            var number, h := s.board.registries[r].counter + 1, |s.board.wire|;
            && s'.servers == s.servers
            && s'.board.wire == s.board.wire + [Message(|s.threads|, endpoint, RequestPayload(call, number), None)]
            && s'.threads == s.threads + [CallThread(call, Waiting(Route(service, r), number, h))]
  {
    hide RequestPayload, CallStep, Next;
    var r := s.board.shared.registry.value;
    ReachesItself(s);
    s' := UndisturbedLookup(s, s, call, service, endpoint);
    s' := UndisturbedNumbering(s, s', |s.threads|, call, Route(service, r), r, endpoint);
  }

  lemma StepTo<S>(s: State<S>, now: State<S>, t: nat, call: Call, pc: Pc) returns (s': State<S>)
    requires Reaches(s, now)
    requires t < |now.threads| && now.threads[t].CallThread? && now.threads[t].call == call
    requires CallStep(now.board, t, call, now.threads[t].pc, None).1 == pc
    ensures Reaches(s, s')
    ensures s'.servers == now.servers && s'.threads == now.threads[t := CallThread(call, pc)]
    ensures s'.board == CallStep(now.board, t, call, now.threads[t].pc, None).0
  {
    s' := Next(now, Go(t, None));
    ReachesNext(s, now, Go(t, None));
  }

  /** A call that stops waiting. */
  lemma Expire<S>(s: State<S>, now: State<S>, t: nat, call: Call) returns (s': State<S>)
    requires Reaches(s, now)
    requires t < |now.threads| && now.threads[t].CallThread? && now.threads[t].call == call
    requires now.threads[t].pc.Waiting?
    ensures Reaches(s, s')
    ensures s'.servers == now.servers && |s'.threads| == |now.threads| && s'.board == now.board
    ensures s'.threads[t].CallThread? && s'.threads[t].call == call && s'.threads[t].pc.Finished?
    ensures s'.threads[t].pc.response == CallFailure(call, TIMED_OUT.message)
  {
    s' := Next(now, Go(t, Some(TIMED_OUT.message)));
    ReachesNext(s, now, Go(t, Some(TIMED_OUT.message)));
  }

  /** The server is up and has nothing else to do. */
  predicate Idle<S>(s: State<S>, endpoint: string) {
    && endpoint in s.servers && s.servers[endpoint].up
    && s.servers[endpoint].cursor <= |s.board.wire|
    && forall h :: s.servers[endpoint].cursor <= h < |s.board.wire| ==> s.board.wire[h].endpoint != endpoint
  }

  /** An idle server handles the request that was just sent, and answers it unless an
      exception escapes. */
  lemma UndisturbedService<S>(s: State<S>, sent: State<S>, message: Message)
    requires Idle(s, message.endpoint) && message.reply == None
    requires sent.servers == s.servers && sent.board.wire == s.board.wire + [message]
    ensures var e := message.endpoint;
            var slot := s.servers[e];
            var step := HandleBytes(slot.controller, slot.state, message.payload);
            var served := Next(sent, ServeOne(e, false));
            && served.servers.Keys == s.servers.Keys && served.servers[e].state == step.state
            && served.servers[e].handled == slot.handled + [|s.board.wire|]
            && served.board == sent.board.(wire := served.board.wire) && served.threads == sent.threads
            && served.board.wire == s.board.wire + [
                 if step.answer.Bytes? then message.(reply := Some(step.answer.payload)) else message]
  {
    hide HandleBytes;
    var e := message.endpoint;
    var h := NextFor(sent.board.wire, e, s.servers[e].cursor);
    assert forall k :: 0 <= k < |s.board.wire| ==> sent.board.wire[k] == s.board.wire[k];
    assert sent.board.wire[|s.board.wire|] == message;
    assert h == |s.board.wire|;
  }

  /** The server has executed message h, as the local call would have been. */
  ghost predicate ExecutedLocally<S>(slot: Slot<S>, slot': Slot<S>, h: nat, call: Call) {
    slot'.state == Handle(slot.controller, slot.state, LocalRequest(call)).state && slot'.handled == slot.handled + [h]
  }

  /** A call nobody interferes with is handled, and its answer, if there is one, lies ready. */
  lemma UndisturbedExchange<S>(s: State<S>, call: Call, service: Service, endpoint: string) returns (served: State<S>)
    requires Offered(s.board, call, service, endpoint) && Idle(s, endpoint)
    ensures Reaches(s, served)
    ensures |served.threads| == |s.threads| + 1 && endpoint in served.servers
    ensures var h := |s.board.wire|;
            && ExecutedLocally(s.servers[endpoint], served.servers[endpoint], h, call)
            && |served.board.wire| == h + 1 && served.board.wire[h].owner == |s.threads|
            && served.board.wire[h].endpoint == endpoint
            && served.threads[|s.threads|].CallThread? && served.threads[|s.threads|].call == call
            && served.threads[|s.threads|].pc.Waiting? && served.threads[|s.threads|].pc.handle == h
            && served.board.wire[h].payload == RequestPayload(call, served.threads[|s.threads|].pc.number)
    ensures var slot, reply := s.servers[endpoint], served.board.wire[|s.board.wire|].reply;
            match Handle(slot.controller, slot.state, LocalRequest(call)).answer
            case Reply(response) => reply.Some? && response == AnswerFrom(call, reply.value)
            case Escapes(_) => reply == None
  {
    var slot, t := s.servers[endpoint], |s.threads|;
    var sent := UndisturbedRequest(s, call, service, endpoint);
    var number := sent.threads[t].pc.number;
    RequestThroughBytes(slot.controller, slot.state, call, number);
    hide HandleBytes, RequestPayload, Handle, AnswerFrom;
    var step := HandleBytes(slot.controller, slot.state, RequestPayload(call, number));
    if step.answer.Bytes? {
      AnswerThroughBytes(slot.controller, slot.state, call, number, step.answer.payload);
    }
    UndisturbedService(s, sent, Message(t, endpoint, RequestPayload(call, number), None));
    ReachesNext(s, sent, ServeOne(endpoint, false));
    served := Next(sent, ServeOne(endpoint, false));
  }

  /** A call that is offered an idle server can complete, and then it returns exactly
      what the controller answers locally, and leaves the controller where that does. */
  lemma UndisturbedCallIsLocal<S>(s: State<S>, call: Call, service: Service, endpoint: string) returns (final: State<S>)
    requires Offered(s.board, call, service, endpoint) && Idle(s, endpoint)
    requires Handle(s.servers[endpoint].controller, s.servers[endpoint].state, LocalRequest(call)).answer.Reply?
    ensures Reaches(s, final)
    ensures |final.threads| == |s.threads| + 1 && endpoint in final.servers
    ensures var slot := s.servers[endpoint];
            var local := Handle(slot.controller, slot.state, LocalRequest(call));
            && final.threads[|s.threads|].CallThread? && final.threads[|s.threads|].call == call
            && final.threads[|s.threads|].pc.Finished?
            && Reply(final.threads[|s.threads|].pc.response) == local.answer
            && final.servers[endpoint].state == local.state
  {
    hide Handle, AnswerFrom;
    var served := UndisturbedExchange(s, call, service, endpoint);
    var pc := served.threads[|s.threads|].pc;
    var reply := served.board.wire[pc.handle].reply.value;
    final := StepTo(s, served, |s.threads|, call,
      Finished(AnswerFrom(call, reply), Answered(pc.route, pc.number, pc.handle)));
  }

  /** The converse of `RefusalMeansNothingRan`: whenever a request runs controller code,
      `call_rpc` can report an unknown method although its request has been executed,
      because the caller has stopped waiting. */
  lemma RpcTimeoutHidesTheStep<S>(s: State<S>, request: Request, service: Service, endpoint: string)
    returns (final: State<S>)
    requires Offered(s.board, RpcCall(request), service, endpoint) && Idle(s, endpoint)
    requires Runs(s.servers[endpoint].controller, request)
    ensures Reaches(s, final)
    ensures |final.threads| == |s.threads| + 1 && endpoint in final.servers
    ensures var thread := final.threads[|s.threads|];
            && thread.CallThread? && thread.call == RpcCall(request)
            && thread.pc.Finished? && thread.pc.response.Fails(METHOD_NOT_FOUND)
    ensures var slot, h := s.servers[endpoint], |s.board.wire|;
            && h < |final.board.wire| && final.board.wire[h].owner == |s.threads|
            && final.board.wire[h].endpoint == endpoint
            && RunsBytes(slot.controller, final.board.wire[h].payload)
            && final.servers[endpoint].handled == slot.handled + [h]
            && final.servers[endpoint].state == Handle(slot.controller, slot.state, request).state
  {
    assert LocalRequest(RpcCall(request)) == request;
    var served := UndisturbedExchange(s, RpcCall(request), service, endpoint);
    RequestThroughBytes(
      s.servers[endpoint].controller, s.servers[endpoint].state, RpcCall(request), served.threads[|s.threads|].pc.number);
    hide Handle, AnswerFrom, HandleBytes, RunsBytes, Runs, RequestPayload;
    final := Expire(s, served, |s.threads|, RpcCall(request));
  }

  // ---------------------------------------------------------------- publishing

  /** One refresh makes these services active, in a registry of their own. */
  lemma RefreshPublishes<S>(s: State<S>, services: seq<Service>) returns (s': State<S>)
    ensures Reaches(s, s')
    ensures s'.servers == s.servers && s'.threads == s.threads + [RefreshThread(Committed(|s.board.commits|))]
    ensures var r := |s.board.registries|;
            s'.board == Board(
                          Shared(Some(r), None, s.board.shared.refreshCount + 1), s.board.commits + [Good(Some(r))],
                          s.board.registries + [RegistryObject(services, 0)], s.board.wire)
  {
    var t := |s.threads|;
    ReachesItself(s);
    var s1 := Next(s, Refresh);
    ReachesNext(s, s, Refresh);
    var build := Advance(t, None, Custom(services));
    var s2 := Next(s1, build);
    ReachesNext(s, s1, build);
    s' := Next(s2, Go(t, None));
    ReachesNext(s, s2, Go(t, None));
  }

  /** The same from nothing. */
  lemma UndisturbedRefresh<S>(s: State<S>, services: seq<Service>) returns (s': State<S>)
    requires Initial(s)
    ensures Reaches(s, s')
    ensures s'.servers == s.servers && s'.threads == [RefreshThread(Committed(0))]
    ensures s'.board == Board(Shared(Some(0), None, 1), [Good(Some(0))], [RegistryObject(services, 0)], [])
  {
    s' := RefreshPublishes(s, services);
  }

  lemma SoleMatch(service: Service)
    ensures Matching([service], service.controllerName, None) == [service]
  {
    assert [service][1..] == [];
    assert Matching([], service.controllerName, None) == [];
  }

  /** A refresh whose factory returns None takes the registry away. */
  lemma NoneRefresh<S>(s: State<S>, now: State<S>) returns (s': State<S>)
    requires Reaches(s, now)
    ensures Reaches(s, s') && s'.board.shared.registry == None
    ensures s'.servers == now.servers && s'.threads == now.threads + [RefreshThread(Committed(|now.board.commits|))]
  {
    var t := |now.threads|;
    s' := Next(now, Refresh);
    ReachesNext(s, now, Refresh);
    var s1 := s';
    s' := Next(s1, Go(t, None));
    ReachesNext(s, s1, Go(t, None));
    var s2 := s';
    s' := Next(s2, Go(t, None));
    ReachesNext(s, s2, Go(t, None));
  }

  /** The converse of `NoRegistryNeedsNone`: whatever state the system is in, one refresh
      that brings None before the second look of a controller-scoped call ends it. */
  lemma NoneEndsTheCall<S>(s: State<S>, t: nat, route: Route) returns (final: State<S>)
    requires t < |s.threads| && s.threads[t].CallThread? && !s.threads[t].call.RpcCall?
    requires s.threads[t].pc == Selected(route)
    ensures Reaches(s, final)
    ensures |final.threads| == |s.threads| + 1
    ensures final.threads[t].CallThread? && final.threads[t].call == s.threads[t].call
    ensures final.threads[t].pc.Finished? && final.threads[t].pc.ending == NoRegistry
    ensures final.threads[t].pc.response.Fails(METHOD_NOT_FOUND)
  {
    ReachesItself(s);
    var call := s.threads[t].call;
    var now := NoneRefresh(s, s);
    final := StepTo(s, now, t, call, SecondLook(now.board, call, route));
  }

  /** So there is a run from nothing in which that happens. */
  lemma NoneBetweenTheLooks<S>(s: State<S>, service: Service, requestId: Id) returns (final: State<S>)
    requires Initial(s)
    ensures Reaches(s, final)
    ensures |final.threads| == 3 && final.threads[1].CallThread?
    ensures final.threads[1].pc.Finished? && final.threads[1].pc.ending == NoRegistry
  {
    var call := MethodCall(service.controllerName, "open", None, None, requestId);
    var selected := UndisturbedRefresh(s, [service]);
    SoleMatch(service);
    ReachesNext(s, selected, Call(call));
    selected := Next(selected, Call(call));
    selected := StepTo(s, selected, 1, call, Selected(Route(service, 0)));
    final := NoneEndsTheCall(selected, 1, Route(service, 0));
    ReachesThrough(s, selected, final);
  }

  /** Two calls that have both read the counter and not yet written it. */
  lemma TwoReaders<S>(s: State<S>, service: Service, endpoint: string, call: Call) returns (a: State<S>)
    requires Initial(s) && service.client == Some(Client(endpoint))
    requires call == MethodCall(service.controllerName, "open", None, None, NoId)
    ensures Reaches(s, a)
    ensures a.threads == [RefreshThread(Committed(0)), CallThread(call, CounterRead(Route(service, 0), 0, 0)),
                          CallThread(call, CounterRead(Route(service, 0), 0, 0))]
    ensures a.board == Board(Shared(Some(0), None, 1), [Good(Some(0))], [RegistryObject([service], 0)], [])
  {
    var route := Route(service, 0);
    a := UndisturbedRefresh(s, [service]);
    SoleMatch(service);
    a := UndisturbedLookup(s, a, call, service, endpoint);
    a := UndisturbedLookup(s, a, call, service, endpoint);
    hide Matching, FirstLook, SecondLook;
    a := StepTo(s, a, 1, call, CounterRead(route, 0, 0));
    a := StepTo(s, a, 2, call, CounterRead(route, 0, 0));
  }

  /** Two calls that both read the counter before either writes it put the same number on
      the wire; `Numbering.NumbersDistinctIff` says when that happens.  Their answers are
      still kept apart, by `RemoteRefinesLocal`. */
  lemma WireNumbersCanCollide<S>(s: State<S>, service: Service, endpoint: string) returns (final: State<S>)
    requires Initial(s) && service.client == Some(Client(endpoint))
    ensures Reaches(s, final)
    ensures |final.board.wire| == 2 && |final.threads| == 3
    ensures final.threads[1].CallThread? && final.threads[1].pc.Waiting? && final.threads[1].pc.handle == 0
    ensures final.threads[2].CallThread? && final.threads[2].pc.Waiting? && final.threads[2].pc.handle == 1
    ensures NumberOf(final.board.wire[0]) == NumberOf(final.board.wire[1])
  {
    hide RequestPayload, NumberOf, Reaches, FirstLook, SecondLook, AnswerFrom, CallFailure;
    var call := MethodCall(service.controllerName, "open", None, None, NoId);
    var route := Route(service, 0);
    final := TwoReaders(s, service, endpoint, call);
    final := StepTo(s, final, 1, call, CounterWritten(route, 0));
    final := StepTo(s, final, 2, call, CounterWritten(route, 0));
    final := StepTo(s, final, 1, call, Numbered(route, 0, 1));
    final := StepTo(s, final, 2, call, Numbered(route, 0, 1));
    final := StepTo(s, final, 1, call, Waiting(route, 1, 0));
    final := StepTo(s, final, 2, call, Waiting(route, 1, 1));
    PayloadCarries(call, 1, final.board.wire[0]);
    PayloadCarries(call, 1, final.board.wire[1]);
  }

  /** Nor need two calls overlap: with a refresh between them each is the first call
      through its registry object, and both carry number 1. */
  lemma WireNumbersRepeatAfterRefresh<S>(s: State<S>, service: Service, endpoint: string)
    returns (middle: State<S>, final: State<S>)
    requires Initial(s) && service.client == Some(Client(endpoint))
    ensures Reaches(s, middle) && Reaches(middle, final)
    ensures |middle.board.wire| == 1 && |middle.threads| == 2
    ensures |final.board.wire| == 2 && final.board.wire[0] == middle.board.wire[0]
    ensures final.board.wire[1].owner >= |middle.threads|
    ensures NumberOf(final.board.wire[0]) == NumberOf(final.board.wire[1]) == 1
  {
    hide RequestPayload, NumberOf, Reaches;
    var call := MethodCall(service.controllerName, "open", None, None, NoId);
    SoleMatch(service);
    var one := UndisturbedRefresh(s, [service]);
    middle := UndisturbedRequest(one, call, service, endpoint);
    ReachesThrough(s, one, middle);
    var two := RefreshPublishes(middle, [service]);
    final := UndisturbedRequest(two, call, service, endpoint);
    ReachesThrough(middle, two, final);
    PayloadCarries(call, 1, final.board.wire[0]);
    PayloadCarries(call, 1, final.board.wire[1]);
  }

  /** The same with the camera: a client of `call_rpc` is told that the method does not
      exist, and the camera has taken its first picture. */
  lemma CameraCapturesBehindATimeout() returns (s: State<CameraState>, final: State<CameraState>)
    ensures Initial(s) && Reaches(s, final)
    ensures |final.threads| == 2 && final.threads[1].CallThread? && final.threads[1].pc.Finished?
    ensures final.threads[1].call == RpcCall(Request(IntId(7), Qualified("camera", "capture"), None))
    ensures final.threads[1].pc.response.Fails(METHOD_NOT_FOUND)
    ensures "camera" in final.servers && final.servers["camera"].state == CameraState(true, 1)
  {
    var new' := CameraState(false, 0);
    var target := Qualified("camera", "capture");
    var request := Request(IntId(7), target, None);
    var service := Service("serverCam", "camera", "camera", "schema", [target], map[], None, Some("camera"), Some(Client("camera")));
    s := State(EMPTY_BOARD, [], map["camera" := Slot(CAMERA, new', new', [], 0, true)]);
    var open := UndisturbedRefresh(s, [service]);
    assert FindByMethod([service], target) == [service] by {
      assert [service][1..] == [];
      assert FindByMethod([], target) == [];
    }
    FirstCapture(new', request);
    hide Handle, Runs, RunsBytes;
    final := RpcTimeoutHidesTheStep(open, request, service, "camera");
    ReachesThrough(s, open, final);
  }

  lemma FirstCapture(s: CameraState, r: Request)
    requires s == CameraState(false, 0) && r.target == Qualified("camera", "capture") && r.params == None
    ensures Runs(CAMERA, r) && Handle(CAMERA, s, r).state == CameraState(true, 1)
  {
    CameraBindings("capture");
    QualifiedHasPrefix("camera", "capture");
    var fs := [Field("service", Str(SERVICE)), Field("exposure_ms", Int(10))];
    assert ValidateCapture(Obj([])) == Accepted(Obj(fs));
  }

  lemma {:induction false} RunAfterRun<S>(s: State<S>, one: seq<Action>, two: seq<Action>)
    ensures Run(s, one + two) == Run(Run(s, one), two)
    decreases two
  {
    if two == [] {
      assert one + two == one;
    } else {
      var n := |two| - 1;
      assert (one + two)[..|one + two| - 1] == one + two[..n];
      RunAfterRun(s, one, two[..n]);
    }
  }

  lemma ReachesThrough<S>(s: State<S>, middle: State<S>, final: State<S>)
    requires Reaches(s, middle) && Reaches(middle, final)
    ensures Reaches(s, final)
  {
    var one :| Run(s, one) == middle;
    var two :| Run(middle, two) == final;
    RunAfterRun(s, one, two);
  }
}
