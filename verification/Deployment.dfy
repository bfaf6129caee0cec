/** The system deployed as intended: every server is listed under its own names and hands
    out its own descriptor.  Then a call reaches the controller it names. */
module Deployment {
  import opened Prelude
  import opened Messages
  import opened Sessions
  import opened Endpoint
  import opened Discovery
  import opened Registry
  import opened Gateway
  import opened System
  import opened Interleavings
  import opened Histories
  import opened Guarantees

  // ---------------------------------------------------------------- honest listings

  /** Every server is at the endpoint its controller is named after. */
  ghost predicate AtTheirEndpoints<S>(servers: map<string, Slot<S>>) {
    forall e :: e in servers ==> servers[e].controller.RpcEndpoint() == e
  }

  /** The service is that of a server, under its names; with a client, it has that
      server's methods too. */
  ghost predicate IsHonest<S>(servers: map<string, Slot<S>>, service: Service) {
    && service.rpcEndpoint in servers
    && var c := servers[service.rpcEndpoint].controller;
       && service.controllerName == c.name && service.serviceName == c.service
       && (service.client.Some? ==>
             service.client == Some(Client(service.rpcEndpoint)) && service.methods == c.QualifiedNames())
  }

  /** The entry is one that is skipped, or what some server advertises. */
  ghost predicate IsHonestEntry<S>(servers: map<string, Slot<S>>, d: Details) {
    Recognise(d) == None || exists e :: e in servers && d == HonestDetails(servers[e].controller)
  }

  /** Whatever descriptor is fetched for a service is that of its server. */
  ghost predicate FetchesTheirs<S>(servers: map<string, Slot<S>>, services: seq<Service>, attempts: seq<Attempts>) {
    forall i :: 0 <= i < |services| && i < |attempts| && services[i].rpcEndpoint in servers && attempts[i].AllSucceed() ==>
      attempts[i].fetch == Value(DescriptorOf(servers[services[i].rpcEndpoint].controller))
  }

  /** The factory finds servers as they are; any listing, loading or building may fail. */
  ghost predicate IsHonestFactory<S>(servers: map<string, Slot<S>>, f: Factory) {
    match f
    case Discovers(entries, attempts) =>
      && (forall i :: 0 <= i < |entries| ==> IsHonestEntry(servers, entries[i]))
      && FetchesTheirs(servers, Collect([], entries), attempts)
    case Custom(services) => forall i :: 0 <= i < |services| ==> IsHonest(servers, services[i])
    case _ => true
  }

  ghost predicate ListsHonest<S>(servers: map<string, Slot<S>>, b: Board) {
    forall r :: 0 <= r < |b.registries| ==> AreHonest(servers, b.registries[r].services)
  }

  ghost predicate AreHonest<S>(servers: map<string, Slot<S>>, services: seq<Service>) {
    forall i :: 0 <= i < |services| ==> IsHonest(servers, services[i])
  }

  /** Recognising what a server advertises gives its names; loading its own descriptor
      adds its client and its methods. */
  lemma RecognisedIsHonest<S>(servers: map<string, Slot<S>>, d: Details, a: Attempts)
    requires AtTheirEndpoints(servers) && IsHonestEntry(servers, d) && Recognise(d).Some?
    requires var s := Recognise(d).value;
             s.rpcEndpoint in servers && a.AllSucceed() ==>
               a.fetch == Value(DescriptorOf(servers[s.rpcEndpoint].controller))
    ensures IsHonest(servers, Recognise(d).value) && IsHonest(servers, Load(Recognise(d).value, a))
  {
    var e :| e in servers && d == HonestDetails(servers[e].controller);
    var c := servers[e].controller;
    RpcAttributesRead(c);
    hide Dict, RpcAttributes, Advertised;
    assert DescriptorOf(c).MethodNames() == c.QualifiedNames();
  }

  lemma DiscoveryIsHonest<S>(servers: map<string, Slot<S>>, entries: seq<Details>, attempts: seq<Attempts>)
    requires AtTheirEndpoints(servers) && IsHonestFactory(servers, Discovers(entries, attempts))
    ensures AreHonest(servers, BuiltServices(entries, attempts))
  {
    var found := Collect([], entries);
    CollectIsExact(entries);
    hide Recognise, IsHonestEntry, IsHonest, Load, Collect;
    forall i | 0 <= i < |found|
      ensures IsHonest(servers, found[i])
      ensures |attempts| == |found| ==> IsHonest(servers, Load(found[i], attempts[i]))
    {
      assert HasLastOffer(entries, found[i]);
      var k: nat :| IsLastOffer(entries, k, found[i]);
      RecognisedIsHonest(servers, entries[k], if |attempts| == |found| then attempts[i] else NOTHING_SUCCEEDS);
    }
  }

  const NOTHING_SUCCEEDS := Attempts(false, false, false, Fails, false, false, false)

  lemma NextKeepsHonest<S>(servers: map<string, Slot<S>>, s: State<S>, a: Action)
    requires AtTheirEndpoints(servers) && ListsHonest(servers, s.board)
    requires BuildsBy(s, a, (f: Factory) => IsHonestFactory(servers, f))
    ensures ListsHonest(servers, Next(s, a).board)
  {
    hide AreHonest, AtTheirEndpoints, CallStep, HandleBytes, BuiltServices, Apply, StatusOf;
    if a.Advance? && a.thread < |s.threads| {
      match s.threads[a.thread]
      case CallThread(call, pc) => CallKeepsRegistries(s.board, a.thread, call, pc, a.fault);
      case RefreshThread(stage) =>
        if stage == Building {
          BuildKeepsHonest(servers, s.board, a.factory);
          BuildingBuilds(s, a, a.thread);
        }
    }
  }

  lemma BuildKeepsHonest<S>(servers: map<string, Slot<S>>, b: Board, f: Factory)
    requires AtTheirEndpoints(servers) && ListsHonest(servers, b) && IsHonestFactory(servers, f)
    ensures ListsHonest(servers, Build(b, f).0)
  {
    hide AtTheirEndpoints, IsHonest, BuiltServices;
    if f.Discovers? {
      DiscoveryIsHonest(servers, f.entries, f.attempts);
    }
  }

  lemma {:induction false} RunKeepsHonest<S>(servers: map<string, Slot<S>>, s: State<S>, actions: seq<Action>)
    requires AtTheirEndpoints(servers) && Initial(s)
    requires FactoriesAre(s, actions, (f: Factory) => IsHonestFactory(servers, f))
    ensures ListsHonest(servers, Run(s, actions).board)
    decreases actions
  {
    if actions != [] {
      var kind := (f: Factory) => IsHonestFactory(servers, f);
      FactoriesOfFront(s, actions, kind);
      hide ListsHonest, AtTheirEndpoints, IsHonestFactory, Next;
      RunKeepsHonest(servers, s, actions[..|actions| - 1]);
      NextKeepsHonest(servers, Run(s, actions[..|actions| - 1]), actions[|actions| - 1]);
    }
  }

  // ---------------------------------------------------------------- calls reach what they name

  /** Locally, method-not-found means exactly that the descriptor does not list the method. */
  lemma NotFoundIff<S>(c: Controller<S>, s: S, r: Request)
    requires Handle(c, s, r).answer.Reply?
    ensures Handle(c, s, r).answer.response.Fails(METHOD_NOT_FOUND) <==> r.target !in c.QualifiedNames()
  {
    var names := c.QualifiedNames();
    if c.name + "." <= r.target {
      PrefixMeansQualified(c.name, r.target);
      var local := r.target[|c.name + "."|..];
      forall i | 0 <= i < |c.bindings| ensures names[i] == r.target <==> c.bindings[i].name == local {
        QualifiedHasPrefix(c.name, c.bindings[i].name);
      }
      var found := FindBinding(c.bindings, local);
      if found.Some? {
        var i :| 0 <= i < |c.bindings| && c.bindings[i] == found.value;
        assert names[i] == r.target;
      }
    } else {
      forall i | 0 <= i < |c.bindings| ensures names[i] != r.target {
        QualifiedHasPrefix(c.name, c.bindings[i].name);
      }
    }
  }

  /** The controller is one the call names, as far as it names one. */
  predicate IsNamedBy<S>(c: Controller<S>, call: Call) {
    match call
    case RpcCall(request) => request.target in c.QualifiedNames()
    case _ => c.name == call.controller && (call.serviceName.Some? ==> c.service == call.serviceName.value)
  }

  /** A selected honest service with a client is that of a controller the call names. */
  lemma SelectedIsNamed<S>(servers: map<string, Slot<S>>, services: seq<Service>, call: Call, service: Service)
    requires AreHonest(servers, services) && call.Candidates(services) == [service] && service.client.Some?
    ensures service.rpcEndpoint in servers && service.client == Some(Client(service.rpcEndpoint))
    ensures IsNamedBy(servers[service.rpcEndpoint].controller, call)
  {
    assert service in call.Candidates(services);
    var i :| 0 <= i < |services| && services[i] == service;
    assert IsHonest(servers, services[i]);
  }

  /** Deployed as intended, and in every interleaving, an answered call was handled by a
      server whose controller is the one it names, and it is told method-not-found if and
      only if that controller has no such method; an answered `call_rpc` never is. */
  lemma NamedControllerAnswers<S>(s: State<S>, actions: seq<Action>, t: nat)
    requires Initial(s) && AtTheirEndpoints(s.servers)
    requires FactoriesAre(s, actions, (f: Factory) => IsHonestFactory(s.servers, f))
    requires IsAnswered(Run(s, actions), t)
    ensures var final := Run(s, actions);
            var CallThread(call, pc) := final.threads[t];
            && pc.ending.handle < |final.board.wire|
            && final.board.wire[pc.ending.handle].endpoint in s.servers
            && var c := s.servers[final.board.wire[pc.ending.handle].endpoint].controller;
               && IsNamedBy(c, call)
               && (pc.response.Fails(METHOD_NOT_FOUND) <==> call.Target() !in c.QualifiedNames())
               && (call.RpcCall? ==> !pc.response.Fails(METHOD_NOT_FOUND))
  {
    hide Run, StateOk, ListsHonest, IsHonestFactory, AtTheirEndpoints, LookedUp, HandledAs, IsNamedBy;
    var final := Run(s, actions);
    var CallThread(call, pc) := final.threads[t];
    RemoteRefinesLocal(s, actions, t);
    RunKeepsHonest(s.servers, s, actions);
    EveryRunIsOk(s, actions);
    var endpoint := final.board.wire[pc.ending.handle].endpoint;
    RouteIsHonest(s.servers, final, t);
    var c := s.servers[endpoint].controller;
    HandledAsListed(c, s.servers[endpoint].state, final.board.wire, final.servers[endpoint].handled,
                    pc.ending.handle, call, pc.response);
    if call.RpcCall? {
      NamedMethodIsListed(c, call);
    }
  }

  lemma NamedMethodIsListed<S>(c: Controller<S>, call: Call)
    requires IsNamedBy(c, call) && call.RpcCall?
    ensures call.Target() in c.QualifiedNames()
  {
  }

  lemma RouteIsHonest<S>(servers: map<string, Slot<S>>, s: State<S>, t: nat)
    requires ListsHonest(servers, s.board) && StateOk(s) && IsAnswered(s, t)
    ensures var pc := s.threads[t].pc;
            && pc.ending.handle < |s.board.wire|
            && s.board.wire[pc.ending.handle].endpoint in servers
            && IsNamedBy(servers[s.board.wire[pc.ending.handle].endpoint].controller, s.threads[t].call)
  {
    hide ServersOk, BoardOk, RequestPayload, AnswerFrom, AreHonest, IsNamedBy;
    assert ThreadOk(s.board, t, s.threads[t]);
    var CallThread(call, pc) := s.threads[t];
    var route := pc.ending.route;
    SelectedIsNamed(servers, s.board.registries[route.found].services, call, route.service);
  }

  lemma HandledAsListed<S>(
      c: Controller<S>, origin: S, wire: seq<Message>, handled: seq<nat>, h: nat, call: Call, response: Response)
    requires HandledAs(c, origin, wire, handled, h, call, response)
    ensures response.Fails(METHOD_NOT_FOUND) <==> call.Target() !in c.QualifiedNames()
  {
    hide Handle;
    var i :| 0 <= i < |handled| && handled[i] == h && LocalStep(c, origin, wire, handled, i, call).answer == Reply(response);
    NotFoundIff(c, RunAll(Handler(c), origin, PayloadsAt(wire, handled)[..i]).state, LocalRequest(call));
  }
}
