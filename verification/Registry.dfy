/** The client side: loading descriptors, polling for a response, numbering calls. */
module Registry {
  import opened Prelude
  import opened Json
  import opened Names
  import opened Messages
  import opened Endpoint
  import opened Discovery

  // ---------------------------------------------------------------- loading descriptors

  /** How the steps of loading one descriptor go; a step fails by raising. */
  datatype Attempts = Attempts(
    openSchema: bool, cleanSchema: bool, schemaClient: bool, fetch: Read<Descriptor>,
    openRpc: bool, cleanRpc: bool, rpcClient: bool)
  {
    predicate AllSucceed() {
      openSchema && cleanSchema && schemaClient && fetch.Value? && openRpc && cleanRpc && rpcClient
    }
  }

  function Load(s: Service, a: Attempts): Service {
    if a.AllSucceed() then
      var d := a.fetch.value;
      s.(descriptor := Some(d), rpcService := Some(d.rpcEndpoint), client := Some(Client(d.rpcEndpoint)),
         methods := d.MethodNames())
    else s
  }

  function LoadAll(services: seq<Service>, attempts: seq<Attempts>): (r: seq<Service>)
    requires |services| == |attempts|
    ensures |r| == |services|
    ensures forall i :: 0 <= i < |r| ==> r[i] == Load(services[i], attempts[i])
  {
    seq(|services|, i requires 0 <= i < |services| => Load(services[i], attempts[i]))
  }

  /** Descriptor, service and client come together or not at all; the method list is
      the descriptor's if there is one and the advertised one otherwise. */
  predicate AllOrNothing(s: Service) {
    match s.descriptor
    case Some(d) =>
      s.rpcService == Some(d.rpcEndpoint) && s.client == Some(Client(d.rpcEndpoint)) && s.methods == d.MethodNames()
    case None =>
      s.rpcService == None && s.client == None && s.methods == Advertised(s.attributes)
  }

  class DiscoveredRpcService {
    const serviceName: string
    const controllerName: string
    const rpcEndpoint: string
    const schemaEndpoint: string
    const attributes: map<string, string>
    var methods: seq<string>
    var descriptor: Option<Descriptor>
    var rpcService: Option<string>
    var client: Option<Client>

    function View(): Service
      reads this
    {
      Service(serviceName, controllerName, rpcEndpoint, schemaEndpoint, methods, attributes, descriptor, rpcService, client)
    }

    constructor (s: Service)
      ensures View() == s
    {
      serviceName, controllerName := s.serviceName, s.controllerName;
      rpcEndpoint, schemaEndpoint, attributes := s.rpcEndpoint, s.schemaEndpoint, s.attributes;
      methods, descriptor, rpcService, client := s.methods, s.descriptor, s.rpcService, s.client;
    }
  }

  /** One try block per service: an exception anywhere leaves that service as it was. */
  method LoadAllDescriptors(services: seq<DiscoveredRpcService>, attempts: seq<Attempts>)
    requires |services| == |attempts|
    requires forall i, j :: 0 <= i < j < |services| ==> services[i] != services[j]
    modifies services
    ensures forall i :: 0 <= i < |services| ==> services[i].View() == Load(old(services[i].View()), attempts[i])
  {
    for i := 0 to |services|
      invariant forall j :: 0 <= j < i ==> services[j].View() == Load(old(services[j].View()), attempts[j])
      invariant forall j :: i <= j < |services| ==> services[j].View() == old(services[j].View())
    {
      var a := attempts[i];
      if !a.openSchema || !a.cleanSchema || !a.schemaClient || a.fetch.Fails? {
        continue;
      }
      var d := a.fetch.value;
      if !a.openRpc || !a.cleanRpc || !a.rpcClient {
        continue;
      }
      services[i].descriptor := Some(d);
      services[i].rpcService := Some(d.rpcEndpoint);
      services[i].client := Some(Client(d.rpcEndpoint));
      services[i].methods := d.MethodNames();
    }
  }

  /** A registry as `discover_all` builds it, whatever was listed and whatever failed. */
  ghost predicate BuiltByDiscovery(services: seq<Service>) {
    exists entries, attempts :: DiscoveredAs(services, entries, attempts)
  }

  ghost predicate DiscoveredAs(services: seq<Service>, entries: seq<Details>, attempts: seq<Attempts>) {
    var found := Collect([], entries);
    services == found || (|attempts| == |found| && services == LoadAll(found, attempts))
  }

  /** However often and with whatever failures descriptors are loaded, a service stays
      all-or-nothing and keeps its endpoints. */
  lemma LoadKeepsAllOrNothing(s: Service, a: Attempts)
    requires AllOrNothing(s)
    ensures AllOrNothing(Load(s, a))
    ensures Load(s, a).rpcEndpoint == s.rpcEndpoint && Load(s, a).schemaEndpoint == s.schemaEndpoint
    ensures Load(s, a).serviceName == s.serviceName && Load(s, a).controllerName == s.controllerName
    ensures Load(s, a).attributes == s.attributes
    ensures if a.openSchema && a.cleanSchema && a.schemaClient && a.fetch.Value? && a.openRpc && a.cleanRpc && a.rpcClient
            then Load(s, a).descriptor == Some(a.fetch.value)
            else Load(s, a) == s
  {
  }

  lemma DiscoveryIsAllOrNothing(services: seq<Service>)
    requires BuiltByDiscovery(services)
    ensures forall i :: 0 <= i < |services| ==> AllOrNothing(services[i])
    ensures DistinctEndpoints(services)
  {
    var entries, attempts :| DiscoveredAs(services, entries, attempts);
    var found := Collect([], entries);
    CollectIsExact(entries);
    forall i | 0 <= i < |found| ensures AllOrNothing(found[i]) {
      assert HasLastOffer(entries, found[i]);
    }
    assert forall i :: 0 <= i < |found| ==> services[i].rpcEndpoint == found[i].rpcEndpoint;
  }

  /** The services of a listing, with their descriptors loaded if that is attempted. */
  function BuiltServices(entries: seq<Details>, attempts: seq<Attempts>): seq<Service> {
    var found := Collect([], entries);
    if |attempts| == |found| then LoadAll(found, attempts) else found
  }

  /** A registry lists exactly the endpoints that some entry offers, each once; each
      service is what the last entry for its endpoint advertises, loaded if all goes well. */
  lemma BuiltServicesAreExact(entries: seq<Details>, attempts: seq<Attempts>)
    ensures var services := BuiltServices(entries, attempts);
            && DistinctEndpoints(services)
            && (forall endpoint :: Lists(services, endpoint) <==> exists i :: 0 <= i < |entries| && Offers(entries[i], endpoint))
            && forall k :: 0 <= k < |services| ==>
                 IsBuilt(entries, services[k], if |attempts| == |services| then Some(attempts[k]) else None)
  {
    CollectIsExact(entries);
    var found, services := Collect([], entries), BuiltServices(entries, attempts);
    hide Collect, Load, Recognise, Offers;
    forall k | 0 <= k < |found|
      ensures services[k].rpcEndpoint == found[k].rpcEndpoint
      ensures IsBuilt(entries, services[k], if |attempts| == |services| then Some(attempts[k]) else None)
    {
      if |attempts| == |found| {
        LoadedKeepsEndpoint(found[k], attempts[k]);
      }
      assert HasLastOffer(entries, found[k]);
    }
    forall endpoint ensures Lists(services, endpoint) <==> exists i :: 0 <= i < |entries| && Offers(entries[i], endpoint) {
      if Lists(services, endpoint) {
        var k :| 0 <= k < |services| && services[k].rpcEndpoint == endpoint;
        assert HasLastOffer(entries, found[k]);
        var i: nat :| IsLastOffer(entries, i, found[k]);
        OfferedByLast(entries[i], found[k]);
      }
      if i :| 0 <= i < |entries| && Offers(entries[i], endpoint) {
        assert Lists(found, endpoint);
        var k :| 0 <= k < |found| && found[k].rpcEndpoint == endpoint;
        assert services[k].rpcEndpoint == endpoint;
      }
    }
  }

  ghost predicate IsBuilt(entries: seq<Details>, s: Service, attempt: Option<Attempts>) {
    exists found :: HasLastOffer(entries, found) && s == match attempt case Some(a) => Load(found, a) case None => found
  }

  lemma OfferedByLast(d: Details, s: Service)
    requires Recognise(d) == Some(s)
    ensures Offers(d, s.rpcEndpoint)
  {
  }

  lemma LoadedKeepsEndpoint(s: Service, a: Attempts)
    ensures Load(s, a).rpcEndpoint == s.rpcEndpoint
  {
  }

  // ---------------------------------------------------------------- honest servers

  /** `_rpc_attributes` */
  function RpcAttributes<S>(c: Controller<S>): seq<(string, string)> {
    [("rpc.protocol", "jsonrpc-2.0"), ("rpc.service", c.service), ("rpc.controller", c.name), ("rpc.kind", "rpc"),
     ("rpc.schema", c.SchemaEndpoint()), ("rpc.methods", Join(c.QualifiedNames(), ','))]
  }

  function DescriptorOf<S>(c: Controller<S>): Descriptor {
    Descriptor(c.service, c.name, c.RpcEndpoint(), c.SchemaEndpoint(),
               seq(|c.bindings|, i requires 0 <= i < |c.bindings| =>
                 MethodDescriptor(c.bindings[i].name, Qualified(c.name, c.bindings[i].name))))
  }

  function HonestDetails<S>(c: Controller<S>): Details {
    Details(Value(true), Value(RpcAttributes(c)), Value(c.RpcEndpoint()))
  }

  lemma RpcAttributesRead<S>(c: Controller<S>)
    ensures var attrs := Dict(RpcAttributes(c));
            && Get(attrs, "rpc.protocol") == "jsonrpc-2.0" && Get(attrs, "rpc.kind") == "rpc"
            && Get(attrs, "rpc.service") == c.service && Get(attrs, "rpc.controller") == c.name
            && Get(attrs, "rpc.schema") == c.SchemaEndpoint()
            && Get(attrs, "rpc.methods") == Join(c.QualifiedNames(), ',')
  {
    var pairs := RpcAttributes(c);
    assert "rpc.service"[4] == 's' && "rpc.methods"[4] == 'm';
    DictKeepsLast(pairs, 0);
    DictKeepsLast(pairs, 1);
    DictKeepsLast(pairs, 2);
    DictKeepsLast(pairs, 3);
    DictKeepsLast(pairs, 4);
    DictKeepsLast(pairs, 5);
  }

  /** A server is discovered under its own names, and loading its descriptor leaves the
      method list as it was advertised exactly when no method name contains a comma. */
  lemma LoadingHonestServerChangesNothingIff<S>(c: Controller<S>, a: Attempts)
    requires a.AllSucceed() && a.fetch == Value(DescriptorOf(c))
    ensures Recognise(HonestDetails(c)).Some?
    ensures var s := Recognise(HonestDetails(c)).value;
            && s.serviceName == c.service && s.controllerName == c.name
            && s.rpcEndpoint == c.RpcEndpoint() && s.schemaEndpoint == c.SchemaEndpoint()
            && Load(s, a).methods == c.QualifiedNames()
            && Load(s, a).client == Some(Client(s.rpcEndpoint))
            && (Load(s, a).methods == s.methods <==> forall n :: n in c.QualifiedNames() ==> ',' !in n)
  {
    RpcAttributesRead(c);
    assert |c.SchemaEndpoint()| > 0;
    AdvertisedListSurvivesIff(c.name, c.LocalNames());
    assert DescriptorOf(c).MethodNames() == c.QualifiedNames();
  }

  // ---------------------------------------------------------------- polling

  datatype Poll = Nothing | Arrived(payload: seq<byte>) | PollFails(exc: Exc)

  /** The clock, the pending response and the wait, read once per turn. */
  datatype Pending = Pending(now: nat -> nat, poll: nat -> Poll, wait: nat -> Option<Exc>)

  datatype Reply = Delivered(payload: seq<byte>) | Expired | Broken(exc: Exc)

  lemma {:induction false} ClockAdvances(now: nat -> nat, tick: nat, j: nat, k: nat)
    requires Advances(now, tick) && j <= k
    ensures now(j) + (k - j) * tick <= now(k)
    ensures now(j) <= now(k)
    decreases k - j
  {
    if j < k {
      ClockAdvances(now, tick, j, k - 1);
      assert now(k - 1) + tick <= now(k - 1 + 1);
      assert (k - j) * tick == (k - 1 - j) * tick + tick;
    }
  }

  lemma PollsAreBounded(now: nat -> nat, tick: nat, start: nat, timeout: nat, polls: nat)
    requires Advances(now, tick) && start <= now(0)
    requires polls > 0 && now(polls - 1) < start + timeout
    ensures polls * tick < timeout + tick
  {
    ClockAdvances(now, tick, 0, polls - 1);
    assert polls * tick == (polls - 1) * tick + tick;
  }

  /** Polls until the deadline.  The response returned is the first one a poll made
      before the deadline sees; it times out exactly when there is none; and there are
      at most ceil(timeout / tick) polls. */
  method RequestBytes(p: Pending, start: nat, timeout: nat, ghost tick: nat) returns (r: Reply, polls: nat)
    requires Advances(p.now, tick) && start <= p.now(0)
    ensures polls * tick < timeout + tick
    ensures forall j :: 0 <= j < polls - 1 ==> p.poll(j) == Nothing && p.wait(j) == None
    ensures r.Expired? <==> forall j: nat :: p.now(j) < start + timeout ==> p.poll(j) == Nothing && p.wait(j) == None
    ensures match r
            case Delivered(payload) =>
              polls > 0 && p.now(polls - 1) < start + timeout && p.poll(polls - 1) == Arrived(payload)
            case Broken(exc) =>
              && polls > 0 && p.now(polls - 1) < start + timeout
              && (p.poll(polls - 1) == PollFails(exc) || (p.poll(polls - 1) == Nothing && p.wait(polls - 1) == Some(exc)))
            case Expired => start + timeout <= p.now(polls) && (polls > 0 ==> p.now(polls - 1) < start + timeout)
  {
    var deadline := start + timeout;
    polls := 0;
    while p.now(polls) < deadline
      invariant forall j :: 0 <= j < polls ==> p.poll(j) == Nothing && p.wait(j) == None
      invariant polls > 0 ==> p.now(polls - 1) < deadline
      decreases deadline - p.now(polls)
    {
      var turn := polls;
      polls := polls + 1;
      PollsAreBounded(p.now, tick, start, timeout, polls);
      match p.poll(turn)
      case PollFails(exc) => return Broken(exc), polls;
      case Arrived(payload) => return Delivered(payload), polls;
      case Nothing =>
        if p.wait(turn).Some? {
          return Broken(p.wait(turn).value), polls;
        }
    }
    r := Expired;
    if polls > 0 {
      PollsAreBounded(p.now, tick, start, timeout, polls);
    }
    forall j: nat | p.now(j) < deadline ensures j < polls {
      if polls <= j {
        ClockAdvances(p.now, tick, polls, j);
      }
    }
  }

  // ---------------------------------------------------------------- calls

  /** A request put on the wire, and the client port it went through. */
  datatype Wire = Wire(client: Client, payload: seq<byte>)

  datatype CallResult = Responded(response: Response) | CallRaised(exc: Exc)

  const NO_CLIENT := Error("Service has no opened RPC client")
  const TIMED_OUT := Error("Timed out waiting for iceoryx2 response")
  const INVALID_RESPONSE := Error("ValidationError")

  function WireRequest(number: int, target: string, params: Option<seq<Field>>): Request {
    Request(IntId(number), target, Some(ParamsOf(params)))
  }

  function Finish(r: Reply): CallResult {
    match r
    case Broken(exc) => CallRaised(exc)
    case Expired => CallRaised(TIMED_OUT)
    case Delivered(payload) =>
      match DecodeResponse(payload)
      case Some(response) => Responded(response)
      case None => CallRaised(INVALID_RESPONSE)
  }

  /** Turn k is the first that sees something or whose wait raises, and it begins before
      the deadline. */
  predicate IsFirstEvent(p: Pending, deadline: nat, k: nat) {
    && p.now(k) < deadline && !(p.poll(k) == Nothing && p.wait(k) == None)
    && forall j :: 0 <= j < k ==> p.poll(j) == Nothing && p.wait(j) == None
  }

  /** What a call makes of turn k: the response that arrived, if it is one, or the exception. */
  predicate EndsWith(p: Pending, k: nat, r: CallResult) {
    match p.poll(k)
    case Arrived(payload) =>
      (match DecodeResponse(payload)
       case Some(response) => r == Responded(response)
       case None => r == CallRaised(INVALID_RESPONSE))
    case PollFails(exc) => r == CallRaised(exc)
    case Nothing => p.wait(k).Some? && r == CallRaised(p.wait(k).value)
  }

  /** A call ends with the first event before the deadline, and times out if there is none. */
  ghost predicate EndsAsPolled(p: Pending, deadline: nat, r: CallResult) {
    && (forall k: nat :: IsFirstEvent(p, deadline, k) ==> EndsWith(p, k, r))
    && ((forall k: nat :: !IsFirstEvent(p, deadline, k)) ==> r == CallRaised(TIMED_OUT))
  }

  /** The request on the wire is read as this number, method and parameters. */
  predicate Carries(w: Wire, number: int, target: string, params: Option<seq<Field>>) {
    DecodeRequest(w.payload) ==
    Some(Request(IntId(number), target, Some(match params case Some(members) => members case None => [])))
  }

  /** The number a request carries on the wire; 0 if it carries none. */
  function WireNumber(w: Wire): int {
    match DecodeRequest(w.payload)
    case Some(Request(IntId(n), _, _)) => n
    case _ => 0
  }

  /** The numbers on the wire ascend and never exceed the counter. */
  ghost predicate NumbersAscend(sent: seq<Wire>, counter: int) {
    && |sent| <= counter
    && (forall i :: 0 <= i < |sent| ==> i < WireNumber(sent[i]) <= counter)
    && forall i, j :: 0 <= i < j < |sent| ==> WireNumber(sent[i]) < WireNumber(sent[j])
  }

  /** A registry whose calls were all sent has numbered them 1, 2, 3, ... */
  lemma {:induction false} CompleteNumbersAreConsecutive(sent: seq<Wire>, counter: int, i: nat)
    requires NumbersAscend(sent, counter) && |sent| == counter && i < |sent|
    ensures WireNumber(sent[i]) == i + 1
    decreases |sent| - i
  {
    hide WireNumber;
    if i + 1 < |sent| {
      CompleteNumbersAreConsecutive(sent, counter, i + 1);
    }
  }

  /** Polling ends with the first event before the deadline, if there is one. */
  lemma PollsAreTheFirstEvent(p: Pending, deadline: nat, tick: nat, reply: Reply, polls: nat)
    requires Advances(p.now, tick)
    requires forall j :: 0 <= j < polls - 1 ==> p.poll(j) == Nothing && p.wait(j) == None
    requires reply.Expired? <==> forall j: nat :: p.now(j) < deadline ==> p.poll(j) == Nothing && p.wait(j) == None
    requires match reply
             case Delivered(payload) => polls > 0 && p.now(polls - 1) < deadline && p.poll(polls - 1) == Arrived(payload)
             case Broken(exc) =>
               && polls > 0 && p.now(polls - 1) < deadline
               && (p.poll(polls - 1) == PollFails(exc) || (p.poll(polls - 1) == Nothing && p.wait(polls - 1) == Some(exc)))
             case Expired => true
    ensures EndsAsPolled(p, deadline, Finish(reply))
  {
    hide DecodeResponse;
    if !reply.Expired? {
      var last := polls - 1;
      assert IsFirstEvent(p, deadline, last);
      forall k: nat | IsFirstEvent(p, deadline, k) ensures k == last {
      }
    }
  }

  /** Polls for the response and reads it. */
  method AwaitResponse(p: Pending, start: nat, timeout: nat, ghost tick: nat) returns (r: CallResult)
    requires Advances(p.now, tick) && start <= p.now(0)
    ensures EndsAsPolled(p, start + timeout, r)
  {
    hide EndsAsPolled, Finish;
    var reply, polls := RequestBytes(p, start, timeout, tick);
    r := Finish(reply);
    PollsAreTheFirstEvent(p, start + timeout, tick, reply, polls);
  }

  lemma NextNumberAscends(sent: seq<Wire>, counter: int, wire: Wire)
    requires NumbersAscend(sent, counter)
    ensures NumbersAscend(sent, counter + 1)
    ensures WireNumber(wire) == counter + 1 ==> NumbersAscend(sent + [wire], counter + 1)
  {
    hide WireNumber;
  }

  class Iox2RpcRegistry {
    var requestCounter: int
    var sent: seq<Wire>

    constructor ()
      ensures requestCounter == 0 && sent == []
    {
      requestCounter, sent := 0, [];
    }

    /** One call used sequentially: no client, no effect; otherwise a new number, and
        the request goes out once, unless loaning or sending raises. */
    method Call(
        service: Service, target: string, params: Option<seq<Field>>,
        sendFault: Option<Exc>, pending: Pending, start: nat, timeout: nat, ghost tick: nat)
      returns (r: CallResult)
      requires Advances(pending.now, tick) && start <= pending.now(0)
      requires NumbersAscend(sent, requestCounter)
      modifies this
      ensures NumbersAscend(sent, requestCounter)
      ensures service.client == None ==> r == CallRaised(NO_CLIENT) && unchanged(this)
      ensures service.client.Some? ==>
                && requestCounter == old(requestCounter) + 1
                && (sendFault.Some? ==> sent == old(sent) && r == CallRaised(sendFault.value))
                && (sendFault == None ==>
                      && |sent| == |old(sent)| + 1 && sent[..|old(sent)|] == old(sent)
                      && sent[|old(sent)|].client == service.client.value
                      && Carries(sent[|old(sent)|], requestCounter, target, params))
      ensures service.client.Some? && sendFault == None ==> EndsAsPolled(pending, start + timeout, r)
    {
      if service.client == None {
        return CallRaised(NO_CLIENT);
      }
      requestCounter := requestCounter + 1;
      hide EndsAsPolled, DecodeRequest, EncodeRequest, DecodeResponse, Finish, NumbersAscend;
      var request := WireRequest(requestCounter, target, params);
      RequestRoundTrip(request);
      NextNumberAscends(sent, requestCounter - 1, Wire(service.client.value, EncodeRequest(request)));
      if sendFault.Some? {
        return CallRaised(sendFault.value);
      }
      var wire := Wire(service.client.value, EncodeRequest(request));
      assert Carries(wire, requestCounter, target, params);
      assert WireNumber(wire) == requestCounter;
      hide Carries, WireNumber;
      sent := sent + [wire];
      r := AwaitResponse(pending, start, timeout, tick);
    }
  }
}
