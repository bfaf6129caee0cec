/** The gateway: what its lock protects, how it picks a service, and what it sends. */
module Gateway {
  import opened Prelude
  import opened Json
  import opened Names
  import opened Messages
  import opened Endpoint
  import opened Discovery
  import opened Registry

  // ---------------------------------------------------------------- refresh

  /** What building a registry gives; a custom factory may return None. */
  datatype Commit<+R> = Good(registry: Option<R>) | Bad(message: string)

  /** The fields the lock protects. */
  datatype Shared<+R> = Shared(registry: Option<R>, lastError: Option<string>, refreshCount: nat)

  datatype Status = Status(ok: bool, refreshCount: nat, serviceCount: nat, lastError: Option<string>)

  /** One lock section of `refresh`. */
  function Apply<R>(s: Shared<R>, c: Commit<R>): Shared<R> {
    match c
    case Good(registry) => Shared(registry, None, s.refreshCount + 1)
    case Bad(message) => Shared(s.registry, Some(message), s.refreshCount + 1)
  }

  function StatusOf<R>(s: Shared<R>, size: R -> nat): Status {
    Status(s.lastError == None, s.refreshCount, if s.registry.Some? then size(s.registry.value) else 0, s.lastError)
  }

  class DynamicRpcGateway<R> {
    var registry: Option<R>
    var lastError: Option<string>
    var refreshCount: nat
    /** The lock sections of `refresh` so far. */
    ghost var commits: seq<Commit<R>>

    ghost predicate Valid()
      reads this
    {
      View() == Replay(commits)
    }

    function View(): Shared<R>
      reads this
    {
      Shared(registry, lastError, refreshCount)
    }

    constructor ()
      ensures Valid() && commits == [] && View() == Shared(None, None, 0)
    {
      registry, lastError, refreshCount := None, None, 0;
      commits := [];
    }

    method StatusNow(size: R -> nat) returns (status: Status)
      requires Valid()
      ensures status == StatusOf(View(), size) && Tells(commits, size, status)
    {
      var serviceCount := if registry.Some? then size(registry.value) else 0;
      status := Status(lastError == None, refreshCount, serviceCount, lastError);
      StatusTells(commits, size);
    }

    method Refresh(built: Commit<R>, size: R -> nat) returns (status: Status)
      requires Valid()
      modifies this
      ensures Valid() && commits == old(commits) + [built]
      ensures View() == Apply(old(View()), built)
      ensures status == StatusOf(View(), size) && Tells(commits, size, status)
    {
      ReplayExtends(commits, built);
      commits := commits + [built];
      hide Replay;
      match built {
        case Bad(message) =>
          lastError := Some(message);
          refreshCount := refreshCount + 1;
          status := StatusNow(size);
          return;
        case Good(r) =>
          registry := r;
          lastError := None;
          refreshCount := refreshCount + 1;
      }
      status := StatusNow(size);
    }
  }

  /** The lock sections in the order in which the lock was taken. */
  function Replay<R>(commits: seq<Commit<R>>): Shared<R> {
    if commits == [] then Shared(None, None, 0)
    else Apply(Replay(commits[..|commits| - 1]), commits[|commits| - 1])
  }

  /** The index of the latest successful commit. */
  predicate IsLatestGood<R>(commits: seq<Commit<R>>, k: nat) {
    k < |commits| && commits[k].Good? && forall j :: k < j < |commits| ==> commits[j].Bad?
  }

  /** The counter counts the commits; `ok` holds exactly when the latest commit, if any,
      succeeded; the registry is the one of the latest successful commit, so a failed
      refresh never loses it. */
  lemma {:induction false} CommitsAccount<R>(commits: seq<Commit<R>>)
    ensures var s := Replay(commits);
            && s.refreshCount == |commits|
            && (s.lastError == None <==> commits == [] || commits[|commits| - 1].Good?)
            && (forall k: nat :: IsLatestGood(commits, k) ==> s.registry == commits[k].registry)
            && (s.registry.Some? ==> exists k: nat :: IsLatestGood(commits, k))
  {
    if commits != [] {
      var n := |commits| - 1;
      CommitsAccount(commits[..n]);
      if commits[n].Good? {
        assert IsLatestGood(commits, n);
      } else {
        forall k: nat | IsLatestGood(commits, k) ensures Replay(commits).registry == commits[k].registry {
          assert IsLatestGood(commits[..n], k);
        }
        if Replay(commits).registry.Some? {
          var k: nat :| IsLatestGood(commits[..n], k);
          assert IsLatestGood(commits, k);
        }
      }
    }
  }

  /** What a status tells about the commits so far: whether the latest succeeded, how many
      there were, how large the registry of the latest good one is, and what the latest
      failed with. */
  ghost predicate Tells<R>(commits: seq<Commit<R>>, size: R -> nat, status: Status) {
    && (status.ok <==> commits == [] || commits[|commits| - 1].Good?)
    && status.refreshCount == |commits|
    && (forall k: nat :: IsLatestGood(commits, k) ==>
          status.serviceCount == match commits[k].registry case Some(r) => size(r) case None => 0)
    && ((forall k :: 0 <= k < |commits| ==> commits[k].Bad?) ==> status.serviceCount == 0)
    && (if commits != [] && commits[|commits| - 1].Bad?
        then status.lastError == Some(commits[|commits| - 1].message) else status.lastError == None)
  }

  /** The status tells what the commits were. */
  lemma StatusTells<R>(commits: seq<Commit<R>>, size: R -> nat)
    ensures Tells(commits, size, StatusOf(Replay(commits), size))
  {
    CommitsAccount(commits);
    LastErrorIsLatest(commits);
    hide Replay;
    if forall k :: 0 <= k < |commits| ==> commits[k].Bad? {
      assert forall k: nat :: !IsLatestGood(commits, k);
    }
  }

  lemma LastErrorIsLatest<R>(commits: seq<Commit<R>>)
    ensures Replay(commits).lastError
            == if commits != [] && commits[|commits| - 1].Bad? then Some(commits[|commits| - 1].message) else None
  {
  }

  lemma {:induction false} LatestGoodExists<R>(commits: seq<Commit<R>>, j: nat)
    requires j < |commits| && commits[j].Good?
    ensures exists k: nat :: IsLatestGood(commits, k)
    decreases |commits| - j
  {
    if !IsLatestGood(commits, j) {
      var later :| j < later < |commits| && commits[later].Good?;
      LatestGoodExists(commits, later);
    }
  }

  lemma ReplayExtends<R>(commits: seq<Commit<R>>, c: Commit<R>)
    ensures Replay(commits + [c]) == Apply(Replay(commits), c)
  {
    assert (commits + [c])[..|commits|] == commits;
  }

  // ---------------------------------------------------------------- choosing a service

  /** The names match; a service name counts only if one is given. */
  predicate Matches(s: Service, controller: string, serviceName: Option<string>): (r: bool)
    ensures r <==> s.controllerName == controller && (serviceName == None || serviceName == Some(s.serviceName))
  {
    s.controllerName == controller && (serviceName.Some? ==> s.serviceName == serviceName.value)
  }

  function Matching(services: seq<Service>, controller: string, serviceName: Option<string>): (r: seq<Service>)
    ensures forall s :: s in r <==> s in services && Matches(s, controller, serviceName)
  {
    if services == [] then []
    else if Matches(services[0], controller, serviceName)
    then [services[0]] + Matching(services[1..], controller, serviceName)
    else Matching(services[1..], controller, serviceName)
  }

  lemma MatchingFrom(services: seq<Service>, i: nat, controller: string, serviceName: Option<string>)
    requires i < |services|
    ensures Matching(services[i..], controller, serviceName)
            == (if Matches(services[i], controller, serviceName) then [services[i]] else [])
               + Matching(services[i + 1..], controller, serviceName)
  {
    assert services[i..][0] == services[i] && services[i..][1..] == services[i + 1..];
    assert [] + Matching(services[i + 1..], controller, serviceName) == Matching(services[i + 1..], controller, serviceName);
  }

  method MatchingServices(services: seq<Service>, controller: string, serviceName: Option<string>)
    returns (matches: seq<Service>)
    ensures matches == Matching(services, controller, serviceName)
  {
    matches := [];
    for i := 0 to |services|
      invariant matches + Matching(services[i..], controller, serviceName) == Matching(services, controller, serviceName)
    {
      MatchingFrom(services, i, controller, serviceName);
      hide Matching;
      if services[i].controllerName != controller {
        continue;
      }
      if serviceName.Some? && services[i].serviceName != serviceName.value {
        continue;
      }
      matches := matches + [services[i]];
    }
  }

  function FindByMethod(services: seq<Service>, name: string): (r: seq<Service>)
    ensures forall s :: s in r <==> s in services && name in s.methods
  {
    if services == [] then []
    else if name in services[0].methods then [services[0]] + FindByMethod(services[1..], name)
    else FindByMethod(services[1..], name)
  }

  /** The three ways to call through the gateway. */
  datatype Call =
    | MethodCall(controller: string, name: string, params: Option<seq<Field>>, serviceName: Option<string>, requestId: Id)
    | ControllerCall(controller: string, request: Request, serviceName: Option<string>)
    | RpcCall(request: Request)
  {
    function CallerId(): Id {
      if MethodCall? then requestId else request.id
    }

    /** The method name that is sent. */
    function Target(): string {
      match this
      case MethodCall(_, _, _, _, _) => Qualified(controller, name)
      case ControllerCall(_, _, _) =>
        if '.' !in request.target then Qualified(controller, request.target) else request.target
      case RpcCall(_) => request.target
    }

    /** The parameters that are sent. */
    function SentParams(): seq<Field> {
      ParamsOf(if MethodCall? then params else request.params)
    }

    /** The services the call may go to. */
    function Candidates(services: seq<Service>): seq<Service> {
      match this
      case RpcCall(_) => FindByMethod(services, request.target)
      case _ => Matching(services, controller, serviceName)
    }

    /** The answer when there is not exactly one candidate. */
    function SelectionFailure(matches: seq<Service>): Response {
      var message :=
        match this
        case RpcCall(request) =>
          if matches == [] then "No discovered service provides method: " + request.target
          else "Method " + Quote(request.target) + " is ambiguous. Matching endpoints: " + ListText(Endpoints(matches))
        case _ =>
          if matches == [] then
            "No discovered RPC controller named " + Quote(controller)
            + if serviceName.Some? then " for service " + Quote(serviceName.value) else ""
          else
            "Controller " + Quote(controller) + " is ambiguous. Add ?service=... to choose one of: "
            + ListText(Keys(matches));
      Fail(CallerId(), METHOD_NOT_FOUND, message, Null)
    }
  }

  function Quote(s: string): string {
    "'" + s + "'"
  }

  function ListText(items: seq<string>): string {
    "[" + Join(seq(|items|, i requires 0 <= i < |items| => Quote(items[i])), ',') + "]"
  }

  function Endpoints(services: seq<Service>): seq<string> {
    seq(|services|, i requires 0 <= i < |services| => services[i].rpcEndpoint)
  }

  function Keys(services: seq<Service>): seq<string> {
    seq(|services|, i requires 0 <= i < |services| =>
      if services[i].serviceName == "" then services[i].controllerName
      else services[i].serviceName + "/" + services[i].controllerName)
  }

  /** The service is the only match. */
  predicate IsUniqueMatch(call: Call, services: seq<Service>, s: Service) {
    call.Candidates(services) == [s]
  }

  /** `_rewrite_response_id` */
  function RewriteId(r: Response, id: Id): Response {
    if r.error.Some? then Response(id, Null, r.error) else Response(id, r.result, None)
  }

  // ---------------------------------------------------------------- the routes coincide

  ghost predicate ListsHonestly(s: Service) {
    exists locals :: ListsLocals(s, locals)
  }

  ghost predicate ListsLocals(s: Service, locals: seq<string>) {
    (forall m :: m in locals ==> '.' !in m) && s.methods == QualifiedAll(s.controllerName, locals)
  }

  lemma {:induction false} OnlyMatch(services: seq<Service>, i: nat, call: Call)
    requires i < |services|
    requires forall j :: 0 <= j < |services| ==> (services[j] in call.Candidates([services[j]]) <==> j == i)
    ensures call.Candidates(services) == [services[i]]
  {
    var tail := services[1..];
    assert services == [services[0]] + tail;
    assert [services[0]][1..] == [];
    if i > 0 {
      forall j | 0 <= j < |tail| ensures tail[j] in call.Candidates([tail[j]]) <==> j == i - 1 {
        assert tail[j] == services[j + 1];
      }
      OnlyMatch(tail, i - 1, call);
    } else {
      NoMatch(tail, call);
    }
  }

  lemma {:induction false} NoMatch(services: seq<Service>, call: Call)
    requires forall j :: 0 <= j < |services| ==> services[j] !in call.Candidates([services[j]])
    ensures call.Candidates(services) == []
  {
    if services != [] {
      assert [services[0]][1..] == [];
      NoMatch(services[1..], call);
    }
  }

  /** Over honest services, if one controller of this name exists and offers the
      method, all four ways to call it select that service and send the same request. */
  lemma RoutesCoincide(services: seq<Service>, i: nat, name: string, params: Option<seq<Field>>, id: Id)
    requires i < |services|
    requires forall j :: 0 <= j < |services| ==> ListsHonestly(services[j])
    requires forall j :: 0 <= j < |services| && services[j].controllerName == services[i].controllerName ==> j == i
    requires '.' !in name && Qualified(services[i].controllerName, name) in services[i].methods
    ensures var c := services[i].controllerName;
            var full := Qualified(c, name);
            forall call | call in {
                MethodCall(c, name, params, None, id), ControllerCall(c, Request(id, name, params), None),
                ControllerCall(c, Request(id, full, params), None), RpcCall(Request(id, full, params))} ::
              && IsUniqueMatch(call, services, services[i])
              && call.Target() == full && call.SentParams() == ParamsOf(params) && call.CallerId() == id
  {
    var c := services[i].controllerName;
    var full := Qualified(c, name);
    assert full[|c|] == '.';
    var rpc := RpcCall(Request(id, full, params));
    forall j | 0 <= j < |services| ensures full in services[j].methods <==> j == i {
      var locals :| ListsLocals(services[j], locals);
      if full in services[j].methods {
        var k :| 0 <= k < |locals| && full == Qualified(services[j].controllerName, locals[k]);
        QualifiedSplitIsUnique(c, name, services[j].controllerName, locals[k]);
      }
    }
    OnlyMatch(services, i, rpc);
    OnlyMatch(services, i, MethodCall(c, name, params, None, id));
    OnlyMatch(services, i, ControllerCall(c, Request(id, name, params), None));
    OnlyMatch(services, i, ControllerCall(c, Request(id, full, params), None));
  }

  // ---------------------------------------------------------------- loading and lookups

  /** Each service is an honest server's, as discovered. */
  ghost predicate DiscoveredFrom<S>(services: seq<Service>, servers: seq<Controller<S>>) {
    && |services| == |servers|
    && forall i :: 0 <= i < |services| ==> Recognise(HonestDetails(servers[i])) == Some(services[i])
  }

  /** An attempt that succeeds fetches the server's own descriptor. */
  ghost predicate FetchedFrom<S>(attempts: seq<Attempts>, servers: seq<Controller<S>>) {
    && |attempts| == |servers|
    && forall i :: 0 <= i < |attempts| && attempts[i].AllSucceed() ==> attempts[i].fetch == Value(DescriptorOf(servers[i]))
  }

  predicate CommaFree<S>(c: Controller<S>) {
    forall n :: n in c.QualifiedNames() ==> ',' !in n
  }

  /** Loading the descriptors of honest servers leaves the answer to every lookup by
      method as it was if and only if no method name of a loaded service has a comma. */
  lemma LookupsSurviveLoadingIff<S(!new)>(services: seq<Service>, servers: seq<Controller<S>>, attempts: seq<Attempts>)
    requires DiscoveredFrom(services, servers) && FetchedFrom(attempts, servers)
    ensures (forall name ::
               Endpoints(FindByMethod(LoadAll(services, attempts), name)) == Endpoints(FindByMethod(services, name)))
            <==> forall i :: 0 <= i < |servers| && attempts[i].AllSucceed() ==> CommaFree(servers[i])
  {
    hide FindByMethod, CommaFree, Recognise, HonestDetails, DescriptorOf, Load;
    if forall i :: 0 <= i < |servers| && attempts[i].AllSucceed() ==> CommaFree(servers[i]) {
      forall name
        ensures Endpoints(FindByMethod(LoadAll(services, attempts), name)) == Endpoints(FindByMethod(services, name))
      {
        CommaFreeLookupsSurvive(services, servers, attempts, name);
      }
    } else {
      var i :| 0 <= i < |servers| && attempts[i].AllSucceed() && !CommaFree(servers[i]);
      var name := CommaNameIsFoundOnlyWhenLoaded(services, servers, attempts, i);
      assert Endpoints(FindByMethod(LoadAll(services, attempts), name)) != Endpoints(FindByMethod(services, name));
    }
  }

  lemma CommaFreeLookupsSurvive<S>(
      services: seq<Service>, servers: seq<Controller<S>>, attempts: seq<Attempts>, name: string)
    requires DiscoveredFrom(services, servers) && FetchedFrom(attempts, servers)
    requires forall i :: 0 <= i < |servers| && attempts[i].AllSucceed() ==> CommaFree(servers[i])
    ensures Endpoints(FindByMethod(LoadAll(services, attempts), name)) == Endpoints(FindByMethod(services, name))
  {
    hide Recognise, HonestDetails, DescriptorOf, FindByMethod, CommaFree, Load, Endpoints;
    var loaded := LoadAll(services, attempts);
    forall i | 0 <= i < |services|
      ensures loaded[i].methods == services[i].methods && loaded[i].rpcEndpoint == services[i].rpcEndpoint
    {
      LoadingOneIff(services[i], servers[i], attempts[i]);
    }
    SameMethodsSameAnswers(loaded, services, name);
  }

  lemma LoadingOneIff<S>(s: Service, c: Controller<S>, a: Attempts)
    requires Recognise(HonestDetails(c)) == Some(s)
    requires a.AllSucceed() ==> a.fetch == Value(DescriptorOf(c))
    ensures Load(s, a).rpcEndpoint == s.rpcEndpoint
    ensures a.AllSucceed() ==> Load(s, a).methods == c.QualifiedNames() && (Load(s, a).methods == s.methods <==> CommaFree(c))
    ensures !a.AllSucceed() ==> Load(s, a) == s
    ensures forall name :: name in s.methods ==> ',' !in name
  {
    if a.AllSucceed() {
      LoadingHonestServerChangesNothingIff(c, a);
    }
    hide HonestDetails, DescriptorOf;
    SplitPiecesLackSeparator(Get(s.attributes, "rpc.methods"), ',');
    DropEmptySelects(Split(Get(s.attributes, "rpc.methods"), ','));
  }

  lemma {:induction false} SameMethodsSameAnswers(a: seq<Service>, b: seq<Service>, name: string)
    requires |a| == |b|
    requires forall i :: 0 <= i < |a| ==> a[i].methods == b[i].methods && a[i].rpcEndpoint == b[i].rpcEndpoint
    ensures Endpoints(FindByMethod(a, name)) == Endpoints(FindByMethod(b, name))
  {
    if a != [] {
      SameMethodsSameAnswers(a[1..], b[1..], name);
      EndpointsOfFront(a[0], FindByMethod(a[1..], name));
      EndpointsOfFront(b[0], FindByMethod(b[1..], name));
      hide Endpoints;
    }
  }

  lemma EndpointsOfFront(s: Service, rest: seq<Service>)
    ensures Endpoints([s] + rest) == [s.rpcEndpoint] + Endpoints(rest)
  {
  }

  /** A name with a comma is never advertised, so only loading makes it known. */
  lemma CommaNameIsFoundOnlyWhenLoaded<S>(
      services: seq<Service>, servers: seq<Controller<S>>, attempts: seq<Attempts>, i: nat) returns (name: string)
    requires DiscoveredFrom(services, servers) && FetchedFrom(attempts, servers)
    requires i < |servers| && attempts[i].AllSucceed() && !CommaFree(servers[i])
    ensures FindByMethod(services, name) == []
    ensures FindByMethod(LoadAll(services, attempts), name) != []
  {
    name :| name in servers[i].QualifiedNames() && ',' in name;
    hide Recognise, HonestDetails, DescriptorOf, Load, CommaFree;
    LoadingOneIff(services[i], servers[i], attempts[i]);
    assert LoadAll(services, attempts)[i] in FindByMethod(LoadAll(services, attempts), name);
    var found := FindByMethod(services, name);
    if found != [] {
      assert found[0] in found;
      var j :| 0 <= j < |services| && services[j] == found[0];
      LoadingOneIff(services[j], servers[j], attempts[j]);
    }
  }

  // ---------------------------------------------------------------- the route list

  /** The local method names the HTTP routes are made of. */
  function RouteNames(s: Service): (r: seq<string>)
    ensures |r| == if s.descriptor.Some? then |s.descriptor.value.methods| else |s.methods|
  {
    match s.descriptor
    case Some(d) => seq(|d.methods|, i requires 0 <= i < |d.methods| => d.methods[i].name)
    case None => seq(|s.methods|, i requires 0 <= i < |s.methods| => AfterFirstDot(s.methods[i]))
  }

  /** The routes derived from the method list alone are those derived from the
      descriptor exactly when the controller name has no dot or there is no method. */
  lemma RoutesWithoutDescriptorIff<S>(c: Controller<S>, bare: Service, loaded: Service)
    requires bare.descriptor == None && bare.methods == c.QualifiedNames()
    requires loaded.descriptor == Some(DescriptorOf(c))
    ensures RouteNames(loaded) == c.LocalNames()
    ensures RouteNames(bare) == RouteNames(loaded) <==> '.' !in c.name || c.bindings == []
  {
    var a, b := RouteNames(bare), RouteNames(loaded);
    forall i | 0 <= i < |c.bindings| ensures a[i] == b[i] <==> '.' !in c.name {
      LocalNameRecoveredIff(c.name, c.bindings[i].name);
    }
    if c.bindings != [] && '.' in c.name {
      assert a[0] != b[0];
    }
  }
}
