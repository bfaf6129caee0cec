/** A controller as a state machine, and the JSON-RPC endpoint in front of it. */
module Endpoint {
  import opened Prelude
  import opened Json
  import opened Messages
  import opened Names
  import opened Sessions

  const PARSE_ERROR := -32700
  const METHOD_NOT_FOUND := -32601
  const INVALID_PARAMS := -32602
  const INTERNAL_ERROR := -32603

  /** What validating the parameters gives: the validated value, a ValidationError
      with its details, or an exception `handle` does not catch. */
  datatype Validation = Accepted(params: Json) | Rejected(details: Json) | Crashed(exc: Exc)

  /** What calling the controller method gives: a result, an exception, or a value
      that cannot be dumped (that exception is raised outside the try block). */
  datatype Outcome = Returned(result: Json) | Raised(exc: Exc) | Undumpable(exc: Exc)

  datatype Ran<+S> = Ran(state: S, outcome: Outcome)

  datatype Binding<!S> = Binding(name: string, validate: Json -> Validation, run: (S, Json) -> Ran<S>)

  datatype Controller<!S> = Controller(service: string, name: string, bindings: seq<Binding<S>>) {
    /** The source gets its bindings from the attribute names of one object. */
    predicate DistinctNames() {
      forall i, j :: 0 <= i < j < |bindings| ==> bindings[i].name != bindings[j].name
    }

    function LocalNames(): (r: seq<string>)
      ensures |r| == |bindings|
      ensures forall i :: 0 <= i < |bindings| ==> r[i] == bindings[i].name
    {
      seq(|bindings|, i requires 0 <= i < |bindings| => bindings[i].name)
    }

    /** The method names in the descriptor. */
    function QualifiedNames(): seq<string> {
      QualifiedAll(name, LocalNames())
    }

    function RpcEndpoint(): string {
      service + "/" + name + "/rpc"
    }

    function SchemaEndpoint(): string {
      service + "/" + name + "/schema"
    }
  }

  datatype Answer = Reply(response: Response) | Escapes(exc: Exc)

  /** The answer in bytes. */
  datatype ByteAnswer = Bytes(payload: seq<byte>) | BytesEscape(exc: Exc)

  // ------------------------------------------------- specification of `handle`

  function FindBinding<S>(bindings: seq<Binding<S>>, name: string): (r: Option<Binding<S>>)
    ensures r.Some? ==> r.value in bindings && r.value.name == name
    ensures r == None ==> forall b :: b in bindings ==> b.name != name
  {
    if bindings == [] then None
    else if bindings[0].name == name then Some(bindings[0])
    else FindBinding(bindings[1..], name)
  }

  /** Validating, calling, and answering, once the binding is chosen. */
  function Dispatch<S>(b: Binding<S>, s: S, r: Request): Step<S, Answer> {
    match b.validate(Obj(ParamsOf(r.params)))
    case Crashed(exc) => Step(s, Escapes(exc))
    case Rejected(details) => Step(s, Reply(Fail(r.id, INVALID_PARAMS, "Invalid params", details)))
    case Accepted(params) =>
      var ran := b.run(s, params);
      match ran.outcome
      case Returned(result) => Step(ran.state, Reply(Ok(r.id, result)))
      case Raised(Interrupt) => Step(ran.state, Escapes(Interrupt))
      case Raised(exc) => Step(ran.state, Reply(Fail(r.id, INTERNAL_ERROR, "Internal error", Str(Describe(exc)))))
      case Undumpable(exc) => Step(ran.state, Escapes(exc))
  }

  /** The exception's own text. */
  function Describe(exc: Exc): string {
    match exc
    case Error(message) => message
    case WaitFailure => "NodeWaitFailure"
    case Interrupt => ""
  }

  function Handle<S>(c: Controller<S>, s: S, r: Request): Step<S, Answer> {
    var prefix := c.name + ".";
    if !(prefix <= r.target) then
      Step(s, Reply(Fail(r.id, METHOD_NOT_FOUND, "Unknown controller for method: " + r.target, Null)))
    else
      match FindBinding(c.bindings, r.target[|prefix|..])
      case Some(b) => Dispatch(b, s, r)
      case None => Step(s, Reply(Fail(r.id, METHOD_NOT_FOUND, "Method not found: " + r.target, Null)))
  }

  const PARSE_FAILURE := Fail(NoId, PARSE_ERROR, "Parse error", Str("invalid request"))

  function HandleBytes<S>(c: Controller<S>, s: S, raw: seq<byte>): Step<S, ByteAnswer> {
    match DecodeRequest(raw)
    case None => Step(s, Bytes(EncodeResponse(PARSE_FAILURE)))
    case Some(r) =>
      var step := Handle(c, s, r);
      match step.answer
      case Reply(response) => Step(step.state, Bytes(EncodeResponse(response)))
      case Escapes(exc) => Step(step.state, BytesEscape(exc))
  }

  // ------------------------------------------------------------ the endpoint

  class ControllerRpcEndpoint<S> {
    const controller: Controller<S>
    var state: S

    constructor (controller: Controller<S>, state: S)
      ensures this.controller == controller && this.state == state
    {
      this.controller := controller;
      this.state := state;
    }

    method HandleRequest(request: Request) returns (answer: Answer)
      modifies this
      ensures Step(state, answer) == Handle(controller, old(state), request)
    {
      var prefix := controller.name + ".";
      if !(prefix <= request.target) {
        return Reply(Fail(request.id, METHOD_NOT_FOUND, "Unknown controller for method: " + request.target, Null));
      }
      var local := request.target[|prefix|..];
      for i := 0 to |controller.bindings|
        invariant state == old(state)
        invariant FindBinding(controller.bindings, local) == FindBinding(controller.bindings[i..], local)
      {
        var binding := controller.bindings[i];
        if binding.name != local {
          continue;
        }
        match binding.validate(Obj(ParamsOf(request.params)))
        case Crashed(exc) => return Escapes(exc);
        case Rejected(details) => return Reply(Fail(request.id, INVALID_PARAMS, "Invalid params", details));
        case Accepted(params) =>
          var ran := binding.run(state, params);
          state := ran.state;
          match ran.outcome {
            case Returned(result) => return Reply(Ok(request.id, result));
            case Raised(Interrupt) => return Escapes(Interrupt);
            case Raised(exc) =>
              return Reply(Fail(request.id, INTERNAL_ERROR, "Internal error", Str(Describe(exc))));
            case Undumpable(exc) => return Escapes(exc);
          }
      }
      answer := Reply(Fail(request.id, METHOD_NOT_FOUND, "Method not found: " + request.target, Null));
    }

    method HandleRaw(raw: seq<byte>) returns (answer: ByteAnswer)
      modifies this
      ensures Step(state, answer) == HandleBytes(controller, old(state), raw)
    {
      var request := DecodeRequest(raw);
      if request == None {
        return Bytes(EncodeResponse(PARSE_FAILURE));
      }
      var a := HandleRequest(request.value);
      answer := match a
        case Reply(response) => Bytes(EncodeResponse(response))
        case Escapes(exc) => BytesEscape(exc);
    }
  }

  /** `describe_controller`: one descriptor per binding, in order. */
  method DescribeMethods<S>(c: Controller<S>) returns (names: seq<string>)
    ensures names == c.QualifiedNames()
  {
    names := [];
    for i := 0 to |c.bindings|
      invariant names == c.QualifiedNames()[..i]
    {
      names := names + [Qualified(c.name, c.bindings[i].name)];
    }
  }

  // ------------------------------------------------ description and dispatch agree

  /** The local part the endpoint looks for, when the prefix matches. */
  lemma PrefixMeansQualified(controller: string, target: string)
    requires controller + "." <= target
    ensures target == Qualified(controller, target[|controller| + 1..])
  {
  }

  lemma QualifiedHasPrefix(controller: string, local: string)
    ensures var q := Qualified(controller, local);
            controller + "." <= q && q[|controller + "."|..] == local
  {
  }

  lemma FindBindingAt<S>(bindings: seq<Binding<S>>, i: nat)
    requires i < |bindings|
    requires forall j, k :: 0 <= j < k < |bindings| ==> bindings[j].name != bindings[k].name
    ensures FindBinding(bindings, bindings[i].name) == Some(bindings[i])
  {
  }

  /** A request is dispatched to a binding exactly when the descriptor lists its
      method; every other request is answered method-not-found, with no change. */
  lemma DispatchedIffDescribed<S>(c: Controller<S>, s: S, r: Request)
    requires c.DistinctNames()
    ensures r.target in c.QualifiedNames()
            <==> exists i :: 0 <= i < |c.bindings| && r.target == Qualified(c.name, c.bindings[i].name)
    ensures forall i :: 0 <= i < |c.bindings| && r.target == Qualified(c.name, c.bindings[i].name)
              ==> Handle(c, s, r) == Dispatch(c.bindings[i], s, r)
    ensures r.target !in c.QualifiedNames() ==>
              && Handle(c, s, r).state == s
              && Handle(c, s, r).answer.Reply?
              && Handle(c, s, r).answer.response.Fails(METHOD_NOT_FOUND)
  {
    var names := c.QualifiedNames();
    forall i | 0 <= i < |c.bindings| && r.target == Qualified(c.name, c.bindings[i].name)
      ensures Handle(c, s, r) == Dispatch(c.bindings[i], s, r)
      ensures r.target in names
    {
      QualifiedHasPrefix(c.name, c.bindings[i].name);
      FindBindingAt(c.bindings, i);
      assert names[i] == r.target;
    }
    if r.target !in names && c.name + "." <= r.target {
      PrefixMeansQualified(c.name, r.target);
      var local := r.target[|c.name + "."|..];
      forall i | 0 <= i < |c.bindings| ensures c.bindings[i].name != local {
        assert names[i] == Qualified(c.name, c.bindings[i].name);
      }
    }
  }

  /** At most one binding answers to a method. */
  lemma DescribedBindingIsUnique<S>(c: Controller<S>, i: nat, j: nat)
    requires c.DistinctNames() && i < |c.bindings| && j < |c.bindings|
    requires Qualified(c.name, c.bindings[i].name) == Qualified(c.name, c.bindings[j].name)
    ensures i == j
  {
    QualifiedHasPrefix(c.name, c.bindings[i].name);
    QualifiedHasPrefix(c.name, c.bindings[j].name);
  }

  // -------------------------------------------------- what happens to a request

  /** The members of the parameter object of a request; none if there is no object. */
  ghost predicate HasParams(r: Request, members: seq<Field>) {
    match r.params
    case Some(given) => members == given
    case None => members == []
  }

  /** The answer of a method that was called. */
  ghost predicate AnswersOutcome(id: Id, outcome: Outcome, answer: Answer) {
    match outcome
    case Returned(result) => answer == Reply(Response(id, result, None))
    case Raised(Interrupt) => answer == Escapes(Interrupt)
    case Raised(exc) => exists text :: answer == Reply(Response(id, Null, Some(ErrorObject(-32603, "Internal error", Str(text)))))
                                       && (exc.Error? ==> text == exc.message)
    case Undumpable(exc) => answer == Escapes(exc)
  }

  /** A described method gets the very parameters of the request to validate, is called
      with what validation makes of them, and its outcome is what is answered, under the
      request's id; parameters that are rejected leave the state alone. */
  lemma RequestIsExecuted<S>(c: Controller<S>, s: S, r: Request, i: nat, members: seq<Field>)
    requires c.DistinctNames() && i < |c.bindings| && r.target == c.name + "." + c.bindings[i].name
    requires HasParams(r, members)
    ensures var step := Handle(c, s, r);
            match c.bindings[i].validate(Obj(members))
            case Accepted(params) =>
              var ran := c.bindings[i].run(s, params);
              step.state == ran.state && AnswersOutcome(r.id, ran.outcome, step.answer)
            case Rejected(details) =>
              step.state == s
              && step.answer == Reply(Response(r.id, Null, Some(ErrorObject(-32602, "Invalid params", details))))
            case Crashed(exc) => step.state == s && step.answer == Escapes(exc)
  {
    QualifiedHasPrefix(c.name, c.bindings[i].name);
    FindBindingAt(c.bindings, i);
  }

  /** A method that is not described is answered -32601 under the request's id, and
      nothing happens. */
  lemma OtherRequestsAreRefused<S>(c: Controller<S>, s: S, r: Request)
    requires forall i :: 0 <= i < |c.bindings| ==> r.target != c.name + "." + c.bindings[i].name
    ensures var step := Handle(c, s, r);
            && step.state == s && step.answer.Reply?
            && step.answer.response.id == r.id && step.answer.response.result == Null
            && step.answer.response.error.Some? && step.answer.response.error.value.code == -32601
  {
    if c.name + "." <= r.target {
      PrefixMeansQualified(c.name, r.target);
    }
  }

  /** In bytes: a readable request gets the bytes of its answer, with the same effect on the
      state; an unreadable one is answered -32700 without an id and has no effect. */
  lemma BytesCarryTheAnswer<S>(c: Controller<S>, s: S, raw: seq<byte>)
    ensures var step := HandleBytes(c, s, raw);
            match DecodeRequest(raw)
            case Some(r) =>
              && step.state == Handle(c, s, r).state
              && (match Handle(c, s, r).answer
                  case Reply(response) => step.answer.Bytes? && DecodeResponse(step.answer.payload) == Some(response)
                  case Escapes(exc) => step.answer == BytesEscape(exc))
            case None =>
              && step.state == s && step.answer.Bytes?
              && exists data :: DecodeResponse(step.answer.payload)
                                == Some(Response(NoId, Null, Some(ErrorObject(-32700, "Parse error", data))))
  {
    match DecodeRequest(raw)
    case Some(r) =>
      if Handle(c, s, r).answer.Reply? {
        ReplyClassifies(c, s, r);
        ResponseRoundTripIff(Handle(c, s, r).answer.response);
      }
    case None =>
      ResponseRoundTripIff(PARSE_FAILURE);
      assert PARSE_FAILURE == Response(NoId, Null, Some(ErrorObject(-32700, "Parse error", Str("invalid request"))));
  }

  // ------------------------------------------------------ the names of endpoints

  /** Rpc and schema endpoints never meet, and the endpoint tells the controller where
      controller names have no slash. */
  lemma EndpointsAreDistinct<S, T>(c: Controller<S>, d: Controller<T>)
    ensures c.RpcEndpoint() != d.SchemaEndpoint()
    ensures c.RpcEndpoint() == d.RpcEndpoint() <==> c.SchemaEndpoint() == d.SchemaEndpoint()
    ensures '/' !in c.name && '/' !in d.name ==>
              (c.RpcEndpoint() == d.RpcEndpoint() <==> c.service == d.service && c.name == d.name)
  {
    var a, b := c.service + "/" + c.name, d.service + "/" + d.name;
    assert c.RpcEndpoint() == a + "/rpc" && d.RpcEndpoint() == b + "/rpc";
    assert c.SchemaEndpoint() == a + "/schema" && d.SchemaEndpoint() == b + "/schema";
    assert (a + "/rpc")[|a + "/rpc"| - 1] == 'c' && (b + "/schema")[|b + "/schema"| - 1] == 'a';
    SuffixCancels(a, b, "/rpc");
    SuffixCancels(a, b, "/schema");
    if a == b && '/' !in c.name && '/' !in d.name {
      LastSeparator(c.service, c.name, d.service, d.name, '/');
    }
  }

  lemma SuffixCancels(a: string, b: string, suffix: string)
    ensures a + suffix == b + suffix <==> a == b
  {
    if a + suffix == b + suffix {
      assert |a| == |b|;
      assert a == (a + suffix)[..|a|] == (b + suffix)[..|b|] == b;
    }
  }

  // ------------------------------------------------------ what an answer tells

  /** The method of the request is described and its parameters are accepted:
      exactly then some controller code runs. */
  predicate Runs<S>(c: Controller<S>, r: Request) {
    && c.name + "." <= r.target
    && var found := FindBinding(c.bindings, r.target[|c.name + "."|..]);
       && found.Some?
       && found.value.validate(Obj(ParamsOf(r.params))).Accepted?
  }

  predicate RunsBytes<S>(c: Controller<S>, raw: seq<byte>) {
    var r := DecodeRequest(raw);
    r.Some? && Runs(c, r.value)
  }

  /** Every reply is a well-formed response, carries the request's id, and its
      error code says what happened: method-not-found and invalid-params mean that
      no controller code ran and the state is untouched, internal-error and success
      mean that it did. */
  lemma ReplyClassifies<S>(c: Controller<S>, s: S, r: Request)
    requires Handle(c, s, r).answer.Reply?
    ensures var step := Handle(c, s, r);
            var response := step.answer.response;
            && response.Valid()
            && response.id == r.id
            && (Runs(c, r) <==> response.error == None || response.Fails(INTERNAL_ERROR))
            && (!Runs(c, r) <==> response.Fails(METHOD_NOT_FOUND) || response.Fails(INVALID_PARAMS))
            && (!Runs(c, r) ==> step.state == s)
  {
  }

  /** `handle` looks at the id only to echo it. */
  lemma IdIsOnlyEchoed<S>(c: Controller<S>, s: S, r: Request, id: Id)
    ensures var a, b := Handle(c, s, r), Handle(c, s, r.(id := id));
            && a.state == b.state
            && (match a.answer
                case Escapes(exc) => b.answer == Escapes(exc)
                case Reply(response) => b.answer == Reply(response.(id := id)))
  {
  }

  /** Absent, null and empty parameters are the same to the endpoint. */
  lemma MissingParamsAreEmpty<S>(c: Controller<S>, s: S, r: Request)
    ensures Handle(c, s, r) == Handle(c, s, r.(params := Some(ParamsOf(r.params))))
  {
  }

  /** A controller exception never passes for a rejected request. */
  lemma ControllerExceptionIsInternal<S>(c: Controller<S>, s: S, r: Request, b: Binding<S>, params: Json)
    requires c.name + "." <= r.target
    requires FindBinding(c.bindings, r.target[|c.name + "."|..]) == Some(b)
    requires b.validate(Obj(ParamsOf(r.params))) == Accepted(params)
    requires b.run(s, params).outcome.Raised?
    ensures match Handle(c, s, r).answer
            case Reply(response) => response.Fails(INTERNAL_ERROR) && !b.run(s, params).outcome.exc.Interrupt?
            case Escapes(exc) => exc == Interrupt == b.run(s, params).outcome.exc
  {
  }

  // ------------------------------------------------------------ request sequences

  /** The endpoint as a machine over raw requests. */
  function Handler<S>(c: Controller<S>): (S, seq<byte>) -> Step<S, ByteAnswer> {
    (s, raw) => HandleBytes(c, s, raw)
  }

  /** The byte answer is one of the three refusals. */
  predicate IsRefusal(a: ByteAnswer) {
    && a.Bytes?
    && var response := DecodeResponse(a.payload);
       && response.Some?
       && (|| response.value.Fails(PARSE_ERROR)
           || response.value.Fails(METHOD_NOT_FOUND)
           || response.value.Fails(INVALID_PARAMS))
  }

  /** What the bytes of an answer tell: it is a response, under the id of the request
      if that could be read; parse-error means exactly that it could not; and the three
      refusals mean exactly that no controller code ran. */
  lemma AnswerBytesClassify<S>(c: Controller<S>, s: S, raw: seq<byte>)
    requires HandleBytes(c, s, raw).answer.Bytes?
    ensures var a := HandleBytes(c, s, raw).answer;
            var request, response := DecodeRequest(raw), DecodeResponse(a.payload);
            && response.Some?
            && response.value.id == (if request.Some? then request.value.id else NoId)
            && (response.value.Fails(PARSE_ERROR) <==> request == None)
            && (IsRefusal(a) <==> !RunsBytes(c, raw))
            && (!RunsBytes(c, raw) ==> HandleBytes(c, s, raw).state == s)
  {
    var r := DecodeRequest(raw);
    if r.Some? {
      var step := Handle(c, s, r.value);
      ResponseRoundTripIff(step.answer.response);
      ReplyClassifies(c, s, r.value);
    } else {
      ResponseRoundTripIff(PARSE_FAILURE);
    }
  }

  /** A request that is refused in one state is refused in the same words in every
      state, and changes none of them. */
  lemma RefusalIgnoresState<S>(c: Controller<S>, s: S, t: S, raw: seq<byte>)
    requires IsRefusal(HandleBytes(c, s, raw).answer)
    ensures HandleBytes(c, t, raw) == Step(t, HandleBytes(c, s, raw).answer)
    ensures !RunsBytes(c, raw)
  {
    var r := DecodeRequest(raw);
    if r.Some? {
      var step := Handle(c, s, r.value);
      ResponseRoundTripIff(step.answer.response);
      ReplyClassifies(c, s, r.value);
    }
  }

  /** Taking any refused requests out of a sequence changes neither the final state
      nor the answer to any request that stays. */
  lemma RefusedRequestsAreInvisible<S(!new)>(c: Controller<S>, s: S, raws: seq<seq<byte>>, keep: seq<bool>)
    requires |keep| == |raws|
    requires forall i :: 0 <= i < |raws| && !keep[i] ==> IsRefusal(RunAll(Handler(c), s, raws).answers[i])
    ensures RunAll(Handler(c), s, Select(raws, keep)).state == RunAll(Handler(c), s, raws).state
    ensures RunAll(Handler(c), s, Select(raws, keep)).answers == Select(RunAll(Handler(c), s, raws).answers, keep)
  {
    var session := RunAll(Handler(c), s, raws);
    forall i, t | 0 <= i < |raws| && !keep[i] ensures Handler(c)(t, raws[i]).state == t {
      RunAllAt(Handler(c), s, raws, i);
      RefusalIgnoresState(c, RunAll(Handler(c), s, raws[..i]).state, t, raws[i]);
    }
    IdleRequestsAreInvisible(Handler(c), s, raws, keep);
  }
}
