/** The example controller, and what its clients can rely on over any stream of
    requests. */
module Camera {
  import opened Prelude
  import opened Json
  import opened Messages
  import opened Names
  import opened Sessions
  import opened Endpoint

  const SERVICE := "serverCam"

  datatype CameraState = CameraState(isOpen: bool, captures: int)

  datatype StatusResult = StatusResult(isOpen: bool, captures: int) {
    function ToJson(): Json {
      Obj([Field("service", Str(SERVICE)), Field("opened", Bool(isOpen)), Field("captures", Int(captures))])
    }
  }

  datatype CaptureResult = CaptureResult(isOpen: bool, captures: int, frameId: int, exposureMs: int) {
    function ToJson(): Json {
      Obj([
        Field("service", Str(SERVICE)), Field("opened", Bool(isOpen)), Field("captures", Int(captures)),
        Field("frame_id", Int(frameId)), Field("exposure_ms", Int(exposureMs))
      ])
    }
  }

  class CameraController {
    var isOpen: bool
    var captures: int

    function State(): CameraState
      reads this
    {
      CameraState(isOpen, captures)
    }

    constructor ()
      ensures State() == CameraState(false, 0)
    {
      isOpen, captures := false, 0;
    }

    method Open() returns (r: StatusResult)
      modifies this
      ensures State() == CameraState(true, old(captures)) && r == StatusResult(true, old(captures))
      ensures forall p :: RunOpen(old(State()), p) == Ran(State(), Returned(r.ToJson()))
    {
      isOpen := true;
      r := StatusResult(isOpen, captures);
    }

    method Close() returns (r: StatusResult)
      modifies this
      ensures State() == CameraState(false, old(captures)) && r == StatusResult(false, old(captures))
      ensures forall p :: RunClose(old(State()), p) == Ran(State(), Returned(r.ToJson()))
    {
      isOpen := false;
      r := StatusResult(isOpen, captures);
    }

    method Status() returns (r: StatusResult)
      ensures r == StatusResult(isOpen, captures)
      ensures forall p :: RunStatus(State(), p) == Ran(State(), Returned(r.ToJson()))
    {
      r := StatusResult(isOpen, captures);
    }

    method Capture(exposureMs: int) returns (r: CaptureResult)
      modifies this
      ensures State() == CameraState(true, old(captures) + 1)
      ensures r == CaptureResult(true, old(captures) + 1, old(captures) + 1, exposureMs)
      ensures forall p :: ExposureOf(p) == exposureMs ==>
                RunCapture(old(State()), p) == Ran(State(), Returned(r.ToJson()))
    {
      if !isOpen {
        isOpen := true;
      }
      captures := captures + 1;
      r := CaptureResult(isOpen, captures, captures, exposureMs);
    }
  }

  // ------------------------------------------------------------ as a state machine

  const BAD_PARAMS := Arr([Str("validation error")])

  function ValidateEmpty(params: Json): Validation {
    if params == Obj([]) then Accepted(params) else Rejected(BAD_PARAMS)
  }

  /** `service` must be the literal, `exposure_ms` lies between 1 and 10000 and defaults to 10. */
  function ValidateCapture(params: Json): Validation {
    if !params.Obj? || !OnlyKeys(params.fields, {"service", "exposure_ms"}) then Rejected(BAD_PARAMS)
    else
      var exposure := LookupOr(params.fields, "exposure_ms", Int(10));
      if LookupOr(params.fields, "service", Str(SERVICE)) == Str(SERVICE)
         && exposure.Int? && 1 <= exposure.number <= 10000
      then Accepted(Obj([Field("service", Str(SERVICE)), Field("exposure_ms", exposure)]))
      else Rejected(BAD_PARAMS)
  }

  function ExposureOf(params: Json): int {
    var exposure := if params.Obj? then LookupOr(params.fields, "exposure_ms", Int(10)) else Int(10);
    if exposure.Int? then exposure.number else 10
  }

  function RunOpen(s: CameraState, params: Json): Ran<CameraState> {
    Ran(s.(isOpen := true), Returned(StatusResult(true, s.captures).ToJson()))
  }

  function RunClose(s: CameraState, params: Json): Ran<CameraState> {
    Ran(s.(isOpen := false), Returned(StatusResult(false, s.captures).ToJson()))
  }

  function RunStatus(s: CameraState, params: Json): Ran<CameraState> {
    Ran(s, Returned(StatusResult(s.isOpen, s.captures).ToJson()))
  }

  function RunCapture(s: CameraState, params: Json): Ran<CameraState> {
    var n := s.captures + 1;
    Ran(CameraState(true, n), Returned(CaptureResult(true, n, n, ExposureOf(params)).ToJson()))
  }

  const CAPTURE := Binding("capture", ValidateCapture, RunCapture)
  const CLOSE := Binding("close", ValidateEmpty, RunClose)
  const OPEN := Binding("open", ValidateEmpty, RunOpen)
  const STATUS := Binding("status", ValidateEmpty, RunStatus)

  /** The bindings in the order of `dir`, which sorts the attribute names. */
  const CAMERA: Controller<CameraState> := Controller(SERVICE, "camera", [CAPTURE, CLOSE, OPEN, STATUS])

  lemma CameraBindings(name: string)
    ensures CAMERA.DistinctNames()
    ensures FindBinding(CAMERA.bindings, name) ==
            if name == "capture" then Some(CAPTURE)
            else if name == "close" then Some(CLOSE)
            else if name == "open" then Some(OPEN)
            else if name == "status" then Some(STATUS)
            else None
  {
    var bs := CAMERA.bindings;
    assert bs[1..] == [CLOSE, OPEN, STATUS] && bs[1..][1..] == [OPEN, STATUS];
    assert bs[1..][1..][1..] == [STATUS] && bs[1..][1..][1..][1..] == [];
    assert "capture"[1] != "close"[1];
    assert |"open"| != |"status"|;
    assert FindBinding(bs[1..][1..][1..], name) == if name == "status" then Some(STATUS) else None;
    assert FindBinding(bs[1..][1..], name) ==
           if name == "open" then Some(OPEN) else FindBinding(bs[1..][1..][1..], name);
    assert FindBinding(bs[1..], name) == if name == "close" then Some(CLOSE) else FindBinding(bs[1..][1..], name);
  }

  /** The object has these members of a status, and no others but those of `more`. */
  ghost predicate IsStatusOf(result: Json, isOpen: bool, captures: int, more: set<string>) {
    && HoldsOnly(result, {"service", "opened", "captures"} + more)
    && Holds(result.fields, "service", Str("serverCam"))
    && Holds(result.fields, "opened", Bool(isOpen))
    && Holds(result.fields, "captures", Int(captures))
  }

  /** The result of the n-th capture: it carries its number twice and this exposure. */
  ghost predicate IsCaptureOf(result: Json, n: int, exposure: int) {
    && IsStatusOf(result, true, n, {"frame_id", "exposure_ms"})
    && Holds(result.fields, "frame_id", Int(n))
    && Holds(result.fields, "exposure_ms", Int(exposure))
  }

  /** The request asks for this exposure, by name or, with 10, by leaving it out; it has
      no other parameter than the service, and both are in order. */
  ghost predicate AsksFor(r: Request, exposure: int) {
    exists members :: HasParams(r, members) && AreCaptureParams(members, exposure)
  }

  ghost predicate AreCaptureParams(members: seq<Field>, exposure: int) {
    && HoldsOnly(Obj(members), {"service", "exposure_ms"})
    && HoldsOr(members, "service", Str("serverCam"), Str("serverCam"))
    && HoldsOr(members, "exposure_ms", Int(10), Int(exposure))
    && 1 <= exposure <= 10000
  }

  /** The answer to the n-th capture, if it was asked for like this. */
  ghost predicate IsNumberedCapture(result: Json, n: int, r: Request) {
    exists exposure :: AsksFor(r, exposure) && IsCaptureOf(result, n, exposure)
  }

  /** A method without parameters: it succeeds if and only if none are given, and then
      leads to this state and reports it. */
  ghost predicate Reports(s: CameraState, r: Request, step: Step<CameraState, Answer>, s': CameraState) {
    && step.answer.Reply?
    && (step.answer.response.error == None <==> HasParams(r, []))
    && (step.answer.response.error == None ==>
          step.state == s' && IsStatusOf(step.answer.response.result, s'.isOpen, s'.captures, {}))
    && (step.answer.response.error != None ==> step.state == s)
  }

  /** A capture: it succeeds if and only if it is asked for in order, and then opens the
      camera, counts, and reports its number and the exposure asked for. */
  ghost predicate Captures(s: CameraState, r: Request, step: Step<CameraState, Answer>) {
    && step.answer.Reply?
    && (step.answer.response.error == None <==> exists exposure :: AsksFor(r, exposure))
    && (step.answer.response.error == None ==>
          && step.state == CameraState(true, s.captures + 1)
          && IsNumberedCapture(step.answer.response.result, s.captures + 1, r))
    && (step.answer.response.error != None ==> step.state == s)
  }

  /** What one request does to the camera, and what it is told. */
  lemma CameraHandles(s: CameraState, r: Request)
    ensures var step := Handle(CAMERA, s, r);
            && (r.target == "camera.open" ==> Reports(s, r, step, CameraState(true, s.captures)))
            && (r.target == "camera.close" ==> Reports(s, r, step, CameraState(false, s.captures)))
            && (r.target == "camera.status" ==> Reports(s, r, step, s))
            && (r.target == "camera.capture" ==> Captures(s, r, step))
            && (r.target !in {"camera.open", "camera.close", "camera.status", "camera.capture"} ==>
                  step.answer.Reply? && step.answer.response.Fails(METHOD_NOT_FOUND) && step.state == s)
  {
    CameraNames();
    hide Dispatch, Reports, Captures;
    if i :| 0 <= i < 4 && r.target == Qualified("camera", CAMERA.bindings[i].name) {
      CameraBindings("open");
      DispatchedIffDescribed(CAMERA, s, r);
      if i == 0 {
        CaptureHandled(s, r);
      } else {
        OthersHandled(s, r);
      }
    } else {
      OtherRequestsAreRefused(CAMERA, s, r);
    }
  }

  lemma CameraNames()
    ensures |CAMERA.bindings| == 4 && CAMERA.name == "camera"
    ensures CAMERA.bindings[0] == CAPTURE && CAMERA.bindings[1] == CLOSE
    ensures CAMERA.bindings[2] == OPEN && CAMERA.bindings[3] == STATUS
    ensures Qualified("camera", CAPTURE.name) == "camera.capture" && Qualified("camera", CLOSE.name) == "camera.close"
    ensures Qualified("camera", OPEN.name) == "camera.open" && Qualified("camera", STATUS.name) == "camera.status"
  {
  }

  lemma OthersHandled(s: CameraState, r: Request)
    ensures Reports(s, r, Dispatch(OPEN, s, r), CameraState(true, s.captures))
    ensures Reports(s, r, Dispatch(CLOSE, s, r), CameraState(false, s.captures))
    ensures Reports(s, r, Dispatch(STATUS, s, r), s)
  {
    StatusIsReported(true, s.captures);
    StatusIsReported(false, s.captures);
    hide IsStatusOf;
  }

  lemma StatusIsReported(isOpen: bool, captures: int)
    ensures IsStatusOf(StatusResult(isOpen, captures).ToJson(), isOpen, captures, {})
  {
    var fs := StatusResult(isOpen, captures).ToJson().fields;
    assert IsLastOf(fs, 0, "service") && IsLastOf(fs, 1, "opened") && IsLastOf(fs, 2, "captures");
  }

  lemma CaptureIsReported(n: int, exposure: int)
    ensures IsCaptureOf(CaptureResult(true, n, n, exposure).ToJson(), n, exposure)
  {
    var fs := CaptureResult(true, n, n, exposure).ToJson().fields;
    assert fs[0].key == "service" && fs[1].key == "opened" && fs[2].key == "captures" && fs[3].key == "frame_id";
    assert "service"[0] == 's' && "opened"[0] == 'o' && "captures"[0] == 'c' && "frame_id"[0] == 'f' && "exposure_ms"[0] == 'e';
    assert IsLastOf(fs, 0, "service") && IsLastOf(fs, 1, "opened") && IsLastOf(fs, 2, "captures");
    assert IsLastOf(fs, 3, "frame_id") && IsLastOf(fs, 4, "exposure_ms");
  }

  lemma CaptureParamsIff(members: seq<Field>, exposure: int)
    ensures AreCaptureParams(members, exposure) <==>
              && ValidateCapture(Obj(members)).Accepted?
              && LookupOr(members, "exposure_ms", Int(10)) == Int(exposure)
  {
    LookupOrIff(members, "service", Str("serverCam"), Str("serverCam"));
    LookupOrIff(members, "exposure_ms", Int(10), Int(exposure));
    hide LookupOr, HoldsOr;
  }

  lemma CaptureHandled(s: CameraState, r: Request)
    ensures Captures(s, r, Dispatch(CAPTURE, s, r))
  {
    var members := ParamsOf(r.params);
    assert HasParams(r, members);
    var checked, asked := ValidateCapture(Obj(members)), LookupOr(members, "exposure_ms", Int(10));
    forall exposure ensures AsksFor(r, exposure) <==> checked.Accepted? && asked == Int(exposure) {
      CaptureParamsIff(members, exposure);
    }
    if checked.Accepted? {
      var fs := checked.params.fields;
      assert fs[1..] == [fs[1]] && fs[1..][1..] == [];
      assert Lookup(fs[1..], "exposure_ms") == Some(fs[1].value);
      assert ExposureOf(checked.params) == asked.number;
      assert asked == Int(asked.number);
      CaptureIsReported(s.captures + 1, asked.number);
      hide IsCaptureOf, AsksFor, Lookup, LookupOr, ValidateCapture, ExposureOf;
      assert AsksFor(r, asked.number);
    }
  }

  // ------------------------------------------------------------ over a stream

  /** The request names this camera method and is answered without an error. */
  predicate Succeeded(raw: seq<byte>, a: ByteAnswer, name: string) {
    && DecodeRequest(raw).Some?
    && DecodeRequest(raw).value.target == Qualified("camera", name)
    && a.Bytes?
    && DecodeResponse(a.payload).Some?
    && DecodeResponse(a.payload).value.error == None
  }

  lemma CameraHandlesBytes(s: CameraState, raw: seq<byte>)
    ensures var step := HandleBytes(CAMERA, s, raw);
            && step.answer.Bytes?
            && (Succeeded(raw, step.answer, "capture") ==>
                  && step.state == CameraState(true, s.captures + 1)
                  && IsNumberedCapture(DecodeResponse(step.answer.payload).value.result, s.captures + 1, DecodeRequest(raw).value))
            && (!Succeeded(raw, step.answer, "capture") ==> step.state.captures == s.captures)
            && (!Succeeded(raw, step.answer, "close") && s.isOpen ==> step.state.isOpen)
  {
    hide Handle, HandleBytes, DecodeRequest, DecodeResponse, IsNumberedCapture, IsStatusOf, AsksFor;
    BytesCarryTheAnswer(CAMERA, s, raw);
    var r := DecodeRequest(raw);
    if r.Some? {
      CameraHandles(s, r.value);
      CameraNames();
    }
  }

  /** How many of these requests were captures that succeeded. */
  function CountCaptures(raws: seq<seq<byte>>, answers: seq<ByteAnswer>): nat
    requires |raws| == |answers|
  {
    if raws == [] then 0
    else
      var last := |raws| - 1;
      CountCaptures(raws[..last], answers[..last]) + if Succeeded(raws[last], answers[last], "capture") then 1 else 0
  }

  function CameraSession(s: CameraState, raws: seq<seq<byte>>): Session<CameraState, ByteAnswer> {
    RunAll(Handler(CAMERA), s, raws)
  }

  lemma SessionAt(s: CameraState, raws: seq<seq<byte>>, i: nat)
    requires i < |raws|
    ensures var before := CameraSession(s, raws[..i]);
            && HandleBytes(CAMERA, before.state, raws[i])
               == Step(CameraSession(s, raws[..i + 1]).state, CameraSession(s, raws).answers[i])
            && before.answers == CameraSession(s, raws).answers[..i]
  {
    RunAllAt(Handler(CAMERA), s, raws, i);
    assert raws == raws[..i] + raws[i..];
    RunAllSplits(Handler(CAMERA), s, raws[..i], raws[i..]);
  }

  /** The capture counter counts exactly the captures answered with success. */
  lemma {:induction false} CounterCountsCaptures(s: CameraState, raws: seq<seq<byte>>)
    ensures CameraSession(s, raws).state.captures == s.captures + CountCaptures(raws, CameraSession(s, raws).answers)
  {
    hide HandleBytes, RunAll, Succeeded, IsNumberedCapture;
    if raws == [] {
      EmptySession(s);
    } else {
      var last := |raws| - 1;
      SessionAt(s, raws, last);
      assert raws[..last + 1] == raws;
      CounterCountsCaptures(s, raws[..last]);
      CameraHandlesBytes(CameraSession(s, raws[..last]).state, raws[last]);
    }
  }

  lemma EmptySession(s: CameraState)
    ensures CameraSession(s, []).state == s
  {
  }

  /** From a new camera, whatever else the stream holds, the k-th capture that
      succeeds is numbered k. */
  lemma CapturesAreNumbered(raws: seq<seq<byte>>, i: nat)
    requires i < |raws|
    requires Succeeded(raws[i], CameraSession(CameraState(false, 0), raws).answers[i], "capture")
    ensures var answers := CameraSession(CameraState(false, 0), raws).answers;
            var k := CountCaptures(raws[..i + 1], answers[..i + 1]);
            && k >= 1
            && IsNumberedCapture(DecodeResponse(answers[i].payload).value.result, k, DecodeRequest(raws[i]).value)
  {
    hide HandleBytes, RunAll, DecodeResponse, DecodeRequest, IsNumberedCapture;
    var s := CameraState(false, 0);
    var answers := CameraSession(s, raws).answers;
    SessionAt(s, raws, i);
    CounterCountsCaptures(s, raws[..i]);
    CameraHandlesBytes(CameraSession(s, raws[..i]).state, raws[i]);
    assert raws[..i + 1][..i] == raws[..i] && answers[..i + 1][..i] == answers[..i];
  }

  /** After a capture that succeeds the camera stays open until a close succeeds. */
  lemma {:induction false} OpenUntilClosed(s: CameraState, raws: seq<seq<byte>>, i: nat, j: nat)
    requires i < j <= |raws|
    requires Succeeded(raws[i], CameraSession(s, raws).answers[i], "capture")
    requires forall k :: i < k < j ==> !Succeeded(raws[k], CameraSession(s, raws).answers[k], "close")
    ensures CameraSession(s, raws[..j]).state.isOpen
  {
    hide HandleBytes, RunAll, DecodeResponse, DecodeRequest;
    SessionAt(s, raws, j - 1);
    CameraHandlesBytes(CameraSession(s, raws[..j - 1]).state, raws[j - 1]);
    if i < j - 1 {
      OpenUntilClosed(s, raws, i, j - 1);
    }
  }
}
