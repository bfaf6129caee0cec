/** The camera behind a real server, over its whole life. */
module CameraService {
  import opened Prelude
  import opened Messages
  import opened Sessions
  import opened Endpoint
  import opened Ports
  import opened Server
  import opened Conservation
  import opened Camera

  /** Every response the camera server has sent for a capture that succeeded carries the
      number of that capture among all successful captures of the server's life,
      whatever else it served, in however many cycles and with whatever faults. */
  lemma SentCapturesAreNumbered(
      descriptor: seq<byte>, rpc: nat, schema: nat, a: Acquisition, b: Acquisition, cycles: seq<Cycle>, i: nat)
    requires a.Acquired? && b.Acquired?
    requires
      var built := CreateServers(Opened(CameraState(false, 0), rpc, schema), a, b).server;
      var log := CloseAll(Turns(CAMERA, descriptor, built, cycles).0).log;
      && i < |log| && log[i].Sent? && log[i].port == Rpc
      && var raws := RpcPayloads(log[..i]);
         raws != [] ==> Succeeded(raws[|raws| - 1], Bytes(log[i].payload), "capture")
    ensures
      var built := CreateServers(Opened(CameraState(false, 0), rpc, schema), a, b).server;
      var log := CloseAll(Turns(CAMERA, descriptor, built, cycles).0).log;
      var raws := RpcPayloads(log[..i]);
      && raws != []
      && DecodeResponse(log[i].payload).Some? && DecodeRequest(raws[|raws| - 1]).Some?
      && var k := CountCaptures(raws, CameraSession(CameraState(false, 0), raws).answers);
         IsNumberedCapture(DecodeResponse(log[i].payload).value.result, k, DecodeRequest(raws[|raws| - 1]).value)
  {
    hide HandleBytes, RunAll, Succeeded, CountCaptures, IsNumberedCapture, DecodeResponse, DecodeRequest, Turns, CreateServers;
    var start := CameraState(false, 0);
    var built := CreateServers(Opened(start, rpc, schema), a, b).server;
    var final := CloseAll(Turns(CAMERA, descriptor, built, cycles).0);
    ServedLife(CAMERA, descriptor, start, rpc, schema, a, b, cycles);
    FaithfulCapture(final, i);
  }

  lemma FaithfulCapture(st: ServerState<CameraState>, i: nat)
    requires Faithful(CAMERA, CameraState(false, 0), st)
    requires i < |st.log| && st.log[i].Sent? && st.log[i].port == Rpc
    requires var raws := RpcPayloads(st.log[..i]);
             raws != [] ==> Succeeded(raws[|raws| - 1], Bytes(st.log[i].payload), "capture")
    ensures var raws := RpcPayloads(st.log[..i]);
            && raws != []
            && DecodeResponse(st.log[i].payload).Some? && DecodeRequest(raws[|raws| - 1]).Some?
            && var k := CountCaptures(raws, CameraSession(CameraState(false, 0), raws).answers);
               IsNumberedCapture(DecodeResponse(st.log[i].payload).value.result, k, DecodeRequest(raws[|raws| - 1]).value)
  {
    hide HandleBytes, RunAll, CountCaptures, IsNumberedCapture, DecodeResponse, DecodeRequest, Project;
    var start := CameraState(false, 0);
    var all := RpcPayloads(st.log);
    var answers := CameraSession(start, all).answers;
    assert SentIsAnswer(st.log, i, answers);
    var raws := RpcPayloads(st.log[..i]);
    PrefixHasFewerPayloads(st.log, i);
    var n := |raws|;
    assert raws == all[..n];
    SessionAt(start, all, n - 1);
    assert answers[n - 1] == Bytes(st.log[i].payload) && all[n - 1] == raws[n - 1];
    CapturesAreNumbered(all, n - 1);
    PrefixAnswers(start, all, n);
  }

  /** Over the whole life of the camera server, whatever ends it: once it has sent the
      response to a capture that succeeded, and if no close received after that capture
      succeeds, the camera is left open. */
  lemma OpenAfterItsLife(
      descriptor: seq<byte>, rpc: nat, schema: nat, a: Acquisition, b: Acquisition, cycles: seq<Cycle>, i: nat)
    requires a.Acquired? && b.Acquired?
    requires
      var built := CreateServers(Opened(CameraState(false, 0), rpc, schema), a, b).server;
      CaptureThenNoClose(CloseAll(Turns(CAMERA, descriptor, built, cycles).0).log, i)
    ensures
      var built := CreateServers(Opened(CameraState(false, 0), rpc, schema), a, b).server;
      CloseAll(Turns(CAMERA, descriptor, built, cycles).0).state.isOpen
  {
    hide Turns, CreateServers, CloseAll, CaptureThenNoClose, Faithful;
    var start := CameraState(false, 0);
    var built := CreateServers(Opened(start, rpc, schema), a, b).server;
    ServedLife(CAMERA, descriptor, start, rpc, schema, a, b, cycles);
    FaithfulOpen(CloseAll(Turns(CAMERA, descriptor, built, cycles).0), i);
  }

  /** Event i is the response to a capture that succeeded, and of the requests received
      after that one none is a close that succeeds. */
  ghost predicate CaptureThenNoClose(log: seq<Event>, i: nat) {
    var all := RpcPayloads(log);
    var answers := CameraSession(CameraState(false, 0), all).answers;
    && i < |log| && log[i].Sent? && log[i].port == Rpc
    && var n := |RpcPayloads(log[..i])|;
       && (0 < n <= |all| ==> Succeeded(all[n - 1], Bytes(log[i].payload), "capture"))
       && forall k :: n <= k < |all| ==> !Succeeded(all[k], answers[k], "close")
  }

  lemma FaithfulOpen(st: ServerState<CameraState>, i: nat)
    requires Faithful(CAMERA, CameraState(false, 0), st) && CaptureThenNoClose(st.log, i)
    ensures st.state.isOpen
  {
    hide HandleBytes, RunAll, Succeeded, Project;
    var start := CameraState(false, 0);
    var all := RpcPayloads(st.log);
    var answers := CameraSession(start, all).answers;
    assert SentIsAnswer(st.log, i, answers);
    var n := |RpcPayloads(st.log[..i])|;
    assert answers[n - 1] == Bytes(st.log[i].payload);
    OpenUntilClosed(start, all, n - 1, |all|);
    assert all[..|all|] == all;
  }

  lemma PrefixAnswers(s: CameraState, raws: seq<seq<byte>>, n: nat)
    requires n <= |raws|
    ensures CameraSession(s, raws[..n]).answers == CameraSession(s, raws).answers[..n]
  {
    assert raws == raws[..n] + raws[n..];
    RunAllSplits(Handler(CAMERA), s, raws[..n], raws[n..]);
  }
}
