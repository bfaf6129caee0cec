/** What every interleaving of calls, refreshes and servers keeps. */
module Interleavings {
  import opened Prelude
  import opened Messages
  import opened Sessions
  import opened Endpoint
  import opened Discovery
  import opened Registry
  import opened Gateway
  import opened System

  // ---------------------------------------------------------------- the invariant

  ghost predicate IsPublished(b: Board, r: nat) {
    Good(Some(r)) in b.commits
  }

  /** The service is the only match for the call in a registry that was published. */
  ghost predicate RouteOk(b: Board, call: Call, route: Route) {
    && route.found < |b.registries|
    && IsPublished(b, route.found)
    && IsUniqueMatch(call, b.registries[route.found].services, route.service)
  }

  /** The message is this thread's own, and went through its service's client. */
  ghost predicate SentOk(b: Board, t: nat, call: Call, route: Route, number: int, h: nat) {
    && h < |b.wire|
    && b.wire[h].owner == t
    && route.service.client == Some(Client(b.wire[h].endpoint))
    && b.wire[h].payload == RequestPayload(call, number)
  }

  ghost predicate EndingOk(b: Board, t: nat, call: Call, response: Response, ending: Ending) {
    match ending
    case NotSelected => response.Fails(METHOD_NOT_FOUND)
    case NoRegistry => response.Fails(METHOD_NOT_FOUND) && !call.RpcCall? && Good(None) in b.commits
    case NotSent(route) => RouteOk(b, call, route) && response.Fails(FailureCode(call))
    case TimedOut(route, number, h) =>
      RouteOk(b, call, route) && SentOk(b, t, call, route, number, h) && response.Fails(FailureCode(call))
    case Answered(route, number, h) =>
      && RouteOk(b, call, route) && SentOk(b, t, call, route, number, h)
      && b.wire[h].reply.Some? && response == AnswerFrom(call, b.wire[h].reply.value)
  }

  ghost predicate PcOk(b: Board, t: nat, call: Call, pc: Pc) {
    match pc
    case Start => true
    case Selected(route) => RouteOk(b, call, route)
    case Checked(route, via) => RouteOk(b, call, route) && route.service.client.Some? && via < |b.registries|
    case CounterRead(route, via, _) => RouteOk(b, call, route) && route.service.client.Some? && via < |b.registries|
    case CounterWritten(route, via) => RouteOk(b, call, route) && route.service.client.Some? && via < |b.registries|
    case Numbered(route, via, _) => RouteOk(b, call, route) && route.service.client.Some? && via < |b.registries|
    case Waiting(route, number, h) => RouteOk(b, call, route) && SentOk(b, t, call, route, number, h)
    case Finished(response, ending) => response.id == call.CallerId() && EndingOk(b, t, call, response, ending)
  }

  /** A commit refers to a registry that exists. */
  predicate CommitOk(b: Board, c: Commit<nat>) {
    c.Good? && c.registry.Some? ==> c.registry.value < |b.registries|
  }

  /** A report is the status at some commit no older than the thread's own. */
  ghost predicate ReportOk(b: Board, position: nat, status: Status) {
    && position < status.refreshCount <= |b.commits|
    && status == StatusOf(Replay(b.commits[..status.refreshCount]), SizeIn(b.registries))
  }

  ghost predicate StageOk(b: Board, stage: RefreshPc) {
    match stage
    case Building => true
    case Built(c) => CommitOk(b, c)
    case Committed(position) => position < |b.commits|
    case Reported(position, status) => ReportOk(b, position, status)
  }

  ghost predicate ThreadOk(b: Board, t: nat, thread: Thread) {
    match thread
    case CallThread(call, pc) => PcOk(b, t, call, pc)
    case RefreshThread(stage) => StageOk(b, stage)
  }

  ghost predicate BoardOk(b: Board) {
    && b.shared == Replay(b.commits)
    && forall k :: 0 <= k < |b.commits| ==> CommitOk(b, b.commits[k])
  }

  /** The message a call has sent. */
  function HandleOf(thread: Thread): Option<nat> {
    match thread
    case CallThread(_, Waiting(_, _, h)) => Some(h)
    case CallThread(_, Finished(_, TimedOut(_, _, h))) => Some(h)
    case CallThread(_, Finished(_, Answered(_, _, h))) => Some(h)
    case _ => None
  }

  ghost predicate MessageOk(threads: seq<Thread>, wire: seq<Message>, h: nat)
    requires h < |wire|
  {
    wire[h].owner < |threads| && HandleOf(threads[wire[h].owner]) == Some(h)
  }

  predicate AllBelow(handled: seq<nat>, n: nat) {
    forall i :: 0 <= i < |handled| ==> handled[i] < n
  }

  function PayloadsAt(wire: seq<Message>, handled: seq<nat>): (r: seq<seq<byte>>)
    requires AllBelow(handled, |wire|)
    ensures |r| == |handled|
  {
    seq(|handled|, i requires 0 <= i < |handled| => wire[handled[i]].payload)
  }

  /** The server has handled all messages for its endpoint up to its cursor, each once
      and in the order they were sent; its state is the sequential outcome of handling
      them, and the replies are the answers of that execution. */
  ghost predicate SlotOk<S>(wire: seq<Message>, endpoint: string, slot: Slot<S>) {
    && slot.cursor <= |wire|
    && AllBelow(slot.handled, slot.cursor)
    && (forall i, j :: 0 <= i < j < |slot.handled| ==> slot.handled[i] < slot.handled[j])
    && (forall h :: 0 <= h < slot.cursor ==> (wire[h].endpoint == endpoint <==> h in slot.handled))
    && var session := RunAll(Handler(slot.controller), slot.origin, PayloadsAt(wire, slot.handled));
       && slot.state == session.state
       && forall i :: 0 <= i < |slot.handled| && wire[slot.handled[i]].reply.Some? ==>
            session.answers[i] == Bytes(wire[slot.handled[i]].reply.value)
  }

  ghost predicate ServersOk<S>(wire: seq<Message>, servers: map<string, Slot<S>>) {
    && (forall e :: e in servers ==> SlotOk(wire, e, servers[e]))
    && forall h :: 0 <= h < |wire| && wire[h].reply.Some? ==>
         wire[h].endpoint in servers && h in servers[wire[h].endpoint].handled
  }

  ghost predicate ThreadsOk(b: Board, threads: seq<Thread>) {
    && (forall t :: 0 <= t < |threads| ==> ThreadOk(b, t, threads[t]))
    && forall h :: 0 <= h < |b.wire| ==> MessageOk(threads, b.wire, h)
  }

  ghost predicate StateOk<S>(s: State<S>) {
    BoardOk(s.board) && ThreadsOk(s.board, s.threads) && ServersOk(s.board.wire, s.servers)
  }

  // ---------------------------------------------------------------- how the board grows

  predicate WireGrows(w: seq<Message>, w': seq<Message>) {
    && |w| <= |w'|
    && forall h :: 0 <= h < |w| ==>
         && w'[h].owner == w[h].owner && w'[h].endpoint == w[h].endpoint && w'[h].payload == w[h].payload
         && (w[h].reply.Some? ==> w'[h].reply == w[h].reply)
  }

  predicate RegistriesGrow(r: seq<RegistryObject>, r': seq<RegistryObject>) {
    |r| <= |r'| && forall k :: 0 <= k < |r| ==> r'[k].services == r[k].services
  }

  /** Nothing published, committed or sent is ever taken back or altered. */
  predicate Grows(b: Board, b': Board) {
    b.commits <= b'.commits && RegistriesGrow(b.registries, b'.registries) && WireGrows(b.wire, b'.wire)
  }

  lemma PcOkGrows(b: Board, b': Board, t: nat, call: Call, pc: Pc)
    requires PcOk(b, t, call, pc) && Grows(b, b')
    ensures PcOk(b', t, call, pc)
  {
    hide RequestPayload, AnswerFrom, IsUniqueMatch, Replay;
    assert forall c :: c in b.commits ==> c in b'.commits;
  }

  lemma StageOkGrows(b: Board, b': Board, stage: RefreshPc)
    requires StageOk(b, stage) && Grows(b, b') && BoardOk(b)
    ensures StageOk(b', stage)
  {
    if stage.Reported? {
      var n := stage.status.refreshCount;
      assert b'.commits[..n] == b.commits[..n];
      CommitsAccount(b.commits[..n]);
    }
  }

  lemma ThreadOkGrows(b: Board, b': Board, t: nat, thread: Thread)
    requires ThreadOk(b, t, thread) && Grows(b, b') && BoardOk(b)
    ensures ThreadOk(b', t, thread)
  {
    match thread
    case CallThread(call, pc) => PcOkGrows(b, b', t, call, pc);
    case RefreshThread(stage) => StageOkGrows(b, b', stage);
  }

  // ---------------------------------------------------------------- thread steps

  lemma FirstLookOk(b: Board, t: nat, call: Call)
    requires BoardOk(b)
    ensures PcOk(b, t, call, FirstLook(b, call))
  {
    CommitsAccount(b.commits);
    if b.shared.registry.Some? {
      var r := b.shared.registry.value;
      var k: nat :| IsLatestGood(b.commits, k);
      assert b.commits[k] == Good(Some(r)) && CommitOk(b, b.commits[k]);
      var matches := call.Candidates(b.registries[r].services);
      if |matches| == 1 {
        assert matches == [matches[0]];
      }
    }
  }

  lemma SecondLookOk(b: Board, t: nat, call: Call, route: Route)
    requires BoardOk(b) && RouteOk(b, call, route)
    ensures PcOk(b, t, call, SecondLook(b, call, route))
  {
    CommitsAccount(b.commits);
    var j :| 0 <= j < |b.commits| && b.commits[j] == Good(Some(route.found));
    LatestGoodExists(b.commits, j);
    var k: nat :| IsLatestGood(b.commits, k);
    assert CommitOk(b, b.commits[k]);
    assert b.commits[k] == Good(b.shared.registry);
  }

  /** The effect of a thread step on the wire: none, or one new message of its own,
      which is its first. */
  ghost predicate SendsAtMostOnce(b: Board, b': Board, t: nat, before: Option<nat>, after: Option<nat>) {
    if b'.wire == b.wire then after == before
    else
      && before == None && after == Some(|b.wire|)
      && |b'.wire| == |b.wire| + 1 && b'.wire[..|b.wire|] == b.wire
      && b'.wire[|b.wire|].owner == t && b'.wire[|b.wire|].reply == None
  }

  ghost predicate StepOk(b: Board, b': Board, t: nat, call: Call, pc: Pc, pc': Pc) {
    && Grows(b, b') && BoardOk(b') && PcOk(b', t, call, pc')
    && b'.shared == b.shared && b'.commits == b.commits
    && SendsAtMostOnce(b, b', t, HandleOf(CallThread(call, pc)), HandleOf(CallThread(call, pc')))
  }

  lemma CountOk(b: Board, t: nat, call: Call, route: Route, via: nat, seen: int)
    requires BoardOk(b) && PcOk(b, t, call, CounterRead(route, via, seen))
    ensures StepOk(b, SetCounter(b, via, seen + 1), t, call, CounterRead(route, via, seen), CounterWritten(route, via))
  {
    hide Replay, IsUniqueMatch;
    PcOkGrows(b, SetCounter(b, via, seen + 1), t, call, CounterRead(route, via, seen));
  }

  lemma SendOk(b: Board, t: nat, call: Call, pc: Pc)
    requires BoardOk(b) && PcOk(b, t, call, pc) && pc.Numbered?
    ensures var (b', pc') := CallStep(b, t, call, pc, None);
            StepOk(b, b', t, call, pc, pc')
  {
    hide RequestPayload, Replay, IsUniqueMatch;
    var (b', pc') := CallStep(b, t, call, pc, None);
    assert b'.wire[..|b.wire|] == b.wire;
    PcOkGrows(b, b', t, call, pc);
  }

  lemma ReceiveOk(b: Board, t: nat, call: Call, pc: Pc, fault: Option<string>)
    requires BoardOk(b) && PcOk(b, t, call, pc) && pc.Waiting?
    ensures var (b', pc') := CallStep(b, t, call, pc, fault);
            StepOk(b, b', t, call, pc, pc')
  {
    hide RequestPayload, Replay, IsUniqueMatch, DecodeResponse;
  }

  /** A step of a call keeps its own facts, alters nothing that is shared except the
      counter, and sends at most its one message. */
  lemma CallStepOk(b: Board, t: nat, call: Call, pc: Pc, fault: Option<string>)
    requires BoardOk(b) && PcOk(b, t, call, pc)
    ensures var (b', pc') := CallStep(b, t, call, pc, fault);
            StepOk(b, b', t, call, pc, pc')
  {
    hide RequestPayload, AnswerFrom, Replay, IsUniqueMatch, FirstLook, SecondLook, CommitOk, IsPublished;
    match pc
    case Start =>
      FirstLookOk(b, t, call);
      LooksSendNothing(b, call, pc);
    case Selected(route) =>
      SecondLookOk(b, t, call, route);
      LooksSendNothing(b, call, pc);
    case Checked(route, via) =>
    case CounterRead(route, via, seen) => CountOk(b, t, call, route, via, seen);
    case CounterWritten(route, via) =>
    case Numbered(route, via, number) =>
      if fault == None {
        SendOk(b, t, call, pc);
      }
    case Waiting(route, number, h) => ReceiveOk(b, t, call, pc, fault);
    case Finished(response, ending) =>
  }

  lemma LooksSendNothing(b: Board, call: Call, pc: Pc)
    ensures HandleOf(CallThread(call, FirstLook(b, call))) == None
    ensures pc.Selected? ==> HandleOf(CallThread(call, SecondLook(b, call, pc.route))) == None
  {
  }

  lemma BuildOk(b: Board, factory: Factory)
    requires BoardOk(b)
    ensures var (b', stage') := Build(b, factory);
            && Grows(b, b') && BoardOk(b') && StageOk(b', stage') && b'.wire == b.wire
  {
    hide BuiltServices, Replay;
  }

  lemma CommitKeepsOk(b: Board, c: Commit<nat>)
    requires BoardOk(b) && CommitOk(b, c)
    ensures var b' := b.(shared := Apply(b.shared, c), commits := b.commits + [c]);
            && Grows(b, b') && BoardOk(b')
  {
    hide Replay, Apply;
    var b' := b.(shared := Apply(b.shared, c), commits := b.commits + [c]);
    ReplayExtends(b.commits, c);
    assert b'.commits[..|b.commits|] == b.commits;
    forall k | 0 <= k < |b'.commits| ensures CommitOk(b', b'.commits[k]) {
      assert b'.commits[k] == if k < |b.commits| then b.commits[k] else c;
    }
  }

  /** What a refresh reports is the state after some commit no older than its own. */
  lemma ReportedNow(b: Board, position: nat)
    requires BoardOk(b) && position < |b.commits|
    ensures ReportOk(b, position, StatusOf(b.shared, SizeIn(b.registries)))
  {
    CommitsAccount(b.commits);
    hide Replay, SizeIn;
    assert b.commits[..|b.commits|] == b.commits;
  }

  lemma RefreshStepOk(b: Board, stage: RefreshPc, factory: Factory)
    requires BoardOk(b) && StageOk(b, stage)
    ensures var (b', stage') := RefreshStep(b, stage, factory);
            && Grows(b, b') && BoardOk(b') && StageOk(b', stage') && b'.wire == b.wire
  {
    hide Build, Replay, Apply, StatusOf, SizeIn, ReportOk, CommitOk;
    match stage
    case Building => BuildOk(b, factory);
    case Built(c) => CommitKeepsOk(b, c);
    case Committed(position) => ReportedNow(b, position);
    case Reported(_, _) =>
  }

  lemma OtherThreadsOk(b: Board, b': Board, threads: seq<Thread>, t: nat, thread': Thread)
    requires BoardOk(b) && ThreadsOk(b, threads) && Grows(b, b') && t < |threads|
    requires ThreadOk(b', t, thread')
    requires SendsAtMostOnce(b, b', t, HandleOf(threads[t]), HandleOf(thread'))
    ensures ThreadsOk(b', threads[t := thread'])
  {
    hide ThreadOk;
    var threads' := threads[t := thread'];
    forall u | 0 <= u < |threads| ensures ThreadOk(b', u, threads'[u]) {
      if u != t {
        ThreadOkGrows(b, b', u, threads[u]);
      }
    }
    forall h | 0 <= h < |b'.wire| ensures MessageOk(threads', b'.wire, h) {
      if h < |b.wire| {
        assert MessageOk(threads, b.wire, h);
      }
    }
  }

  // ---------------------------------------------------------------- server steps

  lemma SlotOkGrows<S>(wire: seq<Message>, wire': seq<Message>, endpoint: string, slot: Slot<S>)
    requires SlotOk(wire, endpoint, slot) && WireGrows(wire, wire')
    requires forall h :: 0 <= h < |wire| && wire[h].endpoint == endpoint ==> wire'[h] == wire[h]
    ensures SlotOk(wire', endpoint, slot)
  {
    hide RunAll;
    assert PayloadsAt(wire', slot.handled) == PayloadsAt(wire, slot.handled);
  }

  lemma SentMessageKeepsServersOk<S>(wire: seq<Message>, wire': seq<Message>, servers: map<string, Slot<S>>)
    requires ServersOk(wire, servers)
    requires |wire'| == |wire| + 1 && wire'[..|wire|] == wire && wire'[|wire|].reply == None
    ensures ServersOk(wire', servers)
  {
    hide SlotOk;
    assert forall h :: 0 <= h < |wire| ==> wire'[h] == wire'[..|wire|][h] == wire[h];
    forall e | e in servers ensures SlotOk(wire', e, servers[e]) {
      SlotOkGrows(wire, wire', e, servers[e]);
    }
  }

  lemma SlotOkAfterServing<S>(
      wire: seq<Message>, endpoint: string, slot: Slot<S>, h: nat, step: Step<S, ByteAnswer>, replied: bool, wire': seq<Message>)
    requires SlotOk(wire, endpoint, slot) && slot.cursor <= h < |wire|
    requires h == NextFor(wire, endpoint, slot.cursor)
    requires step == HandleBytes(slot.controller, slot.state, wire[h].payload)
    requires replied ==> step.answer.Bytes?
    requires wire[h].reply == None
    requires wire' == if replied then wire[h := wire[h].(reply := Some(step.answer.payload))] else wire
    ensures SlotOk(wire', endpoint, slot.(state := step.state, handled := slot.handled + [h], cursor := h + 1, up := replied))
  {
    hide HandleBytes, RunAll;
    var handled := slot.handled + [h];
    var old' := PayloadsAt(wire, slot.handled);
    assert PayloadsAt(wire', handled) == old' + [wire[h].payload];
    RunAllExtends(Handler(slot.controller), slot.origin, old', wire[h].payload);
    assert forall k :: k in handled <==> k in slot.handled || k == h;
    forall k | 0 <= k < h + 1 ensures wire'[k].endpoint == endpoint <==> k in handled {
      assert wire'[k].endpoint == wire[k].endpoint;
      assert k < slot.cursor ==> k != h;
    }
  }

  lemma ServersOkAfterServing<S>(
      wire: seq<Message>, servers: map<string, Slot<S>>, endpoint: string, h: nat, slot': Slot<S>, wire': seq<Message>)
    requires ServersOk(wire, servers) && endpoint in servers
    requires h < |wire| && wire[h].endpoint == endpoint && |wire'| == |wire| && WireGrows(wire, wire')
    requires forall k :: 0 <= k < |wire| && k != h ==> wire'[k] == wire[k]
    requires SlotOk(wire', endpoint, slot') && slot'.handled == servers[endpoint].handled + [h]
    ensures ServersOk(wire', servers[endpoint := slot'])
  {
    hide SlotOk;
    var servers' := servers[endpoint := slot'];
    forall e | e in servers' ensures SlotOk(wire', e, servers'[e]) {
      if e != endpoint {
        SlotOkGrows(wire, wire', e, servers[e]);
      }
    }
    forall k | 0 <= k < |wire'| && wire'[k].reply.Some?
      ensures wire'[k].endpoint in servers' && k in servers'[wire'[k].endpoint].handled
    {
      assert wire'[k].endpoint == wire[k].endpoint;
      if k != h {
        assert k in servers[wire[k].endpoint].handled;
      } else {
        assert slot'.handled[|servers[endpoint].handled|] == h;
      }
    }
  }

  lemma ServeKeepsOk<S>(s: State<S>, endpoint: string, lost: bool)
    requires StateOk(s)
    ensures StateOk(Serve(s, endpoint, lost))
  {
    hide HandleBytes, SlotOk;
    var s' := Serve(s, endpoint, lost);
    if endpoint in s.servers && s.servers[endpoint].up {
      var slot, wire := s.servers[endpoint], s.board.wire;
      HandledIsBehindCursor(wire, endpoint, slot);
      var h := NextFor(wire, endpoint, slot.cursor);
      if h < |wire| {
        var step := HandleBytes(slot.controller, slot.state, wire[h].payload);
        assert wire[h].reply == None;
        SlotOkAfterServing(wire, endpoint, slot, h, step, step.answer.Bytes? && !lost, s'.board.wire);
        ServersOkAfterServing(wire, s.servers, endpoint, h, s'.servers[endpoint], s'.board.wire);
        BoardWithReplyOk(s.board, s'.board, s.threads);
      }
    }
  }

  lemma HandledIsBehindCursor<S>(wire: seq<Message>, endpoint: string, slot: Slot<S>)
    requires SlotOk(wire, endpoint, slot)
    ensures slot.cursor <= |wire|
    ensures forall h :: h in slot.handled ==> h < slot.cursor
  {
    hide RunAll;
  }

  lemma BoardWithReplyOk(b: Board, b': Board, threads: seq<Thread>)
    requires BoardOk(b) && ThreadsOk(b, threads)
    requires b' == b.(wire := b'.wire) && WireGrows(b.wire, b'.wire) && |b'.wire| == |b.wire|
    ensures BoardOk(b') && ThreadsOk(b', threads)
  {
    hide ThreadOk;
    forall t | 0 <= t < |threads| ensures ThreadOk(b', t, threads[t]) {
      ThreadOkGrows(b, b', t, threads[t]);
    }
    forall h | 0 <= h < |b'.wire| ensures MessageOk(threads, b'.wire, h) {
      assert MessageOk(threads, b.wire, h);
    }
  }

  // ---------------------------------------------------------------- every step, every run

  lemma SpawnKeepsOk<S>(s: State<S>, thread: Thread)
    requires StateOk(s) && ThreadOk(s.board, |s.threads|, thread)
    ensures StateOk(s.(threads := s.threads + [thread]))
  {
    hide ThreadOk, ServersOk;
    var threads := s.threads + [thread];
    forall h | 0 <= h < |s.board.wire| ensures MessageOk(threads, s.board.wire, h) {
      assert MessageOk(s.threads, s.board.wire, h);
    }
  }

  lemma AdvanceKeepsOk<S>(s: State<S>, t: nat, fault: Option<string>, factory: Factory)
    requires StateOk(s) && t < |s.threads|
    ensures StateOk(Next(s, Advance(t, fault, factory)))
  {
    hide CallStep, RefreshStep, PcOk, StageOk, ServersOk, BoardOk;
    assert ThreadOk(s.board, t, s.threads[t]);
    match s.threads[t]
    case CallThread(call, pc) =>
      CallStepOk(s.board, t, call, pc, fault);
      var (b', pc') := CallStep(s.board, t, call, pc, fault);
      OtherThreadsOk(s.board, b', s.threads, t, CallThread(call, pc'));
      if b'.wire != s.board.wire {
        SentMessageKeepsServersOk(s.board.wire, b'.wire, s.servers);
      }
    case RefreshThread(stage) =>
      RefreshStepOk(s.board, stage, factory);
      var (b', stage') := RefreshStep(s.board, stage, factory);
      OtherThreadsOk(s.board, b', s.threads, t, RefreshThread(stage'));
  }

  lemma StopKeepsOk<S>(s: State<S>, endpoint: string)
    requires StateOk(s)
    ensures StateOk(Next(s, Stop(endpoint)))
  {
    hide RunAll, BoardOk, ThreadsOk;
  }

  lemma NextKeepsOk<S>(s: State<S>, a: Action)
    requires StateOk(s)
    ensures StateOk(Next(s, a))
  {
    hide StateOk;
    match a
    case Call(call) => SpawnKeepsOk(s, CallThread(call, Start));
    case Refresh => SpawnKeepsOk(s, RefreshThread(Building));
    case ServeOne(endpoint, lost) => ServeKeepsOk(s, endpoint, lost);
    case Stop(endpoint) => StopKeepsOk(s, endpoint);
    case Advance(t, fault, factory) =>
      if t < |s.threads| {
        AdvanceKeepsOk(s, t, fault, factory);
      }
  }

  lemma InitialIsOk<S>(s: State<S>)
    requires Initial(s)
    ensures StateOk(s)
  {
  }

  /** The invariant holds in every state of every run. */
  lemma {:induction false} EveryRunIsOk<S>(s: State<S>, actions: seq<Action>)
    requires Initial(s)
    ensures StateOk(Run(s, actions))
    decreases actions
  {
    if actions == [] {
      InitialIsOk(s);
    } else {
      EveryRunIsOk(s, actions[..|actions| - 1]);
      NextKeepsOk(Run(s, actions[..|actions| - 1]), actions[|actions| - 1]);
    }
  }

  lemma ServeGrows<S>(s: State<S>, endpoint: string, lost: bool)
    requires StateOk(s)
    ensures Grows(s.board, Serve(s, endpoint, lost).board)
  {
    hide HandleBytes, SlotOk, BoardOk, ThreadsOk;
    if endpoint in s.servers {
      HandledIsBehindCursor(s.board.wire, endpoint, s.servers[endpoint]);
    }
  }

  lemma NextGrows<S>(s: State<S>, a: Action)
    requires StateOk(s)
    ensures Grows(s.board, Next(s, a).board)
  {
    hide CallStep, RefreshStep, PcOk, StageOk, ServersOk, BoardOk, Serve;
    match a
    case ServeOne(endpoint, lost) => ServeGrows(s, endpoint, lost);
    case Advance(t, fault, factory) =>
      if t < |s.threads| {
        assert ThreadOk(s.board, t, s.threads[t]);
        match s.threads[t]
        case CallThread(call, pc) => CallStepOk(s.board, t, call, pc, fault);
        case RefreshThread(stage) => RefreshStepOk(s.board, stage, factory);
      }
    case _ =>
  }

  /** As a run goes on, the board only grows. */
  lemma {:induction false} RunGrows<S>(s: State<S>, actions: seq<Action>, later: seq<Action>)
    requires Initial(s)
    ensures Grows(Run(s, actions).board, Run(s, actions + later).board)
    decreases later
  {
    if later == [] {
      assert actions + later == actions;
    } else {
      hide Next, StateOk, Initial;
      var n := |later| - 1;
      var front := actions + later[..n];
      assert (actions + later)[..|actions + later| - 1] == front;
      RunGrows(s, actions, later[..n]);
      EveryRunIsOk(s, front);
      NextGrows(Run(s, front), later[n]);
    }
  }
}
