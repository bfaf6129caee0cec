/** Where the threads, commits and servers of a run come from: each claim names the
    actions of the run that account for what its last state holds. */
module Histories {
  import opened Prelude
  import opened Json
  import opened Messages
  import opened Endpoint
  import opened Discovery
  import opened Registry
  import opened Gateway
  import opened System
  import opened Interleavings

  // ---------------------------------------------------------------- threads

  /** What one action does to one thread. */
  lemma ThreadAfter<S>(s: State<S>, a: Action, t: nat)
    ensures |s.threads| <= |Next(s, a).threads| <= |s.threads| + 1
    ensures t == |s.threads| < |Next(s, a).threads| ==>
              || (a.Call? && Next(s, a).threads[t] == CallThread(a.call, Start))
              || (a == Refresh && Next(s, a).threads[t] == RefreshThread(Building))
    ensures t < |s.threads| && !(a.Advance? && a.thread == t) ==> Next(s, a).threads[t] == s.threads[t]
    ensures t < |s.threads| && a.Advance? && a.thread == t ==>
              (match s.threads[t]
               case CallThread(call, pc) => Next(s, a).threads[t] == CallThread(call, CallStep(s.board, t, call, pc, a.fault).1)
               case RefreshThread(stage) => Next(s, a).threads[t] == RefreshThread(RefreshStep(s.board, stage, a.factory).1))
  {
    hide CallStep, RefreshStep, HandleBytes;
  }

  lemma RunStep<S>(s: State<S>, actions: seq<Action>)
    requires actions != []
    ensures Run(s, actions) == Next(Run(s, actions[..|actions| - 1]), actions[|actions| - 1])
    ensures forall k :: 0 <= k < |actions| ==> actions[..|actions| - 1][..k] == actions[..k]
  {
  }

  /** Action number k advances this thread. */
  predicate Moves<S>(s: State<S>, actions: seq<Action>, k: nat, t: nat, thread: Thread) {
    && k < |actions| && actions[k].Advance? && actions[k].thread == t
    && t < |Run(s, actions[..k]).threads| && Run(s, actions[..k]).threads[t] == thread
  }

  /** Action number k starts thread t: the call, or a refresh. */
  predicate Starts<S>(s: State<S>, actions: seq<Action>, k: nat, t: nat, thread: Thread) {
    && k < |actions| && |Run(s, actions[..k]).threads| == t
    && match thread
       case CallThread(call, _) => actions[k] == Action.Call(call)
       case RefreshThread(_) => actions[k] == Refresh
  }

  /** Every thread was started by an action, and a call still is the call it was started as. */
  lemma {:induction false} EveryThreadWasStarted<S>(s: State<S>, actions: seq<Action>, t: nat)
    requires s.threads == [] && t < |Run(s, actions).threads|
    ensures exists k :: Starts(s, actions, k, t, Run(s, actions).threads[t])
    decreases actions
  {
    if actions != [] {
      hide Next, Run, CallStep, RefreshStep;
      var n := |actions| - 1;
      var front := actions[..n];
      RunStep(s, actions);
      ThreadAfter(Run(s, front), actions[n], t);
      if t < |Run(s, front).threads| {
        EveryThreadWasStarted(s, front, t);
        var k :| Starts(s, front, k, t, Run(s, front).threads[t]);
        assert Starts(s, actions, k, t, Run(s, actions).threads[t]);
      } else {
        assert Starts(s, actions, n, t, Run(s, actions).threads[t]);
      }
    } else {
      assert false;
    }
  }

  /** Every action that starts a call has its thread, which stays that call's. */
  lemma {:induction false} EveryCallHasItsThread<S>(s: State<S>, actions: seq<Action>, k: nat)
    requires k < |actions| && actions[k].Call?
    ensures var t := |Run(s, actions[..k]).threads|;
            && t < |Run(s, actions).threads|
            && Run(s, actions).threads[t].CallThread? && Run(s, actions).threads[t].call == actions[k].call
    decreases actions
  {
    hide Run, CallStep, RefreshStep;
    var n := |actions| - 1;
    RunStep(s, actions);
    if k < n {
      hide Next;
      EveryCallHasItsThread(s, actions[..n], k);
      ThreadAfter(Run(s, actions[..n]), actions[n], |Run(s, actions[..k]).threads|);
    }
  }

  // ---------------------------------------------------------------- looks at the registry

  /** The services the call may go to by the registry that is active. */
  function CandidatesNow(b: Board, call: Call): seq<Service> {
    match b.shared.registry
    case None => []
    case Some(r) => call.Candidates(ServicesOf(b, r))
  }

  /** The service a call has selected; it forgets it only if it then finds no registry. */
  function RouteOf(pc: Pc): Option<Route> {
    match pc
    case Start => None
    case Finished(_, ending) =>
      (match ending
       case NotSelected => None
       case NoRegistry => None
       case _ => Some(ending.route))
    case _ => Some(pc.route)
  }

  predicate Unselected(pc: Pc) {
    pc.Finished? && pc.ending.NotSelected?
  }

  /** The call has been treated as the registry active in this state demands: turned
      away if and only if there is not exactly one candidate, and otherwise routed to it. */
  predicate SelectedBy(b: Board, call: Call, pc: Pc) {
    && pc != Start
    && (Unselected(pc) <==> |CandidatesNow(b, call)| != 1)
    && (RouteOf(pc).Some? ==>
          && b.shared.registry == Some(RouteOf(pc).value.found)
          && CandidatesNow(b, call) == [RouteOf(pc).value.service])
  }

  lemma StepKeepsSelection(earlier: Board, b: Board, t: nat, call: Call, pc: Pc, fault: Option<string>)
    requires SelectedBy(earlier, call, pc)
    ensures SelectedBy(earlier, call, CallStep(b, t, call, pc, fault).1)
  {
    hide RequestPayload, AnswerFrom, CandidatesNow;
  }

  lemma FirstLookSelects(b: Board, call: Call)
    ensures SelectedBy(b, call, FirstLook(b, call))
  {
    var matches := CandidatesNow(b, call);
    if |matches| == 1 {
      assert matches == [matches[0]];
    }
  }

  /** Action number k is the first step of this call, and the call has been treated as
      the registry active just then demands. */
  predicate LookedUp<S>(s: State<S>, actions: seq<Action>, k: nat, t: nat, call: Call, pc: Pc) {
    Moves(s, actions, k, t, CallThread(call, Start)) && SelectedBy(Run(s, actions[..k]).board, call, pc)
  }

  lemma {:induction false} CallLookedUp<S>(s: State<S>, actions: seq<Action>, t: nat)
    requires s.threads == []
    requires t < |Run(s, actions).threads| && Run(s, actions).threads[t].CallThread?
    requires Run(s, actions).threads[t].pc != Start
    ensures exists k: nat :: LookedUp(s, actions, k, t, Run(s, actions).threads[t].call, Run(s, actions).threads[t].pc)
    decreases actions
  {
    if actions != [] {
      hide Next, Run, CallStep, RefreshStep, SelectedBy;
      var n := |actions| - 1;
      var front := Run(s, actions[..n]);
      RunStep(s, actions);
      ThreadAfter(front, actions[n], t);
      var CallThread(call, pc) := front.threads[t];
      if pc == Start {
        FirstLookSelects(front.board, call);
        assert CallStep(front.board, t, call, Start, actions[n].fault).1 == FirstLook(front.board, call) by {
          FirstStepLooks(front.board, t, call, actions[n].fault);
        }
        assert LookedUp(s, actions, n, t, call, Run(s, actions).threads[t].pc);
      } else {
        CallLookedUp(s, actions[..n], t);
        var k: nat :| LookedUp(s, actions[..n], k, t, call, pc);
        if actions[n].Advance? && actions[n].thread == t {
          StepKeepsSelection(Run(s, actions[..k]).board, front.board, t, call, pc, actions[n].fault);
        }
        assert LookedUp(s, actions, k, t, call, Run(s, actions).threads[t].pc);
      }
    } else {
      assert false;
    }
  }

  lemma FirstStepLooks(b: Board, t: nat, call: Call, fault: Option<string>)
    ensures CallStep(b, t, call, Start, fault) == (b, FirstLook(b, call))
  {
  }

  predicate HitNoRegistry(pc: Pc) {
    pc.Finished? && pc.ending.NoRegistry?
  }

  predicate PastSecondLook(pc: Pc) {
    !pc.Start? && !pc.Selected? && !Unselected(pc)
  }

  /** The registry whose counter a call uses, while it still does. */
  function ViaOf(pc: Pc): Option<nat> {
    match pc
    case Checked(_, via) => Some(via)
    case CounterRead(_, via, _) => Some(via)
    case CounterWritten(_, via) => Some(via)
    case Numbered(_, via, _) => Some(via)
    case _ => None
  }

  /** The registry this call goes through, if it looks now: the one it has already, for
      `call_rpc`, and the active one for the others. */
  function ViaNow(b: Board, call: Call, route: Route): Option<nat> {
    if call.RpcCall? then Some(route.found) else b.shared.registry
  }

  /** Action number k is the second look of this call, and the call ends without a
      registry if and only if none is active just then; otherwise it takes its number from
      the one that is; `call_rpc` does not look again. */
  predicate LookedAgain<S>(s: State<S>, actions: seq<Action>, k: nat, t: nat, call: Call, route: Route, pc: Pc) {
    && Moves(s, actions, k, t, CallThread(call, Selected(route)))
    && (HitNoRegistry(pc) <==> ViaNow(Run(s, actions[..k]).board, call, route) == None)
    && (ViaOf(pc).Some? ==> ViaNow(Run(s, actions[..k]).board, call, route) == ViaOf(pc))
  }

  lemma StepKeepsSecondLook(b: Board, t: nat, call: Call, pc: Pc, fault: Option<string>)
    ensures PastSecondLook(pc) ==>
              var pc' := CallStep(b, t, call, pc, fault).1;
              && PastSecondLook(pc') && (HitNoRegistry(pc') <==> HitNoRegistry(pc))
              && (ViaOf(pc').Some? ==> ViaOf(pc') == ViaOf(pc))
    ensures pc.Selected? ==>
              var pc' := CallStep(b, t, call, pc, fault).1;
              && (HitNoRegistry(pc') <==> ViaNow(b, call, pc.route) == None)
              && (ViaOf(pc').Some? ==> ViaNow(b, call, pc.route) == ViaOf(pc'))
    ensures pc.Start? ==> !PastSecondLook(CallStep(b, t, call, pc, fault).1)
  {
    hide RequestPayload, AnswerFrom;
  }

  lemma {:induction false} CallLookedAgain<S>(s: State<S>, actions: seq<Action>, t: nat)
    requires s.threads == []
    requires t < |Run(s, actions).threads| && Run(s, actions).threads[t].CallThread?
    requires PastSecondLook(Run(s, actions).threads[t].pc)
    ensures var thread := Run(s, actions).threads[t];
            exists k: nat, route :: LookedAgain(s, actions, k, t, thread.call, route, thread.pc)
    decreases actions
  {
    if actions != [] {
      hide Next, Run, CallStep, RefreshStep, HitNoRegistry, ViaOf, ViaNow;
      var n := |actions| - 1;
      var front := Run(s, actions[..n]);
      RunStep(s, actions);
      ThreadAfter(front, actions[n], t);
      var CallThread(call, pc) := front.threads[t];
      var pc' := Run(s, actions).threads[t].pc;
      if actions[n].Advance? && actions[n].thread == t {
        StepKeepsSecondLook(front.board, t, call, pc, actions[n].fault);
      }
      if pc.Selected? {
        assert LookedAgain(s, actions, n, t, call, pc.route, pc');
      } else {
        CallLookedAgain(s, actions[..n], t);
        var k, route :| LookedAgain(s, actions[..n], k, t, call, route, pc);
        assert LookedAgain(s, actions, k, t, call, route, pc');
      }
    } else {
      assert false;
    }
  }

  // ---------------------------------------------------------------- failures

  /** The response reports this failure: `call_rpc` as an unknown method, the other calls
      as an internal error. */
  predicate ReportsFailure(call: Call, response: Response, text: string) {
    && response.id == call.CallerId() && response.result == Null
    && response.error == Some(if call.RpcCall? then ErrorObject(-32601, text, Null)
                              else ErrorObject(-32603, "Gateway call failed", Str(text)))
  }

  predicate HasFailed(pc: Pc) {
    pc.Finished? && (pc.ending.NotSent? || pc.ending.TimedOut?)
  }

  /** Action number k is a step of this call, at sending or waiting, that raises this. */
  predicate Raised<S>(s: State<S>, actions: seq<Action>, k: nat, t: nat, call: Call, before: Pc, text: string) {
    && (before.Numbered? || before.Waiting?)
    && Moves(s, actions, k, t, CallThread(call, before)) && actions[k].fault == Some(text)
  }

  /** A call that has failed reports why: its service had no client, or what one of its
      own steps has raised. */
  ghost predicate FailedFor<S>(s: State<S>, actions: seq<Action>, t: nat, call: Call, pc: Pc, text: string) {
    && HasFailed(pc) && ReportsFailure(call, pc.response, text)
    && (|| (pc.ending.NotSent? && pc.ending.route.service.client == None && text == "Service has no opened RPC client")
        || exists k: nat, before :: Raised(s, actions, k, t, call, before, text))
  }

  lemma {:induction false} FailedCallReportsWhy<S>(s: State<S>, actions: seq<Action>, t: nat) returns (text: string)
    requires s.threads == []
    requires t < |Run(s, actions).threads| && Run(s, actions).threads[t].CallThread?
    requires HasFailed(Run(s, actions).threads[t].pc)
    ensures FailedFor(s, actions, t, Run(s, actions).threads[t].call, Run(s, actions).threads[t].pc, text)
    decreases actions
  {
    if actions != [] {
      hide Next, Run, CallStep, RefreshStep, ReportsFailure;
      var n := |actions| - 1;
      var front := Run(s, actions[..n]);
      RunStep(s, actions);
      ThreadAfter(front, actions[n], t);
      var CallThread(call, pc) := front.threads[t];
      var pc' := Run(s, actions).threads[t].pc;
      if pc' == pc {
        text := FailedCallReportsWhy(s, actions[..n], t);
        if k: nat, before :| Raised(s, actions[..n], k, t, call, before, text) {
          assert Raised(s, actions, k, t, call, before, text);
        }
      } else {
        text := StepFails(front.board, t, call, pc, actions[n].fault);
        assert actions[n].fault == Some(text) ==> Moves(s, actions, n, t, CallThread(call, pc));
        if pc.Numbered? || pc.Waiting? {
          assert Raised(s, actions, n, t, call, pc, text);
        }
      }
    } else {
      assert false;
    }
  }

  lemma StepFails(b: Board, t: nat, call: Call, pc: Pc, fault: Option<string>) returns (text: string)
    requires var pc' := CallStep(b, t, call, pc, fault).1;
             HasFailed(pc') && pc' != pc
    ensures var pc' := CallStep(b, t, call, pc, fault).1;
            && ReportsFailure(call, pc'.response, text)
            && (if pc.Selected? then
                  && pc'.ending.NotSent? && pc'.ending.route.service.client == None
                  && text == "Service has no opened RPC client"
                else (pc.Numbered? || pc.Waiting?) && fault == Some(text))
  {
    hide RequestPayload, AnswerFrom, FirstLook;
    assert !HasFailed(FirstLook(b, call)) by {
      FirstLookNeverFails(b, call);
    }
    text := if fault.Some? && !pc.Selected? then fault.value else NO_CLIENT.message;
  }

  lemma FirstLookNeverFails(b: Board, call: Call)
    ensures !HasFailed(FirstLook(b, call))
  {
  }

  // ---------------------------------------------------------------- commits

  /** The number of the commit a refresh has made. */
  function PositionOf(thread: Thread): Option<nat> {
    match thread
    case RefreshThread(Committed(position)) => Some(position)
    case RefreshThread(Reported(position, _)) => Some(position)
    case _ => None
  }

  predicate HasCommitted(threads: seq<Thread>, t: nat, position: nat) {
    t < |threads| && PositionOf(threads[t]) == Some(position)
  }

  /** The refreshes past their lock section. */
  function PastLock(threads: seq<Thread>): set<nat> {
    set t: nat | t < |threads| && PositionOf(threads[t]).Some?
  }

  /** Refreshes past their lock section and commits correspond one to one. */
  ghost predicate OneCommitEach(threads: seq<Thread>, commits: nat) {
    && |PastLock(threads)| == commits
    && (forall t: nat, position: nat :: HasCommitted(threads, t, position) ==> position < commits)
    && (forall t: nat, u: nat, position: nat :: HasCommitted(threads, t, position) && HasCommitted(threads, u, position) ==> t == u)
    && (forall position: nat :: position < commits ==> IsCommitted(threads, position))
  }

  ghost predicate IsCommitted(threads: seq<Thread>, position: nat) {
    exists t :: HasCommitted(threads, t, position)
  }

  /** A step that changes no position. */
  lemma SamePositions(threads: seq<Thread>, threads': seq<Thread>, commits: nat)
    requires OneCommitEach(threads, commits)
    requires forall t, position :: HasCommitted(threads, t, position) <==> HasCommitted(threads', t, position)
    ensures OneCommitEach(threads', commits)
  {
    assert PastLock(threads') == PastLock(threads) by {
      SameAreLocked(threads, threads');
      SameAreLocked(threads', threads);
    }
    forall position: nat | position < commits ensures IsCommitted(threads', position) {
      assert IsCommitted(threads, position);
    }
  }

  lemma SameAreLocked(threads: seq<Thread>, threads': seq<Thread>)
    requires forall t, position :: HasCommitted(threads, t, position) ==> HasCommitted(threads', t, position)
    ensures PastLock(threads) <= PastLock(threads')
  {
    forall t | t in PastLock(threads) ensures t in PastLock(threads') {
      assert HasCommitted(threads, t, PositionOf(threads[t]).value);
    }
  }

  /** A lock section: thread t makes the next commit. */
  lemma OneMorePosition(threads: seq<Thread>, t: nat, commits: nat)
    requires OneCommitEach(threads, commits)
    requires t < |threads| && PositionOf(threads[t]) == None
    ensures OneCommitEach(threads[t := RefreshThread(Committed(commits))], commits + 1)
  {
    var threads' := threads[t := RefreshThread(Committed(commits))];
    assert PastLock(threads') == PastLock(threads) + {t};
    assert HasCommitted(threads', t, commits);
    assert forall u, position :: u != t ==> (HasCommitted(threads, u, position) <==> HasCommitted(threads', u, position));
    forall position: nat | position < commits + 1 ensures IsCommitted(threads', position) {
      if position < commits {
        assert IsCommitted(threads, position);
      }
    }
  }

  lemma NextKeepsOneCommitEach<S>(s: State<S>, a: Action)
    requires OneCommitEach(s.threads, |s.board.commits|)
    ensures OneCommitEach(Next(s, a).threads, |Next(s, a).board.commits|)
  {
    hide CallStep, HandleBytes, OneCommitEach;
    var s' := Next(s, a);
    if a.Advance? && a.thread < |s.threads| && s.threads[a.thread].RefreshThread? && s.threads[a.thread].stage.Built? {
      OneMorePosition(s.threads, a.thread, |s.board.commits|);
    } else {
      if a.Advance? && a.thread < |s.threads| && s.threads[a.thread].CallThread? {
        CallKeepsRegistries(s.board, a.thread, s.threads[a.thread].call, s.threads[a.thread].pc, a.fault);
      }
      forall t, position ensures HasCommitted(s.threads, t, position) <==> HasCommitted(s'.threads, t, position) {
        ThreadAfter(s, a, t);
      }
      SamePositions(s.threads, s'.threads, |s.board.commits|);
    }
  }

  lemma CallKeepsRegistries(b: Board, t: nat, call: Call, pc: Pc, fault: Option<string>)
    ensures var b' := CallStep(b, t, call, pc, fault).0;
            && b'.commits == b.commits && |b'.registries| == |b.registries|
            && forall r :: 0 <= r < |b.registries| ==> b'.registries[r].services == b.registries[r].services
  {
    hide RequestPayload, AnswerFrom, FirstLook, SecondLook;
  }

  lemma {:induction false} EveryCommitIsOneRefresh<S>(s: State<S>, actions: seq<Action>)
    requires Initial(s)
    ensures OneCommitEach(Run(s, actions).threads, |Run(s, actions).board.commits|)
    decreases actions
  {
    if actions != [] {
      EveryCommitIsOneRefresh(s, actions[..|actions| - 1]);
      NextKeepsOneCommitEach(Run(s, actions[..|actions| - 1]), actions[|actions| - 1]);
    } else {
      assert PastLock([]) == {};
    }
  }

  /** What this factory gives, as a commit: a new registry is object number `next`, and
      one that is given back is an earlier object. */
  predicate Gives(factory: Factory, next: nat, c: Commit<nat>, registries: seq<RegistryObject>) {
    match factory
    case Raises(message) => c == Bad(message)
    case ReturnsNone => c == Good(None)
    case Again(r) => c == Good(Some(r)) && r < next
    case Custom(services) => c == Good(Some(next)) && next < |registries| && registries[next].services == services
    case Discovers(entries, attempts) =>
      c == Good(Some(next)) && next < |registries| && registries[next].services == BuiltServices(entries, attempts)
  }

  /** Action number k is the building step of refresh t, and gives c. */
  predicate Builds<S>(s: State<S>, actions: seq<Action>, k: nat, t: nat, c: Commit<nat>) {
    && Moves(s, actions, k, t, RefreshThread(Building))
    && Gives(actions[k].factory, |Run(s, actions[..k]).board.registries|, c, Run(s, actions).board.registries)
  }

  lemma BuildGives(b: Board, factory: Factory)
    ensures Build(b, factory).1.Built? ==>
              Gives(factory, |b.registries|, Build(b, factory).1.commit, Build(b, factory).0.registries)
  {
    hide BuiltServices;
  }

  lemma {:induction false} RefreshBuilt<S>(s: State<S>, actions: seq<Action>, t: nat)
    requires Initial(s)
    requires t < |Run(s, actions).threads| && Run(s, actions).threads[t].RefreshThread?
    requires Run(s, actions).threads[t].stage.Built?
    ensures exists k: nat :: Builds(s, actions, k, t, Run(s, actions).threads[t].stage.commit)
    decreases actions
  {
    if actions != [] {
      hide Run, Next, CallStep, Build, Initial, Apply, StatusOf, Gives;
      var n := |actions| - 1;
      var front, c := Run(s, actions[..n]), Run(s, actions).threads[t].stage.commit;
      RunStep(s, actions);
      ThreadAfter(front, actions[n], t);
      if front.threads[t] == RefreshThread(Building) {
        BuildGives(front.board, actions[n].factory);
        BuildingBuilds(front, actions[n], t);
        assert Builds(s, actions, n, t, c);
      } else {
        RefreshBuilt(s, actions[..n], t);
        var k: nat :| Builds(s, actions[..n], k, t, c);
        BuildsStays(s, actions, k, t, c);
      }
    } else {
      assert false;
    }
  }

  lemma BuildingBuilds<S>(s: State<S>, a: Action, t: nat)
    requires t < |s.threads| && s.threads[t] == RefreshThread(Building) && a.Advance? && a.thread == t
    ensures Next(s, a).board == Build(s.board, a.factory).0
  {
    hide Build;
  }

  /** Action number k is the lock section of refresh t, which commits c as number
      `position` after action number `built`, its building step, had given it. */
  predicate Commits<S>(s: State<S>, actions: seq<Action>, built: nat, k: nat, t: nat, position: nat, c: Commit<nat>) {
    && Moves(s, actions, k, t, RefreshThread(Built(c)))
    && |Run(s, actions[..k]).board.commits| == position
    && built < k && Builds(s, actions, built, t, c)
  }

  lemma {:induction false} RefreshCommitted<S>(s: State<S>, actions: seq<Action>, t: nat, position: nat)
    requires Initial(s) && HasCommitted(Run(s, actions).threads, t, position)
    ensures position < |Run(s, actions).board.commits|
    ensures exists built, k :: Commits(s, actions, built, k, t, position, Run(s, actions).board.commits[position])
    decreases actions
  {
    if actions != [] {
      hide Run, Next, CallStep, Initial, StateOk, Apply, StatusOf, Gives;
      var n := |actions| - 1;
      var front, final := Run(s, actions[..n]), Run(s, actions);
      RunStep(s, actions);
      ThreadAfter(front, actions[n], t);
      EveryRunIsOk(s, actions[..n]);
      NextGrows(front, actions[n]);
      if HasCommitted(front.threads, t, position) {
        RefreshCommitted(s, actions[..n], t, position);
        var built, k :| Commits(s, actions[..n], built, k, t, position, front.board.commits[position]);
        BuildsStays(s, actions, built, t, front.board.commits[position]);
        assert Commits(s, actions, built, k, t, position, final.board.commits[position]);
      } else {
        var c := front.threads[t].stage.commit;
        LockSectionCommits(front, actions[n], t);
        RefreshBuilt(s, actions[..n], t);
        var built :| Builds(s, actions[..n], built, t, c);
        BuildsStays(s, actions, built, t, c);
        assert Moves(s, actions, n, t, RefreshThread(Built(c)));
        assert position == |front.board.commits|;
        assert final.board.commits[position] == c;
        assert Commits(s, actions, built, n, t, position, c);
      }
    } else {
      assert false;
    }
  }

  lemma BuildsStays<S>(s: State<S>, actions: seq<Action>, k: nat, t: nat, c: Commit<nat>)
    requires Initial(s) && actions != [] && Builds(s, actions[..|actions| - 1], k, t, c)
    ensures Builds(s, actions, k, t, c)
  {
    hide Run, Next, Initial, StateOk, BuiltServices;
    RunStep(s, actions);
    EveryRunIsOk(s, actions[..|actions| - 1]);
    NextGrows(Run(s, actions[..|actions| - 1]), actions[|actions| - 1]);
  }

  lemma LockSectionCommits<S>(s: State<S>, a: Action, t: nat)
    requires t < |s.threads| && s.threads[t].RefreshThread? && s.threads[t].stage.Built? && a.Advance? && a.thread == t
    ensures Next(s, a).board.commits == s.board.commits + [s.threads[t].stage.commit]
    ensures Next(s, a).threads[t] == RefreshThread(Committed(|s.board.commits|))
  {
  }

  // ---------------------------------------------------------------- servers

  /** The servers of a run are those it began with, each with its controller and its
      starting state. */
  ghost predicate SameServers<S>(servers: map<string, Slot<S>>, servers': map<string, Slot<S>>) {
    && servers'.Keys == servers.Keys
    && forall e :: e in servers ==>
         servers'[e].controller == servers[e].controller && servers'[e].origin == servers[e].origin
  }

  lemma NextKeepsServers<S>(s: State<S>, a: Action)
    ensures SameServers(s.servers, Next(s, a).servers)
  {
    hide HandleBytes, CallStep, RefreshStep;
  }

  lemma {:induction false} ServersStay<S>(s: State<S>, actions: seq<Action>)
    ensures SameServers(s.servers, Run(s, actions).servers)
    decreases actions
  {
    if actions != [] {
      hide Next;
      ServersStay(s, actions[..|actions| - 1]);
      NextKeepsServers(Run(s, actions[..|actions| - 1]), actions[|actions| - 1]);
    }
  }

  /** A server is down after it is stopped, and after an exception. */
  lemma StoppedIsDown<S>(s: State<S>, endpoint: string)
    requires endpoint in s.servers
    ensures !Next(s, Stop(endpoint)).servers[endpoint].up
    ensures Next(s, Stop(endpoint)).servers[endpoint] == s.servers[endpoint].(up := false)
    ensures Next(s, Stop(endpoint)).board == s.board && Next(s, Stop(endpoint)).threads == s.threads
  {
  }

  lemma NextKeepsDown<S>(s: State<S>, a: Action, endpoint: string)
    requires endpoint in s.servers && !s.servers[endpoint].up
    ensures endpoint in Next(s, a).servers && Next(s, a).servers[endpoint] == s.servers[endpoint]
  {
    hide HandleBytes, CallStep, RefreshStep;
  }

  /** A server that is down handles nothing any more: it stays as it is. */
  lemma {:induction false} DownServersStay<S>(s: State<S>, actions: seq<Action>, later: seq<Action>, endpoint: string)
    requires endpoint in Run(s, actions).servers && !Run(s, actions).servers[endpoint].up
    ensures endpoint in Run(s, actions + later).servers
    ensures Run(s, actions + later).servers[endpoint] == Run(s, actions).servers[endpoint]
    decreases later
  {
    if later == [] {
      assert actions + later == actions;
    } else {
      hide Next;
      var n := |later| - 1;
      assert (actions + later)[..|actions + later| - 1] == actions + later[..n];
      DownServersStay(s, actions, later[..n], endpoint);
      NextKeepsDown(Run(s, actions + later[..n]), later[n], endpoint);
    }
  }
}
