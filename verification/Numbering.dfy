/** The numbers that the registries of a run give out, and those on the wire. */
module Numbering {
  import opened Prelude
  import opened Messages
  import opened Endpoint
  import opened Discovery
  import opened Registry
  import opened Gateway
  import opened System
  import opened Interleavings
  import opened Histories
  import opened Guarantees
  import opened Counters

  // ---------------------------------------------------------------- the history of a counter

  /** Where the thread stands with the counter of registry r. */
  function StandOf(thread: Thread, r: nat): Stand {
    match thread
    case CallThread(_, CounterRead(_, via, seen)) => if via == r then Read(seen) else Outside
    case CallThread(_, CounterWritten(_, via)) => if via == r then Wrote else Outside
    case CallThread(_, Numbered(_, _, number)) => Got(Some(number))
    case CallThread(_, Waiting(_, number, _)) => Got(Some(number))
    case CallThread(_, Finished(_, TimedOut(_, number, _))) => Got(Some(number))
    case CallThread(_, Finished(_, Answered(_, number, _))) => Got(Some(number))
    case CallThread(_, Finished(_, _)) => Got(None)
    case _ => Outside
  }

  function StandsOf(threads: seq<Thread>, r: nat): Stands {
    (u: nat) => if u < |threads| then StandOf(threads[u], r) else Outside
  }

  /** The tally of registry r's counter at the end of a run. */
  function TallyOf<S>(s: State<S>, actions: seq<Action>, r: nat): Tally {
    if actions == [] then Tally([], [], map[])
    else
      var n := |actions| - 1;
      var front, y := Run(s, actions[..n]), TallyOf(s, actions[..n], r);
      if actions[n].Advance? then Record(y, StandsOf(front.threads, r), CounterOf(front.board, r), actions[n].thread)
      else y
  }

  /** Whenever a thread writes the counter, no other thread is between its readings. */
  ghost predicate Undisturbed<S>(s: State<S>, actions: seq<Action>, r: nat) {
    forall k :: 0 <= k < |actions| && actions[k].Advance? ==>
      !Disturbs(StandsOf(Run(s, actions[..k]).threads, r), actions[k].thread)
  }

  // ---------------------------------------------------------------- how threads move

  lemma CallMoves(b: Board, t: nat, call: Call, pc: Pc, fault: Option<string>, r: nat)
    requires PcOk(b, t, call, pc)
    ensures var (b', pc') := CallStep(b, t, call, pc, fault);
            var stand, stand' := StandOf(CallThread(call, pc), r), StandOf(CallThread(call, pc'), r);
            Moved((u: nat) => stand, (u: nat) => stand', 0, CounterOf(b, r), CounterOf(b', r))
  {
    hide RequestPayload, AnswerFrom, FirstLook, SecondLook, IsUniqueMatch;
    LooksTakeNoNumber(b, call, pc);
  }

  lemma LooksTakeNoNumber(b: Board, call: Call, pc: Pc)
    ensures FirstLook(b, call).Selected? || (FirstLook(b, call).Finished? && FirstLook(b, call).ending.NotSelected?)
    ensures pc.Selected? ==>
              var pc' := SecondLook(b, call, pc.route);
              pc'.Checked? || (pc'.Finished? && (pc'.ending.NoRegistry? || pc'.ending.NotSent?))
  {
  }

  /** How one action moves the threads and the counter. */
  ghost predicate Steps(f: Stands, f': Stands, a: Action, counter: int, counter': int) {
    if a.Advance? then OthersStand(f, f', a.thread) && Moved(f, f', a.thread, counter, counter')
    else counter' == counter && AllStand(f, f')
  }

  lemma NextSteps<S>(s: State<S>, a: Action, r: nat)
    requires StateOk(s)
    ensures var s' := Next(s, a);
            Steps(StandsOf(s.threads, r), StandsOf(s'.threads, r), a, CounterOf(s.board, r), CounterOf(s'.board, r))
  {
    hide StateOk, Next, StandOf, CallStep, RefreshStep;
    var s' := Next(s, a);
    var f, f' := StandsOf(s.threads, r), StandsOf(s'.threads, r);
    forall u: nat | !(a.Advance? && a.thread == u) ensures f'(u) == f(u) || (f(u).Got? && f'(u) == Got(None)) {
      UnmovedStands(s, a, r, u);
    }
    if a.Advance? && a.thread < |s.threads| && s.threads[a.thread].CallThread? {
      var CallThread(call, pc) := s.threads[a.thread];
      CallAdvances(s, a);
      CallMoves(s.board, a.thread, call, pc, a.fault, r);
    } else {
      OthersLeaveCounter(s, a, r);
      if a.Advance? {
        RefreshesStandOutside(s, a, r);
      }
    }
  }

  lemma UnmovedStands<S>(s: State<S>, a: Action, r: nat, u: nat)
    requires !(a.Advance? && a.thread == u)
    ensures SameStand(StandsOf(s.threads, r), StandsOf(Next(s, a).threads, r), u)
  {
    hide Next;
    ThreadAfter(s, a, u);
  }

  lemma RefreshesStandOutside<S>(s: State<S>, a: Action, r: nat)
    requires a.Advance? && (a.thread < |s.threads| ==> s.threads[a.thread].RefreshThread?)
    ensures StandsOf(s.threads, r)(a.thread) == StandsOf(Next(s, a).threads, r)(a.thread) == Outside
  {
    hide RefreshStep;
  }

  lemma CallAdvances<S>(s: State<S>, a: Action)
    requires StateOk(s) && a.Advance? && a.thread < |s.threads| && s.threads[a.thread].CallThread?
    ensures var CallThread(call, pc) := s.threads[a.thread];
            && PcOk(s.board, a.thread, call, pc)
            && Next(s, a).board == CallStep(s.board, a.thread, call, pc, a.fault).0
            && |Next(s, a).threads| == |s.threads|
            && Next(s, a).threads[a.thread] == CallThread(call, CallStep(s.board, a.thread, call, pc, a.fault).1)
  {
    hide PcOk, BoardOk, ServersOk, CallStep;
    assert ThreadOk(s.board, a.thread, s.threads[a.thread]);
  }

  lemma OthersLeaveCounter<S>(s: State<S>, a: Action, r: nat)
    requires !(a.Advance? && a.thread < |s.threads| && s.threads[a.thread].CallThread?)
    ensures CounterOf(Next(s, a).board, r) == CounterOf(s.board, r)
  {
    hide HandleBytes, BuiltServices, Apply, StatusOf;
  }

  // ---------------------------------------------------------------- over a run

  /** The tally of registry r at the end of a run, with the threads as they stand there. */
  ghost predicate EndsInSequence<S>(s: State<S>, actions: seq<Action>, r: nat) {
    var y := TallyOf(s, actions, r);
    |y.written| == |y.writers| && InSequence(y, StandsOf(Run(s, actions).threads, r))
  }

  /** The numbers of a registry are in sequence if and only if nobody was ever disturbed. */
  lemma {:induction false} InSequenceIffUndisturbed<S>(s: State<S>, actions: seq<Action>, r: nat)
    requires Initial(s)
    ensures TallyOk(TallyOf(s, actions, r), CounterOf(Run(s, actions).board, r), StandsOf(Run(s, actions).threads, r))
    ensures EndsInSequence(s, actions, r) <==> Undisturbed(s, actions, r)
    decreases actions
  {
    var final := Run(s, actions);
    var f', counter' := StandsOf(final.threads, r), CounterOf(final.board, r);
    if actions != [] {
      var n := |actions| - 1;
      var front := Run(s, actions[..n]);
      InSequenceIffUndisturbed(s, actions[..n], r);
      EveryRunIsOk(s, actions[..n]);
      NextSteps(front, actions[n], r);
      RunStep(s, actions);
      hide TallyOk, InSequence, Run, Next, StateOk, Initial, Disturbs, StandsOf, Moved, OthersStand, AllStand, Record;
      var y, f, counter := TallyOf(s, actions[..n], r), StandsOf(front.threads, r), CounterOf(front.board, r);
      TallyHasWriters(y, counter, f);
      if actions[n].Advance? {
        RecordKeepsTally(y, counter, f, f', actions[n].thread, counter');
      } else {
        StandingKeepsTally(y, counter, f, f');
      }
      TallyHasWriters(TallyOf(s, actions, r), counter', f');
      UndisturbedStep(s, actions, r);
    }
  }

  lemma UndisturbedStep<S>(s: State<S>, actions: seq<Action>, r: nat)
    requires actions != []
    ensures var n := |actions| - 1;
            Undisturbed(s, actions, r) <==>
              && Undisturbed(s, actions[..n], r)
              && (actions[n].Advance? ==> !Disturbs(StandsOf(Run(s, actions[..n]).threads, r), actions[n].thread))
  {
    hide Run, Disturbs, StandsOf;
    RunStep(s, actions);
    var n := |actions| - 1;
    if Undisturbed(s, actions, r) {
      forall k | 0 <= k < n && actions[..n][k].Advance?
        ensures !Disturbs(StandsOf(Run(s, actions[..n][..k]).threads, r), actions[..n][k].thread)
      {
        assert actions[..n][..k] == actions[..k];
      }
    }
  }

  // ---------------------------------------------------------------- when numbers are distinct

  /** At the end of a run in which no thread is left between its readings, the numbers
      that a registry has given out are distinct if and only if nobody was disturbed
      while taking one. */
  lemma NumbersDistinctIff<S>(s: State<S>, actions: seq<Action>, r: nat)
    requires Initial(s) && Settled(StandsOf(Run(s, actions).threads, r))
    ensures Distinct(TallyOf(s, actions, r).numbers) <==> Undisturbed(s, actions, r)
  {
    hide TallyOk, InSequence, Distinct, Undisturbed, Run, Settled, StandsOf;
    InSequenceIffUndisturbed(s, actions, r);
    var y, counter, f := TallyOf(s, actions, r), CounterOf(Run(s, actions).board, r), StandsOf(Run(s, actions).threads, r);
    TallyHasWriters(y, counter, f);
    if Distinct(y.numbers) {
      DistinctMeansSequence(y, counter, f);
    }
    if InSequence(y, f) {
      SequenceMeansDistinct(y, counter, f);
    }
  }

  /** Undisturbed, and whoever is still between its readings, the numbers are 1, 2, 3, ...
      in the order of the writes, and the counter is the number of writes. */
  lemma UndisturbedNumbersAreConsecutive<S>(s: State<S>, actions: seq<Action>, r: nat)
    requires Initial(s) && Undisturbed(s, actions, r)
    ensures var y := TallyOf(s, actions, r);
            && Distinct(y.numbers)
            && CounterOf(Run(s, actions).board, r) == |y.writers|
            && (forall t :: t in y.numbers ==> t in y.writers)
            && forall k :: 0 <= k < |y.writers| && y.writers[k] in y.numbers ==> y.numbers[y.writers[k]] == k + 1
  {
    hide Run, Undisturbed, StandsOf, WasLevel, Distinct;
    InSequenceIffUndisturbed(s, actions, r);
    SequenceMeansDistinct(
      TallyOf(s, actions, r), CounterOf(Run(s, actions).board, r), StandsOf(Run(s, actions).threads, r));
  }

  // ---------------------------------------------------------------- on the wire

  /** The number a message carries. */
  function NumberOf(m: Message): int {
    WireNumber(Wire(Client(m.endpoint), m.payload))
  }

  /** The sender of this message got its number from registry r. */
  predicate NumberedBy<S>(s: State<S>, actions: seq<Action>, r: nat, h: nat) {
    h < |Run(s, actions).board.wire| && Run(s, actions).board.wire[h].owner in TallyOf(s, actions, r).numbers
  }

  /** Every message was numbered by a registry, and carries the number its sender got there. */
  lemma MessagesCarryTheirNumbers<S>(s: State<S>, actions: seq<Action>, h: nat)
    requires Initial(s) && h < |Run(s, actions).board.wire|
    ensures exists r: nat :: NumberedBy(s, actions, r, h)
    ensures forall r: nat :: NumberedBy(s, actions, r, h) ==>
              NumberOf(Run(s, actions).board.wire[h]) == TallyOf(s, actions, r).numbers[Run(s, actions).board.wire[h].owner]
  {
    hide Run, TallyOf;
    var final := Run(s, actions);
    var t := final.board.wire[h].owner;
    var number := SentNumber(s, actions, h);
    var r0 := NumberWasTaken(s, actions, t, number);
    assert NumberedBy(s, actions, r0, h);
    forall r: nat | NumberedBy(s, actions, r, h) ensures number == TallyOf(s, actions, r).numbers[t] {
      NumberIsRecorded(s, actions, r, t, number);
    }
  }

  lemma SentNumber<S>(s: State<S>, actions: seq<Action>, h: nat) returns (number: int)
    requires Initial(s) && h < |Run(s, actions).board.wire|
    ensures var final := Run(s, actions);
            var t := final.board.wire[h].owner;
            && t < |final.threads| && StandOf(final.threads[t], 0) == Got(Some(number))
            && NumberOf(final.board.wire[h]) == number
  {
    hide Run, BoardOk, ServersOk, IsUniqueMatch, RequestPayload, AnswerFrom;
    var final := Run(s, actions);
    EveryRunIsOk(s, actions);
    var t := final.board.wire[h].owner;
    assert MessageOk(final.threads, final.board.wire, h);
    assert ThreadOk(final.board, t, final.threads[t]);
    number := StandOf(final.threads[t], 0).number.value;
    PayloadCarries(final.threads[t].call, number, final.board.wire[h]);
  }

  lemma PayloadCarries(call: Call, number: int, m: Message)
    requires m.payload == RequestPayload(call, number)
    ensures NumberOf(m) == number
  {
    RequestRoundTrip(WireRequest(number, call.Target(), Some(call.SentParams())));
  }

  lemma NumberIsRecorded<S>(s: State<S>, actions: seq<Action>, r: nat, t: nat, number: int)
    requires Initial(s) && t in TallyOf(s, actions, r).numbers
    requires t < |Run(s, actions).threads| && StandOf(Run(s, actions).threads[t], 0) == Got(Some(number))
    ensures TallyOf(s, actions, r).numbers[t] == number
  {
    hide Run, TallyOf, LevelsOk;
    InSequenceIffUndisturbed(s, actions, r);
  }

  /** A number that a thread holds was read from some registry. */
  lemma {:induction false} NumberWasTaken<S>(s: State<S>, actions: seq<Action>, t: nat, number: int) returns (r: nat)
    requires Initial(s) && t < |Run(s, actions).threads|
    requires StandOf(Run(s, actions).threads[t], 0) == Got(Some(number))
    ensures t in TallyOf(s, actions, r).numbers
    decreases actions
  {
    if actions == [] {
      assert false;
    } else {
      hide Run, Next, CallStep, RefreshStep;
      var n := |actions| - 1;
      var front := Run(s, actions[..n]);
      RunStep(s, actions);
      ThreadAfter(front, actions[n], t);
      if actions[n].Advance? && actions[n].thread == t {
        GotByStep(front.board, t, front.threads[t].call, front.threads[t].pc, actions[n].fault);
      }
      if actions[n].Advance? && actions[n].thread == t && front.threads[t].pc.CounterWritten? {
        r := front.threads[t].pc.via;
      } else {
        r := NumberWasTaken(s, actions[..n], t, number);
      }
    }
  }

  lemma GotByStep(b: Board, t: nat, call: Call, pc: Pc, fault: Option<string>)
    ensures var stand' := StandOf(CallThread(call, CallStep(b, t, call, pc, fault).1), 0);
            stand'.Got? && stand'.number.Some? ==> pc.CounterWritten? || StandOf(CallThread(call, pc), 0) == stand'
  {
    hide RequestPayload, AnswerFrom, FirstLook, SecondLook;
    LooksTakeNoNumber(b, call, pc);
  }

  /** A thread that has a number from registry r went through it because, at its second
      look, that was the active one, or, for `call_rpc`, the one it had found its service in. */
  lemma {:induction false} NumberComesFromActive<S>(s: State<S>, actions: seq<Action>, r: nat, t: nat)
    returns (k: nat, call: Call, route: Route)
    requires Initial(s) && t in TallyOf(s, actions, r).numbers
    ensures Moves(s, actions, k, t, CallThread(call, Selected(route)))
    ensures ViaNow(Run(s, actions[..k]).board, call, route) == Some(r)
    decreases actions
  {
    if actions == [] {
      assert false;
    } else {
      hide Run, Next, Moves, ViaNow;
      var n := |actions| - 1;
      var front := Run(s, actions[..n]);
      if t in TallyOf(s, actions[..n], r).numbers {
        k, call, route := NumberComesFromActive(s, actions[..n], r, t);
      } else {
        ItsThirdStep(s, actions, r, t);
        CallLookedAgain(s, actions[..n], t);
        call := front.threads[t].call;
        var pc := front.threads[t].pc;
        k, route :| 0 <= k && LookedAgain(s, actions[..n], k, t, call, route, pc);
      }
      RunStep(s, actions);
      MovesStays(s, actions, k, t, CallThread(call, Selected(route)));
    }
  }

  lemma ItsThirdStep<S>(s: State<S>, actions: seq<Action>, r: nat, t: nat)
    requires actions != []
    requires t in TallyOf(s, actions, r).numbers && t !in TallyOf(s, actions[..|actions| - 1], r).numbers
    ensures var front := Run(s, actions[..|actions| - 1]);
            && t < |front.threads| && front.threads[t].CallThread?
            && front.threads[t].pc.CounterWritten? && front.threads[t].pc.via == r
  {
    hide Run;
  }

  lemma MovesStays<S>(s: State<S>, actions: seq<Action>, k: nat, t: nat, thread: Thread)
    requires actions != [] && Moves(s, actions[..|actions| - 1], k, t, thread)
    ensures Moves(s, actions, k, t, thread) && actions[..|actions| - 1][..k] == actions[..k]
  {
    hide Run;
    RunStep(s, actions);
  }

  /** No two messages numbered by the same registry carry the same number. */
  ghost predicate WireDistinct<S>(s: State<S>, actions: seq<Action>, r: nat) {
    forall g: nat, h: nat :: NumberedBy(s, actions, r, g) && NumberedBy(s, actions, r, h) && g != h ==>
      NumberOf(Run(s, actions).board.wire[g]) != NumberOf(Run(s, actions).board.wire[h])
  }

  /** Every thread that got a number from registry r has sent its request. */
  ghost predicate AllSent<S>(s: State<S>, actions: seq<Action>, r: nat) {
    forall t :: t in TallyOf(s, actions, r).numbers ==> HasSent(Run(s, actions).board.wire, t)
  }

  ghost predicate HasSent(wire: seq<Message>, t: nat) {
    exists h :: 0 <= h < |wire| && wire[h].owner == t
  }

  /** Undisturbed, a registry puts no number on the wire twice; if everyone who got a
      number has sent its request and nobody is left between its readings, that is so
      only if undisturbed. */
  lemma WireNumbersDistinctIff<S>(s: State<S>, actions: seq<Action>, r: nat)
    requires Initial(s)
    ensures Undisturbed(s, actions, r) ==> WireDistinct(s, actions, r)
    ensures AllSent(s, actions, r) && Settled(StandsOf(Run(s, actions).threads, r)) ==>
              (WireDistinct(s, actions, r) <==> Undisturbed(s, actions, r))
  {
    hide Run, TallyOf, Undisturbed, NumberOf, Settled, StandsOf;
    var wire, numbers := Run(s, actions).board.wire, TallyOf(s, actions, r).numbers;
    if Undisturbed(s, actions, r) {
      UndisturbedNumbersAreConsecutive(s, actions, r);
      forall g: nat, h: nat | NumberedBy(s, actions, r, g) && NumberedBy(s, actions, r, h) && g != h
        ensures NumberOf(wire[g]) != NumberOf(wire[h])
      {
        MessagesCarryTheirNumbers(s, actions, g);
        MessagesCarryTheirNumbers(s, actions, h);
        if wire[g].owner == wire[h].owner {
          OneRequestPerCall(s, actions, g, h);
        }
      }
    }
    if AllSent(s, actions, r) && Settled(StandsOf(Run(s, actions).threads, r)) && WireDistinct(s, actions, r) {
      forall t, u | t in numbers && u in numbers && t != u ensures numbers[t] != numbers[u] {
        assert HasSent(wire, t) && HasSent(wire, u);
        var g :| 0 <= g < |wire| && wire[g].owner == t;
        var h :| 0 <= h < |wire| && wire[h].owner == u;
        MessagesCarryTheirNumbers(s, actions, g);
        MessagesCarryTheirNumbers(s, actions, h);
        assert NumberedBy(s, actions, r, g) && NumberedBy(s, actions, r, h);
      }
      NumbersDistinctIff(s, actions, r);
    }
  }
}
