/** A machine that answers requests one at a time, and what holds of any such
    machine over a sequence of requests. */
module Sessions {

  datatype Step<+S, +A> = Step(state: S, answer: A)

  datatype Session<+S, +A> = Session(state: S, answers: seq<A>)

  function RunAll<S, Q, A>(f: (S, Q) -> Step<S, A>, s: S, qs: seq<Q>): (r: Session<S, A>)
    ensures |r.answers| == |qs|
  {
    if qs == [] then Session(s, [])
    else
      var first := f(s, qs[0]);
      var later := RunAll(f, first.state, qs[1..]);
      Session(later.state, [first.answer] + later.answers)
  }

  lemma {:induction false} RunAllSplits<S, Q, A>(f: (S, Q) -> Step<S, A>, s: S, front: seq<Q>, back: seq<Q>)
    ensures var one := RunAll(f, s, front);
            var two := RunAll(f, one.state, back);
            RunAll(f, s, front + back) == Session(two.state, one.answers + two.answers)
  {
    if front == [] {
      assert front + back == back;
    } else {
      assert (front + back)[1..] == front[1..] + back;
      RunAllSplits(f, f(s, front[0]).state, front[1..], back);
    }
  }

  /** The i-th answer is the step taken from the state the first i requests lead to. */
  lemma RunAllAt<S, Q, A>(f: (S, Q) -> Step<S, A>, s: S, qs: seq<Q>, i: nat)
    requires i < |qs|
    ensures var step := f(RunAll(f, s, qs[..i]).state, qs[i]);
            && RunAll(f, s, qs).answers[i] == step.answer
            && RunAll(f, s, qs[..i + 1]).state == step.state
  {
    hide RunAll;
    var before := RunAll(f, s, qs[..i]);
    var rest := qs[i..];
    assert qs == qs[..i] + rest && qs[..i + 1] == qs[..i] + [rest[0]];
    RunAllSplits(f, s, qs[..i], rest);
    RunAllSplits(f, s, qs[..i], [rest[0]]);
    RunAllFirst(f, before.state, rest);
    RunAllFirst(f, before.state, [rest[0]]);
    assert RunAll(f, s, qs).answers[i] == RunAll(f, before.state, rest).answers[0];
  }

  lemma RunAllFirst<S, Q, A>(f: (S, Q) -> Step<S, A>, s: S, qs: seq<Q>)
    requires qs != []
    ensures RunAll(f, s, qs).answers[0] == f(s, qs[0]).answer
    ensures |qs| == 1 ==> RunAll(f, s, qs).state == f(s, qs[0]).state
  {
    assert |qs| == 1 ==> qs[1..] == [];
  }

  lemma RunAllExtends<S, Q, A>(f: (S, Q) -> Step<S, A>, s: S, qs: seq<Q>, q: Q)
    ensures var before := RunAll(f, s, qs);
            var step := f(before.state, q);
            RunAll(f, s, qs + [q]) == Session(step.state, before.answers + [step.answer])
  {
    RunAllSplits(f, s, qs, [q]);
  }

  /** The elements of `xs` that `keep` selects. */
  function Select<T>(xs: seq<T>, keep: seq<bool>): seq<T>
    requires |xs| == |keep|
  {
    if xs == [] then []
    else if keep[0] then [xs[0]] + Select(xs[1..], keep[1..])
    else Select(xs[1..], keep[1..])
  }

  /** Requests that change no state can be left out unnoticed. */
  lemma {:induction false} IdleRequestsAreInvisible<S(!new), Q, A>(
      f: (S, Q) -> Step<S, A>, s: S, qs: seq<Q>, keep: seq<bool>)
    requires |keep| == |qs|
    requires forall i, t :: 0 <= i < |qs| && !keep[i] ==> f(t, qs[i]).state == t
    ensures RunAll(f, s, Select(qs, keep)).state == RunAll(f, s, qs).state
    ensures RunAll(f, s, Select(qs, keep)).answers == Select(RunAll(f, s, qs).answers, keep)
  {
    if qs != [] {
      var first := f(s, qs[0]);
      var later := RunAll(f, first.state, qs[1..]);
      assert RunAll(f, s, qs).answers[1..] == later.answers;
      IdleRequestsAreInvisible(f, first.state, qs[1..], keep[1..]);
      var kept := Select(qs[1..], keep[1..]);
      if keep[0] {
        assert ([qs[0]] + kept)[1..] == kept;
      }
    }
  }
}
