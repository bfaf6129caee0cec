/** A counter that threads raise without a lock: each reads it, writes it back increased,
    and reads it again to take its number.  When are the numbers distinct?  Exactly when
    no thread writes while another is between its two readings. */
module Counters {
  import opened Prelude

  // ---------------------------------------------------------------- threads and their numbers

  /** Where a thread stands with the counter of one registry: it has read it and not yet
      written it, written it and not yet read it again, got a number (from any registry,
      and perhaps no longer knows it), or none of these. */
  datatype Stand = Outside | Read(seen: int) | Wrote | Got(number: Option<int>)

  type Stands = nat -> Stand

  /** The thread is between its first and its second reading. */
  predicate InSection(f: Stands, u: nat) {
    f(u).Read? || f(u).Wrote?
  }

  /** What has happened to the counter of one registry: who wrote, in order, and what,
      and the number each thread read afterwards. */
  datatype Tally = Tally(writers: seq<nat>, written: seq<int>, numbers: map<nat, int>)

  /** Thread t takes a step. */
  function Record(y: Tally, f: Stands, counter: int, t: nat): Tally {
    match f(t)
    case Read(seen) => Tally(y.writers + [t], y.written + [seen + 1], y.numbers)
    case Wrote => y.(numbers := y.numbers[t := counter])
    case _ => y
  }

  /** Thread t writes while another thread is between its readings. */
  ghost predicate Disturbs(f: Stands, t: nat) {
    f(t).Read? && exists u: nat :: u != t && InSection(f, u)
  }

  // ---------------------------------------------------------------- what always holds

  /** The counter after the first p writes. */
  function Level(written: seq<int>, p: nat): int
    requires p <= |written|
  {
    if p == 0 then 0 else written[p - 1]
  }

  /** The counter has had this value after some number of writes between lo and hi. */
  ghost predicate WasLevel(written: seq<int>, v: int, lo: nat, hi: nat) {
    exists p: nat :: lo <= p <= hi && p <= |written| && v == Level(written, p)
  }

  predicate HasNumber(f: Stands, u: nat, number: int) {
    f(u).Got? && (f(u).number.Some? ==> f(u).number.value == number)
  }

  /** Every write is one above some earlier level, and what threads have read is a level. */
  ghost predicate LevelsOk(y: Tally, counter: int, f: Stands) {
    && |y.written| == |y.writers|
    && counter == Level(y.written, |y.written|)
    && (forall k :: 0 <= k < |y.written| ==> WasLevel(y.written, y.written[k] - 1, 0, k))
    && (forall u: nat :: f(u).Read? ==> WasLevel(y.written, f(u).seen, 0, |y.written|))
    && (forall k :: 0 <= k < |y.writers| && y.writers[k] in y.numbers ==>
          WasLevel(y.written, y.numbers[y.writers[k]], k + 1, |y.written|))
  }

  /** Each thread writes at most once, and has its number exactly when it has read again. */
  ghost predicate WritersOk(y: Tally, f: Stands) {
    && (forall i, j :: 0 <= i < j < |y.writers| ==> y.writers[i] != y.writers[j])
    && (forall u: nat :: u in y.writers ==> f(u).Wrote? || u in y.numbers)
    && (forall u: nat :: f(u).Wrote? ==> u in y.writers && u !in y.numbers)
    && (forall u: nat :: u in y.numbers ==> u in y.writers && HasNumber(f, u, y.numbers[u]))
  }

  ghost predicate TallyOk(y: Tally, counter: int, f: Stands) {
    LevelsOk(y, counter, f) && WritersOk(y, f)
  }

  /** The counter has been raised by one each time, nobody who has read it is behind, and
      each number is its writer's place. */
  ghost predicate InSequence(y: Tally, f: Stands)
    requires |y.written| == |y.writers|
  {
    && (forall k :: 0 <= k < |y.written| ==> y.written[k] == k + 1)
    && (forall u: nat :: f(u).Read? ==> f(u).seen == |y.written|)
    && (forall u: nat :: f(u).Wrote? ==> y.writers != [] && y.writers[|y.writers| - 1] == u)
    && (forall k :: 0 <= k < |y.writers| && y.writers[k] in y.numbers ==> y.numbers[y.writers[k]] == k + 1)
  }

  lemma {:induction false} LevelsAreSmall(written: seq<int>, v: int, lo: nat, hi: nat)
    requires WasLevel(written, v, lo, hi)
    requires forall k :: 0 <= k < |written| ==> WasLevel(written, written[k] - 1, 0, k)
    ensures 0 <= v <= hi
    ensures lo > 0 ==> 1 <= v
    decreases hi
  {
    var p: nat :| lo <= p <= hi && p <= |written| && v == Level(written, p);
    if p > 0 {
      LevelsAreSmall(written, written[p - 1] - 1, 0, p - 1);
    }
  }

  // ---------------------------------------------------------------- steps

  /** As far as numbers go, thread u stands where it stood. */
  predicate SameStand(f: Stands, f': Stands, u: nat) {
    f'(u) == f(u) || (f(u).Got? && f'(u) == Got(None))
  }

  ghost predicate OthersStand(f: Stands, f': Stands, t: nat) {
    forall u: nat :: u != t ==> f'(u) == f(u) || (f(u).Got? && f'(u) == Got(None))
  }

  ghost predicate AllStand(f: Stands, f': Stands) {
    forall u: nat :: f'(u) == f(u) || (f(u).Got? && f'(u) == Got(None))
  }

  /** How thread t moves in one of its steps. */
  predicate Moved(f: Stands, f': Stands, t: nat, counter: int, counter': int) {
    match f(t)
    case Read(seen) => f'(t) == Wrote && counter' == seen + 1
    case Wrote => f'(t) == Got(Some(counter)) && counter' == counter
    case Outside => (f'(t) == Read(counter) || (!f'(t).Read? && !f'(t).Wrote?)) && counter' == counter
    case Got(_) => SameStand(f, f', t) && counter' == counter
  }

  // ---------------------------------------------------------------- what every step keeps

  lemma LevelsStay(written: seq<int>, written': seq<int>, v: int, lo: nat, hi: nat, hi': nat)
    requires WasLevel(written, v, lo, hi) && written <= written' && hi <= hi'
    ensures WasLevel(written', v, lo, hi')
  {
    var p: nat :| lo <= p <= hi && p <= |written| && v == Level(written, p);
    assert v == Level(written', p);
  }

  lemma StandingKeepsTally(y: Tally, counter: int, f: Stands, f': Stands)
    requires TallyOk(y, counter, f) && AllStand(f, f')
    ensures TallyOk(y, counter, f')
    ensures InSequence(y, f') <==> InSequence(y, f)
  {
    hide WasLevel;
  }

  lemma OtherStepKeepsWriters(y: Tally, counter: int, f: Stands, f': Stands, t: nat, counter': int)
    requires WritersOk(y, f) && OthersStand(f, f', t) && Moved(f, f', t, counter, counter') && !InSection(f, t)
    ensures WritersOk(y, f')
  {
    assert f(t).Outside? ==> t !in y.writers && t !in y.numbers;
  }

  lemma OtherStepKeepsLevels(y: Tally, counter: int, f: Stands, f': Stands, t: nat, counter': int)
    requires LevelsOk(y, counter, f) && OthersStand(f, f', t) && Moved(f, f', t, counter, counter') && !InSection(f, t)
    ensures LevelsOk(y, counter', f')
  {
    assert WasLevel(y.written, counter, 0, |y.written|) by {
      assert counter == Level(y.written, |y.written|);
    }
    hide WasLevel;
  }

  lemma OtherStepKeepsSequence(y: Tally, counter: int, f: Stands, f': Stands, t: nat, counter': int)
    requires LevelsOk(y, counter, f) && OthersStand(f, f', t) && Moved(f, f', t, counter, counter') && !InSection(f, t)
    ensures InSequence(y, f') <==> InSequence(y, f)
  {
    hide WasLevel;
  }

  /** A step that neither writes nor reads again, but may be a first reading. */
  lemma OtherStepKeepsTally(y: Tally, counter: int, f: Stands, f': Stands, t: nat, counter': int)
    requires TallyOk(y, counter, f) && OthersStand(f, f', t) && Moved(f, f', t, counter, counter') && !InSection(f, t)
    ensures counter' == counter && TallyOk(y, counter, f')
    ensures InSequence(y, f') <==> InSequence(y, f)
  {
    hide WritersOk, LevelsOk, InSequence, OthersStand;
    OtherStepKeepsWriters(y, counter, f, f', t, counter');
    OtherStepKeepsLevels(y, counter, f, f', t, counter');
    OtherStepKeepsSequence(y, counter, f, f', t, counter');
  }

  lemma RereadKeepsWriters(y: Tally, counter: int, f: Stands, f': Stands, t: nat)
    requires WritersOk(y, f) && OthersStand(f, f', t) && f(t).Wrote? && f'(t) == Got(Some(counter))
    ensures WritersOk(y.(numbers := y.numbers[t := counter]), f')
  {
  }

  lemma RereadKeepsLevels(y: Tally, counter: int, f: Stands, f': Stands, t: nat)
    requires TallyOk(y, counter, f) && OthersStand(f, f', t) && f(t).Wrote? && f'(t) == Got(Some(counter))
    ensures LevelsOk(y.(numbers := y.numbers[t := counter]), counter, f')
  {
    var y' := y.(numbers := y.numbers[t := counter]);
    var n := |y.writers|;
    hide WasLevel;
    forall k | 0 <= k < n && y'.writers[k] in y'.numbers
      ensures WasLevel(y'.written, y'.numbers[y'.writers[k]], k + 1, n)
    {
      if y'.writers[k] == t {
        LastIsLevel(y.written, k + 1);
      }
    }
  }

  lemma LastIsLevel(written: seq<int>, lo: nat)
    requires lo <= |written|
    ensures WasLevel(written, Level(written, |written|), lo, |written|)
  {
  }

  lemma RereadKeepsTally(y: Tally, counter: int, f: Stands, f': Stands, t: nat)
    requires TallyOk(y, counter, f) && OthersStand(f, f', t) && f(t).Wrote? && f'(t) == Got(Some(counter))
    ensures TallyOk(y.(numbers := y.numbers[t := counter]), counter, f')
  {
    hide WritersOk, LevelsOk, OthersStand;
    RereadKeepsWriters(y, counter, f, f', t);
    RereadKeepsLevels(y, counter, f, f', t);
  }

  lemma RereadKeepsSequence(y: Tally, counter: int, f: Stands, f': Stands, t: nat)
    requires TallyOk(y, counter, f) && OthersStand(f, f', t) && f(t).Wrote? && f'(t) == Got(Some(counter))
    ensures InSequence(y.(numbers := y.numbers[t := counter]), f') <==> InSequence(y, f)
  {
    hide WasLevel;
    var y' := y.(numbers := y.numbers[t := counter]);
    var place :| 0 <= place < |y.writers| && y.writers[place] == t;
    assert forall k :: 0 <= k < |y.writers| && k != place ==> y.writers[k] != t;
    if InSequence(y', f') {
      assert y'.numbers[y.writers[place]] == place + 1;
      assert forall u: nat :: f(u).Read? ==> f(u).seen == |y.written|;
    }
  }

  lemma WriteKeepsWriters(y: Tally, counter: int, f: Stands, f': Stands, t: nat)
    requires TallyOk(y, counter, f) && OthersStand(f, f', t) && f(t).Read? && f'(t).Wrote?
    ensures WritersOk(Record(y, f, counter, t), f')
  {
    hide WasLevel;
    var y' := Record(y, f, counter, t);
    assert t !in y.writers && t !in y.numbers;
    assert forall u: nat :: u in y'.writers <==> u in y.writers || u == t;
  }

  lemma WriteKeepsTally(y: Tally, counter: int, f: Stands, f': Stands, t: nat)
    requires TallyOk(y, counter, f) && OthersStand(f, f', t) && f(t).Read? && f'(t).Wrote?
    ensures TallyOk(Record(y, f, counter, t), f(t).seen + 1, f')
  {
    WriteKeepsWriters(y, counter, f, f', t);
    var y' := Record(y, f, counter, t);
    var n := |y.written|;
    assert t !in y.numbers;
    hide WasLevel, WritersOk;
    forall k | 0 <= k <= n ensures WasLevel(y'.written, y'.written[k] - 1, 0, k) {
      LevelsStay(y.written, y'.written, if k < n then y.written[k] - 1 else f(t).seen, 0, k, k);
    }
    forall u: nat | f'(u).Read? ensures WasLevel(y'.written, f'(u).seen, 0, n + 1) {
      LevelsStay(y.written, y'.written, f(u).seen, 0, n, n + 1);
    }
    forall k | 0 <= k < n && y'.writers[k] in y'.numbers
      ensures WasLevel(y'.written, y'.numbers[y'.writers[k]], k + 1, n + 1)
    {
      LevelsStay(y.written, y'.written, y.numbers[y.writers[k]], k + 1, n, n + 1);
    }
  }

  lemma WriteKeepsSequence(y: Tally, counter: int, f: Stands, f': Stands, t: nat)
    requires TallyOk(y, counter, f) && OthersStand(f, f', t) && f(t).Read? && f'(t).Wrote?
    requires InSequence(y, f) && !Disturbs(f, t)
    ensures InSequence(Record(y, f, counter, t), f')
  {
    hide WasLevel;
    var y' := Record(y, f, counter, t);
    forall u: nat | u != t ensures !f'(u).Read? && !f'(u).Wrote? {
      assert !InSection(f, u);
    }
    assert t !in y.numbers;
  }

  /** Whoever is between its readings while another thread writes is behind from then on. */
  lemma DisturbedIsBehind(y: Tally, counter: int, f: Stands, f': Stands, t: nat, u: nat)
    requires TallyOk(y, counter, f) && OthersStand(f, f', t) && f(t).Read? && f'(t).Wrote?
    requires InSequence(Record(y, f, counter, t), f') && u != t
    ensures !InSection(f, u)
  {
    var y' := Record(y, f, counter, t);
    assert f(u).Read? ==> WasLevel(y.written, f(u).seen, 0, |y.written|);
    if f(u).Read? {
      LevelsAreSmall(y.written, f(u).seen, 0, |y.written|);
    }
    hide WasLevel, LevelsOk, WritersOk;
    assert f'(u) == f(u) || f(u).Got?;
    assert y'.writers[|y'.writers| - 1] == t;
  }

  lemma DisturbanceBreaksSequence(y: Tally, counter: int, f: Stands, f': Stands, t: nat)
    requires TallyOk(y, counter, f) && OthersStand(f, f', t) && f(t).Read? && f'(t).Wrote?
    requires InSequence(Record(y, f, counter, t), f')
    ensures InSequence(y, f) && !Disturbs(f, t)
  {
    hide TallyOk, OthersStand;
    TallyHasWriters(y, counter, f);
    forall u: nat | u != t ensures !f(u).Read? && !f(u).Wrote? {
      DisturbedIsBehind(y, counter, f, f', t, u);
    }
    var y', n := Record(y, f, counter, t), |y.written|;
    assert y'.written[n] == f(t).seen + 1;
    forall k | 0 <= k < n
      ensures y.written[k] == k + 1 && (y.writers[k] in y.numbers ==> y.numbers[y.writers[k]] == k + 1)
    {
      assert y'.written[k] == y.written[k] && y'.writers[k] == y.writers[k];
    }
  }

  /** A step of the counter: it stays in sequence if and only if it was and nobody is disturbed. */
  lemma RecordKeepsTally(y: Tally, counter: int, f: Stands, f': Stands, t: nat, counter': int)
    requires TallyOk(y, counter, f) && OthersStand(f, f', t) && Moved(f, f', t, counter, counter')
    ensures var y' := Record(y, f, counter, t);
            && TallyOk(y', counter', f')
            && (InSequence(y', f') <==> InSequence(y, f) && !Disturbs(f, t))
  {
    hide TallyOk, InSequence, OthersStand;
    if f(t).Read? {
      WriteKeepsTally(y, counter, f, f', t);
      TallyHasWriters(y, counter, f);
      if InSequence(y, f) && !Disturbs(f, t) {
        WriteKeepsSequence(y, counter, f, f', t);
      }
      TallyHasWriters(Record(y, f, counter, t), counter', f');
      if InSequence(Record(y, f, counter, t), f') {
        DisturbanceBreaksSequence(y, counter, f, f', t);
      }
    } else if f(t).Wrote? {
      TallyHasWriters(y, counter, f);
      RereadKeepsTally(y, counter, f, f', t);
      RereadKeepsSequence(y, counter, f, f', t);
    } else {
      TallyHasWriters(y, counter, f);
      OtherStepKeepsTally(y, counter, f, f', t, counter');
    }
  }

  lemma TallyHasWriters(y: Tally, counter: int, f: Stands)
    requires TallyOk(y, counter, f)
    ensures |y.written| == |y.writers|
  {
    hide WasLevel;
  }

  // ---------------------------------------------------------------- when numbers are distinct

  predicate Distinct(numbers: map<nat, int>) {
    forall t, u :: t in numbers && u in numbers && t != u ==> numbers[t] != numbers[u]
  }

  /** No thread is between its readings. */
  ghost predicate Settled(f: Stands) {
    forall u: nat :: !InSection(f, u)
  }

  lemma SequenceMeansDistinct(y: Tally, counter: int, f: Stands)
    requires TallyOk(y, counter, f) && InSequence(y, f)
    ensures Distinct(y.numbers)
  {
    hide WasLevel;
    forall t, u | t in y.numbers && u in y.numbers && t != u ensures y.numbers[t] != y.numbers[u] {
      var i :| 0 <= i < |y.writers| && y.writers[i] == t;
      var j :| 0 <= j < |y.writers| && y.writers[j] == u;
    }
  }

  predicate AllDifferent(v: seq<int>) {
    forall i, j :: 0 <= i < j < |v| ==> v[i] != v[j]
  }

  lemma {:induction false} Pigeonhole(v: seq<int>, m: nat)
    requires AllDifferent(v) && forall k :: 0 <= k < |v| ==> 1 <= v[k] <= m
    ensures |v| <= m
    decreases m
  {
    if v != [] {
      assert 1 <= v[0] <= m;
      if k :| 0 <= k < |v| && v[k] == m {
        Pigeonhole(v[..k] + v[k + 1..], m - 1);
      } else {
        Pigeonhole(v, m - 1);
      }
    }
  }

  /** If no number is below its place, and all differ, each is its place. */
  lemma {:induction false} PlacesAreForced(v: seq<int>, k: nat)
    requires AllDifferent(v) && forall i :: 0 <= i < |v| ==> i + 1 <= v[i] <= |v|
    requires k < |v|
    ensures v[k] == k + 1
    decreases |v| - k
  {
    if v[k] != k + 1 {
      PlacesAreForced(v, v[k] - 1);
    }
  }

  /** If the counter ends at the number of writes, each write raised it by one. */
  lemma {:induction false} LevelsAreForced(written: seq<int>, k: nat)
    requires forall i :: 0 <= i < |written| ==> WasLevel(written, written[i] - 1, 0, i)
    requires k < |written| && written[|written| - 1] == |written|
    ensures written[k] == k + 1
    decreases |written| - k
  {
    if k < |written| - 1 {
      LevelsAreForced(written, k + 1);
      LevelIsReachedBy(written, k + 1, 0, k + 1);
    }
  }

  /** A level as high as the number of writes until then is the level just then. */
  lemma LevelIsReachedBy(written: seq<int>, v: nat, lo: nat, hi: nat)
    requires forall i :: 0 <= i < |written| ==> WasLevel(written, written[i] - 1, 0, i)
    requires 0 < v && WasLevel(written, v, lo, hi)
    ensures exists i: nat :: lo <= i + 1 <= hi && v <= i + 1 && i < |written| && written[i] == v
  {
    var p: nat :| lo <= p <= hi && p <= |written| && v == Level(written, p);
    assert WasLevel(written, v, 0, p);
    LevelsAreSmall(written, v, 0, p);
    assert written[p - 1] == v;
  }

  /** The numbers in the order of the writes. */
  function InPlace(y: Tally): (v: seq<int>)
    requires forall k :: 0 <= k < |y.writers| ==> y.writers[k] in y.numbers
    ensures |v| == |y.writers|
  {
    seq(|y.writers|, k requires 0 <= k < |y.writers| => y.numbers[y.writers[k]])
  }

  lemma InPlaceAt(y: Tally, k: nat)
    requires k < |y.writers| && forall i :: 0 <= i < |y.writers| ==> y.writers[i] in y.numbers
    ensures InPlace(y)[k] == y.numbers[y.writers[k]]
  {
  }

  /** All who wrote have their numbers, no two alike, none above the number of writes. */
  lemma SettledNumbers(y: Tally, counter: int, f: Stands)
    requires TallyOk(y, counter, f) && Settled(f) && Distinct(y.numbers)
    ensures forall k :: 0 <= k < |y.writers| ==> y.writers[k] in y.numbers
    ensures AllDifferent(InPlace(y))
    ensures forall k :: 0 <= k < |y.writers| ==> 1 <= InPlace(y)[k] <= |y.writers|
  {
    var n := |y.writers|;
    forall k | 0 <= k < n ensures y.writers[k] in y.numbers && 1 <= y.numbers[y.writers[k]] <= n {
      assert !InSection(f, y.writers[k]) && y.writers[k] in y.writers;
      LevelsAreSmall(y.written, y.numbers[y.writers[k]], k + 1, n);
    }
  }

  /** As many different numbers as there are values reach the highest. */
  lemma TopNumberIsTaken(v: seq<int>) returns (k: nat)
    requires v != [] && AllDifferent(v) && forall i :: 0 <= i < |v| ==> 1 <= v[i] <= |v|
    ensures k < |v| && v[k] == |v|
  {
    if forall i :: 0 <= i < |v| ==> v[i] != |v| {
      Pigeonhole(v, |v| - 1);
    }
    k :| 0 <= k < |v| && v[k] == |v|;
  }

  /** ... and so need a counter that was raised by one each time. */
  lemma DistinctForceLevels(y: Tally, counter: int, f: Stands)
    requires TallyOk(y, counter, f) && Settled(f) && Distinct(y.numbers)
    ensures forall k :: 0 <= k < |y.writers| ==> y.writers[k] in y.numbers
    ensures forall k :: 0 <= k < |y.written| ==> y.written[k] == k + 1
  {
    SettledNumbers(y, counter, f);
    TallyHasWriters(y, counter, f);
    hide WritersOk, LevelsOk, Settled, Distinct, InPlace;
    if y.writers != [] {
      var k := TopNumberIsTaken(InPlace(y));
      InPlaceAt(y, k);
      TopForcesLevels(y, counter, f, k);
    }
  }

  lemma TopForcesLevels(y: Tally, counter: int, f: Stands, k: nat)
    requires LevelsOk(y, counter, f) && k < |y.writers|
    requires y.writers[k] in y.numbers && y.numbers[y.writers[k]] == |y.writers|
    ensures forall i :: 0 <= i < |y.written| ==> y.written[i] == i + 1
  {
    hide WasLevel;
    LevelIsReachedBy(y.written, |y.written|, k + 1, |y.written|);
    forall i | 0 <= i < |y.written| ensures y.written[i] == i + 1 {
      LevelsAreForced(y.written, i);
    }
  }

  lemma DistinctMeansSequence(y: Tally, counter: int, f: Stands)
    requires TallyOk(y, counter, f) && Settled(f) && Distinct(y.numbers)
    ensures InSequence(y, f)
  {
    DistinctForceLevels(y, counter, f);
    var n, v := |y.writers|, InPlace(y);
    forall k | 0 <= k < n ensures k + 1 <= v[k] <= n {
      assert WasLevel(y.written, v[k], k + 1, n);
    }
    hide WasLevel;
    assert AllDifferent(v);
    forall k | 0 <= k < n ensures y.numbers[y.writers[k]] == k + 1 {
      PlacesAreForced(v, k);
    }
    forall u: nat ensures !f(u).Read? && !f(u).Wrote? {
      assert !InSection(f, u);
    }
  }
}
