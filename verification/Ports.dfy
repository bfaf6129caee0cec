/** The byte copies in and out of shared memory, and the acquisition of a server
    port with its retries. */
module Ports {
  import opened Prelude

  // ---------------------------------------------------------------- byte copies

  method SliceToBytes(slice: array<byte>) returns (bytes: seq<byte>)
    ensures bytes == slice[..]
  {
    bytes := [];
    for i := 0 to slice.Length
      invariant bytes == slice[..i]
    {
      bytes := bytes + [slice[i]];
    }
  }

  /** Overwrites the front of the loaned slice; callers loan exactly the payload's length. */
  method WriteBytesToUninitSlice(dst: array<byte>, payload: seq<byte>)
    requires |payload| <= dst.Length
    modifies dst
    ensures dst[..] == payload + old(dst[|payload|..])
  {
    for i := 0 to |payload|
      invariant dst[..i] == payload[..i]
      invariant dst[i..] == old(dst[i..])
    {
      dst[i] := payload[i];
    }
  }

  // ------------------------------------------------------------ port acquisition

  /** One attempt to create the port. */
  datatype Attempt = Created(server: nat) | Capacity | Fails(exc: Exc)

  datatype Acquisition =
    | Acquired(server: nat)
    | Reraised(exc: Exc)
    | GaveUp
    | NeverTried
  {
    /** The exception that leaves the call. */
    function Raises(): Option<Exc> {
      match this
      case Acquired(_) => None
      case Reraised(exc) => Some(exc)
      case GaveUp => Some(Error("Could not create iceoryx2 server port"))
      case NeverTried => Some(Error("AssertionError"))
    }
  }

  /** What the attempts `create(attempt), create(attempt + 1), ...` lead to. */
  function Acquire(create: nat -> Attempt, attempt: nat, maxAttempts: int): Acquisition
    decreases maxAttempts - attempt
  {
    if attempt >= maxAttempts then (if attempt == 0 then NeverTried else GaveUp)
    else
      match create(attempt)
      case Created(server) => Acquired(server)
      case Fails(exc) => Reraised(exc)
      case Capacity => Acquire(create, attempt + 1, maxAttempts)
  }

  /** The backoff after the first k capacity failures, in units of 50 ms. */
  function Backoff(k: nat): nat {
    if k == 0 then 0 else Backoff(k - 1) + if k <= 10 then k else 10
  }

  method CreateServerWithDeadNodeCleanup(create: nat -> Attempt, maxAttempts: int)
    returns (result: Acquisition, creates: nat, cleanups: nat, backoff: nat)
    ensures result == Acquire(create, 0, maxAttempts)
    ensures creates == 0 <==> maxAttempts <= 0
    ensures maxAttempts > 0 ==> creates <= maxAttempts
    ensures forall i :: 0 <= i < creates - 1 ==> create(i) == Capacity
    ensures result.NeverTried? <==> maxAttempts <= 0
    ensures result.GaveUp? <==> 0 < maxAttempts == creates && create(creates - 1) == Capacity
    ensures result.Acquired? ==> creates > 0 && create(creates - 1) == Created(result.server)
    ensures result.Reraised? ==> creates > 0 && create(creates - 1) == Fails(result.exc)
    ensures cleanups == if result.GaveUp? || creates == 0 then creates else creates - 1
    ensures backoff == if creates == 0 then 0 else Backoff(creates - 1)
  {
    creates, cleanups, backoff := 0, 0, 0;
    var attempt := 0;
    while attempt < maxAttempts
      invariant 0 <= attempt == creates == cleanups
      invariant if attempt == 0 then backoff == 0 else attempt <= maxAttempts
      invariant forall i :: 0 <= i < attempt ==> create(i) == Capacity
      invariant Acquire(create, 0, maxAttempts) == Acquire(create, attempt, maxAttempts)
      invariant attempt < maxAttempts ==> backoff == Backoff(attempt)
      invariant attempt > 0 && attempt == maxAttempts ==> backoff == Backoff(attempt - 1)
    {
      creates := creates + 1;
      match create(attempt)
      case Created(server) =>
        return Acquired(server), creates, cleanups, backoff;
      case Fails(exc) =>
        return Reraised(exc), creates, cleanups, backoff;
      case Capacity =>
        cleanups := cleanups + 1;
        if attempt + 1 < maxAttempts {
          backoff := backoff + if attempt + 1 < 10 then attempt + 1 else 10;
        }
        attempt := attempt + 1;
    }
    result := if attempt == 0 then NeverTried else GaveUp;
  }

  /** The backoff grows quadratically for ten attempts and linearly afterwards. */
  lemma {:induction false} BackoffClosedForm(k: nat)
    ensures k <= 10 ==> 2 * Backoff(k) == k * (k + 1)
    ensures k >= 10 ==> Backoff(k) == 10 * k - 45
  {
    if k > 0 {
      BackoffClosedForm(k - 1);
    }
  }
}
