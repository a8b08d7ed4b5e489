/** The submission loop with exponential backoff, in 64-bit durations.
    Source: internal/application/execution/submitter.go. */
module Submitter {
  import opened Wrappers

  const MAX_INT64: int := 0x7FFF_FFFF_FFFF_FFFF
  const TWO_TO_64: int := 0x1_0000_0000_0000_0000

  function Pow2(n: nat): (p: nat)
    ensures p >= 1
  {
    if n == 0 then 1 else 2 * Pow2(n - 1)
  }

  /** Two's complement wrap-around of a 64-bit integer. */
  function Wrap64(x: int): (r: int)
    ensures -MAX_INT64 - 1 <= r <= MAX_INT64 && (r - x) % TWO_TO_64 == 0
  {
    (x + MAX_INT64 + 1) % TWO_TO_64 - MAX_INT64 - 1
  }

  /** The pause after the attempt with that index: the shift wraps, and so does the product. */
  function Backoff(base: int, attempt: nat): int {
    Wrap64(base * Wrap64(Pow2(attempt)))
  }

  /** A timer with a duration that is not positive fires at once. */
  function Pause(base: int, attempt: nat): (pause: int)
    ensures pause >= 0
  {
    if Backoff(base, attempt) > 0 then Backoff(base, attempt) else 0
  }

  function TotalPause(base: int, n: nat): int {
    if n == 0 then 0 else TotalPause(base, n - 1) + Pause(base, n - 1)
  }

  lemma NoPause(base: int)
    ensures TotalPause(base, 0) == 0
  {
  }

  lemma TotalPauseOneMore(base: int, n: nat)
    ensures TotalPause(base, n + 1) == TotalPause(base, n) + Pause(base, n)
  {
  }

  class Submitter {
    const maxRetries: int
    const baseInterval: int
    var attempts: map<string, nat>
    var sent: seq<string>

    constructor (maxRetries: int, baseInterval: int)
      ensures this.maxRetries == maxRetries && this.baseInterval == baseInterval
      ensures attempts == map[] && sent == []
    {
      this.maxRetries, this.baseInterval := maxRetries, baseInterval;
      attempts, sent := map[], [];
    }

    /** `answer(k)` is what the exchange says to call k, `cancelled(k)` whether the context ends
        during the pause after it; `waited` is the sum of the completed pauses. */
    method Submit(executionID: string, clientOrderID: string, answer: nat -> Option<string>, cancelled: nat -> bool)
      returns (result: Option<string>, waited: int)
      modifies this
      ensures executionID in attempts && attempts == old(attempts)[executionID := attempts[executionID]]
      ensures sent == old(sent) + seq(attempts[executionID], i => clientOrderID)
      ensures maxRetries < 0 ==> attempts[executionID] == 0 && result == None && waited == 0
      ensures maxRetries >= 0 ==> var n := attempts[executionID];
        && 1 <= n <= maxRetries + 1
        && (forall k :: 0 <= k < n - 1 ==> answer(k) == None && !cancelled(k))
        && result == answer(n - 1)
        && (result == None ==> n == maxRetries + 1 || cancelled(n - 1))
        && waited == TotalPause(baseInterval, n - 1)
    {
      hide Pause, TotalPause, Wrap64, Backoff;
      assert TotalPause(baseInterval, 0) == 0 by { NoPause(baseInterval); }
      attempts := attempts[executionID := 0];
      result, waited := None, 0;
      var attempt := 0;
      while attempt <= maxRetries
        invariant 0 <= attempt && (if maxRetries < 0 then attempt == 0 else attempt <= maxRetries)
        invariant attempts == old(attempts)[executionID := attempt]
        invariant sent == old(sent) + seq(attempt, i => clientOrderID)
        invariant forall k :: 0 <= k < attempt ==> answer(k) == None && !cancelled(k)
        invariant result == None && waited == TotalPause(baseInterval, attempt)
        decreases maxRetries + 1 - attempt
      {
        attempts := attempts[executionID := attempt + 1];
        sent := sent + [clientOrderID];
        assert sent == old(sent) + seq(attempt + 1, i => clientOrderID);
        result := answer(attempt);
        if result.Some? { return; }
        if attempt >= maxRetries { break; }
        if cancelled(attempt) { return; }
        TotalPauseOneMore(baseInterval, attempt);
        waited := waited + Pause(baseInterval, attempt);
        attempt := attempt + 1;
      }
    }

    method GetAttemptCount(executionID: string) returns (n: nat)
      ensures n == if executionID in attempts then attempts[executionID] else 0
    {
      n := if executionID in attempts then attempts[executionID] else 0;
    }
  }

  // --------------------------------------------------------------- closed form of the waits

  lemma {:induction false} Pow2Grows(m: nat, n: nat)
    requires m <= n
    ensures Pow2(m) <= Pow2(n)
  {
    if m < n {
      Pow2Grows(m, n - 1);
    }
  }

  lemma Wrap64Fits(x: int)
    ensures Wrap64(x) == x <==> -MAX_INT64 - 1 <= x <= MAX_INT64
  {
  }

  lemma ProductAtLeast(base: nat, p: nat)
    requires base > 0
    ensures p <= base * p
  {
  }

  lemma BackoffFits(base: nat, attempt: nat)
    requires base * Pow2(attempt) <= MAX_INT64
    ensures Backoff(base, attempt) == base * Pow2(attempt)
  {
    hide Wrap64;
    Wrap64Fits(Pow2(attempt));
    Wrap64Fits(base * Pow2(attempt));
    if base > 0 {
      ProductAtLeast(base, Pow2(attempt));
    } else {
      assert base * Wrap64(Pow2(attempt)) == 0 == base * Pow2(attempt);
    }
  }

  lemma BackoffIsBounded(base: int, attempt: nat)
    ensures Backoff(base, attempt) <= MAX_INT64
  {
    hide Wrap64;
  }

  lemma ProductGrows(base: nat, p: nat, q: nat)
    requires p <= q
    ensures base * p <= base * q
  {
  }

  /** No backoff of a submitter overflows exactly when its longest one fits into 64 bits. */
  lemma NoOverflowIff(base: nat, maxRetries: nat)
    requires maxRetries >= 1
    ensures (forall k: nat :: k < maxRetries ==> Backoff(base, k) == base * Pow2(k))
            <==> base * Pow2(maxRetries - 1) <= MAX_INT64
  {
    hide Backoff, Pow2;
    if base * Pow2(maxRetries - 1) <= MAX_INT64 {
      forall k: nat | k < maxRetries
        ensures Backoff(base, k) == base * Pow2(k)
      {
        Pow2Grows(k, maxRetries - 1);
        ProductGrows(base, Pow2(k), Pow2(maxRetries - 1));
        BackoffFits(base, k);
      }
    } else {
      BackoffIsBounded(base, maxRetries - 1);
    }
  }

  lemma Pow2Step(base: nat, n: nat)
    requires n > 0
    ensures base * (Pow2(n) - 1) == base * (Pow2(n - 1) - 1) + base * Pow2(n - 1)
  {
    assert Pow2(n) == Pow2(n - 1) + Pow2(n - 1);
  }

  lemma PauseFits(base: nat, attempt: nat, maxRetries: nat)
    requires attempt < maxRetries && base * Pow2(maxRetries - 1) <= MAX_INT64
    ensures Pause(base, attempt) == base * Pow2(attempt)
  {
    hide Backoff, Pow2;
    NoOverflowIff(base, maxRetries);
    assert Backoff(base, attempt) == base * Pow2(attempt);
    ProductGrows(base, 0, Pow2(attempt));
  }

  /** A submission that made n + 1 calls has waited exactly base x (2^n - 1). */
  lemma {:induction false} TotalPauseClosedForm(base: nat, maxRetries: nat, n: nat)
    requires n <= maxRetries && (maxRetries >= 1 ==> base * Pow2(maxRetries - 1) <= MAX_INT64)
    ensures TotalPause(base, n) == base * (Pow2(n) - 1)
  {
    if n > 0 {
      hide Backoff, Pow2, Pause;
      TotalPauseClosedForm(base, maxRetries, n - 1);
      PauseFits(base, n - 1, maxRetries);
      Pow2Step(base, n);
    }
  }
}
