/**
 * The `retry` and `rate_limit` decorators of utils/helpers.py over an explicit clock.
 * The wrapped function is an oracle: `attempt(i)` is what its i-th invocation does.
 */
module Decorators {
  import opened Wrappers

  /** One invocation of a wrapped function: it returns a value or raises an exception. */
  datatype CallOutcome<T> = Returned(value: T) | Raised(error: string)

  /**
   * What a retry-wrapped call ends in: the first value returned, or the last exception
   * re-raised (`None` when there was no attempt at all: Python then raises `None`, a TypeError).
   */
  datatype RetryOutcome<T> = Succeeded(value: T) | GaveUp(lastError: Option<string>)

  function Max0(n: int): nat { if n > 0 then n else 0 }

  function RealPow(b: real, k: nat): real {
    if k == 0 then 1.0 else RealPow(b, k - 1) * b
  }

  /** The k-th sleep of `retry` (counting from 0): `delay` multiplied k times by `backoff`. */
  function Backoff(delay: real, backoff: real, k: nat): real {
    delay * RealPow(backoff, k)
  }

  /** The successive sleeps of `retry`: delay, delay·backoff, delay·backoff², … */
  function BackoffDelays(delay: real, backoff: real, n: nat): (r: seq<real>)
    ensures |r| == n
    ensures forall k :: 0 <= k < n ==> r[k] == Backoff(delay, backoff, k)
  {
    if n == 0 then [] else BackoffDelays(delay, backoff, n - 1) + [Backoff(delay, backoff, n - 1)]
  }

  /**
   * The synchronous `retry` wrapper: up to `maxAttempts` invocations, the first value returned wins,
   * and every failed attempt but the last is followed by a sleep that grows by `backoff`.
   * `calls` is the number of invocations made and `sleeps` the durations slept, in order.
   */
  method Retry<T>(maxAttempts: int, delay: real, backoff: real, attempt: nat -> CallOutcome<T>)
    returns (result: RetryOutcome<T>, calls: nat, sleeps: seq<real>)
    ensures calls <= Max0(maxAttempts)
    ensures forall j :: 0 <= j < calls - 1 ==> attempt(j).Raised?
    ensures result.Succeeded? <==> calls >= 1 && attempt(calls - 1).Returned?
    ensures result.Succeeded? ==> result.value == attempt(calls - 1).value
    ensures result.GaveUp? ==> calls == Max0(maxAttempts) && forall j :: 0 <= j < calls ==> attempt(j).Raised?
    ensures result.GaveUp? ==> result.lastError == if calls == 0 then None else Some(attempt(calls - 1).error)
    ensures sleeps == BackoffDelays(delay, backoff, if calls == 0 then 0 else calls - 1)
  {
    var lastException: Option<string> := None;
    var currentDelay := delay;
    calls := 0;
    sleeps := [];
    var i := 0;
    while i < maxAttempts
      invariant 0 <= i <= Max0(maxAttempts) && calls == i
      invariant forall j :: 0 <= j < i ==> attempt(j).Raised?
      invariant lastException == if i == 0 then None else Some(attempt(i - 1).error)
      invariant i < maxAttempts ==> sleeps == BackoffDelays(delay, backoff, i)
      invariant i == maxAttempts && i > 0 ==> sleeps == BackoffDelays(delay, backoff, i - 1)
      invariant i == 0 ==> sleeps == []
      invariant currentDelay == Backoff(delay, backoff, |sleeps|)
    {
      calls := calls + 1;
      var outcome := attempt(i);
      if outcome.Returned? {
        return Succeeded(outcome.value), calls, sleeps;
      }
      lastException := Some(outcome.error);
      if i < maxAttempts - 1 {
        sleeps := sleeps + [currentDelay];
        currentDelay := currentDelay * backoff;
      }
      i := i + 1;
    }
    result := GaveUp(lastException);
  }

  /** Each sleep of `retry` is the previous one multiplied by `backoff`. */
  lemma {:induction false} BackoffGrows(delay: real, backoff: real, n: nat, k: nat)
    requires k + 1 < n
    ensures BackoffDelays(delay, backoff, n)[k + 1] == BackoffDelays(delay, backoff, n)[k] * backoff
  {
    assert BackoffDelays(delay, backoff, n)[k + 1] == delay * (RealPow(backoff, k) * backoff);
  }

  /**
   * The configuration used on `_make_request` (3 attempts, delay 1, backoff 2) sleeps
   * 1 then 2 seconds when every attempt fails.
   */
  lemma DefaultBackoff()
    ensures BackoffDelays(1.0, 2.0, 2) == [1.0, 2.0]
  {
    assert Backoff(1.0, 2.0, 1) == 2.0 by {
      assert RealPow(2.0, 1) == RealPow(2.0, 0) * 2.0;
    }
  }

  /** How long the `rate_limit` wrapper sleeps: `period - (now - last)` when that is positive. */
  function GateWait(period: real, last: real, now: real): (w: real)
    ensures w >= 0.0
    ensures now + w >= last + period
    ensures w > 0.0 ==> now + w == last + period
  {
    var leftToWait := period - (now - last);
    if leftToWait > 0.0 then leftToWait else 0.0
  }

  /** The state of one `rate_limit` decoration: the closure cell `last_called`, initially 0. */
  class RateLimiter {
    const period: real
    var lastCalled: real

    constructor (period: real)
      ensures this.period == period && lastCalled == 0.0
    {
      this.period := period;
      lastCalled := 0.0;
    }

    /**
     * The synchronous wrapper: sleep, run the function (whose outcome is given), and move
     * `last_called` to the time it returned only when it returned normally.
     */
    method Call<T>(now: real, outcome: CallOutcome<T>, returnsAt: real) returns (result: CallOutcome<T>, startedAt: real)
      modifies this
      ensures startedAt == now + GateWait(period, old(lastCalled), now)
      ensures result == outcome
      ensures lastCalled == if outcome.Returned? then returnsAt else old(lastCalled)
    {
      var waited := GateWait(period, lastCalled, now);
      startedAt := now + waited;
      result := outcome;
      if outcome.Returned? {
        lastCalled := returnsAt;
      }
    }
  }

  /** A call that starts after waiting never starts before the gate opens. */
  lemma GateStart(period: real, last: real, now: real)
    ensures now + GateWait(period, last, now) == if now >= last + period then now else last + period
  {
  }

  /**
   * Two successive successful calls through one gate start at least `period` apart, provided
   * the first returns no earlier than it started.
   */
  lemma SuccessiveStartsSpaced(period: real, last: real, now1: real, returned1: real, now2: real)
    requires returned1 >= now1 + GateWait(period, last, now1)
    ensures now2 + GateWait(period, returned1, now2) >= now1 + GateWait(period, last, now1) + period
  {
  }
}
