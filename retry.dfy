/**
  The `retry_on_failure(max_retries, delay)` decorator of backend/app.py.
  The wrapped function is the parameter `call`: `call(k)` is what attempt k
  (counted from 0) returns or raises.  Sleeping is counted, not performed;
  the time slept is `sleeps * delay`.
*/
module Retry {

  import opened Wrappers

  datatype Attempt<T, E> = Returned(value: T) | Threw(error: E)

  /** What the wrapper does: return the first value, re-raise the last
      exception, or raise `None` (a `TypeError`) when it never called the
      function because `max_retries` is not positive. */
  datatype RetryOutcome<T, E> =
    | Success(value: T, calls: nat, sleeps: nat)
    | Failure(error: E, calls: nat, sleeps: nat)
    | RaisedNone

  /** The first attempt below n that returns, if any. */
  function FirstReturn<T, E>(call: nat -> Attempt<T, E>, n: nat): (k: Option<nat>)
    ensures k.Some? ==>
      k.value < n && call(k.value).Returned? && forall j :: 0 <= j < k.value ==> call(j).Threw?
    ensures k.None? ==> forall j :: 0 <= j < n ==> call(j).Threw?
  {
    if n == 0 then None
    else
      match FirstReturn(call, n - 1)
      case Some(k) => Some(k)
      case None => if call(n - 1).Returned? then Some(n - 1) else None
  }

  /** The outcome of the wrapper, stated without the loop. */
  function Expected<T, E>(maxRetries: int, call: nat -> Attempt<T, E>): RetryOutcome<T, E> {
    if maxRetries <= 0 then RaisedNone
    else
      match FirstReturn(call, maxRetries)
      case Some(k) => Success(call(k).value, k + 1, k)
      case None => Failure(call(maxRetries - 1).error, maxRetries, maxRetries - 1)
  }

  /** The wrapper's loop. */
  method RetryOnFailure<T, E>(maxRetries: int, call: nat -> Attempt<T, E>) returns (outcome: RetryOutcome<T, E>)
    ensures outcome == Expected(maxRetries, call)
  {
    var lastError: Option<E> := None;
    var sleeps: nat := 0;
    var n: nat := if maxRetries > 0 then maxRetries else 0;
    for attempt := 0 to n
      invariant FirstReturn(call, attempt).None?
      invariant sleeps == if attempt == n && n > 0 then n - 1 else attempt
      invariant attempt > 0 ==> lastError == Some(call(attempt - 1).error)
      invariant attempt == 0 ==> lastError.None?
    {
      var r := call(attempt);
      if r.Returned? {
        return Success(r.value, attempt + 1, sleeps);
      }
      lastError := Some(r.error);
      if attempt < maxRetries - 1 {
        sleeps := sleeps + 1;
      }
    }
    if lastError.None? {
      return RaisedNone;
    }
    outcome := Failure(lastError.value, n, sleeps);
  }

  /** The wrapper never calls more than `max_retries` times, stops at the
      first success after failures only, and sleeps only between attempts. */
  lemma {:induction false} ExpectedBounds<T, E>(maxRetries: int, call: nat -> Attempt<T, E>)
    ensures var o := Expected(maxRetries, call);
      && (o.RaisedNone? <==> maxRetries <= 0)
      && (o.Success? ==>
            && 1 <= o.calls <= maxRetries && o.sleeps == o.calls - 1
            && call(o.calls - 1) == Returned(o.value)
            && forall j :: 0 <= j < o.calls - 1 ==> call(j).Threw?)
      && (o.Failure? ==>
            && o.calls == maxRetries && o.sleeps == maxRetries - 1
            && call(maxRetries - 1) == Threw(o.error)
            && forall j :: 0 <= j < maxRetries ==> call(j).Threw?)
  {
  }

  /** The wrapper succeeds exactly when some attempt within the budget returns. */
  lemma {:induction false} SuccessIff<T, E>(maxRetries: int, call: nat -> Attempt<T, E>)
    ensures Expected(maxRetries, call).Success? <==>
      exists k :: 0 <= k < maxRetries && call(k).Returned?
  {
    if maxRetries > 0 && FirstReturn(call, maxRetries).None? {
      assert forall k :: 0 <= k < maxRetries ==> call(k).Threw?;
    }
  }
}
