/**
 * `RetryPlugin`: a bounded retry counter. Its constructor registers three
 * operations on the plugin's chains; `_handle_retry` re-invokes the stored
 * operation, counting attempts, until one succeeds or the counter reaches
 * its maximum. Attempts are numbered by the counter value they run under
 * (the first retry is attempt `current_retry + 1`), and `fails(k)` says
 * whether attempt `k` raises. The `delay` sleep between attempts is not
 * modelled.
 */
module Retry {
  import opened Wrappers
  import opened Plugin

  const DEFAULT_RETRY_TIMES: int := 3

  /** The three operations the constructor registers, under the names of the bound methods. */
  const SETUP_RETRY: Operation := Callable("_setup_retry", 0, Some(0))
  /** `_handle_retry(self, operation=None, *args, **kwargs)` takes any number of arguments. */
  const HANDLE_RETRY: Operation := Callable("_handle_retry", 0, None)
  const RESET_RETRY_COUNT: Operation := Callable("_reset_retry_count", 0, Some(0))

  /** The constructor's `add_operation` calls. */
  const RETRY_REGISTRATIONS: seq<Registration> := [
    Registration(BeforeExec, SETUP_RETRY, "设置重试机制"),
    Registration(OnError, HANDLE_RETRY, "处理重试逻辑"),
    Registration(OnSuccess, RESET_RETRY_COUNT, "重置重试计数")
  ]

  /**
   * Each hook of a plugin built from `RETRY_REGISTRATIONS` gets the one
   * operation registered on it, if any: the setup on `before_exec`, the
   * retry on `on_error`, the reset on `on_success`.
   */
  lemma RetryRegistered()
    ensures RegisteredOps(RETRY_REGISTRATIONS, 3, BeforeExec) == [SETUP_RETRY]
    ensures RegisteredOps(RETRY_REGISTRATIONS, 3, OnError) == [HANDLE_RETRY]
    ensures RegisteredOps(RETRY_REGISTRATIONS, 3, OnSuccess) == [RESET_RETRY_COUNT]
    ensures RegisteredOps(RETRY_REGISTRATIONS, 3, OnExec) == []
    ensures RegisteredOps(RETRY_REGISTRATIONS, 3, AfterExec) == []
  {
    forall h {
      RegisteredThree(RETRY_REGISTRATIONS, h);
    }
  }

  /** How a `_handle_retry` call ends: it returns None, returns the result of attempt `k`, or re-raises attempt `k`'s exception. */
  datatype RetryOutcome = ReturnedNone | Returned(attempt: int) | Raised(attempt: int)

  /** The outcome of a call, the attempts it made in order, and the counter it leaves. */
  datatype RetryRun = RetryRun(outcome: RetryOutcome, attempts: seq<int>, final: int)

  /**
   * `_handle_retry` with counter `cur` and maximum `max`, where `stored`
   * says whether an operation is stored. Below the maximum the counter goes
   * up by one and, when an operation is stored, it is attempted: a success
   * returns its result; a failure retries while the counter is still below
   * the maximum and re-raises once it is not. At the maximum (or above it)
   * nothing is attempted and None is returned.
   */
  function RetrySpec(max: int, cur: int, stored: bool, fails: int -> bool): RetryRun
    decreases max - cur
  {
    if cur >= max then RetryRun(ReturnedNone, [], cur)
    else if !stored then RetryRun(ReturnedNone, [], cur + 1)
    else if !fails(cur + 1) then RetryRun(Returned(cur + 1), [cur + 1], cur + 1)
    else if cur + 1 < max then
      var rest := RetrySpec(max, cur + 1, stored, fails);
      RetryRun(rest.outcome, [cur + 1] + rest.attempts, rest.final)
    else RetryRun(Raised(cur + 1), [cur + 1], cur + 1)
  }

  /** The integers `lo`, `lo + 1`, ..., `hi - 1`. */
  function Range(lo: int, hi: int): (r: seq<int>)
    ensures |r| == if lo <= hi then hi - lo else 0
    ensures forall i :: 0 <= i < |r| ==> r[i] == lo + i
    decreases hi - lo
  {
    if lo >= hi then [] else [lo] + Range(lo + 1, hi)
  }

  /**
   * The counter never passes the maximum: starting below it, a call moves
   * it up by at least one and to at most the maximum; starting at or above
   * it, a call leaves it where it is.
   */
  lemma {:induction false} RetryBounded(max: int, cur: int, stored: bool, fails: int -> bool)
    ensures cur < max ==> cur < RetrySpec(max, cur, stored, fails).final <= max
    ensures cur >= max ==> RetrySpec(max, cur, stored, fails).final == cur
    decreases max - cur
  {
    if cur < max && stored && fails(cur + 1) && cur + 1 < max {
      RetryBounded(max, cur + 1, stored, fails);
    }
  }

  /**
   * The attempts are consecutive from `cur + 1`, one per counter step, and
   * every attempt but the last raised. A returned result is the last
   * attempt's and that attempt succeeded; a re-raised exception is the last
   * attempt's, made at the maximum; None means nothing was attempted.
   */
  lemma {:induction false} RetryAttempts(max: int, cur: int, stored: bool, fails: int -> bool)
    ensures var r := RetrySpec(max, cur, stored, fails);
            && r.attempts == Range(cur + 1, cur + 1 + |r.attempts|)
            && (r.attempts != [] ==> r.final == cur + |r.attempts|)
            && (forall i :: 0 <= i < |r.attempts| - 1 ==> fails(r.attempts[i]))
            && (r.outcome == ReturnedNone <==> r.attempts == [])
            && (r.outcome.Returned? ==> r.outcome.attempt == r.attempts[|r.attempts| - 1] && !fails(r.outcome.attempt))
            && (r.outcome.Raised? ==> r.outcome.attempt == r.attempts[|r.attempts| - 1] == max && fails(max))
    decreases max - cur
  {
    if cur < max && stored && fails(cur + 1) && cur + 1 < max {
      RetryAttempts(max, cur + 1, stored, fails);
      var rest := RetrySpec(max, cur + 1, stored, fails);
      assert [cur + 1] + Range(cur + 2, cur + 2 + |rest.attempts|) == Range(cur + 1, cur + 2 + |rest.attempts|);
    }
  }

  /**
   * An operation that always fails, stored with the counter at `cur` below
   * the maximum, is attempted exactly `max - cur` times, under counters
   * `cur + 1` to `max`, and the last exception is re-raised.
   */
  lemma {:induction false} RetryAlwaysFails(max: int, cur: int, fails: int -> bool)
    requires cur < max && forall k :: cur < k <= max ==> fails(k)
    ensures RetrySpec(max, cur, true, fails) == RetryRun(Raised(max), Range(cur + 1, max + 1), max)
    decreases max - cur
  {
    if cur + 1 < max {
      RetryAlwaysFails(max, cur + 1, fails);
      assert [cur + 1] + Range(cur + 2, max + 1) == Range(cur + 1, max + 1);
    }
  }

  /**
   * The first attempt that succeeds ends the call: when attempts
   * `cur + 1` to `k - 1` raise and attempt `k` (at most the maximum)
   * succeeds, its result is returned and nothing after it is attempted.
   */
  lemma {:induction false} RetryFirstSuccess(max: int, cur: int, k: int, fails: int -> bool)
    requires cur < k <= max && !fails(k) && forall j :: cur < j < k ==> fails(j)
    ensures RetrySpec(max, cur, true, fails) == RetryRun(Returned(k), Range(cur + 1, k + 1), k)
    decreases max - cur
  {
    if cur + 1 < k {
      RetryFirstSuccess(max, cur + 1, k, fails);
      assert [cur + 1] + Range(cur + 2, k + 1) == Range(cur + 1, k + 1);
    }
  }

  class RetryPlugin {
    /** The plugin's own chains (`super().__init__`). */
    const base: BasePlugin
    const maxRetryTimes: int
    /** The sleep between attempts, in seconds; the model does not sleep. */
    const delay: real
    var currentRetry: int
    /** The stored operation, known by name; None until one is given. */
    var originalOperation: Option<string>

    /**
     * `RetryPlugin(retry_times, delay)`: the counter starts at zero, nothing
     * is stored, and the three operations are registered: the setup on
     * `before_exec`, the retry on `on_error`, the reset on `on_success`.
     */
    constructor (retryTimes: int, delay: real)
      ensures maxRetryTimes == retryTimes && this.delay == delay
      ensures currentRetry == 0 && originalOperation == None
      ensures fresh(base) && fresh(base.repr) && base.Valid()
      ensures forall h :: base.Ops(h) == RegisteredOps(RETRY_REGISTRATIONS, 3, h)
    {
      var b := NewPlugin(RETRY_REGISTRATIONS);
      base := b;
      maxRetryTimes := retryTimes;
      this.delay := delay;
      currentRetry := 0;
      originalOperation := None;
    }

    /** `_setup_retry`: the counter goes back to zero. */
    method SetupRetry()
      modifies this`currentRetry
      ensures currentRetry == 0
    {
      currentRetry := 0;
    }

    /** `_reset_retry_count`: the counter goes back to zero. */
    method ResetRetryCount()
      modifies this`currentRetry
      ensures currentRetry == 0
    {
      currentRetry := 0;
    }

    /**
     * `_handle_retry(operation)`: a given operation replaces the stored one;
     * then the stored one is retried as `RetrySpec` says. The recursive call
     * passes no operation, so the stored one is kept.
     */
    method HandleRetry(operation: Option<string>, fails: int -> bool) returns (outcome: RetryOutcome, attempts: seq<int>)
      modifies this`currentRetry, this`originalOperation
      ensures originalOperation == if operation.Some? then operation else old(originalOperation)
      ensures RetrySpec(maxRetryTimes, old(currentRetry), originalOperation.Some?, fails) == RetryRun(outcome, attempts, currentRetry)
      decreases maxRetryTimes - currentRetry
    {
      if operation.Some? {
        originalOperation := operation;
      }
      if currentRetry < maxRetryTimes {
        currentRetry := currentRetry + 1;
        if originalOperation.Some? {
          if !fails(currentRetry) {
            return Returned(currentRetry), [currentRetry];
          }
          var made := currentRetry;
          if currentRetry < maxRetryTimes {
            var rest;
            outcome, rest := HandleRetry(None, fails);
            attempts := [made] + rest;
            return;
          }
          return Raised(made), [made];
        }
        return ReturnedNone, [];
      }
      return ReturnedNone, [];
    }
  }
}
