/**
 * The retry helper `withRetries` (src/retries.ts): it invokes an operation
 * up to `maxAttempts` times, returns the first success, throws the error of
 * the last allowed attempt, and between a failed attempt and the next one
 * waits a delay that starts at `initTime` and is multiplied by
 * `backoffFactor` and clamped to `[minTime, maxTime]` after every wait.
 *
 * Delays are JavaScript numbers: a real or `NaN` (`Number` below). The
 * waits the helper hands to `setTimeout` follow the update as written,
 * `DelayAsWritten`; `Delay` is the update with an absent factor read as 1,
 * which agrees with it whenever a factor is set. The operation is a function from
 * the index of the call to what that call does, which is how its own state
 * (a counter in a closure, say) shows up from outside.
 */
module Retries {
  import opened Wrappers

  datatype RetryOptions = RetryOptions(
    initTime: real,
    maxAttempts: int,
    minTime: Option<real>,
    maxTime: Option<real>,
    backoffFactor: Option<real>)

  /** `DEFAULT_RETRIES_OPTIONS`: a single attempt, so no retry and no wait. */
  const DefaultRetriesOptions: RetryOptions := RetryOptions(1000.0, 1, None, None, None)

  /** What one call of the operation does: resolve with a value or throw an error. */
  datatype Outcome<+T, +E> = Success(value: T) | Failure(error: E)

  /** What `withRetries` settles to: the value, the thrown error, or `undefined` when it never calls. */
  datatype RetryResult<+T, +E> = Returned(value: T) | Threw(error: E) | Undefined

  /** `if (x && ...)`: an option is truthy when it is set and not zero. */
  predicate Truthy(x: Option<real>) {
    x.Some? && x.value != 0.0
  }

  /** The clamp after each multiplication: raise to `minTime`, otherwise lower to `maxTime`. */
  function Clamp(options: RetryOptions, t: real): (c: real)
    ensures Truthy(options.minTime) && t < options.minTime.value ==> c == options.minTime.value
    ensures !(Truthy(options.minTime) && t < options.minTime.value) && Truthy(options.maxTime) && t > options.maxTime.value
            ==> c == options.maxTime.value
    ensures !(Truthy(options.minTime) && t < options.minTime.value) && !(Truthy(options.maxTime) && t > options.maxTime.value)
            ==> c == t
  {
    if Truthy(options.minTime) && t < options.minTime.value then options.minTime.value
    else if Truthy(options.maxTime) && t > options.maxTime.value then options.maxTime.value
    else t
  }

  /** The factor the delay grows by; an absent factor leaves it unchanged (see `NextDelayAsWritten`). */
  function Factor(options: RetryOptions): real {
    if options.backoffFactor.Some? then options.backoffFactor.value else 1.0
  }

  function NextDelay(options: RetryOptions, t: real): real {
    Clamp(options, t * Factor(options))
  }

  /** The wait before attempt `j + 2`, that is, after the `j + 1`-th failure. */
  function Delay(options: RetryOptions, j: nat): real {
    if j == 0 then options.initTime else NextDelay(options, Delay(options, j - 1))
  }

  /**
   * `withRetries(options, func)`. `calls` is how many times the operation ran
   * and `sleeps` the delays handed to `setTimeout`, in order: the delay as
   * written, which is `NaN` once an absent factor has multiplied it. With a
   * factor set, the waits are the real back-off sequence `Delay`.
   */
  method WithRetries<T, E>(options: RetryOptions, op: nat -> Outcome<T, E>)
    returns (r: RetryResult<T, E>, calls: nat, sleeps: seq<Number>)
    ensures options.maxAttempts <= 0 ==> r == Undefined && calls == 0 && sleeps == []
    ensures options.maxAttempts > 0 ==> 1 <= calls <= options.maxAttempts && !r.Undefined?
    ensures forall i :: 0 <= i < calls - 1 ==> op(i).Failure?
    ensures r.Returned? ==> op(calls - 1) == Success(r.value)
    ensures r.Threw? ==> op(calls - 1) == Failure(r.error) && calls == options.maxAttempts
    ensures calls > 0 ==> |sleeps| == calls - 1
    ensures forall j :: 0 <= j < |sleeps| ==> sleeps[j] == DelayAsWritten(options, j)
    ensures options.backoffFactor.Some? ==> forall j :: 0 <= j < |sleeps| ==> sleeps[j] == Finite(Delay(options, j))
  {
    if options.backoffFactor.Some? {
      forall j: nat
        ensures DelayAsWritten(options, j) == Finite(Delay(options, j))
      {
        AsWrittenAgrees(options, j);
      }
    }
    var time := Finite(options.initTime);
    var attempts := 1;
    calls, sleeps := 0, [];
    while attempts <= options.maxAttempts
      invariant 1 <= attempts && calls == attempts - 1
      invariant attempts == 1 || attempts <= options.maxAttempts
      invariant forall i :: 0 <= i < calls ==> op(i).Failure?
      invariant |sleeps| == calls
      invariant forall j :: 0 <= j < |sleeps| ==> sleeps[j] == DelayAsWritten(options, j)
      invariant time == DelayAsWritten(options, calls)
      decreases options.maxAttempts - attempts
    {
      var outcome := op(attempts - 1);
      calls := calls + 1;
      if outcome.Success? {
        return Returned(outcome.value), calls, sleeps;
      }
      attempts := attempts + 1;
      if attempts > options.maxAttempts {
        return Threw(outcome.error), calls, sleeps;
      }
      sleeps := sleeps + [time];
      time := NextDelayAsWritten(options, time);
    }
    r := Undefined;
  }

  /** With both bounds set and ordered, every wait after the first lies between them. */
  lemma DelayWithinBounds(options: RetryOptions, j: nat)
    requires Truthy(options.minTime) && Truthy(options.maxTime)
    requires options.minTime.value <= options.maxTime.value
    requires j >= 1
    ensures options.minTime.value <= Delay(options, j) <= options.maxTime.value
  {
  }

  /** The operation of the test suite: its first `limit` calls throw the running count, then it returns it. */
  function CountingOperation(limit: nat): nat -> Outcome<nat, nat> {
    i => if i < limit then Failure(i + 1) else Success(limit)
  }

  /** With the default options the first error surfaces and nothing is waited. */
  method DefaultsThrowFirstError() returns (r: RetryResult<nat, nat>, sleeps: seq<Number>)
    ensures r == Threw(1) && sleeps == []
  {
    var calls;
    r, calls, sleeps := WithRetries(DefaultRetriesOptions, CountingOperation(5));
  }

  /** With two attempts the second error surfaces after one wait of `initTime`. */
  method TwoAttemptsThrowSecondError() returns (r: RetryResult<nat, nat>, sleeps: seq<Number>)
    ensures r == Threw(2) && sleeps == [Finite(100.0)]
  {
    var calls;
    var options := RetryOptions(100.0, 2, None, None, None);
    r, calls, sleeps := WithRetries(options, CountingOperation(5));
    assert op1: CountingOperation(5)(1) == Failure(2);
  }

  /** A JavaScript number as far as the delay is concerned: a finite value or `NaN`. */
  datatype Number = Finite(r: real) | NaN

  /**
   * The delay update as written: `time *= backoffFactor`, where multiplying by
   * an absent factor gives `NaN`, and every comparison with `NaN` is false, so
   * the clamp leaves it.
   */
  function NextDelayAsWritten(options: RetryOptions, t: Number): Number {
    var product := if t.NaN? || options.backoffFactor.None? then NaN else Finite(t.r * options.backoffFactor.value);
    if Truthy(options.minTime) && product.Finite? && product.r < options.minTime.value then Finite(options.minTime.value)
    else if Truthy(options.maxTime) && product.Finite? && product.r > options.maxTime.value then Finite(options.maxTime.value)
    else product
  }

  function DelayAsWritten(options: RetryOptions, j: nat): Number {
    if j == 0 then Finite(options.initTime) else NextDelayAsWritten(options, DelayAsWritten(options, j - 1))
  }

  /** With a backoff factor set, the written update and the corrected one agree on every wait. */
  lemma {:induction false} AsWrittenAgrees(options: RetryOptions, j: nat)
    requires options.backoffFactor.Some?
    ensures DelayAsWritten(options, j) == Finite(Delay(options, j))
  {
    if j > 0 {
      AsWrittenAgrees(options, j - 1);
      NextAsWrittenAgrees(options, Delay(options, j - 1));
    }
  }

  lemma NextAsWrittenAgrees(options: RetryOptions, t: real)
    requires options.backoffFactor.Some?
    ensures NextDelayAsWritten(options, Finite(t)) == Finite(NextDelay(options, t))
  {
  }

  /** Without a backoff factor every wait after the first is `NaN`, whatever the bounds say. */
  lemma {:induction false} AsWrittenNaN(options: RetryOptions, j: nat)
    requires options.backoffFactor.None? && j >= 1
    ensures DelayAsWritten(options, j) == NaN
  {
    if j > 1 {
      AsWrittenNaN(options, j - 1);
    }
  }

  /**
   * Three attempts, bounds 100 and 2000 and no factor: as written the second
   * wait is `NaN` (the bounds do not apply), where the corrected wait is 1000.
   */
  lemma AsWrittenEscapesBounds()
    ensures var options := RetryOptions(1000.0, 3, Some(100.0), Some(2000.0), None);
      && DelayAsWritten(options, 1) == NaN
      && Delay(options, 1) == 1000.0
  {
    var options := RetryOptions(1000.0, 3, Some(100.0), Some(2000.0), None);
    AsWrittenNaN(options, 1);
  }

  /**
   * The input of the finding, run through the helper itself: three attempts
   * that all fail, bounds 100 and 2000 and no factor. The third error is
   * thrown, after waits of 1000 and `NaN`.
   */
  method ThreeAttemptsWithoutFactor() returns (r: RetryResult<nat, nat>, sleeps: seq<Number>)
    ensures r == Threw(3) && sleeps == [Finite(1000.0), NaN]
  {
    var calls;
    var options := RetryOptions(1000.0, 3, Some(100.0), Some(2000.0), None);
    r, calls, sleeps := WithRetries(options, CountingOperation(5));
    assert CountingOperation(5)(2) == Failure(3);
    AsWrittenNaN(options, 1);
  }
}
