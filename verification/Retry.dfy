/**
 `RetryUtil`: exponential backoff with jitter and the retry loop, in exact arithmetic.  Delays are real
 numbers of milliseconds; the random jitter is any integer the generator may return.
 */
module Retry {
  import opened Wrappers

  datatype Error = Error(name: string, message: string)

  datatype Outcome<+T> = Success(value: T) | Failure(error: Error)

  datatype Options = Options(
    maxAttempts: int, baseDelay: real, maxDelay: real, backoffMultiplier: real,
    retryableErrors: Option<seq<string>>)

  const NO_ERROR_CAPTURED := Error("Error", "Retry failed with no error captured")

  predicate OccursAt(s: string, part: string, i: nat) {
    i + |part| <= |s| && s[i..i + |part|] == part
  }

  predicate Includes(s: string, part: string) {
    exists i: nat | i <= |s| :: OccursAt(s, part, i)
  }

  predicate IsRetryableError(e: Error, retryableErrors: seq<string>) {
    exists t <- retryableErrors :: Includes(e.name, t) || Includes(e.message, t)
  }

  /** The loop may go on after this error: no list is given, or the list matches. */
  predicate MayRetry(options: Options, e: Error) {
    options.retryableErrors.None? || IsRetryableError(e, options.retryableErrors.value)
  }

  /** part is found in s. */
  ghost predicate FoundIn(part: string, s: string) {
    exists before, after :: s == before + part + after
  }

  /** Retried are errors of calls without a list, and those whose name or message holds an entry of the list. */
  lemma MayRetryExactly(o: Options, e: Error)
    ensures MayRetry(o, e)
            <==> o.retryableErrors.None? || exists t <- o.retryableErrors.value :: FoundIn(t, e.name) || FoundIn(t, e.message)
  {
    forall t: string, s: string ensures Includes(s, t) <==> FoundIn(t, s) {
      IncludesExactly(s, t);
    }
  }

  lemma IncludesExactly(s: string, part: string)
    ensures Includes(s, part) <==> FoundIn(part, s)
  {
    if Includes(s, part) {
      var i: nat :| i <= |s| && OccursAt(s, part, i);
      assert s == s[..i] + part + s[i + |part|..];
    }
    if before, after :| s == before + part + after {
      assert s[|before|..|before| + |part|] == part;
      assert OccursAt(s, part, |before|);
    }
  }

  // ---------------------------------------------------------------- delays

  function Pow(x: real, n: nat): real {
    if n == 0 then 1.0 else x * Pow(x, n - 1)
  }

  /** `Math.pow` with an integer exponent. */
  function Power(x: real, n: int): real
    requires n >= 0 || x != 0.0
  {
    if n >= 0 then Pow(x, n)
    else
      PowNonZero(x, -n);
      1.0 / Pow(x, -n)
  }

  lemma {:induction false} PowNonZero(x: real, n: nat)
    requires x != 0.0
    ensures Pow(x, n) != 0.0
  {
    if n > 0 {
      PowNonZero(x, n - 1);
    }
  }

  /** The multiplier can be raised to the power that this attempt needs. */
  predicate HasDelay(o: Options, attempt: int) {
    attempt >= 1 || o.backoffMultiplier != 0.0
  }

  function CappedDelay(o: Options, attempt: int): real
    requires HasDelay(o, attempt)
  {
    var delay := o.baseDelay * Power(o.backoffMultiplier, attempt - 1);
    if delay <= o.maxDelay then delay else o.maxDelay
  }

  function JitterCeiling(delay: real): int {
    var tenth := (0.1 * delay).Floor;
    if tenth > 1 then tenth else 1
  }

  /** sleep is a possible backoff after this attempt. */
  predicate IsBackoff(o: Options, attempt: int, sleep: int)
    requires HasDelay(o, attempt)
  {
    var delay := CappedDelay(o, attempt);
    delay.Floor <= sleep < delay.Floor + JitterCeiling(delay)
  }

  /** The delay is the smaller of the exponential one and the cap. */
  lemma CappedExactly(o: Options, attempt: int)
    requires HasDelay(o, attempt)
    ensures CappedDelay(o, attempt) <= o.maxDelay
    ensures CappedDelay(o, attempt) <= o.baseDelay * Power(o.backoffMultiplier, attempt - 1)
    ensures CappedDelay(o, attempt) == o.maxDelay || CappedDelay(o, attempt) == o.baseDelay * Power(o.backoffMultiplier, attempt - 1)
  {
  }

  /** The jitter is any whole number from 0 up to, not including, a tenth of the delay rounded down, and 0 below 20 ms. */
  lemma BackoffExactly(o: Options, attempt: int, sleep: int)
    requires HasDelay(o, attempt)
    ensures var delay := CappedDelay(o, attempt);
            IsBackoff(o, attempt, sleep)
            <==> sleep == delay.Floor || (delay.Floor < sleep && sleep - delay.Floor < (delay / 10.0).Floor)
  {
    Tenth(CappedDelay(o, attempt));
  }

  lemma Tenth(delay: real)
    ensures 0.1 * delay == delay / 10.0
  {
  }

  method CalculateBackoffDelay(o: Options, attempt: int) returns (sleep: int)
    requires HasDelay(o, attempt)
    ensures IsBackoff(o, attempt, sleep)
  {
    var delay := CappedDelay(o, attempt);
    var jitter: int :| 0 <= jitter < JitterCeiling(delay);
    sleep := delay.Floor + jitter;
  }

  // ---------------------------------------------------------------- the loop

  /** The loop ends with this attempt. */
  predicate EndsAt<T>(operation: nat -> Outcome<T>, o: Options, attempt: nat) {
    match operation(attempt)
    case Success(_) => true
    case Failure(e) => !MayRetry(o, e) || attempt == o.maxAttempts
  }

  /**
   The operation is called exactly up to the first success, the first error that may not be retried or
   the last attempt, the last call's outcome is the result, and there is one backoff between two calls.
   Without any attempt allowed nothing is called.
   */
  method ExecuteWithRetry<T>(operation: nat -> Outcome<T>, o: Options)
    returns (result: Outcome<T>, calls: nat, sleeps: seq<int>)
    ensures o.maxAttempts < 1 ==> calls == 0 && sleeps == []
    ensures o.maxAttempts < 1 ==> result == Failure(Error("Error", "Retry failed with no error captured"))
    ensures o.maxAttempts >= 1 ==>
              && 1 <= calls <= o.maxAttempts
              && EndsAt(operation, o, calls) && (forall k :: 1 <= k < calls ==> !EndsAt(operation, o, k))
              && result == operation(calls)
              && Backoffs(o, sleeps) && |sleeps| == calls - 1
  {
    var lastError := NO_ERROR_CAPTURED;
    var attempt := 1;
    sleeps, calls := [], 0;
    while attempt <= o.maxAttempts
      invariant attempt == calls + 1 && |sleeps| == calls
      invariant attempt >= 1 && (attempt > 1 ==> attempt <= o.maxAttempts)
      invariant forall k :: 1 <= k < attempt ==> !EndsAt(operation, o, k)
      invariant Backoffs(o, sleeps)
      invariant attempt == 1 ==> lastError == NO_ERROR_CAPTURED
    {
      calls := calls + 1;
      result := operation(attempt);
      if result.Success? {
        return;
      }
      lastError := result.error;
      if o.retryableErrors.Some? && !IsRetryableError(lastError, o.retryableErrors.value) {
        return;
      }
      if attempt == o.maxAttempts {
        return;
      }
      var sleep := CalculateBackoffDelay(o, attempt);
      sleeps := sleeps + [sleep];
      attempt := attempt + 1;
    }
    result := Failure(lastError);
  }

  /** The sleeps are the backoffs after attempts 1, 2, ... */
  predicate Backoffs(o: Options, sleeps: seq<int>) {
    forall i :: 0 <= i < |sleeps| ==> IsBackoff(o, i + 1, sleeps[i])
  }

  // ---------------------------------------------------------------- bounds

  function Total(sleeps: seq<int>): int {
    if sleeps == [] then 0 else Total(sleeps[..|sleeps| - 1]) + sleeps[|sleeps| - 1]
  }

  /** 1 + x + ... + x^(n-1). */
  function GeometricSum(x: real, n: nat): real {
    if n == 0 then 0.0 else GeometricSum(x, n - 1) + Pow(x, n - 1)
  }

  ghost predicate Sensible(o: Options) {
    o.baseDelay >= 0.0 && o.maxDelay >= 0.0 && o.backoffMultiplier >= 0.0
  }

  lemma {:induction false} PowNonNegative(x: real, n: nat)
    requires x >= 0.0
    ensures Pow(x, n) >= 0.0
  {
    if n > 0 {
      PowNonNegative(x, n - 1);
    }
  }

  lemma {:induction false} GeometricClosed(x: real, n: nat)
    ensures GeometricSum(x, n) * (x - 1.0) == Pow(x, n) - 1.0
  {
    if n > 0 {
      GeometricClosed(x, n - 1);
      var p := Pow(x, n - 1);
      assert GeometricSum(x, n) * (x - 1.0) == GeometricSum(x, n - 1) * (x - 1.0) + p * (x - 1.0);
      assert p * (x - 1.0) == x * p - p;
    }
  }

  lemma {:induction false} GeometricMonotone(x: real, m: nat, n: nat)
    requires x >= 0.0 && m <= n
    ensures GeometricSum(x, m) <= GeometricSum(x, n)
    decreases n
  {
    if m < n {
      PowNonNegative(x, n - 1);
      GeometricMonotone(x, m, n - 1);
    }
  }

  /** One backoff is at most a tenth above its capped delay, so above neither bound by more. */
  lemma BackoffBound(o: Options, attempt: nat, sleep: int)
    requires attempt >= 1 && Sensible(o) && IsBackoff(o, attempt, sleep)
    ensures 0 <= sleep
    ensures sleep as real <= 1.1 * o.maxDelay
    ensures sleep as real <= Scaled(o, Pow(o.backoffMultiplier, attempt - 1))
  {
    var p := Pow(o.backoffMultiplier, attempt - 1);
    PowNonNegative(o.backoffMultiplier, attempt - 1);
    ScaleUp(o.baseDelay, 0.0, p);
    var delay := CappedDelay(o, attempt);
    assert 0.0 <= delay <= o.baseDelay * p && delay <= o.maxDelay;
    TenthAbove(delay, sleep);
    assert 1.1 * (o.baseDelay * p) == 1.1 * o.baseDelay * p;
  }

  lemma TenthAbove(delay: real, sleep: int)
    requires delay >= 0.0 && delay.Floor <= sleep < delay.Floor + JitterCeiling(delay)
    ensures 0 <= sleep && sleep as real <= 1.1 * delay
  {
    var tenth := (0.1 * delay).Floor;
    assert tenth as real <= 0.1 * delay;
    assert delay.Floor as real <= delay;
  }

  /** Eleven tenths of the base delay, times x. */
  function Scaled(o: Options, x: real): real {
    1.1 * o.baseDelay * x
  }

  lemma {:induction false} TotalBound(o: Options, sleeps: seq<int>)
    requires Sensible(o) && Backoffs(o, sleeps)
    ensures Total(sleeps) as real <= Scaled(o, GeometricSum(o.backoffMultiplier, |sleeps|))
    decreases |sleeps|
  {
    if sleeps != [] {
      var n, m := |sleeps| - 1, o.backoffMultiplier;
      TotalBound(o, sleeps[..n]);
      BackoffBound(o, n + 1, sleeps[n]);
      ScaledSum(o, GeometricSum(m, n), Pow(m, n), Total(sleeps[..n]) as real, sleeps[n] as real);
    }
  }

  /** Whatever the jitter, each sleep is at most 11/10 of the cap. */
  lemma EachSleepBounded(o: Options, sleeps: seq<int>)
    requires Sensible(o) && Backoffs(o, sleeps)
    ensures forall i :: 0 <= i < |sleeps| ==> 0 <= sleeps[i] && sleeps[i] as real <= 1.1 * o.maxDelay
  {
    forall i | 0 <= i < |sleeps| ensures 0 <= sleeps[i] && sleeps[i] as real <= 1.1 * o.maxDelay {
      BackoffBound(o, i + 1, sleeps[i]);
    }
  }

  /**
   All sleeps of a call with up to n attempts add up to at most 11/10 of the base delay times
   1 + m + ... + m^(n-2), whatever the jitter; `series` is that sum, (m^(n-1) - 1) / (m - 1), or n - 1 for
   m = 1.
   */
  lemma TotalSleepBounded(o: Options, sleeps: seq<int>) returns (series: real)
    requires Sensible(o) && Backoffs(o, sleeps) && |sleeps| <= o.maxAttempts - 1
    ensures series * (o.backoffMultiplier - 1.0) == Pow(o.backoffMultiplier, o.maxAttempts - 1) - 1.0
    ensures o.backoffMultiplier == 1.0 ==> series == (o.maxAttempts - 1) as real
    ensures Total(sleeps) as real <= Scaled(o, series)
  {
    TotalBound(o, sleeps);
    series := SeriesGrows(o, |sleeps|, o.maxAttempts - 1);
  }

  lemma SeriesGrows(o: Options, k: nat, n: nat) returns (series: real)
    requires Sensible(o) && k <= n
    ensures Scaled(o, GeometricSum(o.backoffMultiplier, k)) <= Scaled(o, series)
    ensures series * (o.backoffMultiplier - 1.0) == Pow(o.backoffMultiplier, n) - 1.0
    ensures o.backoffMultiplier == 1.0 ==> series == n as real
  {
    series := SeriesAbove(o.backoffMultiplier, k, n);
    ScaledMonotone(o, GeometricSum(o.backoffMultiplier, k), series);
  }

  lemma SeriesAbove(x: real, k: nat, n: nat) returns (series: real)
    requires x >= 0.0 && k <= n
    ensures GeometricSum(x, k) <= series && series * (x - 1.0) == Pow(x, n) - 1.0
    ensures x == 1.0 ==> series == n as real
  {
    series := GeometricSum(x, n);
    GeometricMonotone(x, k, n);
    GeometricClosed(x, n);
    GeometricFlat(n);
  }

  lemma {:induction false} GeometricFlat(n: nat)
    ensures Pow(1.0, n) == 1.0 && GeometricSum(1.0, n) == n as real
  {
    if n > 0 {
      GeometricFlat(n - 1);
    }
  }

  lemma ScaledMonotone(o: Options, x: real, y: real)
    requires o.baseDelay >= 0.0 && x <= y
    ensures Scaled(o, x) <= Scaled(o, y)
  {
    ScaleUp(1.1 * o.baseDelay, x, y);
  }

  lemma ScaledSum(o: Options, x: real, y: real, a: real, b: real)
    requires a <= Scaled(o, x) && b <= Scaled(o, y)
    ensures a + b <= Scaled(o, x + y)
  {
  }

  lemma ScaleUp(c: real, x: real, y: real)
    requires c >= 0.0 && x <= y
    ensures c * x <= c * y
  {
  }
}
