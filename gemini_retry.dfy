/**
 * The retry policy for Gemini rate-limit errors: classify the error text,
 * pick a wait, and decide whether to retry. The number matched by the
 * "retry after N seconds" pattern and the seconds elapsed since UTC midnight
 * are inputs.
 */
module GeminiRetry {
  import opened Wrappers
  import opened Strings

  datatype LimitType = Rpm | Daily | Unknown

  /** The `limit_type` and `retry_after` entries of the parsed error, in whole seconds. */
  datatype LimitInfo = LimitInfo(limitType: LimitType, retryAfter: nat)

  const SecondsPerDay: nat := 86400

  /** Python's `a or b` on a parsed number: an absent or zero hint gives the default. */
  function HintOr(hint: Option<nat>, default: nat): (r: nat)
    ensures hint.Some? && hint.value != 0 ==> r == hint.value
    ensures hint.None? || hint.value == 0 ==> r == default
  {
    if hint.Some? && hint.value != 0 then hint.value else default
  }

  predicate MentionsRpm(errorStr: string)
  {
    Contains("per minute", Lower(errorStr)) || Contains("rpm", Lower(errorStr))
  }

  predicate MentionsDaily(errorStr: string)
  {
    Contains("per day", Lower(errorStr)) || Contains("daily", Lower(errorStr)) ||
    Contains("resource_exhausted", Lower(errorStr))
  }

  /**
   * `parse_rate_limit_error`. The kinds are tested in the order rpm, daily,
   * unknown; each has a default wait (60 seconds, the rest of the UTC day,
   * 300 seconds) that a non-zero hint replaces.
   */
  function ParseRateLimitError(errorStr: string, hint: Option<nat>, secondsSinceMidnight: nat): (r: LimitInfo)
    requires secondsSinceMidnight < SecondsPerDay
    ensures r.limitType == Rpm <==> MentionsRpm(errorStr)
    ensures r.limitType == Daily <==> !MentionsRpm(errorStr) && MentionsDaily(errorStr)
    ensures r.limitType == Unknown <==> !MentionsRpm(errorStr) && !MentionsDaily(errorStr)
    ensures hint.Some? && hint.value != 0 ==> r.retryAfter == hint.value
    ensures hint.None? || hint.value == 0 ==>
      r.retryAfter == match r.limitType
                      case Rpm => 60
                      case Daily => SecondsPerDay - secondsSinceMidnight
                      case Unknown => 300
    ensures r.retryAfter > 0
  {
    if MentionsRpm(errorStr) then LimitInfo(Rpm, HintOr(hint, 60))
    else if MentionsDaily(errorStr) then LimitInfo(Daily, HintOr(hint, SecondsPerDay - secondsSinceMidnight))
    else LimitInfo(Unknown, HintOr(hint, 300))
  }

  function Pow2(n: nat): (r: nat)
    ensures r >= 1
  {
    if n == 0 then 1 else 2 * Pow2(n - 1)
  }

  function MinInt(a: int, b: int): int
  {
    if a <= b then a else b
  }

  /** The default number of attempts `should_retry_task` allows. */
  const DefaultMaxAttempts: int := 5

  /**
   * `should_retry_task`: never retry a daily limit that resets more than an
   * hour from now; always retry a per-minute limit after its wait; otherwise
   * back off exponentially while attempts remain.
   */
  function ShouldRetryTask(errorStr: string, attempt: nat, maxAttempts: int, hint: Option<nat>,
                           secondsSinceMidnight: nat): (r: (bool, nat))
    requires secondsSinceMidnight < SecondsPerDay
    ensures var info := ParseRateLimitError(errorStr, hint, secondsSinceMidnight);
      (info.limitType == Daily && info.retryAfter > 3600 ==> r == (false, 0)) &&
      (info.limitType == Rpm ==> r == (true, info.retryAfter)) &&
      (info.limitType != Rpm && !(info.limitType == Daily && info.retryAfter > 3600) ==>
        r == if attempt < maxAttempts then (true, MinInt(info.retryAfter, 300 * Pow2(attempt))) else (false, 0))
    ensures !r.0 ==> r.1 == 0
    ensures r.0 ==> 0 < r.1 <= ParseRateLimitError(errorStr, hint, secondsSinceMidnight).retryAfter
  {
    var info := ParseRateLimitError(errorStr, hint, secondsSinceMidnight);
    if info.limitType == Daily && info.retryAfter > 3600 then (false, 0)
    else if info.limitType == Rpm then (true, info.retryAfter)
    else if attempt < maxAttempts then (true, MinInt(info.retryAfter, 300 * Pow2(attempt)))
    else (false, 0)
  }

  /** Text that matches both the per-minute and the daily words is a per-minute limit. */
  lemma RpmWinsOverDaily(errorStr: string, hint: Option<nat>, secondsSinceMidnight: nat)
    requires secondsSinceMidnight < SecondsPerDay
    requires MentionsRpm(errorStr) && MentionsDaily(errorStr)
    ensures ParseRateLimitError(errorStr, hint, secondsSinceMidnight).limitType == Rpm
  {
  }

  /** The default daily wait, the seconds until the next UTC midnight, lies in (0, 86400]. */
  lemma DailyDefaultWaitBounds(errorStr: string, secondsSinceMidnight: nat)
    requires secondsSinceMidnight < SecondsPerDay
    requires !MentionsRpm(errorStr) && MentionsDaily(errorStr)
    ensures 0 < ParseRateLimitError(errorStr, None, secondsSinceMidnight).retryAfter <= SecondsPerDay
  {
  }

  /** A per-minute limit is retried on every attempt, with the same wait. */
  lemma RpmAlwaysRetried(errorStr: string, a: nat, b: nat, maxAttempts: int, hint: Option<nat>,
                         secondsSinceMidnight: nat)
    requires secondsSinceMidnight < SecondsPerDay
    requires MentionsRpm(errorStr)
    ensures ShouldRetryTask(errorStr, a, maxAttempts, hint, secondsSinceMidnight).0
    ensures ShouldRetryTask(errorStr, a, maxAttempts, hint, secondsSinceMidnight) ==
            ShouldRetryTask(errorStr, b, maxAttempts, hint, secondsSinceMidnight)
  {
  }

  /** Once an attempt is refused, every later attempt is refused too. */
  lemma RefusalIsFinal(errorStr: string, a: nat, b: nat, maxAttempts: int, hint: Option<nat>,
                       secondsSinceMidnight: nat)
    requires secondsSinceMidnight < SecondsPerDay
    requires a <= b
    requires !ShouldRetryTask(errorStr, a, maxAttempts, hint, secondsSinceMidnight).0
    ensures !ShouldRetryTask(errorStr, b, maxAttempts, hint, secondsSinceMidnight).0
  {
  }

  /**
   * An error of unknown kind with no hint is retried, if at all, after exactly
   * 300 seconds, since 300 is never more than 300 * 2^attempt.
   */
  lemma UnknownWithoutHintWaits300(errorStr: string, attempt: nat, maxAttempts: int, secondsSinceMidnight: nat)
    requires secondsSinceMidnight < SecondsPerDay
    requires !MentionsRpm(errorStr) && !MentionsDaily(errorStr)
    ensures var r := ShouldRetryTask(errorStr, attempt, maxAttempts, None, secondsSinceMidnight);
      r == if attempt < maxAttempts then (true, 300) else (false, 0)
  {
  }

  /**
   * Python's `int(a / b)`: true division, then truncation toward zero.
   * (Exact here; the float rounding of very large operands is not modelled.)
   */
  function TruncDiv(a: int, b: int): int
    requires b != 0
  {
    if (a >= 0) == (b > 0) then Abs(a) / Abs(b) else -(Abs(a) / Abs(b))
  }

  function Abs(x: int): nat
  {
    if x < 0 then -x else x
  }

  /** The default target request rate of `calculate_optimal_batch_size`. */
  const DefaultTargetRpm: int := 10

  /**
   * `calculate_optimal_batch_size`; None stands for the ZeroDivisionError a
   * target of 0 raises when the current rate exceeds it.
   */
  function CalculateOptimalBatchSize(currentRpm: int, targetRpm: int): (r: Option<int>)
    ensures r.None? <==> targetRpm == 0 && currentRpm > 0
    ensures r.Some? ==> 1 <= r.value <= 10
    ensures currentRpm <= targetRpm ==> r == Some(1)
    ensures 0 < targetRpm < currentRpm ==>
      r == Some(MinInt(currentRpm / targetRpm, 10)) &&
      targetRpm * r.value <= currentRpm
  {
    if currentRpm <= targetRpm then Some(1)
    else if targetRpm == 0 then None
    else
      var q := TruncDiv(currentRpm, targetRpm);
      var batchSize := if q < 1 then 1 else q;
      Some(MinInt(batchSize, 10))
  }
}
