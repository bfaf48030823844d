/**
 `RetryWithBackoff`: invoke a boolean operation up to `maxAttempts` times,
 stopping at the first `true`, and sleep after every failed invocation. The
 delay starts at `initialDelayMs`; the next delay is the previous one shifted
 left by two bits (a factor of four, truncated to 32 bits) and capped at
 `maxDelayMs`. The operation is a function from invocation number to result;
 the sleeps are returned as a list instead of being slept.
 */
module Backoff {
  import opened Win32

  /** Defaults of the template's parameters. */
  const DEFAULT_INITIAL_DELAY_MS: uint32 := 5
  const DEFAULT_MAX_DELAY_MS: uint32 := 1000
  const DEFAULT_MAX_ATTEMPTS: uint32 := 5

  /** What a run of the combinator did: its result, how often it invoked the operation, what it slept. */
  datatype Retried = Retried(success: bool, calls: nat, delays: seq<uint32>)

  /** `delayMs << 2` on a `uint32_t`: the shift drops the top two bits. */
  function ShiftLeft2(delay: uint32): (r: uint32)
    ensures delay < UINT32_LIMIT / 4 ==> r == 4 * delay
  {
    (delay * 4) % UINT32_LIMIT
  }

  /** `std::min(maxDelayMs, delayMs << 2)`. */
  function NextDelay(delay: uint32, maxDelay: uint32): (r: uint32)
    ensures r <= maxDelay && r <= ShiftLeft2(delay)
    ensures r == maxDelay || r == ShiftLeft2(delay)
  {
    if ShiftLeft2(delay) < maxDelay then ShiftLeft2(delay) else maxDelay
  }

  /** The loop from invocation number `attempt` on, with `delay` as the current delay. */
  function RetryFrom(op: nat -> bool, attempt: nat, delay: uint32, maxDelay: uint32, maxAttempts: uint32)
    : (r: Retried)
    requires attempt <= maxAttempts
    ensures r.calls <= maxAttempts - attempt
    ensures r.success <==> exists i :: attempt <= i < maxAttempts && op(i)
    ensures r.success ==> r.calls >= 1 && op(attempt + r.calls - 1)
    ensures !r.success ==> r.calls == maxAttempts - attempt
    ensures |r.delays| == if r.success then r.calls - 1 else r.calls
    ensures forall i :: attempt <= i < attempt + |r.delays| ==> !op(i)
    ensures |r.delays| > 0 ==> r.delays[0] == delay
    ensures forall k :: 0 < k < |r.delays| ==> r.delays[k] == NextDelay(r.delays[k - 1], maxDelay)
    ensures forall k :: 0 < k < |r.delays| ==> r.delays[k] <= maxDelay
    decreases maxAttempts - attempt
  {
    if attempt == maxAttempts then
      Retried(false, 0, [])
    else if op(attempt) then
      Retried(true, 1, [])
    else
      var rest := RetryFrom(op, attempt + 1, NextDelay(delay, maxDelay), maxDelay, maxAttempts);
      Retried(rest.success, rest.calls + 1, [delay] + rest.delays)
  }

  /**
   Succeeds exactly when one of the first `maxAttempts` invocations returns
   true, and then has made no invocation after that one; sleeps once after
   every failed invocation, starting with `initialDelayMs`, every later delay
   derived from the one before and no larger than `maxDelayMs`.
   */
  function RetryWithBackoff(op: nat -> bool, initialDelayMs: uint32, maxDelayMs: uint32, maxAttempts: uint32)
    : (r: Retried)
    ensures r.success <==> exists i :: 0 <= i < maxAttempts && op(i)
    ensures r.success ==> 1 <= r.calls <= maxAttempts && op(r.calls - 1)
                          && forall i :: 0 <= i < r.calls - 1 ==> !op(i)
    ensures !r.success ==> r.calls == maxAttempts && forall i :: 0 <= i < maxAttempts ==> !op(i)
    ensures |r.delays| == if r.success then r.calls - 1 else r.calls
    ensures |r.delays| > 0 ==> r.delays[0] == initialDelayMs
    ensures forall k :: 0 < k < |r.delays| ==> r.delays[k] == NextDelay(r.delays[k - 1], maxDelayMs)
    ensures forall k :: 0 < k < |r.delays| ==> r.delays[k] <= maxDelayMs
  {
    RetryFrom(op, 0, initialDelayMs, maxDelayMs, maxAttempts)
  }

  /** Zero attempts: failure, and the operation is never invoked. */
  lemma NoAttemptsNoCalls(op: nat -> bool, initialDelayMs: uint32, maxDelayMs: uint32)
    ensures RetryWithBackoff(op, initialDelayMs, maxDelayMs, 0) == Retried(false, 0, [])
  {
  }

  /**
   Failing exactly `n` times and then succeeding, with `n` below the attempt
   limit, reports success after `n + 1` invocations and `n` sleeps.
   */
  lemma SucceedsAfterFailures(op: nat -> bool, n: nat, initialDelayMs: uint32, maxDelayMs: uint32, maxAttempts: uint32)
    requires n < maxAttempts
    requires forall i :: 0 <= i < n ==> !op(i)
    requires op(n)
    ensures RetryWithBackoff(op, initialDelayMs, maxDelayMs, maxAttempts).success
    ensures RetryWithBackoff(op, initialDelayMs, maxDelayMs, maxAttempts).calls == n + 1
    ensures |RetryWithBackoff(op, initialDelayMs, maxDelayMs, maxAttempts).delays| == n
  {
    var r := RetryWithBackoff(op, initialDelayMs, maxDelayMs, maxAttempts);
    assert r.success;
  }

  /** Delay steps never shrink while no truncation can occur: `d <= cap < 2^30`. */
  lemma NextDelayGrows(d: uint32, maxDelay: uint32)
    requires d <= maxDelay < UINT32_LIMIT / 4
    ensures d <= NextDelay(d, maxDelay) <= maxDelay
  {
  }

  /**
   With a starting delay within a cap below 2^30, the delays slept never
   decrease and never exceed the cap.
   */
  lemma DelaysNonDecreasing(op: nat -> bool, initialDelayMs: uint32, maxDelayMs: uint32, maxAttempts: uint32)
    requires initialDelayMs <= maxDelayMs < UINT32_LIMIT / 4
    ensures var ds := RetryWithBackoff(op, initialDelayMs, maxDelayMs, maxAttempts).delays;
            forall k :: 0 <= k < |ds| ==> ds[k] <= maxDelayMs && (k > 0 ==> ds[k - 1] <= ds[k])
  {
    var ds := RetryWithBackoff(op, initialDelayMs, maxDelayMs, maxAttempts).delays;
    forall k | 0 <= k < |ds|
      ensures ds[k] <= maxDelayMs && (k > 0 ==> ds[k - 1] <= ds[k])
    {
      if k > 0 {
        NextDelayGrows(ds[k - 1], maxDelayMs);
      }
    }
  }

  /** The truncating shift can make the next delay smaller than the current one when the cap is large. */
  lemma ShiftCanShrinkDelay()
    ensures NextDelay(0x4000_0000, 0xFFFF_FFFF) == 0
  {
  }

  /** An operation that fails on every invocation. */
  function Never(attempt: nat): bool {
    false
  }

  /**
   The listener's defaults against an operation that never succeeds: five
   invocations and the sleeps 5, 20, 80, 320 and 1000 ms (the fifth is
   `min(1000, 1280)`), the last one after the final failure.
   */
  lemma DefaultScheduleWhenAlwaysFailing()
    ensures RetryWithBackoff(Never, DEFAULT_INITIAL_DELAY_MS, DEFAULT_MAX_DELAY_MS, DEFAULT_MAX_ATTEMPTS)
         == Retried(false, 5, [5, 20, 80, 320, 1000])
  {
    var op := Never;
    assert NextDelay(5, 1000) == 20 && NextDelay(20, 1000) == 80 && NextDelay(80, 1000) == 320;
    assert NextDelay(320, 1000) == 1000 && NextDelay(1000, 1000) == 1000;
    assert RetryFrom(op, 5, 1000, 1000, 5) == Retried(false, 0, []);
    assert RetryFrom(op, 4, 1000, 1000, 5) == Retried(false, 1, [1000]);
    assert RetryFrom(op, 3, 320, 1000, 5) == Retried(false, 2, [320, 1000]);
    assert RetryFrom(op, 2, 80, 1000, 5) == Retried(false, 3, [80, 320, 1000]);
    assert RetryFrom(op, 1, 20, 1000, 5) == Retried(false, 4, [20, 80, 320, 1000]);
  }
}
