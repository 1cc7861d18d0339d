/** The workers' doubling delays, computed in int64 nanoseconds, and their closed forms. */
module Backoff {
  import opened LeaseBudget

  const SECOND: int := 1_000_000_000
  const LONGEST_RETRY: int := 30 * SECOND

  function Power2(n: nat): int {
    if n == 0 then 1 else 2 * Power2(n - 1)
  }

  function Least(a: int, b: int): int {
    if a < b then a else b
  }

  /** The delay before the n-th retry: doubled each time, up to a longest delay. */
  function Capped(base: int, n: int, max: int): int {
    if n <= 1 then Least(base, max) else Least(base * Power2(n - 1), max)
  }

  lemma {:induction false} Power2Grows(m: nat, n: nat)
    requires m <= n
    ensures 1 <= Power2(m) <= Power2(n)
    decreases n
  {
    if m < n {
      Power2Grows(m, n - 1);
    } else if n > 0 {
      Power2Grows(n - 1, n - 1);
    }
  }

  /** Delays never shrink from one retry to the next, and never leave their bounds. */
  lemma DelaysGrow(base: int, m: int, n: int, max: int)
    requires 0 < base <= max && m <= n
    ensures 0 < Capped(base, m, max) <= Capped(base, n, max) <= max
    ensures n >= 1 ==> Capped(base, n + 1, max) == Least(2 * Capped(base, n, max), max)
  {
    var i: nat, j: nat := if m <= 1 then 0 else m - 1, if n <= 1 then 0 else n - 1;
    Power2Grows(i, j);
    assert base * Power2(0) == base;
    Monotone(Power2(i), Power2(j), base);
    Monotone(1, Power2(i), base);
    assert base * Power2(j + 1) == 2 * (base * Power2(j));
  }

  lemma Saturated(base: int, n: int, m: int, max: int)
    requires 0 < base <= max && 1 <= n <= m && base * Power2(n - 1) >= max
    ensures Capped(base, m, max) == max
  {
    Power2Grows(n - 1, m - 1);
    Monotone(Power2(n - 1), Power2(m - 1), base);
    assert base * Power2(0) == base;
  }

  /** The cache-invalidation delay. Its guard keeps every doubling inside int64. */
  method CacheRetryDelay(retryCount: int, base: int, max: int) returns (delay: int)
    requires IsInt64(retryCount) && IsInt64(max) && 0 < base <= max
    ensures delay == Capped(base, retryCount, max)
  {
    delay := base;
    var retry := 1;
    assert base * Power2(0) == base;
    while retry < retryCount
      invariant 1 <= retry && (retry <= retryCount || retry == 1)
      invariant 0 < delay <= max && delay == base * Power2(retry - 1)
    {
      if delay >= max || delay > Wrap(max - delay) {
        DoubledIsCapped(base, retry, retryCount, delay, max);
        return max;
      }
      assert base * Power2(retry) == 2 * delay;
      delay := Wrap(delay * 2);
      retry := retry + 1;
    }
    if delay > max {
      return max;
    }
  }

  lemma DoubledIsCapped(base: int, n: int, m: int, delay: int, max: int)
    requires 0 < base <= max && 1 <= n < m && delay == base * Power2(n - 1)
    requires delay >= max || 2 * delay > max
    ensures Capped(base, m, max) == max
  {
    assert base * Power2(n) == 2 * delay;
    Saturated(base, n + 1, m, max);
  }

  /** The outboxes' retry delay. */
  method OutboxRetryDelay(attempts: int) returns (delay: int)
    ensures delay == Capped(SECOND, attempts, LONGEST_RETRY)
  {
    var left := attempts;
    delay := SECOND;
    ghost var n: nat := 0;
    assert SECOND * Power2(0) == SECOND;
    while left > 1 && delay < LONGEST_RETRY
      invariant left == attempts - n && (n > 0 ==> left >= 1)
      invariant delay == SECOND * Power2(n) && 0 < delay < 2 * LONGEST_RETRY
      decreases left
    {
      delay := Wrap(delay * 2);
      left := left - 1;
      n := n + 1;
    }
    if delay > LONGEST_RETRY {
      Saturated(SECOND, n + 1, attempts, LONGEST_RETRY);
      return LONGEST_RETRY;
    }
    if left > 1 {
      Saturated(SECOND, n + 1, attempts, LONGEST_RETRY);
    }
  }
}
