/**
 How many timed calls a leased batch may make before its lease runs out: the workers' startup checks in
 int64 arithmetic, and what they guarantee once times are truncated to whole milliseconds.
 */
module LeaseBudget {
  const MIN_INT64: int := -0x8000_0000_0000_0000
  const MAX_INT64: int := 0x7FFF_FFFF_FFFF_FFFF
  const TWO_TO_THE_64: int := 0x1_0000_0000_0000_0000
  const MILLISECOND: int := 1_000_000

  predicate IsInt64(x: int) {
    MIN_INT64 <= x <= MAX_INT64
  }

  /** Two's complement wrap-around. */
  function Wrap(x: int): (r: int)
    ensures IsInt64(r)
    ensures IsInt64(x) ==> r == x
  {
    (x - MIN_INT64) % TWO_TO_THE_64 + MIN_INT64
  }

  /** Division truncated toward zero. */
  function Quotient(a: int, b: int): int
    requires b != 0
  {
    if (a >= 0) == (b > 0) then (if a >= 0 then a else -a) / (if b > 0 then b else -b)
    else -((if a >= 0 then a else -a) / (if b > 0 then b else -b))
  }

  /** Durations in nanoseconds. */
  datatype Config = Config(batchSize: int, leaseDuration: int, callTimeout: int) {
    predicate InRange() {
      IsInt64(batchSize) && IsInt64(leaseDuration) && IsInt64(callTimeout)
    }

    predicate Positive() {
      batchSize > 0 && leaseDuration > 0 && callTimeout > 0
    }
  }

  const LEASE_ACQUISITION_CALLS := 1
  const WORST_CASE_CALLS_PER_ATTEMPT := 5

  predicate ValidateRecovery(c: Config) {
    && c.Positive()
    && c.batchSize <= Quotient(MAX_INT64 - LEASE_ACQUISITION_CALLS, WORST_CASE_CALLS_PER_ATTEMPT)
    && var callCount := Wrap(LEASE_ACQUISITION_CALLS + Wrap(c.batchSize * WORST_CASE_CALLS_PER_ATTEMPT));
       && callCount != 0
       && c.callTimeout <= Quotient(MAX_INT64, callCount)
       && Wrap(c.callTimeout * callCount) <= c.leaseDuration
  }

  /** One lease, then a publish and a state transition per event; the count wraps for huge batches. */
  function OutboxCallCount(batchSize: int): int {
    Wrap(1 + Wrap(2 * batchSize))
  }

  predicate ValidateOutbox(c: Config)
    requires c.InRange()
  {
    && c.Positive()
    && (assert OutboxCallCount(c.batchSize) != 0 by { CallCountIsOdd(c.batchSize); }
        c.callTimeout <= Quotient(c.leaseDuration, OutboxCallCount(c.batchSize)))
  }

  lemma CallCountIsOdd(batchSize: int)
    requires IsInt64(batchSize)
    ensures OutboxCallCount(batchSize) % 2 == 1
    ensures batchSize > 0 ==>
      OutboxCallCount(batchSize) == if 1 + 2 * batchSize <= MAX_INT64 then 1 + 2 * batchSize
                                    else 1 + 2 * batchSize - TWO_TO_THE_64
    ensures batchSize > 0 && 1 + 2 * batchSize > MAX_INT64 ==> OutboxCallCount(batchSize) < 0
  {
  }

  lemma QuotientBounds(c: int, total: int, n: int)
    requires n > 0 && total >= 0
    ensures c <= Quotient(total, n) <==> c * n <= total
  {
    var q := total / n;
    assert total == q * n + total % n;
    if c <= q {
      assert c * n <= q * n by { Monotone(c, q, n); }
    } else {
      assert (q + 1) * n <= c * n by { Monotone(q + 1, c, n); }
      assert (q + 1) * n == q * n + n;
    }
  }

  lemma NegativeQuotient(a: int, b: int)
    requires a >= 0 && b < 0
    ensures Quotient(a, b) <= 0
  {
    assert a / -b >= 0;
  }

  lemma Monotone(a: int, b: int, n: int)
    requires a <= b && n >= 0
    ensures a * n <= b * n
  {
    assert (b - a) * n >= 0;
  }

  /** The recovery check accepts exactly the batches whose worst case of five calls per attempt fits the lease. */
  lemma RecoveryCheckIsExact(c: Config)
    requires c.InRange()
    ensures ValidateRecovery(c) <==> c.Positive() && c.callTimeout * (1 + 5 * c.batchSize) <= c.leaseDuration
  {
    if c.Positive() {
      var n := 1 + 5 * c.batchSize;
      if c.batchSize <= Quotient(MAX_INT64 - 1, 5) {
        RecoveryNeverOverflows(c);
        QuotientBounds(c.callTimeout, MAX_INT64, n);
      } else {
        Monotone(1, c.callTimeout, n);
      }
    }
  }

  /** Neither the call count nor the budget overflows once the checks before it have passed. */
  lemma RecoveryNeverOverflows(c: Config)
    requires c.InRange() && c.Positive() && c.batchSize <= Quotient(MAX_INT64 - 1, 5)
    ensures var n := LEASE_ACQUISITION_CALLS + Wrap(c.batchSize * WORST_CASE_CALLS_PER_ATTEMPT);
      && n == 1 + 5 * c.batchSize && 0 < n && IsInt64(n)
      && (c.callTimeout <= Quotient(MAX_INT64, n) ==> IsInt64(c.callTimeout * n))
  {
    var n := 1 + 5 * c.batchSize;
    QuotientBounds(c.batchSize, MAX_INT64 - 1, 5);
    QuotientBounds(c.callTimeout, MAX_INT64, n);
    Monotone(0, c.callTimeout, n);
  }

  /** The outbox check accepts exactly the batches whose worst case fits the lease, wrapped count or not. */
  lemma OutboxCheckIsExact(c: Config)
    requires c.InRange()
    ensures ValidateOutbox(c) <==> c.Positive() && c.callTimeout * (1 + 2 * c.batchSize) <= c.leaseDuration
  {
    if c.Positive() {
      var n := 1 + 2 * c.batchSize;
      CallCountIsOdd(c.batchSize);
      if n <= MAX_INT64 {
        QuotientBounds(c.callTimeout, c.leaseDuration, n);
      } else {
        NegativeQuotient(c.leaseDuration, OutboxCallCount(c.batchSize));
        Monotone(1, c.callTimeout, n);
      }
    }
  }

  /** Time truncated to what a DATETIME(3) column holds; t counts nanoseconds. */
  function TruncateMs(t: int): (r: int)
    ensures r <= t < r + MILLISECOND
    ensures r % MILLISECOND == 0
  {
    t - t % MILLISECOND
  }

  /** The stored end of an outbox lease taken by a worker whose clock read `start`. */
  function OutboxLeaseUntil(start: int, lease: int): int {
    TruncateMs(start + lease)
  }

  /** The end a recovery worker asks for; the column keeps it to the millisecond, truncated or rounded. */
  function RecoveryLeaseUntil(start: int, lease: int): int {
    TruncateMs(start) + lease
  }

  function Total(durations: seq<int>): int {
    if durations == [] then 0 else durations[0] + Total(durations[1..])
  }

  lemma {:induction false} SerialCallsTakeAtMost(durations: seq<int>, callTimeout: int, n: nat)
    requires callTimeout >= 0 && |durations| <= n
    requires forall i | 0 <= i < |durations| :: 0 <= durations[i] <= callTimeout
    ensures 0 <= Total(durations) <= callTimeout * n
    decreases |durations|
  {
    if durations != [] {
      SerialCallsTakeAtMost(durations[1..], callTimeout, n - 1);
      assert callTimeout * n == callTimeout * (n - 1) + callTimeout;
    } else {
      Monotone(0, callTimeout, n);
    }
  }

  /** Whole milliseconds that fit before a stored end are those that fit before the end itself. */
  lemma TruncatedEnd(start: int, lease: int)
    ensures TruncateMs(RecoveryLeaseUntil(start, lease)) == TruncateMs(start) + TruncateMs(lease)
  {
    var a, b := TruncateMs(start), lease;
    assert (a + b) % MILLISECOND == b % MILLISECOND;
  }

  /**
   Every call of every batch ends within the stored lease exactly when the configured slack is at least
   999999 ns: truncating the lease's end, or its start and its length, can cost that much.
   */
  lemma CallsFitLeaseIffSlack(n: nat, callTimeout: int, lease: int)
    requires callTimeout > 0 && lease > 0
    ensures (forall start :: start + callTimeout * n <= OutboxLeaseUntil(start, lease))
      <==> callTimeout * n + (MILLISECOND - 1) <= lease
    ensures (forall start :: start + callTimeout * n <= TruncateMs(RecoveryLeaseUntil(start, lease)))
      <==> callTimeout * n + (MILLISECOND - 1) <= TruncateMs(lease)
  {
    var total := callTimeout * n;
    var start := MILLISECOND - 1 - lease;
    assert OutboxLeaseUntil(start, lease) == 0;
    if total + (MILLISECOND - 1) > lease {
      assert start + total > OutboxLeaseUntil(start, lease);
    }
    TruncatedEnd(MILLISECOND - 1, lease);
    if total + (MILLISECOND - 1) > TruncateMs(lease) {
      assert MILLISECOND - 1 + total > TruncateMs(RecoveryLeaseUntil(MILLISECOND - 1, lease));
    } else {
      forall begin ensures begin + total <= TruncateMs(RecoveryLeaseUntil(begin, lease)) {
        TruncatedEnd(begin, lease);
      }
    }
  }

  /** A configuration each check accepts, whose last call can still end after the stored lease. */
  lemma AcceptedLeaseCanRunOut()
    ensures ValidateOutbox(Config(1, 3 * MILLISECOND, MILLISECOND))
    ensures 999_999 + MILLISECOND * (1 + 2 * 1) > OutboxLeaseUntil(999_999, 3 * MILLISECOND)
    ensures ValidateRecovery(Config(1, 6 * MILLISECOND, MILLISECOND))
    ensures 999_999 + MILLISECOND * (1 + 5 * 1) > TruncateMs(RecoveryLeaseUntil(999_999, 6 * MILLISECOND))
  {
    OutboxCheckIsExact(Config(1, 3 * MILLISECOND, MILLISECOND));
    RecoveryCheckIsExact(Config(1, 6 * MILLISECOND, MILLISECOND));
  }

  /** With that slack, a batch is over before any other worker's clock lets it take one of its rows. */
  lemma BatchEndsBeforeTakeover(c: Config, start: int, durations: seq<int>, takeover: int)
    requires c.InRange() && c.Positive()
    requires c.callTimeout * (1 + 2 * c.batchSize) + (MILLISECOND - 1) <= c.leaseDuration
    requires |durations| <= 1 + 2 * c.batchSize
    requires forall i | 0 <= i < |durations| :: 0 <= durations[i] <= c.callTimeout
    requires OutboxLeaseUntil(start, c.leaseDuration) <= TruncateMs(takeover)
    ensures ValidateOutbox(c)
    ensures start + Total(durations) <= takeover
  {
    OutboxCheckIsExact(c);
    SerialCallsTakeAtMost(durations, c.callTimeout, 1 + 2 * c.batchSize);
    CallsFitLeaseIffSlack(1 + 2 * c.batchSize, c.callTimeout, c.leaseDuration);
  }

  /** A recovery batch that starts at `start` and makes these calls is over by `until`, the stored end of its lease. */
  predicate WithinLease(c: Config, start: int, durations: seq<int>, until: int) {
    && c.callTimeout * (1 + 5 * c.batchSize) + (MILLISECOND - 1) <= TruncateMs(c.leaseDuration)
    && |durations| <= 1 + 5 * c.batchSize
    && (forall i | 0 <= i < |durations| :: 0 <= durations[i] <= c.callTimeout)
    && until >= TruncateMs(RecoveryLeaseUntil(start, c.leaseDuration))
  }

  lemma RecoveryBatchEndsInLease(c: Config, start: int, durations: seq<int>, until: int)
    requires c.InRange() && c.Positive() && WithinLease(c, start, durations, until)
    ensures ValidateRecovery(c)
    ensures start + Total(durations) <= until
  {
    RecoveryCheckIsExact(c);
    SerialCallsTakeAtMost(durations, c.callTimeout, 1 + 5 * c.batchSize);
    CallsFitLeaseIffSlack(1 + 5 * c.batchSize, c.callTimeout, c.leaseDuration);
  }
}
