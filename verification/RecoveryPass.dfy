/** One polling pass of the recovery worker: lease a batch, then resolve its claims one after the other. */
module RecoveryPass {
  import opened Wrappers
  import opened World
  import T = Trade
  import C = Catalog
  import S = Saga
  import SI = SagaInvariants
  import ST = SagaTheorems
  import P = PayWallet
  import R = Recovery
  import RO = RecoveryOutcome
  import RL = RecoveryLease
  import DB = TradeDb
  import LB = LeaseBudget
  import opened Selection

  /** Every claim a lease names was made under the attempt it names. */
  lemma LeasesAreClaims(
    s: S.Sys, initial: C.Stock, leases: seq<T.Lease>, limit: nat, now: int, lease: int, tokens: seq<Id>,
    locked: set<Id>)
    requires ST.Reachable(s, initial) && |tokens| >= limit
    requires DB.FirstStale(s.trade.orders, leases, limit, now, lease, tokens, locked)
    ensures forall i | 0 <= i < |leases| :: R.Leased(s, leases[i])
  {
    ST.ReachableHolds(s, initial);
    forall i | 0 <= i < |leases| ensures R.Leased(s, leases[i]) {
      assert DB.IsLeaseOf(s.trade.orders, leases[i], now, lease);
    }
  }

  lemma AllLeasedStand(s: S.Sys, initial: C.Stock, leases: seq<T.Lease>, more: seq<S.Action>)
    requires ST.Reachable(s, initial) && forall i | 0 <= i < |leases| :: R.Leased(s, leases[i])
    ensures forall i | 0 <= i < |leases| :: R.Leased(S.Run(s, more), leases[i])
  {
    forall i | 0 <= i < |leases| ensures R.Leased(S.Run(s, more), leases[i]) {
      R.LeasedStands(s, initial, leases[i], more);
    }
  }

  lemma AllSettledStand(s: S.Sys, initial: C.Stock, leases: seq<T.Lease>, more: seq<S.Action>)
    requires ST.Reachable(s, initial) && forall i | 0 <= i < |leases| :: R.Settled(s, leases[i])
    ensures forall i | 0 <= i < |leases| :: R.Settled(S.Run(s, more), leases[i])
  {
    forall i | 0 <= i < |leases| ensures R.Settled(S.Run(s, more), leases[i]) {
      R.SettledStands(s, initial, leases[i], more);
    }
  }

  /** Every call of every lease is answered, and nobody else acts. */
  ghost predicate Undisturbed(calls: nat -> R.Calls, others: (nat, nat) -> seq<S.Action>) {
    (forall i :: R.AllAnswered(calls(i))) && forall i, k :: others(i, k) == []
  }

  ghost predicate AllHeld(s: S.Sys, leases: seq<T.Lease>, from: nat) {
    forall i | from <= i < |leases| :: RO.Held(s, leases[i])
  }

  predicate Ascending(leases: seq<T.Lease>) {
    forall i, j | 0 <= i < j < |leases| :: leases[i].orderNo < leases[j].orderNo
  }

  lemma OthersStayHeld(s: S.Sys, s': S.Sys, leases: seq<T.Lease>, next: nat)
    requires next < |leases| && Ascending(leases) && AllHeld(s, leases, next)
    requires R.OnlyOrder(s.trade, s'.trade, leases[next].orderNo)
    ensures AllHeld(s', leases, next + 1)
  {
    forall i | next < i < |leases| ensures RO.Held(s', leases[i]) {
      assert RO.Held(s, leases[i]) && leases[next].orderNo < leases[i].orderNo;
    }
  }

  lemma LeasedRowIsHeld(t: T.Trade, leases: seq<T.Lease>, now: int, lease: int, i: nat)
    requires i < |leases| && Ascending(leases)
    requires forall k | 0 <= k < |leases| :: leases[k].orderNo in t.orders
    requires DB.IsLeaseOf(t.orders, leases[i], now, lease)
    ensures RO.HeldRow(T.LeaseAll(t, leases, now + lease), leases[i])
  {
    RL.LeasedRow(t, leases, now + lease, i);
  }

  lemma LeasableRows(s: S.Sys, leases: seq<T.Lease>, now: int, lease: int)
    requires RL.Leasable(s, leases, now, lease)
    ensures Ascending(leases)
    ensures forall i | 0 <= i < |leases| :: RO.HeldRow(T.LeaseAll(s.trade, leases, now + lease), leases[i])
  {
    forall i | 0 <= i < |leases| ensures DB.IsLeaseOf(s.trade.orders, leases[i], now, lease) {}
    forall i | 0 <= i < |leases| ensures RO.HeldRow(T.LeaseAll(s.trade, leases, now + lease), leases[i]) {
      LeasedRowIsHeld(s.trade, leases, now, lease, i);
    }
  }

  /** A batch just leased is held, every lease of it. */
  lemma LeasedIsHeld(
    s: S.Sys, leases: seq<T.Lease>, limit: nat, now: int, lease: int, tokens: seq<Id>, locked: set<Id>)
    requires |tokens| == limit && forall i | 0 <= i < limit :: tokens[i] !in s.used
    requires forall i, j | 0 <= i < j < limit :: tokens[i] != tokens[j]
    requires DB.FirstStale(s.trade.orders, leases, limit, now, lease, tokens, locked)
    ensures Ascending(leases) && AllHeld(S.Run(s, RL.Actions(leases, now, lease)), leases, 0)
  {
    RL.FirstIsLeasable(s, leases, limit, now, lease, tokens, locked);
    RL.LeasingIsARun(s, leases, now, lease);
    LeasableRows(s, leases, now, lease);
  }

  /** No claim in progress lacks its attempt, so leasing cannot fail on a row it cannot read. */
  lemma ClaimsHaveAttempts(s: S.Sys, initial: C.Stock)
    requires ST.Reachable(s, initial)
    ensures forall no | no in s.trade.orders && s.trade.orders[no].status == T.PaymentProcessing ::
      s.trade.orders[no].payment.Some?
  {
    ST.ReachableHolds(s, initial);
  }

  ghost predicate ResolvedBelow(s: S.Sys, leases: seq<T.Lease>, next: nat) {
    forall i | 0 <= i < next && i < |leases| :: R.Settled(s, leases[i])
  }

  ghost predicate AllLeased(s: S.Sys, leases: seq<T.Lease>) {
    forall i | 0 <= i < |leases| :: R.Leased(s, leases[i])
  }

  /** Resolves the next leased claim; the ones before it stay resolved, the ones after it stay held. */
  method ReconcileNext(
    w: World, ghost initial: C.Stock, leases: seq<T.Lease>, next: nat, calls: R.Calls, others: nat -> seq<S.Action>)
    returns (ok: bool, made: nat, ghost trace: seq<S.Action>)
    requires ST.Reachable(w.State(), initial) && next < |leases|
    requires AllLeased(w.State(), leases) && ResolvedBelow(w.State(), leases, next)
    modifies w, w.trade, w.catalog
    ensures w.State() == S.Run(old(w.State()), trace)
    ensures made <= R.WORST_CASE_CALLS
    ensures AllLeased(w.State(), leases)
    ensures ok ==> ResolvedBelow(w.State(), leases, next + 1)
    ensures R.AllAnswered(calls) && others(0) == others(1) == [] ==>
      AllHeld(old(w.State()), leases, next) && Ascending(leases) ==>
        ok && AllHeld(w.State(), leases, next + 1) && RO.Recovers(old(w.State()), w.State(), leases[next])
  {
    ghost var s := w.State();
    ok, made, trace := R.Reconcile(w, initial, leases[next], calls, others);
    if others(0) == others(1) == [] && AllHeld(s, leases, next) && Ascending(leases) {
      OthersStayHeld(s, w.State(), leases, next);
    }
    AllLeasedStand(s, initial, leases, trace);
    AllSettledStand(s, initial, leases[..next], trace);
    forall i | 0 <= i < next ensures R.Settled(w.State(), leases[i]) {
      assert leases[..next][i] == leases[i];
    }
  }

  /** Resolves leased claims in order and stops at the first that fails. */
  method ReconcileAll(
    w: World, ghost initial: C.Stock, leases: seq<T.Lease>, calls: nat -> R.Calls,
    others: (nat, nat) -> seq<S.Action>)
    returns (ok: bool, made: nat, ghost trace: seq<S.Action>, ghost stages: seq<S.Sys>)
    requires ST.Reachable(w.State(), initial) && AllLeased(w.State(), leases)
    modifies w, w.trade, w.catalog
    ensures w.State() == S.Run(old(w.State()), trace)
    ensures made <= R.WORST_CASE_CALLS * |leases|
    ensures ok ==> ResolvedBelow(w.State(), leases, |leases|)
    ensures Undisturbed(calls, others) && AllHeld(old(w.State()), leases, 0) && Ascending(leases) ==>
      ok && RunThrough(old(w.State()), w.State(), leases, stages, |leases|)
  {
    ghost var s := w.State();
    ghost var quiet := Undisturbed(calls, others) && AllHeld(s, leases, 0) && Ascending(leases);
    ok, made, trace, stages := true, 0, [], [s];
    var next := 0;
    while next < |leases| && ok
      invariant next <= |leases|
      invariant w.State() == S.Run(s, trace) && ST.Reachable(w.State(), initial)
      invariant made <= R.WORST_CASE_CALLS * next
      invariant AllLeased(w.State(), leases)
      invariant ok ==> ResolvedBelow(w.State(), leases, next)
      invariant quiet ==> ok && AllHeld(w.State(), leases, next) && RunThrough(s, w.State(), leases, stages, next)
      decreases |leases| - next
    {
      var more, done := made, next;
      ghost var before, rest := w.State(), [];
      ok, more, rest := ReconcileNext(w, initial, leases, next, calls(next), (step: nat) => others(done, step));
      P.Extend(s, initial, trace, rest);
      if quiet {
        NextStage(s, before, leases, stages, next, w.State());
      }
      stages := stages + [w.State()];
      trace, made, next := trace + rest, made + more, next + 1;
    }
  }

  /** The states a batch passed through, from the first to the last. */
  ghost predicate RunThrough(s: S.Sys, s': S.Sys, leases: seq<T.Lease>, stages: seq<S.Sys>, n: nat) {
    RO.Staged(stages, leases, n) && stages[0] == s && stages[n] == s'
  }

  lemma NextStage(s: S.Sys, s1: S.Sys, leases: seq<T.Lease>, stages: seq<S.Sys>, n: nat, s': S.Sys)
    requires n < |leases| && RunThrough(s, s1, leases, stages, n) && RO.Recovers(s1, s', leases[n])
    ensures RunThrough(s, s', leases, stages + [s'], n + 1)
  {
    RO.StagedGrows(stages, leases, n, s');
  }

  /** Claims of different orders are different attempts on different reservations. */
  lemma LeasesAreApart(
    s: S.Sys, initial: C.Stock, leases: seq<T.Lease>, limit: nat, now: int, lease: int, tokens: seq<Id>,
    locked: set<Id>)
    requires ST.Reachable(s, initial) && |tokens| >= limit && Ascending(leases)
    requires DB.FirstStale(s.trade.orders, leases, limit, now, lease, tokens, locked)
    ensures RO.Apart(leases)
  {
    ST.ReachableHolds(s, initial);
    forall i, j | 0 <= i < j < |leases|
      ensures leases[i].attempt.reservationId != leases[j].attempt.reservationId
    {
      assert DB.IsLeaseOf(s.trade.orders, leases[i], now, lease) && DB.IsLeaseOf(s.trade.orders, leases[j], now, lease);
    }
  }

  lemma {:induction false} LeaseAllLeaves(t: T.Trade, leases: seq<T.Lease>, until: int)
    requires forall i | 0 <= i < |leases| :: leases[i].orderNo in t.orders
    ensures RO.OnlyLeases(t, T.LeaseAll(t, leases, until))
    decreases |leases|
  {
    if leases != [] {
      LeaseAllLeaves(t, leases[..|leases| - 1], until);
    }
  }

  /** A claim this old: PAYMENT_PROCESSING for at least the lease duration, and under no running lease. */
  predicate Overdue(o: T.Order, now: int, lease: int) {
    && o.status == T.PaymentProcessing
    && o.startedAt.Some? && now - o.startedAt.value >= lease
    && (o.leaseUntil.Some? ==> o.leaseUntil.value <= now)
  }

  /** The leased claims are the first overdue, unlocked ones in order, as many as fit the batch. */
  ghost predicate FirstOverdue(
    orders: map<Id, T.Order>, leases: seq<T.Lease>, limit: nat, now: int, lease: int, locked: set<Id>)
  {
    && |leases| <= limit
    && (forall i | 0 <= i < |leases| ::
          && leases[i].orderNo in orders && leases[i].orderNo !in locked
          && Overdue(orders[leases[i].orderNo], now, lease)
          && orders[leases[i].orderNo].userId == leases[i].userId
          && orders[leases[i].orderNo].payment == Some(leases[i].attempt))
    && Ascending(leases)
    && (forall no | no in orders && no !in locked && Overdue(orders[no], now, lease) ::
          || (exists i | 0 <= i < |leases| :: leases[i].orderNo == no)
          || (|leases| == limit && forall i | 0 <= i < limit :: leases[i].orderNo < no))
  }

  lemma FirstStaleIsFirstOverdue(
    orders: map<Id, T.Order>, leases: seq<T.Lease>, limit: nat, now: int, lease: int, tokens: seq<Id>, locked: set<Id>)
    requires |tokens| >= limit && DB.FirstStale(orders, leases, limit, now, lease, tokens, locked)
    ensures FirstOverdue(orders, leases, limit, now, lease, locked)
  {
    var nos := DB.OrderNos(leases);
    forall i | 0 <= i < |leases| ensures DB.IsLeaseOf(orders, leases[i], now, lease) && nos[i] !in locked {}
    forall i, j | 0 <= i < j < |leases| ensures leases[i].orderNo < leases[j].orderNo {
      assert Before(DB.ById(), nos[i], nos[j]);
    }
    forall no | no in orders && no !in locked && Overdue(orders[no], now, lease)
      ensures (exists i | 0 <= i < |leases| :: leases[i].orderNo == no)
        || (|leases| == limit && forall i | 0 <= i < limit :: leases[i].orderNo < no)
    {
      assert no in DB.Free(orders, now, lease, locked);
      if In(nos, no) {
        var i :| 0 <= i < |nos| && nos[i] == no;
        assert leases[i].orderNo == no;
      } else {
        forall i | 0 <= i < limit ensures leases[i].orderNo < no {
          assert Before(DB.ById(), nos[i], no);
        }
      }
    }
  }

  lemma PassFitsLease(config: LB.Config, made: nat)
    requires config.InRange() && LB.ValidateRecovery(config)
    requires made <= 1 + R.WORST_CASE_CALLS * config.batchSize
    ensures config.callTimeout * made <= config.leaseDuration
  {
    LB.RecoveryCheckIsExact(config);
    LB.Monotone(made, 1 + 5 * config.batchSize, config.callTimeout);
  }

  /** The lease transaction of a pass; every claim in progress can be read, so it never fails. */
  method LeaseBatch(
    w: World, ghost initial: C.Stock, limit: nat, now: int, lease: int, tokens: seq<Id>, locked: set<Id>)
    returns (leased: seq<T.Lease>, ghost trace: seq<S.Action>)
    requires ST.Reachable(w.State(), initial) && |tokens| == limit
    requires forall i | 0 <= i < limit :: tokens[i] !in w.used
    requires forall i, j | 0 <= i < j < limit :: tokens[i] != tokens[j]
    modifies w, w.trade
    ensures w.State() == S.Run(old(w.State()), trace) && ST.Reachable(w.State(), initial)
    ensures FirstOverdue(old(w.trade.orders), leased, limit, now, lease, locked)
    ensures AllLeased(w.State(), leased) && AllHeld(w.State(), leased, 0) && RO.Apart(leased)
    ensures RO.OnlyLeases(old(w.State().trade), w.State().trade) && w.State().catalog == old(w.State().catalog)
  {
    ghost var s := w.State();
    ClaimsHaveAttempts(s, initial);
    var answer := w.LeaseStale(limit, now, lease, tokens, locked);
    leased, trace := answer.value, RL.Actions(answer.value, now, lease);
    BatchIsLeased(s, initial, leased, limit, now, lease, tokens, locked);
  }

  lemma BatchIsLeased(
    s: S.Sys, initial: C.Stock, leases: seq<T.Lease>, limit: nat, now: int, lease: int, tokens: seq<Id>,
    locked: set<Id>)
    requires ST.Reachable(s, initial) && |tokens| == limit
    requires forall i | 0 <= i < limit :: tokens[i] !in s.used
    requires forall i, j | 0 <= i < j < limit :: tokens[i] != tokens[j]
    requires DB.FirstStale(s.trade.orders, leases, limit, now, lease, tokens, locked)
    ensures var s' := S.Run(s, RL.Actions(leases, now, lease));
      && ST.Reachable(s', initial)
      && FirstOverdue(s.trade.orders, leases, limit, now, lease, locked)
      && AllLeased(s', leases) && AllHeld(s', leases, 0) && RO.Apart(leases)
      && RO.OnlyLeases(s.trade, s'.trade) && s'.catalog == s.catalog
  {
    var actions := RL.Actions(leases, now, lease);
    var s' := S.Run(s, actions);
    assert ST.Reachable(s', initial) by {
      ST.ReachableRun(s, initial, actions);
    }
    assert FirstOverdue(s.trade.orders, leases, limit, now, lease, locked) by {
      FirstStaleIsFirstOverdue(s.trade.orders, leases, limit, now, lease, tokens, locked);
    }
    assert AllLeased(s', leases) by {
      LeasesAreClaims(s, initial, leases, limit, now, lease, tokens, locked);
      AllLeasedStand(s, initial, leases, actions);
    }
    assert Ascending(leases) && AllHeld(s', leases, 0) by {
      LeasedIsHeld(s, leases, limit, now, lease, tokens, locked);
    }
    assert RO.Apart(leases) by {
      LeasesAreApart(s, initial, leases, limit, now, lease, tokens, locked);
    }
    assert RO.OnlyLeases(s.trade, s'.trade) && s'.catalog == s.catalog by {
      RL.FirstIsLeasable(s, leases, limit, now, lease, tokens, locked);
      LeasingLeaves(s, leases, now, lease);
    }
  }

  lemma LeasingLeaves(s: S.Sys, leases: seq<T.Lease>, now: int, lease: int)
    requires RL.Leasable(s, leases, now, lease)
    ensures var s' := S.Run(s, RL.Actions(leases, now, lease));
      RO.OnlyLeases(s.trade, s'.trade) && s'.catalog == s.catalog
  {
    var t := T.LeaseAll(s.trade, leases, now + lease);
    assert RO.OnlyLeases(s.trade, t) by {
      LeaseAllLeaves(s.trade, leases, now + lease);
    }
    var s' := S.Run(s, RL.Actions(leases, now, lease));
    assert s'.trade == t && s'.catalog == s.catalog by {
      RL.LeasingIsARun(s, leases, now, lease);
    }
  }

  /** Every leased claim has the outcome its order, group and wallet called for. */
  ghost predicate AllDecided(s: S.Sys, s': S.Sys, leases: seq<T.Lease>, stages: seq<S.Sys>) {
    && RO.Staged(stages, leases, |leases|)
    && forall i | 0 <= i < |leases| :: RO.Outcome(s, stages[i], s', leases[i])
  }

  lemma BatchDecided(s: S.Sys, s1: S.Sys, s': S.Sys, leases: seq<T.Lease>, stages: seq<S.Sys>)
    requires RunThrough(s1, s', leases, stages, |leases|) && RO.Apart(leases)
    requires RO.OnlyLeases(s.trade, s1.trade) && s1.catalog == s.catalog
    ensures AllDecided(s, s', leases, stages)
  {
    forall i | 0 <= i < |leases| ensures RO.Outcome(s, stages[i], s', leases[i]) {
      RO.BatchDecides(s, stages, leases, i);
    }
  }

  /** The pass after its lease, from the state `s` before it. */
  method ResolveBatch(
    w: World, ghost initial: C.Stock, ghost s: S.Sys, leases: seq<T.Lease>, calls: nat -> R.Calls,
    others: (nat, nat) -> seq<S.Action>)
    returns (ok: bool, made: nat, ghost trace: seq<S.Action>, ghost stages: seq<S.Sys>)
    requires ST.Reachable(w.State(), initial) && AllLeased(w.State(), leases) && AllHeld(w.State(), leases, 0)
    requires Ascending(leases) && RO.Apart(leases)
    requires RO.OnlyLeases(s.trade, w.State().trade) && w.State().catalog == s.catalog
    modifies w, w.trade, w.catalog
    ensures w.State() == S.Run(old(w.State()), trace)
    ensures made <= R.WORST_CASE_CALLS * |leases|
    ensures ok ==> ResolvedBelow(w.State(), leases, |leases|)
    ensures Undisturbed(calls, others) ==> ok && AllDecided(s, w.State(), leases, stages)
  {
    ghost var s1 := w.State();
    ok, made, trace, stages := ReconcileAll(w, initial, leases, calls, others);
    if Undisturbed(calls, others) {
      BatchDecided(s, s1, w.State(), leases, stages);
    }
  }

  /** The calls of a pass, when its lease transaction was not rejected. */
  method LeaseAndResolve(
    w: World, ghost initial: C.Stock, limit: nat, now: int, duration: int, tokens: seq<Id>, locked: set<Id>,
    answered: bool, calls: nat -> R.Calls, others: (nat, nat) -> seq<S.Action>)
    returns (ok: bool, leased: seq<T.Lease>, made: nat, ghost trace: seq<S.Action>, ghost stages: seq<S.Sys>)
    requires ST.Reachable(w.State(), initial) && |tokens| == limit
    requires forall i | 0 <= i < limit :: tokens[i] !in w.used
    requires forall i, j | 0 <= i < j < limit :: tokens[i] != tokens[j]
    modifies w, w.trade, w.catalog
    ensures w.State() == S.Run(old(w.State()), trace)
    ensures made <= R.WORST_CASE_CALLS * limit
    ensures ok ==>
      FirstOverdue(old(w.trade.orders), leased, limit, now, duration, locked)
      && ResolvedBelow(w.State(), leased, |leased|)
    ensures answered && Undisturbed(calls, others) ==> ok && AllDecided(old(w.State()), w.State(), leased, stages)
  {
    ghost var s := w.State();
    leased, trace := LeaseBatch(w, initial, limit, now, duration, tokens, locked);
    ok, made, stages := false, 0, [];
    if answered {
      ghost var rest;
      ok, made, rest, stages := ResolveBatch(w, initial, s, leased, calls, others);
      ST.RunAppends(s, trace, rest);
      trace := trace + rest;
    }
  }

  /**
   One pass. Under any interleaving with payers and other workers it only takes steps of the saga, makes at
   most one call plus five per leased claim, and reports success only when every claim it leased is settled
   or reset for good; undisturbed, with every call answered, it always succeeds, and pays exactly the claims whose
   stock is held and whose total the wallet covers when their turn comes. `clock` and the configured durations
   count nanoseconds; `stages` are the states before the first claim and after each.
   */
  method RunOnce(
    w: World, ghost initial: C.Stock, config: LB.Config, clock: int, tokens: seq<Id>, locked: set<Id>, lease: Fate,
    calls: nat -> R.Calls, others: (nat, nat) -> seq<S.Action>)
    returns (ok: bool, leased: seq<T.Lease>, made: nat, ghost trace: seq<S.Action>, ghost stages: seq<S.Sys>)
    requires ST.Reachable(w.State(), initial) && config.InRange()
    requires config.batchSize > 0 ==> |tokens| == config.batchSize
    requires forall i | 0 <= i < |tokens| :: tokens[i] !in w.used
    requires forall i, j | 0 <= i < j < |tokens| :: tokens[i] != tokens[j]
    modifies w, w.trade, w.catalog
    ensures w.State() == S.Run(old(w.State()), trace)
    ensures !LB.ValidateRecovery(config) ==> !ok && made == 0 && trace == []
    ensures LB.ValidateRecovery(config) ==>
      && made <= 1 + R.WORST_CASE_CALLS * config.batchSize
      && config.callTimeout * made <= config.leaseDuration
    ensures ok ==>
      && FirstOverdue(old(w.trade.orders), leased, config.batchSize, clock - clock % 1_000_000, config.leaseDuration,
                      locked)
      && ResolvedBelow(w.State(), leased, |leased|)
    ensures LB.ValidateRecovery(config) && lease == Answered && Undisturbed(calls, others) ==>
      ok && AllDecided(old(w.State()), w.State(), leased, stages)
  {
    trace, leased, made, stages := [], [], 0, [];
    if !LB.ValidateRecovery(config) {
      return false, leased, made, trace, stages;
    }
    made := 1;
    PassFitsLease(config, made);
    if lease == Rejected {
      return false, leased, made, trace, stages;
    }
    var more;
    ok, leased, more, trace, stages := LeaseAndResolve(
      w, initial, config.batchSize, LB.TruncateMs(clock), config.leaseDuration, tokens, locked, lease == Answered,
      calls, others);
    made := made + more;
    PassFitsLease(config, made);
  }

  /** Others use their own tokens and lease this order only with clocks that show less than the batch's end. */
  predicate LeavesBatch(action: S.Action, no: Id, token: Id, end: int) {
    && (action.LeaseOrder? && action.no == no ==> action.now < end)
    && (action.RecoverReset? ==> action.token != token)
    && (action.RecoverDone? ==> action.token != token)
  }

  /**
   With the slack of a millisecond, a claim leased for a batch stays its worker's until the batch's last call is
   over, or is resolved: until then no clock lets another worker lease it.
   */
  lemma HolderKeepsBatch(
    s: S.Sys, initial: C.Stock, actions: seq<S.Action>, l: T.Lease, until: int, config: LB.Config, start: int,
    durations: seq<int>)
    requires SI.SagaInv(s, initial) && ST.HasLease(s, l.orderNo, l.attempt, l.token, until)
    requires config.InRange() && config.Positive() && LB.WithinLease(config, start, durations, until)
    requires forall i | 0 <= i < |actions| ::
      LeavesBatch(actions[i], l.orderNo, l.token, start + LB.Total(durations))
    ensures var s' := S.Run(s, actions);
      ST.HasLease(s', l.orderNo, l.attempt, l.token, until) || ST.Resolved(s', l.orderNo, l.attempt)
  {
    LB.RecoveryBatchEndsInLease(config, start, durations, until);
    forall i | 0 <= i < |actions| ensures ST.LeavesLease(actions[i], l.orderNo, l.token, until) {
      assert LeavesBatch(actions[i], l.orderNo, l.token, start + LB.Total(durations));
    }
    ST.HolderKeepsLease(s, initial, actions, l.orderNo, l.attempt, l.token, until);
  }
}
