/** What an undisturbed recovery must make of a leased claim, read off the tables before it. */
module RecoveryOutcome {
  import opened Wrappers
  import opened PayOutcome
  import T = Trade
  import TI = TradeInvariants
  import C = Catalog
  import CI = CatalogInvariants
  import S = Saga
  import SI = SagaInvariants
  import ST = SagaTheorems

  /** The lease is still this worker's and the claim still unresolved. */
  predicate HeldRow(t: T.Trade, l: T.Lease) {
    T.Holds(t, l.userId, l.orderNo, l.attempt) && t.orders[l.orderNo].recoveryToken == Some(l.token)
  }

  predicate Held(s: S.Sys, l: T.Lease) {
    HeldRow(s.trade, l)
  }

  /** The order is payable again, without claim or lease, its attempt is filed, and no money moved. */
  ghost predicate Returned(t: T.Trade, t': T.Trade, l: T.Lease) {
    && l.orderNo in t.orders
    && t'.orders ==
         t.orders[l.orderNo := Unclaimed(t.orders[l.orderNo]).(recoveryToken := None, leaseUntil := None)]
    && t'.history == t.history[l.attempt.id := T.History(l.orderNo, l.attempt.reservationId, T.PendingPayment)]
    && t'.wallets == t.wallets && t'.ledger == t.ledger && t'.outbox == t.outbox
  }

  /** The group is RELEASED and every item it held is back in stock. */
  ghost predicate PutBack(c: C.Catalog, c': C.Catalog, rid: T.Id) {
    && rid in c.groups
    && c'.groups == c.groups[rid := c.groups[rid].(status := C.Released)]
    && c'.stock.Keys == c.stock.Keys
    && (forall sku | sku in c.stock :: c'.stock[sku] == c.stock[sku] + CI.Quantity(c.groups[rid].items, sku))
  }

  predicate Reserves(s: S.Sys, l: T.Lease) {
    && l.attempt.reservationId in s.catalog.groups
    && s.catalog.groups[l.attempt.reservationId].status == C.Reserved
  }

  /** With its stock still held the claim is settled if it can be afforded; otherwise everything is given up. */
  ghost predicate Recovers(s: S.Sys, s': S.Sys, l: T.Lease) {
    && l.orderNo in s.trade.orders
    && if !Reserves(s, l) then Returned(s.trade, s'.trade, l) && s'.catalog == s.catalog
       else if Affordable(s.trade, l.userId, s.trade.orders[l.orderNo].total) then
         && PaidFor(s.trade, s'.trade, l.userId, l.orderNo, l.attempt, s.trade.orders[l.orderNo].startedAt)
         && s'.catalog == s.catalog
       else Returned(s.trade, s'.trade, l) && PutBack(s.catalog, s'.catalog, l.attempt.reservationId)
  }

  function GiveBack(s: S.Sys, l: T.Lease): S.Sys {
    s.(trade := T.RecoveryDone(s.trade, l.userId, l.orderNo, l.attempt, l.token))
  }

  function ReleaseAndGiveBack(s: S.Sys, l: T.Lease, release: bool): S.Sys {
    GiveBack(if release then S.DoDeliverRelease(s, l.attempt) else s, l)
  }

  function Undo(s: S.Sys, l: T.Lease, release: bool): S.Sys {
    ReleaseAndGiveBack(S.DoRecoverReset(s, l.userId, l.orderNo, l.attempt, l.token, release), l, release)
  }

  function Resumed(s: S.Sys, l: T.Lease): S.Sys {
    var settled := S.DoSettle(s, l.userId, l.orderNo, l.attempt);
    if T.SettleWalletPayment(s.trade, l.userId, l.orderNo, l.attempt).1.Settled? then GiveBack(settled, l)
    else Undo(settled, l, true)
  }

  function Resolved(s: S.Sys, l: T.Lease, group: Option<C.Group>): S.Sys {
    if group.None? || group.value.status == C.Released then Undo(s, l, false)
    else if group.value.status == C.Confirmed then GiveBack(s, l)
    else Resumed(s, l)
  }

  function GroupOf(s: S.Sys, l: T.Lease): Option<C.Group> {
    if l.attempt.reservationId in s.catalog.groups then Some(s.catalog.groups[l.attempt.reservationId]) else None
  }

  lemma UndoReturnsRow(s: S.Sys, initial: C.Stock, l: T.Lease, release: bool)
    requires ST.Reachable(s, initial) && Held(s, l)
    ensures Returned(s.trade, Undo(s, l, release).trade, l)
  {
    ST.ReachableHolds(s, initial);
    TI.HeldAttemptIsNew(s.trade, s.claims, l.orderNo, l.attempt);
  }

  lemma ReleaseRestores(s: S.Sys, initial: C.Stock, l: T.Lease)
    requires ST.Reachable(s, initial) && Held(s, l) && Reserves(s, l)
    ensures PutBack(s.catalog, Undo(s, l, true).catalog, l.attempt.reservationId)
  {
    ST.ReachableHolds(s, initial);
    CI.RestoreGivesBack(s.catalog.stock, s.catalog.groups[l.attempt.reservationId].items);
  }

  lemma UndoReturns(s: S.Sys, initial: C.Stock, l: T.Lease)
    requires ST.Reachable(s, initial) && Held(s, l)
    ensures Returned(s.trade, Undo(s, l, false).trade, l) && Undo(s, l, false).catalog == s.catalog
  {
    UndoReturnsRow(s, initial, l, false);
  }

  lemma UndoReleases(s: S.Sys, initial: C.Stock, l: T.Lease)
    requires ST.Reachable(s, initial) && Held(s, l) && Reserves(s, l)
    ensures Returned(s.trade, Undo(s, l, true).trade, l)
    ensures PutBack(s.catalog, Undo(s, l, true).catalog, l.attempt.reservationId)
  {
    UndoReturnsRow(s, initial, l, true);
    ReleaseRestores(s, initial, l);
  }

  lemma ResumedRecovers(s: S.Sys, initial: C.Stock, l: T.Lease)
    requires ST.Reachable(s, initial) && Held(s, l) && Reserves(s, l) && S.SeenReserved(l.attempt) in s.net
    ensures Recovers(s, Resumed(s, l), l)
  {
    ClaimSettles(s, initial, l.userId, l.orderNo, l.attempt);
    SettleMoves(s.trade, l.userId, l.orderNo, l.attempt);
    if !Affordable(s.trade, l.userId, s.trade.orders[l.orderNo].total) {
      UndoReleases(s, initial, l);
    }
  }

  /** A claim in progress has no CONFIRMED group. */
  lemma HeldIsUnconfirmed(s: S.Sys, initial: C.Stock, l: T.Lease)
    requires ST.Reachable(s, initial) && Held(s, l) && l.attempt.reservationId in s.catalog.groups
    ensures s.catalog.groups[l.attempt.reservationId].status != C.Confirmed
    ensures s.catalog.groups[l.attempt.reservationId].attemptId == l.attempt.id
  {
    ST.ReachableHolds(s, initial);
    SI.HeldReservationIsNotReleased(s, l.orderNo, l.attempt);
    if s.catalog.groups[l.attempt.reservationId].status == C.Confirmed {
      ST.ConfirmedMeansPaid(s, initial, l.attempt.reservationId);
    }
  }

  /** Looking at the reservation and acting on what it shows recovers the claim. */
  lemma ResolvedRecovers(s: S.Sys, initial: C.Stock, l: T.Lease)
    requires ST.Reachable(s, initial) && Held(s, l)
    ensures Recovers(s, Resolved(S.DoObserve(s, l.attempt.reservationId), l, GroupOf(s, l)), l)
  {
    var seen := S.DoObserve(s, l.attempt.reservationId);
    var actions := [S.Observe(l.attempt.reservationId)];
    assert actions[1..] == [] && S.Run(s, actions) == seen;
    ST.ReachableRun(s, initial, actions);
    if l.attempt.reservationId in s.catalog.groups {
      HeldIsUnconfirmed(s, initial, l);
    }
    if Reserves(s, l) {
      ResumedRecovers(seen, initial, l);
    } else {
      UndoReturns(seen, initial, l);
    }
  }

  /** One claim after another: each stage recovers the next lease from where the one before left off. */
  ghost predicate Staged(stages: seq<S.Sys>, leases: seq<T.Lease>, n: nat) {
    && |stages| == n + 1 <= |leases| + 1
    && forall i | 0 <= i < n :: Recovers(stages[i], stages[i + 1], leases[i])
  }

  lemma StagedGrows(stages: seq<S.Sys>, leases: seq<T.Lease>, n: nat, s: S.Sys)
    requires Staged(stages, leases, n) && n < |leases| && Recovers(stages[n], s, leases[n])
    ensures Staged(stages + [s], leases, n + 1)
  {
    var more := stages + [s];
    forall i | 0 <= i < n + 1 ensures Recovers(more[i], more[i + 1], leases[i]) {
      assert i < n ==> more[i + 1] == stages[i + 1];
    }
  }

  predicate Apart(leases: seq<T.Lease>) {
    forall i, j | 0 <= i < j < |leases| ::
      leases[i].orderNo != leases[j].orderNo && leases[i].attempt.reservationId != leases[j].attempt.reservationId
  }

  /** Order row and group are the same, and nothing filed is lost. */
  ghost predicate SameClaim(s: S.Sys, s': S.Sys, l: T.Lease) {
    && (l.orderNo in s.trade.orders <==> l.orderNo in s'.trade.orders)
    && (l.orderNo in s.trade.orders ==> s'.trade.orders[l.orderNo] == s.trade.orders[l.orderNo])
    && GroupOf(s', l) == GroupOf(s, l)
    && s.trade.history.Keys <= s'.trade.history.Keys
  }

  lemma OtherClaimSame(s: S.Sys, s': S.Sys, l: T.Lease, other: T.Lease)
    requires Recovers(s, s', l)
    requires other.orderNo != l.orderNo && other.attempt.reservationId != l.attempt.reservationId
    ensures SameClaim(s, s', other)
  {
  }

  /** From one stage to a later one, claims leased neither at it nor in between stay as they are. */
  lemma {:induction false} StagesKeep(stages: seq<S.Sys>, leases: seq<T.Lease>, first: nat, last: nat, other: T.Lease)
    requires Staged(stages, leases, |leases|) && first <= last <= |leases|
    requires forall i | first <= i < last ::
      other.orderNo != leases[i].orderNo && other.attempt.reservationId != leases[i].attempt.reservationId
    ensures SameClaim(stages[first], stages[last], other)
    decreases last
  {
    if first < last {
      StagesKeep(stages, leases, first, last - 1, other);
      OtherClaimSame(stages[last - 1], stages[last], leases[last - 1], other);
    }
  }

  /**
   What a batch made of one claim, by its order's total and its group before the batch and the balance when its
   turn came: PAID in full with its stock held, or payable again with its attempt filed and its stock given back.
   */
  ghost predicate Outcome(first: S.Sys, turn: S.Sys, last: S.Sys, l: T.Lease) {
    && l.orderNo in first.trade.orders && l.orderNo in last.trade.orders
    && var total, o := first.trade.orders[l.orderNo].total, last.trade.orders[l.orderNo];
       if Reserves(first, l) && Affordable(turn.trade, l.userId, total) then
         o.status == T.Paid && o.payment == Some(l.attempt) && o.paidAmount == total && Reserves(last, l)
       else
         && o.status == T.PendingPayment && o.payment == None && l.attempt.id in last.trade.history
         && !Reserves(last, l)
  }

  /** Leasing leaves everything but the lease columns. */
  ghost predicate OnlyLeases(t: T.Trade, t': T.Trade) {
    && t'.wallets == t.wallets && t'.history == t.history && t'.orders.Keys == t.orders.Keys
    && forall no | no in t.orders ::
         t'.orders[no] == t.orders[no].(recoveryToken := t'.orders[no].recoveryToken,
                                        leaseUntil := t'.orders[no].leaseUntil)
  }

  lemma BatchDecides(s: S.Sys, stages: seq<S.Sys>, leases: seq<T.Lease>, i: nat)
    requires Staged(stages, leases, |leases|) && Apart(leases) && i < |leases|
    requires OnlyLeases(s.trade, stages[0].trade) && stages[0].catalog == s.catalog
    ensures Outcome(s, stages[i], stages[|leases|], leases[i])
  {
    StagesKeep(stages, leases, 0, i, leases[i]);
    StagesKeep(stages, leases, i + 1, |leases|, leases[i]);
    assert Recovers(stages[i], stages[i + 1], leases[i]);
  }
}
