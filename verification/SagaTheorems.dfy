/** What holds of every run of the payment saga, whatever the interleaving, losses and crashes. */
module SagaTheorems {
  import opened Wrappers
  import opened Sums
  import opened Trade
  import opened TradeInvariants
  import opened Saga
  import opened SagaInvariants
  import C = Catalog
  import CI = CatalogInvariants

  lemma AdvancesTransitive(s: Sys, s': Sys, s'': Sys)
    requires Advances(s, s') && Advances(s', s'')
    ensures Advances(s, s'')
  {
  }

  /** The invariant holds in every state of every run, and runs only advance. */
  lemma {:induction false} RunKeeps(s: Sys, initial: C.Stock, actions: seq<Action>)
    requires SagaInv(s, initial)
    ensures SagaInv(Run(s, actions), initial)
    ensures Advances(s, Run(s, actions))
    decreases |actions|
  {
    if actions != [] {
      var s' := Apply(s, actions[0]);
      ActionKeeps(s, initial, actions[0]);
      RunKeeps(s', initial, actions[1..]);
      AdvancesTransitive(s, s', Run(s', actions[1..]));
    }
  }

  lemma {:induction false} RunAppends(s: Sys, actions: seq<Action>, more: seq<Action>)
    ensures Run(s, actions + more) == Run(Run(s, actions), more)
    decreases |actions|
  {
    if actions == [] {
      assert [] + more == more;
    } else {
      assert (actions + more)[1..] == actions[1..] + more;
      RunAppends(Apply(s, actions[0]), actions[1..], more);
    }
  }

  /** Conservation of money over every run from the start: balance plus what was paid is the initial balance. */
  lemma MoneyIsConserved(s: Sys, actions: seq<Action>, user: Id)
    requires Genesis(s)
    ensures Wealth(Run(s, actions).trade, user) == Balance(s.trade, user)
    ensures LedgerMatches(Run(s, actions).trade)
  {
    GenesisHolds(s);
    RunKeeps(s, s.catalog.stock, actions);
    NothingPaid(s.trade, user);
  }

  lemma NothingPaid(t: Trade, user: Id)
    requires forall no | no in t.orders :: t.orders[no].status != Paid
    ensures MapSum(t.orders, PaidBy(user)) == 0
  {
    forall no | no in t.orders.Keys ensures At(t.orders, PaidBy(user))(no) == 0 {}
    SumZero(t.orders.Keys, At(t.orders, PaidBy(user)));
  }

  ghost predicate Reachable(s: Sys, initial: C.Stock) {
    exists s0, actions :: Genesis(s0) && s0.catalog.stock == initial && s == Run(s0, actions)
  }

  lemma ReachableHolds(s: Sys, initial: C.Stock)
    requires Reachable(s, initial)
    ensures SagaInv(s, initial)
  {
    var s0, actions :| Genesis(s0) && s0.catalog.stock == initial && s == Run(s0, actions);
    GenesisHolds(s0);
    RunKeeps(s0, initial, actions);
  }

  lemma ReachableRun(s: Sys, initial: C.Stock, actions: seq<Action>)
    requires Reachable(s, initial)
    ensures Reachable(Run(s, actions), initial)
    ensures Advances(s, Run(s, actions))
  {
    ReachableHolds(s, initial);
    RunKeeps(s, initial, actions);
    var s0, before :| Genesis(s0) && s0.catalog.stock == initial && s == Run(s0, before);
    RunAppends(s0, before, actions);
    assert Run(s, actions) == Run(s0, before + actions);
  }

  /** Reset before release: a reservation someone asked to release is never confirmed, now or later. */
  lemma ReleaseNeverMeetsConfirmation(s: Sys, initial: C.Stock, a: Attempt, actions: seq<Action>)
    requires Reachable(s, initial) && ReleaseSent(a) in s.net
    ensures a.id in s.claims
    ensures var s' := Run(s, actions);
      && a.reservationId !in s'.trade.outbox
      && SettlementRows(s'.trade, s.claims[a.id].orderNo, a.id) == {PendingPayment}
  {
    ReachableHolds(s, initial);
    RunKeeps(s, initial, actions);
    var s' := Run(s, actions);
    assert True(s', ReleaseSent(a));
    ResetIsNeverConfirmed(s'.trade, s'.claims, a.id);
    SettlementIsAFunction(s'.trade, s'.claims, s.claims[a.id].orderNo, a.id, PendingPayment);
  }

  /** An order is PAID exactly when the reservation on its row has a confirmation, and it never has two. */
  lemma PaidMeansConfirmedOnce(s: Sys, initial: C.Stock, no: Id)
    requires Reachable(s, initial) && no in s.trade.orders
    ensures s.trade.orders[no].status == Paid
      <==> s.trade.orders[no].payment.Some? && s.trade.orders[no].payment.value.reservationId in s.trade.outbox
    ensures forall q, r | q in s.trade.outbox && r in s.trade.outbox
      && s.trade.outbox[q].orderNo == no && s.trade.outbox[r].orderNo == no :: q == r
  {
    ReachableHolds(s, initial);
    forall r | r in s.trade.outbox ensures Confirms(s.trade, r, s.trade.outbox[r]) {}
  }

  /** PAID is final: the order keeps its attempt, its confirmation and its stock in every continuation. */
  lemma PaidIsFinal(s: Sys, initial: C.Stock, no: Id, actions: seq<Action>)
    requires Reachable(s, initial) && no in s.trade.orders && s.trade.orders[no].status == Paid
    ensures s.trade.orders[no].payment.Some?
    ensures var s' := Run(s, actions);
      var a := s.trade.orders[no].payment.value;
      && no in s'.trade.orders && s'.trade.orders[no].status == Paid && s'.trade.orders[no].payment == Some(a)
      && a.reservationId in s'.trade.outbox
      && a.reservationId in s'.catalog.groups && s'.catalog.groups[a.reservationId].status != C.Released
      && s'.catalog.groups[a.reservationId].items == s'.trade.orders[no].items
  {
    ReachableHolds(s, initial);
    RunKeeps(s, initial, actions);
    var s' := Run(s, actions);
    var a := s.trade.orders[no].payment.value;
    HeldReservationIsNotReleased(s', no, a);
    assert GroupTrue(s', a.reservationId, s'.catalog.groups[a.reservationId]);
  }

  /** CONFIRMED stock belongs to a PAID order, so recovery may leave such an order alone. */
  lemma ConfirmedMeansPaid(s: Sys, initial: C.Stock, rid: Id)
    requires Reachable(s, initial) && rid in s.catalog.groups && s.catalog.groups[rid].status == C.Confirmed
    ensures var g := s.catalog.groups[rid];
      Confirms(s.trade, rid, Confirmation(g.orderNo, g.attemptId))
    ensures forall no | no in s.trade.orders && s.trade.orders[no].status == PaymentProcessing ::
      s.trade.orders[no].payment.Some? && s.trade.orders[no].payment.value.reservationId != rid
  {
    ReachableHolds(s, initial);
    var g := s.catalog.groups[rid];
    assert GroupTrue(s, rid, g);
    forall no | no in s.trade.orders && s.trade.orders[no].payment.Some?
      && s.trade.orders[no].payment.value.reservationId == rid
      ensures no == g.orderNo
    {
      HeldReservationIsNotReleased(s, no, s.trade.orders[no].payment.value);
    }
  }

  /** RELEASED stock belongs to an attempt that was reset, so its order was not paid with it and never will be. */
  lemma ReleasedMeansReset(s: Sys, initial: C.Stock, rid: Id, actions: seq<Action>)
    requires Reachable(s, initial) && rid in s.catalog.groups && s.catalog.groups[rid].status == C.Released
    ensures s.catalog.groups[rid].attemptId in s.trade.history
    ensures rid !in Run(s, actions).trade.outbox
  {
    ReachableHolds(s, initial);
    RunKeeps(s, initial, actions);
    var s' := Run(s, actions);
    assert GroupTrue(s, rid, s.catalog.groups[rid]);
    assert GroupTrue(s', rid, s'.catalog.groups[rid]);
    ResetIsNeverConfirmed(s'.trade, s'.claims, s'.catalog.groups[rid].attemptId);
  }

  /** The settlement status of an attempt, once it is PAID or reset, is the same in every later state. */
  lemma SettlementOnlyMovesForward(s: Sys, initial: C.Stock, actions: seq<Action>, id: Id, status: Status)
    requires Reachable(s, initial) && id in s.claims
    requires status in SettlementRows(s.trade, s.claims[id].orderNo, id)
    ensures SettlementRows(s.trade, s.claims[id].orderNo, id) == {status}
    ensures exists later | later in {PendingPayment, PaymentProcessing, Paid} ::
      && SettlementRows(Run(s, actions).trade, s.claims[id].orderNo, id) == {later}
      && (status != PaymentProcessing ==> later == status)
  {
    ReachableHolds(s, initial);
    RunKeeps(s, initial, actions);
    var s' := Run(s, actions);
    var no := s.claims[id].orderNo;
    SettlementIsAFunction(s.trade, s.claims, no, id, status);
    assert OnOrder(s.trade, s.claims, id) <==> id !in s.trade.history;
    assert OnOrder(s'.trade, s'.claims, id) <==> id !in s'.trade.history;
    var later := if id in s'.trade.history then PendingPayment else s'.trade.orders[no].status;
    SettlementIsAFunction(s'.trade, s'.claims, no, id, later);
  }

  function PaidQuantity(sku: Id): Order -> int {
    (o: Order) => if o.status == Paid then CI.Quantity(o.items, sku) else 0
  }

  /** The reservation an order row names (0 where there is none). */
  function ReservationOn(t: Trade): Id -> Id {
    no => if no in t.orders && t.orders[no].payment.Some? then t.orders[no].payment.value.reservationId else 0
  }

  /** No overselling: what is left of a SKU plus everything paid for never exceeds what there was. */
  lemma NoOverselling(s: Sys, initial: C.Stock, sku: Id)
    requires Reachable(s, initial) && sku in initial
    ensures sku in s.catalog.stock
    ensures s.catalog.stock[sku] + MapSum(s.trade.orders, PaidQuantity(sku)) <= initial[sku]
  {
    ReachableHolds(s, initial);
    PaidWithinHeld(s, sku);
  }

  lemma PaidWithinHeld(s: Sys, sku: Id)
    requires TradeInv(s.trade, s.claims) && GroupsTrue(s) && PaidIsHeld(s)
    ensures MapSum(s.trade.orders, PaidQuantity(sku)) <= CI.Held(s.catalog, sku)
  {
    var t := s.trade;
    var paid := set no | no in t.orders && t.orders[no].status == Paid;
    var f, g, h := At(t.orders, PaidQuantity(sku)), At(s.catalog.groups, CI.HeldOf(sku)), ReservationOn(t);
    forall no | no in paid ensures h(no) in s.catalog.groups.Keys && f(no) <= g(h(no)) {
      var a := t.orders[no].payment.value;
      HeldReservationIsNotReleased(s, no, a);
      assert GroupTrue(s, a.reservationId, s.catalog.groups[a.reservationId]);
    }
    forall i, j | i in paid && j in paid && h(i) == h(j) ensures i == j {
      assert Confirms(t, h(i), t.outbox[h(i)]) && Confirms(t, h(j), t.outbox[h(j)]);
    }
    SumInjection(paid, f, s.catalog.groups.Keys, g, h);
    SumSubset(paid, t.orders.Keys, f);
  }

  ghost predicate HasLease(s: Sys, no: Id, a: Attempt, token: Id, until: int) {
    && no in s.trade.orders
    && s.trade.orders[no].status == PaymentProcessing
    && s.trade.orders[no].payment == Some(a)
    && s.trade.orders[no].recoveryToken == Some(token)
    && s.trade.orders[no].leaseUntil == Some(until)
  }

  /** The attempt was settled or reset: no lease on it matters any more. */
  ghost predicate Resolved(s: Sys, no: Id, a: Attempt) {
    && no in s.trade.orders
    && a.id in s.claims && s.claims[a.id].orderNo == no && s.claims[a.id].reservationId == a.reservationId
    && (s.trade.orders[no].status == Paid || a.id in s.trade.history)
  }

  /** Neither gives the lease up nor asks for it before it runs out. */
  predicate LeavesLease(action: Action, no: Id, token: Id, until: int) {
    && (action.LeaseOrder? && action.no == no ==> action.now < until)
    && (action.RecoverReset? ==> action.token != token)
    && (action.RecoverDone? ==> action.token != token)
  }

  lemma CatalogLeavesTrade(s: Sys, action: Action)
    requires !OnTrade(action)
    ensures Apply(s, action).trade == s.trade
  {
  }

  /** What an action leaves of an order row: the row itself, PAID, or cleared with its attempt in the history. */
  lemma RowAfter(s: Sys, action: Action, no: Id)
    requires PaymentsClaimed(s.trade, s.claims) && ClaimsAccounted(s.trade, s.claims)
    requires HistoryClaimed(s.trade, s.claims) && ReservationsDistinct(s.claims)
    requires no in s.trade.orders && s.trade.orders[no].status == PaymentProcessing && s.trade.orders[no].payment.Some?
    ensures var t', o := Apply(s, action).trade, s.trade.orders[no];
      && no in t'.orders
      && (|| t'.orders[no] == o
          || t'.orders[no].status == Paid
          || o.payment.value.id in t'.history
          || (action.LeaseOrder? && action.no == no && Stale(o, action.now, action.lease))
          || (action.RecoverDone? && o.recoveryToken == Some(action.token)))
  {
    if OnTrade(action) {
      HeldAttemptIsNew(s.trade, s.claims, no, s.trade.orders[no].payment.value);
    } else {
      CatalogLeavesTrade(s, action);
    }
  }

  lemma ActionLeavesLease(s: Sys, initial: C.Stock, action: Action, no: Id, a: Attempt, token: Id, until: int)
    requires SagaInv(s, initial) && HasLease(s, no, a, token, until) && LeavesLease(action, no, token, until)
    ensures HasLease(Apply(s, action), no, a, token, until) || Resolved(Apply(s, action), no, a)
  {
    RowAfter(s, action, no);
    ActionKeeps(s, initial, action);
  }

  /** While a recovery lease runs, nobody else can take it: the claim is resolved or still the holder's. */
  lemma {:induction false} HolderKeepsLease(
    s: Sys, initial: C.Stock, actions: seq<Action>, no: Id, a: Attempt, token: Id, until: int)
    requires SagaInv(s, initial) && HasLease(s, no, a, token, until)
    requires forall i | 0 <= i < |actions| :: LeavesLease(actions[i], no, token, until)
    ensures HasLease(Run(s, actions), no, a, token, until) || Resolved(Run(s, actions), no, a)
    decreases |actions|
  {
    if actions != [] {
      var s' := Apply(s, actions[0]);
      ActionKeeps(s, initial, actions[0]);
      ActionLeavesLease(s, initial, actions[0], no, a, token, until);
      if HasLease(s', no, a, token, until) {
        HolderKeepsLease(s', initial, actions[1..], no, a, token, until);
      } else {
        RunKeeps(s', initial, actions[1..]);
      }
    }
  }

  /** A settled or reset attempt stays so, and is never again the one in progress on its order. */
  lemma ResolvedIsFinal(s: Sys, initial: C.Stock, no: Id, a: Attempt, actions: seq<Action>)
    requires Reachable(s, initial) && Resolved(s, no, a)
    ensures var s' := Run(s, actions);
      && Resolved(s', no, a)
      && !(s'.trade.orders[no].status == PaymentProcessing && s'.trade.orders[no].payment == Some(a))
  {
    ReachableHolds(s, initial);
    RunKeeps(s, initial, actions);
    var s' := Run(s, actions);
    assert OnOrder(s'.trade, s'.claims, a.id) <==> a.id !in s'.trade.history;
  }

  /** A consumed confirmation took effect. */
  ghost predicate ConsumedConfirmed(c: C.Catalog) {
    forall rid | rid in c.consumed :: rid in c.groups && c.groups[rid].status == C.Confirmed
  }

  lemma StaysConfirmed(c: C.Catalog, c': C.Catalog)
    requires ConsumedConfirmed(c) && CI.CatalogForward(c, c')
    ensures forall rid | rid in c.consumed :: rid in c'.groups && c'.groups[rid].status == C.Confirmed
  {
  }

  /** A confirmation is consumed only as its stock becomes CONFIRMED. */
  lemma ConsumedIsConfirmed(c: C.Catalog, eventId: Id, orderNo: Id, attemptId: Id)
    ensures var c' := C.ConfirmConsumed(c, eventId, eventId, orderNo, attemptId).0;
      forall rid | rid in c'.consumed && rid !in c.consumed :: rid in c'.groups && c'.groups[rid].status == C.Confirmed
  {
  }

  lemma OnlyConfirmsConsume(s: Sys, action: Action)
    ensures action.DeliverConfirm? || Apply(s, action).catalog.consumed == s.catalog.consumed
  {
  }

  lemma ActionKeepsConsumed(s: Sys, initial: C.Stock, action: Action)
    requires SagaInv(s, initial) && ConsumedConfirmed(s.catalog)
    ensures ConsumedConfirmed(Apply(s, action).catalog)
  {
    ActionKeeps(s, initial, action);
    OnlyConfirmsConsume(s, action);
    StaysConfirmed(s.catalog, Apply(s, action).catalog);
    if action.DeliverConfirm? {
      ConsumedIsConfirmed(s.catalog, action.reservationId, action.confirmation.orderNo, action.confirmation.attemptId);
    }
  }

  lemma {:induction false} RunKeepsConsumed(s: Sys, initial: C.Stock, actions: seq<Action>)
    requires SagaInv(s, initial) && ConsumedConfirmed(s.catalog)
    ensures ConsumedConfirmed(Run(s, actions).catalog)
    decreases |actions|
  {
    if actions != [] {
      ActionKeeps(s, initial, actions[0]);
      ActionKeepsConsumed(s, initial, actions[0]);
      RunKeepsConsumed(Apply(s, actions[0]), initial, actions[1..]);
    }
  }

  lemma ConsumedMeansConfirmed(s: Sys, initial: C.Stock)
    requires Reachable(s, initial)
    ensures ConsumedConfirmed(s.catalog)
  {
    var s0, actions :| Genesis(s0) && s0.catalog.stock == initial && s == Run(s0, actions);
    GenesisHolds(s0);
    RunKeepsConsumed(s0, initial, actions);
  }

  /** However late, often or early a confirmation is delivered: its consumer succeeds and the stock is CONFIRMED. */
  lemma DeliveredConfirmationSucceeds(s: Sys, initial: C.Stock, rid: Id, c: Confirmation)
    requires Reachable(s, initial) && ConfirmSent(rid, c) in s.net
    ensures var (after, ok) := C.ConfirmConsumed(s.catalog, rid, rid, c.orderNo, c.attemptId);
      ok && rid in after.consumed && rid in after.groups && after.groups[rid].status == C.Confirmed
  {
    ReachableHolds(s, initial);
    ConsumedMeansConfirmed(s, initial);
    assert True(s, ConfirmSent(rid, c));
    HeldReservationIsNotReleased(s, c.orderNo, Attempt(c.attemptId, rid));
    assert GroupTrue(s, rid, s.catalog.groups[rid]);
  }

  /** Every confirmation in the outbox has been consumed. */
  ghost predicate Drained(s: Sys) {
    forall rid | rid in s.trade.outbox :: rid in s.catalog.consumed
  }

  /** With the outbox drained, exactly the PAID orders' reservations are CONFIRMED. */
  lemma DrainedMeansConfirmed(s: Sys, initial: C.Stock, rid: Id)
    requires Reachable(s, initial) && Drained(s)
    ensures (rid in s.catalog.groups && s.catalog.groups[rid].status == C.Confirmed) <==>
      exists no | no in s.trade.orders ::
        s.trade.orders[no].status == Paid && s.trade.orders[no].payment.Some?
        && s.trade.orders[no].payment.value.reservationId == rid
  {
    ReachableHolds(s, initial);
    ConsumedMeansConfirmed(s, initial);
    if rid in s.catalog.groups && s.catalog.groups[rid].status == C.Confirmed {
      ConfirmedMeansPaid(s, initial, rid);
      assert s.trade.orders[s.catalog.groups[rid].orderNo].status == Paid;
    }
  }

  /** The order row a reservation was made for. */
  function OrderOf(c: C.Catalog): Id -> Id {
    rid => if rid in c.groups then c.groups[rid].orderNo else 0
  }

  /** All settled: the outbox is drained and no reservation is left undecided. */
  ghost predicate AtRest(s: Sys) {
    Drained(s) && forall rid | rid in s.catalog.groups :: s.catalog.groups[rid].status != C.Reserved
  }

  /** At rest the books balance to the item: stock left plus what was paid for is the initial stock. */
  lemma RestingStockBalances(s: Sys, initial: C.Stock, sku: Id)
    requires Reachable(s, initial) && AtRest(s) && sku in initial
    ensures sku in s.catalog.stock
    ensures s.catalog.stock[sku] + MapSum(s.trade.orders, PaidQuantity(sku)) == initial[sku]
  {
    ReachableHolds(s, initial);
    PaidWithinHeld(s, sku);
    HeldWithinPaid(s, sku);
  }

  lemma HeldWithinPaid(s: Sys, sku: Id)
    requires TradeInv(s.trade, s.claims) && GroupsTrue(s) && AtRest(s)
    ensures CI.Held(s.catalog, sku) <= MapSum(s.trade.orders, PaidQuantity(sku))
  {
    var c := s.catalog;
    var held := set rid | rid in c.groups && c.groups[rid].status == C.Confirmed;
    var f, g, h := At(c.groups, CI.HeldOf(sku)), At(s.trade.orders, PaidQuantity(sku)), OrderOf(c);
    forall rid | rid in held ensures h(rid) in s.trade.orders.Keys && f(rid) <= g(h(rid)) {
      assert GroupTrue(s, rid, c.groups[rid]);
    }
    forall q, r | q in held && r in held && h(q) == h(r) ensures q == r {
      assert GroupTrue(s, q, c.groups[q]) && GroupTrue(s, r, c.groups[r]);
    }
    SumInjection(held, f, s.trade.orders.Keys, g, h);
    forall rid | rid in c.groups && rid !in held ensures f(rid) == 0 {
      assert c.groups[rid].status == C.Released;
    }
    SumSubset(held, c.groups.Keys, f);
  }
}
