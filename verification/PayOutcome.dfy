/**
 What a payment nobody disturbs must come to, read off the tables before it: the answer to its caller, and what
 becomes of order, wallet and stock.
 */
module PayOutcome {
  import opened Wrappers
  import T = Trade
  import TI = TradeInvariants
  import C = Catalog
  import CI = CatalogInvariants
  import S = Saga
  import SI = SagaInvariants
  import ST = SagaTheorems

  type Id = T.Id

  datatype Code =
    | InvalidArgument | NotFound | OutOfStock | InsufficientBalance | PaymentInProgress | IdempotencyConflict
    | DependencyTimeout | Internal

  datatype PayResult = Success(order: T.Order) | Failed(code: Code)

  predicate Affordable(t: T.Trade, user: Id, total: nat) {
    total == 0 || (user in t.wallets && t.wallets[user].balance >= total)
  }

  /** What product-service asks of a reservation request. */
  predicate Requestable(items: seq<T.Item>, expiresAt: int, now: int) {
    && 0 < |items| <= 100 && expiresAt > now
    && (forall i | 0 <= i < |items| :: items[i].quantity > 0)
    && (forall i, j | 0 <= i < j < |items| :: items[i].sku != items[j].sku)
  }

  predicate InStock(stock: C.Stock, items: seq<T.Item>) {
    forall i | 0 <= i < |items| :: items[i].sku in stock && items[i].quantity <= stock[items[i].sku]
  }

  /** The databases and everything in flight are as they were. */
  ghost predicate Untouched(s: S.Sys, s': S.Sys) {
    s'.trade == s.trade && s'.catalog == s.catalog && s'.net == s.net && s'.claims == s.claims
  }

  /** The row of an order whose claim was taken, without its claim. */
  function Unclaimed(o: T.Order): T.Order {
    o.(status := T.PendingPayment, payment := None, startedAt := None)
  }

  /** The order is as before its claim, the attempt is filed, and wallets and stock are what they were. */
  ghost predicate GivenUp(s: S.Sys, s': S.Sys, no: Id, a: T.Attempt) {
    && no in s.trade.orders
    && s'.trade.orders == s.trade.orders[no := Unclaimed(s.trade.orders[no])]
    && s'.trade.history == s.trade.history[a.id := T.History(no, a.reservationId, T.PendingPayment)]
    && s'.trade.wallets == s.trade.wallets && s'.trade.ledger == s.trade.ledger && s'.trade.outbox == s.trade.outbox
    && s'.catalog.stock == s.catalog.stock
    && (a.reservationId in s'.catalog.groups ==> s'.catalog.groups[a.reservationId].status == C.Released)
  }

  /** The order is PAID in full under this attempt, its total debited and its confirmation written, once each. */
  ghost predicate PaidFor(t: T.Trade, t': T.Trade, user: Id, no: Id, a: T.Attempt, startedAt: Option<int>) {
    && no in t.orders
    && t'.orders == t.orders[no := t.orders[no].(status := T.Paid, payment := Some(a), startedAt := startedAt,
                                                 paidAmount := t.orders[no].total)]
    && (forall u :: TI.Balance(t', u) == TI.Balance(t, u) - if u == user then t.orders[no].total else 0)
    && t'.ledger == (if t.orders[no].total == 0 then t.ledger
                     else t.ledger[no := T.Debit(user, t.orders[no].total)])
    && t'.outbox == t.outbox[a.reservationId := T.Confirmation(no, a.id)]
    && t'.history == t.history
  }

  /** Every item of the order left the stock and is held under this attempt. */
  ghost predicate TakenFor(c: C.Catalog, c': C.Catalog, no: Id, a: T.Attempt, items: seq<T.Item>) {
    && c'.stock.Keys == c.stock.Keys
    && (forall sku | sku in c.stock :: c'.stock[sku] == c.stock[sku] - CI.Quantity(items, sku))
    && a.reservationId in c'.groups
    && c'.groups[a.reservationId].orderNo == no && c'.groups[a.reservationId].attemptId == a.id
    && c'.groups[a.reservationId].items == items && c'.groups[a.reservationId].status == C.Reserved
    && (forall rid | rid in c.groups :: rid in c'.groups && c'.groups[rid] == c.groups[rid])
  }

  /** A payable order: what stock and balance call for. A request product-service refuses is left to recovery. */
  ghost predicate Pays(
    s: S.Sys, s': S.Sys, user: Id, no: Id, a: T.Attempt, now: int, expiresAt: int, shopNow: int, r: PayResult)
    requires no in s.trade.orders
  {
    var o := s.trade.orders[no];
    if !Requestable(o.items, expiresAt, shopNow) then
      && r == Failed(Internal)
      && s'.catalog == s.catalog
      && s'.trade.orders ==
           s.trade.orders[no := o.(status := T.PaymentProcessing, payment := Some(a), startedAt := Some(now))]
    else if !InStock(s.catalog.stock, o.items) then r == Failed(OutOfStock) && GivenUp(s, s', no, a)
    else if !Affordable(s.trade, user, o.total) then r == Failed(InsufficientBalance) && GivenUp(s, s', no, a)
    else
      && r == Success(o.(status := T.Paid, payment := Some(a), startedAt := Some(now), paidAmount := o.total))
      && PaidFor(s.trade, s'.trade, user, no, a, Some(now))
      && TakenFor(s.catalog, s'.catalog, no, a, o.items)
  }

  /** The whole answer, by the order's row. */
  ghost predicate Answers(
    s: S.Sys, s': S.Sys, user: Id, no: Id, a: T.Attempt, now: int, expiresAt: int, shopNow: int, r: PayResult)
  {
    if no !in s.trade.orders || s.trade.orders[no].userId != user then r == Failed(NotFound) && Untouched(s, s')
    else
      match s.trade.orders[no].status
      case Paid => r == Success(s.trade.orders[no]) && Untouched(s, s')
      case PaymentProcessing => r == Failed(PaymentInProgress) && Untouched(s, s')
      case Closed => r == Failed(IdempotencyConflict) && Untouched(s, s')
      case PendingPayment => Pays(s, s', user, no, a, now, expiresAt, shopNow, r)
  }

  /** The claim given up, and on request the stock held for it. */
  function GiveUp(s: S.Sys, user: Id, no: Id, a: T.Attempt, release: bool): S.Sys {
    var reset := S.DoResetOrder(s, user, no, a, release);
    if release then S.DoDeliverRelease(reset, a) else reset
  }

  /** How a settlement and what follows it end. */
  ghost predicate EndsSettled(s: S.Sys, s': S.Sys, user: Id, no: Id, a: T.Attempt, r: PayResult) {
    var settled := T.SettleWalletPayment(s.trade, user, no, a).1;
    && (settled.Settled? ==>
          s' == S.DoSettle(s, user, no, a) && no in s'.trade.orders && r == Success(s'.trade.orders[no]))
    && (settled.Insufficient? ==> s' == GiveUp(s, user, no, a, true) && r == Failed(InsufficientBalance))
  }

  /** How the stock's answer and what follows it end. */
  ghost predicate EndsReserved(
    s: S.Sys, s': S.Sys, user: Id, no: Id, a: T.Attempt, reply: C.ReserveResult, r: PayResult)
  {
    && (reply.ReserveInvalid? ==> s' == s && r == Failed(Internal))
    && (reply.OutOfStock? ==> s' == GiveUp(s, user, no, a, false) && r == Failed(OutOfStock))
    && (reply.Holding? && reply.group.status == C.Reserved ==> EndsSettled(s, s', user, no, a, r))
  }

  /** How asking for the stock and what follows it end. */
  ghost predicate EndsAsked(
    s: S.Sys, s': S.Sys, user: Id, no: Id, a: T.Attempt, q: C.ReserveRequest, shopNow: int, r: PayResult)
  {
    EndsReserved(S.DoReserve(s, q, shopNow), s', user, no, a, C.ReserveStock(s.catalog, q, shopNow).1, r)
  }

  /** Stock suffices exactly when every item is there; distinct items do not compete. */
  lemma {:induction false} DeductsIfInStock(stock: C.Stock, items: seq<T.Item>)
    requires forall i, j | 0 <= i < j < |items| :: items[i].sku != items[j].sku
    ensures C.Deduct(stock, items).Some? <==> InStock(stock, items)
    decreases |items|
  {
    if items != [] {
      var i := items[0];
      if i.sku in stock && stock[i.sku] >= i.quantity {
        var left := stock[i.sku := stock[i.sku] - i.quantity];
        DeductsIfInStock(left, items[1..]);
        forall k | 0 < k < |items| ensures items[k] == items[1..][k - 1] && items[k].sku != i.sku {}
      }
    }
  }

  lemma RequestableIsValid(q: C.ReserveRequest, now: int)
    ensures C.ValidRequest(q, now) <==> Requestable(q.items, q.expiresAt, now)
  {
  }

  lemma FreshIsNew(s: S.Sys, initial: C.Stock, a: T.Attempt)
    requires ST.Reachable(s, initial) && S.FreshAttempt(s, a)
    ensures a.reservationId !in s.catalog.groups && a.id !in s.claims && a.id !in s.trade.history
    ensures forall no :: !T.Collides(s.trade, no, a)
  {
    ST.ReachableHolds(s, initial);
    forall rid | rid in s.catalog.groups ensures rid in s.used {
      assert SI.GroupTrue(s, rid, s.catalog.groups[rid]);
    }
  }

  /** A payable order is claimed: nothing else about it changes, and nothing else. */
  lemma ClaimTakes(s: S.Sys, initial: C.Stock, user: Id, no: Id, a: T.Attempt, now: int, expiresAt: int)
    requires ST.Reachable(s, initial) && S.FreshAttempt(s, a)
    requires no in s.trade.orders && s.trade.orders[no].userId == user && s.trade.orders[no].status == T.PendingPayment
    ensures var s', o := S.DoClaim(s, user, no, a, now, expiresAt), s.trade.orders[no];
      var claimed := Claimed(o, a, now);
      && T.ClaimPayment(s.trade, user, no, a, now).1 == T.Claimed(claimed)
      && s'.trade == s.trade.(orders := s.trade.orders[no := claimed]) && s'.catalog == s.catalog
      && T.Holds(s'.trade, user, no, a)
      && ST.Reachable(s', initial)
  {
    FreshIsNew(s, initial, a);
    ClaimIsReachable(s, initial, user, no, a, now, expiresAt);
  }

  lemma ClaimIsReachable(s: S.Sys, initial: C.Stock, user: Id, no: Id, a: T.Attempt, now: int, expiresAt: int)
    requires ST.Reachable(s, initial)
    ensures ST.Reachable(S.DoClaim(s, user, no, a, now, expiresAt), initial)
  {
    var actions := [S.ClaimOrder(user, no, a, now, expiresAt)];
    assert actions[1..] == [] && S.Run(s, actions) == S.DoClaim(s, user, no, a, now, expiresAt);
    ST.ReachableRun(s, initial, actions);
  }

  /** Any other order is left alone, with the answer its row calls for. */
  lemma UnclaimedIsUntouched(s: S.Sys, user: Id, no: Id, a: T.Attempt, now: int, expiresAt: int)
    requires no in s.trade.orders && s.trade.orders[no].userId == user ==>
      s.trade.orders[no].status != T.PendingPayment
    ensures Untouched(s, S.DoClaim(s, user, no, a, now, expiresAt))
  {
  }

  /** The group was reserved by this very request. */
  predicate MadeBy(g: C.Group, q: C.ReserveRequest) {
    g.orderNo == q.orderNo && g.attemptId == q.attemptId && g.items == q.items && g.expiresAt == q.expiresAt
  }

  /**
   A reservation request, by the tables: a fresh one is held exactly when every item is in stock, a repeated one is
   answered with its group, and one for a group of another request is refused.
   */
  lemma ReserveTakes(c: C.Catalog, q: C.ReserveRequest, now: int)
    ensures var (c', reply) := C.ReserveStock(c, q, now);
      if !Requestable(q.items, q.expiresAt, now) then reply == C.ReserveInvalid && c' == c
      else if q.reservationId in c.groups then
        var g := c.groups[q.reservationId];
        reply == (if MadeBy(g, q) then C.Holding(g) else C.Conflict) && c' == c
      else if InStock(c.stock, q.items) then
        && reply == C.Holding(C.NewGroup(q))
        && TakenFor(c, c', q.orderNo, T.Attempt(q.attemptId, q.reservationId), q.items)
        && c'.groups == c.groups[q.reservationId := C.NewGroup(q)]
      else reply == C.OutOfStock && c' == c
  {
    RequestableIsValid(q, now);
    if Requestable(q.items, q.expiresAt, now) {
      DeductsIfInStock(c.stock, q.items);
      if InStock(c.stock, q.items) {
        CI.DeductTakes(c.stock, q.items);
      }
    }
  }

  /** A held claim whose keys are free settles exactly when it can be afforded, and moves just its money. */
  lemma SettleMoves(t: T.Trade, user: Id, no: Id, a: T.Attempt)
    requires T.Holds(t, user, no, a) && !T.SettleWalletPayment(t, user, no, a).1.SettleStoreError?
    ensures var (t', settled) := T.SettleWalletPayment(t, user, no, a);
      if Affordable(t, user, t.orders[no].total) then
        settled.Settled? && PaidFor(t, t', user, no, a, t.orders[no].startedAt)
      else settled.Insufficient? && t' == t
  {
  }

  /** A settlement, by the order's row: once the stock was seen held, no claim in progress meets any other end. */
  lemma SettlesByTheRow(s: S.Sys, initial: C.Stock, user: Id, no: Id, a: T.Attempt)
    requires ST.Reachable(s, initial) && S.SeenReserved(a) in s.net
    ensures var (t', settled) := T.SettleWalletPayment(s.trade, user, no, a);
      if no !in s.trade.orders || s.trade.orders[no].userId != user then settled.SettleNotFound? && t' == s.trade
      else
        var o := s.trade.orders[no];
        if o.status == T.Paid then settled == T.WasPaid(o) && t' == s.trade
        else if o.status != T.PaymentProcessing || o.payment != Some(a) then settled.SettleInProgress? && t' == s.trade
        else if Affordable(s.trade, user, o.total) then
          settled == T.Settled(o.(status := T.Paid, paidAmount := o.total))
          && PaidFor(s.trade, t', user, no, a, o.startedAt)
        else settled.Insufficient? && t' == s.trade
  {
    if T.Holds(s.trade, user, no, a) {
      ClaimSettles(s, initial, user, no, a);
      SettleMoves(s.trade, user, no, a);
    }
  }

  lemma ClaimSettles(s: S.Sys, initial: C.Stock, user: Id, no: Id, a: T.Attempt)
    requires ST.Reachable(s, initial) && S.SeenReserved(a) in s.net && T.Holds(s.trade, user, no, a)
    ensures !T.SettleWalletPayment(s.trade, user, no, a).1.SettleStoreError?
  {
    ST.ReachableHolds(s, initial);
    TI.SettleNeverHitsAUniqueKey(s.trade, s.claims, user, no, a);
  }

  lemma {:induction false} RestoreUndoesDeduct(stock: C.Stock, left: C.Stock, items: seq<T.Item>)
    requires C.Deduct(stock, items) == Some(left)
    ensures C.Restore(left, items) == Some(stock)
  {
    CI.DeductTakes(stock, items);
    CI.RestoreGivesBack(left, items);
    var back := C.Restore(left, items).value;
    forall sku | sku in stock ensures back[sku] == stock[sku] {}
    assert back == stock;
  }

  /** Both resets of a held claim leave the row as before the claim and file the attempt. */
  lemma ResetClears(s: S.Sys, initial: C.Stock, user: Id, no: Id, a: T.Attempt, release: bool)
    requires ST.Reachable(s, initial) && T.Holds(s.trade, user, no, a)
    ensures var s' := S.DoResetOrder(s, user, no, a, release);
      && s'.trade == s.trade.(orders := s.trade.orders[no := Unclaimed(s.trade.orders[no])],
                              history := s.trade.history[a.id := T.History(no, a.reservationId, T.PendingPayment)])
      && s'.catalog == s.catalog && (release ==> S.ReleaseSent(a) in s'.net)
  {
    ST.ReachableHolds(s, initial);
    TI.HeldAttemptIsNew(s.trade, s.claims, no, a);
  }

  /** Releasing the group just reserved puts back exactly what it took. */
  lemma ReleasePutsBack(c: C.Catalog, q: C.ReserveRequest)
    requires C.Hold(c, q).1.Holding?
    ensures var back := C.ReleaseReservation(C.Hold(c, q).0, q.reservationId).0;
      && back.stock == c.stock
      && q.reservationId in back.groups && back.groups[q.reservationId].status == C.Released
  {
    RestoreUndoesDeduct(c.stock, C.Deduct(c.stock, q.items).value, q.items);
  }

  /** A claim whose stock was not to be had is given up: the row is as it was, the catalog too. */
  lemma OutOfStockGivesUp(s: S.Sys, s1: S.Sys, initial: C.Stock, user: Id, no: Id, a: T.Attempt)
    requires ST.Reachable(s1, initial) && T.Holds(s1.trade, user, no, a)
    requires no in s.trade.orders && s1.catalog == s.catalog && a.reservationId !in s.catalog.groups
    requires s1.trade == s.trade.(orders := s.trade.orders[no := s1.trade.orders[no]])
    requires Unclaimed(s1.trade.orders[no]) == Unclaimed(s.trade.orders[no])
    ensures GivenUp(s, GiveUp(s1, user, no, a, false), no, a)
  {
    ResetClears(s1, initial, user, no, a, false);
  }

  /** A claim that could not be afforded is given up together with the stock reserved for it. */
  lemma InsufficientGivesUp(
    s: S.Sys, s2: S.Sys, initial: C.Stock, user: Id, no: Id, a: T.Attempt, q: C.ReserveRequest)
    requires ST.Reachable(s2, initial) && T.Holds(s2.trade, user, no, a)
    requires no in s.trade.orders && q.reservationId == a.reservationId
    requires C.Hold(s.catalog, q).1.Holding? && s2.catalog == C.Hold(s.catalog, q).0
    requires s2.trade == s.trade.(orders := s.trade.orders[no := s2.trade.orders[no]])
    requires Unclaimed(s2.trade.orders[no]) == Unclaimed(s.trade.orders[no])
    ensures GivenUp(s, GiveUp(s2, user, no, a, true), no, a)
  {
    ResetClears(s2, initial, user, no, a, true);
    ReleasePutsBack(s.catalog, q);
  }

  lemma DeliverIsReachable(s: S.Sys, initial: C.Stock, q: C.ReserveRequest, now: int)
    requires ST.Reachable(s, initial)
    ensures ST.Reachable(S.DoReserve(s, q, now), initial)
  {
    var actions := [S.DeliverReserve(q, now)];
    assert actions[1..] == [] && S.Run(s, actions) == S.DoReserve(s, q, now);
    ST.ReachableRun(s, initial, actions);
  }

  /** With the stock held, the settlement decides by the balance. */
  lemma HeldPays(
    s: S.Sys, s2: S.Sys, s': S.Sys, initial: C.Stock, user: Id, no: Id, a: T.Attempt, q: C.ReserveRequest, now: int,
    expiresAt: int, shopNow: int, r: PayResult)
    requires ST.Reachable(s2, initial) && S.SeenReserved(a) in s2.net
    requires no in s.trade.orders && s.trade.orders[no].userId == user && s.trade.orders[no].status == T.PendingPayment
    requires s2.trade == s.trade.(orders := s.trade.orders[no := Claimed(s.trade.orders[no], a, now)])
    requires q == C.ReserveRequest(a.reservationId, no, a.id, s.trade.orders[no].items, expiresAt)
    requires C.Hold(s.catalog, q).1.Holding? && s2.catalog == C.Hold(s.catalog, q).0
    requires TakenFor(s.catalog, s2.catalog, no, a, q.items)
    requires Requestable(q.items, expiresAt, shopNow) && InStock(s.catalog.stock, q.items)
    requires EndsSettled(s2, s', user, no, a, r)
    ensures Pays(s, s', user, no, a, now, expiresAt, shopNow, r)
  {
    ClaimSettles(s2, initial, user, no, a);
    SettleMoves(s2.trade, user, no, a);
    if !Affordable(s.trade, user, s.trade.orders[no].total) {
      InsufficientGivesUp(s, s2, initial, user, no, a, q);
    }
  }

  /** The row of an order under a claim. */
  function Claimed(o: T.Order, a: T.Attempt, now: int): T.Order {
    o.(status := T.PaymentProcessing, payment := Some(a), startedAt := Some(now))
  }

  /** A payable order's payment ends as the tables call for. */
  lemma ClaimedPays(
    s: S.Sys, s1: S.Sys, s': S.Sys, initial: C.Stock, user: Id, no: Id, a: T.Attempt, now: int, expiresAt: int,
    shopNow: int, r: PayResult)
    requires ST.Reachable(s, initial) && S.FreshAttempt(s, a)
    requires no in s.trade.orders && s.trade.orders[no].userId == user && s.trade.orders[no].status == T.PendingPayment
    requires s1 == S.DoClaim(s, user, no, a, now, expiresAt)
    requires EndsAsked(
      s1, s', user, no, a, S.RequestFor(Claimed(s.trade.orders[no], a, now), no, a, expiresAt), shopNow, r)
    ensures Pays(s, s', user, no, a, now, expiresAt, shopNow, r)
  {
    var q := S.RequestFor(Claimed(s.trade.orders[no], a, now), no, a, expiresAt);
    FreshIsNew(s, initial, a);
    ClaimTakes(s, initial, user, no, a, now, expiresAt);
    RequestableIsValid(q, shopNow);
    if Requestable(q.items, expiresAt, shopNow) {
      ReserveTakes(s.catalog, q, shopNow);
      DeliverIsReachable(s1, initial, q, shopNow);
      if InStock(s.catalog.stock, q.items) {
        HeldPays(s, S.DoReserve(s1, q, shopNow), s', initial, user, no, a, q, now, expiresAt, shopNow, r);
      } else {
        OutOfStockGivesUp(s, s1, initial, user, no, a);
      }
    }
  }
}
