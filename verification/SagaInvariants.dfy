/** The invariant of the whole saga, action by action. */
module SagaInvariants {
  import opened Wrappers
  import opened Trade
  import opened TradeInvariants
  import opened Saga
  import C = Catalog
  import CI = CatalogInvariants

  /** What a message in flight commits the two databases to, for good. */
  ghost predicate True(s: Sys, m: Msg) {
    match m
    case ReserveSent(q) =>
      q.attemptId in s.claims && s.claims[q.attemptId] == Claim(q.orderNo, q.reservationId, q.items)
    case SeenReserved(a) => a.reservationId in s.catalog.groups && s.catalog.groups[a.reservationId].attemptId == a.id
    case ReleaseSent(a) =>
      a.id in s.claims && s.claims[a.id].reservationId == a.reservationId && a.id in s.trade.history
    case ConfirmSent(rid, c) => Confirms(s.trade, rid, c)
    case StatusSaid(no, id, status) =>
      && id in s.claims && s.claims[id].orderNo == no && status != Closed
      && (status == PendingPayment ==> id in s.trade.history)
      && (status == Paid ==> Confirms(s.trade, s.claims[id].reservationId, Confirmation(no, id)))
  }

  ghost predicate MessagesTrue(s: Sys) {
    forall m | m in s.net :: True(s, m)
  }

  /** A reservation belongs to one attempt; RELEASED means that attempt was reset, CONFIRMED that it paid. */
  ghost predicate GroupTrue(s: Sys, rid: Id, g: C.Group) {
    && g.attemptId in s.claims
    && s.claims[g.attemptId] == Claim(g.orderNo, rid, g.items)
    && (g.status == C.Released ==> g.attemptId in s.trade.history)
    && (g.status == C.Confirmed ==> Confirms(s.trade, rid, Confirmation(g.orderNo, g.attemptId)))
  }

  ghost predicate GroupsTrue(s: Sys) {
    forall rid | rid in s.catalog.groups :: GroupTrue(s, rid, s.catalog.groups[rid])
  }

  /** Every PAID order still has its stock held for it. */
  ghost predicate PaidIsHeld(s: Sys) {
    forall no | no in s.trade.orders && s.trade.orders[no].status == Paid && s.trade.orders[no].payment.Some? ::
      && s.trade.orders[no].payment.value.reservationId in s.catalog.groups
      && s.catalog.groups[s.trade.orders[no].payment.value.reservationId].status != C.Released
  }

  ghost predicate ClaimsDrawn(s: Sys) {
    forall id | id in s.claims :: id in s.used && s.claims[id].reservationId in s.used
  }

  ghost predicate SagaInv(s: Sys, initial: C.Stock) {
    && TradeInv(s.trade, s.claims)
    && CI.CatalogInv(s.catalog, initial)
    && MessagesTrue(s)
    && GroupsTrue(s)
    && PaidIsHeld(s)
    && ClaimsDrawn(s)
  }

  ghost predicate Extends(claims: Claims, claims': Claims) {
    forall id | id in claims :: id in claims' && claims'[id] == claims[id]
  }

  /** Nothing decided is undone, and no user's wealth moves. */
  ghost predicate Advances(s: Sys, s': Sys) {
    && Forward(s.trade, s'.trade)
    && CI.CatalogForward(s.catalog, s'.catalog)
    && Extends(s.claims, s'.claims)
    && s.net <= s'.net
    && (forall user :: Wealth(s'.trade, user) == Wealth(s.trade, user))
  }

  ghost predicate Sound(s: Sys, s': Sys, initial: C.Stock) {
    SagaInv(s', initial) && Advances(s, s')
  }

  lemma GenesisHolds(s: Sys)
    requires Genesis(s)
    ensures SagaInv(s, s.catalog.stock)
  {
    forall sku | sku in s.catalog.stock ensures CI.Held(s.catalog, sku) == 0 {
      assert s.catalog.groups.Keys == {};
    }
  }

  /** Truths about both databases survive any forward move of either. */
  lemma ForwardKeepsTruth(s: Sys, s': Sys)
    requires MessagesTrue(s) && GroupsTrue(s)
    requires Forward(s.trade, s'.trade) && Extends(s.claims, s'.claims)
    requires CI.CatalogForward(s.catalog, s'.catalog)
    ensures forall m | m in s.net :: True(s', m)
    ensures s'.catalog == s.catalog ==> GroupsTrue(s')
  {
    forall m | m in s.net ensures True(s', m) {
      assert True(s, m);
    }
    if s'.catalog == s.catalog {
      forall rid | rid in s.catalog.groups ensures GroupTrue(s', rid, s.catalog.groups[rid]) {
        assert GroupTrue(s, rid, s.catalog.groups[rid]);
      }
    }
  }

  /** A trade_db transaction that pays for nothing new. */
  lemma UnpaidTradeStepKeeps(s: Sys, s': Sys, initial: C.Stock)
    requires SagaInv(s, initial)
    requires s'.catalog == s.catalog && Extends(s.claims, s'.claims) && s.net <= s'.net
    requires TradeInv(s'.trade, s'.claims) && ClaimsDrawn(s') && Quiet(s.trade, s'.trade)
    requires forall m | m in s'.net :: m in s.net || True(s', m)
    ensures Sound(s, s', initial)
  {
    ForwardKeepsTruth(s, s');
  }

  lemma NewOrderKeeps(t: Trade, t': Trade, claims: Claims, no: Id, o: Order)
    requires TradeInv(t, claims) && no !in t.orders && o.status == PendingPayment && o.payment.None?
    requires t' == t.(orders := t.orders[no := o])
    ensures TradeInv(t', claims) && Quiet(t, t')
  {
    NewOrderKeepsWealth(t, t', no, o);
    NewOrderKeepsAccounts(t, t', claims, no, o);
    NewOrderKeepsBooks(t, t', no, o);
  }

  lemma NewOrderKeepsAccounts(t: Trade, t': Trade, claims: Claims, no: Id, o: Order)
    requires ClaimsAccounted(t, claims) && no !in t.orders && t' == t.(orders := t.orders[no := o])
    ensures ClaimsAccounted(t', claims)
  {
    forall id | id in claims ensures OnOrder(t', claims, id) <==> id !in t'.history {
      assert OnOrder(t, claims, id) <==> OnOrder(t', claims, id);
    }
  }

  lemma NewOrderKeepsBooks(t: Trade, t': Trade, no: Id, o: Order)
    requires OutboxMatches(t) && LedgerMatches(t) && no !in t.orders && o.status != Paid
    requires t' == t.(orders := t.orders[no := o])
    ensures OutboxMatches(t') && LedgerMatches(t')
  {
    forall r | r in t'.outbox ensures Confirms(t', r, t'.outbox[r]) {
      assert Confirms(t, r, t.outbox[r]);
    }
  }

  lemma PlaceKeeps(s: Sys, initial: C.Stock, no: Id, user: Id, total: nat, items: seq<Item>)
    requires SagaInv(s, initial)
    ensures Sound(s, Place(s, no, user, total, items), initial)
  {
    var s' := Place(s, no, user, total, items);
    if s' != s {
      NewOrderKeeps(s.trade, s'.trade, s.claims, no, s'.trade.orders[no]);
      UnpaidTradeStepKeeps(s, s', initial);
    }
  }

  lemma ClaimedKeeps(s: Sys, s': Sys, initial: C.Stock, no: Id, a: Attempt, items: seq<Item>, q: C.ReserveRequest)
    requires SagaInv(s, initial) && FreshAttempt(s, a)
    requires s'.catalog == s.catalog && s'.net == s.net + {ReserveSent(q)}
    requires s'.used == s.used + {a.id, a.reservationId}
    requires s'.claims == s.claims[a.id := Claim(no, a.reservationId, items)]
    requires q.attemptId == a.id && q.orderNo == no && q.reservationId == a.reservationId && q.items == items
    requires TradeInv(s'.trade, s'.claims) && Quiet(s.trade, s'.trade)
    ensures Sound(s, s', initial)
  {
    UnpaidTradeStepKeeps(s, s', initial);
  }

  lemma ClaimActionKeeps(s: Sys, initial: C.Stock, user: Id, no: Id, a: Attempt, now: int, expiresAt: int)
    requires SagaInv(s, initial)
    ensures Sound(s, DoClaim(s, user, no, a, now, expiresAt), initial)
  {
    if FreshAttempt(s, a) {
      var (t, r) := ClaimPayment(s.trade, user, no, a, now);
      ClaimKeeps(s.trade, s.claims, user, no, a, now);
      ClaimMovesForward(s.trade, user, no, a, now);
      if r.Claimed? {
        ClaimedKeeps(s, DoClaim(s, user, no, a, now, expiresAt), initial, no, a, s.trade.orders[no].items,
                     RequestFor(r.order, no, a, expiresAt));
      }
    }
  }

  lemma HeldReservationIsNotReleased(s: Sys, no: Id, a: Attempt)
    requires TradeInv(s.trade, s.claims) && GroupsTrue(s)
    requires no in s.trade.orders && s.trade.orders[no].payment == Some(a)
    requires a.reservationId in s.catalog.groups
    ensures s.catalog.groups[a.reservationId].attemptId == a.id
    ensures s.catalog.groups[a.reservationId].status != C.Released
  {
    assert GroupTrue(s, a.reservationId, s.catalog.groups[a.reservationId]);
    assert OnOrder(s.trade, s.claims, a.id);
  }

  /** The settled order's stock is held, so every PAID order's still is. */
  lemma SettleKeepsHeld(s: Sys, s': Sys, user: Id, no: Id, a: Attempt)
    requires TradeInv(s.trade, s.claims) && GroupsTrue(s) && PaidIsHeld(s) && True(s, SeenReserved(a))
    requires s' == s.(trade := SettleWalletPayment(s.trade, user, no, a).0)
    ensures PaidIsHeld(s')
  {
    if s'.trade != s.trade {
      HeldReservationIsNotReleased(s, no, a);
    }
  }

  lemma SettleAdvances(s: Sys, user: Id, no: Id, a: Attempt)
    ensures Advances(s, DoSettle(s, user, no, a))
  {
    SettleMovesForward(s.trade, user, no, a);
    forall u ensures Wealth(DoSettle(s, user, no, a).trade, u) == Wealth(s.trade, u) {
      SettleConserves(s.trade, user, no, a, u);
    }
  }

  /** Settling pays only for stock that is still held: a released reservation's attempt is off the order. */
  lemma SettleActionKeeps(s: Sys, initial: C.Stock, user: Id, no: Id, a: Attempt)
    requires SagaInv(s, initial)
    ensures Sound(s, DoSettle(s, user, no, a), initial)
  {
    var s' := DoSettle(s, user, no, a);
    SettleAdvances(s, user, no, a);
    if SeenReserved(a) in s.net {
      SettleKeeps(s.trade, s.claims, user, no, a);
      ForwardKeepsTruth(s, s');
      SettleKeepsHeld(s, s', user, no, a);
    }
  }

  lemma ResetActionKeeps(s: Sys, initial: C.Stock, user: Id, no: Id, a: Attempt, release: bool)
    requires SagaInv(s, initial)
    ensures Sound(s, DoResetOrder(s, user, no, a, release), initial)
  {
    var s' := DoResetOrder(s, user, no, a, release);
    if Holds(s.trade, user, no, a) {
      ClearKeeps(s.trade, s.claims, no, a, s'.trade.orders[no]);
      UnpaidTradeStepKeeps(s, s', initial);
    }
  }

  lemma RecoverResetKeeps(s: Sys, initial: C.Stock, user: Id, no: Id, a: Attempt, token: Id, release: bool)
    requires SagaInv(s, initial)
    ensures Sound(s, DoRecoverReset(s, user, no, a, token, release), initial)
  {
    var s' := DoRecoverReset(s, user, no, a, token, release);
    if RecoveryReset(s.trade, user, no, a, token).1 {
      ClearKeeps(s.trade, s.claims, no, a, s'.trade.orders[no]);
      UnpaidTradeStepKeeps(s, s', initial);
    }
  }

  lemma LeaseActionKeeps(s: Sys, initial: C.Stock, no: Id, token: Id, now: int, lease: int)
    requires SagaInv(s, initial)
    ensures Sound(s, DoLease(s, no, token, now, lease), initial)
  {
    var s' := DoLease(s, no, token, now, lease);
    if s' != s {
      LeaseColumnsKeep(s.trade, s.claims, no, Some(token), Some(now + lease));
      UnpaidTradeStepKeeps(s, s', initial);
    }
  }

  lemma DoneActionKeeps(s: Sys, initial: C.Stock, user: Id, no: Id, a: Attempt, token: Id)
    requires SagaInv(s, initial)
    ensures Sound(s, s.(trade := RecoveryDone(s.trade, user, no, a, token)), initial)
  {
    var s' := s.(trade := RecoveryDone(s.trade, user, no, a, token));
    if s' != s {
      LeaseColumnsKeep(s.trade, s.claims, no, None, None);
      UnpaidTradeStepKeeps(s, s', initial);
    }
  }

  /** A catalog transaction keeps the invariant if the one group it may change stays truthful and, if paid, held. */
  lemma CatalogStepKeeps(s: Sys, s': Sys, initial: C.Stock, rid: Id)
    requires SagaInv(s, initial)
    requires s'.trade == s.trade && s'.claims == s.claims && s'.used == s.used && s.net <= s'.net
    requires CI.CatalogInv(s'.catalog, initial) && CI.CatalogForward(s.catalog, s'.catalog)
    requires forall r | r in s'.catalog.groups && r != rid ::
      r in s.catalog.groups && s'.catalog.groups[r] == s.catalog.groups[r]
    requires rid in s'.catalog.groups ==> GroupTrue(s', rid, s'.catalog.groups[rid])
    requires forall m | m in s'.net :: m in s.net || True(s', m)
    ensures Sound(s, s', initial)
  {
    ForwardKeepsTruth(s, s');
    forall r | r in s'.catalog.groups ensures GroupTrue(s', r, s'.catalog.groups[r]) {
      assert r != rid ==> GroupTrue(s, r, s.catalog.groups[r]);
    }
    forall no | no in s.trade.orders && s.trade.orders[no].status == Paid && s.trade.orders[no].payment.Some?
      ensures s'.catalog.groups[s.trade.orders[no].payment.value.reservationId].status != C.Released
    {
      HeldReservationIsNotReleased(s', no, s.trade.orders[no].payment.value);
    }
  }

  /** A read whose reply is true. */
  lemma ReplyKeeps(s: Sys, s': Sys, initial: C.Stock, reply: Msg)
    requires SagaInv(s, initial) && True(s, reply)
    requires s' == s.(net := s.net + {reply})
    ensures Sound(s, s', initial)
  {
    forall m | m in s'.net ensures True(s', m) {
      assert True(s, m);
    }
    forall rid | rid in s'.catalog.groups ensures GroupTrue(s', rid, s'.catalog.groups[rid]) {
      assert GroupTrue(s, rid, s.catalog.groups[rid]);
    }
  }

  /** A new reservation belongs to the attempt whose request is in flight. */
  lemma HoldActionKeeps(s: Sys, c: C.Catalog, initial: C.Stock, q: C.ReserveRequest)
    requires SagaInv(s, initial) && True(s, ReserveSent(q)) && q.reservationId !in s.catalog.groups
    requires C.Hold(s.catalog, q) == (c, C.Holding(C.NewGroup(q)))
    ensures var reply := SeenReserved(Attempt(q.attemptId, q.reservationId));
      Sound(s, s.(catalog := c, net := s.net + {reply}), initial)
  {
    CI.HoldKeeps(s.catalog, initial, q);
    CatalogStepKeeps(s, s.(catalog := c, net := s.net + {SeenReserved(Attempt(q.attemptId, q.reservationId))}),
                     initial, q.reservationId);
  }

  /** A replayed reservation request answers with the group as it is now. */
  lemma ReplayKeeps(s: Sys, initial: C.Stock, q: C.ReserveRequest, now: int)
    requires SagaInv(s, initial) && True(s, ReserveSent(q)) && q.reservationId in s.catalog.groups
    ensures Sound(s, DoReserve(s, q, now), initial)
  {
    assert GroupTrue(s, q.reservationId, s.catalog.groups[q.reservationId]);
    if DoReserve(s, q, now) != s {
      ReplyKeeps(s, DoReserve(s, q, now), initial, SeenReserved(Attempt(q.attemptId, q.reservationId)));
    }
  }

  lemma ReserveActionKeeps(s: Sys, initial: C.Stock, q: C.ReserveRequest, now: int)
    requires SagaInv(s, initial)
    ensures Sound(s, DoReserve(s, q, now), initial)
  {
    if ReserveSent(q) in s.net {
      assert True(s, ReserveSent(q));
      if q.reservationId in s.catalog.groups {
        ReplayKeeps(s, initial, q, now);
      } else if C.ReserveStock(s.catalog, q, now).1.Holding? {
        HoldActionKeeps(s, C.Hold(s.catalog, q).0, initial, q);
      }
    }
  }

  lemma ReadsKeep(s: Sys, initial: C.Stock, rid: Id)
    requires SagaInv(s, initial)
    ensures Sound(s, DoObserve(s, rid), initial)
    ensures Sound(s, DoPublish(s, rid), initial)
  {
    if rid in s.catalog.groups && s.catalog.groups[rid].status.Reserved? {
      ReplyKeeps(s, DoObserve(s, rid), initial, SeenReserved(Attempt(s.catalog.groups[rid].attemptId, rid)));
    }
    if rid in s.trade.outbox {
      ReplyKeeps(s, DoPublish(s, rid), initial, ConfirmSent(rid, s.trade.outbox[rid]));
    }
  }

  lemma LookUpKeeps(s: Sys, initial: C.Stock, no: Id, id: Id, answer: Status)
    requires SagaInv(s, initial)
    ensures Sound(s, DoLookUp(s, no, id, answer), initial)
  {
    if answer in SettlementRows(s.trade, no, id) {
      SettlementIsAFunction(s.trade, s.claims, no, id, answer);
      ReplyKeeps(s, DoLookUp(s, no, id, answer), initial, StatusSaid(no, id, answer));
    }
  }

  /** A group whose row changes in place, where its new status is warranted. */
  lemma GroupStepKeeps(s: Sys, c': C.Catalog, initial: C.Stock, rid: Id, status: C.GroupStatus)
    requires SagaInv(s, initial)
    requires CI.CatalogInv(c', initial) && CI.Decides(s.catalog, c', rid, status)
    requires rid in s.catalog.groups && c'.groups[rid].status != s.catalog.groups[rid].status ==>
      GroupTrue(s, rid, s.catalog.groups[rid].(status := status))
    ensures Sound(s, s.(catalog := c'), initial)
  {
    var s' := s.(catalog := c');
    CI.DecidesForward(s.catalog, c', rid, status);
    if rid in s.catalog.groups {
      assert GroupTrue(s, rid, s.catalog.groups[rid]);
      assert GroupTrue(s', rid, c'.groups[rid]);
    }
    CatalogStepKeeps(s, s', initial, rid);
  }

  lemma DeliverReleaseKeeps(s: Sys, initial: C.Stock, a: Attempt)
    requires SagaInv(s, initial)
    ensures Sound(s, DoDeliverRelease(s, a), initial)
  {
    if ReleaseSent(a) in s.net {
      var rid := a.reservationId;
      CI.ReleaseKeeps(s.catalog, initial, rid);
      assert True(s, ReleaseSent(a));
      assert rid in s.catalog.groups ==> GroupTrue(s, rid, s.catalog.groups[rid]);
      GroupStepKeeps(s, C.ReleaseReservation(s.catalog, rid).0, initial, rid, C.Released);
    }
  }

  lemma DeliverConfirmKeeps(s: Sys, initial: C.Stock, rid: Id, c: Confirmation)
    requires SagaInv(s, initial)
    ensures Sound(s, DoDeliverConfirm(s, rid, c), initial)
  {
    if ConfirmSent(rid, c) in s.net {
      CI.ConfirmKeeps(s.catalog, initial, rid, rid, c.orderNo, c.attemptId);
      assert True(s, ConfirmSent(rid, c));
      assert rid in s.catalog.groups ==> GroupTrue(s, rid, s.catalog.groups[rid]);
      GroupStepKeeps(s, C.ConfirmConsumed(s.catalog, rid, rid, c.orderNo, c.attemptId).0, initial, rid, C.Confirmed);
    }
  }

  lemma GroupLeasesKeep(s: Sys, initial: C.Stock, rid: Id, token: Id, now: int, lease: int)
    requires SagaInv(s, initial)
    ensures Sound(s, s.(catalog := C.LeaseExpired(s.catalog, rid, token, now, lease)), initial)
    ensures Sound(s, s.(catalog := C.RetryExpired(s.catalog, rid, token, now).0), initial)
  {
    CI.GroupLeasesKeep(s.catalog, initial, rid, token, now, lease);
    GroupStepKeeps(s, C.LeaseExpired(s.catalog, rid, token, now, lease), initial, rid, C.Reserved);
    GroupStepKeeps(s, C.RetryExpired(s.catalog, rid, token, now).0, initial, rid, C.Reserved);
  }

  lemma ToldIsTrue(s: Sys, rid: Id)
    requires MessagesTrue(s) && rid in s.catalog.groups && GroupTrue(s, rid, s.catalog.groups[rid])
    ensures Told(s, rid, {Paid}) ==> GroupTrue(s, rid, s.catalog.groups[rid].(status := C.Confirmed))
    ensures Told(s, rid, {PendingPayment, Closed}) ==> GroupTrue(s, rid, s.catalog.groups[rid].(status := C.Released))
  {
    var g := s.catalog.groups[rid];
    forall answer | StatusSaid(g.orderNo, g.attemptId, answer) in s.net
      ensures True(s, StatusSaid(g.orderNo, g.attemptId, answer)) {}
  }

  lemma ExpiryOutcomesKeep(s: Sys, initial: C.Stock, rid: Id, token: Id)
    requires SagaInv(s, initial)
    ensures Sound(s, DoConfirmGroup(s, rid, token), initial)
    ensures Sound(s, DoReleaseGroup(s, rid, token), initial)
  {
    if rid in s.catalog.groups {
      assert GroupTrue(s, rid, s.catalog.groups[rid]);
      ToldIsTrue(s, rid);
    }
    CI.GroupOutcomesKeep(s.catalog, initial, rid, token);
    if Told(s, rid, {Paid}) {
      GroupStepKeeps(s, C.ConfirmExpired(s.catalog, rid, token).0, initial, rid, C.Confirmed);
    }
    if Told(s, rid, {PendingPayment, Closed}) {
      GroupStepKeeps(s, C.ReleaseExpired(s.catalog, rid, token).0, initial, rid, C.Released);
    }
  }

  /** The actions that are a transaction of trade_db. */
  predicate OnTrade(action: Action) {
    match action
    case PlaceOrder(_, _, _, _) => true
    case ClaimOrder(_, _, _, _, _) => true
    case SettleOrder(_, _, _) => true
    case ResetOrder(_, _, _, _) => true
    case LeaseOrder(_, _, _, _) => true
    case RecoverReset(_, _, _, _, _) => true
    case RecoverDone(_, _, _, _) => true
    case _ => false
  }

  lemma TradeActionKeeps(s: Sys, initial: C.Stock, action: Action)
    requires SagaInv(s, initial) && OnTrade(action)
    ensures Sound(s, Apply(s, action), initial)
  {
    match action
    case PlaceOrder(no, user, total, items) => PlaceKeeps(s, initial, no, user, total, items);
    case ClaimOrder(user, no, a, now, expiresAt) => ClaimActionKeeps(s, initial, user, no, a, now, expiresAt);
    case SettleOrder(user, no, a) => SettleActionKeeps(s, initial, user, no, a);
    case ResetOrder(user, no, a, release) => ResetActionKeeps(s, initial, user, no, a, release);
    case LeaseOrder(no, token, now, lease) => LeaseActionKeeps(s, initial, no, token, now, lease);
    case RecoverReset(user, no, a, token, release) => RecoverResetKeeps(s, initial, user, no, a, token, release);
    case RecoverDone(user, no, a, token) => DoneActionKeeps(s, initial, user, no, a, token);
  }

  lemma CatalogActionKeeps(s: Sys, initial: C.Stock, action: Action)
    requires SagaInv(s, initial) && !OnTrade(action)
    ensures Sound(s, Apply(s, action), initial)
  {
    match action
    case DeliverReserve(q, now) => ReserveActionKeeps(s, initial, q, now);
    case Observe(rid) => ReadsKeep(s, initial, rid);
    case DeliverRelease(a) => DeliverReleaseKeeps(s, initial, a);
    case Publish(rid) => ReadsKeep(s, initial, rid);
    case DeliverConfirm(rid, c) => DeliverConfirmKeeps(s, initial, rid, c);
    case LookUp(no, id, answer) => LookUpKeeps(s, initial, no, id, answer);
    case LeaseGroup(rid, token, now, lease) => GroupLeasesKeep(s, initial, rid, token, now, lease);
    case ConfirmGroup(rid, token) => ExpiryOutcomesKeep(s, initial, rid, token);
    case ReleaseGroup(rid, token) => ExpiryOutcomesKeep(s, initial, rid, token);
    case RetryGroup(rid, token, next) => GroupLeasesKeep(s, initial, rid, token, next, 0);
  }

  /** Every action keeps the invariant and only advances. */
  lemma ActionKeeps(s: Sys, initial: C.Stock, action: Action)
    requires SagaInv(s, initial)
    ensures Sound(s, Apply(s, action), initial)
  {
    if OnTrade(action) {
      TradeActionKeeps(s, initial, action);
    } else {
      CatalogActionKeeps(s, initial, action);
    }
  }
}
