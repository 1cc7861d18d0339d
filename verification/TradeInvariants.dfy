/** What every payment transaction keeps: attempt accounting, the ledger, the outbox and each user's wealth. */
module TradeInvariants {
  import opened Wrappers
  import opened Sums
  import opened Trade

  /** One successful claim, kept for every attempt ever made (a history variable, not a table). */
  datatype Claim = Claim(orderNo: Id, reservationId: Id, items: seq<Item>)

  type Claims = map<Id, Claim>

  ghost predicate RowsWellFormed(t: Trade) {
    forall no | no in t.orders ::
      && (t.orders[no].payment.Some? <==> t.orders[no].status in {PaymentProcessing, Paid})
      && (t.orders[no].status == Paid ==> t.orders[no].paidAmount == t.orders[no].total)
  }

  ghost predicate PaymentsClaimed(t: Trade, claims: Claims) {
    forall no | no in t.orders && t.orders[no].payment.Some? ::
      && t.orders[no].payment.value.id in claims
      && claims[t.orders[no].payment.value.id]
         == Claim(no, t.orders[no].payment.value.reservationId, t.orders[no].items)
  }

  /** Whether the order row still carries this attempt. */
  predicate OnOrder(t: Trade, claims: Claims, id: Id)
    requires id in claims
  {
    && claims[id].orderNo in t.orders
    && t.orders[claims[id].orderNo].payment == Some(Attempt(id, claims[id].reservationId))
  }

  /** Every attempt ever claimed is on its order row or in the reset history, never both. */
  ghost predicate ClaimsAccounted(t: Trade, claims: Claims) {
    forall id | id in claims ::
      && claims[id].orderNo in t.orders
      && t.orders[claims[id].orderNo].items == claims[id].items
      && (OnOrder(t, claims, id) <==> id !in t.history)
  }

  ghost predicate HistoryClaimed(t: Trade, claims: Claims) {
    forall id | id in t.history ::
      id in claims && t.history[id] == History(claims[id].orderNo, claims[id].reservationId, PendingPayment)
  }

  ghost predicate ReservationsDistinct(claims: Claims) {
    forall i, j | i in claims && j in claims && claims[i].reservationId == claims[j].reservationId :: i == j
  }

  /** The order row paid under this confirmation row. */
  predicate Confirms(t: Trade, reservationId: Id, c: Confirmation) {
    && c.orderNo in t.orders
    && t.orders[c.orderNo].status == Paid
    && t.orders[c.orderNo].payment == Some(Attempt(c.attemptId, reservationId))
  }

  ghost predicate OutboxMatches(t: Trade) {
    && (forall r | r in t.outbox :: Confirms(t, r, t.outbox[r]))
    && (forall no | no in t.orders && t.orders[no].status == Paid && t.orders[no].payment.Some? ::
          && t.orders[no].payment.value.reservationId in t.outbox
          && t.outbox[t.orders[no].payment.value.reservationId] == Confirmation(no, t.orders[no].payment.value.id))
  }

  /** Exactly one DEBIT for each PAID order with a positive total, and no other. */
  ghost predicate LedgerMatches(t: Trade) {
    && (forall no | no in t.ledger :: no in t.orders && t.orders[no].status == Paid && t.orders[no].total > 0)
    && (forall no | no in t.orders && t.orders[no].status == Paid && t.orders[no].total > 0 ::
          no in t.ledger && t.ledger[no] == Debit(t.orders[no].userId, t.orders[no].total))
  }

  ghost predicate TradeInv(t: Trade, claims: Claims) {
    && RowsWellFormed(t)
    && PaymentsClaimed(t, claims)
    && ClaimsAccounted(t, claims)
    && HistoryClaimed(t, claims)
    && ReservationsDistinct(claims)
    && OutboxMatches(t)
    && LedgerMatches(t)
  }

  /** Facts about trade_db that no later transaction undoes. */
  ghost predicate Forward(t: Trade, t': Trade) {
    && (forall no | no in t.orders ::
          && no in t'.orders
          && t'.orders[no].userId == t.orders[no].userId
          && t'.orders[no].total == t.orders[no].total
          && t'.orders[no].items == t.orders[no].items
          && (t.orders[no].status == Paid ==>
                t'.orders[no].status == Paid && t'.orders[no].payment == t.orders[no].payment))
    && (forall id | id in t.history :: id in t'.history)
  }

  function Balance(t: Trade, user: Id): int {
    if user in t.wallets then t.wallets[user].balance else 0
  }

  function PaidBy(user: Id): Order -> int {
    (o: Order) => if o.status == Paid && o.userId == user then o.total else 0
  }

  /** A user's wallet balance together with everything they have paid. */
  ghost function Wealth(t: Trade, user: Id): int {
    Balance(t, user) + MapSum(t.orders, PaidBy(user))
  }

  /** A transaction that moves forward without paying for anything. */
  ghost predicate Quiet(t: Trade, t': Trade) {
    && Forward(t, t')
    && (forall no | no in t'.orders && t'.orders[no].status == Paid :: no in t.orders && t'.orders[no] == t.orders[no])
    && (forall user :: Wealth(t', user) == Wealth(t, user))
  }

  /** Replacing an order row by one that pays the same leaves every sum of paid totals alone. */
  lemma UnpaidUpdateKeepsWealth(t: Trade, t': Trade, no: Id, o: Order)
    requires no in t.orders && t.orders[no].status != Paid && o.status != Paid
    requires t'.orders == t.orders[no := o] && t'.wallets == t.wallets
    ensures forall user :: Wealth(t', user) == Wealth(t, user)
  {
    forall user ensures Wealth(t', user) == Wealth(t, user) {
      MapSumUpdate(t.orders, no, o, PaidBy(user));
    }
  }

  lemma ClaimAccounts(t: Trade, t': Trade, claims: Claims, no: Id, a: Attempt)
    requires RowsWellFormed(t) && PaymentsClaimed(t, claims) && ClaimsAccounted(t, claims) && HistoryClaimed(t, claims)
    requires a.id !in claims
    requires no in t.orders && t.orders[no].status == PendingPayment
    requires t'.history == t.history
    requires exists now ::
      t'.orders ==
        t.orders[no := t.orders[no].(status := PaymentProcessing, payment := Some(a), startedAt := Some(now))]
    ensures var claims' := claims[a.id := Claim(no, a.reservationId, t.orders[no].items)];
      RowsWellFormed(t') && PaymentsClaimed(t', claims') && ClaimsAccounted(t', claims') && HistoryClaimed(t', claims')
  {
    var claims' := claims[a.id := Claim(no, a.reservationId, t.orders[no].items)];
    forall id | id in claims'
      ensures claims'[id].orderNo in t'.orders
      ensures t'.orders[claims'[id].orderNo].items == claims'[id].items
      ensures OnOrder(t', claims', id) <==> id !in t'.history
    {
      if id != a.id {
        assert OnOrder(t, claims, id) <==> OnOrder(t', claims', id);
      }
    }
  }

  lemma UnpaidUpdateKeepsBooks(t: Trade, t': Trade, no: Id, o: Order)
    requires OutboxMatches(t) && LedgerMatches(t)
    requires no in t.orders && t.orders[no].status != Paid && o.status != Paid
    requires t'.orders == t.orders[no := o] && t'.ledger == t.ledger && t'.outbox == t.outbox
    ensures OutboxMatches(t') && LedgerMatches(t')
  {
    forall r | r in t'.outbox ensures Confirms(t', r, t'.outbox[r]) {
      assert Confirms(t, r, t.outbox[r]);
    }
  }

  lemma ClaimKeeps(t: Trade, claims: Claims, user: Id, no: Id, a: Attempt, now: int)
    requires TradeInv(t, claims)
    requires a.id !in claims && forall id | id in claims :: claims[id].reservationId != a.reservationId
    ensures var (t', r) := ClaimPayment(t, user, no, a, now);
      if r.Claimed? then TradeInv(t', claims[a.id := Claim(no, a.reservationId, t.orders[no].items)]) else t' == t
  {
    var (t', r) := ClaimPayment(t, user, no, a, now);
    if r.Claimed? {
      var claims' := claims[a.id := Claim(no, a.reservationId, t.orders[no].items)];
      assert ReservationsDistinct(claims');
      UnpaidUpdateKeepsBooks(t, t', no, t'.orders[no]);
      ClaimAccounts(t, t', claims, no, a);
    }
  }

  lemma ClaimMovesForward(t: Trade, user: Id, no: Id, a: Attempt, now: int)
    ensures Quiet(t, ClaimPayment(t, user, no, a, now).0)
  {
    var (t', r) := ClaimPayment(t, user, no, a, now);
    if r.Claimed? {
      UnpaidUpdateKeepsWealth(t, t', no, t'.orders[no]);
    }
  }

  lemma SettleConserves(t: Trade, user: Id, no: Id, a: Attempt, u: Id)
    ensures Wealth(SettleWalletPayment(t, user, no, a).0, u) == Wealth(t, u)
  {
    var (t', r) := SettleWalletPayment(t, user, no, a);
    if r.Settled? {
      MapSumUpdate(t.orders, no, t'.orders[no], PaidBy(u));
    }
  }

  /** Rows may change status and amounts, but carry the same attempts: the accounting of attempts stands. */
  lemma SamePaymentsKeepAccounts(t: Trade, t': Trade, claims: Claims)
    requires PaymentsClaimed(t, claims) && ClaimsAccounted(t, claims) && HistoryClaimed(t, claims)
    requires t'.history == t.history && t'.orders.Keys == t.orders.Keys
    requires forall no | no in t.orders ::
      t'.orders[no].payment == t.orders[no].payment && t'.orders[no].items == t.orders[no].items
    ensures PaymentsClaimed(t', claims) && ClaimsAccounted(t', claims) && HistoryClaimed(t', claims)
  {
    forall id | id in claims ensures OnOrder(t', claims, id) <==> id !in t'.history {
      assert OnOrder(t, claims, id) <==> OnOrder(t', claims, id);
    }
  }

  lemma SettleKeepsOutbox(t: Trade, claims: Claims, user: Id, no: Id, a: Attempt)
    requires OutboxMatches(t) && PaymentsClaimed(t, claims) && ReservationsDistinct(claims)
    ensures OutboxMatches(SettleWalletPayment(t, user, no, a).0)
  {
    var (t', r) := SettleWalletPayment(t, user, no, a);
    if r.Settled? {
      forall rid | rid in t'.outbox ensures Confirms(t', rid, t'.outbox[rid]) {
        if rid != a.reservationId {
          assert Confirms(t, rid, t.outbox[rid]);
        }
      }
    }
  }

  lemma SettleKeepsLedger(t: Trade, user: Id, no: Id, a: Attempt)
    requires LedgerMatches(t)
    ensures LedgerMatches(SettleWalletPayment(t, user, no, a).0)
  {
  }

  lemma SettleMovesForward(t: Trade, user: Id, no: Id, a: Attempt)
    ensures Forward(t, SettleWalletPayment(t, user, no, a).0)
  {
  }

  lemma SettleKeeps(t: Trade, claims: Claims, user: Id, no: Id, a: Attempt)
    requires TradeInv(t, claims)
    ensures TradeInv(SettleWalletPayment(t, user, no, a).0, claims)
  {
    var (t', r) := SettleWalletPayment(t, user, no, a);
    if r.Settled? {
      assert RowsWellFormed(t');
      SettleKeepsLedger(t, user, no, a);
      SettleKeepsOutbox(t, claims, user, no, a);
      SamePaymentsKeepAccounts(t, t', claims);
    }
  }

  /** Under the invariant a settlement of a held claim can only fail for lack of money. */
  lemma SettleNeverHitsAUniqueKey(t: Trade, claims: Claims, user: Id, no: Id, a: Attempt)
    requires TradeInv(t, claims)
    ensures !SettleWalletPayment(t, user, no, a).1.SettleStoreError?
  {
  }

  lemma ClearAccounts(t: Trade, t': Trade, claims: Claims, no: Id, a: Attempt, o: Order)
    requires PaymentsClaimed(t, claims) && ClaimsAccounted(t, claims) && HistoryClaimed(t, claims)
    requires no in t.orders && t.orders[no].payment == Some(a) && o.payment.None? && o.items == t.orders[no].items
    requires t'.orders == t.orders[no := o]
    requires t'.history == t.history[a.id := History(no, a.reservationId, PendingPayment)]
    ensures PaymentsClaimed(t', claims) && ClaimsAccounted(t', claims) && HistoryClaimed(t', claims)
  {
    forall id | id in claims ensures OnOrder(t', claims, id) <==> id !in t'.history {
      assert id != a.id ==> (OnOrder(t, claims, id) <==> OnOrder(t', claims, id));
    }
  }

  lemma HeldAttemptIsNew(t: Trade, claims: Claims, no: Id, a: Attempt)
    requires PaymentsClaimed(t, claims) && ClaimsAccounted(t, claims) && HistoryClaimed(t, claims)
    requires ReservationsDistinct(claims)
    requires no in t.orders && t.orders[no].payment == Some(a)
    ensures RecordReset(t.history, no, a) == t.history[a.id := History(no, a.reservationId, PendingPayment)]
  {
    assert OnOrder(t, claims, a.id);
  }

  /** Both resets clear the claim and file the attempt in the history. */
  lemma ClearKeeps(t: Trade, claims: Claims, no: Id, a: Attempt, o: Order)
    requires TradeInv(t, claims)
    requires no in t.orders && t.orders[no].status == PaymentProcessing && t.orders[no].payment == Some(a)
    requires o.status == PendingPayment && o.payment.None?
    requires o.userId == t.orders[no].userId && o.total == t.orders[no].total && o.items == t.orders[no].items
    ensures var t' := t.(orders := t.orders[no := o], history := RecordReset(t.history, no, a));
      && TradeInv(t', claims)
      && Quiet(t, t')
      && a.id in t'.history
  {
    var t' := t.(orders := t.orders[no := o], history := RecordReset(t.history, no, a));
    HeldAttemptIsNew(t, claims, no, a);
    ClearAccounts(t, t', claims, no, a, o);
    UnpaidUpdateKeepsWealth(t, t', no, o);
    UnpaidUpdateKeepsBooks(t, t', no, o);
  }

  /** A change confined to an order's recovery columns keeps everything. */
  lemma LeaseColumnsKeep(t: Trade, claims: Claims, no: Id, token: Option<Id>, until: Option<int>)
    requires TradeInv(t, claims) && no in t.orders && t.orders[no].status == PaymentProcessing
    ensures var t' := t.(orders := t.orders[no := t.orders[no].(recoveryToken := token, leaseUntil := until)]);
      TradeInv(t', claims) && Quiet(t, t')
  {
    var o := t.orders[no].(recoveryToken := token, leaseUntil := until);
    var t' := t.(orders := t.orders[no := o]);
    SamePaymentsKeepAccounts(t, t', claims);
    UnpaidUpdateKeepsWealth(t, t', no, o);
    UnpaidUpdateKeepsBooks(t, t', no, o);
  }

  /** A reset attempt is on no order row and its reservation has no confirmation. */
  lemma ResetIsNeverConfirmed(t: Trade, claims: Claims, id: Id)
    requires TradeInv(t, claims) && id in claims && id in t.history
    ensures claims[id].reservationId !in t.outbox
    ensures forall no | no in t.orders && t.orders[no].payment.Some? :: t.orders[no].payment.value.id != id
  {
    forall no | no in t.orders && t.orders[no].payment.Some?
      ensures t.orders[no].payment.value.id in claims && t.orders[no].payment.value.id !in t.history
    {
      assert OnOrder(t, claims, t.orders[no].payment.value.id);
    }
    forall r | r in t.outbox
      ensures var c := t.outbox[r]; c.attemptId in claims && claims[c.attemptId].reservationId == r
    {
      assert Confirms(t, r, t.outbox[r]);
    }
  }

  lemma NewOrderKeepsWealth(t: Trade, t': Trade, no: Id, o: Order)
    requires no !in t.orders && o.status != Paid && t' == t.(orders := t.orders[no := o])
    ensures forall u :: Wealth(t', u) == Wealth(t, u)
  {
    forall u ensures Wealth(t', u) == Wealth(t, u) {
      MapSumUpdate(t.orders, no, o, PaidBy(u));
    }
  }

  /** The settlement query has at most one row to return, and what it says about an attempt is the truth. */
  lemma SettlementIsAFunction(t: Trade, claims: Claims, no: Id, attemptId: Id, s: Status)
    requires TradeInv(t, claims) && s in SettlementRows(t, no, attemptId)
    ensures SettlementRows(t, no, attemptId) == {s}
    ensures attemptId in claims && claims[attemptId].orderNo == no
    ensures s == PendingPayment <==> attemptId in t.history
    ensures s == PaymentProcessing <==> attemptId !in t.history && t.orders[no].status == PaymentProcessing
    ensures s == Paid <==> attemptId !in t.history && t.orders[no].status == Paid
    ensures s != Closed
  {
    if attemptId in t.history {
      assert !OnOrder(t, claims, attemptId);
    }
  }
}
