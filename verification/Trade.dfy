/**
 The trade_db tables touched by wallet payment, and each SQL transaction on them as a function from
 the rows before to the rows after. A transaction that rolls back returns its argument.
 Amounts are DECIMAL(12,2) columns, held here as whole cents. Every map is keyed by a UNIQUE key of
 its table: orders by order_no, the ledger by the order it debits (biz_id), the outbox by the
 reservation it confirms, the attempt history by payment_attempt_id.
 */
module Trade {
  import opened Wrappers

  /** Row keys and drawn identifiers; only equality matters. */
  type Id = int

  datatype Status = PendingPayment | PaymentProcessing | Paid | Closed

  datatype Attempt = Attempt(id: Id, reservationId: Id)

  datatype Item = Item(sku: Id, quantity: nat)

  datatype Order = Order(
    userId: Id, status: Status, total: nat, paidAmount: nat, payment: Option<Attempt>, startedAt: Option<int>,
    recoveryToken: Option<Id>, leaseUntil: Option<int>, items: seq<Item>)

  datatype Wallet = Wallet(balance: nat, version: nat)

  datatype Debit = Debit(userId: Id, amount: nat)

  datatype Confirmation = Confirmation(orderNo: Id, attemptId: Id)

  datatype History = History(orderNo: Id, reservationId: Id, status: Status)

  datatype Trade = Trade(
    orders: map<Id, Order>, wallets: map<Id, Wallet>, ledger: map<Id, Debit>,
    outbox: map<Id, Confirmation>, history: map<Id, History>)

  datatype ClaimResult =
    | ClaimNotFound | AlreadyPaid(paid: Order) | ClaimInProgress | NotPayable | ClaimStoreError | Claimed(order: Order)

  datatype SettleResult =
    | SettleNotFound | WasPaid(paid: Order) | SettleInProgress | Insufficient | SettleStoreError | Settled(order: Order)

  predicate Owns(t: Trade, user: Id, no: Id) {
    no in t.orders && t.orders[no].userId == user
  }

  predicate Holds(t: Trade, user: Id, no: Id, a: Attempt) {
    Owns(t, user, no) && t.orders[no].status == PaymentProcessing && t.orders[no].payment == Some(a)
  }

  /** The UNIQUE keys on orders.payment_attempt_id and orders.reservation_id. */
  predicate Collides(t: Trade, no: Id, a: Attempt) {
    exists other | other in t.orders ::
      && other != no
      && t.orders[other].payment.Some?
      && (t.orders[other].payment.value.id == a.id || t.orders[other].payment.value.reservationId == a.reservationId)
  }

  function ClaimPayment(t: Trade, user: Id, no: Id, a: Attempt, now: int): (r: (Trade, ClaimResult)) {
    if !Owns(t, user, no) then (t, ClaimNotFound)
    else
      var o := t.orders[no];
      match o.status
      case Paid => (t, AlreadyPaid(o))
      case PaymentProcessing => (t, ClaimInProgress)
      case Closed => (t, NotPayable)
      case PendingPayment =>
        if Collides(t, no, a) then (t, ClaimStoreError)
        else
          var claimed := o.(status := PaymentProcessing, payment := Some(a), startedAt := Some(now));
          (t.(orders := t.orders[no := claimed]), Claimed(claimed))
  }

  function SettleWalletPayment(t: Trade, user: Id, no: Id, a: Attempt): (r: (Trade, SettleResult)) {
    if !Owns(t, user, no) then (t, SettleNotFound)
    else
      var o := t.orders[no];
      if o.status == Paid then (t, WasPaid(o))
      else if o.status != PaymentProcessing || o.payment != Some(a) then (t, SettleInProgress)
      else if o.total > 0 && (user !in t.wallets || t.wallets[user].balance < o.total) then (t, Insufficient)
      else if (o.total > 0 && no in t.ledger) || a.reservationId in t.outbox then (t, SettleStoreError)
      else
        var paid := o.(status := Paid, paidAmount := o.total);
        var debited :=
          if o.total == 0 then t
          else
            var w := t.wallets[user];
            t.(wallets := t.wallets[user := Wallet(w.balance - o.total, w.version + 1)],
               ledger := t.ledger[no := Debit(user, o.total)]);
        (debited.(orders := t.orders[no := paid],
                  outbox := t.outbox[a.reservationId := Confirmation(no, a.id)]),
         Settled(paid))
  }

  /** INSERT ... ON DUPLICATE KEY UPDATE status, with UNIQUE keys on the attempt and on the reservation. */
  function RecordReset(history: map<Id, History>, no: Id, a: Attempt): map<Id, History> {
    if a.id in history || exists id | id in history :: history[id].reservationId == a.reservationId then
      map id | id in history ::
        if id == a.id || history[id].reservationId == a.reservationId then history[id].(status := PendingPayment)
        else history[id]
    else history[a.id := History(no, a.reservationId, PendingPayment)]
  }

  function Cleared(o: Order): Order {
    o.(status := PendingPayment, payment := None, startedAt := None)
  }

  /** ResetPaymentClaim leaves the recovery token and lease columns as they are. */
  function ResetPaymentClaim(t: Trade, user: Id, no: Id, a: Attempt): (r: (Trade, bool)) {
    if !Holds(t, user, no, a) then (t, false)
    else
      (t.(orders := t.orders[no := Cleared(t.orders[no])], history := RecordReset(t.history, no, a)), true)
  }

  /** The recovery store's reset is fenced by the lease token and also clears the lease. */
  function RecoveryReset(t: Trade, user: Id, no: Id, a: Attempt, token: Id): (r: (Trade, bool)) {
    if !Holds(t, user, no, a) || t.orders[no].recoveryToken != Some(token) then (t, false)
    else
      var cleared := Cleared(t.orders[no]).(recoveryToken := None, leaseUntil := None);
      (t.(orders := t.orders[no := cleared], history := RecordReset(t.history, no, a)), true)
  }

  function RecoveryDone(t: Trade, user: Id, no: Id, a: Attempt, token: Id): (r: Trade) {
    if !Holds(t, user, no, a) || t.orders[no].recoveryToken != Some(token) then t
    else t.(orders := t.orders[no := t.orders[no].(recoveryToken := None, leaseUntil := None)])
  }

  /** The WHERE clause of the lease query: a claim older than the lease duration with no live lease. */
  predicate Stale(o: Order, now: int, lease: int) {
    && o.status == PaymentProcessing
    && o.startedAt.Some? && o.startedAt.value <= now - lease
    && (o.leaseUntil.None? || o.leaseUntil.value <= now)
  }

  function LeaseOne(t: Trade, no: Id, token: Id, until: int): (r: Trade)
    requires no in t.orders
    ensures r.orders.Keys == t.orders.Keys
  {
    t.(orders := t.orders[no := t.orders[no].(recoveryToken := Some(token), leaseUntil := Some(until))])
  }

  /** One leased claim, as handed to a recovery worker. */
  datatype Lease = Lease(userId: Id, orderNo: Id, attempt: Attempt, token: Id)

  /** The lease transaction's updates, one per selected row. */
  function LeaseAll(t: Trade, leases: seq<Lease>, until: int): (r: Trade)
    requires forall i | 0 <= i < |leases| :: leases[i].orderNo in t.orders
    ensures r.orders.Keys == t.orders.Keys
    decreases |leases|
  {
    if leases == [] then t
    else
      var last := leases[|leases| - 1];
      LeaseOne(LeaseAll(t, leases[..|leases| - 1], until), last.orderNo, last.token, until)
  }

  /** The rows the settlement query ranges over; LIMIT 1 returns some one of them. */
  function SettlementRows(t: Trade, no: Id, attemptId: Id): set<Status> {
    (if attemptId in t.history && t.history[attemptId].orderNo == no then {t.history[attemptId].status} else {})
    + (if no in t.orders && t.orders[no].payment.Some? && t.orders[no].payment.value.id == attemptId
       then {t.orders[no].status} else {})
  }
}
