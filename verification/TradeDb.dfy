/** order-service's payment tables as a mutable store: each method is one transaction, committed at its end. */
module TradeDb {
  import opened Wrappers
  import opened Selection
  import T = Trade

  type Id = T.Id

  class TradeDb {
    var orders: map<Id, T.Order>
    var wallets: map<Id, T.Wallet>
    var ledger: map<Id, T.Debit>
    var outbox: map<Id, T.Confirmation>
    var history: map<Id, T.History>

    function Rows(): T.Trade
      reads this
    {
      T.Trade(orders, wallets, ledger, outbox, history)
    }

    constructor (rows: T.Trade)
      ensures Rows() == rows
    {
      orders, wallets, ledger, outbox, history := rows.orders, rows.wallets, rows.ledger, rows.outbox, rows.history;
    }

    /** Other processes' committed transactions become visible. */
    method Refresh(rows: T.Trade)
      modifies this
      ensures Rows() == rows
    {
      orders, wallets, ledger, outbox, history := rows.orders, rows.wallets, rows.ledger, rows.outbox, rows.history;
    }

    method ClaimPayment(user: Id, no: Id, a: T.Attempt, now: int) returns (r: T.ClaimResult)
      modifies this
      ensures (Rows(), r) == T.ClaimPayment(old(Rows()), user, no, a, now)
    {
      if no !in orders || orders[no].userId != user {
        return T.ClaimNotFound;
      }
      var order := orders[no];
      match order.status {
        case Paid => return T.AlreadyPaid(order);
        case PaymentProcessing => return T.ClaimInProgress;
        case Closed => return T.NotPayable;
        case PendingPayment =>
      }
      if T.Collides(Rows(), no, a) {
        return T.ClaimStoreError;
      }
      order := order.(status := T.PaymentProcessing, payment := Some(a), startedAt := Some(now));
      orders := orders[no := order];
      return T.Claimed(order);
    }

    method SettleWalletPayment(user: Id, no: Id, a: T.Attempt) returns (r: T.SettleResult)
      modifies this
      ensures (Rows(), r) == T.SettleWalletPayment(old(Rows()), user, no, a)
    {
      if no !in orders || orders[no].userId != user {
        return T.SettleNotFound;
      }
      var order := orders[no];
      if order.status == T.Paid {
        return T.WasPaid(order);
      }
      if order.status != T.PaymentProcessing || order.payment != Some(a) {
        return T.SettleInProgress;
      }
      // Uncommitted writes; an early return rolls them back.
      var newWallets, newLedger := wallets, ledger;
      if order.total > 0 {
        if user !in wallets || wallets[user].balance < order.total {
          return T.Insufficient;
        }
        var wallet := wallets[user];
        newWallets := wallets[user := T.Wallet(wallet.balance - order.total, wallet.version + 1)];
        if no in ledger {
          return T.SettleStoreError;
        }
        newLedger := ledger[no := T.Debit(user, order.total)];
      }
      order := order.(status := T.Paid, paidAmount := order.total);
      if a.reservationId in outbox {
        return T.SettleStoreError;
      }
      wallets, ledger, orders := newWallets, newLedger, orders[no := order];
      outbox := outbox[a.reservationId := T.Confirmation(no, a.id)];
      return T.Settled(order);
    }

    method ResetPaymentClaim(user: Id, no: Id, a: T.Attempt) returns (changed: bool)
      modifies this
      ensures (Rows(), changed) == T.ResetPaymentClaim(old(Rows()), user, no, a)
    {
      changed := T.Holds(Rows(), user, no, a);
      if changed {
        orders := orders[no := T.Cleared(orders[no])];
        history := T.RecordReset(history, no, a);
      }
    }

    method RecoveryReset(user: Id, no: Id, a: T.Attempt, token: Id) returns (changed: bool)
      modifies this
      ensures (Rows(), changed) == T.RecoveryReset(old(Rows()), user, no, a, token)
    {
      changed := T.Holds(Rows(), user, no, a) && orders[no].recoveryToken == Some(token);
      if changed {
        orders := orders[no := T.Cleared(orders[no]).(recoveryToken := None, leaseUntil := None)];
        history := T.RecordReset(history, no, a);
      }
    }

    method RecoveryDone(user: Id, no: Id, a: T.Attempt, token: Id)
      modifies this
      ensures Rows() == T.RecoveryDone(old(Rows()), user, no, a, token)
    {
      if T.Holds(Rows(), user, no, a) && orders[no].recoveryToken == Some(token) {
        orders := orders[no := orders[no].(recoveryToken := None, leaseUntil := None)];
      }
    }

    /** Leases the first `limit` stale, unlocked claims in id order, each under a new token. */
    method LeaseStale(limit: nat, now: int, lease: int, tokens: seq<Id>, locked: set<Id>)
      returns (leased: Option<seq<T.Lease>>)
      requires |tokens| >= limit
      modifies this
      ensures leased.None? ==>
        Rows() == old(Rows()) && exists no | no in orders :: T.Stale(orders[no], now, lease) && orders[no].payment.None?
      ensures leased.Some? ==>
        && FirstStale(old(orders), leased.value, limit, now, lease, tokens, locked)
        && Rows() == T.LeaseAll(old(Rows()), leased.value, now + lease)
    {
      leased := SelectStale(orders, limit, now, lease, tokens, locked);
      if leased.Some? {
        var rows := Rows();
        for i := 0 to |leased.value|
          invariant rows == T.LeaseAll(old(Rows()), leased.value[..i], now + lease)
        {
          rows := T.LeaseOne(rows, leased.value[i].orderNo, leased.value[i].token, now + lease);
          assert leased.value[..i + 1][..i] == leased.value[..i];
        }
        assert leased.value[..|leased.value|] == leased.value;
        Refresh(rows);
      }
    }
  }

  predicate IsLeaseOf(orders: map<Id, T.Order>, l: T.Lease, now: int, lease: int) {
    && l.orderNo in orders
    && T.Stale(orders[l.orderNo], now, lease)
    && orders[l.orderNo].userId == l.userId
    && orders[l.orderNo].payment == Some(l.attempt)
  }

  function Free(orders: map<Id, T.Order>, now: int, lease: int, locked: set<Id>): set<Id> {
    set no | no in orders && T.Stale(orders[no], now, lease) && no !in locked
  }

  function OrderNos(leases: seq<T.Lease>): (r: seq<Id>)
    ensures |r| == |leases|
  {
    seq(|leases|, i requires 0 <= i < |leases| => leases[i].orderNo)
  }

  /** Rows in id order. */
  function ById(): Id -> int {
    (no: Id) => 0
  }

  /** The first stale claims in id order, under the drawn tokens. */
  ghost predicate FirstStale(
    orders: map<Id, T.Order>, leases: seq<T.Lease>, limit: nat, now: int, lease: int, tokens: seq<Id>, locked: set<Id>)
    requires |tokens| >= limit
  {
    && IsFirst(OrderNos(leases), Free(orders, now, lease, locked), limit, ById())
    && forall i | 0 <= i < |leases| :: IsLeaseOf(orders, leases[i], now, lease) && leases[i].token == tokens[i]
  }

  /**
   SELECT ... ORDER BY id LIMIT ... SKIP LOCKED. A selected row without a payment attempt fails the scan
   and with it the transaction.
   */
  method SelectStale(orders: map<Id, T.Order>, limit: nat, now: int, lease: int, tokens: seq<Id>, locked: set<Id>)
    returns (leases: Option<seq<T.Lease>>)
    requires |tokens| >= limit
    ensures leases.None? ==> exists no | no in orders :: T.Stale(orders[no], now, lease) && orders[no].payment.None?
    ensures leases.Some? ==> FirstStale(orders, leases.value, limit, now, lease, tokens, locked)
  {
    var nos := First(Free(orders, now, lease, locked), limit, ById());
    var result: seq<T.Lease> := [];
    for i := 0 to |nos|
      invariant OrderNos(result) == nos[..i]
      invariant forall k | 0 <= k < i :: IsLeaseOf(orders, result[k], now, lease) && result[k].token == tokens[k]
    {
      var order := orders[nos[i]];
      if order.payment.None? {
        var no := nos[i];
        assert no in orders && T.Stale(orders[no], now, lease) && orders[no].payment.None?;
        return None;
      }
      result := result + [T.Lease(order.userId, nos[i], order.payment.value, tokens[i])];
    }
    assert OrderNos(result) == nos;
    return Some(result);
  }
}
