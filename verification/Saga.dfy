/**
 The payment saga over both databases: any number of payers, recovery workers, outbox publishers,
 confirmation consumers and expiry workers, as interleaved atomic actions.

 A message or an RPC reply, once sent, stays in `net`: it may be delivered late, repeatedly or never,
 which covers lost replies, retries and crashes (a crashed process takes no further action). A claim may
 be reset at any moment by anyone who knows it; settling needs a reply that showed the reservation
 RESERVED. Identifiers are drawn from uuid: `used` holds every identifier drawn so far.
 */
module Saga {
  import opened Wrappers
  import opened Trade
  import opened TradeInvariants
  import C = Catalog

  datatype Msg =
    | ReserveSent(q: C.ReserveRequest)
    | SeenReserved(attempt: Attempt)
    | ReleaseSent(attempt: Attempt)
    | ConfirmSent(reservationId: Id, confirmation: Confirmation)
    | StatusSaid(orderNo: Id, attemptId: Id, status: Status)

  datatype Sys = Sys(trade: Trade, catalog: C.Catalog, net: set<Msg>, used: set<Id>, claims: Claims)

  datatype Action =
    | PlaceOrder(no: Id, user: Id, total: nat, items: seq<Item>)
    | ClaimOrder(user: Id, no: Id, attempt: Attempt, now: int, expiresAt: int)
    | SettleOrder(user: Id, no: Id, attempt: Attempt)
    | ResetOrder(user: Id, no: Id, attempt: Attempt, release: bool)
    | LeaseOrder(no: Id, token: Id, now: int, lease: int)
    | RecoverReset(user: Id, no: Id, attempt: Attempt, token: Id, release: bool)
    | RecoverDone(user: Id, no: Id, attempt: Attempt, token: Id)
    | DeliverReserve(q: C.ReserveRequest, now: int)
    | Observe(reservationId: Id)
    | DeliverRelease(attempt: Attempt)
    | Publish(reservationId: Id)
    | DeliverConfirm(reservationId: Id, confirmation: Confirmation)
    | LookUp(no: Id, attemptId: Id, answer: Status)
    | LeaseGroup(reservationId: Id, token: Id, now: int, lease: int)
    | ConfirmGroup(reservationId: Id, token: Id)
    | ReleaseGroup(reservationId: Id, token: Id)
    | RetryGroup(reservationId: Id, token: Id, next: int)

  function RequestFor(o: Order, no: Id, a: Attempt, expiresAt: int): C.ReserveRequest {
    C.ReserveRequest(a.reservationId, no, a.id, o.items, expiresAt)
  }

  function Place(s: Sys, no: Id, user: Id, total: nat, items: seq<Item>): Sys {
    if no in s.trade.orders then s
    else
      var o := Order(user, PendingPayment, total, 0, None, None, None, None, items);
      s.(trade := s.trade.(orders := s.trade.orders[no := o]))
  }

  predicate FreshAttempt(s: Sys, a: Attempt) {
    a.id != a.reservationId && a.id !in s.used && a.reservationId !in s.used
  }

  function DoClaim(s: Sys, user: Id, no: Id, a: Attempt, now: int, expiresAt: int): Sys {
    if !FreshAttempt(s, a) then s
    else
      var (t, r) := ClaimPayment(s.trade, user, no, a, now);
      var drawn := s.(trade := t, used := s.used + {a.id, a.reservationId});
      if r.Claimed? then
        drawn.(net := s.net + {ReserveSent(RequestFor(r.order, no, a, expiresAt))},
               claims := s.claims[a.id := Claim(no, a.reservationId, r.order.items)])
      else drawn
  }

  function DoLease(s: Sys, no: Id, token: Id, now: int, lease: int): Sys {
    if token in s.used || no !in s.trade.orders || !Stale(s.trade.orders[no], now, lease) then s
    else s.(trade := LeaseOne(s.trade, no, token, now + lease), used := s.used + {token})
  }

  function DoReserve(s: Sys, q: C.ReserveRequest, now: int): Sys {
    if ReserveSent(q) !in s.net then s
    else
      var (c, r) := C.ReserveStock(s.catalog, q, now);
      s.(catalog := c,
         net := s.net +
           if r.Holding? && r.group.status.Reserved? then {SeenReserved(Attempt(q.attemptId, q.reservationId))} else {})
  }

  function DoObserve(s: Sys, rid: Id): Sys {
    if rid in s.catalog.groups && s.catalog.groups[rid].status.Reserved? then
      s.(net := s.net + {SeenReserved(Attempt(s.catalog.groups[rid].attemptId, rid))})
    else s
  }

  /** The expiry worker acts on the settlement status it was told for the group's own order and attempt. */
  predicate Told(s: Sys, rid: Id, answers: set<Status>) {
    rid in s.catalog.groups
    && exists a | a in answers :: StatusSaid(s.catalog.groups[rid].orderNo, s.catalog.groups[rid].attemptId, a) in s.net
  }

  function DoDeliverRelease(s: Sys, a: Attempt): Sys {
    if ReleaseSent(a) in s.net then s.(catalog := C.ReleaseReservation(s.catalog, a.reservationId).0) else s
  }

  function DoPublish(s: Sys, rid: Id): Sys {
    if rid in s.trade.outbox then s.(net := s.net + {ConfirmSent(rid, s.trade.outbox[rid])}) else s
  }

  /** The confirmation's event id is the reservation id. */
  function DoDeliverConfirm(s: Sys, rid: Id, c: Confirmation): Sys {
    if ConfirmSent(rid, c) in s.net then
      s.(catalog := C.ConfirmConsumed(s.catalog, rid, rid, c.orderNo, c.attemptId).0)
    else s
  }

  function DoLookUp(s: Sys, no: Id, id: Id, answer: Status): Sys {
    if answer in SettlementRows(s.trade, no, id) then s.(net := s.net + {StatusSaid(no, id, answer)}) else s
  }

  function DoConfirmGroup(s: Sys, rid: Id, token: Id): Sys {
    if Told(s, rid, {Paid}) then s.(catalog := C.ConfirmExpired(s.catalog, rid, token).0) else s
  }

  function DoReleaseGroup(s: Sys, rid: Id, token: Id): Sys {
    if Told(s, rid, {PendingPayment, Closed}) then s.(catalog := C.ReleaseExpired(s.catalog, rid, token).0) else s
  }

  function DoSettle(s: Sys, user: Id, no: Id, a: Attempt): Sys {
    if SeenReserved(a) in s.net then s.(trade := SettleWalletPayment(s.trade, user, no, a).0) else s
  }

  function DoResetOrder(s: Sys, user: Id, no: Id, a: Attempt, release: bool): Sys {
    var (t, changed) := ResetPaymentClaim(s.trade, user, no, a);
    s.(trade := t, net := s.net + if changed && release then {ReleaseSent(a)} else {})
  }

  function DoRecoverReset(s: Sys, user: Id, no: Id, a: Attempt, token: Id, release: bool): Sys {
    var (t, changed) := RecoveryReset(s.trade, user, no, a, token);
    s.(trade := t, net := s.net + if changed && release then {ReleaseSent(a)} else {})
  }

  function Apply(s: Sys, action: Action): Sys {
    match action
    case PlaceOrder(no, user, total, items) => Place(s, no, user, total, items)
    case ClaimOrder(user, no, a, now, expiresAt) => DoClaim(s, user, no, a, now, expiresAt)
    case SettleOrder(user, no, a) => DoSettle(s, user, no, a)
    case ResetOrder(user, no, a, release) => DoResetOrder(s, user, no, a, release)
    case LeaseOrder(no, token, now, lease) => DoLease(s, no, token, now, lease)
    case RecoverReset(user, no, a, token, release) => DoRecoverReset(s, user, no, a, token, release)
    case RecoverDone(user, no, a, token) => s.(trade := RecoveryDone(s.trade, user, no, a, token))
    case DeliverReserve(q, now) => DoReserve(s, q, now)
    case Observe(rid) => DoObserve(s, rid)
    case DeliverRelease(a) => DoDeliverRelease(s, a)
    case Publish(rid) => DoPublish(s, rid)
    case DeliverConfirm(rid, c) => DoDeliverConfirm(s, rid, c)
    case LookUp(no, id, answer) => DoLookUp(s, no, id, answer)
    case LeaseGroup(rid, token, now, lease) => s.(catalog := C.LeaseExpired(s.catalog, rid, token, now, lease))
    case ConfirmGroup(rid, token) => DoConfirmGroup(s, rid, token)
    case ReleaseGroup(rid, token) => DoReleaseGroup(s, rid, token)
    case RetryGroup(rid, token, next) => s.(catalog := C.RetryExpired(s.catalog, rid, token, next).0)
  }

  function Run(s: Sys, actions: seq<Action>): Sys
    decreases |actions|
  {
    if actions == [] then s else Run(Apply(s, actions[0]), actions[1..])
  }

  /** Before any payment: unpaid, unclaimed orders, no reservations, nothing in flight. */
  ghost predicate Genesis(s: Sys) {
    && (forall no | no in s.trade.orders ::
          s.trade.orders[no].status in {PendingPayment, Closed} && s.trade.orders[no].payment.None?)
    && s.trade.ledger == map[] && s.trade.outbox == map[] && s.trade.history == map[]
    && s.catalog.groups == map[] && s.catalog.consumed == {} && s.net == {} && s.claims == map[]
  }
}
