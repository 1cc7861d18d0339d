/**
 The catalog_db tables behind a reservation: stock per SKU, reservation groups, consumed confirmation
 events. Each function is one SQL transaction; one that rolls back returns its argument. The rows of a
 group always change together, so a group is one record keyed by reservation_id.
 */
module Catalog {
  import opened Wrappers
  import opened Trade

  type Stock = map<Id, nat>

  datatype GroupStatus = Reserved | Confirmed | Released

  datatype Group = Group(
    orderNo: Id, attemptId: Id, items: seq<Item>, status: GroupStatus, expiresAt: int,
    nextRetryAt: Option<int>, leaseToken: Option<Id>, leaseUntil: Option<int>)

  datatype Catalog = Catalog(stock: Stock, groups: map<Id, Group>, consumed: set<Id>)

  datatype ReserveRequest = ReserveRequest(
    reservationId: Id, orderNo: Id, attemptId: Id, items: seq<Item>, expiresAt: int)

  datatype ReserveResult = ReserveInvalid | Conflict | OutOfStock | Holding(group: Group)

  const MAX_ITEMS := 100

  predicate ValidRequest(q: ReserveRequest, now: int) {
    && 0 < |q.items| <= MAX_ITEMS
    && q.expiresAt > now
    && (forall i | 0 <= i < |q.items| :: q.items[i].quantity > 0)
    && (forall i, j | 0 <= i < j < |q.items| :: q.items[i].sku != q.items[j].sku)
  }

  predicate SamePayload(g: Group, q: ReserveRequest) {
    g.orderNo == q.orderNo && g.attemptId == q.attemptId && g.expiresAt == q.expiresAt && g.items == q.items
  }

  /** One conditional UPDATE per item; the first that does not apply fails the whole transaction. */
  function Deduct(stock: Stock, items: seq<Item>): (r: Option<Stock>) {
    if items == [] then Some(stock)
    else
      var i := items[0];
      if i.sku in stock && stock[i.sku] >= i.quantity then
        Deduct(stock[i.sku := stock[i.sku] - i.quantity], items[1..])
      else None
  }

  function Restore(stock: Stock, items: seq<Item>): (r: Option<Stock>) {
    if items == [] then Some(stock)
    else
      var i := items[0];
      if i.sku in stock then Restore(stock[i.sku := stock[i.sku] + i.quantity], items[1..]) else None
  }

  function NewGroup(q: ReserveRequest): Group {
    Group(q.orderNo, q.attemptId, q.items, Reserved, q.expiresAt, None, None, None)
  }

  /** Takes every item of the request out of stock and inserts its group, or does neither. */
  function Hold(c: Catalog, q: ReserveRequest): (r: (Catalog, ReserveResult)) {
    match Deduct(c.stock, q.items)
    case None => (c, OutOfStock)
    case Some(stock) =>
      (c.(stock := stock, groups := c.groups[q.reservationId := NewGroup(q)]), Holding(NewGroup(q)))
  }

  function ReserveStock(c: Catalog, q: ReserveRequest, now: int): (r: (Catalog, ReserveResult)) {
    if !ValidRequest(q, now) then (c, ReserveInvalid)
    else if q.reservationId in c.groups then
      var g := c.groups[q.reservationId];
      (c, if SamePayload(g, q) then Holding(g) else Conflict)
    else Hold(c, q)
  }

  /** Returns a group's quantities to stock and stores its new row. */
  function PutBack(c: Catalog, rid: Id, g: Group): (r: (Catalog, bool)) {
    match Restore(c.stock, g.items)
    case None => (c, false)
    case Some(stock) => (c.(stock := stock, groups := c.groups[rid := g]), true)
  }

  /** The RPC: releases a RESERVED group, accepts a RELEASED one, refuses a CONFIRMED or unknown one. */
  function ReleaseReservation(c: Catalog, rid: Id): (r: (Catalog, bool)) {
    if rid !in c.groups then (c, false)
    else
      match c.groups[rid].status
      case Released => (c, true)
      case Confirmed => (c, false)
      case Reserved => PutBack(c, rid, c.groups[rid].(status := Released))
  }

  /** The consumer: once per event, confirms the RESERVED group whose identity the event carries. */
  function ConfirmConsumed(c: Catalog, eventId: Id, rid: Id, orderNo: Id, attemptId: Id): (r: (Catalog, bool)) {
    if eventId in c.consumed then (c, true)
    else if rid !in c.groups || c.groups[rid].orderNo != orderNo || c.groups[rid].attemptId != attemptId then (c, false)
    else
      match c.groups[rid].status
      case Confirmed => (c.(consumed := c.consumed + {eventId}), true)
      case Reserved =>
        (c.(consumed := c.consumed + {eventId}, groups := c.groups[rid := c.groups[rid].(status := Confirmed)]), true)
      case Released => (c, false)
  }

  predicate Leased(c: Catalog, rid: Id, token: Id) {
    rid in c.groups && c.groups[rid].status == Reserved && c.groups[rid].leaseToken == Some(token)
  }

  predicate Expired(g: Group, now: int) {
    && g.status == Reserved && g.expiresAt <= now
    && (g.nextRetryAt.None? || g.nextRetryAt.value <= now)
    && (g.leaseUntil.None? || g.leaseUntil.value <= now)
  }

  function LeaseExpired(c: Catalog, rid: Id, token: Id, now: int, lease: int): (r: Catalog) {
    if rid in c.groups && Expired(c.groups[rid], now) then
      c.(groups := c.groups[rid := c.groups[rid].(leaseToken := Some(token), leaseUntil := Some(now + lease))])
    else c
  }

  /** An expired group as the worker that leased it remembers it. */
  datatype ExpiredGroup = ExpiredGroup(reservationId: Id, orderNo: Id, attemptId: Id, token: Id)

  /** A batch of leases in one transaction. */
  function LeaseGroups(c: Catalog, items: seq<ExpiredGroup>, now: int, lease: int): (r: Catalog)
    decreases |items|
  {
    if items == [] then c
    else LeaseGroups(LeaseExpired(c, items[0].reservationId, items[0].token, now, lease), items[1..], now, lease)
  }

  function ConfirmExpired(c: Catalog, rid: Id, token: Id): (r: (Catalog, bool)) {
    if !Leased(c, rid, token) then (c, false)
    else
      var g := c.groups[rid].(status := Confirmed, leaseToken := None, leaseUntil := None);
      (c.(groups := c.groups[rid := g]), true)
  }

  function ReleaseExpired(c: Catalog, rid: Id, token: Id): (r: (Catalog, bool)) {
    if !Leased(c, rid, token) then (c, false)
    else PutBack(c, rid, c.groups[rid].(status := Released, leaseToken := None, leaseUntil := None))
  }

  function RetryExpired(c: Catalog, rid: Id, token: Id, next: int): (r: (Catalog, bool)) {
    if !Leased(c, rid, token) then (c, false)
    else
      var g := c.groups[rid].(nextRetryAt := Some(next), leaseToken := None, leaseUntil := None);
      (c.(groups := c.groups[rid := g]), true)
  }
}
