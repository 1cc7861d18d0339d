/** product-service's reservation tables as a mutable store: each method is one transaction. */
module CatalogDb {
  import opened Wrappers
  import C = Catalog
  import opened Selection

  class CatalogDb {
    var stock: C.Stock
    var groups: map<Id, C.Group>
    var consumed: set<Id>

    function Rows(): C.Catalog
      reads this
    {
      C.Catalog(stock, groups, consumed)
    }

    constructor (rows: C.Catalog)
      ensures Rows() == rows
    {
      stock, groups, consumed := rows.stock, rows.groups, rows.consumed;
    }

    /** Other processes' committed transactions become visible. */
    method Refresh(rows: C.Catalog)
      modifies this
      ensures Rows() == rows
    {
      stock, groups, consumed := rows.stock, rows.groups, rows.consumed;
    }

    method ReserveStock(q: C.ReserveRequest, now: int) returns (r: C.ReserveResult)
      modifies this
      ensures (Rows(), r) == C.ReserveStock(old(Rows()), q, now)
    {
      if !C.ValidRequest(q, now) {
        return C.ReserveInvalid;
      }
      if q.reservationId in groups {
        var existing := groups[q.reservationId];
        return if C.SamePayload(existing, q) then C.Holding(existing) else C.Conflict;
      }
      var left: C.Stock := stock;
      for i := 0 to |q.items|
        invariant Rows() == old(Rows())
        invariant C.Deduct(stock, q.items) == C.Deduct(left, q.items[i..])
      {
        var item := q.items[i];
        if item.sku !in left || left[item.sku] < item.quantity {
          return C.OutOfStock;
        }
        left := left[item.sku := left[item.sku] - item.quantity];
      }
      stock := left;
      groups := groups[q.reservationId := C.NewGroup(q)];
      return C.Holding(C.NewGroup(q));
    }

    method PutBack(rid: Id, g: C.Group) returns (ok: bool)
      modifies this
      ensures (Rows(), ok) == C.PutBack(old(Rows()), rid, g)
    {
      var restored: C.Stock := stock;
      for i := 0 to |g.items|
        invariant Rows() == old(Rows())
        invariant C.Restore(stock, g.items) == C.Restore(restored, g.items[i..])
      {
        var item := g.items[i];
        if item.sku !in restored {
          return false;
        }
        restored := restored[item.sku := restored[item.sku] + item.quantity];
      }
      stock, groups := restored, groups[rid := g];
      return true;
    }

    method ReleaseReservation(rid: Id) returns (ok: bool)
      modifies this
      ensures (Rows(), ok) == C.ReleaseReservation(old(Rows()), rid)
    {
      if rid !in groups {
        return false;
      }
      match groups[rid].status {
        case Released => return true;
        case Confirmed => return false;
        case Reserved => ok := PutBack(rid, groups[rid].(status := C.Released));
      }
    }

    method ConfirmConsumed(eventId: Id, rid: Id, orderNo: Id, attemptId: Id) returns (ok: bool)
      modifies this
      ensures (Rows(), ok) == C.ConfirmConsumed(old(Rows()), eventId, rid, orderNo, attemptId)
    {
      if eventId in consumed {
        return true;
      }
      if rid !in groups || groups[rid].orderNo != orderNo || groups[rid].attemptId != attemptId {
        return false;
      }
      match groups[rid].status {
        case Released => return false;
        case Confirmed =>
        case Reserved => groups := groups[rid := groups[rid].(status := C.Confirmed)];
      }
      consumed := consumed + {eventId};
      return true;
    }

    /** Leases the first expired, unlocked groups in reservation order, each under a new token. */
    method LeaseExpired(limit: nat, now: int, lease: int, tokens: seq<Id>, locked: set<Id>)
      returns (items: seq<C.ExpiredGroup>)
      requires |tokens| >= limit
      modifies this
      ensures FirstExpired(old(groups), items, limit, now, tokens, locked)
      ensures Rows() == C.LeaseGroups(old(Rows()), items, now, lease)
    {
      items := SelectExpired(groups, limit, now, tokens, locked);
      var rows := Rows();
      for i := 0 to |items|
        invariant C.LeaseGroups(old(Rows()), items, now, lease) == C.LeaseGroups(rows, items[i..], now, lease)
      {
        rows := C.LeaseExpired(rows, items[i].reservationId, items[i].token, now, lease);
        assert items[i..][0] == items[i] && items[i..][1..] == items[i + 1..];
      }
      Refresh(rows);
    }

    method ReleaseExpired(rid: Id, token: Id) returns (ok: bool)
      modifies this
      ensures (Rows(), ok) == C.ReleaseExpired(old(Rows()), rid, token)
    {
      if !C.Leased(Rows(), rid, token) {
        return false;
      }
      ok := PutBack(rid, groups[rid].(status := C.Released, leaseToken := None, leaseUntil := None));
    }

    method ConfirmExpired(rid: Id, token: Id) returns (ok: bool)
      modifies this
      ensures (Rows(), ok) == C.ConfirmExpired(old(Rows()), rid, token)
    {
      ok := C.Leased(Rows(), rid, token);
      if ok {
        groups := groups[rid := groups[rid].(status := C.Confirmed, leaseToken := None, leaseUntil := None)];
      }
    }

    method RetryExpired(rid: Id, token: Id, next: int) returns (ok: bool)
      modifies this
      ensures (Rows(), ok) == C.RetryExpired(old(Rows()), rid, token, next)
    {
      ok := C.Leased(Rows(), rid, token);
      if ok {
        groups := groups[rid := groups[rid].(nextRetryAt := Some(next), leaseToken := None, leaseUntil := None)];
      }
    }
  }

  function ExpiredGroups(groups: map<Id, C.Group>, now: int, locked: set<Id>): set<Id> {
    set rid | rid in groups && C.Expired(groups[rid], now) && rid !in locked
  }

  function ReservationIds(items: seq<C.ExpiredGroup>): (r: seq<Id>)
    ensures |r| == |items|
  {
    seq(|items|, i requires 0 <= i < |items| => items[i].reservationId)
  }

  function ByReservation(): Id -> int {
    (rid: Id) => 0
  }

  predicate IsGroup(groups: map<Id, C.Group>, item: C.ExpiredGroup) {
    && item.reservationId in groups
    && groups[item.reservationId].orderNo == item.orderNo
    && groups[item.reservationId].attemptId == item.attemptId
  }

  /** The first expired groups in order, under the drawn tokens. */
  ghost predicate FirstExpired(
    groups: map<Id, C.Group>, items: seq<C.ExpiredGroup>, limit: nat, now: int, tokens: seq<Id>, locked: set<Id>)
    requires |tokens| >= limit
  {
    && IsFirst(ReservationIds(items), ExpiredGroups(groups, now, locked), limit, ByReservation())
    && forall i | 0 <= i < |items| :: IsGroup(groups, items[i]) && items[i].token == tokens[i]
  }

  method SelectExpired(groups: map<Id, C.Group>, limit: nat, now: int, tokens: seq<Id>, locked: set<Id>)
    returns (items: seq<C.ExpiredGroup>)
    requires |tokens| >= limit
    ensures FirstExpired(groups, items, limit, now, tokens, locked)
  {
    var rids := First(ExpiredGroups(groups, now, locked), limit, ByReservation());
    items := [];
    for i := 0 to |rids|
      invariant ReservationIds(items) == rids[..i]
      invariant forall k | 0 <= k < i :: IsGroup(groups, items[k]) && items[k].token == tokens[k]
    {
      var group := groups[rids[i]];
      items := items + [C.ExpiredGroup(rids[i], group.orderNo, group.attemptId, tokens[i])];
    }
    assert ReservationIds(items) == rids;
  }
}
