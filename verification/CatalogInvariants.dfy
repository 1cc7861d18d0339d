/** Stock is conserved by every reservation transaction, and a group's fate is decided once. */
module CatalogInvariants {
  import opened Wrappers
  import opened Sums
  import opened Trade
  import opened Catalog

  function Quantity(items: seq<Item>, sku: Id): (r: nat) {
    if items == [] then 0 else (if items[0].sku == sku then items[0].quantity else 0) + Quantity(items[1..], sku)
  }

  /** What a group keeps out of the available stock: everything it asked for, until it is released. */
  function HeldOf(sku: Id): Group -> int {
    (g: Group) => if g.status == Released then 0 else Quantity(g.items, sku)
  }

  ghost function Held(c: Catalog, sku: Id): int {
    MapSum(c.groups, HeldOf(sku))
  }

  ghost predicate ItemsKnown(items: seq<Item>, stock: Stock) {
    forall i | 0 <= i < |items| :: items[i].sku in stock
  }

  /** Per SKU: available stock plus everything held is what there was at the start. */
  ghost predicate CatalogInv(c: Catalog, initial: Stock) {
    && c.stock.Keys == initial.Keys
    && (forall rid | rid in c.groups :: ItemsKnown(c.groups[rid].items, initial))
    && (forall sku | sku in initial :: c.stock[sku] + Held(c, sku) == initial[sku])
  }

  /** Facts about catalog_db that no later transaction undoes. */
  ghost predicate CatalogForward(c: Catalog, c': Catalog) {
    forall rid | rid in c.groups ::
      && rid in c'.groups
      && c'.groups[rid].orderNo == c.groups[rid].orderNo
      && c'.groups[rid].attemptId == c.groups[rid].attemptId
      && c'.groups[rid].items == c.groups[rid].items
      && (c.groups[rid].status != Reserved ==> c'.groups[rid].status == c.groups[rid].status)
  }

  /** At most the one group's row changes, in its lease columns or from RESERVED to the given status. */
  ghost predicate Decides(c: Catalog, c': Catalog, rid: Id, status: GroupStatus) {
    && c'.groups.Keys == c.groups.Keys
    && (forall r | r in c.groups && r != rid :: c'.groups[r] == c.groups[r])
    && (rid in c.groups ==>
          && c'.groups[rid].orderNo == c.groups[rid].orderNo
          && c'.groups[rid].attemptId == c.groups[rid].attemptId
          && c'.groups[rid].items == c.groups[rid].items
          && (c'.groups[rid].status == c.groups[rid].status
              || (c.groups[rid].status == Reserved && c'.groups[rid].status == status)))
  }

  lemma DecidesForward(c: Catalog, c': Catalog, rid: Id, status: GroupStatus)
    requires Decides(c, c', rid, status)
    ensures CatalogForward(c, c')
  {
  }

  lemma {:induction false} DeductTakes(stock: Stock, items: seq<Item>)
    requires Deduct(stock, items).Some?
    ensures var s := Deduct(stock, items).value;
      && s.Keys == stock.Keys
      && ItemsKnown(items, stock)
      && (forall sku | sku in stock :: s[sku] == stock[sku] - Quantity(items, sku))
    decreases |items|
  {
    if items != [] {
      var i := items[0];
      DeductTakes(stock[i.sku := stock[i.sku] - i.quantity], items[1..]);
      assert forall k | 0 < k < |items| :: items[k] == items[1..][k - 1];
    }
  }

  lemma {:induction false} RestoreGivesBack(stock: Stock, items: seq<Item>)
    requires ItemsKnown(items, stock)
    ensures Restore(stock, items).Some?
    ensures var s := Restore(stock, items).value;
      s.Keys == stock.Keys && forall sku | sku in stock :: s[sku] == stock[sku] + Quantity(items, sku)
    decreases |items|
  {
    if items != [] {
      var i := items[0];
      RestoreGivesBack(stock[i.sku := stock[i.sku] + i.quantity], items[1..]);
    }
  }

  lemma HoldKeeps(c: Catalog, initial: Stock, q: ReserveRequest)
    requires CatalogInv(c, initial) && q.reservationId !in c.groups
    ensures CatalogInv(Hold(c, q).0, initial)
  {
    var (c', r) := Hold(c, q);
    if r.Holding? {
      DeductTakes(c.stock, q.items);
      forall sku | sku in initial ensures c'.stock[sku] + Held(c', sku) == initial[sku] {
        MapSumUpdate(c.groups, q.reservationId, NewGroup(q), HeldOf(sku));
      }
    }
  }

  /** Storing a group row that holds just as much leaves stock conserved. */
  lemma SameHoldingKeeps(c: Catalog, c': Catalog, initial: Stock, rid: Id, g: Group)
    requires CatalogInv(c, initial) && rid in c.groups
    requires c'.stock == c.stock && c'.groups == c.groups[rid := g]
    requires g.items == c.groups[rid].items && (g.status == Released <==> c.groups[rid].status == Released)
    ensures CatalogInv(c', initial)
  {
    forall sku | sku in initial ensures c'.stock[sku] + Held(c', sku) == initial[sku] {
      MapSumUpdate(c.groups, rid, g, HeldOf(sku));
    }
  }

  lemma PutBackKeeps(c: Catalog, initial: Stock, rid: Id, g: Group)
    requires CatalogInv(c, initial) && rid in c.groups && c.groups[rid].status != Released
    requires g.items == c.groups[rid].items && g.status == Released
    ensures PutBack(c, rid, g).1
    ensures CatalogInv(PutBack(c, rid, g).0, initial)
  {
    RestoreGivesBack(c.stock, g.items);
    var c' := PutBack(c, rid, g).0;
    forall sku | sku in initial ensures c'.stock[sku] + Held(c', sku) == initial[sku] {
      MapSumUpdate(c.groups, rid, g, HeldOf(sku));
    }
  }

  lemma ReleaseKeeps(c: Catalog, initial: Stock, rid: Id)
    requires CatalogInv(c, initial)
    ensures CatalogInv(ReleaseReservation(c, rid).0, initial)
    ensures Decides(c, ReleaseReservation(c, rid).0, rid, Released)
    ensures ReleaseReservation(c, rid).1 <==> rid in c.groups && c.groups[rid].status != Confirmed
  {
    if rid in c.groups && c.groups[rid].status == Reserved {
      PutBackKeeps(c, initial, rid, c.groups[rid].(status := Released));
    }
  }

  /** The group is the one the event names, and its stock was not given back. */
  predicate Confirmable(c: Catalog, rid: Id, orderNo: Id, attemptId: Id) {
    && rid in c.groups && c.groups[rid].orderNo == orderNo && c.groups[rid].attemptId == attemptId
    && c.groups[rid].status != Released
  }

  /** A confirmation is consumed exactly when its group still holds the stock, and takes effect once. */
  lemma ConfirmKeeps(c: Catalog, initial: Stock, eventId: Id, rid: Id, orderNo: Id, attemptId: Id)
    requires CatalogInv(c, initial)
    ensures CatalogInv(ConfirmConsumed(c, eventId, rid, orderNo, attemptId).0, initial)
    ensures Decides(c, ConfirmConsumed(c, eventId, rid, orderNo, attemptId).0, rid, Confirmed)
    ensures var (c', ok) := ConfirmConsumed(c, eventId, rid, orderNo, attemptId);
      && (ok <==> eventId in c.consumed || Confirmable(c, rid, orderNo, attemptId))
      && c'.consumed == c.consumed + (if ok then {eventId} else {})
      && c'.groups == (if ok && eventId !in c.consumed then c.groups[rid := c.groups[rid].(status := Confirmed)]
                       else c.groups)
  {
    var (c', ok) := ConfirmConsumed(c, eventId, rid, orderNo, attemptId);
    if c' != c {
      SameHoldingKeeps(c, c', initial, rid, c'.groups[rid]);
    }
  }

  lemma GroupLeasesKeep(c: Catalog, initial: Stock, rid: Id, token: Id, now: int, lease: int)
    requires CatalogInv(c, initial)
    ensures var c' := LeaseExpired(c, rid, token, now, lease); CatalogInv(c', initial) && Decides(c, c', rid, Reserved)
    ensures var c' := RetryExpired(c, rid, token, now).0; CatalogInv(c', initial) && Decides(c, c', rid, Reserved)
  {
    var leased, retried := LeaseExpired(c, rid, token, now, lease), RetryExpired(c, rid, token, now).0;
    if leased != c {
      SameHoldingKeeps(c, leased, initial, rid, leased.groups[rid]);
    }
    if Leased(c, rid, token) {
      SameHoldingKeeps(c, retried, initial, rid, retried.groups[rid]);
    }
  }

  lemma GroupOutcomesKeep(c: Catalog, initial: Stock, rid: Id, token: Id)
    requires CatalogInv(c, initial)
    ensures var c' := ConfirmExpired(c, rid, token).0; CatalogInv(c', initial) && Decides(c, c', rid, Confirmed)
    ensures var c' := ReleaseExpired(c, rid, token).0; CatalogInv(c', initial) && Decides(c, c', rid, Released)
  {
    if Leased(c, rid, token) {
      var confirmed := ConfirmExpired(c, rid, token).0;
      SameHoldingKeeps(c, confirmed, initial, rid, confirmed.groups[rid]);
      PutBackKeeps(c, initial, rid, c.groups[rid].(status := Released, leaseToken := None, leaseUntil := None));
    }
  }
}
