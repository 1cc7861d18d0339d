/** A batch of expired reservations is leased in one transaction, which amounts to one saga action per group. */
module ExpiryLease {
  import opened Wrappers
  import C = Catalog
  import S = Saga

  function Actions(items: seq<C.ExpiredGroup>, now: int, lease: int): (r: seq<S.Action>)
    ensures |r| == |items|
  {
    seq(|items|, i requires 0 <= i < |items| => S.LeaseGroup(items[i].reservationId, items[i].token, now, lease))
  }

  lemma {:induction false} LeasingIsARun(s: S.Sys, items: seq<C.ExpiredGroup>, now: int, lease: int)
    ensures S.Run(s, Actions(items, now, lease)) == s.(catalog := C.LeaseGroups(s.catalog, items, now, lease))
    decreases |items|
  {
    if items != [] {
      var actions := Actions(items, now, lease);
      assert actions[1..] == Actions(items[1..], now, lease);
      LeasingIsARun(S.Apply(s, actions[0]), items[1..], now, lease);
    }
  }

  /** What leasing a batch leaves of each of its groups, and of the others. */
  lemma {:induction false} LeasedGroups(c: C.Catalog, items: seq<C.ExpiredGroup>, now: int, lease: int)
    requires forall i | 0 <= i < |items| ::
      items[i].reservationId in c.groups && C.Expired(c.groups[items[i].reservationId], now)
    requires forall i, j | 0 <= i < j < |items| :: items[i].reservationId != items[j].reservationId
    ensures var c' := C.LeaseGroups(c, items, now, lease);
      && c'.stock == c.stock && c'.consumed == c.consumed && c'.groups.Keys == c.groups.Keys
      && (forall i | 0 <= i < |items| ::
            c'.groups[items[i].reservationId] ==
              c.groups[items[i].reservationId].(leaseToken := Some(items[i].token), leaseUntil := Some(now + lease)))
      && (forall rid | rid in c.groups && (forall i | 0 <= i < |items| :: items[i].reservationId != rid) ::
            c'.groups[rid] == c.groups[rid])
    decreases |items|
  {
    if items != [] {
      var next := C.LeaseExpired(c, items[0].reservationId, items[0].token, now, lease);
      forall i | 0 <= i < |items[1..]|
        ensures items[1..][i].reservationId in next.groups
        ensures next.groups[items[1..][i].reservationId] == c.groups[items[i + 1].reservationId] {}
      LeasedGroups(next, items[1..], now, lease);
      forall i | 0 < i < |items| ensures items[i] == items[1..][i - 1] {}
    }
  }
}
