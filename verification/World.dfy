/**
 Both stores together with everything in flight, as one process of the saga sees them. Each method is
 one of the saga's atomic actions carried out on the stores; between them other processes act.
 */
module World {
  import opened Wrappers
  import T = Trade
  import TI = TradeInvariants
  import C = Catalog
  import S = Saga
  import RL = RecoveryLease
  import EL = ExpiryLease
  import opened TradeDb
  import opened CatalogDb

  type Id = T.Id

  class World {
    const trade: TradeDb
    const catalog: CatalogDb
    var net: set<S.Msg>
    var used: set<Id>
    var claims: TI.Claims

    function State(): S.Sys
      reads this, trade, catalog
    {
      S.Sys(trade.Rows(), catalog.Rows(), net, used, claims)
    }

    constructor (s: S.Sys)
      ensures State() == s && fresh(trade) && fresh(catalog)
    {
      trade := new TradeDb(s.trade);
      catalog := new CatalogDb(s.catalog);
      net, used, claims := s.net, s.used, s.claims;
    }

    /** Any actions of any other processes. */
    method Others(actions: seq<S.Action>)
      modifies this, trade, catalog
      ensures State() == S.Run(old(State()), actions)
    {
      var s := S.Run(State(), actions);
      trade.Refresh(s.trade);
      catalog.Refresh(s.catalog);
      net, used, claims := s.net, s.used, s.claims;
    }

    method Claim(user: Id, no: Id, a: T.Attempt, now: int, expiresAt: int) returns (r: T.ClaimResult)
      requires S.FreshAttempt(State(), a)
      modifies this, trade
      ensures State() == S.DoClaim(old(State()), user, no, a, now, expiresAt)
      ensures r == T.ClaimPayment(old(trade.Rows()), user, no, a, now).1
    {
      r := trade.ClaimPayment(user, no, a, now);
      used := used + {a.id, a.reservationId};
      if r.Claimed? {
        net := net + {S.ReserveSent(S.RequestFor(r.order, no, a, expiresAt))};
        claims := claims[a.id := TI.Claim(no, a.reservationId, r.order.items)];
      }
    }

    method Reserve(q: C.ReserveRequest, now: int) returns (r: C.ReserveResult)
      requires S.ReserveSent(q) in net
      modifies this, catalog
      ensures State() == S.DoReserve(old(State()), q, now)
      ensures r == C.ReserveStock(old(catalog.Rows()), q, now).1
      ensures r.Holding? && r.group.status.Reserved? ==>
        S.SeenReserved(T.Attempt(q.attemptId, q.reservationId)) in net
    {
      r := catalog.ReserveStock(q, now);
      if r.Holding? && r.group.status.Reserved? {
        net := net + {S.SeenReserved(T.Attempt(q.attemptId, q.reservationId))};
      }
    }

    method GetReservation(rid: Id) returns (g: Option<C.Group>)
      modifies this
      ensures State() == S.DoObserve(old(State()), rid)
      ensures g == if rid in catalog.groups then Some(catalog.groups[rid]) else None
    {
      g := if rid in catalog.groups then Some(catalog.groups[rid]) else None;
      if g.Some? && g.value.status.Reserved? {
        net := net + {S.SeenReserved(T.Attempt(g.value.attemptId, rid))};
      }
    }

    method Settle(user: Id, no: Id, a: T.Attempt) returns (r: T.SettleResult)
      requires S.SeenReserved(a) in net
      modifies trade
      ensures State() == S.DoSettle(old(State()), user, no, a)
      ensures r == T.SettleWalletPayment(old(trade.Rows()), user, no, a).1
      ensures r.Settled? || r.WasPaid? ==>
        T.Owns(State().trade, user, no) && State().trade.orders[no].status == T.Paid
    {
      r := trade.SettleWalletPayment(user, no, a);
    }

    method Reset(user: Id, no: Id, a: T.Attempt, release: bool) returns (changed: bool)
      modifies this, trade
      ensures State() == S.DoResetOrder(old(State()), user, no, a, release)
      ensures changed == T.ResetPaymentClaim(old(trade.Rows()), user, no, a).1
    {
      changed := trade.ResetPaymentClaim(user, no, a);
      if changed && release {
        net := net + {S.ReleaseSent(a)};
      }
    }

    /** Leases up to `limit` stale claims in one transaction; a row the scan cannot read undoes it. */
    method LeaseStale(limit: nat, now: int, lease: int, tokens: seq<Id>, locked: set<Id>)
      returns (leases: Option<seq<T.Lease>>)
      requires |tokens| == limit && forall i | 0 <= i < limit :: tokens[i] !in used
      requires forall i, j | 0 <= i < j < limit :: tokens[i] != tokens[j]
      modifies this, trade
      ensures leases.None? ==>
        && State() == old(State())
        && exists no | no in trade.orders :: T.Stale(trade.orders[no], now, lease) && trade.orders[no].payment.None?
      ensures leases.Some? ==>
        && FirstStale(old(trade.orders), leases.value, limit, now, lease, tokens, locked)
        && State() == S.Run(old(State()), RL.Actions(leases.value, now, lease))
    {
      ghost var s := State();
      leases := trade.LeaseStale(limit, now, lease, tokens, locked);
      if leases.Some? {
        used := used + RL.Tokens(leases.value);
        RL.FirstIsLeasable(s, leases.value, limit, now, lease, tokens, locked);
        RL.LeasingIsARun(s, leases.value, now, lease);
      }
    }

    method RecoverReset(user: Id, no: Id, a: T.Attempt, token: Id, release: bool) returns (changed: bool)
      modifies this, trade
      ensures State() == S.DoRecoverReset(old(State()), user, no, a, token, release)
      ensures changed == T.RecoveryReset(old(trade.Rows()), user, no, a, token).1
    {
      changed := trade.RecoveryReset(user, no, a, token);
      if changed && release {
        net := net + {S.ReleaseSent(a)};
      }
    }

    method Release(a: T.Attempt)
      requires S.ReleaseSent(a) in net
      modifies catalog
      ensures State() == S.DoDeliverRelease(old(State()), a)
    {
      var ok := catalog.ReleaseReservation(a.reservationId);
    }

    method LeaseExpired(limit: nat, now: int, lease: int, tokens: seq<Id>, locked: set<Id>)
      returns (items: seq<C.ExpiredGroup>)
      requires |tokens| >= limit
      modifies catalog
      ensures FirstExpired(old(catalog.groups), items, limit, now, tokens, locked)
      ensures State() == S.Run(old(State()), EL.Actions(items, now, lease))
    {
      ghost var s := State();
      items := catalog.LeaseExpired(limit, now, lease, tokens, locked);
      EL.LeasingIsARun(s, items, now, lease);
    }

    /** order-service's answer about one attempt, if it knows it. */
    method LookUp(no: Id, attemptId: Id) returns (r: Option<T.Status>)
      modifies this
      ensures r.None? <==> T.SettlementRows(trade.Rows(), no, attemptId) == {}
      ensures r.Some? ==>
        && r.value in T.SettlementRows(trade.Rows(), no, attemptId)
        && State() == S.DoLookUp(old(State()), no, attemptId, r.value)
        && S.StatusSaid(no, attemptId, r.value) in net
      ensures r.None? ==> State() == old(State())
    {
      if attemptId in trade.history && trade.history[attemptId].orderNo == no {
        r := Some(trade.history[attemptId].status);
      } else if no in trade.orders && trade.orders[no].payment.Some?
           && trade.orders[no].payment.value.id == attemptId {
        r := Some(trade.orders[no].status);
      } else {
        return None;
      }
      net := net + {S.StatusSaid(no, attemptId, r.value)};
    }

    method ConfirmExpired(rid: Id, token: Id) returns (ok: bool)
      requires S.Told(State(), rid, {T.Paid})
      modifies catalog
      ensures State() == S.DoConfirmGroup(old(State()), rid, token)
      ensures ok == C.Leased(old(catalog.Rows()), rid, token)
    {
      ok := catalog.ConfirmExpired(rid, token);
    }

    method ReleaseExpired(rid: Id, token: Id) returns (ok: bool)
      requires S.Told(State(), rid, {T.PendingPayment, T.Closed})
      modifies catalog
      ensures State() == S.DoReleaseGroup(old(State()), rid, token)
      ensures ok == C.ReleaseExpired(old(catalog.Rows()), rid, token).1
    {
      ok := catalog.ReleaseExpired(rid, token);
    }

    method RetryExpired(rid: Id, token: Id, next: int) returns (ok: bool)
      modifies catalog
      ensures State() == S.Apply(old(State()), S.RetryGroup(rid, token, next))
      ensures ok == C.Leased(old(catalog.Rows()), rid, token)
    {
      ok := catalog.RetryExpired(rid, token, next);
    }
  }
}
