/** A recovery batch is leased in one transaction, which amounts to one saga action per leased claim. */
module RecoveryLease {
  import opened Wrappers
  import T = Trade
  import S = Saga
  import ST = SagaTheorems
  import DB = TradeDb
  import opened Selection

  type Id = T.Id

  function Actions(leases: seq<T.Lease>, now: int, lease: int): (r: seq<S.Action>)
    ensures |r| == |leases|
  {
    seq(|leases|, i requires 0 <= i < |leases| => S.LeaseOrder(leases[i].orderNo, leases[i].token, now, lease))
  }

  function Tokens(leases: seq<T.Lease>): set<Id> {
    set i | 0 <= i < |leases| :: leases[i].token
  }

  /** Rows of different orders, stale and unleased, under tokens nobody else drew. */
  ghost predicate Leasable(s: S.Sys, leases: seq<T.Lease>, now: int, lease: int) {
    && (forall i | 0 <= i < |leases| ::
          && DB.IsLeaseOf(s.trade.orders, leases[i], now, lease)
          && leases[i].token !in s.used)
    && (forall i, j | 0 <= i < j < |leases| ::
          leases[i].orderNo < leases[j].orderNo && leases[i].token != leases[j].token)
  }

  lemma FirstIsLeasable(
    s: S.Sys, leases: seq<T.Lease>, limit: nat, now: int, lease: int, tokens: seq<Id>, locked: set<Id>)
    requires |tokens| == limit && forall i | 0 <= i < limit :: tokens[i] !in s.used
    requires forall i, j | 0 <= i < j < limit :: tokens[i] != tokens[j]
    requires DB.FirstStale(s.trade.orders, leases, limit, now, lease, tokens, locked)
    ensures Leasable(s, leases, now, lease)
  {
    forall i, j | 0 <= i < j < |leases| ensures leases[i].orderNo < leases[j].orderNo {
      assert Before(DB.ById(), DB.OrderNos(leases)[i], DB.OrderNos(leases)[j]);
    }
  }

  lemma {:induction false} OthersUnleased(t: T.Trade, leases: seq<T.Lease>, until: int, no: Id)
    requires forall i | 0 <= i < |leases| :: leases[i].orderNo in t.orders && leases[i].orderNo != no
    requires no in t.orders
    ensures T.LeaseAll(t, leases, until).orders[no] == t.orders[no]
    decreases |leases|
  {
    if leases != [] {
      OthersUnleased(t, leases[..|leases| - 1], until, no);
    }
  }

  /** What leasing a batch leaves of each of its rows. */
  lemma {:induction false} LeasedRow(t: T.Trade, leases: seq<T.Lease>, until: int, i: nat)
    requires forall k | 0 <= k < |leases| :: leases[k].orderNo in t.orders
    requires forall j, k | 0 <= j < k < |leases| :: leases[j].orderNo < leases[k].orderNo
    requires i < |leases|
    ensures T.LeaseAll(t, leases, until).orders[leases[i].orderNo]
      == t.orders[leases[i].orderNo].(recoveryToken := Some(leases[i].token), leaseUntil := Some(until))
    decreases |leases|
  {
    var n := |leases| - 1;
    if i < n {
      LeasedRow(t, leases[..n], until, i);
    } else {
      OthersUnleased(t, leases[..n], until, leases[n].orderNo);
    }
  }

  /** The last lease of a batch, as an action on the state the others leave. */
  lemma LastLease(s: S.Sys, t: T.Trade, leases: seq<T.Lease>, now: int, lease: int)
    requires leases != [] && Leasable(s, leases, now, lease)
    requires t == T.LeaseAll(s.trade, leases[..|leases| - 1], now + lease)
    ensures var last := leases[|leases| - 1];
      S.DoLease(s.(trade := t, used := s.used + Tokens(leases[..|leases| - 1])), last.orderNo, last.token, now, lease)
        == s.(trade := T.LeaseAll(s.trade, leases, now + lease), used := s.used + Tokens(leases))
  {
    var n := |leases| - 1;
    OthersUnleased(s.trade, leases[..n], now + lease, leases[n].orderNo);
    TokensGrow(leases);
    assert s.used + Tokens(leases[..n]) + {leases[n].token} == s.used + Tokens(leases);
    assert DB.IsLeaseOf(s.trade.orders, leases[n], now, lease);
  }

  lemma TokensGrow(leases: seq<T.Lease>)
    requires leases != []
    ensures Tokens(leases) == Tokens(leases[..|leases| - 1]) + {leases[|leases| - 1].token}
  {
    forall i | 0 <= i < |leases| - 1
      ensures leases[i].token in Tokens(leases[..|leases| - 1])
    {
      assert leases[..|leases| - 1][i] == leases[i];
    }
  }

  lemma DropLast(s: S.Sys, leases: seq<T.Lease>, now: int, lease: int)
    requires leases != [] && Leasable(s, leases, now, lease)
    ensures Leasable(s, leases[..|leases| - 1], now, lease)
    ensures Actions(leases, now, lease) == Actions(leases[..|leases| - 1], now, lease)
      + [S.LeaseOrder(leases[|leases| - 1].orderNo, leases[|leases| - 1].token, now, lease)]
  {
  }

  lemma RunOneMore(s: S.Sys, actions: seq<S.Action>, no: Id, token: Id, now: int, lease: int)
    ensures S.Run(s, actions + [S.LeaseOrder(no, token, now, lease)])
      == S.DoLease(S.Run(s, actions), no, token, now, lease)
  {
    var action := S.LeaseOrder(no, token, now, lease);
    ST.RunAppends(s, actions, [action]);
    assert [action][1..] == [];
  }

  /** Leasing a batch in one transaction is the run of its leases, one by one. */
  lemma {:induction false} LeasingIsARun(s: S.Sys, leases: seq<T.Lease>, now: int, lease: int)
    requires Leasable(s, leases, now, lease)
    ensures S.Run(s, Actions(leases, now, lease))
      == s.(trade := T.LeaseAll(s.trade, leases, now + lease), used := s.used + Tokens(leases))
    decreases |leases|
  {
    if leases == [] {
      assert s.used + Tokens(leases) == s.used;
    } else {
      var n := |leases| - 1;
      DropLast(s, leases, now, lease);
      LeasingIsARun(s, leases[..n], now, lease);
      RunOneMore(s, Actions(leases[..n], now, lease), leases[n].orderNo, leases[n].token, now, lease);
      LastLease(s, T.LeaseAll(s.trade, leases[..n], now + lease), leases, now, lease);
    }
  }
}
