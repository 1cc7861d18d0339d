/** The recovery worker: leases stale claims and resolves each by what product-service says of its stock. */
module Recovery {
  import opened Wrappers
  import opened RecoveryOutcome
  import opened World
  import T = Trade
  import TI = TradeInvariants
  import C = Catalog
  import S = Saga
  import SI = SagaInvariants
  import ST = SagaTheorems
  import P = PayWallet

  type Id = T.Id

  /** One fate per timed call, and what other processes do before it. */
  datatype Calls = Calls(get: Fate, settle: Fate, reset: Fate, release: Fate, done: Fate)

  const WORST_CASE_CALLS := 5

  predicate AllAnswered(calls: Calls) {
    calls.get == calls.settle == calls.reset == calls.release == calls.done == Answered
  }

  /** At most this order's row differs. */
  ghost predicate OnlyOrder(t: T.Trade, t': T.Trade, no: Id) {
    forall k | k in t.orders && k != no :: k in t'.orders && t'.orders[k] == t.orders[k]
  }

  ghost predicate Settled(s: S.Sys, l: T.Lease) {
    ST.Resolved(s, l.orderNo, l.attempt)
  }

  /** A lease was taken on a claim; the claim may since have been resolved by others. */
  ghost predicate Leased(s: S.Sys, l: T.Lease) {
    P.Claims(s, l.orderNo, l.attempt) && T.Owns(s.trade, l.userId, l.orderNo)
  }

  lemma LeasedStands(s: S.Sys, initial: C.Stock, l: T.Lease, more: seq<S.Action>)
    requires ST.Reachable(s, initial) && Leased(s, l)
    ensures Leased(S.Run(s, more), l)
  {
    ST.ReachableRun(s, initial, more);
  }

  lemma SettledStands(s: S.Sys, initial: C.Stock, l: T.Lease, more: seq<S.Action>)
    requires ST.Reachable(s, initial) && Settled(s, l)
    ensures Settled(S.Run(s, more), l)
  {
    ST.ReachableRun(s, initial, more);
  }

  lemma RecoverResetFiles(s: S.Sys, initial: C.Stock, l: T.Lease, release: bool)
    requires ST.Reachable(s, initial) && Leased(s, l)
    requires T.RecoveryReset(s.trade, l.userId, l.orderNo, l.attempt, l.token).1
    ensures Settled(S.DoRecoverReset(s, l.userId, l.orderNo, l.attempt, l.token, release), l)
  {
    ST.ReachableHolds(s, initial);
    TI.HeldAttemptIsNew(s.trade, s.claims, l.orderNo, l.attempt);
  }

  /** Confirmed stock means the order was paid: recovery may leave it alone. */
  lemma ConfirmedIsSettled(s: S.Sys, initial: C.Stock, l: T.Lease)
    requires ST.Reachable(s, initial) && Leased(s, l)
    requires l.attempt.reservationId in s.catalog.groups
    requires s.catalog.groups[l.attempt.reservationId].status == C.Confirmed
    requires s.catalog.groups[l.attempt.reservationId].attemptId == l.attempt.id
    ensures Settled(s, l)
  {
    ST.ConfirmedMeansPaid(s, initial, l.attempt.reservationId);
    ST.ReachableHolds(s, initial);
    assert SI.GroupTrue(s, l.attempt.reservationId, s.catalog.groups[l.attempt.reservationId]);
  }

  method Done(w: World, ghost initial: C.Stock, l: T.Lease, fate: Fate) returns (ok: bool, ghost trace: seq<S.Action>)
    requires ST.Reachable(w.State(), initial)
    modifies w.trade
    ensures w.State() == S.Run(old(w.State()), trace)
    ensures ok <==> fate == Answered
    ensures ok ==> w.State() == GiveBack(old(w.State()), l)
    ensures OnlyOrder(old(w.State().trade), w.State().trade, l.orderNo)
  {
    ghost var s := w.State();
    trace := [];
    if fate == Rejected {
      return false, trace;
    }
    w.trade.RecoveryDone(l.userId, l.orderNo, l.attempt, l.token);
    trace := [S.RecoverDone(l.userId, l.orderNo, l.attempt, l.token)];
    P.Extend(s, initial, [], trace);
    assert [] + trace == trace;
    ok := fate == Answered;
  }

  /** Two timed calls at most: asks for the release of a resolved attempt's stock, and gives the lease back. */
  method ReleaseAndDone(w: World, ghost initial: C.Stock, l: T.Lease, release: bool, calls: Calls)
    returns (ok: bool, made: nat, ghost trace: seq<S.Action>)
    requires ST.Reachable(w.State(), initial) && Settled(w.State(), l)
    requires release ==> S.ReleaseSent(l.attempt) in w.net
    modifies w.trade, w.catalog
    ensures w.State() == S.Run(old(w.State()), trace)
    ensures made <= 2
    ensures Settled(w.State(), l)
    ensures ok <==> calls.done == Answered
    ensures AllAnswered(calls) ==> w.State() == ReleaseAndGiveBack(old(w.State()), l, release)
    ensures OnlyOrder(old(w.State().trade), w.State().trade, l.orderNo)
  {
    ghost var s := w.State();
    made, trace := 1, [];
    if release {
      made := 2;
      if calls.release != Rejected {
        w.Release(l.attempt);
        trace := [S.DeliverRelease(l.attempt)];
        P.Extend(s, initial, [], trace);
        assert [] + trace == trace;
      }
    }
    ghost var rest;
    ok, rest := Done(w, initial, l, calls.done);
    P.Extend(s, initial, trace, rest);
    trace := trace + rest;
    SettledStands(s, initial, l, trace);
  }

  /** Up to three timed calls: the fenced reset, the release of its stock, and giving the lease back. */
  method Reset(w: World, ghost initial: C.Stock, l: T.Lease, release: bool, calls: Calls)
    returns (ok: bool, made: nat, ghost trace: seq<S.Action>)
    requires ST.Reachable(w.State(), initial) && Leased(w.State(), l)
    modifies w, w.trade, w.catalog
    ensures w.State() == S.Run(old(w.State()), trace)
    ensures made <= 3
    ensures ok ==> Settled(w.State(), l)
    ensures AllAnswered(calls) && Held(old(w.State()), l) ==> ok && w.State() == Undo(old(w.State()), l, release)
    ensures OnlyOrder(old(w.State().trade), w.State().trade, l.orderNo)
  {
    made, trace := 1, [];
    if calls.reset == Rejected {
      return false, made, trace;
    }
    ghost var s := w.State();
    var changed := w.RecoverReset(l.userId, l.orderNo, l.attempt, l.token, release);
    trace := [S.RecoverReset(l.userId, l.orderNo, l.attempt, l.token, release)];
    P.Extend(s, initial, [], trace);
    assert [] + trace == trace;
    if calls.reset == AnswerLost || !changed {
      return false, made, trace;
    }
    RecoverResetFiles(s, initial, l, release);
    ghost var rest;
    ok, made, rest := ReleaseAndDone(w, initial, l, release, calls);
    made := made + 1;
    ST.RunAppends(s, trace, rest);
    trace := trace + rest;
  }

  lemma NoStoreError(s: S.Sys, initial: C.Stock, l: T.Lease)
    requires ST.Reachable(s, initial)
    ensures !T.SettleWalletPayment(s.trade, l.userId, l.orderNo, l.attempt).1.SettleStoreError?
  {
    ST.ReachableHolds(s, initial);
    TI.SettleNeverHitsAUniqueKey(s.trade, s.claims, l.userId, l.orderNo, l.attempt);
  }

  /** A reservation made under a claim carries that claim's attempt. */
  lemma GroupIsTheAttempts(s: S.Sys, initial: C.Stock, l: T.Lease)
    requires ST.Reachable(s, initial) && Leased(s, l) && l.attempt.reservationId in s.catalog.groups
    ensures s.catalog.groups[l.attempt.reservationId].attemptId == l.attempt.id
  {
    ST.ReachableHolds(s, initial);
    assert SI.GroupTrue(s, l.attempt.reservationId, s.catalog.groups[l.attempt.reservationId]);
  }

  /** After the settlement was answered: short of money both are given up, otherwise the lease goes back. */
  method FinishSettled(
    w: World, ghost initial: C.Stock, l: T.Lease, settled: T.SettleResult, calls: Calls, others: seq<S.Action>)
    returns (ok: bool, made: nat, ghost trace: seq<S.Action>)
    requires ST.Reachable(w.State(), initial) && Leased(w.State(), l)
    requires settled.Settled? || settled.WasPaid? ==> Settled(w.State(), l)
    modifies w, w.trade, w.catalog
    ensures w.State() == S.Run(old(w.State()), trace)
    ensures made <= 3
    ensures ok ==> Settled(w.State(), l)
    ensures AllAnswered(calls) && others == [] && settled.Insufficient? && Held(old(w.State()), l) ==>
      ok && w.State() == Undo(old(w.State()), l, true)
    ensures AllAnswered(calls) && (settled.Settled? || settled.WasPaid?) ==>
      ok && w.State() == GiveBack(old(w.State()), l)
    ensures others == [] ==> OnlyOrder(old(w.State().trade), w.State().trade, l.orderNo)
  {
    ghost var s := w.State();
    if settled.Insufficient? {
      w.Others(others);
      trace := others;
      P.Extend(s, initial, [], trace);
      assert [] + trace == trace;
      LeasedStands(s, initial, l, others);
      ghost var rest;
      ok, made, rest := Reset(w, initial, l, true, calls);
      ST.RunAppends(s, trace, rest);
      trace := trace + rest;
    } else {
      made := 1;
      ok, trace := Done(w, initial, l, calls.done);
      if settled.Settled? || settled.WasPaid? {
        SettledStands(s, initial, l, trace);
      } else {
        ok := false;
      }
    }
  }

  /** The stock is held: settles the exact claim, or without the money gives both up. */
  method Resume(w: World, ghost initial: C.Stock, l: T.Lease, calls: Calls, others: nat -> seq<S.Action>)
    returns (ok: bool, made: nat, ghost trace: seq<S.Action>)
    requires ST.Reachable(w.State(), initial) && Leased(w.State(), l) && S.SeenReserved(l.attempt) in w.net
    modifies w, w.trade, w.catalog
    ensures w.State() == S.Run(old(w.State()), trace)
    ensures made <= 4
    ensures ok ==> Settled(w.State(), l)
    ensures AllAnswered(calls) && others(1) == [] && Held(old(w.State()), l) ==>
      ok && w.State() == Resumed(old(w.State()), l)
    ensures others(1) == [] ==> OnlyOrder(old(w.State().trade), w.State().trade, l.orderNo)
  {
    ghost var s := w.State();
    if calls.settle == Rejected {
      ok, trace := Done(w, initial, l, calls.done);
      return false, 2, trace;
    }
    NoStoreError(s, initial, l);
    var settled := w.Settle(l.userId, l.orderNo, l.attempt);
    trace := [S.SettleOrder(l.userId, l.orderNo, l.attempt)];
    P.Extend(s, initial, [], trace);
    assert [] + trace == trace;
    LeasedStands(s, initial, l, trace);
    ghost var rest;
    if calls.settle == AnswerLost {
      ok, rest := Done(w, initial, l, calls.done);
      ok, made := false, 2;
    } else {
      ok, made, rest := FinishSettled(w, initial, l, settled, calls, others(1));
      made := made + 1;
    }
    ST.RunAppends(s, trace, rest);
    trace := trace + rest;
  }

  /** A reply about a reservation stays good evidence while others act. */
  lemma AnswerStands(s: S.Sys, initial: C.Stock, l: T.Lease, trace: seq<S.Action>, more: seq<S.Action>)
    requires ST.Reachable(s, initial) && Leased(s, l)
    requires trace == [S.Observe(l.attempt.reservationId)] + more
    ensures var s' := S.Run(s, trace);
      && Leased(s', l)
      && (l.attempt.reservationId in s.catalog.groups ==>
            var g := s.catalog.groups[l.attempt.reservationId];
            g.attemptId == l.attempt.id ==>
              && (g.status == C.Reserved ==> S.SeenReserved(l.attempt) in s'.net)
              && (g.status == C.Confirmed ==> Settled(s', l)))
  {
    var rid := l.attempt.reservationId;
    LeasedStands(s, initial, l, trace);
    assert trace[0] == S.Observe(rid) && trace[1..] == more;
    ST.ReachableRun(s, initial, [S.Observe(rid)]);
    assert S.Run(s, [S.Observe(rid)]) == S.DoObserve(s, rid);
    if rid in s.catalog.groups && s.catalog.groups[rid].attemptId == l.attempt.id {
      if s.catalog.groups[rid].status == C.Reserved {
        P.MessageStands(S.DoObserve(s, rid), initial, S.SeenReserved(l.attempt), more);
      } else if s.catalog.groups[rid].status == C.Confirmed {
        ConfirmedIsSettled(s, initial, l);
        SettledStands(s, initial, l, trace);
      }
    }
  }

  /** What product-service's answer means for a leased claim. */
  method Resolve(
    w: World, ghost initial: C.Stock, l: T.Lease, group: Option<C.Group>, calls: Calls, others: nat -> seq<S.Action>)
    returns (ok: bool, made: nat, ghost trace: seq<S.Action>)
    requires ST.Reachable(w.State(), initial) && Leased(w.State(), l)
    requires group.Some? && group.value.attemptId == l.attempt.id ==>
      && (group.value.status == C.Reserved ==> S.SeenReserved(l.attempt) in w.net)
      && (group.value.status == C.Confirmed ==> Settled(w.State(), l))
    modifies w, w.trade, w.catalog
    ensures w.State() == S.Run(old(w.State()), trace)
    ensures made <= 4
    ensures ok ==> Settled(w.State(), l)
    ensures AllAnswered(calls) && others(1) == [] && Held(old(w.State()), l) ==>
      || (ok && w.State() == Resolved(old(w.State()), l, group))
      || (group.Some? && group.value.attemptId != l.attempt.id)
    ensures others(1) == [] ==> OnlyOrder(old(w.State().trade), w.State().trade, l.orderNo)
  {
    ghost var s := w.State();
    if calls.get != Answered || (group.Some? && group.value.attemptId != l.attempt.id) {
      ok, trace := Done(w, initial, l, calls.done);
      ok, made := false, 1;
    } else if group.None? || group.value.status == C.Released {
      ok, made, trace := Reset(w, initial, l, false, calls);
    } else if group.value.status == C.Confirmed {
      ok, trace := Done(w, initial, l, calls.done);
      SettledStands(s, initial, l, trace);
      made := 1;
    } else {
      ok, made, trace := Resume(w, initial, l, calls, others);
    }
  }

  /** What product-service knows of the reservation; others act before the worker does. */
  method AskProduct(w: World, ghost initial: C.Stock, l: T.Lease, others: seq<S.Action>)
    returns (group: Option<C.Group>, ghost trace: seq<S.Action>)
    requires ST.Reachable(w.State(), initial) && Leased(w.State(), l)
    modifies w, w.trade, w.catalog
    ensures w.State() == S.Run(old(w.State()), trace) && Leased(w.State(), l)
    ensures group.Some? ==>
      && group.value.attemptId == l.attempt.id
      && (group.value.status == C.Reserved ==> S.SeenReserved(l.attempt) in w.net)
      && (group.value.status == C.Confirmed ==> Settled(w.State(), l))
    ensures others == [] ==>
      w.State() == S.DoObserve(old(w.State()), l.attempt.reservationId) && group == GroupOf(old(w.State()), l)
  {
    ghost var s := w.State();
    var rid := l.attempt.reservationId;
    if rid in w.catalog.groups {
      GroupIsTheAttempts(s, initial, l);
    }
    group := w.GetReservation(rid);
    trace := [S.Observe(rid)];
    P.Extend(s, initial, [], trace);
    assert [] + trace == trace;
    w.Others(others);
    ST.RunAppends(s, trace, others);
    AnswerStands(s, initial, l, trace + others, others);
    trace := trace + others;
  }

  /**
   Resolves one leased claim in at most five timed calls. It reports success only once the attempt is
   settled or reset for good; on any failure the claim is left for a later pass. Undisturbed and with every
   call answered it always succeeds, and the tables before it decide whether the claim is paid or given up.
   */
  method Reconcile(w: World, ghost initial: C.Stock, l: T.Lease, calls: Calls, others: nat -> seq<S.Action>)
    returns (ok: bool, made: nat, ghost trace: seq<S.Action>)
    requires ST.Reachable(w.State(), initial) && Leased(w.State(), l)
    modifies w, w.trade, w.catalog
    ensures w.State() == S.Run(old(w.State()), trace)
    ensures made <= WORST_CASE_CALLS
    ensures ok ==> Settled(w.State(), l)
    ensures AllAnswered(calls) && others(0) == others(1) == [] && Held(old(w.State()), l) ==>
      ok && Recovers(old(w.State()), w.State(), l)
    ensures others(0) == others(1) == [] ==> OnlyOrder(old(w.State().trade), w.State().trade, l.orderNo)
  {
    ghost var s := w.State();
    if Held(s, l) {
      ResolvedRecovers(s, initial, l);
    }
    var group;
    group, trace := AskProduct(w, initial, l, others(0));
    ST.ReachableRun(s, initial, trace);
    ghost var rest;
    ok, made, rest := Resolve(w, initial, l, group, calls, others);
    made := made + 1;
    ST.RunAppends(s, trace, rest);
    trace := trace + rest;
  }
}
