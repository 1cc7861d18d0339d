/** The payment coordinator, step by step, with any other processes acting between its steps. */
module PayWallet {
  import opened Wrappers
  import opened PayOutcome
  import opened World
  import T = Trade
  import TI = TradeInvariants
  import C = Catalog
  import S = Saga
  import ST = SagaTheorems

  type Id = T.Id

  datatype Fates = Fates(
    claim: Fate, reserve: Fate, deadline: bool, settle: Fate, reset: Fate, release: Fate, read: Fate)

  /** Every call is answered and nobody else acts. */
  ghost predicate Alone(fates: Fates, others: nat -> seq<S.Action>) {
    && fates.claim == fates.reserve == fates.settle == fates.reset == fates.release == fates.read == Answered
    && forall i :: others(i) == []
  }

  /** Reads the order again once a payment path needs its durable state. */
  method ReadOrder(w: World, user: Id, no: Id, read: Fate) returns (r: Option<T.Order>)
    ensures r.Some? ==> T.Owns(w.trade.Rows(), user, no) && r.value == w.trade.orders[no]
    ensures r.None? ==> read != Answered || !T.Owns(w.trade.Rows(), user, no)
  {
    if read != Answered || no !in w.trade.orders || w.trade.orders[no].userId != user {
      return None;
    }
    return Some(w.trade.orders[no]);
  }

  /** A reset that missed: another process has paid the order, or taken the claim over. */
  method PaymentAfterFailedReset(w: World, user: Id, no: Id, read: Fate) returns (r: PayResult)
    ensures r.Success? ==>
      T.Owns(w.trade.Rows(), user, no) && w.trade.orders[no].status == T.Paid && r.order == w.trade.orders[no]
    ensures r.Failed? ==> r.code == NotFound || r.code == PaymentInProgress || r.code == Internal
  {
    var order := ReadOrder(w, user, no, read);
    if order.None? {
      return Failed(if read == Answered then NotFound else Internal);
    }
    match order.value.status {
      case Paid => return Success(order.value);
      case PaymentProcessing => return Failed(PaymentInProgress);
      case _ => return Failed(Internal);
    }
  }

  /** The answers that tell the caller this payment did not and will not happen. */
  predicate Refused(r: PayResult) {
    r == Failed(OutOfStock) || r == Failed(InsufficientBalance)
  }

  ghost predicate Claims(s: S.Sys, no: Id, a: T.Attempt) {
    a.id in s.claims && s.claims[a.id].orderNo == no && s.claims[a.id].reservationId == a.reservationId
  }

  /** What a caller may rely on: the order is PAID for success, the attempt was reset for a refusal. */
  ghost predicate Verdict(s: S.Sys, user: Id, no: Id, a: T.Attempt, r: PayResult) {
    && (r.Success? ==>
          && T.Owns(s.trade, user, no)
          && s.trade.orders[no].status == T.Paid
          && s.trade.orders[no].payment == r.order.payment
          && r.order.status == T.Paid
          && r.order.paidAmount == r.order.total == s.trade.orders[no].total)
    && (Refused(r) ==> Claims(s, no, a) && a.id in s.trade.history)
    && (r == Failed(InsufficientBalance) ==> S.ReleaseSent(a) in s.net)
  }

  /** Verdicts stay true whatever others do next. */
  lemma VerdictStands(
    s: S.Sys, initial: C.Stock, user: Id, no: Id, a: T.Attempt, r: PayResult, more: seq<S.Action>)
    requires ST.Reachable(s, initial) && Verdict(s, user, no, a, r)
    ensures Verdict(S.Run(s, more), user, no, a, r)
  {
    ST.ReachableRun(s, initial, more);
  }

  lemma ClaimsStand(s: S.Sys, initial: C.Stock, no: Id, a: T.Attempt, more: seq<S.Action>)
    requires ST.Reachable(s, initial) && Claims(s, no, a)
    ensures Claims(S.Run(s, more), no, a)
  {
    ST.ReachableRun(s, initial, more);
  }

  /** Others cannot unpay an order. */
  lemma PaidStands(s: S.Sys, initial: C.Stock, user: Id, no: Id, more: seq<S.Action>)
    requires ST.Reachable(s, initial) && T.Owns(s.trade, user, no) && s.trade.orders[no].status == T.Paid
    ensures var t := S.Run(s, more).trade;
      T.Owns(t, user, no) && t.orders[no].status == T.Paid && t.orders[no].paidAmount == t.orders[no].total
  {
    ST.ReachableRun(s, initial, more);
    PaidInFull(S.Run(s, more), initial, no);
  }

  lemma PaidInFull(s: S.Sys, initial: C.Stock, no: Id)
    requires ST.Reachable(s, initial) && no in s.trade.orders && s.trade.orders[no].status == T.Paid
    ensures s.trade.orders[no].paidAmount == s.trade.orders[no].total
  {
    ST.ReachableHolds(s, initial);
  }

  /** A message stays in flight. */
  lemma MessageStands(s: S.Sys, initial: C.Stock, m: S.Msg, more: seq<S.Action>)
    requires ST.Reachable(s, initial) && m in s.net
    ensures m in S.Run(s, more).net
  {
    ST.ReachableRun(s, initial, more);
  }

  /** After a refusal, no continuation ever pays an order under that attempt. */
  lemma RefusedIsNeverPaid(
    s: S.Sys, initial: C.Stock, user: Id, no: Id, a: T.Attempt, r: PayResult, actions: seq<S.Action>)
    requires ST.Reachable(s, initial) && Verdict(s, user, no, a, r)
    requires Refused(r)
    ensures var t := S.Run(s, actions).trade;
      && (forall n | n in t.orders :: t.orders[n].payment != Some(a))
      && a.reservationId !in t.outbox
  {
    ST.ReachableHolds(s, initial);
    ST.RunKeeps(s, initial, actions);
    var s' := S.Run(s, actions);
    assert Claims(s', no, a);
    TI.ResetIsNeverConfirmed(s'.trade, s'.claims, a.id);
  }

  /** One more action, or a stretch of other processes' actions, added to a run. */
  lemma Extend(s: S.Sys, initial: C.Stock, trace: seq<S.Action>, more: seq<S.Action>)
    requires ST.Reachable(s, initial)
    ensures S.Run(s, trace + more) == S.Run(S.Run(s, trace), more)
    ensures ST.Reachable(S.Run(s, trace + more), initial)
    ensures |more| == 1 ==> S.Run(s, trace + more) == S.Apply(S.Run(s, trace), more[0])
  {
    ST.RunAppends(s, trace, more);
    ST.ReachableRun(s, initial, trace + more);
    if |more| == 1 {
      assert more[1..] == [];
    }
  }

  /** Others act; the claim and a message in flight stand. */
  method Yield(w: World, ghost initial: C.Stock, no: Id, a: T.Attempt, ghost m: S.Msg, others: seq<S.Action>)
    requires ST.Reachable(w.State(), initial) && Claims(w.State(), no, a) && m in w.net
    modifies w, w.trade, w.catalog
    ensures w.State() == S.Run(old(w.State()), others) && ST.Reachable(w.State(), initial)
    ensures Claims(w.State(), no, a) && m in w.net
    ensures others == [] ==> w.State() == old(w.State())
  {
    ST.ReachableRun(w.State(), initial, others);
    ClaimsStand(w.State(), initial, no, a, others);
    MessageStands(w.State(), initial, m, others);
    w.Others(others);
  }

  /** A reset that applied makes the refusal true. */
  lemma RefusalIsTrue(s: S.Sys, initial: C.Stock, user: Id, no: Id, a: T.Attempt, refusal: Code)
    requires ST.Reachable(s, initial) && T.ResetPaymentClaim(s.trade, user, no, a).1 && Claims(s, no, a)
    requires refusal == OutOfStock || refusal == InsufficientBalance
    ensures var s' := S.DoResetOrder(s, user, no, a, refusal == InsufficientBalance);
      && Verdict(s', user, no, a, Failed(refusal))
      && (refusal == InsufficientBalance ==> S.ReleaseSent(a) in s'.net)
  {
    ST.ReachableHolds(s, initial);
    TI.HeldAttemptIsNew(s.trade, s.claims, no, a);
  }

  /** The stored order of a payment known to be PAID, read once others have had time to act. */
  method LoadPaid(w: World, ghost initial: C.Stock, user: Id, no: Id, a: T.Attempt, read: Fate, others: seq<S.Action>)
    returns (r: PayResult)
    requires ST.Reachable(w.State(), initial)
    requires T.Owns(w.State().trade, user, no) && w.State().trade.orders[no].status == T.Paid
    modifies w, w.trade, w.catalog
    ensures w.State() == S.Run(old(w.State()), others)
    ensures Verdict(w.State(), user, no, a, r)
    ensures r.Failed? ==> r.code == Internal
    ensures read == Answered ==> r.Success?
    ensures read == Answered && others == [] ==> r == Success(w.trade.orders[no])
  {
    PaidStands(w.State(), initial, user, no, others);
    w.Others(others);
    var order := ReadOrder(w, user, no, read);
    return if order.Some? then Success(order.value) else Failed(Internal);
  }

  /** After a reset that missed, the durable state decides. */
  method ReportMissedReset(
    w: World, ghost initial: C.Stock, user: Id, no: Id, a: T.Attempt, read: Fate, others: seq<S.Action>)
    returns (r: PayResult)
    requires ST.Reachable(w.State(), initial)
    modifies w, w.trade, w.catalog
    ensures w.State() == S.Run(old(w.State()), others)
    ensures Verdict(w.State(), user, no, a, r) && !Refused(r)
    ensures r.Failed? ==> r.code != InvalidArgument && r.code != IdempotencyConflict
  {
    ghost var s := w.State();
    w.Others(others);
    ST.ReachableRun(s, initial, others);
    r := PaymentAfterFailedReset(w, user, no, read);
    if r.Success? {
      PaidInFull(w.State(), initial, no);
    }
  }

  /** Asks for the release of a refused payment's stock; whether that call succeeds does not matter. */
  method ReleaseRefused(w: World, ghost initial: C.Stock, user: Id, no: Id, a: T.Attempt, release: Fate)
    returns (ghost trace: seq<S.Action>)
    requires ST.Reachable(w.State(), initial) && Verdict(w.State(), user, no, a, Failed(InsufficientBalance))
    modifies w.catalog
    ensures w.State() == S.Run(old(w.State()), trace)
    ensures Verdict(w.State(), user, no, a, Failed(InsufficientBalance))
    ensures release == Answered ==> w.State() == S.DoDeliverRelease(old(w.State()), a)
  {
    ghost var s := w.State();
    trace := [];
    if release != Rejected {
      w.Release(a);
      trace := [S.DeliverRelease(a)];
      assert S.Run(s, trace) == S.Apply(s, trace[0]) by {
        Extend(s, initial, [], trace);
        assert [] + trace == trace;
      }
      VerdictStands(s, initial, user, no, a, Failed(InsufficientBalance), trace);
    }
  }

  /** A reset that applied is the refusal, one that missed leaves it to the durable state. */
  method ReportReset(
    w: World, ghost initial: C.Stock, user: Id, no: Id, a: T.Attempt, refusal: Code, changed: bool, fates: Fates,
    others: seq<S.Action>)
    returns (r: PayResult, ghost trace: seq<S.Action>)
    requires ST.Reachable(w.State(), initial)
    requires refusal == OutOfStock || refusal == InsufficientBalance
    requires changed ==> Verdict(w.State(), user, no, a, Failed(refusal))
    modifies w, w.trade, w.catalog
    ensures w.State() == S.Run(old(w.State()), trace)
    ensures Verdict(w.State(), user, no, a, r)
    ensures r.Failed? ==> r.code != InvalidArgument && r.code != IdempotencyConflict
    ensures changed ==> r == Failed(refusal)
    ensures changed && fates.release == Answered ==>
      w.State() == if refusal == InsufficientBalance then S.DoDeliverRelease(old(w.State()), a) else old(w.State())
  {
    if !changed {
      trace := others;
      r := ReportMissedReset(w, initial, user, no, a, fates.read, others);
    } else {
      r, trace := Failed(refusal), [];
      if refusal == InsufficientBalance {
        trace := ReleaseRefused(w, initial, user, no, a, fates.release);
      }
    }
  }

  /** The exact-claim reset; one that applies makes the refusal true. */
  method ResetNow(w: World, ghost initial: C.Stock, user: Id, no: Id, a: T.Attempt, refusal: Code)
    returns (changed: bool)
    requires ST.Reachable(w.State(), initial) && Claims(w.State(), no, a)
    requires refusal == OutOfStock || refusal == InsufficientBalance
    modifies w, w.trade
    ensures w.State() == S.Run(old(w.State()), [S.ResetOrder(user, no, a, refusal == InsufficientBalance)])
    ensures ST.Reachable(w.State(), initial)
    ensures w.State() == S.DoResetOrder(old(w.State()), user, no, a, refusal == InsufficientBalance)
    ensures changed <==> T.Holds(old(w.State().trade), user, no, a)
    ensures changed ==> Verdict(w.State(), user, no, a, Failed(refusal))
  {
    ghost var s := w.State();
    ghost var reset := [S.ResetOrder(user, no, a, refusal == InsufficientBalance)];
    changed := w.Reset(user, no, a, refusal == InsufficientBalance);
    Extend(s, initial, [], reset);
    assert [] + reset == reset;
    if changed {
      RefusalIsTrue(s, initial, user, no, a, refusal);
    }
  }

  /** Gives the claim up, and on request its stock; a missed reset means the durable state must be read. */
  method ResetAndReport(
    w: World, ghost initial: C.Stock, user: Id, no: Id, a: T.Attempt, refusal: Code, fates: Fates,
    others: nat -> seq<S.Action>)
    returns (r: PayResult, ghost trace: seq<S.Action>)
    requires ST.Reachable(w.State(), initial) && Claims(w.State(), no, a)
    requires refusal == OutOfStock || refusal == InsufficientBalance
    modifies w, w.trade, w.catalog
    ensures w.State() == S.Run(old(w.State()), trace)
    ensures Verdict(w.State(), user, no, a, r)
    ensures r.Failed? ==> r.code != InvalidArgument && r.code != IdempotencyConflict
    ensures Alone(fates, others) && T.Holds(old(w.State().trade), user, no, a) ==>
      r == Failed(refusal) && w.State() == GiveUp(old(w.State()), user, no, a, refusal == InsufficientBalance)
  {
    ghost var s := w.State();
    w.Others(others(2));
    trace := others(2);
    ST.ReachableRun(s, initial, trace);
    ClaimsStand(s, initial, no, a, trace);
    if fates.reset == Rejected {
      return Failed(Internal), trace;
    }
    ghost var reset := [S.ResetOrder(user, no, a, refusal == InsufficientBalance)];
    var changed := ResetNow(w, initial, user, no, a, refusal);
    ST.RunAppends(s, trace, reset);
    trace := trace + reset;
    if fates.reset == AnswerLost {
      return Failed(Internal), trace;
    }
    ghost var rest;
    r, rest := ReportReset(w, initial, user, no, a, refusal, changed, fates, others(3));
    ST.RunAppends(s, trace, rest);
    trace := trace + rest;
  }

  /** What a settlement's answer means for the caller. */
  method ReportSettled(
    w: World, ghost initial: C.Stock, user: Id, no: Id, a: T.Attempt, settled: T.SettleResult, fates: Fates,
    others: nat -> seq<S.Action>)
    returns (r: PayResult, ghost trace: seq<S.Action>)
    requires ST.Reachable(w.State(), initial) && Claims(w.State(), no, a)
    requires settled.Settled? || settled.WasPaid? ==>
      T.Owns(w.State().trade, user, no) && w.State().trade.orders[no].status == T.Paid
    modifies w, w.trade, w.catalog
    ensures w.State() == S.Run(old(w.State()), trace)
    ensures Verdict(w.State(), user, no, a, r)
    ensures r.Failed? ==> r.code != InvalidArgument && r.code != IdempotencyConflict
    ensures Alone(fates, others) && settled.Settled? ==>
      w.State() == old(w.State()) && no in w.trade.orders && r == Success(w.trade.orders[no])
    ensures Alone(fates, others) && settled.Insufficient? && T.Holds(old(w.State().trade), user, no, a) ==>
      r == Failed(InsufficientBalance) && w.State() == GiveUp(old(w.State()), user, no, a, true)
  {
    trace := [];
    match settled {
      case Settled(_) =>
        r := LoadPaid(w, initial, user, no, a, fates.read, others(2));
        trace := others(2);
      case WasPaid(_) =>
        r := LoadPaid(w, initial, user, no, a, fates.read, others(2));
        trace := others(2);
      case Insufficient =>
        r, trace := ResetAndReport(w, initial, user, no, a, InsufficientBalance, fates, others);
      case SettleNotFound => r := Failed(NotFound);
      case SettleInProgress => r := Failed(PaymentInProgress);
      case SettleStoreError => r := Failed(Internal);
    }
  }

  /** The settlement transaction; one that finds too little money leaves the claim as it is. */
  method SettleNow(w: World, ghost initial: C.Stock, user: Id, no: Id, a: T.Attempt) returns (settled: T.SettleResult)
    requires ST.Reachable(w.State(), initial) && Claims(w.State(), no, a) && S.SeenReserved(a) in w.net
    modifies w.trade
    ensures w.State() == S.Run(old(w.State()), [S.SettleOrder(user, no, a)]) && ST.Reachable(w.State(), initial)
    ensures Claims(w.State(), no, a)
    ensures settled == T.SettleWalletPayment(old(w.State().trade), user, no, a).1
    ensures settled.Settled? || settled.WasPaid? ==>
      T.Owns(w.State().trade, user, no) && w.State().trade.orders[no].status == T.Paid
    ensures w.State() == S.DoSettle(old(w.State()), user, no, a)
    ensures settled.Insufficient? ==> w.State() == old(w.State())
  {
    ghost var s := w.State();
    settled := w.Settle(user, no, a);
    Extend(s, initial, [], [S.SettleOrder(user, no, a)]);
    assert [] + [S.SettleOrder(user, no, a)] == [S.SettleOrder(user, no, a)];
    ClaimsStand(s, initial, no, a, [S.SettleOrder(user, no, a)]);
  }

  /** Settles a claim whose stock is held; without the money, gives both up. */
  method SettleHeld(
    w: World, ghost initial: C.Stock, user: Id, no: Id, a: T.Attempt, fates: Fates, others: nat -> seq<S.Action>)
    returns (r: PayResult, ghost trace: seq<S.Action>)
    requires ST.Reachable(w.State(), initial) && Claims(w.State(), no, a) && S.SeenReserved(a) in w.net
    modifies w, w.trade, w.catalog
    ensures w.State() == S.Run(old(w.State()), trace)
    ensures Verdict(w.State(), user, no, a, r)
    ensures r.Failed? ==> r.code != InvalidArgument && r.code != IdempotencyConflict
    ensures Alone(fates, others) && T.Holds(old(w.State().trade), user, no, a) ==>
      EndsSettled(old(w.State()), w.State(), user, no, a, r)
  {
    ghost var s := w.State();
    Yield(w, initial, no, a, S.SeenReserved(a), others(1));
    trace := others(1);
    if fates.settle == Rejected {
      return Failed(Internal), trace;
    }
    var settled := SettleNow(w, initial, user, no, a);
    ST.RunAppends(s, trace, [S.SettleOrder(user, no, a)]);
    trace := trace + [S.SettleOrder(user, no, a)];
    if fates.settle == AnswerLost {
      return Failed(Internal), trace;
    }
    ghost var rest;
    r, rest := ReportSettled(w, initial, user, no, a, settled, fates, others);
    ST.RunAppends(s, trace, rest);
    trace := trace + rest;
  }

  /** What product-service's reply means for the payment. */
  method ActOnStock(
    w: World, ghost initial: C.Stock, user: Id, no: Id, a: T.Attempt, reply: C.ReserveResult, fates: Fates,
    others: nat -> seq<S.Action>)
    returns (r: PayResult, ghost trace: seq<S.Action>)
    requires ST.Reachable(w.State(), initial) && Claims(w.State(), no, a)
    requires reply.Holding? && reply.group.status == C.Reserved ==> S.SeenReserved(a) in w.net
    modifies w, w.trade, w.catalog
    ensures w.State() == S.Run(old(w.State()), trace)
    ensures Verdict(w.State(), user, no, a, r)
    ensures r.Failed? ==> r.code != InvalidArgument && r.code != IdempotencyConflict
    ensures Alone(fates, others) && T.Holds(old(w.State().trade), user, no, a) ==>
      EndsReserved(old(w.State()), w.State(), user, no, a, reply, r)
  {
    trace := [];
    match reply {
      case ReserveInvalid => r := Failed(Internal);
      case Holding(group) =>
        if group.status != C.Reserved {
          r := Failed(Internal);
        } else {
          r, trace := SettleHeld(w, initial, user, no, a, fates, others);
        }
      case _ =>
        // The RPC reports a conflicting replay with the same status as missing stock.
        r, trace := ResetAndReport(w, initial, user, no, a, OutOfStock, fates, others);
    }
  }

  /** The reservation call; it leaves the payment tables alone. */
  method ReserveNow(w: World, ghost initial: C.Stock, no: Id, a: T.Attempt, q: C.ReserveRequest, shopNow: int)
    returns (reply: C.ReserveResult)
    requires ST.Reachable(w.State(), initial) && Claims(w.State(), no, a)
    requires S.ReserveSent(q) in w.net && q.attemptId == a.id && q.reservationId == a.reservationId
    modifies w, w.catalog
    ensures w.State() == S.Run(old(w.State()), [S.DeliverReserve(q, shopNow)]) && ST.Reachable(w.State(), initial)
    ensures w.State() == S.DoReserve(old(w.State()), q, shopNow)
    ensures Claims(w.State(), no, a) && w.State().trade == old(w.State().trade)
    ensures reply == C.ReserveStock(old(w.State().catalog), q, shopNow).1
    ensures reply.Holding? && reply.group.status == C.Reserved ==> S.SeenReserved(a) in w.net
  {
    ghost var s := w.State();
    reply := w.Reserve(q, shopNow);
    Extend(s, initial, [], [S.DeliverReserve(q, shopNow)]);
    assert [] + [S.DeliverReserve(q, shopNow)] == [S.DeliverReserve(q, shopNow)];
    ClaimsStand(s, initial, no, a, [S.DeliverReserve(q, shopNow)]);
  }

  /** Asks for the order's stock, then settles or gives up; without an answer the claim is left for recovery. */
  method ReserveAndSettle(
    w: World, ghost initial: C.Stock, user: Id, no: Id, a: T.Attempt, q: C.ReserveRequest, shopNow: int, fates: Fates,
    others: nat -> seq<S.Action>)
    returns (r: PayResult, ghost trace: seq<S.Action>)
    requires ST.Reachable(w.State(), initial) && Claims(w.State(), no, a)
    requires S.ReserveSent(q) in w.net && q.attemptId == a.id && q.reservationId == a.reservationId
    modifies w, w.trade, w.catalog
    ensures w.State() == S.Run(old(w.State()), trace)
    ensures Verdict(w.State(), user, no, a, r)
    ensures r.Failed? ==> r.code != InvalidArgument && r.code != IdempotencyConflict
    ensures Alone(fates, others) && T.Holds(old(w.State().trade), user, no, a) ==>
      EndsAsked(old(w.State()), w.State(), user, no, a, q, shopNow, r)
  {
    ghost var s := w.State();
    Yield(w, initial, no, a, S.ReserveSent(q), others(0));
    trace := others(0);
    var unavailable := Failed(if fates.deadline then DependencyTimeout else Internal);
    if fates.reserve == Rejected {
      return unavailable, trace;
    }
    var reply := ReserveNow(w, initial, no, a, q, shopNow);
    ST.RunAppends(s, trace, [S.DeliverReserve(q, shopNow)]);
    trace := trace + [S.DeliverReserve(q, shopNow)];
    if fates.reserve == AnswerLost {
      return unavailable, trace;
    }
    ghost var rest;
    r, rest := ActOnStock(w, initial, user, no, a, reply, fates, others);
    ST.RunAppends(s, trace, rest);
    trace := trace + rest;
  }

  /** The paths on which nothing was claimed. */
  method ReportUnclaimed(
    w: World, ghost initial: C.Stock, user: Id, no: Id, a: T.Attempt, claimed: T.ClaimResult, fates: Fates,
    others: seq<S.Action>)
    returns (r: PayResult, ghost trace: seq<S.Action>)
    requires ST.Reachable(w.State(), initial) && !claimed.Claimed?
    requires claimed.AlreadyPaid? ==>
      T.Owns(w.State().trade, user, no) && w.State().trade.orders[no].status == T.Paid
    modifies w, w.trade, w.catalog
    ensures w.State() == S.Run(old(w.State()), trace)
    ensures Verdict(w.State(), user, no, a, r)
    ensures r.Failed? ==> r.code != InvalidArgument
    ensures r == Failed(IdempotencyConflict) <==> claimed.NotPayable?
    ensures r.Failed? && claimed.NotPayable? ==> trace == []
    ensures claimed.ClaimNotFound? ==> r == Failed(NotFound)
    ensures claimed.ClaimInProgress? ==> r == Failed(PaymentInProgress)
    ensures claimed.AlreadyPaid? && fates.read == Answered && others == [] ==>
      no in w.trade.orders && r == Success(w.trade.orders[no])
    ensures others == [] ==> w.State() == old(w.State())
  {
    trace := [];
    match claimed {
      case ClaimNotFound => r := Failed(NotFound);
      case ClaimInProgress => r := Failed(PaymentInProgress);
      case NotPayable => r := Failed(IdempotencyConflict);
      case ClaimStoreError => r := Failed(Internal);
      case AlreadyPaid(_) =>
        r := LoadPaid(w, initial, user, no, a, fates.read, others);
        trace := others;
    }
  }

  /** The claim's answer, by the row alone. */
  lemma ClaimsByTheRow(s: S.Sys, initial: C.Stock, user: Id, no: Id, a: T.Attempt, now: int, expiresAt: int)
    requires ST.Reachable(s, initial) && S.FreshAttempt(s, a)
    ensures var claimed, s' := T.ClaimPayment(s.trade, user, no, a, now).1, S.DoClaim(s, user, no, a, now, expiresAt);
      if !T.Owns(s.trade, user, no) then claimed.ClaimNotFound? && Untouched(s, s')
      else
        match s.trade.orders[no].status
        case Paid => claimed.AlreadyPaid? && Untouched(s, s')
        case PaymentProcessing => claimed.ClaimInProgress? && Untouched(s, s')
        case Closed => claimed.NotPayable? && Untouched(s, s')
        case PendingPayment =>
          claimed == T.Claimed(Claimed(s.trade.orders[no], a, now)) && T.Holds(s'.trade, user, no, a)
  {
    if T.Owns(s.trade, user, no) && s.trade.orders[no].status == T.PendingPayment {
      ClaimTakes(s, initial, user, no, a, now, expiresAt);
    } else {
      UnclaimedIsUntouched(s, user, no, a, now, expiresAt);
    }
  }

  lemma FreshIsUnclaimed(s: S.Sys, initial: C.Stock, a: T.Attempt)
    requires ST.Reachable(s, initial) && S.FreshAttempt(s, a)
    ensures a.id !in s.claims
  {
    ST.ReachableHolds(s, initial);
  }

  /** The part after a claim, taken in the state `s`. */
  method PayClaimed(
    w: World, ghost initial: C.Stock, ghost s: S.Sys, user: Id, no: Id, a: T.Attempt, order: T.Order, now: int,
    expiresAt: int, shopNow: int, fates: Fates, others: nat -> seq<S.Action>)
    returns (r: PayResult, ghost trace: seq<S.Action>)
    requires ST.Reachable(s, initial) && S.FreshAttempt(s, a) && ST.Reachable(w.State(), initial)
    requires w.State() == S.DoClaim(s, user, no, a, now, expiresAt)
    requires T.ClaimPayment(s.trade, user, no, a, now).1 == T.Claimed(order)
    modifies w, w.trade, w.catalog
    ensures w.State() == S.Run(old(w.State()), trace)
    ensures Verdict(w.State(), user, no, a, r)
    ensures r.Failed? ==> r.code != InvalidArgument && r.code != IdempotencyConflict
    ensures Alone(fates, others) ==>
      T.Owns(s.trade, user, no) && Pays(s, w.State(), user, no, a, now, expiresAt, shopNow, r)
  {
    ClaimsByTheRow(s, initial, user, no, a, now, expiresAt);
    var q := S.RequestFor(order, no, a, expiresAt);
    ghost var s1 := w.State();
    r, trace := ReserveAndSettle(w, initial, user, no, a, q, shopNow, fates, others);
    if Alone(fates, others) {
      ClaimedPays(s, s1, w.State(), initial, user, no, a, now, expiresAt, shopNow, r);
    }
  }

  /**
   Claims an order under two freshly drawn identifiers, reserves its stock, settles. Whatever the fates of
   its calls and whatever the others do in between, it only ever takes steps of the saga, and its verdict
   is true when it returns. Undisturbed, the tables before the call decide its answer and what it leaves.
   User 0 and order number 0 stand for missing arguments.
   */
  method PayWallet(
    w: World, ghost initial: C.Stock, user: Id, no: Id, a: T.Attempt, now: int, ttl: int, shopNow: int, fates: Fates,
    others: nat -> seq<S.Action>)
    returns (r: PayResult, ghost trace: seq<S.Action>)
    requires ST.Reachable(w.State(), initial) && S.FreshAttempt(w.State(), a)
    modifies w, w.trade, w.catalog
    ensures w.State() == S.Run(old(w.State()), trace)
    ensures Verdict(w.State(), user, no, a, r)
    ensures r == Failed(InvalidArgument) <==> user == 0 || no == 0
    ensures r == Failed(IdempotencyConflict) ==> !Claims(w.State(), no, a)
    ensures Alone(fates, others) && user != 0 && no != 0 && ttl > 0 ==>
      Answers(old(w.State()), w.State(), user, no, a, now, now + ttl, shopNow, r)
  {
    trace := [];
    if user == 0 || no == 0 {
      return Failed(InvalidArgument), trace;
    }
    if ttl <= 0 || fates.claim == Rejected {
      return Failed(Internal), trace;
    }
    ghost var s := w.State();
    FreshIsUnclaimed(s, initial, a);
    ClaimsByTheRow(s, initial, user, no, a, now, now + ttl);
    var claimed := w.Claim(user, no, a, now, now + ttl);
    trace := [S.ClaimOrder(user, no, a, now, now + ttl)];
    Extend(s, initial, [], trace);
    assert [] + trace == trace;
    if fates.claim == AnswerLost {
      return Failed(Internal), trace;
    }
    ghost var rest: seq<S.Action> := [];
    if claimed.Claimed? {
      r, rest := PayClaimed(w, initial, s, user, no, a, claimed.order, now, now + ttl, shopNow, fates, others);
    } else {
      r, rest := ReportUnclaimed(w, initial, user, no, a, claimed, fates, others(0));
    }
    ST.RunAppends(s, trace, rest);
    trace := trace + rest;
  }
}
