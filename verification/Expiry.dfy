/**
 The reservation expiry worker: leases expired groups, asks order-service what became of each attempt, and
 confirms, releases or postpones the group by the answer, which may be out of date when it acts on it.
 */
module Expiry {
  import opened Wrappers
  import opened World
  import T = Trade
  import TI = TradeInvariants
  import C = Catalog
  import S = Saga
  import SI = SagaInvariants
  import ST = SagaTheorems
  import P = PayWallet
  import DB = CatalogDb
  import EL = ExpiryLease
  import opened Selection

  datatype Calls = Calls(lookUp: Fate, outcome: Fate)

  predicate Known(s: S.Sys, item: C.ExpiredGroup) {
    DB.IsGroup(s.catalog.groups, item)
  }

  predicate Held(s: S.Sys, item: C.ExpiredGroup) {
    Known(s, item) && C.Leased(s.catalog, item.reservationId, item.token)
  }

  lemma KnownStands(s: S.Sys, initial: C.Stock, item: C.ExpiredGroup, more: seq<S.Action>)
    requires ST.Reachable(s, initial) && Known(s, item)
    ensures Known(S.Run(s, more), item)
  {
    ST.ReachableRun(s, initial, more);
  }

  /** Unknown, unanswered and unfinished attempts keep their stock. */
  function Outcome(told: Option<T.Status>): C.GroupStatus {
    if told == Some(T.Paid) then C.Confirmed
    else if told == Some(T.PendingPayment) || told == Some(T.Closed) then C.Released
    else C.Reserved
  }

  ghost predicate Told(s: S.Sys, item: C.ExpiredGroup, told: Option<T.Status>) {
    told.Some? ==> S.StatusSaid(item.orderNo, item.attemptId, told.value) in s.net
  }

  /** One timed call to order-service; others act before the worker does. */
  method AskOrderService(
    w: World, ghost initial: C.Stock, item: C.ExpiredGroup, lookUp: Fate, others: seq<S.Action>)
    returns (told: Option<T.Status>, ghost trace: seq<S.Action>)
    requires ST.Reachable(w.State(), initial) && Known(w.State(), item)
    modifies w, w.trade, w.catalog
    ensures w.State() == S.Run(old(w.State()), trace)
    ensures Known(w.State(), item) && Told(w.State(), item, told)
    ensures others == [] ==> w.State().trade == old(w.State().trade) && w.State().catalog == old(w.State().catalog)
    ensures others == [] && lookUp == Answered ==> Answers(w.State().trade, item, told)
  {
    ghost var s := w.State();
    told, trace := None, [];
    if lookUp != Rejected {
      told, trace := LookUpAttempt(w, item);
    }
    P.Extend(s, initial, [], trace);
    assert [] + trace == trace;
    ToldStands(w.State(), initial, item, told, others);
    w.Others(others);
    ST.RunAppends(s, trace, others);
    trace := trace + others;
    KnownStands(s, initial, item, trace);
    if lookUp != Answered {
      told := None;
    }
  }

  /** The call itself, answered or not. */
  method LookUpAttempt(w: World, item: C.ExpiredGroup) returns (told: Option<T.Status>, ghost trace: seq<S.Action>)
    modifies w
    ensures w.State() == S.Run(old(w.State()), trace)
    ensures w.State().trade == old(w.State().trade) && w.State().catalog == old(w.State().catalog)
    ensures Told(w.State(), item, told) && Answers(w.State().trade, item, told)
  {
    told := w.LookUp(item.orderNo, item.attemptId);
    trace := if told.Some? then [S.LookUp(item.orderNo, item.attemptId, told.value)] else [];
    assert told.Some? ==> trace[1..] == [];
  }

  lemma ToldStands(
    s: S.Sys, initial: C.Stock, item: C.ExpiredGroup, told: Option<T.Status>, more: seq<S.Action>)
    requires ST.Reachable(s, initial) && Told(s, item, told)
    ensures Told(S.Run(s, more), item, told)
  {
    ST.ReachableRun(s, initial, more);
  }

  /** The one answer order-service has about the attempt. */
  ghost predicate Answers(t: T.Trade, item: C.ExpiredGroup, told: Option<T.Status>) {
    if told.None? then T.SettlementRows(t, item.orderNo, item.attemptId) == {}
    else told.value in T.SettlementRows(t, item.orderNo, item.attemptId)
  }

  /** At most this group differs, and nothing in the other database. */
  ghost predicate OnlyGroup(s: S.Sys, s': S.Sys, rid: T.Id) {
    && s'.trade == s.trade
    && s'.catalog.groups.Keys == s.catalog.groups.Keys
    && forall r | r in s.catalog.groups && r != rid :: s'.catalog.groups[r] == s.catalog.groups[r]
  }

  /** The worker's lease is gone: the group has its outcome, or waits for its next retry. */
  ghost predicate Attended(s: S.Sys, item: C.ExpiredGroup, status: C.GroupStatus, next: int) {
    && item.reservationId in s.catalog.groups
    && var g := s.catalog.groups[item.reservationId];
       && g.status == status && g.leaseToken.None? && g.leaseUntil.None?
       && (status == C.Reserved ==> g.nextRetryAt == Some(next))
  }

  function ActionFor(item: C.ExpiredGroup, told: Option<T.Status>, next: int): S.Action {
    match Outcome(told)
    case Confirmed => S.ConfirmGroup(item.reservationId, item.token)
    case Released => S.ReleaseGroup(item.reservationId, item.token)
    case Reserved => S.RetryGroup(item.reservationId, item.token, next)
  }

  /** Consistent stock can always be put back. */
  lemma HeldIsReleasable(s: S.Sys, initial: C.Stock, item: C.ExpiredGroup)
    requires ST.Reachable(s, initial) && Held(s, item)
    ensures C.ReleaseExpired(s.catalog, item.reservationId, item.token).1
  {
    ST.ReachableHolds(s, initial);
    SI.CI.PutBackKeeps(s.catalog, initial, item.reservationId,
      s.catalog.groups[item.reservationId].(status := C.Released, leaseToken := None, leaseUntil := None));
  }

  lemma ConfirmAttends(s: S.Sys, item: C.ExpiredGroup, next: int)
    requires Held(s, item) && Told(s, item, Some(T.Paid))
    ensures Attended(S.DoConfirmGroup(s, item.reservationId, item.token), item, C.Confirmed, next)
  {
  }

  lemma ReleaseAttends(s: S.Sys, item: C.ExpiredGroup, told: T.Status, next: int)
    requires Held(s, item) && Told(s, item, Some(told)) && told in {T.PendingPayment, T.Closed}
    requires C.ReleaseExpired(s.catalog, item.reservationId, item.token).1
    ensures Attended(S.DoReleaseGroup(s, item.reservationId, item.token), item, C.Released, next)
  {
  }

  lemma RetryAttends(s: S.Sys, item: C.ExpiredGroup, next: int)
    requires Held(s, item)
    ensures Attended(S.Apply(s, S.RetryGroup(item.reservationId, item.token, next)), item, C.Reserved, next)
  {
  }

  lemma ActionTouchesOne(s: S.Sys, initial: C.Stock, item: C.ExpiredGroup, told: Option<T.Status>, next: int)
    requires ST.Reachable(s, initial) && Known(s, item)
    ensures var s' := S.Apply(s, ActionFor(item, told, next));
      && s' == S.Run(s, [ActionFor(item, told, next)])
      && OnlyGroup(s, s', item.reservationId) && Known(s', item)
  {
    var action := ActionFor(item, told, next);
    assert [action][1..] == [];
    KnownStands(s, initial, item, [action]);
  }

  /** A held lease always gets the outcome the answer calls for, and nothing else changes. */
  lemma ActionAttends(s: S.Sys, initial: C.Stock, item: C.ExpiredGroup, told: Option<T.Status>, next: int)
    requires ST.Reachable(s, initial) && Known(s, item) && Told(s, item, told)
    ensures var s' := S.Apply(s, ActionFor(item, told, next));
      && s' == S.Run(s, [ActionFor(item, told, next)])
      && OnlyGroup(s, s', item.reservationId) && Known(s', item)
      && (Held(s, item) ==> Attended(s', item, Outcome(told), next))
  {
    ActionTouchesOne(s, initial, item, told, next);
    if Held(s, item) {
      HeldIsReleasable(s, initial, item);
      match Outcome(told) {
        case Confirmed => ConfirmAttends(s, item, next);
        case Released => ReleaseAttends(s, item, told.value, next);
        case Reserved => RetryAttends(s, item, next);
      }
    }
  }

  /** One timed, fenced transaction: the outcome the answer calls for. */
  method Act(w: World, ghost initial: C.Stock, item: C.ExpiredGroup, told: Option<T.Status>, outcome: Fate, next: int)
    returns (ok: bool, ghost trace: seq<S.Action>)
    requires ST.Reachable(w.State(), initial) && Known(w.State(), item) && Told(w.State(), item, told)
    modifies w.catalog
    ensures w.State() == S.Run(old(w.State()), trace)
    ensures OnlyGroup(old(w.State()), w.State(), item.reservationId) && Known(w.State(), item)
    ensures ok <==> outcome == Answered && Held(old(w.State()), item)
    ensures ok ==> Attended(w.State(), item, Outcome(told), next)
  {
    if outcome == Rejected {
      return false, [];
    }
    ActionAttends(w.State(), initial, item, told, next);
    if Held(w.State(), item) {
      HeldIsReleasable(w.State(), initial, item);
    }
    trace := [ActionFor(item, told, next)];
    match Outcome(told) {
      case Confirmed => ok := w.ConfirmExpired(item.reservationId, item.token);
      case Released => ok := w.ReleaseExpired(item.reservationId, item.token);
      case Reserved => ok := w.RetryExpired(item.reservationId, item.token, next);
    }
    ok := ok && outcome == Answered;
  }

  /** One expired group, in two timed calls. */
  method Reconcile(
    w: World, ghost initial: C.Stock, item: C.ExpiredGroup, calls: Calls, next: int, others: seq<S.Action>)
    returns (ok: bool, ghost trace: seq<S.Action>)
    requires ST.Reachable(w.State(), initial) && Known(w.State(), item)
    modifies w, w.trade, w.catalog
    ensures w.State() == S.Run(old(w.State()), trace)
    ensures others == [] ==> OnlyGroup(old(w.State()), w.State(), item.reservationId)
    ensures others == [] && Held(old(w.State()), item) && calls == Calls(Answered, Answered) ==>
      ok && Decided(w.State(), item, next)
  {
    ghost var s := w.State();
    var told;
    told, trace := AskOrderService(w, initial, item, calls.lookUp, others);
    P.Extend(s, initial, [], trace);
    assert [] + trace == trace;
    ghost var rest;
    ok, rest := Act(w, initial, item, told, calls.outcome, next);
    if others == [] && Held(s, item) && calls == Calls(Answered, Answered) {
      AnswerDecides(s, w.State(), initial, item, told, next);
    }
    ST.RunAppends(s, trace, rest);
    trace := trace + rest;
  }

  /** The attempt still holds its order. */
  predicate InProgress(t: T.Trade, item: C.ExpiredGroup) {
    && item.orderNo in t.orders
    && t.orders[item.orderNo].status == T.PaymentProcessing
    && t.orders[item.orderNo].payment == Some(T.Attempt(item.attemptId, item.reservationId))
  }

  /** The group has just the outcome its attempt calls for. */
  ghost predicate Decided(s: S.Sys, item: C.ExpiredGroup, next: int) {
    && Known(s, item)
    && var g := s.catalog.groups[item.reservationId];
       && (g.status == C.Confirmed <==>
             TI.Confirms(s.trade, item.reservationId, T.Confirmation(item.orderNo, item.attemptId)))
       && (g.status == C.Released <==> item.attemptId in s.trade.history)
       && (g.status == C.Reserved <==> InProgress(s.trade, item))
       && (g.status == C.Reserved ==> g.nextRetryAt == Some(next) && g.leaseToken.None?)
  }

  lemma AnswerDecides(
    s: S.Sys, s': S.Sys, initial: C.Stock, item: C.ExpiredGroup, told: Option<T.Status>, next: int)
    requires ST.Reachable(s, initial) && Known(s, item) && Answers(s.trade, item, told)
    requires s'.trade == s.trade && Known(s', item) && Attended(s', item, Outcome(told), next)
    ensures Decided(s', item, next)
  {
    ST.ReachableHolds(s, initial);
    var rid, id, no := item.reservationId, item.attemptId, item.orderNo;
    assert SI.GroupTrue(s, rid, s.catalog.groups[rid]);
    assert TI.OnOrder(s.trade, s.claims, id) <==> id !in s.trade.history;
    assert told.Some?;
    TI.SettlementIsAFunction(s.trade, s.claims, no, id, told.value);
  }

  ghost predicate AllKnown(s: S.Sys, items: seq<C.ExpiredGroup>) {
    forall i | 0 <= i < |items| :: Known(s, items[i])
  }

  ghost predicate AllHeld(s: S.Sys, items: seq<C.ExpiredGroup>, from: nat) {
    forall i | from <= i < |items| :: Held(s, items[i])
  }

  ghost predicate DecidedBelow(s: S.Sys, items: seq<C.ExpiredGroup>, next: nat, retryAt: int) {
    forall i | 0 <= i < next && i < |items| :: Decided(s, items[i], retryAt)
  }

  predicate Distinct(items: seq<C.ExpiredGroup>) {
    forall i, j | 0 <= i < j < |items| :: items[i].reservationId != items[j].reservationId
  }

  lemma AllKnownStand(s: S.Sys, initial: C.Stock, items: seq<C.ExpiredGroup>, more: seq<S.Action>)
    requires ST.Reachable(s, initial) && AllKnown(s, items)
    ensures AllKnown(S.Run(s, more), items)
  {
    forall i | 0 <= i < |items| ensures Known(S.Run(s, more), items[i]) {
      KnownStands(s, initial, items[i], more);
    }
  }

  lemma OthersAsBefore(s: S.Sys, s': S.Sys, items: seq<C.ExpiredGroup>, next: nat, retryAt: int)
    requires next < |items| && Distinct(items) && OnlyGroup(s, s', items[next].reservationId)
    requires AllHeld(s, items, next) && DecidedBelow(s, items, next, retryAt)
    requires Decided(s', items[next], retryAt)
    ensures AllHeld(s', items, next + 1) && DecidedBelow(s', items, next + 1, retryAt)
  {
    forall i | next < i < |items| ensures Held(s', items[i]) {
      assert Held(s, items[i]) && items[next].reservationId != items[i].reservationId;
    }
    forall i | 0 <= i < next ensures Decided(s', items[i], retryAt) {
      assert Decided(s, items[i], retryAt) && items[i].reservationId != items[next].reservationId;
    }
  }

  ghost predicate Undisturbed(calls: nat -> Calls, others: nat -> seq<S.Action>) {
    (forall i :: calls(i) == Calls(Answered, Answered)) && forall i :: others(i) == []
  }

  /** Two calls per group, in order; the first outcome that cannot be recorded ends the pass. */
  method ReconcileAll(
    w: World, ghost initial: C.Stock, items: seq<C.ExpiredGroup>, calls: nat -> Calls, retryAt: int,
    others: nat -> seq<S.Action>)
    returns (ok: bool, done: nat, ghost trace: seq<S.Action>)
    requires ST.Reachable(w.State(), initial) && AllKnown(w.State(), items)
    modifies w, w.trade, w.catalog
    ensures w.State() == S.Run(old(w.State()), trace)
    ensures done <= |items| && (ok ==> done == |items|)
    ensures Undisturbed(calls, others) && AllHeld(old(w.State()), items, 0) && Distinct(items) ==>
      ok && DecidedBelow(w.State(), items, |items|, retryAt)
  {
    ghost var s := w.State();
    ghost var smooth := Undisturbed(calls, others) && AllHeld(s, items, 0) && Distinct(items);
    ok, done, trace := true, 0, [];
    while done < |items| && ok
      invariant done <= |items|
      invariant w.State() == S.Run(s, trace) && ST.Reachable(w.State(), initial)
      invariant AllKnown(w.State(), items)
      invariant smooth ==> ok && AllHeld(w.State(), items, done) && DecidedBelow(w.State(), items, done, retryAt)
      decreases |items| - done
    {
      ghost var s1 := w.State();
      ghost var rest;
      ok, rest := Reconcile(w, initial, items[done], calls(done), retryAt, others(done));
      P.Extend(s, initial, trace, rest);
      AllKnownStand(s1, initial, items, rest);
      if smooth {
        OthersAsBefore(s1, w.State(), items, done, retryAt);
      }
      trace, done := trace + rest, done + 1;
    }
  }

  datatype Config = Config(batchSize: int, leaseDuration: int, callTimeout: int, retryDelay: int)
  {
    predicate Valid() {
      batchSize > 0 && leaseDuration > 0 && callTimeout > 0 && retryDelay > 0
    }
  }

  /** A batch just leased is held, every group of it. */
  lemma LeasedIsHeld(
    s: S.Sys, items: seq<C.ExpiredGroup>, limit: nat, now: int, lease: int, tokens: seq<T.Id>, locked: set<T.Id>)
    requires |tokens| >= limit && DB.FirstExpired(s.catalog.groups, items, limit, now, tokens, locked)
    ensures Distinct(items) && AllHeld(S.Run(s, EL.Actions(items, now, lease)), items, 0)
    ensures AllKnown(S.Run(s, EL.Actions(items, now, lease)), items)
  {
    forall i, j | 0 <= i < j < |items| ensures items[i].reservationId != items[j].reservationId {
      assert Before(DB.ByReservation(), DB.ReservationIds(items)[i], DB.ReservationIds(items)[j]);
    }
    forall i | 0 <= i < |items|
      ensures items[i].reservationId in s.catalog.groups
        && C.Expired(s.catalog.groups[items[i].reservationId], now)
    {
      assert DB.ReservationIds(items)[i] in DB.ExpiredGroups(s.catalog.groups, now, locked);
    }
    EL.LeasingIsARun(s, items, now, lease);
    EL.LeasedGroups(s.catalog, items, now, lease);
  }

  /** RESERVED past its time, not waiting for a retry, under no running lease. */
  predicate Lapsed(g: C.Group, now: int) {
    && g.status == C.Reserved && g.expiresAt <= now
    && (g.nextRetryAt.Some? ==> g.nextRetryAt.value <= now)
    && (g.leaseUntil.Some? ==> g.leaseUntil.value <= now)
  }

  /** The leased groups are the first lapsed, unlocked ones in reservation order, as many as fit the batch. */
  ghost predicate FirstLapsed(
    groups: map<T.Id, C.Group>, items: seq<C.ExpiredGroup>, limit: nat, now: int, locked: set<T.Id>)
  {
    && IsFirst(DB.ReservationIds(items), (set rid | rid in groups && Lapsed(groups[rid], now) && rid !in locked),
               limit, DB.ByReservation())
    && forall i | 0 <= i < |items| :: DB.IsGroup(groups, items[i])
  }

  lemma LeasedAreFirst(
    groups: map<T.Id, C.Group>, items: seq<C.ExpiredGroup>, limit: nat, now: int, tokens: seq<T.Id>, locked: set<T.Id>)
    requires |tokens| >= limit && DB.FirstExpired(groups, items, limit, now, tokens, locked)
    ensures FirstLapsed(groups, items, limit, now, locked)
  {
    forall rid | rid in groups ensures Lapsed(groups[rid], now) <==> C.Expired(groups[rid], now) {}
    var lapsed := set rid | rid in groups && Lapsed(groups[rid], now) && rid !in locked;
    assert lapsed == DB.ExpiredGroups(groups, now, locked);
  }

  /** The lease transaction of a pass. */
  method LeaseBatch(
    w: World, ghost initial: C.Stock, limit: nat, now: int, lease: int, tokens: seq<T.Id>, locked: set<T.Id>)
    returns (items: seq<C.ExpiredGroup>, ghost trace: seq<S.Action>)
    requires ST.Reachable(w.State(), initial) && |tokens| >= limit
    modifies w.catalog
    ensures w.State() == S.Run(old(w.State()), trace) && ST.Reachable(w.State(), initial)
    ensures FirstLapsed(old(w.catalog.groups), items, limit, now, locked) && |items| <= limit
    ensures Distinct(items) && AllHeld(w.State(), items, 0) && AllKnown(w.State(), items)
  {
    ghost var s := w.State();
    items := w.LeaseExpired(limit, now, lease, tokens, locked);
    trace := EL.Actions(items, now, lease);
    LeasedIsHeld(s, items, limit, now, lease, tokens, locked);
    LeasedAreFirst(s.catalog.groups, items, limit, now, tokens, locked);
    ST.ReachableRun(s, initial, trace);
  }

  /**
   One pass. Whatever happens meanwhile, it only takes steps of the saga, so it never confirms stock of an unpaid
   order or releases stock of a paid one, and makes at most one call plus two per leased group. Undisturbed, with
   every call answered, it leaves each group it leased CONFIRMED exactly if its attempt paid, RELEASED exactly if
   its attempt was reset, and otherwise RESERVED until the next retry.
   */
  method RunOnce(
    w: World, ghost initial: C.Stock, config: Config, now: int, tokens: seq<T.Id>, locked: set<T.Id>, lease: Fate,
    calls: nat -> Calls, others: nat -> seq<S.Action>)
    returns (ok: bool, leased: seq<C.ExpiredGroup>, made: nat, ghost trace: seq<S.Action>)
    requires ST.Reachable(w.State(), initial)
    requires config.Valid() ==> |tokens| == config.batchSize
    modifies w, w.trade, w.catalog
    ensures w.State() == S.Run(old(w.State()), trace)
    ensures !config.Valid() ==> !ok && made == 0 && trace == []
    ensures config.Valid() ==> made <= 1 + 2 * config.batchSize
    ensures ok ==> config.Valid() && FirstLapsed(old(w.catalog.groups), leased, config.batchSize, now, locked)
    ensures config.Valid() && lease == Answered && Undisturbed(calls, others) ==>
      ok && DecidedBelow(w.State(), leased, |leased|, now + config.retryDelay)
  {
    trace, leased, made := [], [], 0;
    if !config.Valid() {
      return false, leased, made, trace;
    }
    made := 1;
    if lease == Rejected {
      return false, leased, made, trace;
    }
    ghost var s := w.State();
    var items;
    items, trace := LeaseBatch(w, initial, config.batchSize, now, config.leaseDuration, tokens, locked);
    if lease == AnswerLost {
      return false, leased, made, trace;
    }
    leased := items;
    var done;
    ghost var rest;
    ok, done, rest := ReconcileAll(w, initial, leased, calls, now + config.retryDelay, others);
    made := made + 2 * done;
    ST.RunAppends(s, trace, rest);
    trace := trace + rest;
  }
}
