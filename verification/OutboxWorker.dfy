/** One polling pass of an outbox worker over its store and Kafka, with other workers acting in between. */
module OutboxWorker {
  import opened Wrappers
  import opened Events
  import opened Outbox
  import opened Selection
  import Backoff
  import LB = LeaseBudget

  class OutboxDb {
    const variant: Variant
    var rows: Rows
    var log: seq<Message>
    var acks: set<(Id, Id)>
    var used: set<Id>
    var held: set<Lease>

    function State(): Sys
      reads this
    {
      Sys(rows, log, acks, used, held)
    }

    constructor (variant: Variant, s: Sys)
      ensures State() == s && this.variant == variant
    {
      this.variant := variant;
      rows, log, acks, used, held := s.rows, s.log, s.acks, s.used, s.held;
    }

    /** Any actions of any other processes. */
    method Others(actions: seq<Action>)
      modifies this
      ensures State() == Run(variant, old(State()), actions)
    {
      var s := Run(variant, State(), actions);
      rows, log, acks, used, held := s.rows, s.log, s.acks, s.used, s.held;
    }

    /** One row's part of a lease transaction. */
    method LeaseRow(id: Id, token: Id, now: int, lease: int) returns (l: Lease)
      requires id in rows && Due(variant, rows[id], LB.TruncateMs(now)) && token !in used
      modifies this
      ensures State() == Apply(variant, old(State()), Action.LeaseRow(id, token, now, lease))
      ensures l == Lease(id, token, old(rows)[id].attempts + 1) && l in held
      ensures rows == LeaseOne(old(rows), id, token, LB.OutboxLeaseUntil(now, lease))
      ensures used == old(used) + {token} && old(held) <= held
    {
      l := Lease(id, token, rows[id].attempts + 1);
      rows := LeaseOne(rows, id, token, LB.OutboxLeaseUntil(now, lease));
      used, held := used + {token}, held + {l};
    }

    /** Leases distinct due rows, each under its own token. */
    method LeaseEach(ids: seq<Id>, tokens: seq<Id>, now: int, lease: int) returns (leases: seq<Lease>)
      requires |ids| <= |tokens|
      requires forall i | 0 <= i < |ids| :: ids[i] in rows && Due(variant, rows[ids[i]], LB.TruncateMs(now))
      requires forall i | 0 <= i < |ids| :: tokens[i] !in used
      requires forall i, j | 0 <= i < j < |ids| :: ids[i] != ids[j] && tokens[i] != tokens[j]
      modifies this
      ensures LeasesOf(leases, ids, tokens, old(rows))
      ensures forall i | 0 <= i < |leases| :: leases[i] in held
      ensures OwnedFrom(rows, leases, 0)
      ensures State() == Run(variant, old(State()), LeaseActions(ids, tokens, now, lease))
    {
      leases := [];
      ghost var s := State();
      for i := 0 to |ids|
        invariant State() == Run(variant, s, LeaseActions(ids[..i], tokens, now, lease))
        invariant LeasesOf(leases, ids[..i], tokens, s.rows)
        invariant forall k | 0 <= k < i :: leases[k] in held
        invariant OwnedFrom(rows, leases, 0)
        invariant forall k | i <= k < |ids| :: ids[k] in rows && rows[ids[k]] == s.rows[ids[k]] && tokens[k] !in used
      {
        OneMoreLease(ids, tokens, i, now, lease);
        Step(variant, s, LeaseActions(ids[..i], tokens, now, lease), [Action.LeaseRow(ids[i], tokens[i], now, lease)]);
        ghost var before := rows;
        var l := LeaseRow(ids[i], tokens[i], now, lease);
        OneMoreOwned(s.rows, before, rows, leases, ids, tokens, i, LB.OutboxLeaseUntil(now, lease));
        leases := leases + [l];
      }
      assert ids[..|ids|] == ids;
    }

    /**
     Leases the first due, unlocked rows in id order under new tokens, in one transaction. One selected row
     the order worker cannot use makes it fail, with nothing leased.
     */
    method LeasePending(limit: nat, now: int, lease: int, tokens: seq<Id>, locked: set<Id>)
      returns (leases: Option<seq<Lease>>, ghost ids: seq<Id>)
      requires |tokens| == limit && forall i | 0 <= i < limit :: tokens[i] !in used
      requires forall i, j | 0 <= i < j < limit :: tokens[i] != tokens[j]
      modifies this
      ensures IsFirst(ids, DueRows(variant, old(rows), LB.TruncateMs(now), locked), limit, ById())
      ensures leases.Some? <==> forall i | 0 <= i < |ids| :: Usable(variant, old(rows)[ids[i]])
      ensures leases.None? ==> State() == old(State())
      ensures leases.Some? ==>
        && LeasesOf(leases.value, ids, tokens, old(rows))
        && (forall i | 0 <= i < |leases.value| :: leases.value[i] in held)
        && OwnedFrom(rows, leases.value, 0)
        && State() == Run(variant, old(State()), LeaseActions(ids, tokens, now, lease))
    {
      var selected := First(DueRows(variant, rows, LB.TruncateMs(now), locked), limit, ById());
      ids := selected;
      if i :| 0 <= i < |selected| && !Usable(variant, rows[selected[i]]) {
        return None, ids;
      }
      forall i, j | 0 <= i < j < |selected| ensures selected[i] != selected[j] {
        assert Before(ById(), selected[i], selected[j]);
      }
      var result := LeaseEach(selected, tokens, now, lease);
      return Some(result), ids;
    }

    method MarkPublished(l: Lease) returns (ok: bool)
      requires (l.row, l.token) in acks
      modifies this
      ensures State() == Apply(variant, old(State()), Mark(l))
      ensures ok == Outbox.MarkPublished(old(rows), l.row, l.token).1
      ensures ok ==> l.row in rows && rows[l.row].status == Published
    {
      ok := Holds(rows, l.row, l.token);
      if ok {
        rows :=
          rows[l.row := rows[l.row].(status := Published, token := None, leaseUntil := None, nextRetryAt := None)];
      }
    }

    method Retry(l: Lease, at: int) returns (ok: bool)
      requires l in held
      modifies this
      ensures State() == Apply(variant, old(State()), RetryLater(l, at))
      ensures ok == Outbox.Retry(old(rows), l.row, l.token, at).1
    {
      ok := Holds(rows, l.row, l.token);
      if ok {
        rows := rows[l.row := rows[l.row].(status := Pending, token := None, leaseUntil := None,
                                           nextRetryAt := Some(LB.TruncateMs(at)))];
      }
    }

    method MarkDead(l: Lease) returns (ok: bool)
      requires l in held && variant.Knowledge? && l.attempts >= variant.maxAttempts
      modifies this
      ensures State() == Apply(variant, old(State()), GiveUp(l))
      ensures ok == Outbox.MarkDead(old(rows), l.row, l.token).1
    {
      ok := Holds(rows, l.row, l.token);
      if ok {
        rows := rows[l.row := rows[l.row].(status := Dead, token := None, leaseUntil := None, nextRetryAt := None)];
      }
    }

    /** Hands the row's message to Kafka; only an acknowledged publication is known to have happened. */
    method Publish(l: Lease, fate: Fate) returns (ok: bool, ghost trace: seq<Action>)
      requires l in held && l.row in rows
      modifies this
      ensures State() == Run(variant, old(State()), trace)
      ensures ok <==> fate == Answered
      ensures ok ==> (l.row, l.token) in acks
      ensures rows == old(rows)
    {
      ok, trace := fate == Answered, [];
      if fate != Rejected {
        trace := [Action.Publish(l, ok)];
        assert trace[..0] == [];
        log := log + [rows[l.row].message];
        acks := acks + if ok then {(l.row, l.token)} else {};
      }
    }
  }

  function DueRows(v: Variant, rows: Rows, now: int, locked: set<Id>): set<Id> {
    set id | id in rows && Due(v, rows[id], now) && id !in locked
  }

  function ById(): Id -> int {
    (id: Id) => 0
  }

  function LeaseActions(ids: seq<Id>, tokens: seq<Id>, now: int, lease: int): (r: seq<Action>)
    requires |ids| <= |tokens|
    ensures |r| == |ids|
  {
    seq(|ids|, i requires 0 <= i < |ids| => LeaseRow(ids[i], tokens[i], now, lease))
  }

  /** From this one on, the leases still hold their rows. */
  predicate OwnedFrom(rows: Rows, leases: seq<Lease>, from: nat) {
    forall i | from <= i < |leases| :: Holds(rows, leases[i].row, leases[i].token)
  }

  predicate LeasesOf(leases: seq<Lease>, ids: seq<Id>, tokens: seq<Id>, rows: Rows) {
    && |leases| == |ids| <= |tokens|
    && forall i | 0 <= i < |ids| :: ids[i] in rows && leases[i] == Lease(ids[i], tokens[i], rows[ids[i]].attempts + 1)
  }

  lemma OneMoreLease(ids: seq<Id>, tokens: seq<Id>, i: nat, now: int, lease: int)
    requires i < |ids| <= |tokens|
    ensures LeaseActions(ids[..i + 1], tokens, now, lease)
      == LeaseActions(ids[..i], tokens, now, lease) + [LeaseRow(ids[i], tokens[i], now, lease)]
  {
  }

  /** Leasing the next row leaves the rows leased before it and the ones to come as they are. */
  lemma OneMoreOwned(
    start: Rows, before: Rows, after: Rows, leases: seq<Lease>, ids: seq<Id>, tokens: seq<Id>, i: nat, until: int)
    requires i < |ids| <= |tokens| && forall j, k | 0 <= j < k < |ids| :: ids[j] != ids[k]
    requires LeasesOf(leases, ids[..i], tokens, start) && OwnedFrom(before, leases, 0)
    requires forall k | i <= k < |ids| :: ids[k] in before && ids[k] in start && before[ids[k]] == start[ids[k]]
    requires after == LeaseOne(before, ids[i], tokens[i], until)
    ensures var l := Lease(ids[i], tokens[i], before[ids[i]].attempts + 1);
      LeasesOf(leases + [l], ids[..i + 1], tokens, start) && OwnedFrom(after, leases + [l], 0)
    ensures forall k | i < k < |ids| :: ids[k] in after && after[ids[k]] == start[ids[k]]
  {
    forall k | 0 <= k < i ensures Holds(after, leases[k].row, leases[k].token) {
      assert Holds(before, leases[k].row, leases[k].token) && leases[k].row == ids[..i][k] != ids[i];
    }
  }

  ghost predicate HeldAll(s: Sys, leases: seq<Lease>) {
    forall i | 0 <= i < |leases| :: leases[i] in s.held && leases[i].row in s.rows
  }

  ghost predicate PublishedAll(s: Sys, leases: seq<Lease>) {
    forall i | 0 <= i < |leases| :: leases[i].row in s.rows && s.rows[leases[i].row].status == Published
  }

  lemma Stand(v: Variant, s: Sys, leases: seq<Lease>, done: seq<Lease>, actions: seq<Action>)
    requires Inv(v, s) && HeldAll(s, leases) && PublishedAll(s, done)
    ensures var s' := Run(v, s, actions); Inv(v, s') && HeldAll(s', leases) && PublishedAll(s', done)
  {
    RunKeeps(v, s, actions);
  }

  lemma Step(v: Variant, s: Sys, trace: seq<Action>, more: seq<Action>)
    ensures Run(v, s, trace + more) == Run(v, Run(v, s, trace), more)
    ensures |more| == 1 ==> Run(v, s, trace + more) == Apply(v, Run(v, s, trace), more[0])
  {
    RunAppends(v, s, trace, more);
    if |more| == 1 {
      assert more[..0] == [];
    }
  }

  /** What one leased event costs: a publication, then a state transition. */
  datatype Calls = Calls(publish: Fate, close: Fate, clock: int)

  /** Publishes one leased row and closes its lease accordingly; success means it is PUBLISHED. */
  method Deliver(db: OutboxDb, l: Lease, calls: Calls, others: seq<Action>)
    returns (ok: bool, ghost trace: seq<Action>)
    requires Inv(db.variant, db.State()) && l in db.held && l.row in db.rows
    modifies db
    ensures db.State() == Run(db.variant, old(db.State()), trace)
    ensures ok ==> PublishedAll(db.State(), [l])
    ensures ok ==> calls.publish == Answered && calls.close == Answered
    ensures others == [] && calls.publish == calls.close == Answered && Holds(old(db.rows), l.row, l.token) ==> ok
    ensures others == [] ==> OnlyRow(old(db.rows), db.rows, l.row)
  {
    ghost var s := db.State();
    var published;
    published, trace := db.Publish(l, calls.publish);
    Stand(db.variant, s, [l], [], trace);
    RunAppends(db.variant, s, trace, others);
    ghost var s1 := db.State();
    db.Others(others);
    RunKeeps(db.variant, s1, others);
    trace := trace + others;
    assert [l][0] == l;
    if calls.close == Rejected {
      return false, trace;
    }
    ghost var action;
    ok, action := Close(db, l, published, calls);
    Step(db.variant, s, trace, [action]);
    trace := trace + [action];
  }

  /** Ends a lease: PUBLISHED after an acknowledgement, else another try later, or DEAD when out of attempts. */
  method Close(db: OutboxDb, l: Lease, published: bool, calls: Calls) returns (ok: bool, ghost action: Action)
    requires l in db.held && (published ==> (l.row, l.token) in db.acks)
    modifies db
    ensures db.State() == Apply(db.variant, old(db.State()), action)
    ensures ok ==> published && calls.close == Answered && PublishedAll(db.State(), [l])
    ensures published && calls.close == Answered && Holds(old(db.rows), l.row, l.token) ==> ok
    ensures OnlyRow(old(db.rows), db.rows, l.row)
    ensures !published && Holds(old(db.rows), l.row, l.token) ==>
      && l.row in db.rows
      && db.rows[l.row].status ==
           (if db.variant.Knowledge? && l.attempts >= db.variant.maxAttempts then Dead else Pending)
      && (db.rows[l.row].status == Pending ==>
            db.rows[l.row].nextRetryAt == Some(LB.TruncateMs(
              calls.clock + Backoff.Capped(Backoff.SECOND, l.attempts, Backoff.LONGEST_RETRY))))
  {
    if published {
      action := Mark(l);
      ok := db.MarkPublished(l);
      ok := ok && calls.close == Answered;
    } else if db.variant.Knowledge? && l.attempts >= db.variant.maxAttempts {
      action := GiveUp(l);
      var closed := db.MarkDead(l);
      ok := false;
    } else {
      var delay := Backoff.OutboxRetryDelay(l.attempts);
      action := RetryLater(l, calls.clock + delay);
      var closed := db.Retry(l, calls.clock + delay);
      ok := false;
    }
  }

  lemma OneMorePublished(s: Sys, leases: seq<Lease>, next: nat)
    requires next < |leases| && PublishedAll(s, leases[..next]) && PublishedAll(s, [leases[next]])
    ensures PublishedAll(s, leases[..next + 1])
  {
    assert leases[..next + 1] == leases[..next] + [leases[next]];
    assert [leases[next]][0] == leases[next];
  }

  /** At most this row differs. */
  ghost predicate OnlyRow(rows: Rows, rows': Rows, id: Id) {
    forall k | k in rows && k != id :: k in rows' && rows'[k] == rows[k]
  }

  /** Every call is answered, and nobody else acts. */
  ghost predicate Undisturbed(calls: nat -> Calls, others: (nat, nat) -> seq<Action>) {
    (forall i :: calls(i).publish == calls(i).close == Answered) && forall i, k :: others(i, k) == []
  }

  predicate Ascending(leases: seq<Lease>) {
    forall i, j | 0 <= i < j < |leases| :: leases[i].row < leases[j].row
  }

  lemma OthersStayOwned(rows: Rows, rows': Rows, leases: seq<Lease>, next: nat)
    requires next < |leases| && Ascending(leases) && OwnedFrom(rows, leases, next)
    requires OnlyRow(rows, rows', leases[next].row)
    ensures OwnedFrom(rows', leases, next + 1)
  {
    forall i | next < i < |leases| ensures Holds(rows', leases[i].row, leases[i].token) {
      assert Holds(rows, leases[i].row, leases[i].token) && leases[next].row < leases[i].row;
    }
  }

  /** Delivers the next leased row, then others act; the rows before it stay PUBLISHED, those after it held. */
  method DeliverNext(
    db: OutboxDb, leases: seq<Lease>, next: nat, calls: Calls, between: seq<Action>, after: seq<Action>)
    returns (ok: bool, ghost trace: seq<Action>)
    requires Inv(db.variant, db.State()) && HeldAll(db.State(), leases)
    requires next < |leases| && PublishedAll(db.State(), leases[..next])
    modifies db
    ensures db.State() == Run(db.variant, old(db.State()), trace)
    ensures Inv(db.variant, db.State()) && HeldAll(db.State(), leases)
    ensures ok ==> PublishedAll(db.State(), leases[..next + 1])
    ensures calls.publish == calls.close == Answered && between == after == [] ==>
      OwnedFrom(old(db.rows), leases, next) && Ascending(leases) ==> ok && OwnedFrom(db.rows, leases, next + 1)
  {
    ghost var s := db.State();
    ok, trace := Deliver(db, leases[next], calls, between);
    if between == [] && OwnedFrom(s.rows, leases, next) && Ascending(leases) {
      OthersStayOwned(s.rows, db.rows, leases, next);
    }
    Stand(db.variant, s, leases, leases[..next], trace);
    if ok {
      OneMorePublished(db.State(), leases, next);
    }
    ghost var s1 := db.State();
    db.Others(after);
    Stand(db.variant, s1, leases, if ok then leases[..next + 1] else [], after);
    Step(db.variant, s, trace, after);
    trace := trace + after;
  }

  /** Delivers a leased batch in order and stops at the first failure. */
  method DeliverAll(db: OutboxDb, leases: seq<Lease>, calls: nat -> Calls, others: (nat, nat) -> seq<Action>)
    returns (ok: bool, made: nat, ghost trace: seq<Action>)
    requires Inv(db.variant, db.State()) && HeldAll(db.State(), leases)
    modifies db
    ensures db.State() == Run(db.variant, old(db.State()), trace)
    ensures made <= 2 * |leases|
    ensures ok ==> PublishedAll(db.State(), leases)
    ensures Undisturbed(calls, others) && OwnedFrom(old(db.rows), leases, 0) && Ascending(leases) ==> ok
  {
    ghost var s := db.State();
    ok, made, trace := true, 0, [];
    var next := 0;
    while next < |leases| && ok
      invariant next <= |leases| && made <= 2 * next
      invariant db.State() == Run(db.variant, s, trace)
      invariant Inv(db.variant, db.State()) && HeldAll(db.State(), leases)
      invariant ok ==> PublishedAll(db.State(), leases[..next])
      invariant Undisturbed(calls, others) && OwnedFrom(s.rows, leases, 0) && Ascending(leases) ==>
        ok && OwnedFrom(db.rows, leases, next)
      decreases |leases| - next
    {
      ghost var rest;
      ok, rest := DeliverNext(db, leases, next, calls(next), others(next, 0), others(next, 1));
      Step(db.variant, s, trace, rest);
      trace, made, next := trace + rest, made + 2, next + 1;
    }
    assert leases[..|leases|] == leases;
  }

  /** A row on one of the outbox's topics that waits for its first or next attempt, or whose lease ran out. */
  predicate Waiting(v: Variant, row: Row, now: int) {
    && (v.Orders? ==> row.message.topic == "inventory.reservation.confirm" || row.message.topic == "review.events")
    && match row.status
       case Pending => row.nextRetryAt.Some? ==> row.nextRetryAt.value <= now
       case Processing => row.leaseUntil.Some? && row.leaseUntil.value <= now
       case _ => false
  }

  /** The order worker cannot parse the row, or finds no key on it. */
  predicate Broken(v: Variant, row: Row) {
    v.Orders? && (row.message.payload.Malformed? || row.message.key == "")
  }

  /** The first waiting, unlocked rows in id order, as many as fit the batch. */
  ghost predicate FirstWaiting(v: Variant, rows: Rows, ids: seq<Id>, limit: nat, now: int, locked: set<Id>) {
    && |ids| <= limit
    && (forall i, j | 0 <= i < j < |ids| :: ids[i] < ids[j])
    && (forall i | 0 <= i < |ids| :: ids[i] in rows && ids[i] !in locked && Waiting(v, rows[ids[i]], now))
    && (forall id | id in rows && id !in locked && Waiting(v, rows[id], now) ::
          || (exists i | 0 <= i < |ids| :: ids[i] == id)
          || (|ids| == limit && forall i | 0 <= i < limit :: ids[i] < id))
  }

  function RowIds(leases: seq<Lease>): (r: seq<Id>)
    ensures |r| == |leases|
  {
    seq(|leases|, i requires 0 <= i < |leases| => leases[i].row)
  }

  /** The leased rows are exactly the first waiting ones, none of them broken, each at one more attempt. */
  ghost predicate FirstLeased(v: Variant, rows: Rows, leases: seq<Lease>, limit: nat, now: int, locked: set<Id>) {
    && FirstWaiting(v, rows, RowIds(leases), limit, now, locked)
    && forall i | 0 <= i < |leases| ::
         && leases[i].row in rows && !Broken(v, rows[leases[i].row])
         && leases[i].attempts == rows[leases[i].row].attempts + 1
  }

  /** One of the first waiting rows is broken. */
  ghost predicate BrokenFirst(v: Variant, rows: Rows, limit: nat, now: int, locked: set<Id>) {
    exists ids :: FirstWaiting(v, rows, ids, limit, now, locked) && AnyBroken(v, rows, ids)
  }

  ghost predicate AnyBroken(v: Variant, rows: Rows, ids: seq<Id>) {
    exists i | 0 <= i < |ids| :: ids[i] in rows && Broken(v, rows[ids[i]])
  }

  lemma DueIsWaiting(v: Variant, row: Row, now: int)
    ensures Due(v, row, now) <==> Waiting(v, row, now)
  {
  }

  lemma SelectedAreFirst(v: Variant, rows: Rows, ids: seq<Id>, limit: nat, now: int, locked: set<Id>)
    requires IsFirst(ids, DueRows(v, rows, now, locked), limit, ById())
    ensures FirstWaiting(v, rows, ids, limit, now, locked)
  {
    forall i | 0 <= i < |ids| ensures ids[i] in rows && ids[i] !in locked && Waiting(v, rows[ids[i]], now) {
      assert ids[i] in DueRows(v, rows, now, locked);
      DueIsWaiting(v, rows[ids[i]], now);
    }
    forall i, j | 0 <= i < j < |ids| ensures ids[i] < ids[j] {
      assert Before(ById(), ids[i], ids[j]);
    }
    forall id | id in rows && id !in locked && Waiting(v, rows[id], now)
      ensures (exists i | 0 <= i < |ids| :: ids[i] == id)
        || (|ids| == limit && forall i | 0 <= i < limit :: ids[i] < id)
    {
      DueIsWaiting(v, rows[id], now);
      assert id in DueRows(v, rows, now, locked);
      if !In(ids, id) {
        forall i | 0 <= i < limit ensures ids[i] < id {
          assert Before(ById(), ids[i], id);
        }
      }
    }
  }

  /** The rows the lease query selects, by their columns: all leased, or one of them broken and none leased. */
  lemma SelectedDecide(v: Variant, rows: Rows, ids: seq<Id>, limit: nat, now: int, locked: set<Id>)
    requires IsFirst(ids, DueRows(v, rows, now, locked), limit, ById())
    ensures FirstWaiting(v, rows, ids, limit, now, locked)
    ensures forall i | 0 <= i < |ids| :: ids[i] in rows && (Usable(v, rows[ids[i]]) <==> !Broken(v, rows[ids[i]]))
    ensures (forall i | 0 <= i < |ids| :: Usable(v, rows[ids[i]])) || BrokenFirst(v, rows, limit, now, locked)
  {
    SelectedAreFirst(v, rows, ids, limit, now, locked);
    forall i | 0 <= i < |ids| ensures ids[i] in rows && (Usable(v, rows[ids[i]]) <==> !Broken(v, rows[ids[i]])) {
      assert ids[i] in DueRows(v, rows, now, locked);
    }
    if !forall i | 0 <= i < |ids| :: Usable(v, rows[ids[i]]) {
      assert AnyBroken(v, rows, ids);
    }
  }

  /** Every leased row is PUBLISHED, and the message it had when it was leased is in the log. */
  ghost predicate Delivered(rows: Rows, s: Sys, leases: seq<Lease>) {
    forall i | 0 <= i < |leases| ::
      && leases[i].row in rows && leases[i].row in s.rows && s.rows[leases[i].row].status == Published
      && rows[leases[i].row].message in s.log
  }

  lemma PublishedIsDelivered(v: Variant, s: Sys, actions: seq<Action>, leases: seq<Lease>)
    requires Inv(v, s) && PublishedAll(Run(v, s, actions), leases)
    requires forall i | 0 <= i < |leases| :: leases[i].row in s.rows
    ensures Delivered(s.rows, Run(v, s, actions), leases)
  {
    RunKeeps(v, s, actions);
    forall i | 0 <= i < |leases| ensures s.rows[leases[i].row].message in Run(v, s, actions).log {
      PublishedIsLogged(v, Run(v, s, actions), leases[i].row);
    }
  }

  /** The lease transaction of a pass. */
  method LeaseBatch(
    db: OutboxDb, limit: nat, clock: int, lease: int, tokens: seq<Id>, locked: set<Id>)
    returns (leased: Option<seq<Lease>>, ghost trace: seq<Action>)
    requires Inv(db.variant, db.State()) && |tokens| == limit
    requires forall i | 0 <= i < |tokens| :: tokens[i] !in db.used
    requires forall i, j | 0 <= i < j < |tokens| :: tokens[i] != tokens[j]
    modifies db
    ensures db.State() == Run(db.variant, old(db.State()), trace) && Inv(db.variant, db.State())
    ensures leased.None? ==> trace == [] && BrokenFirst(db.variant, old(db.rows), limit, LB.TruncateMs(clock), locked)
    ensures leased.Some? ==>
      && FirstLeased(db.variant, old(db.rows), leased.value, limit, LB.TruncateMs(clock), locked)
      && Ascending(leased.value) && HeldAll(db.State(), leased.value) && OwnedFrom(db.rows, leased.value, 0)
  {
    ghost var s := db.State();
    trace := [];
    ghost var ids;
    leased, ids := db.LeasePending(limit, clock, lease, tokens, locked);
    SelectedDecide(db.variant, s.rows, ids, limit, LB.TruncateMs(clock), locked);
    if leased.Some? {
      trace := LeaseActions(ids, tokens, clock, lease);
      RunKeeps(db.variant, s, trace);
      assert RowIds(leased.value) == ids;
    }
  }

  /** The calls of a pass, when its lease transaction was not rejected. */
  method LeaseAndDeliver(
    db: OutboxDb, limit: nat, clock: int, duration: int, tokens: seq<Id>, locked: set<Id>, answered: bool,
    calls: nat -> Calls, others: (nat, nat) -> seq<Action>)
    returns (ok: bool, leased: seq<Lease>, made: nat, ghost trace: seq<Action>)
    requires Inv(db.variant, db.State()) && |tokens| == limit
    requires forall i | 0 <= i < |tokens| :: tokens[i] !in db.used
    requires forall i, j | 0 <= i < j < |tokens| :: tokens[i] != tokens[j]
    modifies db
    ensures db.State() == Run(db.variant, old(db.State()), trace)
    ensures made <= 2 * limit
    ensures ok ==>
      && FirstLeased(db.variant, old(db.rows), leased, limit, LB.TruncateMs(clock), locked)
      && Delivered(old(db.rows), db.State(), leased)
    ensures answered && Undisturbed(calls, others) ==>
      ok || BrokenFirst(db.variant, old(db.rows), limit, LB.TruncateMs(clock), locked)
  {
    ghost var s := db.State();
    var answer;
    answer, trace := LeaseBatch(db, limit, clock, duration, tokens, locked);
    ok, leased, made := false, [], 0;
    if answer.Some? && answered {
      leased := answer.value;
      ghost var rest;
      ok, made, rest := DeliverAll(db, leased, calls, others);
      RunAppends(db.variant, s, trace, rest);
      trace := trace + rest;
      if ok {
        PublishedIsDelivered(db.variant, s, trace, leased);
      }
    }
  }

  /**
   One pass. It takes only steps of the outbox, makes at most one call plus two per leased row, all within
   the lease duration when each keeps its timeout, and reports success only when the first waiting rows were
   leased and are all PUBLISHED, their messages logged. Undisturbed, with every call answered, it fails only
   when one of those rows is broken.
   */
  method RunOnce(
    db: OutboxDb, config: LB.Config, clock: int, tokens: seq<Id>, locked: set<Id>, lease: Fate,
    calls: nat -> Calls, others: (nat, nat) -> seq<Action>)
    returns (ok: bool, leased: seq<Lease>, made: nat, ghost trace: seq<Action>)
    requires Inv(db.variant, db.State()) && config.InRange()
    requires config.batchSize > 0 ==> |tokens| == config.batchSize
    requires forall i | 0 <= i < |tokens| :: tokens[i] !in db.used
    requires forall i, j | 0 <= i < j < |tokens| :: tokens[i] != tokens[j]
    modifies db
    ensures db.State() == Run(db.variant, old(db.State()), trace)
    ensures !Accepts(db.variant, config) ==> !ok && made == 0 && trace == []
    ensures Accepts(db.variant, config) ==>
      made <= 1 + 2 * config.batchSize && config.callTimeout * made <= config.leaseDuration
    ensures ok ==>
      && FirstLeased(db.variant, old(db.rows), leased, config.batchSize, clock - clock % 1_000_000, locked)
      && Delivered(old(db.rows), db.State(), leased)
    ensures Accepts(db.variant, config) && lease == Answered && Undisturbed(calls, others) ==>
      ok || BrokenFirst(db.variant, old(db.rows), config.batchSize, clock - clock % 1_000_000, locked)
  {
    ok, leased, made, trace := false, [], 0, [];
    if Accepts(db.variant, config) {
      var more := 0;
      if lease != Rejected {
        ok, leased, more, trace := LeaseAndDeliver(
          db, config.batchSize, clock, config.leaseDuration, tokens, locked, lease == Answered, calls, others);
      }
      made := 1 + more;
      PassFitsLease(db.variant, config, made);
    }
  }

  predicate Accepts(v: Variant, config: LB.Config)
    requires config.InRange()
  {
    LB.ValidateOutbox(config) && (v.Knowledge? ==> v.maxAttempts > 0)
  }

  lemma PassFitsLease(v: Variant, config: LB.Config, made: nat)
    requires config.InRange() && Accepts(v, config) && made <= 1 + 2 * config.batchSize
    ensures config.callTimeout * made <= config.leaseDuration
  {
    LB.OutboxCheckIsExact(config);
    LB.Monotone(made, 1 + 2 * config.batchSize, config.callTimeout);
  }
}
