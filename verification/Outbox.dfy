/**
 Leased outbox rows and their publication to Kafka, for any number of workers. The order and the knowledge
 outbox differ in what they lease and in what they do with a row whose publication keeps failing.
 */
module Outbox {
  import opened Wrappers
  import opened Events
  import opened LeaseBudget

  datatype Status = Pending | Processing | Published | Dead

  datatype Row = Row(
    eventId: Id, message: Message, status: Status, attempts: nat, token: Option<Id>, leaseUntil: Option<int>,
    nextRetryAt: Option<int>)

  datatype Variant = Orders | Knowledge(maxAttempts: int)

  /** A leased row, as its worker remembers it. */
  datatype Lease = Lease(row: Id, token: Id, attempts: nat)

  type Rows = map<Id, Row>

  predicate Publishable(v: Variant, row: Row) {
    v.Orders? ==> row.message.topic == CONFIRMATION_TOPIC || row.message.topic == REVIEW_TOPIC
  }

  /** The WHERE clause of the lease query, at a time already truncated to milliseconds. */
  predicate Due(v: Variant, row: Row, now: int) {
    && Publishable(v, row)
    && (|| (row.status == Pending && (row.nextRetryAt.None? || row.nextRetryAt.value <= now))
        || (row.status == Processing && row.leaseUntil.Some? && row.leaseUntil.value <= now))
  }

  /** The order outbox refuses a whole batch over one row it cannot use. */
  predicate Usable(v: Variant, row: Row) {
    v.Orders? ==> !row.message.payload.Malformed? && row.message.topic != "" && row.message.key != ""
  }

  function LeaseOne(rows: Rows, id: Id, token: Id, until: int): (r: Rows)
    requires id in rows
    ensures r.Keys == rows.Keys
  {
    rows[id := rows[id].(status := Processing, attempts := rows[id].attempts + 1, token := Some(token),
                         leaseUntil := Some(until))]
  }

  predicate Holds(rows: Rows, id: Id, token: Id) {
    id in rows && rows[id].status == Processing && rows[id].token == Some(token)
  }

  /** An update fenced by the claim token; it says whether it changed its row. */
  function Close(rows: Rows, id: Id, token: Id, status: Status, nextRetryAt: Option<int>): (Rows, bool) {
    if Holds(rows, id, token) then
      (rows[id := rows[id].(status := status, token := None, leaseUntil := None, nextRetryAt := nextRetryAt)], true)
    else (rows, false)
  }

  function MarkPublished(rows: Rows, id: Id, token: Id): (Rows, bool) {
    Close(rows, id, token, Published, None)
  }

  function Retry(rows: Rows, id: Id, token: Id, at: int): (Rows, bool) {
    Close(rows, id, token, Pending, Some(TruncateMs(at)))
  }

  function MarkDead(rows: Rows, id: Id, token: Id): (Rows, bool) {
    Close(rows, id, token, Dead, None)
  }

  /** `log` is everything Kafka has stored; `acks` the publications acknowledged to the worker under that token. */
  datatype Sys = Sys(rows: Rows, log: seq<Message>, acks: set<(Id, Id)>, used: set<Id>, held: set<Lease>)

  datatype Action =
    | InsertRow(row: Id, eventId: Id, message: Message)
    | LeaseRow(row: Id, token: Id, now: int, lease: int)
    | Publish(held: Lease, acked: bool)
    | Mark(held: Lease)
    | RetryLater(held: Lease, at: int)
    | GiveUp(held: Lease)

  function Fresh(eventId: Id, message: Message): Row {
    Row(eventId, message, Pending, 0, None, None, None)
  }

  function DoLease(v: Variant, s: Sys, id: Id, token: Id, now: int, lease: int): Sys {
    if id !in s.rows || !Due(v, s.rows[id], TruncateMs(now)) || token in s.used then s
    else
      s.(rows := LeaseOne(s.rows, id, token, OutboxLeaseUntil(now, lease)), used := s.used + {token},
         held := s.held + {Lease(id, token, s.rows[id].attempts + 1)})
  }

  /** Kafka may store a message whose acknowledgement is lost. */
  function DoPublish(s: Sys, l: Lease, acked: bool): Sys {
    if l !in s.held || l.row !in s.rows then s
    else
      s.(log := s.log + [s.rows[l.row].message],
         acks := s.acks + if acked then {(l.row, l.token)} else {})
  }

  /** A worker marks only what was acknowledged to it, and gives up only on a lease out of attempts. */
  function Apply(v: Variant, s: Sys, a: Action): Sys {
    match a
    case InsertRow(id, eventId, message) =>
      if id in s.rows then s else s.(rows := s.rows[id := Fresh(eventId, message)])
    case LeaseRow(id, token, now, lease) => DoLease(v, s, id, token, now, lease)
    case Publish(l, acked) => DoPublish(s, l, acked)
    case Mark(l) => if (l.row, l.token) in s.acks then s.(rows := MarkPublished(s.rows, l.row, l.token).0) else s
    case RetryLater(l, at) => if l in s.held then s.(rows := Retry(s.rows, l.row, l.token, at).0) else s
    case GiveUp(l) =>
      if l in s.held && v.Knowledge? && l.attempts >= v.maxAttempts
      then s.(rows := MarkDead(s.rows, l.row, l.token).0) else s
  }

  function Run(v: Variant, s: Sys, actions: seq<Action>): Sys
    decreases |actions|
  {
    if actions == [] then s else Apply(v, Run(v, s, actions[..|actions| - 1]), actions[|actions| - 1])
  }

  /** Token and lease columns are set exactly while a row is being processed, by the lease that holds it. */
  ghost predicate RowSound(v: Variant, s: Sys, id: Id, row: Row) {
    && (row.status == Processing <==> row.token.Some?)
    && (row.status == Processing <==> row.leaseUntil.Some?)
    && (row.token.Some? ==> Lease(id, row.token.value, row.attempts) in s.held)
    && (row.status == Published ==> exists token :: (id, token) in s.acks)
    && (row.status == Dead ==> v.Knowledge? && row.attempts >= v.maxAttempts)
  }

  ghost predicate Inv(v: Variant, s: Sys) {
    && (forall id | id in s.rows :: RowSound(v, s, id, s.rows[id]))
    && (forall l | l in s.held :: l.token in s.used && l.row in s.rows && l.attempts <= s.rows[l.row].attempts)
    && (forall l, m | l in s.held && m in s.held && l.token == m.token :: l == m)
    && (forall a | a in s.acks :: a.0 in s.rows && a.1 in s.used && s.rows[a.0].message in s.log)
  }

  /** What no later action undoes. */
  ghost predicate Advances(s: Sys, s': Sys) {
    && (forall id | id in s.rows ::
          && id in s'.rows
          && s'.rows[id].eventId == s.rows[id].eventId && s'.rows[id].message == s.rows[id].message
          && s'.rows[id].attempts >= s.rows[id].attempts
          && (s.rows[id].status in {Published, Dead} ==> s'.rows[id] == s.rows[id]))
    && s.log <= s'.log && s.acks <= s'.acks && s.used <= s'.used && s.held <= s'.held
  }

  /** A drawn token that holds no row never will. */
  ghost predicate NoRevival(s: Sys, s': Sys) {
    forall token, id | token in s.used && Holds(s'.rows, id, token) :: Holds(s.rows, id, token)
  }

  lemma LeaseKeeps(v: Variant, s: Sys, id: Id, token: Id, now: int, lease: int)
    requires Inv(v, s)
    ensures var s' := DoLease(v, s, id, token, now, lease); Inv(v, s') && Advances(s, s') && NoRevival(s, s')
  {
    var s' := DoLease(v, s, id, token, now, lease);
    if s' != s {
      forall k | k in s'.rows ensures RowSound(v, s', k, s'.rows[k]) {
        assert RowSound(v, s, k, s.rows[k]);
      }
    }
  }

  lemma CloseKeeps(v: Variant, s: Sys, l: Lease, status: Status, at: Option<int>)
    requires Inv(v, s) && status in {Pending, Published, Dead}
    requires status == Published ==> (l.row, l.token) in s.acks
    requires status == Dead ==> v.Knowledge? && l in s.held && l.attempts >= v.maxAttempts
    ensures var s' := s.(rows := Close(s.rows, l.row, l.token, status, at).0);
      Inv(v, s') && Advances(s, s') && NoRevival(s, s')
  {
    var s' := s.(rows := Close(s.rows, l.row, l.token, status, at).0);
    forall k | k in s'.rows ensures RowSound(v, s', k, s'.rows[k]) {
      assert RowSound(v, s, k, s.rows[k]);
    }
  }

  lemma PublishKeeps(v: Variant, s: Sys, l: Lease, acked: bool)
    requires Inv(v, s)
    ensures var s' := DoPublish(s, l, acked); Inv(v, s') && Advances(s, s') && NoRevival(s, s')
  {
    var s' := DoPublish(s, l, acked);
    forall k | k in s'.rows ensures RowSound(v, s', k, s'.rows[k]) {
      assert RowSound(v, s, k, s.rows[k]);
    }
  }

  lemma InsertKeeps(v: Variant, s: Sys, id: Id, eventId: Id, message: Message)
    requires Inv(v, s) && id !in s.rows
    ensures var s' := s.(rows := s.rows[id := Fresh(eventId, message)]);
      Inv(v, s') && Advances(s, s') && NoRevival(s, s')
  {
    var s' := s.(rows := s.rows[id := Fresh(eventId, message)]);
    forall k | k in s'.rows ensures RowSound(v, s', k, s'.rows[k]) {
      assert k != id ==> RowSound(v, s, k, s.rows[k]);
    }
  }

  lemma ActionKeeps(v: Variant, s: Sys, a: Action)
    requires Inv(v, s)
    ensures Inv(v, Apply(v, s, a)) && Advances(s, Apply(v, s, a)) && NoRevival(s, Apply(v, s, a))
  {
    match a
    case InsertRow(id, eventId, message) =>
      if id !in s.rows {
        InsertKeeps(v, s, id, eventId, message);
      }
    case LeaseRow(id, token, now, lease) => LeaseKeeps(v, s, id, token, now, lease);
    case Publish(l, acked) => PublishKeeps(v, s, l, acked);
    case Mark(l) =>
      if (l.row, l.token) in s.acks {
        CloseKeeps(v, s, l, Published, None);
      }
    case RetryLater(l, at) => CloseKeeps(v, s, l, Pending, Some(TruncateMs(at)));
    case GiveUp(l) =>
      if l in s.held && v.Knowledge? && l.attempts >= v.maxAttempts {
        CloseKeeps(v, s, l, Dead, None);
      }
  }

  lemma {:induction false} RunKeeps(v: Variant, s: Sys, actions: seq<Action>)
    requires Inv(v, s)
    ensures Inv(v, Run(v, s, actions)) && Advances(s, Run(v, s, actions)) && NoRevival(s, Run(v, s, actions))
    decreases |actions|
  {
    if actions != [] {
      var n := |actions| - 1;
      RunKeeps(v, s, actions[..n]);
      ActionKeeps(v, Run(v, s, actions[..n]), actions[n]);
    }
  }

  lemma {:induction false} RunAppends(v: Variant, s: Sys, actions: seq<Action>, more: seq<Action>)
    ensures Run(v, s, actions + more) == Run(v, Run(v, s, actions), more)
    decreases |more|
  {
    var all := actions + more;
    if more == [] {
      assert all == actions;
    } else {
      var n := |more| - 1;
      assert all[..|all| - 1] == actions + more[..n] && all[|all| - 1] == more[n];
      RunAppends(v, s, actions, more[..n]);
    }
  }

  /** Nothing leased, nothing published yet. */
  ghost predicate Genesis(s: Sys) {
    s.rows == map[] && s.log == [] && s.acks == {} && s.held == {}
  }

  /** A row becomes PUBLISHED only when the worker that holds it marks it after an acknowledged publication. */
  lemma PublishedOnlyByItsHolder(v: Variant, s: Sys, a: Action, id: Id)
    requires Inv(v, s) && id in s.rows && s.rows[id].status != Published
    requires id in Apply(v, s, a).rows && Apply(v, s, a).rows[id].status == Published
    ensures a.Mark? && a.held.row == id && Holds(s.rows, id, a.held.token)
    ensures (id, a.held.token) in s.acks && s.rows[id].message in s.log
  {
  }

  /** Once a worker's lease has been taken over or closed, nothing it does later changes any row. */
  lemma DispossessedChangesNothing(v: Variant, s: Sys, l: Lease, actions: seq<Action>, status: Status, at: Option<int>)
    requires Inv(v, s) && l in s.held && !Holds(s.rows, l.row, l.token)
    ensures var rows := Run(v, s, actions).rows;
      Close(rows, l.row, l.token, status, at) == (rows, false)
  {
    RunKeeps(v, s, actions);
  }

  ghost predicate DueFrom(v: Variant, row: Row, from: int) {
    forall now | now >= from :: Due(v, row, now)
  }

  /** A row that is neither PUBLISHED nor DEAD is due for lease again from some moment on. */
  lemma LeasableAgain(v: Variant, s: Sys, id: Id)
    requires Inv(v, s) && id in s.rows && Publishable(v, s.rows[id])
    ensures s.rows[id].status in {Pending, Processing} <==> exists from :: DueFrom(v, s.rows[id], from)
  {
    var row := s.rows[id];
    assert RowSound(v, s, id, row);
    var from := if row.status == Processing then row.leaseUntil.value
                else if row.nextRetryAt.Some? then row.nextRetryAt.value else 0;
    if row.status in {Pending, Processing} {
      assert DueFrom(v, row, from);
    }
    forall t | DueFrom(v, row, t) ensures row.status in {Pending, Processing} {
      assert Due(v, row, t);
    }
  }

  /** DEAD rows exist only in the knowledge outbox, and only after as many attempts as configured. */
  lemma DeadMeansExhausted(v: Variant, s: Sys, actions: seq<Action>, id: Id)
    requires Inv(v, s) && id in Run(v, s, actions).rows && Run(v, s, actions).rows[id].status == Dead
    ensures v.Knowledge? && Run(v, s, actions).rows[id].attempts >= v.maxAttempts
  {
    RunKeeps(v, s, actions);
    assert RowSound(v, Run(v, s, actions), id, Run(v, s, actions).rows[id]);
  }

  /** Whatever is PUBLISHED is in the log, for good. */
  lemma PublishedIsLogged(v: Variant, s: Sys, id: Id)
    requires Inv(v, s) && id in s.rows && s.rows[id].status == Published
    ensures s.rows[id].message in s.log
  {
    assert RowSound(v, s, id, s.rows[id]);
  }

  /** Leases this row only with clocks that have not reached the end of its lease, and acts under other tokens. */
  predicate LeavesRow(a: Action, l: Lease, until: int) {
    match a
    case LeaseRow(id, _, now, _) => id == l.row ==> now - now % 1_000_000 < until
    case Mark(other) => other.token != l.token
    case RetryLater(other, _) => other.token != l.token
    case GiveUp(other) => other.token != l.token
    case _ => true
  }

  /** Until its lease ends a row stays its worker's: nobody else leases, closes or changes it. */
  lemma {:induction false} RunningLeaseStands(v: Variant, s: Sys, l: Lease, until: int, actions: seq<Action>)
    requires Holds(s.rows, l.row, l.token) && s.rows[l.row].leaseUntil == Some(until)
    requires forall i | 0 <= i < |actions| :: LeavesRow(actions[i], l, until)
    ensures l.row in Run(v, s, actions).rows && Run(v, s, actions).rows[l.row] == s.rows[l.row]
    decreases |actions|
  {
    if actions != [] {
      var n := |actions| - 1;
      RunningLeaseStands(v, s, l, until, actions[..n]);
      assert LeavesRow(actions[n], l, until);
    }
  }
}
