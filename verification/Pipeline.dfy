/**
 From a submitted review to the read model: order-service's outbox, Kafka, and the analytics consumers, under
 any interleaving, duplicate or late publication, lost acknowledgement, crash and rebalance.
 */
module Pipeline {
  import opened Wrappers
  import opened Sums
  import opened Events
  import O = Outbox
  import A = Analytics

  /** A consumer process: the next log position it will handle, and whether that one is handled but uncommitted. */
  datatype Session = Session(pos: nat, done: bool)

  /** `submitted` is a history variable: the event each committed review put into the outbox. */
  datatype Sys = Sys(
    outbox: O.Sys, tables: A.Tables, committed: nat, sessions: map<Id, Session>, deadLetters: set<nat>,
    submitted: map<Id, ReviewEvent>)

  datatype Action =
    | Submit(row: Id, event: ReviewEvent)
    | Worker(action: O.Action)
    | Start(session: Id)
    | Handle(session: Id)
    | Commit(session: Id)

  /** SubmitReview commits the review and its outbox row together; its event id and review number are new. */
  predicate CanSubmit(s: Sys, row: Id, e: ReviewEvent) {
    && Valid(e) && row !in s.outbox.rows && e.eventId !in s.submitted
    && forall id | id in s.submitted :: s.submitted[id].reviewNo != e.reviewNo
  }

  function ReviewMessage(e: ReviewEvent): Message {
    Message(REVIEW_TOPIC, e.orderNo, Review(e))
  }

  function DoSubmit(s: Sys, row: Id, e: ReviewEvent): Sys {
    if !CanSubmit(s, row, e) then s
    else
      s.(outbox := O.Apply(O.Orders, s.outbox, O.InsertRow(row, e.eventId, ReviewMessage(e))),
         submitted := s.submitted[e.eventId := e])
  }

  /** Rows other code inserts are for other topics. */
  function DoWorker(s: Sys, a: O.Action): Sys {
    if a.InsertRow? && a.message.topic == REVIEW_TOPIC then s
    else s.(outbox := O.Apply(O.Orders, s.outbox, a))
  }

  /** One message: counted or skipped, dead-lettered when it is no valid review, or failed and left for later. */
  function HandleMessage(s: Sys, pos: nat): (Sys, bool)
    requires pos < |s.outbox.log|
  {
    var m := s.outbox.log[pos];
    if m.topic != REVIEW_TOPIC then (s, true)
    else if !m.payload.Review? || !Valid(m.payload.event) then (s.(deadLetters := s.deadLetters + {pos}), true)
    else
      var (t, outcome) := A.HandleReview(s.tables, m.payload.event);
      (s.(tables := t), outcome == A.Counted || outcome == A.Skipped)
  }

  function DoHandle(s: Sys, c: Id): Sys {
    if c !in s.sessions || s.sessions[c].done || s.sessions[c].pos >= |s.outbox.log| then s
    else
      var pos := s.sessions[c].pos;
      var (s', ok) := HandleMessage(s, pos);
      s'.(sessions := s.sessions[c := Session(pos, ok)])
  }

  /** Offsets are committed only after the effect; a consumer that lost its partition may set them back. */
  function DoCommit(s: Sys, c: Id): Sys {
    if c !in s.sessions || !s.sessions[c].done then s
    else
      var next := s.sessions[c].pos + 1;
      s.(committed := next, sessions := s.sessions[c := Session(next, false)])
  }

  function Apply(s: Sys, a: Action): Sys {
    match a
    case Submit(row, e) => DoSubmit(s, row, e)
    case Worker(action) => DoWorker(s, action)
    case Start(c) => s.(sessions := s.sessions[c := Session(s.committed, false)])
    case Handle(c) => DoHandle(s, c)
    case Commit(c) => DoCommit(s, c)
  }

  function Run(s: Sys, actions: seq<Action>): Sys
    decreases |actions|
  {
    if actions == [] then s else Apply(Run(s, actions[..|actions| - 1]), actions[|actions| - 1])
  }

  ghost predicate Genesis(s: Sys) {
    && O.Genesis(s.outbox) && s.tables == A.EMPTY
    && s.committed == 0 && s.sessions == map[] && s.deadLetters == {} && s.submitted == map[]
  }

  ghost predicate FromSubmission(m: Message, submitted: map<Id, ReviewEvent>) {
    m.topic == REVIEW_TOPIC ==>
      && m.payload.Review?
      && m.payload.event.eventId in submitted
      && submitted[m.payload.event.eventId] == m.payload.event
  }

  ghost predicate SubmissionsSound(s: Sys) {
    && (forall id | id in s.submitted :: s.submitted[id].eventId == id && Valid(s.submitted[id]))
    && (forall i, j | i in s.submitted && j in s.submitted && s.submitted[i].reviewNo == s.submitted[j].reviewNo ::
          i == j)
    && (forall row | row in s.outbox.rows :: FromSubmission(s.outbox.rows[row].message, s.submitted))
    && (forall i | 0 <= i < |s.outbox.log| :: FromSubmission(s.outbox.log[i], s.submitted))
    && (forall id | id in s.submitted :: HasRow(s.outbox.rows, s.submitted[id]))
  }

  ghost predicate HasRow(rows: O.Rows, e: ReviewEvent) {
    exists row | row in rows :: rows[row].message == ReviewMessage(e)
  }

  /** What is recorded was submitted, unchanged. */
  ghost predicate RecordsSound(s: Sys) {
    forall id | id in s.tables.records :: id in s.submitted && s.tables.records[id] == A.RecordOf(s.submitted[id])
  }

  ghost predicate Handled(s: Sys, pos: nat) {
    && pos < |s.outbox.log|
    && (s.outbox.log[pos].topic == REVIEW_TOPIC && s.outbox.log[pos].payload.Review? ==>
          s.outbox.log[pos].payload.event.eventId in s.tables.records)
  }

  ghost predicate HandledBelow(s: Sys, pos: nat) {
    forall i: nat | i < pos :: Handled(s, i)
  }

  ghost predicate SessionSound(s: Sys, c: Session) {
    HandledBelow(s, c.pos) && (c.done ==> Handled(s, c.pos))
  }

  ghost predicate Inv(s: Sys) {
    && O.Inv(O.Orders, s.outbox) && A.Inv(s.tables)
    && SubmissionsSound(s) && RecordsSound(s) && s.deadLetters == {}
    && HandledBelow(s, s.committed)
    && forall c | c in s.sessions :: SessionSound(s, s.sessions[c])
  }

  /** What is handled stays handled as the log and the records grow. */
  lemma HandledStays(s: Sys, s': Sys, pos: nat)
    requires s.outbox.log <= s'.outbox.log && s.tables.records.Keys <= s'.tables.records.Keys
    ensures Handled(s, pos) ==> Handled(s', pos)
    ensures HandledBelow(s, pos) ==> HandledBelow(s', pos)
  {
    forall i: nat | Handled(s, i) ensures Handled(s', i) {}
  }

  /** A step of the producing side: the consumers' progress is untouched. */
  lemma ProducerKeeps(s: Sys, s': Sys)
    requires Inv(s) && O.Inv(O.Orders, s'.outbox) && SubmissionsSound(s') && RecordsSound(s')
    requires s.outbox.log <= s'.outbox.log
    requires s' == s.(outbox := s'.outbox, submitted := s'.submitted)
    ensures Inv(s')
  {
    HandledStays(s, s', s.committed);
    forall c | c in s.sessions ensures SessionSound(s', s.sessions[c]) {
      HandledStays(s, s', s.sessions[c].pos);
    }
  }

  lemma SubmitKeepsSubmissions(s: Sys, row: Id, e: ReviewEvent)
    requires SubmissionsSound(s) && CanSubmit(s, row, e)
    ensures SubmissionsSound(DoSubmit(s, row, e))
  {
    var s' := DoSubmit(s, row, e);
    assert s'.outbox.rows[row].message == ReviewMessage(e);
    forall id | id in s'.submitted ensures HasRow(s'.outbox.rows, s'.submitted[id]) {
      if id != e.eventId {
        var r :| r in s.outbox.rows && s.outbox.rows[r].message == ReviewMessage(s.submitted[id]);
        assert s'.outbox.rows[r] == s.outbox.rows[r];
      }
    }
    forall r | r in s'.outbox.rows ensures FromSubmission(s'.outbox.rows[r].message, s'.submitted) {
      assert r != row ==> FromSubmission(s.outbox.rows[r].message, s.submitted);
    }
    forall i | 0 <= i < |s'.outbox.log| ensures FromSubmission(s'.outbox.log[i], s'.submitted) {
      assert FromSubmission(s.outbox.log[i], s.submitted);
    }
  }

  lemma SubmitKeeps(s: Sys, row: Id, e: ReviewEvent)
    requires Inv(s)
    ensures Inv(DoSubmit(s, row, e))
  {
    if CanSubmit(s, row, e) {
      O.ActionKeeps(O.Orders, s.outbox, O.InsertRow(row, e.eventId, ReviewMessage(e)));
      SubmitKeepsSubmissions(s, row, e);
      ProducerKeeps(s, DoSubmit(s, row, e));
    }
  }

  lemma WorkerKeepsSubmissions(s: Sys, a: O.Action)
    requires SubmissionsSound(s) && O.Inv(O.Orders, s.outbox)
    requires !(a.InsertRow? && a.message.topic == REVIEW_TOPIC)
    ensures SubmissionsSound(DoWorker(s, a))
  {
    var s' := DoWorker(s, a);
    O.ActionKeeps(O.Orders, s.outbox, a);
    forall id | id in s'.submitted ensures HasRow(s'.outbox.rows, s'.submitted[id]) {
      var r :| r in s.outbox.rows && s.outbox.rows[r].message == ReviewMessage(s.submitted[id]);
      assert s'.outbox.rows[r].message == s.outbox.rows[r].message;
    }
    forall r | r in s'.outbox.rows ensures FromSubmission(s'.outbox.rows[r].message, s'.submitted) {
      assert r in s.outbox.rows ==> FromSubmission(s.outbox.rows[r].message, s.submitted);
    }
  }

  lemma WorkerKeeps(s: Sys, a: O.Action)
    requires Inv(s)
    ensures Inv(DoWorker(s, a))
  {
    if !(a.InsertRow? && a.message.topic == REVIEW_TOPIC) {
      O.ActionKeeps(O.Orders, s.outbox, a);
      WorkerKeepsSubmissions(s, a);
      ProducerKeeps(s, DoWorker(s, a));
    }
  }

  /** Handling never fails and never dead-letters: every message on the topic is a valid, uncontested review. */
  lemma HandlingSucceeds(s: Sys, pos: nat)
    requires Inv(s) && pos < |s.outbox.log|
    ensures HandleMessage(s, pos).1
    ensures var s' := HandleMessage(s, pos).0;
      && s' == s.(tables := s'.tables)
      && A.Inv(s'.tables) && RecordsSound(s') && Handled(s', pos)
      && s.tables.records.Keys <= s'.tables.records.Keys
  {
    var m := s.outbox.log[pos];
    assert FromSubmission(m, s.submitted);
    if m.topic == REVIEW_TOPIC {
      var e := m.payload.event;
      A.HandleKeeps(s.tables, e);
      forall id | id in s.tables.records && s.tables.records[id].reviewNo == e.reviewNo ensures id == e.eventId {
        assert s.tables.records[id] == A.RecordOf(s.submitted[id]);
      }
      A.FailsOnlyOnForeignReview(s.tables, e);
    }
  }

  lemma HandleKeeps(s: Sys, c: Id)
    requires Inv(s)
    ensures Inv(DoHandle(s, c))
  {
    var s' := DoHandle(s, c);
    if c in s.sessions && !s.sessions[c].done && s.sessions[c].pos < |s.outbox.log| {
      HandlingSucceeds(s, s.sessions[c].pos);
      HandledStays(s, s', s.committed);
      forall d | d in s'.sessions ensures SessionSound(s', s'.sessions[d]) {
        HandledStays(s, s', s'.sessions[d].pos);
      }
    }
  }

  lemma CommitKeeps(s: Sys, c: Id)
    requires Inv(s)
    ensures Inv(DoCommit(s, c))
  {
    var s' := DoCommit(s, c);
    if s' != s {
      var next := s.sessions[c].pos + 1;
      assert SessionSound(s, s.sessions[c]);
      assert HandledBelow(s, next);
      HandledStays(s, s', next);
      forall d | d in s'.sessions ensures SessionSound(s', s'.sessions[d]) {
        HandledStays(s, s', s'.sessions[d].pos);
      }
    }
  }

  lemma ActionKeeps(s: Sys, a: Action)
    requires Inv(s)
    ensures Inv(Apply(s, a))
  {
    match a
    case Submit(row, e) => SubmitKeeps(s, row, e);
    case Worker(action) => WorkerKeeps(s, action);
    case Start(c) =>
      var s' := Apply(s, a);
      HandledStays(s, s', s.committed);
      forall d | d in s'.sessions ensures SessionSound(s', s'.sessions[d]) {
        HandledStays(s, s', s'.sessions[d].pos);
      }
    case Handle(c) => HandleKeeps(s, c);
    case Commit(c) => CommitKeeps(s, c);
  }

  lemma {:induction false} RunKeeps(s: Sys, actions: seq<Action>)
    requires Genesis(s)
    ensures Inv(Run(s, actions))
    decreases |actions|
  {
    if actions == [] {
      A.DeliveredOnce([]);
    } else {
      RunKeeps(s, actions[..|actions| - 1]);
      ActionKeeps(Run(s, actions[..|actions| - 1]), actions[|actions| - 1]);
    }
  }

  function EventCount(product: nat): ReviewEvent -> int {
    (e: ReviewEvent) => if e.productId == product then 1 else 0
  }

  function EventRating(product: nat): ReviewEvent -> int {
    (e: ReviewEvent) => if e.productId == product then e.rating else 0
  }

  /** Every review row of the outbox is PUBLISHED and the consumers have committed everything Kafka stored. */
  ghost predicate CaughtUp(s: Sys) {
    && (forall row | row in s.outbox.rows && s.outbox.rows[row].message.topic == REVIEW_TOPIC ::
          s.outbox.rows[row].status == O.Published)
    && s.committed == |s.outbox.log|
  }

  /** At any time, what is recorded is a part of what was submitted; caught up, it is all of it. */
  lemma CaughtUpHasEverything(s: Sys)
    requires Inv(s) && CaughtUp(s)
    ensures s.tables.records.Keys == s.submitted.Keys
  {
    forall id | id in s.submitted ensures id in s.tables.records {
      var row :| row in s.outbox.rows && s.outbox.rows[row].message == ReviewMessage(s.submitted[id]);
      O.PublishedIsLogged(O.Orders, s.outbox, row);
      var i :| 0 <= i < |s.outbox.log| && s.outbox.log[i] == ReviewMessage(s.submitted[id]);
      assert Handled(s, i);
    }
    forall id | id in s.tables.records ensures id in s.submitted {}
    assert s.submitted.Keys <= s.tables.records.Keys;
    assert s.tables.records.Keys <= s.submitted.Keys;
  }

  /**
   Effectively once, end to end: in any run, once the review rows are published and the consumers are caught up, each
   product's stats are exactly the count, rating sum and latest time of the reviews submitted for it.
   */
  lemma EffectivelyOnce(s: Sys, actions: seq<Action>, product: nat)
    requires Genesis(s) && CaughtUp(Run(s, actions))
    ensures var s' := Run(s, actions);
      && (product in s'.tables.stats <==> exists id | id in s'.submitted :: s'.submitted[id].productId == product)
      && (product in s'.tables.stats ==>
            && s'.tables.stats[product].count == MapSum(s'.submitted, EventCount(product))
            && s'.tables.stats[product].sum == MapSum(s'.submitted, EventRating(product))
            && s'.tables.stats[product].last.Some?
            && LatestSubmitted(s'.submitted, product, s'.tables.stats[product].last.value))
    ensures forall id | id in Run(s, actions).submitted ::
      id in Run(s, actions).tables.records
      && A.Tells(Run(s, actions).tables.records[id], Run(s, actions).submitted[id])
  {
    var s' := Run(s, actions);
    RunKeeps(s, actions);
    CaughtUpHasEverything(s');
    assert A.StatsFold(s'.tables, product);
    FoldsAgree(s', product);
    forall id | id in s'.submitted ensures A.Tells(s'.tables.records[id], s'.submitted[id]) {
      assert id in s'.tables.records;
    }
    if product in s'.tables.stats {
      LatestAgrees(s', product, s'.tables.stats[product].last.value);
    }
  }

  /** The time of some submitted review of the product, to the millisecond, and of none a later one. */
  ghost predicate LatestSubmitted(submitted: map<Id, ReviewEvent>, product: nat, at: int) {
    && (exists id | id in submitted ::
          submitted[id].productId == product && A.ToTheMillisecond(submitted[id].occurredAt) == at)
    && (forall id | id in submitted && submitted[id].productId == product ::
          A.ToTheMillisecond(submitted[id].occurredAt) <= at)
  }

  lemma LatestAgrees(s: Sys, product: nat, at: int)
    requires RecordsSound(s) && s.tables.records.Keys == s.submitted.Keys
    requires A.IsLatest(s.tables.records, product, at)
    ensures LatestSubmitted(s.submitted, product, at)
  {
    forall id | id in s.submitted ensures id in s.tables.records && A.Tells(s.tables.records[id], s.submitted[id]) {
      assert id in s.tables.records;
    }
    var id :| id in s.tables.records && s.tables.records[id].productId == product
      && s.tables.records[id].occurredAt == at;
    assert A.ToTheMillisecond(s.submitted[id].occurredAt) == at;
  }

  /** Submissions are never lost: one that could be made is among them, as it was, ever after. */
  lemma SubmissionsStand(s: Sys, row: Id, e: ReviewEvent, actions: seq<Action>)
    requires CanSubmit(s, row, e)
    ensures var s' := Run(Apply(s, Submit(row, e)), actions);
      e.eventId in s'.submitted && s'.submitted[e.eventId] == e
  {
    SubmittedStays(Apply(s, Submit(row, e)), actions, e.eventId);
  }

  lemma {:induction false} SubmittedStays(s: Sys, actions: seq<Action>, id: Id)
    requires id in s.submitted
    ensures id in Run(s, actions).submitted && Run(s, actions).submitted[id] == s.submitted[id]
    decreases |actions|
  {
    if actions != [] {
      SubmittedStays(s, actions[..|actions| - 1], id);
    }
  }

  lemma FoldsAgree(s: Sys, product: nat)
    requires RecordsSound(s) && s.tables.records.Keys == s.submitted.Keys
    ensures MapSum(s.tables.records, A.CountFor(product)) == MapSum(s.submitted, EventCount(product))
    ensures MapSum(s.tables.records, A.RatingFor(product)) == MapSum(s.submitted, EventRating(product))
    ensures A.Reviewed(s.tables.records, product) <==>
      exists id | id in s.submitted :: s.submitted[id].productId == product
  {
    var ids := s.submitted.Keys;
    forall id | id in ids
      ensures At(s.tables.records, A.CountFor(product))(id) == At(s.submitted, EventCount(product))(id)
      ensures At(s.tables.records, A.RatingFor(product))(id) == At(s.submitted, EventRating(product))(id)
      ensures s.tables.records[id].productId == s.submitted[id].productId
    {
      assert s.tables.records[id] == A.RecordOf(s.submitted[id]);
    }
    SumCongruent(ids, At(s.tables.records, A.CountFor(product)), At(s.submitted, EventCount(product)));
    SumCongruent(ids, At(s.tables.records, A.RatingFor(product)), At(s.submitted, EventRating(product)));
  }

  /** Nothing submitted is ever dead-lettered, and consumers never stop on a message. */
  lemma ConsumersNeverStop(s: Sys, actions: seq<Action>, pos: nat)
    requires Genesis(s) && pos < |Run(s, actions).outbox.log|
    ensures Run(s, actions).deadLetters == {}
    ensures HandleMessage(Run(s, actions), pos).1
  {
    RunKeeps(s, actions);
    HandlingSucceeds(Run(s, actions), pos);
  }
}
