/** The review read model: each event counted once, in the transaction that records it as consumed. */
module Analytics {
  import opened Wrappers
  import opened Sums
  import opened Events
  import opened LeaseBudget

  datatype Consumption = InProgress | Succeeded

  datatype Record = Record(
    reviewNo: string, orderNo: string, userId: nat, productId: nat, sku: nat, rating: nat, content: string,
    occurredAt: int)

  datatype Stats = Stats(count: nat, sum: nat, last: Option<int>)

  /** Keyed by event id, event id (with review_no UNIQUE too) and product id. */
  datatype Tables = Tables(consumptions: map<Id, Consumption>, records: map<Id, Record>, stats: map<nat, Stats>)

  datatype Outcome = Counted | Skipped | Invalid | Busy | DuplicateReview

  function RecordOf(e: ReviewEvent): Record {
    Record(e.reviewNo, e.orderNo, e.userId, e.productId, e.sku, e.rating, e.content, TruncateMs(e.occurredAt))
  }

  /** A time to the millisecond below it, in nanoseconds. */
  function ToTheMillisecond(at: int): int {
    at - at % 1_000_000
  }

  /** The row holds what the event says, its time to the millisecond. */
  predicate Tells(r: Record, e: ReviewEvent) {
    && r.reviewNo == e.reviewNo && r.orderNo == e.orderNo
    && r.userId == e.userId && r.productId == e.productId && r.sku == e.sku
    && r.rating == e.rating && r.content == e.content
    && r.occurredAt == ToTheMillisecond(e.occurredAt)
  }

  /** GREATEST(COALESCE(last, at), at). */
  function Latest(last: Option<int>, at: int): int {
    if last.Some? && last.value > at then last.value else at
  }

  function Added(stats: map<nat, Stats>, product: nat, rating: nat, at: int): map<nat, Stats> {
    if product !in stats then stats[product := Stats(1, rating, Some(at))]
    else
      var s := stats[product];
      stats[product := Stats(s.count + 1, s.sum + rating, Some(Latest(s.last, at)))]
  }

  /** One review more: count and sum grow by it, and the latest time is the later of the two. */
  predicate AddsUp(before: Option<Stats>, after: Stats, e: ReviewEvent) {
    var at := ToTheMillisecond(e.occurredAt);
    if before.None? then after == Stats(1, e.rating, Some(at))
    else
      && after.count == before.value.count + 1 && after.sum == before.value.sum + e.rating
      && after.last.Some? && after.last.value >= at
      && (before.value.last.Some? ==> after.last.value >= before.value.last.value)
      && (after.last == Some(at) || after.last == before.value.last)
  }

  predicate ReviewTaken(t: Tables, reviewNo: string) {
    exists id | id in t.records :: t.records[id].reviewNo == reviewNo
  }

  /** The whole transaction; anything but Counted leaves the tables as they were. */
  function HandleReview(t: Tables, e: ReviewEvent): (Tables, Outcome) {
    if !Valid(e) then (t, Invalid)
    else if e.eventId in t.consumptions then (t, if t.consumptions[e.eventId].Succeeded? then Skipped else Busy)
    else if e.eventId in t.records || ReviewTaken(t, e.reviewNo) then (t, DuplicateReview)
    else
      var r := RecordOf(e);
      (Tables(t.consumptions[e.eventId := Succeeded], t.records[e.eventId := r],
              Added(t.stats, e.productId, e.rating, r.occurredAt)),
       Counted)
  }

  function CountFor(product: nat): Record -> int {
    (r: Record) => if r.productId == product then 1 else 0
  }

  function RatingFor(product: nat): Record -> int {
    (r: Record) => if r.productId == product then r.rating else 0
  }

  predicate Reviewed(records: map<Id, Record>, product: nat) {
    exists id | id in records :: records[id].productId == product
  }

  ghost predicate IsLatest(records: map<Id, Record>, product: nat, at: int) {
    && (exists id | id in records :: records[id].productId == product && records[id].occurredAt == at)
    && (forall id | id in records && records[id].productId == product :: records[id].occurredAt <= at)
  }

  /** A product's stats are the fold of its records: how many, their ratings' sum, their latest time. */
  ghost predicate StatsFold(t: Tables, product: nat) {
    && (product in t.stats <==> Reviewed(t.records, product))
    && (product in t.stats ==>
          && t.stats[product].count == MapSum(t.records, CountFor(product))
          && t.stats[product].sum == MapSum(t.records, RatingFor(product))
          && t.stats[product].last.Some?
          && IsLatest(t.records, product, t.stats[product].last.value))
  }

  ghost predicate Inv(t: Tables) {
    && t.consumptions.Keys == t.records.Keys
    && (forall id | id in t.consumptions :: t.consumptions[id] == Succeeded)
    && (forall id | id in t.records :: 1 <= t.records[id].rating <= 5)
    && (forall i, j | i in t.records && j in t.records && t.records[i].reviewNo == t.records[j].reviewNo :: i == j)
    && (forall product :: StatsFold(t, product))
  }

  lemma NothingCounted(records: map<Id, Record>, product: nat)
    requires !Reviewed(records, product)
    ensures MapSum(records, CountFor(product)) == 0 && MapSum(records, RatingFor(product)) == 0
  {
    forall id | id in records.Keys
      ensures At(records, CountFor(product))(id) == 0 && At(records, RatingFor(product))(id) == 0 {}
    SumZero(records.Keys, At(records, CountFor(product)));
    SumZero(records.Keys, At(records, RatingFor(product)));
  }

  lemma CountedKeepsStats(t: Tables, e: ReviewEvent, product: nat)
    requires StatsFold(t, product) && HandleReview(t, e).1 == Counted && e.eventId !in t.records
    ensures StatsFold(HandleReview(t, e).0, product)
  {
    var t', r := HandleReview(t, e).0, RecordOf(e);
    MapSumUpdate(t.records, e.eventId, r, CountFor(product));
    MapSumUpdate(t.records, e.eventId, r, RatingFor(product));
    assert t'.records[e.eventId] == r;
    if product == e.productId {
      if product !in t.stats {
        NothingCounted(t.records, product);
        assert IsLatest(t'.records, product, r.occurredAt);
      } else {
        LatestExtends(t.records, e.eventId, r, product, t.stats[product].last.value);
      }
    } else if product in t.stats {
      LatestExtends(t.records, e.eventId, r, product, t.stats[product].last.value);
    }
  }

  lemma LatestExtends(records: map<Id, Record>, id: Id, r: Record, product: nat, last: int)
    requires IsLatest(records, product, last) && id !in records
    ensures IsLatest(records[id := r], product,
                     if r.productId == product then Latest(Some(last), r.occurredAt) else last)
    ensures Reviewed(records[id := r], product)
  {
    var records' := records[id := r];
    var k :| k in records && records[k].productId == product && records[k].occurredAt == last;
    assert records'[k] == records[k] && records'[id] == r;
  }

  /** No transaction ever leaves a row in progress, counts an event twice, or lets a sum drift. */
  lemma HandleKeeps(t: Tables, e: ReviewEvent)
    requires Inv(t)
    ensures Inv(HandleReview(t, e).0)
    ensures HandleReview(t, e).1 != Busy
  {
    if HandleReview(t, e).1 == Counted {
      var t' := HandleReview(t, e).0;
      forall product ensures StatsFold(t', product) {
        CountedKeepsStats(t, e, product);
      }
    }
  }

  /** An event fails exactly when it is invalid, or new under a review number some other event has. */
  lemma FailsOnlyOnForeignReview(t: Tables, e: ReviewEvent)
    requires Inv(t)
    ensures HandleReview(t, e).1 in {Counted, Skipped} <==>
      Valid(e) && (e.eventId in t.records || !ReviewTaken(t, e.reviewNo))
    ensures HandleReview(t, e).1 in {Counted, Skipped} <==> e.eventId in HandleReview(t, e).0.records && Valid(e)
  {
  }

  const ONE_REVIEW: ReviewEvent :=
    ReviewEvent(1, "review.submitted", "R-1", "O-1", 1, 1, 1, 5, "good", 0, 1)
  const ITS_RIVAL: ReviewEvent := ONE_REVIEW.(eventId := 2, rating := 1)

  /** Valid events can fail: a new one under a recorded review number changes nothing, however often it comes. */
  lemma SecondOfAReviewFails(t: Tables, e: ReviewEvent, f: ReviewEvent)
    requires Inv(t) && Valid(f) && e.reviewNo == f.reviewNo && f.eventId !in t.records
    requires e.eventId in t.records && t.records[e.eventId] == RecordOf(e)
    ensures HandleReview(t, f) == (t, DuplicateReview)
  {
    assert ReviewTaken(t, f.reviewNo) by {
      assert t.records[e.eventId].reviewNo == f.reviewNo;
    }
  }

  lemma SameReviewNumberFails()
    ensures Valid(ONE_REVIEW) && Valid(ITS_RIVAL) && ONE_REVIEW.eventId != ITS_RIVAL.eventId
    ensures var (t, outcome) := HandleReview(EMPTY, ONE_REVIEW);
      && outcome == Counted && HandleReview(t, ITS_RIVAL) == (t, DuplicateReview)
      && t.records == map[ONE_REVIEW.eventId := RecordOf(ONE_REVIEW)]
  {
    var t := HandleReview(EMPTY, ONE_REVIEW).0;
    assert t.records[1].reviewNo == ITS_RIVAL.reviewNo && t.records == map[1 := RecordOf(ONE_REVIEW)];
    assert 2 !in t.consumptions && ReviewTaken(t, ITS_RIVAL.reviewNo);
  }

  /** Ratings keep the sum between the count and five times the count. */
  lemma SumWithinRatings(t: Tables, product: nat)
    requires Inv(t) && product in t.stats
    ensures 0 < t.stats[product].count <= t.stats[product].sum <= 5 * t.stats[product].count
  {
    assert StatsFold(t, product);
    RatingsBound(t.records, t.records.Keys, product);
    var id :| id in t.records && t.records[id].productId == product;
    SumRemove(t.records.Keys, At(t.records, CountFor(product)), id);
    SumNonNegative(t.records.Keys - {id}, At(t.records, CountFor(product)));
  }

  lemma {:induction false} RatingsBound(records: map<Id, Record>, ids: set<Id>, product: nat)
    requires ids <= records.Keys && forall id | id in records :: 1 <= records[id].rating <= 5
    ensures Sum(ids, At(records, CountFor(product))) <= Sum(ids, At(records, RatingFor(product)))
      <= 5 * Sum(ids, At(records, CountFor(product)))
    decreases ids
  {
    if ids != {} {
      var id := Element(ids);
      RatingsBound(records, ids - {id}, product);
      SumRemove(ids, At(records, CountFor(product)), id);
      SumRemove(ids, At(records, RatingFor(product)), id);
    }
  }

  /** Handling one delivery after the other; failed ones change nothing. */
  function Deliver(t: Tables, events: seq<ReviewEvent>): Tables
    decreases |events|
  {
    if events == [] then t else HandleReview(Deliver(t, events[..|events| - 1]), events[|events| - 1]).0
  }

  const EMPTY: Tables := Tables(map[], map[], map[])

  /** An event id stands for one event, and a review number for one event id. */
  ghost predicate Coherent(events: seq<ReviewEvent>) {
    forall i, j | 0 <= i < |events| && 0 <= j < |events| && Valid(events[i]) && Valid(events[j]) ::
      && (events[i].eventId == events[j].eventId ==> events[i] == events[j])
      && (events[i].reviewNo == events[j].reviewNo ==> events[i].eventId == events[j].eventId)
  }

  predicate Delivered(events: seq<ReviewEvent>, id: Id) {
    exists i | 0 <= i < |events| :: Valid(events[i]) && events[i].eventId == id
  }

  lemma DeliveredStays(events: seq<ReviewEvent>, e: ReviewEvent)
    ensures Valid(e) ==> Delivered(events + [e], e.eventId)
    ensures forall id | Delivered(events, id) :: Delivered(events + [e], id)
  {
    assert (events + [e])[|events|] == e;
    forall id | Delivered(events, id) ensures Delivered(events + [e], id) {
      var i :| 0 <= i < |events| && Valid(events[i]) && events[i].eventId == id;
      assert (events + [e])[i] == events[i];
    }
  }

  /** The records are those of the valid events delivered, each under its id. */
  ghost predicate RecordsAre(records: map<Id, Record>, events: seq<ReviewEvent>) {
    && (forall i | 0 <= i < |events| && Valid(events[i]) ::
          && events[i].eventId in records && records[events[i].eventId] == RecordOf(events[i])
          && Tells(records[events[i].eventId], events[i]))
    && (forall id | id in records :: Delivered(events, id))
  }

  /** Whatever the duplication and order of deliveries, every valid event is recorded exactly once. */
  lemma {:induction false} DeliveredOnce(events: seq<ReviewEvent>)
    requires Coherent(events)
    ensures Inv(Deliver(EMPTY, events)) && RecordsAre(Deliver(EMPTY, events).records, events)
    decreases |events|
  {
    if events == [] {
      forall product ensures StatsFold(EMPTY, product) {}
    } else {
      var n := |events| - 1;
      assert events == events[..n] + [events[n]];
      DeliveredOnce(events[..n]);
      HandleKeeps(Deliver(EMPTY, events[..n]), events[n]);
      OneMoreDelivery(Deliver(EMPTY, events[..n]), events[..n], events[n]);
    }
  }

  /** A new event's review number is new too. */
  lemma NewReviewNumber(t: Tables, events: seq<ReviewEvent>, e: ReviewEvent)
    requires RecordsAre(t.records, events) && Coherent(events + [e]) && Valid(e)
    ensures e.eventId in t.records ==> t.records[e.eventId] == RecordOf(e)
    ensures e.eventId !in t.records ==> !ReviewTaken(t, e.reviewNo)
  {
    var all := events + [e];
    assert all[|events|] == e;
    forall id | id in t.records && (id == e.eventId || t.records[id].reviewNo == e.reviewNo)
      ensures id == e.eventId && t.records[id] == RecordOf(e)
    {
      var i :| 0 <= i < |events| && Valid(events[i]) && events[i].eventId == id;
      assert all[i] == events[i];
    }
  }

  lemma OneMoreDelivery(t: Tables, events: seq<ReviewEvent>, e: ReviewEvent)
    requires Inv(t) && RecordsAre(t.records, events) && Coherent(events + [e])
    ensures RecordsAre(HandleReview(t, e).0.records, events + [e])
  {
    var all, t' := events + [e], HandleReview(t, e).0;
    DeliveredStays(events, e);
    if Valid(e) {
      NewReviewNumber(t, events, e);
    }
    forall i | 0 <= i < |all| && Valid(all[i])
      ensures all[i].eventId in t'.records && t'.records[all[i].eventId] == RecordOf(all[i])
      ensures Tells(t'.records[all[i].eventId], all[i])
    {
      assert i < |events| ==> all[i] == events[i];
    }
  }

  /** Two delivery sequences of the same events, in any order and multiplicity, leave the same tables. */
  lemma DeliveryOrderDoesNotMatter(events: seq<ReviewEvent>, events': seq<ReviewEvent>)
    requires Coherent(events) && Coherent(events')
    requires forall e :: e in events <==> e in events'
    ensures Deliver(EMPTY, events) == Deliver(EMPTY, events')
  {
    DeliveredOnce(events);
    DeliveredOnce(events');
    var t, t' := Deliver(EMPTY, events), Deliver(EMPTY, events');
    SameRecords(t.records, t'.records, events, events');
    SameStats(t, t');
  }

  lemma SameRecords(
    records: map<Id, Record>, records': map<Id, Record>, events: seq<ReviewEvent>, events': seq<ReviewEvent>)
    requires RecordsAre(records, events) && RecordsAre(records', events')
    requires forall e :: e in events <==> e in events'
    ensures records == records'
  {
    forall id | id in records ensures id in records' && records'[id] == records[id] {
      var i :| 0 <= i < |events| && Valid(events[i]) && events[i].eventId == id;
      assert events[i] in events';
    }
    forall id | id in records' ensures id in records {
      var i :| 0 <= i < |events'| && Valid(events'[i]) && events'[i].eventId == id;
      assert events'[i] in events;
    }
  }

  lemma SameStats(t: Tables, t': Tables)
    requires Inv(t) && Inv(t') && t.records == t'.records
    ensures t == t'
  {
    forall product ensures product in t.stats <==> product in t'.stats {
      assert StatsFold(t, product) && StatsFold(t', product);
    }
    forall product | product in t.stats ensures t.stats[product] == t'.stats[product] {
      assert StatsFold(t, product) && StatsFold(t', product);
    }
    assert t.stats == t'.stats;
    forall id | id in t.consumptions ensures id in t'.consumptions && t'.consumptions[id] == t.consumptions[id] {
      assert id in t.records;
    }
    assert t.consumptions.Keys == t.records.Keys == t'.consumptions.Keys;
    assert t.consumptions == t'.consumptions;
  }

  class AnalyticsDb {
    var consumptions: map<Id, Consumption>
    var records: map<Id, Record>
    var stats: map<nat, Stats>

    function State(): Tables
      reads this
    {
      Tables(consumptions, records, stats)
    }

    constructor (t: Tables)
      ensures State() == t
    {
      consumptions, records, stats := t.consumptions, t.records, t.stats;
    }

    /** One transaction: marks the event in progress, records it, adds it up, marks it succeeded, commits. */
    method HandleReviewEvent(e: ReviewEvent) returns (outcome: Outcome)
      modifies this
      ensures (State(), outcome) == HandleReview(old(State()), e)
      ensures outcome != Counted ==> State() == old(State())
      ensures outcome == Counted ==>
        && e.eventId in records && Tells(records[e.eventId], e)
        && records == old(records)[e.eventId := records[e.eventId]]
        && consumptions == old(consumptions)[e.eventId := Succeeded]
        && e.productId in stats && stats == old(stats)[e.productId := stats[e.productId]]
        && AddsUp(if e.productId in old(stats) then Some(old(stats)[e.productId]) else None, stats[e.productId], e)
    {
      if !Valid(e) {
        return Invalid;
      }
      if e.eventId in consumptions {
        return if consumptions[e.eventId].Succeeded? then Skipped else Busy;
      }
      var newConsumptions := consumptions[e.eventId := InProgress];
      var occurredAt := TruncateMs(e.occurredAt);
      if e.eventId in records || ReviewTaken(State(), e.reviewNo) {
        return DuplicateReview;
      }
      var newRecords := records[e.eventId := RecordOf(e)];
      var newStats := UpdateProductStats(e.productId, e.rating, occurredAt);
      newConsumptions := newConsumptions[e.eventId := Succeeded];
      assert newConsumptions == consumptions[e.eventId := Succeeded];
      consumptions, records, stats := newConsumptions, newRecords, newStats;
      return Counted;
    }

    method UpdateProductStats(product: nat, rating: nat, occurredAt: int) returns (r: map<nat, Stats>)
      ensures r == Added(stats, product, rating, occurredAt)
    {
      if product !in stats {
        return stats[product := Stats(1, rating, Some(occurredAt))];
      }
      var count, sum := stats[product].count, stats[product].sum;
      count := count + 1;
      sum := sum + rating;
      return stats[product := Stats(count, sum, Some(Latest(stats[product].last, occurredAt)))];
    }
  }
}
