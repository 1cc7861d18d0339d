/**
 The web client's view of an agent run: folding the event stream, or applying a replay of the same timeline.
 The two agree on run, steps, recommendations and completion exactly when keys do not repeat.
 */
module AgentView {
  import opened Wrappers
  import opened Sorting
  import opened EventStream

  datatype RunStatus = Running | Succeeded | FailedRun | TimedOut

  datatype AgentRun = AgentRun(id: string, status: RunStatus, errorCode: string, details: string)

  datatype AgentStep = AgentStep(stepNo: int, details: string)

  datatype Recommendation = Recommendation(rankNo: int, sku: int, details: string)

  datatype ViewState = ViewState(
    prompt: string, run: Option<AgentRun>, steps: seq<AgentStep>, recommendations: seq<Recommendation>,
    completed: bool, errorCode: Option<string>)

  datatype AgentEvent =
    | RunSnapshot(run: Option<AgentRun>)
    | StepSnapshot(step: Option<AgentStep>)
    | RecommendationSnapshot(recommendation: Option<Recommendation>)
    | RunCompleted
    | RunFailed(code: Option<string>)
    | Other

  datatype Timeline = Timeline(run: AgentRun, steps: seq<AgentStep>, recommendations: seq<Recommendation>)

  function Empty(prompt: string): ViewState {
    ViewState(prompt, None, [], [], false, None)
  }

  function StepNo(): AgentStep -> int {
    (s: AgentStep) => s.stepNo
  }

  function RankNo(): Recommendation -> int {
    (r: Recommendation) => r.rankNo
  }

  function Sku(): Recommendation -> int {
    (r: Recommendation) => r.sku
  }

  function Others<T>(id: T -> int, items: seq<T>, k: int): seq<T> {
    if items == [] then []
    else (if id(items[0]) == k then [] else [items[0]]) + Others(id, items[1..], k)
  }

  /** Replaces what has the same identity and sorts again. */
  function Upsert<T>(id: T -> int, rank: T -> int, items: seq<T>, x: T): seq<T> {
    Sorted(rank, Others(id, items, id(x)) + [x])
  }

  function ApplyEvent(state: ViewState, event: AgentEvent): ViewState {
    match event
    case RunSnapshot(run) => if run.Some? then state.(run := run) else state
    case StepSnapshot(step) =>
      if step.Some? then state.(steps := Upsert(StepNo(), StepNo(), state.steps, step.value)) else state
    case RecommendationSnapshot(r) =>
      if r.Some? then state.(recommendations := Upsert(Sku(), RankNo(), state.recommendations, r.value)) else state
    case RunCompleted => state.(completed := true)
    case RunFailed(code) => state.(completed := true, errorCode := code)
    case Other => state
  }

  function Fold(state: ViewState, events: seq<AgentEvent>): ViewState
    decreases |events|
  {
    if events == [] then state else ApplyEvent(Fold(state, events[..|events| - 1]), events[|events| - 1])
  }

  function Replayed(prompt: string, t: Timeline): ViewState {
    ViewState(prompt, Some(t.run), Sorted(StepNo(), t.steps), Sorted(RankNo(), t.recommendations),
              t.run.status != Running, Some(t.run.errorCode))
  }

  function StepEvents(steps: seq<AgentStep>): (r: seq<AgentEvent>)
    ensures |r| == |steps|
  {
    seq(|steps|, i requires 0 <= i < |steps| => StepSnapshot(Some(steps[i])))
  }

  function RecommendationEvents(items: seq<Recommendation>): (r: seq<AgentEvent>)
    ensures |r| == |items|
  {
    seq(|items|, i requires 0 <= i < |items| => RecommendationSnapshot(Some(items[i])))
  }

  function LastEvent(run: AgentRun): AgentEvent {
    match run.status
    case Running => Other
    case Succeeded => RunCompleted
    case FailedRun => RunFailed(Some(run.errorCode))
    case TimedOut => RunFailed(Some(run.errorCode))
  }

  /** The order in which the gateway writes a timeline: run, steps, recommendations, outcome or heartbeat. */
  function EventsOf(t: Timeline): seq<AgentEvent> {
    [RunSnapshot(Some(t.run))] + StepEvents(t.steps) + RecommendationEvents(t.recommendations) + [LastEvent(t.run)]
  }

  lemma {:induction false} FoldAppends(state: ViewState, events: seq<AgentEvent>, more: seq<AgentEvent>)
    ensures Fold(state, events + more) == Fold(Fold(state, events), more)
    decreases |more|
  {
    var all := events + more;
    if more == [] {
      assert all == events;
    } else {
      FoldAppends(state, events, more[..|more| - 1]);
      assert all[..|all| - 1] == events + more[..|more| - 1];
    }
  }

  /** The list an item arrives in, one item at a time. */
  function UpsertAll<T>(id: T -> int, rank: T -> int, items: seq<T>): seq<T>
    decreases |items|
  {
    if items == [] then [] else Upsert(id, rank, UpsertAll(id, rank, items[..|items| - 1]), items[|items| - 1])
  }

  lemma {:induction false} OthersKeepsNew<T>(id: T -> int, items: seq<T>, k: int)
    requires !HasKey(id, items, k)
    ensures Others(id, items, k) == items
    decreases |items|
  {
    if items != [] {
      assert id(items[0]) != k;
      assert items == [items[0]] + items[1..];
      ConsDistinct(id, items[0], items[1..]);
      OthersKeepsNew(id, items[1..], k);
    }
  }

  lemma {:induction false} OthersDistinct<T>(id: T -> int, items: seq<T>, k: int)
    requires Distinct(id, items)
    ensures Distinct(id, Others(id, items, k)) && !HasKey(id, Others(id, items, k), k)
    ensures forall j :: HasKey(id, Others(id, items, k), j) ==> HasKey(id, items, j)
    decreases |items|
  {
    if items != [] {
      assert items == [items[0]] + items[1..];
      ConsDistinct(id, items[0], items[1..]);
      OthersDistinct(id, items[1..], k);
      ConsDistinct(id, items[0], Others(id, items[1..], k));
    }
  }

  /** Sorting by one key neither hides nor creates repeats of another. */
  lemma {:induction false} SortDistinctById<T>(id: T -> int, rank: T -> int, s: seq<T>)
    ensures Distinct(id, Sorted(rank, s)) <==> Distinct(id, s)
    ensures forall k :: HasKey(id, Sorted(rank, s), k) <==> HasKey(id, s, k)
    decreases |s|
  {
    if s != [] {
      var n := |s| - 1;
      SortDistinctById(id, rank, s[..n]);
      InsertDistinctById(id, rank, s[n], Sorted(rank, s[..n]));
      AppendDistinct(id, s[..n], s[n]);
      assert s == s[..n] + [s[n]];
    }
  }

  lemma {:induction false} InsertDistinctById<T>(id: T -> int, rank: T -> int, x: T, sorted: seq<T>)
    ensures Distinct(id, Insert(rank, x, sorted)) <==> Distinct(id, sorted) && !HasKey(id, sorted, id(x))
    ensures forall k :: HasKey(id, Insert(rank, x, sorted), k) <==> k == id(x) || HasKey(id, sorted, k)
    decreases |sorted|
  {
    ConsDistinct(id, x, sorted);
    if sorted != [] && rank(x) >= rank(sorted[0]) {
      assert sorted == [sorted[0]] + sorted[1..];
      InsertDistinctById(id, rank, x, sorted[1..]);
      ConsDistinct(id, sorted[0], sorted[1..]);
      ConsDistinct(id, sorted[0], Insert(rank, x, sorted[1..]));
    }
  }

  /** Item by item, a list never holds two items of one identity. */
  lemma {:induction false} UpsertAllDistinct<T>(id: T -> int, rank: T -> int, items: seq<T>)
    ensures Distinct(id, UpsertAll(id, rank, items))
    decreases |items|
  {
    if items != [] {
      var n := |items| - 1;
      UpsertAllDistinct(id, rank, items[..n]);
      var before := UpsertAll(id, rank, items[..n]);
      OthersDistinct(id, before, id(items[n]));
      AppendDistinct(id, Others(id, before, id(items[n])), items[n]);
      SortDistinctById(id, rank, Others(id, before, id(items[n])) + [items[n]]);
    }
  }

  /** Without repeats, item by item comes to the same as sorting all at once. */
  lemma {:induction false} UpsertAllSorts<T>(id: T -> int, rank: T -> int, items: seq<T>)
    requires Distinct(id, items)
    ensures UpsertAll(id, rank, items) == Sorted(rank, items)
    decreases |items|
  {
    if items != [] {
      var n := |items| - 1;
      assert items == items[..n] + [items[n]];
      AppendDistinct(id, items[..n], items[n]);
      UpsertAllSorts(id, rank, items[..n]);
      SortDistinctById(id, rank, items[..n]);
      OthersKeepsNew(id, Sorted(rank, items[..n]), id(items[n]));
      SortedAgain(rank, items[..n], items[n]);
    }
  }

  /** They come to the same exactly when no identity repeats. */
  lemma UpsertAllIffDistinct<T>(id: T -> int, rank: T -> int, items: seq<T>)
    ensures UpsertAll(id, rank, items) == Sorted(rank, items) <==> Distinct(id, items)
  {
    UpsertAllDistinct(id, rank, items);
    SortDistinctById(id, rank, items);
    if Distinct(id, items) {
      UpsertAllSorts(id, rank, items);
    }
  }

  lemma {:induction false} FoldSteps(state: ViewState, steps: seq<AgentStep>)
    requires state.steps == []
    ensures Fold(state, StepEvents(steps)) == state.(steps := UpsertAll(StepNo(), StepNo(), steps))
    decreases |steps|
  {
    if steps != [] {
      FoldSteps(state, steps[..|steps| - 1]);
      assert StepEvents(steps)[..|steps| - 1] == StepEvents(steps[..|steps| - 1]);
    }
  }

  lemma {:induction false} FoldRecommendations(state: ViewState, items: seq<Recommendation>)
    requires state.recommendations == []
    ensures Fold(state, RecommendationEvents(items)) == state.(recommendations := UpsertAll(Sku(), RankNo(), items))
    decreases |items|
  {
    if items != [] {
      FoldRecommendations(state, items[..|items| - 1]);
      assert RecommendationEvents(items)[..|items| - 1] == RecommendationEvents(items[..|items| - 1]);
    }
  }

  lemma FoldOne(state: ViewState, event: AgentEvent)
    ensures Fold(state, [event]) == ApplyEvent(state, event)
  {
    assert [event][..0] == [];
  }

  lemma FoldInOrder(
    state: ViewState, a: seq<AgentEvent>, b: seq<AgentEvent>, c: seq<AgentEvent>, d: seq<AgentEvent>)
    ensures Fold(state, a + b + c + d) == Fold(Fold(Fold(Fold(state, a), b), c), d)
  {
    FoldAppends(state, a, b);
    FoldAppends(state, a + b, c);
    FoldAppends(state, a + b + c, d);
  }

  /** What the whole stream of a timeline leaves in the view. */
  function Streamed(prompt: string, t: Timeline): ViewState {
    ViewState(
      prompt, Some(t.run), UpsertAll(StepNo(), StepNo(), t.steps), UpsertAll(Sku(), RankNo(), t.recommendations),
      t.run.status != Running, if t.run.status in {FailedRun, TimedOut} then Some(t.run.errorCode) else None)
  }

  lemma StreamedView(prompt: string, t: Timeline)
    ensures Fold(Empty(prompt), EventsOf(t)) == Streamed(prompt, t)
  {
    FoldInOrder(Empty(prompt), [RunSnapshot(Some(t.run))], StepEvents(t.steps),
                RecommendationEvents(t.recommendations), [LastEvent(t.run)]);
    FoldOne(Empty(prompt), RunSnapshot(Some(t.run)));
    var s1 := Empty(prompt).(run := Some(t.run));
    FoldSteps(s1, t.steps);
    var s2 := s1.(steps := UpsertAll(StepNo(), StepNo(), t.steps));
    FoldRecommendations(s2, t.recommendations);
    var s3 := s2.(recommendations := UpsertAll(Sku(), RankNo(), t.recommendations));
    FoldOne(s3, LastEvent(t.run));
    OutcomeShown(s3, prompt, t);
  }

  lemma OutcomeShown(s: ViewState, prompt: string, t: Timeline)
    requires s == Streamed(prompt, t).(completed := false, errorCode := None)
    ensures ApplyEvent(s, LastEvent(t.run)) == Streamed(prompt, t)
  {
  }

  /**
   Stream and replay agree on everything but the error code exactly when no step number and no SKU repeats.
   They also agree on the error code exactly when the run failed or timed out: replay always shows the run's
   own code, the stream only a failure's.
   */
  lemma StreamAgreesWithReplay(prompt: string, t: Timeline)
    ensures var streamed, replayed := Fold(Empty(prompt), EventsOf(t)), Replayed(prompt, t);
      && (streamed.(errorCode := None) == replayed.(errorCode := None) <==>
            Distinct(StepNo(), t.steps) && Distinct(Sku(), t.recommendations))
      && (streamed.errorCode == replayed.errorCode <==> t.run.status in {FailedRun, TimedOut})
  {
    StreamedView(prompt, t);
    UpsertAllIffDistinct(StepNo(), StepNo(), t.steps);
    UpsertAllIffDistinct(Sku(), RankNo(), t.recommendations);
  }

  /** A run that succeeded: replay shows its (usually empty) error code, the stream shows none. */
  lemma SucceededRunDiffers(prompt: string)
    ensures var t := Timeline(AgentRun("r", Succeeded, "", ""), [], []);
      Fold(Empty(prompt), EventsOf(t)).errorCode == None && Replayed(prompt, t).errorCode == Some("")
  {
    StreamedView(prompt, Timeline(AgentRun("r", Succeeded, "", ""), [], []));
  }

  /** Events as the gateway prints them under a codec. */
  function Shown(events: seq<AgentEvent>, show: AgentEvent -> (string, string)): (r: seq<(string, string)>)
    ensures |r| == |events|
  {
    seq(|events|, i requires 0 <= i < |events| => show(events[i]))
  }

  ghost predicate Faithful(
    events: seq<AgentEvent>, show: AgentEvent -> (string, string), read: (string, string) -> Option<AgentEvent>)
  {
    forall i | 0 <= i < |events| ::
      var (kind, data) := show(events[i]); OneLine(kind) && OneLine(data) && read(kind, data) == Some(events[i])
  }

  lemma {:induction false} ReadsWhatWasShown(
    events: seq<AgentEvent>, show: AgentEvent -> (string, string), read: (string, string) -> Option<AgentEvent>)
    requires Faithful(events, show, read)
    ensures Printable(Shown(events, show)) && ReadBack(Shown(events, show), read) == events
    decreases |events|
  {
    if events != [] {
      assert Shown(events, show)[1..] == Shown(events[1..], show);
      ReadsWhatWasShown(events[1..], show, read);
      assert events == [events[0]] + events[1..];
    }
  }

  /** End to end: however its stream is cut, a timeline without repeats ends in the view its replay gives. */
  lemma StreamedTimelineIsReplayed(
    prompt: string, t: Timeline, inputs: seq<string>, show: AgentEvent -> (string, string),
    read: (string, string) -> Option<AgentEvent>)
    requires Faithful(EventsOf(t), show, read) && Concat(inputs) == PrintedAll(Shown(EventsOf(t), show))
    requires Distinct(StepNo(), t.steps) && Distinct(Sku(), t.recommendations)
    ensures Fold(Empty(prompt), Known(Complete(Concat(inputs)), read)).(errorCode := None)
      == Replayed(prompt, t).(errorCode := None)
  {
    ReadsWhatWasShown(EventsOf(t), show, read);
    AnyCutDeliversAll(Shown(EventsOf(t), show), inputs, read);
    StreamAgreesWithReplay(prompt, t);
  }
}
