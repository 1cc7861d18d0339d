/**
 The agent's bounded model/tool loop over its durable run. Whatever the model says and whichever store calls
 fail, the timeline it leaves is one on which the event stream and a replay agree.
 */
module AgentRun {
  import opened Wrappers
  import Text
  import Sorting
  import V = AgentView

  datatype StepKind = ModelStep | ToolStep

  datatype StepStatus = Open | Succeeded | Failed | TimedOut

  datatype Step = Step(stepNo: nat, kind: StepKind, toolName: string, status: StepStatus)

  datatype ErrorCode =
    | InvalidToolArgument | UnknownTool | DependencyTimeout | MaxStepsExceeded | ModelFailed
    | InvalidFinalRecommendation | NoValidRecommendation | ToolFailed

  datatype Candidate = Candidate(sku: nat, rankNo: nat, reason: string)

  /** Final JSON is absent, undecodable, or a list of candidates. */
  datatype FinalJson = Absent | Undecodable | Candidates(items: seq<Candidate>)

  datatype ModelOutput = ModelOutput(finalJson: FinalJson, finalText: string, toolCall: Option<string>)

  datatype SkuReply = Saleable(details: string) | Unavailable | Timeout | CallFailed

  /** How one pass of the loop goes; `late` when a failing store call fails on the run's deadline. */
  datatype Turn = Turn(
    appendModel: Fate, model: Option<ModelOutput>, markModel: Fate, appendTool: Fate, toolError: Option<ErrorCode>,
    markTool: Fate, late: bool)

  const MAX_CANDIDATES := 10
  const MAX_REASON := 512

  predicate ValidCandidate(c: Candidate) {
    c.sku != 0 && c.rankNo != 0 && 1 <= |Text.Trim(c.reason)| <= MAX_REASON
  }

  /** One to ten well-formed candidates, no rank and no SKU twice. */
  ghost predicate ValidFinal(items: seq<Candidate>) {
    && 1 <= |items| <= MAX_CANDIDATES
    && (forall i | 0 <= i < |items| :: ValidCandidate(items[i]))
    && (forall i, j | 0 <= i < j < |items| :: items[i].rankNo != items[j].rankNo && items[i].sku != items[j].sku)
  }

  method ParseFinal(items: seq<Candidate>) returns (ok: bool)
    ensures ok <==> ValidFinal(items)
  {
    if |items| == 0 || |items| > MAX_CANDIDATES {
      return false;
    }
    var ranks: set<nat>, skus: set<nat> := {}, {};
    for i := 0 to |items|
      invariant forall k | 0 <= k < i :: ValidCandidate(items[k])
      invariant ranks == set k | 0 <= k < i :: items[k].rankNo
      invariant skus == set k | 0 <= k < i :: items[k].sku
      invariant forall j, k | 0 <= j < k < i :: items[j].rankNo != items[k].rankNo && items[j].sku != items[k].sku
    {
      var item := items[i];
      var reason := Text.Trim(item.reason);
      if item.sku == 0 || item.rankNo == 0 || reason == "" || |reason| > MAX_REASON {
        return false;
      }
      if item.rankNo in ranks || item.sku in skus {
        return false;
      }
      ranks, skus := ranks + {item.rankNo}, skus + {item.sku};
    }
    return true;
  }

  function Snapshot(c: Candidate, details: string): V.Recommendation {
    V.Recommendation(c.rankNo, c.sku, details)
  }

  /** The candidates that can be bought, in order, as they are sold now. */
  function Kept(items: seq<Candidate>, look: nat -> SkuReply): seq<V.Recommendation>
    decreases |items|
  {
    if items == [] then []
    else
      var last := items[|items| - 1];
      Kept(items[..|items| - 1], look) +
      if look(last.sku).Saleable? then [Snapshot(last, look(last.sku).details)] else []
  }

  lemma KeptNext(items: seq<Candidate>, i: nat, look: nat -> SkuReply)
    requires i < |items|
    ensures Kept(items[..i + 1], look) ==
      Kept(items[..i], look) +
      if look(items[i].sku).Saleable? then [Snapshot(items[i], look(items[i].sku).details)] else []
  {
    assert items[..i + 1][..i] == items[..i] && items[..i + 1][i] == items[i];
  }

  predicate Failing(reply: SkuReply) {
    reply == Timeout || reply == CallFailed
  }

  /** Why nothing is kept: the first look-up that failed, or nothing can be bought. */
  ghost predicate WhyNot(items: seq<Candidate>, look: nat -> SkuReply, code: ErrorCode) {
    if forall i | 0 <= i < |items| :: !Failing(look(items[i].sku)) then code == NoValidRecommendation
    else
      exists i | 0 <= i < |items| ::
        && Failing(look(items[i].sku)) && (forall k | 0 <= k < i :: !Failing(look(items[k].sku)))
        && code == if look(items[i].sku) == Timeout then DependencyTimeout else ToolFailed
  }

  /** Keeps, in order, the candidates that can be bought; a timeout or failed call gives up on all. */
  method Verify(items: seq<Candidate>, look: nat -> SkuReply)
    returns (r: seq<V.Recommendation>, error: Option<ErrorCode>)
    requires ValidFinal(items)
    ensures Sorting.Distinct(V.Sku(), r) && Sorting.Distinct(V.RankNo(), r)
    ensures forall i | 0 <= i < |r| :: Offered(items, |items|, look, r[i])
    ensures error == None <==> r != []
    ensures error == None ==> r == Kept(items, look)
    ensures error.Some? ==> WhyNot(items, look, error.value)
    ensures error.Some? <==>
      || (exists i | 0 <= i < |items| :: Failing(look(items[i].sku)))
      || (forall i | 0 <= i < |items| :: !look(items[i].sku).Saleable?)
  {
    r := [];
    for i := 0 to |items|
      invariant r == Kept(items[..i], look)
      invariant forall k | 0 <= k < i :: !Failing(look(items[k].sku))
    {
      KeptNext(items, i, look);
      match look(items[i].sku) {
        case Timeout => return [], Some(DependencyTimeout);
        case CallFailed => return [], Some(ToolFailed);
        case Unavailable =>
        case Saleable(details) => r := r + [Snapshot(items[i], details)];
      }
    }
    assert items[..|items|] == items;
    KeptIsOffered(items, |items|, look);
    error := if r == [] then Some(NoValidRecommendation) else None;
  }

  /** One of the first `n` candidates, as it is sold now. */
  ghost predicate Offered(items: seq<Candidate>, n: nat, look: nat -> SkuReply, r: V.Recommendation)
    requires n <= |items|
  {
    exists i | 0 <= i < n ::
      look(items[i].sku).Saleable? && r == Snapshot(items[i], look(items[i].sku).details)
  }

  lemma NewCandidate(items: seq<Candidate>, i: nat, look: nat -> SkuReply, r: seq<V.Recommendation>)
    requires ValidFinal(items) && i < |items|
    requires forall k | 0 <= k < |r| :: Offered(items, i, look, r[k])
    requires Sorting.Distinct(V.Sku(), r) && Sorting.Distinct(V.RankNo(), r)
    ensures forall details :: var more := r + [Snapshot(items[i], details)];
      Sorting.Distinct(V.Sku(), more) && Sorting.Distinct(V.RankNo(), more)
  {
    forall k | 0 <= k < |r| ensures r[k].sku != items[i].sku && r[k].rankNo != items[i].rankNo {
      assert Offered(items, i, look, r[k]);
    }
  }

  lemma {:induction false} KeptIsOffered(items: seq<Candidate>, n: nat, look: nat -> SkuReply)
    requires ValidFinal(items) && n <= |items|
    ensures var r := Kept(items[..n], look);
      && Sorting.Distinct(V.Sku(), r) && Sorting.Distinct(V.RankNo(), r)
      && (forall k | 0 <= k < |r| :: Offered(items, n, look, r[k]))
      && (r == [] <==> forall k | 0 <= k < n :: !look(items[k].sku).Saleable?)
    decreases n
  {
    if n == 0 {
    } else {
      var i := n - 1;
      KeptIsOffered(items, i, look);
      KeptNext(items, i, look);
      var r := Kept(items[..i], look);
      forall k | 0 <= k < |r| ensures Offered(items, n, look, r[k]) {
        assert Offered(items, i, look, r[k]);
      }
      if look(items[i].sku).Saleable? {
        NewCandidate(items, i, look, r);
        assert Offered(items, n, look, Snapshot(items[i], look(items[i].sku).details));
      }
    }
  }

  /** One durable run. An update that finds the run or step no longer open changes nothing. */
  class RunStore {
    var status: V.RunStatus
    var stepCount: nat
    var steps: seq<Step>
    var recommendations: seq<V.Recommendation>
    var errorCode: Option<ErrorCode>

    constructor ()
      ensures status == V.Running && stepCount == 0 && steps == [] && recommendations == [] && errorCode == None
    {
      status, stepCount, steps, recommendations, errorCode := V.Running, 0, [], [], None;
    }

    method AppendStep(stepNo: nat, kind: StepKind, toolName: string, fate: Fate) returns (ok: bool)
      requires forall i | 0 <= i < |steps| :: steps[i].stepNo != stepNo
      modifies `steps, `stepCount
      ensures ok <==> fate == Answered
      ensures steps == old(steps) + if fate == Rejected then [] else [Step(stepNo, kind, toolName, Open)]
      ensures stepCount == if fate == Rejected || old(stepCount) >= stepNo then old(stepCount) else stepNo
    {
      if fate != Rejected {
        steps := steps + [Step(stepNo, kind, toolName, Open)];
        stepCount := if stepCount >= stepNo then stepCount else stepNo;
      }
      ok := fate == Answered;
    }

    /** Ends the last step. */
    method EndStep(outcome: StepStatus, fate: Fate) returns (ok: bool)
      requires steps != [] && steps[|steps| - 1].status == Open
      modifies `steps
      ensures ok <==> fate == Answered
      ensures steps == if fate == Rejected then old(steps)
                       else old(steps)[|old(steps)| - 1 := old(steps)[|old(steps)| - 1].(status := outcome)]
    {
      if fate != Rejected {
        steps := steps[|steps| - 1 := steps[|steps| - 1].(status := outcome)];
      }
      ok := fate == Answered;
    }

    method EndRun(outcome: V.RunStatus, count: nat, items: seq<V.Recommendation>, code: Option<ErrorCode>, fate: Fate)
      returns (ok: bool)
      requires status == V.Running && recommendations == []
      modifies `status, `stepCount, `recommendations, `errorCode
      ensures ok <==> fate == Answered
      ensures if fate == Rejected
        then unchanged(`status) && unchanged(`stepCount) && unchanged(`recommendations) && unchanged(`errorCode)
        else status == outcome && stepCount == count && recommendations == items && errorCode == code
    {
      if fate != Rejected {
        status, stepCount, recommendations, errorCode := outcome, count, items, code;
      }
      ok := fate == Answered;
    }
  }

  /** Steps are numbered from one without gaps, tools run only after a model turn, all but the last succeeded. */
  predicate WellRun(steps: seq<Step>) {
    && (forall i | 0 <= i < |steps| :: steps[i].stepNo == i + 1)
    && (forall i | 0 <= i < |steps| :: steps[i].kind == ToolStep ==> i > 0 && steps[i - 1].kind == ModelStep)
    && (forall i | 0 <= i < |steps| - 1 :: steps[i].status == Succeeded)
  }

  predicate AllSucceeded(steps: seq<Step>) {
    forall i | 0 <= i < |steps| :: steps[i].status == Succeeded
  }

  datatype Ending = Ended(code: Option<ErrorCode>) | Unknown

  /** Records a failed run as best it can; the caller is told of the failure even when that cannot be recorded. */
  method FailRun(store: RunStore, count: nat, code: ErrorCode, fate: Fate) returns (r: Ending)
    requires store.status == V.Running && store.recommendations == []
    modifies store`status, store`stepCount, store`recommendations, store`errorCode
    ensures r == Ended(Some(code)) && store.recommendations == []
    ensures fate == Rejected ==> store.status == V.Running
    ensures fate != Rejected ==>
      store.status == V.FailedRun && store.errorCode == Some(code) && store.stepCount == count
  {
    var recorded := store.EndRun(V.FailedRun, count, [], Some(code), fate);
    return Ended(Some(code));
  }

  /** A step: append it, do its work, end it. Its work fails with an error code or not at all. */
  method RunStep(
    store: RunStore, stepNo: nat, kind: StepKind, toolName: string, append: Fate, error: Option<ErrorCode>, mark: Fate,
    late: bool)
    returns (failure: Option<ErrorCode>)
    requires WellRun(store.steps) && AllSucceeded(store.steps) && stepNo == |store.steps| + 1
    requires kind == ToolStep ==> store.steps != [] && store.steps[|store.steps| - 1].kind == ModelStep
    modifies store`steps, store`stepCount
    ensures WellRun(store.steps) && |store.steps| <= stepNo
    ensures old(store.steps) <= store.steps
    ensures failure == None <==> append == Answered && error == None && mark == Answered
    ensures failure == None ==>
      && |store.steps| == stepNo && AllSucceeded(store.steps) && store.steps[stepNo - 1].kind == kind
    ensures append == Answered && error.Some? ==> failure == error
  {
    var storeFailed := Some(if late then DependencyTimeout else ToolFailed);
    var started := store.AppendStep(stepNo, kind, toolName, append);
    if !started {
      return storeFailed;
    }
    if error.Some? {
      var outcome := if kind == ToolStep && error.value == DependencyTimeout then TimedOut else Failed;
      var ended := store.EndStep(outcome, mark);
      return error;
    }
    var ended := store.EndStep(Succeeded, mark);
    return if ended then None else storeFailed;
  }

  /** A well-formed list of which something can be bought, every look-up having been answered. */
  ghost predicate Recommendable(items: seq<Candidate>, look: nat -> SkuReply) {
    && ValidFinal(items)
    && (forall i | 0 <= i < |items| :: !Failing(look(items[i].sku)))
    && exists i | 0 <= i < |items| :: look(items[i].sku).Saleable?
  }

  /** Why a final list is turned down. */
  ghost predicate Rejects(json: FinalJson, look: nat -> SkuReply, code: ErrorCode) {
    if json.Candidates? && ValidFinal(json.items) then WhyNot(json.items, look, code)
    else code == InvalidFinalRecommendation
  }

  /** Turns the model's final list into stored recommendations and a succeeded run. */
  method Complete(store: RunStore, count: nat, json: FinalJson, look: nat -> SkuReply, fate: Fate) returns (r: Ending)
    requires store.status == V.Running && store.recommendations == [] && json != Absent
    modifies store`status, store`stepCount, store`recommendations, store`errorCode
    ensures Sorting.Distinct(V.Sku(), store.recommendations) && Sorting.Distinct(V.RankNo(), store.recommendations)
    ensures r == Ended(None) ==> store.status == V.Succeeded && store.recommendations != [] && store.stepCount == count
    ensures store.status == V.Succeeded ==>
      && json.Candidates? && ValidFinal(json.items)
      && forall i | 0 <= i < |store.recommendations| ::
           Offered(json.items, |json.items|, look, store.recommendations[i])
    ensures r.Ended? && r.code.Some? ==>
      && store.recommendations == []
      && store.status == (if fate == Rejected then V.Running else V.FailedRun)
      && (fate != Rejected ==> store.errorCode == r.code && store.stepCount == count)
    ensures r == Unknown ==> fate != Answered
    ensures r.Ended? && r.code.Some? ==> Rejects(json, look, r.code.value)
    ensures fate == Answered ==> (r == Ended(None) <==> json.Candidates? && Recommendable(json.items, look))
    ensures r == Ended(None) ==> store.recommendations == Kept(json.items, look)
  {
    if json == Undecodable {
      r := FailRun(store, count, InvalidFinalRecommendation, fate);
      return;
    }
    var valid := ParseFinal(json.items);
    if !valid {
      r := FailRun(store, count, InvalidFinalRecommendation, fate);
      return;
    }
    var items, error := Verify(json.items, look);
    if error.Some? {
      r := FailRun(store, count, error.value, fate);
      return;
    }
    var recorded := store.EndRun(V.Succeeded, count, items, None, fate);
    return if recorded then Ended(None) else Unknown;
  }

  /** Every store call is answered and neither model nor tool fails. */
  predicate SmoothTurn(t: Turn) {
    && t.appendModel == t.markModel == t.appendTool == t.markTool == Answered
    && t.model.Some? && t.toolError == None
  }

  ghost predicate Smooth(turns: nat -> Turn) {
    forall i :: SmoothTurn(turns(i))
  }

  predicate Final(t: Turn) {
    t.model.Some? && (t.model.value.finalJson != Absent || t.model.value.finalText != "")
  }

  /** Steps taken by the turns before this one: one each, and one more for a tool. */
  function StepsBefore(turns: nat -> Turn, turn: nat): nat {
    if turn == 0 then 0 else StepsBefore(turns, turn - 1) + StepsOf(turns(turn - 1))
  }

  function StepsOf(t: Turn): nat {
    if t.model.Some? && t.model.value.toolCall.Some? then 2 else 1
  }

  /** The first turn with final output, if the bound lets the run get there. */
  ghost predicate EndsAt(turns: nat -> Turn, maxSteps: nat, turn: nat) {
    && Final(turns(turn)) && StepsBefore(turns, turn) < maxSteps
    && forall k: nat | k < turn :: !Final(turns(k))
  }

  lemma {:induction false} StepsGrow(turns: nat -> Turn, a: nat, b: nat)
    requires a <= b
    ensures StepsBefore(turns, a) + (b - a) <= StepsBefore(turns, b)
    decreases b
  {
    if a < b {
      StepsGrow(turns, a, b - 1);
    }
  }

  /** What a final output makes of the run. */
  ghost predicate Outcome(output: ModelOutput, look: nat -> SkuReply, r: Ending, items: seq<V.Recommendation>) {
    if output.finalJson == Absent then r == Ended(None) && items == []
    else if output.finalJson.Candidates? && Recommendable(output.finalJson.items, look) then
      r == Ended(None) && items == Kept(output.finalJson.items, look)
    else r.Ended? && r.code.Some? && Rejects(output.finalJson, look, r.code.value)
  }

  /** Where all goes smoothly, the first final output within the bound ends the run, and only that succeeds. */
  ghost predicate EndsRight(
    turns: nat -> Turn, maxSteps: nat, look: nat -> SkuReply, r: Ending, count: nat, items: seq<V.Recommendation>)
  {
    && (forall k: nat | EndsAt(turns, maxSteps, k) ::
          count == StepsBefore(turns, k) + 1 && Outcome(turns(k).model.value, look, r, items))
    && ((forall k: nat :: !EndsAt(turns, maxSteps, k)) ==> r == Ended(Some(MaxStepsExceeded)))
  }

  /** Without a final output so far and with the bound used up, no turn ends the run. */
  lemma NeverEnds(turns: nat -> Turn, maxSteps: nat, turn: nat)
    requires forall k: nat | k < turn :: !Final(turns(k))
    requires StepsBefore(turns, turn) >= maxSteps
    ensures forall k: nat :: !EndsAt(turns, maxSteps, k)
  {
    forall k: nat ensures !EndsAt(turns, maxSteps, k) {
      if k >= turn {
        StepsGrow(turns, turn, k);
      }
    }
  }

  /** How a run may end and what its rows then say. */
  ghost predicate WellEnded(store: RunStore, r: Ending, count: nat, end: Fate)
    reads store
  {
    && WellRun(store.steps) && |store.steps| <= count && Sorting.Distinct(V.Sku(), store.recommendations)
    && (r == Ended(None) ==> store.status == V.Succeeded && AllSucceeded(store.steps) && store.stepCount == count)
    && (r.Ended? && r.code.Some? ==> store.status == if end == Rejected then V.Running else V.FailedRun)
    && (r.Ended? && r.code.Some? && end != Rejected ==> store.errorCode == r.code)
    && (r == Ended(Some(MaxStepsExceeded)) && end != Rejected ==> store.stepCount == count)
    && (r == Unknown ==> end != Answered)
  }

  /** The run goes on: nothing failed yet, nothing is decided. */
  ghost predicate Running(store: RunStore)
    reads store
  {
    WellRun(store.steps) && AllSucceeded(store.steps) && store.status == V.Running && store.recommendations == []
  }

  ghost predicate EndsOnlyAt(turns: nat -> Turn, maxSteps: nat, turn: nat) {
    EndsAt(turns, maxSteps, turn) && forall k: nat | EndsAt(turns, maxSteps, k) :: k == turn
  }

  lemma EndedHere(turns: nat -> Turn, maxSteps: nat, turn: nat)
    requires EndsAt(turns, maxSteps, turn)
    ensures EndsOnlyAt(turns, maxSteps, turn)
  {
    forall k: nat | EndsAt(turns, maxSteps, k) ensures k == turn {
      assert k < turn ==> !Final(turns(k));
      assert turn < k ==> !Final(turns(turn));
    }
  }

  /** One turn of the loop: a model step, then final output or a tool step. */
  method TakeTurn(store: RunStore, maxSteps: nat, stepCount: nat, t: Turn, look: nat -> SkuReply, end: Fate)
    returns (done: bool, r: Ending, count: nat)
    requires Running(store) && stepCount == |store.steps| < maxSteps
    modifies store
    ensures stepCount < count <= maxSteps
    ensures done ==> WellEnded(store, r, count, end)
    ensures !done ==> Running(store) && count == |store.steps| && !Final(t)
    ensures SmoothTurn(t) && !done ==> count == stepCount + StepsOf(t)
    ensures SmoothTurn(t) && end == Answered && Final(t) ==>
      done && count == stepCount + 1 && Outcome(t.model.value, look, r, store.recommendations)
    ensures SmoothTurn(t) && !Final(t) && done ==>
      r == Ended(Some(MaxStepsExceeded)) && stepCount + StepsOf(t) >= maxSteps
  {
    count := stepCount + 1;
    done, r := true, Unknown;
    var failure := RunStep(store, count, ModelStep, "", t.appendModel,
                           if t.model.None? then Some(ModelFailed) else None, t.markModel, t.late);
    if failure.Some? {
      r := FailRun(store, count, failure.value, end);
      return;
    }
    var output := t.model.value;
    if output.finalJson != Absent {
      r := Complete(store, count, output.finalJson, look, end);
      return;
    }
    if output.finalText != "" {
      var recorded := store.EndRun(V.Succeeded, count, [], None, end);
      r := if recorded then Ended(None) else Unknown;
      return;
    }
    if output.toolCall.Some? {
      if count >= maxSteps {
        r := FailRun(store, count, MaxStepsExceeded, end);
        return;
      }
      count := count + 1;
      failure := RunStep(store, count, ToolStep, output.toolCall.value, t.appendTool, t.toolError, t.markTool, t.late);
      if failure.Some? {
        r := FailRun(store, count, failure.value, end);
        return;
      }
    }
    done := false;
  }

  /**
   The loop: at most `maxSteps` steps, ended by final output, by the first failure, or by the bound. The run
   row says SUCCEEDED whenever the caller is told so, and FAILED with the reported code whenever it could be
   written; the timeline is well formed whatever happens. Where all goes smoothly the first final output
   within the bound decides the run.
   */
  method StartRun(store: RunStore, maxSteps: nat, turns: nat -> Turn, look: nat -> SkuReply, end: Fate)
    returns (r: Ending, count: nat)
    requires store.status == V.Running && store.steps == [] && store.recommendations == [] && maxSteps > 0
    modifies store
    ensures WellEnded(store, r, count, end) && count <= maxSteps
    ensures Smooth(turns) && end == Answered ==>
      EndsRight(turns, maxSteps, look, r, count, store.recommendations)
  {
    count := 0;
    var turn := 0;
    while true
      invariant count == |store.steps| <= maxSteps && Running(store)
      invariant forall k: nat | k < turn :: !Final(turns(k))
      invariant Smooth(turns) ==> count == StepsBefore(turns, turn)
      decreases maxSteps - count
    {
      if count >= maxSteps {
        if Smooth(turns) {
          NeverEnds(turns, maxSteps, turn);
        }
        r := FailRun(store, count, MaxStepsExceeded, end);
        return;
      }
      var done;
      done, r, count := TakeTurn(store, maxSteps, count, turns(turn), look, end);
      if done {
        if Smooth(turns) {
          if Final(turns(turn)) {
            EndedHere(turns, maxSteps, turn);
          } else {
            NeverEnds(turns, maxSteps, turn + 1);
          }
        }
        return;
      }
      turn := turn + 1;
    }
  }

  function Shown(steps: seq<Step>): (r: seq<V.AgentStep>)
    ensures |r| == |steps|
  {
    seq(|steps|, i requires 0 <= i < |steps| => V.AgentStep(steps[i].stepNo, steps[i].toolName))
  }

  /** Any timeline the loop leaves satisfies what stream and replay need to agree. */
  lemma RunsAgreeInTheView(prompt: string, run: V.AgentRun, steps: seq<Step>, items: seq<V.Recommendation>)
    requires WellRun(steps) && Sorting.Distinct(V.Sku(), items)
    ensures var t := V.Timeline(run, Shown(steps), items);
      V.Fold(V.Empty(prompt), V.EventsOf(t)).(errorCode := None) == V.Replayed(prompt, t).(errorCode := None)
  {
    var t := V.Timeline(run, Shown(steps), items);
    assert Sorting.Distinct(V.StepNo(), t.steps);
    V.StreamAgreesWithReplay(prompt, t);
  }
}
