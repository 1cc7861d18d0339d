/**
 What the timestamp in `locked_at` fences off: a claim that lost its task stays out exactly as long as no failure
 is rescheduled to a time before the claim it was made under.
 */
module CacheFence {
  import opened Wrappers
  import opened CacheInvalidation
  import Backoff
  import LB = LeaseBudget

  /** An open claim is the owner's, or earlier than any claim that can still be made. */
  ghost predicate ClaimFenced(s: Sys, c: Claim) {
    c.task in s.tasks ==>
      var t := s.tasks[c.task];
      && (t.status == Running && t.lockedAt.Some? ==>
            c.lockedAt <= t.lockedAt.value && (c.lockedAt == t.lockedAt.value ==> c.retries == t.retries))
      && (t.status == Pending ==> c.lockedAt < t.executeAt)
  }

  /** The fence: no claim that lost its task can own it again, and every recorded failure was counted. */
  ghost predicate Fenced(s: Sys) {
    && (forall c | c in s.open :: ClaimFenced(s, c))
    && (forall id | id in s.tasks :: s.tasks[id].retries == Failures(s, id))
  }

  /** A failure out of budget, or one rescheduled to no earlier than the claim it was made under. */
  predicate InOrder(cfg: Config, c: Claim, outcomeAt: int) {
    Exhausted(cfg, c) || LB.TruncateMs(RetryAt(cfg, c, outcomeAt)) >= c.lockedAt
  }

  /** A worker whose own clock did not step back behind its claim always reschedules in order. */
  lemma SteadyClockIsInOrder(cfg: Config, c: Claim, outcomeAt: int)
    requires cfg.Valid() && 0 <= c.retries && LB.TruncateMs(c.lockedAt) == c.lockedAt <= outcomeAt
    ensures InOrder(cfg, c, outcomeAt)
  {
    Backoff.DelaysGrow(cfg.baseDelay, c.retries + 1, c.retries + 1, cfg.maxDelay);
  }

  /** Every failure a run records is in order. */
  predicate Orderly(cfg: Config, s: Sys, actions: seq<Action>)
    decreases |actions|
  {
    if actions == [] then true
    else
      var n := |actions| - 1;
      && Orderly(cfg, s, actions[..n])
      && StepOrderly(cfg, Run(cfg, s, actions[..n]), actions[n])
  }

  predicate StepOrderly(cfg: Config, s: Sys, a: Action) {
    a.Fail? && a.held in s.open && Owns(s.tasks, a.held) ==> InOrder(cfg, a.held, a.outcomeAt)
  }

  lemma ClaimKeepsFence(cfg: Config, s: Sys, id: Id, now: int, lease: int)
    requires Inv(cfg, s) && Fenced(s)
    ensures Fenced(DoClaim(s, id, now, lease))
  {
    var s' := DoClaim(s, id, now, lease);
    if s' != s {
      assert TaskSound(cfg, s, id, s.tasks[id]);
      if s.tasks[id].status == Running {
        TakeoverIsLater(s.tasks[id], now, lease);
      }
      forall c | c in s'.open ensures ClaimFenced(s', c) {
        assert c in s.open ==> ClaimFenced(s, c) && ClaimSound(cfg, s, c);
      }
    }
  }

  /** The owner's failure moves the task to a time no other claim on it has reached. */
  lemma FailKeepsFence(cfg: Config, s: Sys, c: Claim, outcomeAt: int)
    requires Inv(cfg, s) && Fenced(s) && StepOrderly(cfg, s, Fail(c, outcomeAt))
    ensures Fenced(DoFail(cfg, s, c, outcomeAt))
  {
    var s' := DoFail(cfg, s, c, outcomeAt);
    if c in s.open && Owns(s.tasks, c) {
      assert ClaimFenced(s, c) && ClaimSound(cfg, s, c);
      forall d | d in s'.open ensures ClaimFenced(s', d) {
        assert ClaimFenced(s, d) && ClaimSound(cfg, s, d);
        assert d.task == c.task && d.lockedAt == c.lockedAt ==> d == c;
      }
    }
  }

  lemma StepKeepsFence(cfg: Config, s: Sys, a: Action)
    requires Inv(cfg, s) && Fenced(s) && StepOrderly(cfg, s, a)
    ensures Fenced(Apply(cfg, s, a))
  {
    var s' := Apply(cfg, s, a);
    match a
    case ClaimTask(id, now, lease) => ClaimKeepsFence(cfg, s, id, now, lease);
    case Fail(c, outcomeAt) => FailKeepsFence(cfg, s, c, outcomeAt);
    case _ =>
      forall c | c in s'.open ensures ClaimFenced(s', c) {
        assert ClaimFenced(s, c) && ClaimSound(cfg, s, c);
      }
  }

  lemma {:induction false} RunKeepsFence(cfg: Config, s: Sys, actions: seq<Action>)
    requires Inv(cfg, s) && Fenced(s) && Orderly(cfg, s, actions)
    ensures Fenced(Run(cfg, s, actions))
    decreases |actions|
  {
    if actions != [] {
      var n := |actions| - 1;
      RunKeepsFence(cfg, s, actions[..n]);
      RunKeeps(cfg, s, actions[..n]);
      StepKeepsFence(cfg, Run(cfg, s, actions[..n]), actions[n]);
    }
  }

  /** At most one open claim owns a task. */
  lemma OneOwner(cfg: Config, s: Sys, c: Claim, d: Claim)
    requires Inv(cfg, s) && Fenced(s) && c in s.open && d in s.open && c.task == d.task
    requires Owns(s.tasks, c) && Owns(s.tasks, d)
    ensures c == d
  {
    assert ClaimFenced(s, c) && ClaimFenced(s, d) && ClaimSound(cfg, s, c) && ClaimSound(cfg, s, d);
  }

  /** Earlier than the task's present claim and than any it can get from now on. */
  predicate Outdated(tasks: Tasks, c: Claim) {
    && c.task in tasks
    && (tasks[c.task].status == Running ==>
          tasks[c.task].lockedAt.Some? && c.lockedAt < tasks[c.task].lockedAt.value)
    && (tasks[c.task].status == Pending ==> c.lockedAt < tasks[c.task].executeAt)
  }

  lemma StepKeepsOutdated(cfg: Config, s: Sys, c: Claim, a: Action)
    requires Inv(cfg, s) && Outdated(s.tasks, c) && StepOrderly(cfg, s, a)
    ensures Outdated(Apply(cfg, s, a).tasks, c)
  {
    assert TaskSound(cfg, s, c.task, s.tasks[c.task]);
    match a
    case ClaimTask(id, now, lease) =>
      if id == c.task && lease > 0 && s.tasks[id].status == Running && Due(s.tasks[id], now, lease) {
        TakeoverIsLater(s.tasks[id], now, lease);
      }
    case Fail(d, outcomeAt) =>
      if d in s.open {
        assert ClaimSound(cfg, s, d);
      }
    case _ =>
  }

  lemma {:induction false} RunKeepsOutdated(cfg: Config, s: Sys, c: Claim, actions: seq<Action>)
    requires Inv(cfg, s) && Outdated(s.tasks, c) && Orderly(cfg, s, actions)
    ensures Outdated(Run(cfg, s, actions).tasks, c)
    decreases |actions|
  {
    if actions != [] {
      var n := |actions| - 1;
      RunKeepsOutdated(cfg, s, c, actions[..n]);
      RunKeeps(cfg, s, actions[..n]);
      StepKeepsOutdated(cfg, Run(cfg, s, actions[..n]), c, actions[n]);
    }
  }

  /** As long as failures are in order, a worker whose claim was taken over can change nothing, then or later. */
  lemma DispossessedChangesNothing(cfg: Config, s: Sys, c: Claim, actions: seq<Action>, outcomeAt: int)
    requires Inv(cfg, s) && Fenced(s) && c in s.open && !Owns(s.tasks, c) && Orderly(cfg, s, actions)
    ensures var tasks := Run(cfg, s, actions).tasks;
      !Owns(tasks, c) && MarkDone(tasks, c) == (tasks, false) && Failed(tasks, c, cfg, outcomeAt) == (tasks, false)
  {
    assert ClaimFenced(s, c) && ClaimSound(cfg, s, c);
    RunKeepsOutdated(cfg, s, c, actions);
  }

  /** As long as failures are in order, the stored retries count the recorded failures. */
  lemma RetriesCountFailures(cfg: Config, s: Sys, actions: seq<Action>, id: Id)
    requires Genesis(s) && cfg.Valid() && Orderly(cfg, s, actions) && id in Run(cfg, s, actions).tasks
    ensures var s' := Run(cfg, s, actions);
      && s'.tasks[id].retries == Failures(s', id) <= cfg.maxRetries
      && (s'.tasks[id].status == Dead <==> Failures(s', id) == cfg.maxRetries)
  {
    RunKeepsFence(cfg, s, actions);
    BudgetIsKept(cfg, s, actions, id);
  }

  /** In some continuation with orderly failures, this claim owns its task. */
  ghost predicate Regains(cfg: Config, s: Sys, c: Claim) {
    exists more :: Orderly(cfg, s, more) && Owns(Run(cfg, s, more).tasks, c)
  }

  /** No failure of this claim at this time gives a lost claim its task back. */
  ghost predicate KeepsOthersOut(cfg: Config, c: Claim, outcomeAt: int) {
    forall s, d | Inv(cfg, s) && Fenced(s) && c in s.open && Owns(s.tasks, c) && d in s.open && !Owns(s.tasks, d) ::
      !Regains(cfg, DoFail(cfg, s, c, outcomeAt), d)
  }

  /** A task that `lost` held until `c` took it over. */
  function TakenOver(c: Claim, lost: Claim): Sys
    requires c.retries >= 0
  {
    Sys(map[c.task := Task("", 0, c.retries, Running, Some(c.lockedAt))], {c, lost}, {}, map[c.task := c.retries])
  }

  lemma OneStep(cfg: Config, s: Sys, a: Action)
    ensures Run(cfg, s, [a]) == Apply(cfg, s, a)
    ensures Orderly(cfg, s, [a]) <==> StepOrderly(cfg, s, a)
  {
    assert [a][..0] == [];
  }

  /** A failure rescheduled before its claim lets the claim of just that time own the task again. */
  lemma OutOfOrderUnfences(cfg: Config, c: Claim, outcomeAt: int)
    requires cfg.Valid() && LB.TruncateMs(c.lockedAt) == c.lockedAt && 0 <= c.retries && !InOrder(cfg, c, outcomeAt)
    ensures !KeepsOthersOut(cfg, c, outcomeAt)
  {
    var at := LB.TruncateMs(RetryAt(cfg, c, outcomeAt));
    var lost := Claim(c.task, at, c.retries);
    var s := TakenOver(c, lost);
    var s' := DoFail(cfg, s, c, outcomeAt);
    var more := [ClaimTask(c.task, at, 1)];
    assert Inv(cfg, s) && Fenced(s) && !Owns(s.tasks, lost);
    OneStep(cfg, s', more[0]);
    assert Owns(Run(cfg, s', more).tasks, lost);
    assert Regains(cfg, s', lost);
  }

  lemma InOrderFences(cfg: Config, c: Claim, outcomeAt: int)
    requires cfg.Valid() && InOrder(cfg, c, outcomeAt)
    ensures KeepsOthersOut(cfg, c, outcomeAt)
  {
    forall s, d | Inv(cfg, s) && Fenced(s) && c in s.open && Owns(s.tasks, c) && d in s.open && !Owns(s.tasks, d)
      ensures !Regains(cfg, DoFail(cfg, s, c, outcomeAt), d)
    {
      var s' := DoFail(cfg, s, c, outcomeAt);
      assert ClaimFenced(s, d) && ClaimSound(cfg, s, d);
      StepKeepsOutdated(cfg, s, d, Fail(c, outcomeAt));
      FailKeeps(cfg, s, c, outcomeAt);
      forall more | Orderly(cfg, s', more) ensures !Owns(Run(cfg, s', more).tasks, d) {
        RunKeepsOutdated(cfg, s', d, more);
      }
    }
  }

  /** The fence's exact condition, known to the worker before it records its failure. */
  lemma FencedIffInOrder(cfg: Config, c: Claim, outcomeAt: int)
    requires cfg.Valid() && LB.TruncateMs(c.lockedAt) == c.lockedAt && 0 <= c.retries
    ensures KeepsOthersOut(cfg, c, outcomeAt) <==> InOrder(cfg, c, outcomeAt)
  {
    if InOrder(cfg, c, outcomeAt) {
      InOrderFences(cfg, c, outcomeAt);
    } else {
      OutOfOrderUnfences(cfg, c, outcomeAt);
    }
  }

  const MS: int := 1_000_000

  /** Leases of 50 ms, retries after 1 ms. */
  const STEPPED_BACK: Config := Config(1, 50 * MS, 3, MS, 8 * MS)

  /** The first worker claims at 100 ms, the second takes over at 200 ms, steps back to 60 ms and fails. */
  function SteppedBackRun(): seq<Action> {
    [Create(1, "detail:1", 0), ClaimTask(1, 100 * MS, 50 * MS), ClaimTask(1, 200 * MS, 50 * MS),
     Fail(Claim(1, 200 * MS, 0), 60 * MS), ClaimTask(1, 100 * MS, 50 * MS)]
  }

  const FIRST: Claim := Claim(1, 100 * MS, 0)
  const SECOND: Claim := Claim(1, 200 * MS, 0)

  /** Where that run stands after each takeover: at 200 ms, and after the failure at 100 ms again. */
  const SECOND_OWNS: Sys :=
    Sys(map[1 := Task("detail:1", 0, 0, Running, Some(200 * MS))], {FIRST, SECOND}, {}, map[])
  const FIRST_OWNS: Sys :=
    Sys(map[1 := Task("detail:1", 61 * MS, 1, Running, Some(100 * MS))], {FIRST, Claim(1, 100 * MS, 1)}, {},
        map[1 := 1])

  lemma SteppedBackTakesOver(s: Sys)
    requires Genesis(s)
    ensures var created := Apply(STEPPED_BACK, s, SteppedBackRun()[0]);
      var claimed := Apply(STEPPED_BACK, created, SteppedBackRun()[1]);
      Apply(STEPPED_BACK, claimed, SteppedBackRun()[2]) == SECOND_OWNS
  {
    var claimed := DoClaim(Apply(STEPPED_BACK, s, SteppedBackRun()[0]), 1, 100 * MS, 50 * MS);
    assert claimed.tasks == map[1 := Task("detail:1", 0, 0, Running, Some(100 * MS))] && claimed.open == {FIRST};
    var taken := DoClaim(claimed, 1, 200 * MS, 50 * MS);
    assert taken.tasks == SECOND_OWNS.tasks && taken.open == SECOND_OWNS.open;
  }

  lemma SteppedBackGivesBack()
    ensures var failed := Apply(STEPPED_BACK, SECOND_OWNS, SteppedBackRun()[3]);
      Apply(STEPPED_BACK, failed, SteppedBackRun()[4]) == FIRST_OWNS
  {
    assert RetryAt(STEPPED_BACK, SECOND, 60 * MS) == 61 * MS;
    var failed := DoFail(STEPPED_BACK, SECOND_OWNS, SECOND, 60 * MS);
    assert failed.tasks == map[1 := Task("detail:1", 61 * MS, 1, Pending, None)];
    assert failed.open == {FIRST} && failed.failures == map[1 := 1];
    var claimed := DoClaim(failed, 1, 100 * MS, 50 * MS);
    assert claimed.tasks == FIRST_OWNS.tasks && claimed.open == FIRST_OWNS.open;
  }

  lemma SteppedBackStates(s: Sys)
    requires Genesis(s)
    ensures Run(STEPPED_BACK, s, SteppedBackRun()[..3]) == SECOND_OWNS
    ensures Run(STEPPED_BACK, s, SteppedBackRun()) == FIRST_OWNS
  {
    var run := SteppedBackRun();
    forall k: nat | k < |run|
      ensures Run(STEPPED_BACK, s, run[..k + 1]) == Apply(STEPPED_BACK, Run(STEPPED_BACK, s, run[..k]), run[k])
    {
      assert run[..k + 1][..k] == run[..k];
    }
    assert run[..0] == [] && run[..1 + 1] == run[..2] && run[..5] == run;
    SteppedBackTakesOver(s);
    SteppedBackGivesBack();
    assert Run(STEPPED_BACK, s, run[..3 + 1]) == Apply(STEPPED_BACK, SECOND_OWNS, run[3]);
    assert Run(STEPPED_BACK, s, run[..4 + 1]) == FIRST_OWNS;
  }

  /** The code takes this run: the first worker's lost claim owns the task again, and one failure is forgotten. */
  lemma SteppedBackClockUnfences(s: Sys)
    requires Genesis(s)
    ensures STEPPED_BACK.Valid() && !InOrder(STEPPED_BACK, SECOND, 60 * MS)
    ensures !Owns(Run(STEPPED_BACK, s, SteppedBackRun()[..3]).tasks, FIRST)
    ensures Owns(Run(STEPPED_BACK, s, SteppedBackRun()).tasks, FIRST)
    ensures var s' := Run(STEPPED_BACK, s, SteppedBackRun() + [Fail(FIRST, 110 * MS)]);
      s'.tasks[1].retries == 1 && Failures(s', 1) == 2
  {
    SteppedBackStates(s);
    var fail := Fail(FIRST, 110 * MS);
    assert (SteppedBackRun() + [fail])[..5] == SteppedBackRun();
  }
}
