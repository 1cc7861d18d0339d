/**
 Durable cache-invalidation tasks. A worker's only proof of ownership is the millisecond timestamp its claim
 wrote to `locked_at`; workers' clocks need not agree.
 */
module CacheInvalidation {
  import opened Wrappers
  import opened LeaseBudget
  import Backoff

  type Id = int

  datatype Status = Pending | Running | Done | Dead

  datatype Task = Task(key: string, executeAt: int, retries: int, status: Status, lockedAt: Option<int>)

  datatype Config = Config(batchSize: int, leaseDuration: int, maxRetries: int, baseDelay: int, maxDelay: int)
  {
    /** What the protocol needs of the configurations the constructor accepts. */
    predicate Valid() {
      && batchSize > 0 && leaseDuration > 0 && 0 < maxRetries <= MAX_INT64
      && 0 < baseDelay <= maxDelay && IsInt64(maxDelay)
    }
  }

  /** A claimed task as its worker remembers it. */
  datatype Claim = Claim(task: Id, lockedAt: int, retries: int)

  type Tasks = map<Id, Task>

  /** Due for its first or next attempt, or held under a lease that has run out by this worker's clock. */
  predicate Due(t: Task, now: int, lease: int) {
    var leaseNow := TruncateMs(now);
    || (t.status == Pending && t.executeAt <= leaseNow)
    || (t.status == Running && t.lockedAt.Some? && t.lockedAt.value <= TruncateMs(leaseNow - lease))
  }

  function Locked(t: Task, now: int): Task {
    t.(status := Running, lockedAt := Some(TruncateMs(now)))
  }

  predicate Owns(tasks: Tasks, c: Claim) {
    c.task in tasks && tasks[c.task].status == Running && tasks[c.task].lockedAt == Some(TruncateMs(c.lockedAt))
  }

  function MarkDone(tasks: Tasks, c: Claim): (Tasks, bool) {
    if Owns(tasks, c) then (tasks[c.task := tasks[c.task].(status := Done, lockedAt := None)], true)
    else (tasks, false)
  }

  function MarkFailure(tasks: Tasks, c: Claim, retries: int, executeAt: int, dead: bool): (Tasks, bool) {
    if !Owns(tasks, c) then (tasks, false)
    else
      var failed := tasks[c.task].(retries := retries, lockedAt := None);
      (tasks[c.task := if dead then failed.(status := Dead)
                       else failed.(status := Pending, executeAt := TruncateMs(executeAt))], true)
  }

  /** When a failed claim's task is tried again, as the worker that failed computes it. */
  function RetryAt(cfg: Config, c: Claim, outcomeAt: int): int {
    outcomeAt + Backoff.Capped(cfg.baseDelay, c.retries + 1, cfg.maxDelay)
  }

  predicate Exhausted(cfg: Config, c: Claim) {
    c.retries + 1 >= cfg.maxRetries
  }

  /** The worker's bookkeeping after a failed delete. */
  function Failed(tasks: Tasks, c: Claim, cfg: Config, outcomeAt: int): (Tasks, bool) {
    var dead := Exhausted(cfg, c);
    MarkFailure(tasks, c, c.retries + 1, if dead then outcomeAt else RetryAt(cfg, c, outcomeAt), dead)
  }

  /**
   History variables: claims still open, claims whose delete was acknowledged, and how many failures were
   recorded per task.
   */
  datatype Sys = Sys(tasks: Tasks, open: set<Claim>, deleted: set<Claim>, failures: map<Id, nat>)

  datatype Action =
    | Create(task: Id, key: string, executeAt: int)
    | ClaimTask(task: Id, now: int, lease: int)
    | DeleteKey(held: Claim)
    | Finish(held: Claim)
    | Fail(held: Claim, outcomeAt: int)

  function DoClaim(s: Sys, id: Id, now: int, lease: int): Sys {
    if lease <= 0 || id !in s.tasks || !Due(s.tasks[id], now, lease) then s
    else
      s.(tasks := s.tasks[id := Locked(s.tasks[id], now)],
         open := s.open + {Claim(id, TruncateMs(now), s.tasks[id].retries)})
  }

  /** A claim ends with its one outcome, recorded or not. */
  function DoFinish(s: Sys, c: Claim): Sys {
    if c !in s.open || c !in s.deleted then s
    else s.(tasks := MarkDone(s.tasks, c).0, open := s.open - {c})
  }

  /** `outcomeAt` is the worker's own clock after the delete, whatever it shows. */
  function DoFail(cfg: Config, s: Sys, c: Claim, outcomeAt: int): Sys {
    if c !in s.open then s
    else
      var (tasks, recorded) := Failed(s.tasks, c, cfg, outcomeAt);
      s.(tasks := tasks, open := s.open - {c},
         failures := if recorded then s.failures[c.task := Failures(s, c.task) + 1] else s.failures)
  }

  function Failures(s: Sys, id: Id): nat {
    if id in s.failures then s.failures[id] else 0
  }

  function Apply(cfg: Config, s: Sys, a: Action): Sys {
    match a
    case Create(id, key, executeAt) =>
      if id in s.tasks then s else s.(tasks := s.tasks[id := Task(key, executeAt, 0, Pending, None)])
    case ClaimTask(id, now, lease) => DoClaim(s, id, now, lease)
    case DeleteKey(c) => if c in s.open then s.(deleted := s.deleted + {c}) else s
    case Finish(c) => DoFinish(s, c)
    case Fail(c, outcomeAt) => DoFail(cfg, s, c, outcomeAt)
  }

  function Run(cfg: Config, s: Sys, actions: seq<Action>): Sys
    decreases |actions|
  {
    if actions == [] then s else Apply(cfg, Run(cfg, s, actions[..|actions| - 1]), actions[|actions| - 1])
  }

  ghost predicate Genesis(s: Sys) {
    s.tasks == map[] && s.open == {} && s.deleted == {} && s.failures == map[]
  }

  /** The retry budget: live tasks are below it, dead ones have used exactly all of it. */
  predicate WithinBudget(cfg: Config, t: Task) {
    if t.status == Dead then t.retries == cfg.maxRetries else 0 <= t.retries < cfg.maxRetries
  }

  ghost predicate TaskSound(cfg: Config, s: Sys, id: Id, t: Task) {
    && (t.status == Running <==> t.lockedAt.Some?)
    && WithinBudget(cfg, t)
    && (t.status == Done ==> exists c | c in s.deleted :: c.task == id)
  }

  ghost predicate ClaimSound(cfg: Config, s: Sys, c: Claim) {
    c.task in s.tasks && TruncateMs(c.lockedAt) == c.lockedAt && 0 <= c.retries < cfg.maxRetries
  }

  /** What every run keeps, whatever the workers' clocks do. */
  ghost predicate Inv(cfg: Config, s: Sys) {
    && cfg.Valid()
    && (forall id | id in s.tasks :: TaskSound(cfg, s, id, s.tasks[id]))
    && (forall c | c in s.open :: ClaimSound(cfg, s, c))
    && (forall id | id in s.failures :: id in s.tasks)
  }

  /** Finished tasks stay as they are and failure counts only grow. */
  ghost predicate Advances(s: Sys, s': Sys) {
    && (forall id | id in s.tasks ::
          && id in s'.tasks && s'.tasks[id].key == s.tasks[id].key
          && (s.tasks[id].status in {Done, Dead} ==> s'.tasks[id] == s.tasks[id]))
    && (forall id | id in s.tasks :: Failures(s, id) <= Failures(s', id))
  }

  /** Taking over an expired lease writes a strictly later timestamp, whatever the two clocks say. */
  lemma TakeoverIsLater(t: Task, now: int, lease: int)
    requires lease > 0 && t.status == Running && Due(t, now, lease)
    ensures t.lockedAt.Some? && t.lockedAt.value < TruncateMs(now)
  {
  }

  /** A step that touches one task leaves what holds of the others. */
  lemma TasksStaySound(cfg: Config, s: Sys, s': Sys, id: Id)
    requires forall k | k in s.tasks :: TaskSound(cfg, s, k, s.tasks[k])
    requires s.deleted <= s'.deleted && s'.tasks.Keys <= s.tasks.Keys + {id}
    requires forall k | k in s'.tasks && k != id :: s'.tasks[k] == s.tasks[k]
    requires id in s'.tasks ==> TaskSound(cfg, s', id, s'.tasks[id])
    ensures forall k | k in s'.tasks :: TaskSound(cfg, s', k, s'.tasks[k])
  {
    forall k | k in s'.tasks && k != id ensures TaskSound(cfg, s', k, s'.tasks[k]) {
      assert TaskSound(cfg, s, k, s.tasks[k]);
    }
  }

  lemma ClaimKeeps(cfg: Config, s: Sys, id: Id, now: int, lease: int)
    requires Inv(cfg, s)
    ensures Inv(cfg, DoClaim(s, id, now, lease)) && Advances(s, DoClaim(s, id, now, lease))
  {
    var s' := DoClaim(s, id, now, lease);
    if s' != s {
      assert TaskSound(cfg, s, id, s.tasks[id]);
      TasksStaySound(cfg, s, s', id);
      forall c | c in s'.open ensures ClaimSound(cfg, s', c) {
        assert c in s.open ==> ClaimSound(cfg, s, c);
      }
    }
  }

  lemma FinishKeeps(cfg: Config, s: Sys, c: Claim)
    requires Inv(cfg, s)
    ensures Inv(cfg, DoFinish(s, c)) && Advances(s, DoFinish(s, c))
  {
    var s' := DoFinish(s, c);
    if c in s.open && c in s.deleted {
      assert ClaimSound(cfg, s, c) && TaskSound(cfg, s, c.task, s.tasks[c.task]);
      TasksStaySound(cfg, s, s', c.task);
      forall d | d in s'.open ensures ClaimSound(cfg, s', d) {
        assert ClaimSound(cfg, s, d);
      }
    }
  }

  lemma FailKeeps(cfg: Config, s: Sys, c: Claim, outcomeAt: int)
    requires Inv(cfg, s)
    ensures Inv(cfg, DoFail(cfg, s, c, outcomeAt)) && Advances(s, DoFail(cfg, s, c, outcomeAt))
  {
    var s' := DoFail(cfg, s, c, outcomeAt);
    if c in s.open {
      assert ClaimSound(cfg, s, c) && TaskSound(cfg, s, c.task, s.tasks[c.task]);
      TasksStaySound(cfg, s, s', c.task);
      forall d | d in s'.open ensures ClaimSound(cfg, s', d) {
        assert ClaimSound(cfg, s, d);
      }
    }
  }

  /** Every claim and outcome keeps budget and bookkeeping consistent and undoes nothing finished. */
  lemma ActionKeeps(cfg: Config, s: Sys, a: Action)
    requires Inv(cfg, s)
    ensures Inv(cfg, Apply(cfg, s, a)) && Advances(s, Apply(cfg, s, a))
  {
    var s' := Apply(cfg, s, a);
    match a
    case Create(id, key, executeAt) =>
      if id !in s.tasks {
        TasksStaySound(cfg, s, s', id);
      }
      forall c | c in s'.open ensures ClaimSound(cfg, s', c) {
        assert ClaimSound(cfg, s, c);
      }
    case ClaimTask(id, now, lease) => ClaimKeeps(cfg, s, id, now, lease);
    case DeleteKey(c) =>
      forall k | k in s'.tasks ensures TaskSound(cfg, s', k, s'.tasks[k]) {
        assert TaskSound(cfg, s, k, s.tasks[k]);
      }
      forall d | d in s'.open ensures ClaimSound(cfg, s', d) {
        assert ClaimSound(cfg, s, d);
      }
    case Finish(c) => FinishKeeps(cfg, s, c);
    case Fail(c, outcomeAt) => FailKeeps(cfg, s, c, outcomeAt);
  }

  lemma {:induction false} RunKeeps(cfg: Config, s: Sys, actions: seq<Action>)
    requires Inv(cfg, s)
    ensures Inv(cfg, Run(cfg, s, actions)) && Advances(s, Run(cfg, s, actions))
    decreases |actions|
  {
    if actions != [] {
      var n := |actions| - 1;
      RunKeeps(cfg, s, actions[..n]);
      ActionKeeps(cfg, Run(cfg, s, actions[..n]), actions[n]);
    }
  }

  lemma {:induction false} RunAppends(cfg: Config, s: Sys, actions: seq<Action>, more: seq<Action>)
    ensures Run(cfg, s, actions + more) == Run(cfg, Run(cfg, s, actions), more)
    decreases |more|
  {
    var all := actions + more;
    if more == [] {
      assert all == actions;
    } else {
      var n := |more| - 1;
      assert all[..|all| - 1] == actions + more[..n] && all[|all| - 1] == more[n];
      RunAppends(cfg, s, actions, more[..n]);
    }
  }

  /** In every run, whatever the clocks: live tasks have budget left, DEAD ones none, DONE ones were deleted. */
  lemma BudgetIsKept(cfg: Config, s: Sys, actions: seq<Action>, id: Id)
    requires Genesis(s) && cfg.Valid() && id in Run(cfg, s, actions).tasks
    ensures var s' := Run(cfg, s, actions);
      && (s'.tasks[id].status == Dead <==> s'.tasks[id].retries == cfg.maxRetries)
      && 0 <= s'.tasks[id].retries <= cfg.maxRetries
      && (s'.tasks[id].status == Done ==> exists c | c in s'.deleted :: c.task == id)
  {
    RunKeeps(cfg, s, actions);
    assert TaskSound(cfg, Run(cfg, s, actions), id, Run(cfg, s, actions).tasks[id]);
  }
}
