/** One polling pass of the cache-invalidation worker over its task table, with other workers in between. */
module CacheWorker {
  import opened Wrappers
  import opened CacheInvalidation
  import opened CacheFence
  import opened Selection
  import Backoff
  import LB = LeaseBudget

  class TaskStore {
    const cfg: Config
    var tasks: Tasks
    var open: set<Claim>
    var deleted: set<Claim>
    var failures: map<CacheInvalidation.Id, nat>

    function State(): Sys
      reads this
    {
      Sys(tasks, open, deleted, failures)
    }

    constructor (cfg: Config, s: Sys)
      ensures State() == s && this.cfg == cfg
    {
      this.cfg := cfg;
      tasks, open, deleted, failures := s.tasks, s.open, s.deleted, s.failures;
    }

    /** Any actions of any other processes. */
    method Others(actions: seq<Action>)
      modifies this
      ensures State() == Run(cfg, old(State()), actions)
    {
      var s := Run(cfg, State(), actions);
      tasks, open, deleted, failures := s.tasks, s.open, s.deleted, s.failures;
    }

    /** One row's part of a claim transaction. */
    method LockTask(id: CacheInvalidation.Id, now: int) returns (c: Claim)
      requires id in tasks && Due(tasks[id], now, cfg.leaseDuration) && cfg.leaseDuration > 0
      modifies this
      ensures State() == Apply(cfg, old(State()), ClaimTask(id, now, cfg.leaseDuration))
      ensures c == Claim(id, LB.TruncateMs(now), old(tasks)[id].retries) && c in open && old(open) <= open
      ensures tasks == old(tasks)[id := Locked(old(tasks)[id], now)]
    {
      c := Claim(id, LB.TruncateMs(now), tasks[id].retries);
      tasks := tasks[id := Locked(tasks[id], now)];
      open := open + {c};
    }

    /** Claims distinct due tasks, all under one timestamp. */
    method LockEach(ids: seq<int>, now: int) returns (claims: seq<Claim>)
      requires cfg.leaseDuration > 0
      requires forall i | 0 <= i < |ids| :: ids[i] in tasks && Due(tasks[ids[i]], now, cfg.leaseDuration)
      requires forall i, k | 0 <= i < k < |ids| :: ids[i] != ids[k]
      modifies this
      ensures ClaimsOf(claims, ids, old(tasks), now) && (forall i | 0 <= i < |claims| :: claims[i] in open)
      ensures OwnedFrom(tasks, claims, 0)
      ensures State() == Run(cfg, old(State()), ClaimActions(ids, now, cfg.leaseDuration))
    {
      ghost var s := State();
      claims := [];
      for i := 0 to |ids|
        invariant State() == Run(cfg, s, ClaimActions(ids[..i], now, cfg.leaseDuration))
        invariant ClaimsOf(claims, ids[..i], s.tasks, now) && forall k | 0 <= k < i :: claims[k] in open
        invariant OwnedFrom(tasks, claims, 0)
        invariant forall k | i <= k < |ids| :: ids[k] in tasks && tasks[ids[k]] == s.tasks[ids[k]]
      {
        OneMoreClaim(ids, i, now, cfg.leaseDuration);
        Step(cfg, s, ClaimActions(ids[..i], now, cfg.leaseDuration), ClaimTask(ids[i], now, cfg.leaseDuration));
        ghost var before := tasks;
        var c := LockTask(ids[i], now);
        OneMoreOwned(s.tasks, before, tasks, claims, ids, i, now);
        claims := claims + [c];
      }
      assert ids[..|ids|] == ids;
    }

    /** Claims the first due, unlocked tasks in order of execution time and id. */
    method ClaimDue(now: int, limit: nat, locked: set<int>) returns (claims: seq<Claim>, ghost ids: seq<int>)
      requires cfg.leaseDuration > 0
      modifies this
      ensures IsFirst(ids, DueTasks(old(tasks), now, cfg.leaseDuration, locked), limit, ByExecuteAt(old(tasks)))
      ensures ClaimsOf(claims, ids, old(tasks), now) && (forall i | 0 <= i < |claims| :: claims[i] in open)
      ensures OwnedFrom(tasks, claims, 0)
      ensures State() == Run(cfg, old(State()), ClaimActions(ids, now, cfg.leaseDuration))
    {
      var selected := First(DueTasks(tasks, now, cfg.leaseDuration, locked), limit, ByExecuteAt(tasks));
      ids := selected;
      forall i, k | 0 <= i < k < |selected| ensures selected[i] != selected[k] {
        assert Before(ByExecuteAt(tasks), selected[i], selected[k]);
      }
      claims := LockEach(selected, now);
    }

    /** The owner's outcome of a successful delete; true only if the lease was still its own. */
    method MarkDone(c: Claim) returns (ok: bool)
      requires c in open && c in deleted
      modifies this
      ensures State() == Apply(cfg, old(State()), Finish(c))
      ensures ok == Owns(old(tasks), c)
    {
      ok := Owns(tasks, c);
      if ok {
        tasks := tasks[c.task := tasks[c.task].(status := Done, lockedAt := None)];
      }
      open := open - {c};
    }

    /** The owner's outcome of a failed delete: another attempt after a delay, or DEAD with the budget used up. */
    method RecordFailure(c: Claim, outcomeAt: int) returns (ok: bool)
      requires Inv(cfg, State()) && c in open
      modifies this
      ensures State() == Apply(cfg, old(State()), Fail(c, outcomeAt))
      ensures ok == Owns(old(tasks), c)
    {
      assert ClaimSound(cfg, State(), c);
      var retries := c.retries + 1;
      var dead := retries >= cfg.maxRetries;
      var executeAt := outcomeAt;
      if !dead {
        var delay := Backoff.CacheRetryDelay(retries, cfg.baseDelay, cfg.maxDelay);
        executeAt := outcomeAt + delay;
      }
      ok := Owns(tasks, c);
      if ok {
        var failed := tasks[c.task].(retries := retries, lockedAt := None);
        failures := failures[c.task := Failures(State(), c.task) + 1];
        tasks := tasks[c.task := if dead then failed.(status := Dead)
                                 else failed.(status := Pending, executeAt := LB.TruncateMs(executeAt))];
      }
      open := open - {c};
    }

    /** Deletes the cache key; only an acknowledged delete is known to have happened. */
    method DeleteCached(c: Claim, fate: Fate) returns (ok: bool, ghost trace: seq<Action>)
      requires c in open
      modifies this
      ensures State() == Run(cfg, old(State()), trace)
      ensures ok <==> fate == Answered
      ensures open == old(open) && tasks == old(tasks) && (ok ==> c in deleted)
    {
      ok, trace := fate == Answered, [];
      if ok {
        trace := [DeleteKey(c)];
        assert trace[..0] == [];
        deleted := deleted + {c};
      }
    }
  }

  function DueTasks(tasks: Tasks, now: int, lease: int, locked: set<int>): set<int> {
    set id | id in tasks && Due(tasks[id], now, lease) && id !in locked
  }

  function ByExecuteAt(tasks: Tasks): int -> int {
    (id: int) => if id in tasks then tasks[id].executeAt else 0
  }

  function ClaimActions(ids: seq<int>, now: int, lease: int): (r: seq<Action>)
    ensures |r| == |ids|
  {
    seq(|ids|, i requires 0 <= i < |ids| => ClaimTask(ids[i], now, lease))
  }

  /** From this one on, the claims still own their tasks. */
  predicate OwnedFrom(tasks: Tasks, claims: seq<Claim>, from: nat) {
    forall i | from <= i < |claims| :: Owns(tasks, claims[i])
  }

  /** Claiming the next task leaves the tasks claimed before it and the ones to come as they are. */
  lemma OneMoreOwned(
    start: Tasks, before: Tasks, after: Tasks, claims: seq<Claim>, ids: seq<int>, i: nat, now: int)
    requires i < |ids| && forall j, k | 0 <= j < k < |ids| :: ids[j] != ids[k]
    requires ClaimsOf(claims, ids[..i], start, now) && OwnedFrom(before, claims, 0)
    requires forall k | i <= k < |ids| :: ids[k] in before && ids[k] in start && before[ids[k]] == start[ids[k]]
    requires after == before[ids[i] := Locked(before[ids[i]], now)]
    ensures var c := Claim(ids[i], LB.TruncateMs(now), before[ids[i]].retries);
      ClaimsOf(claims + [c], ids[..i + 1], start, now) && OwnedFrom(after, claims + [c], 0)
    ensures forall k | i < k < |ids| :: ids[k] in after && after[ids[k]] == start[ids[k]]
  {
    forall k | 0 <= k < i ensures Owns(after, claims[k]) {
      assert Owns(before, claims[k]) && claims[k].task == ids[..i][k] != ids[i];
    }
  }

  /** At most this task differs. */
  ghost predicate OnlyTask(tasks: Tasks, tasks': Tasks, id: int) {
    forall k | k in tasks && k != id :: k in tasks' && tasks'[k] == tasks[k]
  }

  predicate ClaimsOf(claims: seq<Claim>, ids: seq<int>, tasks: Tasks, now: int) {
    && |claims| == |ids|
    && forall i | 0 <= i < |ids| ::
         ids[i] in tasks && claims[i] == Claim(ids[i], LB.TruncateMs(now), tasks[ids[i]].retries)
  }

  lemma OneMoreClaim(ids: seq<int>, i: nat, now: int, lease: int)
    requires i < |ids|
    ensures ClaimActions(ids[..i + 1], now, lease)
      == ClaimActions(ids[..i], now, lease) + [ClaimTask(ids[i], now, lease)]
  {
  }

  lemma Step(cfg: Config, s: Sys, trace: seq<Action>, action: Action)
    ensures Run(cfg, s, trace + [action]) == Apply(cfg, Run(cfg, s, trace), action)
  {
    RunAppends(cfg, s, trace, [action]);
    assert [action][..0] == [];
  }

  /** Open claims stay open while only others act. */
  predicate LeavesClaim(a: Action, c: Claim) {
    match a
    case Finish(d) => d != c
    case Fail(d, _) => d != c
    case _ => true
  }

  predicate LeavesAll(actions: seq<Action>, mine: set<Claim>) {
    forall i, c | 0 <= i < |actions| && c in mine :: LeavesClaim(actions[i], c)
  }

  lemma {:induction false} OpenStays(cfg: Config, s: Sys, actions: seq<Action>, mine: set<Claim>)
    requires LeavesAll(actions, mine) && mine <= s.open
    ensures mine <= Run(cfg, s, actions).open && s.deleted <= Run(cfg, s, actions).deleted
    decreases |actions|
  {
    if actions != [] {
      OpenStays(cfg, s, actions[..|actions| - 1], mine);
    }
  }

  /** What happens to one claimed task: the delete's fate, the outcome's, and the worker's clock between them. */
  datatype Calls = Calls(delete: Fate, mark: Fate, outcomeAt: int)

  /** Deletes one claimed task's key, then others act. */
  method DeleteAndYield(store: TaskStore, c: Claim, ghost mine: set<Claim>, delete: Fate, others: seq<Action>)
    returns (gone: bool, ghost trace: seq<Action>)
    requires Inv(store.cfg, store.State()) && c in mine && mine <= store.open && LeavesAll(others, mine)
    modifies store
    ensures store.State() == Run(store.cfg, old(store.State()), trace) && Inv(store.cfg, store.State())
    ensures mine <= store.open && (gone ==> c in store.deleted)
    ensures gone <==> delete == Answered
    ensures others == [] ==> store.tasks == old(store.tasks)
  {
    ghost var s := store.State();
    gone, trace := store.DeleteCached(c, delete);
    RunKeeps(store.cfg, s, trace);
    ghost var s1 := store.State();
    OpenStays(store.cfg, s1, others, mine);
    RunKeeps(store.cfg, s1, others);
    store.Others(others);
    RunAppends(store.cfg, s, trace, others);
    trace := trace + others;
  }

  /** One claimed task: delete its key, then record the outcome under the claim's timestamp. */
  method Process(store: TaskStore, c: Claim, ghost mine: set<Claim>, calls: Calls, others: seq<Action>)
    returns (ok: bool, ghost trace: seq<Action>)
    requires Inv(store.cfg, store.State()) && c in mine && mine <= store.open && LeavesAll(others, mine)
    modifies store
    ensures store.State() == Run(store.cfg, old(store.State()), trace) && Inv(store.cfg, store.State())
    ensures mine - {c} <= store.open
    ensures ok ==> calls.mark == Answered && c !in store.open
    ensures others == [] && calls.mark == Answered && Owns(old(store.tasks), c) ==> ok
    ensures others == [] ==> OnlyTask(old(store.tasks), store.tasks, c.task)
    ensures others == [] && ok ==>
      && c.task in store.tasks
      && (calls.delete == Answered ==> store.tasks[c.task].status == Done)
      && (calls.delete != Answered ==>
            store.tasks[c.task].status == if c.retries + 1 >= store.cfg.maxRetries then Dead else Pending)
  {
    ghost var s := store.State();
    var gone;
    gone, trace := DeleteAndYield(store, c, mine, calls.delete, others);
    if calls.mark == Rejected {
      return false, trace;
    }
    ghost var action := if gone then Finish(c) else Fail(c, calls.outcomeAt);
    ActionKeeps(store.cfg, store.State(), action);
    Step(store.cfg, s, trace, action);
    if gone {
      ok := store.MarkDone(c);
    } else {
      ok := store.RecordFailure(c, calls.outcomeAt);
    }
    ok := ok && calls.mark == Answered;
    trace := trace + [action];
  }

  function From(claims: seq<Claim>, next: nat): set<Claim> {
    set k | next <= k < |claims| :: claims[k]
  }

  lemma FromNext(claims: seq<Claim>, next: nat)
    requires next < |claims| && forall i, k | 0 <= i < k < |claims| :: claims[i] != claims[k]
    ensures From(claims, next + 1) <= From(claims, next) - {claims[next]}
  {
  }

  /** Every outcome's call is answered, and nobody else acts. */
  ghost predicate Undisturbed(calls: nat -> Calls, others: (nat, set<Claim>) -> seq<Action>) {
    (forall i :: calls(i).mark == Answered) && forall i, mine :: others(i, mine) == []
  }

  predicate DistinctTasks(claims: seq<Claim>) {
    forall i, k | 0 <= i < k < |claims| :: claims[i].task != claims[k].task
  }

  lemma OthersStayOwned(tasks: Tasks, tasks': Tasks, claims: seq<Claim>, next: nat)
    requires next < |claims| && DistinctTasks(claims) && OwnedFrom(tasks, claims, next)
    requires OnlyTask(tasks, tasks', claims[next].task)
    ensures OwnedFrom(tasks', claims, next + 1)
  {
    forall i | next < i < |claims| ensures Owns(tasks', claims[i]) {
      assert Owns(tasks, claims[i]) && claims[next].task != claims[i].task;
    }
  }

  /** Processes claimed tasks in order, stopping at the first outcome that cannot be recorded. */
  method ProcessAll(
    store: TaskStore, claims: seq<Claim>, calls: nat -> Calls, others: (nat, set<Claim>) -> seq<Action>)
    returns (ok: bool, done: nat, ghost trace: seq<Action>)
    requires Inv(store.cfg, store.State()) && From(claims, 0) <= store.open
    requires forall i, k | 0 <= i < k < |claims| :: claims[i] != claims[k]
    requires forall i, mine :: LeavesAll(others(i, mine), mine)
    modifies store
    ensures store.State() == Run(store.cfg, old(store.State()), trace) && Inv(store.cfg, store.State())
    ensures done <= |claims| && (ok ==> done == |claims|)
    ensures Undisturbed(calls, others) && OwnedFrom(old(store.tasks), claims, 0) && DistinctTasks(claims) ==> ok
  {
    ghost var s := store.State();
    ghost var smooth := Undisturbed(calls, others) && OwnedFrom(s.tasks, claims, 0) && DistinctTasks(claims);
    ok, done, trace := true, 0, [];
    while done < |claims| && ok
      invariant done <= |claims|
      invariant store.State() == Run(store.cfg, s, trace) && Inv(store.cfg, store.State())
      invariant From(claims, done) <= store.open
      invariant smooth ==> ok && OwnedFrom(store.tasks, claims, done)
      decreases |claims| - done
    {
      ghost var rest;
      ghost var before := store.tasks;
      ok, rest := Process(store, claims[done], From(claims, done), calls(done), others(done, From(claims, done)));
      if smooth {
        OthersStayOwned(before, store.tasks, claims, done);
      }
      FromNext(claims, done);
      RunAppends(store.cfg, s, trace, rest);
      trace, done := trace + rest, done + 1;
    }
  }

  /**
   One pass: a claim and at most two calls per claimed task, whatever the worker's clock shows at each outcome.
   Success means every outcome was recorded, and it is certain when nobody else acts and the recording calls
   are answered. The fence stands as long as every failure recorded meanwhile is in order.
   */
  method RunOnce(
    store: TaskStore, now: int, locked: set<int>, claim: Fate, calls: nat -> Calls,
    others: (nat, set<Claim>) -> seq<Action>)
    returns (ok: bool, claimed: seq<Claim>, made: nat, ghost trace: seq<Action>)
    requires Inv(store.cfg, store.State())
    requires forall i, mine :: LeavesAll(others(i, mine), mine)
    modifies store
    ensures store.State() == Run(store.cfg, old(store.State()), trace) && Inv(store.cfg, store.State())
    ensures made <= 1 + 2 * store.cfg.batchSize
    ensures ok ==> made == 1 + 2 * |claimed|
    ensures claim == Answered && Undisturbed(calls, others) ==> ok
    ensures claim != Rejected && ok ==>
      && |claimed| <= store.cfg.batchSize
      && FirstOverdue(old(store.tasks), claimed, store.cfg.batchSize, now - now % 1_000_000, store.cfg.leaseDuration,
                      locked)
    ensures Fenced(old(store.State())) && Orderly(store.cfg, old(store.State()), trace) ==> Fenced(store.State())
  {
    ghost var s := store.State();
    claimed, made, trace := [], 1, [];
    if claim == Rejected {
      return false, claimed, made, trace;
    }
    ghost var ids;
    claimed, ids := store.ClaimDue(now, store.cfg.batchSize, locked);
    trace := ClaimActions(ids, now, store.cfg.leaseDuration);
    ClaimedAreFirst(s.tasks, claimed, ids, store.cfg.batchSize, now, store.cfg.leaseDuration, locked);
    RunKeeps(store.cfg, s, trace);
    PassKeepsFence(store.cfg, s, trace);
    if claim == AnswerLost {
      return false, claimed, made, trace;
    }
    forall i, k | 0 <= i < k < |claimed| ensures claimed[i].task != claimed[k].task {
      assert Before(ByExecuteAt(s.tasks), ids[i], ids[k]);
    }
    var done;
    ghost var rest;
    ok, done, rest := ProcessAll(store, claimed, calls, others);
    RunAppends(store.cfg, s, trace, rest);
    trace, made := trace + rest, made + 2 * done;
    PassKeepsFence(store.cfg, s, trace);
  }

  /** Waiting for its time, or held under a lease that ran out; times to the millisecond, leases rounded down too. */
  predicate Overdue(t: Task, now: int, lease: int) {
    match t.status
    case Pending => t.executeAt <= now
    case Running => t.lockedAt.Some? && t.lockedAt.value <= (now - lease) - (now - lease) % 1_000_000
    case _ => false
  }

  function TaskIds(claims: seq<Claim>): (r: seq<int>)
    ensures |r| == |claims|
  {
    seq(|claims|, i requires 0 <= i < |claims| => claims[i].task)
  }

  function ExecutionTime(tasks: Tasks): int -> int {
    (id: int) => if id in tasks then tasks[id].executeAt else 0
  }

  /** The claimed tasks are the first overdue, unlocked ones by execution time and id, under this pass's time. */
  ghost predicate FirstOverdue(tasks: Tasks, claims: seq<Claim>, limit: nat, now: int, lease: int, locked: set<int>) {
    && IsFirst(TaskIds(claims), (set id | id in tasks && Overdue(tasks[id], now, lease) && id !in locked), limit,
               ExecutionTime(tasks))
    && forall i | 0 <= i < |claims| ::
         && claims[i].task in tasks && claims[i].lockedAt == now
         && claims[i].retries == tasks[claims[i].task].retries
  }

  lemma ClaimedAreFirst(
    tasks: Tasks, claims: seq<Claim>, ids: seq<int>, limit: nat, now: int, lease: int, locked: set<int>)
    requires IsFirst(ids, DueTasks(tasks, now, lease, locked), limit, ByExecuteAt(tasks))
    requires ClaimsOf(claims, ids, tasks, now)
    ensures FirstOverdue(tasks, claims, limit, now - now % 1_000_000, lease, locked)
  {
    var at := now - now % 1_000_000;
    assert LB.TruncateMs(at) == at == LB.TruncateMs(now);
    assert TaskIds(claims) == ids;
    forall id | id in tasks ensures Overdue(tasks[id], at, lease) <==> Due(tasks[id], now, lease) {}
    var overdue := set id | id in tasks && Overdue(tasks[id], at, lease) && id !in locked;
    assert overdue == DueTasks(tasks, now, lease, locked);
    SameOrder(ids, DueTasks(tasks, now, lease, locked), limit, ByExecuteAt(tasks), ExecutionTime(tasks));
  }

  lemma PassKeepsFence(cfg: Config, s: Sys, trace: seq<Action>)
    requires Inv(cfg, s)
    ensures Fenced(s) && Orderly(cfg, s, trace) ==> Fenced(Run(cfg, s, trace))
  {
    if Fenced(s) && Orderly(cfg, s, trace) {
      RunKeepsFence(cfg, s, trace);
    }
  }
}
