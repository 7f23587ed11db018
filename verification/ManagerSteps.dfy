/** llm_service/runtime/task_manager.py and llm_service/api/tasks.py: every call of the task manager, made
    without interruption, is a run of the task protocol on the table it works on. */
module ManagerSteps {
  import opened Common
  import opened EveryInterleaving
  import P = TaskProtocol
  import opened TaskTable

  lemma OneStep(s: P.State, now: Instant, step: P.Step)
    requires P.Enabled(s, now, step)
    ensures P.Runs(s, [P.Tick(now, step)], P.Next(s, now, step))
  {
    assert P.Runs(P.Next(s, now, step), [], P.Next(s, now, step));
    P.RunsCons(s, now, step, [], P.Next(s, now, step));
    assert [P.Tick(now, step)] + [] == [P.Tick(now, step)];
  }

  lemma TwoSteps(s: P.State, now: Instant, step: P.Step, next: P.Step)
    requires P.Enabled(s, now, step) && P.Enabled(P.Next(s, now, step), now, next)
    ensures P.Runs(s, [P.Tick(now, step), P.Tick(now, next)], P.Next(P.Next(s, now, step), now, next))
  {
    OneStep(P.Next(s, now, step), now, next);
    P.RunsCons(s, now, step, [P.Tick(now, next)], P.Next(P.Next(s, now, step), now, next));
    assert [P.Tick(now, step)] + [P.Tick(now, next)] == [P.Tick(now, step), P.Tick(now, next)];
  }

  method Submit(m: TaskManager, id: TaskId, maxAttempts: int, priority: int, domain: Option<string>, key: Option<string>,
                now: Instant, ghost s: P.State)
    returns (ghost plan: seq<P.Tick>, ghost t: P.State)
    requires m.tasks == s.tasks && RowsFit(s) && id !in s.issued && maxAttempts >= 1
    modifies m
    ensures P.Runs(s, plan, t) && m.tasks == t.tasks && t.workers == s.workers
  {
    m.Submit(id, maxAttempts, priority, domain, key, now);
    ghost var step := P.Submit(id, maxAttempts, priority, domain, key);
    OneStep(s, now, step);
    plan, t := [P.Tick(now, step)], P.Next(s, now, step);
  }

  /** The worker holds what it was given; nothing happens if nothing can be claimed. */
  method Claim(m: TaskManager, w: nat, now: Instant, ghost s: P.State)
    returns (claimed: Option<TaskId>, ghost plan: seq<P.Tick>, ghost t: P.State)
    requires m.tasks == s.tasks && w < |s.workers| && s.workers[w].Idle?
    modifies m
    ensures P.Runs(s, plan, t) && m.tasks == t.tasks && w < |t.workers| && P.Holds(t.workers[w]) == claimed
  {
    claimed := m.Claim(now);
    plan, t := [], s;
    if claimed.Some? {
      ghost var step := P.Claim(w, claimed.value, now + m.leaseDuration);
      OneStep(s, now, step);
      plan, t := [P.Tick(now, step)], P.Next(s, now, step);
    }
  }

  method Complete(m: TaskManager, w: nat, id: TaskId, now: Instant, ghost s: P.State)
    returns (ghost plan: seq<P.Tick>, ghost t: P.State)
    requires m.tasks == s.tasks && P.Enabled(s, now, P.Complete(w)) && s.workers[w].id == id
    modifies m
    ensures P.Runs(s, plan, t) && m.tasks == t.tasks && t.workers == s.workers[w := P.Idle]
  {
    m.Complete(id, now);
    OneStep(s, now, P.Complete(w));
    plan, t := [P.Tick(now, P.Complete(w))], P.Next(s, now, P.Complete(w));
  }

  /** Two statements: what the worker read is still there when it writes. */
  method Fail(m: TaskManager, w: nat, id: TaskId, now: Instant, ghost s: P.State)
    returns (ghost plan: seq<P.Tick>, ghost t: P.State)
    requires m.tasks == s.tasks && RowsFit(s) && P.Enabled(s, now, P.FailRead(w)) && s.workers[w].id == id
    modifies m
    ensures P.Runs(s, plan, t) && m.tasks == t.tasks && t.workers == s.workers[w := P.Idle]
  {
    m.Fail(id, now);
    if id in s.tasks {
      ghost var retryAt := now + Backoff(m.backoffBase, m.backoffMax, s.tasks[id].attemptCount + 1);
      TwoSteps(s, now, P.FailRead(w), P.FailWrite(w, retryAt));
      plan := [P.Tick(now, P.FailRead(w)), P.Tick(now, P.FailWrite(w, retryAt))];
      t := P.Next(P.Next(s, now, P.FailRead(w)), now, P.FailWrite(w, retryAt));
    } else {
      OneStep(s, now, P.FailRead(w));
      plan, t := [P.Tick(now, P.FailRead(w))], P.Next(s, now, P.FailRead(w));
    }
  }

  /** The same call made by recovery for the next row of its scan. */
  method Recover(m: TaskManager, now: Instant, ghost s: P.State, id: TaskId)
    returns (ghost plan: seq<P.Tick>, ghost t: P.State)
    requires m.tasks == s.tasks && RowsFit(s) && P.Enabled(s, now, P.RecoverRead) && s.recovery.found[0].id == id
    modifies m
    ensures P.Runs(s, plan, t) && m.tasks == t.tasks && t.workers == s.workers
    ensures t.recovery == P.Recovery(s.recovery.found[1..], None)
  {
    m.Fail(id, now);
    if id in s.tasks {
      ghost var retryAt := now + Backoff(m.backoffBase, m.backoffMax, s.tasks[id].attemptCount + 1);
      TwoSteps(s, now, P.RecoverRead, P.RecoverWrite(retryAt));
      plan := [P.Tick(now, P.RecoverRead), P.Tick(now, P.RecoverWrite(retryAt))];
      t := P.Next(P.Next(s, now, P.RecoverRead), now, P.RecoverWrite(retryAt));
    } else {
      OneStep(s, now, P.RecoverRead);
      plan, t := [P.Tick(now, P.RecoverRead)], P.Next(s, now, P.RecoverRead);
    }
  }

  /** A step if the call succeeds, none if it is refused. */
  method Cancel(m: TaskManager, id: TaskId, now: Instant, ghost s: P.State)
    returns (r: Result<(), TaskError>, ghost plan: seq<P.Tick>, ghost t: P.State)
    requires m.tasks == s.tasks
    modifies m
    ensures P.Runs(s, plan, t) && m.tasks == t.tasks && t.workers == s.workers
    ensures r.Ok? <==> plan == [P.Tick(now, P.Cancel(id))]
  {
    r := m.Cancel(id, now);
    plan, t := [], s;
    if r.Ok? {
      OneStep(s, now, P.Cancel(id));
      plan, t := [P.Tick(now, P.Cancel(id))], P.Next(s, now, P.Cancel(id));
    }
  }

  method Retry(m: TaskManager, id: TaskId, now: Instant, ghost s: P.State)
    returns (r: Result<(), TaskError>, ghost plan: seq<P.Tick>, ghost t: P.State)
    requires m.tasks == s.tasks
    modifies m
    ensures P.Runs(s, plan, t) && m.tasks == t.tasks && t.workers == s.workers
    ensures r.Ok? <==> plan == [P.Tick(now, P.Retry(id))]
  {
    r := m.Retry(id, now);
    plan, t := [], s;
    if r.Ok? {
      OneStep(s, now, P.Retry(id));
      plan, t := [P.Tick(now, P.Retry(id))], P.Next(s, now, P.Retry(id));
    }
  }

  method RequeueRunning(m: TaskManager, now: Instant, ghost s: P.State)
    returns (ghost plan: seq<P.Tick>, ghost t: P.State)
    requires m.tasks == s.tasks
    modifies m
    ensures P.Runs(s, plan, t) && m.tasks == t.tasks && t.workers == s.workers
  {
    m.RequeueRunning();
    OneStep(s, now, P.Requeue);
    plan, t := [P.Tick(now, P.Requeue)], P.Next(s, now, P.Requeue);
  }

  // ---------------------------------------------------------------- one statement for many rows

  /** Cancelling many rows at once is cancelling the queued ones among them, one after the other. */
  lemma {:induction false} CancelRuns(s: P.State, ids: set<TaskId>, now: Instant) returns (plan: seq<P.Tick>)
    ensures P.Runs(s, plan, s.(tasks := CancelledAll(s.tasks, ids, now)))
    decreases |ids|
  {
    if ids == {} {
      plan := [];
      assert CancelledAll(s.tasks, ids, now) == s.tasks;
    } else {
      var id :| id in ids;
      var rest := ids - {id};
      if id in s.tasks && s.tasks[id].status == Queued {
        var t := P.Next(s, now, P.Cancel(id));
        var more := CancelRuns(t, rest, now);
        assert CancelledAll(t.tasks, rest, now) == CancelledAll(s.tasks, ids, now);
        P.RunsCons(s, now, P.Cancel(id), more, s.(tasks := CancelledAll(s.tasks, ids, now)));
        plan := [P.Tick(now, P.Cancel(id))] + more;
      } else {
        plan := CancelRuns(s, rest, now);
        assert CancelledAll(s.tasks, rest, now) == CancelledAll(s.tasks, ids, now);
      }
    }
  }

  method BatchCancel(m: TaskManager, ids: set<TaskId>, now: Instant, ghost s: P.State)
    returns (cancelled: nat, ghost plan: seq<P.Tick>, ghost t: P.State)
    requires m.tasks == s.tasks
    modifies m
    ensures P.Runs(s, plan, t) && m.tasks == t.tasks && t.workers == s.workers
  {
    cancelled := m.BatchCancel(ids, now);
    plan := CancelRuns(s, ids, now);
    t := s.(tasks := m.tasks);
  }
}
