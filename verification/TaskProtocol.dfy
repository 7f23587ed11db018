/** llm_service/runtime: workers, lease recovery, the API and restarts sharing one task table.
    Every SQL statement is one step; a run is any interleaving of steps. */
module TaskProtocol {
  import opened Common
  import opened TaskTable

  type WorkerId = nat

  /** Where a worker is in its task. `Rejected`: its attempt row violated UNIQUE (task_id, attempt_no). */
  datatype Pc =
    | Idle
    | Claimed(id: TaskId)
    | Numbered(id: TaskId, no: int)
    | Rejected(id: TaskId)
    | Attempted(id: TaskId, no: int)
    | Resulted(id: TaskId, no: int, good: bool)
    | Failing(id: TaskId, seen: Seen)

  datatype Found = Found(id: TaskId, seen: Seen)

  /** Where lease recovery is: the rows of its scan still to be failed, and the one being failed. */
  datatype Recovery = Recovery(found: seq<Found>, failing: Option<Found>)

  datatype ResultRow = ResultRow(id: TaskId, no: int, good: bool)

  datatype State = State(tasks: Table, attempts: set<(TaskId, int)>, results: seq<ResultRow>,
                         workers: seq<Pc>, recovery: Recovery, issued: set<TaskId>)

  datatype Step =
    | Submit(id: TaskId, maxAttempts: int, priority: int, domain: Option<string>, key: Option<string>)
    | SyncInsert(id: TaskId, ok: bool, maxAttempts: int, priority: int, domain: Option<string>, key: Option<string>, lease: Instant)
    | Claim(w: WorkerId, id: TaskId, lease: Instant)
    | ReadNumber(w: WorkerId)
    | InsertAttempt(w: WorkerId)
    | WriteResult(w: WorkerId, good: bool)
    | Complete(w: WorkerId)
    | FailRead(w: WorkerId)
    | FailWrite(w: WorkerId, retryAt: Instant)
    | Abandon(w: WorkerId)
    | Scan(expired: seq<TaskId>)
    | RecoverRead
    | RecoverWrite(retryAt: Instant)
    | Cancel(id: TaskId)
    | Retry(id: TaskId)
    | Requeue
    | Delete(ids: set<TaskId>)

  function Holds(pc: Pc): Option<TaskId> {
    if pc.Idle? then None else Some(pc.id)
  }

  /** The rows a scan returns, in the order of `expired`. */
  function FoundRows(t: Table, expired: seq<TaskId>): seq<Found>
    requires forall i :: 0 <= i < |expired| ==> expired[i] in t
  {
    seq(|expired|, i requires 0 <= i < |expired| => Found(expired[i], SeenIn(t[expired[i]])))
  }

  predicate Distinct(ids: seq<TaskId>) {
    forall i, j :: 0 <= i < j < |ids| ==> ids[i] != ids[j]
  }

  // ---------------------------------------------------------------- what the code allows

  /** The guards of the code itself. No statement of `complete` or `fail` looks at the status, `retry`
      writes without looking again, and a row may be deleted at any time. */
  predicate Enabled(s: State, now: Instant, step: Step) {
    match step
    case Submit(id, maxAttempts, _, _, _) => id !in s.issued && maxAttempts >= 1
    case SyncInsert(id, _, maxAttempts, _, _, _, _) => id !in s.issued && maxAttempts >= 1
    case Claim(w, id, _) => w < |s.workers| && s.workers[w].Idle? && Claimable(s.tasks, id, now)
    case ReadNumber(w) => w < |s.workers| && s.workers[w].Claimed? && s.workers[w].id in s.tasks
    case InsertAttempt(w) => w < |s.workers| && s.workers[w].Numbered? && s.workers[w].id in s.tasks
    case WriteResult(w, _) => w < |s.workers| && s.workers[w].Attempted? && s.workers[w].id in s.tasks
    case Complete(w) => w < |s.workers| && s.workers[w].Resulted? && s.workers[w].good
    case FailRead(w) => w < |s.workers| && !s.workers[w].Idle? && !s.workers[w].Failing?
    case FailWrite(w, _) => w < |s.workers| && s.workers[w].Failing?
    case Abandon(w) => w < |s.workers|
    case Scan(expired) =>
      && s.recovery == Recovery([], None) && Distinct(expired)
      && (forall i :: 0 <= i < |expired| ==>
            && expired[i] in s.tasks && s.tasks[expired[i]].status == Running
            && s.tasks[expired[i]].leaseExpiresAt.Some? && s.tasks[expired[i]].leaseExpiresAt.value < now)
    case RecoverRead => s.recovery.failing.None? && s.recovery.found != []
    case RecoverWrite(_) => s.recovery.failing.Some?
    case Cancel(id) => id in s.tasks && s.tasks[id].status == Queued
    case Retry(id) => id in s.tasks
    case Requeue => true
    case Delete(_) => true
  }

  function SetPc(s: State, w: WorkerId, pc: Pc): State
    requires w < |s.workers|
  {
    s.(workers := s.workers[w := pc])
  }

  function SetRow(s: State, id: TaskId, r: Row): State {
    s.(tasks := Update(s.tasks, id, r))
  }

  function Next(s: State, now: Instant, step: Step): State
    requires Enabled(s, now, step)
  {
    match step
    case Submit(id, maxAttempts, priority, domain, key) =>
      s.(tasks := s.tasks[id := NewRow(maxAttempts, priority, domain, key, now)], issued := s.issued + {id})
    case SyncInsert(id, ok, maxAttempts, priority, domain, key, lease) =>
      s.(tasks := s.tasks[id := NewRow(maxAttempts, if priority < 999 then 999 else priority, domain, key, now).(
                              status := if ok then Succeeded else Failed, attemptCount := 1, startedAt := Some(now),
                              finishedAt := Some(now), leaseExpiresAt := Some(lease))],
         attempts := s.attempts + {(id, 1)}, results := s.results + [ResultRow(id, 1, ok)],
         issued := s.issued + {id})
    case Claim(w, id, lease) =>
      SetPc(SetRow(s, id, ClaimedRow(s.tasks[id], now, lease)), w, Claimed(id))
    case ReadNumber(w) =>
      SetPc(s, w, Numbered(s.workers[w].id, s.tasks[s.workers[w].id].attemptCount + 1))
    case InsertAttempt(w) =>
      var id, no := s.workers[w].id, s.workers[w].no;
      if (id, no) in s.attempts then SetPc(s, w, Rejected(id))
      else SetPc(s.(attempts := s.attempts + {(id, no)}), w, Attempted(id, no))
    case WriteResult(w, good) =>
      var id, no := s.workers[w].id, s.workers[w].no;
      SetPc(s.(results := s.results + [ResultRow(id, no, good)]), w, Resulted(id, no, good))
    case Complete(w) =>
      var id := s.workers[w].id;
      SetPc(if id in s.tasks then SetRow(s, id, CompletedRow(s.tasks[id], now)) else s, w, Idle)
    case FailRead(w) =>
      var id := s.workers[w].id;
      SetPc(s, w, if id in s.tasks then Failing(id, SeenIn(s.tasks[id])) else Idle)
    case FailWrite(w, retryAt) =>
      SetPc(WriteFailure(s, s.workers[w].id, s.workers[w].seen, now, retryAt), w, Idle)
    case Abandon(w) => SetPc(s, w, Idle)
    case Scan(expired) => s.(recovery := Recovery(FoundRows(s.tasks, expired), None))
    case RecoverRead =>
      var f := s.recovery.found[0];
      s.(recovery := Recovery(s.recovery.found[1..],
           if f.id in s.tasks then Some(Found(f.id, SeenIn(s.tasks[f.id]))) else None))
    case RecoverWrite(retryAt) =>
      var f := s.recovery.failing.value;
      WriteFailure(s, f.id, f.seen, now, retryAt).(recovery := Recovery(s.recovery.found, None))
    case Cancel(id) => SetRow(s, id, CancelledRow(s.tasks[id], now))
    case Retry(id) => SetRow(s, id, RetriedRow(s.tasks[id], now))
    case Requeue => s.(tasks := Requeued(s.tasks))
    case Delete(ids) =>
      s.(tasks := s.tasks - ids, attempts := (set a | a in s.attempts && a.0 !in ids), results := Kept(s.results, ids))
  }

  function WriteFailure(s: State, id: TaskId, seen: Seen, now: Instant, retryAt: Instant): State {
    if id in s.tasks then SetRow(s, id, FailedRow(s.tasks[id], seen, now, retryAt)) else s
  }

  /** The synchronous path writes a finished task, its one attempt and the result of it in one go. */
  lemma SyncIsFinished(s: State, now: Instant, step: Step)
    requires step.SyncInsert? && Enabled(s, now, step)
    ensures var t := Next(s, now, step);
            && step.id in t.tasks && t.issued == s.issued + {step.id} && t.workers == s.workers
            && (forall id :: id != step.id ==> (id in t.tasks <==> id in s.tasks) && (id in s.tasks ==> t.tasks[id] == s.tasks[id]))
            && var r := t.tasks[step.id];
               && r.attemptCount == 1 && r.maxAttempts == step.maxAttempts
               && r.priority >= 999 && r.priority >= step.priority && r.priority in {999, step.priority}
               && (r.status == Succeeded <==> step.ok) && (r.status == Failed <==> !step.ok)
               && r.createdAt == now && r.startedAt == r.finishedAt == Some(now)
               && r.domain == step.domain && r.idempotencyKey == step.key
               && t.attempts == s.attempts + {(step.id, 1)} && t.results == s.results + [ResultRow(step.id, 1, step.ok)]
  {
  }

  /** Deleting a task deletes its results with it. */
  function Kept(results: seq<ResultRow>, ids: set<TaskId>): seq<ResultRow> {
    if results == [] then []
    else if results[0].id in ids then Kept(results[1..], ids)
    else [results[0]] + Kept(results[1..], ids)
  }

  function Init(concurrency: nat): State {
    State(map[], {}, [], seq(concurrency, _ => Idle), Recovery([], None), {})
  }

  /** A timed schedule from an empty table. */
  ghost predicate IsRun(concurrency: nat, states: seq<State>, times: seq<Instant>, steps: seq<Step>) {
    && |states| == |steps| + 1 && |times| == |steps| && states[0] == Init(concurrency)
    && forall i :: 0 <= i < |steps| ==>
         Enabled(states[i], times[i], steps[i]) && states[i + 1] == Next(states[i], times[i], steps[i])
  }

  // ---------------------------------------------------------------- continuations

  datatype Tick = Tick(now: Instant, step: Step)

  /** `plan` is a continuation from `s` to `t` that the code allows, sound leases or not. */
  ghost predicate Runs(s: State, plan: seq<Tick>, t: State)
    decreases |plan|
  {
    if plan == [] then s == t
    else Enabled(s, plan[0].now, plan[0].step) && Runs(Next(s, plan[0].now, plan[0].step), plan[1..], t)
  }

  lemma RunsCons(s: State, now: Instant, step: Step, plan: seq<Tick>, t: State)
    requires Enabled(s, now, step) && Runs(Next(s, now, step), plan, t)
    ensures Runs(s, [Tick(now, step)] + plan, t)
  {
    assert ([Tick(now, step)] + plan)[1..] == plan;
  }

  lemma {:induction false} RunsThrough(s: State, p: seq<Tick>, t: State, q: seq<Tick>, u: State)
    requires Runs(s, p, t) && Runs(t, q, u)
    ensures Runs(s, p + q, u)
    decreases |p|
  {
    if p == [] {
      assert p + q == q;
    } else {
      RunsThrough(Next(s, p[0].now, p[0].step), p[1..], t, q, u);
      RunsCons(s, p[0].now, p[0].step, p[1..] + q, u);
      assert p + q == [Tick(p[0].now, p[0].step)] + (p[1..] + q);
    }
  }
}
