/** llm_service/runtime: what goes wrong when a lease expires under a worker that is still acting. */
module LateWorkers {
  import opened Common
  import opened TaskTable
  import opened TaskProtocol

  predicate Holding(s: State, w: nat, id: TaskId, status: Status) {
    w < |s.workers| && id in s.tasks && s.workers[w] == Claimed(id) && s.tasks[id].status == status
  }

  /** A worker holds the task; its lease has run out and recovery has queued the task again. */
  lemma Recovered(s: State, id: TaskId, w: nat, now: Instant) returns (plan: seq<Tick>, t: State)
    requires Holding(s, w, id, Running) && s.recovery == Recovery([], None)
    requires s.tasks[id].leaseExpiresAt.Some? && s.tasks[id].leaseExpiresAt.value < now
    requires s.tasks[id].attemptCount + 1 < s.tasks[id].maxAttempts
    ensures Runs(s, plan, t) && Holding(t, w, id, Queued) && t.workers == s.workers && t.attempts == s.attempts
    ensures t.tasks[id].attemptCount == s.tasks[id].attemptCount + 1 && t.tasks[id].maxAttempts == s.tasks[id].maxAttempts
    ensures t.tasks[id].availableAt == now
  {
    var a := Next(s, now, Scan([id]));
    assert a.recovery.found == [Found(id, SeenIn(s.tasks[id]))];
    var b := Next(a, now, RecoverRead);
    t := Next(b, now, RecoverWrite(now));
    assert Runs(t, [], t);
    RunsCons(b, now, RecoverWrite(now), [], t);
    RunsCons(a, now, RecoverRead, [Tick(now, RecoverWrite(now))] + [], t);
    var rest := [Tick(now, RecoverRead)] + ([Tick(now, RecoverWrite(now))] + []);
    RunsCons(s, now, Scan([id]), rest, t);
    plan := [Tick(now, Scan([id]))] + rest;
  }

  lemma Finish(s: State, id: TaskId, w: nat, now: Instant) returns (plan: seq<Tick>, t: State)
    requires w < |s.workers| && id in s.tasks && s.workers[w] == Numbered(id, s.tasks[id].attemptCount + 1)
    requires (id, s.tasks[id].attemptCount + 1) !in s.attempts
    ensures Runs(s, plan, t) && id in t.tasks && t.tasks[id] == CompletedRow(s.tasks[id], now)
    ensures t.workers == s.workers[w := Idle]
  {
    var a := Next(s, now, InsertAttempt(w));
    var b := Next(a, now, WriteResult(w, true));
    t := Next(b, now, Complete(w));
    assert Runs(t, [], t);
    RunsCons(b, now, Complete(w), [], t);
    RunsCons(a, now, WriteResult(w, true), [Tick(now, Complete(w))] + [], t);
    var rest := [Tick(now, WriteResult(w, true))] + ([Tick(now, Complete(w))] + []);
    RunsCons(s, now, InsertAttempt(w), rest, t);
    plan := [Tick(now, InsertAttempt(w))] + rest;
    assert t.workers == s.workers[w := Idle];
  }

  /** A second worker claims the task and completes it. */
  lemma Overtaken(s: State, id: TaskId, w: nat, v: nat, now: Instant) returns (plan: seq<Tick>, t: State)
    requires Holding(s, w, id, Queued) && s.tasks[id].availableAt <= now
    requires v < |s.workers| && v != w && s.workers[v].Idle?
    requires (id, s.tasks[id].attemptCount + 1) !in s.attempts
    ensures Runs(s, plan, t) && Holding(t, w, id, Succeeded)
    ensures t.tasks[id].attemptCount == s.tasks[id].attemptCount + 1 && t.tasks[id].maxAttempts == s.tasks[id].maxAttempts
  {
    var a := Next(s, now, Claim(v, id, now + 300.0));
    var b := Next(a, now, ReadNumber(v));
    var rest;
    rest, t := Finish(b, id, v, now);
    RunsCons(a, now, ReadNumber(v), rest, t);
    RunsCons(s, now, Claim(v, id, now + 300.0), [Tick(now, ReadNumber(v))] + rest, t);
    plan := [Tick(now, Claim(v, id, now + 300.0))] + ([Tick(now, ReadNumber(v))] + rest);
  }

  /** The late worker's `fail`, which looks at the counts only, queues or buries the succeeded task. */
  lemma LateFail(s: State, id: TaskId, w: nat, now: Instant) returns (plan: seq<Tick>, t: State)
    requires Holding(s, w, id, Succeeded)
    ensures Runs(s, plan, t) && id in t.tasks
    ensures t.tasks[id].status == if s.tasks[id].attemptCount + 1 < s.tasks[id].maxAttempts then Queued else DeadLetter
  {
    var a := Next(s, now, FailRead(w));
    t := Next(a, now, FailWrite(w, now));
    assert Runs(t, [], t);
    RunsCons(a, now, FailWrite(w, now), [], t);
    RunsCons(s, now, FailRead(w), [Tick(now, FailWrite(w, now))] + [], t);
    plan := [Tick(now, FailRead(w))] + ([Tick(now, FailWrite(w, now))] + []);
  }

  lemma FirstClaim(id: TaskId, maxAttempts: int) returns (plan: seq<Tick>, t: State)
    requires maxAttempts >= 1
    ensures Runs(Init(2), plan, t) && Holding(t, 0, id, Running) && t.recovery == Recovery([], None)
    ensures |t.workers| == 2 && t.workers[1].Idle? && t.attempts == {}
    ensures t.tasks[id].attemptCount == 0 && t.tasks[id].maxAttempts == maxAttempts
    ensures t.tasks[id].leaseExpiresAt == Some(300.0)
  {
    var submit := Submit(id, maxAttempts, 100, None, None);
    var s := Next(Init(2), 0.0, submit);
    t := Next(s, 0.0, Claim(0, id, 300.0));
    assert Runs(t, [], t);
    RunsCons(s, 0.0, Claim(0, id, 300.0), [], t);
    RunsCons(Init(2), 0.0, submit, [Tick(0.0, Claim(0, id, 300.0))] + [], t);
    plan := [Tick(0.0, submit)] + ([Tick(0.0, Claim(0, id, 300.0))] + []);
  }

  /** Without sound leases success is not final: two workers and a second attempt are enough for a task
      to succeed and then be dead-lettered, or queued again if it has attempts left. */
  lemma SuccessCanBeUndone(id: TaskId, maxAttempts: int)
    returns (before: seq<Tick>, done: State, after: seq<Tick>, undone: State)
    requires maxAttempts >= 2
    ensures Runs(Init(2), before, done) && id in done.tasks && done.tasks[id].status == Succeeded
    ensures Runs(done, after, undone) && id in undone.tasks && undone.tasks[id].status == (if maxAttempts >= 4 then Queued else DeadLetter)
  {
    var p, s := FirstClaim(id, maxAttempts);
    var q, r := Recovered(s, id, 0, 301.0);
    var u;
    u, done := Overtaken(r, id, 0, 1, 301.0);
    RunsThrough(r, [], r, u, done);
    RunsThrough(s, q, r, u, done);
    RunsThrough(Init(2), p, s, q + u, done);
    before := p + (q + u);
    after, undone := LateFail(done, id, 0, 302.0);
  }
}
