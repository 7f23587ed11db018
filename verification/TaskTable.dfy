/** llm_service/runtime/task_manager.py and llm_service/api/tasks.py: the task table and the
    statements that change it. */
module TaskTable {
  import opened Common

  type TaskId = string
  type Instant = real

  datatype Status = Queued | Running | Succeeded | Failed | DeadLetter | Cancelled

  datatype Row = Row(status: Status, attemptCount: int, maxAttempts: int, priority: int,
                     createdAt: Instant, availableAt: Instant,
                     startedAt: Option<Instant>, leaseExpiresAt: Option<Instant>, finishedAt: Option<Instant>,
                     domain: Option<string>, idempotencyKey: Option<string>)

  type Table = map<TaskId, Row>

  /** What `fail` reads before it writes. */
  datatype Seen = Seen(attemptCount: int, maxAttempts: int)

  predicate Terminal(s: Status) {
    s == Succeeded || s == Failed || s == DeadLetter || s == Cancelled
  }

  predicate Retryable(s: Status) {
    s == Failed || s == DeadLetter || s == Cancelled
  }

  // ---------------------------------------------------------------- one statement on one row

  function NewRow(maxAttempts: int, priority: int, domain: Option<string>, key: Option<string>, now: Instant): Row {
    Row(Queued, 0, maxAttempts, priority, now, now, None, None, None, domain, key)
  }

  function ClaimedRow(r: Row, now: Instant, lease: Instant): Row {
    r.(status := Running, startedAt := Some(now), leaseExpiresAt := Some(lease))
  }

  function CompletedRow(r: Row, now: Instant): Row {
    r.(status := Succeeded, attemptCount := r.attemptCount + 1, finishedAt := Some(now))
  }

  function SeenIn(r: Row): Seen {
    Seen(r.attemptCount, r.maxAttempts)
  }

  /** The second statement of `fail`: it writes what the first one read, whatever the row is now. */
  function FailedRow(r: Row, seen: Seen, now: Instant, retryAt: Instant): Row {
    var n := seen.attemptCount + 1;
    if n < seen.maxAttempts then r.(status := Queued, attemptCount := n, availableAt := retryAt)
    else r.(status := DeadLetter, attemptCount := n, finishedAt := Some(now))
  }

  function CancelledRow(r: Row, now: Instant): Row {
    r.(status := Cancelled, finishedAt := Some(now))
  }

  function RetriedRow(r: Row, now: Instant): Row {
    r.(status := Queued, attemptCount := 0, availableAt := now, startedAt := None, finishedAt := None,
       leaseExpiresAt := None)
  }

  function RequeuedRow(r: Row): Row {
    if r.status == Running then r.(status := Queued, leaseExpiresAt := None) else r
  }

  // ---------------------------------------------------------------- one statement on the table

  predicate Claimable(t: Table, id: TaskId, now: Instant) {
    id in t && t[id].status == Queued && t[id].availableAt <= now
  }

  /** `ORDER BY priority DESC, created_at ASC`. */
  predicate NotAfter(a: Row, b: Row) {
    a.priority > b.priority || (a.priority == b.priority && a.createdAt <= b.createdAt)
  }

  ghost predicate FirstInLine(t: Table, id: TaskId, now: Instant) {
    Claimable(t, id, now) && forall other :: Claimable(t, other, now) ==> NotAfter(t[id], t[other])
  }

  function Update(t: Table, id: TaskId, r: Row): Table {
    if id in t then t[id := r] else t
  }

  function Requeued(t: Table): Table {
    map id | id in t :: RequeuedRow(t[id])
  }

  function CancelledAll(t: Table, ids: set<TaskId>, now: Instant): Table {
    map id | id in t :: if id in ids && t[id].status == Queued then CancelledRow(t[id], now) else t[id]
  }

  function Power(base: real, n: nat): real {
    if n == 0 then 1.0 else base * Power(base, n - 1)
  }

  /** `min(base ** n, max)` seconds. */
  function Backoff(base: real, max: real, n: nat): real {
    if Power(base, n) <= max then Power(base, n) else max
  }

  datatype Event = Event(id: TaskId, kind: EventKind)
  datatype EventKind = EvSubmitted | EvClaimed | EvSucceeded | EvRetried | EvDeadLetter | EvCancelled

  datatype TaskError = NotFound | NotQueued | NotRetryable(status: Status)

  /** The manager and the endpoints that share its table. Every method is one uninterrupted call;
      `TaskProtocol` interleaves their statements. */
  class TaskManager {
    var tasks: Table
    var events: seq<Event>
    const leaseDuration: real
    const backoffBase: real
    const backoffMax: real

    constructor (leaseDuration: real, backoffBase: real, backoffMax: real)
      ensures tasks == map[] && events == []
      ensures this.leaseDuration == leaseDuration && this.backoffBase == backoffBase && this.backoffMax == backoffMax
    {
      this.leaseDuration := leaseDuration;
      this.backoffBase := backoffBase;
      this.backoffMax := backoffMax;
      tasks := map[];
      events := [];
    }

    method Submit(id: TaskId, maxAttempts: int, priority: int, domain: Option<string>, key: Option<string>, now: Instant)
      requires id !in tasks
      modifies this
      ensures tasks == old(tasks)[id := NewRow(maxAttempts, priority, domain, key, now)]
      ensures events == old(events) + [Event(id, EvSubmitted)]
      ensures tasks[id].attemptCount == 0 && tasks[id].maxAttempts == maxAttempts && tasks[id].priority == priority
      ensures tasks[id].createdAt == now && tasks[id].finishedAt.None? && tasks[id].domain == domain && tasks[id].idempotencyKey == key
      ensures forall later :: Claimable(tasks, id, later) <==> later >= now
    {
      tasks := tasks[id := NewRow(maxAttempts, priority, domain, key, now)];
      events := events + [Event(id, EvSubmitted)];
    }

    /** Takes the first task in line, if any task can be claimed. */
    method Claim(now: Instant) returns (claimed: Option<TaskId>)
      modifies this
      ensures claimed.None? ==> tasks == old(tasks) && events == old(events)
                                && forall id :: id in tasks && tasks[id].status == Queued ==> tasks[id].availableAt > now
      ensures claimed.Some? ==>
                && FirstInLine(old(tasks), claimed.value, now)
                && old(tasks)[claimed.value].status == Queued && old(tasks)[claimed.value].availableAt <= now
                && (forall id :: id in old(tasks) && old(tasks)[id].status == Queued && old(tasks)[id].availableAt <= now ==>
                      || old(tasks)[id].priority < old(tasks)[claimed.value].priority
                      || (old(tasks)[id].priority == old(tasks)[claimed.value].priority
                          && old(tasks)[id].createdAt >= old(tasks)[claimed.value].createdAt))
                && tasks == old(tasks)[claimed.value := ClaimedRow(old(tasks)[claimed.value], now, now + leaseDuration)]
                && events == old(events) + [Event(claimed.value, EvClaimed)]
                && tasks[claimed.value] == old(tasks)[claimed.value].(status := Running, startedAt := Some(now),
                                                                      leaseExpiresAt := Some(now + leaseDuration))
    {
      var line := set id | id in tasks && Claimable(tasks, id, now);
      if line == {} {
        assert forall id :: Claimable(tasks, id, now) ==> id in line;
        assert forall id :: id in tasks && tasks[id].status == Queued && tasks[id].availableAt <= now ==> Claimable(tasks, id, now);
        return None;
      }
      LineHasFirst(tasks, line);
      var id :| id in line && forall other :: other in line ==> NotAfter(tasks[id], tasks[other]);
      assert forall other :: Claimable(tasks, other, now) ==> other in line;
      assert forall other :: other in tasks && tasks[other].status == Queued && tasks[other].availableAt <= now ==>
                               Claimable(tasks, other, now) && NotAfter(tasks[id], tasks[other]);
      tasks := tasks[id := ClaimedRow(tasks[id], now, now + leaseDuration)];
      events := events + [Event(id, EvClaimed)];
      return Some(id);
    }

    method Complete(id: TaskId, now: Instant)
      modifies this
      ensures tasks == if id in old(tasks) then old(tasks)[id := CompletedRow(old(tasks)[id], now)] else old(tasks)
      ensures events == old(events) + [Event(id, EvSucceeded)]
      ensures id in old(tasks) ==>
                tasks[id] == old(tasks)[id].(status := Succeeded, attemptCount := old(tasks)[id].attemptCount + 1,
                                             finishedAt := Some(now))
    {
      if id in tasks {
        tasks := tasks[id := CompletedRow(tasks[id], now)];
      }
      events := events + [Event(id, EvSucceeded)];
    }

    method Fail(id: TaskId, now: Instant)
      requires id in tasks ==> tasks[id].attemptCount >= 0
      modifies this
      ensures id !in old(tasks) ==> tasks == old(tasks) && events == old(events)
      ensures id in old(tasks) ==>
                var r := old(tasks)[id];
                var n := r.attemptCount + 1;
                && tasks == old(tasks)[id := FailedRow(r, SeenIn(r), now, now + Backoff(backoffBase, backoffMax, n))]
                && events == old(events) + [Event(id, if n < r.maxAttempts then EvRetried else EvDeadLetter)]
      ensures id in old(tasks) ==> id in tasks && tasks[id].attemptCount == old(tasks)[id].attemptCount + 1
      ensures id in old(tasks) && old(tasks)[id].attemptCount + 1 < old(tasks)[id].maxAttempts ==>
                var power := Power(backoffBase, old(tasks)[id].attemptCount + 1);
                && tasks[id].availableAt == now + (if power <= backoffMax then power else backoffMax)
                && forall later :: Claimable(tasks, id, later) <==> later >= tasks[id].availableAt
      ensures id in old(tasks) && old(tasks)[id].attemptCount + 1 >= old(tasks)[id].maxAttempts ==>
                && tasks[id].status == DeadLetter && tasks[id].finishedAt == Some(now)
                && forall later :: !Claimable(tasks, id, later)
    {
      if id !in tasks {
        return;
      }
      var seen := SeenIn(tasks[id]);
      var newCount := seen.attemptCount + 1;
      if newCount < seen.maxAttempts {
        var available := now + Backoff(backoffBase, backoffMax, newCount);
        tasks := tasks[id := tasks[id].(status := Queued, attemptCount := newCount, availableAt := available)];
        events := events + [Event(id, EvRetried)];
      } else {
        tasks := tasks[id := tasks[id].(status := DeadLetter, attemptCount := newCount, finishedAt := Some(now))];
        events := events + [Event(id, EvDeadLetter)];
      }
    }

    method Cancel(id: TaskId, now: Instant) returns (r: Result<(), TaskError>)
      modifies this
      ensures r.Ok? <==> id in old(tasks) && old(tasks)[id].status == Queued
      ensures r.Ok? ==> tasks == old(tasks)[id := CancelledRow(old(tasks)[id], now)]
                        && events == old(events) + [Event(id, EvCancelled)]
                        && tasks[id] == old(tasks)[id].(status := Cancelled, finishedAt := Some(now))
      ensures r.Err? ==> r.error == NotQueued && tasks == old(tasks) && events == old(events)
    {
      if id !in tasks || tasks[id].status != Queued {
        return Err(NotQueued);
      }
      tasks := tasks[id := CancelledRow(tasks[id], now)];
      events := events + [Event(id, EvCancelled)];
      return Ok(());
    }

    /** `retry_task`: its read and its write taken as one step. */
    method Retry(id: TaskId, now: Instant) returns (r: Result<(), TaskError>)
      modifies this
      ensures id !in old(tasks) ==> r == Err(NotFound)
      ensures r.Ok? <==> id in old(tasks) && old(tasks)[id].status in {Failed, DeadLetter, Cancelled}
      ensures id in old(tasks) && !Retryable(old(tasks)[id].status) ==> r == Err(NotRetryable(old(tasks)[id].status))
      ensures id in old(tasks) && Retryable(old(tasks)[id].status) ==>
                && r.Ok? && tasks == old(tasks)[id := RetriedRow(old(tasks)[id], now)]
                && events == old(events) + [Event(id, EvSubmitted)]
      ensures r.Ok? ==>
                && tasks[id] == old(tasks)[id].(status := Queued, attemptCount := 0, availableAt := now, startedAt := None,
                                                finishedAt := None, leaseExpiresAt := None)
                && forall later :: Claimable(tasks, id, later) <==> later >= now
      ensures r.Err? ==> tasks == old(tasks) && events == old(events)
    {
      if id !in tasks {
        return Err(NotFound);
      }
      if !Retryable(tasks[id].status) {
        return Err(NotRetryable(tasks[id].status));
      }
      tasks := tasks[id := RetriedRow(tasks[id], now)];
      events := events + [Event(id, EvSubmitted)];
      return Ok(());
    }

    /** `batch_cancel_tasks`: one statement, no events, and the number of rows it changed. */
    method BatchCancel(ids: set<TaskId>, now: Instant) returns (cancelled: nat)
      modifies this`tasks
      ensures tasks == CancelledAll(old(tasks), ids, now)
      ensures cancelled == |set id | id in old(tasks) && id in ids && old(tasks)[id].status == Queued|
      ensures forall id :: id in tasks && id in ids ==> tasks[id].status != Queued
      ensures forall id :: id in tasks ==>
                tasks[id] == if id in ids && old(tasks)[id].status == Queued
                             then old(tasks)[id].(status := Cancelled, finishedAt := Some(now)) else old(tasks)[id]
    {
      cancelled := |set id | id in tasks && id in ids && tasks[id].status == Queued|;
      tasks := CancelledAll(tasks, ids, now);
    }

    /** The statement of startup and shutdown. */
    method RequeueRunning()
      modifies this`tasks
      ensures tasks == Requeued(old(tasks))
      ensures forall id :: id in tasks ==> tasks[id].status != Running
      ensures forall id :: id in tasks ==>
                tasks[id] == if old(tasks)[id].status == Running then old(tasks)[id].(status := Queued, leaseExpiresAt := None)
                             else old(tasks)[id]
    {
      tasks := Requeued(tasks);
    }
  }

  /** A non-empty line has a first task. */
  lemma {:induction false} LineHasFirst(t: Table, line: set<TaskId>)
    requires line != {} && forall id :: id in line ==> id in t
    ensures exists id :: id in line && forall other :: other in line ==> NotAfter(t[id], t[other])
    decreases |line|
  {
    var one :| one in line;
    var rest := line - {one};
    if rest == {} {
      assert line == {one};
    } else {
      LineHasFirst(t, rest);
      var best :| best in rest && forall other :: other in rest ==> NotAfter(t[best], t[other]);
      var first := if NotAfter(t[one], t[best]) then one else best;
      forall other | other in line ensures NotAfter(t[first], t[other]) {
        assert other == one || other in rest;
      }
    }
  }

  /** Waiting never shrinks as failures mount up, and never exceeds the ceiling. */
  lemma {:induction false} BackoffGrows(base: real, max: real, m: nat, n: nat)
    requires base >= 1.0 && m <= n
    ensures Backoff(base, max, m) <= Backoff(base, max, n) <= max
  {
    PowerGrows(base, m, n);
  }

  /** `Power` is exponentiation. */
  lemma {:induction false} PowerAdds(base: real, m: nat, n: nat)
    ensures Power(base, 1) == base && Power(base, m + n) == Power(base, m) * Power(base, n)
  {
    assert Power(base, 0) == 1.0;
    if m > 0 {
      PowerAdds(base, m - 1, n);
      var a, b := Power(base, m - 1), Power(base, n);
      assert Power(base, m + n) == base * (a * b);
      assert base * (a * b) == (base * a) * b;
    }
  }

  lemma {:induction false} PowerGrows(base: real, m: nat, n: nat)
    requires base >= 1.0 && m <= n
    ensures 1.0 <= Power(base, m) <= Power(base, n)
    decreases n
  {
    if n > 0 {
      PowerGrows(base, if m == n then n - 1 else m, n - 1);
      assert base * Power(base, n - 1) >= Power(base, n - 1);
    }
  }
}
