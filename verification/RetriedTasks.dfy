/** llm_service/api/tasks.py, `retry_task`, against UNIQUE (task_id, attempt_no): `retry` sets the
    attempt count back to zero but leaves the attempt rows, so numbers that were used stay used. */
module RetriedTasks {
  import opened TaskTable
  import opened EveryInterleaving
  import opened TaskProtocol
  import opened SoundLeases

  datatype Timed = Timed(now: Instant, move: Move)

  /** `plan` is a sound continuation from `s` to `t`. */
  ghost predicate Leads(s: State, plan: seq<Timed>, t: State)
    decreases |plan|
  {
    if plan == [] then s == t
    else SoundMove(s, plan[0].now, plan[0].move) && Leads(After(s, plan[0].now, plan[0].move), plan[1..], t)
  }

  predicate HasSucceeded(s: State, id: TaskId) {
    id in s.tasks && s.tasks[id].status == Succeeded
  }

  ghost predicate CanSucceed(s: State, id: TaskId) {
    exists plan, t :: Leads(s, plan, t) && HasSucceeded(t, id)
  }

  lemma LeadsCons(s: State, now: Instant, m: Move, plan: seq<Timed>, t: State)
    requires SoundMove(s, now, m) && Leads(After(s, now, m), plan, t)
    ensures Leads(s, [Timed(now, m)] + plan, t)
  {
    assert ([Timed(now, m)] + plan)[1..] == plan;
  }

  // ---------------------------------------------------------------- all numbers used

  predicate BeyondInsert(pc: Pc, id: TaskId) {
    (pc.Attempted? || pc.Resulted?) && pc.id == id
  }

  /** The task has not succeeded, every number it may use is taken, and no attempt of it is under way. */
  ghost predicate Spent(s: State, id: TaskId) {
    && !HasSucceeded(s, id)
    && (forall w :: 0 <= w < |s.workers| ==> !BeyondInsert(s.workers[w], id))
    && (id in s.tasks ==> forall n :: 1 <= n <= s.tasks[id].maxAttempts ==> (id, n) in s.attempts)
  }

  lemma InsertIsRejected(s: State, now: Instant, w: nat, id: TaskId)
    requires SoundInv(s) && Enabled(s, now, InsertAttempt(w)) && Spent(s, id) && s.workers[w].id == id
    ensures Next(s, now, InsertAttempt(w)).workers[w].Rejected?
  {
    assert OwnerFits(s, s.workers[w]) && CountsFit(s.tasks[id]);
  }

  lemma SpentKept(s: State, now: Instant, m: Move, id: TaskId)
    requires SoundInv(s) && SoundMove(s, now, m) && Spent(s, id) && id in s.issued
    ensures Spent(After(s, now, m), id) && id in After(s, now, m).issued
  {
    if m.One? && m.step.InsertAttempt? && s.workers[m.step.w].id == id {
      InsertIsRejected(s, now, m.step.w, id);
    }
  }

  lemma {:induction false} SpentForGood(s: State, plan: seq<Timed>, t: State, id: TaskId)
    requires SoundInv(s) && Leads(s, plan, t) && Spent(s, id) && id in s.issued
    ensures !HasSucceeded(t, id)
    decreases |plan|
  {
    if plan != [] {
      SpentKept(s, plan[0].now, plan[0].move, id);
      AfterSound(s, plan[0].now, plan[0].move);
      SpentForGood(After(s, plan[0].now, plan[0].move), plan[1..], t, id);
    }
  }

  // ---------------------------------------------------------------- a number still free

  predicate InLine(s: State, id: TaskId, w: nat) {
    w < |s.workers| && s.workers[w].Idle? && id in s.tasks && s.tasks[id].status == Queued
  }

  function Claimed1(s: State, id: TaskId, w: nat): State
    requires InLine(s, id, w)
  {
    After(s, s.tasks[id].availableAt, One(Claim(w, id, 0.0)))
  }

  /** Claim the task and fail it before an attempt row is written, as when no provider is configured. */
  lemma FailEarly(s: State, id: TaskId, w: nat) returns (plan: seq<Timed>, t: State)
    requires InLine(s, id, w) && s.tasks[id].attemptCount + 1 < s.tasks[id].maxAttempts
    ensures Leads(s, plan, t) && InLine(t, id, w) && t.attempts == s.attempts
    ensures t.tasks[id].attemptCount == s.tasks[id].attemptCount + 1 && t.tasks[id].maxAttempts == s.tasks[id].maxAttempts
  {
    var now := s.tasks[id].availableAt;
    var a := Claimed1(s, id, w);
    var b := After(a, now, One(FailRead(w)));
    t := After(b, now, One(FailWrite(w, now)));
    assert Leads(t, [], t);
    LeadsCons(b, now, One(FailWrite(w, now)), [], t);
    var last := [Timed(now, One(FailWrite(w, now)))] + [];
    LeadsCons(a, now, One(FailRead(w)), last, t);
    LeadsCons(s, now, One(Claim(w, id, 0.0)), [Timed(now, One(FailRead(w)))] + last, t);
    plan := [Timed(now, One(Claim(w, id, 0.0)))] + ([Timed(now, One(FailRead(w)))] + last);
  }

  lemma InsertAndWrite(s: State, id: TaskId, w: nat, now: Instant) returns (plan: seq<Timed>, t: State)
    requires w < |s.workers| && id in s.tasks && s.workers[w] == Numbered(id, s.tasks[id].attemptCount + 1)
    requires (id, s.tasks[id].attemptCount + 1) !in s.attempts
    ensures Leads(s, plan, t) && HasSucceeded(t, id)
  {
    var a := After(s, now, One(InsertAttempt(w)));
    var b := After(a, now, One(WriteResult(w, true)));
    t := After(b, now, One(Complete(w)));
    assert Leads(t, [], t);
    LeadsCons(b, now, One(Complete(w)), [], t);
    var last := [Timed(now, One(Complete(w)))] + [];
    LeadsCons(a, now, One(WriteResult(w, true)), last, t);
    LeadsCons(s, now, One(InsertAttempt(w)), [Timed(now, One(WriteResult(w, true)))] + last, t);
    plan := [Timed(now, One(InsertAttempt(w)))] + ([Timed(now, One(WriteResult(w, true)))] + last);
  }

  lemma SucceedNow(s: State, id: TaskId, w: nat) returns (plan: seq<Timed>, t: State)
    requires InLine(s, id, w) && (id, s.tasks[id].attemptCount + 1) !in s.attempts
    ensures Leads(s, plan, t) && HasSucceeded(t, id)
  {
    var now := s.tasks[id].availableAt;
    var a := Claimed1(s, id, w);
    var b := After(a, now, One(ReadNumber(w)));
    var rest;
    rest, t := InsertAndWrite(b, id, w, now);
    LeadsCons(a, now, One(ReadNumber(w)), rest, t);
    LeadsCons(s, now, One(Claim(w, id, 0.0)), [Timed(now, One(ReadNumber(w)))] + rest, t);
    plan := [Timed(now, One(Claim(w, id, 0.0)))] + ([Timed(now, One(ReadNumber(w)))] + rest);
  }

  lemma {:induction false} LeadsThrough(s: State, p: seq<Timed>, t: State, q: seq<Timed>, u: State)
    requires Leads(s, p, t) && Leads(t, q, u)
    ensures Leads(s, p + q, u)
    decreases |p|
  {
    if p == [] {
      assert p + q == q;
    } else {
      var next := After(s, p[0].now, p[0].move);
      LeadsThrough(next, p[1..], t, q, u);
      LeadsCons(s, p[0].now, p[0].move, p[1..] + q, u);
      assert p + q == [Timed(p[0].now, p[0].move)] + (p[1..] + q);
    }
  }

  lemma {:induction false} FreeNumberSucceeds(s: State, id: TaskId, w: nat, n: int) returns (plan: seq<Timed>, t: State)
    requires InLine(s, id, w) && s.tasks[id].attemptCount < n <= s.tasks[id].maxAttempts && (id, n) !in s.attempts
    ensures Leads(s, plan, t) && HasSucceeded(t, id)
    decreases n - s.tasks[id].attemptCount
  {
    if n == s.tasks[id].attemptCount + 1 {
      plan, t := SucceedNow(s, id, w);
    } else {
      var p, u := FailEarly(s, id, w);
      var q;
      q, t := FreeNumberSucceeds(u, id, w, n);
      LeadsThrough(s, p, u, q, t);
      plan := p + q;
    }
  }

  // ---------------------------------------------------------------- the exact condition

  ghost predicate NumberFree(s: State, id: TaskId) {
    id in s.tasks && exists n :: 1 <= n <= s.tasks[id].maxAttempts && (id, n) !in s.attempts
  }

  /** A retried task can succeed, however it is scheduled and however often it is retried again, exactly
      when some attempt number within its limit was never used. */
  lemma RetriedCanSucceedIff(s: State, now: Instant, id: TaskId)
    requires SoundInv(s) && SoundMove(s, now, One(Retry(id))) && |s.workers| > 0
    ensures CanSucceed(After(s, now, One(Retry(id))), id) <==> NumberFree(s, id)
  {
    var r := After(s, now, One(Retry(id)));
    AfterSound(s, now, One(Retry(id)));
    if NumberFree(s, id) {
      var n :| 1 <= n <= s.tasks[id].maxAttempts && (id, n) !in s.attempts;
      var idle := After(r, now, Restart);
      var plan, t := FreeNumberSucceeds(idle, id, 0, n);
      LeadsCons(r, now, Restart, plan, t);
    } else {
      forall w | 0 <= w < |r.workers| ensures !BeyondInsert(r.workers[w], id) {
        assert OwnerFits(s, s.workers[w]);
      }
      assert id in r.issued by { assert CountsFit(s.tasks[id]); }
      assert Spent(r, id);
      forall plan, t | Leads(r, plan, t) ensures !HasSucceeded(t, id) {
        SpentForGood(r, plan, t, id);
      }
    }
  }

  // ---------------------------------------------------------------- how a task gets there

  /** Claim the task, insert its attempt, and fail it. */
  lemma FailLate(s: State, id: TaskId, w: nat) returns (plan: seq<Timed>, t: State)
    requires InLine(s, id, w) && (id, s.tasks[id].attemptCount + 1) !in s.attempts
    ensures Leads(s, plan, t) && t.attempts == s.attempts + {(id, s.tasks[id].attemptCount + 1)}
    ensures t.workers == s.workers && id in t.tasks && t.tasks[id].maxAttempts == s.tasks[id].maxAttempts
    ensures t.tasks[id].attemptCount == s.tasks[id].attemptCount + 1
    ensures t.tasks[id].status == if t.tasks[id].attemptCount < t.tasks[id].maxAttempts then Queued else DeadLetter
  {
    var now := s.tasks[id].availableAt;
    var a := Claimed1(s, id, w);
    var b := After(a, now, One(ReadNumber(w)));
    var c := After(b, now, One(InsertAttempt(w)));
    var rest;
    rest, t := ReadAndFail(c, id, w, now);
    LeadsCons(b, now, One(InsertAttempt(w)), rest, t);
    var p := [Timed(now, One(InsertAttempt(w)))] + rest;
    LeadsCons(a, now, One(ReadNumber(w)), p, t);
    LeadsCons(s, now, One(Claim(w, id, 0.0)), [Timed(now, One(ReadNumber(w)))] + p, t);
    plan := [Timed(now, One(Claim(w, id, 0.0)))] + ([Timed(now, One(ReadNumber(w)))] + p);
    assert t.workers == s.workers;
  }

  lemma ReadAndFail(s: State, id: TaskId, w: nat, now: Instant) returns (plan: seq<Timed>, t: State)
    requires w < |s.workers| && s.workers[w].Attempted? && s.workers[w].id == id && id in s.tasks
    ensures Leads(s, plan, t) && t.attempts == s.attempts && t.workers == s.workers[w := Idle]
    ensures id in t.tasks && t.tasks[id].maxAttempts == s.tasks[id].maxAttempts
    ensures t.tasks[id].attemptCount == s.tasks[id].attemptCount + 1
    ensures t.tasks[id].status == if t.tasks[id].attemptCount < t.tasks[id].maxAttempts then Queued else DeadLetter
  {
    var b := After(s, now, One(FailRead(w)));
    t := After(b, now, One(FailWrite(w, now)));
    assert Leads(t, [], t);
    LeadsCons(b, now, One(FailWrite(w, now)), [], t);
    LeadsCons(s, now, One(FailRead(w)), [Timed(now, One(FailWrite(w, now)))] + [], t);
    plan := [Timed(now, One(FailRead(w)))] + ([Timed(now, One(FailWrite(w, now)))] + []);
  }

  /** The numbers used so far are those up to the attempt count. */
  ghost predicate UsedUpTo(s: State, id: TaskId) {
    id in s.tasks && forall n :: (id, n) in s.attempts <==> 1 <= n <= s.tasks[id].attemptCount
  }

  /** Failing every attempt in the ordinary way uses every number: for every limit, a task that was
      dead-lettered by failed attempts cannot succeed after `retry`. */
  lemma {:induction false} ExhaustedTaskIsLost(s: State, id: TaskId, w: nat) returns (plan: seq<Timed>, t: State)
    requires SoundInv(s) && InLine(s, id, w) && UsedUpTo(s, id) && s.tasks[id].attemptCount < s.tasks[id].maxAttempts
    ensures Leads(s, plan, t) && id in t.tasks && t.tasks[id].status == DeadLetter
    ensures forall now: Instant :: !CanSucceed(After(t, now, One(Retry(id))), id)
    decreases s.tasks[id].maxAttempts - s.tasks[id].attemptCount
  {
    assert CountsFit(s.tasks[id]);
    var p, u := FailLate(s, id, w);
    LeadsSound(s, p, u);
    if u.tasks[id].status == Queued {
      var q;
      q, t := ExhaustedTaskIsLost(u, id, w);
      LeadsThrough(s, p, u, q, t);
      plan := p + q;
    } else {
      plan, t := p, u;
      assert CountsFit(u.tasks[id]);
      forall now: Instant ensures !CanSucceed(After(t, now, One(Retry(id))), id) {
        RetriedCanSucceedIff(t, now, id);
      }
    }
  }

  lemma {:induction false} LeadsSound(s: State, plan: seq<Timed>, t: State)
    requires SoundInv(s) && Leads(s, plan, t)
    ensures SoundInv(t)
    decreases |plan|
  {
    if plan != [] {
      AfterSound(s, plan[0].now, plan[0].move);
      LeadsSound(After(s, plan[0].now, plan[0].move), plan[1..], t);
    }
  }
}
