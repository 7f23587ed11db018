/** llm_service/runtime: what a sound run has claimed and closed, counted from its moves alone. */
module ClaimLedger {
  import opened TaskTable
  import opened TaskProtocol
  import opened SoundLeases
  import opened SoundRuns

  predicate Opens(m: Move, id: TaskId) {
    m.One? && m.step.Claim? && m.step.id == id
  }

  /** A worker completes or fails the task, or lease recovery fails it. */
  predicate Closes(s: State, m: Move, id: TaskId) {
    && m.One?
    && match m.step
       case Complete(w) => Owns(s, w, id)
       case FailWrite(w, _) => Owns(s, w, id)
       case RecoverWrite(_) => s.recovery.failing.Some? && s.recovery.failing.value.id == id
       case _ => false
  }

  predicate Resets(m: Move, id: TaskId) {
    m.One? && ((m.step.Submit? && m.step.id == id) || (m.step.Retry? && m.step.id == id))
  }

  predicate Imports(m: Move, id: TaskId) {
    m.One? && m.step.SyncInsert? && m.step.id == id
  }

  /** Whether the last claim among the first `n` moves is neither closed nor dropped by a restart. */
  predicate Open(states: seq<State>, moves: seq<Move>, n: nat, id: TaskId)
    requires n <= |moves| < |states|
  {
    n > 0 &&
    (Opens(moves[n - 1], id) ||
     (!Closes(states[n - 1], moves[n - 1], id) && !moves[n - 1].Restart? && Open(states, moves, n - 1, id)))
  }

  /** Claims closed since the task was submitted or last retried; a task inserted by a synchronous
      call starts with the one attempt it is inserted with. */
  function ClosedSince(states: seq<State>, moves: seq<Move>, n: nat, id: TaskId): nat
    requires n <= |moves| < |states|
  {
    if n == 0 || Resets(moves[n - 1], id) then 0
    else if Imports(moves[n - 1], id) then 1
    else ClosedSince(states, moves, n - 1, id) + if Closes(states[n - 1], moves[n - 1], id) then 1 else 0
  }

  function Claims(moves: seq<Move>, n: nat, id: TaskId): nat
    requires n <= |moves|
  {
    if n == 0 then 0 else Claims(moves, n - 1, id) + if Opens(moves[n - 1], id) then 1 else 0
  }

  function Closings(states: seq<State>, moves: seq<Move>, n: nat, id: TaskId): nat
    requires n <= |moves| < |states|
  {
    if n == 0 then 0
    else Closings(states, moves, n - 1, id) + if Closes(states[n - 1], moves[n - 1], id) then 1 else 0
  }

  function Dropped(states: seq<State>, moves: seq<Move>, n: nat, id: TaskId): nat
    requires n <= |moves| < |states|
  {
    if n == 0 then 0
    else Dropped(states, moves, n - 1, id) + if moves[n - 1].Restart? && Open(states, moves, n - 1, id) then 1 else 0
  }

  // ---------------------------------------------------------------- what one move does to one row

  predicate IsRunning(s: State, id: TaskId) {
    id in s.tasks && s.tasks[id].status == Running
  }

  /** Only a running task can be closed. */
  lemma ClosedWasRunning(s: State, now: Instant, m: Move, id: TaskId)
    requires SoundInv(s) && SoundMove(s, now, m) && Closes(s, m, id)
    ensures IsRunning(s, id)
  {
    if m.step.RecoverWrite? {
      assert Recovering(s, id);
      RecoveringRuns(s, id);
    } else {
      assert OwnerFits(s, s.workers[m.step.w]);
    }
  }

  lemma ClosingCounts(s: State, now: Instant, m: Move, id: TaskId)
    requires SoundInv(s) && SoundMove(s, now, m) && Closes(s, m, id)
    ensures var t := After(s, now, m);
            && id in t.tasks && id in s.tasks
            && t.tasks[id].attemptCount == s.tasks[id].attemptCount + 1 && t.tasks[id].status != Running
  {
    ClosedWasRunning(s, now, m, id);
    if m.step.RecoverWrite? {
      assert FoundRunning(s, s.recovery.failing.value);
    } else {
      assert OwnerFits(s, s.workers[m.step.w]);
    }
  }

  /** A row that a move neither opens, closes nor sets up keeps its count, and stays running if it was. */
  lemma OtherwiseKept(s: State, now: Instant, m: Move, id: TaskId)
    requires SoundInv(s) && SoundMove(s, now, m)
    requires !Closes(s, m, id) && !Resets(m, id) && !Imports(m, id) && !Opens(m, id)
    ensures var t := After(s, now, m);
            && (id in t.tasks ==> id in s.tasks && t.tasks[id].attemptCount == s.tasks[id].attemptCount)
            && IsRunning(t, id) == (IsRunning(s, id) && !m.Restart?)
  {
  }

  lemma OpeningRuns(s: State, now: Instant, m: Move, id: TaskId)
    requires SoundInv(s) && SoundMove(s, now, m) && Opens(m, id)
    ensures var t := After(s, now, m);
            && id in s.tasks && !IsRunning(s, id) && IsRunning(t, id)
            && t.tasks[id].attemptCount == s.tasks[id].attemptCount
  {
  }

  lemma SetUpIdle(s: State, now: Instant, m: Move, id: TaskId)
    requires SoundInv(s) && SoundMove(s, now, m) && (Resets(m, id) || Imports(m, id))
    ensures var t := After(s, now, m);
            && id in t.tasks && !IsRunning(s, id) && !IsRunning(t, id)
            && t.tasks[id].attemptCount == if Resets(m, id) then 0 else 1
  {
  }

  // ---------------------------------------------------------------- whole runs

  /** A task is running exactly while its last claim is open. */
  lemma {:induction false} RunningIffOpen(concurrency: nat, states: seq<State>, times: seq<Instant>, moves: seq<Move>,
                                          n: nat, id: TaskId)
    requires IsSoundRun(concurrency, states, times, moves) && n <= |moves|
    ensures IsRunning(states[n], id) == Open(states, moves, n, id)
  {
    if n > 0 {
      var s, m := states[n - 1], moves[n - 1];
      RunningIffOpen(concurrency, states, times, moves, n - 1, id);
      RunSound(concurrency, states, times, moves, n - 1);
      if Closes(s, m, id) {
        ClosingCounts(s, times[n - 1], m, id);
      } else if Opens(m, id) {
        OpeningRuns(s, times[n - 1], m, id);
      } else if Resets(m, id) || Imports(m, id) {
        SetUpIdle(s, times[n - 1], m, id);
      } else {
        OtherwiseKept(s, times[n - 1], m, id);
      }
    }
  }

  /** Claims and closings alternate: a task is never claimed twice without a closing or a restart in
      between, and never closed without an open claim. */
  lemma ClaimsAlternate(concurrency: nat, states: seq<State>, times: seq<Instant>, moves: seq<Move>, n: nat, id: TaskId)
    requires IsSoundRun(concurrency, states, times, moves) && n < |moves|
    ensures Opens(moves[n], id) ==> !Open(states, moves, n, id)
    ensures Closes(states[n], moves[n], id) ==> Open(states, moves, n, id)
  {
    RunningIffOpen(concurrency, states, times, moves, n, id);
    RunSound(concurrency, states, times, moves, n);
    if Opens(moves[n], id) {
      OpeningRuns(states[n], times[n], moves[n], id);
    } else if Closes(states[n], moves[n], id) {
      ClosedWasRunning(states[n], times[n], moves[n], id);
    }
  }

  /** Every claim is closed once, dropped by a restart, or still open. */
  lemma {:induction false} ClaimsBalance(concurrency: nat, states: seq<State>, times: seq<Instant>, moves: seq<Move>,
                                         n: nat, id: TaskId)
    requires IsSoundRun(concurrency, states, times, moves) && n <= |moves|
    ensures Claims(moves, n, id)
         == Closings(states, moves, n, id) + Dropped(states, moves, n, id) + if IsRunning(states[n], id) then 1 else 0
  {
    RunningIffOpen(concurrency, states, times, moves, n, id);
    if n > 0 {
      ClaimsBalance(concurrency, states, times, moves, n - 1, id);
      RunningIffOpen(concurrency, states, times, moves, n - 1, id);
      ClaimsAlternate(concurrency, states, times, moves, n - 1, id);
    }
  }

  /** The attempt count is the number of claims closed since the task was submitted or last retried,
      and never exceeds the limit. */
  lemma {:induction false} AttemptCountIsClosedClaims(concurrency: nat, states: seq<State>, times: seq<Instant>,
                                                      moves: seq<Move>, n: nat, id: TaskId)
    requires IsSoundRun(concurrency, states, times, moves) && n <= |moves| && id in states[n].tasks
    ensures states[n].tasks[id].attemptCount == ClosedSince(states, moves, n, id) <= states[n].tasks[id].maxAttempts
  {
    RunSound(concurrency, states, times, moves, n);
    assert WithinLimit(states[n].tasks[id]);
    if n > 0 {
      var s, m := states[n - 1], moves[n - 1];
      RunSound(concurrency, states, times, moves, n - 1);
      if Resets(m, id) || Imports(m, id) {
        SetUpIdle(s, times[n - 1], m, id);
      } else {
        if Closes(s, m, id) {
          ClosingCounts(s, times[n - 1], m, id);
        } else if Opens(m, id) {
          OpeningRuns(s, times[n - 1], m, id);
        } else {
          OtherwiseKept(s, times[n - 1], m, id);
        }
        AttemptCountIsClosedClaims(concurrency, states, times, moves, n - 1, id);
      }
    }
  }
}
