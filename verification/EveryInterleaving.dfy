/** llm_service/runtime: what holds in every run of the task protocol, sound leases or not. */
module EveryInterleaving {
  import opened TaskProtocol
  import opened TaskTable

  // ---------------------------------------------------------------- what survives every interleaving

  /** A live task has attempts left; a dead-lettered one has none. */
  predicate CountsFit(r: Row) {
    && r.maxAttempts >= 1 && r.attemptCount >= 0
    && (r.status == Queued || r.status == Running ==> r.attemptCount < r.maxAttempts)
    && (r.status == DeadLetter ==> r.attemptCount >= r.maxAttempts)
  }

  /** A value read by `fail` carries the row's own limit, as long as the row exists. */
  predicate SeenFits(s: State, id: TaskId, seen: Seen) {
    && id in s.issued && seen.attemptCount >= 0
    && (id in s.tasks ==> seen.maxAttempts == s.tasks[id].maxAttempts)
  }

  ghost predicate RowsFit(s: State) {
    forall id :: id in s.tasks ==> id in s.issued && CountsFit(s.tasks[id])
  }

  predicate PcFits(s: State, pc: Pc) {
    && (!pc.Idle? ==> pc.id in s.issued)
    && (pc.Failing? ==> SeenFits(s, pc.id, pc.seen))
  }

  predicate FoundFits(s: State, f: Found) {
    SeenFits(s, f.id, f.seen) && f.seen.attemptCount < f.seen.maxAttempts
  }

  ghost predicate WorkersFit(s: State) {
    forall w :: 0 <= w < |s.workers| ==> PcFits(s, s.workers[w])
  }

  ghost predicate RecoveryFits(s: State) {
    && (s.recovery.failing.Some? ==> SeenFits(s, s.recovery.failing.value.id, s.recovery.failing.value.seen))
    && (forall i :: 0 <= i < |s.recovery.found| ==> FoundFits(s, s.recovery.found[i]))
  }

  ghost predicate Inv(s: State) {
    RowsFit(s) && WorkersFit(s) && RecoveryFits(s)
  }

  /** Ids are issued once, and the limit of a row never changes. */
  ghost predicate KeepsLimits(s: State, t: State) {
    && s.issued <= t.issued
    && forall id :: id in s.issued && id in t.tasks ==> id in s.tasks && t.tasks[id].maxAttempts == s.tasks[id].maxAttempts
  }

  lemma NextKeepsLimits(s: State, now: Instant, step: Step)
    requires Enabled(s, now, step) && RowsFit(s)
    ensures KeepsLimits(s, Next(s, now, step))
  {
  }

  lemma FailureFits(r: Row, seen: Seen, now: Instant, retryAt: Instant)
    requires CountsFit(r) && seen.maxAttempts == r.maxAttempts && seen.attemptCount >= 0
    ensures CountsFit(FailedRow(r, seen, now, retryAt))
  {
  }

  lemma WriteFailureFits(s: State, id: TaskId, seen: Seen, now: Instant, retryAt: Instant)
    requires RowsFit(s) && SeenFits(s, id, seen)
    ensures RowsFit(WriteFailure(s, id, seen, now, retryAt))
  {
    if id in s.tasks {
      FailureFits(s.tasks[id], seen, now, retryAt);
    }
  }

  lemma NextRowsFit(s: State, now: Instant, step: Step)
    requires Inv(s) && Enabled(s, now, step)
    ensures RowsFit(Next(s, now, step))
  {
    match step
    case FailWrite(w, retryAt) =>
      assert PcFits(s, s.workers[w]);
      WriteFailureFits(s, s.workers[w].id, s.workers[w].seen, now, retryAt);
    case RecoverWrite(retryAt) =>
      var f := s.recovery.failing.value;
      WriteFailureFits(s, f.id, f.seen, now, retryAt);
    case _ =>
  }

  lemma PcStays(s: State, t: State, pc: Pc)
    requires KeepsLimits(s, t) && PcFits(s, pc)
    ensures PcFits(t, pc)
  {
  }

  lemma NextWorkersFit(s: State, now: Instant, step: Step)
    requires Inv(s) && Enabled(s, now, step)
    ensures WorkersFit(Next(s, now, step))
  {
    var t := Next(s, now, step);
    NextKeepsLimits(s, now, step);
    forall w | 0 <= w < |t.workers| ensures PcFits(t, t.workers[w]) {
      assert PcFits(s, s.workers[w]);
      PcStays(s, t, s.workers[w]);
    }
  }

  lemma NextRecoveryFits(s: State, now: Instant, step: Step)
    requires Inv(s) && Enabled(s, now, step)
    ensures RecoveryFits(Next(s, now, step))
  {
    var t := Next(s, now, step);
    NextKeepsLimits(s, now, step);
    forall i | 0 <= i < |t.recovery.found| ensures FoundFits(t, t.recovery.found[i]) {
      if step.Scan? {
        assert CountsFit(s.tasks[step.expired[i]]);
      } else if step.RecoverRead? {
        assert FoundFits(s, s.recovery.found[i + 1]);
      } else {
        assert FoundFits(s, s.recovery.found[i]);
      }
    }
    if step.RecoverRead? {
      assert FoundFits(s, s.recovery.found[0]);
    }
  }

  lemma NextInv(s: State, now: Instant, step: Step)
    requires Inv(s) && Enabled(s, now, step)
    ensures Inv(Next(s, now, step))
  {
    NextRowsFit(s, now, step);
    NextWorkersFit(s, now, step);
    NextRecoveryFits(s, now, step);
  }

  lemma {:induction false} RunInv(concurrency: nat, states: seq<State>, times: seq<Instant>, steps: seq<Step>, i: nat)
    requires IsRun(concurrency, states, times, steps) && i <= |steps|
    ensures Inv(states[i])
  {
    if i > 0 {
      RunInv(concurrency, states, times, steps, i - 1);
      NextInv(states[i - 1], times[i - 1], steps[i - 1]);
    }
  }

  /** Under any interleaving, late workers included: a queued or running task has attempts left and
      a dead-lettered one has none. */
  lemma CountsAlwaysFit(concurrency: nat, states: seq<State>, times: seq<Instant>, steps: seq<Step>, id: TaskId)
    requires IsRun(concurrency, states, times, steps) && id in states[|steps|].tasks
    ensures var r := states[|steps|].tasks[id];
            && (r.status == Queued || r.status == Running ==> r.attemptCount < r.maxAttempts)
            && (r.status == DeadLetter ==> r.attemptCount >= r.maxAttempts)
  {
    RunInv(concurrency, states, times, steps, |steps|);
  }

  /** So recovery never takes its "exhausted" branch: every row of a scan still has attempts left. */
  lemma ExhaustedBranchIsDead(concurrency: nat, states: seq<State>, times: seq<Instant>, steps: seq<Step>, f: Found)
    requires IsRun(concurrency, states, times, steps) && f in states[|steps|].recovery.found
    ensures f.seen.attemptCount < f.seen.maxAttempts
  {
    RunInv(concurrency, states, times, steps, |steps|);
    var s := states[|steps|];
    var i :| 0 <= i < |s.recovery.found| && s.recovery.found[i] == f;
    assert FoundFits(s, s.recovery.found[i]);
  }
}
