/** The task protocol when a lease expires only after its worker has stopped acting on the task,
    `retry` looks and writes in one step, and a restart stops all workers before it requeues. */
module SoundLeases {
  import opened Common
  import opened TaskTable
  import opened EveryInterleaving
  import opened TaskProtocol

  datatype Move = One(step: Step) | Restart

  /** The ids lease recovery still has to deal with. */
  predicate Recovering(s: State, id: TaskId) {
    || (s.recovery.failing.Some? && s.recovery.failing.value.id == id)
    || exists i :: 0 <= i < |s.recovery.found| && s.recovery.found[i].id == id
  }

  predicate Owns(s: State, w: nat, id: TaskId) {
    w < |s.workers| && Holds(s.workers[w]) == Some(id)
  }

  predicate SoundMove(s: State, now: Instant, m: Move) {
    match m
    case Restart => true
    case One(step) =>
      && Enabled(s, now, step)
      && match step
         case Scan(expired) => forall w :: 0 <= w < |s.workers| && !s.workers[w].Idle? ==> s.workers[w].id !in expired
         case Retry(id) => Retryable(s.tasks[id].status)
         case Delete(ids) => forall id :: id in ids && id in s.tasks ==> Terminal(s.tasks[id].status)
         case Requeue => false
         case _ => true
  }

  function After(s: State, now: Instant, m: Move): State
    requires SoundMove(s, now, m)
  {
    match m
    case One(step) => Next(s, now, step)
    case Restart => s.(tasks := Requeued(s.tasks), workers := seq(|s.workers|, _ => Idle), recovery := Recovery([], None))
  }

  // ---------------------------------------------------------------- one owner per running task

  /** A worker is in a running task of its own, with the values it read still in the row. */
  predicate OwnerFits(s: State, pc: Pc) {
    !pc.Idle? ==>
      && pc.id in s.tasks && s.tasks[pc.id].status == Running
      && !Recovering(s, pc.id)
      && (pc.Failing? ==> pc.seen == SeenIn(s.tasks[pc.id]))
      && (pc.Numbered? || pc.Attempted? || pc.Resulted? ==> pc.no == s.tasks[pc.id].attemptCount + 1)
  }

  ghost predicate OwnersFit(s: State) {
    && (forall w :: 0 <= w < |s.workers| ==> OwnerFits(s, s.workers[w]))
    && (forall v, w :: 0 <= v < w < |s.workers| && !s.workers[v].Idle? && !s.workers[w].Idle? ==>
          s.workers[v].id != s.workers[w].id)
  }

  predicate FoundRunning(s: State, f: Found) {
    f.id in s.tasks && s.tasks[f.id].status == Running && f.seen == SeenIn(s.tasks[f.id])
  }

  ghost predicate RecoveryOwns(s: State) {
    && (forall i :: 0 <= i < |s.recovery.found| ==> FoundRunning(s, s.recovery.found[i]))
    && (forall i, j :: 0 <= i < j < |s.recovery.found| ==> s.recovery.found[i].id != s.recovery.found[j].id)
    && (s.recovery.failing.Some? ==>
          && FoundRunning(s, s.recovery.failing.value)
          && forall i :: 0 <= i < |s.recovery.found| ==> s.recovery.found[i].id != s.recovery.failing.value.id)
  }

  /** Not even the last failure takes a task past its limit. */
  ghost predicate WithinLimits(s: State) {
    forall id :: id in s.tasks ==> WithinLimit(s.tasks[id])
  }

  predicate WithinLimit(r: Row) {
    r.attemptCount <= r.maxAttempts && (r.status == DeadLetter ==> r.attemptCount == r.maxAttempts)
  }

  ghost predicate SoundInv(s: State) {
    Inv(s) && WithinLimits(s) && OwnersFit(s) && RecoveryOwns(s)
  }

  // ---------------------------------------------------------------- frames

  predicate SameRow(s: State, t: State, id: TaskId) {
    id in s.tasks ==> id in t.tasks && t.tasks[id] == s.tasks[id]
  }

  lemma OwnerStays(s: State, t: State, pc: Pc)
    requires OwnerFits(s, pc)
    requires !pc.Idle? ==> SameRow(s, t, pc.id) && !Recovering(t, pc.id)
    ensures OwnerFits(t, pc)
  {
  }

  lemma RecoveringRuns(s: State, id: TaskId)
    requires RecoveryOwns(s) && Recovering(s, id)
    ensures id in s.tasks && s.tasks[id].status == Running
  {
    if !(s.recovery.failing.Some? && s.recovery.failing.value.id == id) {
      var i :| 0 <= i < |s.recovery.found| && s.recovery.found[i].id == id;
      assert FoundRunning(s, s.recovery.found[i]);
    }
  }

  lemma SameRecovery(s: State, t: State, id: TaskId)
    requires t.recovery == s.recovery
    ensures Recovering(t, id) == Recovering(s, id)
  {
  }

  /** The workers are the same and none of them loses its row. */
  lemma OwnersFrame(s: State, t: State)
    requires OwnersFit(s) && t.workers == s.workers
    requires forall w :: 0 <= w < |s.workers| && !s.workers[w].Idle? ==>
               SameRow(s, t, s.workers[w].id) && !Recovering(t, s.workers[w].id)
    ensures OwnersFit(t)
  {
    forall w | 0 <= w < |t.workers| ensures OwnerFits(t, t.workers[w]) {
      assert OwnerFits(s, s.workers[w]);
      OwnerStays(s, t, s.workers[w]);
    }
  }

  lemma RecoveryFrame(s: State, t: State)
    requires RecoveryOwns(s) && t.recovery == s.recovery
    requires forall id :: Recovering(s, id) ==> SameRow(s, t, id)
    ensures RecoveryOwns(t)
  {
    forall i | 0 <= i < |t.recovery.found| ensures FoundRunning(t, t.recovery.found[i]) {
      var f := s.recovery.found[i];
      assert FoundRunning(s, f) && Recovering(s, f.id);
    }
    if s.recovery.failing.Some? {
      assert Recovering(s, s.recovery.failing.value.id);
    }
  }

  /** One worker moves on inside its task, or leaves it; only its own row may change. */
  lemma WorkerFrame(s: State, t: State, w: nat, pc: Pc)
    requires OwnersFit(s) && RecoveryOwns(s) && w < |s.workers| && !s.workers[w].Idle?
    requires t.workers == s.workers[w := pc] && t.recovery == s.recovery
    requires pc.Idle? || (pc.id == s.workers[w].id && OwnerFits(t, pc))
    requires forall id :: id in s.tasks && id != s.workers[w].id ==> SameRow(s, t, id)
    ensures OwnersFit(t) && RecoveryOwns(t)
  {
    assert OwnerFits(s, s.workers[w]);
    forall v | 0 <= v < |t.workers| ensures OwnerFits(t, t.workers[v]) {
      if v != w {
        assert OwnerFits(s, s.workers[v]);
        if !s.workers[v].Idle? {
          SameRecovery(s, t, s.workers[v].id);
        }
        OwnerStays(s, t, s.workers[v]);
      }
    }
    forall id | Recovering(s, id) ensures SameRow(s, t, id) {
      RecoveringRuns(s, id);
    }
    RecoveryFrame(s, t);
  }

  /** No running row changes: owners do not notice. */
  lemma IdleRowsFrame(s: State, t: State)
    requires OwnersFit(s) && RecoveryOwns(s) && t.workers == s.workers && t.recovery == s.recovery
    requires forall id :: id in s.tasks && s.tasks[id].status == Running ==> SameRow(s, t, id)
    ensures OwnersFit(t) && RecoveryOwns(t)
  {
    forall w | 0 <= w < |s.workers| && !s.workers[w].Idle?
      ensures SameRow(s, t, s.workers[w].id) && !Recovering(t, s.workers[w].id)
    {
      assert OwnerFits(s, s.workers[w]);
      SameRecovery(s, t, s.workers[w].id);
    }
    OwnersFrame(s, t);
    forall id | Recovering(s, id) ensures SameRow(s, t, id) {
      RecoveringRuns(s, id);
    }
    RecoveryFrame(s, t);
  }

  // ---------------------------------------------------------------- one lemma for each kind of move

  lemma ReadStep(s: State, now: Instant, step: Step)
    requires SoundInv(s) && Enabled(s, now, step) && (step.ReadNumber? || step.FailRead?)
    ensures OwnersFit(Next(s, now, step)) && RecoveryOwns(Next(s, now, step))
  {
    var t := Next(s, now, step);
    assert OwnerFits(s, s.workers[step.w]);
    SameRecovery(s, t, s.workers[step.w].id);
    WorkerFrame(s, t, step.w, t.workers[step.w]);
  }

  lemma WriteStep(s: State, now: Instant, step: Step)
    requires SoundInv(s) && Enabled(s, now, step) && (step.InsertAttempt? || step.WriteResult?)
    ensures OwnersFit(Next(s, now, step)) && RecoveryOwns(Next(s, now, step))
  {
    var t := Next(s, now, step);
    assert OwnerFits(s, s.workers[step.w]);
    SameRecovery(s, t, s.workers[step.w].id);
    WorkerFrame(s, t, step.w, t.workers[step.w]);
  }

  lemma LeaveStep(s: State, now: Instant, step: Step)
    requires SoundInv(s) && Enabled(s, now, step) && (step.Complete? || step.FailWrite? || step.Abandon?)
    ensures OwnersFit(Next(s, now, step)) && RecoveryOwns(Next(s, now, step))
  {
    var t := Next(s, now, step);
    if !s.workers[step.w].Idle? {
      WorkerFrame(s, t, step.w, Idle);
    } else {
      assert t.workers == s.workers;
      IdleRowsFrame(s, t);
    }
  }

  lemma ClaimStep(s: State, now: Instant, step: Step)
    requires SoundInv(s) && Enabled(s, now, step) && step.Claim?
    ensures OwnersFit(Next(s, now, step)) && RecoveryOwns(Next(s, now, step))
  {
    var t := Next(s, now, step);
    forall id | Recovering(s, id) ensures SameRow(s, t, id) {
      RecoveringRuns(s, id);
    }
    RecoveryFrame(s, t);
    if Recovering(t, step.id) {
      SameRecovery(s, t, step.id);
      RecoveringRuns(s, step.id);
      assert false;
    }
    forall v | 0 <= v < |t.workers|
      ensures OwnerFits(t, t.workers[v]) && (v != step.w && !t.workers[v].Idle? ==> t.workers[v].id != step.id)
    {
      if v != step.w && !s.workers[v].Idle? {
        assert OwnerFits(s, s.workers[v]);
        SameRecovery(s, t, s.workers[v].id);
        OwnerStays(s, t, s.workers[v]);
      }
    }
  }

  lemma ApiStep(s: State, now: Instant, step: Step)
    requires SoundInv(s) && SoundMove(s, now, One(step))
    requires step.Submit? || step.SyncInsert? || step.Cancel? || step.Retry? || step.Delete?
    ensures OwnersFit(Next(s, now, step)) && RecoveryOwns(Next(s, now, step))
  {
    IdleRowsFrame(s, Next(s, now, step));
  }

  lemma ScanStep(s: State, now: Instant, step: Step)
    requires SoundInv(s) && SoundMove(s, now, One(step)) && step.Scan?
    ensures OwnersFit(Next(s, now, step)) && RecoveryOwns(Next(s, now, step))
  {
    var t := Next(s, now, step);
    forall id | Recovering(t, id) ensures id in step.expired {
      var i :| 0 <= i < |t.recovery.found| && t.recovery.found[i].id == id;
      assert step.expired[i] == id;
    }
    OwnersFrame(s, t);
  }

  /** Recovery moves on inside its list; only the row it is failing may change. */
  lemma RecoveryMoves(s: State, t: State)
    requires OwnersFit(s) && t.workers == s.workers
    requires forall id :: Recovering(t, id) ==> Recovering(s, id)
    requires forall id :: id in s.tasks && !Recovering(s, id) ==> SameRow(s, t, id)
    ensures OwnersFit(t)
  {
    forall w | 0 <= w < |s.workers| && !s.workers[w].Idle?
      ensures SameRow(s, t, s.workers[w].id) && !Recovering(t, s.workers[w].id)
    {
      assert OwnerFits(s, s.workers[w]);
    }
    OwnersFrame(s, t);
  }

  lemma RecoverReadStep(s: State, now: Instant)
    requires SoundInv(s) && Enabled(s, now, RecoverRead)
    ensures OwnersFit(Next(s, now, RecoverRead)) && RecoveryOwns(Next(s, now, RecoverRead))
  {
    var t := Next(s, now, RecoverRead);
    assert FoundRunning(s, s.recovery.found[0]);
    forall i | 0 <= i < |t.recovery.found| ensures t.recovery.found[i] == s.recovery.found[i + 1] && FoundRunning(t, t.recovery.found[i]) {
      assert FoundRunning(s, s.recovery.found[i + 1]);
    }
    forall id | Recovering(t, id) ensures Recovering(s, id) {
      if t.recovery.failing.value.id == id {
        assert s.recovery.found[0].id == id;
      } else {
        var i :| 0 <= i < |t.recovery.found| && t.recovery.found[i].id == id;
        assert s.recovery.found[i + 1].id == id;
      }
    }
    RecoveryMoves(s, t);
  }

  lemma RecoverWriteStep(s: State, now: Instant, step: Step)
    requires SoundInv(s) && Enabled(s, now, step) && step.RecoverWrite?
    ensures OwnersFit(Next(s, now, step)) && RecoveryOwns(Next(s, now, step))
  {
    var t := Next(s, now, step);
    var own := s.recovery.failing.value.id;
    assert Recovering(s, own);
    forall i | 0 <= i < |t.recovery.found| ensures FoundRunning(t, t.recovery.found[i]) {
      assert FoundRunning(s, s.recovery.found[i]) && s.recovery.found[i].id != own;
    }
    forall id | Recovering(t, id) ensures Recovering(s, id) {
      var i :| 0 <= i < |t.recovery.found| && t.recovery.found[i].id == id;
      assert s.recovery.found[i].id == id;
    }
    RecoveryMoves(s, t);
  }

  lemma OwnershipKept(s: State, now: Instant, step: Step)
    requires SoundInv(s) && SoundMove(s, now, One(step))
    ensures OwnersFit(Next(s, now, step)) && RecoveryOwns(Next(s, now, step))
  {
    match step
    case ReadNumber(_) => ReadStep(s, now, step);
    case FailRead(_) => ReadStep(s, now, step);
    case InsertAttempt(_) => WriteStep(s, now, step);
    case WriteResult(_, _) => WriteStep(s, now, step);
    case Complete(_) => LeaveStep(s, now, step);
    case FailWrite(_, _) => LeaveStep(s, now, step);
    case Abandon(_) => LeaveStep(s, now, step);
    case Claim(_, _, _) => ClaimStep(s, now, step);
    case Scan(_) => ScanStep(s, now, step);
    case RecoverRead => RecoverReadStep(s, now);
    case RecoverWrite(_) => RecoverWriteStep(s, now, step);
    case _ => ApiStep(s, now, step);
  }

  lemma LimitsKept(s: State, now: Instant, step: Step)
    requires SoundInv(s) && SoundMove(s, now, One(step))
    ensures WithinLimits(Next(s, now, step))
  {
    var t := Next(s, now, step);
    if step.Complete? || step.FailWrite? {
      assert OwnerFits(s, s.workers[step.w]);
    }
    forall id | id in t.tasks ensures WithinLimit(t.tasks[id]) {
      if id in s.tasks {
        assert CountsFit(s.tasks[id]) && WithinLimit(s.tasks[id]);
      }
    }
  }

  lemma AfterSound(s: State, now: Instant, m: Move)
    requires SoundInv(s) && SoundMove(s, now, m)
    ensures SoundInv(After(s, now, m))
  {
    match m
    case One(step) =>
      NextInv(s, now, step);
      LimitsKept(s, now, step);
      OwnershipKept(s, now, step);
    case Restart =>
      var t := After(s, now, m);
      forall id | id in t.tasks ensures id in t.issued && CountsFit(t.tasks[id]) && WithinLimit(t.tasks[id]) {
        assert CountsFit(s.tasks[id]) && WithinLimit(s.tasks[id]);
      }
  }
}
