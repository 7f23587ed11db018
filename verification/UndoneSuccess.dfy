/** llm_service/runtime: exactly when a task that has succeeded can leave success again. */
module UndoneSuccess {
  import opened EveryInterleaving
  import opened SoundLeases
  import opened TaskProtocol
  import opened TaskTable

  /** A worker has not left the task yet, or recovery still has it on its list. */
  predicate Pursued(s: State, id: TaskId) {
    Recovering(s, id) || exists w :: 0 <= w < |s.workers| && Owns(s, w, id)
  }

  predicate HasSucceeded(s: State, id: TaskId) {
    id in s.issued && id in s.tasks && s.tasks[id].status == Succeeded
  }

  /** Neither a manual retry of the task nor its cleanup. */
  predicate Spares(step: Step, id: TaskId) {
    step != Retry(id) && (step.Delete? ==> id !in step.ids)
  }

  predicate AllSpare(plan: seq<Tick>, id: TaskId) {
    forall i :: 0 <= i < |plan| ==> Spares(plan[i].step, id)
  }

  /** Some continuation, sound or not, takes the task out of success without retrying or removing it. */
  ghost predicate CanBeUndone(s: State, id: TaskId) {
    exists plan, t :: Runs(s, plan, t) && AllSpare(plan, id) && id in t.tasks && t.tasks[id].status != Succeeded
  }

  // ---------------------------------------------------------------- nobody left: success stays

  /** Nobody begins to act on a succeeded task: it is neither claimed nor scanned. */
  lemma StaysUnpursued(s: State, now: Instant, step: Step, id: TaskId)
    requires Enabled(s, now, step) && Spares(step, id)
    requires HasSucceeded(s, id) && !Pursued(s, id)
    ensures HasSucceeded(Next(s, now, step), id) && !Pursued(Next(s, now, step), id)
  {
    var t := Next(s, now, step);
    forall w | 0 <= w < |t.workers| ensures !Owns(t, w, id) {
      assert !Owns(s, w, id);
    }
    StaysOffTheList(s, now, step, id);
    if step.Complete? || step.FailWrite? {
      assert !Owns(s, step.w, id);
    }
  }

  lemma StaysOffTheList(s: State, now: Instant, step: Step, id: TaskId)
    requires Enabled(s, now, step) && HasSucceeded(s, id) && !Recovering(s, id)
    ensures !Recovering(Next(s, now, step), id)
  {
    var t := Next(s, now, step);
    forall i | 0 <= i < |t.recovery.found| ensures t.recovery.found[i].id != id {
      if step.Scan? {
        assert s.tasks[step.expired[i]].status == Running;
      } else if step.RecoverRead? {
        assert s.recovery.found[i + 1].id != id;
      } else {
        assert s.recovery.found[i].id != id;
      }
    }
    if step.RecoverRead? {
      assert s.recovery.found[0].id != id;
    }
  }

  lemma {:induction false} UnpursuedStays(s: State, plan: seq<Tick>, t: State, id: TaskId)
    requires Runs(s, plan, t) && AllSpare(plan, id)
    requires HasSucceeded(s, id) && !Pursued(s, id)
    ensures HasSucceeded(t, id)
    decreases |plan|
  {
    if plan != [] {
      assert Spares(plan[0].step, id);
      StaysUnpursued(s, plan[0].now, plan[0].step, id);
      UnpursuedStays(Next(s, plan[0].now, plan[0].step), plan[1..], t, id);
    }
  }

  // ---------------------------------------------------------------- somebody left: success can be undone

  lemma FirstStep(s: State, now: Instant, step: Step, id: TaskId)
    requires Enabled(s, now, step) && Spares(step, id) && CanBeUndone(Next(s, now, step), id)
    ensures CanBeUndone(s, id)
  {
    var plan, t :| Runs(Next(s, now, step), plan, t) && AllSpare(plan, id) && id in t.tasks && t.tasks[id].status != Succeeded;
    RunsCons(s, now, step, plan, t);
    assert AllSpare([Tick(now, step)] + plan, id);
  }

  lemma AlreadyUndone(s: State, id: TaskId)
    requires id in s.tasks && s.tasks[id].status != Succeeded
    ensures CanBeUndone(s, id)
  {
    assert Runs(s, [], s) && AllSpare([], id);
  }

  /** A worker still in the task can fail it. */
  lemma WorkerCanUndo(s: State, w: nat, id: TaskId, now: Instant)
    requires id in s.tasks && Owns(s, w, id)
    ensures CanBeUndone(s, id)
  {
    if s.workers[w].Failing? {
      AlreadyUndone(Next(s, now, FailWrite(w, now)), id);
      FirstStep(s, now, FailWrite(w, now), id);
    } else {
      var t := Next(s, now, FailRead(w));
      AlreadyUndone(Next(t, now, FailWrite(w, now)), id);
      FirstStep(t, now, FailWrite(w, now), id);
      FirstStep(s, now, FailRead(w), id);
    }
  }

  /** Recovery works through its list until it comes to the task. */
  lemma {:induction false} RecoveryCanUndo(s: State, id: TaskId, now: Instant)
    requires id in s.tasks && Recovering(s, id)
    ensures CanBeUndone(s, id)
    decreases |s.recovery.found|, if s.recovery.failing.Some? then 1 else 0
  {
    var found := s.recovery.found;
    if s.recovery.failing.Some? {
      var t := Next(s, now, RecoverWrite(now));
      if s.recovery.failing.value.id == id {
        AlreadyUndone(t, id);
      } else {
        var i :| 0 <= i < |found| && found[i].id == id;
        assert t.recovery.found[i].id == id;
        RecoveryCanUndo(t, id, now);
      }
      FirstStep(s, now, RecoverWrite(now), id);
    } else {
      var i :| 0 <= i < |found| && found[i].id == id;
      var t := Next(s, now, RecoverRead);
      if i > 0 {
        assert t.recovery.found[i - 1].id == id;
      }
      RecoveryCanUndo(t, id, now);
      FirstStep(s, now, RecoverRead, id);
    }
  }

  /** A succeeded task can be queued again or dead-lettered, without anybody retrying it, exactly as long as
      a worker has not left it or lease recovery still has it on its list. */
  lemma CanBeUndoneIff(s: State, id: TaskId)
    requires HasSucceeded(s, id)
    ensures CanBeUndone(s, id) <==> Pursued(s, id)
  {
    if Recovering(s, id) {
      RecoveryCanUndo(s, id, 0.0);
    } else if Pursued(s, id) {
      var w :| 0 <= w < |s.workers| && Owns(s, w, id);
      WorkerCanUndo(s, w, id, 0.0);
    } else if CanBeUndone(s, id) {
      var plan, t :| Runs(s, plan, t) && AllSpare(plan, id) && id in t.tasks && t.tasks[id].status != Succeeded;
      UnpursuedStays(s, plan, t, id);
    }
  }

  /** If leases were sound up to the success, nothing that happens afterwards undoes it: not even leases that
      run out under their workers, or restarts that leave workers going. */
  lemma SoundUpToSuccess(s: State, id: TaskId)
    requires SoundInv(s) && HasSucceeded(s, id)
    ensures !CanBeUndone(s, id)
  {
    if Recovering(s, id) {
      RecoveringRuns(s, id);
    }
    forall w | 0 <= w < |s.workers| ensures !Owns(s, w, id) {
      assert OwnerFits(s, s.workers[w]);
    }
    CanBeUndoneIff(s, id);
  }
}
