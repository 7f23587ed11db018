/** llm_service/runtime: what every run with sound leases guarantees. */
module SoundRuns {
  import opened SoundLeases
  import opened EveryInterleaving
  import opened TaskProtocol
  import opened TaskTable

  // ---------------------------------------------------------------- whole runs

  /** A timed schedule of sound moves. */
  ghost predicate IsPath(states: seq<State>, times: seq<Instant>, moves: seq<Move>) {
    && |states| == |moves| + 1 && |times| == |moves|
    && forall i :: 0 <= i < |moves| ==>
         SoundMove(states[i], times[i], moves[i]) && states[i + 1] == After(states[i], times[i], moves[i])
  }

  ghost predicate IsSoundRun(concurrency: nat, states: seq<State>, times: seq<Instant>, moves: seq<Move>) {
    IsPath(states, times, moves) && states[0] == Init(concurrency)
  }

  lemma {:induction false} PathSound(states: seq<State>, times: seq<Instant>, moves: seq<Move>, i: nat)
    requires IsPath(states, times, moves) && SoundInv(states[0]) && i <= |moves|
    ensures SoundInv(states[i])
  {
    if i > 0 {
      PathSound(states, times, moves, i - 1);
      AfterSound(states[i - 1], times[i - 1], moves[i - 1]);
    }
  }

  lemma RunSound(concurrency: nat, states: seq<State>, times: seq<Instant>, moves: seq<Move>, i: nat)
    requires IsSoundRun(concurrency, states, times, moves) && i <= |moves|
    ensures SoundInv(states[i])
  {
    PathSound(states, times, moves, i);
  }

  /** At most one worker owns a task, the task it owns is running, and recovery leaves it alone. */
  lemma OneOwner(concurrency: nat, states: seq<State>, times: seq<Instant>, moves: seq<Move>, i: nat, v: nat, w: nat)
    requires IsSoundRun(concurrency, states, times, moves) && i <= |moves|
    requires v < |states[i].workers| && w < |states[i].workers|
    requires !states[i].workers[v].Idle? && Holds(states[i].workers[v]) == Holds(states[i].workers[w])
    ensures var s := states[i];
            var id := s.workers[v].id;
            && v == w && id in s.tasks && s.tasks[id].status == Running && !Recovering(s, id)
  {
    RunSound(concurrency, states, times, moves, i);
    assert OwnerFits(states[i], states[i].workers[v]);
  }

  /** What a move can do to a finished row: cleanup may delete it, and `retry` may reopen it unless it succeeded. */
  lemma FinishedRowsStay(s: State, now: Instant, m: Move, id: TaskId)
    requires SoundInv(s) && SoundMove(s, now, m) && id in s.tasks && Terminal(s.tasks[id].status)
    ensures var t := After(s, now, m);
            || (id in t.tasks && t.tasks[id] == s.tasks[id])
            || (m.One? && m.step.Delete? && id in m.step.ids && id !in t.tasks)
            || (m == One(Retry(id)) && s.tasks[id].status != Succeeded)
  {
    if m.One? && (m.step.Complete? || m.step.FailWrite?) {
      assert OwnerFits(s, s.workers[m.step.w]);
    }
  }

  /** Over a whole run: once succeeded, a task stays exactly as it is until cleanup removes it. */
  lemma {:induction false} SuccessIsFinal(concurrency: nat, states: seq<State>, times: seq<Instant>, moves: seq<Move>,
                                          i: nat, j: nat, id: TaskId)
    requires IsSoundRun(concurrency, states, times, moves) && i <= j <= |moves|
    requires id in states[i].tasks && states[i].tasks[id].status == Succeeded
    ensures id in states[j].issued && (id in states[j].tasks ==> states[j].tasks[id] == states[i].tasks[id])
    decreases j - i
  {
    RunSound(concurrency, states, times, moves, i);
    if i < j {
      SuccessIsFinal(concurrency, states, times, moves, i, j - 1, id);
      RunSound(concurrency, states, times, moves, j - 1);
      var s := states[j - 1];
      if id in s.tasks {
        FinishedRowsStay(s, times[j - 1], moves[j - 1], id);
      } else if moves[j - 1].One? {
        NextKeepsLimits(s, times[j - 1], moves[j - 1].step);
      }
    }
  }
}
