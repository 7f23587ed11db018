/** knowledge_mining/mining/pipeline.py: what `process_all` returns under every schedule. */
module PipelineRuns {
  import opened Common
  import opened PipelinePlaces
  import opened PipelineShutdown
  import opened PipelineTermination
  import opened StableSort
  import opened StreamingPipeline

  // ---------------------------------------------------------------- sorting the results

  lemma {:induction false} InResultsInsert(x: Ctx, ys: seq<Ctx>, key: Option<int>)
    ensures InResults(Insert(x, ys, SequenceKey), key) == One(Counts(x, key)) + InResults(ys, key)
  {
    if ys == [] || SequenceKey(x) <= SequenceKey(ys[0]) {
      assert ([x] + ys)[1..] == ys;
    } else {
      InResultsInsert(x, ys[1..], key);
      var r := Insert(x, ys[1..], SequenceKey);
      assert ([ys[0]] + r)[1..] == r;
    }
  }

  lemma {:induction false} InResultsSort(rs: seq<Ctx>, key: Option<int>)
    ensures InResults(Sort(rs, SequenceKey), key) == InResults(rs, key)
  {
    if rs != [] {
      InResultsSort(rs[1..], key);
      InResultsInsert(rs[0], Sort(rs[1..], SequenceKey), key);
    }
  }

  lemma {:induction false} CountedAgain(rs: seq<Ctx>, j: nat, key: Option<int>)
    requires j < |rs| && Counts(rs[j], key)
    ensures InResults(rs, key) >= 1
    ensures forall i :: 0 <= i < j && Counts(rs[i], key) ==> InResults(rs, key) >= 2
  {
    if j > 0 {
      CountedAgain(rs[1..], j - 1, key);
      forall i | 0 <= i < j && Counts(rs[i], key) ensures InResults(rs, key) >= 2 {
        if i > 0 {
          assert rs[1..][i - 1] == rs[i];
        }
      }
    }
  }

  /** Strictly increasing numbers below `n`, `n` of them, are 0, 1, 2, ... */
  lemma {:induction false} IncreasingFills(rs: seq<Ctx>, k: nat, n: nat)
    requires |rs| == n && k < n
    requires forall i :: 0 <= i < n ==> 0 <= rs[i].sequenceId < n
    requires forall i :: 0 <= i < n - 1 ==> rs[i].sequenceId < rs[i + 1].sequenceId
    ensures rs[k].sequenceId == k
  {
    AtLeast(rs, k);
    AtMost(rs, k, n);
  }

  lemma {:induction false} AtLeast(rs: seq<Ctx>, k: nat)
    requires k < |rs| && rs[0].sequenceId >= 0
    requires forall i :: 0 <= i < |rs| - 1 ==> rs[i].sequenceId < rs[i + 1].sequenceId
    ensures rs[k].sequenceId >= k
  {
    if k > 0 {
      AtLeast(rs, k - 1);
      assert rs[k - 1].sequenceId < rs[k - 1 + 1].sequenceId;
    }
  }

  lemma {:induction false} AtMost(rs: seq<Ctx>, k: nat, n: nat)
    requires |rs| == n && k < n && rs[n - 1].sequenceId < n
    requires forall i :: 0 <= i < n - 1 ==> rs[i].sequenceId < rs[i + 1].sequenceId
    ensures rs[k].sequenceId <= k
    decreases n - k
  {
    if k < n - 1 {
      AtMost(rs, k + 1, n);
      assert rs[k].sequenceId < rs[k + 1].sequenceId;
    }
  }

  /** Right documents, none twice, as many as there are: sorting them by number gives the
      sequential answer. */
  lemma SortedIsExpected(p: Pipeline, rs: seq<Ctx>)
    requires |rs| == |p.items|
    requires forall r :: 0 <= r < |rs| ==> At(p, |p.stages|, rs[r])
    requires forall k :: InResults(rs, Some(k)) <= 1
    ensures Sort(rs, SequenceKey) == Expected(p)
  {
    var out := Sort(rs, SequenceKey);
    SortPermutes(rs, SequenceKey);
    forall i | 0 <= i < |out| ensures At(p, |p.stages|, out[i]) {
      SortedMember(rs, i);
    }
    SortedIncreases(rs);
    InOrderIsExpected(p, out);
  }

  lemma InOrderIsExpected(p: Pipeline, out: seq<Ctx>)
    requires |out| == |p.items|
    requires forall i :: 0 <= i < |out| ==> At(p, |p.stages|, out[i])
    requires forall i :: 0 <= i < |out| - 1 ==> out[i].sequenceId < out[i + 1].sequenceId
    ensures out == Expected(p)
  {
    var want := Expected(p);
    forall k | 0 <= k < |out| ensures out[k] == want[k] {
      IncreasingFills(out, k, |out|);
      assert At(p, |p.stages|, out[k]);
    }
  }

  lemma SortedMember(rs: seq<Ctx>, i: nat)
    requires i < |Sort(rs, SequenceKey)|
    ensures Sort(rs, SequenceKey)[i] in rs
  {
    SortPermutes(rs, SequenceKey);
    assert Sort(rs, SequenceKey)[i] in multiset(rs);
  }

  lemma SortedIncreases(rs: seq<Ctx>)
    requires forall k :: InResults(rs, Some(k)) <= 1
    ensures var out := Sort(rs, SequenceKey);
            forall i :: 0 <= i < |out| - 1 ==> out[i].sequenceId < out[i + 1].sequenceId
  {
    var out := Sort(rs, SequenceKey);
    SortOrdered(rs, SequenceKey);
    forall i | 0 <= i < |out| - 1 ensures out[i].sequenceId < out[i + 1].sequenceId {
      assert SequenceKey(out[i]) <= SequenceKey(out[i + 1]);
      if out[i].sequenceId == out[i + 1].sequenceId {
        CountedAgain(out, i + 1, Some(out[i].sequenceId));
        InResultsSort(rs, Some(out[i].sequenceId));
      }
    }
  }

  // ---------------------------------------------------------------- runs

  /** What every reachable state satisfies. */
  ghost predicate Inv(p: Pipeline, s: State) {
    && Shape(p, s) && Right(p, s) && Phased(p, s)
    && (forall key :: Copies(s, key) == Due(p, s.main, key))
    && (s.main.Finished? ==> s.main.out == Expected(p) && |s.results| == |p.items|)
  }

  lemma {:induction false} EmptyQueues(qs: seq<seq<Message>>, key: Option<int>, weight: int)
    requires forall i :: 0 <= i < |qs| ==> qs[i] == []
    ensures InQueues(qs, key) == 0 && QueuesWork(qs, weight) == 0
  {
    if qs != [] {
      EmptyQueues(qs[1..], key, weight - 2);
    }
  }

  lemma {:induction false} WaitingHands(ws: seq<Worker>, key: Option<int>, weight: int)
    requires forall w :: 0 <= w < |ws| ==> ws[w] == Waiting
    ensures InHands(ws, key) == 0 && HandWork(ws, weight) == 0 && Live(ws) == |ws|
  {
    if ws != [] {
      WaitingHands(ws[1..], key, weight);
    }
  }

  lemma {:induction false} WaitingStages(wss: seq<seq<Worker>>, key: Option<int>, weight: int)
    requires forall i, w :: 0 <= i < |wss| && 0 <= w < |wss[i]| ==> wss[i][w] == Waiting
    ensures InAllHands(wss, key) == 0 && HandsWork(wss, weight) == 0
  {
    if wss != [] {
      WaitingHands(wss[0], key, weight);
      WaitingStages(wss[1..], key, weight - 2);
    }
  }

  lemma InitInv(p: Pipeline)
    ensures Inv(p, Init(p))
  {
    var s := Init(p);
    forall key ensures Copies(s, key) == Due(p, s.main, key) {
      EmptyQueues(s.queues, key, 0);
      WaitingStages(s.workers, key, 0);
    }
    forall i | 0 <= i < |p.stages| ensures StageOk(p, s.main, i, s.queues[i], s.workers[i]) {
      WaitingHands(s.workers[i], None, 0);
    }
  }

  lemma NextInv(p: Pipeline, s: State, step: Step)
    requires Valid(p) && Inv(p, s) && Enabled(p, s, step)
    ensures Inv(p, Next(p, s, step))
  {
    var t := Next(p, s, step);
    NextRight(p, s, step);
    NextPhased(p, s, step);
    forall key ensures Copies(t, key) == Due(p, t.main, key) {
      NextCopies(p, s, step, key);
    }
    if t.main.Finished? {
      forall k ensures InResults(s.results, Some(k)) <= 1 {
        assert Copies(s, Some(k)) == Due(p, s.main, Some(k));
      }
      SortedIsExpected(p, s.results);
    }
  }

  /** A schedule from the start: `states[i]` is reached after the first `i` steps. */
  ghost predicate IsRun(p: Pipeline, states: seq<State>, steps: seq<Step>) {
    && |states| == |steps| + 1 && states[0] == Init(p)
    && (forall i :: 0 <= i < |states| ==> Shape(p, states[i]))
    && (forall i :: 0 <= i < |steps| ==> Enabled(p, states[i], steps[i]) && states[i + 1] == Next(p, states[i], steps[i]))
  }

  function TotalSteps(p: Pipeline): int {
    (|p.items| + 1) * StepsPerItem(p) + 2 * WorkersFrom(p.stages)
  }

  lemma {:induction false} RunInv(p: Pipeline, states: seq<State>, steps: seq<Step>, i: nat)
    requires Valid(p) && IsRun(p, states, steps) && i <= |steps|
    ensures Inv(p, states[i])
  {
    if i == 0 {
      InitInv(p);
    } else {
      RunInv(p, states, steps, i - 1);
      NextInv(p, states[i - 1], steps[i - 1]);
    }
  }

  lemma InitSteps(p: Pipeline)
    ensures Shape(p, Init(p)) && StepsLeft(p, Init(p)) == TotalSteps(p)
  {
    var s := Init(p);
    EmptyQueues(s.queues, None, 2 * |p.stages| + 1);
    WaitingStages(s.workers, None, 2 * |p.stages|);
    ScaledIsProduct(|p.items| + 1, StepsPerItem(p));
  }

  lemma {:induction false} RunSteps(p: Pipeline, states: seq<State>, steps: seq<Step>, i: nat)
    requires IsRun(p, states, steps) && i <= |steps|
    ensures StepsLeft(p, states[i]) == TotalSteps(p) - i
  {
    if i == 0 {
      InitSteps(p);
    } else {
      RunSteps(p, states, steps, i - 1);
      NextStepsLeft(p, states[i - 1], steps[i - 1]);
    }
  }

  /** Safety: whatever the schedule, a result list that is returned holds at position `k` exactly
      document `k` after all stages. */
  lemma ReturnsExpected(p: Pipeline, states: seq<State>, steps: seq<Step>)
    requires Valid(p) && IsRun(p, states, steps)
    ensures var s := states[|steps|];
            s.main.Finished? ==> |s.main.out| == |p.items|
                                 && forall k :: 0 <= k < |p.items| ==> s.main.out[k] == Prefix(p, |p.stages|, k)
  {
    RunInv(p, states, steps, |steps|);
  }

  /** Termination: no schedule is longer than `TotalSteps`. */
  lemma RunsAreBounded(p: Pipeline, states: seq<State>, steps: seq<Step>)
    requires IsRun(p, states, steps)
    ensures |steps| <= TotalSteps(p)
  {
    RunSteps(p, states, steps, |steps|);
    StepsLeftNotNegative(p, states[|steps|]);
  }

  /** Liveness: with a worker in every stage, a schedule that cannot go on has returned the
      sequential answer. */
  lemma StuckMeansFinished(p: Pipeline, states: seq<State>, steps: seq<Step>)
    requires Valid(p) && Staffed(p) && IsRun(p, states, steps)
    requires forall step :: !Enabled(p, states[|steps|], step)
    ensures states[|steps|].main == Finished(Expected(p))
  {
    RunInv(p, states, steps, |steps|);
    var s := states[|steps|];
    if !s.main.Finished? {
      var step := NoDeadlock(p, s);
    }
  }

  // ---------------------------------------------------------------- a stage without workers

  /** Nothing gets past a stage that nobody serves. */
  ghost predicate Starved(p: Pipeline, z: nat, s: State) {
    && Shape(p, s) && z < |p.stages| && p.stages[z].workers == 0
    && !s.main.Finished? && s.results == []
    && (forall i :: z < i <= |p.stages| ==> InQueue(s.queues[i], None) == 0)
    && (forall i :: z < i < |p.stages| ==> InHands(s.workers[i], None) == 0)
  }

  lemma {:induction false} SomeHand(ws: seq<Worker>, w: nat)
    requires w < |ws| && ws[w].Holding?
    ensures InHands(ws, None) > 0
  {
    if w > 0 {
      SomeHand(ws[1..], w - 1);
    }
  }

  lemma StaysStarved(p: Pipeline, z: nat, s: State, step: Step)
    requires p.items != [] && Starved(p, z, s) && Enabled(p, s, step)
    ensures Starved(p, z, Next(p, s, step))
  {
    NextShape(p, s, step);
    match step
    case MainStep =>
      if s.main.Closing? {
        InQueueAppend(s.queues[s.main.stage], Sentinel, None);
      }
    case Get(i, w) =>
      var m := s.queues[i][0];
      InHandsUpdate(s.workers[i], w, if m.Item? then Holding(m.ctx) else Exited, None);
    case Put(i, w) =>
      SomeHand(s.workers[i], w);
      InHandsUpdate(s.workers[i], w, Waiting, None);
  }

  lemma {:induction false} StarvedRun(p: Pipeline, z: nat, states: seq<State>, steps: seq<Step>, i: nat)
    requires IsRun(p, states, steps) && i <= |steps|
    requires p.items != [] && z < |p.stages| && p.stages[z].workers == 0
    ensures Starved(p, z, states[i])
  {
    if i == 0 {
      forall j | 0 <= j < |p.stages| ensures InHands(states[0].workers[j], None) == 0 {
        WaitingHands(states[0].workers[j], None, 0);
      }
    } else {
      StarvedRun(p, z, states, steps, i - 1);
      StaysStarved(p, z, states[i - 1], steps[i - 1]);
    }
  }

  /** The exact condition: given documents, `process_all` can return only if every stage has a worker. */
  lemma UnstaffedNeverReturns(p: Pipeline, states: seq<State>, steps: seq<Step>)
    requires !Staffed(p) && IsRun(p, states, steps)
    ensures !states[|steps|].main.Finished?
  {
    var z :| 0 <= z < |p.stages| && p.stages[z].workers < 1;
    StarvedRun(p, z, states, steps, |steps|);
  }
}
