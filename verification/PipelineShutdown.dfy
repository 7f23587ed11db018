/** knowledge_mining/mining/pipeline.py: stages close one after the other, and some step is always possible. */
module PipelineShutdown {
  import opened Common
  import opened PipelinePlaces
  import opened StreamingPipeline

  // ---------------------------------------------------------------- stages close one after the other

  function Sentinels(q: seq<Message>): nat {
    if q == [] then 0 else One(q[0].Sentinel?) + Sentinels(q[1..])
  }

  /** Every document precedes every sentinel. */
  predicate ItemsFirst(q: seq<Message>) {
    q == [] || (if q[0].Sentinel? then InQueue(q, None) == 0 else ItemsFirst(q[1..]))
  }

  /** The main thread has joined stage `i`. */
  predicate Passed(m: Main, i: nat) {
    match m
    case Feeding(_) => false
    case Closing(j, _) => i < j
    case Joining(j) => i < j
    case Collecting => true
    case Finished(_) => true
  }

  /** The sentinels stage `i` has yet to be sent. */
  function Unsent(p: Pipeline, m: Main, i: nat): int
    requires i < |p.stages|
  {
    if Passed(m, i) || m == Joining(i) then 0
    else if m.Closing? && m.stage == i then p.stages[i].workers - m.sent
    else p.stages[i].workers
  }

  /** The sentinels sent and to be sent match the live workers; once a worker has exited no document
      is left in its queue; a stage that was joined has no live worker. */
  ghost predicate StageOk(p: Pipeline, m: Main, i: nat, q: seq<Message>, ws: seq<Worker>)
    requires i < |p.stages|
  {
    && Sentinels(q) + Unsent(p, m, i) == Live(ws)
    && ItemsFirst(q)
    && (Live(ws) < |ws| ==> InQueue(q, None) == 0)
    && (Passed(m, i) ==> Live(ws) == 0)
  }

  ghost predicate Phased(p: Pipeline, s: State)
    requires Shape(p, s)
  {
    && (forall i :: 0 <= i < |p.stages| ==> StageOk(p, s.main, i, s.queues[i], s.workers[i]))
    && Sentinels(s.queues[|p.stages|]) == 0
  }

  lemma {:induction false} LiveBound(ws: seq<Worker>)
    ensures Live(ws) <= |ws|
    ensures Live(ws) == 0 ==> InHands(ws, None) == 0
  {
    if ws != [] {
      LiveBound(ws[1..]);
    }
  }

  lemma {:induction false} LiveUpdate(ws: seq<Worker>, w: nat, x: Worker)
    requires w < |ws|
    ensures Live(ws[w := x]) + One(!ws[w].Exited?) == Live(ws) + One(!x.Exited?)
    ensures !ws[w].Exited? ==> Live(ws) > 0
  {
    if w == 0 {
      assert ws[w := x][1..] == ws[1..];
    } else {
      assert ws[w := x][1..] == ws[1..][w - 1 := x];
      LiveUpdate(ws[1..], w - 1, x);
    }
  }

  lemma {:induction false} FindLive(ws: seq<Worker>) returns (w: nat)
    requires Live(ws) > 0
    ensures w < |ws| && !ws[w].Exited?
  {
    w := 0;
    if ws[0].Exited? {
      var v := FindLive(ws[1..]);
      w := v + 1;
    }
  }

  lemma {:induction false} AppendOrder(q: seq<Message>, m: Message)
    ensures Sentinels(q + [m]) == Sentinels(q) + One(m.Sentinel?)
    ensures ItemsFirst(q) && (m.Sentinel? || Sentinels(q) == 0) ==> ItemsFirst(q + [m])
  {
    if q == [] {
      assert q + [m] == [m];
    } else {
      assert (q + [m])[0] == q[0] && (q + [m])[1..] == q[1..] + [m];
      AppendOrder(q[1..], m);
      InQueueAppend(q, m, None);
    }
  }

  lemma TailOrder(q: seq<Message>)
    requires q != [] && ItemsFirst(q)
    ensures ItemsFirst(q[1..])
  {
    if q[0].Sentinel? && q[1..] != [] {
      assert InQueue(q[1..], None) == 0;
    }
  }

  lemma NextPhased(p: Pipeline, s: State, step: Step)
    requires Shape(p, s) && Enabled(p, s, step) && Phased(p, s)
    ensures Shape(p, Next(p, s, step)) && Phased(p, Next(p, s, step))
  {
    NextShape(p, s, step);
    match step
    case MainStep => MainPhased(p, s);
    case Get(i, w) => GetPhased(p, s, i, w);
    case Put(i, w) => PutPhased(p, s, i, w);
  }

  lemma MainPhased(p: Pipeline, s: State)
    requires Shape(p, s) && Enabled(p, s, MainStep) && Phased(p, s)
    ensures Shape(p, AfterMain(p, s)) && Phased(p, AfterMain(p, s))
  {
    NextShape(p, s, MainStep);
    var t := AfterMain(p, s);
    forall i | 0 <= i < |p.stages| ensures StageOk(p, t.main, i, t.queues[i], t.workers[i]) {
      assert StageOk(p, s.main, i, s.queues[i], s.workers[i]);
      LiveBound(s.workers[i]);
      if s.main.Feeding? && s.main.fed < |p.items| && i == 0 {
        var m := Item(p.items[s.main.fed].(sequenceId := s.main.fed));
        AppendOrder(s.queues[0], m);
      } else if s.main.Closing? && s.main.stage == i && s.main.sent < p.stages[i].workers {
        AppendOrder(s.queues[i], Sentinel);
        InQueueAppend(s.queues[i], Sentinel, None);
      }
    }
    if s.main.Feeding? && s.main.fed < |p.items| && |p.stages| == 0 {
      AppendOrder(s.queues[0], Item(p.items[s.main.fed].(sequenceId := s.main.fed)));
    }
  }

  lemma GetPhased(p: Pipeline, s: State, i: nat, w: nat)
    requires Shape(p, s) && Enabled(p, s, Get(i, w)) && Phased(p, s)
    ensures Shape(p, AfterGet(p, s, i, w)) && Phased(p, AfterGet(p, s, i, w))
  {
    NextShape(p, s, Get(i, w));
    var t := AfterGet(p, s, i, w);
    var m := s.queues[i][0];
    assert StageOk(p, s.main, i, s.queues[i], s.workers[i]);
    LiveUpdate(s.workers[i], w, if m.Item? then Holding(m.ctx) else Exited);
    TailOrder(s.queues[i]);
    assert StageOk(p, t.main, i, t.queues[i], t.workers[i]);
    forall j | 0 <= j < |p.stages| && j != i ensures StageOk(p, t.main, j, t.queues[j], t.workers[j]) {
      assert StageOk(p, s.main, j, s.queues[j], s.workers[j]);
    }
  }

  lemma PutPhased(p: Pipeline, s: State, i: nat, w: nat)
    requires Shape(p, s) && Enabled(p, s, Put(i, w)) && Phased(p, s)
    ensures Shape(p, AfterPut(p, s, i, w)) && Phased(p, AfterPut(p, s, i, w))
  {
    NextShape(p, s, Put(i, w));
    var t := AfterPut(p, s, i, w);
    var m := Item(Work(p.stages[i], p.tracked, s.workers[i][w].ctx));
    LiveUpdate(s.workers[i], w, Waiting);
    AppendOrder(s.queues[i + 1], m);
    assert StageOk(p, s.main, i, s.queues[i], s.workers[i]);
    assert !Passed(s.main, i);
    forall j | 0 <= j < |p.stages| ensures StageOk(p, t.main, j, t.queues[j], t.workers[j]) {
      assert StageOk(p, s.main, j, s.queues[j], s.workers[j]);
      LiveBound(s.workers[j]);
    }
  }

  // ---------------------------------------------------------------- some step is always possible

  /** Every stage has a worker, or there is nothing to do. */
  predicate Staffed(p: Pipeline) {
    p.items == [] || forall i :: 0 <= i < |p.stages| ==> p.stages[i].workers >= 1
  }

  lemma {:induction false} AllResults(rs: seq<Ctx>)
    ensures InResults(rs, None) == |rs|
  {
    if rs != [] {
      AllResults(rs[1..]);
    }
  }

  lemma {:induction false} OnlyLastQueue(qs: seq<seq<Message>>)
    requires qs != []
    requires forall i :: 0 <= i < |qs| - 1 ==> InQueue(qs[i], None) == 0
    ensures InQueues(qs, None) == InQueue(qs[|qs| - 1], None)
  {
    if |qs| == 1 {
      assert InQueues(qs[1..], None) == 0;
    } else {
      OnlyLastQueue(qs[1..]);
    }
  }

  lemma {:induction false} NoHands(wss: seq<seq<Worker>>)
    requires forall i :: 0 <= i < |wss| ==> InHands(wss[i], None) == 0
    ensures InAllHands(wss, None) == 0
  {
    if wss != [] {
      NoHands(wss[1..]);
    }
  }

  lemma {:induction false} ItemInFront(q: seq<Message>)
    requires Sentinels(q) == 0
    ensures InQueue(q, None) == |q|
  {
    if q != [] {
      ItemInFront(q[1..]);
    }
  }

  /** When the main thread collects, all documents are in the last queue or collected. */
  lemma LastQueueHoldsRest(p: Pipeline, s: State)
    requires Shape(p, s) && Phased(p, s) && Staffed(p) && p.items != []
    requires s.main.Collecting? && Copies(s, None) == |p.items|
    ensures |s.queues[|p.stages|]| + |s.results| == |p.items|
  {
    forall i | 0 <= i < |p.stages|
      ensures InQueue(s.queues[i], None) == 0 && InHands(s.workers[i], None) == 0
    {
      assert StageOk(p, s.main, i, s.queues[i], s.workers[i]);
      LiveBound(s.workers[i]);
    }
    OnlyLastQueue(s.queues);
    NoHands(s.workers);
    AllResults(s.results);
    ItemInFront(s.queues[|p.stages|]);
  }

  /** Deadlock freedom: until `process_all` has returned, some thread can move. */
  lemma NoDeadlock(p: Pipeline, s: State) returns (step: Step)
    requires Shape(p, s) && Phased(p, s) && Staffed(p)
    requires Copies(s, None) == Due(p, s.main, None)
    requires !s.main.Finished?
    ensures Enabled(p, s, step)
  {
    step := MainStep;
    match s.main
    case Feeding(_) =>
    case Closing(_, _) =>
    case Joining(i) =>
      assert StageOk(p, s.main, i, s.queues[i], s.workers[i]);
      if Live(s.workers[i]) > 0 {
        var w := FindLive(s.workers[i]);
        step := if s.workers[i][w].Holding? then Put(i, w) else Get(i, w);
        assert s.queues[i] != [];
      }
    case Collecting =>
      if |s.results| != |p.items| {
        if p.items == [] {
          AllResults(s.results);
        } else {
          LastQueueHoldsRest(p, s);
          ItemInFront(s.queues[|p.stages|]);
        }
      }
  }
}
