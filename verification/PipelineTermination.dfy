/** knowledge_mining/mining/pipeline.py: every schedule comes to an end. */
module PipelineTermination {
  import opened PipelinePlaces
  import opened StreamingPipeline

  // ---------------------------------------------------------------- every schedule comes to an end

  /** A document in a queue counts `weight`, a sentinel 1. */
  function QueueWork(q: seq<Message>, weight: int): int {
    if q == [] then 0 else (if q[0].Item? then weight else 1) + QueueWork(q[1..], weight)
  }

  function HandWork(ws: seq<Worker>, weight: int): int {
    if ws == [] then 0 else (if ws[0].Holding? then weight else 0) + HandWork(ws[1..], weight)
  }

  /** The first queue at `weight`, each later one at two less. */
  function QueuesWork(qs: seq<seq<Message>>, weight: int): int {
    if qs == [] then 0 else QueueWork(qs[0], weight) + QueuesWork(qs[1..], weight - 2)
  }

  function HandsWork(wss: seq<seq<Worker>>, weight: int): int {
    if wss == [] then 0 else HandWork(wss[0], weight) + HandsWork(wss[1..], weight - 2)
  }

  function WorkersFrom(stages: seq<Stage>): nat {
    if stages == [] then 0 else stages[0].workers + WorkersFrom(stages[1..])
  }

  function ToSend(p: Pipeline, m: Main): int {
    match m
    case Feeding(_) => WorkersFrom(p.stages)
    case Closing(i, sent) => (if i < |p.stages| then WorkersFrom(p.stages[i..]) else 0) - sent
    case Joining(i) => if i < |p.stages| then WorkersFrom(p.stages[i + 1..]) else 0
    case Collecting => 0
    case Finished(_) => 0
  }

  function Rank(p: Pipeline, m: Main): int {
    var n := |p.stages|;
    match m
    case Feeding(_) => 2 * n + 2
    case Closing(i, _) => 2 * (n - i) + 1
    case Joining(i) => 2 * (n - i)
    case Collecting => 1
    case Finished(_) => 0
  }

  /** The steps a document takes from the input list to the result list. */
  function StepsPerItem(p: Pipeline): int { 2 * |p.stages| + 2 }

  /** `k` times `c`. */
  function Scaled(k: int, c: int): int {
    if k <= 0 then 0 else c + Scaled(k - 1, c)
  }

  /** The number of steps still to be taken, whatever the schedule. */
  function StepsLeft(p: Pipeline, s: State): int {
    var unfed := |p.items| - Fed(p, s.main);
    Rank(p, s.main) + Scaled(unfed, StepsPerItem(p)) + 2 * ToSend(p, s.main)
      + QueuesWork(s.queues, 2 * |p.stages| + 1) + HandsWork(s.workers, 2 * |p.stages|)
  }

  lemma {:induction false} QueueWorkAppend(q: seq<Message>, m: Message, weight: int)
    ensures QueueWork(q + [m], weight) == QueueWork(q, weight) + if m.Item? then weight else 1
  {
    if q == [] {
      assert q + [m] == [m];
    } else {
      assert (q + [m])[0] == q[0] && (q + [m])[1..] == q[1..] + [m];
      QueueWorkAppend(q[1..], m, weight);
    }
  }

  lemma {:induction false} HandWorkUpdate(ws: seq<Worker>, w: nat, x: Worker, weight: int)
    requires w < |ws|
    ensures HandWork(ws[w := x], weight) == HandWork(ws, weight)
              + (if x.Holding? then weight else 0) - (if ws[w].Holding? then weight else 0)
  {
    if w == 0 {
      assert ws[w := x][1..] == ws[1..];
    } else {
      assert ws[w := x][1..] == ws[1..][w - 1 := x];
      HandWorkUpdate(ws[1..], w - 1, x, weight);
    }
  }

  lemma {:induction false} QueuesWorkUpdate(qs: seq<seq<Message>>, i: nat, q: seq<Message>, weight: int)
    requires i < |qs|
    ensures QueuesWork(qs[i := q], weight) == QueuesWork(qs, weight)
              + QueueWork(q, weight - 2 * i) - QueueWork(qs[i], weight - 2 * i)
  {
    if i == 0 {
      assert qs[i := q][1..] == qs[1..];
    } else {
      assert qs[i := q][1..] == qs[1..][i - 1 := q];
      QueuesWorkUpdate(qs[1..], i - 1, q, weight - 2);
    }
  }

  lemma {:induction false} HandsWorkUpdate(wss: seq<seq<Worker>>, i: nat, ws: seq<Worker>, weight: int)
    requires i < |wss|
    ensures HandsWork(wss[i := ws], weight) == HandsWork(wss, weight)
              + HandWork(ws, weight - 2 * i) - HandWork(wss[i], weight - 2 * i)
  {
    if i == 0 {
      assert wss[i := ws][1..] == wss[1..];
    } else {
      assert wss[i := ws][1..] == wss[1..][i - 1 := ws];
      HandsWorkUpdate(wss[1..], i - 1, ws, weight - 2);
    }
  }

  lemma EnqueueWork(s: State, i: nat, m: Message, weight: int)
    requires i < |s.queues|
    ensures QueuesWork(Enqueue(s, i, m).queues, weight)
         == QueuesWork(s.queues, weight) + if m.Item? then weight - 2 * i else 1
  {
    QueuesWorkUpdate(s.queues, i, s.queues[i] + [m], weight);
    QueueWorkAppend(s.queues[i], m, weight - 2 * i);
  }

  lemma SetWorkerWork(s: State, i: nat, w: nat, x: Worker, weight: int)
    requires i < |s.workers| && w < |s.workers[i]|
    ensures HandsWork(SetWorker(s, i, w, x).workers, weight) == HandsWork(s.workers, weight)
              + (if x.Holding? then weight - 2 * i else 0) - (if s.workers[i][w].Holding? then weight - 2 * i else 0)
  {
    HandsWorkUpdate(s.workers, i, s.workers[i][w := x], weight);
    HandWorkUpdate(s.workers[i], w, x, weight - 2 * i);
  }

  /** Each step is one step less to take. */
  lemma NextStepsLeft(p: Pipeline, s: State, step: Step)
    requires Shape(p, s) && Enabled(p, s, step)
    ensures StepsLeft(p, Next(p, s, step)) == StepsLeft(p, s) - 1
  {
    var n := |p.stages|;
    match step
    case MainStep => MainStepsLeft(p, s);
    case Get(i, w) =>
      var m := s.queues[i][0];
      SetWorkerWork(s, i, w, if m.Item? then Holding(m.ctx) else Exited, 2 * n);
      QueuesWorkUpdate(s.queues, i, s.queues[i][1..], 2 * n + 1);
    case Put(i, w) =>
      SetWorkerWork(s, i, w, Waiting, 2 * n);
      EnqueueWork(SetWorker(s, i, w, Waiting), i + 1, Item(Work(p.stages[i], p.tracked, s.workers[i][w].ctx)), 2 * n + 1);
  }

  lemma FeedStepsLeft(p: Pipeline, s: State)
    requires Shape(p, s) && s.main.Feeding?
    ensures StepsLeft(p, AfterMain(p, s)) == StepsLeft(p, s) - 1
  {
    assert p.stages[0..] == p.stages;
    var k := s.main.fed;
    if k < |p.items| {
      EnqueueWork(s, 0, Item(p.items[k].(sequenceId := k)), 2 * |p.stages| + 1);
    }
  }

  lemma CloseStepsLeft(p: Pipeline, s: State)
    requires Shape(p, s) && s.main.Closing?
    ensures StepsLeft(p, AfterMain(p, s)) == StepsLeft(p, s) - 1
  {
    var i := s.main.stage;
    EnqueueWork(s, i, Sentinel, 2 * |p.stages| + 1);
    assert p.stages[i..][1..] == p.stages[i + 1..];
  }

  lemma MainStepsLeft(p: Pipeline, s: State)
    requires Shape(p, s) && Enabled(p, s, MainStep)
    ensures StepsLeft(p, AfterMain(p, s)) == StepsLeft(p, s) - 1
  {
    var n := |p.stages|;
    match s.main
    case Feeding(_) => FeedStepsLeft(p, s);
    case Closing(_, _) => CloseStepsLeft(p, s);
    case Joining(i) =>
      assert p.stages[i + 1..] == [] || i + 1 < n;
    case Collecting =>
      if |s.results| != |p.items| {
        QueuesWorkUpdate(s.queues, n, s.queues[n][1..], 2 * n + 1);
      }
  }

  lemma {:induction false} WorkNotNegative(qs: seq<seq<Message>>, wss: seq<seq<Worker>>, n: nat)
    requires |qs| == n + 1 && |wss| == n
    ensures QueuesWork(qs, 2 * n + 1) >= 0 && HandsWork(wss, 2 * n) >= 0
  {
    QueueWorkNotNegative(qs[0], 2 * n + 1);
    if n > 0 {
      HandWorkNotNegative(wss[0], 2 * n);
      WorkNotNegative(qs[1..], wss[1..], n - 1);
    }
  }

  lemma {:induction false} QueueWorkNotNegative(q: seq<Message>, weight: nat)
    ensures QueueWork(q, weight) >= 0
  {
    if q != [] {
      QueueWorkNotNegative(q[1..], weight);
    }
  }

  lemma {:induction false} HandWorkNotNegative(ws: seq<Worker>, weight: nat)
    ensures HandWork(ws, weight) >= 0
  {
    if ws != [] {
      HandWorkNotNegative(ws[1..], weight);
    }
  }

  lemma {:induction false} ScaledIsProduct(k: nat, c: nat)
    ensures Scaled(k, c) == k * c && Scaled(k, c) >= 0
  {
    if k > 0 {
      ScaledIsProduct(k - 1, c);
      assert k * c == (k - 1) * c + c;
    }
  }

  lemma StepsLeftNotNegative(p: Pipeline, s: State)
    requires Shape(p, s)
    ensures StepsLeft(p, s) >= 0
  {
    WorkNotNegative(s.queues, s.workers, |p.stages|);
    ScaledIsProduct(|p.items| - Fed(p, s.main), StepsPerItem(p));
  }
}
