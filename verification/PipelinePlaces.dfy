/** knowledge_mining/mining/pipeline.py: every document is where it should be, and none is lost or doubled. */
module PipelinePlaces {
  import opened Common
  import opened StreamingPipeline

  // ---------------------------------------------------------------- every document is where it should be

  ghost predicate At(p: Pipeline, i: nat, c: Ctx)
    requires i <= |p.stages|
  {
    0 <= c.sequenceId < |p.items| && c == Prefix(p, i, c.sequenceId)
  }

  ghost predicate QueueRight(p: Pipeline, i: nat, q: seq<Message>)
    requires i <= |p.stages|
  {
    forall m :: 0 <= m < |q| && q[m].Item? ==> At(p, i, q[m].ctx)
  }

  ghost predicate WorkersRight(p: Pipeline, i: nat, ws: seq<Worker>)
    requires i <= |p.stages|
  {
    forall w :: 0 <= w < |ws| && ws[w].Holding? ==> At(p, i, ws[w].ctx)
  }

  /** Wherever a document is, it is what its first stages, run one after the other, made of it. */
  ghost predicate Right(p: Pipeline, s: State)
    requires Shape(p, s)
  {
    && (forall i :: 0 <= i <= |p.stages| ==> QueueRight(p, i, s.queues[i]))
    && (forall i :: 0 <= i < |p.stages| ==> WorkersRight(p, i, s.workers[i]))
    && (forall r :: 0 <= r < |s.results| ==> At(p, |p.stages|, s.results[r]))
  }

  lemma NextRight(p: Pipeline, s: State, step: Step)
    requires Valid(p) && Shape(p, s) && Enabled(p, s, step) && Right(p, s)
    ensures Shape(p, Next(p, s, step)) && Right(p, Next(p, s, step))
  {
    NextShape(p, s, step);
    match step
    case MainStep => MainRight(p, s);
    case Get(i, w) => GetRight(p, s, i, w);
    case Put(i, w) => PutRight(p, s, i, w);
  }

  lemma MainRight(p: Pipeline, s: State)
    requires Shape(p, s) && Enabled(p, s, MainStep) && Right(p, s)
    ensures Shape(p, AfterMain(p, s)) && Right(p, AfterMain(p, s))
  {
    NextShape(p, s, MainStep);
    var t := AfterMain(p, s);
    match s.main
    case Feeding(k) =>
      if k < |p.items| {
        assert QueueRight(p, 0, s.queues[0]);
        assert At(p, 0, p.items[k].(sequenceId := k));
        assert QueueRight(p, 0, t.queues[0]);
      }
    case Closing(i, sent) =>
      assert QueueRight(p, i, s.queues[i]);
      assert QueueRight(p, i, t.queues[i]);
    case Joining(_) =>
    case Collecting =>
      assert QueueRight(p, |p.stages|, s.queues[|p.stages|]);
      assert QueueRight(p, |p.stages|, t.queues[|p.stages|]);
    case Finished(_) =>
  }

  lemma GetRight(p: Pipeline, s: State, i: nat, w: nat)
    requires Shape(p, s) && Enabled(p, s, Get(i, w)) && Right(p, s)
    ensures Shape(p, AfterGet(p, s, i, w)) && Right(p, AfterGet(p, s, i, w))
  {
    NextShape(p, s, Get(i, w));
    var t := AfterGet(p, s, i, w);
    assert QueueRight(p, i, s.queues[i]) && WorkersRight(p, i, s.workers[i]);
    assert QueueRight(p, i, t.queues[i]);
    assert WorkersRight(p, i, t.workers[i]);
  }

  lemma PutRight(p: Pipeline, s: State, i: nat, w: nat)
    requires Valid(p) && Shape(p, s) && Enabled(p, s, Put(i, w)) && Right(p, s)
    ensures Shape(p, AfterPut(p, s, i, w)) && Right(p, AfterPut(p, s, i, w))
  {
    NextShape(p, s, Put(i, w));
    var t := AfterPut(p, s, i, w);
    var c := s.workers[i][w].ctx;
    assert WorkersRight(p, i, s.workers[i]) && QueueRight(p, i + 1, s.queues[i + 1]);
    PrefixKeepsSequence(p, i + 1, c.sequenceId);
    assert At(p, i + 1, Work(p.stages[i], p.tracked, c));
    assert WorkersRight(p, i, t.workers[i]);
    assert QueueRight(p, i + 1, t.queues[i + 1]);
  }

  // ---------------------------------------------------------------- no document is lost or duplicated

  /** Whether `c` is counted: every document, or only the one numbered `key`. */
  predicate Counts(c: Ctx, key: Option<int>) {
    key.None? || c.sequenceId == key.value
  }

  function One(b: bool): nat { if b then 1 else 0 }

  function InQueue(q: seq<Message>, key: Option<int>): nat {
    if q == [] then 0 else One(q[0].Item? && Counts(q[0].ctx, key)) + InQueue(q[1..], key)
  }

  function InHands(ws: seq<Worker>, key: Option<int>): nat {
    if ws == [] then 0 else One(ws[0].Holding? && Counts(ws[0].ctx, key)) + InHands(ws[1..], key)
  }

  function InResults(rs: seq<Ctx>, key: Option<int>): nat {
    if rs == [] then 0 else One(Counts(rs[0], key)) + InResults(rs[1..], key)
  }

  function InQueues(qs: seq<seq<Message>>, key: Option<int>): nat {
    if qs == [] then 0 else InQueue(qs[0], key) + InQueues(qs[1..], key)
  }

  function InAllHands(wss: seq<seq<Worker>>, key: Option<int>): nat {
    if wss == [] then 0 else InHands(wss[0], key) + InAllHands(wss[1..], key)
  }

  /** How many copies of the counted documents the network holds. */
  function Copies(s: State, key: Option<int>): nat {
    InQueues(s.queues, key) + InAllHands(s.workers, key) + InResults(s.results, key)
  }

  function Fed(p: Pipeline, m: Main): int {
    match m
    case Feeding(k) => k
    case _ => |p.items|
  }

  function Due(p: Pipeline, m: Main, key: Option<int>): int {
    if key.None? then Fed(p, m) else One(0 <= key.value < Fed(p, m))
  }

  lemma {:induction false} InQueueAppend(q: seq<Message>, m: Message, key: Option<int>)
    ensures InQueue(q + [m], key) == InQueue(q, key) + One(m.Item? && Counts(m.ctx, key))
  {
    if q == [] {
      assert q + [m] == [m];
    } else {
      assert (q + [m])[0] == q[0] && (q + [m])[1..] == q[1..] + [m];
      InQueueAppend(q[1..], m, key);
    }
  }

  lemma {:induction false} InResultsAppend(rs: seq<Ctx>, c: Ctx, key: Option<int>)
    ensures InResults(rs + [c], key) == InResults(rs, key) + One(Counts(c, key))
  {
    if rs == [] {
      assert rs + [c] == [c];
    } else {
      assert (rs + [c])[0] == rs[0] && (rs + [c])[1..] == rs[1..] + [c];
      InResultsAppend(rs[1..], c, key);
    }
  }

  lemma {:induction false} InHandsUpdate(ws: seq<Worker>, w: nat, x: Worker, key: Option<int>)
    requires w < |ws|
    ensures InHands(ws[w := x], key) + One(ws[w].Holding? && Counts(ws[w].ctx, key))
         == InHands(ws, key) + One(x.Holding? && Counts(x.ctx, key))
  {
    if w == 0 {
      assert ws[w := x][1..] == ws[1..];
    } else {
      assert ws[w := x][1..] == ws[1..][w - 1 := x];
      InHandsUpdate(ws[1..], w - 1, x, key);
    }
  }

  lemma {:induction false} InQueuesUpdate(qs: seq<seq<Message>>, i: nat, q: seq<Message>, key: Option<int>)
    requires i < |qs|
    ensures InQueues(qs[i := q], key) + InQueue(qs[i], key) == InQueues(qs, key) + InQueue(q, key)
  {
    if i == 0 {
      assert qs[i := q][1..] == qs[1..];
    } else {
      assert qs[i := q][1..] == qs[1..][i - 1 := q];
      InQueuesUpdate(qs[1..], i - 1, q, key);
    }
  }

  lemma {:induction false} InAllHandsUpdate(wss: seq<seq<Worker>>, i: nat, ws: seq<Worker>, key: Option<int>)
    requires i < |wss|
    ensures InAllHands(wss[i := ws], key) + InHands(wss[i], key) == InAllHands(wss, key) + InHands(ws, key)
  {
    if i == 0 {
      assert wss[i := ws][1..] == wss[1..];
    } else {
      assert wss[i := ws][1..] == wss[1..][i - 1 := ws];
      InAllHandsUpdate(wss[1..], i - 1, ws, key);
    }
  }

  lemma EnqueueCopies(s: State, i: nat, m: Message, key: Option<int>)
    requires i < |s.queues|
    ensures Copies(Enqueue(s, i, m), key) == Copies(s, key) + One(m.Item? && Counts(m.ctx, key))
  {
    InQueuesUpdate(s.queues, i, s.queues[i] + [m], key);
    InQueueAppend(s.queues[i], m, key);
  }

  lemma SetWorkerCopies(s: State, i: nat, w: nat, x: Worker, key: Option<int>)
    requires i < |s.workers| && w < |s.workers[i]|
    ensures Copies(SetWorker(s, i, w, x), key) + One(s.workers[i][w].Holding? && Counts(s.workers[i][w].ctx, key))
         == Copies(s, key) + One(x.Holding? && Counts(x.ctx, key))
  {
    InAllHandsUpdate(s.workers, i, s.workers[i][w := x], key);
    InHandsUpdate(s.workers[i], w, x, key);
  }

  /** Conservation: a step adds a copy only by feeding the next document. */
  lemma NextCopies(p: Pipeline, s: State, step: Step, key: Option<int>)
    requires Valid(p) && Shape(p, s) && Enabled(p, s, step) && Right(p, s)
    requires Copies(s, key) == Due(p, s.main, key)
    ensures Copies(Next(p, s, step), key) == Due(p, Next(p, s, step).main, key)
  {
    match step
    case MainStep => MainCopies(p, s, key);
    case Get(i, w) => GetCopies(p, s, i, w, key);
    case Put(i, w) =>
      var c := s.workers[i][w].ctx;
      assert WorkersRight(p, i, s.workers[i]);
      assert At(p, i, c);
      PrefixKeepsSequence(p, i + 1, c.sequenceId);
      SetWorkerCopies(s, i, w, Waiting, key);
      EnqueueCopies(SetWorker(s, i, w, Waiting), i + 1, Item(Work(p.stages[i], p.tracked, c)), key);
  }

  lemma MainCopies(p: Pipeline, s: State, key: Option<int>)
    requires Shape(p, s) && Enabled(p, s, MainStep)
    requires Copies(s, key) == Due(p, s.main, key)
    ensures Copies(AfterMain(p, s), key) == Due(p, AfterMain(p, s).main, key)
  {
    match s.main
    case Feeding(k) =>
      if k < |p.items| {
        EnqueueCopies(s, 0, Item(p.items[k].(sequenceId := k)), key);
      }
    case Closing(i, sent) => EnqueueCopies(s, i, Sentinel, key);
    case Joining(_) =>
    case Collecting =>
      if |s.results| != |p.items| {
        var q := s.queues[|p.stages|];
        InQueuesUpdate(s.queues, |p.stages|, q[1..], key);
        InResultsAppend(s.results, q[0].ctx, key);
      }
  }

  lemma GetCopies(p: Pipeline, s: State, i: nat, w: nat, key: Option<int>)
    requires Shape(p, s) && Enabled(p, s, Get(i, w))
    ensures Copies(AfterGet(p, s, i, w), key) == Copies(s, key)
  {
    var m := s.queues[i][0];
    SetWorkerCopies(s, i, w, if m.Item? then Holding(m.ctx) else Exited, key);
    InQueuesUpdate(s.queues, i, s.queues[i][1..], key);
  }
}
