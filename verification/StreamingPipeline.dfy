/** knowledge_mining/mining/pipeline.py: documents flowing through stages of concurrent workers.
    Every queue operation, every stage call and every join is one step; a schedule is any
    sequence of enabled steps. */
module StreamingPipeline {
  import opened Common
  import opened StableSort

  const ERROR_MAX_CHARS: nat := 500

  /** A document context: the fields the queue network reads, and the rest as one value. */
  datatype Ctx = Ctx(sequenceId: int, error: Option<string>, runDocumentId: Option<string>, payload: string)

  datatype Outcome = Returned(ctx: Ctx) | Raised(message: string)

  datatype Stage = Stage(run: Ctx -> Outcome, workers: nat)

  /** `tracked` says that a run id and a tracker were given. */
  datatype Pipeline = Pipeline(stages: seq<Stage>, tracked: bool, items: seq<Ctx>)

  datatype Message = Item(ctx: Ctx) | Sentinel

  datatype Worker = Waiting | Holding(ctx: Ctx) | Exited

  datatype Main =
    | Feeding(fed: nat)
    | Closing(stage: nat, sent: nat)
    | Joining(stage: nat)
    | Collecting
    | Finished(out: seq<Ctx>)

  datatype State = State(main: Main, queues: seq<seq<Message>>, workers: seq<seq<Worker>>, results: seq<Ctx>)

  datatype Step = MainStep | Get(stage: nat, worker: nat) | Put(stage: nat, worker: nat)

  // ---------------------------------------------------------------- one worker on one document

  /** Python's truth value of the error field: an empty message does not count. */
  predicate HasError(c: Ctx) {
    c.error.Some? && c.error.value != ""
  }

  /** What a worker of `stage` puts out for `c`: a document that failed upstream is passed on, an
      exception becomes the document's error. */
  function Work(stage: Stage, tracked: bool, c: Ctx): Ctx {
    if tracked && c.runDocumentId.Some? && HasError(c) then c
    else
      match stage.run(c)
      case Returned(r) => r
      case Raised(m) => c.(error := Some(if |m| <= ERROR_MAX_CHARS then m else m[..ERROR_MAX_CHARS]))
  }

  ghost predicate KeepsSequence(stage: Stage) {
    forall c: Ctx :: stage.run(c).Returned? ==> stage.run(c).ctx.sequenceId == c.sequenceId
  }

  // ---------------------------------------------------------------- the machine

  function StartClosing(p: Pipeline, i: nat): Main {
    if i < |p.stages| then Closing(i, 0) else Collecting
  }

  predicate Shape(p: Pipeline, s: State) {
    && |s.queues| == |p.stages| + 1 && |s.workers| == |p.stages|
    && (forall i :: 0 <= i < |p.stages| ==> |s.workers[i]| == p.stages[i].workers)
    && match s.main
       case Feeding(k) => k <= |p.items|
       case Closing(i, sent) => i < |p.stages| && sent <= p.stages[i].workers
       case Joining(i) => i < |p.stages|
       case Collecting => true
       case Finished(_) => true
  }

  function Init(p: Pipeline): State {
    State(Feeding(0), seq(|p.stages| + 1, _ => []),
          seq(|p.stages|, i requires 0 <= i < |p.stages| => seq(p.stages[i].workers, _ => Waiting)), [])
  }

  /** The number of workers that have not exited. */
  function Live(ws: seq<Worker>): nat {
    if ws == [] then 0 else (if ws[0].Exited? then 0 else 1) + Live(ws[1..])
  }

  predicate Enabled(p: Pipeline, s: State, step: Step)
    requires Shape(p, s)
  {
    match step
    case MainStep =>
      (match s.main
       case Feeding(_) => true
       case Closing(_, _) => true
       case Joining(i) => Live(s.workers[i]) == 0
       case Collecting => |s.results| == |p.items| || (s.queues[|p.stages|] != [] && s.queues[|p.stages|][0].Item?)
       case Finished(_) => false)
    case Get(i, w) =>
      i < |p.stages| && w < |s.workers[i]| && s.workers[i][w].Waiting? && s.queues[i] != []
    case Put(i, w) =>
      i < |p.stages| && w < |s.workers[i]| && s.workers[i][w].Holding?
  }

  function SequenceKey(c: Ctx): real { c.sequenceId as real }

  function Enqueue(s: State, i: nat, m: Message): State
    requires i < |s.queues|
  {
    s.(queues := s.queues[i := s.queues[i] + [m]])
  }

  function SetWorker(s: State, i: nat, w: nat, worker: Worker): State
    requires i < |s.workers| && w < |s.workers[i]|
  {
    s.(workers := s.workers[i := s.workers[i][w := worker]])
  }

  function AfterMain(p: Pipeline, s: State): State
    requires Shape(p, s) && Enabled(p, s, MainStep)
  {
    match s.main
    case Feeding(k) =>
      if k < |p.items| then
        Enqueue(s, 0, Item(p.items[k].(sequenceId := k))).(main := Feeding(k + 1))
      else s.(main := StartClosing(p, 0))
    case Closing(i, sent) =>
      if sent < p.stages[i].workers then Enqueue(s, i, Sentinel).(main := Closing(i, sent + 1))
      else s.(main := Joining(i))
    case Joining(i) => s.(main := StartClosing(p, i + 1))
    case Collecting =>
      if |s.results| == |p.items| then s.(main := Finished(Sort(s.results, SequenceKey)))
      else
        var q := s.queues[|p.stages|];
        s.(queues := s.queues[|p.stages| := q[1..]], results := s.results + [q[0].ctx])
  }

  function AfterGet(p: Pipeline, s: State, i: nat, w: nat): State
    requires Shape(p, s) && Enabled(p, s, Get(i, w))
  {
    var m := s.queues[i][0];
    SetWorker(s, i, w, if m.Item? then Holding(m.ctx) else Exited).(queues := s.queues[i := s.queues[i][1..]])
  }

  function AfterPut(p: Pipeline, s: State, i: nat, w: nat): State
    requires Shape(p, s) && Enabled(p, s, Put(i, w))
  {
    Enqueue(SetWorker(s, i, w, Waiting), i + 1, Item(Work(p.stages[i], p.tracked, s.workers[i][w].ctx)))
  }

  function Next(p: Pipeline, s: State, step: Step): State
    requires Shape(p, s) && Enabled(p, s, step)
  {
    match step
    case MainStep => AfterMain(p, s)
    case Get(i, w) => AfterGet(p, s, i, w)
    case Put(i, w) => AfterPut(p, s, i, w)
  }

  lemma NextShape(p: Pipeline, s: State, step: Step)
    requires Shape(p, s) && Enabled(p, s, step)
    ensures Shape(p, Next(p, s, step))
  {
  }

  // ---------------------------------------------------------------- the sequential meaning

  /** Document `k` after its first `i` stages, one after the other. */
  function Prefix(p: Pipeline, i: nat, k: nat): Ctx
    requires i <= |p.stages| && k < |p.items|
  {
    if i == 0 then p.items[k].(sequenceId := k)
    else Work(p.stages[i - 1], p.tracked, Prefix(p, i - 1, k))
  }

  /** What `process_all` should return: every document through all stages, in input order. */
  function Expected(p: Pipeline): (out: seq<Ctx>)
    ensures |out| == |p.items|
    ensures forall k :: 0 <= k < |p.items| ==> out[k] == Prefix(p, |p.stages|, k)
  {
    seq(|p.items|, k requires 0 <= k < |p.items| => Prefix(p, |p.stages|, k))
  }

  ghost predicate Valid(p: Pipeline) {
    forall i :: 0 <= i < |p.stages| ==> KeepsSequence(p.stages[i])
  }

  lemma {:induction false} PrefixKeepsSequence(p: Pipeline, i: nat, k: nat)
    requires Valid(p) && i <= |p.stages| && k < |p.items|
    ensures Prefix(p, i, k).sequenceId == k
  {
    if i > 0 {
      PrefixKeepsSequence(p, i - 1, k);
      assert KeepsSequence(p.stages[i - 1]);
    }
  }
}
