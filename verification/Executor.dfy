/** llm_service/runtime/worker.py and service.py: one worker executing the task it has claimed, with
    any database call, provider call or check free to raise. */
module Executor {
  import opened Common
  import P = TaskProtocol
  import T = TaskTable

  datatype Action =
    | ReadTask | ReadRequest | ReadNumber | InsertAttempt | CallProvider | MarkAttempt(succeeded: bool) | CheckOutput
    | WriteResult(good: bool) | Complete | Fail

  /** `BreaksLate`: the call took effect and then raised, as when writing the event row fails. */
  datatype Fate = Works | Breaks | BreaksLate

  datatype Event = Event(action: Action, fate: Fate)

  /** What an execution did, oldest call innermost. */
  datatype Trace = Nothing | Then(before: Trace, last: Event)

  datatype TaskType = Chat | Embedding | Rerank | Unknown

  /** What the executor will find: the rows it reads, whether the output parses, and the fate of its
      n-th call. */
  datatype World = World(taskType: Option<TaskType>, hasRequest: bool, hasModelProvider: bool, hasNumber: bool,
                         parses: bool, fate: nat -> Fate)

  predicate IsCloser(a: Action) {
    a == Complete || a == Fail
  }

  function Length(trace: Trace): nat {
    if trace.Nothing? then 0 else Length(trace.before) + 1
  }

  predicate Did(trace: Trace, e: Event) {
    trace.Then? && (trace.last == e || Did(trace.before, e))
  }

  function CloserCount(trace: Trace): nat {
    if trace.Nothing? then 0 else CloserCount(trace.before) + if IsCloser(trace.last.action) then 1 else 0
  }

  /** The closing calls that took effect. */
  function Closings(trace: Trace): nat {
    if trace.Nothing? then 0
    else Closings(trace.before) + if IsCloser(trace.last.action) && trace.last.fate != Breaks then 1 else 0
  }

  /** No closing call had the fate `f`. */
  predicate NoCloser(trace: Trace, f: Fate) {
    trace.Then? ==> NoCloser(trace.before, f) && (IsCloser(trace.last.action) ==> trace.last.fate != f)
  }

  /** The last thing said about the attempt row. */
  function LastMark(trace: Trace): Option<Event> {
    if trace.Nothing? then None
    else if trace.last.action.MarkAttempt? then Some(trace.last)
    else LastMark(trace.before)
  }

  predicate HasAttempt(trace: Trace) {
    Did(trace, Event(InsertAttempt, Works))
  }

  /** The attempt, if there is one, was last marked failed, or at least that was tried. */
  predicate ToldFailed(trace: Trace) {
    HasAttempt(trace) ==> LastMark(trace).Some? && LastMark(trace).value.action == MarkAttempt(false)
  }

  /** A task is completed only with its attempt marked succeeded, and failed only with it marked failed. */
  predicate MayFollow(trace: Trace, a: Action) {
    && (a == Complete ==> LastMark(trace) == Some(Event(MarkAttempt(true), Works)))
    && (a == Fail ==> ToldFailed(trace))
  }

  /** Every call had the fate the world had in store for it, and every closing call agrees with the attempt row. */
  predicate Recorded(world: World, trace: Trace) {
    trace.Then? ==>
      && Recorded(world, trace.before)
      && trace.last.fate == world.fate(Length(trace.before))
      && MayFollow(trace.before, trace.last.action)
  }

  lemma {:induction false} FreshHasNoAttempt(trace: Trace)
    requires PhaseAfter(trace) == Fresh
    ensures !HasAttempt(trace)
  {
    if trace.Then? {
      FreshHasNoAttempt(trace.before);
    }
  }

  /** The executors of embeddings and reranks return without closing when the task row has vanished. */
  predicate VanishedUnderIt(world: World, trace: Trace) {
    && !world.hasNumber && (world.taskType == Some(Embedding) || world.taskType == Some(Rerank))
    && trace.Then? && trace.last == Event(ReadNumber, Works)
  }

  predicate EndsClosed(trace: Trace) {
    trace.Then? && IsCloser(trace.last.action)
  }

  /** A `complete` that raises is always followed by a `fail`. */
  predicate CompletionWorked(trace: Trace) {
    trace.Then? && trace.last.action == Complete ==> trace.last.fate == Works
  }

  /** Nothing goes wrong before the eighth call of a chat task. */
  ghost predicate Smooth(world: World) {
    && world.taskType == Some(Chat) && world.hasRequest && world.hasNumber && world.parses
    && forall k :: 0 <= k < 8 ==> world.fate(k) == Works
  }

  /** Everything is there and nothing goes wrong. */
  ghost predicate Healthy(world: World) {
    && world.hasRequest && world.hasNumber && (forall k :: world.fate(k) == Works)
    && ((world.taskType == Some(Chat) && world.parses) ||
        ((world.taskType == Some(Embedding) || world.taskType == Some(Rerank)) && world.hasModelProvider))
  }

  /** What there must be before an attempt is made. */
  predicate Workable(world: World) {
    && world.hasRequest && world.hasNumber && world.taskType.Some? && world.taskType.value != Unknown
    && (world.taskType.value != Chat ==> world.hasModelProvider)
  }

  predicate EndsCompleted(trace: Trace) {
    trace.Then? && trace.last.action == Complete
  }

  // ---------------------------------------------------------------- the order of the steps

  datatype Phase = Fresh | Counted | Inserted | Called | Checked | Answered(good: bool) | Done | OutOfOrder

  /** Only calls that took effect move the task on: no result without an attempt row, an answer and its
      check, no completion without a good result, and nothing after a closing call that worked. */
  function Advance(p: Phase, e: Event): Phase {
    if p == Done || p == OutOfOrder then OutOfOrder
    else if e.fate == Breaks then p
    else match e.action
      case ReadNumber => if p == Fresh then Counted else OutOfOrder
      case InsertAttempt => if p == Counted then Inserted else OutOfOrder
      case CallProvider => if p == Inserted then Called else OutOfOrder
      case CheckOutput => if p == Called then Checked else OutOfOrder
      case WriteResult(good) => if p == Checked then Answered(good) else OutOfOrder
      case Complete => if p != Answered(true) then OutOfOrder else if e.fate == Works then Done else p
      case Fail => if e.fate == Works then Done else p
      case _ => p
  }

  function PhaseAfter(trace: Trace): Phase {
    if trace.Nothing? then Fresh else Advance(PhaseAfter(trace.before), trace.last)
  }

  /** One task execution. `trace` is everything it did. */
  class Execution {
    const world: World
    var trace: Trace

    constructor (world: World)
      ensures this.world == world && trace == Nothing
    {
      this.world := world;
      trace := Nothing;
    }

    ghost predicate Open()
      reads this
    {
      PhaseAfter(trace) != Done && PhaseAfter(trace) != OutOfOrder && Recorded(world, trace)
    }

    method Perform(a: Action) returns (raised: bool)
      modifies this
      ensures trace == Then(old(trace), Event(a, world.fate(Length(old(trace)))))
      ensures raised == (trace.last.fate != Works)
      ensures PhaseAfter(trace) == Advance(PhaseAfter(old(trace)), trace.last)
      ensures Recorded(world, old(trace)) && MayFollow(old(trace), a) ==> Recorded(world, trace)
      ensures LastMark(trace) == if a.MarkAttempt? then Some(trace.last) else LastMark(old(trace))
      ensures HasAttempt(trace) <==> HasAttempt(old(trace)) || trace.last == Event(InsertAttempt, Works)
    {
      trace := Then(trace, Event(a, world.fate(Length(trace))));
      raised := trace.last.fate != Works;
    }

    /** What every executor promises: it closes and stops, raises with the task still open, or (rows
        gone) returns with the task not closed. */
    ghost predicate Left(raised: bool)
      reads this
    {
      && PhaseAfter(trace) != OutOfOrder && Recorded(world, trace)
      && (raised ==> Open())
      && (!raised ==> PhaseAfter(trace) == Done || (Open() && VanishedUnderIt(world, trace)))
    }

    /** Only the raise of a `complete` may leave it last. */
    ghost predicate CompletionRaises(raised: bool)
      reads this
    {
      !raised ==> CompletionWorked(trace)
    }

    /** Nothing but the closing call is left to do. */
    ghost predicate ReadyToClose(good: bool)
      reads this
    {
      Open() && PhaseAfter(trace) == Answered(good) && LastMark(trace) == Some(Event(MarkAttempt(true), Works))
    }

    /** Mark the attempt, parse, write the result. */
    method ChatRecord() returns (raised: bool)
      requires Open() && PhaseAfter(trace) == Called
      modifies this
      ensures raised ==> Open()
      ensures HasAttempt(trace) ==> HasAttempt(old(trace))
      ensures !raised ==> ReadyToClose(world.parses) && Length(trace) == Length(old(trace)) + 3
      ensures raised ==> exists k :: Length(old(trace)) <= k < Length(old(trace)) + 3 && world.fate(k) != Works
    {
      raised := Perform(MarkAttempt(true));
      if raised { return; }
      raised := Perform(CheckOutput);
      if raised { return; }
      raised := Perform(WriteResult(world.parses));
    }

    /** The second half of that `try`: mark the attempt, parse, write the result, close. */
    method ChatAnswered() returns (raised: bool)
      requires Open() && PhaseAfter(trace) == Called && world.taskType == Some(Chat)
      modifies this
      ensures Left(raised) && CompletionRaises(raised)
      ensures HasAttempt(trace) ==> HasAttempt(old(trace))
      ensures Smooth(world) && Length(old(trace)) == 5 ==> Did(trace, Event(Complete, world.fate(8)))
      ensures Healthy(world) ==> !raised && EndsCompleted(trace)
    {
      raised := ChatRecord();
      if raised { return; }
      if world.parses {
        raised := Perform(Complete);
      } else {
        raised := Perform(MarkAttempt(false));
        if raised { return; }
        raised := Perform(Fail);
      }
    }

    /** The body of the `try` in `execute_chat_attempt`. */
    method ChatTry() returns (raised: bool)
      requires Open() && PhaseAfter(trace) == Fresh && world.taskType == Some(Chat)
      modifies this
      ensures Left(raised) && CompletionRaises(raised)
      ensures HasAttempt(trace) ==> HasAttempt(old(trace)) || world.hasNumber
      ensures Smooth(world) && Length(old(trace)) == 2 ==> Did(trace, Event(Complete, world.fate(8)))
      ensures Healthy(world) ==> !raised && EndsCompleted(trace)
    {
      raised := Perform(ReadNumber);
      if raised || !world.hasNumber { return true; }
      raised := Perform(InsertAttempt);
      if raised { return; }
      raised := Perform(CallProvider);
      if raised { return; }
      raised := ChatAnswered();
    }

    /** `execute_chat_attempt`: its handler swallows a failure to mark the attempt, then fails the task. */
    method ChatAttempt() returns (raised: bool)
      requires Open() && PhaseAfter(trace) == Fresh && world.taskType == Some(Chat)
      modifies this
      ensures Left(raised) && CompletionWorked(trace) && (raised ==> ToldFailed(trace))
      ensures raised ==> EndsClosed(trace) && trace.last.fate != Works
      ensures HasAttempt(trace) ==> HasAttempt(old(trace)) || world.hasNumber
      ensures Smooth(world) && Length(old(trace)) == 2 ==> Did(trace, Event(Complete, world.fate(8)))
      ensures Healthy(world) ==> !raised && EndsCompleted(trace)
    {
      raised := ChatTry();
      if raised {
        var ignored := Perform(MarkAttempt(false));
        raised := Perform(Fail);
      }
    }

    method ExecuteChat() returns (raised: bool)
      requires Open() && PhaseAfter(trace) == Fresh && world.taskType == Some(Chat)
      modifies this
      ensures Left(raised) && CompletionWorked(trace) && (raised ==> ToldFailed(trace))
      ensures raised ==> trace.Then? && trace.last.fate != Works
      ensures HasAttempt(trace) ==> HasAttempt(old(trace)) || Workable(world)
      ensures Smooth(world) && Length(old(trace)) == 1 ==> Did(trace, Event(Complete, world.fate(8)))
      ensures Healthy(world) ==> !raised && EndsCompleted(trace)
    {
      FreshHasNoAttempt(trace);
      raised := Perform(ReadRequest);
      if raised { return; }
      if !world.hasRequest {
        raised := Perform(Fail);
        return;
      }
      raised := ChatAttempt();
    }

    /** Call, check, mark the attempt and write the result; for embeddings `CheckOutput` is
        `_validate_embedding_result`, for reranks it is the rendering of the result lines. */
    method ModelRecord() returns (raised: bool)
      requires Open() && PhaseAfter(trace) == Inserted
      modifies this
      ensures raised ==> Open()
      ensures HasAttempt(trace) ==> HasAttempt(old(trace))
      ensures !raised ==> ReadyToClose(true)
      ensures Healthy(world) ==> !raised
    {
      raised := Perform(CallProvider);
      if raised { return; }
      if world.taskType == Some(Embedding) {
        raised := Perform(CheckOutput);
        if raised { return; }
      }
      raised := Perform(MarkAttempt(true));
      if raised { return; }
      if world.taskType != Some(Embedding) {
        raised := Perform(CheckOutput);
        if raised { return; }
      }
      raised := Perform(WriteResult(true));
    }

    /** The body of the `try` in the embedding and rerank executors. */
    method ModelTry() returns (raised: bool)
      requires Open() && PhaseAfter(trace) == Inserted
      modifies this
      ensures Left(raised) && CompletionRaises(raised)
      ensures HasAttempt(trace) ==> HasAttempt(old(trace))
      ensures Healthy(world) ==> !raised && EndsCompleted(trace)
    {
      raised := ModelRecord();
      if !raised {
        raised := Perform(Complete);
      }
    }

    /** `_execute_embedding` and `_execute_rerank`: nothing before the provider call is guarded, and
        neither is marking the attempt in the handler. */
    method ExecuteModel() returns (raised: bool)
      requires Open() && PhaseAfter(trace) == Fresh
      requires world.taskType == Some(Embedding) || world.taskType == Some(Rerank)
      modifies this
      ensures Left(raised) && CompletionWorked(trace) && (raised ==> ToldFailed(trace))
      ensures raised ==> trace.Then? && trace.last.fate != Works
      ensures HasAttempt(trace) ==> HasAttempt(old(trace)) || Workable(world)
      ensures Healthy(world) ==> !raised && EndsCompleted(trace)
    {
      FreshHasNoAttempt(trace);
      if !world.hasModelProvider {
        raised := Perform(Fail);
        return;
      }
      raised := Perform(ReadRequest);
      if raised { return; }
      if !world.hasRequest {
        raised := Perform(Fail);
        return;
      }
      raised := Perform(ReadNumber);
      if raised || !world.hasNumber { return; }
      raised := Perform(InsertAttempt);
      if raised { return; }
      raised := ModelTry();
      if raised {
        raised := Perform(MarkAttempt(false));
        if raised { return; }
        raised := Perform(Fail);
      }
    }

    method Dispatch() returns (raised: bool)
      requires trace == Nothing
      modifies this
      ensures Left(raised) && CompletionWorked(trace) && (raised ==> ToldFailed(trace))
      ensures raised ==> trace.Then? && trace.last.fate != Works
      ensures HasAttempt(trace) ==> HasAttempt(old(trace)) || Workable(world)
      ensures Smooth(world) ==> Did(trace, Event(Complete, world.fate(8)))
      ensures Healthy(world) ==> !raised && EndsCompleted(trace)
    {
      raised := Perform(ReadTask);
      if raised { return; }
      match world.taskType
      case None => raised := Perform(Fail);
      case Some(Unknown) => raised := Perform(Fail);
      case Some(Chat) => raised := ExecuteChat();
      case Some(_) => raised := ExecuteModel();
    }

    /** `_execute_task`: whatever escapes, the safety net fails the task and swallows its own failure. */
    method ExecuteTask()
      requires trace == Nothing
      modifies this
      ensures PhaseAfter(trace) != OutOfOrder && CompletionWorked(trace) && Recorded(world, trace)
      ensures EndsClosed(trace) || VanishedUnderIt(world, trace)
      ensures HasAttempt(trace) ==> Workable(world)
      ensures Smooth(world) ==> Did(trace, Event(Complete, world.fate(8)))
      ensures Healthy(world) ==> EndsCompleted(trace)
    {
      var raised := Dispatch();
      if raised {
        raised := Perform(Fail);
      }
    }
  }

  // ---------------------------------------------------------------- how often a claim is closed

  /** Before a task is done no closing call has worked. */
  lemma {:induction false} OpenMeansNoneWorked(trace: Trace)
    requires PhaseAfter(trace) != Done && PhaseAfter(trace) != OutOfOrder
    ensures NoCloser(trace, Works)
  {
    if trace.Then? {
      OpenMeansNoneWorked(trace.before);
    }
  }

  lemma {:induction false} NoneClosed(trace: Trace)
    requires NoCloser(trace, Works) && NoCloser(trace, BreaksLate)
    ensures Closings(trace) == 0
    ensures NoCloser(trace, Breaks) ==> CloserCount(trace) == 0
  {
    if trace.Then? {
      NoneClosed(trace.before);
    }
  }

  /** When `complete` and `fail` do not fault, an executed task is closed by exactly one call, and only
      an embedding or rerank whose row vanished is not closed at all. */
  lemma ClosedExactlyOnce(world: World, trace: Trace)
    requires PhaseAfter(trace) != OutOfOrder && NoCloser(trace, Breaks) && NoCloser(trace, BreaksLate)
    requires EndsClosed(trace) || VanishedUnderIt(world, trace)
    ensures CloserCount(trace) == Closings(trace) == if VanishedUnderIt(world, trace) then 0 else 1
  {
    OpenMeansNoneWorked(trace.before);
    NoneClosed(trace.before);
  }

  predicate TookEffect(e: Event) {
    IsCloser(e.action) && e.fate != Breaks
  }

  /** A closing call took effect and then raised. */
  predicate RaisedLate(trace: Trace) {
    trace.Then? && (RaisedLate(trace.before) || (IsCloser(trace.last.action) && trace.last.fate == BreaksLate))
  }

  /** And another closing call took effect after it. */
  predicate ClosedAfterLate(trace: Trace) {
    trace.Then? && (ClosedAfterLate(trace.before) || (TookEffect(trace.last) && RaisedLate(trace.before)))
  }

  lemma {:induction false} OpenButClosed(trace: Trace)
    requires IsOpen(PhaseAfter(trace))
    ensures Closings(trace) >= 1 <==> RaisedLate(trace)
  {
    if trace.Then? {
      OpenMeansNoneWorked(trace);
      OpenButClosed(trace.before);
    }
  }

  /** Even if they fault, it is closed at most once: unless a closing call takes effect and raises, and a
      later one takes effect too. */
  lemma {:induction false} ClosedAtMostOnceIff(trace: Trace)
    requires PhaseAfter(trace) != OutOfOrder
    ensures Closings(trace) <= 1 <==> !ClosedAfterLate(trace)
  {
    if trace.Then? {
      ClosedAtMostOnceIff(trace.before);
      OpenButClosed(trace.before);
    }
  }

  /** An execution whose last call closed the task has closed it before exactly when an earlier closing call
      took effect and raised. */
  lemma LateRaiseClosesTwice(trace: Trace)
    requires PhaseAfter(trace) != OutOfOrder && trace.Then? && TookEffect(trace.last)
    ensures Closings(trace) >= 2 <==> RaisedLate(trace.before)
  {
    OpenButClosed(trace.before);
  }

  lemma {:induction false} LateHappened(trace: Trace, e: Event)
    requires Did(trace, e) && IsCloser(e.action) && e.fate == BreaksLate
    ensures RaisedLate(trace)
  {
    if trace.last != e {
      LateHappened(trace.before, e);
    }
  }

  /** Such an execution exists: everything works except that writing the success event fails. */
  method CloseTwice() returns (e: Execution)
    ensures Smooth(e.world) && EndsClosed(e.trace) && CompletionWorked(e.trace)
    ensures Did(e.trace, Event(Complete, BreaksLate)) && Closings(e.trace) >= 2
    ensures forall k: nat :: e.world.fate(k) != Works <==> k == 8
  {
    var world := World(Some(Chat), true, true, true, true, (k: nat) => if k == 8 then BreaksLate else Works);
    e := new Execution(world);
    e.ExecuteTask();
    LateHappened(e.trace.before, Event(Complete, BreaksLate));
    LateRaiseClosesTwice(e.trace);
  }

  // ---------------------------------------------------------------- the executor takes protocol steps

  /** The worker's place in the protocol and the execution's phase tell the same story. */
  predicate Matches(pc: P.Pc, id: T.TaskId, p: Phase) {
    && !pc.Idle? && pc.id == id
    && match p
       case Fresh => pc.Claimed?
       case Counted => pc.Numbered? || pc.Rejected?
       case Inserted => pc.Attempted?
       case Called => pc.Attempted?
       case Checked => pc.Attempted?
       case Answered(good) => pc.Resulted? && pc.good == good
       case _ => false
  }

  /** The protocol step of a call that took effect, if it has one; a `fail` is two. */
  function StepOf(a: Action, w: nat): Option<P.Step> {
    match a
    case ReadNumber => Some(P.ReadNumber(w))
    case InsertAttempt => Some(P.InsertAttempt(w))
    case WriteResult(good) => Some(P.WriteResult(w, good))
    case Complete => Some(P.Complete(w))
    case Fail => Some(P.FailRead(w))
    case _ => None
  }

  /** A closing call in order is allowed and leaves the worker idle: `complete` as one step, `fail` as two. */
  lemma CloserIsStep(s: P.State, now: T.Instant, w: nat, id: T.TaskId, p: Phase, e: Event, retryAt: T.Instant)
    requires w < |s.workers| && id in s.tasks && Matches(s.workers[w], id, p)
    requires e.fate == Works && IsCloser(e.action) && Advance(p, e) != OutOfOrder
    ensures e.action == Complete ==>
              P.Enabled(s, now, P.Complete(w)) && P.Next(s, now, P.Complete(w)).workers[w].Idle?
    ensures e.action == Fail ==>
              && P.Enabled(s, now, P.FailRead(w))
              && var t := P.Next(s, now, P.FailRead(w));
                 P.Enabled(t, now, P.FailWrite(w, retryAt)) && P.Next(t, now, P.FailWrite(w, retryAt)).workers[w].Idle?
  {
  }

  /** Where a worker alone with its task has got to: nothing but its own attempt has changed. */
  predicate Reached(s: P.State, t: P.State, w: nat, id: T.TaskId, p: Phase) {
    && t.tasks == s.tasks && id in s.tasks && w < |t.workers| && Matches(t.workers[w], id, p)
    && (p == Fresh || p == Counted ==> t.attempts == s.attempts)
    && (p == Counted ==> t.workers[w].Numbered?)
    && (p != Fresh ==> t.workers[w].no == s.tasks[id].attemptCount + 1)
  }

  predicate IsOpen(p: Phase) {
    p != Done && p != OutOfOrder
  }

  lemma CallReaches(s: P.State, t: P.State, now: T.Instant, w: nat, id: T.TaskId, p: Phase, e: Event)
    requires Reached(s, t, w, id, p) && (id, s.tasks[id].attemptCount + 1) !in s.attempts
    requires IsOpen(p) && IsOpen(Advance(p, e)) && !IsCloser(e.action)
    ensures e.fate == Breaks || StepOf(e.action, w).None? ==> Reached(s, t, w, id, Advance(p, e))
    ensures e.fate != Breaks && StepOf(e.action, w).Some? ==>
              var step := StepOf(e.action, w).value;
              P.Enabled(t, now, step) && Reached(s, P.Next(t, now, step), w, id, Advance(p, e))
  {
  }

  lemma ExtendRun(s: P.State, plan: seq<P.Tick>, t: P.State, now: T.Instant, step: P.Step)
    requires P.Runs(s, plan, t) && P.Enabled(t, now, step)
    ensures P.Runs(s, plan + [P.Tick(now, step)], P.Next(t, now, step))
  {
    var u := P.Next(t, now, step);
    assert P.Runs(u, [], u);
    P.RunsCons(t, now, step, [], u);
    assert [P.Tick(now, step)] + [] == [P.Tick(now, step)];
    P.RunsThrough(s, plan, t, [P.Tick(now, step)], u);
  }

  /** As long as an execution has not closed its task it is a run of the task protocol by its worker. */
  lemma {:induction false} OpenExecutionRuns(s: P.State, now: T.Instant, w: nat, id: T.TaskId, trace: Trace)
    returns (plan: seq<P.Tick>, t: P.State)
    requires w < |s.workers| && s.workers[w] == P.Claimed(id) && id in s.tasks
    requires (id, s.tasks[id].attemptCount + 1) !in s.attempts
    requires IsOpen(PhaseAfter(trace)) && NoCloser(trace, Breaks) && NoCloser(trace, BreaksLate)
    ensures P.Runs(s, plan, t) && Reached(s, t, w, id, PhaseAfter(trace))
  {
    if trace.Nothing? {
      plan, t := [], s;
    } else {
      plan, t := OpenExecutionRuns(s, now, w, id, trace.before);
      OpenMeansNoneWorked(trace);
      CallReaches(s, t, now, w, id, PhaseAfter(trace.before), trace.last);
      var step := StepOf(trace.last.action, w);
      if trace.last.fate != Breaks && step.Some? {
        ExtendRun(s, plan, t, now, step.value);
        plan, t := plan + [P.Tick(now, step.value)], P.Next(t, now, step.value);
      }
    }
  }

  /** An execution that closes its task is a run that leaves the worker idle and the task succeeded, if the
      last call is `complete`, or queued again or dead-lettered, if it is `fail`. */
  lemma ClosedExecutionRuns(s: P.State, now: T.Instant, w: nat, id: T.TaskId, trace: Trace, retryAt: T.Instant)
    returns (plan: seq<P.Tick>, t: P.State)
    requires w < |s.workers| && s.workers[w] == P.Claimed(id) && id in s.tasks
    requires (id, s.tasks[id].attemptCount + 1) !in s.attempts
    requires PhaseAfter(trace) == Done && NoCloser(trace, Breaks) && NoCloser(trace, BreaksLate)
    ensures P.Runs(s, plan, t) && w < |t.workers| && t.workers[w].Idle? && id in t.tasks
    ensures t.tasks[id] == if EndsCompleted(trace) then T.CompletedRow(s.tasks[id], now)
                           else T.FailedRow(s.tasks[id], T.SeenIn(s.tasks[id]), now, retryAt)
  {
    plan, t := OpenExecutionRuns(s, now, w, id, trace.before);
    CloserIsStep(t, now, w, id, PhaseAfter(trace.before), trace.last, retryAt);
    if EndsCompleted(trace) {
      ExtendRun(s, plan, t, now, P.Complete(w));
      plan, t := plan + [P.Tick(now, P.Complete(w))], P.Next(t, now, P.Complete(w));
    } else {
      ExtendRun(s, plan, t, now, P.FailRead(w));
      plan, t := plan + [P.Tick(now, P.FailRead(w))], P.Next(t, now, P.FailRead(w));
      ExtendRun(s, plan, t, now, P.FailWrite(w, retryAt));
      plan, t := plan + [P.Tick(now, P.FailWrite(w, retryAt))], P.Next(t, now, P.FailWrite(w, retryAt));
    }
  }
}
