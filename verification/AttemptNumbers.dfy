/** llm_service/runtime: attempt numbers and result rows in runs with sound leases, without manual
    retry and without restart. */
module AttemptNumbers {
  import opened Common
  import opened TaskTable
  import opened TaskProtocol
  import opened SoundLeases
  import opened SoundRuns
  import opened ResultFold

  predicate Plain(m: Move) {
    m.One? && !m.step.Retry?
  }

  /** Numbers in use are at most the number of the attempt that is open, and none is open unless the task runs. */
  predicate AttemptFits(s: State, a: (TaskId, int)) {
    && a.0 in s.tasks
    && a.1 <= s.tasks[a.0].attemptCount + (if s.tasks[a.0].status == Running then 1 else 0)
  }

  /** A worker that has not inserted its attempt yet will find its number free. */
  predicate PcFresh(s: State, pc: Pc) {
    && !pc.Rejected?
    && (pc.Claimed? || pc.Numbered? ==> pc.id in s.tasks && (pc.id, s.tasks[pc.id].attemptCount + 1) !in s.attempts)
  }

  predicate PcResults(s: State, pc: Pc) {
    && (pc.Attempted? ==> (pc.id, pc.no) in s.attempts && forall r :: r in s.results && r.id == pc.id ==> r.no != pc.no)
    && (pc.Resulted? ==> ResultRow(pc.id, pc.no, pc.good) in s.results)
  }

  predicate SuccessFits(s: State, id: TaskId) {
    id in s.tasks && s.tasks[id].status == Succeeded ==> ResultRow(id, s.tasks[id].attemptCount, true) in s.results
  }

  ghost predicate AttemptsFit(s: State) {
    forall a :: a in s.attempts ==> AttemptFits(s, a)
  }

  ghost predicate PcsFresh(s: State) {
    forall w :: 0 <= w < |s.workers| ==> PcFresh(s, s.workers[w])
  }

  ghost predicate PcsHaveResults(s: State) {
    forall w :: 0 <= w < |s.workers| ==> PcResults(s, s.workers[w])
  }

  predicate OneRowEach(results: seq<ResultRow>) {
    forall i, j :: 0 <= i < j < |results| ==> results[i].id != results[j].id || results[i].no != results[j].no
  }

  ghost predicate ResultsFit(s: State) {
    && (forall r :: r in s.results ==> (r.id, r.no) in s.attempts)
    && OneRowEach(s.results)
  }

  ghost predicate SuccessesFit(s: State) {
    forall id :: SuccessFits(s, id)
  }

  ghost predicate NumbersInv(s: State) {
    SoundInv(s) && AttemptsFit(s) && PcsFresh(s) && PcsHaveResults(s) && ResultsFit(s) && SuccessesFit(s)
  }

  // ---------------------------------------------------------------- deleting results with their tasks

  lemma {:induction false} KeptMember(results: seq<ResultRow>, ids: set<TaskId>, r: ResultRow)
    ensures r in Kept(results, ids) <==> r in results && r.id !in ids
  {
    if results != [] {
      KeptMember(results[1..], ids, r);
    }
  }

  lemma {:induction false} KeptOneRowEach(results: seq<ResultRow>, ids: set<TaskId>)
    requires OneRowEach(results)
    ensures OneRowEach(Kept(results, ids))
  {
    if results != [] {
      KeptOneRowEach(results[1..], ids);
      var rest := Kept(results[1..], ids);
      forall j | 0 <= j < |rest| ensures rest[j].id != results[0].id || rest[j].no != results[0].no {
        KeptMember(results[1..], ids, rest[j]);
      }
    }
  }

  // ---------------------------------------------------------------- one lemma for each part

  /** The number of a closing is the number of the open attempt. */
  lemma AttemptStaysFit(s: State, now: Instant, step: Step, a: (TaskId, int))
    requires NumbersInv(s) && SoundMove(s, now, One(step)) && Plain(One(step)) && a in Next(s, now, step).attempts
    ensures AttemptFits(Next(s, now, step), a)
  {
    if a in s.attempts {
      assert AttemptFits(s, a);
    }
    if step.InsertAttempt? || step.Complete? || step.FailWrite? {
      assert OwnerFits(s, s.workers[step.w]);
    }
    if step.RecoverWrite? {
      assert FoundRunning(s, s.recovery.failing.value);
    }
  }

  lemma PcStaysFresh(s: State, now: Instant, step: Step, v: nat)
    requires NumbersInv(s) && SoundMove(s, now, One(step)) && Plain(One(step)) && v < |s.workers|
    ensures PcFresh(Next(s, now, step), Next(s, now, step).workers[v])
  {
    var t := Next(s, now, step);
    var pc := t.workers[v];
    AfterSound(s, now, One(step));
    assert PcFresh(s, s.workers[v]) && OwnerFits(s, s.workers[v]) && OwnerFits(t, pc);
    if step.Claim? && step.w == v {
      var next := (step.id, s.tasks[step.id].attemptCount + 1);
      assert next in s.attempts ==> AttemptFits(s, next);
    } else if pc.Claimed? || pc.Numbered? {
      RowStays(s, now, step, v);
    }
  }

  /** A worker's own row changes only in the move that leaves it. */
  lemma RowStays(s: State, now: Instant, step: Step, v: nat)
    requires SoundInv(s) && SoundMove(s, now, One(step)) && v < |s.workers| && !s.workers[v].Idle?
    requires !Next(s, now, step).workers[v].Idle?
    ensures SameRow(s, Next(s, now, step), s.workers[v].id)
    ensures Next(s, now, step).workers[v].id == s.workers[v].id
  {
    assert OwnerFits(s, s.workers[v]);
    if step.RecoverWrite? {
      assert Recovering(s, s.recovery.failing.value.id);
    }
  }

  lemma PcKeepsResults(s: State, now: Instant, step: Step, v: nat)
    requires NumbersInv(s) && SoundMove(s, now, One(step)) && Plain(One(step)) && v < |s.workers|
    ensures PcResults(Next(s, now, step), Next(s, now, step).workers[v])
  {
    var t := Next(s, now, step);
    var pc := t.workers[v];
    assert PcResults(s, s.workers[v]) && PcFresh(s, s.workers[v]) && OwnerFits(s, s.workers[v]);
    if pc.Attempted? || pc.Resulted? {
      if !s.workers[v].Idle? && !step.Claim? {
        RowStays(s, now, step, v);
      }
      match step
      case Delete(ids) =>
        forall r | r in s.results || r in t.results ensures r in t.results <==> r in s.results && r.id !in ids {
          KeptMember(s.results, ids, r);
        }
        if pc.Resulted? {
          KeptMember(s.results, ids, ResultRow(pc.id, pc.no, pc.good));
        }
      case _ =>
    }
  }

  lemma ResultsStayFit(s: State, now: Instant, step: Step)
    requires NumbersInv(s) && SoundMove(s, now, One(step)) && Plain(One(step))
    ensures ResultsFit(Next(s, now, step))
  {
    var t := Next(s, now, step);
    match step
    case SyncInsert(id, ok, _, _, _, _, _) =>
      assert forall r :: r in s.results && r.id == id ==> AttemptFits(s, (r.id, r.no));
      assert forall i :: 0 <= i < |s.results| ==> s.results[i] in s.results;
    case WriteResult(w, _) =>
      assert PcResults(s, s.workers[w]);
      assert forall i :: 0 <= i < |s.results| ==> s.results[i] in s.results;
    case Delete(ids) =>
      KeptOneRowEach(s.results, ids);
      forall r | r in t.results ensures (r.id, r.no) in t.attempts {
        KeptMember(s.results, ids, r);
      }
    case _ =>
  }

  lemma SuccessStaysFit(s: State, now: Instant, step: Step, id: TaskId)
    requires NumbersInv(s) && SoundMove(s, now, One(step)) && Plain(One(step))
    ensures SuccessFits(Next(s, now, step), id)
  {
    var t := Next(s, now, step);
    assert SuccessFits(s, id);
    match step
    case Complete(w) =>
      assert PcResults(s, s.workers[w]) && OwnerFits(s, s.workers[w]);
    case SyncInsert(_, _, _, _, _, _, _) =>
      assert t.results[|s.results|] == ResultRow(step.id, 1, step.ok);
    case WriteResult(w, good) =>
      assert forall r :: r in s.results ==> r in t.results;
    case Delete(ids) =>
      if id in t.tasks {
        KeptMember(s.results, ids, ResultRow(id, s.tasks[id].attemptCount, true));
      }
    case _ =>
  }

  lemma NumbersKept(s: State, now: Instant, m: Move)
    requires NumbersInv(s) && SoundMove(s, now, m) && Plain(m)
    ensures NumbersInv(After(s, now, m))
  {
    var t := After(s, now, m);
    AfterSound(s, now, m);
    forall a | a in t.attempts ensures AttemptFits(t, a) {
      AttemptStaysFit(s, now, m.step, a);
    }
    forall v | 0 <= v < |t.workers| ensures PcFresh(t, t.workers[v]) && PcResults(t, t.workers[v]) {
      PcStaysFresh(s, now, m.step, v);
      PcKeepsResults(s, now, m.step, v);
    }
    ResultsStayFit(s, now, m.step);
    forall id ensures SuccessFits(t, id) {
      SuccessStaysFit(s, now, m.step, id);
    }
  }

  // ---------------------------------------------------------------- whole runs

  ghost predicate IsPlainRun(concurrency: nat, states: seq<State>, times: seq<Instant>, moves: seq<Move>) {
    IsSoundRun(concurrency, states, times, moves) && forall i :: 0 <= i < |moves| ==> Plain(moves[i])
  }

  lemma {:induction false} RunNumbers(concurrency: nat, states: seq<State>, times: seq<Instant>, moves: seq<Move>, i: nat)
    requires IsPlainRun(concurrency, states, times, moves) && i <= |moves|
    ensures NumbersInv(states[i])
  {
    if i > 0 {
      RunNumbers(concurrency, states, times, moves, i - 1);
      NumbersKept(states[i - 1], times[i - 1], moves[i - 1]);
    }
  }

  /** Attempt numbers of a task are distinct: no insertion ever meets its own number in the table. */
  lemma AttemptsNeverCollide(concurrency: nat, states: seq<State>, times: seq<Instant>, moves: seq<Move>, i: nat, w: nat)
    requires IsPlainRun(concurrency, states, times, moves) && i < |moves| && moves[i] == One(InsertAttempt(w))
    ensures (states[i].workers[w].id, states[i].workers[w].no) !in states[i].attempts
  {
    RunNumbers(concurrency, states, times, moves, i);
    assert PcFresh(states[i], states[i].workers[w]) && OwnerFits(states[i], states[i].workers[w]);
  }

  /** What the queries of `service.py` see at one moment. */
  ghost function ReadsOf(s: State): Reads {
    Reads(s.tasks, s.results, [])
  }

  /** A succeeded task's result is the row written by the attempt that completed it: its number is the
      attempt count, and it is good. */
  lemma ResultIsTheCompletingOne(concurrency: nat, states: seq<State>, times: seq<Instant>, moves: seq<Move>,
                                 i: nat, id: TaskId)
    requires IsPlainRun(concurrency, states, times, moves) && i <= |moves|
    requires id in states[i].tasks && states[i].tasks[id].status == Succeeded
    ensures GetResult(ReadsOf(states[i]), id) == Some(ResultRow(id, states[i].tasks[id].attemptCount, true))
  {
    RunNumbers(concurrency, states, times, moves, i);
    var s := states[i];
    var answer := ResultRow(id, s.tasks[id].attemptCount, true);
    assert SuccessFits(s, id);
    var rows := Of(s.results, ResultId, id);
    OfMember(s.results, ResultId, id, answer);
    var k := LatestIsFirstMaximum(rows, ResultNo);
    OfMember(s.results, ResultId, id, rows[k]);
    assert AttemptFits(s, (rows[k].id, rows[k].no));
    SameNumberSameRow(s.results, rows[k], answer);
  }

  lemma SameNumberSameRow(results: seq<ResultRow>, a: ResultRow, b: ResultRow)
    requires OneRowEach(results) && a in results && b in results && a.id == b.id && a.no == b.no
    ensures a == b
  {
    var i :| 0 <= i < |results| && results[i] == a;
    var j :| 0 <= j < |results| && results[j] == b;
  }

  lemma ResultHasTask(s: State, r: ResultRow)
    requires NumbersInv(s) && r in s.results
    ensures r.id in s.tasks
  {
    assert AttemptFits(s, (r.id, r.no));
  }

  lemma NoTaskNoResult(s: State, id: TaskId)
    requires NumbersInv(s) && id !in s.tasks
    ensures Of(s.results, ResultId, id) == []
  {
    var rows := Of(s.results, ResultId, id);
    if rows != [] {
      OfMember(s.results, ResultId, id, rows[0]);
      ResultHasTask(s, rows[0]);
    }
  }

  /** The queries of a batch come one after the other. If the first sees a task succeeded, a later one still
      sees the row of the attempt that completed it, or nothing if cleanup has come in between. */
  lemma LaterQueryAgrees(concurrency: nat, states: seq<State>, times: seq<Instant>, moves: seq<Move>,
                         i: nat, j: nat, id: TaskId)
    requires IsPlainRun(concurrency, states, times, moves) && i <= j <= |moves|
    requires id in states[i].tasks && states[i].tasks[id].status == Succeeded
    ensures EntryOf(Reads(states[i].tasks, states[j].results, []), id, true).result
         == if id in states[j].tasks then Some(ResultRow(id, states[i].tasks[id].attemptCount, true)) else None
  {
    SuccessIsFinal(concurrency, states, times, moves, i, j, id);
    if id in states[j].tasks {
      ResultIsTheCompletingOne(concurrency, states, times, moves, j, id);
    } else {
      RunNumbers(concurrency, states, times, moves, j);
      NoTaskNoResult(states[j], id);
    }
  }

  /** The numbers of one task's result rows differ, so neither query depends on the order of the rows. */
  lemma ResultIgnoresOrder(concurrency: nat, states: seq<State>, times: seq<Instant>, moves: seq<Move>,
                           i: nat, id: TaskId, shuffled: seq<ResultRow>)
    requires IsPlainRun(concurrency, states, times, moves) && i <= |moves|
    requires forall r :: r in shuffled <==> r in Of(states[i].results, ResultId, id)
    ensures Latest(shuffled, ResultNo) == GetResult(ReadsOf(states[i]), id)
  {
    RunNumbers(concurrency, states, times, moves, i);
    var rows := Of(states[i].results, ResultId, id);
    forall x, y | x in rows && y in rows && ResultNo(x) == ResultNo(y) ensures x == y {
      OfMember(states[i].results, ResultId, id, x);
      OfMember(states[i].results, ResultId, id, y);
      SameNumberSameRow(states[i].results, x, y);
    }
    LatestIgnoresOrder(rows, shuffled, ResultNo);
  }
}
