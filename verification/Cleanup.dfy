/** llm_service/runtime/cleanup.py: batched retention cleanup while workers and the API go on changing
    the tables. */
module Cleanup {
  import opened Common
  import opened TaskTable
  import P = TaskProtocol

  const BATCH_TASKS := 1000
  const BATCH_MODEL_CALLS := 5000
  const MAX_BATCHES := 500
  const TIME_BUDGET := 90.0

  datatype Kind = Requests | Attempts | Results | Events

  datatype Child = Child(kind: Kind, rowId: string, task: TaskId)

  datatype Call = Call(id: string, createdAt: Instant, domain: Option<string>)

  /** `issued`: every task id ever used. */
  datatype Db = Db(tasks: Table, children: set<Child>, calls: set<Call>, issued: set<TaskId>)

  datatype Scope = Scope(cutoff: Instant, domain: Option<string>)

  datatype Counts = Counts(tasks: nat, requests: nat, attempts: nat, results: nat, events: nat, calls: nat)

  predicate InDomain(domain: Option<string>, scope: Scope) {
    scope.domain.Some? ==> domain == scope.domain
  }

  /** `_task_predicate`. */
  predicate Eligible(r: Row, scope: Scope) {
    Terminal(r.status) && r.finishedAt.Some? && r.finishedAt.value < scope.cutoff && InDomain(r.domain, scope)
  }

  predicate CallEligible(c: Call, scope: Scope) {
    c.createdAt < scope.cutoff && InDomain(c.domain, scope)
  }

  predicate CanGo(db: Db, id: TaskId, scope: Scope) {
    id in db.tasks && Eligible(db.tasks[id], scope)
  }

  function EligibleIds(db: Db, scope: Scope): set<TaskId> {
    set id | id in db.tasks && Eligible(db.tasks[id], scope)
  }

  function EligibleCalls(db: Db, scope: Scope): set<Call> {
    set c | c in db.calls && CallEligible(c, scope)
  }

  function ChildrenOf(children: set<Child>, kind: Kind, ids: set<TaskId>): set<Child> {
    set c | c in children && c.kind == kind && c.task in ids
  }

  function AllChildrenOf(children: set<Child>, ids: set<TaskId>): set<Child> {
    set c | c in children && c.task in ids
  }

  /** The foreign keys: every child row has its task. */
  ghost predicate Consistent(db: Db) {
    && (forall c :: c in db.children ==> c.task in db.tasks)
    && (forall id :: id in db.tasks ==> id in db.issued)
  }

  // ---------------------------------------------------------------- what others may do meanwhile

  /** Workers, the API and the persist writer: they delete nothing, new tasks take new ids, they finish tasks now and not before
      the cutoff, and they cannot touch a locked task or add rows to it. */
  ghost predicate Interferes(a: Db, b: Db, scope: Scope, locked: set<TaskId>) {
    && Consistent(b)
    && (forall id :: id in a.tasks ==> id in b.tasks)
    && (forall id :: id in b.tasks && id in a.issued ==> id in a.tasks)
    && a.issued <= b.issued
    && (forall id :: CanGo(b, id, scope) ==> id in a.tasks && a.tasks[id] == b.tasks[id])
    && a.children <= b.children
    && (forall id :: id in locked && id in a.tasks ==> b.tasks[id] == a.tasks[id])
    && (forall c :: c in b.children && c.task in locked ==> c in a.children)
    && a.calls <= b.calls
    && (forall c :: c in b.calls && CallEligible(c, scope) ==> c in a.calls)
  }

  /** Every step of the task protocol but deletion interferes that way, late workers included, as long as
      the clock has passed the cutoff. */
  lemma ProtocolInterferes(s: P.State, now: Instant, step: P.Step, scope: Scope, id: TaskId)
    requires P.Enabled(s, now, step) && !step.Delete? && now >= scope.cutoff
    ensures id in s.tasks ==> id in P.Next(s, now, step).tasks
    ensures id in P.Next(s, now, step).tasks && Eligible(P.Next(s, now, step).tasks[id], scope) ==>
              id in s.tasks && s.tasks[id] == P.Next(s, now, step).tasks[id]
  {
  }

  /** A row that a step has written can be cleaned up exactly if the task is now over, for every cutoff later
      than the step, in its own domain or in all of them. */
  lemma WrittenIsEligibleIff(s: P.State, now: Instant, step: P.Step, id: TaskId, scope: Scope)
    requires P.Enabled(s, now, step) && id in P.Next(s, now, step).tasks
    requires id in s.tasks ==> s.tasks[id] != P.Next(s, now, step).tasks[id]
    ensures var r := P.Next(s, now, step).tasks[id];
            Eligible(r, scope)
            <==> r.status in {Succeeded, Failed, DeadLetter, Cancelled} && now < scope.cutoff
                 && (scope.domain == None || scope.domain == r.domain)
  {
  }

  // ---------------------------------------------------------------- what a run has done so far

  /** `log` holds the task rows deleted since `start`, as they were when they were deleted. */
  ghost predicate Progress(start: Db, db: Db, scope: Scope, log: Table) {
    && Consistent(start) && Consistent(db)
    && (forall id :: id in log ==> id in start.tasks && start.tasks[id] == log[id] && Eligible(log[id], scope))
    && (forall id :: id in log ==> id !in db.tasks && id in db.issued)
    && (forall id :: id in start.tasks ==> id in db.tasks || id in log)
    && (forall id :: CanGo(db, id, scope) ==> id in start.tasks && start.tasks[id] == db.tasks[id])
    && (forall c :: c in start.children ==> (c in db.children <==> c.task in db.tasks))
  }

  lemma OthersProgress(start: Db, a: Db, b: Db, scope: Scope, log: Table, locked: set<TaskId>)
    requires Progress(start, a, scope, log) && Interferes(a, b, scope, locked)
    ensures Progress(start, b, scope, log)
  {
    forall c | c in start.children ensures c in b.children <==> c.task in b.tasks {
      if c.task !in a.tasks {
        assert c.task in log;
      }
    }
  }

  // ---------------------------------------------------------------- inside one batch

  /** `_CHILD_ORDER`. */
  const CHILD_ORDER := [Results, Events, Attempts, Requests]

  function Rank(k: Kind): nat {
    match k case Results => 0 case Events => 1 case Attempts => 2 case Requests => 3
  }

  /** Between the statements of a batch: of the locked tasks, the children of the first `done` kinds are
      gone, and everything else is as others left it. */
  ghost predicate Midway(before: Db, db: Db, scope: Scope, locked: set<TaskId>, done: nat) {
    && Consistent(db)
    && (forall id :: id in before.tasks ==> id in db.tasks)
    && (forall id :: id in db.tasks && id in before.issued ==> id in before.tasks)
    && before.issued <= db.issued
    && (forall id :: CanGo(db, id, scope) ==> id in before.tasks && before.tasks[id] == db.tasks[id])
    && (forall id :: id in locked && id in before.tasks ==> db.tasks[id] == before.tasks[id])
    && (forall c :: c in before.children ==> (c in db.children <==> c.task !in locked || Rank(c.kind) >= done))
    && (forall c :: c in db.children && c.task in locked ==> c in before.children)
    && before.calls <= db.calls
    && (forall c :: c in db.calls && CallEligible(c, scope) ==> c in before.calls)
  }

  lemma OthersMidway(before: Db, a: Db, b: Db, scope: Scope, locked: set<TaskId>, done: nat)
    requires Midway(before, a, scope, locked, done) && Interferes(a, b, scope, locked)
    ensures Midway(before, b, scope, locked, done)
  {
  }

  function WithoutChildren(db: Db, kind: Kind, ids: set<TaskId>): Db {
    db.(children := db.children - ChildrenOf(db.children, kind, ids))
  }

  lemma ChildrenGone(before: Db, db: Db, scope: Scope, locked: set<TaskId>, kind: Kind)
    requires Midway(before, db, scope, locked, Rank(kind))
    ensures Midway(before, WithoutChildren(db, kind, locked), scope, locked, Rank(kind) + 1)
    ensures ChildrenOf(db.children, kind, locked) == ChildrenOf(before.children, kind, locked)
  {
  }

  function WithoutTasks(db: Db, ids: set<TaskId>): Db {
    db.(tasks := db.tasks - ids)
  }

  function Rows(t: Table, ids: set<TaskId>): Table {
    map id | id in ids && id in t :: t[id]
  }

  lemma BatchConsistent(before: Db, db: Db, scope: Scope, locked: set<TaskId>)
    requires Midway(before, db, scope, locked, |CHILD_ORDER|)
    ensures Consistent(WithoutTasks(db, locked))
  {
  }

  lemma ChildFollowsTask(start: Db, before: Db, db: Db, scope: Scope, log: Table, locked: set<TaskId>, c: Child)
    requires Progress(start, before, scope, log) && Midway(before, db, scope, locked, |CHILD_ORDER|)
    requires c in start.children
    ensures c in db.children <==> c.task in db.tasks && c.task !in locked
  {
    if c.task !in before.tasks {
      assert c.task in log && c.task !in db.tasks;
    } else {
      assert c in before.children;
    }
  }

  lemma BatchLogged(start: Db, before: Db, db: Db, scope: Scope, log: Table, locked: set<TaskId>, id: TaskId)
    requires Progress(start, before, scope, log) && Midway(before, db, scope, locked, |CHILD_ORDER|)
    requires forall gone :: gone in locked ==> CanGo(before, gone, scope)
    ensures var all := log + Rows(before.tasks, locked);
            && (id in all ==> && id in start.tasks && start.tasks[id] == all[id] && Eligible(all[id], scope)
                              && (id !in db.tasks || id in locked) && id in db.issued)
            && (id in start.tasks ==> (id in db.tasks && id !in locked) || id in all)
  {
    if id in locked {
      assert CanGo(before, id, scope);
    }
  }

  /** The end of a batch: whole tasks are gone, and nothing else. */
  lemma BatchProgress(start: Db, before: Db, db: Db, scope: Scope, log: Table, locked: set<TaskId>)
    requires Progress(start, before, scope, log) && Midway(before, db, scope, locked, |CHILD_ORDER|)
    requires forall id :: id in locked ==> CanGo(before, id, scope)
    ensures Progress(start, WithoutTasks(db, locked), scope, log + Rows(before.tasks, locked))
  {
    var after := WithoutTasks(db, locked);
    var all := log + Rows(before.tasks, locked);
    BatchConsistent(before, db, scope, locked);
    assert forall id :: id in all ==> id in start.tasks && start.tasks[id] == all[id] && Eligible(all[id], scope)
                                      && id !in after.tasks && id in after.issued by {
      forall id | id in all
        ensures id in start.tasks && start.tasks[id] == all[id] && Eligible(all[id], scope)
                && id !in after.tasks && id in after.issued
      {
        BatchLogged(start, before, db, scope, log, locked, id);
      }
    }
    assert forall id :: id in start.tasks ==> id in after.tasks || id in all by {
      forall id | id in start.tasks ensures id in after.tasks || id in all {
        BatchLogged(start, before, db, scope, log, locked, id);
      }
    }
    assert forall id :: CanGo(after, id, scope) ==> CanGo(db, id, scope);
    assert forall c :: c in start.children ==> (c in after.children <==> c.task in after.tasks) by {
      forall c | c in start.children ensures c in after.children <==> c.task in after.tasks {
        ChildFollowsTask(start, before, db, scope, log, locked, c);
      }
    }
  }

  // ---------------------------------------------------------------- why a batch looks again

  /** Deleting by the proposed ids alone, with the predicate on the parent delete only. */
  function BareDelete(db: Db, ids: set<TaskId>, scope: Scope): Db {
    db.(children := db.children - AllChildrenOf(db.children, ids), tasks := db.tasks - ids * EligibleIds(db, scope))
  }

  /** That strips a surviving task of its rows exactly when a proposed task that has any was revived. */
  lemma BareDeleteStripsIff(db: Db, ids: set<TaskId>, scope: Scope)
    requires Consistent(db)
    ensures (exists c :: c in db.children && c.task in BareDelete(db, ids, scope).tasks && c !in BareDelete(db, ids, scope).children)
       <==> (exists c :: c in db.children && c.task in ids && !CanGo(db, c.task, scope))
  {
    var after := BareDelete(db, ids, scope);
    if c :| c in db.children && c.task in ids && !CanGo(db, c.task, scope) {
      assert c.task in after.tasks && c !in after.children;
    }
    if c :| c in db.children && c.task in after.tasks && c !in after.children {
      assert c.task in ids && !CanGo(db, c.task, scope);
    }
  }

  // ---------------------------------------------------------------- the run

  datatype Report = Report(truncated: bool, batches: nat, deleted: Counts, remaining: Option<Counts>)

  predicate AllZero(c: Counts) {
    c == Counts(0, 0, 0, 0, 0, 0)
  }

  function Plus(a: Counts, b: Counts): Counts {
    Counts(a.tasks + b.tasks, a.requests + b.requests, a.attempts + b.attempts, a.results + b.results,
           a.events + b.events, a.calls + b.calls)
  }

  /** The rows of the tasks `ids` in each table. */
  function BatchCounts(db: Db, ids: set<TaskId>): Counts {
    Counts(|ids|, |ChildrenOf(db.children, Requests, ids)|, |ChildrenOf(db.children, Attempts, ids)|,
           |ChildrenOf(db.children, Results, ids)|, |ChildrenOf(db.children, Events, ids)|, 0)
  }

  class CleanupRun {
    var db: Db
    var tick: nat
    ghost var start: Db
    ghost var log: Table
    ghost var shed: set<Child>
    ghost var shedCalls: set<Call>
    /** When the last batch began. */
    ghost var begun: nat
    const scope: Scope
    /** What the others make of the database at the n-th chance, with these tasks locked. */
    const env: (nat, Db, set<TaskId>) -> Db
    const clock: nat -> real

    constructor (db: Db, scope: Scope, env: (nat, Db, set<TaskId>) -> Db, clock: nat -> real)
      ensures this.db == db && start == db && log == map[] && shed == {} && shedCalls == {} && tick == 0 && begun == 0
      ensures this.scope == scope && this.env == env && this.clock == clock
    {
      this.db := db;
      this.scope := scope;
      this.env := env;
      this.clock := clock;
      tick := 0;
      start := db;
      log := map[];
      shed := {};
      shedCalls := {};
      begun := 0;
    }

    ghost predicate Obliging() {
      && (forall n, d, locked :: Consistent(d) ==> Interferes(d, env(n, d, locked), scope, locked))
      && (forall m, n :: m <= n ==> clock(m) <= clock(n))
    }

    /** Nobody else touches the tables. */
    ghost predicate Quiet() {
      forall n, d, locked :: env(n, d, locked) == d
    }

    ghost predicate Valid()
      reads this
    {
      Obliging() && Progress(start, db, scope, log)
    }

    method Others(locked: set<TaskId>)
      requires Obliging() && Consistent(db)
      modifies this`db, this`tick
      ensures Interferes(old(db), db, scope, locked) && tick == old(tick) + 1
      ensures db == env(old(tick), old(db), locked)
      ensures Quiet() ==> db == old(db)
    {
      db := env(tick, db, locked);
      tick := tick + 1;
    }

    /** Between two statements outside a batch. */
    method Yield()
      requires Valid()
      modifies this`db, this`tick
      ensures Valid() && tick == old(tick) + 1 && Shrinks(old(db), db, scope) && old(db).calls <= db.calls
      ensures Quiet() ==> db == old(db)
    {
      ghost var before := db;
      Others({});
      OthersProgress(start, before, db, scope, log, {});
      ShrinksOnly(before, db, scope, {});
    }

    /** One `DELETE FROM agent_llm_<child> WHERE task_id = ANY(verified)`, and whatever happens next. */
    method DeleteChildren(kind: Kind, locked: set<TaskId>, ghost before: Db) returns (count: nat)
      requires Obliging() && Midway(before, db, scope, locked, Rank(kind))
      modifies this`db, this`tick
      ensures Midway(before, db, scope, locked, Rank(kind) + 1) && tick == old(tick) + 1
      ensures count == |ChildrenOf(before.children, kind, locked)|
      ensures Quiet() ==> SameButChildren(old(db), db)
    {
      ChildrenGone(before, db, scope, locked, kind);
      count := |ChildrenOf(db.children, kind, locked)|;
      db := WithoutChildren(db, kind, locked);
      ghost var mine := db;
      Others(locked);
      OthersMidway(before, mine, db, scope, locked, Rank(kind) + 1);
    }

    /** The child tables, in the order of `_CHILD_ORDER`. */
    method DeleteAllChildren(verified: set<TaskId>, ghost before: Db) returns (deleted: map<Kind, nat>)
      requires Obliging() && Midway(before, db, scope, verified, 0)
      modifies this`db, this`tick
      ensures Midway(before, db, scope, verified, |CHILD_ORDER|) && tick == old(tick) + 4
      ensures forall kind :: kind in deleted && deleted[kind] == |ChildrenOf(before.children, kind, verified)|
      ensures Quiet() ==> SameButChildren(old(db), db)
    {
      deleted := map[];
      var k := 0;
      while k < |CHILD_ORDER|
        invariant 0 <= k <= |CHILD_ORDER| && tick == old(tick) + k
        invariant Midway(before, db, scope, verified, k)
        invariant forall kind :: Rank(kind) < k ==>
                    kind in deleted && deleted[kind] == |ChildrenOf(before.children, kind, verified)|
        invariant Quiet() ==> SameButChildren(old(db), db)
      {
        RankOfOrder(k);
        var count := DeleteChildren(CHILD_ORDER[k], verified, before);
        deleted := deleted[CHILD_ORDER[k] := count];
        k := k + 1;
      }
    }

    /** The locked tasks lose their children, whatever others do meanwhile. */
    method StripLocked(verified: set<TaskId>) returns (counts: Counts)
      requires Obliging() && Consistent(db)
      modifies this`db, this`tick
      ensures Midway(old(db), db, scope, verified, |CHILD_ORDER|) && tick == old(tick) + 5
      ensures counts == BatchCounts(old(db), verified).(tasks := 0)
      ensures Quiet() ==> SameButChildren(old(db), db)
    {
      ghost var before := db;
      Others(verified);
      LockedMidway(before, db, scope, verified);
      var deleted := DeleteAllChildren(verified, before);
      counts := Counts(0, deleted[Requests], deleted[Attempts], deleted[Results], deleted[Events], 0);
    }

    /** The statements of a batch after its candidates are locked. */
    method DeleteVerified(verified: set<TaskId>) returns (counts: Counts)
      requires Valid() && forall id :: id in verified ==> CanGo(db, id, scope)
      modifies this`db, this`tick, this`log, this`shed
      ensures Valid() && tick == old(tick) + 5
      ensures log == old(log) + Rows(old(db).tasks, verified) && counts == BatchCounts(old(db), verified)
      ensures shed == old(shed) + AllChildrenOf(old(db).children, verified)
      ensures TookOut(old(db), db, scope, verified)
      ensures Quiet() ==> TookOutOnly(old(db), db, verified)
    {
      ghost var before, rows := db, log;
      counts := StripLocked(verified);
      var going := set id | id in verified && id in db.tasks && Eligible(db.tasks[id], scope);
      LockedStay(before, db, scope, verified, going);
      counts := counts.(tasks := |going|);
      BatchProgress(start, before, db, scope, rows, verified);
      BatchTakesOut(before, db, scope, verified);
      log := rows + Rows(before.tasks, verified);
      shed := shed + AllChildrenOf(before.children, verified);
      db := WithoutTasks(db, going);
    }

    /** `_batch_delete_txn`: of the ids proposed, the tasks that are still eligible when they are locked
        go with all their children, whatever others do between the statements. */
    method BatchDeleteTxn(ids: set<TaskId>) returns (counts: Counts)
      requires Valid()
      modifies this`db, this`tick, this`log, this`shed
      ensures Valid() && tick == old(tick) + if ids * EligibleIds(old(db), scope) == {} then 0 else 5
      ensures var gone := ids * EligibleIds(old(db), scope);
              && log == old(log) + Rows(old(db).tasks, gone) && counts == BatchCounts(old(db), gone)
              && shed == old(shed) + AllChildrenOf(old(db).children, gone)
              && TookOut(old(db), db, scope, gone)
              && (Quiet() ==> TookOutOnly(old(db), db, gone))
    {
      var verified := set id | id in ids && id in db.tasks && Eligible(db.tasks[id], scope);
      assert verified == ids * EligibleIds(db, scope);
      if verified == {} {
        NothingToDo(db, scope, verified, log, shed);
        return Counts(0, 0, 0, 0, 0, 0);
      }
      counts := DeleteVerified(verified);
    }

    /** `SELECT id … LIMIT n`. */
    method Propose() returns (ids: set<TaskId>)
      ensures ids <= EligibleIds(db, scope) && |ids| == Smaller(BATCH_TASKS, |EligibleIds(db, scope)|)
    {
      ids := PickUpTo(EligibleIds(db, scope), BATCH_TASKS);
    }

    /** The transaction of one batch, and the counts with it. */
    method DeleteProposed(ids: set<TaskId>, deleted: Counts) returns (total: Counts)
      requires Valid() && Tallied(deleted, log, shed)
      modifies this`db, this`tick, this`log, this`shed
      ensures Valid() && tick >= old(tick) && Tallied(total, log, shed) && total.calls == deleted.calls
      ensures var gone := ids * EligibleIds(old(db), scope);
              && total.tasks == deleted.tasks + |gone| && TookOut(old(db), db, scope, gone)
              && (Quiet() ==> TookOutOnly(old(db), db, gone))
    {
      ghost var before, rows, gone, children := db, log, ids * EligibleIds(db, scope), shed;
      var counts := BatchDeleteTxn(ids);
      TallyGrows(start, before, scope, rows, children, deleted, gone);
      total := Plus(deleted, counts);
    }

    /** One turn of the task loop; `drained` when nothing was eligible. */
    method TaskBatch(deleted: Counts) returns (drained: bool, total: Counts)
      requires Valid() && Tallied(deleted, log, shed)
      modifies this`begun, this`db, this`tick, this`log, this`shed
      ensures Valid() && tick >= old(tick) && Tallied(total, log, shed) && total.calls == deleted.calls
      ensures begun == old(tick) && (drained <==> EligibleIds(old(db), scope) == {})
      ensures drained ==> EligibleIds(db, scope) == {} && total == deleted
      ensures |EligibleIds(db, scope)| <= Left(|EligibleIds(old(db), scope)|, BATCH_TASKS)
      ensures !drained ==> tick >= old(tick) + 2 && |EligibleIds(db, scope)| < |EligibleIds(old(db), scope)|
      ensures Shrinks(old(db), db, scope)
      ensures Quiet() ==>
                && |EligibleIds(db, scope)| == Left(|EligibleIds(old(db), scope)|, BATCH_TASKS)
                && total.tasks + |EligibleIds(db, scope)| == deleted.tasks + |EligibleIds(old(db), scope)|
                && EligibleCalls(db, scope) == EligibleCalls(old(db), scope)
    {
      begun := tick;
      var ids := Propose();
      if ids == {} {
        assert EligibleIds(db, scope) == {};
        return true, deleted;
      }
      ghost var proposedFrom := db;
      Yield();
      ghost var before := db;
      total := DeleteProposed(ids, deleted);
      ghost var after := db;
      Yield();
      drained := false;
      BatchShrinks(proposedFrom, before, after, db, scope, ids, Quiet());
    }

    /** Loop A. */
    method DeleteTasks(deadline: real) returns (drained: bool, batches: nat, deleted: Counts)
      requires Valid() && log == map[] && shed == {}
      modifies this`begun, this`db, this`tick, this`log, this`shed
      ensures Valid() && tick >= old(tick) && Tallied(deleted, log, shed) && deleted.calls == 0
      ensures batches <= MAX_BATCHES
      ensures drained ==> EligibleIds(db, scope) == {}
      ensures !drained ==> batches >= MAX_BATCHES || clock(tick) >= deadline
      ensures Shrinks(old(db), db, scope) && (batches > 0 ==> clock(begun) < deadline)
      ensures |EligibleIds(db, scope)| <= Left(|EligibleIds(old(db), scope)|, batches * BATCH_TASKS)
      ensures batches + |EligibleIds(db, scope)| <= |EligibleIds(old(db), scope)|
      ensures Quiet() && batches > 0 ==> (batches - 1) * BATCH_TASKS < |EligibleIds(old(db), scope)|
      ensures Quiet() ==>
                && |EligibleIds(db, scope)| == Left(|EligibleIds(old(db), scope)|, batches * BATCH_TASKS)
                && deleted.tasks + |EligibleIds(db, scope)| == |EligibleIds(old(db), scope)|
                && EligibleCalls(db, scope) == EligibleCalls(old(db), scope)
    {
      deleted := Counts(0, 0, 0, 0, 0, 0);
      batches := 0;
      drained := false;
      NothingTallied(log, shed);
      while batches < MAX_BATCHES && clock(tick) < deadline && !drained
        invariant Valid() && tick >= old(tick) && Tallied(deleted, log, shed) && deleted.calls == 0
        invariant batches <= MAX_BATCHES && (batches > 0 ==> clock(begun) < deadline)
        invariant drained ==> EligibleIds(db, scope) == {}
        invariant Shrinks(old(db), db, scope)
        invariant |EligibleIds(db, scope)| <= Left(|EligibleIds(old(db), scope)|, batches * BATCH_TASKS)
        invariant batches + |EligibleIds(db, scope)| <= |EligibleIds(old(db), scope)|
        invariant Quiet() && batches > 0 ==> (batches - 1) * BATCH_TASKS < |EligibleIds(old(db), scope)|
        invariant Quiet() ==>
                    && |EligibleIds(db, scope)| == Left(|EligibleIds(old(db), scope)|, batches * BATCH_TASKS)
                    && deleted.tasks + |EligibleIds(db, scope)| == |EligibleIds(old(db), scope)|
                    && EligibleCalls(db, scope) == EligibleCalls(old(db), scope)
        decreases MAX_BATCHES - batches, !drained
      {
        drained, deleted := TaskBatch(deleted);
        if !drained {
          batches := batches + 1;
        }
      }
    }

    /** One `DELETE FROM agent_llm_model_calls … LIMIT n`, and whatever happens next. */
    method CallBatch() returns (n: nat)
      requires Valid() && shedCalls !! EligibleCalls(db, scope)
      modifies this`begun, this`db, this`tick, this`shedCalls
      ensures Valid() && tick == old(tick) + 1 && Shrinks(old(db), db, scope) && (Quiet() ==> EligibleIds(db, scope) == EligibleIds(old(db), scope))
      ensures begun == old(tick) && n == Smaller(BATCH_MODEL_CALLS, |EligibleCalls(old(db), scope)|)
      ensures old(shedCalls) <= shedCalls <= old(shedCalls) + EligibleCalls(old(db), scope)
      ensures |shedCalls| == old(|shedCalls|) + n && shedCalls !! EligibleCalls(db, scope)
      ensures forall c :: c in old(db).calls ==> c in db.calls || c in shedCalls
      ensures |EligibleCalls(db, scope)| + n <= |EligibleCalls(old(db), scope)|
      ensures Quiet() ==> |EligibleCalls(db, scope)| + n == |EligibleCalls(old(db), scope)|
    {
      begun := tick;
      var gone := PickUpTo(EligibleCalls(db, scope), BATCH_MODEL_CALLS);
      ghost var before, eligible := db, EligibleCalls(db, scope);
      n := |gone|;
      db := db.(calls := db.calls - gone);
      shedCalls := shedCalls + gone;
      CallsDoNotMatter(start, before, db, scope, log);
      assert EligibleCalls(db, scope) == eligible - gone;
      Yield();
      Removed(eligible, gone, EligibleCalls(db, scope));
    }

    /** Loop B: the audit rows of model calls. */
    method DeleteCalls(deadline: real, done: nat, ghost noTasks: bool) returns (drained: bool, batches: nat, deleted: nat)
      requires Valid() && done <= MAX_BATCHES && (noTasks ==> EligibleIds(db, scope) == {})
      requires shedCalls == {} && (done > 0 ==> clock(begun) < deadline)
      modifies this`begun, this`db, this`tick, this`shedCalls
      ensures deleted == |shedCalls| && forall c :: c in shedCalls ==> CallEligible(c, scope)
      ensures forall c :: c in old(db).calls ==> c in db.calls || c in shedCalls
      ensures Valid() && tick >= old(tick) && done <= batches <= MAX_BATCHES
      ensures noTasks ==> EligibleIds(db, scope) == {}
      ensures drained ==> EligibleCalls(db, scope) == {}
      ensures !drained ==> batches >= MAX_BATCHES || clock(tick) >= deadline
      ensures Shrinks(old(db), db, scope) && (batches > 0 ==> clock(begun) < deadline)
      ensures |EligibleCalls(db, scope)| <= Left(|EligibleCalls(old(db), scope)|, (batches - done) * BATCH_MODEL_CALLS)
      ensures batches - done + |EligibleCalls(db, scope)| <= |EligibleCalls(old(db), scope)|
      ensures Quiet() && batches > done ==> (batches - done - 1) * BATCH_MODEL_CALLS < |EligibleCalls(old(db), scope)|
      ensures Quiet() ==>
                && |EligibleCalls(db, scope)| == Left(|EligibleCalls(old(db), scope)|, (batches - done) * BATCH_MODEL_CALLS)
                && deleted + |EligibleCalls(db, scope)| == |EligibleCalls(old(db), scope)|
                && EligibleIds(db, scope) == EligibleIds(old(db), scope)
    {
      batches := done;
      deleted := 0;
      drained := false;
      while batches < MAX_BATCHES && clock(tick) < deadline && !drained
        invariant Valid() && tick >= old(tick) && done <= batches <= MAX_BATCHES
        invariant noTasks ==> EligibleIds(db, scope) == {}
        invariant drained ==> EligibleCalls(db, scope) == {}
        invariant deleted == |shedCalls| && shedCalls !! EligibleCalls(db, scope)
        invariant forall c :: c in shedCalls ==> CallEligible(c, scope)
        invariant forall c :: c in old(db).calls ==> c in db.calls || c in shedCalls
        invariant Shrinks(old(db), db, scope) && (batches > 0 ==> clock(begun) < deadline)
        invariant |EligibleCalls(db, scope)| <= Left(|EligibleCalls(old(db), scope)|, (batches - done) * BATCH_MODEL_CALLS)
        invariant batches - done + |EligibleCalls(db, scope)| <= |EligibleCalls(old(db), scope)|
        invariant Quiet() && batches > done ==> (batches - done - 1) * BATCH_MODEL_CALLS < |EligibleCalls(old(db), scope)|
        invariant Quiet() ==>
                    && |EligibleCalls(db, scope)| == Left(|EligibleCalls(old(db), scope)|, (batches - done) * BATCH_MODEL_CALLS)
                    && deleted + |EligibleCalls(db, scope)| == |EligibleCalls(old(db), scope)|
                    && EligibleIds(db, scope) == EligibleIds(old(db), scope)
        decreases MAX_BATCHES - batches, !drained
      {
        var n := CallBatch();
        if n == 0 {
          drained := true;
        } else {
          deleted := deleted + n;
          batches := batches + 1;
        }
      }
    }

    /** One `SELECT COUNT(*)` over a child table joined with the eligible tasks. */
    method CountChildren(kind: Kind) returns (n: nat)
      requires Valid()
      modifies this`db, this`tick
      ensures Valid() && tick == old(tick) + 1 && Shrinks(old(db), db, scope) && (Quiet() ==> db == old(db))
      ensures n > 0 ==> EligibleIds(old(db), scope) != {}
      ensures n == |ChildrenOf(old(db).children, kind, EligibleIds(old(db), scope))|
    {
      n := |ChildrenOf(db.children, kind, EligibleIds(db, scope))|;
      assert EligibleIds(db, scope) == {} ==> ChildrenOf(db.children, kind, EligibleIds(db, scope)) == {};
      Yield();
    }

    /** `_count_all`: six statements, with others at work in between. */
    method CountAll() returns (c: Counts)
      requires Valid()
      modifies this`db, this`tick
      ensures Valid() && tick == old(tick) + 5 && Shrinks(old(db), db, scope) && (Quiet() ==> db == old(db))
      ensures AllZero(c) ==> Drained(db, scope)
      ensures !AllZero(c) ==> !Drained(old(db), scope)
      ensures Quiet() ==> c == BatchCounts(db, EligibleIds(db, scope)).(calls := |EligibleCalls(db, scope)|)
    {
      var tasks := |EligibleIds(db, scope)|;
      Yield();
      var requests := CountChildren(Requests);
      var attempts := CountChildren(Attempts);
      var results := CountChildren(Results);
      var events := CountChildren(Events);
      var calls := |EligibleCalls(db, scope)|;
      c := Counts(tasks, requests, attempts, results, events, calls);
    }

    /** Both loops. */
    method DeleteAll(deadline: real) returns (batches: nat, deleted: Counts, ghost taskBatches: nat)
      requires Valid() && log == map[] && shed == {} && shedCalls == {}
      modifies this`begun, this`db, this`tick, this`log, this`shed, this`shedCalls
      ensures Valid() && tick >= old(tick) && batches <= MAX_BATCHES
      ensures Tallied(deleted, log, shed) && CallsTallied(deleted, shedCalls, scope)
      ensures batches < MAX_BATCHES && clock(tick) < deadline ==> Drained(db, scope)
      ensures taskBatches <= batches && Shrinks(old(db), db, scope) && (batches > 0 ==> clock(begun) < deadline)
      ensures taskBatches + |EligibleIds(db, scope)| <= |EligibleIds(old(db), scope)|
      ensures |EligibleIds(db, scope)| <= Left(|EligibleIds(old(db), scope)|, taskBatches * BATCH_TASKS)
      ensures |EligibleCalls(db, scope)| <= Left(|EligibleCalls(old(db), scope)|, (batches - taskBatches) * BATCH_MODEL_CALLS)
      ensures Quiet() ==> DidAll(old(db), db, taskBatches, batches - taskBatches, deleted)
    {
      var drained, some, counts := DeleteTasks(deadline);
      taskBatches := some;
      ghost var between := db;
      FewerLeft(old(db), between, scope);
      var over, all, calls := DeleteCalls(deadline, some, drained);
      batches := all;
      deleted := counts.(calls := calls);
      FewerLeft(between, db, scope);
    }

    /** An undisturbed run: every batch was as large as the rows left allowed, and every row gone was counted. */
    ghost predicate DidAll(before: Db, after: Db, taskBatches: nat, callBatches: nat, deleted: Counts) {
      && |EligibleIds(after, scope)| == Left(|EligibleIds(before, scope)|, taskBatches * 1000)
      && |EligibleCalls(after, scope)| == Left(|EligibleCalls(before, scope)|, callBatches * 5000)
      && deleted.tasks + |EligibleIds(after, scope)| == |EligibleIds(before, scope)|
      && deleted.calls + |EligibleCalls(after, scope)| == |EligibleCalls(before, scope)|
      && (taskBatches > 0 ==> (taskBatches - 1) * 1000 < |EligibleIds(before, scope)|)
      && (callBatches > 0 ==> (callBatches - 1) * 5000 < |EligibleCalls(before, scope)|)
    }

    /** The end of a run: was it cut short, and is anything left? `looked` is the database as it last looked at it. */
    method Conclude(deadline: real, batches: nat, deleted: Counts) returns (report: Report, ghost looked: Db)
      requires Valid() && (batches < MAX_BATCHES && clock(tick) < deadline ==> Drained(db, scope))
      modifies this`db, this`tick
      ensures Valid() && tick >= old(tick) && Shrinks(old(db), db, scope) && Shrinks(looked, db, scope)
      ensures report.batches == batches && report.deleted == deleted
      ensures report.truncated ==> batches >= MAX_BATCHES || clock(tick) >= deadline
      ensures report.truncated <==> !Drained(looked, scope)
      ensures report.truncated <==> report.remaining.Some? && !AllZero(report.remaining.value)
      ensures Quiet() ==> db == old(db)
      ensures Quiet() && report.truncated ==>
                report.remaining == Some(BatchCounts(db, EligibleIds(db, scope)).(calls := |EligibleCalls(db, scope)|))
    {
      looked := db;
      var truncated := batches >= MAX_BATCHES || clock(tick) >= deadline;
      report := Report(false, batches, deleted, None);
      if truncated {
        var remaining := CountAll();
        if AllZero(remaining) {
          looked := db;
        } else {
          report := Report(true, batches, deleted, Some(remaining));
        }
      }
    }

    /** `run_cleanup` with `dry_run` off. `looked` is the database as the run last looked at it, `taskBatches` how
        many of its batches deleted tasks. */
    method RunCleanup() returns (report: Report, ghost looked: Db, ghost taskBatches: nat)
      requires Valid() && log == map[] && shed == {} && shedCalls == {}
      modifies this`begun, this`db, this`tick, this`log, this`shed, this`shedCalls
      ensures Valid() && report.batches <= 500 && OnlyWholeOldTasks(start, db, scope)
      ensures Tallied(report.deleted, log, shed) && CallsTallied(report.deleted, shedCalls, scope)
      ensures Shrinks(looked, db, scope)
      ensures report.truncated ==> report.batches >= 500 || clock(tick) >= clock(old(tick)) + 90.0
      ensures report.truncated <==> !Drained(looked, scope)
      ensures report.truncated <==> report.remaining.Some? && !AllZero(report.remaining.value)
      ensures taskBatches <= report.batches && Shrinks(old(db), db, scope)
      ensures report.batches > 0 ==> clock(begun) < clock(old(tick)) + 90.0
      ensures taskBatches + |EligibleIds(db, scope)| <= |EligibleIds(old(db), scope)|
      ensures |EligibleIds(db, scope)| <= Left(|EligibleIds(old(db), scope)|, taskBatches * 1000)
      ensures |EligibleCalls(db, scope)| <= Left(|EligibleCalls(old(db), scope)|, (report.batches - taskBatches) * 5000)
      ensures Quiet() ==> DidAll(old(db), db, taskBatches, report.batches - taskBatches, report.deleted)
      ensures Quiet() && report.truncated ==>
                report.remaining == Some(BatchCounts(db, EligibleIds(db, scope)).(calls := |EligibleCalls(db, scope)|))
    {
      var deadline := clock(tick) + TIME_BUDGET;
      var batches, deleted;
      batches, deleted, taskBatches := DeleteAll(deadline);
      ghost var afterwards := db;
      report, looked := Conclude(deadline, batches, deleted);
      FewerLeft(afterwards, db, scope);
      ProgressMeans(start, db, scope, log);
    }
  }

  /** What a run may have done to the tables it found: tasks that are gone were finished before the cutoff
      and in scope, a task goes with all its rows or keeps them all, and no row is left behind. */
  ghost predicate OnlyWholeOldTasks(start: Db, db: Db, scope: Scope) {
    && (forall id :: id in start.tasks && id !in db.tasks ==> Eligible(start.tasks[id], scope))
    && (forall c :: c in start.children ==> (c in db.children <==> c.task in db.tasks))
    && (forall c :: c in db.children ==> c.task in db.tasks)
  }

  lemma ProgressMeans(start: Db, db: Db, scope: Scope, log: Table)
    requires Progress(start, db, scope, log)
    ensures OnlyWholeOldTasks(start, db, scope)
  {
  }

  ghost predicate CallsTallied(c: Counts, gone: set<Call>, scope: Scope) {
    c.calls == |gone|
    && forall call :: call in gone ==> call.createdAt < scope.cutoff && (scope.domain == None || scope.domain == call.domain)
  }

  ghost predicate Drained(db: Db, scope: Scope) {
    EligibleIds(db, scope) == {} && EligibleCalls(db, scope) == {}
  }

  /** Nothing is left to clean up: no task in scope was over before the cutoff, no call in scope older than it. */
  lemma DrainedMeans(db: Db, scope: Scope)
    ensures Drained(db, scope)
       <==> && (forall id :: id in db.tasks && db.tasks[id].status in {Succeeded, Failed, DeadLetter, Cancelled}
                             && db.tasks[id].finishedAt.Some? && db.tasks[id].finishedAt.value < scope.cutoff ==>
                  scope.domain.Some? && scope.domain != db.tasks[id].domain)
            && (forall c :: c in db.calls && c.createdAt < scope.cutoff ==> scope.domain.Some? && scope.domain != c.domain)
  {
    assert forall id :: CanGo(db, id, scope) ==> id in EligibleIds(db, scope);
    assert forall c :: c in db.calls && CallEligible(c, scope) ==> c in EligibleCalls(db, scope);
    assert forall id :: id in db.tasks && Terminal(db.tasks[id].status) ==> CanGo(db, id, scope) == Eligible(db.tasks[id], scope);
  }

  /** The counts of a run so far are the rows it deleted. */
  ghost predicate Tallied(c: Counts, log: Table, shed: set<Child>) {
    && c.tasks == |log|
    && c.requests == |ChildrenOf(shed, Requests, log.Keys)| && c.attempts == |ChildrenOf(shed, Attempts, log.Keys)|
    && c.results == |ChildrenOf(shed, Results, log.Keys)| && c.events == |ChildrenOf(shed, Events, log.Keys)|
    && forall x :: x in shed ==> x.task in log
  }

  lemma NothingTallied(log: Table, shed: set<Child>)
    requires log == map[] && shed == {}
    ensures Tallied(Counts(0, 0, 0, 0, 0, 0), log, shed)
  {
    assert ChildrenOf(shed, Requests, log.Keys) == {} && ChildrenOf(shed, Attempts, log.Keys) == {};
    assert ChildrenOf(shed, Results, log.Keys) == {} && ChildrenOf(shed, Events, log.Keys) == {};
  }

  lemma KindTally(kind: Kind, shed: set<Child>, children: set<Child>, ids: set<TaskId>, gone: set<TaskId>)
    requires forall x :: x in shed ==> x.task in ids
    requires ids !! gone
    ensures |ChildrenOf(shed + AllChildrenOf(children, gone), kind, ids + gone)|
         == |ChildrenOf(shed, kind, ids)| + |ChildrenOf(children, kind, gone)|
  {
    assert ChildrenOf(shed + AllChildrenOf(children, gone), kind, ids + gone)
        == ChildrenOf(shed, kind, ids) + ChildrenOf(children, kind, gone);
    assert ChildrenOf(shed, kind, ids) !! ChildrenOf(children, kind, gone);
  }

  lemma KeysGrow(log: Table, t: Table, gone: set<TaskId>)
    requires log.Keys !! gone && gone <= t.Keys
    ensures (log + Rows(t, gone)).Keys == log.Keys + gone
    ensures |log + Rows(t, gone)| == |log| + |gone|
  {
    var all := log + Rows(t, gone);
    assert Rows(t, gone).Keys == gone;
    assert all.Keys == log.Keys + gone;
    assert |all| == |all.Keys| && |log| == |log.Keys|;
  }

  lemma TallyGrows(start: Db, db: Db, scope: Scope, log: Table, shed: set<Child>, c: Counts, gone: set<TaskId>)
    requires Progress(start, db, scope, log) && Tallied(c, log, shed)
    requires forall id :: id in gone ==> CanGo(db, id, scope)
    ensures Tallied(Plus(c, BatchCounts(db, gone)), log + Rows(db.tasks, gone), shed + AllChildrenOf(db.children, gone))
  {
    assert gone <= db.tasks.Keys by {
      assert forall id :: id in gone ==> CanGo(db, id, scope);
    }
    TallySum(log, db.tasks, shed, db.children, c, gone);
  }

  lemma TallySum(log: Table, t: Table, shed: set<Child>, children: set<Child>, c: Counts, gone: set<TaskId>)
    requires Tallied(c, log, shed) && log.Keys !! gone && gone <= t.Keys
    ensures Tallied(Plus(c, Counts(|gone|, |ChildrenOf(children, Requests, gone)|, |ChildrenOf(children, Attempts, gone)|,
                                   |ChildrenOf(children, Results, gone)|, |ChildrenOf(children, Events, gone)|, 0)),
                    log + Rows(t, gone), shed + AllChildrenOf(children, gone))
  {
    KeysGrow(log, t, gone);
    KindTally(Requests, shed, children, log.Keys, gone);
    KindTally(Attempts, shed, children, log.Keys, gone);
    KindTally(Results, shed, children, log.Keys, gone);
    KindTally(Events, shed, children, log.Keys, gone);
  }

  lemma CallsDoNotMatter(start: Db, a: Db, b: Db, scope: Scope, log: Table)
    requires Progress(start, a, scope, log) && b == a.(calls := b.calls)
    ensures Progress(start, b, scope, log) && EligibleIds(b, scope) == EligibleIds(a, scope)
  {
  }

  function Smaller(a: nat, b: nat): nat {
    if a <= b then a else b
  }

  /** What is left of `n` when up to `m` are taken. */
  function Left(n: nat, m: nat): nat {
    if n <= m then 0 else n - m
  }

  /** Of these tasks none is eligible any more, and no other one has become so. */
  ghost predicate TookOut(a: Db, b: Db, scope: Scope, gone: set<TaskId>) {
    EligibleIds(b, scope) <= EligibleIds(a, scope) - gone && EligibleCalls(b, scope) <= EligibleCalls(a, scope)
  }

  ghost predicate TookOutOnly(a: Db, b: Db, gone: set<TaskId>) {
    b.tasks == a.tasks - gone && b.calls == a.calls
  }

  ghost predicate SameButChildren(a: Db, b: Db) {
    b.tasks == a.tasks && b.calls == a.calls
  }

  lemma BatchTakesOut(before: Db, db: Db, scope: Scope, locked: set<TaskId>)
    requires Midway(before, db, scope, locked, |CHILD_ORDER|)
    ensures TookOut(before, WithoutTasks(db, locked), scope, locked)
  {
    forall id | id in EligibleIds(WithoutTasks(db, locked), scope) ensures id in EligibleIds(before, scope) - locked {
      assert CanGo(db, id, scope);
    }
  }

  lemma TookOutExactly(a: Db, b: Db, scope: Scope, gone: set<TaskId>)
    requires TookOutOnly(a, b, gone)
    ensures EligibleIds(b, scope) == EligibleIds(a, scope) - gone && EligibleCalls(b, scope) == EligibleCalls(a, scope)
  {
  }

  /** From the proposal to the end of a turn: as many tasks as were proposed are no longer eligible, at least. */
  lemma BatchShrinks(a: Db, b: Db, c: Db, d: Db, scope: Scope, ids: set<TaskId>, quiet: bool)
    requires ids <= EligibleIds(a, scope) && Shrinks(a, b, scope) && Shrinks(c, d, scope)
    requires TookOut(b, c, scope, ids * EligibleIds(b, scope))
    requires quiet ==> a == b && c == d && TookOutOnly(b, c, ids * EligibleIds(b, scope))
    ensures Shrinks(a, d, scope) && |EligibleIds(d, scope)| + |ids| <= |EligibleIds(a, scope)|
    ensures quiet ==> |EligibleIds(d, scope)| + |ids| == |EligibleIds(a, scope)| && ids * EligibleIds(b, scope) == ids
                      && EligibleCalls(d, scope) == EligibleCalls(a, scope)
  {
    var gone := ids * EligibleIds(b, scope);
    if quiet {
      assert gone == ids;
      TookOutExactly(b, c, scope, ids);
    }
    Removed(EligibleIds(a, scope), ids, EligibleIds(d, scope));
  }

  lemma Removed<T>(eligible: set<T>, ids: set<T>, after: set<T>)
    requires ids <= eligible && after <= eligible - ids
    ensures |after| <= |eligible| - |ids|
    ensures after == eligible - ids ==> |after| == |eligible| - |ids|
  {
    SubsetSize(after, eligible - ids);
  }

  ghost predicate Shrinks(a: Db, b: Db, scope: Scope) {
    EligibleIds(b, scope) <= EligibleIds(a, scope) && EligibleCalls(b, scope) <= EligibleCalls(a, scope)
  }

  lemma FewerLeft(a: Db, b: Db, scope: Scope)
    requires Shrinks(a, b, scope)
    ensures |EligibleIds(b, scope)| <= |EligibleIds(a, scope)| && |EligibleCalls(b, scope)| <= |EligibleCalls(a, scope)|
  {
    SubsetSize(EligibleIds(b, scope), EligibleIds(a, scope));
    SubsetSize(EligibleCalls(b, scope), EligibleCalls(a, scope));
  }

  /** What others do never makes a row eligible. */
  lemma ShrinksOnly(a: Db, b: Db, scope: Scope, locked: set<TaskId>)
    requires Interferes(a, b, scope, locked)
    ensures Shrinks(a, b, scope)
  {
    forall id | id in EligibleIds(b, scope) ensures id in EligibleIds(a, scope) {
      assert CanGo(b, id, scope);
    }
  }

  /** `LIMIT n`: any `n` of the rows, or all if there are fewer. */
  method PickUpTo<T(==)>(rows: set<T>, n: nat) returns (picked: set<T>)
    ensures picked <= rows && |picked| == if |rows| <= n then |rows| else n
  {
    picked := {};
    var left := rows;
    while left != {} && |picked| < n
      invariant picked + left == rows && picked !! left && |picked| <= n
      decreases left
    {
      var r :| r in left;
      picked := picked + {r};
      left := left - {r};
    }
    assert |rows| == |picked| + |left|;
    assert left == {} ==> picked == rows;
  }

  lemma LockedMidway(before: Db, db: Db, scope: Scope, locked: set<TaskId>)
    requires Consistent(before) && Interferes(before, db, scope, locked)
    ensures Midway(before, db, scope, locked, 0)
  {
  }

  /** The predicate repeated in the parent delete excludes none of the locked tasks. */
  lemma LockedStay(before: Db, db: Db, scope: Scope, locked: set<TaskId>, going: set<TaskId>)
    requires Midway(before, db, scope, locked, |CHILD_ORDER|) && forall id :: id in locked ==> CanGo(before, id, scope)
    requires going == set id | id in locked && id in db.tasks && Eligible(db.tasks[id], scope)
    ensures going == locked
  {
    assert forall id :: id in locked ==> CanGo(before, id, scope) && id in db.tasks;
  }

  lemma RankOfOrder(k: nat)
    requires k < |CHILD_ORDER|
    ensures Rank(CHILD_ORDER[k]) == k
    ensures forall kind :: Rank(kind) == k ==> kind == CHILD_ORDER[k]
  {
  }

  lemma NothingToDo(db: Db, scope: Scope, ids: set<TaskId>, log: Table, shed: set<Child>)
    requires ids == {}
    ensures log + Rows(db.tasks, ids) == log && BatchCounts(db, ids) == Counts(0, 0, 0, 0, 0, 0)
    ensures shed + AllChildrenOf(db.children, ids) == shed
    ensures TookOut(db, db, scope, ids) && TookOutOnly(db, db, ids)
  {
    assert Rows(db.tasks, ids) == map[] && AllChildrenOf(db.children, ids) == {};
    assert ChildrenOf(db.children, Requests, ids) == {} && ChildrenOf(db.children, Attempts, ids) == {};
    assert ChildrenOf(db.children, Results, ids) == {} && ChildrenOf(db.children, Events, ids) == {};
    assert db.tasks - ids == db.tasks;
  }
}
