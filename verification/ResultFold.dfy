/** llm_service/runtime/service.py: `get_result` and `get_tasks_batch`. */
module ResultFold {
  import opened Common
  import opened TaskTable
  import opened TaskProtocol

  datatype AttemptRow = AttemptRow(id: TaskId, no: int, failed: bool, error: string)

  /** What the queries on the three tables see, not necessarily at one moment. */
  datatype Reads = Reads(tasks: Table, results: seq<ResultRow>, attempts: seq<AttemptRow>)

  datatype Entry = Entry(id: TaskId, row: Row, result: Option<ResultRow>, error: Option<AttemptRow>)

  datatype Batch = Batch(tasks: seq<Entry>, notFound: seq<TaskId>)

  datatype BatchError = EmptyRequest

  // ---------------------------------------------------------------- the row of the newest attempt

  /** The rows of one task, in the order the driver returned them. */
  function Of<T>(rows: seq<T>, idOf: T -> TaskId, id: TaskId): seq<T> {
    Filter(rows, r => idOf(r) == id)
  }

  lemma OfMember<T>(rows: seq<T>, idOf: T -> TaskId, id: TaskId, row: T)
    ensures row in Of(rows, idOf, id) <==> row in rows && idOf(row) == id
  {
    FilterMember(rows, r => idOf(r) == id, row);
  }

  /** What `max` with a key returns: of the rows with the greatest number, the first. */
  function Latest<T>(rows: seq<T>, noOf: T -> int): Option<T> {
    if rows == [] then None
    else
      var before := Latest(rows[..|rows| - 1], noOf);
      var last := rows[|rows| - 1];
      if before.None? || noOf(last) > noOf(before.value) then Some(last) else before
  }

  function Lookup<T>(best: map<TaskId, T>, id: TaskId): Option<T> {
    if id in best then Some(best[id]) else None
  }

  lemma {:induction false} LatestIsFirstMaximum<T>(rows: seq<T>, noOf: T -> int) returns (k: nat)
    requires rows != []
    ensures k < |rows| && Latest(rows, noOf) == Some(rows[k])
    ensures forall j :: 0 <= j < |rows| ==> noOf(rows[j]) <= noOf(rows[k])
    ensures forall j :: 0 <= j < k ==> noOf(rows[j]) < noOf(rows[k])
  {
    var n := |rows| - 1;
    if n == 0 {
      k := 0;
    } else {
      k := LatestIsFirstMaximum(rows[..n], noOf);
      if noOf(rows[n]) > noOf(rows[k]) {
        k := n;
      }
    }
  }

  /** No two rows carry the same number. */
  ghost predicate NumbersDiffer<T(!new)>(rows: seq<T>, noOf: T -> int) {
    forall x, y :: x in rows && y in rows && noOf(x) == noOf(y) ==> x == y
  }

  /** With distinct numbers the answer does not depend on the order the driver chose. */
  lemma LatestIgnoresOrder<T(!new)>(rows: seq<T>, shuffled: seq<T>, noOf: T -> int)
    requires NumbersDiffer(rows, noOf) && forall x :: x in rows <==> x in shuffled
    ensures Latest(shuffled, noOf) == Latest(rows, noOf)
  {
    assert forall i :: 0 <= i < |shuffled| ==> shuffled[i] in rows;
    if rows != [] {
      assert rows[0] in shuffled;
      var j := LatestIsFirstMaximum(rows, noOf);
      var k := LatestIsFirstMaximum(shuffled, noOf);
      assert rows[j] in shuffled && shuffled[k] in rows;
    }
  }

  // ---------------------------------------------------------------- one pass for many tasks

  /** The grouping loop: a row replaces the kept one only with a greater number. */
  method FoldLatest<T>(rows: seq<T>, idOf: T -> TaskId, noOf: T -> int) returns (best: map<TaskId, T>)
    ensures forall id :: Lookup(best, id) == Latest(Of(rows, idOf, id), noOf)
  {
    best := map[];
    var i := 0;
    while i < |rows|
      invariant 0 <= i <= |rows|
      invariant forall id :: Lookup(best, id) == Latest(Of(rows[..i], idOf, id), noOf)
    {
      var row := rows[i];
      var current := Lookup(best, idOf(row));
      ghost var before := best;
      if current.None? || noOf(row) > noOf(current.value) {
        best := best[idOf(row) := row];
      }
      forall id ensures Lookup(best, id) == Latest(Of(rows[..i + 1], idOf, id), noOf) {
        assert Lookup(before, id) == Latest(Of(rows[..i], idOf, id), noOf);
        OneMore(rows, i, idOf, noOf, id);
      }
      i := i + 1;
    }
    assert rows[..|rows|] == rows;
  }

  lemma OneMore<T>(rows: seq<T>, i: nat, idOf: T -> TaskId, noOf: T -> int, id: TaskId)
    requires i < |rows|
    ensures var before := Latest(Of(rows[..i], idOf, id), noOf);
            Latest(Of(rows[..i + 1], idOf, id), noOf)
            == if idOf(rows[i]) == id && (before.None? || noOf(rows[i]) > noOf(before.value)) then Some(rows[i]) else before
  {
    assert rows[..i + 1] == rows[..i] + [rows[i]];
    FilterAppend(rows[..i], [rows[i]], r => idOf(r) == id);
    var one := Filter([rows[i]], r => idOf(r) == id);
    if idOf(rows[i]) == id {
      assert one == [rows[i]];
      var kept := Of(rows[..i], idOf, id);
      assert (kept + one)[..|kept|] == kept && (kept + one)[|kept|] == rows[i];
    } else {
      assert one == [];
      assert Of(rows[..i + 1], idOf, id) == Of(rows[..i], idOf, id);
    }
  }

  /** Asking for fewer tasks does not change the rows of one that is asked for. */
  lemma {:induction false} NarrowerQuery<T>(rows: seq<T>, idOf: T -> TaskId, p: T -> bool, q: T -> bool, id: TaskId)
    requires forall r :: r in rows && idOf(r) == id ==> p(r) == q(r)
    ensures Of(Filter(rows, p), idOf, id) == Of(Filter(rows, q), idOf, id)
  {
    if rows != [] {
      NarrowerQuery(rows[1..], idOf, p, q, id);
      HeadQuery(rows, idOf, p, id);
      HeadQuery(rows, idOf, q, id);
    }
  }

  lemma HeadQuery<T>(rows: seq<T>, idOf: T -> TaskId, p: T -> bool, id: TaskId)
    requires rows != []
    ensures Of(Filter(rows, p), idOf, id)
         == if p(rows[0]) && idOf(rows[0]) == id then [rows[0]] + Of(Filter(rows[1..], p), idOf, id)
            else Of(Filter(rows[1..], p), idOf, id)
  {
    var rest := Filter(rows[1..], p);
    assert ([rows[0]] + rest)[1..] == rest;
  }

  lemma {:induction false} FilterAll<T>(rows: seq<T>, p: T -> bool)
    requires forall r :: r in rows ==> p(r)
    ensures Filter(rows, p) == rows
  {
    if rows != [] {
      FilterAll(rows[1..], p);
    }
  }

  // ---------------------------------------------------------------- one task at a time

  function ResultId(r: ResultRow): TaskId { r.id }
  function ResultNo(r: ResultRow): int { r.no }
  function AttemptId(a: AttemptRow): TaskId { a.id }
  function AttemptNo(a: AttemptRow): int { a.no }

  /** `get_result`: the row of the newest attempt that wrote one. */
  function GetResult(db: Reads, id: TaskId): Option<ResultRow> {
    Latest(Of(db.results, ResultId, id), ResultNo)
  }

  /** The newest failed attempt. */
  function LastError(db: Reads, id: TaskId): Option<AttemptRow> {
    Latest(Of(Filter(db.attempts, (a: AttemptRow) => a.failed), AttemptId, id), AttemptNo)
  }

  /** The answer for one task, asked alone. */
  function EntryOf(db: Reads, id: TaskId, includeResults: bool): Entry
    requires id in db.tasks
  {
    var row := db.tasks[id];
    Entry(id, row,
          if includeResults && row.status == Succeeded then GetResult(db, id) else None,
          if row.status == DeadLetter || row.status == Failed then LastError(db, id) else None)
  }

  /** The newest result row of the task. */
  ghost predicate IsNewestResult(row: Option<ResultRow>, db: Reads, id: TaskId) {
    && (row.Some? ==> row.value in db.results && row.value.id == id)
    && (forall r :: r in db.results && r.id == id ==> row.Some? && r.no <= row.value.no)
  }

  /** The newest failed attempt of the task. */
  ghost predicate IsNewestError(row: Option<AttemptRow>, db: Reads, id: TaskId) {
    && (row.Some? ==> row.value in db.attempts && row.value.id == id && row.value.failed)
    && (forall a :: a in db.attempts && a.id == id && a.failed ==> row.Some? && a.no <= row.value.no)
  }

  lemma LatestIsNewest<T>(rows: seq<T>, idOf: T -> TaskId, noOf: T -> int, id: TaskId)
    ensures var latest := Latest(Of(rows, idOf, id), noOf);
            && (latest.Some? ==> latest.value in rows && idOf(latest.value) == id)
            && (forall r :: r in rows && idOf(r) == id ==> latest.Some? && noOf(r) <= noOf(latest.value))
  {
    var own := Of(rows, idOf, id);
    forall r | r in rows && idOf(r) == id ensures r in own {
      OfMember(rows, idOf, id, r);
    }
    if own != [] {
      var k := LatestIsFirstMaximum(own, noOf);
      OfMember(rows, idOf, id, own[k]);
    }
  }

  lemma FailedIsNewest(db: Reads, id: TaskId)
    ensures IsNewestError(LastError(db, id), db, id)
  {
    var failed := Filter(db.attempts, (a: AttemptRow) => a.failed);
    LatestIsNewest(failed, AttemptId, AttemptNo, id);
    forall a ensures a in failed <==> a in db.attempts && a.failed {
      FilterMember(db.attempts, (a: AttemptRow) => a.failed, a);
    }
    assert forall a :: a in failed && a.id == id ==> AttemptId(a) == id && AttemptNo(a) == a.no;
  }

  lemma ResultIsNewest(db: Reads, id: TaskId)
    ensures IsNewestResult(GetResult(db, id), db, id)
  {
    LatestIsNewest(db.results, ResultId, ResultNo, id);
    assert forall r :: r in db.results && r.id == id ==> ResultId(r) == id && ResultNo(r) == r.no;
  }

  /** What a caller is told about a task: its row; its newest result, if it succeeded and results are asked for;
      its newest failed attempt, if it has failed for good. */
  lemma EntryTells(db: Reads, id: TaskId, includeResults: bool)
    requires id in db.tasks
    ensures var e := EntryOf(db, id, includeResults);
            && e.id == id && e.row == db.tasks[id]
            && (if includeResults && e.row.status == Succeeded then IsNewestResult(e.result, db, id) else e.result == None)
            && (if e.row.status in {DeadLetter, Failed} then IsNewestError(e.error, db, id) else e.error == None)
  {
    ResultIsNewest(db, id);
    FailedIsNewest(db, id);
  }

  /** The distinct ids, in the order they are first asked for: `dict.fromkeys`. */
  function FirstSeen(ids: seq<TaskId>): seq<TaskId> {
    if ids == [] then []
    else
      var before := FirstSeen(ids[..|ids| - 1]);
      if ids[|ids| - 1] in before then before else before + [ids[|ids| - 1]]
  }

  lemma {:induction false} FirstSeenOnce(ids: seq<TaskId>, id: TaskId)
    ensures id in FirstSeen(ids) <==> id in ids
    ensures Distinct(FirstSeen(ids))
  {
    if ids != [] {
      var n := |ids| - 1;
      FirstSeenOnce(ids[..n], id);
      FirstSeenOnce(ids[..n], ids[n]);
      assert ids == ids[..n] + [ids[n]];
    }
  }

  function Entries(db: Reads, ids: seq<TaskId>, includeResults: bool): seq<Entry> {
    if ids == [] then []
    else
      var before := Entries(db, ids[..|ids| - 1], includeResults);
      var id := ids[|ids| - 1];
      if id in db.tasks then before + [EntryOf(db, id, includeResults)] else before
  }

  /** What the three queries and the two passes know about one id. */
  predicate Fetched(db: Reads, byId: Table, results: map<TaskId, ResultRow>, errors: map<TaskId, AttemptRow>,
                    includeResults: bool, id: TaskId)
  {
    && (id in byId <==> id in db.tasks)
    && (id in byId ==> byId[id] == db.tasks[id])
    && (includeResults ==> Lookup(results, id) == GetResult(db, id))
    && (id in byId && (byId[id].status == DeadLetter || byId[id].status == Failed) ==> Lookup(errors, id) == LastError(db, id))
  }

  /** The loop that builds the answer, in the order the ids were first asked for. */
  method BuildEntries(db: Reads, unique: seq<TaskId>, byId: Table, results: map<TaskId, ResultRow>,
                      errors: map<TaskId, AttemptRow>, includeResults: bool)
    returns (tasks: seq<Entry>)
    requires forall id :: id in unique ==> Fetched(db, byId, results, errors, includeResults, id)
    ensures tasks == Entries(db, unique, includeResults)
  {
    tasks := [];
    var i := 0;
    while i < |unique|
      invariant 0 <= i <= |unique|
      invariant tasks == Entries(db, unique[..i], includeResults)
    {
      var id := unique[i];
      assert unique[..i + 1][..i] == unique[..i] && unique[..i + 1][i] == id;
      assert Fetched(db, byId, results, errors, includeResults, id);
      if id in byId {
        var row := byId[id];
        var result := if includeResults && row.status == Succeeded then Lookup(results, id) else None;
        var error := if row.status == DeadLetter || row.status == Failed then Lookup(errors, id) else None;
        tasks := tasks + [Entry(id, row, result, error)];
      }
      i := i + 1;
    }
    assert unique[..|unique|] == unique;
  }

  /** For every id of the batch, the answer it would get alone. */
  method GetTasksBatch(db: Reads, ids: seq<TaskId>, includeResults: bool) returns (r: Result<Batch, BatchError>)
    ensures r.Err? <==> ids == []
    ensures r.Ok? ==> r.value == Batch(Entries(db, FirstSeen(ids), includeResults), Filter(ids, id => id !in db.tasks))
  {
    if ids == [] {
      return Err(EmptyRequest);
    }
    var unique := FirstSeen(ids);
    var byId := map id | id in db.tasks && id in unique :: db.tasks[id];
    var results: map<TaskId, ResultRow> := map[];
    if includeResults {
      results := FoldLatest(Filter(db.results, (x: ResultRow) => x.id in unique), ResultId, ResultNo);
    }
    var failedIds := set id | id in byId && (byId[id].status == DeadLetter || byId[id].status == Failed);
    var errors := FoldLatest(Filter(db.attempts, (a: AttemptRow) => a.id in failedIds && a.failed), AttemptId, AttemptNo);
    forall id | id in unique ensures Fetched(db, byId, results, errors, includeResults, id) {
      ResultsAgree(db, unique, id);
      ErrorsAgree(db, failedIds, id);
    }
    var tasks := BuildEntries(db, unique, byId, results, errors, includeResults);
    SameFilter(ids, unique, db.tasks, byId);
    return Ok(Batch(tasks, MissingFrom(ids, byId)));
  }

  function MissingFrom(ids: seq<TaskId>, found: map<TaskId, Row>): seq<TaskId> {
    Filter(ids, id => id !in found)
  }

  lemma SameFilter(ids: seq<TaskId>, unique: seq<TaskId>, tasks: Table, byId: Table)
    requires unique == FirstSeen(ids) && byId == map id | id in tasks && id in unique :: tasks[id]
    ensures MissingFrom(ids, byId) == Filter(ids, id => id !in tasks)
  {
    forall id | id in ids ensures id in unique {
      FirstSeenOnce(ids, id);
    }
    FilterAgrees(ids, id => id !in byId, id => id !in tasks);
  }

  lemma ResultsAgree(db: Reads, unique: seq<TaskId>, id: TaskId)
    requires id in unique
    ensures Latest(Of(Filter(db.results, (x: ResultRow) => x.id in unique), ResultId, id), ResultNo) == GetResult(db, id)
  {
    NarrowerQuery(db.results, ResultId, (x: ResultRow) => x.id in unique, (x: ResultRow) => true, id);
    FilterAll(db.results, (x: ResultRow) => true);
  }

  lemma ErrorsAgree(db: Reads, failedIds: set<TaskId>, id: TaskId)
    ensures id in failedIds ==>
              Latest(Of(Filter(db.attempts, (a: AttemptRow) => a.id in failedIds && a.failed), AttemptId, id), AttemptNo)
              == LastError(db, id)
  {
    if id in failedIds {
      NarrowerQuery(db.attempts, AttemptId, (a: AttemptRow) => a.id in failedIds && a.failed, (a: AttemptRow) => a.failed, id);
    }
  }

  /** Nothing asked for is lost or invented: a task that exists is answered exactly once, with the
      answer it would get alone, and every other id is reported as often as it was asked for. */
  lemma BatchAnswersEach(db: Reads, ids: seq<TaskId>, includeResults: bool, id: TaskId)
    ensures id in db.tasks && id in ids ==>
              exists k :: 0 <= k < |Entries(db, FirstSeen(ids), includeResults)|
                          && Entries(db, FirstSeen(ids), includeResults)[k] == EntryOf(db, id, includeResults)
                          && forall j :: 0 <= j < |Entries(db, FirstSeen(ids), includeResults)| && j != k ==>
                               Entries(db, FirstSeen(ids), includeResults)[j].id != id
    ensures id !in db.tasks || id !in ids ==>
              forall j :: 0 <= j < |Entries(db, FirstSeen(ids), includeResults)| ==>
                Entries(db, FirstSeen(ids), includeResults)[j].id != id
    ensures |Filter(ids, x => x !in db.tasks)| + |Filter(ids, x => x in db.tasks)| == |ids|
  {
    FirstSeenOnce(ids, id);
    EntryOnce(db, FirstSeen(ids), includeResults, id);
    Partition(ids, db.tasks);
  }

  lemma {:induction false} EntryOnce(db: Reads, ids: seq<TaskId>, includeResults: bool, id: TaskId)
    requires Distinct(ids)
    ensures id in db.tasks && id in ids ==>
              exists k :: 0 <= k < |Entries(db, ids, includeResults)|
                          && Entries(db, ids, includeResults)[k] == EntryOf(db, id, includeResults)
                          && forall j :: 0 <= j < |Entries(db, ids, includeResults)| && j != k ==>
                               Entries(db, ids, includeResults)[j].id != id
    ensures id !in db.tasks || id !in ids ==>
              forall j :: 0 <= j < |Entries(db, ids, includeResults)| ==> Entries(db, ids, includeResults)[j].id != id
  {
    if ids != [] {
      var n := |ids| - 1;
      EntryOnce(db, ids[..n], includeResults, id);
      assert ids == ids[..n] + [ids[n]];
      var before := Entries(db, ids[..n], includeResults);
      if id == ids[n] {
        assert id !in ids[..n];
        if id in db.tasks {
          assert Entries(db, ids, includeResults)[|before|] == EntryOf(db, id, includeResults);
        }
      } else if id in db.tasks && id in ids[..n] {
        var k :| 0 <= k < |before| && before[k] == EntryOf(db, id, includeResults)
                 && forall j :: 0 <= j < |before| && j != k ==> before[j].id != id;
        assert Entries(db, ids, includeResults)[k] == before[k];
      }
    }
  }

  lemma {:induction false} Partition(ids: seq<TaskId>, tasks: Table)
    ensures |Filter(ids, x => x !in tasks)| + |Filter(ids, x => x in tasks)| == |ids|
  {
    if ids != [] {
      Partition(ids[1..], tasks);
    }
  }
}
