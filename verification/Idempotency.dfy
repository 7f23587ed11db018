/** llm_service/runtime/idempotency.py and the idempotent submit of service.py. */
module Idempotency {
  import opened Common
  import opened TaskTable
  import L = SoundLeases
  import P = TaskProtocol

  /** The canonical serialization of a request; two requests describe the same response contract when
      their fingerprints are equal. */
  type Fingerprint = string

  const MAX_CANDIDATES_PER_STATUS := 50

  /** `request`: the fingerprint of the stored request row, if the row is there. */
  datatype Task = Task(id: TaskId, key: Option<string>, status: Status, request: Option<Fingerprint>)

  /** The statuses that make a task worth reusing, in order of preference. */
  const SEARCH_ORDER := [Succeeded, Running, Queued]

  predicate Reusable(s: Status) {
    s == Succeeded || s == Running || s == Queued
  }

  predicate UniqueIds(rows: seq<Task>) {
    forall i, j :: 0 <= i < j < |rows| ==> rows[i].id != rows[j].id
  }

  /** Without a fingerprint the key alone decides. */
  predicate Matches(t: Task, fp: Option<Fingerprint>) {
    fp.None? || t.request == fp
  }

  function Take<T>(xs: seq<T>, n: nat): seq<T> {
    if |xs| <= n then xs else xs[..n]
  }

  predicate IsCandidate(t: Task, key: string, status: Status) {
    t.key == Some(key) && t.status == status
  }

  /** The tasks of a key in one status; `rows` is newest first, so these are too. */
  function Candidates(rows: seq<Task>, key: string, status: Status): seq<Task> {
    Filter(rows, t => IsCandidate(t, key, status))
  }

  function FirstMatch(tasks: seq<Task>, fp: Option<Fingerprint>): Option<Task> {
    if tasks == [] then None
    else if Matches(tasks[0], fp) then Some(tasks[0])
    else FirstMatch(tasks[1..], fp)
  }

  /** The simple lookup: the first match among the newest fifty of each status in turn. */
  function Scan(rows: seq<Task>, key: string, fp: Option<Fingerprint>, statuses: seq<Status>): Option<Task> {
    if statuses == [] then None
    else
      var found := FirstMatch(Take(Candidates(rows, key, statuses[0]), MAX_CANDIDATES_PER_STATUS), fp);
      if found.Some? then found else Scan(rows, key, fp, statuses[1..])
  }

  // ---------------------------------------------------------------- probe, then rescan

  lemma {:induction false} FirstMatchSkips(tasks: seq<Task>, fp: Option<Fingerprint>, i: nat)
    requires i <= |tasks| && forall j :: 0 <= j < i ==> !Matches(tasks[j], fp)
    ensures FirstMatch(tasks, fp) == FirstMatch(tasks[i..], fp)
  {
    if i == 0 {
      assert tasks[0..] == tasks;
    } else {
      FirstMatchSkips(tasks[1..], fp, i - 1);
      assert tasks[1..][i - 1..] == tasks[i..];
    }
  }

  lemma {:induction false} FilterKeepsIds(rows: seq<Task>, p: Task -> bool)
    requires UniqueIds(rows)
    ensures UniqueIds(Filter(rows, p))
  {
    if rows != [] {
      FilterKeepsIds(rows[1..], p);
      var rest := Filter(rows[1..], p);
      forall j | 0 <= j < |rest| ensures rest[j].id != rows[0].id {
        FilterMember(rows[1..], p, rest[j]);
      }
    }
  }

  /** One status: look at the newest candidate alone, and fetch the others only if its request differs. */
  method ProbeThenRescan(candidates: seq<Task>, fp: Option<Fingerprint>) returns (found: Option<Task>)
    requires UniqueIds(candidates)
    ensures found == FirstMatch(Take(candidates, MAX_CANDIDATES_PER_STATUS), fp)
  {
    if candidates == [] {
      return None;
    }
    var newest := candidates[0];
    var scanned := Take(candidates, MAX_CANDIDATES_PER_STATUS);
    if fp.None? || Matches(newest, fp) {
      return Some(newest);
    }
    var i := 0;
    while i < |scanned|
      invariant 0 <= i <= |scanned|
      invariant forall j :: 0 <= j < i ==> !Matches(scanned[j], fp)
    {
      if scanned[i].id != newest.id && Matches(scanned[i], fp) {
        FirstMatchSkips(scanned, fp, i);
        return Some(scanned[i]);
      }
      assert scanned[i] == candidates[i];
      i := i + 1;
    }
    FirstMatchSkips(scanned, fp, |scanned|);
    return None;
  }

  /** `find_existing_task` on one snapshot. */
  method FindExistingTask(rows: seq<Task>, key: string, fp: Option<Fingerprint>) returns (found: Option<Task>)
    requires UniqueIds(rows)
    ensures found == Scan(rows, key, fp, SEARCH_ORDER)
  {
    var k := 0;
    while k < |SEARCH_ORDER|
      invariant 0 <= k <= |SEARCH_ORDER|
      invariant Scan(rows, key, fp, SEARCH_ORDER) == Scan(rows, key, fp, SEARCH_ORDER[k..])
    {
      FilterKeepsIds(rows, t => IsCandidate(t, key, SEARCH_ORDER[k]));
      var candidates := Candidates(rows, key, SEARCH_ORDER[k]);
      found := ProbeThenRescan(candidates, fp);
      if found.Some? {
        return;
      }
      k := k + 1;
    }
    found := None;
  }

  // ---------------------------------------------------------------- when the lookup misses a task

  /** How many rows before the `i`-th are candidates of the same key and status. */
  function Newer(rows: seq<Task>, i: nat, key: string, status: Status): nat
    requires i <= |rows|
  {
    |Candidates(rows[..i], key, status)|
  }

  /** A reusable task with this key and request. */
  predicate IsMatch(t: Task, key: string, fp: Fingerprint) {
    t.key == Some(key) && Reusable(t.status) && t.request == Some(fp)
  }

  lemma {:induction false} FirstMatchNone(tasks: seq<Task>, fp: Option<Fingerprint>)
    ensures FirstMatch(tasks, fp).None? <==> forall j :: 0 <= j < |tasks| ==> !Matches(tasks[j], fp)
  {
    if tasks != [] {
      FirstMatchNone(tasks[1..], fp);
      assert forall j :: 0 < j < |tasks| ==> tasks[j] == tasks[1..][j - 1];
    }
  }

  lemma {:induction false} FirstMatchFound(tasks: seq<Task>, fp: Option<Fingerprint>)
    requires FirstMatch(tasks, fp).Some?
    ensures FirstMatch(tasks, fp).value in tasks && Matches(FirstMatch(tasks, fp).value, fp)
  {
    if !Matches(tasks[0], fp) {
      FirstMatchFound(tasks[1..], fp);
    }
  }

  /** A row that is a candidate stands among the candidates behind the newer ones. */
  lemma CandidatePlace(rows: seq<Task>, i: nat, key: string, status: Status)
    requires i < |rows| && IsCandidate(rows[i], key, status)
    ensures Newer(rows, i, key, status) < |Candidates(rows, key, status)|
    ensures Candidates(rows, key, status)[Newer(rows, i, key, status)] == rows[i]
  {
    var p := t => IsCandidate(t, key, status);
    assert rows == rows[..i] + rows[i..];
    FilterAppend(rows[..i], rows[i..], p);
    assert Filter(rows[i..], p) == [rows[i]] + Filter(rows[i..][1..], p);
  }

  lemma {:induction false} PlacedCandidate(rows: seq<Task>, j: nat, key: string, status: Status) returns (i: nat)
    requires j < |Candidates(rows, key, status)|
    ensures i < |rows| && IsCandidate(rows[i], key, status) && rows[i] == Candidates(rows, key, status)[j]
    ensures Newer(rows, i, key, status) == j
  {
    var p := t => IsCandidate(t, key, status);
    var n := |rows| - 1;
    if |rows| == 0 {
      assert false;
    } else {
      assert rows == rows[..n] + [rows[n]];
      FilterAppend(rows[..n], [rows[n]], p);
      var before := Candidates(rows[..n], key, status);
      if j < |before| {
        i := PlacedCandidate(rows[..n], j, key, status);
        assert rows[..n][..i] == rows[..i];
      } else {
        i := n;
      }
    }
  }

  lemma BeyondScan(tasks: seq<Task>, fp: Option<Fingerprint>, j: nat)
    requires j < |tasks| && Matches(tasks[j], fp)
    requires FirstMatch(Take(tasks, MAX_CANDIDATES_PER_STATUS), fp).None?
    ensures j >= MAX_CANDIDATES_PER_STATUS
  {
    var scanned := Take(tasks, MAX_CANDIDATES_PER_STATUS);
    assert forall k :: 0 <= k < |scanned| ==> scanned[k] == tasks[k];
    FirstMatchNone(scanned, fp);
  }

  /** No match among the newest fifty of one status. */
  lemma StatusMisses(rows: seq<Task>, key: string, fp: Fingerprint, status: Status)
    ensures FirstMatch(Take(Candidates(rows, key, status), MAX_CANDIDATES_PER_STATUS), Some(fp)).None?
       <==> forall i :: 0 <= i < |rows| && IsCandidate(rows[i], key, status) && rows[i].request == Some(fp)
                        ==> Newer(rows, i, key, status) >= MAX_CANDIDATES_PER_STATUS
  {
    var cs := Candidates(rows, key, status);
    var scanned := Take(cs, MAX_CANDIDATES_PER_STATUS);
    FirstMatchNone(scanned, Some(fp));
    if FirstMatch(scanned, Some(fp)).None? {
      forall i | 0 <= i < |rows| && IsCandidate(rows[i], key, status) && rows[i].request == Some(fp)
        ensures Newer(rows, i, key, status) >= MAX_CANDIDATES_PER_STATUS
      {
        CandidatePlace(rows, i, key, status);
        BeyondScan(cs, Some(fp), Newer(rows, i, key, status));
      }
    } else {
      var j :| 0 <= j < |scanned| && Matches(scanned[j], Some(fp));
      var i := PlacedCandidate(rows, j, key, status);
      assert scanned[j] == cs[j] == rows[i];
    }
  }

  /** The lookup comes back empty-handed exactly when every match has fifty newer tasks of its own key
      and status in front of it. */
  lemma LookupMissesIff(rows: seq<Task>, key: string, fp: Fingerprint)
    ensures Scan(rows, key, Some(fp), SEARCH_ORDER).None?
       <==> forall i :: 0 <= i < |rows| && IsMatch(rows[i], key, fp)
                        ==> Newer(rows, i, key, rows[i].status) >= MAX_CANDIDATES_PER_STATUS
  {
    StatusMisses(rows, key, fp, Succeeded);
    StatusMisses(rows, key, fp, Running);
    StatusMisses(rows, key, fp, Queued);
    ScanInOrder(rows, key, Some(fp));
  }

  function ScanStatus(rows: seq<Task>, key: string, fp: Option<Fingerprint>, status: Status): Option<Task> {
    FirstMatch(Take(Candidates(rows, key, status), MAX_CANDIDATES_PER_STATUS), fp)
  }

  lemma ScanHead(rows: seq<Task>, key: string, fp: Option<Fingerprint>, statuses: seq<Status>, rest: seq<Status>)
    requires statuses != [] && rest == statuses[1..]
    ensures var found := ScanStatus(rows, key, fp, statuses[0]);
            Scan(rows, key, fp, statuses) == if found.Some? then found else Scan(rows, key, fp, rest)
  {
  }

  lemma ScanInOrder(rows: seq<Task>, key: string, fp: Option<Fingerprint>)
    ensures var s, r, q := ScanStatus(rows, key, fp, Succeeded), ScanStatus(rows, key, fp, Running), ScanStatus(rows, key, fp, Queued);
            Scan(rows, key, fp, SEARCH_ORDER) == if s.Some? then s else if r.Some? then r else q
  {
    ScanHead(rows, key, fp, SEARCH_ORDER, [Running, Queued]);
    ScanHead(rows, key, fp, [Running, Queued], [Queued]);
    ScanHead(rows, key, fp, [Queued], []);
  }

  /** What the lookup finds is a task of the key that can be reused, with the same request. */
  lemma LookupIsMatch(rows: seq<Task>, key: string, fp: Fingerprint)
    ensures var found := Scan(rows, key, Some(fp), SEARCH_ORDER);
            found.Some? ==> found.value in rows && IsMatch(found.value, key, fp)
  {
    ScanInOrder(rows, key, Some(fp));
    StatusMatch(rows, key, fp, Succeeded);
    StatusMatch(rows, key, fp, Running);
    StatusMatch(rows, key, fp, Queued);
  }

  lemma StatusMatch(rows: seq<Task>, key: string, fp: Fingerprint, status: Status)
    ensures var found := ScanStatus(rows, key, Some(fp), status);
            found.Some? ==> found.value in rows && IsCandidate(found.value, key, status) && found.value.request == Some(fp)
  {
    var found := ScanStatus(rows, key, Some(fp), status);
    if found.Some? {
      FirstMatchFound(Take(Candidates(rows, key, status), MAX_CANDIDATES_PER_STATUS), Some(fp));
      FilterMember(rows, t => IsCandidate(t, key, status), found.value);
    }
  }

  // ---------------------------------------------------------------- which match it finds

  /** How much a status is worth to a caller: an answer, then work under way, then work to come. */
  function Worth(s: Status): nat {
    match s case Succeeded => 3 case Running => 2 case Queued => 1 case _ => 0
  }

  /** A row that the lookup can see. */
  predicate InSight(rows: seq<Task>, i: nat, key: string, fp: Fingerprint)
    requires i < |rows|
  {
    IsMatch(rows[i], key, fp) && Newer(rows, i, key, rows[i].status) < 50
  }

  lemma {:induction false} NewerGrows(rows: seq<Task>, i: nat, j: nat, key: string, status: Status)
    requires i <= j <= |rows|
    ensures Newer(rows, i, key, status) <= Newer(rows, j, key, status)
  {
    assert rows[..j] == rows[..i] + rows[i..j];
    FilterAppend(rows[..i], rows[i..j], t => IsCandidate(t, key, status));
  }

  lemma {:induction false} FirstMatchAt(tasks: seq<Task>, fp: Option<Fingerprint>) returns (j: nat)
    requires FirstMatch(tasks, fp).Some?
    ensures j < |tasks| && FirstMatch(tasks, fp) == Some(tasks[j]) && Matches(tasks[j], fp)
    ensures forall k :: 0 <= k < j ==> !Matches(tasks[k], fp)
  {
    j := 0;
    if !Matches(tasks[0], fp) {
      var k := FirstMatchAt(tasks[1..], fp);
      j := k + 1;
    }
  }

  /** What the scan of one status finds is in sight, and no newer row of that status is a match. */
  lemma StatusFinds(rows: seq<Task>, key: string, fp: Fingerprint, status: Status) returns (i: nat)
    requires Reusable(status) && ScanStatus(rows, key, Some(fp), status).Some?
    ensures i < |rows| && ScanStatus(rows, key, Some(fp), status) == Some(rows[i]) && rows[i].status == status
    ensures InSight(rows, i, key, fp)
    ensures forall k :: 0 <= k < i && rows[k].status == status ==> !IsMatch(rows[k], key, fp)
  {
    var cs := Candidates(rows, key, status);
    var j := FirstMatchAt(Take(cs, MAX_CANDIDATES_PER_STATUS), Some(fp));
    i := PlacedCandidate(rows, j, key, status);
    forall k | 0 <= k < i && rows[k].status == status ensures !IsMatch(rows[k], key, fp) {
      if IsMatch(rows[k], key, fp) {
        CandidatePlace(rows, k, key, status);
        EarlierIsNewer(rows, k, i, key, status);
      }
    }
  }

  lemma EarlierIsNewer(rows: seq<Task>, k: nat, i: nat, key: string, status: Status)
    requires k < i < |rows| && IsCandidate(rows[k], key, status)
    ensures Newer(rows, k, key, status) < Newer(rows, i, key, status)
  {
    NewerGrows(rows, k + 1, i, key, status);
    assert rows[..k + 1] == rows[..k] + [rows[k]];
    FilterAppend(rows[..k], [rows[k]], t => IsCandidate(t, key, status));
  }

  lemma StatusUnseen(rows: seq<Task>, key: string, fp: Fingerprint, status: Status)
    requires ScanStatus(rows, key, Some(fp), status).None?
    ensures forall k :: 0 <= k < |rows| && rows[k].status == status ==> !InSight(rows, k, key, fp)
  {
    StatusMisses(rows, key, fp, status);
  }

  /** Of the matches in sight the lookup returns one of the worthiest status, and of these the newest. */
  lemma LookupIsBest(rows: seq<Task>, key: string, fp: Fingerprint) returns (i: nat)
    requires Scan(rows, key, Some(fp), SEARCH_ORDER).Some?
    ensures i < |rows| && Scan(rows, key, Some(fp), SEARCH_ORDER) == Some(rows[i]) && InSight(rows, i, key, fp)
    ensures forall k :: 0 <= k < |rows| && InSight(rows, k, key, fp) ==>
              || Worth(rows[k].status) < Worth(rows[i].status)
              || (rows[k].status == rows[i].status && i <= k)
  {
    ScanInOrder(rows, key, Some(fp));
    if ScanStatus(rows, key, Some(fp), Succeeded).Some? {
      i := StatusFinds(rows, key, fp, Succeeded);
    } else if ScanStatus(rows, key, Some(fp), Running).Some? {
      StatusUnseen(rows, key, fp, Succeeded);
      i := StatusFinds(rows, key, fp, Running);
    } else {
      StatusUnseen(rows, key, fp, Succeeded);
      StatusUnseen(rows, key, fp, Running);
      i := StatusFinds(rows, key, fp, Queued);
    }
  }

  lemma HeadMatches(tasks: seq<Task>)
    ensures FirstMatch(Take(tasks, MAX_CANDIDATES_PER_STATUS), None) == if tasks == [] then None else Some(tasks[0])
  {
    if tasks != [] {
      assert Take(tasks, MAX_CANDIDATES_PER_STATUS)[0] == tasks[0];
    }
  }

  lemma NewestOf(rows: seq<Task>, key: string, status: Status) returns (i: nat)
    requires ScanStatus(rows, key, None, status).Some?
    ensures i < |rows| && ScanStatus(rows, key, None, status) == Some(rows[i]) && IsCandidate(rows[i], key, status)
    ensures forall k :: 0 <= k < i ==> !IsCandidate(rows[k], key, status)
  {
    HeadMatches(Candidates(rows, key, status));
    i := PlacedCandidate(rows, 0, key, status);
    forall k | 0 <= k < i ensures !IsCandidate(rows[k], key, status) {
      if IsCandidate(rows[k], key, status) {
        EarlierIsNewer(rows, k, i, key, status);
      }
    }
  }

  lemma NoCandidate(rows: seq<Task>, key: string, status: Status)
    requires ScanStatus(rows, key, None, status).None?
    ensures forall k :: 0 <= k < |rows| ==> !IsCandidate(rows[k], key, status)
  {
    HeadMatches(Candidates(rows, key, status));
    forall k | 0 <= k < |rows| ensures !IsCandidate(rows[k], key, status) {
      if IsCandidate(rows[k], key, status) {
        CandidatePlace(rows, k, key, status);
      }
    }
  }

  /** Without a fingerprint the key alone decides: the newest task of the worthiest status, nothing exactly if
      no task of the key can be reused. */
  lemma KeyAloneDecides(rows: seq<Task>, key: string)
    ensures var found := Scan(rows, key, None, SEARCH_ORDER);
            && (found.None? <==> forall k :: 0 <= k < |rows| && rows[k].key == Some(key) ==> !Reusable(rows[k].status))
            && (found.Some? ==> exists i :: 0 <= i < |rows| && found == Some(rows[i]) && IsBestOfKey(rows, i, key))
  {
    ScanInOrder(rows, key, None);
    if ScanStatus(rows, key, None, Succeeded).Some? {
      var i := NewestOf(rows, key, Succeeded);
      assert IsBestOfKey(rows, i, key);
    } else if ScanStatus(rows, key, None, Running).Some? {
      NoCandidate(rows, key, Succeeded);
      var i := NewestOf(rows, key, Running);
      assert IsBestOfKey(rows, i, key);
    } else {
      NoCandidate(rows, key, Succeeded);
      NoCandidate(rows, key, Running);
      if ScanStatus(rows, key, None, Queued).Some? {
        var i := NewestOf(rows, key, Queued);
        assert IsBestOfKey(rows, i, key);
      } else {
        NoCandidate(rows, key, Queued);
      }
    }
  }

  ghost predicate IsBestOfKey(rows: seq<Task>, i: nat, key: string)
    requires i < |rows|
  {
    && rows[i].key == Some(key) && Worth(rows[i].status) > 0
    && forall k :: 0 <= k < |rows| && rows[k].key == Some(key) ==>
         Worth(rows[k].status) < Worth(rows[i].status) || (rows[k].status == rows[i].status && i <= k)
  }

  // ---------------------------------------------------------------- submits under the lock, between other moves

  /** How the status of a task may change under sound leases, without manual retry. */
  predicate StatusMoves(a: Status, b: Status) {
    || a == b
    || (a == Queued && (b == Running || b == Cancelled))
    || (a == Running && (b == Queued || b == Succeeded || b == DeadLetter))
  }

  datatype Move =
    | Submit(id: TaskId, key: Option<string>, request: Fingerprint)
    | Change(i: nat, status: Status)
    | Delete(i: nat)

  /** The locked submit: the existing task, or a new row in front of the others. */
  function SubmitTask(rows: seq<Task>, id: TaskId, key: Option<string>, request: Fingerprint): (seq<Task>, TaskId) {
    var found := if key.Some? then Scan(rows, key.value, Some(request), SEARCH_ORDER) else None;
    if found.Some? then (rows, found.value.id)
    else ([Task(id, key, Queued, Some(request))] + rows, id)
  }

  predicate Enabled(rows: seq<Task>, m: Move) {
    match m
    case Submit(id, _, _) => forall i :: 0 <= i < |rows| ==> rows[i].id != id
    case Change(i, status) => i < |rows| && StatusMoves(rows[i].status, status)
    case Delete(i) => i < |rows| && Terminal(rows[i].status)
  }

  function After(rows: seq<Task>, m: Move): (r: seq<Task>)
    requires Enabled(rows, m)
    ensures m.Change? ==> |r| == |rows| && r[m.i].status == m.status && r[m.i] == rows[m.i].(status := r[m.i].status)
                          && forall j :: 0 <= j < |rows| && j != m.i ==> r[j] == rows[j]
    ensures m.Delete? ==> |r| == |rows| - 1 && r[..m.i] == rows[..m.i] && r[m.i..] == rows[m.i + 1..]
  {
    match m
    case Submit(id, key, request) => SubmitTask(rows, id, key, request).0
    case Change(i, status) => rows[i := rows[i].(status := status)]
    case Delete(i) => rows[..i] + rows[i + 1..]
  }

  /** The submit sees every task that could match it. */
  ghost predicate FewCandidates(rows: seq<Task>, m: Move) {
    m.Submit? && m.key.Some? ==>
      forall i :: 0 <= i < |rows| && IsMatch(rows[i], m.key.value, m.request) ==>
        Newer(rows, i, m.key.value, rows[i].status) < MAX_CANDIDATES_PER_STATUS
  }

  predicate Twins(a: Task, b: Task) {
    a.key.Some? && a.key == b.key && a.request == b.request && Reusable(a.status) && Reusable(b.status)
  }

  /** No two tasks with the same key and request are alive (or answered) at once. */
  ghost predicate NoTwins(rows: seq<Task>) {
    forall i, j :: 0 <= i < j < |rows| ==> !Twins(rows[i], rows[j])
  }

  ghost predicate AllRequestsStored(rows: seq<Task>) {
    forall i :: 0 <= i < |rows| ==> rows[i].request.Some?
  }

  /** A locked submit makes a twin exactly when some match exists and the lookup cannot see it. */
  lemma SubmitMakesTwinIff(rows: seq<Task>, m: Move)
    requires Enabled(rows, m) && m.Submit? && m.key.Some? && NoTwins(rows) && AllRequestsStored(rows)
    ensures NoTwins(After(rows, m)) <==>
              ((exists i :: 0 <= i < |rows| && IsMatch(rows[i], m.key.value, m.request)) ==>
               exists i :: 0 <= i < |rows| && IsMatch(rows[i], m.key.value, m.request)
                           && Newer(rows, i, m.key.value, rows[i].status) < MAX_CANDIDATES_PER_STATUS)
  {
    var t := After(rows, m);
    LookupMissesIff(rows, m.key.value, m.request);
    if Scan(rows, m.key.value, Some(m.request), SEARCH_ORDER).None? {
      assert t[0].request == Some(m.request) && forall i :: 0 <= i < |rows| ==> t[i + 1] == rows[i];
      forall i | 0 <= i < |rows| ensures Twins(t[0], rows[i]) == IsMatch(rows[i], m.key.value, m.request) {
      }
      if j :| 0 <= j < |rows| && IsMatch(rows[j], m.key.value, m.request) {
        assert Twins(t[0], t[j + 1]);
      } else {
        NewcomerIsAlone(rows, t);
      }
    }
  }

  lemma NewcomerIsAlone(rows: seq<Task>, t: seq<Task>)
    requires NoTwins(rows) && |t| == |rows| + 1 && t[1..] == rows
    requires forall i :: 0 <= i < |rows| ==> !Twins(t[0], rows[i])
    ensures NoTwins(t)
  {
    forall i, j | 0 <= i < j < |t| ensures !Twins(t[i], t[j]) {
      assert t[j] == rows[j - 1];
      if i > 0 {
        assert t[i] == rows[i - 1];
      }
    }
  }

  lemma NoTwinsKept(rows: seq<Task>, m: Move)
    requires Enabled(rows, m) && FewCandidates(rows, m) && NoTwins(rows) && AllRequestsStored(rows)
    ensures NoTwins(After(rows, m)) && AllRequestsStored(After(rows, m))
  {
    var t := After(rows, m);
    match m
    case Submit(_, key, _) =>
      if key.Some? {
        SubmitMakesTwinIff(rows, m);
      } else {
        assert t[1..] == rows;
        NewcomerIsAlone(rows, t);
      }
    case Change(k, _) =>
      forall i, j | 0 <= i < j < |t| ensures !Twins(t[i], t[j]) {
        assert !Twins(rows[i], rows[j]);
      }
    case Delete(k) =>
      forall i, j | 0 <= i < j < |t| ensures !Twins(t[i], t[j]) {
        var a, b := if i < k then i else i + 1, if j < k then j else j + 1;
        assert t[i] == rows[a] && t[j] == rows[b];
      }
      forall i | 0 <= i < |t| ensures t[i].request.Some? {
        assert t[i] == rows[if i < k then i else i + 1];
      }
  }

  ghost predicate IsRun(states: seq<seq<Task>>, moves: seq<Move>) {
    && |states| == |moves| + 1 && states[0] == []
    && forall i :: 0 <= i < |moves| ==>
         Enabled(states[i], moves[i]) && FewCandidates(states[i], moves[i]) && states[i + 1] == After(states[i], moves[i])
  }

  /** Over a whole run, a key and a request have at most one task that is queued, running or succeeded. */
  lemma {:induction false} AtMostOneLiveTask(states: seq<seq<Task>>, moves: seq<Move>, n: nat)
    requires IsRun(states, moves) && n <= |moves|
    ensures NoTwins(states[n]) && AllRequestsStored(states[n])
  {
    if n > 0 {
      AtMostOneLiveTask(states, moves, n - 1);
      NoTwinsKept(states[n - 1], moves[n - 1]);
    }
  }

  /** While a key has at most fifty tasks in each status the lookup sees them all. */
  lemma FiftyAreFew(rows: seq<Task>, m: Move)
    requires m.Submit? && m.key.Some?
    requires forall status :: |Candidates(rows, m.key.value, status)| <= MAX_CANDIDATES_PER_STATUS
    ensures FewCandidates(rows, m)
  {
    forall i | 0 <= i < |rows| && IsMatch(rows[i], m.key.value, m.request)
      ensures Newer(rows, i, m.key.value, rows[i].status) < MAX_CANDIDATES_PER_STATUS
    {
      CandidatePlace(rows, i, m.key.value, rows[i].status);
    }
  }

  /** Submitting the same key and request twice in a row yields the same task and no second row. */
  lemma SubmitTwice(rows: seq<Task>, id: TaskId, id': TaskId, key: string, request: Fingerprint)
    ensures var first := SubmitTask(rows, id, Some(key), request);
            var second := SubmitTask(first.0, id', Some(key), request);
            second.0 == first.0 && second.1 == first.1
  {
    var first := SubmitTask(rows, id, Some(key), request);
    if Scan(rows, key, Some(request), SEARCH_ORDER).None? {
      var t := first.0;
      var mine := t[0];
      assert t[..0] == [];
      LookupMissesIff(t, key, request);
      LookupMissesIff(rows, key, request);
      assert IsMatch(t[0], key, request) && Newer(t, 0, key, Queued) == 0;
      ScanInOrder(t, key, Some(request));
      ScanInOrder(rows, key, Some(request));
      assert t[1..] == rows;
      assert Candidates(t, key, Succeeded) == Candidates(rows, key, Succeeded);
      assert Candidates(t, key, Running) == Candidates(rows, key, Running);
      assert Candidates(t, key, Queued) == [mine] + Candidates(rows, key, Queued);
      assert Take(Candidates(t, key, Queued), MAX_CANDIDATES_PER_STATUS)[0] == mine;
    }
  }

  /** The moves above are those of the task protocol: with sound leases and no manual retry, every move
      of a worker, of lease recovery, of the API or of a restart changes a status this way. */
  lemma ProtocolMovesStatusesSo(s: P.State, now: Instant, m: L.Move, id: TaskId)
    requires L.SoundInv(s) && L.SoundMove(s, now, m) && (m.One? ==> !m.step.Retry?) && id in s.tasks
    ensures var t := L.After(s, now, m);
            if id in t.tasks then StatusMoves(s.tasks[id].status, t.tasks[id].status) else Terminal(s.tasks[id].status)
  {
    if m.One? && (m.step.Complete? || m.step.FailWrite?) {
      assert L.OwnerFits(s, s.workers[m.step.w]);
    }
    if m.One? && m.step.RecoverWrite? {
      assert L.FoundRunning(s, s.recovery.failing.value);
    }
  }
}
