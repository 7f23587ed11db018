/** mcp_server/access_records.py: the table of upload tickets and the groups they are counted in. */
module UploadTickets {
  import opened Common

  type GroupId = nat

  const UPLOAD_TICKET_TTL_SECONDS := 600

  /** An entry of `uploads`: the path of its URL and its `expires_in` if that is an int. */
  datatype Upload = NotAnObject | Upload(path: string, expiresIn: Option<int>)

  datatype Group = Group(total: nat, completed: nat, failed: nat, tickets: set<string>, expiresAt: real)

  /** `groups` holds every group ever registered, by order of registration. */
  datatype Table = Table(tickets: map<string, GroupId>, groups: seq<Group>)

  datatype Status = Pending | Success | Failed

  datatype Payload = Payload(group: GroupId, status: Status, error: Option<string>, uploaded: nat, failed: nat)

  // ---------------------------------------------------------------- what the three operations do

  /** `path.rsplit("/", 1)[-1]`. */
  function LastSegment(path: string): string {
    if path == [] || path[|path| - 1] == '/' then [] else LastSegment(path[..|path| - 1]) + [path[|path| - 1]]
  }

  /** The ticket of an upload, empty if it has none. */
  function TicketOf(u: Upload): string {
    if u.NotAnObject? then [] else LastSegment(u.path)
  }

  /** Of a path, what comes after the last slash, or all of it. */
  lemma {:induction false} TicketOfPath(before: string, name: string, expiresIn: Option<int>)
    requires '/' !in name && (before == [] || before[|before| - 1] == '/')
    ensures TicketOf(Upload(before + name, expiresIn)) == name
  {
    var path, n := before + name, |name| - 1;
    if name == [] {
      assert path == before;
    } else {
      assert path[|path| - 1] == name[n] && path[..|path| - 1] == before + name[..n];
      TicketOfPath(before, name[..n], expiresIn);
    }
  }

  function TicketsOf(uploads: seq<Upload>): set<string> {
    set i | 0 <= i < |uploads| && TicketOf(uploads[i]) != [] :: TicketOf(uploads[i])
  }

  function Clamp(ttl: int): int {
    if ttl > UPLOAD_TICKET_TTL_SECONDS then UPLOAD_TICKET_TTL_SECONDS else if ttl < 1 then 1 else ttl
  }

  /** `int(upload.get("expires_in") or 600)`, clamped; entries that are not objects do not count. */
  function TtlOf(u: Upload): int {
    if u.NotAnObject? || u.expiresIn.None? || u.expiresIn.value == 0 then UPLOAD_TICKET_TTL_SECONDS else Clamp(u.expiresIn.value)
  }

  function Ttl(uploads: seq<Upload>): int {
    if uploads == [] then UPLOAD_TICKET_TTL_SECONDS
    else
      var rest := Ttl(uploads[1..]);
      if TtlOf(uploads[0]) < rest then TtlOf(uploads[0]) else rest
  }

  predicate Alive(t: Table, ticket: string, now: real) {
    ticket in t.tickets && t.tickets[ticket] < |t.groups| && t.groups[t.tickets[ticket]].expiresAt > now
  }

  function Swept(t: Table, now: real): Table {
    t.(tickets := map k | k in t.tickets && Alive(t, k, now) :: t.tickets[k])
  }

  function Assigned(tickets: map<string, GroupId>, mine: set<string>, id: GroupId): map<string, GroupId> {
    tickets + map k | k in mine :: id
  }

  function Registered(t: Table, uploads: seq<Upload>, now: real): Table {
    if uploads == [] then t
    else
      var s := Swept(t, now);
      var group := Group(|uploads|, 0, 0, TicketsOf(uploads), now + Ttl(uploads) as real);
      Table(Assigned(s.tickets, TicketsOf(uploads), |s.groups|), s.groups + [group])
  }

  function Counted(g: Group, success: bool): Group {
    g.(completed := g.completed + 1, failed := g.failed + if success then 0 else 1)
  }

  predicate Terminal(g: Group) {
    g.completed >= g.total
  }

  function StatusOf(g: Group): Status {
    if Terminal(g) && g.failed > 0 then Failed else if Terminal(g) then Success else Pending
  }

  function PayloadOf(id: GroupId, g: Group, error: Option<string>): Payload {
    Payload(id, StatusOf(g),
            if Terminal(g) && g.failed > 0 then (if error.None? || error.value == [] then Some("upload_failed") else error) else None,
            if g.completed >= g.failed then g.completed - g.failed else 0, g.failed)
  }

  /** Counts the ticket in its group; the last one takes its siblings with it. */
  function Completed(t: Table, ticket: string, success: bool, now: real): Table {
    var s := Swept(t, now);
    if !Alive(t, ticket, now) then s
    else
      var id := t.tickets[ticket];
      var g := Counted(s.groups[id], success);
      var left := s.tickets - {ticket};
      Table(if Terminal(g) then left - g.tickets else left, s.groups[id := g])
  }

  /** The payload that completion returns, if any. */
  function Emitted(t: Table, ticket: string, success: bool, error: Option<string>, now: real): Option<Payload> {
    if !Alive(t, ticket, now) then None
    else Some(PayloadOf(t.tickets[ticket], Counted(t.groups[t.tickets[ticket]], success), error))
  }

  // ---------------------------------------------------------------- the code, updating the table in place

  class Registry {
    var tickets: map<string, GroupId>
    var groups: seq<Group>

    constructor ()
      ensures View() == Table(map[], [])
    {
      tickets := map[];
      groups := [];
    }

    function View(): Table
      reads this
    {
      Table(tickets, groups)
    }

    ghost predicate Valid()
      reads this
    {
      Inv(View())
    }

    method Sweep(now: real)
      requires Valid()
      modifies this`tickets
      ensures Valid() && View() == Swept(old(View()), now)
    {
      SweepKeeps(View(), now);
      var expired := set t | t in tickets && groups[tickets[t]].expiresAt <= now :: tickets[t];
      if expired == {} {
        ghost var t := View();
        assert forall k :: k in tickets ==> Alive(t, k, now) by {
          forall k | k in tickets ensures Alive(t, k, now) {
            assert tickets[k] !in expired;
          }
        }
        assert Swept(t, now).tickets == tickets;
        return;
      }
      tickets := map t | t in tickets && tickets[t] !in expired :: tickets[t];
      assert tickets == Swept(old(View()), now).tickets;
    }

    /** The loop of registration: a later group takes over a ticket that an earlier one still holds. */
    method AddTickets(uploads: seq<Upload>, id: GroupId) returns (mine: set<string>)
      modifies this`tickets
      ensures mine == TicketsOf(uploads) && tickets == Assigned(old(tickets), mine, id)
    {
      mine := {};
      var i := 0;
      while i < |uploads|
        invariant 0 <= i <= |uploads|
        invariant mine == TicketsOf(uploads[..i])
        invariant tickets == Assigned(old(tickets), mine, id)
      {
        var ticket := TicketOf(uploads[i]);
        TicketsGrow(uploads, i);
        if ticket != [] {
          AssignOneMore(old(tickets), mine, ticket, id);
          mine := mine + {ticket};
          tickets := tickets[ticket := id];
        }
        i := i + 1;
      }
      assert uploads[..|uploads|] == uploads;
    }

    method Register(uploads: seq<Upload>, now: real)
      requires Valid()
      modifies this
      ensures Valid() && View() == Registered(old(View()), uploads, now)
    {
      RegisterKeeps(View(), uploads, now);
      if uploads == [] {
        return;
      }
      var expiresAt := now + Ttl(uploads) as real;
      Sweep(now);
      var mine := AddTickets(uploads, |groups|);
      groups := groups + [Group(|uploads|, 0, 0, mine, expiresAt)];
    }

    method Complete(ticket: string, success: bool, error: Option<string>, now: real) returns (payload: Option<Payload>)
      requires Valid()
      modifies this
      ensures Valid() && View() == Completed(old(View()), ticket, success, now)
      ensures payload == Emitted(old(View()), ticket, success, error, now)
    {
      CompleteKeeps(View(), ticket, success, now);
      Sweep(now);
      if ticket !in tickets {
        return None;
      }
      var id := tickets[ticket];
      tickets := tickets - {ticket};
      var g := Counted(groups[id], success);
      groups := groups[id := g];
      if Terminal(g) {
        tickets := tickets - g.tickets;
      }
      return Some(PayloadOf(id, g, error));
    }
  }

  lemma AssignOneMore(tickets: map<string, GroupId>, mine: set<string>, ticket: string, id: GroupId)
    ensures Assigned(tickets, mine, id)[ticket := id] == Assigned(tickets, mine + {ticket}, id)
  {
  }

  lemma TicketsGrow(uploads: seq<Upload>, i: nat)
    requires i < |uploads|
    ensures TicketsOf(uploads[..i + 1])
         == TicketsOf(uploads[..i]) + if TicketOf(uploads[i]) != [] then {TicketOf(uploads[i])} else {}
  {
    var a, b := uploads[..i], uploads[..i + 1];
    assert forall k :: 0 <= k < i ==> a[k] == b[k] == uploads[k];
    assert b[i] == uploads[i];
  }

  // ---------------------------------------------------------------- what every operation keeps

  /** The tickets of a group that are still waiting. */
  function Waiting(t: Table, id: GroupId): set<string> {
    set k | k in t.tickets && t.tickets[k] == id
  }

  predicate GroupFits(t: Table, id: GroupId)
    requires id < |t.groups|
  {
    var g := t.groups[id];
    && g.failed <= g.completed
    && Waiting(t, id) <= g.tickets
    && g.completed + |Waiting(t, id)| <= |g.tickets| <= g.total
    && g.total >= 1
  }

  ghost predicate Inv(t: Table) {
    && (forall k :: k in t.tickets ==> t.tickets[k] < |t.groups|)
    && (forall id :: 0 <= id < |t.groups| ==> GroupFits(t, id))
  }

  lemma SweepKeeps(t: Table, now: real)
    requires Inv(t)
    ensures Inv(Swept(t, now))
  {
    var s := Swept(t, now);
    forall id | 0 <= id < |s.groups| ensures GroupFits(s, id) {
      assert GroupFits(t, id);
      SubsetSize(Waiting(s, id), Waiting(t, id));
    }
  }

  lemma {:induction false} TicketsAreFew(uploads: seq<Upload>)
    ensures |TicketsOf(uploads)| <= |uploads|
  {
    if uploads != [] {
      var n := |uploads| - 1;
      TicketsAreFew(uploads[..n]);
      TicketsGrow(uploads, n);
      assert uploads[..n + 1] == uploads;
    }
  }

  lemma RegisterKeeps(t: Table, uploads: seq<Upload>, now: real)
    requires Inv(t)
    ensures Inv(Registered(t, uploads, now))
  {
    if uploads != [] {
      var s, r := Swept(t, now), Registered(t, uploads, now);
      SweepKeeps(t, now);
      forall id | 0 <= id < |r.groups| ensures GroupFits(r, id) {
        if id < |s.groups| {
          assert GroupFits(s, id);
          SubsetSize(Waiting(r, id), Waiting(s, id));
        } else {
          TicketsAreFew(uploads);
          assert Waiting(r, id) == TicketsOf(uploads);
        }
      }
    }
  }

  lemma CompleteKeeps(t: Table, ticket: string, success: bool, now: real)
    requires Inv(t)
    ensures Inv(Completed(t, ticket, success, now))
  {
    var s, r := Swept(t, now), Completed(t, ticket, success, now);
    SweepKeeps(t, now);
    if Alive(t, ticket, now) {
      var own := t.tickets[ticket];
      forall id | 0 <= id < |r.groups| ensures GroupFits(r, id) {
        assert GroupFits(s, id);
        if id == own {
          assert ticket in Waiting(s, id);
          SubsetSize(Waiting(r, id), Waiting(s, id) - {ticket});
        } else {
          SubsetSize(Waiting(r, id), Waiting(s, id));
        }
      }
    }
  }

  // ---------------------------------------------------------------- whole runs

  datatype Op =
    | Register(uploads: seq<Upload>, now: real)
    | Complete(ticket: string, success: bool, error: Option<string>, now: real)

  function After(t: Table, op: Op): Table {
    match op
    case Register(uploads, now) => Registered(t, uploads, now)
    case Complete(ticket, success, _, now) => Completed(t, ticket, success, now)
  }

  function Start(): Table {
    Table(map[], [])
  }

  function Run(ops: seq<Op>): Table {
    if ops == [] then Start() else After(Run(ops[..|ops| - 1]), ops[|ops| - 1])
  }

  lemma {:induction false} RunFits(ops: seq<Op>)
    ensures Inv(Run(ops))
  {
    if ops != [] {
      var before := ops[..|ops| - 1];
      RunFits(before);
      match ops[|ops| - 1]
      case Register(uploads, now) => RegisterKeeps(Run(before), uploads, now);
      case Complete(ticket, success, _, now) => CompleteKeeps(Run(before), ticket, success, now);
    }
  }

  /** What the last operation of a run returned for group `id`. */
  function LastPayload(ops: seq<Op>, id: GroupId): Option<Payload>
    requires ops != []
  {
    var op := ops[|ops| - 1];
    if op.Register? then None
    else
      var p := Emitted(Run(ops[..|ops| - 1]), op.ticket, op.success, op.error, op.now);
      if p.Some? && p.value.group == id then p else None
  }

  /** How often a run answered for a group, for a ticket of the group, and with a terminal payload. */
  function Answers(ops: seq<Op>, id: GroupId): nat {
    if ops == [] then 0 else Answers(ops[..|ops| - 1], id) + if LastPayload(ops, id).Some? then 1 else 0
  }

  function AnswersFor(ops: seq<Op>, id: GroupId, ticket: string): nat {
    if ops == [] then 0
    else AnswersFor(ops[..|ops| - 1], id, ticket)
         + if LastPayload(ops, id).Some? && ops[|ops| - 1].ticket == ticket then 1 else 0
  }

  function Failures(ops: seq<Op>, id: GroupId): nat {
    if ops == [] then 0
    else Failures(ops[..|ops| - 1], id) + if LastPayload(ops, id).Some? && !ops[|ops| - 1].success then 1 else 0
  }

  function TerminalAnswers(ops: seq<Op>, id: GroupId): nat {
    if ops == [] then 0
    else TerminalAnswers(ops[..|ops| - 1], id)
         + if LastPayload(ops, id).Some? && LastPayload(ops, id).value.status != Pending then 1 else 0
  }

  /** The counters of a group are what the run answered for it, never more than its uploads. */
  lemma {:induction false} CountersAreAnswers(ops: seq<Op>, id: GroupId)
    ensures id < |Run(ops).groups| ==>
              && Run(ops).groups[id].completed == Answers(ops, id) <= Run(ops).groups[id].total
              && Run(ops).groups[id].failed == Failures(ops, id) <= Answers(ops, id)
    ensures id >= |Run(ops).groups| ==> Answers(ops, id) == 0 && Failures(ops, id) == 0
  {
    RunFits(ops);
    if id < |Run(ops).groups| {
      assert GroupFits(Run(ops), id);
    }
    if ops != [] {
      CountersAreAnswers(ops[..|ops| - 1], id);
      RunFits(ops[..|ops| - 1]);
    }
  }

  /** A group answers terminally exactly once it is complete: at most one terminal payload, on the last
      completion, and then nothing of the group is left in the table. */
  lemma {:induction false} OneTerminalAnswer(ops: seq<Op>, id: GroupId)
    ensures TerminalAnswers(ops, id)
         == if id < |Run(ops).groups| && Terminal(Run(ops).groups[id]) then 1 else 0
    ensures id < |Run(ops).groups| && Terminal(Run(ops).groups[id]) ==> Waiting(Run(ops), id) == {}
  {
    RunFits(ops);
    if id < |Run(ops).groups| {
      assert GroupFits(Run(ops), id);
    }
    if ops != [] {
      var t := Run(ops[..|ops| - 1]);
      RunFits(ops[..|ops| - 1]);
      OneTerminalAnswer(ops[..|ops| - 1], id);
      var op := ops[|ops| - 1];
      if op.Complete? && Alive(t, op.ticket, op.now) && t.tickets[op.ticket] == id {
        assert op.ticket in Waiting(t, id);
      }
    }
  }

  /** Every payload accounts for the uploads completed so far. It is pending until all are, and then says failed
      exactly when one of them failed, with the error that the last completion brought or a general one. */
  lemma PayloadTells(ops: seq<Op>, id: GroupId)
    requires ops != [] && LastPayload(ops, id).Some?
    ensures var p, brought := LastPayload(ops, id).value, ops[|ops| - 1].error;
            && id < |Run(ops).groups|
            && p.failed == Failures(ops, id) && p.uploaded + p.failed == Answers(ops, id)
            && (p.status == Pending <==> Answers(ops, id) < Run(ops).groups[id].total)
            && (p.status == Failed <==> Answers(ops, id) == Run(ops).groups[id].total && Failures(ops, id) > 0)
            && (p.status != Failed ==> p.error == None)
            && (p.status == Failed && brought.Some? && |brought.value| > 0 ==> p.error == brought)
            && (p.status == Failed && !(brought.Some? && |brought.value| > 0) ==> p.error == Some("upload_failed"))
  {
    CountersAreAnswers(ops, id);
  }

  /** No ticket is counted twice in a group. */
  lemma {:induction false} TicketCountsOnce(ops: seq<Op>, id: GroupId, ticket: string)
    ensures AnswersFor(ops, id, ticket) <= 1
    ensures id < |Run(ops).groups| && ticket in Waiting(Run(ops), id) ==> AnswersFor(ops, id, ticket) == 0
    ensures id >= |Run(ops).groups| ==> AnswersFor(ops, id, ticket) == 0
  {
    if ops != [] {
      TicketCountsOnce(ops[..|ops| - 1], id, ticket);
      RunFits(ops[..|ops| - 1]);
      RunFits(ops);
    }
  }

  /** After a sweep no ticket of an expired group is in the table, and its group never answers again. */
  lemma ExpiredIsGone(ops: seq<Op>, id: GroupId)
    requires ops != [] && id < |Run(ops).groups| && Run(ops).groups[id].expiresAt <= ops[|ops| - 1].now
    requires ops[|ops| - 1].Register? ==> ops[|ops| - 1].uploads != []
    requires id < |Run(ops[..|ops| - 1]).groups|
    ensures Waiting(Run(ops), id) == {} && LastPayload(ops, id).None?
  {
    RunFits(ops[..|ops| - 1]);
  }

  // ---------------------------------------------------------------- when a group can still finish

  /** The clock never goes back. */
  predicate OnTime(ops: seq<Op>, from: real) {
    ops == [] || (from <= ops[0].now && OnTime(ops[1..], ops[0].now))
  }

  function Continue(t: Table, ops: seq<Op>): Table
    decreases |ops|
  {
    if ops == [] then t else Continue(After(t, ops[0]), ops[1..])
  }

  ghost predicate CanFinish(t: Table, id: GroupId, from: real) {
    exists ops :: OnTime(ops, from) && id < |Continue(t, ops).groups| && Terminal(Continue(t, ops).groups[id])
  }

  /** What is counted and what can still be counted: nothing once the group has expired. */
  function WithinReach(t: Table, id: GroupId, from: real): nat
    requires id < |t.groups|
  {
    t.groups[id].completed + |Waiting(Swept(t, from), id)|
  }

  lemma AfterKeeps(t: Table, op: Op)
    requires Inv(t)
    ensures Inv(After(t, op))
  {
    match op
    case Register(uploads, now) => RegisterKeeps(t, uploads, now);
    case Complete(ticket, success, _, now) => CompleteKeeps(t, ticket, success, now);
  }

  /** No operation brings a ticket back to a group: what is within reach never grows. */
  lemma ReachShrinks(t: Table, op: Op, id: GroupId, from: real)
    requires Inv(t) && id < |t.groups| && from <= op.now
    ensures id < |After(t, op).groups| && After(t, op).groups[id].total == t.groups[id].total
    ensures WithinReach(After(t, op), id, op.now) <= WithinReach(t, id, from)
  {
    var before, after := Waiting(Swept(t, from), id), Waiting(Swept(After(t, op), op.now), id);
    if op.Complete? && Alive(t, op.ticket, op.now) && t.tickets[op.ticket] == id {
      assert op.ticket in before;
      SubsetSize(after, before - {op.ticket});
    } else {
      SubsetSize(after, before);
    }
  }

  lemma TerminalIsReached(t: Table, id: GroupId, from: real)
    requires Inv(t) && id < |t.groups|
    ensures WithinReach(t, id, from) <= t.groups[id].total
    ensures Terminal(t.groups[id]) ==> WithinReach(t, id, from) == t.groups[id].total
  {
    assert GroupFits(t, id);
    SubsetSize(Waiting(Swept(t, from), id), Waiting(t, id));
  }

  lemma {:induction false} FinishedWasInReach(t: Table, ops: seq<Op>, id: GroupId, from: real)
    requires Inv(t) && id < |t.groups| && OnTime(ops, from)
    requires id < |Continue(t, ops).groups| && Terminal(Continue(t, ops).groups[id])
    ensures WithinReach(t, id, from) == t.groups[id].total
    decreases |ops|
  {
    TerminalIsReached(t, id, from);
    if ops != [] {
      AfterKeeps(t, ops[0]);
      ReachShrinks(t, ops[0], id, from);
      FinishedWasInReach(After(t, ops[0]), ops[1..], id, ops[0].now);
    }
  }

  lemma FirstOp(t: Table, op: Op, id: GroupId, from: real)
    requires from <= op.now && CanFinish(After(t, op), id, op.now)
    ensures CanFinish(t, id, from)
  {
    var u := After(t, op);
    var ops :| OnTime(ops, op.now) && id < |Continue(u, ops).groups| && Terminal(Continue(u, ops).groups[id]);
    assert ([op] + ops)[1..] == ops;
    assert Continue(t, [op] + ops) == Continue(u, ops);
  }

  /** Completing the waiting tickets one by one finishes the group. */
  lemma {:induction false} InReachFinishes(t: Table, id: GroupId, from: real)
    requires Inv(t) && id < |t.groups| && WithinReach(t, id, from) == t.groups[id].total
    ensures CanFinish(t, id, from)
    decreases |Waiting(Swept(t, from), id)|
  {
    var waiting := Waiting(Swept(t, from), id);
    if Terminal(t.groups[id]) {
      assert Continue(t, []) == t && OnTime([], from);
    } else {
      assert waiting != {};
      var ticket :| ticket in waiting;
      var op := Complete(ticket, true, None, from);
      var u := After(t, op);
      AfterKeeps(t, op);
      if Terminal(u.groups[id]) {
        assert Continue(u, []) == u && OnTime([], from);
      } else {
        assert Waiting(Swept(u, from), id) == waiting - {ticket};
        InReachFinishes(u, id, from);
      }
      FirstOp(t, op, id, from);
    }
  }

  /** A group can become terminal from now on exactly when the tickets it is still waiting for, none once it
      has expired, make up for all its uploads that are not counted yet. */
  lemma CanFinishIff(t: Table, id: GroupId, from: real)
    requires Inv(t) && id < |t.groups|
    ensures CanFinish(t, id, from)
       <==> t.groups[id].completed + |Waiting(Swept(t, from), id)| == t.groups[id].total
  {
    if CanFinish(t, id, from) {
      var ops :| OnTime(ops, from) && id < |Continue(t, ops).groups| && Terminal(Continue(t, ops).groups[id]);
      FinishedWasInReach(t, ops, id, from);
    } else if WithinReach(t, id, from) == t.groups[id].total {
      InReachFinishes(t, id, from);
    }
  }

  /** In terms of a run: what it has answered for the group and what it still waits for make up the uploads.
      So a group that is terminal, or can still become so, has as many tickets as uploads. */
  lemma RunCanFinishIff(ops: seq<Op>, id: GroupId, from: real)
    requires id < |Run(ops).groups|
    ensures var g := Run(ops).groups[id];
            && (CanFinish(Run(ops), id, from) <==> Answers(ops, id) + |Waiting(Swept(Run(ops), from), id)| == g.total)
            && (CanFinish(Run(ops), id, from) || Terminal(g) ==> |g.tickets| == g.total)
  {
    var t := Run(ops);
    RunFits(ops);
    CountersAreAnswers(ops, id);
    CanFinishIff(t, id, from);
    TerminalIsReached(t, id, from);
    assert GroupFits(t, id);
    SubsetSize(Waiting(Swept(t, from), id), Waiting(t, id));
  }

  /** Every upload brings a ticket, and no two the same. */
  predicate TicketsOfTheirOwn(uploads: seq<Upload>) {
    && (forall i :: 0 <= i < |uploads| ==> TicketOf(uploads[i]) != [])
    && (forall i, j :: 0 <= i < j < |uploads| ==> TicketOf(uploads[i]) != TicketOf(uploads[j]))
  }

  lemma OwnTicketsGrow(uploads: seq<Upload>, n: nat)
    requires n < |uploads|
    ensures TicketsOfTheirOwn(uploads[..n + 1])
       <==> TicketsOfTheirOwn(uploads[..n]) && TicketOf(uploads[n]) != [] && TicketOf(uploads[n]) !in TicketsOf(uploads[..n])
  {
    var a, b := uploads[..n], uploads[..n + 1];
    assert b[n] == uploads[n] && forall i :: 0 <= i < n ==> a[i] == b[i] == uploads[i];
    if TicketsOfTheirOwn(b) {
      assert forall i :: 0 <= i < n ==> TicketOf(a[i]) != [] && TicketOf(b[i]) != TicketOf(b[n]);
    } else if TicketsOfTheirOwn(a) && TicketOf(uploads[n]) !in TicketsOf(a) {
      assert forall i :: 0 <= i < n ==> TicketOf(a[i]) in TicketsOf(a);
    }
  }

  lemma {:induction false} AsManyTickets(uploads: seq<Upload>)
    ensures |TicketsOf(uploads)| == |uploads| <==> TicketsOfTheirOwn(uploads)
  {
    if uploads != [] {
      var n := |uploads| - 1;
      AsManyTickets(uploads[..n]);
      TicketsAreFew(uploads[..n]);
      TicketsGrow(uploads, n);
      OwnTicketsGrow(uploads, n);
      assert uploads[..n + 1] == uploads;
    }
  }

  /** The lifetime an upload asks for, if it does: between a second and ten minutes. */
  predicate AsksFor(u: Upload, seconds: int) {
    && u.Upload? && u.expiresIn.Some? && u.expiresIn.value != 0
    && seconds == if u.expiresIn.value < 1 then 1 else if u.expiresIn.value > 600 then 600 else u.expiresIn.value
  }

  /** A group lives as long as the shortest lifetime its uploads ask for, ten minutes if none asks. */
  lemma {:induction false} TtlIsLeast(uploads: seq<Upload>)
    ensures Ttl(uploads) <= 600 && forall i, s :: 0 <= i < |uploads| && AsksFor(uploads[i], s) ==> Ttl(uploads) <= s
    ensures Ttl(uploads) == 600 || exists i :: 0 <= i < |uploads| && AsksFor(uploads[i], Ttl(uploads))
  {
    if uploads != [] {
      TtlIsLeast(uploads[1..]);
      forall i, s | 0 <= i < |uploads| && AsksFor(uploads[i], s) ensures Ttl(uploads) <= s {
        assert i > 0 ==> uploads[1..][i - 1] == uploads[i];
      }
      if Ttl(uploads) != 600 {
        if Ttl(uploads) == TtlOf(uploads[0]) {
          assert AsksFor(uploads[0], Ttl(uploads));
        } else {
          var i :| 0 <= i < |uploads[1..]| && AsksFor(uploads[1..][i], Ttl(uploads));
          assert AsksFor(uploads[i + 1], Ttl(uploads));
        }
      }
    }
  }

  /** The tickets of a new group are its own at once, and up to its expiry. */
  lemma RegisteredIsAlive(t: Table, uploads: seq<Upload>, now: real, i: nat, later: real)
    requires Inv(t) && i < |uploads| && TicketOf(uploads[i]) != [] && later >= now
    ensures var r, ticket := Registered(t, uploads, now), TicketOf(uploads[i]);
            && ticket in r.tickets && r.tickets[ticket] == |t.groups|
            && (Alive(r, ticket, later) <==> later < now + Ttl(uploads) as real)
  {
    assert TicketOf(uploads[i]) in TicketsOf(uploads);
  }

  lemma {:induction false} TtlIsPositive(uploads: seq<Upload>)
    ensures 1 <= Ttl(uploads) <= UPLOAD_TICKET_TTL_SECONDS
  {
    if uploads != [] {
      TtlIsPositive(uploads[1..]);
    }
  }

  /** A group just registered can become terminal exactly when every upload brought a ticket of its own. */
  lemma NewGroupCanFinishIff(t: Table, uploads: seq<Upload>, now: real)
    requires Inv(t) && uploads != []
    ensures CanFinish(Registered(t, uploads, now), |t.groups|, now) <==> TicketsOfTheirOwn(uploads)
  {
    var r, id := Registered(t, uploads, now), |t.groups|;
    RegisterKeeps(t, uploads, now);
    TtlIsPositive(uploads);
    AsManyTickets(uploads);
    assert Waiting(Swept(r, now), id) == TicketsOf(uploads);
    CanFinishIff(r, id, now);
  }

  // ---------------------------------------------------------------- reused tickets

  /** Removing the siblings of a finished group takes nothing from the others exactly when none of its
      tickets is in use by another group. */
  lemma SiblingsAreOwnIff(t: Table, ticket: string, success: bool, now: real)
    requires Inv(t) && Alive(t, ticket, now) && Terminal(Counted(t.groups[t.tickets[ticket]], success))
    ensures var id := t.tickets[ticket];
            (forall other :: other != id ==> Waiting(Completed(t, ticket, success, now), other) == Waiting(Swept(t, now), other))
            <==> (forall k :: k in t.groups[id].tickets && Alive(t, k, now) ==> t.tickets[k] == id)
  {
    var id := t.tickets[ticket];
    var s, r := Swept(t, now), Completed(t, ticket, success, now);
    if forall other :: other != id ==> Waiting(r, other) == Waiting(s, other) {
      forall k | k in t.groups[id].tickets && Alive(t, k, now) ensures t.tickets[k] == id {
        assert k in Waiting(s, t.tickets[k]) && k !in r.tickets;
      }
    }
  }
}
