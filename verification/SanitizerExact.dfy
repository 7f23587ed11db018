/** mcp_server/access_records.py: exactly what the sanitizer returns, and when it has to truncate. */
module SanitizerExact {
  import opened Json
  import opened Sanitizer
  import opened SanitizerLaws

  // ---------------------------------------------------------------- the input without its sensitive keys

  function Redacted(v: Json, sensitive: string -> bool): Json
    decreases v, Width(v) + 1
  {
    match v
    case Obj(_) => Obj(RedactedMembers(v, 0, sensitive))
    case List(_) => List(RedactedItems(v, 0, sensitive))
    case _ => v
  }

  function RedactedMembers(v: Json, i: nat, sensitive: string -> bool): seq<Member>
    requires v.Obj? && i <= |v.members|
    decreases v, |v.members| - i
  {
    if i == |v.members| then []
    else if sensitive(v.members[i].key) then RedactedMembers(v, i + 1, sensitive)
    else [Member(v.members[i].key, Redacted(v.members[i].value, sensitive))] + RedactedMembers(v, i + 1, sensitive)
  }

  function RedactedItems(v: Json, i: nat, sensitive: string -> bool): seq<Json>
    requires v.List? && i <= |v.items|
    decreases v, |v.items| - i
  {
    if i == |v.items| then [] else [Redacted(v.items[i], sensitive)] + RedactedItems(v, i + 1, sensitive)
  }

  /** The paths of the sensitive keys, in the order they are met; nothing below one is visited. */
  function Paths(v: Json, path: string, sensitive: string -> bool): seq<string>
    decreases v, Width(v) + 1
  {
    match v
    case Obj(_) => MemberPaths(v, 0, path, sensitive)
    case List(_) => ItemPaths(v, 0, path, sensitive)
    case _ => []
  }

  function MemberPaths(v: Json, i: nat, path: string, sensitive: string -> bool): seq<string>
    requires v.Obj? && i <= |v.members|
    decreases v, |v.members| - i
  {
    if i == |v.members| then []
    else
      var child := MemberPath(path, v.members[i].key);
      (if sensitive(v.members[i].key) then [child] else Paths(v.members[i].value, child, sensitive))
      + MemberPaths(v, i + 1, path, sensitive)
  }

  function ItemPaths(v: Json, i: nat, path: string, sensitive: string -> bool): seq<string>
    requires v.List? && i <= |v.items|
    decreases v, |v.items| - i
  {
    if i == |v.items| then []
    else Paths(v.items[i], ItemPath(path, i), sensitive) + ItemPaths(v, i + 1, path, sensitive)
  }

  // ---------------------------------------------------------------- what it costs

  datatype Cost = Cost(bytes: nat, nodes: nat, levels: nat)

  function Max(a: nat, b: nat): nat {
    if a >= b then a else b
  }

  /** Two siblings, or a sibling and the rest. */
  function Beside(a: Cost, b: Cost): Cost {
    Cost(a.bytes + b.bytes, a.nodes + b.nodes, Max(a.levels, b.levels))
  }

  function Inside(c: Cost): Cost {
    Cost(c.bytes, c.nodes + 1, c.levels + 1)
  }

  /** Bytes of the kept keys and scalars, values visited, and levels of nesting. */
  function CostOf(v: Json, sensitive: string -> bool): Cost
    decreases v, Width(v) + 1
  {
    match v
    case Obj(_) => Inside(MembersCost(v, 0, sensitive))
    case List(_) => Inside(ItemsCost(v, 0, sensitive))
    case _ => Cost(Charge(v), 1, 1)
  }

  function MembersCost(v: Json, i: nat, sensitive: string -> bool): Cost
    requires v.Obj? && i <= |v.members|
    decreases v, |v.members| - i
  {
    if i == |v.members| then Cost(0, 0, 0)
    else if sensitive(v.members[i].key) then MembersCost(v, i + 1, sensitive)
    else Beside(Beside(Cost(Bytes(v.members[i].key), 0, 0), CostOf(v.members[i].value, sensitive)),
                MembersCost(v, i + 1, sensitive))
  }

  function ItemsCost(v: Json, i: nat, sensitive: string -> bool): Cost
    requires v.List? && i <= |v.items|
    decreases v, |v.items| - i
  {
    if i == |v.items| then Cost(0, 0, 0)
    else Beside(CostOf(v.items[i], sensitive), ItemsCost(v, i + 1, sensitive))
  }

  function Paid(b: Budget, c: Cost): Budget {
    b.(bytes := b.bytes - c.bytes, nodes := b.nodes - c.nodes)
  }

  // ---------------------------------------------------------------- no truncation: exactly the redacted input

  /** Not marked truncated: the output is the input without its sensitive keys, every such key is reported,
      and the budget is down by exactly the cost. */
  lemma {:induction false} UntruncatedIsRedacted(v: Json, b: Budget, depth: nat, path: string, red: seq<string>, sensitive: string -> bool)
    requires Solvent(b) && !Sanitize(v, b, depth, path, red, sensitive).budget.truncated
    ensures Sanitize(v, b, depth, path, red, sensitive)
         == Out(Redacted(v, sensitive), Paid(b, CostOf(v, sensitive)), red + Paths(v, path, sensitive))
    ensures depth + CostOf(v, sensitive).levels <= SANITIZE_MAX_DEPTH
    decreases v, Width(v) + 1
  {
    var b1 := b.(nodes := b.nodes - 1);
    if v.Obj? {
      MembersRedacted(v, 0, b1, depth, path, red, [], sensitive);
      assert [] + RedactedMembers(v, 0, sensitive) == RedactedMembers(v, 0, sensitive);
    } else if v.List? {
      ItemsRedacted(v, 0, b1, depth, path, red, [], sensitive);
      assert [] + RedactedItems(v, 0, sensitive) == RedactedItems(v, 0, sensitive);
    } else {
      assert red + [] == red;
    }
  }

  lemma {:induction false} MembersRedacted(v: Json, i: nat, b: Budget, depth: nat, path: string, red: seq<string>,
                                           done: seq<Member>, sensitive: string -> bool)
    requires v.Obj? && i <= |v.members| && Solvent(b) && depth < SANITIZE_MAX_DEPTH
    requires !SanitizeMembers(v, i, b, depth, path, red, done, sensitive).budget.truncated
    ensures SanitizeMembers(v, i, b, depth, path, red, done, sensitive)
         == MembersOut(b, red, done, RedactedMembers(v, i, sensitive), MembersCost(v, i, sensitive), MemberPaths(v, i, path, sensitive))
    ensures depth + 1 + MembersCost(v, i, sensitive).levels <= SANITIZE_MAX_DEPTH
    decreases v, |v.members| - i
  {
    if i == |v.members| {
      assert done + [] == done && red + [] == red;
    } else if sensitive(v.members[i].key) {
      var child := MemberPath(path, v.members[i].key);
      MembersRedacted(v, i + 1, b, depth, path, red + [child], done, sensitive);
      Regroup(red, [child], MemberPaths(v, i + 1, path, sensitive));
    } else {
      var m := v.members[i];
      var child := MemberPath(path, m.key);
      KeptMember(v, i, b, depth, path, red, done, sensitive);
      var b1 := Spend(b, Bytes(m.key));
      var r := Sanitize(m.value, b1, depth + 1, child, red, sensitive);
      UntruncatedIsRedacted(m.value, b1, depth + 1, child, red, sensitive);
      MembersRedacted(v, i + 1, r.budget, depth, path, r.redactions, done + [Member(m.key, r.value)], sensitive);
      OneMoreMember(b, red, done, Member(m.key, r.value), CostOf(m.value, sensitive), Paths(m.value, child, sensitive),
                    RedactedMembers(v, i + 1, sensitive), MembersCost(v, i + 1, sensitive), MemberPaths(v, i + 1, path, sensitive));
    }
  }

  /** What a dictionary loop returns that is not cut short: so much more added, spent and reported. */
  function MembersOut(b: Budget, red: seq<string>, done: seq<Member>, more: seq<Member>, cost: Cost, paths: seq<string>): Out {
    Out(Obj(done + more), Paid(b, cost), red + paths)
  }

  lemma OneMoreMember(b: Budget, red: seq<string>, done: seq<Member>, m: Member, cost: Cost, paths: seq<string>,
                      restMembers: seq<Member>, restCost: Cost, restPaths: seq<string>)
    requires Bytes(m.key) <= b.bytes
    ensures MembersOut(Paid(Spend(b, Bytes(m.key)), cost), red + paths, done + [m], restMembers, restCost, restPaths)
         == MembersOut(b, red, done, [m] + restMembers, Beside(Beside(Cost(Bytes(m.key), 0, 0), cost), restCost), paths + restPaths)
  {
    Regroup(done, [m], restMembers);
    Regroup(red, paths, restPaths);
  }

  /** A member that is kept, in a dictionary that is not truncated: the loop goes on after it. */
  lemma KeptMember(v: Json, i: nat, b: Budget, depth: nat, path: string, red: seq<string>,
                   done: seq<Member>, sensitive: string -> bool)
    requires v.Obj? && i < |v.members| && Solvent(b) && !sensitive(v.members[i].key)
    requires !SanitizeMembers(v, i, b, depth, path, red, done, sensitive).budget.truncated
    ensures var m := v.members[i];
            var r := Sanitize(m.value, Spend(b, Bytes(m.key)), depth + 1, MemberPath(path, m.key), red, sensitive);
            && Bytes(m.key) <= b.bytes && Solvent(r.budget) && !r.budget.truncated
            && SanitizeMembers(v, i, b, depth, path, red, done, sensitive)
               == SanitizeMembers(v, i + 1, r.budget, depth, path, r.redactions, done + [Member(m.key, r.value)], sensitive)
  {
    var m := v.members[i];
    var b1 := Spend(b, Bytes(m.key));
    var r := Sanitize(m.value, b1, depth + 1, MemberPath(path, m.key), red, sensitive);
    if Bytes(m.key) <= b.bytes {
      BudgetNeverNegative(m.value, b1, depth + 1, MemberPath(path, m.key), red, sensitive);
      MembersSpend(v, i + 1, r.budget, depth, path, r.redactions, done + [Member(m.key, r.value)], sensitive);
    }
  }

  lemma Regroup<T>(a: seq<T>, b: seq<T>, c: seq<T>)
    ensures a + b + c == a + (b + c)
  {
  }

  lemma {:induction false} ItemsRedacted(v: Json, i: nat, b: Budget, depth: nat, path: string, red: seq<string>,
                                         done: seq<Json>, sensitive: string -> bool)
    requires v.List? && i <= |v.items| && Solvent(b) && depth < SANITIZE_MAX_DEPTH
    requires !SanitizeItems(v, i, b, depth, path, red, done, sensitive).budget.truncated
    ensures SanitizeItems(v, i, b, depth, path, red, done, sensitive)
         == Out(List(done + RedactedItems(v, i, sensitive)), Paid(b, ItemsCost(v, i, sensitive)),
                red + ItemPaths(v, i, path, sensitive))
    ensures depth + 1 + ItemsCost(v, i, sensitive).levels <= SANITIZE_MAX_DEPTH
    decreases v, |v.items| - i
  {
    if i == |v.items| {
      assert done + [] == done && red + [] == red;
    } else {
      var at := ItemPath(path, i);
      var r := Sanitize(v.items[i], b, depth + 1, at, red, sensitive);
      BudgetNeverNegative(v.items[i], b, depth + 1, at, red, sensitive);
      var more := done + [r.value];
      ItemsSpend(v, i + 1, r.budget, depth, path, r.redactions, more, sensitive);
      UntruncatedIsRedacted(v.items[i], b, depth + 1, at, red, sensitive);
      ItemsRedacted(v, i + 1, r.budget, depth, path, r.redactions, more, sensitive);
      Regroup(done, [r.value], RedactedItems(v, i + 1, sensitive));
      Regroup(red, Paths(v.items[i], at, sensitive), ItemPaths(v, i + 1, path, sensitive));
    }
  }

  // ---------------------------------------------------------------- exactly when the budget is enough

  /** In the order of the traversal some list item comes after the last byte is charged. A list asks for a
      byte to be left before each item, even if the item needs none. */
  predicate ItemComesLast(v: Json, sensitive: string -> bool)
    decreases v, Width(v) + 1
  {
    match v
    case Obj(_) => ItemComesLastInMembers(v, 0, sensitive)
    case List(_) => ItemComesLastInItems(v, 0, sensitive)
    case _ => false
  }

  predicate ItemComesLastInMembers(v: Json, i: nat, sensitive: string -> bool)
    requires v.Obj? && i <= |v.members|
    decreases v, |v.members| - i
  {
    i < |v.members| &&
    (ItemComesLastInMembers(v, i + 1, sensitive) ||
     (!sensitive(v.members[i].key) && MembersCost(v, i + 1, sensitive).bytes == 0 && ItemComesLast(v.members[i].value, sensitive)))
  }

  predicate ItemComesLastInItems(v: Json, i: nat, sensitive: string -> bool)
    requires v.List? && i <= |v.items|
    decreases v, |v.items| - i
  {
    i < |v.items| &&
    (ItemsCost(v, i, sensitive).bytes == 0 || ItemComesLastInItems(v, i + 1, sensitive) ||
     (ItemsCost(v, i + 1, sensitive).bytes == 0 && ItemComesLast(v.items[i], sensitive)))
  }

  /** Enough of everything, and a byte to spare if a list item comes last. */
  predicate Affords(b: Budget, depth: nat, c: Cost, itemLast: bool) {
    && c.bytes + (if itemLast then 1 else 0) <= b.bytes
    && c.nodes <= b.nodes && depth + c.levels <= SANITIZE_MAX_DEPTH
  }

  /** What a dictionary can afford it can afford in two parts: the next member and the rest. */
  lemma AffordsMember(v: Json, i: nat, b: Budget, depth: nat, sensitive: string -> bool)
    requires v.Obj? && i < |v.members| && !sensitive(v.members[i].key)
    requires Affords(b, depth, MembersCost(v, i, sensitive), ItemComesLastInMembers(v, i, sensitive))
    ensures var m := v.members[i];
            var b1 := Spend(b, Bytes(m.key));
            && b1 == b.(bytes := b.bytes - Bytes(m.key)) && b1.bytes >= 0
            && Affords(b1, depth, CostOf(m.value, sensitive), ItemComesLast(m.value, sensitive))
            && Affords(Paid(b1, CostOf(m.value, sensitive)), depth,
                       MembersCost(v, i + 1, sensitive), ItemComesLastInMembers(v, i + 1, sensitive))
  {
  }

  lemma {:induction false} EnoughIsEnough(v: Json, b: Budget, depth: nat, path: string, red: seq<string>, sensitive: string -> bool)
    requires Solvent(b) && !b.truncated && Affords(b, depth, CostOf(v, sensitive), ItemComesLast(v, sensitive))
    ensures !Sanitize(v, b, depth, path, red, sensitive).budget.truncated
    decreases v, Width(v) + 1
  {
    var b1 := b.(nodes := b.nodes - 1);
    if v.Obj? {
      MembersEnough(v, 0, b1, depth, path, red, [], sensitive);
    } else if v.List? {
      ItemsEnough(v, 0, b1, depth, path, red, [], sensitive);
    }
  }

  lemma {:induction false} MembersEnough(v: Json, i: nat, b: Budget, depth: nat, path: string, red: seq<string>,
                                         done: seq<Member>, sensitive: string -> bool)
    requires v.Obj? && i <= |v.members| && Solvent(b) && !b.truncated
    requires Affords(b, depth + 1, MembersCost(v, i, sensitive), ItemComesLastInMembers(v, i, sensitive))
    ensures !SanitizeMembers(v, i, b, depth, path, red, done, sensitive).budget.truncated
    decreases v, |v.members| - i
  {
    if i < |v.members| {
      var m := v.members[i];
      var child := MemberPath(path, m.key);
      if sensitive(m.key) {
        MembersEnough(v, i + 1, b, depth, path, red + [child], done, sensitive);
      } else {
        var b1 := Spend(b, Bytes(m.key));
        var r := Sanitize(m.value, b1, depth + 1, child, red, sensitive);
        AffordsMember(v, i, b, depth + 1, sensitive);
        EnoughIsEnough(m.value, b1, depth + 1, child, red, sensitive);
        UntruncatedIsRedacted(m.value, b1, depth + 1, child, red, sensitive);
        MembersEnough(v, i + 1, r.budget, depth, path, r.redactions, done + [Member(m.key, r.value)], sensitive);
      }
    }
  }

  lemma {:induction false} ItemsEnough(v: Json, i: nat, b: Budget, depth: nat, path: string, red: seq<string>,
                                       done: seq<Json>, sensitive: string -> bool)
    requires v.List? && i <= |v.items| && Solvent(b) && !b.truncated
    requires Affords(b, depth + 1, ItemsCost(v, i, sensitive), ItemComesLastInItems(v, i, sensitive))
    ensures !SanitizeItems(v, i, b, depth, path, red, done, sensitive).budget.truncated
    decreases v, |v.items| - i
  {
    if i < |v.items| {
      var at := ItemPath(path, i);
      var r := Sanitize(v.items[i], b, depth + 1, at, red, sensitive);
      NodesPositive(v.items[i], sensitive);
      EnoughIsEnough(v.items[i], b, depth + 1, at, red, sensitive);
      UntruncatedIsRedacted(v.items[i], b, depth + 1, at, red, sensitive);
      ItemsEnough(v, i + 1, r.budget, depth, path, r.redactions, done + [r.value], sensitive);
    }
  }

  lemma {:induction false} UncutWasEnough(v: Json, b: Budget, depth: nat, path: string, red: seq<string>, sensitive: string -> bool)
    requires Solvent(b) && !Sanitize(v, b, depth, path, red, sensitive).budget.truncated
    ensures Affords(b, depth, CostOf(v, sensitive), ItemComesLast(v, sensitive))
    decreases v, Width(v) + 1
  {
    var b1 := b.(nodes := b.nodes - 1);
    UntruncatedIsRedacted(v, b, depth, path, red, sensitive);
    BudgetNeverNegative(v, b, depth, path, red, sensitive);
    if v.Obj? {
      MembersHadByteLeft(v, 0, b1, depth, path, red, [], sensitive);
    } else if v.List? {
      ItemsHadByteLeft(v, 0, b1, depth, path, red, [], sensitive);
    }
  }

  lemma {:induction false} MembersHadByteLeft(v: Json, i: nat, b: Budget, depth: nat, path: string, red: seq<string>,
                                              done: seq<Member>, sensitive: string -> bool)
    requires v.Obj? && i <= |v.members| && Solvent(b) && depth < SANITIZE_MAX_DEPTH
    requires !SanitizeMembers(v, i, b, depth, path, red, done, sensitive).budget.truncated
    ensures ItemComesLastInMembers(v, i, sensitive) ==> MembersCost(v, i, sensitive).bytes < b.bytes
    decreases v, |v.members| - i
  {
    if i < |v.members| {
      var m := v.members[i];
      var child := MemberPath(path, m.key);
      if sensitive(m.key) {
        MembersHadByteLeft(v, i + 1, b, depth, path, red + [child], done, sensitive);
      } else {
        KeptMember(v, i, b, depth, path, red, done, sensitive);
        var b1 := Spend(b, Bytes(m.key));
        var r := Sanitize(m.value, b1, depth + 1, child, red, sensitive);
        UntruncatedIsRedacted(m.value, b1, depth + 1, child, red, sensitive);
        UncutWasEnough(m.value, b1, depth + 1, child, red, sensitive);
        MembersHadByteLeft(v, i + 1, r.budget, depth, path, r.redactions, done + [Member(m.key, r.value)], sensitive);
      }
    }
  }

  lemma {:induction false} ItemsHadByteLeft(v: Json, i: nat, b: Budget, depth: nat, path: string, red: seq<string>,
                                            done: seq<Json>, sensitive: string -> bool)
    requires v.List? && i <= |v.items| && Solvent(b) && depth < SANITIZE_MAX_DEPTH
    requires !SanitizeItems(v, i, b, depth, path, red, done, sensitive).budget.truncated
    ensures ItemComesLastInItems(v, i, sensitive) ==> ItemsCost(v, i, sensitive).bytes < b.bytes
    decreases v, |v.items| - i
  {
    if i < |v.items| {
      var at := ItemPath(path, i);
      var r := Sanitize(v.items[i], b, depth + 1, at, red, sensitive);
      BudgetNeverNegative(v.items[i], b, depth + 1, at, red, sensitive);
      ItemsSpend(v, i + 1, r.budget, depth, path, r.redactions, done + [r.value], sensitive);
      UntruncatedIsRedacted(v.items[i], b, depth + 1, at, red, sensitive);
      UncutWasEnough(v.items[i], b, depth + 1, at, red, sensitive);
      ItemsHadByteLeft(v, i + 1, r.budget, depth, path, r.redactions, done + [r.value], sensitive);
    }
  }

  /** The exact condition, known before the call: what the value costs, and a byte more if a list item comes last. */
  lemma TruncatedIff(v: Json, b: Budget, depth: nat, path: string, red: seq<string>, sensitive: string -> bool)
    requires Solvent(b) && !b.truncated
    ensures Sanitize(v, b, depth, path, red, sensitive).budget.truncated
       <==> !Affords(b, depth, CostOf(v, sensitive), ItemComesLast(v, sensitive))
  {
    if Affords(b, depth, CostOf(v, sensitive), ItemComesLast(v, sensitive)) {
      EnoughIsEnough(v, b, depth, path, red, sensitive);
    } else if !Sanitize(v, b, depth, path, red, sensitive).budget.truncated {
      UncutWasEnough(v, b, depth, path, red, sensitive);
    }
  }

  lemma NodesPositive(v: Json, sensitive: string -> bool)
    ensures CostOf(v, sensitive).nodes >= 1 && CostOf(v, sensitive).levels >= 1
  {
  }

  // ---------------------------------------------------------------- truncation leaves a marker

  /** `_contains_sanitizer_truncation`. */
  predicate ContainsTruncation(v: Json) {
    match v
    case Obj(ms) => Has(ms, SANITIZER_TRUNCATED) || exists i :: 0 <= i < |ms| && ContainsTruncation(ms[i].value)
    case List(xs) => exists i :: 0 <= i < |xs| && ContainsTruncation(xs[i])
    case _ => false
  }

  lemma {:induction false} PutHas(ms: seq<Member>, key: string, value: Json, other: string)
    ensures Has(Put(ms, key, value), key)
    ensures Has(ms, other) ==> Has(Put(ms, key, value), other)
  {
    if ms != [] && ms[0].key != key {
      PutHas(ms[1..], key, value, other);
      assert ([ms[0]] + Put(ms[1..], key, value))[1..] == Put(ms[1..], key, value);
    } else if ms != [] {
      assert ([Member(key, value)] + ms[1..])[1..] == ms[1..];
    }
  }

  lemma MarkedHasMarker(ms: seq<Member>, omitted: nat)
    ensures ContainsTruncation(Obj(Marked(ms, omitted)))
  {
    var a := Put(ms, SANITIZER_TRUNCATED, Str("max_bytes"));
    PutHas(ms, SANITIZER_TRUNCATED, Str("max_bytes"), TRUNCATED);
    var b := Put(a, TRUNCATED, Bool(true));
    PutHas(a, TRUNCATED, Bool(true), SANITIZER_TRUNCATED);
    PutHas(b, OMITTED_COUNT, Num(Decimal(omitted)), SANITIZER_TRUNCATED);
  }

  lemma {:induction false} HasAppend(ms: seq<Member>, m: Member, key: string)
    requires Has(ms, key)
    ensures Has(ms + [m], key)
  {
    if ms[0].key != key {
      HasAppend(ms[1..], m, key);
      assert (ms + [m])[1..] == ms[1..] + [m];
    }
  }

  lemma MarkerHasMarker(members: seq<Member>)
    requires |members| >= 2 && members[1].key == SANITIZER_TRUNCATED
    ensures ContainsTruncation(Obj(members))
  {
    assert members[1..][0] == members[1];
    assert Has(members[1..], SANITIZER_TRUNCATED);
  }

  lemma MembersKeepMarker(done: seq<Member>, m: Member)
    ensures ContainsTruncation(Obj(done)) || ContainsTruncation(m.value) ==> ContainsTruncation(Obj(done + [m]))
  {
    var more := done + [m];
    if ContainsTruncation(m.value) {
      assert more[|done|] == m;
    } else if Has(done, SANITIZER_TRUNCATED) {
      HasAppend(done, m, SANITIZER_TRUNCATED);
    } else if i :| 0 <= i < |done| && ContainsTruncation(done[i].value) {
      assert more[i] == done[i];
    }
  }

  lemma ItemsKeepMarker(done: seq<Json>, x: Json)
    ensures ContainsTruncation(List(done)) || ContainsTruncation(x) ==> ContainsTruncation(List(done + [x]))
  {
    var more := done + [x];
    if ContainsTruncation(x) {
      assert more[|done|] == x;
    } else if i :| 0 <= i < |done| && ContainsTruncation(done[i]) {
      assert more[i] == done[i];
    }
  }

  /** If this call marked the budget truncated, the marker is in what it returned. */
  lemma {:induction false} TruncationIsMarked(v: Json, b: Budget, depth: nat, path: string, red: seq<string>, sensitive: string -> bool)
    requires !b.truncated && Sanitize(v, b, depth, path, red, sensitive).budget.truncated
    ensures ContainsTruncation(Sanitize(v, b, depth, path, red, sensitive).value)
    decreases v, Width(v) + 1
  {
    var out := Sanitize(v, b, depth, path, red, sensitive).value;
    var b1 := b.(nodes := b.nodes - 1);
    if depth < SANITIZE_MAX_DEPTH && b.nodes > 0 && v.Obj? {
      MembersMarked(v, 0, b1, depth, path, red, [], sensitive);
    } else if depth < SANITIZE_MAX_DEPTH && b.nodes > 0 && v.List? {
      ItemsMarked(v, 0, b1, depth, path, red, [], sensitive);
    } else {
      MarkerHasMarker(out.members);
    }
  }

  lemma {:induction false} MembersMarked(v: Json, i: nat, b: Budget, depth: nat, path: string, red: seq<string>,
                                         done: seq<Member>, sensitive: string -> bool)
    requires v.Obj? && i <= |v.members| && (b.truncated ==> ContainsTruncation(Obj(done)))
    requires SanitizeMembers(v, i, b, depth, path, red, done, sensitive).budget.truncated
    ensures ContainsTruncation(SanitizeMembers(v, i, b, depth, path, red, done, sensitive).value)
    decreases v, |v.members| - i
  {
    if i < |v.members| {
      var m := v.members[i];
      var child := MemberPath(path, m.key);
      if sensitive(m.key) {
        MembersMarked(v, i + 1, b, depth, path, red + [child], done, sensitive);
      } else if Bytes(m.key) > b.bytes {
        MarkedHasMarker(done, |v.members| - i);
      } else {
        var b1 := Spend(b, Bytes(m.key));
        var r := Sanitize(m.value, b1, depth + 1, child, red, sensitive);
        if !b1.truncated && r.budget.truncated {
          TruncationIsMarked(m.value, b1, depth + 1, child, red, sensitive);
        }
        var more := done + [Member(m.key, r.value)];
        MembersKeepMarker(done, Member(m.key, r.value));
        MarkedHasMarker(more, |v.members| - i - 1);
        if !(r.budget.truncated && r.budget.bytes <= 0) {
          MembersMarked(v, i + 1, r.budget, depth, path, r.redactions, more, sensitive);
        }
      }
    }
  }

  lemma {:induction false} ItemsMarked(v: Json, i: nat, b: Budget, depth: nat, path: string, red: seq<string>,
                                       done: seq<Json>, sensitive: string -> bool)
    requires v.List? && i <= |v.items| && (b.truncated ==> ContainsTruncation(List(done)))
    requires SanitizeItems(v, i, b, depth, path, red, done, sensitive).budget.truncated
    ensures ContainsTruncation(SanitizeItems(v, i, b, depth, path, red, done, sensitive).value)
    decreases v, |v.items| - i
  {
    if i < |v.items| {
      if b.nodes <= 0 || b.bytes <= 0 {
        var rest := RestMarker(if b.nodes <= 0 then "max_nodes" else "max_bytes", |v.items| - i);
        MarkerHasMarker(rest.members);
        ItemsKeepMarker(done, rest);
      } else {
        var r := Sanitize(v.items[i], b, depth + 1, ItemPath(path, i), red, sensitive);
        if !b.truncated && r.budget.truncated {
          TruncationIsMarked(v.items[i], b, depth + 1, ItemPath(path, i), red, sensitive);
        }
        ItemsKeepMarker(done, r.value);
        ItemsMarked(v, i + 1, r.budget, depth, path, r.redactions, done + [r.value], sensitive);
      }
    }
  }

  // ---------------------------------------------------------------- one call

  function Fresh(maxBytes: nat): Budget {
    Budget(maxBytes, SANITIZE_MAX_NODES, false)
  }

  /** A whole capture: the payload without its sensitive keys, untouched otherwise, exactly if it is within
      every limit; else a marker says that it was cut. */
  lemma CutOnlyWhenNeeded(v: Json, maxBytes: nat, sensitive: string -> bool)
    ensures var r := Sanitize(v, Fresh(maxBytes), 0, "", [], sensitive);
            var c := CostOf(v, sensitive);
            if c.bytes + (if ItemComesLast(v, sensitive) then 1 else 0) <= maxBytes && c.nodes <= 50000 && c.levels <= 64 then
              && !r.budget.truncated && r.value == Redacted(v, sensitive) && r.redactions == Paths(v, "", sensitive)
            else r.budget.truncated && ContainsTruncation(r.value)
  {
    var b := Fresh(maxBytes);
    TruncatedIff(v, b, 0, "", [], sensitive);
    if Sanitize(v, b, 0, "", [], sensitive).budget.truncated {
      TruncationIsMarked(v, b, 0, "", [], sensitive);
    } else {
      UntruncatedIsRedacted(v, b, 0, "", [], sensitive);
      assert [] + Paths(v, "", sensitive) == Paths(v, "", sensitive);
    }
  }
}
