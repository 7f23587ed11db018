/** What the sanitizer of mcp_server/access_records.py guarantees for every JSON tree. */
module SanitizerLaws {
  import opened Json
  import opened Sanitizer

  // ---------------------------------------------------------------- budgets

  ghost predicate Solvent(b: Budget) {
    b.bytes >= 0 && b.nodes >= 0
  }

  /** A budget only shrinks, never below zero, and once marked truncated stays so. */
  ghost predicate Spends(b: Budget, r: Budget) {
    0 <= r.bytes <= b.bytes && 0 <= r.nodes <= b.nodes && (b.truncated ==> r.truncated)
  }

  lemma {:induction false} BudgetNeverNegative(v: Json, b: Budget, depth: nat, path: string, red: seq<string>, sensitive: string -> bool)
    requires Solvent(b)
    ensures Spends(b, Sanitize(v, b, depth, path, red, sensitive).budget)
    decreases v, Width(v) + 1
  {
    if depth < SANITIZE_MAX_DEPTH && b.nodes > 0 {
      var b1 := b.(nodes := b.nodes - 1);
      if v.Obj? {
        MembersSpend(v, 0, b1, depth, path, red, [], sensitive);
      } else if v.List? {
        ItemsSpend(v, 0, b1, depth, path, red, [], sensitive);
      }
    }
  }

  lemma {:induction false} MembersSpend(v: Json, i: nat, b: Budget, depth: nat, path: string, red: seq<string>,
                                        done: seq<Member>, sensitive: string -> bool)
    requires v.Obj? && i <= |v.members| && Solvent(b)
    ensures Spends(b, SanitizeMembers(v, i, b, depth, path, red, done, sensitive).budget)
    decreases v, |v.members| - i
  {
    if i < |v.members| {
      var m := v.members[i];
      var child := MemberPath(path, m.key);
      if sensitive(m.key) {
        MembersSpend(v, i + 1, b, depth, path, red + [child], done, sensitive);
      } else if Bytes(m.key) <= b.bytes {
        var b1 := Spend(b, Bytes(m.key));
        var r := Sanitize(m.value, b1, depth + 1, child, red, sensitive);
        BudgetNeverNegative(m.value, b1, depth + 1, child, red, sensitive);
        MembersSpend(v, i + 1, r.budget, depth, path, r.redactions, done + [Member(m.key, r.value)], sensitive);
      }
    }
  }

  lemma {:induction false} ItemsSpend(v: Json, i: nat, b: Budget, depth: nat, path: string, red: seq<string>,
                                      done: seq<Json>, sensitive: string -> bool)
    requires v.List? && i <= |v.items| && Solvent(b)
    ensures Spends(b, SanitizeItems(v, i, b, depth, path, red, done, sensitive).budget)
    decreases v, |v.items| - i
  {
    if i < |v.items| && b.nodes > 0 && b.bytes > 0 {
      var r := Sanitize(v.items[i], b, depth + 1, ItemPath(path, i), red, sensitive);
      BudgetNeverNegative(v.items[i], b, depth + 1, ItemPath(path, i), red, sensitive);
      ItemsSpend(v, i + 1, r.budget, depth, path, r.redactions, done + [r.value], sensitive);
    }
  }

  // ---------------------------------------------------------------- no sensitive key at any depth

  predicate Clean(v: Json, sensitive: string -> bool) {
    match v
    case Obj(ms) => forall i :: 0 <= i < |ms| ==> !sensitive(ms[i].key) && Clean(ms[i].value, sensitive)
    case List(xs) => forall i :: 0 <= i < |xs| ==> Clean(xs[i], sensitive)
    case _ => true
  }

  predicate CleanMembers(ms: seq<Member>, sensitive: string -> bool) {
    forall i :: 0 <= i < |ms| ==> !sensitive(ms[i].key) && Clean(ms[i].value, sensitive)
  }

  predicate CleanItems(xs: seq<Json>, sensitive: string -> bool) {
    forall i :: 0 <= i < |xs| ==> Clean(xs[i], sensitive)
  }

  /** The names the sanitizer itself writes are not sensitive. */
  predicate PlainMarkers(sensitive: string -> bool) {
    !sensitive(TRUNCATED) && !sensitive(SANITIZER_TRUNCATED) && !sensitive(OMITTED_COUNT) &&
    !sensitive(ORIGINAL_BYTES) && !sensitive(PREVIEW)
  }

  lemma {:induction false} PutClean(ms: seq<Member>, key: string, value: Json, sensitive: string -> bool)
    requires CleanMembers(ms, sensitive) && !sensitive(key) && Clean(value, sensitive)
    ensures CleanMembers(Put(ms, key, value), sensitive)
  {
    if ms != [] && ms[0].key != key {
      PutClean(ms[1..], key, value, sensitive);
    }
  }

  lemma MarkedClean(ms: seq<Member>, omitted: nat, sensitive: string -> bool)
    requires CleanMembers(ms, sensitive) && PlainMarkers(sensitive)
    ensures Clean(Obj(Marked(ms, omitted)), sensitive)
  {
    var a := Put(ms, SANITIZER_TRUNCATED, Str("max_bytes"));
    PutClean(ms, SANITIZER_TRUNCATED, Str("max_bytes"), sensitive);
    var b := Put(a, TRUNCATED, Bool(true));
    PutClean(a, TRUNCATED, Bool(true), sensitive);
    PutClean(b, OMITTED_COUNT, Num(Decimal(omitted)), sensitive);
  }

  lemma {:induction false} NoSensitiveKeySurvives(v: Json, b: Budget, depth: nat, path: string, red: seq<string>, sensitive: string -> bool)
    requires PlainMarkers(sensitive)
    ensures Clean(Sanitize(v, b, depth, path, red, sensitive).value, sensitive)
    decreases v, Width(v) + 1
  {
    if depth < SANITIZE_MAX_DEPTH && b.nodes > 0 {
      var b1 := b.(nodes := b.nodes - 1);
      if v.Obj? {
        MembersClean(v, 0, b1, depth, path, red, [], sensitive);
      } else if v.List? {
        ItemsClean(v, 0, b1, depth, path, red, [], sensitive);
      }
    }
  }

  lemma {:induction false} MembersClean(v: Json, i: nat, b: Budget, depth: nat, path: string, red: seq<string>,
                                        done: seq<Member>, sensitive: string -> bool)
    requires v.Obj? && i <= |v.members| && PlainMarkers(sensitive) && CleanMembers(done, sensitive)
    ensures Clean(SanitizeMembers(v, i, b, depth, path, red, done, sensitive).value, sensitive)
    decreases v, |v.members| - i
  {
    if i < |v.members| {
      var m := v.members[i];
      var child := MemberPath(path, m.key);
      if sensitive(m.key) {
        MembersClean(v, i + 1, b, depth, path, red + [child], done, sensitive);
      } else if Bytes(m.key) > b.bytes {
        MarkedClean(done, |v.members| - i, sensitive);
      } else {
        var b1 := Spend(b, Bytes(m.key));
        var r := Sanitize(m.value, b1, depth + 1, child, red, sensitive);
        NoSensitiveKeySurvives(m.value, b1, depth + 1, child, red, sensitive);
        var more := done + [Member(m.key, r.value)];
        MarkedClean(more, |v.members| - i - 1, sensitive);
        MembersClean(v, i + 1, r.budget, depth, path, r.redactions, more, sensitive);
      }
    }
  }

  lemma {:induction false} ItemsClean(v: Json, i: nat, b: Budget, depth: nat, path: string, red: seq<string>,
                                      done: seq<Json>, sensitive: string -> bool)
    requires v.List? && i <= |v.items| && PlainMarkers(sensitive) && CleanItems(done, sensitive)
    ensures Clean(SanitizeItems(v, i, b, depth, path, red, done, sensitive).value, sensitive)
    decreases v, |v.items| - i
  {
    if i < |v.items| && b.nodes > 0 && b.bytes > 0 {
      var r := Sanitize(v.items[i], b, depth + 1, ItemPath(path, i), red, sensitive);
      NoSensitiveKeySurvives(v.items[i], b, depth + 1, ItemPath(path, i), red, sensitive);
      ItemsClean(v, i + 1, r.budget, depth, path, r.redactions, done + [r.value], sensitive);
    }
  }

  // ---------------------------------------------------------------- the depth of what is returned

  /** Levels of containers. */
  predicate Within(v: Json, levels: nat) {
    match v
    case Obj(ms) => levels > 0 && forall i :: 0 <= i < |ms| ==> Within(ms[i].value, levels - 1)
    case List(xs) => levels > 0 && forall i :: 0 <= i < |xs| ==> Within(xs[i], levels - 1)
    case _ => true
  }

  predicate MembersWithin(ms: seq<Member>, levels: nat) {
    forall i :: 0 <= i < |ms| ==> Within(ms[i].value, levels)
  }

  predicate ItemsWithin(xs: seq<Json>, levels: nat) {
    forall i :: 0 <= i < |xs| ==> Within(xs[i], levels)
  }

  lemma {:induction false} PutWithin(ms: seq<Member>, key: string, value: Json, levels: nat)
    requires MembersWithin(ms, levels) && Within(value, levels)
    ensures MembersWithin(Put(ms, key, value), levels)
  {
    if ms != [] && ms[0].key != key {
      PutWithin(ms[1..], key, value, levels);
    }
  }

  lemma MarkedWithin(ms: seq<Member>, omitted: nat, levels: nat)
    requires MembersWithin(ms, levels)
    ensures Within(Obj(Marked(ms, omitted)), levels + 1)
  {
    var a := Put(ms, SANITIZER_TRUNCATED, Str("max_bytes"));
    PutWithin(ms, SANITIZER_TRUNCATED, Str("max_bytes"), levels);
    var b := Put(a, TRUNCATED, Bool(true));
    PutWithin(a, TRUNCATED, Bool(true), levels);
    PutWithin(b, OMITTED_COUNT, Num(Decimal(omitted)), levels);
  }

  /** The recursion stops at depth 64, so what comes back is at most that deep, markers included. */
  lemma {:induction false} DepthIsBounded(v: Json, b: Budget, depth: nat, path: string, red: seq<string>, sensitive: string -> bool)
    requires depth <= SANITIZE_MAX_DEPTH
    ensures Within(Sanitize(v, b, depth, path, red, sensitive).value, 65 - depth)
    decreases v, Width(v) + 1
  {
    if depth < SANITIZE_MAX_DEPTH && b.nodes > 0 {
      var b1 := b.(nodes := b.nodes - 1);
      if v.Obj? {
        MembersDepth(v, 0, b1, depth, path, red, [], sensitive);
      } else if v.List? {
        ItemsDepth(v, 0, b1, depth, path, red, [], sensitive);
      }
    }
  }

  lemma {:induction false} MembersDepth(v: Json, i: nat, b: Budget, depth: nat, path: string, red: seq<string>,
                                        done: seq<Member>, sensitive: string -> bool)
    requires v.Obj? && i <= |v.members| && depth < SANITIZE_MAX_DEPTH && MembersWithin(done, SANITIZE_MAX_DEPTH - depth)
    ensures Within(SanitizeMembers(v, i, b, depth, path, red, done, sensitive).value, SANITIZE_MAX_DEPTH + 1 - depth)
    decreases v, |v.members| - i
  {
    if i < |v.members| {
      var m := v.members[i];
      var child := MemberPath(path, m.key);
      if sensitive(m.key) {
        MembersDepth(v, i + 1, b, depth, path, red + [child], done, sensitive);
      } else if Bytes(m.key) > b.bytes {
        MarkedWithin(done, |v.members| - i, SANITIZE_MAX_DEPTH - depth);
      } else {
        var b1 := Spend(b, Bytes(m.key));
        var r := Sanitize(m.value, b1, depth + 1, child, red, sensitive);
        DepthIsBounded(m.value, b1, depth + 1, child, red, sensitive);
        var more := done + [Member(m.key, r.value)];
        MarkedWithin(more, |v.members| - i - 1, SANITIZE_MAX_DEPTH - depth);
        MembersDepth(v, i + 1, r.budget, depth, path, r.redactions, more, sensitive);
      }
    }
  }

  lemma {:induction false} ItemsDepth(v: Json, i: nat, b: Budget, depth: nat, path: string, red: seq<string>,
                                      done: seq<Json>, sensitive: string -> bool)
    requires v.List? && i <= |v.items| && depth < SANITIZE_MAX_DEPTH && ItemsWithin(done, SANITIZE_MAX_DEPTH - depth)
    ensures Within(SanitizeItems(v, i, b, depth, path, red, done, sensitive).value, SANITIZE_MAX_DEPTH + 1 - depth)
    decreases v, |v.items| - i
  {
    if i < |v.items| && b.nodes > 0 && b.bytes > 0 {
      var r := Sanitize(v.items[i], b, depth + 1, ItemPath(path, i), red, sensitive);
      DepthIsBounded(v.items[i], b, depth + 1, ItemPath(path, i), red, sensitive);
      ItemsDepth(v, i + 1, r.budget, depth, path, r.redactions, done + [r.value], sensitive);
    }
  }
}
