/** mcp_server/access_records.py: what the sanitizer reports about the keys it removes, and the markers it leaves. */
module RedactionPaths {
  import B = BoundedJson
  import opened Json
  import opened Sanitizer
  import opened SanitizerExact

  /** One step down into a value. */
  datatype Turn = Key(key: string) | Index(i: nat)

  /** The turns lead to a key that is removed, through keys that are not. */
  predicate Leads(v: Json, turns: seq<Turn>, sensitive: string -> bool)
    decreases |turns|
  {
    turns != [] &&
    match turns[0]
    case Key(key) =>
      v.Obj? && exists i :: 0 <= i < |v.members| && v.members[i].key == key &&
                            if |turns| == 1 then sensitive(key) else !sensitive(key) && Leads(v.members[i].value, turns[1..], sensitive)
    case Index(i) => v.List? && i < |v.items| && Leads(v.items[i], turns[1..], sensitive)
  }

  /** The turns written out: a dot before every key but a leading one, brackets around every index. */
  function Written(from: string, turns: seq<Turn>): string
    decreases |turns|
  {
    if turns == [] then from
    else
      match turns[0]
      case Key(key) => Written(if |from| > 0 then from + "." + key else key, turns[1..])
      case Index(i) => Written(from + "[" + Decimal(i) + "]", turns[1..])
  }

  lemma OneTurn(from: string, turn: Turn, rest: seq<Turn>)
    ensures Written(from, [turn] + rest)
         == Written(if turn.Key? then MemberPath(from, turn.key) else ItemPath(from, turn.i), rest)
  {
    assert ([turn] + rest)[1..] == rest;
  }

  lemma {:induction false} PathsAreTurns(v: Json, from: string, p: string, sensitive: string -> bool) returns (turns: seq<Turn>)
    requires p in Paths(v, from, sensitive)
    ensures Leads(v, turns, sensitive) && p == Written(from, turns)
    decreases v, Width(v) + 1
  {
    if v.Obj? {
      turns := MemberPathsAreTurns(v, 0, from, p, sensitive);
    } else {
      turns := ItemPathsAreTurns(v, 0, from, p, sensitive);
    }
  }

  lemma {:induction false} MemberPathsAreTurns(v: Json, i: nat, from: string, p: string, sensitive: string -> bool)
    returns (turns: seq<Turn>)
    requires v.Obj? && i <= |v.members| && p in MemberPaths(v, i, from, sensitive)
    ensures Leads(v, turns, sensitive) && p == Written(from, turns)
    decreases v, |v.members| - i
  {
    var m := v.members[i];
    var child := MemberPath(from, m.key);
    if p in MemberPaths(v, i + 1, from, sensitive) {
      turns := MemberPathsAreTurns(v, i + 1, from, p, sensitive);
    } else if sensitive(m.key) {
      turns := [Key(m.key)];
      OneTurn(from, Key(m.key), []);
      assert [Key(m.key)] + [] == turns;
    } else {
      var rest := PathsAreTurns(m.value, child, p, sensitive);
      turns := [Key(m.key)] + rest;
      OneTurn(from, Key(m.key), rest);
      assert turns[1..] == rest;
    }
  }

  lemma {:induction false} ItemPathsAreTurns(v: Json, i: nat, from: string, p: string, sensitive: string -> bool)
    returns (turns: seq<Turn>)
    requires v.List? && i <= |v.items| && p in ItemPaths(v, i, from, sensitive)
    ensures Leads(v, turns, sensitive) && p == Written(from, turns)
    decreases v, |v.items| - i
  {
    if p in ItemPaths(v, i + 1, from, sensitive) {
      turns := ItemPathsAreTurns(v, i + 1, from, p, sensitive);
    } else {
      var rest := PathsAreTurns(v.items[i], ItemPath(from, i), p, sensitive);
      turns := [Index(i)] + rest;
      OneTurn(from, Index(i), rest);
      assert turns[1..] == rest;
    }
  }

  lemma {:induction false} LaterMemberPaths(v: Json, i: nat, j: nat, from: string, sensitive: string -> bool)
    requires v.Obj? && i <= j < |v.members|
    ensures var child := MemberPath(from, v.members[j].key);
            forall p :: p in (if sensitive(v.members[j].key) then [child] else Paths(v.members[j].value, child, sensitive)) ==>
              p in MemberPaths(v, i, from, sensitive)
    decreases j - i
  {
    if i < j {
      LaterMemberPaths(v, i + 1, j, from, sensitive);
    }
  }

  lemma {:induction false} LaterItemPaths(v: Json, i: nat, j: nat, from: string, sensitive: string -> bool)
    requires v.List? && i <= j < |v.items|
    ensures forall p :: p in Paths(v.items[j], ItemPath(from, j), sensitive) ==> p in ItemPaths(v, i, from, sensitive)
    decreases j - i
  {
    if i < j {
      LaterItemPaths(v, i + 1, j, from, sensitive);
    }
  }

  lemma {:induction false} TurnsArePaths(v: Json, from: string, turns: seq<Turn>, sensitive: string -> bool)
    requires Leads(v, turns, sensitive)
    ensures Written(from, turns) in Paths(v, from, sensitive)
    decreases |turns|
  {
    var rest := turns[1..];
    OneTurn(from, turns[0], rest);
    assert [turns[0]] + rest == turns;
    if turns[0].Key? {
      var key := turns[0].key;
      var j :| 0 <= j < |v.members| && v.members[j].key == key &&
               if |turns| == 1 then sensitive(key) else !sensitive(key) && Leads(v.members[j].value, rest, sensitive);
      LaterMemberPaths(v, 0, j, from, sensitive);
      if |turns| > 1 {
        TurnsArePaths(v.members[j].value, MemberPath(from, key), rest, sensitive);
      }
    } else {
      LaterItemPaths(v, 0, turns[0].i, from, sensitive);
      TurnsArePaths(v.items[turns[0].i], ItemPath(from, turns[0].i), rest, sensitive);
    }
  }

  /** An untruncated capture reports exactly the ways to the keys it removed. */
  lemma ReportedIff(v: Json, maxBytes: nat, p: string, sensitive: string -> bool)
    requires !Sanitize(v, Fresh(maxBytes), 0, "", [], sensitive).budget.truncated
    ensures p in Sanitize(v, Fresh(maxBytes), 0, "", [], sensitive).redactions
       <==> exists turns :: Leads(v, turns, sensitive) && p == Written("", turns)
  {
    UntruncatedIsRedacted(v, Fresh(maxBytes), 0, "", [], sensitive);
    assert [] + Paths(v, "", sensitive) == Paths(v, "", sensitive);
    if p in Paths(v, "", sensitive) {
      var turns := PathsAreTurns(v, "", p, sensitive);
    }
    if turns :| Leads(v, turns, sensitive) && p == Written("", turns) {
      TurnsArePaths(v, "", turns, sensitive);
    }
  }

  // ---------------------------------------------------------------- markers

  /** What a scalar is written as by `str()`. */
  function Shown(v: Json): string {
    match v
    case Null => "None"
    case Bool(b) => if b then "True" else "False"
    case Num(text) => text
    case Str(s) => s
    case _ => ""
  }

  lemma {:induction false} PlainBytes(s: string)
    requires forall i :: 0 <= i < |s| ==> s[i] < '\U{80}'
    ensures Bytes(s) == |s|
  {
    if s != [] {
      PlainBytes(s[..|s| - 1]);
    }
  }

  /** A scalar is charged the bytes of its text. */
  lemma ChargeIsText(v: Json)
    ensures Charge(v) == Bytes(Shown(v))
  {
    PlainBytes("None");
    PlainBytes("True");
    PlainBytes("False");
  }

  /** What stands in the place of a value that could not be taken, and why. */
  lemma MarkersTell(v: Json, b: Budget, depth: nat, path: string, red: seq<string>, sensitive: string -> bool)
    requires b.bytes >= 0
    ensures var r := Sanitize(v, b, depth, path, red, sensitive);
            && (depth >= 64 ==>
                  r.value == Obj([Member("__truncated__", Bool(true)), Member("__sanitizer_truncated__", Str("max_depth"))]))
            && (depth < 64 && b.nodes <= 0 ==>
                  r.value == Obj([Member("__truncated__", Bool(true)), Member("__sanitizer_truncated__", Str("max_nodes"))]))
            && (depth < 64 && b.nodes > 0 && !v.Obj? && !v.List? && !v.Str? && Bytes(Shown(v)) > b.bytes ==>
                  r.value == Obj([Member("__truncated__", Bool(true)), Member("__sanitizer_truncated__", Str("max_bytes"))]))
            && (depth < 64 && b.nodes > 0 && v.Str? && Bytes(v.s) > b.bytes ==>
                  && r.value == Obj([Member("__truncated__", Bool(true)), Member("__sanitizer_truncated__", Str("max_bytes")),
                                     Member("__original_bytes__", Num(Decimal(Bytes(v.s)))),
                                     Member("__preview__", Str(Preview(v.s, b.bytes)))])
                  && r.budget.bytes == 0)
  {
    ChargeIsText(v);
  }

  /** Where a list is cut, a last item says why and how many are left out. */
  lemma CutListTells(v: Json, i: nat, b: Budget, depth: nat, path: string, red: seq<string>, done: seq<Json>,
                     sensitive: string -> bool)
    requires v.List? && i < |v.items| && (b.nodes <= 0 || b.bytes <= 0)
    ensures SanitizeItems(v, i, b, depth, path, red, done, sensitive)
         == Out(List(done + [Obj([Member("__truncated__", Bool(true)),
                                  Member("__sanitizer_truncated__", Str(if b.nodes <= 0 then "max_nodes" else "max_bytes")),
                                  Member("__omitted_count__", Num(Decimal(|v.items| - i)))])]),
                b.(truncated := true), red)
  {
  }

  predicate Says(ms: seq<Member>, key: string, value: Json) {
    Has(ms, key) && B.Get(ms, key) == value
  }

  lemma MarkedTells(ms: seq<Member>, omitted: nat, other: string)
    ensures var marked := Marked(ms, omitted);
            && Says(marked, "__truncated__", Bool(true)) && Says(marked, "__sanitizer_truncated__", Str("max_bytes"))
            && Says(marked, "__omitted_count__", Num(Decimal(omitted)))
            && (other !in {"__truncated__", "__sanitizer_truncated__", "__omitted_count__"} ==>
                  forall value :: Says(marked, other, value) <==> Says(ms, other, value))
  {
    var a := Put(ms, SANITIZER_TRUNCATED, Str("max_bytes"));
    var b := Put(a, TRUNCATED, Bool(true));
    forall key | key in {other, TRUNCATED, SANITIZER_TRUNCATED, OMITTED_COUNT}
      ensures Has(a, key) <==> key == SANITIZER_TRUNCATED || Has(ms, key)
      ensures Has(b, key) <==> key == TRUNCATED || Has(a, key)
      ensures Has(Marked(ms, omitted), key) <==> key == OMITTED_COUNT || Has(b, key)
      ensures key != SANITIZER_TRUNCATED && Has(ms, key) ==> B.Get(a, key) == B.Get(ms, key)
      ensures key != TRUNCATED && Has(a, key) ==> B.Get(b, key) == B.Get(a, key)
      ensures key != OMITTED_COUNT && Has(b, key) ==> B.Get(Marked(ms, omitted), key) == B.Get(b, key)
    {
      B.PutGet(ms, SANITIZER_TRUNCATED, Str("max_bytes"), key);
      B.PutGet(a, TRUNCATED, Bool(true), key);
      B.PutGet(b, OMITTED_COUNT, Num(Decimal(omitted)), key);
    }
    B.PutGet(ms, SANITIZER_TRUNCATED, Str("max_bytes"), other);
    B.PutGet(a, TRUNCATED, Bool(true), other);
    B.PutGet(b, OMITTED_COUNT, Num(Decimal(omitted)), other);
  }

  /** Where a dictionary is cut at a key, it says so among its members, with the number left out. */
  lemma CutDictTells(v: Json, i: nat, b: Budget, depth: nat, path: string, red: seq<string>, done: seq<Member>,
                     sensitive: string -> bool)
    requires v.Obj? && i < |v.members| && !sensitive(v.members[i].key) && Bytes(v.members[i].key) > b.bytes
    ensures var r := SanitizeMembers(v, i, b, depth, path, red, done, sensitive);
            && r.budget == b.(truncated := true) && r.redactions == red && r.value.Obj?
            && Says(r.value.members, "__truncated__", Bool(true))
            && Says(r.value.members, "__sanitizer_truncated__", Str("max_bytes"))
            && Says(r.value.members, "__omitted_count__", Num(Decimal(|v.members| - i)))
  {
    MarkedTells(done, |v.members| - i, "");
  }
}
