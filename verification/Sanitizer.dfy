/** mcp_server/access_records.py: the budgeted sanitizer of captured payloads. */
module Sanitizer {
  import opened Json

  const SANITIZE_MAX_DEPTH := 64
  const SANITIZE_MAX_NODES := 50000

  datatype Budget = Budget(bytes: int, nodes: int, truncated: bool)

  /** The value returned, the budget left, and the redaction list as it then is. */
  datatype Out = Out(value: Json, budget: Budget, redactions: seq<string>)

  const TRUNCATED := "__truncated__"
  const SANITIZER_TRUNCATED := "__sanitizer_truncated__"
  const OMITTED_COUNT := "__omitted_count__"
  const ORIGINAL_BYTES := "__original_bytes__"
  const PREVIEW := "__preview__"

  function Marker(reason: string): Json {
    Obj([Member(TRUNCATED, Bool(true)), Member(SANITIZER_TRUNCATED, Str(reason))])
  }

  function Marked(members: seq<Member>, omitted: nat): seq<Member> {
    Put(Put(Put(members, SANITIZER_TRUNCATED, Str("max_bytes")), TRUNCATED, Bool(true)), OMITTED_COUNT, Num(Decimal(omitted)))
  }

  function RestMarker(reason: string, omitted: nat): Json {
    Obj([Member(TRUNCATED, Bool(true)), Member(SANITIZER_TRUNCATED, Str(reason)), Member(OMITTED_COUNT, Num(Decimal(omitted)))])
  }

  function TextMarker(s: string, bytes: nat): Json {
    Obj([Member(TRUNCATED, Bool(true)), Member(SANITIZER_TRUNCATED, Str("max_bytes")),
         Member(ORIGINAL_BYTES, Num(Decimal(Bytes(s)))), Member(PREVIEW, Str(Preview(s, bytes)))])
  }

  /** What `consume` charges: the UTF-8 length of `str(value)`. */
  function Charge(v: Json): nat {
    match v
    case Null => 4
    case Bool(b) => if b then 4 else 5
    case Num(text) => Bytes(text)
    case Str(s) => Bytes(s)
    case _ => 0
  }

  function Spend(b: Budget, size: nat): Budget {
    if size > b.bytes then b.(truncated := true) else b.(bytes := b.bytes - size)
  }

  function Width(v: Json): nat {
    match v case Obj(ms) => |ms| case List(xs) => |xs| case _ => 0
  }

  function MemberPath(path: string, key: string): string {
    if path == [] then key else path + "." + key
  }

  function ItemPath(path: string, i: nat): string {
    path + "[" + Decimal(i) + "]"
  }

  // ---------------------------------------------------------------- what the traversal computes

  /** `_sanitize_json`; `sensitive` is `_sensitive_key`. */
  function Sanitize(v: Json, b: Budget, depth: nat, path: string, red: seq<string>, sensitive: string -> bool): Out
    decreases v, Width(v) + 1
  {
    if depth >= SANITIZE_MAX_DEPTH then Out(Marker("max_depth"), b.(truncated := true), red)
    else if b.nodes <= 0 then Out(Marker("max_nodes"), b.(truncated := true), red)
    else
      var b1 := b.(nodes := b.nodes - 1);
      if v.Obj? then SanitizeMembers(v, 0, b1, depth, path, red, [], sensitive)
      else if v.List? then SanitizeItems(v, 0, b1, depth, path, red, [], sensitive)
      else SanitizeScalar(v, b1, red)
  }

  function SanitizeScalar(v: Json, b: Budget, red: seq<string>): Out {
    if Charge(v) <= b.bytes then Out(v, Spend(b, Charge(v)), red)
    else if v.Str? then Out(TextMarker(v.s, if b.bytes < 0 then 0 else b.bytes), b.(bytes := 0, truncated := true), red)
    else Out(Marker("max_bytes"), b.(truncated := true), red)
  }

  /** The loop over a dictionary, from its `i`-th member on; `done` is what it has built. */
  function SanitizeMembers(v: Json, i: nat, b: Budget, depth: nat, path: string, red: seq<string>, done: seq<Member>,
                           sensitive: string -> bool): Out
    requires v.Obj? && i <= |v.members|
    decreases v, |v.members| - i
  {
    if i == |v.members| then Out(Obj(done), b, red)
    else
      var m := v.members[i];
      var child := MemberPath(path, m.key);
      if sensitive(m.key) then SanitizeMembers(v, i + 1, b, depth, path, red + [child], done, sensitive)
      else if Bytes(m.key) > b.bytes then Out(Obj(Marked(done, |v.members| - i)), b.(truncated := true), red)
      else
        var r := Sanitize(m.value, Spend(b, Bytes(m.key)), depth + 1, child, red, sensitive);
        var more := done + [Member(m.key, r.value)];
        if r.budget.truncated && r.budget.bytes <= 0 then
          Out(Obj(Marked(more, |v.members| - i - 1)), r.budget, r.redactions)
        else SanitizeMembers(v, i + 1, r.budget, depth, path, r.redactions, more, sensitive)
  }

  /** The loop over a list. */
  function SanitizeItems(v: Json, i: nat, b: Budget, depth: nat, path: string, red: seq<string>, done: seq<Json>,
                         sensitive: string -> bool): Out
    requires v.List? && i <= |v.items|
    decreases v, |v.items| - i
  {
    if i == |v.items| then Out(List(done), b, red)
    else if b.nodes <= 0 || b.bytes <= 0 then
      Out(List(done + [RestMarker(if b.nodes <= 0 then "max_nodes" else "max_bytes", |v.items| - i)]),
          b.(truncated := true), red)
    else
      var r := Sanitize(v.items[i], b, depth + 1, ItemPath(path, i), red, sensitive);
      SanitizeItems(v, i + 1, r.budget, depth, path, r.redactions, done + [r.value], sensitive)
  }

  // ---------------------------------------------------------------- the code, updating its budget in place

  class SanitizeBudget {
    var remainingBytes: int
    var remainingNodes: int
    var truncated: bool

    constructor (maxBytes: nat)
      ensures View() == Budget(maxBytes, SANITIZE_MAX_NODES, false)
    {
      remainingBytes := maxBytes;
      remainingNodes := SANITIZE_MAX_NODES;
      truncated := false;
    }

    function View(): Budget
      reads this
    {
      Budget(remainingBytes, remainingNodes, truncated)
    }

    method Enter() returns (ok: bool)
      modifies this
      ensures ok == (old(remainingNodes) > 0)
      ensures View() == if ok then old(View()).(nodes := old(remainingNodes) - 1) else old(View()).(truncated := true)
    {
      if remainingNodes <= 0 {
        truncated := true;
        return false;
      }
      remainingNodes := remainingNodes - 1;
      return true;
    }

    method Consume(size: nat) returns (ok: bool)
      modifies this
      ensures ok == (size <= old(remainingBytes)) && View() == Spend(old(View()), size)
    {
      if size > remainingBytes {
        truncated := true;
        return false;
      }
      remainingBytes := remainingBytes - size;
      return true;
    }
  }

  method SanitizeJson(v: Json, budget: SanitizeBudget, depth: nat, path: string, red: seq<string>, sensitive: string -> bool)
    returns (value: Json, redactions: seq<string>)
    modifies budget
    ensures Out(value, budget.View(), redactions) == Sanitize(v, old(budget.View()), depth, path, red, sensitive)
    decreases v, 1
  {
    redactions := red;
    if depth >= SANITIZE_MAX_DEPTH {
      budget.truncated := true;
      return Marker("max_depth"), red;
    }
    var ok := budget.Enter();
    if !ok {
      return Marker("max_nodes"), red;
    }
    if v.Obj? {
      value, redactions := SanitizeDict(v, budget, depth, path, red, sensitive);
      return;
    }
    if v.List? {
      value, redactions := SanitizeList(v, budget, depth, path, red, sensitive);
      return;
    }
    ok := budget.Consume(Charge(v));
    if ok {
      return v, red;
    }
    if !v.Str? {
      return Marker("max_bytes"), red;
    }
    value := TextMarker(v.s, if budget.remainingBytes < 0 then 0 else budget.remainingBytes);
    budget.remainingBytes := 0;
  }

  method SanitizeDict(v: Json, budget: SanitizeBudget, depth: nat, path: string, red: seq<string>, sensitive: string -> bool)
    returns (value: Json, redactions: seq<string>)
    requires v.Obj?
    modifies budget
    ensures Out(value, budget.View(), redactions)
         == SanitizeMembers(v, 0, old(budget.View()), depth, path, red, [], sensitive)
    decreases v, 0
  {
    redactions := red;
    var sanitized: seq<Member> := [];
    var index := 0;
    ghost var result := SanitizeMembers(v, 0, budget.View(), depth, path, red, [], sensitive);
    while index < |v.members|
      invariant 0 <= index <= |v.members|
      invariant result == SanitizeMembers(v, index, budget.View(), depth, path, redactions, sanitized, sensitive)
    {
      var m := v.members[index];
      var childPath := MemberPath(path, m.key);
      if sensitive(m.key) {
        redactions := redactions + [childPath];
      } else {
        var ok := budget.Consume(Bytes(m.key));
        if !ok {
          return Obj(Marked(sanitized, |v.members| - index)), redactions;
        }
        var child;
        child, redactions := SanitizeJson(m.value, budget, depth + 1, childPath, redactions, sensitive);
        sanitized := sanitized + [Member(m.key, child)];
        if budget.truncated && budget.remainingBytes <= 0 {
          return Obj(Marked(sanitized, |v.members| - index - 1)), redactions;
        }
      }
      index := index + 1;
    }
    value := Obj(sanitized);
  }

  method SanitizeList(v: Json, budget: SanitizeBudget, depth: nat, path: string, red: seq<string>, sensitive: string -> bool)
    returns (value: Json, redactions: seq<string>)
    requires v.List?
    modifies budget
    ensures Out(value, budget.View(), redactions)
         == SanitizeItems(v, 0, old(budget.View()), depth, path, red, [], sensitive)
    decreases v, 0
  {
    redactions := red;
    var sanitized: seq<Json> := [];
    var index := 0;
    ghost var result := SanitizeItems(v, 0, budget.View(), depth, path, red, [], sensitive);
    while index < |v.items|
      invariant 0 <= index <= |v.items|
      invariant result == SanitizeItems(v, index, budget.View(), depth, path, redactions, sanitized, sensitive)
    {
      if budget.remainingNodes <= 0 || budget.remainingBytes <= 0 {
        budget.truncated := true;
        var reason := if budget.remainingNodes <= 0 then "max_nodes" else "max_bytes";
        return List(sanitized + [RestMarker(reason, |v.items| - index)]), redactions;
      }
      var child;
      child, redactions := SanitizeJson(v.items[index], budget, depth + 1, ItemPath(path, index), redactions, sensitive);
      sanitized := sanitized + [child];
      index := index + 1;
    }
    value := List(sanitized);
  }
}
