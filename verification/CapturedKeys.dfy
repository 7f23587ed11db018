/** mcp_server/access_records.py: which keys of a payload are in its capture. */
module CapturedKeys {
  import opened Json
  import opened Sanitizer
  import opened SanitizerExact
  import opened SanitizerLaws
  import opened SensitiveKeys

  /** The key occurs somewhere in the value, at any depth. */
  predicate KeyIn(v: Json, key: string) {
    match v
    case Obj(ms) => exists i :: 0 <= i < |ms| && (ms[i].key == key || KeyIn(ms[i].value, key))
    case List(xs) => exists i :: 0 <= i < |xs| && KeyIn(xs[i], key)
    case _ => false
  }

  /** It occurs, is not marked itself and is not below a marked key. */
  ghost predicate KeyInTheOpen(v: Json, key: string, fold: char -> string) {
    match v
    case Obj(ms) => exists i :: 0 <= i < |ms| && !ShowsMarker(ms[i].key, fold) && (ms[i].key == key || KeyInTheOpen(ms[i].value, key, fold))
    case List(xs) => exists i :: 0 <= i < |xs| && KeyInTheOpen(xs[i], key, fold)
    case _ => false
  }

  function Flag(fold: char -> string): string -> bool {
    key => SensitiveKey(key, fold)
  }

  lemma {:induction false} CleanHasNoMarked(v: Json, key: string, fold: char -> string)
    requires Clean(v, Flag(fold)) && KeyIn(v, key)
    ensures !ShowsMarker(key, fold)
  {
    SensitiveIffMarked(key, fold);
    if v.Obj? {
      var i :| 0 <= i < |v.members| && (v.members[i].key == key || KeyIn(v.members[i].value, key));
      if v.members[i].key != key {
        CleanHasNoMarked(v.members[i].value, key, fold);
      }
    } else if v.List? {
      var i :| 0 <= i < |v.items| && KeyIn(v.items[i], key);
      CleanHasNoMarked(v.items[i], key, fold);
    }
  }

  /** `_sanitize_json` with `_sensitive_key`: at no depth does a capture hold a key in whose casefolded letters
      and digits a marker stands. */
  lemma NoMarkedKeyIsCaptured(v: Json, b: Budget, key: string, fold: char -> string)
    requires KeyIn(Sanitize(v, b, 0, "", [], Flag(fold)).value, key)
    ensures !ShowsMarker(key, fold)
  {
    OwnNamesArePlain(fold);
    assert PlainMarkers(Flag(fold));
    NoSensitiveKeySurvives(v, b, 0, "", [], Flag(fold));
    CleanHasNoMarked(Sanitize(v, b, 0, "", [], Flag(fold)).value, key, fold);
  }

  // ---------------------------------------------------------------- nothing else is removed

  lemma {:induction false} RedactedKeys(v: Json, key: string, fold: char -> string)
    ensures KeyIn(Redacted(v, Flag(fold)), key) <==> KeyInTheOpen(v, key, fold)
    decreases v, Width(v) + 1
  {
    if v.Obj? {
      RedactedMemberKeys(v, 0, key, fold);
    } else if v.List? {
      RedactedItemKeys(v, 0, key, fold);
    }
  }

  predicate KeyInMembers(ms: seq<Member>, key: string) {
    exists j :: 0 <= j < |ms| && (ms[j].key == key || KeyIn(ms[j].value, key))
  }

  ghost predicate MemberInTheOpen(v: Json, i: nat, key: string, fold: char -> string)
    requires v.Obj?
  {
    exists j :: i <= j < |v.members| && !ShowsMarker(v.members[j].key, fold)
                && (v.members[j].key == key || KeyInTheOpen(v.members[j].value, key, fold))
  }

  lemma KeyInMore(m: Member, ms: seq<Member>, key: string)
    ensures KeyInMembers([m] + ms, key) <==> m.key == key || KeyIn(m.value, key) || KeyInMembers(ms, key)
  {
    var all := [m] + ms;
    if m.key == key || KeyIn(m.value, key) {
      assert all[0] == m;
    } else if j :| 0 <= j < |ms| && (ms[j].key == key || KeyIn(ms[j].value, key)) {
      assert all[j + 1] == ms[j];
    }
  }

  lemma FirstInTheOpen(v: Json, i: nat, key: string, fold: char -> string)
    requires v.Obj? && i < |v.members|
    ensures MemberInTheOpen(v, i, key, fold)
       <==> || MemberInTheOpen(v, i + 1, key, fold)
            || (!ShowsMarker(v.members[i].key, fold)
                && (v.members[i].key == key || KeyInTheOpen(v.members[i].value, key, fold)))
  {
  }

  lemma {:induction false} RedactedMemberKeys(v: Json, i: nat, key: string, fold: char -> string)
    requires v.Obj? && i <= |v.members|
    ensures KeyInMembers(RedactedMembers(v, i, Flag(fold)), key) <==> MemberInTheOpen(v, i, key, fold)
    decreases v, |v.members| - i
  {
    if i < |v.members| {
      var m := v.members[i];
      SensitiveIffMarked(m.key, fold);
      RedactedMemberKeys(v, i + 1, key, fold);
      FirstInTheOpen(v, i, key, fold);
      if !SensitiveKey(m.key, fold) {
        RedactedKeys(m.value, key, fold);
        KeyInMore(Member(m.key, Redacted(m.value, Flag(fold))), RedactedMembers(v, i + 1, Flag(fold)), key);
      }
    }
  }

  predicate KeyInItems(xs: seq<Json>, key: string) {
    exists j :: 0 <= j < |xs| && KeyIn(xs[j], key)
  }

  ghost predicate ItemInTheOpen(v: Json, i: nat, key: string, fold: char -> string)
    requires v.List?
  {
    exists j :: i <= j < |v.items| && KeyInTheOpen(v.items[j], key, fold)
  }

  lemma KeyInMoreItems(x: Json, xs: seq<Json>, key: string)
    ensures KeyInItems([x] + xs, key) <==> KeyIn(x, key) || KeyInItems(xs, key)
  {
    var all := [x] + xs;
    if KeyIn(x, key) {
      assert all[0] == x;
    } else if j :| 0 <= j < |xs| && KeyIn(xs[j], key) {
      assert all[j + 1] == xs[j];
    }
  }

  lemma {:induction false} RedactedItemKeys(v: Json, i: nat, key: string, fold: char -> string)
    requires v.List? && i <= |v.items|
    ensures KeyInItems(RedactedItems(v, i, Flag(fold)), key) <==> ItemInTheOpen(v, i, key, fold)
    decreases v, |v.items| - i
  {
    if i < |v.items| {
      RedactedItemKeys(v, i + 1, key, fold);
      RedactedKeys(v.items[i], key, fold);
      KeyInMoreItems(Redacted(v.items[i], Flag(fold)), RedactedItems(v, i + 1, Flag(fold)), key);
    }
  }

  /** A capture that is not truncated holds exactly the keys that show no marker and stand below none that does. */
  lemma CapturedKeysIff(v: Json, maxBytes: nat, key: string, fold: char -> string)
    requires !Sanitize(v, Fresh(maxBytes), 0, "", [], Flag(fold)).budget.truncated
    ensures KeyIn(Sanitize(v, Fresh(maxBytes), 0, "", [], Flag(fold)).value, key) <==> KeyInTheOpen(v, key, fold)
  {
    UntruncatedIsRedacted(v, Fresh(maxBytes), 0, "", [], Flag(fold));
    RedactedKeys(v, key, fold);
  }
}
