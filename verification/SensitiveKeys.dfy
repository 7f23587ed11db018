/** mcp_server/access_records.py, `_sensitive_key`: which keys the sanitizer removes. */
module SensitiveKeys {
  import opened Json
  import opened Sanitizer
  import opened SanitizerLaws
  import opened Text

  /** `str.casefold`: ASCII letters become lower case, `fold` says what every other character becomes. */
  function Casefold(c: char, fold: char -> string): (r: string)
    ensures c >= '\U{80}' ==> r == fold(c)
  {
    if 'A' <= c <= 'Z' then [c - 'A' + 'a'] else if c < '\U{80}' then [c] else fold(c)
  }

  predicate IsKept(c: char) {
    'a' <= c <= 'z' || '0' <= c <= '9'
  }

  function OnlyKept(s: string): string {
    if s == [] then [] else (if IsKept(s[0]) then [s[0]] else []) + OnlyKept(s[1..])
  }

  /** Casefolded, with everything but lower-case ASCII letters and digits removed. */
  function Normalized(key: string, fold: char -> string): string {
    if key == [] then [] else OnlyKept(Casefold(key[0], fold)) + Normalized(key[1..], fold)
  }

  predicate Sensitive(normalized: string) {
    || Contains(normalized, "authorization") || Contains(normalized, "password") || Contains(normalized, "passwd")
    || Contains(normalized, "secret") || Contains(normalized, "token") || Contains(normalized, "cookie")
    || Contains(normalized, "uploadurl") || Contains(normalized, "ticket") || Contains(normalized, "apikey")
    || Contains(normalized, "accesskey") || Contains(normalized, "mcpkey") || Contains(normalized, "jwt")
  }

  predicate SensitiveKey(key: string, fold: char -> string) {
    Sensitive(Normalized(key, fold))
  }

  lemma {:induction false} NormalizedAppend(a: string, b: string, fold: char -> string)
    ensures Normalized(a + b, fold) == Normalized(a, fold) + Normalized(b, fold)
  {
    if a == [] {
      assert a + b == b;
    } else {
      assert (a + b)[0] == a[0] && (a + b)[1..] == a[1..] + b;
      NormalizedAppend(a[1..], b, fold);
    }
  }

  /** Putting separators into a key does not hide it: `api_key`, `API-Key` and `apikey` are one key. */
  lemma SeparatorsDoNotHide(a: string, separator: char, b: string, fold: char -> string)
    requires separator < '\U{80}' && !IsKept(separator) && !('A' <= separator <= 'Z')
    ensures SensitiveKey(a + [separator] + b, fold) == SensitiveKey(a + b, fold)
  {
    NormalizedAppend(a, b, fold);
    NormalizedAppend(a + [separator], b, fold);
    NormalizedAppend(a, [separator], fold);
    var s := [separator];
    assert s[1..] == [] && Casefold(separator, fold) == s;
    assert OnlyKept(s[1..]) == [] && OnlyKept(s) == [];
    assert Normalized(s[1..], fold) == [];
    assert Normalized(s, fold) == OnlyKept(Casefold(s[0], fold)) + Normalized(s[1..], fold);
    assert Normalized(a, fold) + [] == Normalized(a, fold);
  }

  // ---------------------------------------------------------------- which keys these are

  const MARKERS: set<string> := {
    "authorization", "password", "passwd", "secret", "token", "cookie",
    "uploadurl", "ticket", "apikey", "accesskey", "mcpkey", "jwt"}

  /** The whole key casefolded. */
  function Folded(key: string, fold: char -> string): string {
    if key == [] then [] else Casefold(key[0], fold) + Folded(key[1..], fold)
  }

  /** `s` is `word` with anything but lower-case letters and digits put in between. */
  predicate Spells(s: string, word: string) {
    if s == [] then word == []
    else if 'a' <= s[0] <= 'z' || '0' <= s[0] <= '9' then word != [] && s[0] == word[0] && Spells(s[1..], word[1..])
    else Spells(s[1..], word)
  }

  /** Somewhere in `s` the word is spelled. */
  ghost predicate Shows(s: string, word: string) {
    exists i, j :: 0 <= i <= j <= |s| && Spells(s[i..j], word)
  }

  /** The key shows one of the markers. */
  ghost predicate ShowsMarker(key: string, fold: char -> string) {
    exists marker :: marker in MARKERS && Shows(Folded(key, fold), marker)
  }

  lemma {:induction false} OnlyKeptAppend(a: string, b: string)
    ensures OnlyKept(a + b) == OnlyKept(a) + OnlyKept(b)
  {
    if a == [] {
      assert a + b == b;
    } else {
      assert (a + b)[0] == a[0] && (a + b)[1..] == a[1..] + b;
      OnlyKeptAppend(a[1..], b);
    }
  }

  lemma {:induction false} NormalizedFolded(key: string, fold: char -> string)
    ensures Normalized(key, fold) == OnlyKept(Folded(key, fold))
  {
    if key != [] {
      NormalizedFolded(key[1..], fold);
      OnlyKeptAppend(Casefold(key[0], fold), Folded(key[1..], fold));
    }
  }

  lemma {:induction false} SpellsKept(s: string, word: string)
    ensures Spells(s, word) <==> OnlyKept(s) == word
  {
    if s != [] {
      var rest := OnlyKept(s[1..]);
      if IsKept(s[0]) {
        assert OnlyKept(s) == [s[0]] + rest;
        if word != [] {
          SpellsKept(s[1..], word[1..]);
          assert word == [word[0]] + word[1..];
        }
      } else {
        assert OnlyKept(s) == [] + rest == rest;
        SpellsKept(s[1..], word);
      }
    }
  }

  /** A part of what is kept comes from a part of the whole. */
  lemma {:induction false} KeptUpTo(s: string, n: nat) returns (i: nat)
    requires n <= |OnlyKept(s)|
    ensures i <= |s| && OnlyKept(s[..i]) == OnlyKept(s)[..n] && OnlyKept(s[i..]) == OnlyKept(s)[n..]
  {
    if n == 0 {
      i := 0;
      assert s[..0] == [] && s[0..] == s;
    } else {
      var here := if IsKept(s[0]) then 1 else 0;
      var k := KeptUpTo(s[1..], n - here);
      i := k + 1;
      assert s[..i] == [s[0]] + s[1..][..k] && s[i..] == s[1..][k..];
      assert [s[0]][1..] == [] && OnlyKept([s[0]]) == if IsKept(s[0]) then [s[0]] else [];
      OnlyKeptAppend([s[0]], s[1..][..k]);
    }
  }

  lemma {:induction false} ContainsAt(s: string, part: string) returns (n: nat)
    requires Contains(s, part)
    ensures n + |part| <= |s| && s[n..n + |part|] == part
  {
    if part <= s {
      n := 0;
    } else {
      var k := ContainsAt(s[1..], part);
      n := k + 1;
    }
  }

  lemma {:induction false} ContainsIn(left: string, part: string, right: string)
    ensures Contains(left + part + right, part)
  {
    var s := left + part + right;
    if left == [] {
      assert s[..|part|] == part;
    } else {
      assert s[1..] == left[1..] + part + right;
      ContainsIn(left[1..], part, right);
    }
  }

  lemma ShowsIff(s: string, word: string)
    ensures Shows(s, word) <==> Contains(OnlyKept(s), word)
  {
    if Contains(OnlyKept(s), word) {
      var n := ContainsAt(OnlyKept(s), word);
      var j := KeptUpTo(s, n + |word|);
      assert OnlyKept(s[..j])[n..] == word && OnlyKept(s[..j])[..n] == OnlyKept(s)[..n];
      var i := KeptUpTo(s[..j], n);
      assert s[..j][i..] == s[i..j];
      SpellsKept(s[i..j], word);
    }
    if i, j :| 0 <= i <= j <= |s| && Spells(s[i..j], word) {
      SpellsKept(s[i..j], word);
      OnlyKeptAppend(s[..i], s[i..j]);
      OnlyKeptAppend(s[..j], s[j..]);
      assert s == s[..j] + s[j..] && s[..j] == s[..i] + s[i..j];
      ContainsIn(OnlyKept(s[..i]), word, OnlyKept(s[j..]));
    }
  }

  lemma SensitiveIffContains(normalized: string)
    ensures Sensitive(normalized) <==> exists marker :: marker in MARKERS && Contains(normalized, marker)
  {
  }

  /** `_sensitive_key` flags exactly the keys that show a marker. */
  lemma SensitiveIffMarked(key: string, fold: char -> string)
    ensures SensitiveKey(key, fold) <==> ShowsMarker(key, fold)
  {
    var folded, normalized := Folded(key, fold), Normalized(key, fold);
    NormalizedFolded(key, fold);
    SensitiveIffContains(normalized);
    if marker :| marker in MARKERS && Contains(normalized, marker) {
      ShowsIff(folded, marker);
    }
    if marker :| marker in MARKERS && Shows(folded, marker) {
      ShowsIff(folded, marker);
    }
  }

  // ---------------------------------------------------------------- in terms of the key's own characters

  /** `s` is `word` in letters of either case, with other ASCII characters put in between. */
  predicate SpellsAnyCase(s: string, word: string) {
    if s == [] then word == []
    else if 'A' <= s[0] <= 'Z' then word != [] && word[0] == s[0] - 'A' + 'a' && SpellsAnyCase(s[1..], word[1..])
    else if 'a' <= s[0] <= 'z' || '0' <= s[0] <= '9' then word != [] && word[0] == s[0] && SpellsAnyCase(s[1..], word[1..])
    else s[0] < '\U{80}' && SpellsAnyCase(s[1..], word)
  }

  lemma {:induction false} AnyCaseSpells(s: string, word: string, fold: char -> string)
    requires SpellsAnyCase(s, word)
    ensures Spells(Folded(s, fold), word)
  {
    if s != [] {
      var c := Casefold(s[0], fold);
      var f := Folded(s, fold);
      assert |c| == 1 && f[0] == c[0] && f[1..] == Folded(s[1..], fold);
      AnyCaseSpells(s[1..], if IsKept(c[0]) then word[1..] else word, fold);
    }
  }

  lemma {:induction false} FoldedAppend(a: string, b: string, fold: char -> string)
    ensures Folded(a + b, fold) == Folded(a, fold) + Folded(b, fold)
  {
    if a == [] {
      assert a + b == b;
    } else {
      assert (a + b)[0] == a[0] && (a + b)[1..] == a[1..] + b;
      FoldedAppend(a[1..], b, fold);
    }
  }

  /** Whatever stands before and after a marker, and however it is written, the key is flagged. */
  lemma WrittenOutIsSensitive(before: string, written: string, after: string, marker: string, fold: char -> string)
    requires marker in MARKERS && SpellsAnyCase(written, marker)
    ensures SensitiveKey(before + written + after, fold)
  {
    var a, b, c := Folded(before, fold), Folded(written, fold), Folded(after, fold);
    FoldedAppend(before, written, fold);
    FoldedAppend(before + written, after, fold);
    AnyCaseSpells(written, marker, fold);
    var s := a + b + c;
    assert s[|a|..|a| + |b|] == b;
    assert Shows(s, marker);
    SensitiveIffMarked(before + written + after, fold);
  }

  // ---------------------------------------------------------------- the sanitizer's own names are not sensitive

  /** `a` occurs, and `b` after it. */
  ghost predicate Later(s: string, a: char, b: char) {
    exists i, j :: 0 <= i < j < |s| && s[i] == a && s[j] == b
  }

  lemma LaterInTail(s: string, a: char, b: char)
    requires s != [] && Later(s[1..], a, b)
    ensures Later(s, a, b)
  {
    var i, j :| 0 <= i < j < |s[1..]| && s[1..][i] == a && s[1..][j] == b;
    assert s[i + 1] == a && s[j + 1] == b;
  }

  lemma {:induction false} PartLater(s: string, part: string, a: char, b: char)
    requires Contains(s, part) && Later(part, a, b)
    ensures Later(s, a, b)
  {
    if part <= s {
      var i, j :| 0 <= i < j < |part| && part[i] == a && part[j] == b;
      assert s[i] == a && s[j] == b;
    } else {
      PartLater(s[1..], part, a, b);
      LaterInTail(s, a, b);
    }
  }

  lemma {:induction false} PartLetter(s: string, part: string, c: char)
    requires Contains(s, part) && c in part
    ensures c in s
  {
    if part <= s {
      assert forall i :: 0 <= i < |part| ==> s[i] == part[i];
    } else {
      PartLetter(s[1..], part, c);
    }
  }

  predicate PlainChar(c: char) {
    c == '_' || 'a' <= c <= 'z'
  }

  lemma HeadOf(key: string, fold: char -> string)
    requires key != [] && PlainChar(key[0])
    ensures Normalized(key, fold) == (if key[0] == '_' then [] else [key[0]]) + Normalized(key[1..], fold)
  {
    var c := Casefold(key[0], fold);
    assert c == [key[0]] && OnlyKept(c[1..]) == [];
    assert OnlyKept(c) == if key[0] == '_' then [] else [key[0]];
  }

  /** Normalizing a name of lower-case letters and underscores only drops the underscores ... */
  lemma {:induction false} NormalizedPlace(key: string, fold: char -> string, i: nat) returns (m: nat)
    requires i < |Normalized(key, fold)| && forall k :: 0 <= k < |key| ==> PlainChar(key[k])
    ensures m < |key| && key[m] == Normalized(key, fold)[i]
  {
    HeadOf(key, fold);
    if key[0] != '_' && i == 0 {
      m := 0;
    } else {
      var k := NormalizedPlace(key[1..], fold, if key[0] == '_' then i else i - 1);
      m := k + 1;
    }
  }

  /** ... and keeps the order of the letters. */
  lemma {:induction false} NormalizedPlaces(key: string, fold: char -> string, i: nat, j: nat) returns (m: nat, n: nat)
    requires i < j < |Normalized(key, fold)| && forall k :: 0 <= k < |key| ==> PlainChar(key[k])
    ensures m < n < |key| && key[m] == Normalized(key, fold)[i] && key[n] == Normalized(key, fold)[j]
  {
    HeadOf(key, fold);
    if key[0] != '_' && i == 0 {
      var k := NormalizedPlace(key[1..], fold, j - 1);
      m, n := 0, k + 1;
    } else {
      var d := if key[0] == '_' then 0 else 1;
      m, n := NormalizedPlaces(key[1..], fold, i - d, j - d);
      m, n := m + 1, n + 1;
    }
  }

  /** Every marker contains `h`, `k` or `j`, or one letter after another that no own name has in that order. */
  predicate PlainName(key: string) {
    && (forall i :: 0 <= i < |key| ==> PlainChar(key[i]) && key[i] != 'h' && key[i] != 'k' && key[i] != 'j')
    && (forall i, j :: 0 <= i < j < |key| ==>
          !(key[i] == 'p' && key[j] == 'a') && !(key[i] == 'c' && key[j] == 'r') && !(key[i] == 'u' && key[j] == 'p'))
  }

  lemma LetterAbsent(key: string, fold: char -> string, marker: string, i: nat)
    requires PlainName(key) && i < |marker| && (marker[i] == 'h' || marker[i] == 'k' || marker[i] == 'j')
    ensures !Contains(Normalized(key, fold), marker)
  {
    if Contains(Normalized(key, fold), marker) {
      PartLetter(Normalized(key, fold), marker, marker[i]);
      var k :| 0 <= k < |Normalized(key, fold)| && Normalized(key, fold)[k] == marker[i];
      var m := NormalizedPlace(key, fold, k);
    }
  }

  lemma PairAbsent(key: string, fold: char -> string, marker: string, i: nat, j: nat)
    requires PlainName(key) && i < j < |marker|
    requires (marker[i], marker[j]) == ('p', 'a') || (marker[i], marker[j]) == ('c', 'r') || (marker[i], marker[j]) == ('u', 'p')
    ensures !Contains(Normalized(key, fold), marker)
  {
    if Contains(Normalized(key, fold), marker) {
      PartLater(Normalized(key, fold), marker, marker[i], marker[j]);
      var word := Normalized(key, fold);
      var k, l :| 0 <= k < l < |word| && word[k] == marker[i] && word[l] == marker[j];
      var m, n := NormalizedPlaces(key, fold, k, l);
    }
  }

  lemma PlainNameIsNotSensitive(key: string, fold: char -> string)
    requires PlainName(key)
    ensures !SensitiveKey(key, fold)
  {
    LetterAbsent(key, fold, "authorization", 3);
    PairAbsent(key, fold, "password", 0, 1);
    PairAbsent(key, fold, "passwd", 0, 1);
    PairAbsent(key, fold, "secret", 2, 3);
    LetterAbsent(key, fold, "token", 2);
    LetterAbsent(key, fold, "cookie", 3);
    PairAbsent(key, fold, "uploadurl", 0, 1);
    LetterAbsent(key, fold, "ticket", 3);
    LetterAbsent(key, fold, "apikey", 3);
    LetterAbsent(key, fold, "accesskey", 6);
    LetterAbsent(key, fold, "mcpkey", 3);
    LetterAbsent(key, fold, "jwt", 0);
  }

  lemma ShortNames()
    ensures PlainName(TRUNCATED) && PlainName(PREVIEW)
  {
  }

  lemma CountName()
    ensures PlainName(OMITTED_COUNT)
  {
  }

  lemma BytesName()
    ensures PlainName(ORIGINAL_BYTES)
  {
  }

  lemma ReasonName()
    ensures PlainName(SANITIZER_TRUNCATED)
  {
  }

  /** So nothing the sanitizer adds is what it would remove. */
  lemma OwnNamesArePlain(fold: char -> string)
    ensures PlainMarkers(key => SensitiveKey(key, fold))
  {
    ShortNames();
    CountName();
    BytesName();
    ReasonName();
    PlainNameIsNotSensitive(TRUNCATED, fold);
    PlainNameIsNotSensitive(SANITIZER_TRUNCATED, fold);
    PlainNameIsNotSensitive(OMITTED_COUNT, fold);
    PlainNameIsNotSensitive(ORIGINAL_BYTES, fold);
    PlainNameIsNotSensitive(PREVIEW, fold);
  }
}
