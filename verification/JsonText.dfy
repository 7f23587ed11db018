/** `_json_bytes` of mcp_server/access_records.py: `json.dumps` with sorted keys, compact separators and
    `ensure_ascii=False`, measured in UTF-8. */
module JsonText {
  import opened Json

  // ---------------------------------------------------------------- the text

  function HexDigit(n: nat): char
    requires n < 16
  {
    if n < 10 then '0' + n as char else 'a' + (n - 10) as char
  }

  /** The escapes of section 7 of RFC 8259 that the json module writes. */
  function EscapeChar(c: char): string {
    if c == '"' then "\\\""
    else if c == '\\' then "\\\\"
    else if c == '\n' then "\\n"
    else if c == '\r' then "\\r"
    else if c == '\t' then "\\t"
    else if c == '\U{8}' then "\\b"
    else if c == '\U{c}' then "\\f"
    else if c < ' ' then "\\u00" + [HexDigit(c as nat / 16), HexDigit(c as nat % 16)]
    else [c]
  }

  function Replace(s: string, into: char -> string): string {
    if s == [] then [] else Replace(s[..|s| - 1], into) + into(s[|s| - 1])
  }

  function Escape(s: string): string {
    Replace(s, EscapeChar)
  }

  function Quote(s: string): string {
    "\"" + Escape(s) + "\""
  }

  function Join(texts: seq<string>): string {
    if texts == [] then [] else if |texts| == 1 then texts[0] else texts[0] + "," + Join(texts[1..])
  }

  /** Code point order. */
  predicate KeyLess(a: string, b: string) {
    b != [] && (a == [] || a[0] < b[0] || (a[0] == b[0] && KeyLess(a[1..], b[1..])))
  }

  datatype Entry = Entry(key: string, text: string)

  function InsertByKey(e: Entry, es: seq<Entry>): seq<Entry> {
    if es == [] || !KeyLess(es[0].key, e.key) then [e] + es else [es[0]] + InsertByKey(e, es[1..])
  }

  function SortByKey(es: seq<Entry>): seq<Entry> {
    if es == [] then [] else InsertByKey(es[0], SortByKey(es[1..]))
  }

  function Texts(es: seq<Entry>): seq<string> {
    seq(|es|, i requires 0 <= i < |es| => es[i].text)
  }

  function Encode(v: Json): string
    decreases v
  {
    match v
    case Null => "null"
    case Bool(b) => if b then "true" else "false"
    case Num(text) => text
    case Str(s) => Quote(s)
    case List(xs) => "[" + Join(seq(|xs|, i requires 0 <= i < |xs| => Encode(xs[i]))) + "]"
    case Obj(ms) => "{" + Join(Texts(SortByKey(seq(|ms|, i requires 0 <= i < |ms| => EncodeMember(ms[i]))))) + "}"
  }

  function EncodeMember(m: Member): Entry
    decreases m
  {
    Entry(m.key, Quote(m.key) + ":" + Encode(m.value))
  }

  function Entries(ms: seq<Member>): seq<Entry> {
    seq(|ms|, i requires 0 <= i < |ms| => EncodeMember(ms[i]))
  }

  function ItemTexts(xs: seq<Json>): seq<string> {
    seq(|xs|, i requires 0 <= i < |xs| => Encode(xs[i]))
  }

  /** `len(_json_bytes(value))`. */
  function JsonBytes(v: Json): nat {
    Bytes(Encode(v))
  }

  // ---------------------------------------------------------------- its size

  lemma {:induction false} BytesAppend(a: string, b: string)
    ensures Bytes(a + b) == Bytes(a) + Bytes(b)
  {
    if b == [] {
      assert a + b == a;
    } else {
      var n := |b| - 1;
      assert (a + b)[..|a + b| - 1] == a + b[..n] && (a + b)[|a + b| - 1] == b[n];
      BytesAppend(a, b[..n]);
    }
  }

  lemma BytesAppend3(a: string, b: string, c: string)
    ensures Bytes(a + b + c) == Bytes(a) + Bytes(b) + Bytes(c)
  {
    BytesAppend(a + b, c);
    BytesAppend(a, b);
  }

  lemma {:induction false} AsciiBytes(s: string)
    requires forall i :: 0 <= i < |s| ==> s[i] < '\U{80}'
    ensures Bytes(s) == |s|
  {
    if s != [] {
      AsciiBytes(s[..|s| - 1]);
    }
  }

  /** Bytes of the texts with a separator after each. */
  function Total(texts: seq<string>): nat {
    if texts == [] then 0 else Bytes(texts[0]) + 1 + Total(texts[1..])
  }

  lemma {:induction false} JoinBytes(texts: seq<string>)
    ensures Bytes(Join(texts)) == if texts == [] then 0 else Total(texts) - 1
  {
    if |texts| == 1 {
      assert texts[1..] == [];
    } else if texts != [] {
      JoinBytes(texts[1..]);
      AsciiBytes(",");
      BytesAppend3(texts[0], ",", Join(texts[1..]));
    }
  }

  function EntryTotal(es: seq<Entry>): nat {
    if es == [] then 0 else Bytes(es[0].text) + 1 + EntryTotal(es[1..])
  }

  lemma {:induction false} TotalOfTexts(es: seq<Entry>)
    ensures Total(Texts(es)) == EntryTotal(es)
  {
    if es != [] {
      assert Texts(es)[1..] == Texts(es[1..]);
      TotalOfTexts(es[1..]);
    }
  }

  lemma {:induction false} InsertTotal(e: Entry, es: seq<Entry>)
    ensures EntryTotal(InsertByKey(e, es)) == Bytes(e.text) + 1 + EntryTotal(es)
    ensures |InsertByKey(e, es)| == |es| + 1
  {
    if es == [] || !KeyLess(es[0].key, e.key) {
      assert ([e] + es)[1..] == es;
    } else {
      InsertTotal(e, es[1..]);
      assert ([es[0]] + InsertByKey(e, es[1..]))[1..] == InsertByKey(e, es[1..]);
    }
  }

  lemma {:induction false} SortTotal(es: seq<Entry>)
    ensures EntryTotal(SortByKey(es)) == EntryTotal(es) && |SortByKey(es)| == |es|
  {
    if es != [] {
      SortTotal(es[1..]);
      InsertTotal(es[0], SortByKey(es[1..]));
    }
  }

  /** The size of an object does not depend on the order of its keys. */
  lemma ObjBytes(ms: seq<Member>)
    ensures JsonBytes(Obj(ms)) == if ms == [] then 2 else 1 + EntryTotal(Entries(ms))
  {
    var sorted := SortByKey(Entries(ms));
    SortTotal(Entries(ms));
    TotalOfTexts(sorted);
    JoinBytes(Texts(sorted));
    AsciiBytes("{");
    AsciiBytes("}");
    BytesAppend3("{", Join(Texts(sorted)), "}");
  }

  lemma ListBytes(xs: seq<Json>)
    ensures JsonBytes(List(xs)) == if xs == [] then 2 else 1 + Total(ItemTexts(xs))
  {
    JoinBytes(ItemTexts(xs));
    AsciiBytes("[");
    AsciiBytes("]");
    BytesAppend3("[", Join(ItemTexts(xs)), "]");
  }

  lemma {:induction false} TotalAppend(a: seq<string>, b: seq<string>)
    ensures Total(a + b) == Total(a) + Total(b)
  {
    if a == [] {
      assert a + b == b;
    } else {
      assert (a + b)[0] == a[0] && (a + b)[1..] == a[1..] + b;
      TotalAppend(a[1..], b);
    }
  }

  /** A longer prefix of a list never takes less space. */
  lemma PrefixIsSmaller(xs: seq<Json>, k: nat, m: nat)
    requires k <= m <= |xs|
    ensures JsonBytes(List(xs[..k])) <= JsonBytes(List(xs[..m]))
  {
    ListBytes(xs[..k]);
    ListBytes(xs[..m]);
    assert ItemTexts(xs[..m]) == ItemTexts(xs[..k]) + ItemTexts(xs[k..m]);
    TotalAppend(ItemTexts(xs[..k]), ItemTexts(xs[k..m]));
    if k > 0 {
      assert Total(ItemTexts(xs[..k])) >= 1;
    }
  }

  lemma EntryBytes(m: Member)
    ensures Bytes(EncodeMember(m).text) == Bytes(Quote(m.key)) + 1 + JsonBytes(m.value)
  {
    AsciiBytes(":");
    BytesAppend3(Quote(m.key), ":", Encode(m.value));
  }

  /** Changing the value of a key that is there changes the size by the difference of the values. */
  lemma {:induction false} PutTotal(ms: seq<Member>, key: string, a: Json, b: Json)
    requires Has(ms, key)
    ensures EntryTotal(Entries(Put(ms, key, a))) + JsonBytes(b) == EntryTotal(Entries(Put(ms, key, b))) + JsonBytes(a)
  {
    HeadTotal(Put(ms, key, a));
    HeadTotal(Put(ms, key, b));
    if ms[0].key == key {
      EntryBytes(Member(key, a));
      EntryBytes(Member(key, b));
      assert Put(ms, key, a)[1..] == ms[1..] && Put(ms, key, b)[1..] == ms[1..];
    } else {
      PutTotal(ms[1..], key, a, b);
      assert Put(ms, key, a)[1..] == Put(ms[1..], key, a) && Put(ms, key, b)[1..] == Put(ms[1..], key, b);
    }
  }

  lemma HeadTotal(ms: seq<Member>)
    requires ms != []
    ensures EntryTotal(Entries(ms)) == Bytes(EncodeMember(ms[0]).text) + 1 + EntryTotal(Entries(ms[1..]))
  {
    assert Entries(ms)[1..] == Entries(ms[1..]);
  }

  lemma PutBytes(ms: seq<Member>, key: string, a: Json, b: Json)
    requires Has(ms, key)
    ensures JsonBytes(Obj(Put(ms, key, a))) + JsonBytes(b) == JsonBytes(Obj(Put(ms, key, b))) + JsonBytes(a)
  {
    PutTotal(ms, key, a, b);
    ObjBytes(Put(ms, key, a));
    ObjBytes(Put(ms, key, b));
  }

  // ---------------------------------------------------------------- strings

  lemma ReplaceLast(s: string, c: char, into: char -> string)
    ensures Replace(s + [c], into) == Replace(s, into) + into(c)
  {
    assert (s + [c])[..|s|] == s;
  }

  lemma {:induction false} ReplaceAppend(a: string, b: string, into: char -> string)
    ensures Replace(a + b, into) == Replace(a, into) + Replace(b, into)
  {
    if b == [] {
      assert a + b == a;
    } else {
      var n := |b| - 1;
      var init, last := b[..n], b[n];
      assert b == init + [last] && a + b == a + init + [last];
      ReplaceAppend(a, init, into);
      ReplaceLast(init, last, into);
      ReplaceLast(a + init, last, into);
    }
  }

  lemma EscapeAppend(a: string, b: string)
    ensures Escape(a + b) == Escape(a) + Escape(b)
  {
    ReplaceAppend(a, b, EscapeChar);
  }

  lemma {:induction false} ReplacedAtLeast(s: string, into: char -> string)
    requires forall c :: into(c) != []
    ensures Bytes(Replace(s, into)) >= |s|
  {
    if s != [] {
      var n := |s| - 1;
      ReplacedAtLeast(s[..n], into);
      BytesAppend(Replace(s[..n], into), into(s[n]));
    }
  }

  lemma EscapesToSomething(c: char)
    ensures EscapeChar(c) != []
  {
  }

  /** A character takes at least a byte, however it is escaped. */
  lemma EscapedAtLeast(s: string)
    ensures Bytes(Escape(s)) >= |s|
  {
    forall c ensures EscapeChar(c) != [] {
      EscapesToSomething(c);
    }
    ReplacedAtLeast(s, EscapeChar);
  }

  // ---------------------------------------------------------------- reading it back

  function HexValue(c: char): nat {
    if '0' <= c <= '9' then c as nat - '0' as nat
    else if 'a' <= c <= 'f' then c as nat - 'a' as nat + 10
    else 0
  }

  /** The reading side of section 7 of RFC 8259, for the escapes that occur. */
  function Unescape(t: string): string {
    if t == [] then []
    else if t[0] != '\\' || |t| == 1 then [t[0]] + Unescape(t[1..])
    else if t[1] == 'n' then "\n" + Unescape(t[2..])
    else if t[1] == 'r' then "\r" + Unescape(t[2..])
    else if t[1] == 't' then "\t" + Unescape(t[2..])
    else if t[1] == 'b' then "\U{8}" + Unescape(t[2..])
    else if t[1] == 'f' then "\U{c}" + Unescape(t[2..])
    else if t[1] == 'u' && |t| >= 6 then
      [(16 * HexValue(t[4]) + HexValue(t[5])) as char] + Unescape(t[6..])
    else [t[1]] + Unescape(t[2..])
  }

  lemma HexDigits(n: nat)
    requires n < 256
    ensures 16 * HexValue(HexDigit(n / 16)) + HexValue(HexDigit(n % 16)) == n
  {
  }

  lemma UnescapeChar(c: char, rest: string)
    ensures Unescape(EscapeChar(c) + rest) == [c] + Unescape(rest)
  {
    var e := EscapeChar(c);
    var t := e + rest;
    assert t[|e|..] == rest;
    if |e| == 6 {
      assert t[1] == 'u' && t[4] == e[4] && t[5] == e[5];
      HexDigits(c as nat);
    }
  }

  lemma EscapeHead(s: string)
    requires s != []
    ensures Escape(s) == EscapeChar(s[0]) + Escape(s[1..])
  {
    assert s == [s[0]] + s[1..];
    EscapeAppend([s[0]], s[1..]);
    ReplaceLast([], s[0], EscapeChar);
    assert [] + [s[0]] == [s[0]];
  }

  /** What is escaped reads back as it was. */
  lemma {:induction false} UnescapeEscape(s: string)
    ensures Unescape(Escape(s)) == s
  {
    if s != [] {
      EscapeHead(s);
      UnescapeChar(s[0], Escape(s[1..]));
      UnescapeEscape(s[1..]);
      assert s == [s[0]] + s[1..];
    }
  }

  // ---------------------------------------------------------------- the order of the keys

  /** `a` is at the first difference below `b`, or a proper beginning of it. */
  ghost predicate Before(a: string, b: string) {
    exists n :: 0 <= n <= |a| && n < |b| && a[..n] == b[..n] && (n == |a| || a[n] < b[n])
  }

  lemma {:induction false} KeyLessIff(a: string, b: string)
    ensures KeyLess(a, b) <==> Before(a, b)
  {
    if a != [] && b != [] {
      KeyLessIff(a[1..], b[1..]);
      if n :| 0 <= n <= |a| && n < |b| && a[..n] == b[..n] && (n == |a| || a[n] < b[n]) {
        if n > 0 {
          assert a[0] == a[..n][0] && b[0] == b[..n][0];
          assert a[1..][..n - 1] == a[..n][1..] && b[1..][..n - 1] == b[..n][1..];
          assert Before(a[1..], b[1..]);
        }
      }
      if a[0] == b[0] && Before(a[1..], b[1..]) {
        var n :| 0 <= n <= |a[1..]| && n < |b[1..]| && a[1..][..n] == b[1..][..n] && (n == |a[1..]| || a[1..][n] < b[1..][n]);
        assert a[..n + 1] == [a[0]] + a[1..][..n] && b[..n + 1] == [b[0]] + b[1..][..n];
      }
      if a[0] < b[0] {
        assert a[..0] == b[..0];
      }
    } else if b != [] {
      assert a[..0] == b[..0];
    }
  }

  predicate InKeyOrder(es: seq<Entry>) {
    forall i, j :: 0 <= i < j < |es| ==> !KeyLess(es[j].key, es[i].key)
  }

  lemma {:induction false} KeyLessTransitive(a: string, b: string, c: string)
    ensures !KeyLess(b, a) && !KeyLess(c, b) ==> !KeyLess(c, a)
    ensures KeyLess(a, b) ==> !KeyLess(b, a)
  {
    if a != [] && b != [] && c != [] {
      KeyLessTransitive(a[1..], b[1..], c[1..]);
    } else if a != [] && b != [] {
      KeyLessTransitive(a[1..], b[1..], []);
    }
  }

  lemma {:induction false} InsertInOrder(e: Entry, es: seq<Entry>)
    requires InKeyOrder(es)
    ensures InKeyOrder(InsertByKey(e, es))
  {
    if es == [] || !KeyLess(es[0].key, e.key) {
      forall j | 0 <= j < |es| ensures !KeyLess(es[j].key, e.key) {
        if j > 0 {
          KeyLessTransitive(e.key, es[0].key, es[j].key);
        }
      }
    } else {
      InsertInOrder(e, es[1..]);
      var rest := InsertByKey(e, es[1..]);
      assert es == [es[0]] + es[1..];
      KeyLessTransitive(es[0].key, e.key, e.key);
      forall j | 0 <= j < |rest| ensures !KeyLess(rest[j].key, es[0].key) {
        InsertMember(e, es[1..], j);
      }
    }
  }

  lemma {:induction false} InsertMember(e: Entry, es: seq<Entry>, j: nat)
    requires j < |InsertByKey(e, es)|
    ensures InsertByKey(e, es)[j] == e || exists i :: 0 <= i < |es| && es[i] == InsertByKey(e, es)[j]
  {
    if es != [] && KeyLess(es[0].key, e.key) && j > 0 {
      InsertMember(e, es[1..], j - 1);
    }
  }

  lemma {:induction false} InsertKeepsAll(e: Entry, es: seq<Entry>)
    ensures multiset(InsertByKey(e, es)) == multiset(es) + multiset{e}
  {
    if es != [] && KeyLess(es[0].key, e.key) {
      InsertKeepsAll(e, es[1..]);
      assert es == [es[0]] + es[1..];
    }
  }

  /** The members of an object are written in the order of their keys, each once. */
  lemma {:induction false} SortedByKey(es: seq<Entry>)
    ensures InKeyOrder(SortByKey(es)) && multiset(SortByKey(es)) == multiset(es)
  {
    if es != [] {
      SortedByKey(es[1..]);
      InsertInOrder(es[0], SortByKey(es[1..]));
      InsertKeepsAll(es[0], SortByKey(es[1..]));
      assert es == [es[0]] + es[1..];
    }
  }

  predicate NeedsNoEscape(s: string) {
    forall i :: 0 <= i < |s| ==> ' ' <= s[i] < '\U{80}' && s[i] != '"' && s[i] != '\\'
  }

  lemma CharPlain(c: char)
    requires ' ' <= c && c != '"' && c != '\\'
    ensures EscapeChar(c) == [c]
  {
  }

  lemma {:induction false} ReplaceNothing(s: string, into: char -> string)
    requires forall i :: 0 <= i < |s| ==> into(s[i]) == [s[i]]
    ensures Replace(s, into) == s
  {
    if s != [] {
      var n := |s| - 1;
      ReplaceNothing(s[..n], into);
      assert s == s[..n] + [s[n]];
    }
  }

  lemma EscapePlain(s: string)
    requires NeedsNoEscape(s)
    ensures Escape(s) == s
  {
    forall i | 0 <= i < |s| ensures EscapeChar(s[i]) == [s[i]] {
      CharPlain(s[i]);
    }
    ReplaceNothing(s, EscapeChar);
  }

  lemma QuoteBytes(s: string)
    ensures Bytes(Quote(s)) == Bytes(Escape(s)) + 2
    ensures NeedsNoEscape(s) ==> Bytes(Quote(s)) == |s| + 2
  {
    AsciiBytes("\"");
    BytesAppend3("\"", Escape(s), "\"");
    if NeedsNoEscape(s) {
      EscapePlain(s);
      AsciiBytes(s);
    }
  }
}
