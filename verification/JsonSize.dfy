/** `len(_json_bytes(value))` of mcp_server/access_records.py added up from the value, without writing it out. */
module JsonSize {
  import opened Json
  import opened JsonText

  /** The bytes of a character between quotes: seven characters take a backslash and a letter, the other control
      characters six, all others what UTF-8 gives them. */
  function QuotedSize(c: char): nat {
    if c == '"' || c == '\\' || c == '\U{8}' || c == '\t' || c == '\n' || c == '\U{c}' || c == '\r' then 2
    else if c < '\U{20}' then 6
    else if c < '\U{80}' then 1
    else if c < '\U{800}' then 2
    else if c < '\U{10000}' then 3
    else 4
  }

  function TextSize(s: string): nat {
    if s == [] then 0 else TextSize(s[..|s| - 1]) + QuotedSize(s[|s| - 1])
  }

  /** With a separator between two neighbours, and none anywhere else. */
  function Separators(n: nat): nat {
    if n == 0 then 0 else n - 1
  }

  function Size(v: Json): nat
    decreases v, 2, 0
  {
    match v
    case Null => 4
    case Bool(b) => if b then 4 else 5
    case Num(text) => Bytes(text)
    case Str(s) => 2 + TextSize(s)
    case List(xs) => 2 + Separators(|xs|) + ItemsSize(v, 0)
    case Obj(ms) => 2 + Separators(|ms|) + MembersSize(v, 0)
  }

  function ItemsSize(v: Json, i: nat): nat
    requires v.List? && i <= |v.items|
    decreases v, 1, |v.items| - i
  {
    if i == |v.items| then 0 else Size(v.items[i]) + ItemsSize(v, i + 1)
  }

  /** The key in quotes, the colon and the value. */
  function MembersSize(v: Json, i: nat): nat
    requires v.Obj? && i <= |v.members|
    decreases v, 1, |v.members| - i
  {
    if i == |v.members| then 0
    else 2 + TextSize(v.members[i].key) + 1 + Size(v.members[i].value) + MembersSize(v, i + 1)
  }

  lemma EscapedSize(c: char)
    ensures Bytes(EscapeChar(c)) == QuotedSize(c)
  {
    var e := EscapeChar(c);
    if c >= '\U{80}' {
      assert e == [c] && e[..0] == [];
    } else {
      assert forall i :: 0 <= i < |e| ==> e[i] < '\U{80}';
      AsciiBytes(e);
    }
  }

  lemma {:induction false} EscapedTextSize(s: string)
    ensures Bytes(Escape(s)) == TextSize(s)
  {
    if s != [] {
      var n := |s| - 1;
      EscapedTextSize(s[..n]);
      EscapedSize(s[n]);
      BytesAppend(Escape(s[..n]), EscapeChar(s[n]));
    }
  }

  lemma QuotedBytes(s: string)
    ensures Bytes(Quote(s)) == 2 + TextSize(s)
  {
    EscapedTextSize(s);
    AsciiBytes("\"");
    BytesAppend3("\"", Escape(s), "\"");
  }

  /** The size of the encoding is this sum, whatever the order of the keys. */
  lemma {:induction false} EncodedSize(v: Json)
    ensures JsonBytes(v) == Size(v)
    decreases v, 1, 0
  {
    match v
    case Null => AsciiBytes("null");
    case Bool(b) => AsciiBytes(if b then "true" else "false");
    case Num(_) =>
    case Str(s) => QuotedBytes(s);
    case List(xs) =>
      ListBytes(xs);
      ItemsTotal(v, 0);
      assert ItemTexts(xs)[0..] == ItemTexts(xs);
    case Obj(ms) =>
      ObjBytes(ms);
      MembersTotal(v, 0);
      assert Entries(ms)[0..] == Entries(ms);
  }

  lemma {:induction false} ItemsTotal(v: Json, i: nat)
    requires v.List? && i <= |v.items|
    ensures Total(ItemTexts(v.items)[i..]) == ItemsSize(v, i) + |v.items| - i
    decreases v, 0, |v.items| - i
  {
    var texts := ItemTexts(v.items);
    if i < |v.items| {
      EncodedSize(v.items[i]);
      ItemsTotal(v, i + 1);
      assert texts[i..][1..] == texts[i + 1..];
    }
  }

  lemma {:induction false} MembersTotal(v: Json, i: nat)
    requires v.Obj? && i <= |v.members|
    ensures EntryTotal(Entries(v.members)[i..]) == MembersSize(v, i) + |v.members| - i
    decreases v, 0, |v.members| - i
  {
    var entries := Entries(v.members);
    if i < |v.members| {
      EntryBytes(v.members[i]);
      QuotedBytes(v.members[i].key);
      EncodedSize(v.members[i].value);
      MembersTotal(v, i + 1);
      assert entries[i..][1..] == entries[i + 1..];
    }
  }
}
