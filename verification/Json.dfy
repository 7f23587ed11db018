/** The values of Python's json module, with string keys, and their sizes in UTF-8. */
module Json {

  /** `Num` carries the text that `str()` and `json.dumps` give an int or a float. */
  datatype Json =
    | Null
    | Bool(b: bool)
    | Num(text: string)
    | Str(s: string)
    | List(items: seq<Json>)
    | Obj(members: seq<Member>)

  /** A dictionary is its members in insertion order. */
  datatype Member = Member(key: string, value: Json)

  predicate Has(members: seq<Member>, key: string) {
    members != [] && (members[0].key == key || Has(members[1..], key))
  }

  /** `d[key] = value`: an existing key keeps its place. */
  function Put(members: seq<Member>, key: string, value: Json): seq<Member> {
    if members == [] then [Member(key, value)]
    else if members[0].key == key then [Member(key, value)] + members[1..]
    else [members[0]] + Put(members[1..], key, value)
  }

  function CharBytes(c: char): nat {
    if c < '\U{80}' then 1 else if c < '\U{800}' then 2 else if c < '\U{10000}' then 3 else 4
  }

  /** The length of `s.encode("utf-8")`. */
  function Bytes(s: string): nat {
    if s == [] then 0 else Bytes(s[..|s| - 1]) + CharBytes(s[|s| - 1])
  }

  /** `s.encode("utf-8")[:n].decode("utf-8", errors="ignore")`: the characters that lie within the first
      `n` bytes as a whole. */
  function Preview(s: string, n: nat): string {
    if Bytes(s) <= n then s else Preview(s[..|s| - 1], n)
  }

  lemma {:induction false} BytesOfPrefix(s: string, k: nat)
    requires k <= |s|
    ensures Bytes(s[..k]) + (|s| - k) <= Bytes(s)
  {
    if k == |s| {
      assert s[..k] == s;
    } else {
      assert s[..|s| - 1][..k] == s[..k];
      BytesOfPrefix(s[..|s| - 1], k);
    }
  }

  /** The preview is the longest prefix that fits. */
  lemma {:induction false} PreviewIsLongest(s: string, n: nat, k: nat)
    requires k <= |s|
    ensures Preview(s, n) <= s && Bytes(Preview(s, n)) <= n
    ensures Bytes(s[..k]) <= n <==> k <= |Preview(s, n)|
  {
    if Bytes(s) <= n {
      BytesOfPrefix(s, k);
    } else {
      var t := s[..|s| - 1];
      if k == |s| {
        assert s[..k] == s;
        PreviewIsLongest(t, n, 0);
      } else {
        assert t[..k] == s[..k];
        PreviewIsLongest(t, n, k);
      }
    }
  }

  /** Decimal digits, as `str()` writes a non-negative int. */
  function Decimal(n: nat): string
    decreases n
  {
    if n < 10 then [Digit(n)] else Decimal(n / 10) + [Digit(n % 10)]
  }

  /** The number that decimal digits stand for. */
  function ValueOf(digits: string): int {
    if digits == [] then 0 else 10 * ValueOf(digits[..|digits| - 1]) + (digits[|digits| - 1] as int - '0' as int)
  }

  lemma {:induction false} DecimalReadsBack(n: nat)
    ensures ValueOf(Decimal(n)) == n && |Decimal(n)| > 0
    ensures forall i :: 0 <= i < |Decimal(n)| ==> '0' <= Decimal(n)[i] <= '9'
    ensures n > 0 ==> Decimal(n)[0] != '0'
    decreases n
  {
    if n < 10 {
      assert Decimal(n)[..0] == [];
    } else {
      DecimalReadsBack(n / 10);
      assert Decimal(n)[..|Decimal(n)| - 1] == Decimal(n / 10);
    }
  }

  function Digit(n: nat): char
    requires n < 10
  {
    '0' + n as char
  }
}
