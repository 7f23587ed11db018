/** mcp_server/access_records.py, `_bounded_json` and `_truncation_envelope`: a payload cut down to a
    number of bytes. `digest` stands for the SHA-256 of the encoding, in hexadecimal. */
module BoundedJson {
  import opened Common
  import opened Json
  import opened JsonText
  import opened Sanitizer
  import opened Text

  const SHA256 := "__sha256__"

  predicate IsDigest(digest: string) {
    |digest| == 64 && forall i :: 0 <= i < 64 ==> '0' <= digest[i] <= '9' || 'a' <= digest[i] <= 'f'
  }

  // ---------------------------------------------------------------- the envelope

  function Envelope(originalBytes: nat, digest: string, preview: string, sanitized: bool): Json {
    Obj([Member(TRUNCATED, Bool(true)), Member(ORIGINAL_BYTES, Num(Decimal(originalBytes))),
         Member(SHA256, Str(digest)), Member(PREVIEW, Str(preview))]
        + if sanitized then [Member(SANITIZER_TRUNCATED, Str("budget"))] else [])
  }

  /** The size of an envelope apart from its preview. */
  function FixedBytes(originalBytes: nat, sanitized: bool): nat {
    141 + |Decimal(originalBytes)| + if sanitized then 35 else 0
  }

  lemma {:induction false} DecimalIsPlain(n: nat)
    ensures NeedsNoEscape(Decimal(n)) && |Decimal(n)| >= 1
    decreases n
  {
    if n >= 10 {
      DecimalIsPlain(n / 10);
    }
  }

  lemma StrBytes(s: string)
    ensures JsonBytes(Str(s)) == Bytes(Escape(s)) + 2
    ensures NeedsNoEscape(s) ==> JsonBytes(Str(s)) == |s| + 2
  {
    QuoteBytes(s);
  }

  lemma DigestBytes(digest: string)
    requires IsDigest(digest)
    ensures JsonBytes(Str(digest)) == 66
  {
    StrBytes(digest);
  }

  lemma NumBytes(n: nat)
    ensures JsonBytes(Num(Decimal(n))) == |Decimal(n)|
  {
    DecimalIsPlain(n);
    AsciiBytes(Decimal(n));
  }

  function EntrySize(m: Member): nat {
    Bytes(EncodeMember(m).text) + 1
  }

  lemma MemberBytes(m: Member)
    requires NeedsNoEscape(m.key)
    ensures EntrySize(m) == |m.key| + 4 + JsonBytes(m.value)
  {
    EntryBytes(m);
    QuoteBytes(m.key);
  }

  lemma FlagMember()
    ensures EntrySize(Member(TRUNCATED, Bool(true))) == 21
  {
    MemberBytes(Member(TRUNCATED, Bool(true)));
    AsciiBytes("true");
  }

  lemma SizeMember(n: nat)
    ensures EntrySize(Member(ORIGINAL_BYTES, Num(Decimal(n)))) == 22 + |Decimal(n)|
  {
    MemberBytes(Member(ORIGINAL_BYTES, Num(Decimal(n))));
    NumBytes(n);
  }

  lemma DigestMember(digest: string)
    requires IsDigest(digest)
    ensures EntrySize(Member(SHA256, Str(digest))) == 80
  {
    MemberBytes(Member(SHA256, Str(digest)));
    DigestBytes(digest);
  }

  lemma PreviewMember(preview: string)
    ensures EntrySize(Member(PREVIEW, Str(preview))) == 17 + Bytes(Escape(preview))
  {
    MemberBytes(Member(PREVIEW, Str(preview)));
    StrBytes(preview);
  }

  lemma ReasonKey()
    ensures NeedsNoEscape(SANITIZER_TRUNCATED) && |SANITIZER_TRUNCATED| == 23
  {
  }

  lemma ReasonValue()
    ensures JsonBytes(Str("budget")) == 8
  {
    StrBytes("budget");
  }

  lemma ReasonMember(m: Member)
    requires m == Member(SANITIZER_TRUNCATED, Str("budget"))
    ensures EntrySize(m) == 35
  {
    ReasonKey();
    ReasonValue();
    MemberBytes(m);
  }

  lemma MoreMembers(m: Member, ms: seq<Member>)
    ensures EntryTotal(Entries([m] + ms)) == EntrySize(m) + EntryTotal(Entries(ms))
  {
    assert ([m] + ms)[1..] == ms;
    HeadTotal([m] + ms);
  }

  lemma TwoMembers(a: Member, b: Member, rest: seq<Member>)
    ensures EntryTotal(Entries([a, b] + rest)) == EntrySize(a) + EntrySize(b) + EntryTotal(Entries(rest))
  {
    MoreMembers(b, rest);
    MoreMembers(a, [b] + rest);
    assert [a, b] + rest == [a] + ([b] + rest);
  }

  lemma FourMembers(a: Member, b: Member, c: Member, d: Member, rest: seq<Member>)
    ensures EntryTotal(Entries([a, b, c, d] + rest))
         == EntrySize(a) + EntrySize(b) + EntrySize(c) + EntrySize(d) + EntryTotal(Entries(rest))
  {
    TwoMembers(c, d, rest);
    TwoMembers(a, b, [c, d] + rest);
    assert [a, b, c, d] + rest == [a, b] + ([c, d] + rest);
  }

  lemma OneMember(m: Member)
    ensures EntryTotal(Entries([m])) == EntrySize(m)
  {
    MoreMembers(m, []);
    assert [m] + [] == [m];
  }

  /** An envelope takes a fixed size and whatever its escaped preview takes. */
  lemma EnvelopeBytes(originalBytes: nat, digest: string, preview: string, sanitized: bool)
    requires IsDigest(digest)
    ensures JsonBytes(Envelope(originalBytes, digest, preview, sanitized)) == FixedBytes(originalBytes, sanitized) + Bytes(Escape(preview))
  {
    var a, b := Member(TRUNCATED, Bool(true)), Member(ORIGINAL_BYTES, Num(Decimal(originalBytes)));
    var c, d := Member(SHA256, Str(digest)), Member(PREVIEW, Str(preview));
    var rest := if sanitized then [Member(SANITIZER_TRUNCATED, Str("budget"))] else [];
    FlagMember();
    SizeMember(originalBytes);
    DigestMember(digest);
    PreviewMember(preview);
    ReasonMember(Member(SANITIZER_TRUNCATED, Str("budget")));
    OneMember(Member(SANITIZER_TRUNCATED, Str("budget")));
    FourMembers(a, b, c, d, rest);
    ObjBytes([a, b, c, d] + rest);
  }

  /** Cutting characters off a preview saves at least a byte for each. */
  lemma CutSaves(preview: string, k: nat)
    requires k <= |preview|
    ensures Bytes(Escape(preview[..k])) + (|preview| - k) <= Bytes(Escape(preview))
  {
    assert preview == preview[..k] + preview[k..];
    EscapeAppend(preview[..k], preview[k..]);
    BytesAppend(Escape(preview[..k]), Escape(preview[k..]));
    EscapedAtLeast(preview[k..]);
  }

  /** One round of the shrinking loop: afterwards the envelope fits, or there is no preview left to cut. */
  method Shrink(original: nat, digest: string, preview: string, sanitized: bool, maxBytes: nat) returns (shorter: string)
    requires IsDigest(digest) && preview != []
    requires JsonBytes(Envelope(original, digest, preview, sanitized)) > maxBytes
    ensures shorter <= preview && |shorter| < |preview|
    ensures |shorter| == Above(|preview|, JsonBytes(Envelope(original, digest, preview, sanitized)) - maxBytes)
    ensures JsonBytes(Envelope(original, digest, shorter, sanitized)) <= maxBytes || shorter == []
  {
    var overshoot := JsonBytes(Envelope(original, digest, preview, sanitized)) - maxBytes;
    var cut := if overshoot < 1 then 1 else overshoot;
    var keep := if |preview| < cut then 0 else |preview| - cut;
    CutSaves(preview, keep);
    EnvelopeBytes(original, digest, preview, sanitized);
    EnvelopeBytes(original, digest, preview[..keep], sanitized);
    shorter := preview[..keep];
  }

  /** How far `n` is above `m`, nothing if it is not. */
  function Above(n: nat, m: nat): nat {
    if n <= m then 0 else n - m
  }

  /** The preview an envelope ends up with: all that the limit leaves it, less a character for each byte by which
      the envelope would be too large. */
  ghost predicate IsFinalPreview(preview: string, encoded: string, digest: string, maxBytes: nat) {
    var whole := Preview(encoded, PreviewLimit(maxBytes));
    var size := JsonBytes(Envelope(Bytes(encoded), digest, whole, Contains(encoded, SANITIZER_TRUNCATED)));
    preview <= whole && |preview| == Above(|whole|, Above(size, maxBytes))
  }

  function PreviewLimit(maxBytes: nat): (r: nat)
    ensures r == maxBytes - 256 || (r == 0 && maxBytes < 256)
  {
    if maxBytes < 256 then 0 else maxBytes - 256
  }

  /** `_truncation_envelope`. `rounds`: how often the shrinking loop ran; `preview`: what it left. */
  method TruncationEnvelope(encoded: string, maxBytes: nat, digest: string)
    returns (envelope: Json, ghost preview: string, ghost rounds: nat)
    requires IsDigest(digest)
    ensures preview <= Preview(encoded, PreviewLimit(maxBytes)) && rounds <= 1
    ensures rounds == 0 ==> preview == Preview(encoded, PreviewLimit(maxBytes))
    ensures envelope == Envelope(Bytes(encoded), digest, preview, Contains(encoded, SANITIZER_TRUNCATED))
    ensures JsonBytes(envelope) <= maxBytes || preview == []
    ensures IsFinalPreview(preview, encoded, digest, maxBytes)
  {
    var original, sanitized := Bytes(encoded), Contains(encoded, SANITIZER_TRUNCATED);
    var text := Preview(encoded, PreviewLimit(maxBytes));
    envelope := Envelope(original, digest, text, sanitized);
    rounds := 0;
    ghost var whole := text;
    while JsonBytes(envelope) > maxBytes && text != []
      invariant text <= whole && rounds <= 1
      invariant rounds == 0 ==> text == whole
      invariant rounds == 1 ==> JsonBytes(envelope) <= maxBytes || text == []
      invariant rounds == 1 ==> |text| == Above(|whole|, Above(JsonBytes(Envelope(original, digest, whole, sanitized)), maxBytes))
      invariant envelope == Envelope(original, digest, text, sanitized)
      decreases |text|
    {
      text := Shrink(original, digest, text, sanitized, maxBytes);
      envelope := Envelope(original, digest, text, sanitized);
      rounds := rounds + 1;
    }
    preview := text;
  }

  /** So it fits exactly when its fixed part does, however the text escapes. */
  lemma EnvelopeFitsIff(originalBytes: nat, digest: string, preview: string, sanitized: bool, maxBytes: nat)
    requires IsDigest(digest)
    requires JsonBytes(Envelope(originalBytes, digest, preview, sanitized)) <= maxBytes || preview == []
    ensures JsonBytes(Envelope(originalBytes, digest, preview, sanitized)) <= maxBytes
       <==> FixedBytes(originalBytes, sanitized) <= maxBytes
  {
    EnvelopeBytes(originalBytes, digest, preview, sanitized);
  }

  // ---------------------------------------------------------------- cutting a collection

  const COLLECTION_KEYS := ["evidence", "rows", "items", "segments", "documents", "nodes", "results"]

  function Get(ms: seq<Member>, key: string): Json
    requires Has(ms, key)
  {
    if ms[0].key == key then ms[0].value else Get(ms[1..], key)
  }

  function ItemsUnder(ms: seq<Member>, key: string): seq<Json> {
    if Has(ms, key) && Get(ms, key).List? then Get(ms, key).items else []
  }

  /** The payload with only the first `k` items of the collection. */
  function CutTo(ms: seq<Member>, key: string, k: nat): Json
    requires k <= |ItemsUnder(ms, key)|
  {
    Obj(Put(ms, key, List(ItemsUnder(ms, key)[..k])))
  }

  predicate Usable(ms: seq<Member>, key: string, maxBytes: nat) {
    ItemsUnder(ms, key) != [] && JsonBytes(CutTo(ms, key, 0)) <= maxBytes
  }

  function FirstUsable(ms: seq<Member>, keys: seq<string>, maxBytes: nat): Option<string> {
    if keys == [] then None
    else if Usable(ms, keys[0], maxBytes) then Some(keys[0])
    else FirstUsable(ms, keys[1..], maxBytes)
  }

  lemma {:induction false} FirstUsableIsUsable(ms: seq<Member>, keys: seq<string>, maxBytes: nat)
    ensures FirstUsable(ms, keys, maxBytes).Some? ==> Usable(ms, FirstUsable(ms, keys, maxBytes).value, maxBytes)
  {
    if keys != [] {
      FirstUsableIsUsable(ms, keys[1..], maxBytes);
    }
  }

  lemma {:induction false} FirstUsableIsFirst(ms: seq<Member>, keys: seq<string>, maxBytes: nat, k: nat)
    requires k < |keys| && Usable(ms, keys[k], maxBytes) && forall j :: 0 <= j < k ==> !Usable(ms, keys[j], maxBytes)
    ensures FirstUsable(ms, keys, maxBytes) == Some(keys[k])
  {
    if k > 0 {
      FirstUsableIsFirst(ms, keys[1..], maxBytes, k - 1);
    }
  }

  lemma {:induction false} NoneUsable(ms: seq<Member>, keys: seq<string>, maxBytes: nat)
    requires forall j :: 0 <= j < |keys| ==> !Usable(ms, keys[j], maxBytes)
    ensures FirstUsable(ms, keys, maxBytes) == None
  {
    if keys != [] {
      NoneUsable(ms, keys[1..], maxBytes);
    }
  }

  lemma {:induction false} ItemsAreThere(ms: seq<Member>, key: string)
    requires ItemsUnder(ms, key) != []
    ensures Has(ms, key) && Put(ms, key, List(ItemsUnder(ms, key))) == ms
  {
    if ms[0].key != key {
      ItemsAreThere(ms[1..], key);
    } else {
      assert [Member(key, ms[0].value)] + ms[1..] == ms;
    }
  }

  /** Keeping more items never takes less space, and keeping all of them is the payload itself. */
  lemma CutsGrow(ms: seq<Member>, key: string, k: nat, m: nat)
    requires k <= m <= |ItemsUnder(ms, key)| && ItemsUnder(ms, key) != []
    ensures JsonBytes(CutTo(ms, key, k)) <= JsonBytes(CutTo(ms, key, m))
    ensures m == |ItemsUnder(ms, key)| ==> CutTo(ms, key, m) == Obj(ms)
  {
    var items := ItemsUnder(ms, key);
    ItemsAreThere(ms, key);
    PrefixIsSmaller(items, k, m);
    PutBytes(ms, key, List(items[..k]), List(items[..m]));
    assert items[..|items|] == items;
  }

  /** `k` is the longest prefix that fits. */
  ghost predicate LongestCut(ms: seq<Member>, key: string, maxBytes: nat, k: nat) {
    && k < |ItemsUnder(ms, key)|
    && JsonBytes(CutTo(ms, key, k)) <= maxBytes
    && forall m :: k < m <= |ItemsUnder(ms, key)| ==> JsonBytes(CutTo(ms, key, m)) > maxBytes
  }

  /** The binary search. */
  method LongestPrefix(ms: seq<Member>, key: string, maxBytes: nat) returns (low: nat)
    requires Usable(ms, key, maxBytes) && JsonBytes(Obj(ms)) > maxBytes
    ensures LongestCut(ms, key, maxBytes, low)
  {
    var n := |ItemsUnder(ms, key)|;
    low := 0;
    var high := n;
    CutsGrow(ms, key, 0, n);
    while low < high
      invariant 0 <= low <= high <= n
      invariant JsonBytes(CutTo(ms, key, low)) <= maxBytes
      invariant forall m :: high < m <= n ==> JsonBytes(CutTo(ms, key, m)) > maxBytes
    {
      var middle := (low + high + 1) / 2;
      if JsonBytes(CutTo(ms, key, middle)) <= maxBytes {
        low := middle;
      } else {
        forall m | middle <= m <= n ensures JsonBytes(CutTo(ms, key, m)) > maxBytes {
          CutsGrow(ms, key, middle, m);
        }
        high := middle - 1;
      }
    }
  }

  // ---------------------------------------------------------------- the whole

  function Power10(k: nat): nat {
    if k == 0 then 1 else 10 * Power10(k - 1)
  }

  lemma {:induction false} Power10Digits(k: nat)
    ensures Power10(k) >= 1 && |Decimal(Power10(k))| == k + 1
  {
    if k > 0 {
      Power10Digits(k - 1);
      assert Power10(k) / 10 == Power10(k - 1);
    }
  }

  lemma {:induction false} DigitsOf(n: nat, k: nat)
    requires k >= 1 && n < Power10(k)
    ensures |Decimal(n)| <= k
    decreases k
  {
    if n >= 10 {
      DigitsOf(n / 10, k - 1);
    }
  }

  /** 512 bytes hold the fixed part of an envelope for every payload of fewer than ten to the 336 bytes. */
  lemma FixedPartFits(originalBytes: nat, sanitized: bool)
    requires originalBytes < Power10(336)
    ensures FixedBytes(originalBytes, sanitized) <= 512
  {
    DigitsOf(originalBytes, 336);
  }

  datatype Bounded = Bounded(stored: Json, storedBytes: nat, originalBytes: nat, truncated: bool, omitted: nat)

  /** How `_bounded_json` cuts a payload that does not fit, by the first collection that leaves room. */
  function CutKey(value: Json, maxBytes: nat): Option<string> {
    if value.Obj? then FirstUsable(value.members, COLLECTION_KEYS, maxBytes) else None
  }

  /** A collection under this key can be cut: it has items, and without them the payload fits. */
  predicate CanBeCut(ms: seq<Member>, key: string, maxBytes: nat) {
    Has(ms, key) && Get(ms, key).List? && Get(ms, key) != List([]) && JsonBytes(Obj(Put(ms, key, List([])))) <= maxBytes
  }

  lemma UsableIff(ms: seq<Member>, key: string, maxBytes: nat)
    ensures Usable(ms, key, maxBytes) <==> CanBeCut(ms, key, maxBytes)
  {
    if ItemsUnder(ms, key) != [] {
      assert ItemsUnder(ms, key)[..0] == [];
    }
  }

  /** Of the collections that can be cut, the first in the source's order is. */
  lemma CutKeyIsFirst(ms: seq<Member>, maxBytes: nat, k: nat)
    requires var keys := ["evidence", "rows", "items", "segments", "documents", "nodes", "results"];
             && k <= |keys| && (k < |keys| ==> CanBeCut(ms, keys[k], maxBytes))
             && forall j :: 0 <= j < k ==> !CanBeCut(ms, keys[j], maxBytes)
    ensures var keys := ["evidence", "rows", "items", "segments", "documents", "nodes", "results"];
            CutKey(Obj(ms), maxBytes) == if k < |keys| then Some(keys[k]) else None
  {
    forall key ensures Usable(ms, key, maxBytes) <==> CanBeCut(ms, key, maxBytes) {
      UsableIff(ms, key, maxBytes);
    }
    if k < |COLLECTION_KEYS| {
      FirstUsableIsFirst(ms, COLLECTION_KEYS, maxBytes, k);
    } else {
      NoneUsable(ms, COLLECTION_KEYS, maxBytes);
    }
  }

  lemma {:induction false} PutGet(ms: seq<Member>, key: string, value: Json, other: string)
    ensures Has(Put(ms, key, value), other) <==> other == key || Has(ms, other)
    ensures Has(Put(ms, key, value), key) && Get(Put(ms, key, value), key) == value
    ensures other != key && Has(ms, other) ==> Get(Put(ms, key, value), other) == Get(ms, other)
    ensures Has(ms, key) ==> |Put(ms, key, value)| == |ms|
  {
    if ms != [] && ms[0].key != key {
      PutGet(ms[1..], key, value, other);
      assert Put(ms, key, value)[1..] == Put(ms[1..], key, value);
    } else if ms != [] {
      assert Put(ms, key, value)[1..] == ms[1..];
    }
  }

  /** A cut payload has the first `k` items of its collection and is otherwise the payload. */
  lemma CutMeans(ms: seq<Member>, key: string, k: nat, other: string)
    requires k <= |ItemsUnder(ms, key)| && ItemsUnder(ms, key) != []
    ensures var cut := CutTo(ms, key, k);
            && cut.Obj? && |cut.members| == |ms| && Has(cut.members, key)
            && Get(cut.members, key) == List(Get(ms, key).items[..k])
            && (other != key ==> (Has(cut.members, other) <==> Has(ms, other)))
            && (other != key && Has(ms, other) ==> Get(cut.members, other) == Get(ms, other))
  {
    PutGet(ms, key, List(ItemsUnder(ms, key)[..k]), other);
  }

  method FindCollection(value: Json, maxBytes: nat) returns (key: Option<string>)
    ensures key == CutKey(value, maxBytes)
  {
    key := None;
    if value.Obj? {
      var k := 0;
      while k < |COLLECTION_KEYS|
        invariant 0 <= k <= |COLLECTION_KEYS|
        invariant CutKey(value, maxBytes) == FirstUsable(value.members, COLLECTION_KEYS[k..], maxBytes)
      {
        if Usable(value.members, COLLECTION_KEYS[k], maxBytes) {
          return Some(COLLECTION_KEYS[k]);
        }
        k := k + 1;
      }
    }
  }

  method BoundJson(value: Json, maxBytes: nat, digest: string) returns (r: Bounded)
    requires IsDigest(digest)
    ensures r.storedBytes == JsonBytes(r.stored) && r.originalBytes == JsonBytes(value)
    ensures !r.truncated <==> JsonBytes(value) <= maxBytes
    ensures !r.truncated ==> r.stored == value && r.omitted == 0
    ensures r.truncated && CutKey(value, maxBytes).Some? ==>
              var key := CutKey(value, maxBytes).value;
              var n := |ItemsUnder(value.members, key)|;
              && 1 <= r.omitted <= n && LongestCut(value.members, key, maxBytes, n - r.omitted)
              && r.stored == CutTo(value.members, key, n - r.omitted)
    ensures r.truncated && CutKey(value, maxBytes).None? ==>
              && r.omitted == 1
              && (exists preview :: IsFinalPreview(preview, Encode(value), digest, maxBytes) &&
                    r.stored == Envelope(JsonBytes(value), digest, preview, Contains(Encode(value), SANITIZER_TRUNCATED)))
              && (r.storedBytes <= maxBytes
                  <==> FixedBytes(JsonBytes(value), Contains(Encode(value), SANITIZER_TRUNCATED)) <= maxBytes)
    ensures maxBytes >= 512 && JsonBytes(value) < Power10(336) ==> r.storedBytes <= maxBytes
  {
    var n := JsonBytes(value);
    if n <= maxBytes {
      return Bounded(value, n, n, false, 0);
    }
    var key := FindCollection(value, maxBytes);
    if key.Some? {
      FirstUsableIsUsable(value.members, COLLECTION_KEYS, maxBytes);
      var low := LongestPrefix(value.members, key.value, maxBytes);
      var stored := CutTo(value.members, key.value, low);
      var omitted := |ItemsUnder(value.members, key.value)| - low;
      return Bounded(stored, JsonBytes(stored), n, true, if omitted < 1 then 1 else omitted);
    }
    var envelope, preview, rounds := TruncationEnvelope(Encode(value), maxBytes, digest);
    EnvelopeFitsIff(n, digest, preview, Contains(Encode(value), SANITIZER_TRUNCATED), maxBytes);
    if n < Power10(336) {
      FixedPartFits(n, Contains(Encode(value), SANITIZER_TRUNCATED));
    }
    return Bounded(envelope, JsonBytes(envelope), n, true, 1);
  }
}
