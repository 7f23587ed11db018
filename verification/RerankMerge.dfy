/** llm_service/providers/bigmodel_models.py: merging rerank answers and finding each answer's document. */
module RerankMerge {
  import opened Common
  import opened RerankBatches

  /** The `document` field of an answer: absent, a plain text, or an object with a `text` member. */
  datatype DocField = Absent | Plain(text: string) | Wrapped(inner: Option<string>)

  datatype Hit = Hit(document: DocField, index: Option<int>, score: real)

  function ExtractDocText(d: DocField): (r: string)
    ensures d in {Plain(r), Wrapped(Some(r))} || (r == "" && d in {Absent, Wrapped(None)})
  {
    match d
    case Absent => ""
    case Plain(t) => t
    case Wrapped(t) => if t.Some? then t.value else ""
  }

  function TextOf(h: Hit): Doc {
    Some(ExtractDocText(h.document))
  }

  // ---------------------------------------------------------------- finding the document of an answer

  /** The positions of the documents that read `d`. */
  function Places(docs: seq<Doc>, d: Doc): set<int> {
    set i | 0 <= i < |docs| && docs[i] == d
  }

  /** The first position of `d` at or after `from` that is not taken, or -1. */
  function FirstFree(docs: seq<Doc>, d: Doc, used: set<int>, from: nat): (r: int)
    requires from <= |docs|
    ensures r == -1 || (from <= r < |docs| && docs[r] == d && r !in used)
    ensures forall i :: from <= i < |docs| && docs[i] == d && i !in used ==> r != -1 && r <= i
    decreases |docs| - from
  {
    if from == |docs| then -1
    else if docs[from] == d && from !in used then from
    else FirstFree(docs, d, used, from + 1)
  }

  predicate KeepsIndex(h: Hit, ignoreApiIndex: bool) {
    !ignoreApiIndex && h.index.Some?
  }

  /** The answers with their document positions filled in, given the positions already taken. */
  function Rebuilt(hits: seq<Hit>, docs: seq<Doc>, used: set<int>, ignoreApiIndex: bool): seq<Hit> {
    if hits == [] then []
    else if KeepsIndex(hits[0], ignoreApiIndex) then
      [hits[0]] + Rebuilt(hits[1..], docs, used + {hits[0].index.value}, ignoreApiIndex)
    else
      var i := FirstFree(docs, TextOf(hits[0]), used, 0);
      [hits[0].(index := Some(i))]
        + Rebuilt(hits[1..], docs, if i == -1 then used else used + {i}, ignoreApiIndex)
  }

  /** The ascending positions of each text, as the source's dictionary holds them. */
  ghost predicate IsPlaceIndex(m: map<Doc, seq<nat>>, docs: seq<Doc>, n: nat)
    requires n <= |docs|
  {
    && (forall d :: d in m ==> Increasing(m[d]) && forall k :: 0 <= k < |m[d]| ==> m[d][k] < n && docs[m[d][k]] == d)
    && (forall i :: 0 <= i < n ==> docs[i] in m && i in m[docs[i]])
  }

  ghost predicate Increasing(xs: seq<nat>) {
    forall j, k :: 0 <= j < k < |xs| ==> xs[j] < xs[k]
  }

  method IndexPlaces(docs: seq<Doc>) returns (docToIdx: map<Doc, seq<nat>>)
    ensures IsPlaceIndex(docToIdx, docs, |docs|)
  {
    docToIdx := map[];
    for i := 0 to |docs|
      invariant IsPlaceIndex(docToIdx, docs, i)
    {
      var d := docs[i];
      var places := if d in docToIdx then docToIdx[d] else [];
      docToIdx := docToIdx[d := places + [i]];
    }
  }

  /** The inner loop: the first candidate that is not taken, or -1. */
  method FirstUnused(docToIdx: map<Doc, seq<nat>>, docs: seq<Doc>, text: Doc, used: set<int>) returns (r: int)
    requires IsPlaceIndex(docToIdx, docs, |docs|)
    ensures r == FirstFree(docs, text, used, 0)
  {
    var candidates := if text in docToIdx then docToIdx[text] else [];
    ghost var free := FirstFree(docs, text, used, 0);
    assert free != -1 ==> free in candidates;
    for k := 0 to |candidates|
      invariant forall j :: 0 <= j < k ==> candidates[j] in used
    {
      if candidates[k] !in used {
        return candidates[k];
      }
    }
    return -1;
  }

  method RebuildIndices(results: array<Hit>, docs: seq<Doc>, ignoreApiIndex: bool)
    modifies results
    ensures results[..] == Rebuilt(old(results[..]), docs, {}, ignoreApiIndex)
  {
    var docToIdx := IndexPlaces(docs);
    var used: set<int> := {};
    ghost var before := results[..];
    ghost var done: seq<Hit> := [];
    for k := 0 to results.Length
      invariant results[..k] == done && results[k..] == before[k..]
      invariant done + Rebuilt(before[k..], docs, used, ignoreApiIndex) == Rebuilt(before, docs, {}, ignoreApiIndex)
    {
      var item := results[k];
      assert item == results[k..][0] == before[k];
      HeadOfRest(before, k);
      ghost var wasUsed := used;
      if KeepsIndex(item, ignoreApiIndex) {
        used := used + {item.index.value};
      } else {
        var index := FirstUnused(docToIdx, docs, TextOf(item), used);
        results[k] := item.(index := Some(index));
        if index != -1 {
          used := used + {index};
        }
      }
      RebuildStep(done, item, results[k], before[k + 1..], docs, wasUsed, used, ignoreApiIndex);
      done := done + [results[k]];
      assert results[k + 1..] == before[k..][1..];
    }
    assert results[..results.Length] == results[..];
    assert before[results.Length..] == [];
  }

  lemma HeadOfRest(before: seq<Hit>, k: nat)
    requires k < |before|
    ensures before[k..] == [before[k]] + before[k + 1..] && before[k..][1..] == before[k + 1..]
  {
  }

  lemma RebuildStep(done: seq<Hit>, item: Hit, placed: Hit, rest: seq<Hit>, docs: seq<Doc>,
                    used: set<int>, used': set<int>, ignoreApiIndex: bool)
    requires KeepsIndex(item, ignoreApiIndex) ==> placed == item && used' == used + {item.index.value}
    requires !KeepsIndex(item, ignoreApiIndex) ==>
               var i := FirstFree(docs, TextOf(item), used, 0);
               placed == item.(index := Some(i)) && used' == if i == -1 then used else used + {i}
    ensures done + Rebuilt([item] + rest, docs, used, ignoreApiIndex)
         == (done + [placed]) + Rebuilt(rest, docs, used', ignoreApiIndex)
  {
    assert ([item] + rest)[1..] == rest;
    assert Rebuilt([item] + rest, docs, used, ignoreApiIndex) == [placed] + Rebuilt(rest, docs, used', ignoreApiIndex);
  }

  // ---------------------------------------------------------------- what the positions mean

  /** No answer brings a position of its own that the code would keep. */
  predicate AllByText(hits: seq<Hit>, ignoreApiIndex: bool) {
    hits == [] || (!KeepsIndex(hits[0], ignoreApiIndex) && AllByText(hits[1..], ignoreApiIndex))
  }

  /** How many answers read `d`. */
  function Times(hits: seq<Hit>, d: Doc): nat {
    if hits == [] then 0 else (if TextOf(hits[0]) == d then 1 else 0) + Times(hits[1..], d)
  }

  /** How many documents read `d`. */
  function Count(docs: seq<Doc>, d: Doc): nat {
    if docs == [] then 0 else (if docs[|docs| - 1] == d then 1 else 0) + Count(docs[..|docs| - 1], d)
  }

  lemma {:induction false} PlacesCount(docs: seq<Doc>, d: Doc)
    ensures |Places(docs, d)| == Count(docs, d)
  {
    if docs == [] {
      assert Places(docs, d) == {};
    } else {
      var n := |docs| - 1;
      PlacesCount(docs[..n], d);
      if docs[n] == d {
        assert Places(docs, d) == Places(docs[..n], d) + {n};
      } else {
        assert Places(docs, d) == Places(docs[..n], d);
      }
    }
  }

  function Min(a: int, b: int): int { if a <= b then a else b }

  /** One turn: the first free place of the answer's text is taken, if there is one. */
  lemma TakePlace(docs: seq<Doc>, t: Doc, d: Doc, used: set<int>, seen: nat)
    requires |used * Places(docs, d)| == Min(seen, |Places(docs, d)|)
    ensures var f := FirstFree(docs, t, used, 0);
            var used' := if f == -1 then used else used + {f};
            var seen' := if t == d then seen + 1 else seen;
            && |used' * Places(docs, d)| == Min(seen', |Places(docs, d)|)
            && (t == d ==> (f == -1 <==> seen >= |Places(docs, d)|))
  {
    var f := FirstFree(docs, t, used, 0);
    if t == d {
      if f == -1 {
        assert forall p :: p in Places(docs, d) ==> p in used;
      } else {
        assert f in Places(docs, d);
      }
      TakeOne(used, Places(docs, d), f, seen);
    } else {
      assert f !in Places(docs, d);
      assert (used + {f}) * Places(docs, d) == used * Places(docs, d);
    }
  }

  lemma TakeOne(used: set<int>, places: set<int>, f: int, seen: nat)
    requires |used * places| == Min(seen, |places|)
    requires f == -1 ==> places <= used
    requires f != -1 ==> f in places && f !in used
    ensures f == -1 <==> seen >= |places|
    ensures |(if f == -1 then used else used + {f}) * places| == Min(seen + 1, |places|)
  {
    SubsetSize(used * places, places);
    if f == -1 {
      assert used * places == places;
    } else {
      assert (used + {f}) * places == used * places + {f};
      SubsetSize(used * places + {f}, places);
    }
  }

  /** An answer gets no place exactly when all the documents that read like it went to earlier answers. */
  lemma {:induction false} PlacedByRank(hits: seq<Hit>, docs: seq<Doc>, used: set<int>, ignoreApiIndex: bool,
                                        d: Doc, seen: nat, i: nat)
    requires AllByText(hits, ignoreApiIndex)
    requires |used * Places(docs, d)| == Min(seen, |Places(docs, d)|)
    requires i < |hits| && TextOf(hits[i]) == d
    ensures |Rebuilt(hits, docs, used, ignoreApiIndex)| == |hits|
    ensures (Rebuilt(hits, docs, used, ignoreApiIndex)[i].index == Some(-1))
         == (seen + Times(hits[..i], d) >= |Places(docs, d)|)
  {
    RebuiltLength(hits, docs, used, ignoreApiIndex);
    var t := TextOf(hits[0]);
    TakePlace(docs, t, d, used, seen);
    if i > 0 {
      var f := FirstFree(docs, t, used, 0);
      assert hits[..i][1..] == hits[1..][..i - 1];
      PlacedByRank(hits[1..], docs, if f == -1 then used else used + {f}, ignoreApiIndex, d,
                   if t == d then seen + 1 else seen, i - 1);
    }
  }

  lemma {:induction false} RebuiltLength(hits: seq<Hit>, docs: seq<Doc>, used: set<int>, ignoreApiIndex: bool)
    ensures |Rebuilt(hits, docs, used, ignoreApiIndex)| == |hits|
  {
    if hits != [] {
      var f := FirstFree(docs, TextOf(hits[0]), used, 0);
      RebuiltLength(hits[1..], docs, used + {if hits[0].index.Some? then hits[0].index.value else 0}, ignoreApiIndex);
      RebuiltLength(hits[1..], docs, if f == -1 then used else used + {f}, ignoreApiIndex);
    }
  }

  /** An answer differs from the one it came from in its position only; a position other than -1
      names a document that reads like the answer. */
  predicate PlacedAs(h: Hit, placed: Hit, docs: seq<Doc>) {
    && placed.index.Some? && placed == h.(index := placed.index)
    && (placed.index.value == -1 ||
        (0 <= placed.index.value < |docs| && docs[placed.index.value] == TextOf(h)))
  }

  /** Positions found by text name matching documents, none of them taken before or twice. */
  lemma {:induction false} PlacesAreDistinct(hits: seq<Hit>, docs: seq<Doc>, used: set<int>, ignoreApiIndex: bool, j: nat)
    requires AllByText(hits, ignoreApiIndex) && j < |hits|
    ensures var r := Rebuilt(hits, docs, used, ignoreApiIndex);
            && |r| == |hits|
            && PlacedAs(hits[j], r[j], docs)
            && (r[j].index.value != -1 ==> r[j].index.value !in used)
            && (r[j].index.value != -1 ==> forall i :: 0 <= i < j ==> r[i].index != r[j].index)
  {
    RebuiltLength(hits, docs, used, ignoreApiIndex);
    if j > 0 {
      var f := FirstFree(docs, TextOf(hits[0]), used, 0);
      var used' := if f == -1 then used else used + {f};
      PlacesAreDistinct(hits[1..], docs, used', ignoreApiIndex, j - 1);
      var r, tail := Rebuilt(hits, docs, used, ignoreApiIndex), Rebuilt(hits[1..], docs, used', ignoreApiIndex);
      assert r == [hits[0].(index := Some(f))] + tail;
      assert r[j] == tail[j - 1];
      assert forall i :: 0 < i < j ==> r[i] == tail[i - 1];
    }
  }

  /** With positions supplied by the provider mixed in, two answers can name one document: a
      position found by text does not stop a later answer from bringing the same one. */
  lemma MixedPositionsMayCollide() returns (hits: seq<Hit>, docs: seq<Doc>)
    ensures |hits| == 2 && |docs| == 1
    ensures var r := Rebuilt(hits, docs, {}, false);
            |r| == 2 && r[0].index == r[1].index == Some(0)
  {
    var a, b := Hit(Plain("x"), None, 1.0), Hit(Plain("x"), Some(0), 0.0);
    hits, docs := [a, b], [Some("x")];
    assert hits[1..] == [b] && [b][1..] == [];
    assert FirstFree(docs, Some("x"), {}, 0) == 0;
    assert Rebuilt(hits, docs, {}, false) == [a.(index := Some(0))] + Rebuilt([b], docs, {} + {0}, false);
    assert {} + {0} == {0};
    assert Rebuilt([b], docs, {0}, false) == [b] + Rebuilt([], docs, {0} + {0}, false);
  }
}
