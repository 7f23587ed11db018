/** llm_service/providers/bigmodel_models.py: packing rerank documents into provider calls. */
module RerankBatches {
  import opened Common

  const RERANK_DOC_MAX_CHARS: nat := 4096
  const RERANK_BATCH_SIZE: nat := 128
  const RERANK_BATCH_CHARS: nat := 28000
  const MIN_DOC_BUDGET: nat := 8000

  /** A document text; the provider layer tolerates missing ones. */
  type Doc = Option<string>

  function DocLen(d: Doc): nat {
    if d.Some? then |d.value| else 0
  }

  function Chars(docs: seq<Doc>): nat {
    if docs == [] then 0 else DocLen(docs[0]) + Chars(docs[1..])
  }

  /** The texts of all the documents, one after the other. */
  function AllText(docs: seq<Doc>): string {
    if docs == [] then "" else (match docs[0] case None => "" case Some(text) => text) + AllText(docs[1..])
  }

  lemma {:induction false} CharsAreText(docs: seq<Doc>)
    ensures Chars(docs) == |AllText(docs)|
  {
    if docs != [] {
      CharsAreText(docs[1..]);
    }
  }

  /** The characters left for documents once the query has its share, never below a floor. */
  function DocBudget(maxChars: int, queryLen: nat): (r: nat)
    ensures r >= 8000 && r >= maxChars - queryLen && (r == 8000 || r == maxChars - queryLen)
  {
    if maxChars - queryLen >= MIN_DOC_BUDGET then maxChars - queryLen else MIN_DOC_BUDGET
  }

  /** One provider call may hold a single document of any size, or several within both limits. */
  predicate Fits(batch: seq<Doc>, maxCount: int, budget: nat) {
    |batch| == 1 || (1 < |batch| <= maxCount && Chars(batch) <= budget)
  }

  predicate AllFit(batches: seq<seq<Doc>>, maxCount: int, budget: nat) {
    batches == [] || (Fits(batches[0], maxCount, budget) && AllFit(batches[1..], maxCount, budget))
  }

  /** A way to cut `docs` into consecutive calls. */
  predicate IsSplit(batches: seq<seq<Doc>>, docs: seq<Doc>, maxCount: int, budget: nat) {
    Flatten(batches) == docs && AllFit(batches, maxCount, budget)
  }

  /** Every batch is closed only when the document after it would not have fitted. */
  predicate ClosedLate(batches: seq<seq<Doc>>, maxCount: int, budget: nat) {
    |batches| > 1 ==>
      && batches[1] != []
      && !Fits(batches[0] + [batches[1][0]], maxCount, budget)
      && ClosedLate(batches[1..], maxCount, budget)
  }

  method SplitBatches(docs: seq<Doc>, maxCount: int, maxChars: int, queryLen: nat)
    returns (batches: seq<seq<Doc>>)
    ensures docs == [] ==> batches == [[]]
    ensures docs != [] ==> IsSplit(batches, docs, maxCount, DocBudget(maxChars, queryLen))
    ensures docs != [] ==> ClosedLate(batches, maxCount, DocBudget(maxChars, queryLen))
  {
    var budget := DocBudget(maxChars, queryLen);
    batches := [];
    var current: seq<Doc> := [];
    var currentLen := 0;
    for i := 0 to |docs|
      invariant currentLen == Chars(current)
      invariant i == 0 ==> batches == [] && current == []
      invariant i > 0 ==> current != [] && Packed(batches + [current], docs[..i], maxCount, budget)
    {
      var d := docs[i];
      CharsAppend(current, [d]);
      assert docs[..i + 1] == docs[..i] + [d];
      if current != [] && (|current| >= maxCount || currentLen + DocLen(d) > budget) {
        OpenBatch(batches, current, d, docs[..i], maxCount, budget);
        batches := batches + [current];
        current := [];
        currentLen := 0;
        assert current + [d] == [d];
      } else {
        GrowBatch(batches, current, d, docs[..i], maxCount, budget);
      }
      current := current + [d];
      currentLen := currentLen + DocLen(d);
    }
    assert docs[..|docs|] == docs;
    if current != [] {
      batches := batches + [current];
    }
    if batches == [] {
      batches := [docs];
    }
  }

  /** What the loop has built: a late-closing split of the documents read so far. */
  predicate Packed(batches: seq<seq<Doc>>, docs: seq<Doc>, maxCount: int, budget: nat) {
    IsSplit(batches, docs, maxCount, budget) && ClosedLate(batches, maxCount, budget)
  }

  lemma CharsAppend(a: seq<Doc>, b: seq<Doc>)
    ensures Chars(a + b) == Chars(a) + Chars(b)
    ensures b != [] ==> Chars([b[0]]) == DocLen(b[0])
  {
    if a == [] {
      assert a + b == b;
    } else {
      assert (a + b)[1..] == a[1..] + b;
    }
  }

  lemma {:induction false} OpenBatch(batches: seq<seq<Doc>>, current: seq<Doc>, d: Doc, docs: seq<Doc>,
                                     maxCount: int, budget: nat)
    requires current != [] && Packed(batches + [current], docs, maxCount, budget)
    requires |current| >= maxCount || Chars(current) + DocLen(d) > budget
    ensures Packed((batches + [current]) + [[d]], docs + [d], maxCount, budget)
  {
    if batches == [] {
      CharsAppend(current, [d]);
      assert ([current] + [[d]])[1..] == [[d]];
      assert Flatten([current]) == current + Flatten([]) == current;
      assert Flatten([[d]]) == [d] + Flatten([]) == [d];
    } else {
      var all := batches + [current];
      assert all[0] == batches[0] && all[1..] == batches[1..] + [current];
      assert (all + [[d]])[1..] == all[1..] + [[d]];
      OpenBatch(batches[1..], current, d, Flatten(all[1..]), maxCount, budget);
    }
  }

  lemma {:induction false} GrowBatch(batches: seq<seq<Doc>>, current: seq<Doc>, d: Doc, docs: seq<Doc>,
                                     maxCount: int, budget: nat)
    requires current == [] ==> batches == [] && docs == []
    requires current != [] ==> Packed(batches + [current], docs, maxCount, budget)
    requires current == [] || (|current| < maxCount && Chars(current) + DocLen(d) <= budget)
    ensures Packed(batches + [current + [d]], docs + [d], maxCount, budget)
  {
    var grown := current + [d];
    CharsAppend(current, [d]);
    if batches == [] {
      assert Flatten([grown]) == grown + Flatten([]) == grown;
      assert current != [] ==> Flatten([current]) == current + Flatten([]) == current;
    } else {
      var all := batches + [current];
      assert all[0] == batches[0] && all[1..] == batches[1..] + [current];
      GrowBatch(batches[1..], current, d, Flatten(all[1..]), maxCount, budget);
      GrowTail(batches, current, grown);
    }
  }

  lemma GrowTail(batches: seq<seq<Doc>>, current: seq<Doc>, grown: seq<Doc>)
    requires batches != []
    ensures (batches + [grown])[0] == batches[0] && (batches + [grown])[1..] == batches[1..] + [grown]
    ensures |batches| > 1 ==> (batches + [grown])[1] == (batches + [current])[1] == batches[1]
    ensures |batches| == 1 ==> (batches + [grown])[1] == grown && (batches + [current])[1] == current
  {
  }

  // ---------------------------------------------------------------- optimality

  /** Dropping documents from either end of a batch that fits leaves one that fits. */
  lemma FitsShrinks(left: seq<Doc>, batch: seq<Doc>, right: seq<Doc>, maxCount: int, budget: nat)
    requires Fits(left + batch + right, maxCount, budget) && batch != []
    ensures Fits(batch, maxCount, budget)
  {
    CharsAppend(left + batch, right);
    CharsAppend(left, batch);
  }

  lemma DropFirst(a: seq<Doc>, b: seq<Doc>, o: seq<Doc>, rest: seq<Doc>)
    requires o + rest == a + b && |a| <= |o|
    ensures o == a + o[|a|..] && o[|a|..] + rest == b
  {
    assert (o + rest)[..|a|] == o[..|a|] && (a + b)[..|a|] == a;
    assert (o + rest)[|a|..] == o[|a|..] + rest && (a + b)[|a|..] == b;
  }

  /** The document that comes after `skipped` and `l` is in `o` too, if `o` is longer than both. */
  lemma NextIsIn(skipped: seq<Doc>, l: seq<Doc>, next: seq<Doc>, o: seq<Doc>, rest: seq<Doc>) returns (right: seq<Doc>)
    requires o + rest == skipped + (l + next)
    requires |skipped| + |l| < |o|
    ensures next != [] && o == skipped + (l + [next[0]]) + right
  {
    DropFirst(skipped, l + next, o, rest);
    var p := o[|skipped|..];
    DropFirst(l, next, p, rest);
    var q := p[|l|..];
    assert q[0] == (q + rest)[0] == next[0];
    right := q[1..];
    assert q == [next[0]] + right;
  }

  /** If the first call of one split overtakes the first call of the other, the next document
      would have fitted there too. */
  lemma Overtaken(skipped: seq<Doc>, late: seq<seq<Doc>>, o: seq<Doc>, rest: seq<Doc>, maxCount: int, budget: nat)
    requires o + rest == skipped + Flatten(late)
    requires late != [] && AllFit(late, maxCount, budget) && Fits(o, maxCount, budget)
    requires |skipped| + |late[0]| < |o|
    ensures |late| > 1 && late[1] != [] && Fits(late[0] + [late[1][0]], maxCount, budget)
  {
    var next := Flatten(late[1..]);
    assert Flatten(late) == late[0] + next;
    var right := NextIsIn(skipped, late[0], next, o, rest);
    assert |late| > 1 && next == late[1] + Flatten(late[1..][1..]);
    assert Fits(late[1..][0], maxCount, budget);
    FitsShrinks(skipped, late[0] + [next[0]], right, maxCount, budget);
  }

  /** Staying ahead: a split that closes late needs no more calls for a suffix of the documents
      than any split needs for all of them. */
  lemma {:induction false} StaysAhead(skipped: seq<Doc>, late: seq<seq<Doc>>, other: seq<seq<Doc>>,
                                      maxCount: int, budget: nat)
    requires Flatten(other) == skipped + Flatten(late)
    requires AllFit(late, maxCount, budget) && ClosedLate(late, maxCount, budget)
    requires AllFit(other, maxCount, budget)
    ensures |late| <= |other|
    decreases |other|
  {
    if late == [] {
    } else {
      assert Flatten(late) == late[0] + Flatten(late[1..]);
      assert other != [];
      var o, rest := other[0], Flatten(other[1..]);
      assert o + rest == skipped + Flatten(late);
      if |skipped| >= |o| {
        assert skipped == o + skipped[|o|..] by {
          assert skipped[..|o|] == (skipped + Flatten(late))[..|o|] == o;
        }
        assert rest == skipped[|o|..] + Flatten(late);
        StaysAhead(skipped[|o|..], late, other[1..], maxCount, budget);
      } else {
        var y := |o| - |skipped|;
        if |late[0]| < y {
          Overtaken(skipped, late, o, rest, maxCount, budget);
          assert false;
        }
        DropBoth(skipped, late[0], Flatten(late[1..]), o, rest);
        StaysAhead(late[0][y..], late[1..], other[1..], maxCount, budget);
      }
    }
  }

  lemma DropBoth(skipped: seq<Doc>, l: seq<Doc>, lateRest: seq<Doc>, o: seq<Doc>, rest: seq<Doc>)
    requires o + rest == skipped + (l + lateRest)
    requires |skipped| <= |o| <= |skipped| + |l|
    ensures rest == l[|o| - |skipped|..] + lateRest
  {
    var all := o + rest;
    assert all[|o|..] == rest;
    assert all[|skipped|..] == l + lateRest;
    assert all[|o|..] == all[|skipped|..][|o| - |skipped|..];
  }

  /** The greedy packing is optimal: no other way to cut the same documents under the same rule
      makes fewer provider calls. */
  lemma GreedyIsOptimal(batches: seq<seq<Doc>>, other: seq<seq<Doc>>, docs: seq<Doc>, maxCount: int, budget: nat)
    requires IsSplit(batches, docs, maxCount, budget) && ClosedLate(batches, maxCount, budget)
    requires IsSplit(other, docs, maxCount, budget)
    ensures |batches| <= |other|
  {
    assert [] + docs == docs;
    StaysAhead([], batches, other, maxCount, budget);
  }

  /** Only one packing closes late, so the rule determines what the loop returns. */
  lemma {:induction false} GreedyIsUnique(a: seq<seq<Doc>>, b: seq<seq<Doc>>, docs: seq<Doc>, maxCount: int, budget: nat)
    requires IsSplit(a, docs, maxCount, budget) && ClosedLate(a, maxCount, budget)
    requires IsSplit(b, docs, maxCount, budget) && ClosedLate(b, maxCount, budget)
    ensures a == b
    decreases |a|
  {
    if a == [] {
      assert b == [];
    } else {
      assert b != [];
      NotLonger(a, b, docs, maxCount, budget);
      NotLonger(b, a, docs, maxCount, budget);
      assert docs[..|a[0]|] == a[0] && docs[..|b[0]|] == b[0];
      assert docs[|a[0]|..] == Flatten(a[1..]) && docs[|b[0]|..] == Flatten(b[1..]);
      GreedyIsUnique(a[1..], b[1..], docs[|a[0]|..], maxCount, budget);
      assert a == [a[0]] + a[1..] && b == [b[0]] + b[1..];
    }
  }

  lemma NotLonger(a: seq<seq<Doc>>, b: seq<seq<Doc>>, docs: seq<Doc>, maxCount: int, budget: nat)
    requires a != [] && b != []
    requires IsSplit(a, docs, maxCount, budget) && ClosedLate(a, maxCount, budget)
    requires IsSplit(b, docs, maxCount, budget)
    ensures |b[0]| <= |a[0]|
  {
    if |a[0]| < |b[0]| {
      assert [] + docs == docs;
      Overtaken([], a, b[0], Flatten(b[1..]), maxCount, budget);
    }
  }
}
