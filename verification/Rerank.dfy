/** llm_service/providers/bigmodel_models.py: one rerank request over any number of documents. */
module Rerank {
  import opened Common
  import opened StableSort
  import opened RerankBatches
  import opened RerankMerge

  datatype ProviderError = ProviderError(kind: string, message: string)

  /** One provider call: the documents of a batch and how many answers are wanted. */
  type Provider = (seq<Doc>, nat) -> Result<seq<Hit>, ProviderError>

  function Truncate(d: Doc): Doc {
    if d.None? || |d.value| <= RERANK_DOC_MAX_CHARS then d else Some(d.value[..RERANK_DOC_MAX_CHARS])
  }

  function TruncateAll(docs: seq<Doc>): (r: seq<Doc>)
    ensures AreSent(r, docs)
  {
    if docs == [] then [] else [Truncate(docs[0])] + TruncateAll(docs[1..])
  }

  /** What the provider is to see of the documents: the first 4096 characters of each, all if it has fewer. */
  ghost predicate AreSent(sent: seq<Doc>, documents: seq<Doc>) {
    && |sent| == |documents|
    && forall i :: 0 <= i < |documents| ==>
         && (sent[i].Some? <==> documents[i].Some?)
         && (documents[i].Some? ==> sent[i].value <= documents[i].value
                                    && |sent[i].value| == Min(4096, |documents[i].value|))
  }

  lemma SentOnce(a: seq<Doc>, b: seq<Doc>, documents: seq<Doc>)
    requires AreSent(a, documents) && AreSent(b, documents)
    ensures a == b
  {
    forall i | 0 <= i < |documents| ensures a[i] == b[i] {
      if documents[i].Some? {
        var n := Min(4096, |documents[i].value|);
        assert a[i].value == documents[i].value[..n] && b[i].value == documents[i].value[..n];
      }
    }
  }

  /** Short documents are sent as they are. */
  lemma ShortAreSent(documents: seq<Doc>)
    requires forall i :: 0 <= i < |documents| && documents[i].Some? ==> |documents[i].value| <= 4096
    ensures AreSent(documents, documents)
  {
  }

  predicate AllPresent(docs: seq<Doc>) {
    forall i :: 0 <= i < |docs| ==> docs[i].Some?
  }

  // ---------------------------------------------------------------- what an answer list should be

  ghost predicate Scored(hits: seq<Hit>, score: Doc -> real) {
    forall i :: 0 <= i < |hits| ==> hits[i].score == score(TextOf(hits[i]))
  }

  ghost predicate Descending(hits: seq<Hit>) {
    forall i, j :: 0 <= i < j < |hits| ==> hits[i].score >= hits[j].score
  }

  /** `d` reads like more documents than answers. */
  ghost predicate LeftOut(hits: seq<Hit>, docs: seq<Doc>, d: Doc) {
    Times(hits, d) < Count(docs, d)
  }

  /** No text is echoed more often than it occurs. */
  ghost predicate NotMoreOften(hits: seq<Hit>, docs: seq<Doc>) {
    forall d :: Times(hits, d) <= Count(docs, d)
  }

  /** Every text is echoed as often as it occurs. */
  ghost predicate AsOften(hits: seq<Hit>, docs: seq<Doc>) {
    |hits| == |docs| && forall d :: Times(hits, d) == Count(docs, d)
  }

  /** The best `n` texts of `docs`, best first, each echoed no more often than it occurs. */
  ghost predicate TopTexts(hits: seq<Hit>, docs: seq<Doc>, n: nat, score: Doc -> real) {
    && |hits| == Min(n, |docs|)
    && Scored(hits, score) && Descending(hits)
    && NotMoreOften(hits, docs)
    && forall d, i :: LeftOut(hits, docs, d) && 0 <= i < |hits| ==> hits[i].score >= score(d)
  }

  /** Every answer names a document of its own that reads like it. */
  ghost predicate OwnPlaces(hits: seq<Hit>, docs: seq<Doc>) {
    && (forall i :: 0 <= i < |hits| ==> hits[i].index.Some? && 0 <= hits[i].index.value < |docs|
                                        && docs[hits[i].index.value] == TextOf(hits[i]))
    && (forall i, j :: 0 <= i < j < |hits| ==> hits[i].index != hits[j].index)
  }

  ghost predicate ShortTexts(docs: seq<Doc>) {
    forall i :: 0 <= i < |docs| ==> docs[i].Some? && |docs[i].value| <= 4096
  }

  /** What the provider takes: texts of at most 4096 characters, and within its limits for one call a single
      one or up to 128 of them, in 28000 characters less the query, but never in fewer than 8000. */
  ghost predicate Acceptable(batch: seq<Doc>, queryLen: nat) {
    && ShortTexts(batch)
    && (|batch| <= 1 || (|batch| <= 128 && |AllText(batch)| <= if queryLen <= 20000 then 28000 - queryLen else 8000))
  }

  ghost predicate AllTaken(batches: seq<seq<Doc>>, queryLen: nat) {
    forall k :: 0 <= k < |batches| ==> Acceptable(batches[k], queryLen)
  }

  /** The provider's promise for what it takes: it scores a text the same way in every batch, echoes each
      document of the batch at most once, and either omits positions or gives right ones. */
  ghost predicate Faithful(call: Provider, score: Doc -> real, queryLen: nat) {
    forall batch, n :: Acceptable(batch, queryLen) ==>
      && call(batch, n).Ok?
      && TopTexts(call(batch, n).value, batch, n, score)
      && (AllByText(call(batch, n).value, false) || OwnPlaces(call(batch, n).value, batch))
  }

  /** The best `n` documents overall, by the score of what was sent of each: distinct positions, original
      texts, best first, and no document left out that scores higher than one returned. */
  ghost predicate GlobalTop(out: seq<Hit>, documents: seq<Doc>, sent: seq<Doc>, n: nat, score: Doc -> real)
    requires |sent| == |documents|
  {
    && |out| == Min(n, |documents|)
    && Descending(out)
    && (forall i :: 0 <= i < |out| ==> IsRestored(out[i], documents, sent, score))
    && (forall i, j :: 0 <= i < j < |out| ==> out[i].index != out[j].index)
    && (forall q, i :: 0 <= q < |documents| && !Listed(out, q) && 0 <= i < |out| ==> out[i].score >= score(sent[q]))
  }

  ghost predicate IsRestored(h: Hit, documents: seq<Doc>, sent: seq<Doc>, score: Doc -> real)
    requires |sent| == |documents|
  {
    && h.index.Some? && 0 <= h.index.value < |documents|
    && h.document == Wrapped(documents[h.index.value])
    && h.score == score(sent[h.index.value])
  }

  ghost predicate Listed(hits: seq<Hit>, q: int) {
    exists i :: 0 <= i < |hits| && hits[i].index == Some(q)
  }

  // ---------------------------------------------------------------- the request

  function NegatedScore(h: Hit): real { -h.score }

  method Rerank(documents: seq<Doc>, topN: Option<nat>, queryLen: nat, call: Provider, ghost score: Doc -> real)
    returns (r: Result<seq<Hit>, ProviderError>)
    ensures r.Err? ==> exists batch, m :: call(batch, m) == Err(r.error)
    ensures Faithful(call, score, queryLen) && AllPresent(documents) ==>
              && r.Ok?
              && (forall sent :: AreSent(sent, documents) ==>
                    GlobalTop(r.value, documents, sent, if topN.Some? then topN.value else |documents|, score))
              && ((forall i :: 0 <= i < |documents| ==> |documents[i].value| <= 4096) ==>
                    GlobalTop(r.value, documents, documents, if topN.Some? then topN.value else |documents|, score))
  {
    var n := if topN.Some? then topN.value else |documents|;
    var truncated := TruncateAll(documents);
    var batches := SplitBatches(truncated, RERANK_BATCH_SIZE, RERANK_BATCH_CHARS, queryLen);
    var response: Result<seq<Hit>, ProviderError>;
    if AllPresent(documents) {
      SentIsTaken(truncated, documents, batches, queryLen);
    }
    if |batches| == 1 {
      SingleBatch(batches, truncated);
      response := call(batches[0], n);
    } else {
      response := MergeBatches(truncated, batches, n, queryLen, call, score);
      if response.Ok? {
        AllIgnored(response.value);
      }
    }
    if response.Err? {
      return Err(response.error);
    }
    var out := Locate(response.value, documents, truncated, |batches| != 1, n, score);
    forall sent | AreSent(sent, documents) ensures sent == truncated {
      SentOnce(sent, truncated, documents);
    }
    if forall i :: 0 <= i < |documents| && documents[i].Some? ==> |documents[i].value| <= 4096 {
      ShortAreSent(documents);
    }
    return Ok(out);
  }

  /** Every batch is one that the provider takes. */
  lemma SentIsTaken(sent: seq<Doc>, documents: seq<Doc>, batches: seq<seq<Doc>>, queryLen: nat)
    requires AreSent(sent, documents) && AllPresent(documents)
    requires sent == [] ==> batches == [[]]
    requires sent != [] ==> IsSplit(batches, sent, RERANK_BATCH_SIZE, DocBudget(RERANK_BATCH_CHARS, queryLen))
    ensures AllTaken(batches, queryLen)
  {
    if sent != [] {
      PartsAreTaken(batches, queryLen);
    }
  }

  lemma ShortParts(a: seq<Doc>, b: seq<Doc>)
    requires ShortTexts(a + b)
    ensures ShortTexts(a) && ShortTexts(b)
  {
    assert forall i :: 0 <= i < |a| ==> a[i] == (a + b)[i];
    assert forall i :: 0 <= i < |b| ==> b[i] == (a + b)[|a| + i];
  }

  lemma {:induction false} PartsAreTaken(batches: seq<seq<Doc>>, queryLen: nat)
    requires AllFit(batches, RERANK_BATCH_SIZE, DocBudget(RERANK_BATCH_CHARS, queryLen))
    requires ShortTexts(Flatten(batches))
    ensures AllTaken(batches, queryLen)
  {
    if batches != [] {
      var head, rest := batches[0], Flatten(batches[1..]);
      CharsAreText(head);
      ShortParts(head, rest);
      PartsAreTaken(batches[1..], queryLen);
    }
  }

  /** Steps 4 and 5: one call per batch, all answers together, best first, the best `n` kept. */
  method MergeBatches(docs: seq<Doc>, batches: seq<seq<Doc>>, n: nat, ghost queryLen: nat, call: Provider, ghost score: Doc -> real)
    returns (r: Result<seq<Hit>, ProviderError>)
    requires docs == Flatten(batches)
    ensures r.Err? ==> exists batch, m :: call(batch, m) == Err(r.error)
    ensures Faithful(call, score, queryLen) && AllTaken(batches, queryLen) ==> r.Ok? && TopTexts(r.value, docs, n, score)
  {
    var responses := Map(batch => call(batch, |batch|), batches);
    if Faithful(call, score, queryLen) && AllTaken(batches, queryLen) {
      GatheredTexts(batches, responses, queryLen, call, score);
    }
    var answers: seq<Hit> := [];
    for k := 0 to |responses|
      invariant forall i :: 0 <= i < k ==> responses[i].Ok?
      invariant answers == Gathered(responses[..k])
    {
      if responses[k].Err? {
        assert call(batches[k], |batches[k]|) == responses[k];
        return Err(responses[k].error);
      }
      GatherOne(responses, k);
      answers := answers + responses[k].value;
    }
    assert responses[..|responses|] == responses;
    var sorted := Sort(answers, NegatedScore);
    if Faithful(call, score, queryLen) && AllTaken(batches, queryLen) {
      MergeIsTop(answers, docs, n, score);
    }
    return Ok(sorted[..Min(n, |sorted|)]);
  }

  /** Step 6: the position and the untruncated text of every answer. */
  method Locate(answers: seq<Hit>, documents: seq<Doc>, truncated: seq<Doc>, ignoreApiIndex: bool,
                ghost n: nat, ghost score: Doc -> real)
    returns (out: seq<Hit>)
    requires AreSent(truncated, documents)
    ensures && TopTexts(answers, truncated, n, score)
            && (AllByText(answers, ignoreApiIndex) || (!ignoreApiIndex && OwnPlaces(answers, truncated)))
            ==> GlobalTop(out, documents, truncated, n, score)
  {
    var results := new Hit[|answers|](i requires 0 <= i < |answers| => answers[i]);
    assert results[..] == answers;
    RebuildIndices(results, truncated, ignoreApiIndex);
    var placed := results[..];
    out := RestoreOriginals(placed, documents);
    if && TopTexts(answers, truncated, n, score)
       && (AllByText(answers, ignoreApiIndex) || (!ignoreApiIndex && OwnPlaces(answers, truncated))) {
      RebuiltOwnPlaces(answers, truncated, n, score, ignoreApiIndex);
      RestoredIsGlobal(placed, out, documents, truncated, n, score);
    }
  }

  function RestoreOne(h: Hit, originals: seq<Doc>): Hit {
    if h.index.Some? && 0 <= h.index.value < |originals| then
      h.(document := Wrapped(originals[h.index.value]))
    else h
  }

  /** Puts the untruncated text of its document into every answer that has one. */
  method RestoreOriginals(placed: seq<Hit>, originals: seq<Doc>) returns (out: seq<Hit>)
    ensures |out| == |placed|
    ensures forall i :: 0 <= i < |placed| ==> out[i] == RestoreOne(placed[i], originals)
  {
    out := placed;
    for i := 0 to |placed|
      invariant |out| == |placed|
      invariant forall k :: i <= k < |placed| ==> out[k] == placed[k]
      invariant forall k :: 0 <= k < i ==> out[k] == RestoreOne(placed[k], originals)
    {
      var index := if placed[i].index.Some? then placed[i].index.value else -1;
      if 0 <= index < |originals| {
        out := out[i := out[i].(document := Wrapped(originals[index]))];
      }
    }
  }

  /** The answers of the batches, in batch order. */
  function Gathered(responses: seq<Result<seq<Hit>, ProviderError>>): seq<Hit>
    requires forall i :: 0 <= i < |responses| ==> responses[i].Ok?
  {
    if responses == [] then [] else responses[0].value + Gathered(responses[1..])
  }

  lemma AllIgnored(hits: seq<Hit>)
    ensures AllByText(hits, true)
  {
  }

  lemma {:induction false} GatherOne(responses: seq<Result<seq<Hit>, ProviderError>>, k: nat)
    requires k < |responses| && forall i :: 0 <= i <= k ==> responses[i].Ok?
    ensures Gathered(responses[..k + 1]) == Gathered(responses[..k]) + responses[k].value
  {
    assert responses[..k + 1][1..] == responses[1..][..k];
    if k > 0 {
      assert responses[..k][1..] == responses[1..][..k - 1];
      GatherOne(responses[1..], k - 1);
    } else {
      assert Gathered(responses[1..][..0]) == [];
    }
  }

  // ---------------------------------------------------------------- merging

  lemma {:induction false} TimesAppend(a: seq<Hit>, b: seq<Hit>, d: Doc)
    ensures Times(a + b, d) == Times(a, d) + Times(b, d)
  {
    if a == [] {
      assert a + b == b;
    } else {
      assert (a + b)[0] == a[0] && (a + b)[1..] == a[1..] + b;
      TimesAppend(a[1..], b, d);
    }
  }

  lemma {:induction false} CountAppend(a: seq<Doc>, b: seq<Doc>, d: Doc)
    ensures Count(a + b, d) == Count(a, d) + Count(b, d)
  {
    if b == [] {
      assert a + b == a;
    } else {
      var n := |b| - 1;
      assert (a + b)[|a| + n] == b[n] && (a + b)[..|a| + n] == a + b[..n];
      CountAppend(a, b[..n], d);
    }
  }

  /** Dropping one occurrence. */
  lemma {:induction false} CountWithout(docs: seq<Doc>, k: nat, d: Doc)
    requires k < |docs|
    ensures Count(docs, d) == Count(docs[..k] + docs[k + 1..], d) + if docs[k] == d then 1 else 0
  {
    assert docs == docs[..k] + ([docs[k]] + docs[k + 1..]);
    CountAppend(docs[..k], [docs[k]] + docs[k + 1..], d);
    CountAppend([docs[k]], docs[k + 1..], d);
    CountAppend(docs[..k], docs[k + 1..], d);
    assert [docs[k]][..0] == [];
  }

  lemma {:induction false} CountPositive(docs: seq<Doc>, d: Doc) returns (k: nat)
    requires Count(docs, d) > 0
    ensures k < |docs| && docs[k] == d
  {
    k := |docs| - 1;
    if docs[k] != d {
      k := CountPositive(docs[..k], d);
    }
  }

  /** As many answers as documents, none echoed too often: every document is echoed. */
  lemma {:induction false} WholeBatch(hits: seq<Hit>, batch: seq<Doc>)
    requires |hits| == |batch| && NotMoreOften(hits, batch)
    ensures AsOften(hits, batch)
  {
    if hits != [] {
      var h, tail := TextOf(hits[0]), hits[1..];
      assert Times(hits, h) > 0;
      var k := CountPositive(batch, h);
      var less := batch[..k] + batch[k + 1..];
      forall d ensures Times(tail, d) <= Count(less, d) && Count(batch, d) == Count(less, d) + if h == d then 1 else 0 {
        CountWithout(batch, k, d);
      }
      WholeBatch(tail, less);
    }
  }

  lemma AppendAsOften(a: seq<Hit>, b: seq<Hit>, docs: seq<Doc>, more: seq<Doc>)
    requires AsOften(a, docs) && AsOften(b, more)
    ensures AsOften(a + b, docs + more)
  {
    forall d ensures Times(a + b, d) == Count(docs + more, d) {
      TimesAppend(a, b, d);
      CountAppend(docs, more, d);
    }
  }

  lemma {:induction false} GatheredTexts(batches: seq<seq<Doc>>, responses: seq<Result<seq<Hit>, ProviderError>>,
                                         queryLen: nat, call: Provider, score: Doc -> real)
    requires Faithful(call, score, queryLen)
    requires |responses| == |batches|
    requires forall i :: 0 <= i < |batches| ==> Acceptable(batches[i], queryLen) && responses[i] == call(batches[i], |batches[i]|)
    ensures forall i :: 0 <= i < |batches| ==> responses[i].Ok?
    ensures AsOften(Gathered(responses), Flatten(batches))
    ensures Scored(Gathered(responses), score)
  {
    if batches == [] {
    } else {
      assert responses[0].Ok?;
      var head, tail := responses[0].value, responses[1..];
      GatheredTexts(batches[1..], tail, queryLen, call, score);
      WholeBatch(head, batches[0]);
      AppendAsOften(head, Gathered(tail), batches[0], Flatten(batches[1..]));
    }
  }

  lemma {:induction false} InsertTimes(x: Hit, ys: seq<Hit>, d: Doc)
    ensures Times(Insert(x, ys, NegatedScore), d) == Times([x] + ys, d)
  {
    assert ([x] + ys)[1..] == ys;
    if ys == [] || NegatedScore(x) <= NegatedScore(ys[0]) {
    } else {
      InsertTimes(x, ys[1..], d);
      assert ([x] + ys[1..])[1..] == ys[1..];
      var r := Insert(x, ys[1..], NegatedScore);
      assert ([ys[0]] + r)[1..] == r;
    }
  }

  lemma {:induction false} SortTimes(xs: seq<Hit>, d: Doc)
    ensures Times(Sort(xs, NegatedScore), d) == Times(xs, d)
  {
    if xs != [] {
      SortTimes(xs[1..], d);
      var ys := Sort(xs[1..], NegatedScore);
      InsertTimes(xs[0], ys, d);
      assert ([xs[0]] + ys)[1..] == ys;
    }
  }

  lemma SortedAnswers(answers: seq<Hit>, score: Doc -> real)
    requires Scored(answers, score)
    ensures Scored(Sort(answers, NegatedScore), score) && Descending(Sort(answers, NegatedScore))
  {
    var sorted := Sort(answers, NegatedScore);
    SortOrdered(answers, NegatedScore);
    SortPermutes(answers, NegatedScore);
    forall i | 0 <= i < |sorted| ensures sorted[i].score == score(TextOf(sorted[i])) {
      assert sorted[i] in multiset(answers);
    }
    forall i, j | 0 <= i < j < |sorted| ensures sorted[i].score >= sorted[j].score {
      assert NegatedScore(sorted[i]) <= NegatedScore(sorted[j]);
    }
  }

  /** The first `n` of all answers, best first, are the best `n` texts overall. */
  lemma MergeIsTop(answers: seq<Hit>, docs: seq<Doc>, n: nat, score: Doc -> real)
    requires AsOften(answers, docs) && Scored(answers, score)
    ensures var sorted := Sort(answers, NegatedScore);
            TopTexts(sorted[..Min(n, |sorted|)], docs, n, score)
  {
    var sorted := Sort(answers, NegatedScore);
    SortedAnswers(answers, score);
    SortKeepsTexts(answers, docs);
    CutAt(sorted, docs, n, score);
  }

  lemma SortKeepsTexts(answers: seq<Hit>, docs: seq<Doc>)
    requires AsOften(answers, docs)
    ensures AsOften(Sort(answers, NegatedScore), docs)
  {
    SortPermutes(answers, NegatedScore);
    forall d ensures Times(Sort(answers, NegatedScore), d) == Count(docs, d) {
      SortTimes(answers, d);
    }
  }

  lemma CutAt(sorted: seq<Hit>, docs: seq<Doc>, n: nat, score: Doc -> real)
    requires Scored(sorted, score) && Descending(sorted) && AsOften(sorted, docs)
    ensures TopTexts(sorted[..Min(n, |sorted|)], docs, n, score)
  {
    var m := Min(n, |sorted|);
    assert sorted == sorted[..m] + sorted[m..];
    CutIsTop(sorted[..m], sorted[m..], docs, n, score);
  }

  lemma CutIsTop(top: seq<Hit>, rest: seq<Hit>, docs: seq<Doc>, n: nat, score: Doc -> real)
    requires Scored(top + rest, score) && Descending(top + rest)
    requires AsOften(top + rest, docs) && |top| == Min(n, |docs|)
    ensures TopTexts(top, docs, n, score)
  {
    RestIsScored(top, rest, score);
    forall d ensures Times(top, d) + Times(rest, d) == Count(docs, d) {
      TimesAppend(top, rest, d);
    }
    forall d, i | LeftOut(top, docs, d) && 0 <= i < |top| ensures top[i].score >= score(d) {
      LeftOutIsLower(top, rest, d, i, score);
    }
  }

  lemma RestIsScored(top: seq<Hit>, rest: seq<Hit>, score: Doc -> real)
    requires Scored(top + rest, score) && Descending(top + rest)
    ensures Scored(top, score) && Scored(rest, score) && Descending(top)
  {
    var all := top + rest;
    assert forall k :: 0 <= k < |rest| ==> all[|top| + k] == rest[k];
    assert forall k :: 0 <= k < |top| ==> all[k] == top[k];
  }

  lemma LeftOutIsLower(top: seq<Hit>, rest: seq<Hit>, d: Doc, i: nat, score: Doc -> real)
    requires Descending(top + rest) && Scored(rest, score)
    requires i < |top| && Times(rest, d) > 0
    ensures top[i].score >= score(d)
  {
    var k := TimesPositive(rest, d);
    assert (top + rest)[|top| + k] == rest[k] && (top + rest)[i] == top[i];
  }

  lemma {:induction false} TimesPositive(hits: seq<Hit>, d: Doc) returns (k: nat)
    requires Times(hits, d) > 0
    ensures k < |hits| && TextOf(hits[k]) == d
  {
    k := 0;
    if TextOf(hits[0]) != d {
      var j := TimesPositive(hits[1..], d);
      k := j + 1;
    }
  }

  // ---------------------------------------------------------------- positions

  /** No answer is left without a document when no text is echoed more often than it occurs. */
  lemma NoneMissing(hits: seq<Hit>, docs: seq<Doc>, ignoreApiIndex: bool, i: nat)
    requires AllByText(hits, ignoreApiIndex) && i < |hits|
    requires NotMoreOften(hits, docs)
    ensures |Rebuilt(hits, docs, {}, ignoreApiIndex)| == |hits|
    ensures Rebuilt(hits, docs, {}, ignoreApiIndex)[i].index != Some(-1)
  {
    var d := TextOf(hits[i]);
    assert {} * Places(docs, d) == {};
    PlacedByRank(hits, docs, {}, ignoreApiIndex, d, 0, i);
    PlacesCount(docs, d);
    EarlierTimes(hits, i);
  }

  lemma {:induction false} EarlierTimes(hits: seq<Hit>, i: nat)
    requires i < |hits|
    ensures Times(hits[..i], TextOf(hits[i])) < Times(hits, TextOf(hits[i]))
  {
    if i > 0 {
      assert hits[..i][1..] == hits[1..][..i - 1];
      EarlierTimes(hits[1..], i - 1);
    }
  }

  /** The answers with their positions are still the same answers, each with its own document. */
  lemma RebuiltOwnPlaces(hits: seq<Hit>, docs: seq<Doc>, n: nat, score: Doc -> real, ignoreApiIndex: bool)
    requires TopTexts(hits, docs, n, score)
    requires AllByText(hits, ignoreApiIndex) || (!ignoreApiIndex && OwnPlaces(hits, docs))
    ensures TopTexts(Rebuilt(hits, docs, {}, ignoreApiIndex), docs, n, score)
    ensures OwnPlaces(Rebuilt(hits, docs, {}, ignoreApiIndex), docs)
  {
    if AllByText(hits, ignoreApiIndex) {
      var r := Rebuilt(hits, docs, {}, ignoreApiIndex);
      RebuiltLength(hits, docs, {}, ignoreApiIndex);
      forall j | 0 <= j < |hits| ensures PlacedRight(hits, r, docs, j) {
        PlacesAreDistinct(hits, docs, {}, ignoreApiIndex, j);
        NoneMissing(hits, docs, ignoreApiIndex, j);
      }
      SameTexts(hits, r, docs, n, score);
    } else {
      KeptPlaces(hits, docs, {});
    }
  }

  ghost predicate PlacedRight(hits: seq<Hit>, r: seq<Hit>, docs: seq<Doc>, j: nat)
    requires |r| == |hits| && j < |hits|
  {
    && PlacedAs(hits[j], r[j], docs) && r[j].index.value != -1
    && forall i :: 0 <= i < j ==> r[i].index != r[j].index
  }

  lemma SameTexts(hits: seq<Hit>, r: seq<Hit>, docs: seq<Doc>, n: nat, score: Doc -> real)
    requires TopTexts(hits, docs, n, score)
    requires |r| == |hits| && forall j :: 0 <= j < |hits| ==> PlacedRight(hits, r, docs, j)
    ensures TopTexts(r, docs, n, score) && OwnPlaces(r, docs)
  {
    forall i | 0 <= i < |r|
      ensures PlacedAs(hits[i], r[i], docs) && r[i].index.value != -1
      ensures forall k :: 0 <= k < i ==> r[k].index != r[i].index
    {
      assert PlacedRight(hits, r, docs, i);
    }
    forall d ensures Times(r, d) == Times(hits, d) {
      TimesOfSame(hits, r, d);
    }
    forall d, i | LeftOut(r, docs, d) && 0 <= i < |r| ensures r[i].score >= score(d) {
      assert LeftOut(hits, docs, d);
      assert PlacedAs(hits[i], r[i], docs);
    }
  }

  lemma {:induction false} TimesOfSame(hits: seq<Hit>, r: seq<Hit>, d: Doc)
    requires |r| == |hits| && forall j :: 0 <= j < |hits| ==> TextOf(r[j]) == TextOf(hits[j])
    ensures Times(r, d) == Times(hits, d)
  {
    if hits != [] {
      TimesOfSame(hits[1..], r[1..], d);
    }
  }

  lemma {:induction false} KeptPlaces(hits: seq<Hit>, docs: seq<Doc>, used: set<int>)
    requires forall i :: 0 <= i < |hits| ==> hits[i].index.Some?
    ensures Rebuilt(hits, docs, used, false) == hits
  {
    if hits != [] {
      KeptPlaces(hits[1..], docs, used + {hits[0].index.value});
    }
  }

  // ---------------------------------------------------------------- from texts to documents

  /** The positions of the answers that read `d`. */
  function PositionsOf(hits: seq<Hit>, d: Doc): set<int>
    requires forall i :: 0 <= i < |hits| ==> hits[i].index.Some?
  {
    if hits == [] then {}
    else (if TextOf(hits[0]) == d then {hits[0].index.value} else {}) + PositionsOf(hits[1..], d)
  }

  lemma {:induction false} PositionsListed(hits: seq<Hit>, docs: seq<Doc>, d: Doc, p: int)
    requires OwnPlaces(hits, docs) && p in PositionsOf(hits, d)
    ensures p in Places(docs, d) && Listed(hits, p)
  {
    if TextOf(hits[0]) == d && p == hits[0].index.value {
    } else {
      var tail := hits[1..];
      PositionsListed(tail, docs, d, p);
      var i :| 0 <= i < |tail| && tail[i].index == Some(p);
      assert hits[i + 1].index == Some(p);
    }
  }

  lemma OwnPlacesOfTail(hits: seq<Hit>, docs: seq<Doc>)
    requires OwnPlaces(hits, docs) && hits != []
    ensures OwnPlaces(hits[1..], docs)
  {
  }

  lemma FirstNotAgain(hits: seq<Hit>, docs: seq<Doc>, d: Doc)
    requires OwnPlaces(hits, docs) && hits != []
    ensures OwnPlaces(hits[1..], docs) && hits[0].index.value !in PositionsOf(hits[1..], d)
  {
    var tail, first := hits[1..], hits[0].index.value;
    OwnPlacesOfTail(hits, docs);
    if first in PositionsOf(tail, d) {
      PositionsListed(tail, docs, d, first);
      assert false;
    }
  }

  lemma {:induction false} PositionsCount(hits: seq<Hit>, docs: seq<Doc>, d: Doc)
    requires OwnPlaces(hits, docs)
    ensures |PositionsOf(hits, d)| == Times(hits, d)
  {
    if hits != [] {
      FirstNotAgain(hits, docs, d);
      PositionsCount(hits[1..], docs, d);
    }
  }

  /** A document that no answer names reads like more documents than answers. */
  lemma UnlistedIsLeftOut(hits: seq<Hit>, docs: seq<Doc>, q: int)
    requires OwnPlaces(hits, docs) && 0 <= q < |docs| && !Listed(hits, q)
    ensures LeftOut(hits, docs, docs[q])
  {
    var d := docs[q];
    PositionsCount(hits, docs, d);
    PlacesCount(docs, d);
    forall p | p in PositionsOf(hits, d) ensures p in Places(docs, d) && p != q {
      PositionsListed(hits, docs, d, p);
    }
    assert q in Places(docs, d);
    SubsetSize(PositionsOf(hits, d), Places(docs, d));
  }

  lemma RestoredIsGlobal(placed: seq<Hit>, out: seq<Hit>, documents: seq<Doc>, docs: seq<Doc>, n: nat, score: Doc -> real)
    requires |docs| == |documents|
    requires TopTexts(placed, docs, n, score) && OwnPlaces(placed, docs)
    requires |out| == |placed|
    requires forall i :: 0 <= i < |placed| ==> out[i] == RestoreOne(placed[i], documents)
    ensures GlobalTop(out, documents, docs, n, score)
  {
    forall i | 0 <= i < |out|
      ensures IsRestored(out[i], documents, docs, score) && out[i].index == placed[i].index && out[i].score == placed[i].score
    {
    }
    forall q, i | 0 <= q < |documents| && !Listed(out, q) && 0 <= i < |out|
      ensures out[i].score >= score(docs[q])
    {
      UnlistedBefore(placed, out, q);
      UnlistedIsLeftOut(placed, docs, q);
      assert LeftOut(placed, docs, docs[q]);
    }
  }

  lemma UnlistedBefore(placed: seq<Hit>, out: seq<Hit>, q: int)
    requires |out| == |placed| && !Listed(out, q)
    requires forall i :: 0 <= i < |out| ==> out[i].index == placed[i].index
    ensures !Listed(placed, q)
  {
  }

  lemma SingleBatch(batches: seq<seq<Doc>>, docs: seq<Doc>)
    requires |batches| == 1
    requires docs == [] ==> batches == [[]]
    requires docs != [] ==> Flatten(batches) == docs
    ensures batches[0] == docs
  {
    assert Flatten(batches) == batches[0] + Flatten([]);
  }
}
