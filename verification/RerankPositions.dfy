/** llm_service/providers/bigmodel_models.py: answers of which some bring a position and others do not. */
module RerankPositions {
  import opened Common
  import opened RerankBatches
  import opened RerankMerge

  /** Every answer has a position, and -1 is the only one that two may share. */
  ghost predicate PositionsDiffer(hits: seq<Hit>) {
    && (forall i :: 0 <= i < |hits| ==> hits[i].index.Some?)
    && (forall i, j :: 0 <= i < j < |hits| && hits[i].index == hits[j].index ==> hits[i].index == Some(-1))
  }

  /** The positions that the answers bring along. */
  function GivenBy(hits: seq<Hit>, ignoreApiIndex: bool): set<int> {
    if hits == [] then {}
    else
      var last := hits[|hits| - 1];
      GivenBy(hits[..|hits| - 1], ignoreApiIndex) + if KeepsIndex(last, ignoreApiIndex) then {last.index.value} else {}
  }

  /** How many answers read `d` and bring no position. */
  function Unplaced(hits: seq<Hit>, d: Doc, ignoreApiIndex: bool): nat {
    if hits == [] then 0
    else
      var last := hits[|hits| - 1];
      Unplaced(hits[..|hits| - 1], d, ignoreApiIndex) + if !KeepsIndex(last, ignoreApiIndex) && TextOf(last) == d then 1 else 0
  }

  /** How many of the first `p` documents read `d` and are not given. */
  function Spare(docs: seq<Doc>, d: Doc, given: set<int>, p: nat): nat
    requires p <= |docs|
  {
    if p == 0 then 0 else Spare(docs, d, given, p - 1) + if docs[p - 1] == d && p - 1 !in given then 1 else 0
  }

  /** The answers before it neither bring position `g` nor need it: before `g` there are enough documents
      with the same text for those that bring none. */
  predicate LeftAlone(before: seq<Hit>, docs: seq<Doc>, g: int, ignoreApiIndex: bool) {
    && g !in GivenBy(before, ignoreApiIndex)
    && (0 <= g < |docs| ==>
          Unplaced(before, docs[g], ignoreApiIndex) <= Spare(docs, docs[g], GivenBy(before, ignoreApiIndex), g))
  }

  /** The condition on the provider's list: no position it gives is given or needed earlier. */
  predicate GivenInTime(hits: seq<Hit>, docs: seq<Doc>, ignoreApiIndex: bool) {
    forall j :: 0 <= j < |hits| && KeepsIndex(hits[j], ignoreApiIndex) && hits[j].index.value != -1 ==>
      LeftAlone(hits[..j], docs, hits[j].index.value, ignoreApiIndex)
  }

  // ---------------------------------------------------------------- one answer at a time, from the front

  function PlacedOne(h: Hit, docs: seq<Doc>, used: set<int>, ignoreApiIndex: bool): Hit {
    if KeepsIndex(h, ignoreApiIndex) then h else h.(index := Some(FirstFree(docs, TextOf(h), used, 0)))
  }

  /** -1 is noted as taken only when the provider gave it; nobody looks for it. */
  function UsedWith(h: Hit, docs: seq<Doc>, used: set<int>, ignoreApiIndex: bool): set<int> {
    var placed := PlacedOne(h, docs, used, ignoreApiIndex);
    if KeepsIndex(h, ignoreApiIndex) || placed.index != Some(-1) then used + {placed.index.value} else used
  }

  function UsedAfter(hits: seq<Hit>, docs: seq<Doc>, used: set<int>, ignoreApiIndex: bool): set<int> {
    if hits == [] then used
    else UsedWith(hits[|hits| - 1], docs, UsedAfter(hits[..|hits| - 1], docs, used, ignoreApiIndex), ignoreApiIndex)
  }

  lemma RebuiltHead(h: Hit, rest: seq<Hit>, docs: seq<Doc>, used: set<int>, ignoreApiIndex: bool)
    ensures Rebuilt([h] + rest, docs, used, ignoreApiIndex)
         == [PlacedOne(h, docs, used, ignoreApiIndex)] + Rebuilt(rest, docs, UsedWith(h, docs, used, ignoreApiIndex), ignoreApiIndex)
  {
    assert ([h] + rest)[1..] == rest;
  }

  lemma {:induction false} UsedFromFront(h: Hit, rest: seq<Hit>, docs: seq<Doc>, used: set<int>, ignoreApiIndex: bool)
    ensures UsedAfter([h] + rest, docs, used, ignoreApiIndex)
         == UsedAfter(rest, docs, UsedWith(h, docs, used, ignoreApiIndex), ignoreApiIndex)
  {
    var all, n := [h] + rest, |rest|;
    if n == 0 {
      assert all[..0] == [] && all[0] == h;
    } else {
      assert all[..n] == [h] + rest[..n - 1] && all[n] == rest[n - 1];
      UsedFromFront(h, rest[..n - 1], docs, used, ignoreApiIndex);
    }
  }

  lemma {:induction false} RebuiltLast(hits: seq<Hit>, last: Hit, docs: seq<Doc>, used: set<int>, ignoreApiIndex: bool)
    ensures Rebuilt(hits + [last], docs, used, ignoreApiIndex)
         == Rebuilt(hits, docs, used, ignoreApiIndex)
            + [PlacedOne(last, docs, UsedAfter(hits, docs, used, ignoreApiIndex), ignoreApiIndex)]
  {
    if hits == [] {
      assert hits + [last] == [last] + [];
      RebuiltHead(last, [], docs, used, ignoreApiIndex);
    } else {
      var h, rest := hits[0], hits[1..];
      var used' := UsedWith(h, docs, used, ignoreApiIndex);
      assert hits == [h] + rest && hits + [last] == [h] + (rest + [last]);
      RebuiltHead(h, rest, docs, used, ignoreApiIndex);
      RebuiltHead(h, rest + [last], docs, used, ignoreApiIndex);
      UsedFromFront(h, rest, docs, used, ignoreApiIndex);
      RebuiltLast(rest, last, docs, used', ignoreApiIndex);
    }
  }

  // ---------------------------------------------------------------- counting the spare documents

  lemma {:induction false} SpareGrows(docs: seq<Doc>, d: Doc, given: set<int>, p: nat, q: nat)
    requires p < q <= |docs|
    ensures Spare(docs, d, given, p) <= Spare(docs, d, given, q)
    ensures docs[p] == d && p !in given ==> Spare(docs, d, given, p) < Spare(docs, d, given, q)
    decreases q
  {
    if p < q - 1 {
      SpareGrows(docs, d, given, p, q - 1);
    }
  }

  lemma {:induction false} SpareWithout(docs: seq<Doc>, d: Doc, given: set<int>, g: int, p: nat)
    requires p <= |docs| && g !in given
    ensures Spare(docs, d, given + {g}, p) == Spare(docs, d, given, p) - if 0 <= g < p && docs[g] == d then 1 else 0
  {
    if p > 0 {
      SpareWithout(docs, d, given, g, p - 1);
    }
  }

  /** If every spare document before `p` has fewer than `m` before itself, `p` has at most `m`. */
  lemma {:induction false} SpareBound(docs: seq<Doc>, d: Doc, given: set<int>, p: nat, m: nat)
    requires p <= |docs|
    requires forall q :: 0 <= q < p && docs[q] == d && q !in given ==> Spare(docs, d, given, q) < m
    ensures Spare(docs, d, given, p) <= m
  {
    if p > 0 {
      SpareBound(docs, d, given, p - 1, m);
    }
  }

  // ---------------------------------------------------------------- which positions are taken

  /** A document is taken when its position was given, or when it is among the first spare ones of its text,
      as many as there were answers with this text and no position. */
  predicate Taken(hits: seq<Hit>, docs: seq<Doc>, p: int, ignoreApiIndex: bool) {
    || p in GivenBy(hits, ignoreApiIndex)
    || (0 <= p < |docs| &&
        Spare(docs, docs[p], GivenBy(hits, ignoreApiIndex), p) < Unplaced(hits, docs[p], ignoreApiIndex))
  }

  ghost predicate UsedIsTaken(hits: seq<Hit>, docs: seq<Doc>, ignoreApiIndex: bool) {
    forall p :: p in UsedAfter(hits, docs, {}, ignoreApiIndex) <==> Taken(hits, docs, p, ignoreApiIndex)
  }

  lemma GivenStep(hits: seq<Hit>, last: Hit, docs: seq<Doc>, ignoreApiIndex: bool)
    requires UsedIsTaken(hits, docs, ignoreApiIndex) && KeepsIndex(last, ignoreApiIndex)
    requires last.index.value != -1 ==> LeftAlone(hits, docs, last.index.value, ignoreApiIndex)
    ensures UsedIsTaken(hits + [last], docs, ignoreApiIndex)
  {
    var g, more, given := last.index.value, hits + [last], GivenBy(hits, ignoreApiIndex);
    assert more[..|hits|] == hits && more[|hits|] == last;
    forall p ensures Taken(more, docs, p, ignoreApiIndex) <==> Taken(hits, docs, p, ignoreApiIndex) || p == g {
      if 0 <= p < |docs| && g !in given {
        SpareWithout(docs, docs[p], given, g, p);
        if 0 <= g < p {
          SpareGrows(docs, docs[p], given, g, p);
        }
      } else if g in given {
        assert given + {g} == given;
      }
    }
  }

  /** The first free document of a text is the spare one whose turn it is. */
  lemma TurnOf(hits: seq<Hit>, docs: seq<Doc>, d: Doc, p: nat, ignoreApiIndex: bool)
    requires UsedIsTaken(hits, docs, ignoreApiIndex) && p < |docs| && docs[p] == d
    ensures var used := UsedAfter(hits, docs, {}, ignoreApiIndex);
            var given := GivenBy(hits, ignoreApiIndex);
            p !in given && Spare(docs, d, given, p) == Unplaced(hits, d, ignoreApiIndex) <==> p == FirstFree(docs, d, used, 0)
  {
    var used, given, m := UsedAfter(hits, docs, {}, ignoreApiIndex), GivenBy(hits, ignoreApiIndex), Unplaced(hits, d, ignoreApiIndex);
    var f := FirstFree(docs, d, used, 0);
    if f != -1 {
      assert Taken(hits, docs, f, ignoreApiIndex) <==> f in used;
      forall q | 0 <= q < f && docs[q] == d && q !in given ensures Spare(docs, d, given, q) < m {
        assert q in used;
        assert Taken(hits, docs, q, ignoreApiIndex);
      }
      SpareBound(docs, d, given, f, m);
      assert Spare(docs, d, given, f) == m;
    }
    if p !in given && Spare(docs, d, given, p) == m {
      assert !Taken(hits, docs, p, ignoreApiIndex);
      assert p !in used;
      if f < p {
        SpareGrows(docs, d, given, f, p);
      }
    }
  }

  lemma SearchedStep(hits: seq<Hit>, last: Hit, docs: seq<Doc>, ignoreApiIndex: bool)
    requires UsedIsTaken(hits, docs, ignoreApiIndex) && !KeepsIndex(last, ignoreApiIndex)
    ensures UsedIsTaken(hits + [last], docs, ignoreApiIndex)
  {
    var more, d := hits + [last], TextOf(last);
    var f := FirstFree(docs, d, UsedAfter(hits, docs, {}, ignoreApiIndex), 0);
    assert more[..|hits|] == hits && more[|hits|] == last;
    assert GivenBy(more, ignoreApiIndex) == GivenBy(hits, ignoreApiIndex);
    forall p ensures Taken(more, docs, p, ignoreApiIndex) <==> Taken(hits, docs, p, ignoreApiIndex) || (p == f && f != -1) {
      if 0 <= p < |docs| && docs[p] == d {
        TurnOf(hits, docs, d, p, ignoreApiIndex);
      }
    }
  }

  lemma {:induction false} UsedWhileInTime(hits: seq<Hit>, docs: seq<Doc>, n: nat, ignoreApiIndex: bool)
    requires n <= |hits| && GivenInTime(hits[..n], docs, ignoreApiIndex)
    ensures UsedIsTaken(hits[..n], docs, ignoreApiIndex)
  {
    if n > 0 {
      InTimeGrows(hits, docs, n - 1, ignoreApiIndex);
      UsedWhileInTime(hits, docs, n - 1, ignoreApiIndex);
      assert hits[..n] == hits[..n - 1] + [hits[n - 1]];
      if KeepsIndex(hits[n - 1], ignoreApiIndex) {
        GivenStep(hits[..n - 1], hits[n - 1], docs, ignoreApiIndex);
      } else {
        SearchedStep(hits[..n - 1], hits[n - 1], docs, ignoreApiIndex);
      }
    }
  }

  /** The condition, one answer more. */
  lemma InTimeGrows(hits: seq<Hit>, docs: seq<Doc>, n: nat, ignoreApiIndex: bool)
    requires n < |hits|
    ensures GivenInTime(hits[..n + 1], docs, ignoreApiIndex)
       <==> && GivenInTime(hits[..n], docs, ignoreApiIndex)
            && (KeepsIndex(hits[n], ignoreApiIndex) && hits[n].index.value != -1 ==>
                  LeftAlone(hits[..n], docs, hits[n].index.value, ignoreApiIndex))
  {
    var a, b := hits[..n], hits[..n + 1];
    assert b[n] == hits[n] && b[..n] == a;
    assert forall j :: 0 <= j < n ==> a[j] == b[j] && a[..j] == b[..j];
  }

  /** The positions used are those of the answers so far. */
  lemma {:induction false} UsedArePositions(hits: seq<Hit>, docs: seq<Doc>, n: nat, p: int, ignoreApiIndex: bool)
    requires n <= |hits| && p != -1
    ensures var r := Rebuilt(hits[..n], docs, {}, ignoreApiIndex);
            && |r| == n
            && (p in UsedAfter(hits[..n], docs, {}, ignoreApiIndex) <==> exists i :: 0 <= i < n && r[i].index == Some(p))
            && forall i :: 0 <= i < n ==> r[i].index.Some?
  {
    if n > 0 {
      UsedArePositions(hits, docs, n - 1, p, ignoreApiIndex);
      assert hits[..n] == hits[..n - 1] + [hits[n - 1]];
      assert hits[..n][..n - 1] == hits[..n - 1] && hits[..n][n - 1] == hits[n - 1];
      RebuiltLast(hits[..n - 1], hits[n - 1], docs, {}, ignoreApiIndex);
      var s, r := Rebuilt(hits[..n - 1], docs, {}, ignoreApiIndex), Rebuilt(hits[..n], docs, {}, ignoreApiIndex);
      assert forall i :: 0 <= i < n - 1 ==> r[i] == s[i];
      if r[n - 1].index != Some(p) {
        assert forall i :: 0 <= i < n && r[i].index == Some(p) ==> s[i].index == Some(p);
      }
    }
  }

  lemma DifferGrows(r: seq<Hit>, last: Hit)
    requires last.index.Some?
    ensures PositionsDiffer(r + [last])
       <==> PositionsDiffer(r) && (last.index == Some(-1) || forall i :: 0 <= i < |r| ==> r[i].index != last.index)
  {
    var more := r + [last];
    assert more[|r|] == last && forall i :: 0 <= i < |r| ==> more[i] == r[i];
    if PositionsDiffer(more) {
      assert forall i :: 0 <= i < |r| ==> more[i].index.Some?;
    }
  }

  lemma {:induction false} DifferUpTo(hits: seq<Hit>, docs: seq<Doc>, n: nat, ignoreApiIndex: bool)
    requires n <= |hits|
    ensures PositionsDiffer(Rebuilt(hits[..n], docs, {}, ignoreApiIndex)) <==> GivenInTime(hits[..n], docs, ignoreApiIndex)
  {
    if n > 0 {
      var before, last := hits[..n - 1], hits[n - 1];
      DifferUpTo(hits, docs, n - 1, ignoreApiIndex);
      InTimeGrows(hits, docs, n - 1, ignoreApiIndex);
      assert hits[..n] == before + [last];
      RebuiltLast(before, last, docs, {}, ignoreApiIndex);
      var placed := PlacedOne(last, docs, UsedAfter(before, docs, {}, ignoreApiIndex), ignoreApiIndex);
      DifferGrows(Rebuilt(before, docs, {}, ignoreApiIndex), placed);
      if placed.index != Some(-1) {
        UsedArePositions(hits, docs, n - 1, placed.index.value, ignoreApiIndex);
        if GivenInTime(before, docs, ignoreApiIndex) {
          UsedWhileInTime(hits, docs, n - 1, ignoreApiIndex);
          assert placed.index.value in UsedAfter(before, docs, {}, ignoreApiIndex)
            <==> Taken(before, docs, placed.index.value, ignoreApiIndex);
        }
      }
    }
  }

  /** Whatever mixture the provider returns, no two answers name one document exactly when each position it
      gives is given once and is not one of those its earlier answers without a position have to take. */
  lemma PositionsDifferIff(hits: seq<Hit>, docs: seq<Doc>, ignoreApiIndex: bool)
    ensures PositionsDiffer(Rebuilt(hits, docs, {}, ignoreApiIndex)) <==> GivenInTime(hits, docs, ignoreApiIndex)
  {
    assert hits[..|hits|] == hits;
    DifferUpTo(hits, docs, |hits|, ignoreApiIndex);
  }
}
