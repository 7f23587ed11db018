/** llm_service/runtime/worker.py, `_validate_embedding_result`: the gate before an embedding task is completed. */
module EmbeddingCheck {
  import opened Common

  /** An item of the provider's `data` list: `vector` is the length of a list, `index` an int that is not a bool. */
  datatype Item = NotAnObject | Item(vector: Option<nat>, index: Option<int>)

  predicate Sound(item: Item, n: nat) {
    && item.Item? && item.vector.Some? && item.vector.value > 0
    && item.index.Some? && 0 <= item.index.value < n
  }

  /** The first `m` items agree in dimension and differ in index. */
  ghost predicate SoundUpTo(items: seq<Item>, m: nat, n: nat)
    requires m <= |items|
  {
    && (forall i :: 0 <= i < m ==> Sound(items[i], n))
    && (forall i, j :: 0 <= i < j < m ==> items[i].vector == items[j].vector && items[i].index != items[j].index)
  }

  /** What a caller may rely on: as many vectors as texts, of one dimension, the requested one if any,
      and every index in range and used once. */
  ghost predicate Acceptable(data: Option<seq<Item>>, n: nat, dimensions: Option<int>) {
    && data.Some? && |data.value| == n && SoundUpTo(data.value, n, n)
    && (dimensions.Some? ==> forall i :: 0 <= i < n ==> data.value[i].vector.value == dimensions.value)
  }

  method ValidateEmbeddingResult(data: Option<seq<Item>>, n: nat, dimensions: Option<int>) returns (ok: bool)
    ensures ok == Acceptable(data, n, dimensions)
  {
    if data.None? || |data.value| != n {
      return false;
    }
    var items := data.value;
    var seen: set<int> := {};
    var dim: Option<nat> := None;
    var i := 0;
    while i < |items|
      invariant 0 <= i <= n && SoundUpTo(items, i, n)
      invariant dim == if i == 0 then None else items[0].vector
      invariant |seen| == i
      invariant forall j :: 0 <= j < i ==> items[j].index.value in seen
      invariant forall k :: k in seen ==> exists j :: 0 <= j < i && items[j].index == Some(k)
    {
      var item := items[i];
      if item.NotAnObject? || item.vector.None? || item.vector.value == 0 {
        return false;
      }
      if dim.None? {
        dim := item.vector;
      } else if item.vector != dim {
        return false;
      }
      if item.index.None? || item.index.value < 0 || item.index.value >= n {
        return false;
      }
      if item.index.value in seen {
        return false;
      }
      NextIsSound(items, i, n, seen);
      seen := seen + {item.index.value};
      i := i + 1;
    }
    if |seen| != n {
      return false;
    }
    if dimensions.Some? && dim.Some? && dim.value != dimensions.value {
      return false;
    }
    return true;
  }

  lemma NextIsSound(items: seq<Item>, i: nat, n: nat, seen: set<int>)
    requires i < |items| && SoundUpTo(items, i, n) && Sound(items[i], n)
    requires i > 0 ==> items[i].vector == items[0].vector
    requires forall j :: 0 <= j < i ==> items[j].index.value in seen
    requires items[i].index.value !in seen
    ensures SoundUpTo(items, i + 1, n)
  {
  }

  /** The places that hold one of the first `n` indices. */
  ghost function Positions(items: seq<Item>): set<int> {
    set i | 0 <= i < |items| && items[i].Item? && items[i].index.Some? :: items[i].index.value
  }

  lemma {:induction false} DistinctIndicesFill(items: seq<Item>)
    requires forall i :: 0 <= i < |items| ==> items[i].Item? && items[i].index.Some?
    requires forall i, j :: 0 <= i < j < |items| ==> items[i].index != items[j].index
    ensures |Positions(items)| == |items|
  {
    if items != [] {
      var m := |items| - 1;
      DistinctIndicesFill(items[..m]);
      assert Positions(items) == Positions(items[..m]) + {items[m].index.value};
      assert items[m].index.value !in Positions(items[..m]);
    }
  }

  function Below(n: nat): set<int> {
    if n == 0 then {} else Below(n - 1) + {n - 1}
  }

  lemma {:induction false} BelowIsRange(n: nat, k: int)
    ensures |Below(n)| == n && (k in Below(n) <==> 0 <= k < n)
  {
    if n > 0 {
      BelowIsRange(n - 1, k);
      BelowIsRange(n - 1, n - 1);
    }
  }

  lemma PositionsGrow(items: seq<Item>)
    requires items != []
    ensures var last := items[|items| - 1];
            Positions(items) == Positions(items[..|items| - 1]) + if last.Item? && last.index.Some? then {last.index.value} else {}
  {
    var m := |items| - 1;
    assert forall i :: 0 <= i < m ==> items[..m][i] == items[i];
  }

  ghost predicate IndexedApart(items: seq<Item>) {
    && (forall i :: 0 <= i < |items| ==> items[i].Item? && items[i].index.Some?)
    && (forall i, j :: 0 <= i < j < |items| ==> items[i].index != items[j].index)
  }

  lemma OneMoreApart(items: seq<Item>)
    requires items != [] && IndexedApart(items[..|items| - 1])
    requires var last := items[|items| - 1];
             last.Item? && last.index.Some? && last.index.value !in Positions(items[..|items| - 1])
    ensures IndexedApart(items)
  {
    var m := |items| - 1;
    var before := items[..m];
    forall i | 0 <= i < m ensures items[i].Item? && items[i].index.Some? && items[i].index != items[m].index {
      assert before[i] == items[i] && before[i].index.value in Positions(before);
    }
    forall i, j | 0 <= i < j < m ensures items[i].index != items[j].index {
      assert before[i].index != before[j].index;
    }
  }

  lemma {:induction false} PositionsAreFew(items: seq<Item>)
    ensures |Positions(items)| <= |items|
    ensures |Positions(items)| == |items| ==> IndexedApart(items)
  {
    if items != [] {
      PositionsAreFew(items[..|items| - 1]);
      PositionsGrow(items);
      if |Positions(items)| == |items| {
        OneMoreApart(items);
      }
    }
  }

  /** The converse: as many items as texts, all with vectors of one positive length, the one asked for if any,
      and an item for every text. That is enough to be accepted. */
  lemma CompleteIsAccepted(data: seq<Item>, n: nat, length: nat, dimensions: Option<int>)
    requires |data| == n && length > 0 && (dimensions.Some? ==> dimensions.value == length)
    requires forall i :: 0 <= i < n ==> data[i].Item? && data[i].vector == Some(length)
    requires forall k :: 0 <= k < n ==> exists i :: 0 <= i < n && data[i].index == Some(k)
    ensures Acceptable(Some(data), n, dimensions)
  {
    forall k | k in Below(n) ensures k in Positions(data) {
      BelowIsRange(n, k);
      var i :| 0 <= i < n && data[i].index == Some(k);
    }
    BelowIsRange(n, 0);
    SubsetSize(Below(n), Positions(data));
    PositionsAreFew(data);
    forall i | 0 <= i < n ensures Sound(data[i], n) {
      assert data[i].index.value in Positions(data);
      BelowIsRange(n, data[i].index.value);
    }
  }

  /** An accepted result answers every text with exactly one vector. */
  lemma EveryTextHasItsVector(data: seq<Item>, n: nat, dimensions: Option<int>, k: int) returns (i: nat)
    requires Acceptable(Some(data), n, dimensions) && 0 <= k < n
    ensures i < n && data[i].index == Some(k)
    ensures forall j :: 0 <= j < n && data[j].index == Some(k) ==> j == i
    ensures data[i].vector.Some? && data[i].vector.value > 0 && forall j :: 0 <= j < n ==> data[j].vector == data[i].vector
    ensures dimensions.Some? ==> data[i].vector.value == dimensions.value
  {
    assert forall j :: 0 <= j < n ==> Sound(data[j], n);
    DistinctIndicesFill(data);
    BelowIsRange(n, k);
    forall m | m in Positions(data) ensures m in Below(n) {
      BelowIsRange(n, m);
    }
    SubsetSize(Positions(data), Below(n));
    assert k in Positions(data);
    i :| 0 <= i < n && data[i].index == Some(k);
  }
}
