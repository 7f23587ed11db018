/** A stable ascending sort by a numeric key, which is what `sorted` and `list.sort` promise. */
module StableSort {
  import opened Common

  ghost predicate Ordered<T>(xs: seq<T>, key: T -> real) {
    forall i, j :: 0 <= i < j < |xs| ==> key(xs[i]) <= key(xs[j])
  }

  function Insert<T>(x: T, ys: seq<T>, key: T -> real): seq<T> {
    if ys == [] || key(x) <= key(ys[0]) then [x] + ys else [ys[0]] + Insert(x, ys[1..], key)
  }

  function Sort<T>(xs: seq<T>, key: T -> real): seq<T> {
    if xs == [] then [] else Insert(xs[0], Sort(xs[1..], key), key)
  }

  lemma {:induction false} InsertPermutes<T>(x: T, ys: seq<T>, key: T -> real)
    ensures multiset(Insert(x, ys, key)) == multiset{x} + multiset(ys)
  {
    if ys == [] || key(x) <= key(ys[0]) {
    } else {
      InsertPermutes(x, ys[1..], key);
      assert ys == [ys[0]] + ys[1..];
    }
  }

  lemma {:induction false} SortPermutes<T>(xs: seq<T>, key: T -> real)
    ensures multiset(Sort(xs, key)) == multiset(xs)
    ensures |Sort(xs, key)| == |xs|
  {
    if xs != [] {
      SortPermutes(xs[1..], key);
      InsertPermutes(xs[0], Sort(xs[1..], key), key);
      assert xs == [xs[0]] + xs[1..];
    }
    assert |multiset(Sort(xs, key))| == |multiset(xs)|;
  }

  lemma {:induction false} InsertLength<T>(x: T, ys: seq<T>, key: T -> real)
    ensures |Insert(x, ys, key)| == |ys| + 1
  {
    if ys != [] && key(x) > key(ys[0]) {
      InsertLength(x, ys[1..], key);
    }
  }

  lemma {:induction false} SortLength<T>(xs: seq<T>, key: T -> real)
    ensures |Sort(xs, key)| == |xs|
  {
    if xs != [] {
      SortLength(xs[1..], key);
      InsertLength(xs[0], Sort(xs[1..], key), key);
    }
  }

  /** In an ordered list the first key is a lower bound. */
  lemma {:induction false} InsertOrdered<T>(x: T, ys: seq<T>, key: T -> real)
    requires Ordered(ys, key)
    ensures Ordered(Insert(x, ys, key), key)
    ensures Insert(x, ys, key)[0] == x || (ys != [] && Insert(x, ys, key)[0] == ys[0])
  {
    if ys == [] || key(x) <= key(ys[0]) {
    } else {
      InsertOrdered(x, ys[1..], key);
      assert key(Insert(x, ys[1..], key)[0]) >= key(ys[0]);
    }
  }

  lemma {:induction false} SortOrdered<T>(xs: seq<T>, key: T -> real)
    ensures Ordered(Sort(xs, key), key)
  {
    if xs != [] {
      SortOrdered(xs[1..], key);
      InsertOrdered(xs[0], Sort(xs[1..], key), key);
    }
  }

  /** A list that is in order already is left alone. */
  lemma {:induction false} SortOfOrdered<T>(xs: seq<T>, key: T -> real)
    requires Ordered(xs, key)
    ensures Sort(xs, key) == xs
  {
    if xs != [] {
      SortOfOrdered(xs[1..], key);
    }
  }

  lemma {:induction false} InsertFilter<T>(x: T, ys: seq<T>, key: T -> real, p: T -> bool)
    requires Ordered(ys, key)
    ensures Filter(Insert(x, ys, key), p)
         == if p(x) then Insert(x, Filter(ys, p), key) else Filter(ys, p)
  {
    if ys == [] || key(x) <= key(ys[0]) {
      assert ([x] + ys)[1..] == ys;
      if Filter(ys, p) != [] {
        FilterMember(ys, p, Filter(ys, p)[0]);
      }
    } else {
      InsertFilter(x, ys[1..], key, p);
      var r := Insert(x, ys, key);
      assert r[0] == ys[0] && r[1..] == Insert(x, ys[1..], key);
      var kept := Filter(ys[1..], p);
      if p(ys[0]) {
        assert Filter(ys, p) == [ys[0]] + kept;
        assert ([ys[0]] + kept)[1..] == kept;
      } else {
        assert Filter(ys, p) == kept;
      }
    }
  }

  /** Stability: sorting what a filter keeps is filtering what the sort returns. */
  lemma {:induction false} SortFilter<T>(xs: seq<T>, key: T -> real, p: T -> bool)
    ensures Filter(Sort(xs, key), p) == Sort(Filter(xs, p), key)
  {
    if xs != [] {
      SortFilter(xs[1..], key, p);
      SortOrdered(xs[1..], key);
      InsertFilter(xs[0], Sort(xs[1..], key), key, p);
      var kept := Filter(xs[1..], p);
      if p(xs[0]) {
        assert Filter(xs, p) == [xs[0]] + kept;
        assert ([xs[0]] + kept)[1..] == kept;
      } else {
        assert Filter(xs, p) == kept;
      }
    }
  }
}
