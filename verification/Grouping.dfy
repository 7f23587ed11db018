/** Grouping a list by a label that a row may lack: `dict.setdefault(label, []).append(row)`. */
module Grouping {
  import opened Common
  import opened StableSort

  function Labelled<T>(labelOf: T -> Option<string>, name: string): T -> bool {
    row => labelOf(row) == Some(name)
  }

  function GroupOf<T>(rows: seq<T>, labelOf: T -> Option<string>, name: string): seq<T> {
    Filter(rows, Labelled(labelOf, name))
  }

  /** The labels, in the order in which their first rows come. */
  function Labels<T>(rows: seq<T>, labelOf: T -> Option<string>): seq<string> {
    if rows == [] then [] else WithLabel(Labels(rows[..|rows| - 1], labelOf), labelOf(rows[|rows| - 1]))
  }

  function WithLabel(labels: seq<string>, name: Option<string>): seq<string> {
    if name.None? || name.value in labels then labels else labels + [name.value]
  }

  function Lacking<T>(labelOf: T -> Option<string>): T -> bool {
    row => labelOf(row).None?
  }

  function Unlabelled<T>(rows: seq<T>, labelOf: T -> Option<string>): nat {
    |Filter(rows, Lacking(labelOf))|
  }

  predicate NoRepeats(labels: seq<string>) {
    forall i, j :: 0 <= i < j < |labels| ==> labels[i] != labels[j]
  }

  // ---------------------------------------------------------------- one more row

  lemma GroupGrows<T>(rows: seq<T>, n: nat, labelOf: T -> Option<string>, name: string)
    requires n < |rows|
    ensures GroupOf(rows[..n + 1], labelOf, name)
         == GroupOf(rows[..n], labelOf, name) + if labelOf(rows[n]) == Some(name) then [rows[n]] else []
  {
    assert rows[..n + 1] == rows[..n] + [rows[n]];
    FilterAppend(rows[..n], [rows[n]], Labelled(labelOf, name));
  }

  lemma LabelsGrow<T>(rows: seq<T>, n: nat, labelOf: T -> Option<string>)
    requires n < |rows|
    ensures Labels(rows[..n + 1], labelOf) == WithLabel(Labels(rows[..n], labelOf), labelOf(rows[n]))
  {
    var seen := rows[..n + 1];
    assert seen[..|seen| - 1] == rows[..n] && seen[|seen| - 1] == rows[n];
  }

  lemma UnlabelledGrows<T>(rows: seq<T>, n: nat, labelOf: T -> Option<string>)
    requires n < |rows|
    ensures Unlabelled(rows[..n + 1], labelOf) == Unlabelled(rows[..n], labelOf) + if labelOf(rows[n]).None? then 1 else 0
  {
    assert rows[..n + 1] == rows[..n] + [rows[n]];
    FilterAppend(rows[..n], [rows[n]], Lacking(labelOf));
  }

  lemma {:induction false} LabelHasGroup<T>(rows: seq<T>, n: nat, labelOf: T -> Option<string>, name: string)
    requires n <= |rows|
    ensures name in Labels(rows[..n], labelOf) <==> GroupOf(rows[..n], labelOf, name) != []
  {
    if n > 0 {
      LabelHasGroup(rows, n - 1, labelOf, name);
      LabelsGrow(rows, n - 1, labelOf);
      GroupGrows(rows, n - 1, labelOf, name);
    }
  }

  lemma {:induction false} LabelsDiffer<T>(rows: seq<T>, n: nat, labelOf: T -> Option<string>)
    requires n <= |rows|
    ensures NoRepeats(Labels(rows[..n], labelOf))
  {
    if n > 0 {
      LabelsDiffer(rows, n - 1, labelOf);
      LabelsGrow(rows, n - 1, labelOf);
    }
  }

  // ---------------------------------------------------------------- nothing is lost or counted twice

  function CountAll<T>(rows: seq<T>, labelOf: T -> Option<string>, labels: seq<string>): nat {
    if labels == [] then 0 else |GroupOf(rows, labelOf, labels[0])| + CountAll(rows, labelOf, labels[1..])
  }

  lemma {:induction false} OneMoreRow<T>(rows: seq<T>, n: nat, labelOf: T -> Option<string>, labels: seq<string>)
    requires n < |rows| && NoRepeats(labels)
    ensures CountAll(rows[..n + 1], labelOf, labels)
         == CountAll(rows[..n], labelOf, labels) + if labelOf(rows[n]).Some? && labelOf(rows[n]).value in labels then 1 else 0
  {
    if labels != [] {
      GroupGrows(rows, n, labelOf, labels[0]);
      OneMoreRow(rows, n, labelOf, labels[1..]);
      assert labels == [labels[0]] + labels[1..];
    }
  }

  lemma {:induction false} CountAllAppend<T>(rows: seq<T>, labelOf: T -> Option<string>, labels: seq<string>, name: string)
    ensures CountAll(rows, labelOf, labels + [name]) == CountAll(rows, labelOf, labels) + |GroupOf(rows, labelOf, name)|
  {
    if labels == [] {
      assert labels + [name] == [name] && [name][1..] == [];
    } else {
      assert (labels + [name])[1..] == labels[1..] + [name];
      CountAllAppend(rows, labelOf, labels[1..], name);
    }
  }

  lemma NewLabelCounts<T>(rows: seq<T>, n: nat, labelOf: T -> Option<string>, name: string)
    requires n < |rows| && labelOf(rows[n]) == Some(name) && name !in Labels(rows[..n], labelOf)
    ensures CountAll(rows[..n + 1], labelOf, Labels(rows[..n], labelOf) + [name])
         == CountAll(rows[..n + 1], labelOf, Labels(rows[..n], labelOf)) + 1
  {
    CountAllAppend(rows[..n + 1], labelOf, Labels(rows[..n], labelOf), name);
    GroupGrows(rows, n, labelOf, name);
    LabelHasGroup(rows, n, labelOf, name);
  }

  lemma {:induction false} CountsUpTo<T>(rows: seq<T>, n: nat, labelOf: T -> Option<string>)
    requires n <= |rows|
    ensures CountAll(rows[..n], labelOf, Labels(rows[..n], labelOf)) + Unlabelled(rows[..n], labelOf) == n
  {
    if n > 0 {
      var name := labelOf(rows[n - 1]);
      CountsUpTo(rows, n - 1, labelOf);
      UnlabelledGrows(rows, n - 1, labelOf);
      LabelsGrow(rows, n - 1, labelOf);
      LabelsDiffer(rows, n - 1, labelOf);
      OneMoreRow(rows, n - 1, labelOf, Labels(rows[..n - 1], labelOf));
      if name.Some? && name.value !in Labels(rows[..n - 1], labelOf) {
        NewLabelCounts(rows, n - 1, labelOf, name.value);
      }
    }
  }

  /** Every row is in exactly one group or unlabelled. */
  lemma CountsAddUp<T>(rows: seq<T>, labelOf: T -> Option<string>)
    ensures CountAll(rows, labelOf, Labels(rows, labelOf)) + Unlabelled(rows, labelOf) == |rows|
  {
    CountsUpTo(rows, |rows|, labelOf);
    assert rows[..|rows|] == rows;
  }

  function LabelledIn<T>(labelOf: T -> Option<string>, names: seq<string>): T -> bool {
    row => labelOf(row).Some? && labelOf(row).value in names
  }

  /** The groups of some of the labels hold exactly the rows with one of these labels. */
  lemma {:induction false} CountIsMembers<T>(rows: seq<T>, n: nat, labelOf: T -> Option<string>, names: seq<string>)
    requires n <= |rows| && NoRepeats(names)
    ensures CountAll(rows[..n], labelOf, names) == |Filter(rows[..n], LabelledIn(labelOf, names))|
  {
    if n == 0 {
      NoRowsNoCount(rows[..0], labelOf, names);
    } else {
      CountIsMembers(rows, n - 1, labelOf, names);
      OneMoreRow(rows, n - 1, labelOf, names);
      assert rows[..n] == rows[..n - 1] + [rows[n - 1]];
      FilterAppend(rows[..n - 1], [rows[n - 1]], LabelledIn(labelOf, names));
    }
  }

  lemma {:induction false} NoRowsNoCount<T>(rows: seq<T>, labelOf: T -> Option<string>, names: seq<string>)
    requires rows == []
    ensures CountAll(rows, labelOf, names) == 0
  {
    if names != [] {
      NoRowsNoCount(rows, labelOf, names[1..]);
    }
  }

  // ---------------------------------------------------------------- order

  lemma {:induction false} FilterOrdered<T>(rows: seq<T>, key: T -> real, p: T -> bool)
    requires Ordered(rows, key)
    ensures Ordered(Filter(rows, p), key)
  {
    if rows != [] {
      FilterOrdered(rows[1..], key, p);
      var rest := Filter(rows[1..], p);
      forall j | 0 <= j < |rest| ensures key(rows[0]) <= key(rest[j]) {
        FilterMember(rows[1..], p, rest[j]);
      }
    }
  }

  /** The first row of `a` comes no later than the first row of `b`. */
  predicate StartsNoLater<T>(rows: seq<T>, labelOf: T -> Option<string>, key: T -> real, a: string, b: string) {
    var x, y := GroupOf(rows, labelOf, a), GroupOf(rows, labelOf, b);
    x != [] && y != [] && key(x[0]) <= key(y[0])
  }

  lemma HeadStays<T>(rows: seq<T>, n: nat, labelOf: T -> Option<string>, name: string)
    requires n < |rows| && GroupOf(rows[..n], labelOf, name) != []
    ensures GroupOf(rows[..n + 1], labelOf, name) != []
    ensures GroupOf(rows[..n + 1], labelOf, name)[0] == GroupOf(rows[..n], labelOf, name)[0]
  {
    GroupGrows(rows, n, labelOf, name);
  }

  lemma MemberIsEarlier<T>(rows: seq<T>, n: nat, key: T -> real, row: T)
    requires n < |rows| && Ordered(rows, key) && row in rows[..n]
    ensures key(row) <= key(rows[n])
  {
    var k :| 0 <= k < n && rows[..n][k] == row;
    assert rows[k] == row;
  }

  lemma NewLabelIsLast<T>(rows: seq<T>, n: nat, labelOf: T -> Option<string>, key: T -> real, a: string, b: string)
    requires n < |rows| && Ordered(rows, key) && GroupOf(rows[..n], labelOf, a) != []
    requires labelOf(rows[n]) == Some(b) && GroupOf(rows[..n], labelOf, b) == []
    ensures StartsNoLater(rows[..n + 1], labelOf, key, a, b)
  {
    HeadStays(rows, n, labelOf, a);
    GroupGrows(rows, n, labelOf, b);
    var first := GroupOf(rows[..n], labelOf, a)[0];
    FilterMember(rows[..n], Labelled(labelOf, a), first);
    MemberIsEarlier(rows, n, key, first);
  }

  /** Groups come in the order of the keys of their first rows. */
  lemma {:induction false} GroupsAscend<T>(rows: seq<T>, n: nat, labelOf: T -> Option<string>, key: T -> real, i: nat, j: nat)
    requires Ordered(rows, key) && n <= |rows| && i < j < |Labels(rows[..n], labelOf)|
    ensures StartsNoLater(rows[..n], labelOf, key, Labels(rows[..n], labelOf)[i], Labels(rows[..n], labelOf)[j])
  {
    if n == 0 {
      assert false;
    } else {
      LabelsGrow(rows, n - 1, labelOf);
      var before := Labels(rows[..n - 1], labelOf);
      var a, b := Labels(rows[..n], labelOf)[i], Labels(rows[..n], labelOf)[j];
      LabelHasGroup(rows, n - 1, labelOf, a);
      LabelHasGroup(rows, n - 1, labelOf, b);
      if j < |before| {
        GroupsAscend(rows, n - 1, labelOf, key, i, j);
        HeadStays(rows, n - 1, labelOf, a);
        HeadStays(rows, n - 1, labelOf, b);
      } else {
        NewLabelIsLast(rows, n - 1, labelOf, key, a, b);
      }
    }
  }

  // ---------------------------------------------------------------- the loop

  /** What the loop knows about one label. */
  ghost predicate GroupedOne<T>(seen: seq<T>, labelOf: T -> Option<string>, groups: map<string, seq<T>>, name: string) {
    && (name in groups <==> GroupOf(seen, labelOf, name) != [])
    && (name in groups ==> groups[name] == GroupOf(seen, labelOf, name))
  }

  ghost predicate Grouped<T>(seen: seq<T>, labelOf: T -> Option<string>, labels: seq<string>, groups: map<string, seq<T>>) {
    labels == Labels(seen, labelOf) && forall name :: GroupedOne(seen, labelOf, groups, name)
  }

  function Lookup<T>(groups: map<string, seq<T>>, name: string): seq<T> {
    if name in groups then groups[name] else []
  }

  lemma GroupedStep<T>(rows: seq<T>, n: nat, labelOf: T -> Option<string>, labels: seq<string>, groups: map<string, seq<T>>)
    requires n < |rows| && Grouped(rows[..n], labelOf, labels, groups)
    ensures var name := labelOf(rows[n]);
            Grouped(rows[..n + 1], labelOf, WithLabel(labels, name),
                    if name.None? then groups else groups[name.value := Lookup(groups, name.value) + [rows[n]]])
  {
    LabelsGrow(rows, n, labelOf);
    var own := labelOf(rows[n]);
    var seen := rows[..n + 1];
    var groups' := if own.None? then groups else groups[own.value := Lookup(groups, own.value) + [rows[n]]];
    forall name ensures GroupedOne(seen, labelOf, groups', name) {
      assert GroupedOne(rows[..n], labelOf, groups, name);
      GroupGrows(rows, n, labelOf, name);
    }
  }

  method GroupRows<T>(rows: seq<T>, labelOf: T -> Option<string>)
    returns (labels: seq<string>, groups: map<string, seq<T>>, unlabelled: nat)
    ensures Grouped(rows, labelOf, labels, groups) && unlabelled == Unlabelled(rows, labelOf)
  {
    labels, groups, unlabelled := [], map[], 0;
    var i := 0;
    while i < |rows|
      invariant 0 <= i <= |rows|
      invariant Grouped(rows[..i], labelOf, labels, groups)
      invariant unlabelled == Unlabelled(rows[..i], labelOf)
    {
      GroupedStep(rows, i, labelOf, labels, groups);
      UnlabelledGrows(rows, i, labelOf);
      var name := labelOf(rows[i]);
      if name.None? {
        unlabelled := unlabelled + 1;
      } else {
        groups := groups[name.value := Lookup(groups, name.value) + [rows[i]]];
        if name.value !in labels {
          labels := labels + [name.value];
        }
      }
      i := i + 1;
    }
    assert rows[..|rows|] == rows;
  }
}
