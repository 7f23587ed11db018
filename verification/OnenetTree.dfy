/** onenet_query/app.py, `build_path_tree`: the chapter tree of a document, with counts. */
module OnenetTree {
  import opened Common
  import opened Grouping
  import opened OnenetPaths
  import opened OnenetRestore

  type Segs = seq<string>

  /** A node without its children; `children` lists their titles in the order of insertion. */
  datatype Node = Node(title: string, path: string, depth: nat, count: nat, children: seq<string>)

  /** The nodes by the segments that lead to them; the root is at the empty list. */
  type Tree = map<Segs, Node>

  // ---------------------------------------------------------------- what the tree of a list of paths is

  predicate InTree(paths: seq<Segs>, p: Segs) {
    p == [] || (paths != [] && (InTree(paths[..|paths| - 1], p) || p <= paths[|paths| - 1]))
  }

  /** How many of the paths lie strictly below `p`. */
  function CountBelow(paths: seq<Segs>, p: Segs): nat {
    if paths == [] then 0 else CountBelow(paths[..|paths| - 1], p) + if p < paths[|paths| - 1] then 1 else 0
  }

  /** The segments that follow `p`, in the order in which they first come. */
  function ChildOrder(paths: seq<Segs>, p: Segs): seq<string> {
    if paths == [] then [] else WithNext(ChildOrder(paths[..|paths| - 1], p), p, paths[|paths| - 1])
  }

  function WithNext(before: seq<string>, p: Segs, path: Segs): seq<string> {
    if p < path then WithLabel(before, Some(path[|p|])) else before
  }

  function TitleOf(p: Segs): string {
    if p == [] then "__ROOT__" else p[|p| - 1]
  }

  function NodeOf(paths: seq<Segs>, p: Segs): Node {
    Node(TitleOf(p), JoinPath(p), |p|, CountBelow(paths, p), ChildOrder(paths, p))
  }

  ghost predicate IsTree(paths: seq<Segs>, t: Tree) {
    forall p :: (p in t <==> InTree(paths, p)) && (p in t ==> t[p] == NodeOf(paths, p))
  }

  // ---------------------------------------------------------------- inserting one path

  /** What one node is when the first `i` segments of `path` have been walked. */
  predicate NodeFits(paths: seq<Segs>, path: Segs, i: nat, t: Tree, p: Segs) {
    && (p in t <==> InTree(paths, p) || (p <= path && |p| <= i))
    && (p in t ==> t[p] == Node(TitleOf(p), JoinPath(p), |p|,
                                CountBelow(paths, p) + (if p < path && |p| < i then 1 else 0),
                                if p < path && |p| < i then WithNext(ChildOrder(paths, p), p, path) else ChildOrder(paths, p)))
  }

  ghost predicate Walked(paths: seq<Segs>, path: Segs, i: nat, t: Tree) {
    forall p :: NodeFits(paths, path, i, t, p)
  }

  lemma {:induction false} OutsideIsEmpty(paths: seq<Segs>, p: Segs)
    requires !InTree(paths, p)
    ensures CountBelow(paths, p) == 0 && ChildOrder(paths, p) == []
  {
    if paths != [] {
      OutsideIsEmpty(paths[..|paths| - 1], p);
    }
  }

  /** A node has a child by a title exactly when the longer path is in the tree. */
  lemma {:induction false} ChildIsInTree(paths: seq<Segs>, p: Segs, seg: string)
    ensures seg in ChildOrder(paths, p) <==> InTree(paths, p + [seg])
  {
    if paths != [] {
      var last := paths[|paths| - 1];
      ChildIsInTree(paths[..|paths| - 1], p, seg);
      assert p + [seg] <= last <==> p < last && last[|p|] == seg by {
        if p < last && last[|p|] == seg {
          assert last[..|p| + 1] == p + [seg];
        }
        if p + [seg] <= last {
          assert last[|p|] == (p + [seg])[|p|];
          assert forall k :: 0 <= k < |p| ==> last[k] == (p + [seg])[k] == p[k];
        }
      }
    }
  }

  /** `node["slice_count"] += 1`, then `setdefault` of the child. */
  function Step(t: Tree, path: Segs, i: nat, childPath: string): Tree
    requires i < |path| && path[..i] in t
  {
    var node, seg := path[..i], path[i];
    var here := t[node];
    if seg in here.children then t[node := here.(count := here.count + 1)]
    else t[node := here.(count := here.count + 1, children := here.children + [seg])]
          [path[..i + 1] := Node(seg, childPath, i + 1, 0, [])]
  }

  lemma PrefixLength(p: Segs, path: Segs, i: nat)
    requires i <= |path|
    ensures p <= path && |p| == i <==> p == path[..i]
  {
  }

  lemma StepFits(paths: seq<Segs>, path: Segs, i: nat, t: Tree, childPath: string, p: Segs)
    requires i < |path| && Walked(paths, path, i, t) && path[..i] in t && childPath == JoinPath(path[..i + 1])
    ensures NodeFits(paths, path, i + 1, Step(t, path, i, childPath), p)
  {
    var node, child := path[..i], path[..i + 1];
    assert NodeFits(paths, path, i, t, p) && NodeFits(paths, path, i, t, node) && NodeFits(paths, path, i, t, child);
    assert child == node + [path[i]];
    ChildIsInTree(paths, node, path[i]);
    PrefixLength(p, path, i);
    PrefixLength(p, path, i + 1);
    if !InTree(paths, child) {
      OutsideIsEmpty(paths, child);
    }
  }

  lemma PathGrows(path: Segs, i: nat)
    requires i < |path| && forall k :: 0 <= k < |path| ==> path[k] != []
    ensures JoinPath(path[..i + 1]) == if i == 0 then path[0] else JoinPath(path[..i]) + " > " + path[i]
    ensures i > 0 ==> JoinPath(path[..i]) != []
  {
    assert path[..i + 1] == path[..i] + [path[i]];
    if i > 0 {
      JoinPrefix(path[..i], [path[i]]);
      assert path[..i][0] == path[0];
    }
  }

  class PathTree {
    var nodes: Tree

    constructor ()
      ensures IsTree([], nodes)
    {
      nodes := map[[] := Node("__ROOT__", "", 0, 0, [])];
    }

    /** The inner loop: down from the root along one path. */
    method Insert(path: Segs, ghost paths: seq<Segs>)
      requires IsTree(paths, nodes) && forall k :: 0 <= k < |path| ==> path[k] != []
      modifies this
      ensures IsTree(paths + [path], nodes)
    {
      var pathSoFar := "";
      var i := 0;
      WalkStarts(paths, path, nodes);
      while i < |path|
        invariant 0 <= i <= |path| && pathSoFar == JoinPath(path[..i])
        invariant Walked(paths, path, i, nodes)
      {
        assert NodeFits(paths, path, i, nodes, path[..i]);
        PathGrows(path, i);
        pathSoFar := if pathSoFar != [] then pathSoFar + " > " + path[i] else path[i];
        WalkGoesOn(paths, path, i, nodes, pathSoFar);
        nodes := Step(nodes, path, i, pathSoFar);
        i := i + 1;
      }
      WalkEnds(paths, path, nodes);
    }
  }

  lemma WalkGoesOn(paths: seq<Segs>, path: Segs, i: nat, t: Tree, childPath: string)
    requires i < |path| && Walked(paths, path, i, t) && path[..i] in t && childPath == JoinPath(path[..i + 1])
    ensures Walked(paths, path, i + 1, Step(t, path, i, childPath))
  {
    var after, next := Step(t, path, i, childPath), i + 1;
    forall p ensures NodeFits(paths, path, next, after, p) {
      StepFits(paths, path, i, t, childPath, p);
    }
  }

  lemma WalkStarts(paths: seq<Segs>, path: Segs, t: Tree)
    requires IsTree(paths, t)
    ensures Walked(paths, path, 0, t)
  {
  }

  lemma WalkEnds(paths: seq<Segs>, path: Segs, t: Tree)
    requires Walked(paths, path, |path|, t)
    ensures IsTree(paths + [path], t)
  {
    var all := paths + [path];
    assert all[..|all| - 1] == paths && all[|all| - 1] == path;
    forall p ensures (p in t <==> InTree(all, p)) && (p in t ==> t[p] == NodeOf(all, p)) {
      assert NodeFits(paths, path, |path|, t, p);
    }
  }

  // ---------------------------------------------------------------- the tree of a document

  function PathsOf(slices: seq<Slice>): seq<Segs> {
    if slices == [] then [] else PathsOf(slices[..|slices| - 1]) + [OwnSegs(slices[|slices| - 1].path)]
  }

  method BuildPathTree(slices: seq<Slice>) returns (tree: PathTree)
    ensures fresh(tree) && IsTree(PathsOf(slices), tree.nodes)
  {
    tree := new PathTree();
    var i := 0;
    while i < |slices|
      invariant 0 <= i <= |slices| && fresh(tree)
      invariant IsTree(PathsOf(slices[..i]), tree.nodes)
    {
      var segs := OwnSegs(slices[i].path);
      SplitPathSegments(slices[i].path);
      assert slices[..i + 1][..i] == slices[..i];
      tree.Insert(segs, PathsOf(slices[..i]));
      i := i + 1;
    }
    assert slices[..|slices|] == slices;
  }

  /** The root counts every slice that has a path: what `restore_files` reports as its slice count. */
  lemma {:induction false} RootCountsAssigned(slices: seq<Slice>)
    ensures CountBelow(PathsOf(slices), []) == |slices| - Unlabelled(slices, FileOf)
  {
    if slices != [] {
      var n := |slices| - 1;
      RootCountsAssigned(slices[..n]);
      UnlabelledGrows(slices, n, FileOf);
      assert slices[..n + 1] == slices;
      var paths := PathsOf(slices);
      assert paths[..|paths| - 1] == PathsOf(slices[..n]) && paths[|paths| - 1] == OwnSegs(slices[n].path);
      assert [] < OwnSegs(slices[n].path) <==> OwnSegs(slices[n].path) != [];
    } else {
      assert Filter(slices, Lacking(FileOf)) == [];
    }
  }

  lemma TreeAgreesWithRestoration(slices: seq<Slice>, t: Tree, r: Restored)
    requires IsTree(PathsOf(slices), t) && IsRestored(slices, FileOf, r)
    ensures [] in t && t[[]].count == r.sliceCount == SumOfCounts(r.files)
  {
    RootCountsAssigned(slices);
    RestorationConserves(slices, r);
  }

  // ---------------------------------------------------------------- counts flow down

  function CountAt(paths: seq<Segs>, p: Segs): nat {
    if paths == [] then 0 else CountAt(paths[..|paths| - 1], p) + if paths[|paths| - 1] == p then 1 else 0
  }

  function SumChildren(paths: seq<Segs>, p: Segs, titles: seq<string>): nat {
    if titles == [] then 0
    else CountBelow(paths, p + [titles[0]]) + CountAt(paths, p + [titles[0]]) + SumChildren(paths, p, titles[1..])
  }

  /** Below or at the child `seg` of `p`. */
  lemma ThroughChild(path: Segs, p: Segs, seg: string)
    ensures (if p + [seg] < path then 1 else 0) + (if path == p + [seg] then 1 else 0)
         == if p < path && path[|p|] == seg then 1 else 0
  {
    if p < path && path[|p|] == seg {
      assert path[..|p| + 1] == p + [seg];
    }
    if p + [seg] <= path {
      assert path[|p|] == (p + [seg])[|p|];
      assert forall k :: 0 <= k < |p| ==> path[k] == (p + [seg])[k] == p[k];
    }
  }

  lemma {:induction false} OneMorePath(paths: seq<Segs>, p: Segs, titles: seq<string>)
    requires paths != [] && NoRepeats(titles)
    ensures var path := paths[|paths| - 1];
            SumChildren(paths, p, titles)
            == SumChildren(paths[..|paths| - 1], p, titles) + if p < path && path[|p|] in titles then 1 else 0
  {
    if titles != [] {
      ThroughChild(paths[|paths| - 1], p, titles[0]);
      OneMorePath(paths, p, titles[1..]);
      assert titles == [titles[0]] + titles[1..];
    }
  }

  lemma {:induction false} SumChildrenAppend(paths: seq<Segs>, p: Segs, titles: seq<string>, title: string)
    ensures SumChildren(paths, p, titles + [title])
         == SumChildren(paths, p, titles) + CountBelow(paths, p + [title]) + CountAt(paths, p + [title])
  {
    if titles == [] {
      assert titles + [title] == [title] && [title][1..] == [];
    } else {
      assert (titles + [title])[1..] == titles[1..] + [title];
      SumChildrenAppend(paths, p, titles[1..], title);
    }
  }

  lemma {:induction false} ChildrenDiffer(paths: seq<Segs>, p: Segs)
    ensures NoRepeats(ChildOrder(paths, p))
  {
    if paths != [] {
      ChildrenDiffer(paths[..|paths| - 1], p);
    }
  }

  lemma {:induction false} NeverAt(paths: seq<Segs>, p: Segs)
    requires !InTree(paths, p)
    ensures CountAt(paths, p) == 0
  {
    if paths != [] {
      NeverAt(paths[..|paths| - 1], p);
    }
  }

  /** Each node counts exactly the slices that end at one of its children and those counted there. */
  lemma {:induction false} CountsFlowDown(paths: seq<Segs>, p: Segs)
    ensures CountBelow(paths, p) == SumChildren(paths, p, ChildOrder(paths, p))
  {
    if paths != [] {
      var before, path := paths[..|paths| - 1], paths[|paths| - 1];
      CountsFlowDown(before, p);
      ChildrenDiffer(before, p);
      var titles := ChildOrder(before, p);
      OneMorePath(paths, p, titles);
      if p < path && path[|p|] !in titles {
        var seg := path[|p|];
        ChildIsInTree(before, p, seg);
        OutsideIsEmpty(before, p + [seg]);
        NeverAt(before, p + [seg]);
        ThroughChild(path, p, seg);
        SumChildrenAppend(paths, p, titles, seg);
      }
    }
  }
}
