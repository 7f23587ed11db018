/** onenet_query/app.py: chapter paths, their segments, and the two ways of testing a subtree. */
module OnenetPaths {
  import opened Text

  // ---------------------------------------------------------------- split and join

  /** `s.split(">")`. */
  function SplitOn(s: string): (r: seq<string>)
    ensures r != []
  {
    if s == [] then [[]]
    else
      var rest := SplitOn(s[1..]);
      if s[0] == '>' then [[]] + rest else [[s[0]] + rest[0]] + rest[1..]
  }

  /** The parts that are not blank, stripped. */
  function Cleaned(parts: seq<string>): seq<string> {
    if parts == [] then []
    else if Strip(parts[0]) == [] then Cleaned(parts[1..])
    else [Strip(parts[0])] + Cleaned(parts[1..])
  }

  /** `split_path`; a missing path is the empty one. */
  function SplitPath(path: string): seq<string> {
    Cleaned(SplitOn(path))
  }

  /** `" > ".join(segs)`. */
  function JoinPath(segs: seq<string>): string {
    if segs == [] then [] else if |segs| == 1 then segs[0] else segs[0] + " > " + JoinPath(segs[1..])
  }

  /** What a segment is: not empty, trimmed, and without the separator. */
  predicate IsSegment(s: string) {
    s != [] && Trimmed(s) && '>' !in s
  }

  ghost predicate Segments(segs: seq<string>) {
    forall i :: 0 <= i < |segs| ==> IsSegment(segs[i])
  }

  /** The part before the first separator. */
  lemma {:induction false} SplitOnSeparator(left: string, right: string)
    requires '>' !in left
    ensures SplitOn(left + ">" + right) == [left] + SplitOn(right)
  {
    var s := left + ">" + right;
    if left == [] {
      assert s[0] == '>' && s[1..] == right;
    } else {
      assert s[0] == left[0] && s[1..] == left[1..] + ">" + right;
      SplitOnSeparator(left[1..], right);
      assert [left[0]] + left[1..] == left;
      assert ([left[1..]] + SplitOn(right))[1..] == SplitOn(right);
    }
  }

  lemma {:induction false} SplitOnNothing(s: string)
    requires '>' !in s
    ensures SplitOn(s) == [s]
  {
    if s != [] {
      SplitOnNothing(s[1..]);
      assert [s[0]] + s[1..] == s;
    }
  }

  lemma {:induction false} SplitOnHasNoSeparator(s: string)
    ensures forall i :: 0 <= i < |SplitOn(s)| ==> '>' !in SplitOn(s)[i]
  {
    if s != [] {
      SplitOnHasNoSeparator(s[1..]);
    }
  }

  lemma StripKeepsOut(s: string, c: char)
    requires c !in s
    ensures c !in Strip(s)
  {
    var left, right := StripSplits(s);
    var t := Strip(s);
    assert forall i :: 0 <= i < |t| ==> (left + t + right)[|left| + i] == t[i];
  }

  lemma {:induction false} CleanedAreSegments(parts: seq<string>)
    requires forall i :: 0 <= i < |parts| ==> '>' !in parts[i]
    ensures Segments(Cleaned(parts))
  {
    if parts != [] {
      CleanedAreSegments(parts[1..]);
      StripTwice(parts[0]);
      StripKeepsOut(parts[0], '>');
    }
  }

  /** Whatever the path, its segments are segments. */
  lemma SplitPathSegments(path: string)
    ensures Segments(SplitPath(path))
  {
    SplitOnHasNoSeparator(path);
    CleanedAreSegments(SplitOn(path));
  }

  /** A segment with blanks around it is cleaned to itself. */
  lemma PaddedSegment(left: string, s: string, right: string)
    requires IsSegment(s) && (left == [] || left == " ") && (right == [] || right == " ")
    ensures Strip(left + s + right) == s && '>' !in left + s + right
  {
    SpaceFacts();
    StripPadded(left, s, right);
  }

  lemma {:induction false} SplitJoined(segs: seq<string>, left: string)
    requires Segments(segs) && segs != [] && (left == [] || left == " ")
    ensures SplitPath(left + JoinPath(segs)) == segs
  {
    if |segs| == 1 {
      PaddedSegment(left, segs[0], []);
      assert left + segs[0] + [] == left + JoinPath(segs);
      SplitOnNothing(left + JoinPath(segs));
      assert Cleaned([left + JoinPath(segs)][1..]) == [];
    } else {
      var rest := JoinPath(segs[1..]);
      var head := left + segs[0] + " ";
      PaddedSegment(left, segs[0], " ");
      SplitOnSeparator(head, " " + rest);
      assert left + JoinPath(segs) == head + ">" + (" " + rest);
      SplitJoined(segs[1..], " ");
      assert ([head] + SplitOn(" " + rest))[1..] == SplitOn(" " + rest);
    }
  }

  /** Splitting undoes joining. */
  lemma SplitPathOfJoin(segs: seq<string>)
    requires Segments(segs)
    ensures SplitPath(JoinPath(segs)) == segs
  {
    if segs == [] {
      assert Strip([]) == [];
      assert Cleaned([[]]) == [];
    } else {
      SplitJoined(segs, []);
      assert [] + JoinPath(segs) == JoinPath(segs);
    }
  }

  /** Joining what a path splits into gives a path with the same segments, and doing it again changes nothing. */
  lemma CanonicalPath(path: string)
    ensures SplitPath(JoinPath(SplitPath(path))) == SplitPath(path)
    ensures JoinPath(SplitPath(JoinPath(SplitPath(path)))) == JoinPath(SplitPath(path))
  {
    SplitPathSegments(path);
    SplitPathOfJoin(SplitPath(path));
  }

  // ---------------------------------------------------------------- split on the whole separator

  predicate StartsWithArrow(s: string) {
    |s| >= 3 && s[0] == ' ' && s[1] == '>' && s[2] == ' '
  }

  /** `s.split(" > ")`. */
  function SplitArrow(s: string): (r: seq<string>)
    ensures r != []
    decreases |s|
  {
    if s == [] then [[]]
    else if StartsWithArrow(s) then [[]] + SplitArrow(s[3..])
    else
      var rest := SplitArrow(s[1..]);
      [[s[0]] + rest[0]] + rest[1..]
  }

  lemma {:induction false} SplitArrowNothing(s: string)
    requires '>' !in s
    ensures SplitArrow(s) == [s]
  {
    if s != [] {
      assert !StartsWithArrow(s);
      SplitArrowNothing(s[1..]);
      assert [s[0]] + s[1..] == s;
    }
  }

  lemma ArrowFirst(right: string)
    ensures StartsWithArrow(" > " + right) && (" > " + right)[3..] == right
  {
  }

  lemma ArrowLater(left: string, right: string)
    requires left != [] && '>' !in left && EndsClean(left)
    ensures var s := left + " > " + right;
            s[0] == left[0] && s[1..] == left[1..] + " > " + right && !StartsWithArrow(s)
  {
    SpaceFacts();
    var s := left + " > " + right;
    assert s[1] == if |left| > 1 then left[1] else ' ';
  }

  lemma {:induction false} SplitArrowHead(left: string, right: string)
    requires '>' !in left && EndsClean(left)
    ensures SplitArrow(left + " > " + right) == [left] + SplitArrow(right)
  {
    if left == [] {
      ArrowFirst(right);
      assert left + " > " + right == " > " + right;
    } else {
      ArrowLater(left, right);
      SplitArrowHead(left[1..], right);
      assert [left[0]] + left[1..] == left;
      assert ([left[1..]] + SplitArrow(right))[1..] == SplitArrow(right);
    }
  }

  /** Splitting a joined path on the separator string gives its segments as well. */
  lemma {:induction false} SplitArrowOfJoin(segs: seq<string>)
    requires Segments(segs) && segs != []
    ensures SplitArrow(JoinPath(segs)) == segs
  {
    if |segs| == 1 {
      SplitArrowNothing(segs[0]);
    } else {
      assert IsSegment(segs[0]);
      SplitArrowHead(segs[0], JoinPath(segs[1..]));
      SplitArrowOfJoin(segs[1..]);
    }
  }

  // ---------------------------------------------------------------- subtrees

  /** The string test of the select endpoint: the file is the subtree or lies below it. */
  predicate FileHit(file: string, subtree: string) {
    file == subtree || subtree + " > " <= file
  }

  predicate Canonical(path: string) {
    path == JoinPath(SplitPath(path))
  }

  lemma {:induction false} JoinPrefix(a: seq<string>, b: seq<string>)
    requires a != [] && b != []
    ensures JoinPath(a + b) == JoinPath(a) + " > " + JoinPath(b)
  {
    if |a| == 1 {
      assert (a + b)[0] == a[0] && (a + b)[1..] == b;
    } else {
      assert (a + b)[0] == a[0] && (a + b)[1..] == a[1..] + b;
      JoinPrefix(a[1..], b);
    }
  }

  /** A string that ends where a separator of a joined path begins is the join of its first segments. */
  lemma {:induction false} CutAtSeparator(segs: seq<string>, p: string) returns (k: nat)
    requires Segments(segs) && segs != [] && p + " > " <= JoinPath(segs)
    ensures 1 <= k < |segs| && p == JoinPath(segs[..k])
  {
    var s := JoinPath(segs);
    var f := segs[0];
    assert IsSegment(f);
    assert s[|p| + 1] == '>' by { assert (p + " > ")[|p| + 1] == '>'; }
    BeyondHead(f, s, |p| + 1);
    if |segs| == 1 {
      assert false;
    } else {
      var rest := JoinPath(segs[1..]);
      HeadOfJoin(segs[1..]);
      assert s[|f|] == ' ';
      if |p| == |f| {
        k := 1;
        assert p == s[..|f|] == f && segs[..1] == [f];
      } else {
        AfterHead(f, rest, p);
        var q := p[|f| + 3..];
        var j := CutAtSeparator(segs[1..], q);
        k := j + 1;
        assert segs[..k] == [f] + segs[1..][..j];
        assert p == f + " > " + q;
      }
    }
  }

  lemma BeyondHead(f: string, s: string, i: nat)
    requires f <= s && '>' !in f && i < |s| && s[i] == '>'
    ensures i >= |f|
  {
    assert forall j :: 0 <= j < |f| ==> s[j] == f[j] && f[j] != '>';
  }

  lemma HeadOfJoin(segs: seq<string>)
    requires Segments(segs) && segs != []
    ensures JoinPath(segs) != [] && JoinPath(segs)[0] != '>' && JoinPath(segs)[0] != ' '
  {
    SpaceFacts();
    assert IsSegment(segs[0]);
    assert JoinPath(segs)[0] == segs[0][0];
  }

  lemma AfterHead(f: string, rest: string, p: string)
    requires rest != [] && rest[0] != '>' && |p| > |f| && p + " > " <= f + " > " + rest
    ensures |p| >= |f| + 3 && p[..|f| + 3] == f + " > " && p[|f| + 3..] + " > " <= rest
  {
    var s := f + " > " + rest;
    var a := p + " > ";
    assert s[|p| + 1] == a[|p| + 1] == '>';
    assert s[|f|] == ' ' && s[|f| + 1] == '>' && s[|f| + 2] == ' ' && s[|f| + 3] == rest[0];
    assert forall i :: 0 <= i < |p| ==> p[i] == a[i] == s[i];
    assert forall i :: 0 <= i < |a| - |f| - 3 ==> a[|f| + 3 + i] == s[|f| + 3 + i] == rest[i];
  }

  lemma PrefixIsHit(segs: seq<string>, psegs: seq<string>)
    requires psegs != [] && psegs <= segs
    ensures FileHit(JoinPath(segs), JoinPath(psegs))
  {
    if psegs != segs {
      var below := segs[|psegs|..];
      assert segs == psegs + below;
      JoinPrefix(psegs, below);
    }
  }

  /** The string test and the segment test agree exactly on canonical subtrees: for any other spelling of
      a subtree the string test fails. */
  lemma FileHitIff(segs: seq<string>, subtree: string)
    requires Segments(segs) && segs != [] && subtree != []
    ensures FileHit(JoinPath(segs), subtree) <==> Canonical(subtree) && SplitPath(subtree) <= segs
  {
    var file := JoinPath(segs);
    if FileHit(file, subtree) {
      if file == subtree {
        SplitPathOfJoin(segs);
      } else {
        var k := CutAtSeparator(segs, subtree);
        SplitPathOfJoin(segs[..k]);
      }
    }
    if Canonical(subtree) && SplitPath(subtree) <= segs {
      PrefixIsHit(segs, SplitPath(subtree));
    }
  }
}
