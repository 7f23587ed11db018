/** onenet_query/app.py, `Selection.matches_path` and the select endpoint: chapters ticked, files matched. */
module OnenetSelect {
  import opened Common
  import opened Grouping
  import opened OnenetPaths
  import opened OnenetRestore
  import opened StableSort
  import J = Json

  // ---------------------------------------------------------------- one path, one file

  /** The slice lies in the subtree: segment lists, and the whole document if the subtree has no segments. */
  predicate InSubtree(path: string, subtree: string) {
    SplitPath(subtree) <= OwnSegs(path)
  }

  ghost predicate Selected(path: string, subtrees: seq<string>) {
    subtrees == [] || exists i :: 0 <= i < |subtrees| && InSubtree(path, subtrees[i])
  }

  /** `Selection.matches_path`. */
  method MatchesPath(path: string, subtrees: seq<string>) returns (matches: bool)
    ensures matches <==> Selected(path, subtrees)
  {
    if subtrees == [] {
      return true;
    }
    var segs := OwnSegs(path);
    var i := 0;
    while i < |subtrees|
      invariant 0 <= i <= |subtrees|
      invariant forall j :: 0 <= j < i ==> !InSubtree(path, subtrees[j])
    {
      var psegs := SplitPath(subtrees[i]);
      if psegs <= segs {
        return true;
      }
      i := i + 1;
    }
    return false;
  }

  predicate HitByAny(file: string, subtrees: seq<string>) {
    exists i :: 0 <= i < |subtrees| && FileHit(file, subtrees[i])
  }

  lemma OwnSegsAreSegments(path: string)
    ensures Segments(OwnSegs(path)) && Segments(FileSegs(path)) && FileSegs(path) <= OwnSegs(path)
    ensures OwnSegs(path) != [] ==> FileSegs(path) != []
  {
    SplitPathSegments(path);
  }

  /** The endpoint splits and joins the path of a file again before it tests it: that changes nothing. */
  lemma RejoinedFile(s: Slice)
    requires FileOf(s).Some?
    ensures JoinPath(SplitArrow(FileOf(s).value)) == FileOf(s).value
  {
    OwnSegsAreSegments(s.path);
    SplitArrowOfJoin(FileSegs(s.path));
  }

  /** Every slice of a matched file satisfies `matches_path`. */
  lemma MatchedFileSlicesMatch(s: Slice, subtrees: seq<string>)
    requires FileOf(s).Some? && HitByAny(FileOf(s).value, subtrees)
    requires forall i :: 0 <= i < |subtrees| ==> subtrees[i] != []
    ensures Selected(s.path, subtrees)
  {
    var i :| 0 <= i < |subtrees| && FileHit(FileOf(s).value, subtrees[i]);
    OwnSegsAreSegments(s.path);
    FileHitIff(FileSegs(s.path), subtrees[i]);
    assert InSubtree(s.path, subtrees[i]);
  }

  /** For canonical subtrees a file is matched exactly when its own path lies in one of them. */
  lemma MatchedIffInSubtree(s: Slice, subtrees: seq<string>)
    requires FileOf(s).Some?
    requires forall i :: 0 <= i < |subtrees| ==> subtrees[i] != [] && Canonical(subtrees[i])
    ensures HitByAny(FileOf(s).value, subtrees)
       <==> exists i :: 0 <= i < |subtrees| && SplitPath(subtrees[i]) <= FileSegs(s.path)
  {
    OwnSegsAreSegments(s.path);
    forall i | 0 <= i < |subtrees|
      ensures FileHit(FileOf(s).value, subtrees[i]) <==> SplitPath(subtrees[i]) <= FileSegs(s.path)
    {
      FileHitIff(FileSegs(s.path), subtrees[i]);
    }
  }

  // ---------------------------------------------------------------- ids

  /** `str(nid)`. */
  function NidText(nid: Nid): string {
    match nid
    case Missing => "None"
    case Number(n) => if n < 0 then "-" + J.Decimal(-n) else J.Decimal(n)
    case Text(s) => s
  }

  predicate Falsy(nid: Nid) {
    nid == Missing || nid == Number(0) || nid == Text([])
  }

  /** `str(nid or "")`, what verification compares. */
  function VerifyKey(nid: Nid): string {
    if Falsy(nid) then [] else NidText(nid)
  }

  /** The text of an id: a number in decimal, a text as it is. */
  lemma NidTextTells(n: int)
    ensures n >= 0 ==> J.ValueOf(NidText(Number(n))) == n
    ensures n < 0 ==> NidText(Number(n))[..1] == "-" && J.ValueOf(NidText(Number(n))[1..]) == -n
    ensures NidText(Missing) == "None"
  {
    J.DecimalReadsBack(if n < 0 then -n else n);
  }

  /** What verification compares: nothing for a missing id, a zero and an empty text; for any other its text,
      which is not empty. */
  lemma VerifyKeyTells(nid: Nid)
    ensures VerifyKey(Missing) == VerifyKey(Number(0)) == VerifyKey(Text("")) == ""
    ensures nid !in {Missing, Number(0), Text("")} ==> VerifyKey(nid) == NidText(nid) && VerifyKey(nid) != ""
  {
    if nid.Number? {
      J.DecimalReadsBack(if nid.n < 0 then -nid.n else nid.n);
    }
  }

  ghost predicate KeysDiffer(slices: seq<Slice>) {
    forall i, j :: 0 <= i < j < |slices| ==> VerifyKey(slices[i].nid) != VerifyKey(slices[j].nid)
  }

  /** Two slices that verification tells apart and `str` does not: a missing id and the text None, or the
      number 0 and the text 0. */
  ghost predicate TextsClash(slices: seq<Slice>) {
    exists i, j :: 0 <= i < j < |slices| && NidText(slices[i].nid) == NidText(slices[j].nid)
  }

  function Texts(slices: seq<Slice>): set<string> {
    set i | 0 <= i < |slices| :: NidText(slices[i].nid)
  }

  lemma NidTextNotEmpty(nid: Nid)
    ensures NidText(nid) == [] <==> nid == Text([])
  {
  }

  /** Of two ids that clash exactly one is missing or zero. */
  lemma ClashHasOneFalsy(a: Nid, b: Nid)
    requires NidText(a) == NidText(b) && VerifyKey(a) != VerifyKey(b)
    ensures Falsy(a) != Falsy(b)
  {
    NidTextNotEmpty(a);
    NidTextNotEmpty(b);
  }

  lemma ClashIsSingle(slices: seq<Slice>, k: nat)
    requires slices != [] && KeysDiffer(slices) && k < |slices| - 1
    requires NidText(slices[k].nid) == NidText(slices[|slices| - 1].nid)
    ensures !TextsClash(slices[..|slices| - 1])
  {
    var n := |slices| - 1;
    var rest := slices[..n];
    ClashHasOneFalsy(slices[k].nid, slices[n].nid);
    if i, j :| 0 <= i < j < |rest| && NidText(rest[i].nid) == NidText(rest[j].nid) {
      assert VerifyKey(slices[i].nid) != VerifyKey(slices[j].nid);
      ClashHasOneFalsy(slices[i].nid, slices[j].nid);
    }
  }

  lemma TextsGrow(slices: seq<Slice>)
    requires slices != []
    ensures Texts(slices) == Texts(slices[..|slices| - 1]) + {NidText(slices[|slices| - 1].nid)}
  {
    var n := |slices| - 1;
    assert forall i :: 0 <= i < n ==> slices[..n][i] == slices[i];
  }

  lemma LastClashes(slices: seq<Slice>)
    requires slices != [] && KeysDiffer(slices) && NidText(slices[|slices| - 1].nid) in Texts(slices[..|slices| - 1])
    ensures TextsClash(slices) && !TextsClash(slices[..|slices| - 1])
  {
    var n := |slices| - 1;
    var k :| 0 <= k < n && NidText(slices[..n][k].nid) == NidText(slices[n].nid);
    assert NidText(slices[k].nid) == NidText(slices[n].nid);
    ClashIsSingle(slices, k);
  }

  /** The distinct texts are as many as the slices, one fewer if two of them clash. */
  lemma {:induction false} TextCount(slices: seq<Slice>)
    requires KeysDiffer(slices)
    ensures |Texts(slices)| == |slices| - if TextsClash(slices) then 1 else 0
  {
    if slices != [] {
      var n := |slices| - 1;
      TextCount(slices[..n]);
      TextsGrow(slices);
      if NidText(slices[n].nid) in Texts(slices[..n]) {
        LastClashes(slices);
      } else {
        NoNewClash(slices);
      }
    }
  }

  lemma NoNewClash(slices: seq<Slice>)
    requires slices != [] && NidText(slices[|slices| - 1].nid) !in Texts(slices[..|slices| - 1])
    ensures TextsClash(slices) <==> TextsClash(slices[..|slices| - 1])
  {
    var n := |slices| - 1;
    var rest := slices[..n];
    if i, j :| 0 <= i < j < |slices| && NidText(slices[i].nid) == NidText(slices[j].nid) {
      assert NidText(rest[i].nid) in Texts(rest);
      assert j < n;
      assert NidText(rest[i].nid) == NidText(rest[j].nid);
    }
    if i, j :| 0 <= i < j < |rest| && NidText(rest[i].nid) == NidText(rest[j].nid) {
      assert NidText(slices[i].nid) == NidText(slices[j].nid);
    }
  }

  // ---------------------------------------------------------------- the select endpoint

  function IsSelected(subtrees: seq<string>): Slice -> bool {
    (s: Slice) => subtrees == [] || exists i :: 0 <= i < |subtrees| && InSubtree(s.path, subtrees[i])
  }

  function Hits(subtrees: seq<string>): string -> bool {
    (file: string) => HitByAny(file, subtrees)
  }

  function IsHit(hit: string -> bool): FileInfo -> bool {
    (f: FileInfo) => hit(f.path)
  }

  /** Matching a file is matching its label, whatever assigns the labels. */
  lemma {:induction false} HitCounts(rows: seq<Slice>, fileOf: Slice -> Option<string>, files: seq<string>, hit: string -> bool)
    requires AllHaveRows(rows, fileOf, files)
    ensures SumOfCounts(Filter(Listed(rows, fileOf, files), IsHit(hit)))
         == CountAll(rows, fileOf, Filter(files, hit))
  {
    if files != [] {
      HitCounts(rows, fileOf, files[1..], hit);
      var listed := Listed(rows, fileOf, files);
      assert listed[1..] == Listed(rows, fileOf, files[1..]) && listed[0].path == files[0];
      var rest := Filter(listed[1..], IsHit(hit));
      assert ([listed[0]] + rest)[1..] == rest;
      var names := Filter(files[1..], hit);
      assert ([files[0]] + names)[1..] == names;
    }
  }

  lemma {:induction false} FilterNoRepeats(names: seq<string>, hit: string -> bool)
    requires NoRepeats(names)
    ensures NoRepeats(Filter(names, hit))
  {
    if names != [] {
      FilterNoRepeats(names[1..], hit);
      var rest := Filter(names[1..], hit);
      forall j | 0 <= j < |rest| ensures rest[j] != names[0] {
        FilterMember(names[1..], hit, rest[j]);
      }
    }
  }

  function WithHit(fileOf: Slice -> Option<string>, hit: string -> bool): Slice -> bool {
    (s: Slice) => fileOf(s).Some? && hit(fileOf(s).value)
  }

  /** The counts of the matched files add up to the slices whose file is matched. */
  lemma MatchedCounts(slices: seq<Slice>, fileOf: Slice -> Option<string>, r: Restored, hit: string -> bool)
    requires IsRestored(slices, fileOf, r)
    ensures SumOfCounts(Filter(r.files, IsHit(hit))) == |Filter(slices, WithHit(fileOf, hit))|
  {
    var sorted := Sort(slices, SortKey);
    var n := |sorted|;
    assert sorted[..n] == sorted;
    var files := Labels(sorted, fileOf);
    var names := Filter(files, hit);
    HitCounts(sorted, fileOf, files, hit);
    LabelsDiffer(sorted, n, fileOf);
    FilterNoRepeats(files, hit);
    CountIsMembers(sorted, n, fileOf, names);
    forall s | s in sorted ensures LabelledIn(fileOf, names)(s) == WithHit(fileOf, hit)(s) {
      if fileOf(s).Some? {
        FilterMember(files, hit, fileOf(s).value);
        LabelHasGroup(sorted, n, fileOf, fileOf(s).value);
        FilterMember(sorted, Labelled(fileOf, fileOf(s).value), s);
      }
    }
    FilterAgrees(sorted, LabelledIn(fileOf, names), WithHit(fileOf, hit));
    SortFilter(slices, SortKey, WithHit(fileOf, hit));
    SortLength(Filter(slices, WithHit(fileOf, hit)), SortKey);
  }

  lemma {:induction false} FilterKeysDiffer(slices: seq<Slice>, p: Slice -> bool)
    requires KeysDiffer(slices)
    ensures KeysDiffer(Filter(slices, p))
  {
    if slices != [] {
      FilterKeysDiffer(slices[1..], p);
      var rest := Filter(slices[1..], p);
      forall j | 0 <= j < |rest| ensures VerifyKey(slices[0].nid) != VerifyKey(rest[j].nid) {
        FilterMember(slices[1..], p, rest[j]);
        var k :| 0 <= k < |slices[1..]| && slices[1..][k] == rest[j];
        assert slices[k + 1] == rest[j];
      }
    }
  }

  lemma MatchedAreSelected(slices: seq<Slice>, subtrees: seq<string>)
    requires forall i :: 0 <= i < |subtrees| ==> subtrees[i] != []
    ensures |Filter(slices, WithHit(FileOf, Hits(subtrees)))| <= |Filter(slices, IsSelected(subtrees))|
    ensures |Filter(slices, WithHit(FileOf, Hits(subtrees)))| == |Filter(slices, IsSelected(subtrees))|
       <==> NoneInUnmatchedFiles(slices, subtrees)
  {
    forall s | s in slices && WithHit(FileOf, Hits(subtrees))(s) ensures IsSelected(subtrees)(s) {
      MatchedFileSlicesMatch(s, subtrees);
    }
    FilterFewer(slices, WithHit(FileOf, Hits(subtrees)), IsSelected(subtrees));
    FilterAsMany(slices, WithHit(FileOf, Hits(subtrees)), IsSelected(subtrees));
  }

  /** Every slice that the segments select lies in a file that the string test selects. */
  ghost predicate NoneInUnmatchedFiles(slices: seq<Slice>, subtrees: seq<string>) {
    forall s :: s in slices && IsSelected(subtrees)(s) ==> WithHit(FileOf, Hits(subtrees))(s)
  }

  /** `matched_slice_count` and `matched_nid_count` come from different functions over the same slices. In a
      verified workspace the first is at most the second, unless two selected ids clash and every selected
      slice lies in a matched file. */
  lemma SelectionCounts(slices: seq<Slice>, subtrees: seq<string>, r: Restored)
    requires IsRestored(slices, FileOf, r) && KeysDiffer(slices)
    requires forall i :: 0 <= i < |subtrees| ==> subtrees[i] != []
    ensures var sliceCount := SumOfCounts(Filter(r.files, IsHit(Hits(subtrees))));
            var selected := Filter(slices, IsSelected(subtrees));
            && sliceCount <= |selected|
            && (sliceCount <= |Texts(selected)| <==> !(TextsClash(selected) && NoneInUnmatchedFiles(slices, subtrees)))
  {
    MatchedCounts(slices, FileOf, r, Hits(subtrees));
    MatchedAreSelected(slices, subtrees);
    FilterKeysDiffer(slices, IsSelected(subtrees));
    TextCount(Filter(slices, IsSelected(subtrees)));
  }

  /** `api_document_select`; the endpoint drops blank subtrees first. */
  method SelectChapters(slices: seq<Slice>, subtrees: seq<string>)
    returns (restored: Restored, files: seq<FileInfo>, sliceCount: nat, nidCount: nat)
    ensures IsRestored(slices, FileOf, restored) && files == Filter(restored.files, IsHit(Hits(subtrees)))
    ensures sliceCount == SumOfCounts(files) && nidCount == |Texts(Filter(slices, IsSelected(subtrees)))|
  {
    var nids: set<string> := {};
    var i := 0;
    while i < |slices|
      invariant 0 <= i <= |slices| && nids == Texts(Filter(slices[..i], IsSelected(subtrees)))
    {
      var matches := MatchesPath(slices[i].path, subtrees);
      SelectedGrow(slices, i, IsSelected(subtrees));
      if matches {
        nids := nids + {NidText(slices[i].nid)};
      }
      i := i + 1;
    }
    assert slices[..|slices|] == slices;
    restored := RestoreFiles(slices);
    files, sliceCount := MatchFiles(restored.files, subtrees);
    nidCount := |nids|;
  }

  lemma SelectedGrow(slices: seq<Slice>, i: nat, p: Slice -> bool)
    requires i < |slices|
    ensures Texts(Filter(slices[..i + 1], p)) == Texts(Filter(slices[..i], p)) + if p(slices[i]) then {NidText(slices[i].nid)} else {}
  {
    assert slices[..i + 1] == slices[..i] + [slices[i]];
    FilterAppend(slices[..i], [slices[i]], p);
    var before := Filter(slices[..i], p);
    if p(slices[i]) {
      assert Filter([slices[i]], p) == [slices[i]];
      assert (before + [slices[i]])[..|before|] == before;
      TextsGrow(before + [slices[i]]);
    } else {
      assert Filter([slices[i]], p) == [] && before + [] == before;
    }
  }

  method MatchFiles(files: seq<FileInfo>, subtrees: seq<string>) returns (matched: seq<FileInfo>, count: nat)
    ensures matched == Filter(files, IsHit(Hits(subtrees))) && count == SumOfCounts(matched)
  {
    matched := [];
    var i := 0;
    while i < |files|
      invariant 0 <= i <= |files| && matched == Filter(files[..i], IsHit(Hits(subtrees)))
    {
      assert files[..i + 1] == files[..i] + [files[i]];
      FilterAppend(files[..i], [files[i]], IsHit(Hits(subtrees)));
      if HitByAny(files[i].path, subtrees) {
        matched := matched + [files[i]];
      }
      i := i + 1;
    }
    assert files[..|files|] == files;
    count := SumOfCounts(matched);
  }
}
