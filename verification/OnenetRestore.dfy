/** onenet_query/app.py, `restore_files` and the row filter of the preview: slices regrouped into files. */
module OnenetRestore {
  import opened Common
  import opened Grouping
  import opened OnenetPaths
  import opened StableSort

  /** The id of a slice as JSON carries it. */
  datatype Nid = Missing | Number(n: int) | Text(s: string)

  datatype Slice = Slice(nid: Nid, path: string, partId: Option<int>)

  /** `int(part_id or 0)`. */
  function PartNo(s: Slice): (r: int)
    ensures s.partId == Some(r) || (s.partId == None && r == 0)
  {
    if s.partId.Some? then s.partId.value else 0
  }

  function SortKey(s: Slice): real {
    PartNo(s) as real
  }

  /** The segments below the package name. */
  function OwnSegs(path: string): seq<string> {
    var segs := SplitPath(path);
    if |segs| >= 2 then segs[1..] else segs
  }

  /** All but the heading, unless there is only one. */
  function FileSegs(path: string): seq<string> {
    var segs := OwnSegs(path);
    if |segs| >= 2 then segs[..|segs| - 1] else segs
  }

  /** The heading of a slice, and of a file the heading of its first slice. */
  function Heading(s: Slice): string {
    var segs := OwnSegs(s.path);
    if segs == [] then [] else segs[|segs| - 1]
  }

  /** The file of a slice; a slice without a path has none. */
  function FileOf(s: Slice): Option<string> {
    if OwnSegs(s.path) == [] then None else Some(JoinPath(FileSegs(s.path)))
  }

  /** Of rows in order the first has the least part and the last the greatest, so these are `min` and `max`. */
  function MinPart(rows: seq<Slice>): int
    requires rows != []
  {
    if |rows| == 1 then PartNo(rows[0])
    else
      var m := MinPart(rows[..|rows| - 1]);
      if PartNo(rows[|rows| - 1]) < m then PartNo(rows[|rows| - 1]) else m
  }

  function MaxPart(rows: seq<Slice>): int
    requires rows != []
  {
    if |rows| == 1 then PartNo(rows[0])
    else
      var m := MaxPart(rows[..|rows| - 1]);
      if PartNo(rows[|rows| - 1]) > m then PartNo(rows[|rows| - 1]) else m
  }

  lemma {:induction false} OrderedEnds(rows: seq<Slice>)
    requires rows != [] && Ordered(rows, SortKey)
    ensures MinPart(rows) == PartNo(rows[0]) && MaxPart(rows) == PartNo(rows[|rows| - 1])
  {
    if |rows| > 1 {
      OrderedEnds(rows[..|rows| - 1]);
      assert SortKey(rows[0]) <= SortKey(rows[|rows| - 1]);
      assert SortKey(rows[|rows| - 2]) <= SortKey(rows[|rows| - 1]);
    }
  }

  datatype FileInfo = FileInfo(path: string, title: string, heading: string, count: nat, partMin: int, partMax: int)

  function FileKey(f: FileInfo): real {
    f.partMin as real
  }

  datatype Restored = Restored(files: seq<FileInfo>, sliceCount: int, unassigned: nat)

  function InfoOf(file: string, rows: seq<Slice>): FileInfo
    requires rows != []
  {
    var segs := SplitArrow(file);
    FileInfo(file, segs[|segs| - 1], Heading(rows[0]), |rows|, MinPart(rows), MaxPart(rows))
  }

  /** Where a slice belongs, from the segments of its path: the package comes off in front, the heading behind,
      unless nothing would be left. */
  lemma FileOfPath(s: Slice, segs: seq<string>)
    requires segs == SplitPath(s.path)
    ensures segs == [] ==> FileOf(s) == None
    ensures |segs| == 1 || |segs| == 2 ==> FileOf(s) == Some(segs[|segs| - 1]) && Heading(s) == segs[|segs| - 1]
    ensures |segs| >= 3 ==> FileOf(s) == Some(JoinPath(segs[1..|segs| - 1])) && Heading(s) == segs[|segs| - 1]
  {
    var own := if |segs| >= 2 then segs[1..] else segs;
    assert |segs| >= 3 ==> own[..|own| - 1] == segs[1..|segs| - 1];
  }

  lemma {:induction false} PartsBetween(rows: seq<Slice>, i: nat)
    requires i < |rows|
    ensures MinPart(rows) <= PartNo(rows[i]) <= MaxPart(rows)
  {
    var n := |rows| - 1;
    if n > 0 {
      PartsBetween(rows[..n], if i < n then i else 0);
    }
  }

  lemma {:induction false} PartsReached(rows: seq<Slice>) returns (i: nat, j: nat)
    requires rows != []
    ensures i < |rows| && j < |rows| && MinPart(rows) == PartNo(rows[i]) && MaxPart(rows) == PartNo(rows[j])
  {
    var n := |rows| - 1;
    i, j := n, n;
    if n > 0 {
      var k, l := PartsReached(rows[..n]);
      i := if MinPart(rows) == PartNo(rows[n]) then n else k;
      j := if MaxPart(rows) == PartNo(rows[n]) then n else l;
    }
  }

  /** What is said about a file: its name, the heading of its first row, how many rows it has, and the least and
      the greatest part among them. */
  lemma InfoMeans(segs: seq<string>, rows: seq<Slice>) returns (least: nat, greatest: nat)
    requires Segments(segs) && segs != [] && rows != []
    ensures var f := InfoOf(JoinPath(segs), rows);
            && f.path == JoinPath(segs) && f.title == segs[|segs| - 1] && f.heading == Heading(rows[0]) && f.count == |rows|
            && (forall i :: 0 <= i < |rows| ==> f.partMin <= PartNo(rows[i]) <= f.partMax)
            && least < |rows| && f.partMin == PartNo(rows[least]) && greatest < |rows| && f.partMax == PartNo(rows[greatest])
  {
    SplitArrowOfJoin(segs);
    forall i | 0 <= i < |rows| ensures MinPart(rows) <= PartNo(rows[i]) <= MaxPart(rows) {
      PartsBetween(rows, i);
    }
    least, greatest := PartsReached(rows);
  }

  // ---------------------------------------------------------------- the listing, for any way of assigning files

  ghost predicate AllHaveRows(rows: seq<Slice>, fileOf: Slice -> Option<string>, files: seq<string>) {
    forall i :: 0 <= i < |files| ==> GroupOf(rows, fileOf, files[i]) != []
  }

  /** The description of each file, in the order given. */
  ghost function Listed(rows: seq<Slice>, fileOf: Slice -> Option<string>, files: seq<string>): seq<FileInfo>
    requires AllHaveRows(rows, fileOf, files)
  {
    if files == [] then []
    else [InfoOf(files[0], GroupOf(rows, fileOf, files[0]))] + Listed(rows, fileOf, files[1..])
  }

  lemma {:induction false} ListedAt(rows: seq<Slice>, fileOf: Slice -> Option<string>, files: seq<string>, k: nat)
    requires AllHaveRows(rows, fileOf, files) && k < |files|
    ensures |Listed(rows, fileOf, files)| == |files|
    ensures Listed(rows, fileOf, files)[k] == InfoOf(files[k], GroupOf(rows, fileOf, files[k]))
  {
    if k > 0 {
      ListedAt(rows, fileOf, files[1..], k - 1);
    } else if |files| > 1 {
      ListedAt(rows, fileOf, files[1..], 0);
    }
  }

  lemma LabelsHaveRows(rows: seq<Slice>, fileOf: Slice -> Option<string>)
    ensures AllHaveRows(rows, fileOf, Labels(rows, fileOf))
  {
    var files := Labels(rows, fileOf);
    assert rows[..|rows|] == rows;
    forall i | 0 <= i < |files| ensures GroupOf(rows, fileOf, files[i]) != [] {
      LabelHasGroup(rows, |rows|, fileOf, files[i]);
    }
  }

  lemma PartMinIsFirst(rows: seq<Slice>, fileOf: Slice -> Option<string>, file: string)
    requires Ordered(rows, SortKey) && GroupOf(rows, fileOf, file) != []
    ensures MinPart(GroupOf(rows, fileOf, file)) == PartNo(GroupOf(rows, fileOf, file)[0])
  {
    FilterOrdered(rows, SortKey, Labelled(fileOf, file));
    OrderedEnds(GroupOf(rows, fileOf, file));
  }

  lemma FilesAscend(rows: seq<Slice>, fileOf: Slice -> Option<string>, files: seq<string>, i: nat, j: nat)
    requires Ordered(rows, SortKey) && files == Labels(rows, fileOf) && AllHaveRows(rows, fileOf, files) && i < j < |files|
    ensures |Listed(rows, fileOf, files)| == |files|
    ensures FileKey(Listed(rows, fileOf, files)[i]) <= FileKey(Listed(rows, fileOf, files)[j])
  {
    assert rows[..|rows|] == rows;
    GroupsAscend(rows, |rows|, fileOf, SortKey, i, j);
    PartMinIsFirst(rows, fileOf, files[i]);
    PartMinIsFirst(rows, fileOf, files[j]);
    ListedAt(rows, fileOf, files, i);
    ListedAt(rows, fileOf, files, j);
  }

  /** Files are described in the order of their first rows, so a last sort by `part_min` changes nothing. */
  lemma LastSortIsIdle(rows: seq<Slice>, fileOf: Slice -> Option<string>, files: seq<string>)
    requires Ordered(rows, SortKey) && files == Labels(rows, fileOf) && AllHaveRows(rows, fileOf, files)
    ensures Sort(Listed(rows, fileOf, files), FileKey) == Listed(rows, fileOf, files)
  {
    var listed := Listed(rows, fileOf, files);
    if files != [] {
      ListedAt(rows, fileOf, files, 0);
    }
    forall i, j | 0 <= i < j < |listed| ensures FileKey(listed[i]) <= FileKey(listed[j]) {
      FilesAscend(rows, fileOf, files, i, j);
    }
    SortOfOrdered(listed, FileKey);
  }

  lemma {:induction false} ListedAppend(rows: seq<Slice>, fileOf: Slice -> Option<string>, files: seq<string>, file: string)
    requires AllHaveRows(rows, fileOf, files) && GroupOf(rows, fileOf, file) != []
    ensures AllHaveRows(rows, fileOf, files + [file])
    ensures Listed(rows, fileOf, files + [file]) == Listed(rows, fileOf, files) + [InfoOf(file, GroupOf(rows, fileOf, file))]
  {
    if files == [] {
      assert files + [file] == [file] && [file][1..] == [];
    } else {
      assert (files + [file])[1..] == files[1..] + [file];
      ListedAppend(rows, fileOf, files[1..], file);
    }
  }

  /** The loop over the groups. */
  method DescribeFiles(rows: seq<Slice>, fileOf: Slice -> Option<string>, files: seq<string>, groups: map<string, seq<Slice>>)
    returns (infos: seq<FileInfo>)
    requires Grouped(rows, fileOf, files, groups) && AllHaveRows(rows, fileOf, files)
    ensures infos == Listed(rows, fileOf, files)
  {
    infos := [];
    var i := 0;
    while i < |files|
      invariant 0 <= i <= |files|
      invariant AllHaveRows(rows, fileOf, files[..i]) && infos == Listed(rows, fileOf, files[..i])
    {
      assert GroupedOne(rows, fileOf, groups, files[i]);
      ListedAppend(rows, fileOf, files[..i], files[i]);
      assert files[..i + 1] == files[..i] + [files[i]];
      infos := infos + [InfoOf(files[i], groups[files[i]])];
      i := i + 1;
    }
    assert files[..|files|] == files;
  }

  /** What `restore_files` returns. */
  ghost predicate IsRestored(slices: seq<Slice>, fileOf: Slice -> Option<string>, r: Restored) {
    var sorted := Sort(slices, SortKey);
    && AllHaveRows(sorted, fileOf, Labels(sorted, fileOf))
    && r.files == Listed(sorted, fileOf, Labels(sorted, fileOf))
    && r.unassigned == Unlabelled(slices, fileOf)
    && r.sliceCount == |slices| - r.unassigned
  }

  method RestoreBy(slices: seq<Slice>, fileOf: Slice -> Option<string>) returns (r: Restored)
    ensures IsRestored(slices, fileOf, r)
  {
    var sorted := Sort(slices, SortKey);
    var files, groups, unassigned := GroupRows(sorted, fileOf);
    SameUnlabelled(slices, fileOf);
    LabelsHaveRows(sorted, fileOf);
    var infos := DescribeFiles(sorted, fileOf, files, groups);
    SortOrdered(slices, SortKey);
    LastSortIsIdle(sorted, fileOf, files);
    return Restored(Sort(infos, FileKey), |slices| - unassigned, unassigned);
  }

  lemma SameUnlabelled(slices: seq<Slice>, fileOf: Slice -> Option<string>)
    ensures Unlabelled(Sort(slices, SortKey), fileOf) == Unlabelled(slices, fileOf)
  {
    SortFilter(slices, SortKey, Lacking(fileOf));
    SortLength(Filter(slices, Lacking(fileOf)), SortKey);
  }

  function SumOfCounts(files: seq<FileInfo>): nat {
    if files == [] then 0 else files[0].count + SumOfCounts(files[1..])
  }

  lemma {:induction false} ListedCounts(rows: seq<Slice>, fileOf: Slice -> Option<string>, files: seq<string>)
    requires AllHaveRows(rows, fileOf, files)
    ensures SumOfCounts(Listed(rows, fileOf, files)) == CountAll(rows, fileOf, files)
  {
    if files != [] {
      ListedCounts(rows, fileOf, files[1..]);
      assert Listed(rows, fileOf, files)[1..] == Listed(rows, fileOf, files[1..]);
    }
  }

  lemma CountsBy(slices: seq<Slice>, fileOf: Slice -> Option<string>, r: Restored)
    requires IsRestored(slices, fileOf, r)
    ensures SumOfCounts(r.files) == r.sliceCount && r.sliceCount + r.unassigned == |slices|
  {
    var sorted := Sort(slices, SortKey);
    ListedCounts(sorted, fileOf, Labels(sorted, fileOf));
    CountsAddUp(sorted, fileOf);
    SameUnlabelled(slices, fileOf);
    SortLength(slices, SortKey);
  }

  // ---------------------------------------------------------------- restore_files

  /** `restore_files`: sort, group, describe each file, sort the files. */
  method RestoreFiles(slices: seq<Slice>) returns (r: Restored)
    ensures IsRestored(slices, FileOf, r)
  {
    r := RestoreBy(slices, FileOf);
  }

  /** The files hold every slice that has a path, each once: their counts add up to the slice count. */
  lemma RestorationConserves(slices: seq<Slice>, r: Restored)
    requires IsRestored(slices, FileOf, r)
    ensures SumOfCounts(r.files) == r.sliceCount && r.sliceCount + r.unassigned == |slices|
  {
    CountsBy(slices, FileOf, r);
  }

  /** The preview filters the unsorted slices and renders them by part: those are the rows of the file, in
      the order in which the restoration saw them. */
  lemma PreviewIsTheGroup(slices: seq<Slice>, file: string)
    ensures Sort(Filter(slices, Labelled(FileOf, file)), SortKey) == GroupOf(Sort(slices, SortKey), FileOf, file)
  {
    SortFilter(slices, SortKey, Labelled(FileOf, file));
  }
}
