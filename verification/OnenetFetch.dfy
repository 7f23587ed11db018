/** onenet_query/app.py: the segments in which a source is fetched, and the check of what came back. */
module OnenetFetch {
  import opened Common
  import opened OnenetPaths
  import opened OnenetRestore
  import opened OnenetSelect

  // ---------------------------------------------------------------- segments

  const WIDTH := 10000

  /** A part file: the part numbers `lo` to `hi`, both included. */
  datatype Segment = Segment(lo: int, hi: int)

  predicate Covers(s: Segment, part: int) {
    s.lo <= part <= s.hi
  }

  function LastOf(lo: int, hi: int): int {
    if lo + WIDTH - 1 < hi then lo + WIDTH - 1 else hi
  }

  function Cut(lo: int, hi: int): seq<Segment>
    decreases hi - lo + 1
  {
    if lo > hi then [] else [Segment(lo, LastOf(lo, hi))] + Cut(LastOf(lo, hi) + 1, hi)
  }

  /** The segment loop of `_run_fetch`. */
  method FetchSegments(lo: int, hi: int) returns (segments: seq<Segment>)
    ensures segments == Cut(lo, hi)
  {
    segments := [];
    var segLo := lo;
    while segLo <= hi
      invariant segments + Cut(segLo, hi) == Cut(lo, hi)
      decreases hi - segLo + 1
    {
      var segHi := LastOf(segLo, hi);
      segments := segments + [Segment(segLo, segHi)];
      segLo := segHi + 1;
    }
  }

  /** The segments cover exactly the parts from `lo` to `hi`, each of them once; none is wider than the limit, and
      all but the last are as wide. */
  lemma {:induction false} CutIsExact(lo: int, hi: int)
    ensures forall i :: 0 <= i < |Cut(lo, hi)| ==>
              lo <= Cut(lo, hi)[i].lo <= Cut(lo, hi)[i].hi <= hi && Cut(lo, hi)[i].hi - Cut(lo, hi)[i].lo < 10000
    ensures forall i :: 0 <= i < |Cut(lo, hi)| - 1 ==> Cut(lo, hi)[i].hi - Cut(lo, hi)[i].lo == 9999
    ensures forall i, j :: 0 <= i < j < |Cut(lo, hi)| ==> Cut(lo, hi)[i].hi < Cut(lo, hi)[j].lo
    ensures forall part :: lo <= part <= hi <==> InSome(Cut(lo, hi), part)
    decreases hi - lo + 1
  {
    if lo <= hi {
      var rest := Cut(LastOf(lo, hi) + 1, hi);
      CutIsExact(LastOf(lo, hi) + 1, hi);
      forall part ensures InSome(Cut(lo, hi), part) <==> Covers(Segment(lo, LastOf(lo, hi)), part) || InSome(rest, part) {
        InHeadOrTail(Segment(lo, LastOf(lo, hi)), rest, part);
      }
    }
  }

  ghost predicate InSome(segments: seq<Segment>, part: int) {
    exists i :: 0 <= i < |segments| && Covers(segments[i], part)
  }

  lemma InHeadOrTail(s: Segment, rest: seq<Segment>, part: int)
    ensures InSome([s] + rest, part) <==> Covers(s, part) || InSome(rest, part)
  {
    var all := [s] + rest;
    if Covers(s, part) {
      assert Covers(all[0], part);
    }
    if i :| 0 <= i < |rest| && Covers(rest[i], part) {
      assert Covers(all[i + 1], part);
    }
    if i :| 0 <= i < |all| && Covers(all[i], part) {
      assert i > 0 ==> Covers(rest[i - 1], part);
    }
  }

  // ---------------------------------------------------------------- part files of an earlier run

  /** Two different part files hold a part in common. */
  ghost predicate Overlap(files: set<Segment>) {
    exists a, b, part :: a in files && b in files && a != b && Covers(a, part) && Covers(b, part)
  }

  function FilesOf(segments: seq<Segment>): set<Segment> {
    set s | s in segments
  }

  lemma CutHead(lo: int, hi: int)
    requires lo <= hi
    ensures FilesOf(Cut(lo, hi)) == {Segment(lo, LastOf(lo, hi))} + FilesOf(Cut(LastOf(lo, hi) + 1, hi))
  {
  }

  lemma InCut(lo: int, hi: int, s: Segment)
    requires s in FilesOf(Cut(lo, hi))
    ensures lo <= s.lo <= s.hi <= hi
  {
    CutIsExact(lo, hi);
    var i :| 0 <= i < |Cut(lo, hi)| && Cut(lo, hi)[i] == s;
  }

  lemma OverlapBeyond(s: Segment, files: set<Segment>)
    requires forall f :: f in files ==> f.lo > s.hi
    ensures Overlap({s} + files) <==> Overlap(files)
  {
    if a, b, part :| a in {s} + files && b in {s} + files && a != b && Covers(a, part) && Covers(b, part) {
      assert a in files && b in files;
    }
    if a, b, part :| a in files && b in files && a != b && Covers(a, part) && Covers(b, part) {
      assert a in {s} + files && b in {s} + files;
    }
  }

  lemma {:induction false} OwnFilesAreDisjoint(lo: int, hi: int)
    ensures !Overlap(FilesOf(Cut(lo, hi)))
    decreases hi - lo + 1
  {
    if lo <= hi {
      var next := LastOf(lo, hi) + 1;
      OwnFilesAreDisjoint(next, hi);
      CutHead(lo, hi);
      forall f | f in FilesOf(Cut(next, hi)) ensures f.lo > LastOf(lo, hi) {
        InCut(next, hi, f);
      }
      OverlapBeyond(Segment(lo, LastOf(lo, hi)), FilesOf(Cut(next, hi)));
    }
  }

  /** Part files are kept between runs and merged by name. When the source has grown from `hi` to `more`
      since the last run, the merged files hold no part twice exactly when the last segment of the old
      run was a full one. */
  lemma {:induction false} GrownSourceOverlapsIff(lo: int, hi: int, more: int)
    requires lo <= hi < more
    ensures Overlap(FilesOf(Cut(lo, hi)) + FilesOf(Cut(lo, more))) <==> (hi - lo + 1) % WIDTH != 0
    decreases hi - lo + 1
  {
    if lo + WIDTH - 1 < hi {
      GrownSourceOverlapsIff(lo + WIDTH, hi, more);
      FirstSegment(lo, hi, more);
      OneWidthLess(lo, hi);
    } else {
      LastSegment(lo, hi, more);
    }
  }

  lemma OneWidthLess(lo: int, hi: int)
    ensures (hi - lo + 1) % WIDTH == (hi - (lo + WIDTH) + 1) % WIDTH
  {
  }

  lemma SharedFirst(s: Segment, a: set<Segment>, b: set<Segment>)
    requires forall f :: f in a ==> f.lo > s.hi
    requires forall f :: f in b ==> f.lo > s.hi
    ensures Overlap({s} + a + ({s} + b)) <==> Overlap(a + b)
  {
    assert {s} + a + ({s} + b) == {s} + (a + b);
    OverlapBeyond(s, a + b);
  }

  lemma CutLiesBeyond(lo: int, hi: int, below: int)
    requires below < lo
    ensures forall f :: f in FilesOf(Cut(lo, hi)) ==> f.lo > below
  {
    forall f | f in FilesOf(Cut(lo, hi)) ensures f.lo > below {
      InCut(lo, hi, f);
    }
  }

  /** A full first segment is the same file in both runs. */
  lemma FirstSegment(lo: int, hi: int, more: int)
    requires lo + WIDTH - 1 < hi < more
    ensures Overlap(FilesOf(Cut(lo, hi)) + FilesOf(Cut(lo, more)))
       <==> Overlap(FilesOf(Cut(lo + WIDTH, hi)) + FilesOf(Cut(lo + WIDTH, more)))
  {
    CutHead(lo, hi);
    CutHead(lo, more);
    CutLiesBeyond(lo + WIDTH, hi, lo + WIDTH - 1);
    CutLiesBeyond(lo + WIDTH, more, lo + WIDTH - 1);
    SharedFirst(Segment(lo, lo + WIDTH - 1), FilesOf(Cut(lo + WIDTH, hi)), FilesOf(Cut(lo + WIDTH, more)));
  }

  lemma LastSegment(lo: int, hi: int, more: int)
    requires lo <= hi < more && lo + WIDTH - 1 >= hi
    ensures Overlap(FilesOf(Cut(lo, hi)) + FilesOf(Cut(lo, more))) <==> (hi - lo + 1) % WIDTH != 0
  {
    var s, longer := Segment(lo, hi), Segment(lo, LastOf(lo, more));
    CutHead(lo, hi);
    CutHead(lo, more);
    assert FilesOf(Cut(hi + 1, hi)) == {};
    if lo + WIDTH - 1 == hi {
      assert FilesOf(Cut(lo, hi)) + FilesOf(Cut(lo, more)) == FilesOf(Cut(lo, more));
      OwnFilesAreDisjoint(lo, more);
    } else {
      assert Covers(s, lo) && Covers(longer, lo) && s != longer;
    }
  }

  // ---------------------------------------------------------------- verify_slices

  /** `int(part_id or -1)`. */
  function VerifyPart(s: Slice): (r: int)
    ensures (s.partId == Some(r) && r != 0) || (s.partId in {None, Some(0)} && r == -1)
  {
    if s.partId.None? || s.partId.value == 0 then -1 else s.partId.value
  }

  /** What verification compares of a slice's id. */
  function NidKey(s: Slice): string {
    VerifyKey(s.nid)
  }

  function KeysOf<K>(slices: seq<Slice>, keyOf: Slice -> K): set<K> {
    set i | 0 <= i < |slices| :: keyOf(slices[i])
  }

  ghost predicate AllDiffer<K>(slices: seq<Slice>, keyOf: Slice -> K) {
    forall i, j :: 0 <= i < j < |slices| ==> keyOf(slices[i]) != keyOf(slices[j])
  }

  function PartSet(slices: seq<Slice>): set<int> {
    KeysOf(slices, VerifyPart)
  }

  ghost predicate PartsDiffer(slices: seq<Slice>) {
    AllDiffer(slices, VerifyPart)
  }

  /** The greatest part number, 0 for no slices. */
  function GreatestPart(slices: seq<Slice>): int {
    if slices == [] then 0
    else if |slices| == 1 then VerifyPart(slices[0])
    else
      var m := GreatestPart(slices[..|slices| - 1]);
      if VerifyPart(slices[|slices| - 1]) > m then VerifyPart(slices[|slices| - 1]) else m
  }

  ghost predicate NoGap(slices: seq<Slice>) {
    forall k :: 1 <= k <= GreatestPart(slices) ==> k in PartSet(slices)
  }

  datatype Verified = Verified(slices: nat, partMax: int, perFile: bool, dupPart: nat)

  datatype Rejection = Rejection(dupNid: nat, missing: nat)

  lemma KeysOfGrow<K>(slices: seq<Slice>, i: nat, keyOf: Slice -> K)
    requires i < |slices|
    ensures KeysOf(slices[..i + 1], keyOf) == KeysOf(slices[..i], keyOf) + {keyOf(slices[i])}
  {
    assert forall k :: 0 <= k < i ==> slices[..i][k] == slices[..i + 1][k];
    assert slices[..i + 1][i] == slices[i];
  }

  lemma DifferGrows<K>(slices: seq<Slice>, i: nat, keyOf: Slice -> K)
    requires i < |slices|
    ensures AllDiffer(slices[..i + 1], keyOf)
       <==> AllDiffer(slices[..i], keyOf) && keyOf(slices[i]) !in KeysOf(slices[..i], keyOf)
  {
    var a, b := slices[..i], slices[..i + 1];
    assert forall k :: 0 <= k < i ==> a[k] == b[k];
    if AllDiffer(b, keyOf) {
      assert forall k :: 0 <= k < i ==> keyOf(b[k]) != keyOf(b[i]);
    }
  }

  /** The keys seen, and how often one was seen again. */
  datatype Tally<K> = Tally(seen: set<K>, dup: nat)

  function Noted<K>(t: Tally<K>, key: K): Tally<K> {
    Tally(t.seen + {key}, if key in t.seen then t.dup + 1 else t.dup)
  }

  function TallyOf<K>(slices: seq<Slice>, i: nat, keyOf: Slice -> K): Tally<K>
    requires i <= |slices|
  {
    if i == 0 then Tally({}, 0) else Noted(TallyOf(slices, i - 1, keyOf), keyOf(slices[i - 1]))
  }

  lemma {:induction false} TallySeen<K>(slices: seq<Slice>, i: nat, keyOf: Slice -> K)
    requires i <= |slices|
    ensures TallyOf(slices, i, keyOf).seen == KeysOf(slices[..i], keyOf)
  {
    if i > 0 {
      TallySeen(slices, i - 1, keyOf);
      KeysOfGrow(slices, i - 1, keyOf);
    }
  }

  lemma {:induction false} TallySize<K>(slices: seq<Slice>, i: nat, keyOf: Slice -> K)
    requires i <= |slices|
    ensures TallyOf(slices, i, keyOf).dup + |TallyOf(slices, i, keyOf).seen| == i
  {
    if i > 0 {
      TallySize(slices, i - 1, keyOf);
      NotedCounts(TallyOf(slices, i - 1, keyOf), keyOf(slices[i - 1]));
    }
  }

  /** No key among the first `i` was seen before. */
  ghost predicate Fresh<K>(slices: seq<Slice>, i: nat, keyOf: Slice -> K)
    requires i <= |slices|
  {
    i > 0 ==> Fresh(slices, i - 1, keyOf) && keyOf(slices[i - 1]) !in KeysOf(slices[..i - 1], keyOf)
  }

  lemma {:induction false} FreshIsDiffer<K>(slices: seq<Slice>, i: nat, keyOf: Slice -> K)
    requires i <= |slices|
    ensures Fresh(slices, i, keyOf) <==> AllDiffer(slices[..i], keyOf)
  {
    if i > 0 {
      FreshIsDiffer(slices, i - 1, keyOf);
      DifferGrows(slices, i - 1, keyOf);
    }
  }

  lemma {:induction false} TallyDup<K>(slices: seq<Slice>, i: nat, keyOf: Slice -> K)
    requires i <= |slices|
    ensures TallyOf(slices, i, keyOf).dup == 0 <==> Fresh(slices, i, keyOf)
  {
    if i > 0 {
      TallyDup(slices, i - 1, keyOf);
      TallySeen(slices, i - 1, keyOf);
      NotedCounts(TallyOf(slices, i - 1, keyOf), keyOf(slices[i - 1]));
    }
  }

  lemma TallyCounts<K>(slices: seq<Slice>, keyOf: Slice -> K)
    ensures var t := TallyOf(slices, |slices|, keyOf);
            t.seen == KeysOf(slices, keyOf) && t.dup + |t.seen| == |slices| && (t.dup == 0 <==> AllDiffer(slices, keyOf))
  {
    assert slices[..|slices|] == slices;
    TallySeen(slices, |slices|, keyOf);
    TallySize(slices, |slices|, keyOf);
    TallyDup(slices, |slices|, keyOf);
    FreshIsDiffer(slices, |slices|, keyOf);
  }

  lemma NotedCounts<K>(t: Tally<K>, key: K)
    ensures Noted(t, key).dup + |Noted(t, key).seen| == t.dup + |t.seen| + 1
    ensures Noted(t, key).dup == 0 <==> t.dup == 0 && key !in t.seen
  {
    assert key in t.seen ==> t.seen + {key} == t.seen;
  }

  /** The first loop of `verify_slices`. */
  method CountDuplicates(slices: seq<Slice>) returns (nids: Tally<string>, parts: Tally<int>)
    ensures nids == TallyOf(slices, |slices|, NidKey) && parts == TallyOf(slices, |slices|, VerifyPart)
  {
    nids, parts := Tally({}, 0), Tally({}, 0);
    var i := 0;
    while i < |slices|
      invariant 0 <= i <= |slices|
      invariant nids == TallyOf(slices, i, NidKey) && parts == TallyOf(slices, i, VerifyPart)
    {
      nids := Noted(nids, NidKey(slices[i]));
      parts := Noted(parts, VerifyPart(slices[i]));
      i := i + 1;
    }
  }

  lemma NidKeysDiffer(slices: seq<Slice>)
    ensures AllDiffer(slices, NidKey) <==> KeysDiffer(slices)
  {
    if AllDiffer(slices, NidKey) {
      assert forall i, j :: 0 <= i < j < |slices| ==> NidKey(slices[i]) != NidKey(slices[j]);
    }
    if KeysDiffer(slices) {
      assert forall i, j :: 0 <= i < j < |slices| ==> VerifyKey(slices[i].nid) != VerifyKey(slices[j].nid);
    }
  }

  function UpTo(n: nat): set<int> {
    if n == 0 then {} else UpTo(n - 1) + {n}
  }

  lemma {:induction false} UpToIsRange(n: nat, k: int)
    ensures |UpTo(n)| == n && (k in UpTo(n) <==> 1 <= k <= n)
  {
    if n > 0 {
      UpToIsRange(n - 1, k);
      UpToIsRange(n - 1, n);
    }
  }

  /** The numbers from 1 to `max` that were not seen. */
  function Unseen(seen: set<int>, max: int): set<int> {
    UpTo(if max < 0 then 0 else max) - seen
  }

  lemma UnseenGrows(seen: set<int>, k: nat)
    requires k >= 1
    ensures |Unseen(seen, k)| == |Unseen(seen, k - 1)| + if k in seen then 0 else 1
  {
    UpToIsRange(k - 1, k);
    assert Unseen(seen, k) == Unseen(seen, k - 1) + if k in seen then {} else {k};
  }

  lemma UnseenIff(seen: set<int>, max: int)
    ensures Unseen(seen, max) == {} <==> forall k :: 1 <= k <= max ==> k in seen
  {
    var n := if max < 0 then 0 else max;
    forall k ensures k in Unseen(seen, max) <==> 1 <= k <= max && k !in seen {
      UpToIsRange(n, k);
    }
  }

  /** How many of the numbers from 1 to `max` are missing. */
  method CountMissing(seen: set<int>, max: int) returns (missing: nat)
    ensures missing == |Unseen(seen, max)|
  {
    missing := 0;
    assert Unseen(seen, 0) == {} && (max < 0 ==> Unseen(seen, max) == {});
    var k := 1;
    while k <= max
      invariant 1 <= k <= if max < 0 then 1 else max + 1
      invariant missing == |Unseen(seen, k - 1)|
      decreases max - k + 1
    {
      UnseenGrows(seen, k);
      if k !in seen {
        missing := missing + 1;
      }
      k := k + 1;
    }
  }

  /** `verify_slices`: distinct ids, and no gap unless part numbers repeat. */
  method VerifySlices(slices: seq<Slice>) returns (r: Result<Verified, Rejection>)
    ensures r.Ok? <==> KeysDiffer(slices) && (!PartsDiffer(slices) || NoGap(slices))
    ensures r.Ok? ==> r.value.slices == |slices| && r.value.partMax == GreatestPart(slices)
                      && (r.value.perFile <==> !PartsDiffer(slices)) && r.value.dupPart + |PartSet(slices)| == |slices|
    ensures slices == [] ==> r == Ok(Verified(0, 0, false, 0))
    ensures r.Err? ==> (r.error.dupNid == 0 <==> KeysDiffer(slices)) && r.error.dupNid + |KeysOf(slices, NidKey)| == |slices|
    ensures r.Err? ==> r.error.missing == if PartsDiffer(slices) then |Unseen(PartSet(slices), GreatestPart(slices))| else 0
  {
    var nids, parts := CountDuplicates(slices);
    var dupNid, dupPart, seenPart := nids.dup, parts.dup, parts.seen;
    TallyCounts(slices, NidKey);
    TallyCounts(slices, VerifyPart);
    NidKeysDiffer(slices);
    assert dupPart == 0 <==> PartsDiffer(slices);
    assert seenPart == PartSet(slices);
    var gotMax := GreatestPart(slices);
    var missing := 0;
    UnseenIff(seenPart, gotMax);
    if dupPart == 0 {
      missing := CountMissing(seenPart, gotMax);
    }
    if dupNid > 0 || missing > 0 {
      return Err(Rejection(dupNid, missing));
    }
    return Ok(Verified(|slices|, gotMax, dupPart > 0, dupPart));
  }

  // ---------------------------------------------------------------- what acceptance means

  lemma {:induction false} PartsCount(slices: seq<Slice>, i: nat)
    requires i <= |slices| && PartsDiffer(slices)
    ensures |PartSet(slices[..i])| == i
  {
    if i > 0 {
      PartsCount(slices, i - 1);
      KeysOfGrow(slices, i - 1, VerifyPart);
      assert VerifyPart(slices[i - 1]) !in PartSet(slices[..i - 1]);
    }
  }

  lemma {:induction false} GreatestIsBound(slices: seq<Slice>, s: Slice)
    requires s in slices
    ensures VerifyPart(s) <= GreatestPart(slices)
  {
    if |slices| > 1 {
      var n := |slices| - 1;
      assert slices == slices[..n] + [slices[n]];
      if s in slices[..n] {
        GreatestIsBound(slices[..n], s);
      }
    }
  }

  lemma {:induction false} GreatestIsReached(slices: seq<Slice>) returns (i: nat)
    requires slices != []
    ensures i < |slices| && GreatestPart(slices) == VerifyPart(slices[i])
  {
    var n := |slices| - 1;
    i := n;
    if n > 0 && GreatestPart(slices) != VerifyPart(slices[n]) {
      i := GreatestIsReached(slices[..n]);
    }
  }

  /** If no part repeats and all are positive, an accepted document has exactly the parts 1 to n, each once. */
  lemma AcceptedPartsArePermutation(slices: seq<Slice>, k: int) returns (i: nat)
    requires PartsDiffer(slices) && NoGap(slices) && forall s :: s in slices ==> VerifyPart(s) >= 1
    requires 1 <= k <= |slices|
    ensures i < |slices| && VerifyPart(slices[i]) == k
    ensures forall j :: 0 <= j < |slices| && VerifyPart(slices[j]) == k ==> j == i
    ensures GreatestPart(slices) == |slices|
  {
    assert slices[..|slices|] == slices;
    PartsCount(slices, |slices|);
    var max := GreatestPart(slices);
    assert slices[0] in slices;
    GreatestIsBound(slices, slices[0]);
    forall p ensures p in PartSet(slices) <==> p in UpTo(max) {
      UpToIsRange(max, p);
      if p in PartSet(slices) {
        var j :| 0 <= j < |slices| && VerifyPart(slices[j]) == p;
        GreatestIsBound(slices, slices[j]);
      }
    }
    assert PartSet(slices) == UpTo(max);
    UpToIsRange(max, k);
    assert k in PartSet(slices);
    i :| 0 <= i < |slices| && VerifyPart(slices[i]) == k;
  }

  // ---------------------------------------------------------------- what acceptance does not mean

  /** A missing id beside the text None. */
  function MissingBesideNone(path: string): seq<Slice> {
    [Slice(Missing, path, Some(1)), Slice(Text("None"), path, Some(2))]
  }

  function OwnFile(path: string): string {
    JoinPath(FileSegs(path))
  }

  lemma InOwnFile(s: Slice)
    requires OwnSegs(s.path) != []
    ensures WithHit(FileOf, Hits([OwnFile(s.path)]))(s) && IsSelected([OwnFile(s.path)])(s)
  {
    var subtrees := [OwnFile(s.path)];
    OwnSegsAreSegments(s.path);
    HeadOfJoin(FileSegs(s.path));
    assert FileHit(OwnFile(s.path), subtrees[0]);
    assert HitByAny(FileOf(s).value, subtrees);
    MatchedFileSlicesMatch(s, subtrees);
  }

  lemma FilterBoth(a: Slice, b: Slice, p: Slice -> bool)
    requires p(a) && p(b)
    ensures Filter([a, b], p) == [a, b]
  {
    assert [a, b][1..] == [b] && [b][1..] == [];
    assert Filter([b], p) == [b];
  }

  lemma BothAreAccepted(path: string)
    ensures var slices := MissingBesideNone(path);
            KeysDiffer(slices) && TextsClash(slices) && PartsDiffer(slices) && NoGap(slices)
  {
    var slices := MissingBesideNone(path);
    assert NidText(slices[0].nid) == NidText(slices[1].nid);
    assert VerifyPart(slices[0]) == 1 && VerifyPart(slices[1]) == 2;
    assert slices[..1] == [slices[0]];
    assert GreatestPart([slices[0]]) == 1;
  }

  /** Verification accepts it, and `str` cannot tell the two apart: ticking their file gives two matched slices
      and one matched id, whatever the path. */
  lemma MissingClashesWithNone(path: string, r: Restored)
    requires OwnSegs(path) != [] && IsRestored(MissingBesideNone(path), FileOf, r)
    ensures var slices, subtrees := MissingBesideNone(path), [OwnFile(path)];
            && KeysDiffer(slices) && PartsDiffer(slices) && NoGap(slices)
            && SumOfCounts(Filter(r.files, IsHit(Hits(subtrees)))) == 2
            && |Texts(Filter(slices, IsSelected(subtrees)))| == 1
  {
    var slices, subtrees := MissingBesideNone(path), [OwnFile(path)];
    InOwnFile(slices[0]);
    InOwnFile(slices[1]);
    FilterBoth(slices[0], slices[1], WithHit(FileOf, Hits(subtrees)));
    FilterBoth(slices[0], slices[1], IsSelected(subtrees));
    MatchedCounts(slices, FileOf, r, Hits(subtrees));
    BothAreAccepted(path);
    TextCount(slices);
  }
}
