/** The part of Python's string library that the modelled code relies on. */
module Text {

  /** `part in s`. */
  predicate Contains(s: string, part: string) {
    part <= s || (s != [] && Contains(s[1..], part))
  }

  /** The ranges of characters that `str.strip()` removes. */
  const WHITE_SPACE: seq<(char, char)> := [
    ('\t', '\r'), ('\U{1c}', ' '), ('\U{85}', '\U{85}'), ('\U{a0}', '\U{a0}'), ('\U{1680}', '\U{1680}'),
    ('\U{2000}', '\U{200a}'), ('\U{2028}', '\U{2029}'), ('\U{202f}', '\U{202f}'), ('\U{205f}', '\U{205f}'),
    ('\U{3000}', '\U{3000}')]

  predicate InRanges(c: char, ranges: seq<(char, char)>) {
    ranges != [] && (ranges[0].0 <= c <= ranges[0].1 || InRanges(c, ranges[1..]))
  }

  predicate IsSpace(c: char) {
    InRanges(c, WHITE_SPACE)
  }

  lemma {:induction false} InRangesIff(c: char, ranges: seq<(char, char)>)
    ensures InRanges(c, ranges) <==> exists k :: 0 <= k < |ranges| && ranges[k].0 <= c <= ranges[k].1
  {
    if ranges != [] {
      InRangesIff(c, ranges[1..]);
      if k :| 0 <= k < |ranges[1..]| && ranges[1..][k].0 <= c <= ranges[1..][k].1 {
        assert ranges[k + 1].0 <= c <= ranges[k + 1].1;
      }
      if k :| 0 <= k < |ranges| && ranges[k].0 <= c <= ranges[k].1 {
        assert k > 0 ==> ranges[1..][k - 1].0 <= c <= ranges[1..][k - 1].1;
      }
    }
  }

  /** Character by character. */
  lemma SpacesAre(c: char)
    ensures IsSpace(c)
       <==> || c in {'\t', '\n', '\U{b}', '\U{c}', '\r', '\U{1c}', '\U{1d}', '\U{1e}', '\U{1f}', ' ', '\U{85}', '\U{a0}'}
            || c in {'\U{1680}', '\U{2000}', '\U{2001}', '\U{2002}', '\U{2003}', '\U{2004}', '\U{2005}', '\U{2006}'}
            || c in {'\U{2007}', '\U{2008}', '\U{2009}', '\U{200a}', '\U{2028}', '\U{2029}', '\U{202f}', '\U{205f}', '\U{3000}'}
  {
    var ranges := WHITE_SPACE;
    InRangesIff(c, ranges);
    if 0 <= c as int < 0x80 {
      assert ranges[0].0 <= c <= ranges[0].1 <==> c in {'\t', '\n', '\U{b}', '\U{c}', '\r'};
      assert ranges[1].0 <= c <= ranges[1].1 <==> c in {'\U{1c}', '\U{1d}', '\U{1e}', '\U{1f}', ' '};
    } else {
      assert ranges[2].0 <= c <= ranges[2].1 <==> c == '\U{85}';
      assert ranges[3].0 <= c <= ranges[3].1 <==> c == '\U{a0}';
      assert ranges[4].0 <= c <= ranges[4].1 <==> c == '\U{1680}';
      assert ranges[5].0 <= c <= ranges[5].1 <==> '\U{2000}' <= c <= '\U{200a}';
      assert ranges[6].0 <= c <= ranges[6].1 <==> c == '\U{2028}' || c == '\U{2029}';
      assert ranges[7].0 <= c <= ranges[7].1 <==> c == '\U{202f}';
      assert ranges[8].0 <= c <= ranges[8].1 <==> c == '\U{205f}';
      assert ranges[9].0 <= c <= ranges[9].1 <==> c == '\U{3000}';
    }
  }

  lemma SpaceFacts()
    ensures IsSpace(' ') && !IsSpace('$') && !IsSpace(';') && !IsSpace('>')
  {
  }

  ghost predicate Blank(s: string) {
    forall i :: 0 <= i < |s| ==> IsSpace(s[i])
  }

  function TrimLeft(s: string): string {
    if s != [] && IsSpace(s[0]) then TrimLeft(s[1..]) else s
  }

  function TrimRight(s: string): string {
    if s != [] && IsSpace(s[|s| - 1]) then TrimRight(s[..|s| - 1]) else s
  }

  function Strip(s: string): string {
    TrimRight(TrimLeft(s))
  }

  predicate StartsClean(s: string) {
    s == [] || !IsSpace(s[0])
  }

  predicate EndsClean(s: string) {
    s == [] || !IsSpace(s[|s| - 1])
  }

  /** Neither end of `s` is white space. */
  predicate Trimmed(s: string) {
    StartsClean(s) && EndsClean(s)
  }

  lemma {:induction false} TrimLeftSplits(s: string) returns (left: string)
    ensures s == left + TrimLeft(s) && Blank(left)
    ensures StartsClean(TrimLeft(s))
  {
    if s != [] && IsSpace(s[0]) {
      var rest := TrimLeftSplits(s[1..]);
      left := [s[0]] + rest;
      assert s == [s[0]] + s[1..];
    } else {
      left := [];
      assert s == [] + s;
    }
  }

  lemma {:induction false} TrimRightSplits(s: string) returns (right: string)
    ensures s == TrimRight(s) + right && Blank(right)
    ensures EndsClean(TrimRight(s))
  {
    if s != [] && IsSpace(s[|s| - 1]) {
      var n := |s| - 1;
      var rest := TrimRightSplits(s[..n]);
      right := rest + [s[n]];
      assert s == s[..n] + [s[n]];
    } else {
      right := [];
      assert s == s + [];
    }
  }

  /** Stripping cuts white space off both ends and nothing else. */
  lemma StripSplits(s: string) returns (left: string, right: string)
    ensures s == left + Strip(s) + right
    ensures Blank(left) && Blank(right) && Trimmed(Strip(s))
  {
    left := TrimLeftSplits(s);
    right := TrimRightSplits(TrimLeft(s));
    Associates(left, Strip(s), right);
    HeadStays(Strip(s), right, TrimLeft(s));
  }

  lemma Associates(a: string, b: string, c: string)
    ensures a + (b + c) == (a + b) + c
  {
  }

  lemma HeadStays(a: string, b: string, ab: string)
    requires ab == a + b && StartsClean(ab)
    ensures StartsClean(a)
  {
    assert a != [] ==> ab[0] == a[0];
  }

  lemma StripTrimmed(s: string)
    requires Trimmed(s)
    ensures Strip(s) == s
  {
  }

  lemma StripTwice(s: string)
    ensures Trimmed(Strip(s)) && Strip(Strip(s)) == Strip(s)
  {
    var left, right := StripSplits(s);
    StripTrimmed(Strip(s));
  }

  lemma {:induction false} TrimLeftPadded(left: string, s: string)
    requires Blank(left) && StartsClean(s)
    ensures TrimLeft(left + s) == s
  {
    if left == [] {
      assert left + s == s;
    } else {
      assert (left + s)[0] == left[0] && (left + s)[1..] == left[1..] + s;
      TrimLeftPadded(left[1..], s);
    }
  }

  lemma {:induction false} TrimRightPadded(s: string, right: string)
    requires Blank(right) && EndsClean(s)
    ensures TrimRight(s + right) == s
  {
    if right == [] {
      assert s + right == s;
    } else {
      var n := |right| - 1;
      assert (s + right)[|s| + n] == right[n] && (s + right)[..|s| + n] == s + right[..n];
      TrimRightPadded(s, right[..n]);
    }
  }

  /** White space around `s` does not survive stripping. */
  lemma StripPadded(left: string, s: string, right: string)
    requires Trimmed(s) && s != [] && Blank(left) && Blank(right)
    ensures Strip(left + s + right) == s
  {
    Associates(left, s, right);
    assert (s + right)[0] == s[0];
    TrimLeftPadded(left, s + right);
    TrimRightPadded(s, right);
  }

  /** Only the left end moves when the last character is not white space. */
  lemma StripKeepsEnd(s: string) returns (left: string)
    requires s != [] && EndsClean(s)
    ensures s == left + Strip(s) && Strip(s) != [] && Blank(left)
  {
    left := TrimLeftSplits(s);
    var mid := TrimLeft(s);
    assert mid == [] ==> left == s;
    assert mid != [] ==> mid[|mid| - 1] == s[|s| - 1];
  }
}
