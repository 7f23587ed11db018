/** llm_service/pg_schema.py: cutting a DDL script into statements, `$$`-quoted bodies intact. */
module DdlSplit {
  import opened Common
  import opened Text

  predicate AtQuote(s: string) {
    |s| >= 2 && s[0] == '$' && s[1] == '$'
  }

  function Shift(n: Option<nat>, k: nat): Option<nat> {
    if n.Some? then Some(n.value + k) else None
  }

  /** How far the first `;` outside `$$` reaches, reading `s` from inside (`q`) or outside a quoted body. */
  function FirstEnd(s: string, q: bool): (r: Option<nat>)
    ensures r.Some? ==> 0 < r.value <= |s|
  {
    if s == [] then None
    else if AtQuote(s) then Shift(FirstEnd(s[2..], !q), 2)
    else if s[0] == ';' && !q then Some(1)
    else Shift(FirstEnd(s[1..], q), 1)
  }

  /** The statements of a script: cut after each unquoted `;`, trim, drop an empty tail. */
  function Split(s: string): seq<string> {
    match FirstEnd(s, false)
    case Some(k) => [Strip(s[..k])] + Split(s[k..])
    case None => if Strip(s) == [] then [] else [Strip(s)]
  }

  method SplitDdl(ddl: string) returns (stmts: seq<string>)
    ensures stmts == Split(ddl)
  {
    stmts := [];
    var current: string := [];
    var inDollarQuote := false;
    var i := 0;
    ghost var unread := ddl;
    StartOver(ddl);
    while i < |ddl|
      invariant i <= |ddl| && unread == ddl[i..]
      invariant Scanning(current, unread, inDollarQuote)
      invariant stmts + Split(current + unread) == Split(ddl)
    {
      if AtQuote(ddl[i..]) {
        AdvanceQuote(current, unread, inDollarQuote);
        inDollarQuote := !inDollarQuote;
        current := current + "$$";
        i, unread := i + 2, unread[2..];
      } else if ddl[i] == ';' && !inDollarQuote {
        AdvanceEnd(current, unread);
        StartOver(unread[1..]);
        current := current + [';'];
        var stmt := Strip(current);
        if stmt != [] {
          AppendAssociates(stmts, stmt, Split(unread[1..]));
          stmts := stmts + [stmt];
        }
        current := [];
        i, unread := i + 1, unread[1..];
      } else {
        AdvanceChar(current, unread, inDollarQuote);
        current := current + [ddl[i]];
        i, unread := i + 1, unread[1..];
      }
    }
    assert current + unread == current;
    var remaining := Strip(current);
    if remaining != [] {
      stmts := stmts + [remaining];
    }
  }

  /** Having read `current`, the scan still looks for the end of the statement it starts. */
  ghost predicate Scanning(current: string, unread: string, q: bool) {
    FirstEnd(current + unread, false) == Shift(FirstEnd(unread, q), |current|)
  }

  /** One turn of the scan: a `$$`, the end of a statement, or any other character. */
  lemma AdvanceQuote(current: string, unread: string, q: bool)
    requires AtQuote(unread) && Scanning(current, unread, q)
    ensures current + unread == (current + "$$") + unread[2..]
    ensures Scanning(current + "$$", unread[2..], !q)
  {
    MoveOver(current, "$$", unread[2..], unread);
  }

  lemma AdvanceEnd(current: string, unread: string)
    requires unread != [] && unread[0] == ';' && Scanning(current, unread, false)
    ensures Split(current + unread) == [Strip(current + [';'])] + Split(unread[1..])
    ensures Strip(current + [';']) != []
  {
    MoveOver(current, [';'], unread[1..], unread);
    HeadStatement(current + unread, current + [';'], unread[1..]);
  }

  lemma AdvanceChar(current: string, unread: string, q: bool)
    requires unread != [] && !AtQuote(unread) && !(unread[0] == ';' && !q) && Scanning(current, unread, q)
    ensures current + unread == (current + [unread[0]]) + unread[1..]
    ensures Scanning(current + [unread[0]], unread[1..], q)
  {
    MoveOver(current, [unread[0]], unread[1..], unread);
  }

  lemma MoveOver(current: string, token: string, rest: string, unread: string)
    requires |token| <= |unread| && unread[..|token|] == token && unread[|token|..] == rest
    ensures current + unread == (current + token) + rest
  {
  }

  lemma AppendAssociates(xs: seq<string>, x: string, ys: seq<string>)
    ensures xs + ([x] + ys) == (xs + [x]) + ys
  {
  }

  lemma StartOver(unread: string)
    ensures [] + unread == unread
    ensures Scanning([], unread, false)
  {
    assert [] + unread == unread;
  }

  // ---------------------------------------------------------------- an independent reading of the text

  /** The number of `;` outside `$$` bodies. */
  function Unquoted(s: string, q: bool): nat {
    if s == [] then 0
    else if AtQuote(s) then Unquoted(s[2..], !q)
    else (if s[0] == ';' && !q then 1 else 0) + Unquoted(s[1..], q)
  }

  /** Whether a `$$` body is open at the end of `s`. */
  function OpenAtEnd(s: string, q: bool): bool {
    if s == [] then q
    else if AtQuote(s) then OpenAtEnd(s[2..], !q)
    else OpenAtEnd(s[1..], q)
  }

  /** One whole statement: no `$$` body is cut, and its only unquoted `;` is its last character. */
  ghost predicate WholeStatement(s: string) {
    && s != [] && s[|s| - 1] == ';'
    && !OpenAtEnd(s, false)
    && Unquoted(s, false) == 1
    && Unquoted(s[..|s| - 1], false) == 0
  }

  lemma {:induction false} FirstEndIsWhole(s: string, q: bool)
    ensures FirstEnd(s, q).None? <==> Unquoted(s, q) == 0
    ensures FirstEnd(s, q).Some? ==>
              var k := FirstEnd(s, q).value;
              && s[k - 1] == ';'
              && !OpenAtEnd(s[..k], q)
              && Unquoted(s[..k], q) == 1
              && Unquoted(s[..k - 1], q) == 0
  {
    if s == [] {
    } else if AtQuote(s) {
      FirstEndIsWhole(s[2..], !q);
      if FirstEnd(s, q).Some? {
        var k := FirstEnd(s, q).value;
        assert s[..k][2..] == s[2..][..k - 2] && s[..k - 1][2..] == s[2..][..k - 3];
        assert AtQuote(s[..k]) && AtQuote(s[..k - 1]);
      }
    } else if s[0] == ';' && !q {
      assert s[..1][1..] == [];
    } else {
      FirstEndIsWhole(s[1..], q);
      if FirstEnd(s, q).Some? {
        var k := FirstEnd(s, q).value;
        assert s[..k][1..] == s[1..][..k - 1] && s[..k - 1][1..] == s[1..][..k - 2];
        assert !AtQuote(s[..k]) && !AtQuote(s[..k - 1]);
      }
    }
  }

  /** What follows the first unquoted `;` has no say in where it is. */
  lemma {:induction false} FirstEndOfPrefix(a: string, b: string, q: bool)
    requires FirstEnd(a, q).Some?
    ensures FirstEnd(a + b, q) == FirstEnd(a, q)
  {
    if AtQuote(a) {
      assert (a + b)[2..] == a[2..] + b;
      FirstEndOfPrefix(a[2..], b, !q);
    } else if a[0] == ';' && !q {
      assert (a + b)[0] == a[0];
    } else {
      assert (a + b)[1..] == a[1..] + b;
      assert (a + b)[..2] == a[..2];
      FirstEndOfPrefix(a[1..], b, q);
    }
  }

  lemma {:induction false} FirstEndOfCut(s: string, q: bool)
    requires FirstEnd(s, q).Some?
    ensures FirstEnd(s[..FirstEnd(s, q).value], q) == FirstEnd(s, q)
  {
    var k := FirstEnd(s, q).value;
    var a := s[..k];
    if AtQuote(s) {
      FirstEndOfCut(s[2..], !q);
      assert a[2..] == s[2..][..k - 2] && a[..2] == s[..2];
    } else if s[0] == ';' && !q {
    } else {
      FirstEndOfCut(s[1..], q);
      assert a[1..] == s[1..][..k - 1] && a[..2] == s[..2];
    }
  }

  lemma {:induction false} FirstEndAfterSpace(w: string, s: string)
    requires Blank(w)
    ensures FirstEnd(w + s, false) == Shift(FirstEnd(s, false), |w|)
  {
    if w == [] {
      assert w + s == s;
    } else {
      assert (w + s)[1..] == w[1..] + s;
      SpaceFacts();
      assert (w + s)[0] == w[0] && IsSpace(w[0]);
      assert w[0] != '$' && w[0] != ';';
      FirstEndAfterSpace(w[1..], s);
    }
  }

  /** Trimming keeps a closed statement closed. */
  lemma ClosedSurvivesStrip(s: string)
    requires FirstEnd(s, false) == Some(|s|)
    ensures Strip(s) != [] && FirstEnd(Strip(s), false) == Some(|Strip(s)|)
  {
    FirstEndIsWhole(s, false);
    SpaceFacts();
    var left := StripKeepsEnd(s);
    FirstEndAfterSpace(left, Strip(s));
  }

  /** Trimming keeps an unfinished statement unfinished. */
  lemma OpenSurvivesStrip(s: string)
    requires FirstEnd(s, false).None?
    ensures FirstEnd(Strip(s), false).None?
  {
    var left, right := StripSplits(s);
    assert s == left + (Strip(s) + right);
    FirstEndAfterSpace(left, Strip(s) + right);
    if FirstEnd(Strip(s), false).Some? {
      FirstEndOfPrefix(Strip(s), right, false);
    }
  }

  /** What cutting off the first statement yields. */
  lemma HeadStatement(s: string, a: string, b: string)
    requires s == a + b && FirstEnd(s, false) == Some(|a|)
    ensures FirstEnd(a, false) == Some(|a|)
    ensures Split(s) == [Strip(a)] + Split(b)
    ensures Strip(a) != [] && Trimmed(Strip(a)) && Strip(Strip(a)) == Strip(a)
    ensures FirstEnd(Strip(a), false) == Some(|Strip(a)|)
  {
    assert s[..|a|] == a && s[|a|..] == b;
    FirstEndOfCut(s, false);
    ClosedSurvivesStrip(a);
    StripTwice(a);
  }

  // ---------------------------------------------------------------- what splitting guarantees

  /** Trimmed statements, all whole but possibly the last, which then holds no unquoted `;`. */
  ghost predicate WellCut(stmts: seq<string>) {
    stmts == [] ||
    (&& stmts[0] != [] && Trimmed(stmts[0])
     && (WholeStatement(stmts[0]) || (|stmts| == 1 && Unquoted(stmts[0], false) == 0))
     && WellCut(stmts[1..]))
  }

  lemma {:induction false} SplitIsWellCut(s: string)
    ensures WellCut(Split(s))
  {
    match FirstEnd(s, false)
    case Some(k) =>
      HeadStatement(s, s[..k], s[k..]);
      SplitIsWellCut(s[k..]);
      var t := Strip(s[..k]);
      FirstEndIsWhole(t, false);
      assert t[..|t|] == t;
      assert Split(s)[1..] == Split(s[k..]);
    case None =>
      OpenSurvivesStrip(s);
      StripTwice(s);
      FirstEndIsWhole(Strip(s), false);
  }

  /** The raw cuts of a script, before trimming. */
  function Cuts(s: string): seq<string> {
    match FirstEnd(s, false)
    case Some(k) => [s[..k]] + Cuts(s[k..])
    case None => [s]
  }

  predicate NonEmpty(s: string) { s != [] }

  /** Nothing but white space at the ends of the cuts is lost: the cuts make up the script, and
      the statements are the cuts trimmed, less a blank tail. */
  lemma {:induction false} OnlyWhiteSpaceIsLost(s: string)
    ensures Flatten(Cuts(s)) == s
    ensures Split(s) == Filter(Map(Strip, Cuts(s)), NonEmpty)
  {
    match FirstEnd(s, false)
    case Some(k) =>
      var a, b := s[..k], s[k..];
      OnlyWhiteSpaceIsLost(b);
      assert s == a + b;
      HeadStatement(s, a, b);
      assert Cuts(s)[1..] == Cuts(b);
      var all := Map(Strip, Cuts(s));
      assert all[0] == Strip(a) && all[1..] == Map(Strip, Cuts(b));
    case None =>
      assert Map(Strip, [s]) == [Strip(s)];
      assert Flatten([s]) == s + Flatten([]) == s;
  }

  /** Splitting the statements put end to end gives the same statements again. */
  lemma {:induction false} SplitAgain(s: string)
    ensures Split(Flatten(Split(s))) == Split(s)
  {
    match FirstEnd(s, false)
    case Some(k) =>
      var a, b := s[..k], s[k..];
      SplitAgain(b);
      HeadStatement(s, a, b);
      var t, rest := Strip(a), Flatten(Split(b));
      assert Split(s)[1..] == Split(b);
      assert Flatten(Split(s)) == t + rest;
      FirstEndOfPrefix(t, rest, false);
      HeadStatement(t + rest, t, rest);
    case None =>
      if Strip(s) != [] {
        OpenSurvivesStrip(s);
        StripTwice(s);
        var t := Strip(s);
        assert Flatten([t]) == t + Flatten([]) == t;
      }
  }
}
