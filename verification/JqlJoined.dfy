/** Joining two queries with AND: the clauses of the joined text are those of the one text followed by those
    of the other, in whatever spelling the two were accepted. */
module JqlJoined {
  import opened Basics
  import opened Text
  import opened JqlSyntax
  import opened JqlWords
  import opened JqlClean
  import opened JqlParens
  import opened JqlRoundTrip

  /** Any spelling of the word AND with whitespace on both sides. */
  predicate IsAnd(x: string, before: nat, after: nat) {
    && 0 < before && 0 < after && |x| == before + 3 + after
    && IsOnlySpace(x[..before]) && Fold(x[before..before + 3]) == "AND" && IsOnlySpace(x[before + 3..])
  }

  /** The text ends in whitespace and the word AND, so that more text after a space would make it split. */
  predicate EndsInAnd(s: string) {
    |s| >= 4 && IsSpace(s[|s| - 4]) && Fold(s[|s| - 3..]) == "AND"
  }

  /** Text in front that is not whitespace hides what comes later from a run of whitespace. */
  lemma {:induction false} RunInFront(s: string, x: string)
    requires s != "" && !IsSpace(s[|s| - 1])
    ensures SpaceRun(s + x) == SpaceRun(s) < |s|
  {
    if IsSpace(s[0]) {
      assert (s + x)[1..] == s[1..] + x;
      RunInFront(s[1..], x);
    }
  }

  lemma AndThenText(x: string, before: nat, after: nat, s: string)
    requires IsAnd(x, before, after) && s != "" && !IsSpace(s[0])
    ensures AndHere(x + s) == Some(s)
  {
    var w, kw, v := x[..before], x[before..before + 3], x[before + 3..];
    assert x + s == w + (kw + (v + s));
    AndWordHere(w, kw, v + s);
    RunThenRest(v, s);
  }

  lemma AndWordHere(w: string, kw: string, rest: string)
    requires w != "" && IsOnlySpace(w) && |kw| == 3 && Fold(kw) == "AND"
    ensures SpacesThen(w + (kw + rest), "AND") == Some(rest)
  {
    var s := kw + rest;
    assert Fold(kw)[0] == FoldChar(kw[0]) && s[0] == kw[0] && s[..3] == kw;
    RunThenRest(w, s);
    assert (w + s)[|w| + 3..] == rest;
  }

  // ---- where the joined text splits

  lemma SuffixEnds(s: string, k: nat)
    requires s != "" && !IsSpace(s[|s| - 1]) && k < |s|
    ensures s[k..] != "" && !IsSpace(s[k..][|s[k..]| - 1])
    ensures EndsInAnd(s[k..]) ==> EndsInAnd(s)
  {
    if EndsInAnd(s[k..]) { assert s[k..][|s[k..]| - 3..] == s[|s| - 3..]; }
  }

  lemma KeywordExtends(s: string, y: string, keyword: string)
    requires y != "" && IsSpace(y[0]) && (forall c :: c in keyword ==> 'A' <= c <= 'Z')
    ensures StartsWithFold(s + y, keyword) <==> StartsWithFold(s, keyword)
  {
    var k := |keyword|;
    if k <= |s| {
      assert (s + y)[..k] == s[..k];
    } else if k <= |s + y| {
      assert Fold((s + y)[..k])[|s|] == FoldChar(y[0]);
      assert keyword[|s|] in keyword;
    }
  }

  lemma SpacesThenExtends(s: string, y: string, keyword: string)
    requires s != "" && !IsSpace(s[|s| - 1]) && y != "" && IsSpace(y[0])
    requires forall c :: c in keyword ==> 'A' <= c <= 'Z'
    ensures match SpacesThen(s, keyword)
            case None => SpacesThen(s + y, keyword) == None
            case Some(rest) => SpacesThen(s + y, keyword) == Some(rest + y)
  {
    RunInFront(s, y);
    var n := SpaceRun(s);
    assert (s + y)[n..] == s[n..] + y;
    KeywordExtends(s[n..], y, keyword);
    if SpacesThen(s, keyword).Some? { assert (s + y)[n + |keyword|..] == s[n + |keyword|..] + y; }
  }

  lemma AfterKeyword(s: string, rest: string)
    requires s != "" && !IsSpace(s[|s| - 1]) && !EndsInAnd(s) && SpacesThen(s, "AND") == Some(rest)
    ensures rest != "" && !IsSpace(rest[|rest| - 1]) && |rest| < |s| && s[|s| - |rest|..] == rest
  {
    var n := SpaceRun(s);
    SpaceRunIsMaximal(s);
    assert rest == s[n + 3..];
  }

  /** Text that follows, from a space on, does not change where the text in front splits first. */
  lemma HereExtends(s: string, y: string)
    requires s != "" && !IsSpace(s[|s| - 1]) && y != "" && IsSpace(y[0]) && SpacesThen(s, "AND") != Some("")
    ensures AndHere(s).None? ==> AndHere(s + y) == None
    ensures AndHere(s).Some? ==> AndHere(s + y) == Some(AndHere(s).value + y)
  {
    SpacesThenExtends(s, y, "AND");
    if SpacesThen(s, "AND").Some? {
      var rest := SpacesThen(s, "AND").value;
      assert rest == s[|s| - |rest|..];
      RunInFront(rest, y);
      assert (rest + y)[SpaceRun(rest)..] == rest[SpaceRun(rest)..] + y;
    }
  }

  lemma AndHereRest(s: string)
    requires s != "" && !IsSpace(s[|s| - 1]) && !EndsInAnd(s) && AndHere(s).Some?
    ensures var rest := AndHere(s).value; rest != "" && !IsSpace(rest[|rest| - 1]) && !EndsInAnd(rest)
  {
    var more := SpacesThen(s, "AND").value;
    AfterKeyword(s, more);
    RunInFront(more, "");
    assert more + "" == more;
    var k := |s| - |more| + SpaceRun(more);
    assert s[k..] == more[SpaceRun(more)..];
    SuffixEnds(s, k);
  }

  lemma AppendsHere(s: string, y: string, rest: string, tail: seq<string>)
    requires AndHere(s) == Some(rest) && AndHere(s + y) == Some(rest + y)
    requires SplitAnd(rest + y) == SplitAnd(rest) + tail
    ensures SplitAnd(s + y) == SplitAnd(s) + tail
  {
    SplitsAt(s, rest);
    SplitsAt(s + y, rest + y);
    GluedFirst("", SplitAnd(rest), tail);
  }

  lemma SplitsAt(s: string, rest: string)
    requires AndHere(s) == Some(rest)
    ensures SplitAnd(s) == [""] + SplitAnd(rest)
  {
  }

  lemma GluedFirst<T>(x: T, a: seq<T>, b: seq<T>)
    ensures [x] + (a + b) == ([x] + a) + b
  {
  }

  lemma AppendsLater(s: string, y: string, tail: seq<string>)
    requires s != "" && AndHere(s) == None && AndHere(s + y) == None
    requires SplitAnd(s[1..] + y) == SplitAnd(s[1..]) + tail
    ensures SplitAnd(s + y) == SplitAnd(s) + tail
  {
    assert (s + y)[1..] == s[1..] + y;
    GluedLater(s[0], SplitAnd(s[1..]), tail);
  }

  lemma GluedLater(c: char, a: seq<string>, b: seq<string>)
    requires a != []
    ensures [[c] + (a + b)[0]] + (a + b)[1..] == ([[c] + a[0]] + a[1..]) + b
  {
    assert (a + b)[1..] == a[1..] + b;
  }

  lemma AppendsAtEnd(y: string, t: string)
    requires AndHere(y) == Some(t)
    ensures SplitAnd("" + y) == SplitAnd("") + SplitAnd(t)
  {
    assert "" + y == y;
  }

  /** The pieces of a text followed by AND and another text are the pieces of both. */
  lemma {:induction false} SplitAndAppends(s: string, x: string, before: nat, after: nat, t: string)
    requires s == "" || (!IsSpace(s[|s| - 1]) && !EndsInAnd(s))
    requires IsAnd(x, before, after) && t != "" && !IsSpace(t[0])
    ensures SplitAnd(s + (x + t)) == SplitAnd(s) + SplitAnd(t)
    decreases |s|
  {
    var y := x + t;
    AndThenText(x, before, after, t);
    AndParts(x, before, after, t);
    if s == "" {
      AppendsAtEnd(y, t);
    } else {
      if SpacesThen(s, "AND").Some? { AfterKeyword(s, SpacesThen(s, "AND").value); }
      HereExtends(s, y);
      if AndHere(s).Some? {
        AndHereRest(s);
        SplitAndAppends(AndHere(s).value, x, before, after, t);
        AppendsHere(s, y, AndHere(s).value, SplitAnd(t));
      } else {
        if |s| > 1 { SuffixEnds(s, 1); }
        SplitAndAppends(s[1..], x, before, after, t);
        AppendsLater(s, y, SplitAnd(t));
      }
    }
  }

  lemma {:induction false} TrimmedAppends(a: seq<string>, b: seq<string>)
    ensures Trimmed(a + b) == Trimmed(a) + Trimmed(b)
  {
    if a == [] {
      assert a + b == b;
    } else {
      assert (a + b)[1..] == a[1..] + b;
      TrimmedAppends(a[1..], b);
    }
  }

  lemma FirstClause(host: Host, a: seq<string>, cs: seq<Clause>)
    requires a != [] && ParseClauses(host, a) == Ok(cs)
    ensures cs != [] && ParseClause(host, a[0]) == Ok(cs[0]) && ParseClauses(host, a[1..]) == Ok(cs[1..])
  {
  }

  lemma HeadThenRest<T>(a: seq<T>, b: seq<T>)
    requires a != []
    ensures [a[0]] + (a[1..] + b) == a + b
  {
  }

  lemma {:induction false} ClausesAppend(
      host: Host, a: seq<string>, b: seq<string>, cs: seq<Clause>, ds: seq<Clause>)
    requires ParseClauses(host, a) == Ok(cs) && ParseClauses(host, b) == Ok(ds)
    ensures ParseClauses(host, a + b) == Ok(cs + ds)
  {
    if a == [] {
      assert a + b == b && cs + ds == ds;
    } else {
      FirstClause(host, a, cs);
      ClausesAppend(host, a[1..], b, cs[1..], ds);
      PartsCons(host, a[0], a[1..] + b, cs[0], cs[1..] + ds);
      HeadThenRest(a, b);
      HeadThenRest(cs, ds);
    }
  }

  // ---- parentheses of the joined text

  lemma {:induction false} ClosePosition(s: string) returns (k: nat)
    requires AfterClose(s).Some?
    ensures 0 < k <= |s| && s[k - 1] == ')' && AfterClose(s) == Some(s[k..])
  {
    if s[0] == ')' {
      k := 1;
    } else {
      k := ClosePosition(s[1..]);
      assert s[1..][k..] == s[k + 1..];
      k := k + 1;
    }
  }

  lemma {:induction false} CloseExtends(s: string, y: string)
    ensures AfterClose(s).Some? ==> AfterClose(s + y) == Some(AfterClose(s).value + y)
    ensures AfterClose(s).None? <==> ')' !in s
  {
    if s != "" {
      assert (s + y)[1..] == s[1..] + y;
      CloseExtends(s[1..], y);
      assert s == [s[0]] + s[1..];
    }
  }

  lemma ListPosition(s: string) returns (k: nat)
    requires InListHere(s).Some?
    ensures 2 < k <= |s| && s[k - 1] == ')' && InListHere(s) == Some(s[k..])
  {
    var rest := s[2..];
    var open := rest[SpaceRun(rest)..];
    var m := ClosePosition(open[1..]);
    k := 2 + SpaceRun(rest) + 1 + m;
    assert s[k..] == open[1..][m..];
    assert s[k - 1] == open[1..][m - 1];
  }

  /** A parenthesis that is never closed is stray. */
  lemma {:induction false} OpenNeedsClose(host: Host, s: string, afterWord: bool, i: nat)
    requires i < |s| && s[i] == '(' && ')' !in s[i..]
    ensures StrayParen(host, s, afterWord)
    decreases |s|
  {
    if !afterWord && InListHere(s).Some? {
      var k := ListPosition(s);
      forall m | i <= m < |s| ensures s[m] != ')' { assert s[i..][m - i] == s[m]; }
      assert s[k..][i - k..] == s[i..];
      OpenNeedsClose(host, s[k..], false, i - k);
    } else if i > 0 {
      assert s[1..][i - 1..] == s[i..];
      OpenNeedsClose(host, s[1..], IsWord(host, s[0]), i - 1);
    }
  }

  lemma ListExtends(s: string, y: string)
    requires s != "" && y != "" && IsSpace(y[0]) && !OpensList(y)
    ensures InListHere(s).Some? ==> InListHere(s + y) == Some(InListHere(s).value + y)
    ensures InListHere(s).None? && InListHere(s + y).Some? ==>
              exists i: nat :: i < |s| && s[i] == '(' && ')' !in s[i..]
  {
    KeywordExtends(s, y, "IN");
    if StartsWithFold(s, "IN") {
      var rest := s[2..];
      var n := SpaceRun(rest);
      assert (s + y)[2..] == rest + y;
      if n < |rest| {
        SpaceRunIsMaximal(rest);
        RunEnds(rest, y);
        assert (rest + y)[n..] == rest[n..] + y;
        if rest[n] == '(' {
          var inner := rest[n..][1..];
          assert (rest[n..] + y)[1..] == inner + y;
          CloseExtends(inner, y);
          if AfterClose(inner).None? {
            assert s[n + 2] == '(' && s[n + 2..] == ['('] + inner;
          }
        }
      } else {
        SpaceRunIsMaximal(rest);
        AllRun(rest, y);
      }
    }
  }

  lemma {:induction false} RunEnds(s: string, y: string)
    requires SpaceRun(s) < |s|
    ensures SpaceRun(s + y) == SpaceRun(s)
  {
    assert (s + y)[0] == s[0];
    if IsSpace(s[0]) {
      assert (s + y)[1..] == s[1..] + y;
      RunEnds(s[1..], y);
    }
  }

  lemma {:induction false} AllRun(s: string, y: string)
    requires SpaceRun(s) == |s|
    ensures SpaceRun(s + y) == |s| + SpaceRun(y)
    ensures SpaceRun(y) < |y| ==> (s + y)[|s| + SpaceRun(y)] == y[SpaceRun(y)]
  {
    if s == "" {
      assert s + y == y;
    } else {
      assert (s + y)[1..] == s[1..] + y;
      AllRun(s[1..], y);
    }
  }

  /** Nothing stray in front leaves what follows to itself. */
  lemma {:induction false} StrayExtends(host: Host, s: string, afterWord: bool, y: string)
    requires !StrayParen(host, s, afterWord) && y != "" && IsSpace(y[0]) && !OpensList(y)
    ensures StrayParen(host, s + y, afterWord) == StrayParen(host, y, false)
    decreases |s|
  {
    if s == "" {
      assert s + y == y;
      NoListAtSpace(y);
    } else {
      ListExtends(s, y);
      if !afterWord && InListHere(s).Some? {
        StrayExtends(host, InListHere(s).value, false, y);
      } else {
        if !afterWord && InListHere(s + y).Some? {
          var i: nat :| i < |s| && s[i] == '(' && ')' !in s[i..];
          OpenNeedsClose(host, s, afterWord, i);
        }
        assert (s + y)[1..] == s[1..] + y && (s + y)[0] == s[0];
        StrayExtends(host, s[1..], IsWord(host, s[0]), y);
      }
    }
  }

  lemma NoListAtSpace(y: string)
    requires y != "" && IsSpace(y[0])
    ensures InListHere(y) == None
  {
    if |y| >= 2 { assert Fold(y[..2])[0] == FoldChar(y[0]); }
  }

  lemma {:induction false} StrayAfterSpaces(host: Host, w: string, y: string, afterWord: bool)
    requires HostAgrees(host) && w != "" && IsOnlySpace(w)
    ensures StrayParen(host, w + y, afterWord) == StrayParen(host, y, false)
  {
    assert w[0] in w && (w + y)[1..] == w[1..] + y;
    NoListAtSpace(w + y);
    SeparatorChars(host, w[0]);
    if |w| == 1 {
      assert w[1..] + y == y;
    } else {
      assert forall c :: c in w[1..] ==> c in w;
      StrayAfterSpaces(host, w[1..], y, false);
    }
  }

  lemma StrayAfterAnd(host: Host, x: string, before: nat, after: nat, t: string)
    requires HostAgrees(host) && IsAnd(x, before, after) && t != "" && !IsSpace(t[0])
    ensures StrayParen(host, x + t, false) == StrayParen(host, t, false)
    ensures IsSpace(x[0]) && !OpensList(x + t)
  {
    var w, kw, v := x[..before], x[before..before + 3], x[before + 3..];
    AndParts(x, before, after, t);
    StrayAfterSpaces(host, w, kw + (v + t), false);
    RunThenRest(w, kw + (v + t));
    StrayAfterKeyword(host, kw, v + t);
    StrayAfterSpaces(host, v, t, true);
  }

  lemma AndParts(x: string, before: nat, after: nat, t: string)
    requires IsAnd(x, before, after)
    ensures var w, kw, v := x[..before], x[before..before + 3], x[before + 3..];
            && x + t == w + (kw + (v + t)) && IsSpace(x[0]) && !IsSpace(kw[0]) && kw[0] != '('
  {
    var w, kw := x[..before], x[before..before + 3];
    assert w[0] in w && Fold(kw)[0] == FoldChar(kw[0]);
  }

  lemma StrayAfterKeyword(host: Host, kw: string, y: string)
    requires |kw| == 3 && Fold(kw) == "AND"
    ensures StrayParen(host, kw + y, false) == StrayParen(host, y, true)
  {
    assert Fold(kw)[0] == FoldChar(kw[0]) && Fold(kw)[1] == FoldChar(kw[1]) && Fold(kw)[2] == FoldChar(kw[2]);
    var d, nd := [kw[2]], [kw[1], kw[2]];
    assert kw + y == [kw[0]] + (nd + y) && nd + y == [kw[1]] + (d + y) && d + y == [kw[2]] + y;
    StrayAfterLetter(host, kw[0], nd + y, false);
    StrayAfterLetter(host, kw[1], d + y, true);
    StrayAfterLetter(host, kw[2], y, true);
  }

  lemma StrayAfterLetter(host: Host, c: char, y: string, afterWord: bool)
    requires IsLetter(FoldChar(c)) && FoldChar(c) != 'I'
    ensures StrayParen(host, [c] + y, afterWord) == StrayParen(host, y, true)
  {
    var s := [c] + y;
    assert s[1..] == y;
    if |s| >= 2 { assert Fold(s[..2])[0] == FoldChar(c); }
  }

  // ---- acceptable text

  lemma {:induction false} CleanAround(host: Host, a: string, w: string, b: string)
    requires HostAgrees(host) && Clean(host, a) && Clean(host, b) && w != "" && IsOnlySpace(w)
    ensures Clean(host, a + w + b)
    decreases |w|
  {
    assert w[0] in w;
    SeparatorChars(host, w[0]);
    if |w| == 1 {
      assert w == [w[0]];
      CleanJoin(host, a, w[0], b);
    } else {
      assert forall c :: c in w[1..] ==> c in w;
      CleanAround(host, "", w[1..], b);
      assert "" + w[1..] + b == w[1..] + b;
      CleanJoin(host, a, w[0], w[1..] + b);
      assert a + [w[0]] + (w[1..] + b) == a + w + b;
    }
  }

  lemma CleanAnd(host: Host, a: string, x: string, before: nat, after: nat, b: string)
    requires HostAgrees(host) && Clean(host, a) && Clean(host, b) && IsAnd(x, before, after)
    ensures Clean(host, a + (x + b))
  {
    var w, kw, v := x[..before], x[before..before + 3], x[before + 3..];
    assert forall i :: 0 <= i < 3 ==> Fold(kw)[i] == FoldChar(kw[i]) && Fold("AND")[i] == "AND"[i];
    CleanWord(host, kw);
    CleanAround(host, kw, v, b);
    CleanAround(host, a, w, kw + v + b);
    assert a + w + (kw + v + b) == a + (x + b);
  }

  // ---- the joined text

  lemma UnorderedParts(host: Host, a: string)
    requires Parse(host, a).Ok? && Strip(a) != "" && FindOrder(Strip(a)).None?
    ensures var q := Parse(host, a).value;
            && Clean(host, Strip(a)) && !StrayParen(host, Strip(a), false) && |q.clauses| <= MAX_CLAUSES
            && ParseClauses(host, Trimmed(SplitAnd(Strip(a)))) == Ok(q.clauses) && q.orderBy == DEFAULT_SORT
  {
  }

  lemma JoinedReads(host: Host, a: string, x: string, before: nat, after: nat, b: string)
    requires HostAgrees(host) && IsAnd(x, before, after) && Edged(a) && Edged(b) && FindOrder(a + (x + b)).None?
    requires Clean(host, a) && Clean(host, b) && !StrayParen(host, a, false) && !StrayParen(host, b, false)
    requires |a + (x + b)| <= MAX_LENGTH
    ensures var t := a + (x + b); Parse(host, t) == ParseParts(host, t, Trimmed(SplitAnd(t)), DEFAULT_SORT)
  {
    var t := a + (x + b);
    StripTrimmed(t);
    CleanAnd(host, a, x, before, after, b);
    StrayAfterAnd(host, x, before, after, b);
    StrayExtends(host, a, false, x + b);
    UnorderedReads(host, t);
  }

  lemma UnorderedReads(host: Host, t: string)
    requires t != "" && Strip(t) == t && |t| <= MAX_LENGTH && Clean(host, t) && FindOrder(t).None?
    requires !StrayParen(host, t, false)
    ensures Parse(host, t) == ParseParts(host, t, Trimmed(SplitAnd(t)), DEFAULT_SORT)
  {
  }

  lemma JoinedParts(host: Host, a: string, x: string, before: nat, after: nat, b: string, cs: seq<Clause>,
      ds: seq<Clause>)
    requires IsAnd(x, before, after) && Edged(a) && Edged(b) && !EndsInAnd(a)
    requires ParseClauses(host, Trimmed(SplitAnd(a))) == Ok(cs) && ParseClauses(host, Trimmed(SplitAnd(b))) == Ok(ds)
    ensures ParseClauses(host, Trimmed(SplitAnd(a + (x + b)))) == Ok(cs + ds)
  {
    SplitAndAppends(a, x, before, after, b);
    TrimmedAppends(SplitAnd(a), SplitAnd(b));
    ClausesAppend(host, Trimmed(SplitAnd(a)), Trimmed(SplitAnd(b)), cs, ds);
  }

  // ---- a text that ends in AND

  /** A piece that the word AND begins. */
  predicate BeginsWithAnd(p: string) { |p| >= 3 && Fold(p[..3]) == "AND" && (|p| > 3 ==> IsSpace(p[3])) }

  lemma ShortFieldIsUnknown(field: string)
    requires |field| == 3
    ensures SpecOf(field) == None
  {
  }

  lemma {:induction false} ThreeLetters(s: string, rest: string)
    requires (forall c :: c in s ==> IsNameChar(c)) && (rest == "" || !IsNameChar(rest[0]))
    ensures NameRun(s + rest) == |s|
  {
    if s == "" {
      assert s + rest == rest;
    } else {
      assert s[0] in s && (s + rest)[1..] == s[1..] + rest;
      ThreeLetters(s[1..], rest);
    }
  }

  lemma AndIsNoField(host: Host, p: string)
    requires BeginsWithAnd(p)
    ensures ParseClause(host, p).Err?
  {
    var kw, rest := p[..3], p[3..];
    assert p == kw + rest && Fold(p) == Fold(kw) + Fold(rest);
    assert forall i :: 0 <= i < 3 ==> Fold(kw)[i] == FoldChar(kw[i]);
    if rest != "" { assert rest[0] == p[3]; SpaceIsNoName(rest[0]); }
    ThreeLetters(kw, rest);
    ThreeLetters(Fold(kw), Fold(rest));
    ShortFieldIsUnknown(kw);
  }

  lemma SpaceIsNoName(c: char)
    requires IsSpace(c)
    ensures !IsNameChar(c) && !IsNameChar(FoldChar(c))
  {
  }

  lemma KeywordCut(kw: string, y: string)
    requires |kw| == 3 && Fold(kw) == "AND" && y != "" && IsSpace(y[0])
    ensures BeginsWithAnd(SplitAnd(kw + y)[0])
  {
    assert forall i :: 0 <= i < 3 ==> Fold(kw)[i] == FoldChar(kw[i]);
    assert NoSpaces(kw);
    SplitAndSkips(kw, y);
    var p := SplitAnd(y)[0];
    FirstPieceStarts(y);
    assert (kw + p)[..3] == kw;
    if p != "" { assert (kw + p)[3] == p[0]; }
  }

  lemma FirstPieceStarts(y: string)
    requires y != ""
    ensures SplitAnd(y)[0] != "" ==> SplitAnd(y)[0][0] == y[0]
  {
  }

  ghost predicate HasCut(pieces: seq<string>) { exists k :: 1 <= k < |pieces| && BeginsWithAnd(pieces[k]) }

  lemma CutBehind(piece: string, pieces: seq<string>)
    requires HasCut(pieces) || (pieces != [] && BeginsWithAnd(pieces[0]))
    ensures HasCut([piece] + pieces)
  {
    if HasCut(pieces) {
      var k :| 1 <= k < |pieces| && BeginsWithAnd(pieces[k]);
      assert ([piece] + pieces)[k + 1] == pieces[k];
    } else {
      assert ([piece] + pieces)[1] == pieces[0];
    }
  }

  lemma CutStays(head: string, pieces: seq<string>)
    requires HasCut(pieces)
    ensures HasCut([head] + pieces[1..])
  {
    var k :| 1 <= k < |pieces| && BeginsWithAnd(pieces[k]);
    assert ([head] + pieces[1..])[k] == pieces[k];
  }

  /** At a final AND: more text behind it takes it for the word between two clauses. */
  lemma AtFinalAnd(s: string, x: string, before: nat, after: nat, t: string)
    requires IsAnd(x, before, after) && t != "" && !IsSpace(t[0]) && SpacesThen(s, "AND") == Some("")
    ensures HasCut(SplitAnd(s + (x + t)))
  {
    var y, w, kw, v := x + t, x[..before], x[before..before + 3], x[before + 3..];
    var n := SpaceRun(s);
    AndParts(x, before, after, t);
    RunThenRest(w, kw + (v + t));
    SpaceRunIsMaximal(s);
    assert |s| == n + 3 && s[n..][..3] == s[n..];
    assert Fold(s[n..])[0] == FoldChar(s[n]);
    RunEnds(s, y);
    assert (s + y)[n..][..3] == s[n..] && (s + y)[n + 3..] == y;
    assert AndHere(s + y) == Some(kw + (v + t));
    SplitsAt(s + y, kw + (v + t));
    assert v[0] in v && (v + t)[0] == v[0];
    KeywordCut(kw, v + t);
    CutBehind("", SplitAnd(kw + (v + t)));
  }

  lemma EndsBehind(s: string, k: nat)
    requires EndsInAnd(s) && k + 4 <= |s|
    ensures EndsInAnd(s[k..])
  {
    assert s[k..][|s[k..]| - 3..] == s[|s| - 3..];
  }

  lemma ShortEnd(s: string)
    requires EndsInAnd(s) && |s| == 4
    ensures SpacesThen(s, "AND") == Some("")
  {
    var kw := s[1..];
    assert s[|s| - 3..] == kw && kw[..3] == kw && s[4..] == "" && "AND"[0] == 'A';
    assert Fold(kw)[0] == FoldChar(kw[0]);
    assert SpaceRun(kw) == 0;
  }

  lemma RestOfSplit(s: string) returns (k: nat)
    requires s != "" && !IsSpace(s[|s| - 1]) && AndHere(s).Some? && SpacesThen(s, "AND") != Some("")
    ensures 0 < k < |s| && AndHere(s) == Some(s[k..]) && IsSpace(s[k - 1])
  {
    k := AndHereSuffix(s);
    var more := SpacesThen(s, "AND").value;
    assert more == s[|s| - |more|..] && more[|more| - 1] == s[|s| - 1];
    RunInFront(more, "");
    assert more + "" == more;
  }

  lemma LastThree(s: string, k: nat)
    requires EndsInAnd(s) && 0 < k < |s| && IsSpace(s[k - 1]) && |s| - k < 4
    ensures |s[k..]| == 3 && Fold(s[k..]) == "AND"
  {
    var m := |s| - 3;
    assert Fold(s[m..])[0] == FoldChar(s[m]) && Fold(s[m..])[1] == FoldChar(s[m + 1]);
  }

  lemma {:induction false} FinalAndCuts(s: string, x: string, before: nat, after: nat, t: string)
    requires s != "" && !IsSpace(s[|s| - 1]) && EndsInAnd(s)
    requires IsAnd(x, before, after) && t != "" && !IsSpace(t[0])
    ensures HasCut(SplitAnd(s + (x + t)))
    decreases |s|
  {
    var y := x + t;
    AndParts(x, before, after, t);
    if SpacesThen(s, "AND") == Some("") {
      AtFinalAnd(s, x, before, after, t);
    } else {
      HereExtends(s, y);
      if AndHere(s).Some? {
        var k := RestOfSplit(s);
        if |s| - k < 4 {
          CutAtLastThree(s, y, k);
        } else {
          EndsBehind(s, k);
          FinalAndCuts(s[k..], x, before, after, t);
          CutAfterSplit(s, y, s[k..]);
        }
      } else {
        if |s| == 4 { ShortEnd(s); }
        EndsBehind(s, 1);
        FinalAndCuts(s[1..], x, before, after, t);
        CutAfterChar(s, y);
      }
    }
  }

  lemma CutAtLastThree(s: string, y: string, k: nat)
    requires EndsInAnd(s) && 0 < k < |s| && IsSpace(s[k - 1]) && |s| - k < 4 && y != "" && IsSpace(y[0])
    requires AndHere(s + y) == Some(s[k..] + y)
    ensures HasCut(SplitAnd(s + y))
  {
    LastThree(s, k);
    KeywordCut(s[k..], y);
    SplitsAt(s + y, s[k..] + y);
    CutBehind("", SplitAnd(s[k..] + y));
  }

  lemma CutAfterSplit(s: string, y: string, rest: string)
    requires AndHere(s + y) == Some(rest + y) && HasCut(SplitAnd(rest + y))
    ensures HasCut(SplitAnd(s + y))
  {
    SplitsAt(s + y, rest + y);
    CutBehind("", SplitAnd(rest + y));
  }

  lemma CutAfterChar(s: string, y: string)
    requires s != "" && AndHere(s + y) == None && HasCut(SplitAnd(s[1..] + y))
    ensures HasCut(SplitAnd(s + y))
  {
    SplitsLater(s + y);
    assert (s + y)[1..] == s[1..] + y;
    CutStays([s[0]] + SplitAnd(s[1..] + y)[0], SplitAnd(s[1..] + y));
  }

  lemma SplitsLater(s: string)
    requires s != "" && AndHere(s) == None
    ensures SplitAnd(s) == [[s[0]] + SplitAnd(s[1..])[0]] + SplitAnd(s[1..])[1..]
  {
  }

  lemma {:induction false} TrimmedKeepsStripped(pieces: seq<string>, piece: string)
    requires piece in pieces && Strip(piece) != ""
    ensures Strip(piece) in Trimmed(pieces)
  {
    if pieces[0] != piece { TrimmedKeepsStripped(pieces[1..], piece); }
  }

  lemma CutSurvivesStrip(p: string)
    requires BeginsWithAnd(p)
    ensures Strip(p) != "" && BeginsWithAnd(Strip(p))
  {
    assert forall i :: 0 <= i < 3 ==> Fold(p[..3])[i] == FoldChar(p[i]);
    assert SpaceRun(p) == 0 && p[0..] == p;
    var n := StripRightParts(p);
    forall m | n <= m < |p| ensures IsSpace(p[m]) { assert p[n..][m - n] in p[n..]; }
    assert "AND"[2] == 'D' && !IsSpace(p[2]);
    assert p[..n][..3] == p[..3];
  }

  lemma JoinedFails(host: Host, a: string, x: string, before: nat, after: nat, b: string)
    requires IsAnd(x, before, after) && Edged(a) && Edged(b) && EndsInAnd(a)
    ensures ParseClauses(host, Trimmed(SplitAnd(a + (x + b)))).Err?
  {
    FinalAndCuts(a, x, before, after, b);
    var pieces := SplitAnd(a + (x + b));
    var k :| 1 <= k < |pieces| && BeginsWithAnd(pieces[k]);
    CutSurvivesStrip(pieces[k]);
    AndIsNoField(host, Strip(pieces[k]));
    TrimmedKeepsStripped(pieces, pieces[k]);
    OneBadPart(host, Trimmed(pieces), Strip(pieces[k]));
  }

  // ---- the law

  lemma {:induction false} StrippedJoin(a: string, x: string, before: nat, after: nat, b: string)
      returns (y: string, m: nat, n: nat)
    requires IsAnd(x, before, after) && Strip(a) != "" && Strip(b) != ""
    ensures IsAnd(y, m, n) && Strip(a + x + b) == Strip(a) + (y + Strip(b))
    ensures Edged(Strip(a)) && Edged(Strip(b))
  {
    var leadA, trailA := StripParts(a);
    var leadB, trailB := StripParts(b);
    y, m, n := trailA + x + leadB, |trailA| + before, after + |leadB|;
    assert y[..m] == trailA + x[..before] && y[m..m + 3] == x[before..before + 3];
    assert y[m + 3..] == x[before + 3..] + leadB;
    var t := Strip(a) + (y + Strip(b));
    JoinParts(leadA, Strip(a), trailA, x, leadB, Strip(b), trailB);
    StripWrapped(leadA, t, trailB);
  }

  lemma JoinParts(a: string, b: string, c: string, x: string, d: string, e: string, f: string)
    ensures (a + b + c) + x + (d + e + f) == a + (b + ((c + x + d) + e)) + f
  {
  }

  /** If `a` and `b` are read, neither is blank and no ORDER BY stands in them or in the joined text, then with
      any spelling of AND between them the clauses are those of `a` followed by those of `b`, under the default
      order, exactly when `a` does not itself end in the word AND, there are at most eight clauses, and the
      text fits. */
  lemma AndJoinsClauses(host: Host, a: string, x: string, before: nat, after: nat, b: string)
    requires HostAgrees(host) && IsAnd(x, before, after)
    requires Parse(host, a).Ok? && Parse(host, b).Ok? && Strip(a) != "" && Strip(b) != ""
    requires FindOrder(Strip(a)).None? && FindOrder(Strip(b)).None? && FindOrder(Strip(a + x + b)).None?
    ensures var cs, ds, t := Parse(host, a).value.clauses, Parse(host, b).value.clauses, Strip(a + x + b);
            if |t| <= 512 && |cs| + |ds| <= 8 && !EndsInAnd(Strip(a)) then
              Parse(host, a + x + b) == Ok(Query(t, cs + ds, [("priority_score", "DESC"), ("opened_at", "ASC")]))
            else Parse(host, a + x + b).Err?
  {
    var cs, ds := Parse(host, a).value.clauses, Parse(host, b).value.clauses;
    var y, m, n := StrippedJoin(a, x, before, after, b);
    var p, q := Strip(a), Strip(b);
    UnorderedParts(host, a);
    UnorderedParts(host, b);
    StripTrimmed(p + (y + q));
    if |p + (y + q)| <= MAX_LENGTH {
      JoinedReads(host, p, y, m, n, q);
      if EndsInAnd(p) {
        JoinedFails(host, p, y, m, n, q);
      } else {
        JoinedParts(host, p, y, m, n, q, cs, ds);
      }
      SameReading(host, a + x + b);
    }
  }

  lemma SameReading(host: Host, text: string)
    requires Strip(Strip(text)) == Strip(text)
    ensures Parse(host, text) == Parse(host, Strip(text))
  {
    SameRaw(host, text, Strip(text), Strip(text));
  }

  lemma SameRaw(host: Host, a: string, b: string, raw: string)
    requires Strip(a) == raw && Strip(b) == raw
    ensures Parse(host, a) == Parse(host, b)
  {
  }
}
