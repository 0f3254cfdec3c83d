/** How the JQL scanners read text made of words joined by single spaces: keywords are found
    as whole words, never inside one. */
module JqlWords {
  import opened Basics
  import opened Text
  import opened JqlSyntax

  predicate IsPlain(w: string) { w != "" && NoSpaces(w) }

  ghost predicate AllPlain(ws: seq<string>) { forall i :: 0 <= i < |ws| ==> IsPlain(ws[i]) }

  function Spaced(ws: seq<string>): string { Join(ws, " ") }

  /** A space and the remaining words, or nothing. */
  function Tail(ws: seq<string>): string { if ws == [] then "" else " " + Spaced(ws) }

  lemma SpacedCons(w: string, ws: seq<string>)
    ensures Spaced([w] + ws) == w + Tail(ws)
  {
  }

  lemma {:induction false} SpacedConcat(a: seq<string>, b: seq<string>)
    requires a != []
    ensures Spaced(a + b) == Spaced(a) + Tail(b)
  {
    var w, rest, t := a[0], a[1..], Tail(b);
    assert a + b == [w] + (rest + b) && a == [w] + rest;
    SpacedCons(w, rest + b);
    SpacedCons(w, rest);
    if rest != [] {
      SpacedConcat(rest, b);
      assert Tail(rest + b) == " " + (Spaced(rest) + t);
      assert w + (" " + (Spaced(rest) + t)) == (w + (" " + Spaced(rest))) + t;
    } else {
      assert rest + b == b && w + "" == w;
    }
  }

  lemma SpacedHead(ws: seq<string>)
    requires AllPlain(ws) && ws != []
    ensures Spaced(ws) != "" && SpaceRun(Spaced(ws)) == 0 && SpaceRun(" " + Spaced(ws)) == 1
    ensures (" " + Spaced(ws))[1..] == Spaced(ws)
  {
  }

  /** Text of plain words is already stripped. */
  lemma {:induction false} SpacedStripped(ws: seq<string>)
    requires AllPlain(ws)
    ensures Strip(Spaced(ws)) == Spaced(ws)
    ensures ws != [] ==> !IsSpace(Spaced(ws)[0]) && !IsSpace(Spaced(ws)[|Spaced(ws)| - 1])
  {
    if ws != [] {
      SpacedEnds(ws);
      StripTrimmed(Spaced(ws));
    }
  }

  lemma {:induction false} SpacedEnds(ws: seq<string>)
    requires AllPlain(ws) && ws != []
    ensures Spaced(ws) != "" && !IsSpace(Spaced(ws)[0]) && !IsSpace(Spaced(ws)[|Spaced(ws)| - 1])
  {
    var w := ws[0];
    assert w[0] in w && w[|w| - 1] in w;
    if |ws| > 1 { SpacedEnds(ws[1..]); }
  }

  // ---- keywords are whole words

  lemma FoldConcat(a: string, b: string)
    ensures Fold(a + b) == Fold(a) + Fold(b)
  {
  }

  /** At the start of a list of words, a keyword followed by a space or the end is the first word. */
  lemma KeywordIsWord(w: string, rest: string, keyword: string)
    requires IsPlain(w) && keyword != "" && (forall c :: c in keyword ==> 'A' <= c <= 'Z')
    requires rest == "" || rest[0] == ' '
    ensures StartsWithFold(w + rest, keyword) ==> |keyword| <= |w|
    ensures StartsWithFold(w + rest, keyword) && (w + rest)[|keyword|..] == rest ==> Fold(w) == keyword
    ensures Fold(w) == keyword ==> StartsWithFold(w + rest, keyword) && (w + rest)[|keyword|..] == rest
  {
    if |w| < |keyword| <= |w + rest| {
      assert Fold((w + rest)[..|keyword|])[|w|] == ' ';
      assert keyword[|w|] in keyword;
    }
    if StartsWithFold(w + rest, keyword) && (w + rest)[|keyword|..] == rest {
      assert (w + rest)[..|keyword|] == w;
    }
    if Fold(w) == keyword { assert (w + rest)[..|keyword|] == w; }
  }

  /** After the keyword comes whitespace exactly when the keyword is the whole first word and more words follow. */
  lemma KeywordThenSpace(ws: seq<string>, keyword: string)
    requires AllPlain(ws) && ws != [] && keyword != "" && (forall c :: c in keyword ==> 'A' <= c <= 'Z')
    ensures match SpacesThen(" " + Spaced(ws), keyword)
            case None => Fold(ws[0]) != keyword
            case Some(rest) =>
              && (SpaceRun(rest) > 0 <==> Fold(ws[0]) == keyword && |ws| > 1)
              && (Fold(ws[0]) == keyword ==> rest == Tail(ws[1..]))
  {
    var w, rest := ws[0], Tail(ws[1..]);
    SpacedCons(w, ws[1..]);
    assert [w] + ws[1..] == ws;
    SpacedHead(ws);
    KeywordIsWord(w, rest, keyword);
    match SpacesThen(" " + Spaced(ws), keyword)
    case None =>
    case Some(r) =>
      var k := |keyword|;
      assert r == (" " + Spaced(ws))[1 + k..] == (w + rest)[k..];
      if k < |w| {
        assert r == w[k..] + rest;
        assert w[k] in w;
        assert SpaceRun(r) == 0;
      } else {
        assert r == rest;
        if |ws| > 1 { SpacedHead(ws[1..]); }
      }
  }

  // ---- AND

  lemma AndIsWord(ws: seq<string>)
    requires AllPlain(ws) && ws != []
    ensures AndHere(" " + Spaced(ws)) == if |ws| > 1 && Fold(ws[0]) == "AND" then Some(Spaced(ws[1..])) else None
  {
    KeywordThenSpace(ws, "AND");
    if |ws| > 1 && Fold(ws[0]) == "AND" { SpacedHead(ws[1..]); }
  }

  lemma {:induction false} SplitAndSkips(w: string, s: string)
    requires NoSpaces(w)
    ensures SplitAnd(w + s) == [w + SplitAnd(s)[0]] + SplitAnd(s)[1..]
  {
    if w == "" {
      assert w + s == s && w + SplitAnd(s)[0] == SplitAnd(s)[0];
      assert [SplitAnd(s)[0]] + SplitAnd(s)[1..] == SplitAnd(s);
    } else {
      assert w[0] in w && (w + s)[1..] == w[1..] + s;
      assert forall c :: c in w[1..] ==> c in w;
      SplitAndSkips(w[1..], s);
      SplitAndChar(w + s);
      HeadBack(w, SplitAnd(s)[0]);
    }
  }

  lemma SplitAndChar(s: string)
    requires s != "" && !IsSpace(s[0])
    ensures SplitAnd(s) == [[s[0]] + SplitAnd(s[1..])[0]] + SplitAnd(s[1..])[1..]
  {
  }

  lemma HeadBack(w: string, t: string)
    requires w != ""
    ensures [w[0]] + (w[1..] + t) == w + t
  {
  }

  /** No word after the first is AND, except perhaps a last one. */
  ghost predicate NoInnerAnd(ws: seq<string>) { forall i :: 1 <= i < |ws| - 1 ==> Fold(ws[i]) != "AND" }

  lemma SplitAndAtSpace(ws: seq<string>)
    requires AllPlain(ws) && ws != []
    ensures if |ws| > 1 && Fold(ws[0]) == "AND" then SplitAnd(" " + Spaced(ws)) == [""] + SplitAnd(Spaced(ws[1..]))
            else SplitAnd(" " + Spaced(ws)) == [" " + SplitAnd(Spaced(ws))[0]] + SplitAnd(Spaced(ws))[1..]
  {
    AndIsWord(ws);
    SpacedHead(ws);
  }

  lemma SplitAndCons(w: string, ws: seq<string>)
    requires IsPlain(w) && AllPlain(ws) && ws != []
    ensures if |ws| > 1 && Fold(ws[0]) == "AND" then SplitAnd(Spaced([w] + ws)) == [w] + SplitAnd(Spaced(ws[1..]))
            else SplitAnd(Spaced([w] + ws)) == [w + " " + SplitAnd(Spaced(ws))[0]] + SplitAnd(Spaced(ws))[1..]
  {
    SpacedCons(w, ws);
    SplitAndSkips(w, " " + Spaced(ws));
    SplitAndAtSpace(ws);
    var pieces := SplitAnd(" " + Spaced(ws));
    if |ws| > 1 && Fold(ws[0]) == "AND" {
      assert w + pieces[0] == w;
      assert pieces[1..] == SplitAnd(Spaced(ws[1..]));
    } else {
      assert w + (" " + SplitAnd(Spaced(ws))[0]) == w + " " + SplitAnd(Spaced(ws))[0];
      assert pieces[1..] == SplitAnd(Spaced(ws))[1..];
    }
  }

  lemma SplitAndWord(w: string)
    requires IsPlain(w)
    ensures SplitAnd(Spaced([w])) == [w]
  {
    SplitAndSkips(w, "");
    assert w + "" == w;
  }

  /** A list of words without an inner AND is one piece. */
  lemma {:induction false} SplitAndSingle(ws: seq<string>)
    requires AllPlain(ws) && ws != [] && NoInnerAnd(ws)
    ensures SplitAnd(Spaced(ws)) == [Spaced(ws)]
  {
    if |ws| == 1 {
      SplitAndWord(ws[0]);
      assert ws == [ws[0]];
    } else {
      var w, rest := ws[0], ws[1..];
      assert ws == [w] + rest;
      SplitAndSingle(rest);
      SplitAndCons(w, rest);
      SpacedCons(w, rest);
      assert w + " " + Spaced(rest) == w + (" " + Spaced(rest));
    }
  }

  /** Words up to the first AND between words are the first piece. */
  lemma {:induction false} SplitAndFirst(a: seq<string>, and: string, b: seq<string>)
    requires AllPlain(a) && AllPlain(b) && a != [] && b != [] && IsPlain(and) && Fold(and) == "AND"
    requires forall i :: 1 <= i < |a| ==> Fold(a[i]) != "AND"
    ensures SplitAnd(Spaced(a + [and] + b)) == [Spaced(a)] + SplitAnd(Spaced(b))
  {
    var w, rest := a[0], a[1..] + [and] + b;
    assert a + [and] + b == [w] + rest && a == [w] + a[1..];
    SplitAndCons(w, rest);
    SpacedCons(w, a[1..]);
    if |a| == 1 {
      assert rest == [and] + b && rest[1..] == b;
    } else {
      SplitAndFirst(a[1..], and, b);
      assert rest[0] == a[1];
      assert w + " " + Spaced(a[1..]) == w + (" " + Spaced(a[1..]));
    }
  }

  // ---- ORDER BY

  lemma {:induction false} SpacedNoNewline(ws: seq<string>)
    requires AllPlain(ws)
    ensures '\n' !in Spaced(ws)
  {
    if ws != [] {
      SpacedCons(ws[0], ws[1..]);
      assert [ws[0]] + ws[1..] == ws;
      assert '\n' !in ws[0];
      SpacedNoNewline(ws[1..]);
    }
  }

  predicate OrderAt(ws: seq<string>, k: nat) {
    k + 2 < |ws| && Fold(ws[k]) == "ORDER" && Fold(ws[k + 1]) == "BY"
  }

  lemma OrderIsWords(ws: seq<string>)
    requires AllPlain(ws) && ws != []
    ensures OrderHere(" " + Spaced(ws)) == if OrderAt(ws, 0) then Some(Spaced(ws[2..])) else None
  {
    KeywordThenSpace(ws, "ORDER");
    match SpacesThen(" " + Spaced(ws), "ORDER")
    case None =>
    case Some(rest) =>
      if Fold(ws[0]) == "ORDER" && |ws| > 1 {
        var more := ws[1..];
        KeywordThenSpace(more, "BY");
        if Fold(more[0]) == "BY" && |more| > 1 {
          assert more[1..] == ws[2..];
          SpacedHead(ws[2..]);
          SpacedNoNewline(ws[2..]);
        }
      } else {
        assert SpacesThen(rest, "BY") == None;
      }
  }

  /** A found split with more text in front. */
  function Extend(prefix: string, found: Option<(string, string)>): Option<(string, string)> {
    match found
    case None => None
    case Some((body, text)) => Some((prefix + body, text))
  }

  lemma {:induction false} FindOrderSkips(w: string, s: string)
    requires NoSpaces(w)
    ensures FindOrder(w + s) == Extend(w, FindOrder(s))
  {
    if w == "" {
      assert w + s == s;
      assert FindOrder(s).Some? ==> w + FindOrder(s).value.0 == FindOrder(s).value.0;
    } else {
      assert w[0] in w && (w + s)[1..] == w[1..] + s;
      assert forall c :: c in w[1..] ==> c in w;
      FindOrderSkips(w[1..], s);
      FindOrderChar(w + s);
      if FindOrder(s).Some? { HeadBack(w, FindOrder(s).value.0); }
    }
  }

  lemma FindOrderChar(s: string)
    requires s != "" && !IsSpace(s[0])
    ensures FindOrder(s) == Extend([s[0]], FindOrder(s[1..]))
  {
  }

  lemma FindOrderCons(w: string, ws: seq<string>)
    requires IsPlain(w) && AllPlain(ws) && ws != []
    ensures if OrderAt(ws, 0) then FindOrder(Spaced([w] + ws)) == Some((w, Spaced(ws[2..])))
            else FindOrder(Spaced([w] + ws)) == Extend(w + " ", FindOrder(Spaced(ws)))
  {
    SpacedCons(w, ws);
    FindOrderSkips(w, " " + Spaced(ws));
    OrderIsWords(ws);
    SpacedHead(ws);
    if OrderAt(ws, 0) {
      assert w + "" == w;
    } else if FindOrder(Spaced(ws)).Some? {
      var body := FindOrder(Spaced(ws)).value.0;
      assert w + (" " + body) == w + " " + body;
    }
  }

  /** The first ORDER BY after the first word splits the text there. */
  lemma {:induction false} FindOrderFirst(a: seq<string>, b: seq<string>)
    requires AllPlain(a) && AllPlain(b) && a != [] && OrderAt(b, 0)
    requires forall k :: 1 <= k < |a| ==> !OrderAt(a + b, k)
    ensures FindOrder(Spaced(a + b)) == Some((Spaced(a), Spaced(b[2..])))
  {
    var w, rest := a[0], a[1..] + b;
    assert a + b == [w] + rest && a == [w] + a[1..];
    FindOrderCons(w, rest);
    SpacedCons(w, a[1..]);
    if |a| == 1 {
      assert rest == b;
    } else {
      assert forall k :: 0 <= k < |a| - 1 ==> (OrderAt(rest, k) <==> OrderAt(a + b, k + 1));
      FindOrderFirst(a[1..], b);
      assert w + " " + Spaced(a[1..]) == w + (" " + Spaced(a[1..]));
    }
  }

  lemma {:induction false} FindOrderNone(ws: seq<string>)
    requires AllPlain(ws) && ws != []
    requires forall k :: 1 <= k < |ws| ==> !OrderAt(ws, k)
    ensures FindOrder(Spaced(ws)) == None
  {
    if |ws| == 1 {
      FindOrderSkips(ws[0], "");
      assert ws[0] + "" == ws[0];
    } else {
      var w, rest := ws[0], ws[1..];
      assert ws == [w] + rest;
      FindOrderCons(w, rest);
      assert forall k :: 0 <= k < |rest| ==> (OrderAt(rest, k) <==> OrderAt(ws, k + 1));
      FindOrderNone(rest);
    }
  }
}
