/** The parentheses check passes on printed clauses: every list is taken out at its IN. */
module JqlParens {
  import opened Basics
  import opened Text
  import opened JqlSyntax
  import opened JqlWords
  import opened JqlGood
  import opened JqlPrinted

  /** After any whitespace, the text goes on with an opening parenthesis. */
  predicate OpensList(s: string) {
    SpaceRun(s) < |s| && s[SpaceRun(s)] == '('
  }

  predicate NoParens(s: string) { '(' !in s && ')' !in s }

  /** Where a word ends: at the end, or before a space that no list follows. */
  predicate WordEnds(rest: string) {
    rest == "" || (rest[0] == ' ' && !OpensList(rest))
  }

  lemma NoListInWord(w: string, rest: string)
    requires IsPlain(w) && NoParens(w) && WordEnds(rest)
    ensures InListHere(w + rest) == None
  {
    var t := w + rest;
    assert |t| >= 2 ==> Fold(t[..2])[1] == FoldChar(t[1]);
    if |w| >= 2 {
      assert t[2..] == w[2..] + rest;
      if |w| > 2 { assert w[2] in w; } else { assert t[2..] == rest; }
    }
  }

  function AfterWord(rest: string): string { if rest == "" then "" else rest[1..] }

  /** A word without parentheses is passed over. */
  lemma {:induction false} PassWord(host: Host, w: string, rest: string, afterWord: bool)
    requires NoSpaces(w) && NoParens(w) && WordEnds(rest)
    ensures StrayParen(host, w + rest, afterWord) == StrayParen(host, AfterWord(rest), false)
  {
    if w == "" {
      assert w + rest == rest;
      PassEnd(host, rest, afterWord);
    } else {
      PassChar(host, w, rest, afterWord);
      assert forall c :: c in w[1..] ==> c in w;
      PassWord(host, w[1..], rest, IsWord(host, w[0]));
    }
  }

  lemma PassEnd(host: Host, rest: string, afterWord: bool)
    requires WordEnds(rest)
    ensures StrayParen(host, rest, afterWord) == StrayParen(host, AfterWord(rest), false)
  {
    if rest != "" && |rest| >= 2 { assert Fold(rest[..2])[0] == ' '; }
  }

  lemma PassChar(host: Host, w: string, rest: string, afterWord: bool)
    requires IsPlain(w) && NoParens(w) && WordEnds(rest)
    ensures StrayParen(host, w + rest, afterWord) == StrayParen(host, w[1..] + rest, IsWord(host, w[0]))
  {
    assert w[0] in w && (w + rest)[1..] == w[1..] + rest;
    NoListInWord(w, rest);
  }

  lemma SpaceThen(s: string)
    requires s != "" && !IsSpace(s[0]) && s[0] != '('
    ensures WordEnds(" " + s) && AfterWord(" " + s) == s
  {
    OneSpaceThen(s);
  }

  lemma {:induction false} ClosesAt(inner: string, rest: string)
    requires ')' !in inner
    ensures AfterClose(inner + ")" + rest) == Some(rest)
  {
    var t := inner + ")" + rest;
    if inner == "" {
      assert t[1..] == rest;
    } else {
      assert t[0] == inner[0] && inner[0] in inner;
      assert t[1..] == inner[1..] + ")" + rest;
      ClosesAt(inner[1..], rest);
    }
  }

  lemma PassList(host: Host, inner: string, rest: string)
    requires ')' !in inner
    ensures StrayParen(host, "IN (" + inner + ")" + rest, false) == StrayParen(host, rest, false)
  {
    var list := "(" + inner + ")" + rest;
    var t := "IN " + list;
    assert "IN (" + inner + ")" + rest == t;
    assert Fold(t[..2]) == "IN";
    OneSpaceThen(list);
    assert t[2..] == " " + list;
    assert list[1..] == inner + ")" + rest;
    ClosesAt(inner, rest);
  }

  lemma WordParens(s: string)
    requires IsItem(s)
    ensures NoSpaces(s) && NoParens(s) && s != "" && !IsSpace(s[0]) && s[0] != '('
  {
  }

  lemma NameIsItem(s: string)
    requires IsName(s)
    ensures IsItem(s)
  {
  }

  lemma PassComparison(host: Host, field: string, operator: string, value: string, rest: string)
    requires IsItem(field) && IsItem(operator) && IsItem(value) && WordEnds(rest)
    ensures StrayParen(host, field + " " + operator + " " + value + rest, false)
            == StrayParen(host, AfterWord(rest), false)
  {
    WordParens(field);
    WordParens(operator);
    WordParens(value);
    var third := value + rest;
    var second := operator + (" " + third);
    assert field + " " + operator + " " + value + rest == field + (" " + second);
    SpaceThen(second);
    SpaceThen(third);
    PassWord(host, field, " " + second, false);
    PassWord(host, operator, " " + third, false);
    PassWord(host, value, rest, false);
  }

  lemma PassInClause(host: Host, field: string, inner: string, rest: string)
    requires IsItem(field) && ')' !in inner && WordEnds(rest)
    ensures StrayParen(host, field + " IN (" + inner + ")" + rest, false) == StrayParen(host, AfterWord(rest), false)
  {
    WordParens(field);
    var second := "IN (" + inner + ")" + rest;
    assert field + " IN (" + inner + ")" + rest == field + (" " + second);
    assert second[0] == 'I';
    SpaceThen(second);
    PassWord(host, field, " " + second, false);
    PassList(host, inner, rest);
    PassWord(host, "", rest, false);
    assert "" + rest == rest;
  }

  lemma OperatorIsItem(operator: string)
    requires operator in OPERATORS
    ensures IsItem(operator)
  {
  }

  /** A printed clause is passed over. */
  lemma PassClause(host: Host, c: Clause, rest: string)
    requires GoodClause(host, c) && WordEnds(rest)
    ensures StrayParen(host, FormatClause(host, c) + rest, false) == StrayParen(host, AfterWord(rest), false)
  {
    NameIsItem(c.field);
    GoodTexts(host, c);
    var ts := FormatValues(host, c.values);
    if c.operator == "IN" {
      JoinHas(ts, ')');
      PassInClause(host, c.field, Join(ts, ", "), rest);
    } else {
      OperatorIsItem(c.operator);
      PassComparison(host, c.field, c.operator, ts[0], rest);
    }
  }

  /** No parenthesis is stray in printed clauses. */
  lemma {:induction false} NoStrayParen(host: Host, cs: seq<Clause>)
    requires cs != [] && AllGood(host, cs)
    ensures !StrayParen(host, Join(ClauseTexts(host, cs), " AND "), false)
  {
    var ts, c, more := ClauseTexts(host, cs), cs[0], cs[1..];
    assert c in cs && forall d :: d in more ==> d in cs;
    assert ts[0] == FormatClause(host, c);
    if more == [] {
      PassClause(host, c, "");
      assert ts[0] + "" == ts[0];
    } else {
      var j := Join(ClauseTexts(host, more), " AND ");
      assert ts[1..] == ClauseTexts(host, more);
      NoStrayParen(host, more);
      assert more[0] in more;
      StartsPlain(host, more);
      PassAnd(host, c, j);
    }
  }

  lemma StartsPlain(host: Host, cs: seq<Clause>)
    requires cs != [] && AllGood(host, cs)
    ensures var j := Join(ClauseTexts(host, cs), " AND "); j != "" && !IsSpace(j[0]) && j[0] != '('
  {
    var c := cs[0];
    assert c in cs;
    NameIsItem(c.field);
    WordParens(c.field);
    assert FormatClause(host, c)[0] == c.field[0];
    assert ClauseTexts(host, cs)[0] == FormatClause(host, c);
  }

  lemma AndSpelling(s: string, j: string)
    ensures s + " AND " + j == s + (" " + ("AND" + (" " + j)))
  {
  }

  lemma PassAnd(host: Host, c: Clause, j: string)
    requires GoodClause(host, c) && j != "" && !IsSpace(j[0]) && j[0] != '(' && !StrayParen(host, j, false)
    ensures !StrayParen(host, FormatClause(host, c) + " AND " + j, false)
  {
    var rest := "AND" + (" " + j);
    assert rest[0] == 'A';
    SpaceThen(j);
    SpaceThen(rest);
    AndSpelling(FormatClause(host, c), j);
    PassClause(host, c, " " + rest);
    PassWord(host, "AND", " " + j, false);
  }
}
