/** Printing a query and reading it back: exactly when this gives the same query. */
module JqlRoundTrip {
  import opened Basics
  import opened Text
  import opened JqlSyntax
  import opened JqlWords
  import opened JqlClean
  import opened JqlGood
  import opened JqlPrinted
  import opened JqlParens

  // ---- clauses as one list of words

  ghost function BodyWords(host: Host, cs: seq<Clause>): seq<string>
    requires cs != [] && AllGood(host, cs)
  {
    assert cs[0] in cs;
    if |cs| == 1 then ClauseWords(host, cs[0])
    else
      assert forall c :: c in cs[1..] ==> c in cs;
      ClauseWords(host, cs[0]) + ["AND"] + BodyWords(host, cs[1..])
  }

  /** The part of the canonical text before ORDER BY. */
  ghost function Body(host: Host, cs: seq<Clause>): string
    requires AllGood(host, cs)
  {
    Join(ClauseTexts(host, cs), " AND ")
  }

  lemma RestIsGood(host: Host, cs: seq<Clause>)
    requires cs != [] && AllGood(host, cs)
    ensures GoodClause(host, cs[0]) && AllGood(host, cs[1..])
    ensures ClauseTexts(host, cs) == [FormatClause(host, cs[0])] + ClauseTexts(host, cs[1..])
  {
  }

  lemma AndWords(a: seq<string>, b: seq<string>)
    requires a != []
    ensures Spaced(a + ["AND"] + b) == Spaced(a) + " AND" + Tail(b)
  {
    SpacedConcat(a, ["AND"] + b);
    SpacedCons("AND", b);
    assert a + ["AND"] + b == a + (["AND"] + b);
    AndText(Spaced(a), Tail(b));
  }

  lemma AndText(s: string, t: string)
    ensures s + (" " + ("AND" + t)) == s + " AND" + t
  {
  }

  lemma {:induction false} BodySpaced(host: Host, cs: seq<Clause>)
    requires cs != [] && AllGood(host, cs)
    ensures BodyWords(host, cs) != [] && Spaced(BodyWords(host, cs)) == Body(host, cs)
  {
    RestIsGood(host, cs);
    ClauseWordsSpaced(host, cs[0]);
    var a := FormatClause(host, cs[0]);
    if |cs| > 1 {
      BodySpaced(host, cs[1..]);
      AndWords(ClauseWords(host, cs[0]), BodyWords(host, cs[1..]));
      var b := Body(host, cs[1..]);
      JoinedCons(a, ClauseTexts(host, cs[1..]), b);
      assert Tail(BodyWords(host, cs[1..])) == " " + b;
    } else {
      assert ClauseTexts(host, cs) == [a];
    }
  }

  lemma JoinedCons(a: string, ts: seq<string>, b: string)
    requires ts != [] && b == Join(ts, " AND ")
    ensures Join([a] + ts, " AND ") == a + " AND" + (" " + b)
  {
  }

  /** Before the last word, ORDER is always followed by AND. */
  ghost predicate OrderThenAnd(ws: seq<string>) {
    forall k :: 0 <= k < |ws| - 1 && Fold(ws[k]) == "ORDER" ==> ws[k + 1] == "AND"
  }

  lemma OrderThenAndJoins(a: seq<string>, b: seq<string>)
    requires OrderThenAnd(a) && OrderThenAnd(b) && a != []
    ensures OrderThenAnd(a + ["AND"] + b)
  {
  }

  lemma {:induction false} BodyShape(host: Host, cs: seq<Clause>)
    requires cs != [] && AllGood(host, cs)
    ensures AllPlain(BodyWords(host, cs)) && BodyWords(host, cs) != [] && OrderThenAnd(BodyWords(host, cs))
  {
    RestIsGood(host, cs);
    var ws := ClauseWords(host, cs[0]);
    ClauseWordsShape(host, cs[0]);
    assert OrderThenAnd(ws);
    if |cs| > 1 {
      BodyShape(host, cs[1..]);
      OrderThenAndJoins(ws, BodyWords(host, cs[1..]));
    }
  }

  // ---- acceptable text

  lemma {:induction false} WordsClean(host: Host, ws: seq<string>)
    requires HostAgrees(host) && forall i :: 0 <= i < |ws| ==> Clean(host, ws[i])
    ensures Clean(host, Spaced(ws))
  {
    if |ws| > 1 {
      WordsClean(host, ws[1..]);
      SeparatorChars(host, ' ');
      assert " " == [' '];
      CleanJoin(host, ws[0], ' ', Spaced(ws[1..]));
    }
  }

  lemma CleanAfterMark(host: Host, w: string, mark: char)
    requires HostAgrees(host) && Clean(host, w) && mark in ",)"
    ensures Clean(host, w + [mark])
  {
    SeparatorChars(host, mark);
    CleanJoin(host, w, mark, "");
    assert w + [mark] + "" == w + [mark];
  }

  lemma CleanBehindOpen(host: Host, w: string)
    requires HostAgrees(host) && Clean(host, w)
    ensures Clean(host, "(" + w)
  {
    SeparatorChars(host, '(');
    CleanJoin(host, "", '(', w);
    assert "" + ['('] + w == "(" + w;
  }

  lemma {:induction false} ListWordsClean(host: Host, ts: seq<string>)
    requires HostAgrees(host) && ts != [] && forall i :: 0 <= i < |ts| ==> Clean(host, ts[i])
    ensures forall i :: 0 <= i < |ListWords(ts)| ==> Clean(host, ListWords(ts)[i])
  {
    CleanAfterMark(host, ts[0], if |ts| == 1 then ')' else ',');
    if |ts| > 1 {
      ListWordsClean(host, ts[1..]);
      assert forall i :: 1 <= i < |ListWords(ts)| ==> ListWords(ts)[i] == ListWords(ts[1..])[i - 1];
    }
  }

  lemma InWordsClean(host: Host, ts: seq<string>)
    requires HostAgrees(host) && forall i :: 0 <= i < |ts| ==> Clean(host, ts[i])
    ensures forall i :: 0 <= i < |InWords(ts)| ==> Clean(host, InWords(ts)[i])
  {
    if ts == [] {
      CleanBehindOpen(host, ")");
      CleanAfterMark(host, "", ')');
      assert "" + [')'] == ")" && "(" + ")" == "()";
    } else {
      ListWordsClean(host, ts);
      assert ListWords(ts) != [];
      CleanBehindOpen(host, ListWords(ts)[0]);
    }
  }

  lemma SymbolsClean(host: Host, operator: string)
    requires operator in OPERATORS
    ensures Clean(host, operator)
  {
  }

  lemma KeywordsClean(host: Host)
    ensures Clean(host, "IN") && Clean(host, "AND") && Clean(host, "ORDER") && Clean(host, "BY")
  {
    assert Fold("IN")[0] == 'I' && Fold("AND")[0] == 'A' && |Fold("ORDER")| == 5 && Fold("BY")[0] == 'B';
    CleanWord(host, "IN");
    CleanWord(host, "AND");
    CleanWord(host, "ORDER");
    CleanWord(host, "BY");
  }

  lemma ClauseWordsClean(host: Host, c: Clause)
    requires HostAgrees(host) && GoodClause(host, c)
    ensures forall i :: 0 <= i < |ClauseWords(host, c)| ==> Clean(host, ClauseWords(host, c)[i])
  {
    GoodTexts(host, c);
    if c.operator == "IN" {
      KeywordsClean(host);
      InWordsClean(host, FormatValues(host, c.values));
    } else {
      SymbolsClean(host, c.operator);
      assert FormatValues(host, c.values)[0] == FormatValue(host, c.values[0]);
    }
  }

  lemma {:induction false} BodyWordsClean(host: Host, cs: seq<Clause>)
    requires HostAgrees(host) && cs != [] && AllGood(host, cs)
    ensures forall i :: 0 <= i < |BodyWords(host, cs)| ==> Clean(host, BodyWords(host, cs)[i])
  {
    RestIsGood(host, cs);
    ClauseWordsClean(host, cs[0]);
    if |cs| > 1 {
      KeywordsClean(host);
      BodyWordsClean(host, cs[1..]);
    }
  }

  // ---- the order entries

  function OrderWords(order: Order): seq<string>
    requires order != []
  {
    if |order| == 1 then [order[0].0, order[0].1] else [order[0].0, order[0].1 + ","] + OrderWords(order[1..])
  }

  lemma OrderRest(order: Order)
    requires |order| > 1
    ensures OrderEntries(order) == [order[0].0 + " " + order[0].1] + OrderEntries(order[1..])
  {
  }

  lemma TwoWords(a: string, b: string, ws: seq<string>)
    ensures Spaced([a, b] + ws) == a + " " + b + Tail(ws)
  {
    SpacedCons(a, [b] + ws);
    SpacedCons(b, ws);
    assert [a, b] + ws == [a] + ([b] + ws);
    assert a + (" " + (b + Tail(ws))) == a + " " + b + Tail(ws);
  }

  lemma {:induction false} OrderSpaced(order: Order)
    requires order != []
    ensures OrderWords(order) != [] && Spaced(OrderWords(order)) == Join(OrderEntries(order), ", ")
  {
    var a, b := order[0].0, order[0].1;
    if |order| == 1 {
      TwoWords(a, b, []);
      assert [a, b] + [] == [a, b];
      assert a + " " + b + "" == a + " " + b;
    } else {
      OrderSpaced(order[1..]);
      OrderRest(order);
      TwoWords(a, b + ",", OrderWords(order[1..]));
      var j := Join(OrderEntries(order[1..]), ", ");
      assert a + " " + (b + ",") + (" " + j) == a + " " + b + ", " + j;
    }
  }

  ghost predicate GoodEntry(e: (string, string)) { e.0 in SORT_FIELDS && (e.1 == "ASC" || e.1 == "DESC") }

  /** A word of the order text. */
  ghost predicate OrderWord(host: Host, w: string) {
    IsPlain(w) && Clean(host, w) && Fold(w) != "ORDER" && Fold(w) != "AND"
  }

  lemma SortFieldWord(host: Host, w: string)
    requires w in SORT_FIELDS
    ensures OrderWord(host, w) && IsName(w) && ',' !in w
  {
    assert |Fold("priority_score")| == 14 && |Fold("opened_at")| == 9 && |Fold("updated_at")| == 10;
    CleanWord(host, "priority_score");
    CleanWord(host, "opened_at");
    CleanWord(host, "updated_at");
    NameIsPlain(w);
  }

  lemma DirectionWord(host: Host, w: string)
    requires HostAgrees(host) && (w == "ASC" || w == "DESC")
    ensures OrderWord(host, w) && OrderWord(host, w + ",") && Fold(w) == w && ',' !in w
  {
    assert Fold("ASC")[0] == 'A' && Fold("ASC")[1] == 'S' && Fold("DESC")[0] == 'D' && Fold("DESC")[1] == 'E';
    CleanWord(host, "ASC");
    CleanWord(host, "DESC");
    CleanAfterMark(host, w, ',');
    PunctuatedIsNoKeyword(w + ",", "ORDER");
    PunctuatedIsNoKeyword(w + ",", "AND");
  }

  lemma {:induction false} OrderWordsShape(host: Host, order: Order)
    requires HostAgrees(host) && GoodOrder(order)
    ensures |OrderWords(order)| >= 2 && forall i :: 0 <= i < |OrderWords(order)| ==>
              OrderWord(host, OrderWords(order)[i])
  {
    assert order[0] in order;
    SortFieldWord(host, order[0].0);
    DirectionWord(host, order[0].1);
    if |order| > 1 {
      assert forall e :: e in order[1..] ==> e in order;
      OrderWordsShape(host, order[1..]);
    }
  }

  lemma EntryReads(host: Host, e: (string, string))
    requires HostAgrees(host) && GoodEntry(e)
    ensures IsEntry(e.0 + " " + e.1) && ParseOrderPart(e.0 + " " + e.1) == Ok(e)
  {
    var part := e.0 + (" " + e.1);
    assert e.0 + " " + e.1 == part;
    SortFieldWord(host, e.0);
    DirectionWord(host, e.1);
    assert e.0[0] in e.0 && e.1[|e.1| - 1] in e.1 && e.1[0] in e.1;
    FoldedNameRun(e.0, " " + e.1);
    assert part[|e.0|..] == " " + e.1 && part[..|e.0|] == e.0;
    OneSpaceThen(e.1);
  }

  lemma EntriesSnoc(order: Order, e: (string, string))
    ensures OrderEntries(order + [e]) == OrderEntries(order) + [e.0 + " " + e.1]
  {
  }

  lemma {:induction false} OrderReads(host: Host, order: Order)
    requires HostAgrees(host) && forall e :: e in order ==> GoodEntry(e)
    ensures ParseOrderParts(OrderEntries(order)) == Ok(order)
  {
    if order != [] {
      var n := |order| - 1;
      var front, e := order[..n], order[n];
      assert e in order && forall x :: x in front ==> x in order;
      assert order == front + [e];
      OrderReads(host, front);
      OrderReadsOne(host, front, e);
    }
  }

  lemma OrderReadsOne(host: Host, order: Order, e: (string, string))
    requires HostAgrees(host) && GoodEntry(e) && ParseOrderParts(OrderEntries(order)) == Ok(order)
    ensures ParseOrderParts(OrderEntries(order + [e])) == Ok(order + [e])
  {
    EntryReads(host, e);
    EntriesSnoc(order, e);
    PartsSnoc(OrderEntries(order), e.0 + " " + e.1, order, e);
  }

  lemma PartsSnoc(parts: seq<string>, part: string, order: Order, e: (string, string))
    requires ParseOrderParts(parts) == Ok(order) && ParseOrderPart(part) == Ok(e)
    ensures ParseOrderParts(parts + [part]) == Ok(order + [e])
  {
  }

  lemma EntriesAreEntries(host: Host, order: Order)
    requires HostAgrees(host) && forall e :: e in order ==> GoodEntry(e)
    ensures forall i :: 0 <= i < |order| ==> IsEntry(OrderEntries(order)[i])
  {
    forall i | 0 <= i < |order| ensures IsEntry(OrderEntries(order)[i]) {
      assert order[i] in order;
      EntryReads(host, order[i]);
    }
  }

  // ---- splitting the canonical text

  lemma SplitsBeforeOrder(host: Host, cs: seq<Clause>, order: Order)
    requires HostAgrees(host) && cs != [] && AllGood(host, cs) && GoodOrder(order)
    ensures FindOrder(Spaced(BodyWords(host, cs) + (["ORDER", "BY"] + OrderWords(order))))
            == Some((Spaced(BodyWords(host, cs)), Spaced(OrderWords(order))))
  {
    var a, b := BodyWords(host, cs), ["ORDER", "BY"] + OrderWords(order);
    BodyShape(host, cs);
    OrderWordsShape(host, order);
    assert b[2..] == OrderWords(order);
    KeywordsFold();
    forall k | 1 <= k < |a| ensures !OrderAt(a + b, k) {
      assert (a + b)[k] == a[k];
      assert (a + b)[k + 1] == if k + 1 < |a| then a[k + 1] else "ORDER";
    }
    FindOrderFirst(a, b);
  }

  lemma KeywordsFold()
    ensures Fold("ORDER") == "ORDER" && Fold("BY") == "BY" && Fold("AND") == "AND"
  {
  }

  lemma CanonicalWords(host: Host, q: Query)
    requires HostAgrees(host) && GoodQuery(host, q) && q.clauses != []
    ensures var ws := BodyWords(host, q.clauses) + (["ORDER", "BY"] + OrderWords(q.orderBy));
            Normalized(host, q) == Spaced(ws) && ws != [] && AllPlain(ws) && Clean(host, Spaced(ws))
  {
    var a, o := BodyWords(host, q.clauses), OrderWords(q.orderBy);
    BodySpaced(host, q.clauses);
    OrderSpaced(q.orderBy);
    SpacedConcat(a, ["ORDER", "BY"] + o);
    TwoWords("ORDER", "BY", o);
    OrderByText(Spaced(a), Spaced(o));
    QueryWordsGood(host, q.clauses, q.orderBy);
    WordsClean(host, a + (["ORDER", "BY"] + o));
  }

  lemma QueryWordsGood(host: Host, cs: seq<Clause>, order: Order)
    requires HostAgrees(host) && cs != [] && AllGood(host, cs) && GoodOrder(order)
    ensures var ws := BodyWords(host, cs) + (["ORDER", "BY"] + OrderWords(order));
            AllPlain(ws) && forall i :: 0 <= i < |ws| ==> Clean(host, ws[i])
  {
    BodyShape(host, cs);
    OrderWordsShape(host, order);
    BodyWordsClean(host, cs);
    KeywordsClean(host);
  }

  lemma OrderByText(body: string, order: string)
    ensures body + (" " + ("ORDER" + " " + "BY" + (" " + order))) == body + " ORDER BY " + order
  {
  }

  /** All that reading the canonical text leaves to the clause parser. */
  lemma CanonicalReads(host: Host, q: Query)
    requires HostAgrees(host) && GoodQuery(host, q) && q.clauses != [] && |Normalized(host, q)| <= MAX_LENGTH
    ensures Parse(host, Normalized(host, q))
            == ParseParts(host, Normalized(host, q), Trimmed(SplitAnd(Body(host, q.clauses))), q.orderBy)
  {
    CanonicalWords(host, q);
    var a, o := BodyWords(host, q.clauses), OrderWords(q.orderBy);
    BodyShape(host, q.clauses);
    OrderWordsShape(host, q.orderBy);
    SpacedStripped(a + (["ORDER", "BY"] + o));
    SpacedHead(a + (["ORDER", "BY"] + o));
    BodySpaced(host, q.clauses);
    OrderSplits(host, q);
    NoStrayParen(host, q.clauses);
  }

  lemma OrderSplits(host: Host, q: Query)
    requires HostAgrees(host) && GoodQuery(host, q) && q.clauses != []
    ensures SplitOrderBy(Normalized(host, q)) == Ok((Body(host, q.clauses), q.orderBy))
  {
    CanonicalWords(host, q);
    SplitsBeforeOrder(host, q.clauses, q.orderBy);
    BodyShape(host, q.clauses);
    BodySpaced(host, q.clauses);
    SpacedStripped(BodyWords(host, q.clauses));
    OrderWordsShape(host, q.orderBy);
    SpacedStripped(OrderWords(q.orderBy));
    OrderSpaced(q.orderBy);
    OrderReads(host, q.orderBy);
    EntriesAreEntries(host, q.orderBy);
    SplitJoined(OrderEntries(q.orderBy));
  }

  // ---- the clauses

  /** A clause other than the last compares with the word AND. */
  ghost predicate InnerAnd(host: Host, cs: seq<Clause>)
    requires AllGood(host, cs)
  {
    exists i :: 0 <= i < |cs| - 1 && BareAnd(host, cs[i])
  }

  lemma InnerAndRest(host: Host, cs: seq<Clause>)
    requires |cs| > 1 && AllGood(host, cs) && AllGood(host, cs[1..])
    ensures InnerAnd(host, cs) <==> BareAnd(host, cs[0]) || InnerAnd(host, cs[1..])
  {
  }

  lemma SplitsAfterClause(host: Host, c: Clause, b: seq<string>)
    requires GoodClause(host, c) && !BareAnd(host, c) && AllPlain(b) && b != []
    ensures SplitAnd(Spaced(ClauseWords(host, c) + ["AND"] + b)) == [FormatClause(host, c)] + SplitAnd(Spaced(b))
  {
    var ws := ClauseWords(host, c);
    ClauseWordsShape(host, c);
    ClauseWordsSpaced(host, c);
    KeywordsFold();
    forall i | 1 <= i < |ws| ensures Fold(ws[i]) != "AND" { }
    SplitAndFirst(ws, "AND", b);
  }

  lemma {:induction false} SplitsIntoClauses(host: Host, cs: seq<Clause>)
    requires cs != [] && AllGood(host, cs) && !InnerAnd(host, cs)
    ensures SplitAnd(Spaced(BodyWords(host, cs))) == ClauseTexts(host, cs)
  {
    RestIsGood(host, cs);
    if |cs| == 1 {
      var ws := ClauseWords(host, cs[0]);
      ClauseWordsShape(host, cs[0]);
      ClauseWordsSpaced(host, cs[0]);
      assert NoInnerAnd(ws);
      SplitAndSingle(ws);
      assert ClauseTexts(host, cs) == [FormatClause(host, cs[0])];
    } else {
      InnerAndRest(host, cs);
      assert BareAnd(host, cs[0]) || !BareAnd(host, cs[0]);
      SplitsIntoClauses(host, cs[1..]);
      BodyShape(host, cs[1..]);
      SplitsAfterClause(host, cs[0], BodyWords(host, cs[1..]));
    }
  }

  /** An inner AND cuts its own clause off after the operator. */
  lemma {:induction false} InnerAndCuts(host: Host, cs: seq<Clause>) returns (piece: string)
    requires cs != [] && AllGood(host, cs) && InnerAnd(host, cs)
    ensures piece in SplitAnd(Spaced(BodyWords(host, cs)))
    ensures piece != "" && Strip(piece) == piece && ParseClause(host, piece).Err?
  {
    RestIsGood(host, cs);
    InnerAndRest(host, cs);
    var b := BodyWords(host, cs[1..]);
    BodyShape(host, cs[1..]);
    if BareAnd(host, cs[0]) {
      piece := CutAtValue(host, cs[0], b);
    } else {
      piece := InnerAndCuts(host, cs[1..]);
      SplitsAfterClause(host, cs[0], b);
    }
  }

  lemma CutAtValue(host: Host, c: Clause, b: seq<string>) returns (piece: string)
    requires GoodClause(host, c) && BareAnd(host, c) && AllPlain(b) && b != []
    ensures piece in SplitAnd(Spaced(ClauseWords(host, c) + ["AND"] + b))
    ensures piece != "" && Strip(piece) == piece && ParseClause(host, piece).Err?
  {
    ClauseWordsShape(host, c);
    var ws, front := ClauseWords(host, c), [c.field, c.operator];
    piece := Spaced(front);
    SplitAndFirst(front, ws[2], ["AND"] + b);
    assert ws + ["AND"] + b == front + [ws[2]] + (["AND"] + b);
    assert front == [ws[0], ws[1]];
    SpacedStripped(front);
    SpacedHead(front);
    TwoWords(c.field, c.operator, []);
    assert front + [] == front && c.field + " " + c.operator + "" == c.field + " " + c.operator;
    CutComparisonFails(host, c);
  }

  lemma ClauseTextIsStripped(host: Host, c: Clause)
    requires GoodClause(host, c)
    ensures Strip(FormatClause(host, c)) == FormatClause(host, c) && FormatClause(host, c) != ""
  {
    ClauseWordsShape(host, c);
    ClauseWordsSpaced(host, c);
    SpacedStripped(ClauseWords(host, c));
    SpacedHead(ClauseWords(host, c));
  }

  lemma PartsCons(host: Host, part: string, parts: seq<string>, c: Clause, cs: seq<Clause>)
    requires ParseClause(host, part) == Ok(c) && ParseClauses(host, parts) == Ok(cs)
    ensures ParseClauses(host, [part] + parts) == Ok([c] + cs)
  {
    assert ([part] + parts)[1..] == parts;
  }

  lemma TrimmedCons(piece: string, pieces: seq<string>)
    requires Strip(piece) == piece && piece != ""
    ensures Trimmed([piece] + pieces) == [piece] + Trimmed(pieces)
  {
  }

  lemma {:induction false} ClausesParseBack(host: Host, cs: seq<Clause>)
    requires AllGood(host, cs)
    ensures Trimmed(ClauseTexts(host, cs)) == ClauseTexts(host, cs)
            && ParseClauses(host, ClauseTexts(host, cs)) == Ok(cs)
  {
    if cs != [] {
      RestIsGood(host, cs);
      ClausesParseBack(host, cs[1..]);
      ClauseParsesBackFirst(host, cs[0], ClauseTexts(host, cs[1..]), cs[1..]);
      assert [cs[0]] + cs[1..] == cs;
    }
  }

  lemma ClauseParsesBackFirst(host: Host, c: Clause, texts: seq<string>, cs: seq<Clause>)
    requires GoodClause(host, c) && Trimmed(texts) == texts && ParseClauses(host, texts) == Ok(cs)
    ensures Trimmed([FormatClause(host, c)] + texts) == [FormatClause(host, c)] + texts
    ensures ParseClauses(host, [FormatClause(host, c)] + texts) == Ok([c] + cs)
  {
    ClauseParsesBack(host, c);
    ClauseTextIsStripped(host, c);
    PartsCons(host, FormatClause(host, c), texts, c, cs);
    TrimmedCons(FormatClause(host, c), texts);
  }

  lemma {:induction false} TrimmedKeeps(pieces: seq<string>, piece: string)
    requires piece in pieces && Strip(piece) == piece && piece != ""
    ensures piece in Trimmed(pieces)
  {
    if pieces[0] != piece { TrimmedKeeps(pieces[1..], piece); }
  }

  lemma {:induction false} OneBadPart(host: Host, parts: seq<string>, part: string)
    requires part in parts && ParseClause(host, part).Err?
    ensures ParseClauses(host, parts).Err?
  {
    if parts[0] != part { OneBadPart(host, parts[1..], part); }
  }

  // ---- without clauses

  lemma OrderAloneSplits(host: Host, ws: seq<string>)
    requires HostAgrees(host) && |ws| > 2 && AllPlain(ws) && ws[0] == "ORDER" && ws[1] == "BY"
    requires forall k :: 2 <= k < |ws| ==> OrderWord(host, ws[k])
    ensures FindOrder(Spaced(ws)) == None && Trimmed(SplitAnd(Spaced(ws))) == [Spaced(ws)]
  {
    KeywordsFold();
    forall k | 1 <= k < |ws| ensures !OrderAt(ws, k) && Fold(ws[k]) != "AND" { }
    FindOrderNone(ws);
    SplitAndSingle(ws);
    SpacedStripped(ws);
    SpacedHead(ws);
    TrimmedCons(Spaced(ws), []);
    assert [Spaced(ws)] + [] == [Spaced(ws)];
  }

  lemma OrderAloneText(host: Host, order: Order)
    requires HostAgrees(host) && GoodOrder(order)
    ensures var ws := ["ORDER", "BY"] + OrderWords(order);
            Spaced(ws) == "ORDER BY " + Join(OrderEntries(order), ", ") && AllPlain(ws)
  {
    var o := OrderWords(order);
    OrderSpaced(order);
    OrderWordsShape(host, order);
    TwoWords("ORDER", "BY", o);
    assert "ORDER" + " " + "BY" + (" " + Spaced(o)) == "ORDER BY " + Spaced(o);
  }

  lemma OrderAloneFails(host: Host, q: Query)
    requires HostAgrees(host) && GoodQuery(host, q) && q.clauses == []
    ensures Parse(host, Normalized(host, q)).Err?
  {
    var o := OrderWords(q.orderBy);
    var ws := ["ORDER", "BY"] + o;
    var text := Normalized(host, q);
    OrderAloneText(host, q.orderBy);
    OrderWordsShape(host, q.orderBy);
    OrderAloneSplits(host, ws);
    SpacedStripped(ws);
    SpacedHead(ws);
    OrderIsNoClause(host, Join(OrderEntries(q.orderBy), ", "));
    OneBadPart(host, [text], text);
    OnlyBadPart(host, text);
  }

  /** A text that is one part, and no clause, does not parse. */
  lemma OnlyBadPart(host: Host, text: string)
    requires text != "" && Strip(text) == text && FindOrder(text) == None && Trimmed(SplitAnd(text)) == [text]
    requires ParseClauses(host, [text]).Err?
    ensures Parse(host, text).Err?
  {
  }

  lemma OrderIsNoClause(host: Host, rest: string)
    ensures ParseClause(host, "ORDER BY " + rest).Err?
  {
    var text, tail := "ORDER BY " + rest, " BY " + rest;
    assert text == "ORDER" + tail;
    var word := "BY " + rest;
    assert tail == " " + word;
    OneSpaceThen(word);
    FoldedNameRun("ORDER", tail);
    NameRunOf("ORDER", tail);
    assert text[5..] == tail;
    assert Fold(word[..2])[0] == 'B';
    NoOperator(word, OPERATORS);
  }

  lemma {:induction false} NoOperator(s: string, operators: seq<string>)
    requires s != "" && s[0] == 'B' && forall o :: o in operators ==> o in OPERATORS
    ensures TryOperators(s, operators) == None
  {
    if operators != [] {
      assert operators[0] in operators;
      OperatorEnds(operators[0]);
      NoOperator(s, operators[1..]);
    }
  }

  // ---- the round trip

  /** What a caller can check before printing: there is a clause, no clause but the last compares with
      the word AND, and the text is not too long to be read again. */
  ghost predicate PrintsReadably(host: Host, q: Query)
    requires GoodQuery(host, q)
  {
    q.clauses != [] && !InnerAnd(host, q.clauses) && |Normalized(host, q)| <= MAX_LENGTH
  }

  lemma TooLongFails(host: Host, q: Query)
    requires HostAgrees(host) && GoodQuery(host, q) && q.clauses != [] && |Normalized(host, q)| > MAX_LENGTH
    ensures Parse(host, Normalized(host, q)) == Err(TooLong)
  {
    CanonicalWords(host, q);
    var ws := BodyWords(host, q.clauses) + (["ORDER", "BY"] + OrderWords(q.orderBy));
    SpacedStripped(ws);
  }

  lemma ReadableReads(host: Host, q: Query)
    requires HostAgrees(host) && GoodQuery(host, q) && PrintsReadably(host, q)
    ensures Parse(host, Normalized(host, q)) == Ok(Query(Normalized(host, q), q.clauses, q.orderBy))
  {
    CanonicalReads(host, q);
    BodySpaced(host, q.clauses);
    SplitsIntoClauses(host, q.clauses);
    ClausesParseBack(host, q.clauses);
  }

  lemma InnerAndFails(host: Host, q: Query)
    requires HostAgrees(host) && GoodQuery(host, q) && q.clauses != [] && InnerAnd(host, q.clauses)
    requires |Normalized(host, q)| <= MAX_LENGTH
    ensures Parse(host, Normalized(host, q)).Err?
  {
    CanonicalReads(host, q);
    BodySpaced(host, q.clauses);
    var piece := InnerAndCuts(host, q.clauses);
    TrimmedKeeps(SplitAnd(Body(host, q.clauses)), piece);
    OneBadPart(host, Trimmed(SplitAnd(Body(host, q.clauses))), piece);
  }

  /** Reading the canonical text of a well-formed query either gives the same clauses and order, or fails. */
  lemma PrintedQuery(host: Host, q: Query)
    requires HostAgrees(host) && GoodQuery(host, q)
    ensures if PrintsReadably(host, q)
            then Parse(host, Normalized(host, q)) == Ok(Query(Normalized(host, q), q.clauses, q.orderBy))
            else Parse(host, Normalized(host, q)).Err?
  {
    if q.clauses == [] {
      OrderAloneFails(host, q);
    } else if |Normalized(host, q)| > MAX_LENGTH {
      TooLongFails(host, q);
    } else if InnerAnd(host, q.clauses) {
      InnerAndFails(host, q);
    } else {
      ReadableReads(host, q);
    }
  }

  /** The round trip, for every text that parses: the canonical text reads back as the same query if and
      only if the text was not blank, no clause but the last compares with AND, and it fits in 512 characters. */
  lemma RoundTrip(host: Host, jql: string)
    requires HostAgrees(host) && Parse(host, jql).Ok?
    ensures var q := Parse(host, jql).value;
            && GoodQuery(host, q)
            && (PrintsReadably(host, q)
              <==> Parse(host, Normalized(host, q)) == Ok(Query(Normalized(host, q), q.clauses, q.orderBy)))
            && (PrintsReadably(host, q) <==> Parse(host, Normalized(host, q)).Ok?)
            && (q.clauses == [] <==> Strip(jql) == "")
  {
    ParsedIsGood(host, jql);
    PrintedQuery(host, Parse(host, jql).value);
  }

  /** Printing is canonical: once printed, reading and printing again changes nothing. */
  lemma NormalizedIsFixed(host: Host, jql: string)
    requires HostAgrees(host) && Parse(host, jql).Ok? && GoodQuery(host, Parse(host, jql).value)
    requires PrintsReadably(host, Parse(host, jql).value)
    ensures var text := Normalized(host, Parse(host, jql).value);
            && Parse(host, text).Ok? && Printable(Parse(host, text).value)
            && Normalized(host, Parse(host, text).value) == text
  {
    RoundTrip(host, jql);
  }
}
