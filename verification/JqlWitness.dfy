/** A query that parses but whose canonical text does not: quoting lets a value be the word AND, and
    printing drops the quotes. */
module JqlWitness {
  import opened Basics
  import opened Text
  import opened JqlSyntax
  import opened JqlWords
  import opened JqlClean
  import opened JqlGood
  import opened JqlPrinted
  import opened JqlParens
  import opened JqlRoundTrip

  lemma ThreeWords(a: string, b: string, c: string)
    ensures Spaced([a, b, c]) == a + " " + b + " " + c
  {
    TwoWords(a, b, [c]);
    assert [a, b] + [c] == [a, b, c];
    assert a + " " + b + (" " + c) == a + " " + b + " " + c;
  }

  lemma {:induction false} WordsHaveNoStrayParen(host: Host, ws: seq<string>)
    requires ws != [] && forall i :: 0 <= i < |ws| ==> IsPlain(ws[i]) && NoParens(ws[i])
    ensures !StrayParen(host, Spaced(ws), false)
  {
    SpacedCons(ws[0], ws[1..]);
    assert [ws[0]] + ws[1..] == ws;
    if |ws| == 1 {
      PassWord(host, ws[0], "", false);
    } else {
      var more := ws[1..];
      WordsHaveNoStrayParen(host, more);
      SpacedHead(more);
      assert more[0] == ws[1];
      SpacedCons(more[0], more[1..]);
      assert [more[0]] + more[1..] == more;
      assert Spaced(more)[0] == more[0][0] && more[0][0] in more[0];
      SpaceThen(Spaced(more));
      PassWord(host, ws[0], " " + Spaced(more), false);
    }
  }

  /** A comparison with the equals sign reads as the value text after it. */
  lemma EqualsReads(host: Host, field: string, raw: string, v: Value)
    requires IsName(field) && IsPlain(raw) && CheckedKind(field, "=").Ok?
             && Coerce(host, raw, CheckedKind(field, "=").value) == Ok(v)
    ensures ParseClause(host, EqualsText(field, raw)) == Ok(Clause(field, "=", [v]))
  {
    EqualsSpelling(field, raw);
    EqualsCompares(field, raw);
    BuildsOne(host, field, raw, v);
  }

  lemma EqualsSpelling(field: string, raw: string)
    ensures EqualsText(field, raw) == field + " " + "=" + (" " + raw)
  {
  }

  lemma EqualsCompares(field: string, raw: string)
    requires IsName(field) && IsPlain(raw)
    ensures var text := field + " " + "=" + (" " + raw);
            InClause(text) == None && Comparison(text) == Some((field, "=", raw))
  {
    ComparisonReads(field, "=", " " + raw);
    EqualsOperator(raw);
  }

  lemma BuildsOne(host: Host, field: string, raw: string, v: Value)
    requires CheckedKind(field, "=").Ok? && Coerce(host, raw, CheckedKind(field, "=").value) == Ok(v)
    ensures BuildClause(host, field, "=", [raw]) == Ok(Clause(field, "=", [v]))
  {
    CoercedCons(host, raw, [], v, [], CheckedKind(field, "=").value);
    assert [raw] + [] == [raw] && [v] + [] == [v];
  }

  lemma EqualsOperator(raw: string)
    requires IsPlain(raw)
    ensures TryOperators("=" + (" " + raw), OPERATORS) == Some(("=", raw))
  {
    var s := "=" + (" " + raw);
    assert s[1..] == " " + raw && raw[0] in raw && raw[|raw| - 1] in raw;
    OneSpaceThen(raw);
    StripTrimmed(raw);
    NoNewline(raw);
    PassedOver(s, OPERATORS, 0);
  }

  lemma NoNewline(w: string)
    requires NoSpaces(w)
    ensures '\n' !in w
  {
  }

  /** A word that is no keyword and that the scanners pass over. */
  ghost predicate Inert(host: Host, w: string) {
    IsPlain(w) && NoParens(w) && Clean(host, w) && Fold(w) != "AND" && Fold(w) != "ORDER"
  }

  /** `field = raw` as words. */
  function EqualsWords(field: string, raw: string): seq<string> { [field, "=", raw] }

  function EqualsText(field: string, raw: string): string { field + " = " + raw }

  lemma EqualsSign(host: Host)
    ensures Inert(host, "=")
  {
  }

  lemma EqualsTextIsWords(field: string, raw: string)
    ensures Spaced(EqualsWords(field, raw)) == EqualsText(field, raw)
  {
    ThreeWords(field, "=", raw);
    assert field + " " + "=" + " " + raw == field + " = " + raw;
  }

  ghost predicate AllInert(host: Host, ws: seq<string>) { forall i :: 0 <= i < |ws| ==> Inert(host, ws[i]) }

  lemma InertPairWords(host: Host, a: seq<string>, b: seq<string>)
    requires AllInert(host, a) && AllInert(host, b) && a != [] && b != []
    ensures var ws := a + ["AND"] + b;
            && ws != [] && AllPlain(ws)
            && forall i :: 0 <= i < |ws| ==> NoParens(ws[i]) && Clean(host, ws[i]) && Fold(ws[i]) != "ORDER"
  {
    KeywordsFold();
    KeywordsClean(host);
    var ws := a + ["AND"] + b;
    assert forall i :: 0 <= i < |ws| ==> ws[i] == if i < |a| then a[i] else if i == |a| then "AND" else b[i - |a| - 1];
  }

  lemma PassesScans(host: Host, ws: seq<string>)
    requires HostAgrees(host) && ws != [] && AllPlain(ws)
    requires forall i :: 0 <= i < |ws| ==> NoParens(ws[i]) && Clean(host, ws[i]) && Fold(ws[i]) != "ORDER"
    ensures var raw := Spaced(ws);
            raw != "" && Strip(raw) == raw && Clean(host, raw) && FindOrder(raw) == None
              && !StrayParen(host, raw, false)
  {
    forall k | 1 <= k < |ws| ensures !OrderAt(ws, k) { }
    FindOrderNone(ws);
    WordsClean(host, ws);
    WordsHaveNoStrayParen(host, ws);
    SpacedStripped(ws);
    SpacedHead(ws);
  }

  lemma InertPairScans(host: Host, a: seq<string>, b: seq<string>)
    requires HostAgrees(host) && AllInert(host, a) && AllInert(host, b) && a != [] && b != []
    ensures var raw := Spaced(a + ["AND"] + b);
            && raw != "" && Strip(raw) == raw && Clean(host, raw) && FindOrder(raw) == None
            && !StrayParen(host, raw, false) && SplitAnd(raw) == [Spaced(a), Spaced(b)]
  {
    InertPairWords(host, a, b);
    PassesScans(host, a + ["AND"] + b);
    InertPairSplits(host, a, b);
  }

  lemma InertPairSplits(host: Host, a: seq<string>, b: seq<string>)
    requires AllInert(host, a) && AllInert(host, b) && a != [] && b != []
    ensures SplitAnd(Spaced(a + ["AND"] + b)) == [Spaced(a), Spaced(b)]
  {
    KeywordsFold();
    SplitAndFirst(a, "AND", b);
    SplitAndSingle(b);
  }

  lemma InertPairParses(host: Host, a: seq<string>, b: seq<string>, c: Clause, d: Clause)
    requires HostAgrees(host) && AllInert(host, a) && AllInert(host, b) && a != [] && b != []
    requires ParseClause(host, Spaced(a)) == Ok(c) && ParseClause(host, Spaced(b)) == Ok(d)
    requires |Spaced(a + ["AND"] + b)| <= MAX_LENGTH
    ensures var raw := Spaced(a + ["AND"] + b); Parse(host, raw) == Ok(Query(raw, [c, d], DEFAULT_SORT))
  {
    InertPairScans(host, a, b);
    var x, y := Spaced(a), Spaced(b);
    assert AllPlain(a) && AllPlain(b);
    SpacedStripped(a);
    SpacedHead(a);
    SpacedStripped(b);
    SpacedHead(b);
    TwoParts(host, x, y, c, d);
  }

  lemma TwoParts(host: Host, x: string, y: string, c: Clause, d: Clause)
    requires Strip(x) == x && x != "" && Strip(y) == y && y != ""
    requires ParseClause(host, x) == Ok(c) && ParseClause(host, y) == Ok(d)
    ensures Trimmed([x, y]) == [x, y] && ParseClauses(host, [x, y]) == Ok([c, d])
  {
    TwoTrimmed(x, y);
    TwoParsed(host, x, y, c, d);
  }

  lemma TwoParsed(host: Host, x: string, y: string, c: Clause, d: Clause)
    requires ParseClause(host, x) == Ok(c) && ParseClause(host, y) == Ok(d)
    ensures ParseClauses(host, [x, y]) == Ok([c, d])
  {
    OneParsed(host, y, d);
    PartsCons(host, x, [y], c, [d]);
    assert [x] + [y] == [x, y] && [c] + [d] == [c, d];
  }

  lemma OneParsed(host: Host, x: string, c: Clause)
    requires ParseClause(host, x) == Ok(c)
    ensures ParseClauses(host, [x]) == Ok([c])
  {
    PartsCons(host, x, [], c, []);
    assert [x] + [] == [x] && [c] + [] == [c];
  }

  lemma TwoTrimmed(x: string, y: string)
    requires Strip(x) == x && x != "" && Strip(y) == y && y != ""
    ensures Trimmed([x, y]) == [x, y]
  {
    TrimmedCons(y, []);
    assert [y] + [] == [y];
    TrimmedCons(x, [y]);
    assert [x] + [y] == [x, y];
  }

  const QUOTED: string := "\"AND\""

  lemma QuotedIsInert(host: Host)
    requires HostAgrees(host)
    ensures Inert(host, QUOTED)
  {
    SeparatorChars(host, '"');
    KeywordsClean(host);
    CleanJoin(host, "", '"', "AND");
    CleanJoin(host, "" + ['"'] + "AND", '"', "");
    assert "" + ['"'] + "AND" + ['"'] + "" == QUOTED;
    assert Fold(QUOTED)[0] == '"';
  }

  lemma WordsAreInert(host: Host)
    ensures Inert(host, "project") && Inert(host, "status") && Inert(host, "open")
  {
    assert |Fold("project")| == 7 && Fold("status")[1] == 'T' && Fold("open")[1] == 'P';
    CleanWord(host, "project");
    CleanWord(host, "status");
    CleanWord(host, "open");
  }

  lemma ValuesCoerce(host: Host)
    ensures Coerce(host, QUOTED, StringKind) == Ok(Value.Text("AND"))
    ensures Coerce(host, "open", EnumKind(STATUSES)) == Ok(Value.Text("open"))
  {
    StripTrimmed(QUOTED);
    StripTrimmed("open");
    assert QUOTED[1..|QUOTED| - 1] == "AND";
  }

  lemma FieldsAllowEquals()
    ensures IsName("project") && CheckedKind("project", "=") == Ok(StringKind)
    ensures IsName("status") && CheckedKind("status", "=") == Ok(EnumKind(STATUSES))
  {
  }

  lemma WitnessWords(host: Host)
    requires HostAgrees(host)
    ensures AllInert(host, EqualsWords("project", QUOTED)) && AllInert(host, EqualsWords("status", "open"))
  {
    EqualsSign(host);
    QuotedIsInert(host);
    WordsAreInert(host);
  }

  lemma ProjectClause(host: Host)
    requires HostAgrees(host)
    ensures ParseClause(host, EqualsText("project", QUOTED)) == Ok(Clause("project", "=", [Value.Text("AND")]))
  {
    QuotedIsInert(host);
    ValuesCoerce(host);
    FieldsAllowEquals();
    EqualsReads(host, "project", QUOTED, Value.Text("AND"));
  }

  lemma StatusClause(host: Host)
    ensures ParseClause(host, EqualsText("status", "open")) == Ok(Clause("status", "=", [Value.Text("open")]))
  {
    WordsAreInert(host);
    ValuesCoerce(host);
    FieldsAllowEquals();
    EqualsReads(host, "status", "open", Value.Text("open"));
  }

  /** `project = "AND" AND status = open` */
  function QuotedAnd(): string { EqualsText("project", QUOTED) + " AND " + EqualsText("status", "open") }

  /** It parses; its canonical text, where the value is a bare AND, does not. */
  lemma QuotedAndDoesNotRoundTrip(host: Host)
    requires HostAgrees(host)
    ensures Parse(host, QuotedAnd()).Ok? && GoodQuery(host, Parse(host, QuotedAnd()).value)
    ensures Parse(host, Normalized(host, Parse(host, QuotedAnd()).value)).Err?
  {
    var a, b := EqualsWords("project", QUOTED), EqualsWords("status", "open");
    var c, d := Clause("project", "=", [Value.Text("AND")]), Clause("status", "=", [Value.Text("open")]);
    WitnessWords(host);
    ProjectClause(host);
    StatusClause(host);
    QuotedAndWords();
    InertPairParses(host, a, b, c, d);
    RoundTrip(host, QuotedAnd());
    KeywordsFold();
    assert BareAnd(host, [c, d][0]);
    assert InnerAnd(host, [c, d]);
  }

  lemma QuotedAndWords()
    ensures var a, b := EqualsWords("project", QUOTED), EqualsWords("status", "open");
            Spaced(a + ["AND"] + b) == QuotedAnd() && Spaced(a) == EqualsText("project", QUOTED)
            && Spaced(b) == EqualsText("status", "open") && |QuotedAnd()| <= MAX_LENGTH
  {
    var a, b := EqualsWords("project", QUOTED), EqualsWords("status", "open");
    EqualsTextIsWords("project", QUOTED);
    EqualsTextIsWords("status", "open");
    AndWords(a, b);
    var x, y := Spaced(a), Spaced(b);
    assert x + " AND" + (" " + y) == x + " AND " + y;
  }
}
