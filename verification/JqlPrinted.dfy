/** The canonical text of a well-formed query as a list of words, and how the parser takes each
    part of it apart again. */
module JqlPrinted {
  import opened Basics
  import opened Text
  import opened JqlSyntax
  import opened JqlWords
  import opened JqlClean
  import opened JqlGood

  // ---- lists in parentheses and order entries

  /** Text with no comma, parenthesis or whitespace. */
  predicate IsItem(s: string) { s != "" && NoSpaces(s) && ',' !in s && '(' !in s && ')' !in s }

  lemma ValueIsItem(s: string)
    requires ValueChars(s)
    ensures IsItem(s)
  {
  }

  lemma TrimmedLeadingSpace(head: string, rest: seq<string>)
    ensures Trimmed([" " + head] + rest) == Trimmed([head] + rest)
  {
  }

  /** Text of words separated by single spaces, without commas. */
  predicate IsEntry(s: string) { s != "" && ',' !in s && !IsSpace(s[0]) && !IsSpace(s[|s| - 1]) }

  lemma TrimmedHead(t: string, rest: seq<string>)
    requires IsEntry(t)
    ensures Trimmed([t] + rest) == [t] + Trimmed(rest)
  {
  }

  /** Splitting a comma-joined list of entries gives the entries back. */
  lemma {:induction false} SplitJoined(ts: seq<string>)
    requires forall i :: 0 <= i < |ts| ==> IsEntry(ts[i])
    ensures Trimmed(SplitOn(Join(ts, ", "), ',')) == ts
  {
    if ts == [] {
      assert SplitOn("", ',') == [""];
      assert Strip("") == "";
      assert [""][1..] == [];
    } else if |ts| == 1 {
      var t := ts[0];
      SplitOnSkips(t, "", ',');
      assert t + "" == t;
      TrimmedHead(t, []);
      assert [t] + [] == [t] == ts;
    } else {
      var t, rest := ts[0], ts[1..];
      SplitJoined(rest);
      SplitAtComma(t, Join(rest, ", "));
      TrimmedAfterSpace(Join(rest, ", "));
      TrimmedHead(t, SplitOn(" " + Join(rest, ", "), ','));
      assert ts == [t] + rest;
    }
  }

  lemma SplitAtComma(t: string, j: string)
    requires ',' !in t
    ensures SplitOn(t + ", " + j, ',') == [t] + SplitOn(" " + j, ',')
  {
    var s := "," + (" " + j);
    assert t + ", " + j == t + s;
    SplitOnSkips(t, s, ',');
    assert s[1..] == " " + j;
    assert t + "" == t;
  }

  lemma TrimmedAfterSpace(j: string)
    ensures Trimmed(SplitOn(" " + j, ',')) == Trimmed(SplitOn(j, ','))
  {
    SplitOnSkips(" ", j, ',');
    var pieces := SplitOn(j, ',');
    TrimmedLeadingSpace(pieces[0], pieces[1..]);
    assert [pieces[0]] + pieces[1..] == pieces;
  }

  // ---- clauses as words

  /** `v1,` ... `vn)`. */
  function ListWords(ts: seq<string>): seq<string>
    requires ts != []
  {
    if |ts| == 1 then [ts[0] + ")"] else [ts[0] + ","] + ListWords(ts[1..])
  }

  function InWords(ts: seq<string>): seq<string> {
    if ts == [] then ["()"] else
      var ws := ListWords(ts);
      ["(" + ws[0]] + ws[1..]
  }

  lemma {:induction false} ListWordsSpaced(ts: seq<string>)
    requires ts != []
    ensures ListWords(ts) != [] && Spaced(ListWords(ts)) == Join(ts, ", ") + ")"
  {
    if |ts| > 1 {
      var rest := ts[1..];
      ListWordsSpaced(rest);
      SpacedCons(ts[0] + ",", ListWords(rest));
      var j := Join(rest, ", ");
      assert (ts[0] + ",") + (" " + (j + ")")) == (ts[0] + ", " + j) + ")";
    }
  }

  lemma InWordsSpaced(ts: seq<string>)
    ensures Spaced(InWords(ts)) == "(" + Join(ts, ", ") + ")"
  {
    if ts != [] {
      var ws := ListWords(ts);
      ListWordsSpaced(ts);
      SpacedCons("(" + ws[0], ws[1..]);
      SpacedCons(ws[0], ws[1..]);
      assert [ws[0]] + ws[1..] == ws;
      OpenText(ws[0], Tail(ws[1..]));
      OpenText(Join(ts, ", "), ")");
    }
  }

  lemma OpenText(s: string, t: string)
    ensures ("(" + s) + t == "(" + (s + t)
  {
  }

  function ClauseWords(host: Host, c: Clause): seq<string>
    requires c.operator != "IN" ==> c.values != []
  {
    if c.operator == "IN" then [c.field, "IN"] + InWords(FormatValues(host, c.values))
    else [c.field, c.operator, FormatValue(host, c.values[0])]
  }

  lemma ClauseWordsSpaced(host: Host, c: Clause)
    requires c.operator != "IN" ==> c.values != []
    ensures Spaced(ClauseWords(host, c)) == FormatClause(host, c)
  {
    if c.operator == "IN" {
      var ts := FormatValues(host, c.values);
      InWordsSpaced(ts);
      var ws := InWords(ts);
      SpacedCons(c.field, ["IN"] + ws);
      SpacedCons("IN", ws);
      assert ClauseWords(host, c) == [c.field] + (["IN"] + ws);
      var j := Join(ts, ", ");
      assert c.field + (" " + ("IN" + (" " + ("(" + j + ")")))) == c.field + " IN (" + j + ")";
    } else {
      var v := FormatValue(host, c.values[0]);
      SpacedCons(c.field, [c.operator, v]);
      SpacedCons(c.operator, [v]);
      assert ClauseWords(host, c) == [c.field] + [c.operator, v] && [c.operator, v] == [c.operator] + [v];
      assert c.field + (" " + (c.operator + (" " + v))) == c.field + " " + c.operator + " " + v;
    }
  }

  // ---- words of good clauses

  lemma {:induction false} ListWordsPlain(ts: seq<string>)
    requires ts != [] && forall i :: 0 <= i < |ts| ==> IsItem(ts[i])
    ensures AllPlain(ListWords(ts)) && ListWords(ts) != []
    ensures forall i :: 0 <= i < |ListWords(ts)| ==> ListWords(ts)[i][|ListWords(ts)[i]| - 1] in ",)"
  {
    var w := ListWords(ts)[0];
    assert forall c :: c in w ==> c in ts[0] || c == ',' || c == ')';
    if |ts| > 1 {
      ListWordsPlain(ts[1..]);
      assert ListWords(ts) == [w] + ListWords(ts[1..]);
    }
  }

  /** The words of a list end in punctuation. */
  lemma InWordsPlain(ts: seq<string>)
    requires forall i :: 0 <= i < |ts| ==> IsItem(ts[i])
    ensures AllPlain(InWords(ts)) && InWords(ts) != []
    ensures forall i :: 0 <= i < |InWords(ts)| ==> InWords(ts)[i][|InWords(ts)[i]| - 1] in ",)"
  {
    if ts != [] {
      ListWordsPlain(ts);
      OpenedFirst(ListWords(ts));
    }
  }

  lemma OpenedFirst(ws: seq<string>)
    requires ws != [] && AllPlain(ws) && forall i :: 0 <= i < |ws| ==> ws[i][|ws[i]| - 1] in ",)"
    ensures var r := ["(" + ws[0]] + ws[1..];
            AllPlain(r) && forall i :: 0 <= i < |r| ==> r[i][|r[i]| - 1] in ",)"
  {
  }

  lemma PunctuatedIsNoKeyword(w: string, keyword: string)
    requires w != "" && w[|w| - 1] in ",)" && keyword in {"AND", "ORDER", "BY"}
    ensures Fold(w) != keyword
  {
  }

  lemma NameIsPlain(s: string)
    requires IsName(s)
    ensures IsPlain(s)
  {
  }

  lemma GoodTexts(host: Host, c: Clause)
    requires GoodClause(host, c)
    ensures forall i :: 0 <= i < |c.values| ==>
              IsItem(FormatValues(host, c.values)[i]) && Clean(host, FormatValues(host, c.values)[i])
  {
    forall i | 0 <= i < |c.values|
      ensures IsItem(FormatValues(host, c.values)[i]) && Clean(host, FormatValues(host, c.values)[i])
    {
      assert c.values[i] in c.values;
      ValueIsItem(FormatValue(host, c.values[i]));
    }
  }

  lemma OperatorIsPlain(operator: string)
    requires operator in OPERATORS
    ensures IsPlain(operator) && operator != "IN" && Fold(operator) !in {"AND", "ORDER", "BY", "IN"}
  {
  }

  /** A comparison's value is the word AND, ignoring case. */
  ghost predicate BareAnd(host: Host, c: Clause)
    requires c.operator != "IN" ==> c.values != []
  {
    c.operator != "IN" && Fold(FormatValue(host, c.values[0])) == "AND"
  }

  lemma FieldIsNoKeyword(host: Host, c: Clause)
    requires GoodClause(host, c)
    ensures Fold(c.field) !in {"AND", "ORDER"}
  {
  }

  /** In the words of a clause only a comparison's value can be a keyword. */
  lemma ClauseWordsShape(host: Host, c: Clause)
    requires GoodClause(host, c)
    ensures var ws := ClauseWords(host, c);
            && |ws| >= 3 && AllPlain(ws)
            && (forall k :: 0 <= k < |ws| && !(c.operator != "IN" && k == 2) ==> Fold(ws[k]) !in {"AND", "ORDER"})
            && (c.operator != "IN" ==> |ws| == 3 && (Fold(ws[2]) == "AND" <==> BareAnd(host, c)))
  {
    FieldIsNoKeyword(host, c);
    NameIsPlain(c.field);
    GoodTexts(host, c);
    if c.operator == "IN" {
      var ts := FormatValues(host, c.values);
      InWordsPlain(ts);
      var list := InWords(ts);
      var ws := ClauseWords(host, c);
      forall k | 2 <= k < |ws| ensures Fold(ws[k]) !in {"AND", "ORDER"} && IsPlain(ws[k]) {
        assert ws[k] == list[k - 2];
        PunctuatedIsNoKeyword(ws[k], "AND");
        PunctuatedIsNoKeyword(ws[k], "ORDER");
      }
      assert |Fold("IN")| == 2;
    } else {
      OperatorIsPlain(c.operator);
      assert FormatValues(host, c.values)[0] == FormatValue(host, c.values[0]);
    }
  }

  // ---- reading one clause back

  lemma {:induction false} NameRunOf(name: string, rest: string)
    requires IsName(name) && (rest == "" || !IsNameChar(rest[0]))
    ensures NameRun(name + rest) == |name|
  {
    assert name[0] in name && (name + rest)[1..] == name[1..] + rest;
    if |name| > 1 {
      assert forall c :: c in name[1..] ==> c in name;
      NameRunOf(name[1..], rest);
    } else {
      assert name[1..] + rest == rest;
      if rest != "" { assert NameRun(rest) == 0; }
    }
  }

  lemma FoldedNameRun(name: string, rest: string)
    requires IsName(name) && rest != "" && rest[0] == ' '
    ensures NameRun(Fold(name + rest)) == |name|
  {
    forall c | c in Fold(name) ensures IsNameChar(c) {
      var i :| 0 <= i < |name| && Fold(name)[i] == c;
      assert name[i] in name;
    }
    NameRunOf(Fold(name), Fold(rest));
    FoldConcat(name, rest);
  }

  lemma {:induction false} CoercedValues(host: Host, vs: seq<Value>, kind: Kind)
    requires forall v :: v in vs ==> GoodValue(host, v, kind)
    ensures CoerceAll(host, FormatValues(host, vs), kind) == Ok(vs)
  {
    if vs != [] {
      assert vs[0] in vs && forall w :: w in vs[1..] ==> w in vs;
      CoercedValues(host, vs[1..], kind);
      CoercedFirst(host, vs[0], vs[1..], kind);
      HeadAndRest(vs);
    }
  }

  lemma HeadAndRest(vs: seq<Value>)
    requires vs != []
    ensures [vs[0]] + vs[1..] == vs
  {
  }

  lemma CoercedFirst(host: Host, v: Value, rest: seq<Value>, kind: Kind)
    requires GoodValue(host, v, kind) && CoerceAll(host, FormatValues(host, rest), kind) == Ok(rest)
    ensures CoerceAll(host, FormatValues(host, [v] + rest), kind) == Ok([v] + rest)
  {
    FormattedCons(host, v, rest);
    CoercedCons(host, FormatValue(host, v), FormatValues(host, rest), v, rest, kind);
  }

  lemma FormattedCons(host: Host, v: Value, vs: seq<Value>)
    ensures FormatValues(host, [v] + vs) == [FormatValue(host, v)] + FormatValues(host, vs)
  {
  }

  lemma CoercedCons(host: Host, raw: string, raws: seq<string>, v: Value, vs: seq<Value>, kind: Kind)
    requires Coerce(host, raw, kind) == Ok(v) && CoerceAll(host, raws, kind) == Ok(vs)
    ensures CoerceAll(host, [raw] + raws, kind) == Ok([v] + vs)
  {
  }

  lemma BuildsBack(host: Host, c: Clause)
    requires GoodClause(host, c)
    ensures BuildClause(host, c.field, c.operator, FormatValues(host, c.values)) == Ok(c)
  {
    CoercedValues(host, c.values, CheckedKind(c.field, c.operator).value);
  }

  lemma {:induction false} JoinHas(ts: seq<string>, c: char)
    requires forall i :: 0 <= i < |ts| ==> c !in ts[i]
    requires c != ',' && c != ' '
    ensures c !in Join(ts, ", ")
  {
    if |ts| > 1 { JoinHas(ts[1..], c); }
  }

  lemma InListText(field: string, list: string)
    requires IsName(field) && list != "" && list[0] == '('
    ensures NameRun(Fold(field + (" IN " + list))) == |field|
    ensures ListText(field + (" IN " + list)) == Some(list)
  {
    FoldedNameRun(field, " IN " + list);
    NameBefore(field, " IN " + list);
    ListAfter(list);
  }

  lemma NameBefore(field: string, rest: string)
    ensures (field + rest)[..|field|] == field && (field + rest)[|field|..] == rest
  {
  }

  lemma ListAfter(list: string)
    requires list != "" && list[0] == '('
    ensures SpacesThen(" IN " + list, "IN") == Some(" " + list) && (" " + list)[SpaceRun(" " + list)..] == list
  {
    var s := "IN " + list;
    assert " IN " + list == " " + s;
    OneSpaceThen(s);
    OneSpaceThen(list);
    assert s[..2] == "IN" && Fold("IN") == "IN";
    assert (" " + s)[3..] == " " + list;
  }

  lemma InClauseReads(field: string, inner: string)
    requires IsName(field) && ')' !in inner
    ensures InClause(field + (" IN " + ("(" + inner + ")"))) == Some((field, inner))
  {
    var list := "(" + inner + ")";
    InListText(field, list);
    NameBefore(field, " IN " + list);
    ListReads(field + (" IN " + list), field, inner);
  }

  lemma ListSpelling(field: string, inner: string)
    ensures field + " IN (" + inner + ")" == field + (" IN " + ("(" + inner + ")"))
  {
  }

  lemma ListReads(text: string, field: string, inner: string)
    requires field != "" && NameRun(Fold(text)) == |field| <= |text| && text[..|field|] == field
    requires ListText(text) == Some("(" + inner + ")") && ')' !in inner
    ensures InClause(text) == Some((field, inner))
  {
  }

  lemma InClauseParsesBack(host: Host, c: Clause)
    requires GoodClause(host, c) && c.operator == "IN"
    ensures ParseClause(host, FormatClause(host, c)) == Ok(c)
  {
    var ts := FormatValues(host, c.values);
    GoodTexts(host, c);
    JoinHas(ts, ')');
    InClauseReads(c.field, Join(ts, ", "));
    ListSpelling(c.field, Join(ts, ", "));
    SplitJoined(ts);
    BuildsBack(host, c);
  }

  lemma NotInClause(field: string, operator: string, value: string)
    requires IsName(field) && operator in OPERATORS
    ensures InClause(field + " " + operator + value) == None
  {
    var rest := " " + operator + value;
    var text := field + rest;
    assert field + " " + operator + value == text;
    FoldedNameRun(field, rest);
    assert text[|field|..] == rest;
    NoListAfter(operator, value);
  }

  lemma NoListAfter(operator: string, value: string)
    requires operator in OPERATORS
    ensures SpacesThen(" " + operator + value, "IN") == None
  {
    OperatorEnds(operator);
    var s := operator + value;
    assert " " + operator + value == " " + s && s[0] == operator[0];
    OneSpaceThen(s);
    if |s| >= 2 { assert Fold(s[..2])[0] == operator[0]; }
  }

  lemma OperatorTextOf(field: string, operator: string, value: string)
    requires IsName(field) && operator in OPERATORS
    ensures NameRun(field + " " + operator + value) == |field|
    ensures OperatorText(field + " " + operator + value) == operator + value
  {
    OperatorEnds(operator);
    var rest := " " + operator + value;
    var text := field + rest;
    assert field + " " + operator + value == text;
    NameRunOf(field, rest);
    assert text[|field|..] == rest;
    OneSpaceThen(operator + value);
    assert rest == " " + (operator + value);
  }

  lemma OneSpaceThen(s: string)
    requires s != "" && !IsSpace(s[0])
    ensures SpaceRun(" " + s) == 1 && (" " + s)[1..] == s
  {
  }

  lemma ValueTextOf(v: string)
    requires ValueChars(v)
    ensures ValueText(" " + v) == Some(v)
  {
    PlainValue(v);
    assert (" " + v)[1..] == v && v[0] in v;
    assert SpaceRun(v) == 0;
    assert v[0..] == v;
  }

  /** The operator that was printed is the first that matches. */
  lemma OperatorReads(operator: string, v: string)
    requires operator in OPERATORS && ValueChars(v)
    ensures TryOperators(operator + " " + v, OPERATORS) == Some((operator, v))
  {
    var s := operator + " " + v;
    ValueTextOf(v);
    AfterOperator(operator, v);
    TryFromHead(s, operator, v);
  }

  lemma AfterOperator(operator: string, v: string)
    ensures var s := operator + " " + v;
            operator <= s && |operator| < |s| && s[|operator|] == ' ' && s[|operator|..] == " " + v
  {
  }

  /** Operators that do not stand at the start are passed over. */
  lemma {:induction false} PassedOver(s: string, operators: seq<string>, k: nat)
    requires k < |operators| && operators[k] <= s && ValueText(s[|operators[k]|..]).Some?
    requires forall i :: 0 <= i < k ==> !(operators[i] <= s)
    ensures TryOperators(s, operators) == Some((operators[k], ValueText(s[|operators[k]|..]).value))
  {
    if k > 0 { PassedOver(s, operators[1..], k - 1); }
  }

  lemma TryFromHead(s: string, operator: string, v: string)
    requires operator in OPERATORS && operator <= s && |operator| < |s| && s[|operator|] == ' '
    requires ValueText(s[|operator|..]) == Some(v)
    ensures TryOperators(s, OPERATORS) == Some((operator, v))
  {
    var k :| 0 <= k < |OPERATORS| && OPERATORS[k] == operator;
    forall i | 0 <= i < k ensures !(OPERATORS[i] <= s) { OperatorsDiffer(s, i, k); }
    PassedOver(s, OPERATORS, k);
  }

  lemma OperatorsDiffer(s: string, i: nat, k: nat)
    requires i < k < |OPERATORS| && OPERATORS[k] <= s && |OPERATORS[k]| < |s| && s[|OPERATORS[k]|] == ' '
    ensures !(OPERATORS[i] <= s)
  {
    var o, printed := OPERATORS[i], OPERATORS[k];
    assert o[0] != printed[0] || (|o| == 2 && |printed| == 1);
    assert s[0] == printed[0];
    assert |o| == 2 ==> o[1] == '=';
  }

  /** `field operator rest` is read as a comparison exactly as its operator text is. */
  lemma ComparisonReads(field: string, operator: string, rest: string)
    requires IsName(field) && operator in OPERATORS
    ensures InClause(field + " " + operator + rest) == None
    ensures Comparison(field + " " + operator + rest)
            == match TryOperators(operator + rest, OPERATORS)
               case None => None
               case Some((op, v)) => Some((field, op, v))
  {
    NotInClause(field, operator, rest);
    OperatorTextOf(field, operator, rest);
    assert (field + " " + operator + rest)[..|field|] == field;
  }

  lemma ComparisonSpelling(field: string, operator: string, v: string)
    ensures field + " " + operator + " " + v == field + " " + operator + (" " + v)
    ensures operator + (" " + v) == operator + " " + v
  {
  }

  lemma ComparisonParsesBack(host: Host, c: Clause)
    requires GoodClause(host, c) && c.operator != "IN"
    ensures ParseClause(host, FormatClause(host, c)) == Ok(c)
  {
    var v := FormatValue(host, c.values[0]);
    assert c.values[0] in c.values;
    ComparisonSpelling(c.field, c.operator, v);
    ComparisonReads(c.field, c.operator, " " + v);
    OperatorReads(c.operator, v);
    BuildsBack(host, c);
    assert FormatValues(host, c.values) == [v];
  }

  lemma ClauseParsesBack(host: Host, c: Clause)
    requires GoodClause(host, c)
    ensures ParseClause(host, FormatClause(host, c)) == Ok(c)
  {
    if c.operator == "IN" { InClauseParsesBack(host, c); } else { ComparisonParsesBack(host, c); }
  }

  /** A comparison cut off after its operator does not parse. */
  lemma CutComparisonFails(host: Host, c: Clause)
    requires GoodClause(host, c) && c.operator != "IN"
    ensures ParseClause(host, c.field + " " + c.operator).Err?
  {
    assert c.field + " " + c.operator + "" == c.field + " " + c.operator;
    ComparisonReads(c.field, c.operator, "");
    assert c.operator + "" == c.operator;
    CutOperator(c.operator, OPERATORS);
    match TryOperators(c.operator, OPERATORS)
    case None =>
    case Some((operator, value)) => BuildEqualsFails(host, c.field, operator);
  }

  lemma BuildEqualsFails(host: Host, field: string, operator: string)
    ensures BuildClause(host, field, operator, ["="]).Err?
  {
    StripTrimmed("=");
    assert '=' in "=" && Unquote("=") == "=";
    assert CheckedKind(field, operator).Ok? ==> Coerce(host, "=", CheckedKind(field, operator).value).Err?;
  }

  /** The most that can be read from an operator alone is an equals sign as the value. */
  lemma {:induction false} CutOperator(operator: string, operators: seq<string>)
    requires operator in OPERATORS && forall o :: o in operators ==> o in OPERATORS
    ensures match TryOperators(operator, operators)
            case None => true
            case Some((_, value)) => value == "="
  {
    if operators != [] {
      var o := operators[0];
      assert o in operators;
      if o <= operator { CutValue(operator, o); }
      CutOperator(operator, operators[1..]);
    }
  }

  lemma CutValue(operator: string, o: string)
    requires operator in OPERATORS && o in OPERATORS && o <= operator
    ensures ValueText(operator[|o|..]) == None || ValueText(operator[|o|..]) == Some("=")
  {
    StripTrimmed("=");
    if |o| < |operator| {
      assert |o| == 1 && |operator| == 2 && operator[1] == '=';
      assert operator[1..] == "=";
    } else {
      assert operator[|o|..] == "";
    }
  }
}
