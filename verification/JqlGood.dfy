/** What every parsed query looks like: known fields, allowed operators, values that print as
    acceptable text and read back as themselves. */
module JqlGood {
  import opened Basics
  import opened Text
  import opened Decimals
  import opened JqlSyntax
  import opened JqlClean

  /** The value prints as value text that is read back, under its field's kind, as the same value. */
  ghost predicate GoodValue(host: Host, v: Value, kind: Kind) {
    var text := FormatValue(host, v);
    ValueChars(text) && Clean(host, text) && Coerce(host, text, kind) == Ok(v)
  }

  predicate IsName(s: string) { s != "" && forall c :: c in s ==> IsNameChar(c) }

  ghost predicate GoodClause(host: Host, c: Clause) {
    && IsName(c.field) && Clean(host, c.field) && CheckedKind(c.field, c.operator).Ok?
    && (c.operator == "IN" || (c.operator in OPERATORS && |c.values| == 1))
    && |c.values| <= MAX_IN_VALUES
    && forall v :: v in c.values ==> GoodValue(host, v, CheckedKind(c.field, c.operator).value)
  }

  /** In particular every comparison has a value, which is what printing needs. */
  ghost predicate AllGood(host: Host, cs: seq<Clause>)
    ensures AllGood(host, cs) ==> forall c :: c in cs && c.operator != "IN" ==> c.values != []
  {
    forall c :: c in cs ==> GoodClause(host, c)
  }

  predicate GoodOrder(order: Order) {
    order != [] && forall e :: e in order ==> e.0 in SORT_FIELDS && (e.1 == "ASC" || e.1 == "DESC")
  }

  ghost predicate GoodQuery(host: Host, q: Query) {
    |q.clauses| <= MAX_CLAUSES && AllGood(host, q.clauses) && GoodOrder(q.orderBy)
  }

  // ---- values

  lemma PlainValue(v: string)
    requires ValueChars(v)
    ensures NoSpaces(v) && Strip(v) == v && Unquote(v) == v
  {
    assert v[0] in v && v[|v| - 1] in v;
    forall c | c in v ensures !IsSpace(c) { assert IsValueChar(c); }
    StripTrimmed(v);
  }

  lemma {:induction false} DigitsAsValue(s: string)
    requires AllDigits(s)
    ensures NoForbiddenStart(s) && forall c :: c in s ==> IsValueChar(c)
  {
    forall i | 0 <= i < |s| ensures s[i] != '-' { assert s[i] in s; }
  }

  lemma IntAsValue(host: Host, n: int)
    ensures ValueChars(IntText(n)) && Clean(host, IntText(n))
  {
    var digits := DigitsOf(if n < 0 then -n else n);
    DigitsAsValue(digits);
    var s := IntText(n);
    forall i | 0 < i < |s| ensures s[i] != '-' {
      if n < 0 { assert s[i] == digits[i - 1] && digits[i - 1] in digits; } else { assert digits[i] in digits; }
    }
    CleanWithoutStart(host, s);
  }

  lemma TimeAsValue(host: Host, s: string)
    requires IsTimeText(s)
    ensures ValueChars(s) && Clean(host, s)
  {
    forall c | c in s ensures IsValueChar(c) && FoldChar(c) !in "ONDSU;/*" { assert TimeChar(c); }
    CleanWithoutStart(host, s);
  }

  lemma FlagAsValue(host: Host, b: bool)
    ensures var s := if b then "true" else "false"; ValueChars(s) && Clean(host, s)
  {
  }

  lemma CoercedIsGood(host: Host, raw: string, kind: Kind)
    requires HostAgrees(host) && Coerce(host, raw, kind).Ok? && Clean(host, raw)
    ensures GoodValue(host, Coerce(host, raw, kind).value, kind)
  {
    CleanStrip(host, raw);
    CleanUnquote(host, Strip(raw));
    ReadValueIsGood(host, raw, Unquote(Strip(raw)), kind);
  }

  /** A value read from acceptable value text is good. */
  lemma ReadValueIsGood(host: Host, raw: string, v: string, kind: Kind)
    requires HostAgrees(host) && v == Unquote(Strip(raw)) && ValueChars(v) && Clean(host, v)
    requires Coerce(host, raw, kind).Ok?
    ensures GoodValue(host, Coerce(host, raw, kind).value, kind)
  {
    match kind
    case EnumKind(_) => PlainValue(v);
    case StringKind => PlainValue(v);
    case IntKind => IntIsGood(host, ParseInt(v).value);
    case TimeKind => TimeIsGood(host, v);
    case BoolKind => FlagIsGood(host, v == "true");
  }

  lemma IntIsGood(host: Host, n: int)
    ensures GoodValue(host, Number(n), IntKind)
  {
    IntAsValue(host, n);
    PlainValue(IntText(n));
    ParsePrintedInt(n);
  }

  lemma TimeIsGood(host: Host, v: string)
    requires HostAgrees(host) && host.readTime(v).Some?
    ensures GoodValue(host, Moment(host.readTime(v).value), TimeKind)
  {
    var text := host.printTime(host.readTime(v).value);
    TimeAsValue(host, text);
    PlainValue(text);
  }

  lemma FlagIsGood(host: Host, b: bool)
    ensures GoodValue(host, Flag(b), BoolKind)
  {
    FlagAsValue(host, b);
    PlainValue(if b then "true" else "false");
  }

  lemma {:induction false} CoercedAreGood(host: Host, raws: seq<string>, kind: Kind)
    requires HostAgrees(host) && CoerceAll(host, raws, kind).Ok? && forall r :: r in raws ==> Clean(host, r)
    ensures forall v :: v in CoerceAll(host, raws, kind).value ==> GoodValue(host, v, kind)
  {
    if raws != [] {
      assert raws[0] in raws && forall r :: r in raws[1..] ==> r in raws;
      CoercedIsGood(host, raws[0], kind);
      CoercedAreGood(host, raws[1..], kind);
    }
  }

  // ---- clauses

  /** A field name, too long or too short to be AND or ORDER. */
  predicate IsFieldName(s: string) { IsName(s) && |s| != 5 && |s| != 3 }

  lemma SpecNames(field: string)
    requires SpecOf(field).Some?
    ensures IsFieldName(field)
  {
    if field in {"status", "status_category", "issue_type", "case_type", "severity", "project", "assignee_ref"} {
      ShortSpecNames(field);
    } else if field in {"entity.kind", "entity.id", "entity.label", "latest_run_id", "source_connector"} {
      DottedSpecNames(field);
    } else {
      OrderedSpecNames(field);
    }
  }

  lemma ShortSpecNames(field: string)
    requires field in {"status", "status_category", "issue_type", "case_type", "severity", "project", "assignee_ref"}
    ensures IsFieldName(field)
  {
  }

  lemma DottedSpecNames(field: string)
    requires field in {"entity.kind", "entity.id", "entity.label", "latest_run_id", "source_connector"}
    ensures IsFieldName(field)
  {
  }

  lemma OrderedSpecNames(field: string)
    requires field in {"dedupe_key", "priority_score", "degraded", "opened_at", "updated_at", "resolved_at"}
    ensures IsFieldName(field)
  {
  }

  lemma BuiltIsGood(host: Host, field: string, operator: string, raws: seq<string>)
    requires HostAgrees(host) && BuildClause(host, field, operator, raws).Ok?
    requires Clean(host, field) && (forall r :: r in raws ==> Clean(host, r))
    requires (operator == "IN" && |raws| <= MAX_IN_VALUES) || (operator in OPERATORS && |raws| == 1)
    ensures GoodClause(host, BuildClause(host, field, operator, raws).value)
  {
    SpecNames(field);
    CoercedAreGood(host, raws, CheckedKind(field, operator).value);
  }

  lemma SpacesThenSuffix(s: string, keyword: string) returns (k: nat)
    requires SpacesThen(s, keyword).Some? && keyword != ""
    ensures 0 < k <= |s| && SpacesThen(s, keyword) == Some(s[k..]) && IsSpace(s[0])
  {
    k := SpaceRun(s) + |keyword|;
    assert StartsWithFold(s[SpaceRun(s)..], keyword);
  }

  lemma ListPosition(text: string) returns (k: nat)
    requires ListText(text).Some?
    ensures NameRun(Fold(text)) < k <= |text| && ListText(text) == Some(text[k..]) && IsSpace(text[NameRun(Fold(text))])
  {
    k := ListWithin(text, NameRun(Fold(text)));
  }

  lemma ListWithin(text: string, n: nat) returns (k: nat)
    requires n <= |text| && SpacesThen(text[n..], "IN").Some?
    ensures var rest := SpacesThen(text[n..], "IN").value;
            n < k <= |text| && text[k..] == rest[SpaceRun(rest)..] && IsSpace(text[n])
  {
    var after := text[n..];
    var j := SpacesThenSuffix(after, "IN");
    var rest := after[j..];
    TailOfTail(text, after, n, j);
    TailOfTail(text, rest, n + j, SpaceRun(rest));
    k := n + j + SpaceRun(rest);
    assert text[n] == after[0];
  }

  lemma TailOfTail(text: string, s: string, m: nat, j: nat)
    requires m <= |text| && s == text[m..] && j <= |s|
    ensures m + j <= |text| && text[m + j..] == s[j..]
  {
  }

  /** The field of an IN clause ends before a space, and its list stands between the parentheses. */
  lemma InClauseShape(text: string) returns (k: nat)
    requires InClause(text).Some?
    ensures var (field, inner) := InClause(text).value;
            && |field| < |text| && text[..|field|] == field && IsSpace(text[|field|])
            && k + 2 <= |text| && text[k] == '(' && text[k + 1..|text| - 1] == inner && text[|text| - 1] == ')'
  {
    k := ListPosition(text);
  }

  /** Text before a separator is acceptable. */
  lemma CleanBefore(host: Host, text: string, n: nat)
    requires HostAgrees(host) && Clean(host, text) && n < |text| && (IsSpace(text[n]) || text[n] in ",()'\"=<>!")
    ensures Clean(host, text[..n])
  {
    SeparatorChars(host, text[n]);
    assert text[0..0 + n] == text[..n];
    CleanPiece(host, text[..n], text, 0);
  }

  /** Text after a separator is acceptable. */
  lemma CleanAfter(host: Host, text: string, k: nat)
    requires HostAgrees(host) && Clean(host, text) && 0 < k <= |text|
             && (IsSpace(text[k - 1]) || text[k - 1] in ",()'\"=<>!")
    ensures Clean(host, text[k..])
  {
    SeparatorChars(host, text[k - 1]);
    assert text[k..k + |text[k..]|] == text[k..];
    CleanPiece(host, text[k..], text, k);
  }

  lemma CleanParenthesised(host: Host, text: string, k: nat)
    requires HostAgrees(host) && Clean(host, text) && k + 2 <= |text| && text[k] == '(' && text[|text| - 1] == ')'
    ensures Clean(host, text[k + 1..|text| - 1])
  {
    SeparatorChars(host, '(');
    SeparatorChars(host, ')');
    var inner := text[k + 1..|text| - 1];
    assert text[k + 1..k + 1 + |inner|] == inner;
    CleanPiece(host, inner, text, k + 1);
  }

  lemma InClauseParts(host: Host, text: string)
    requires HostAgrees(host) && Clean(host, text) && InClause(text).Some?
    ensures Clean(host, InClause(text).value.0) && Clean(host, InClause(text).value.1)
  {
    var k := InClauseShape(text);
    CleanParenthesised(host, text, k);
    CleanBefore(host, text, |InClause(text).value.0|);
  }

  lemma InClauseIsGood(host: Host, text: string)
    requires HostAgrees(host) && Clean(host, text) && InClause(text).Some? && ParseClause(host, text).Ok?
    ensures GoodClause(host, ParseClause(host, text).value)
  {
    InClauseParts(host, text);
    var (field, inner) := InClause(text).value;
    CleanList(host, inner);
    BuiltIsGood(host, field, "IN", Trimmed(SplitOn(inner, ',')));
  }

  lemma CleanList(host: Host, inner: string)
    requires HostAgrees(host) && Clean(host, inner)
    ensures forall r :: r in Trimmed(SplitOn(inner, ',')) ==> Clean(host, r)
  {
    SeparatorChars(host, ',');
    SplitOnPieces(host, inner, ',');
    CleanPieces(host, SplitOn(inner, ','), inner);
    CleanTrimmed(host, SplitOn(inner, ','));
  }

  lemma {:induction false} OperatorTried(s: string, operators: seq<string>)
    requires TryOperators(s, operators).Some?
    ensures var (operator, value) := TryOperators(s, operators).value;
            && operator in operators && operator <= s
            && ValueText(s[|operator|..]) == Some(value)
  {
    if !(operators[0] <= s && ValueText(s[|operators[0]|..]).Some?) { OperatorTried(s, operators[1..]); }
  }

  lemma OperatorEnds(operator: string)
    requires operator in OPERATORS
    ensures operator != "" && operator[0] in "=!<>" && operator[|operator| - 1] in "=<>"
  {
  }

  lemma OperatorPosition(text: string) returns (m: nat)
    ensures NameRun(text) <= m <= |text| && OperatorText(text) == text[m..]
    ensures m > NameRun(text) ==> IsSpace(text[NameRun(text)])
  {
    var n := NameRun(text);
    var rest := text[n..];
    SpaceRunIsMaximal(rest);
    m := n + SpaceRun(rest);
    if m > n { assert text[n] == rest[0]; }
  }

  lemma ValuePosition(s: string, operator: string) returns (k: nat)
    requires operator in OPERATORS && operator <= s && ValueText(s[|operator|..]).Some?
    ensures 0 < k <= |s| && (IsSpace(s[k - 1]) || s[k - 1] in "=<>")
            && ValueText(s[|operator|..]) == Some(Strip(s[k..]))
  {
    OperatorEnds(operator);
    var after := s[|operator|..];
    SpaceRunIsMaximal(after);
    k := |operator| + SpaceRun(after);
    TailOfTail(s, after, |operator|, SpaceRun(after));
    if SpaceRun(after) > 0 {
      assert s[k - 1] == after[SpaceRun(after) - 1];
    } else {
      assert s[k - 1] == operator[k - 1];
    }
  }

  lemma ComparisonOperator(text: string)
    requires Comparison(text).Some?
    ensures var (field, operator, value) := Comparison(text).value;
            && field == text[..NameRun(text)] && operator in OPERATORS && operator <= OperatorText(text)
            && ValueText(OperatorText(text)[|operator|..]) == Some(value)
  {
    OperatorTried(OperatorText(text), OPERATORS);
  }

  /** The field of a comparison ends before a space or its operator. */
  lemma FieldEnds(text: string)
    requires Comparison(text).Some?
    ensures var field := Comparison(text).value.0;
            |field| < |text| && text[..|field|] == field && (IsSpace(text[|field|]) || text[|field|] in "=!<>")
  {
    ComparisonOperator(text);
    var operator := Comparison(text).value.1;
    OperatorEnds(operator);
    var m := OperatorPosition(text);
    assert text[m] == OperatorText(text)[0] == operator[0];
  }

  predicate EndsBeforeValue(c: char) { IsSpace(c) || c in "=<>" }

  lemma ValueInOperatorText(text: string) returns (j: nat)
    requires Comparison(text).Some?
    ensures var s := OperatorText(text);
            && 0 < j <= |s| && EndsBeforeValue(s[j - 1])
            && Comparison(text).value.2 == Strip(s[j..]) && Comparison(text).value.1 in OPERATORS
  {
    ComparisonOperator(text);
    j := ValuePosition(OperatorText(text), Comparison(text).value.1);
  }

  /** A value that starts within a suffix starts within the text. */
  lemma ValueWithin(text: string, s: string, m: nat, j: nat, value: string) returns (k: nat)
    requires m <= |text| && s == text[m..] && 0 < j <= |s| && EndsBeforeValue(s[j - 1]) && value == Strip(s[j..])
    ensures 0 < k <= |text| && EndsBeforeValue(text[k - 1]) && value == Strip(text[k..])
  {
    SuffixOfSuffix(text, s, m, j);
    k := m + j;
  }

  lemma SuffixOfSuffix(text: string, s: string, m: nat, j: nat)
    requires m <= |text| && s == text[m..] && 0 < j <= |s|
    ensures m + j <= |text| && text[m + j..] == s[j..] && text[m + j - 1] == s[j - 1]
  {
  }

  lemma ComparisonParts(host: Host, text: string)
    requires HostAgrees(host) && Clean(host, text) && Comparison(text).Some?
    ensures Clean(host, Comparison(text).value.0) && Clean(host, Comparison(text).value.2)
    ensures Comparison(text).value.1 in OPERATORS
  {
    FieldEnds(text);
    CleanBefore(host, text, |Comparison(text).value.0|);
    ComparisonOperator(text);
    var m := OperatorPosition(text);
    var j := ValueInOperatorText(text);
    var k := ValueWithin(text, OperatorText(text), m, j, Comparison(text).value.2);
    CleanAfter(host, text, k);
    CleanStrip(host, text[k..]);
  }

  lemma ComparisonIsGood(host: Host, text: string)
    requires HostAgrees(host) && Clean(host, text) && InClause(text).None? && ParseClause(host, text).Ok?
    ensures GoodClause(host, ParseClause(host, text).value)
  {
    ComparisonParts(host, text);
    var (field, operator, value) := Comparison(text).value;
    BuiltIsGood(host, field, operator, [value]);
  }

  lemma {:induction false} ParsedClausesAreGood(host: Host, parts: seq<string>)
    requires HostAgrees(host) && ParseClauses(host, parts).Ok? && forall p :: p in parts ==> Clean(host, p)
    ensures forall c :: c in ParseClauses(host, parts).value ==> GoodClause(host, c)
  {
    if parts != [] {
      assert parts[0] in parts && forall p :: p in parts[1..] ==> p in parts;
      if InClause(parts[0]).Some? { InClauseIsGood(host, parts[0]); } else { ComparisonIsGood(host, parts[0]); }
      ParsedClausesAreGood(host, parts[1..]);
    }
  }

  lemma {:induction false} ParsedOrderIsGood(parts: seq<string>)
    requires ParseOrderParts(parts).Ok?
    ensures |ParseOrderParts(parts).value| == |parts|
    ensures parts != [] ==> GoodOrder(ParseOrderParts(parts).value)
  {
    if parts != [] { ParsedOrderIsGood(parts[..|parts| - 1]); }
  }

  // ---- queries

  lemma StripKeepsStart(s: string)
    requires s != "" && !IsSpace(s[0])
    ensures Strip(s) != "" && Strip(s)[0] == s[0]
  {
    assert SpaceRun(s) == 0 && s[0..] == s;
    var n := StripRightKeeps(s);
  }

  lemma {:induction false} StripStarts(s: string)
    ensures Strip(s) != "" ==> !IsSpace(Strip(s)[0])
  {
    SpaceRunIsMaximal(s);
    var t := s[SpaceRun(s)..];
    var n := StripRightKeeps(t);
  }

  lemma SomePartRemains(body: string)
    requires body != "" && !IsSpace(body[0])
    ensures Trimmed(SplitAnd(body)) != []
  {
    assert SpaceRun(body) == 0;
    var pieces := SplitAnd(body);
    assert pieces[0][0] == body[0];
    StripKeepsStart(pieces[0]);
  }

  lemma OrderSplitIsGood(host: Host, raw: string)
    requires HostAgrees(host) && Clean(host, raw) && raw != "" && !IsSpace(raw[0]) && SplitOrderBy(raw).Ok?
    ensures var (body, order) := SplitOrderBy(raw).value;
            Clean(host, body) && body != "" && !IsSpace(body[0]) && GoodOrder(order)
  {
    if FindOrder(raw).Some? {
      var (before, text) := FindOrder(raw).value;
      FindOrderPieces(host, raw);
      CleanPieces(host, [before, text], raw);
      assert before in [before, text];
      CleanStrip(host, before);
      assert SpaceRun(raw) == 0;
      assert before[0] == raw[0];
      StripKeepsStart(before);
      ParsedOrderIsGood(Trimmed(SplitOn(Strip(text), ',')));
    }
  }

  /** Whatever parses is a well-formed query; it has no clauses only for blank text. */
  lemma ParsedIsGood(host: Host, jql: string)
    requires HostAgrees(host) && Parse(host, jql).Ok?
    ensures GoodQuery(host, Parse(host, jql).value)
    ensures Parse(host, jql).value.clauses == [] <==> Strip(jql) == ""
  {
    var raw := Strip(jql);
    if raw != "" {
      StripStarts(jql);
      OrderSplitIsGood(host, raw);
      var (body, order) := SplitOrderBy(raw).value;
      SplitAndPieces(host, body);
      CleanPieces(host, SplitAnd(body), body);
      CleanTrimmed(host, SplitAnd(body));
      SomePartRemains(body);
      ParsedClausesAreGood(host, Trimmed(SplitAnd(body)));
    }
  }
}
