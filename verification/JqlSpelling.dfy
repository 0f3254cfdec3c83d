/** Which spellings are read and which are refused: whitespace, quotes and letter case around a clause, the fields
    with their operators and values, and the limits. */
module JqlSpelling {
  import opened Basics
  import opened Text
  import opened JqlSyntax
  import opened JqlWords
  import opened JqlGood
  import opened JqlPrinted
  import opened JqlJoined

  // ---- values

  predicate IsQuote(q: string) { q == "" || q == "\"" || q == "'" }

  function Quoted(q: string, v: string): string { q + v + q }

  lemma QuotedChars(q: string, v: string)
    requires IsQuote(q) && ValueChars(v)
    ensures var t := Quoted(q, v); t != "" && NoSpaces(t) && ',' !in t && ')' !in t && '\n' !in t && '=' !in t
  {
    assert v[0] in v;
    forall c | c in Quoted(q, v) ensures !IsSpace(c) && c != ',' && c != ')' && c != '\n' && c != '=' {
      assert c in v || c == '"' || c == '\'';
    }
  }

  lemma QuotedText(q: string, v: string)
    requires IsQuote(q) && ValueChars(v)
    ensures Strip(Quoted(q, v)) == Quoted(q, v) && Unquote(Quoted(q, v)) == v
  {
    var t := Quoted(q, v);
    QuotedChars(q, v);
    assert t[0] in t && t[|t| - 1] in t;
    StripTrimmed(t);
    if q == "" {
      assert t == v;
      PlainValue(v);
    } else {
      assert t[1..|t| - 1] == v && t[0] == q[0] && t[|t| - 1] == q[0];
    }
  }

  lemma QuotesMeanNothing(host: Host, q: string, v: string, kind: Kind)
    requires IsQuote(q) && ValueChars(v)
    ensures Coerce(host, Quoted(q, v), kind) == Coerce(host, v, kind)
  {
    QuotedText(q, v);
    PlainValue(v);
  }

  // ---- comparisons

  lemma SpelledName(field: string, rest: string)
    requires IsName(field) && rest != "" && !IsNameChar(rest[0]) && !IsNameChar(FoldChar(rest[0]))
    ensures NameRun(field + rest) == |field| && NameRun(Fold(field + rest)) == |field|
    ensures (field + rest)[..|field|] == field && (field + rest)[|field|..] == rest
  {
    NameRunOf(field, rest);
    forall c | c in Fold(field) ensures IsNameChar(c) {
      var i :| 0 <= i < |field| && Fold(field)[i] == c;
      assert field[i] in field;
    }
    NameRunOf(Fold(field), Fold(rest));
    FoldConcat(field, rest);
  }

  lemma OperatorStarts(operator: string)
    requires operator in OPERATORS
    ensures operator != "" && !IsNameChar(operator[0]) && FoldChar(operator[0]) == operator[0] && operator[0] != 'I'
    ensures !IsSpace(operator[0])
  {
  }

  lemma OperatorFirst(operator: string, rest: string)
    requires operator in OPERATORS && rest != "" && rest[0] != '=' && ValueText(rest).Some?
    ensures TryOperators(operator + rest, OPERATORS) == Some((operator, ValueText(rest).value))
  {
    var s := operator + rest;
    assert s[|operator|..] == rest && s[|operator|] == rest[0];
    var k :| 0 <= k < |OPERATORS| && OPERATORS[k] == operator;
    forall i | 0 <= i < k ensures !(OPERATORS[i] <= s) { NotThatOperator(s, i, k); }
    PassedOver(s, OPERATORS, k);
  }

  lemma NotThatOperator(s: string, i: nat, k: nat)
    requires i < k < |OPERATORS| && OPERATORS[k] <= s && |OPERATORS[k]| < |s| && s[|OPERATORS[k]|] != '='
    ensures !(OPERATORS[i] <= s)
  {
    var o, printed := OPERATORS[i], OPERATORS[k];
    assert o[0] != printed[0] || (|o| == 2 && |printed| == 1);
    assert s[0] == printed[0];
    assert |o| == 2 ==> o[1] == '=';
  }

  lemma SpelledValue(w: string, t: string)
    requires IsOnlySpace(w) && t != "" && !IsSpace(t[0]) && Strip(t) == t && '\n' !in t
    ensures ValueText(w + t) == Some(t)
  {
    RunThenRest(w, t);
  }

  /** The operator and value of a comparison, however they are spaced. */
  lemma SpelledComparison(field: string, before: string, operator: string, after: string, t: string)
    requires IsName(field) && IsOnlySpace(before) && operator in OPERATORS && IsOnlySpace(after)
    requires t != "" && !IsSpace(t[0]) && t[0] != '=' && Strip(t) == t && '\n' !in t
    ensures var text := field + (before + (operator + (after + t)));
            InClause(text) == None && Comparison(text) == Some((field, operator, t))
  {
    var rest := operator + (after + t);
    var text := field + (before + rest);
    OperatorStarts(operator);
    assert rest[0] == operator[0];
    RunThenRest(before, rest);
    if before != "" { assert before[0] in before; SpaceIsNoName(before[0]); }
    assert (before + rest)[0] == if before != "" then before[0] else operator[0];
    SpelledName(field, before + rest);
    SpelledValue(after, t);
    assert (after + t)[0] == if after != "" then after[0] else t[0];
    if after != "" { assert after[0] in after; }
    OperatorFirst(operator, after + t);
    NoInHere(before, rest);
  }

  lemma NoInHere(before: string, rest: string)
    requires IsOnlySpace(before) && rest != "" && !IsSpace(rest[0]) && FoldChar(rest[0]) != 'I'
    ensures SpacesThen(before + rest, "IN") == None
  {
    RunThenRest(before, rest);
    if |rest| >= 2 { assert Fold(rest[..2])[0] == FoldChar(rest[0]); }
  }

  /** A comparison reads the same with any whitespace around its operator and with its value bare or in either kind of
      quotes. */
  lemma ComparisonSpellings(host: Host, c: Clause, before: string, after: string, q: string)
    requires GoodClause(host, c) && c.operator != "IN" && IsOnlySpace(before) && IsOnlySpace(after) && IsQuote(q)
    ensures ParseClause(host, c.field + (before + (c.operator + (after + Quoted(q, FormatValue(host, c.values[0]))))))
         == Ok(c)
  {
    var v := FormatValue(host, c.values[0]);
    assert c.values[0] in c.values;
    QuotedText(q, v);
    QuotedChars(q, v);
    assert Quoted(q, v)[0] in Quoted(q, v);
    SpelledComparison(c.field, before, c.operator, after, Quoted(q, v));
    QuotesMeanNothing(host, q, v, CheckedKind(c.field, c.operator).value);
    OneValue(host, c, Quoted(q, v));
  }

  lemma OneValue(host: Host, c: Clause, raw: string)
    requires CheckedKind(c.field, c.operator).Ok? && |c.values| == 1
    requires Coerce(host, raw, CheckedKind(c.field, c.operator).value) == Ok(c.values[0])
    ensures BuildClause(host, c.field, c.operator, [raw]) == Ok(c)
  {
    CoercedCons(host, raw, [], c.values[0], [], CheckedKind(c.field, c.operator).value);
    assert [raw] + [] == [raw] && [c.values[0]] + [] == c.values;
  }

  // ---- lists

  /** An item of a list as it may be spelled: a quoted value with whitespace around it. */
  datatype Item = Item(before: string, quote: string, value: string, after: string)

  predicate IsItemOf(item: Item, v: string) {
    IsOnlySpace(item.before) && IsQuote(item.quote) && item.value == v && IsOnlySpace(item.after)
  }

  function ItemText(item: Item): string { item.before + Quoted(item.quote, item.value) + item.after }

  function QuotedValue(item: Item): string { Quoted(item.quote, item.value) }

  function ItemTexts(items: seq<Item>): seq<string> { Map(items, ItemText) }

  lemma ItemStrips(item: Item)
    requires ValueChars(item.value) && IsItemOf(item, item.value)
    ensures Strip(ItemText(item)) == Quoted(item.quote, item.value) && Quoted(item.quote, item.value) != ""
    ensures ',' !in ItemText(item) && ')' !in ItemText(item)
  {
    var t := Quoted(item.quote, item.value);
    QuotedChars(item.quote, item.value);
    assert t[0] in t && t[|t| - 1] in t;
    StripWrapped(item.before, t, item.after);
    forall c | c in ItemText(item) ensures c != ',' && c != ')' {
      assert c in item.before || c in t || c in item.after;
    }
  }

  lemma {:induction false} ItemsSplit(items: seq<Item>)
    requires items != [] && forall i :: 0 <= i < |items| ==> ValueChars(items[i].value)
                                                             && IsItemOf(items[i], items[i].value)
    ensures Trimmed(SplitOn(Join(ItemTexts(items), ","), ',')) == Map(items, QuotedValue)
    ensures ')' !in Join(ItemTexts(items), ",")
  {
    var t, rest := ItemText(items[0]), items[1..];
    ItemStrips(items[0]);
    HeadAndTailMapped(items, ItemText);
    HeadAndTailMapped(items, QuotedValue);
    if rest == [] {
      OneTrimmed(t);
    } else {
      ItemsSplit(rest);
      JoinTrimmed(t, ItemTexts(rest));
    }
  }

  lemma HeadAndTailMapped<T>(items: seq<T>, f: T -> string)
    requires items != []
    ensures Map(items, f) == [f(items[0])] + Map(items[1..], f)
  {
  }

  lemma OneTrimmed(t: string)
    requires ',' !in t && Strip(t) != ""
    ensures Trimmed(SplitOn(Join([t] + [], ","), ',')) == [Strip(t)]
  {
    assert [t] + [] == [t];
    SplitLast(t, ',');
    assert [t][1..] == [];
  }

  /** A comma-joined list splits into its first item, stripped, and the rest. */
  lemma JoinTrimmed(t: string, ts: seq<string>)
    requires ',' !in t && Strip(t) != "" && ts != []
    ensures Join([t] + ts, ",") == t + "," + Join(ts, ",")
    ensures Trimmed(SplitOn(Join([t] + ts, ","), ',')) == [Strip(t)] + Trimmed(SplitOn(Join(ts, ","), ','))
  {
    var j := Join(ts, ",");
    assert ([t] + ts)[1..] == ts;
    SplitAtSep(t, j, ',');
    assert ([t] + SplitOn(j, ','))[1..] == SplitOn(j, ',');
  }

  lemma SpelledList(field: string, before: string, keyword: string, after: string, inner: string)
    requires IsName(field) && before != "" && IsOnlySpace(before) && IsOnlySpace(after)
    requires |keyword| == 2 && Fold(keyword) == "IN" && ')' !in inner
    ensures InClause(field + (before + (keyword + (after + ("(" + inner + ")"))))) == Some((field, inner))
  {
    var list := "(" + inner + ")";
    var fromKeyword := keyword + (after + list);
    assert Fold(keyword)[0] == FoldChar(keyword[0]) && !IsSpace(keyword[0]);
    RunThenRest(before, fromKeyword);
    assert before[0] in before && (before + fromKeyword)[0] == before[0];
    SpaceIsNoName(before[0]);
    SpelledName(field, before + fromKeyword);
    assert fromKeyword[..2] == keyword && fromKeyword[2..] == after + list;
    assert (before + fromKeyword)[|before| + 2..] == after + list;
    RunThenRest(after, list);
    ListReads(field + (before + fromKeyword), field, inner);
  }

  lemma {:induction false} ItemsCoerce(host: Host, items: seq<Item>, vs: seq<Value>, kind: Kind)
    requires |items| == |vs| && forall v :: v in vs ==> GoodValue(host, v, kind)
    requires forall i :: 0 <= i < |items| ==> IsItemOf(items[i], FormatValue(host, vs[i]))
    ensures CoerceAll(host, Map(items, QuotedValue), kind) == Ok(vs)
  {
    if vs != [] {
      assert vs[0] in vs && forall w :: w in vs[1..] ==> w in vs;
      ItemsCoerce(host, items[1..], vs[1..], kind);
      QuotesMeanNothing(host, items[0].quote, FormatValue(host, vs[0]), kind);
      CoercedCons(host, QuotedValue(items[0]), Map(items[1..], QuotedValue), vs[0], vs[1..], kind);
      HeadAndTailMapped(items, QuotedValue);
      HeadAndRest(vs);
    }
  }

  /** A list clause reads the same with its keyword in any letter case, any whitespace around keyword and items, and
      each item bare or quoted. */
  lemma ListSpellings(
      host: Host, c: Clause, before: string, keyword: string, after: string, items: seq<Item>)
    requires GoodClause(host, c) && c.operator == "IN" && c.values != [] && |items| == |c.values|
    requires before != "" && IsOnlySpace(before) && IsOnlySpace(after) && |keyword| == 2 && Fold(keyword) == "IN"
    requires forall i :: 0 <= i < |items| ==> IsItemOf(items[i], FormatValue(host, c.values[i]))
    ensures ParseClause(host,
                        c.field + (before + (keyword + (after + ("(" + Join(ItemTexts(items), ",") + ")")))))
         == Ok(c)
  {
    var kind := CheckedKind(c.field, c.operator).value;
    forall i | 0 <= i < |items| ensures ValueChars(items[i].value) { assert c.values[i] in c.values; }
    ItemsSplit(items);
    SpelledList(c.field, before, keyword, after, Join(ItemTexts(items), ","));
    ItemsCoerce(host, items, c.values, kind);
    ListBuilds(host, c, before, keyword, after, items);
  }

  lemma ListBuilds(host: Host, c: Clause, before: string, keyword: string, after: string, items: seq<Item>)
    requires CheckedKind(c.field, "IN").Ok? && c.operator == "IN" && |items| == |c.values| <= MAX_IN_VALUES
    requires CoerceAll(host, Map(items, QuotedValue), CheckedKind(c.field, "IN").value) == Ok(c.values)
    requires Trimmed(SplitOn(Join(ItemTexts(items), ","), ',')) == Map(items, QuotedValue)
    requires var text := c.field + (before + (keyword + (after + ("(" + Join(ItemTexts(items), ",") + ")"))));
             InClause(text) == Some((c.field, Join(ItemTexts(items), ",")))
    ensures var text := c.field + (before + (keyword + (after + ("(" + Join(ItemTexts(items), ",") + ")"))));
            ParseClause(host, text) == Ok(c)
  {
  }

  /** More than twenty values are refused, whatever they are. */
  lemma TooManyValues(
      host: Host, field: string, before: string, keyword: string, after: string, items: seq<Item>)
    requires IsName(field) && before != "" && IsOnlySpace(before) && IsOnlySpace(after)
    requires |keyword| == 2 && Fold(keyword) == "IN" && |items| > 20
    requires forall i :: 0 <= i < |items| ==> ValueChars(items[i].value) && IsItemOf(items[i], items[i].value)
    ensures ParseClause(host, field + (before + (keyword + (after + ("(" + Join(ItemTexts(items), ",") + ")")))))
         == Err(ClauseLimit)
  {
    ItemsSplit(items);
    SpelledList(field, before, keyword, after, Join(ItemTexts(items), ","));
  }

  // ---- fields, operators and values

  predicate IsListed(field: string) {
    || field == "status" || field == "status_category" || field == "issue_type" || field == "case_type"
    || field == "severity" || field == "project" || field == "assignee_ref" || field == "entity.kind"
    || field == "entity.id" || field == "latest_run_id" || field == "source_connector"
  }

  predicate IsPlainField(field: string) { field == "entity.label" || field == "dedupe_key" || field == "degraded" }

  predicate IsOrdered(field: string) {
    field == "priority_score" || field == "opened_at" || field == "updated_at" || field == "resolved_at"
  }

  predicate TakesOperator(field: string, operator: string) {
    || ((operator == "=" || operator == "!=") && (IsListed(field) || IsPlainField(field) || IsOrdered(field)))
    || (operator == "IN" && IsListed(field))
    || ((operator == ">" || operator == ">=" || operator == "<" || operator == "<=") && IsOrdered(field))
  }

  /** Each known field takes equality; lists are for fields of text, order comparisons for numbers and instants. */
  lemma FieldsTake(field: string, operator: string)
    ensures CheckedKind(field, operator).Ok? <==> TakesOperator(field, operator)
    ensures CheckedKind(field, operator).Err? ==>
              CheckedKind(field, operator)
              == Err(if IsListed(field) || IsPlainField(field) || IsOrdered(field) then UnsupportedOperator
                     else UnsupportedField)
  {
    KnownFields(field);
    if SpecOf(field).Some? { FieldOperators(field, operator); }
  }

  lemma KnownFields(field: string)
    ensures SpecOf(field).Some? <==> IsListed(field) || IsPlainField(field) || IsOrdered(field)
    ensures SpecOf(field).Some? ==>
              SpecOf(field).value.operators
              == if IsListed(field) then ANY_OF else if IsPlainField(field) then EQUALITY else ORDERING
  {
  }

  lemma FieldOperators(field: string, operator: string)
    requires SpecOf(field).Some?
    requires SpecOf(field).value.operators
             == if IsListed(field) then ANY_OF else if IsPlainField(field) then EQUALITY else ORDERING
    ensures operator in SpecOf(field).value.operators <==> TakesOperator(field, operator)
  {
  }

  // ---- what is refused

  predicate IsForbiddenWord(w: string) {
    w == "OR" || w == "NOT" || w == "DROP" || w == "SELECT" || w == "UPDATE" || w == "DELETE"
  }

  /** A forbidden word stands at `i` as a whole word, in any letter case. */
  predicate WordStands(host: Host, s: string, i: nat, w: string) {
    && i + |w| <= |s| && Fold(s[i..i + |w|]) == w
    && (i > 0 ==> !IsWord(host, s[i - 1])) && (i + |w| < |s| ==> !IsWord(host, s[i + |w|]))
  }

  /** Statement ends, comments and forbidden words. */
  ghost predicate StandsForbidden(host: Host, s: string, i: nat) {
    || (i < |s| && s[i] == ';')
    || (i + 2 <= |s| && (s[i..i + 2] == "--" || s[i..i + 2] == "/*" || s[i..i + 2] == "*/"))
    || exists w :: IsForbiddenWord(w) && WordStands(host, s, i, w)
  }

  lemma ForbiddenWords(w: string)
    ensures w in FORBIDDEN_WORDS <==> IsForbiddenWord(w)
  {
  }

  lemma StandsAt(host: Host, s: string, i: nat, w: string)
    requires i < |s| && w != ""
    ensures WordStands(host, s, i, w) <==> KeywordAt(host, s, i, w)
  {
    if i + |w| <= |s| { assert s[i..][..|w|] == s[i..i + |w|]; }
  }

  lemma ForbiddenHere(host: Host, s: string, i: nat)
    requires i < |s|
    ensures ForbiddenAt(host, s, i) <==> StandsForbidden(host, s, i)
  {
    if i + 2 <= |s| { assert s[i..i + 2] == [s[i], s[i + 1]]; }
    forall w ensures w in FORBIDDEN_WORDS && KeywordAt(host, s, i, w)
                <==> IsForbiddenWord(w) && WordStands(host, s, i, w) {
      ForbiddenWords(w);
      if w != "" { StandsAt(host, s, i, w); }
    }
  }

  /** Text is refused for its length before anything else, and then for forbidden syntax anywhere in it. */
  lemma RefusesText(host: Host, jql: string)
    ensures |Strip(jql)| > 512 ==> Parse(host, jql) == Err(TooLong)
    ensures |Strip(jql)| <= 512 && (exists i: nat :: i < |Strip(jql)| && StandsForbidden(host, Strip(jql), i)) ==>
              Parse(host, jql) == Err(Invalid)
  {
    if i: nat :| i < |Strip(jql)| && StandsForbidden(host, Strip(jql), i) {
      ForbiddenHere(host, Strip(jql), i);
    }
  }

  /** A parenthesis that is opened and never closed is refused. */
  lemma RefusesUnclosed(host: Host, jql: string, i: nat)
    requires var raw := Strip(jql);
             && |raw| <= 512 && FindOrder(raw).None? && i < |raw| && raw[i] == '(' && ')' !in raw[i..]
    ensures Parse(host, jql) == Err(Invalid)
  {
    OpenNeedsClose(host, Strip(jql), false, i);
  }
}
