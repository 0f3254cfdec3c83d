/** JQL-lite: the query language of the operator case views. The parser follows the regular
    expressions the program matches with; the printer gives the canonical text of a query. */
module JqlSyntax {
  import opened Basics
  import opened Text
  import opened Decimals

  const MAX_LENGTH := 512
  const MAX_CLAUSES := 8
  const MAX_IN_VALUES := 20
  const SORT_FIELDS: set<string> := {"priority_score", "opened_at", "updated_at"}
  const DEFAULT_SORT: seq<(string, string)> := [("priority_score", "DESC"), ("opened_at", "ASC")]
  const FORBIDDEN_WORDS: set<string> := {"OR", "NOT", "DROP", "SELECT", "UPDATE", "DELETE"}

  datatype JqlError = TooLong | Invalid | ClauseLimit | UnsupportedField | UnsupportedOperator | UnsupportedValue

  datatype Value = Text(s: string) | Number(n: int) | Moment(t: int) | Flag(b: bool)

  datatype Clause = Clause(field: string, operator: string, values: seq<Value>)

  type Order = seq<(string, string)>

  datatype Query = Query(raw: string, clauses: seq<Clause>, orderBy: Order)

  datatype Kind = EnumKind(allowed: set<string>) | IntKind | StringKind | TimeKind | BoolKind

  datatype FieldSpec = FieldSpec(kind: Kind, operators: set<string>)

  /** What the host supplies: reading and printing zone-aware datetimes, named here by an opaque
      number, and which characters beyond ASCII are word characters. */
  datatype Host = Host(readTime: string -> Option<int>, printTime: int -> string, wordBeyondAscii: char -> bool)

  // ---- fields

  const ANY_OF: set<string> := {"=", "!=", "IN"}
  const EQUALITY: set<string> := {"=", "!="}
  const ORDERING: set<string> := {"=", "!=", ">", ">=", "<", "<="}
  const STATUSES: set<string> := {"open", "acknowledged", "in_progress", "resolved", "dismissed"}
  const CATEGORIES: set<string> := {"to_do", "in_progress", "done"}
  const SEVERITIES: set<string> := {"info", "warning", "critical"}
  const CASE_TYPES: set<string> :=
    {"sales_drop", "stockout_risk", "spend_without_orders", "data_stale", "fulfillment_backlog",
      "unanswered_conversations",
     "channel_mix_shift"}

  function SpecOf(field: string): Option<FieldSpec> {
    if field == "status" then Some(FieldSpec(EnumKind(STATUSES), ANY_OF))
    else if field == "status_category" then Some(FieldSpec(EnumKind(CATEGORIES), ANY_OF))
    else if field == "issue_type" || field == "case_type" then Some(FieldSpec(EnumKind(CASE_TYPES), ANY_OF))
    else if field == "severity" then Some(FieldSpec(EnumKind(SEVERITIES), ANY_OF))
    else if field in {"project", "assignee_ref", "entity.kind", "entity.id", "latest_run_id", "source_connector"} then
      Some(FieldSpec(StringKind, ANY_OF))
    else if field == "entity.label" || field == "dedupe_key" then Some(FieldSpec(StringKind, EQUALITY))
    else if field == "priority_score" then Some(FieldSpec(IntKind, ORDERING))
    else if field == "degraded" then Some(FieldSpec(BoolKind, EQUALITY))
    else if field in {"opened_at", "updated_at", "resolved_at"} then Some(FieldSpec(TimeKind, ORDERING))
    else None
  }

  // ---- characters

  predicate IsLetter(c: char) { 'A' <= c <= 'Z' || 'a' <= c <= 'z' }

  predicate IsWord(host: Host, c: char) {
    IsLetter(FoldChar(c)) || IsDigit(c) || c == '_' || (c as int >= 128 && host.wordBeyondAscii(c))
  }

  predicate IsNameChar(c: char) { IsLetter(c) || c == '_' || c == '.' }

  predicate IsValueChar(c: char) { IsLetter(c) || IsDigit(c) || c in "_:-+." }

  /** How many leading characters belong to a field name. */
  function NameRun(s: string): (n: nat)
    ensures n <= |s|
  {
    if s != [] && IsNameChar(s[0]) then 1 + NameRun(s[1..]) else 0
  }

  // ---- rejected syntax

  predicate KeywordAt(host: Host, s: string, i: nat, keyword: string)
    requires i <= |s|
  {
    && StartsWithFold(s[i..], keyword)
    && (i == 0 || !IsWord(host, s[i - 1]))
    && (i + |keyword| >= |s| || !IsWord(host, s[i + |keyword|]))
  }

  predicate ForbiddenAt(host: Host, s: string, i: nat)
    requires i < |s|
  {
    || s[i] == ';'
    || (i + 1 < |s|
       && ((s[i] == '-' && s[i + 1] == '-') || (s[i] == '/' && s[i + 1] == '*') || (s[i] == '*' && s[i + 1] == '/')))
    || exists keyword :: keyword in FORBIDDEN_WORDS && KeywordAt(host, s, i, keyword)
  }

  predicate Forbidden(host: Host, s: string) {
    exists i :: 0 <= i < |s| && ForbiddenAt(host, s, i)
  }

  // ---- splitting

  /** The rest after whitespace and a keyword. */
  function SpacesThen(s: string, keyword: string): (r: Option<string>)
    ensures r.Some? ==> |r.value| + |keyword| < |s|
  {
    var n := SpaceRun(s);
    if n > 0 && StartsWithFold(s[n..], keyword) then Some(s[n + |keyword|..]) else None
  }

  /** The rest after ` AND `. */
  function AndHere(s: string): (r: Option<string>)
    ensures r.Some? ==> |r.value| < |s|
  {
    match SpacesThen(s, "AND")
    case None => None
    case Some(rest) => if SpaceRun(rest) > 0 then Some(rest[SpaceRun(rest)..]) else None
  }

  /** The order text after ` ORDER BY `, if it runs to the end on one line. */
  function OrderHere(s: string): Option<string> {
    match SpacesThen(s, "ORDER")
    case None => None
    case Some(afterOrder) =>
      match SpacesThen(afterOrder, "BY")
      case None => None
      case Some(afterBy) =>
        var text := afterBy[SpaceRun(afterBy)..];
        if SpaceRun(afterBy) > 0 && text != "" && '\n' !in text then Some(text) else None
  }

  /** The text before the first ORDER BY, and the order text. */
  function FindOrder(s: string): Option<(string, string)> {
    if s == "" then None
    else
      match OrderHere(s)
      case Some(text) => Some(("", text))
      case None =>
        match FindOrder(s[1..])
        case None => None
        case Some((body, text)) => Some(([s[0]] + body, text))
  }

  function SplitAnd(s: string): (pieces: seq<string>)
    ensures pieces != []
    decreases |s|
  {
    if s == "" then [""]
    else
      match AndHere(s)
      case Some(rest) => [""] + SplitAnd(rest)
      case None =>
        var pieces := SplitAnd(s[1..]);
        [[s[0]] + pieces[0]] + pieces[1..]
  }

  /** The pieces that are not blank, stripped. */
  function Trimmed(pieces: seq<string>): seq<string> {
    if pieces == [] then []
    else (if Strip(pieces[0]) == "" then [] else [Strip(pieces[0])]) + Trimmed(pieces[1..])
  }

  // ---- parentheses

  /** Position after the first closing parenthesis, or None. */
  function AfterClose(s: string): (r: Option<string>)
    ensures r.Some? ==> |r.value| < |s|
  {
    if s == "" then None else if s[0] == ')' then Some(s[1..]) else AfterClose(s[1..])
  }

  /** The rest after `IN (...)`. */
  function InListHere(s: string): (r: Option<string>)
    ensures r.Some? ==> |r.value| < |s|
  {
    if !StartsWithFold(s, "IN") then None
    else
      var rest := s[2..];
      var open := rest[SpaceRun(rest)..];
      if open != "" && open[0] == '(' then AfterClose(open[1..]) else None
  }

  /** A parenthesis remains once every `IN (...)` at a word start is taken out. */
  predicate StrayParen(host: Host, s: string, afterWord: bool)
    decreases |s|
  {
    if s == "" then false
    else
      match if afterWord then None else InListHere(s)
      case Some(rest) => StrayParen(host, rest, false)
      case None => s[0] == '(' || s[0] == ')' || StrayParen(host, s[1..], IsWord(host, s[0]))
  }

  // ---- values

  function Unquote(v: string): string {
    if v != "" && v[0] == v[|v| - 1] && (v[0] == '"' || v[0] == '\'') then
      if |v| == 1 then "" else v[1..|v| - 1]
    else v
  }

  predicate ValueChars(v: string) { v != "" && forall c :: c in v ==> IsValueChar(c) }

  function Coerce(host: Host, raw: string, kind: Kind): Result<Value, JqlError> {
    var v := Unquote(Strip(raw));
    if !ValueChars(v) then Err(Invalid)
    else
      match kind
      case EnumKind(allowed) => if v in allowed then Ok(Text(v)) else Err(UnsupportedValue)
      case IntKind =>
        (match ParseInt(v)
         case Some(n) => Ok(Number(n))
         case None => Err(UnsupportedValue))
      case TimeKind =>
        (match host.readTime(v)
         case Some(t) => Ok(Moment(t))
         case None => Err(UnsupportedValue))
      case BoolKind => if v == "true" || v == "false" then Ok(Flag(v == "true")) else Err(UnsupportedValue)
      case StringKind => Ok(Text(v))
  }

  function CoerceAll(host: Host, raws: seq<string>, kind: Kind): (r: Result<seq<Value>, JqlError>)
    ensures r.Ok? ==> |r.value| == |raws|
  {
    if raws == [] then Ok([])
    else
      match Coerce(host, raws[0], kind)
      case Err(e) => Err(e)
      case Ok(v) =>
        match CoerceAll(host, raws[1..], kind)
        case Err(e) => Err(e)
        case Ok(vs) => Ok([v] + vs)
  }

  // ---- clauses

  /** The text after `field IN`, from its first character that is not whitespace. */
  function ListText(text: string): Option<string> {
    match SpacesThen(text[NameRun(Fold(text))..], "IN")
    case None => None
    case Some(rest) => Some(rest[SpaceRun(rest)..])
  }

  /** Field and inner text of `field IN (...)`. */
  function InClause(text: string): Option<(string, string)> {
    var n := NameRun(Fold(text));
    match ListText(text)
    case None => None
    case Some(list) =>
      if n > 0 && |list| >= 2 && list[0] == '(' && list[|list| - 1] == ')' && ')' !in list[1..|list| - 1] then
        Some((text[..n], list[1..|list| - 1]))
      else None
  }

  /** The value text after an operator: everything left, on one line. */
  function ValueText(s: string): Option<string> {
    var t := s[SpaceRun(s)..];
    if t != "" && '\n' !in t then Some(Strip(t)) else None
  }

  /** The first operator, in the order they are tried, that leaves a value. */
  function TryOperators(s: string, operators: seq<string>): Option<(string, string)> {
    if operators == [] then None
    else if operators[0] <= s && ValueText(s[|operators[0]|..]).Some? then
      Some((operators[0], ValueText(s[|operators[0]|..]).value))
    else TryOperators(s, operators[1..])
  }

  const OPERATORS: seq<string> := ["=", "!=", ">=", "<=", ">", "<"]

  /** The text from the operator on. */
  function OperatorText(text: string): string {
    var rest := text[NameRun(text)..];
    rest[SpaceRun(rest)..]
  }

  /** Field, operator and value text of `field op value`. */
  function Comparison(text: string): Option<(string, string, string)> {
    if NameRun(text) == 0 then None
    else
      match TryOperators(OperatorText(text), OPERATORS)
      case None => None
      case Some((operator, value)) => Some((text[..NameRun(text)], operator, value))
  }

  function CheckedKind(field: string, operator: string): Result<Kind, JqlError> {
    match SpecOf(field)
    case None => Err(UnsupportedField)
    case Some(spec) => if operator in spec.operators then Ok(spec.kind) else Err(UnsupportedOperator)
  }

  function BuildClause(host: Host, field: string, operator: string, raws: seq<string>): Result<Clause, JqlError> {
    match CheckedKind(field, operator)
    case Err(e) => Err(e)
    case Ok(kind) =>
      match CoerceAll(host, raws, kind)
      case Err(e) => Err(e)
      case Ok(values) => Ok(Clause(field, operator, values))
  }

  function ParseClause(host: Host, text: string): Result<Clause, JqlError> {
    match InClause(text)
    case Some((field, inner)) =>
      var raws := Trimmed(SplitOn(inner, ','));
      if |raws| > MAX_IN_VALUES then Err(ClauseLimit) else BuildClause(host, field, "IN", raws)
    case None =>
      match Comparison(text)
      case None => Err(Invalid)
      case Some((field, operator, value)) => BuildClause(host, field, operator, [value])
  }

  function ParseClauses(host: Host, parts: seq<string>): (r: Result<seq<Clause>, JqlError>)
    ensures r.Ok? ==> |r.value| == |parts|
  {
    if parts == [] then Ok([])
    else
      match ParseClause(host, parts[0])
      case Err(e) => Err(e)
      case Ok(c) =>
        match ParseClauses(host, parts[1..])
        case Err(e) => Err(e)
        case Ok(cs) => Ok([c] + cs)
  }

  // ---- ordering

  function ParseOrderPart(part: string): Result<(string, string), JqlError> {
    var n := NameRun(Fold(part));
    var rest := part[n..];
    var direction := Fold(rest[SpaceRun(rest)..]);
    if n == 0 || SpaceRun(rest) == 0 || (direction != "ASC" && direction != "DESC") then Err(Invalid)
    else if part[..n] !in SORT_FIELDS then Err(UnsupportedField)
    else Ok((part[..n], direction))
  }

  function ParseOrderParts(parts: seq<string>): Result<Order, JqlError> {
    if parts == [] then Ok([])
    else
      match ParseOrderParts(parts[..|parts| - 1])
      case Err(e) => Err(e)
      case Ok(order) =>
        match ParseOrderPart(parts[|parts| - 1])
        case Err(e) => Err(e)
        case Ok(entry) => Ok(order + [entry])
  }

  function SplitOrderBy(raw: string): Result<(string, Order), JqlError> {
    match FindOrder(raw)
    case None => Ok((raw, DEFAULT_SORT))
    case Some((before, text)) =>
      var parts := Trimmed(SplitOn(Strip(text), ','));
      if parts == [] then Err(Invalid)
      else
        match ParseOrderParts(parts)
        case Err(e) => Err(e)
        case Ok(order) => Ok((Strip(before), order))
  }

  /** The loop that reads the order entries one by one. */
  method ReadOrder(parts: seq<string>) returns (order: Result<Order, JqlError>)
    ensures order == ParseOrderParts(parts)
  {
    var entries: Order := [];
    for i := 0 to |parts|
      invariant ParseOrderParts(parts[..i]) == Ok(entries)
    {
      assert parts[..i + 1][..i] == parts[..i];
      match ParseOrderPart(parts[i])
      case Err(e) =>
        OrderStops(parts, i + 1, e);
        return Err(e);
      case Ok(entry) => entries := entries + [entry];
    }
    assert parts[..|parts|] == parts;
    return Ok(entries);
  }

  lemma {:induction false} OrderStops(parts: seq<string>, n: nat, e: JqlError)
    requires n <= |parts| && ParseOrderParts(parts[..n]) == Err(e)
    ensures ParseOrderParts(parts) == Err(e)
  {
    if n < |parts| {
      assert parts[..|parts| - 1][..n] == parts[..n];
      OrderStops(parts[..|parts| - 1], n, e);
    } else {
      assert parts[..n] == parts;
    }
  }

  // ---- the parser and the printer

  function Parse(host: Host, jql: string): Result<Query, JqlError> {
    var raw := Strip(jql);
    if raw == "" then Ok(Query("", [], DEFAULT_SORT))
    else if |raw| > MAX_LENGTH then Err(TooLong)
    else if Forbidden(host, raw) then Err(Invalid)
    else
      match SplitOrderBy(raw)
      case Err(e) => Err(e)
      case Ok((body, order)) =>
        if StrayParen(host, body, false) then Err(Invalid)
        else ParseParts(host, raw, Trimmed(SplitAnd(body)), order)
  }

  function ParseParts(host: Host, raw: string, parts: seq<string>, order: Order): Result<Query, JqlError> {
    if |parts| > MAX_CLAUSES then Err(ClauseLimit)
    else
      match ParseClauses(host, parts)
      case Err(e) => Err(e)
      case Ok(clauses) => Ok(Query(raw, clauses, order))
  }

  function FormatValue(host: Host, v: Value): string {
    match v
    case Text(s) => s
    case Number(n) => IntText(n)
    case Moment(t) => host.printTime(t)
    case Flag(b) => if b then "true" else "false"
  }

  function FormatValues(host: Host, vs: seq<Value>): seq<string> {
    seq(|vs|, i requires 0 <= i < |vs| => FormatValue(host, vs[i]))
  }

  function FormatClause(host: Host, c: Clause): string
    requires c.operator != "IN" ==> c.values != []
  {
    if c.operator == "IN" then c.field + " IN (" + Join(FormatValues(host, c.values), ", ") + ")"
    else c.field + " " + c.operator + " " + FormatValue(host, c.values[0])
  }

  function OrderEntries(order: Order): seq<string> {
    seq(|order|, i requires 0 <= i < |order| => order[i].0 + " " + order[i].1)
  }

  /** A comparison clause has exactly one value, as parsing always gives it. */
  predicate Printable(q: Query) {
    forall c :: c in q.clauses && c.operator != "IN" ==> c.values != []
  }

  function ClauseTexts(host: Host, clauses: seq<Clause>): seq<string>
    requires forall c :: c in clauses && c.operator != "IN" ==> c.values != []
  {
    seq(|clauses|, i requires 0 <= i < |clauses| => assert clauses[i] in clauses; FormatClause(host, clauses[i]))
  }

  /** The canonical text of a query. */
  function Normalized(host: Host, q: Query): string
    requires Printable(q)
  {
    var order := Join(OrderEntries(q.orderBy), ", ");
    if q.clauses != [] then Join(ClauseTexts(host, q.clauses), " AND ") + " ORDER BY " + order
    else "ORDER BY " + order
  }
}
