/** Answering a JQL query over operational cases: matching, sorting by one stable pass per key, and
    the page that is returned. */
module JqlQuery {
  import opened Basics
  import opened Decimals
  import opened Sorting
  import opened Calendar
  import opened Cases
  import opened CaseStore
  import opened CaseListing
  import SqlCaseStore
  import J = JqlSyntax
  import G = JqlGood
  import C = JqlClean
  import R = JqlRoundTrip

  /** What matching takes from elsewhere: the project key of a business and the instant of a datetime
      that a query names. */
  datatype Surface = Surface(projectKey: string -> string, instantOf: int -> Time)

  function Category(s: Status): string {
    match s
    case Open => "to_do"
    case Acknowledged => "in_progress"
    case InProgress => "in_progress"
    case Resolved => "done"
    case Dismissed => "done"
  }

  function Sources(c: Case): set<string> {
    set s | s in c.snapshots && s.source != "" :: s.source
  }

  function FromScope(c: Case, key: string): Option<string> {
    if key in c.scope then Some(c.scope[key]) else None
  }

  /** What a field of a case holds: text, a number, an instant or a flag, or nothing. */
  datatype Actual = Absent | IsText(s: string) | IsNumber(n: int) | IsInstant(t: Time) | IsFlag(b: bool)

  function OfText(s: Option<string>): Actual { if s.Some? then IsText(s.value) else Absent }

  function FieldValue(surface: Surface, c: Case, field: string): Actual {
    if field == "entity.kind" then OfText(FromScope(c, "kind"))
    else if field == "entity.id" then OfText(FromScope(c, "id"))
    else if field == "entity.label" then OfText(FromScope(c, "label"))
    else if field == "degraded" then IsFlag(IsDegraded(c))
    else if field == "project" then IsText(surface.projectKey(c.businessId))
    else if field == "issue_type" || field == "case_type" then IsText(CaseTypeText(c.caseType))
    else if field == "status_category" then IsText(Category(c.status))
    else if field == "status" then IsText(StatusText(c.status))
    else if field == "severity" then IsText(SeverityText(c.severity))
    else if field == "assignee_ref" then OfText(c.assigneeRef)
    else if field == "latest_run_id" then OfText(c.latestRunId)
    else if field == "dedupe_key" then IsText(c.dedupeKey)
    else if field == "priority_score" then IsNumber(c.priority)
    else if field == "opened_at" then IsInstant(c.openedAt)
    else if field == "updated_at" then IsInstant(c.updatedAt)
    else if field == "resolved_at" then (if c.resolvedAt.Some? then IsInstant(c.resolvedAt.value) else Absent)
    else Absent
  }

  predicate Equals(surface: Surface, actual: Actual, v: J.Value) {
    match actual
    case Absent => false
    case IsText(s) => v == J.Text(s)
    case IsNumber(n) => v == J.Number(n)
    case IsFlag(b) => v == J.Flag(b)
    case IsInstant(t) => v.Moment? && surface.instantOf(v.t) == t
  }

  /** `actual < v` on the two kinds of field that are ordered. */
  predicate Below(surface: Surface, actual: Actual, v: J.Value) {
    || (actual.IsNumber? && v.Number? && actual.n < v.n)
    || (actual.IsInstant? && v.Moment? && actual.t < surface.instantOf(v.t))
  }

  predicate Above(surface: Surface, actual: Actual, v: J.Value) {
    || (actual.IsNumber? && v.Number? && actual.n > v.n)
    || (actual.IsInstant? && v.Moment? && actual.t > surface.instantOf(v.t))
  }

  predicate MatchesSource(c: Case, clause: J.Clause)
    requires clause.operator != "IN" ==> clause.values != []
  {
    if clause.operator == "IN" then exists s :: s in Sources(c) && J.Text(s) in clause.values
    else
      var named := exists s :: s in Sources(c) && J.Text(s) == clause.values[0];
      if clause.operator == "=" then named else !named
  }

  predicate MatchesClause(surface: Surface, c: Case, clause: J.Clause)
    requires clause.operator != "IN" ==> clause.values != []
  {
    if clause.field == "source_connector" then MatchesSource(c, clause)
    else
      var actual := FieldValue(surface, c, clause.field);
      if clause.operator == "IN" then exists v :: v in clause.values && Equals(surface, actual, v)
      else
        var expected := clause.values[0];
        if clause.operator == "=" then Equals(surface, actual, expected)
        else if clause.operator == "!=" then !Equals(surface, actual, expected)
        else if clause.operator == ">" then Above(surface, actual, expected)
        else if clause.operator == ">=" then Above(surface, actual, expected) || Equals(surface, actual, expected)
        else if clause.operator == "<" then Below(surface, actual, expected)
        else Below(surface, actual, expected) || Equals(surface, actual, expected)
  }

  predicate Matches(surface: Surface, c: Case, clauses: seq<J.Clause>)
    requires forall d :: d in clauses && d.operator != "IN" ==> d.values != []
  {
    forall i :: 0 <= i < |clauses| ==> assert clauses[i] in clauses; MatchesClause(surface, c, clauses[i])
  }

  // ---- what matching agrees with

  /** The field compared with one value. */
  function Compare(field: string, operator: string, v: J.Value): J.Clause { J.Clause(field, operator, [v]) }

  /** On a field that can be sorted by, the comparisons select exactly the cases that sort to that side of
      the value. */
  lemma ComparisonsFollowTheSort(surface: Surface, c: Case, field: string, v: J.Value)
    requires field in J.SORT_FIELDS && (if field == "priority_score" then v.Number? else v.Moment?)
    ensures var n := if v.Number? then v.n else surface.instantOf(v.t);
            && (MatchesClause(surface, c, Compare(field, "<", v)) <==> SortNumber(c, field) < n)
            && (MatchesClause(surface, c, Compare(field, "<=", v)) <==> SortNumber(c, field) <= n)
            && (MatchesClause(surface, c, Compare(field, ">", v)) <==> SortNumber(c, field) > n)
            && (MatchesClause(surface, c, Compare(field, ">=", v)) <==> SortNumber(c, field) >= n)
            && (MatchesClause(surface, c, Compare(field, "=", v)) <==> SortNumber(c, field) == n)
            && (MatchesClause(surface, c, Compare(field, "!=", v)) <==> SortNumber(c, field) != n)
  {
  }

  /** Filtering by category is filtering by status: `done` selects the terminal cases, `to_do` the open
      ones, and `in_progress` those an operator has taken up. */
  lemma CategoriesFollowStatus(surface: Surface, c: Case)
    ensures MatchesClause(surface, c, Compare("status_category", "=", J.Text("done"))) <==> IsTerminal(c.status)
    ensures MatchesClause(surface, c, Compare("status_category", "=", J.Text("to_do")))
       <==> MatchesClause(surface, c, Compare("status", "=", J.Text("open")))
    ensures MatchesClause(surface, c, Compare("status_category", "=", J.Text("in_progress")))
       <==> MatchesClause(surface, c, J.Clause("status", "IN", [J.Text("acknowledged"), J.Text("in_progress")]))
  {
    StatusNames(c.status);
    var both := [J.Text("acknowledged"), J.Text("in_progress")];
    assert both[0] == J.Text("acknowledged") && both[1] == J.Text("in_progress");
    assert both[0] in both && both[1] in both;
    assert |Category(Open)| == 5 && |Category(Acknowledged)| == 11 && |Category(Resolved)| == 4;
  }

  lemma StatusNames(s: Status)
    ensures (StatusText(s) == "open" <==> s == Open) && (StatusText(s) == "acknowledged" <==> s == Acknowledged)
    ensures StatusText(s) == "in_progress" <==> s == InProgress
  {
  }

  /** On every field `!=` selects what `=` does not, and a list selects what one of its values does. */
  lemma ListsAndNegation(surface: Surface, c: Case, field: string, values: seq<J.Value>, v: J.Value)
    ensures MatchesClause(surface, c, Compare(field, "!=", v)) <==> !MatchesClause(surface, c, Compare(field, "=", v))
    ensures MatchesClause(surface, c, J.Clause(field, "IN", values))
       <==> exists w :: w in values && MatchesClause(surface, c, Compare(field, "=", w))
  {
  }

  // ---- sorting

  function SortNumber(c: Case, field: string): int {
    if field == "priority_score" then c.priority else if field == "opened_at" then c.openedAt else c.updatedAt
  }

  function ByField(field: string, direction: string): (Case, Case) -> bool {
    (a: Case, b: Case) =>
      if direction == "DESC" then SortNumber(a, field) >= SortNumber(b, field)
      else SortNumber(a, field) <= SortNumber(b, field)
  }

  predicate ById(a: Case, b: Case) { !TextLess(b.caseId, a.caseId) }

  /** The sort keys of an order, with the case id last. */
  function SortKeys(order: J.Order): (keys: seq<(Case, Case) -> bool>)
    ensures |keys| == |order| + 1
  {
    seq(|order|, i requires 0 <= i < |order| => ByField(order[i].0, order[i].1)) + [ById]
  }

  function Sorted(cases: seq<Case>, order: J.Order): seq<Case> {
    MultiPass(cases, SortKeys(order))
  }

  /** One stable sort per key in place, from the last key to the first. */
  method SortCases(cases: seq<Case>, order: J.Order) returns (result: seq<Case>)
    ensures result == Sorted(cases, order)
  {
    var keys := SortKeys(order);
    result := cases;
    var k := |keys|;
    while k > 0
      invariant 0 <= k <= |keys|
      invariant result == MultiPass(cases, keys[k..])
    {
      k := k - 1;
      assert keys[k..][0] == keys[k] && keys[k..][1..] == keys[k + 1..];
      result := StableSort(result, keys[k]);
    }
    assert keys[0..] == keys;
  }

  lemma ByIdIsTotal()
    ensures TotalPreorder(ById)
  {
    forall x: Case, y: Case ensures ById(x, y) || ById(y, x) {
      if TextLess(x.caseId, y.caseId) { TextLessAsymmetric(x.caseId, y.caseId); }
    }
    forall x: Case, y: Case, z: Case | ById(x, y) && ById(y, z) ensures ById(x, z) {
      if TextLess(z.caseId, x.caseId) {
        TextLessTotal(y.caseId, z.caseId);
        if TextLess(y.caseId, z.caseId) { TextLessTransitive(y.caseId, z.caseId, x.caseId); }
      }
    }
  }

  lemma KeysAreTotal(order: J.Order)
    ensures forall k :: k in SortKeys(order) ==> TotalPreorder(k)
  {
    ByIdIsTotal();
    var keys := SortKeys(order);
    forall i | 0 <= i < |keys| ensures TotalPreorder(keys[i]) {
      if i < |order| {
        assert keys[i] == ByField(order[i].0, order[i].1);
      } else {
        assert keys[i] == ById;
      }
    }
  }

  lemma {:induction false} TiedOnEveryKey<T(!new)>(keys: seq<(T, T) -> bool>, x: T, y: T, k: (T, T) -> bool)
    requires LexAll(keys)(x, y) && LexAll(keys)(y, x) && k in keys
    ensures k(x, y) && k(y, x)
  {
    if k != keys[0] { TiedOnEveryKey(keys[1..], x, y, k); }
  }

  ghost predicate DistinctIds(cases: seq<Case>) { NoDuplicates(Map(cases, CaseId)) }

  lemma IdsSurviveSorting(cases: seq<Case>, sorted: seq<Case>)
    requires DistinctIds(cases) && multiset(cases) == multiset(sorted)
    ensures NoDuplicates(cases) && NoDuplicates(sorted)
    ensures forall a, b :: a in sorted && b in sorted && a.caseId == b.caseId ==> a == b
  {
    forall i, j | 0 <= i < j < |cases| ensures cases[i] != cases[j] {
      assert Map(cases, CaseId)[i] != Map(cases, CaseId)[j];
    }
    DistinctPermutation(cases, sorted);
    MultisetMembers(cases, sorted);
    forall a, b | a in sorted && b in sorted && a.caseId == b.caseId ensures a == b { SameId(cases, a, b); }
  }

  lemma SortedHasNoTies(cases: seq<Case>, order: J.Order)
    requires DistinctIds(cases)
    ensures NoTies(Sorted(cases, order), LexAll(SortKeys(order)))
  {
    var s, keys := Sorted(cases, order), SortKeys(order);
    KeysAreTotal(order);
    MultiPassIsLexicographic(cases, keys);
    IdsSurviveSorting(cases, s);
    assert keys[|order|] == ById;
    forall i, j | 0 <= i < j < |s| ensures !(LexAll(keys)(s[i], s[j]) && LexAll(keys)(s[j], s[i])) {
      if LexAll(keys)(s[i], s[j]) && LexAll(keys)(s[j], s[i]) {
        TiedOnEveryKey(keys, s[i], s[j], ById);
        TextLessTotal(s[i].caseId, s[j].caseId);
      }
    }
  }

  // ---- the order in the fields of the cases

  /** Every entry names a field that can be sorted by, and one of the two directions. */
  predicate Sortable(order: J.Order) {
    forall i :: 0 <= i < |order| ==>
      && (order[i].0 == "priority_score" || order[i].0 == "opened_at" || order[i].0 == "updated_at")
      && (order[i].1 == "ASC" || order[i].1 == "DESC")
  }

  predicate SameOn(field: string, a: Case, b: Case) {
    && (field == "priority_score" ==> a.priority == b.priority)
    && (field == "opened_at" ==> a.openedAt == b.openedAt)
    && (field == "updated_at" ==> a.updatedAt == b.updatedAt)
  }

  predicate LargerOn(field: string, a: Case, b: Case) {
    || (field == "priority_score" && a.priority > b.priority)
    || (field == "opened_at" && a.openedAt > b.openedAt)
    || (field == "updated_at" && a.updatedAt > b.updatedAt)
  }

  /** The larger value comes first for `DESC`, the smaller for `ASC`. */
  predicate EntryPuts(entry: (string, string), a: Case, b: Case) {
    if entry.1 == "DESC" then LargerOn(entry.0, a, b) else LargerOn(entry.0, b, a)
  }

  /** The first entry on which the cases differ puts `a` first, or no entry tells them apart and `a` has the
      smaller id. */
  predicate ComesFirst(order: J.Order, a: Case, b: Case) {
    || ((forall i :: 0 <= i < |order| ==> SameOn(order[i].0, a, b)) && TextLess(a.caseId, b.caseId))
    || exists i :: 0 <= i < |order| && EntryPuts(order[i], a, b) && forall j :: 0 <= j < i ==> SameOn(order[j].0, a, b)
  }

  lemma ComesFirstByEntry(order: J.Order, a: Case, b: Case)
    requires Sortable(order) && order != []
    ensures ComesFirst(order, a, b)
       <==> EntryPuts(order[0], a, b) || (SameOn(order[0].0, a, b) && ComesFirst(order[1..], a, b))
  {
    var rest := order[1..];
    assert forall i :: 0 <= i < |rest| ==> rest[i] == order[i + 1];
    if SameOn(order[0].0, a, b) && ComesFirst(rest, a, b) {
      if i :| 0 <= i < |rest| && EntryPuts(rest[i], a, b) && forall j :: 0 <= j < i ==> SameOn(rest[j].0, a, b) {
        assert EntryPuts(order[i + 1], a, b);
        assert forall j :: 0 <= j < i + 1 ==> j == 0 || order[j] == rest[j - 1];
      }
    }
    if ComesFirst(order, a, b) && !EntryPuts(order[0], a, b) {
      if i :| 0 <= i < |order| && EntryPuts(order[i], a, b) && forall j :: 0 <= j < i ==> SameOn(order[j].0, a, b) {
        assert rest[i - 1] == order[i];
      }
    }
  }

  lemma SortKeysSplit(order: J.Order)
    requires order != []
    ensures SortKeys(order)[0] == ByField(order[0].0, order[0].1) && SortKeys(order)[1..] == SortKeys(order[1..])
  {
    var keys, rest := SortKeys(order), SortKeys(order[1..]);
    forall i | 0 <= i < |rest| ensures keys[1..][i] == rest[i] {
      if i < |order| - 1 { assert order[1..][i] == order[i + 1]; }
    }
  }

  lemma OneKey<T(!new)>(key: (T, T) -> bool, x: T, y: T)
    ensures LexAll([key])(x, y) <==> key(x, y)
  {
    assert [key][1..] == [];
  }

  /** Between cases with different ids, the sort keys and the fields of the cases tell the same order. */
  lemma {:induction false} KeysTellTheFields(order: J.Order, a: Case, b: Case)
    requires Sortable(order) && a.caseId != b.caseId
    ensures LexAll(SortKeys(order))(a, b) <==> ComesFirst(order, a, b)
  {
    if order == [] {
      assert SortKeys(order) == [ById];
      TextLessTotal(a.caseId, b.caseId);
      if TextLess(a.caseId, b.caseId) { TextLessAsymmetric(a.caseId, b.caseId); }
      OneKey(ById, a, b);
    } else {
      assert Sortable(order[1..]);
      SortKeysSplit(order);
      ComesFirstByEntry(order, a, b);
      KeysTellTheFields(order[1..], a, b);
    }
  }

  ghost predicate InOrder(order: J.Order, cases: seq<Case>) {
    forall i, j :: 0 <= i < j < |cases| ==> ComesFirst(order, cases[i], cases[j])
  }

  lemma InOrderIsSorted(order: J.Order, cases: seq<Case>)
    requires Sortable(order) && DistinctIds(cases)
    ensures InOrder(order, cases) <==> SortedBy(cases, LexAll(SortKeys(order)))
  {
    forall i, j | 0 <= i < j < |cases|
      ensures LexAll(SortKeys(order))(cases[i], cases[j]) <==> ComesFirst(order, cases[i], cases[j])
    {
      assert Map(cases, CaseId)[i] != Map(cases, CaseId)[j];
      KeysTellTheFields(order, cases[i], cases[j]);
    }
  }

  /** Sorting gives the one arrangement of the cases that follows the order: of two cases, the first entry
      on which they differ puts the larger first for `DESC` and the smaller for `ASC`; where no entry tells
      them apart, the smaller id comes first. */
  lemma SortedIsTheArrangement(cases: seq<Case>, order: J.Order, arrangement: seq<Case>)
    requires DistinctIds(cases)
    ensures arrangement == Sorted(cases, order)
       <==> multiset(arrangement) == multiset(cases) && SortedBy(arrangement, LexAll(SortKeys(order)))
    ensures Sortable(order) ==>
              var inOrder := multiset(arrangement) == multiset(cases) && InOrder(order, arrangement);
              arrangement == Sorted(cases, order) <==> inOrder
  {
    KeysAreTotal(order);
    MultiPassIsLexicographic(cases, SortKeys(order));
    SortedHasNoTies(cases, order);
    if multiset(arrangement) == multiset(cases) {
      IdsSurvive(cases, arrangement);
      if Sortable(order) { InOrderIsSorted(order, arrangement); }
      if SortedBy(arrangement, LexAll(SortKeys(order))) {
        SortedArrangementIsUnique(Sorted(cases, order), arrangement, LexAll(SortKeys(order)));
      }
    }
  }

  lemma IdsSurvive(cases: seq<Case>, arrangement: seq<Case>)
    requires DistinctIds(cases) && multiset(arrangement) == multiset(cases)
    ensures DistinctIds(arrangement)
  {
    IdsSurviveSorting(cases, arrangement);
    forall i, j | 0 <= i < j < |arrangement|
      ensures arrangement[i].caseId != arrangement[j].caseId
    {
      assert arrangement[i] in arrangement && arrangement[j] in arrangement;
    }
  }

  // ---- the page

  const DEFAULT_LIMIT := 50
  const HIGHEST_LIMIT := 100

  datatype LimitError = NotAnInteger | NotPositive

  function ParseLimit(text: Option<string>): (r: Result<nat, LimitError>)
    ensures r.Ok? ==> 1 <= r.value <= HIGHEST_LIMIT
  {
    if text.None? || text.value == "" then Ok(DEFAULT_LIMIT)
    else
      match ParseInt(text.value)
      case None => Err(NotAnInteger)
      case Some(n) => if n < 1 then Err(NotPositive) else Ok(if n <= HIGHEST_LIMIT then n else HIGHEST_LIMIT)
  }

  datatype Page = Page(cases: seq<Case>, total: nat, truncated: bool)

  function Keep(surface: Surface, clauses: seq<J.Clause>): Case -> bool
    requires forall d :: d in clauses && d.operator != "IN" ==> d.values != []
  {
    c => Matches(surface, c, clauses)
  }

  /** The answer to a parsed query over the candidates a store lists. */
  function Answer(surface: Surface, candidates: seq<Case>, q: J.Query, limit: nat): Page
    requires J.Printable(q)
  {
    var filtered := Filter(candidates, Keep(surface, q.clauses));
    var page := Slice(Sorted(filtered, q.orderBy), Some(limit));
    Page(page, |filtered|, |filtered| > |page|)
  }

  /** Filtering, sorting and paging as the program runs them; the sort is the loop above. */
  method PageOf(surface: Surface, candidates: seq<Case>, q: J.Query, limit: nat) returns (page: Page)
    requires J.Printable(q)
    ensures page == Answer(surface, candidates, q, limit)
  {
    var filtered := Filter(candidates, Keep(surface, q.clauses));
    var sorted := SortCases(filtered, q.orderBy);
    var limited := Slice(sorted, Some(limit));
    page := Page(limited, |filtered|, |filtered| > |limited|);
  }

  datatype QueryError = BadQuery(query: J.JqlError) | BadLimit(limit: LimitError)

  datatype Response = Response(jql: string, normalized: string, limit: nat, page: Page)

  /** The whole request: query text and limit text are read first, and either can refuse it. */
  method QueryCaseQueue(host: J.Host, surface: Surface, candidates: seq<Case>, jql: string, limitText: Option<string>)
    returns (r: Result<Response, QueryError>)
    requires C.HostAgrees(host)
    ensures r.Ok? <==> J.Parse(host, jql).Ok? && ParseLimit(limitText).Ok?
    ensures J.Parse(host, jql).Err? ==> r == Err(BadQuery(J.Parse(host, jql).error))
    ensures J.Parse(host, jql).Ok? && ParseLimit(limitText).Err? ==> r == Err(BadLimit(ParseLimit(limitText).error))
    ensures r.Ok? ==>
              var q, limit := J.Parse(host, jql).value, ParseLimit(limitText).value;
              && J.Printable(q) && 1 <= limit <= HIGHEST_LIMIT && |r.value.page.cases| <= limit
              && r.value == Response(q.raw, J.Normalized(host, q), limit, Answer(surface, candidates, q, limit))
  {
    var parsed := J.Parse(host, jql);
    if parsed.Err? { return Err(BadQuery(parsed.error)); }
    var limit := ParseLimit(limitText);
    if limit.Err? { return Err(BadLimit(limit.error)); }
    G.ParsedIsGood(host, jql);
    var page := PageOf(surface, candidates, parsed.value, limit.value);
    return Ok(Response(parsed.value.raw, J.Normalized(host, parsed.value), limit.value, page));
  }

  lemma FrontDistinct(cases: seq<Case>, c: Case)
    ensures DistinctIds(cases + [c]) <==> DistinctIds(cases) && forall d :: d in cases ==> d.caseId != c.caseId
  {
    var ids := Map(cases, CaseId);
    assert Map(cases + [c], CaseId) == ids + [c.caseId];
    if DistinctIds(cases + [c]) {
      forall i, j | 0 <= i < j < |ids|
        ensures ids[i] != ids[j]
      {
        assert (ids + [c.caseId])[i] != (ids + [c.caseId])[j];
      }
      forall m | 0 <= m < |cases|
        ensures cases[m].caseId != c.caseId
      {
        assert (ids + [c.caseId])[m] != (ids + [c.caseId])[|ids|];
      }
    }
  }

  lemma {:induction false} FilterKeepsIds(cases: seq<Case>, keep: Case -> bool)
    requires DistinctIds(cases)
    ensures DistinctIds(Filter(cases, keep))
  {
    if cases != [] {
      var front, c := cases[..|cases| - 1], cases[|cases| - 1];
      assert cases == front + [c];
      FrontDistinct(front, c);
      FilterKeepsIds(front, keep);
      FrontDistinct(Filter(front, keep), c);
    }
  }

  lemma SameMatches(surface: Surface, a: seq<Case>, b: seq<Case>, keep: Case -> bool)
    requires DistinctIds(a) && DistinctIds(b) && (forall c :: c in a <==> c in b)
    ensures multiset(Filter(a, keep)) == multiset(Filter(b, keep))
    ensures DistinctIds(Filter(a, keep)) && DistinctIds(Filter(b, keep))
  {
    FilterKeepsIds(a, keep);
    FilterKeepsIds(b, keep);
    IdsSurviveSorting(Filter(a, keep), Filter(a, keep));
    IdsSurviveSorting(Filter(b, keep), Filter(b, keep));
    DistinctSameMembers(Filter(a, keep), Filter(b, keep));
  }

  /** The answer depends on which cases the store holds, not on the order it lists them in. */
  lemma AnswerIgnoresArrival(surface: Surface, a: seq<Case>, b: seq<Case>, q: J.Query, limit: nat)
    requires J.Printable(q) && DistinctIds(a) && DistinctIds(b) && (forall c :: c in a <==> c in b)
    ensures Answer(surface, a, q, limit) == Answer(surface, b, q, limit)
  {
    var keep := Keep(surface, q.clauses);
    var fa, fb := Filter(a, keep), Filter(b, keep);
    SameMatches(surface, a, b, keep);
    MultisetMembers(fa, fb);
    KeysAreTotal(q.orderBy);
    SortedHasNoTies(fa, q.orderBy);
    SortedPermutationsAgree(fa, fb, SortKeys(q.orderBy));
  }

  /** What a page leaves out sorts after everything on it, in the fields of the cases; and it leaves a case
      out only when it is full. */
  lemma PageIsTheBest(surface: Surface, candidates: seq<Case>, q: J.Query, limit: nat, shown: Case, hidden: Case)
    requires J.Printable(q) && DistinctIds(candidates)
    requires var page := Answer(surface, candidates, q, limit);
             shown in page.cases && hidden in candidates && hidden !in page.cases && Matches(surface, hidden, q.clauses)
    ensures Answer(surface, candidates, q, limit).truncated && |Answer(surface, candidates, q, limit).cases| == limit
    ensures shown in candidates && Matches(surface, shown, q.clauses)
    ensures LexAll(SortKeys(q.orderBy))(shown, hidden) && !LexAll(SortKeys(q.orderBy))(hidden, shown)
    ensures Sortable(q.orderBy) ==> ComesFirst(q.orderBy, shown, hidden)
  {
    var filtered := Filter(candidates, Keep(surface, q.clauses));
    var s := Sorted(filtered, q.orderBy);
    FilterKeepsIds(candidates, Keep(surface, q.clauses));
    KeysAreTotal(q.orderBy);
    MultiPassIsLexicographic(filtered, SortKeys(q.orderBy));
    MultisetMembers(s, filtered);
    SortedHasNoTies(filtered, q.orderBy);
    OutsideThePrefix(s, limit, shown, hidden, LexAll(SortKeys(q.orderBy)));
    IdsSurviveSorting(filtered, s);
    if Sortable(q.orderBy) { KeysTellTheFields(q.orderBy, shown, hidden); }
  }

  lemma OutsideThePrefix<T(!new)>(s: seq<T>, limit: nat, x: T, y: T, leq: (T, T) -> bool)
    requires SortedBy(s, leq) && NoTies(s, leq)
    requires x in Slice(s, Some(limit)) && y in s && y !in Slice(s, Some(limit))
    ensures limit < |s| && x in s && leq(x, y) && !leq(y, x)
  {
  }

  function OfBusiness(businessId: string): CaseFilter { CaseFilter(Some(businessId), None) }

  /** Both stores answer every query alike after any run. */
  lemma StoresAnswerAlike(surface: Surface, ops: seq<Op>, businessId: string, q: J.Query, limit: nat)
    requires FreshIds(ops) && SqlCaseStore.TimesInRange(ops) && J.Printable(q)
    ensures Answer(surface, ListedFromTable(SqlCaseStore.SqlRun(ops), OfBusiness(businessId), None), q, limit)
         == Answer(surface, Filter(RunFrom([], ops), (c: Case) => c.businessId == businessId), q, limit)
  {
    var filter := OfBusiness(businessId);
    var cases := RunFrom([], ops);
    var own := Filter(cases, (c: Case) => c.businessId == businessId);
    var selected := Chosen(cases, filter);
    var listed := ListedInMemory(cases, filter, None);
    SqlCaseStore.ReachableListsAgree(ops, filter, None);
    ReachableIsConsistent(ops);
    FilterKeepsIds(cases, (c: Case) => c.businessId == businessId);
    FilterKeepsIds(cases, (c: Case) => Selects(filter, c));
    MultisetMembers(listed, selected);
    IdsSurvive(selected, listed);
    AnswerIgnoresArrival(surface, listed, own, q, limit);
  }

  /** The canonical text asks the same question: reading it back gives the same answer. */
  lemma CanonicalTextAnswersAlike(host: J.Host, surface: Surface, candidates: seq<Case>, jql: string, limit: nat)
    requires C.HostAgrees(host) && J.Parse(host, jql).Ok?
    requires G.GoodQuery(host, J.Parse(host, jql).value) && R.PrintsReadably(host, J.Parse(host, jql).value)
    ensures var q := J.Parse(host, jql).value;
            var again := J.Parse(host, J.Normalized(host, q));
            && again.Ok? && J.Printable(again.value)
            && Answer(surface, candidates, again.value, limit) == Answer(surface, candidates, q, limit)
  {
    R.RoundTrip(host, jql);
  }
}
