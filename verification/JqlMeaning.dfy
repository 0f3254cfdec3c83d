/** What a query selects and shows, told by the fields of the cases. */
module JqlMeaning {
  import opened Basics
  import opened Decimals
  import opened Cases
  import opened CaseListing
  import opened JqlQuery
  import Sorting
  import J = JqlSyntax
  import G = JqlGood
  import C = JqlClean

  predicate Is(surface: Surface, c: Case, field: string, v: J.Value) {
    MatchesClause(surface, c, Compare(field, "=", v))
  }

  // ---- equality

  lemma StatusTextsDiffer(s: Status, t: Status)
    ensures StatusText(s) == StatusText(t) <==> s == t
  {
    assert |StatusText(Open)| == 4 && |StatusText(Acknowledged)| == 12 && |StatusText(InProgress)| == 11;
    assert |StatusText(Resolved)| == 8 && |StatusText(Dismissed)| == 9;
  }

  lemma SeverityTextsDiffer(s: Severity, t: Severity)
    ensures SeverityText(s) == SeverityText(t) <==> s == t
  {
    assert |SeverityText(Info)| == 4 && |SeverityText(Warning)| == 7 && |SeverityText(Critical)| == 8;
  }

  lemma TypeTextsDiffer(s: CaseType, t: CaseType)
    ensures CaseTypeText(s) == CaseTypeText(t) <==> s == t
  {
    assert |CaseTypeText(SalesDrop)| == 10 && |CaseTypeText(StockoutRisk)| == 13;
    assert |CaseTypeText(SpendWithoutOrders)| == 20 && |CaseTypeText(DataStale)| == 10;
    assert |CaseTypeText(FulfillmentBacklog)| == 19 && |CaseTypeText(UnansweredConversations)| == 24;
    assert |CaseTypeText(ChannelMixShift)| == 17;
    assert CaseTypeText(SalesDrop)[0] == 's' && CaseTypeText(DataStale)[0] == 'd';
  }

  lemma NamedValues(surface: Surface, c: Case)
    ensures FieldValue(surface, c, "status") == IsText(StatusText(c.status))
    ensures FieldValue(surface, c, "severity") == IsText(SeverityText(c.severity))
    ensures FieldValue(surface, c, "case_type") == IsText(CaseTypeText(c.caseType))
    ensures FieldValue(surface, c, "issue_type") == IsText(CaseTypeText(c.caseType))
  {
  }

  lemma TextEquals(surface: Surface, c: Case, field: string, held: string, text: string)
    requires field != "source_connector" && FieldValue(surface, c, field) == IsText(held)
    ensures Is(surface, c, field, J.Text(text)) <==> held == text
  {
  }

  /** The fields with a fixed vocabulary. */
  lemma NamedFields(surface: Surface, c: Case, status: Status, severity: Severity, t: CaseType)
    ensures Is(surface, c, "status", J.Text(StatusText(status))) <==> c.status == status
    ensures Is(surface, c, "severity", J.Text(SeverityText(severity))) <==> c.severity == severity
    ensures Is(surface, c, "case_type", J.Text(CaseTypeText(t))) <==> c.caseType == t
    ensures Is(surface, c, "issue_type", J.Text(CaseTypeText(t))) <==> c.caseType == t
  {
    StatusTextsDiffer(c.status, status);
    SeverityTextsDiffer(c.severity, severity);
    TypeTextsDiffer(c.caseType, t);
    NamedValues(surface, c);
    TextEquals(surface, c, "status", StatusText(c.status), StatusText(status));
    TextEquals(surface, c, "severity", SeverityText(c.severity), SeverityText(severity));
    TextEquals(surface, c, "case_type", CaseTypeText(c.caseType), CaseTypeText(t));
    TextEquals(surface, c, "issue_type", CaseTypeText(c.caseType), CaseTypeText(t));
  }

  predicate ScopeSays(c: Case, key: string, text: string) { key in c.scope && c.scope[key] == text }

  /** The fields that hold any text, one that is missing equalling none. */
  lemma TextFields(surface: Surface, c: Case, text: string)
    ensures Is(surface, c, "project", J.Text(text)) <==> surface.projectKey(c.businessId) == text
    ensures Is(surface, c, "assignee_ref", J.Text(text)) <==> c.assigneeRef == Some(text)
    ensures Is(surface, c, "latest_run_id", J.Text(text)) <==> c.latestRunId == Some(text)
    ensures Is(surface, c, "dedupe_key", J.Text(text)) <==> c.dedupeKey == text
  {
  }

  lemma EntityFields(surface: Surface, c: Case, text: string)
    ensures Is(surface, c, "entity.kind", J.Text(text)) <==> ScopeSays(c, "kind", text)
    ensures Is(surface, c, "entity.id", J.Text(text)) <==> ScopeSays(c, "id", text)
    ensures Is(surface, c, "entity.label", J.Text(text)) <==> ScopeSays(c, "label", text)
  {
  }

  /** A connector is a source when some snapshot of the case names it; `degraded` asks whether some snapshot is
      stale, degraded or missing. */
  lemma EvidenceFields(surface: Surface, c: Case, text: string, flag: bool)
    ensures Is(surface, c, "source_connector", J.Text(text))
       <==> text != "" && exists s :: s in c.snapshots && s.source == text
    ensures Is(surface, c, "degraded", J.Flag(flag))
       <==> (flag <==> exists s :: s in c.snapshots && (s.freshness == Stale || s.freshness == Degraded
                                                        || s.freshness == Missing))
  {
    assert IsDegraded(c) <==> exists s :: s in c.snapshots && (s.freshness == Stale || s.freshness == Degraded
                                                               || s.freshness == Missing);
    assert forall s :: s in c.snapshots && s.source != "" ==> s.source in Sources(c);
  }

  /** A case that was not resolved has no resolution time: it is not before, at or after any instant. */
  lemma ResolvedField(surface: Surface, c: Case, t: int)
    ensures var at := surface.instantOf(t);
            && (Is(surface, c, "resolved_at", J.Moment(t)) <==> c.resolvedAt == Some(at))
            && (MatchesClause(surface, c, Compare("resolved_at", "<", J.Moment(t)))
                <==> c.resolvedAt.Some? && c.resolvedAt.value < at)
            && (MatchesClause(surface, c, Compare("resolved_at", "<=", J.Moment(t)))
                <==> c.resolvedAt.Some? && c.resolvedAt.value <= at)
            && (MatchesClause(surface, c, Compare("resolved_at", ">", J.Moment(t)))
                <==> c.resolvedAt.Some? && c.resolvedAt.value > at)
            && (MatchesClause(surface, c, Compare("resolved_at", ">=", J.Moment(t)))
                <==> c.resolvedAt.Some? && c.resolvedAt.value >= at)
  {
  }

  // ---- the fields that can be sorted by

  /** On the fields that can be sorted by, the comparisons compare the case's own number or instant. */
  lemma OrderedFields(surface: Surface, c: Case, n: int, t: int)
    ensures Compares(surface, c, "priority_score", J.Number(n), c.priority, n)
    ensures Compares(surface, c, "opened_at", J.Moment(t), c.openedAt, surface.instantOf(t))
    ensures Compares(surface, c, "updated_at", J.Moment(t), c.updatedAt, surface.instantOf(t))
  {
    ComparisonsFollowTheSort(surface, c, "priority_score", J.Number(n));
    ComparisonsFollowTheSort(surface, c, "opened_at", J.Moment(t));
    ComparisonsFollowTheSort(surface, c, "updated_at", J.Moment(t));
  }

  predicate Compares(surface: Surface, c: Case, field: string, v: J.Value, held: int, n: int) {
    && (MatchesClause(surface, c, Compare(field, "<", v)) <==> held < n)
    && (MatchesClause(surface, c, Compare(field, "<=", v)) <==> held <= n)
    && (MatchesClause(surface, c, Compare(field, ">", v)) <==> held > n)
    && (MatchesClause(surface, c, Compare(field, ">=", v)) <==> held >= n)
    && (MatchesClause(surface, c, Compare(field, "=", v)) <==> held == n)
    && (MatchesClause(surface, c, Compare(field, "!=", v)) <==> held != n)
  }

  // ---- the page

  /** Without a limit text a page shows fifty cases; a printed number asks for as many, a hundred at most and one at
      least. */
  lemma LimitReads(n: int)
    ensures ParseLimit(None) == Ok(50) && ParseLimit(Some("")) == Ok(50) && IntText(n) != ""
    ensures ParseLimit(Some(IntText(n))) == if n < 1 then Err(NotPositive) else if n <= 100 then Ok(n) else Ok(100)
  {
    ParsePrintedInt(n);
    LimitOf(IntText(n), n);
  }

  lemma LimitOf(text: string, n: int)
    requires ParseInt(text) == Some(n) && text != ""
    ensures ParseLimit(Some(text)) == if n < 1 then Err(NotPositive) else if n <= 100 then Ok(n) else Ok(100)
  {
  }

  /** What is parsed can be sorted by. */
  lemma ParsedIsSortable(host: J.Host, jql: string)
    requires C.HostAgrees(host) && J.Parse(host, jql).Ok?
    ensures Sortable(J.Parse(host, jql).value.orderBy)
  {
    G.ParsedIsGood(host, jql);
    var order := J.Parse(host, jql).value.orderBy;
    forall i | 0 <= i < |order| ensures Sortable([order[i]]) { assert order[i] in order; FieldsSort(order[i]); }
    forall i | 0 <= i < |order|
      ensures (order[i].0 == "priority_score" || order[i].0 == "opened_at" || order[i].0 == "updated_at")
              && (order[i].1 == "ASC" || order[i].1 == "DESC")
    {
      assert [order[i]][0] == order[i];
    }
  }

  lemma FieldsSort(entry: (string, string))
    requires entry.0 in J.SORT_FIELDS && (entry.1 == "ASC" || entry.1 == "DESC")
    ensures Sortable([entry])
  {
  }

  /** The page in terms of the cases: it shows matching cases in the order asked for, as many as there are up to the
      limit; the total counts all that match. */
  lemma PageShows(surface: Surface, candidates: seq<Case>, q: J.Query, limit: nat)
    requires J.Printable(q) && DistinctIds(candidates) && Sortable(q.orderBy)
    ensures var page := Answer(surface, candidates, q, limit);
            && InOrder(q.orderBy, page.cases)
            && (forall c :: c in page.cases ==> c in candidates && Matches(surface, c, q.clauses))
            && page.total == |Filter(candidates, Keep(surface, q.clauses))|
            && |page.cases| == (if page.total <= limit then page.total else limit)
            && (page.truncated <==> page.total > limit)
  {
    var filtered := Filter(candidates, Keep(surface, q.clauses));
    FilterKeepsIds(candidates, Keep(surface, q.clauses));
    SortedIsTheArrangement(filtered, q.orderBy, Sorted(filtered, q.orderBy));
    Sorting.MultisetMembers(Sorted(filtered, q.orderBy), filtered);
    PrefixInOrder(q.orderBy, Sorted(filtered, q.orderBy), limit);
  }

  lemma PrefixInOrder(order: J.Order, s: seq<Case>, limit: nat)
    requires InOrder(order, s)
    ensures InOrder(order, Slice(s, Some(limit)))
  {
  }

  // ---- which values a field takes

  lemma Vocabularies(text: string)
    ensures text in J.STATUSES <==> exists s :: StatusText(s) == text
    ensures text in J.CATEGORIES <==> exists s :: Category(s) == text
    ensures text in J.SEVERITIES <==> exists s :: SeverityText(s) == text
  {
    assert StatusText(Open) == "open" && StatusText(Acknowledged) == "acknowledged";
    assert StatusText(InProgress) == "in_progress" && StatusText(Resolved) == "resolved";
    assert StatusText(Dismissed) == "dismissed";
    assert Category(Open) == "to_do" && Category(InProgress) == "in_progress" && Category(Resolved) == "done";
    assert SeverityText(Info) == "info" && SeverityText(Warning) == "warning" && SeverityText(Critical) == "critical";
  }

  lemma TypeVocabulary(text: string)
    ensures text in J.CASE_TYPES <==> exists t :: CaseTypeText(t) == text
  {
    assert CaseTypeText(SalesDrop) == "sales_drop" && CaseTypeText(StockoutRisk) == "stockout_risk";
    assert CaseTypeText(SpendWithoutOrders) == "spend_without_orders" && CaseTypeText(DataStale) == "data_stale";
    assert CaseTypeText(FulfillmentBacklog) == "fulfillment_backlog";
    assert CaseTypeText(UnansweredConversations) == "unanswered_conversations";
    assert CaseTypeText(ChannelMixShift) == "channel_mix_shift";
  }

  predicate TakesKind(field: string, kind: J.Kind) { J.CheckedKind(field, "=") == Ok(kind) }

  /** Which values each field is compared with. */
  lemma VocabularyFields()
    ensures TakesKind("status", J.EnumKind(J.STATUSES)) && TakesKind("status_category", J.EnumKind(J.CATEGORIES))
    ensures TakesKind("severity", J.EnumKind(J.SEVERITIES))
    ensures TakesKind("case_type", J.EnumKind(J.CASE_TYPES)) && TakesKind("issue_type", J.EnumKind(J.CASE_TYPES))
  {
  }

  lemma AnyTextFields()
    ensures TakesKind("project", J.StringKind) && TakesKind("assignee_ref", J.StringKind)
    ensures TakesKind("entity.kind", J.StringKind) && TakesKind("entity.id", J.StringKind)
    ensures TakesKind("latest_run_id", J.StringKind) && TakesKind("source_connector", J.StringKind)
  {
  }

  lemma OtherFields()
    ensures TakesKind("entity.label", J.StringKind) && TakesKind("dedupe_key", J.StringKind)
    ensures TakesKind("priority_score", J.IntKind) && TakesKind("degraded", J.BoolKind)
    ensures TakesKind("opened_at", J.TimeKind) && TakesKind("updated_at", J.TimeKind)
    ensures TakesKind("resolved_at", J.TimeKind)
  {
  }

  /** How bare value text reads under each kind; anything else in it is refused as invalid. */
  lemma ValueReads(host: J.Host, v: string, allowed: set<string>)
    requires J.ValueChars(v)
    ensures J.Coerce(host, v, J.StringKind) == Ok(J.Text(v))
    ensures J.Coerce(host, v, J.EnumKind(allowed)) == if v in allowed then Ok(J.Text(v)) else Err(J.UnsupportedValue)
    ensures forall n :: ParseInt(v) == Some(n) ==> J.Coerce(host, v, J.IntKind) == Ok(J.Number(n))
    ensures forall t :: host.readTime(v) == Some(t) ==> J.Coerce(host, v, J.TimeKind) == Ok(J.Moment(t))
    ensures v == "true" ==> J.Coerce(host, v, J.BoolKind) == Ok(J.Flag(true))
    ensures v == "false" ==> J.Coerce(host, v, J.BoolKind) == Ok(J.Flag(false))
    ensures v != "true" && v != "false" ==> J.Coerce(host, v, J.BoolKind) == Err(J.UnsupportedValue)
  {
    G.PlainValue(v);
  }
}
