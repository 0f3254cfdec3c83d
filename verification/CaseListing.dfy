/** Listing cases from the dictionary and from the table, and why the two agree: same filter,
    same order, and the order has no ties. */
module CaseListing {
  import opened Basics
  import opened Calendar
  import opened Cases
  import opened CaseHistory
  import opened CaseStore
  import opened Sorting

  datatype CaseFilter = CaseFilter(businessId: Option<string>, status: Option<Status>)

  predicate Selects(filter: CaseFilter, c: Case) {
    && (filter.businessId.Some? ==> c.businessId == filter.businessId.value)
    && (filter.status.Some? ==> c.status == filter.status.value)
  }

  /** `records[:limit]`; a negative limit drops from the end. */
  function Slice<T>(s: seq<T>, limit: Option<int>): seq<T> {
    match limit
    case None => s
    case Some(n) =>
      if n >= 0 then (if n <= |s| then s[..n] else s)
      else if |s| + n >= 0 then s[..|s| + n] else []
  }

  /** Highest priority first, then oldest, then by id. */
  predicate ListsBefore(a: Case, b: Case) {
    || a.priority > b.priority
    || (a.priority == b.priority
       && (a.openedAt < b.openedAt || (a.openedAt == b.openedAt && !TextLess(b.caseId, a.caseId))))
  }

  /** The cases a filter selects, in the order the store holds them. */
  function Chosen(cases: seq<Case>, filter: CaseFilter): (chosen: seq<Case>)
    ensures forall c :: c in chosen <==> c in cases && Selects(filter, c)
  {
    Filter(cases, (c: Case) => Selects(filter, c))
  }

  function FullList(cases: seq<Case>, filter: CaseFilter): seq<Case> { StableSort(Chosen(cases, filter), ListsBefore) }

  function ListedInMemory(cases: seq<Case>, filter: CaseFilter, limit: Option<int>): seq<Case> {
    Slice(FullList(cases, filter), limit)
  }

  lemma ListsBeforeIsTotal()
    ensures TotalPreorder(ListsBefore)
  {
    forall x: Case, y: Case ensures ListsBefore(x, y) || ListsBefore(y, x) {
      if TextLess(x.caseId, y.caseId) { TextLessAsymmetric(x.caseId, y.caseId); }
    }
    forall x: Case, y: Case, z: Case | ListsBefore(x, y) && ListsBefore(y, z) ensures ListsBefore(x, z) {
      if x.priority == z.priority && x.openedAt == z.openedAt && TextLess(z.caseId, x.caseId) {
        TextLessTotal(y.caseId, z.caseId);
        if TextLess(y.caseId, z.caseId) { TextLessTransitive(y.caseId, z.caseId, x.caseId); }
      }
    }
  }

  /** Never a lower priority before a higher one, among equals never a later opening before an earlier one, and among
      those never a larger id before a smaller one. */
  predicate KeepsOrder(a: Case, b: Case) {
    && a.priority >= b.priority && (a.priority == b.priority ==> a.openedAt <= b.openedAt)
    && (a.priority == b.priority && a.openedAt == b.openedAt ==> !TextLess(b.caseId, a.caseId))
  }

  /** What a caller gets: selected cases of the store in the listing order; all of them without a limit,
      and with one that is not negative the first so many, everything left out coming after what is shown. */
  ghost predicate ListsAsPromised(cases: seq<Case>, filter: CaseFilter, limit: Option<int>, listed: seq<Case>) {
    && (forall i, j :: 0 <= i < j < |listed| ==> KeepsOrder(listed[i], listed[j]))
    && (forall c :: c in listed ==> c in cases && Selects(filter, c))
    && (limit.None? ==> multiset(listed) == multiset(Chosen(cases, filter)))
    && (limit.Some? && limit.value >= 0 ==>
          && |listed| == (if limit.value <= |Chosen(cases, filter)| then limit.value else |Chosen(cases, filter)|)
          && forall shown, hidden ::
               shown in listed && hidden in cases && Selects(filter, hidden) && hidden !in listed ==>
                 KeepsOrder(shown, hidden))
    && (limit.Some? && limit.value < 0 ==>
          |listed| == if |Chosen(cases, filter)| + limit.value >= 0 then |Chosen(cases, filter)| + limit.value else 0)
  }

  lemma PrefixOfSorted(s: seq<Case>, listed: seq<Case>, shown: Case, hidden: Case)
    requires SortedBy(s, ListsBefore) && listed <= s && shown in listed && hidden in s && hidden !in listed
    ensures ListsBefore(shown, hidden)
  {
    var i :| 0 <= i < |listed| && listed[i] == shown;
    var j :| 0 <= j < |s| && s[j] == hidden;
    assert s[i] == shown && (j < |listed| ==> listed[j] == s[j]);
  }

  lemma ListingKeepsItsPromise(cases: seq<Case>, filter: CaseFilter, limit: Option<int>)
    ensures ListsAsPromised(cases, filter, limit, ListedInMemory(cases, filter, limit))
  {
    var s, chosen, listed := FullList(cases, filter), Chosen(cases, filter), ListedInMemory(cases, filter, limit);
    ListsBeforeIsTotal();
    StableSortSorts(chosen, ListsBefore);
    MultisetMembers(s, chosen);
    assert listed <= s;
    forall shown, hidden | shown in listed && hidden in cases && Selects(filter, hidden) && hidden !in listed
      ensures KeepsOrder(shown, hidden)
    {
      PrefixOfSorted(s, listed, shown, hidden);
    }
  }

  // ---- the table

  /** A row: the case as JSON text decodes it, beside the columns copied out for queries. */
  datatype Row = Row(
    caseId: string,
    businessId: string,
    dedupeKey: string,
    status: Status,
    caseType: string,
    priority: int,
    openedAt: string,
    updatedAt: string,
    data: Case)

  function RowOf(c: Case): Row {
    Row(c.caseId, c.businessId, c.dedupeKey, c.status, CaseTypeText(c.caseType), c.priority, Iso(c.openedAt),
      Iso(c.updatedAt), c)
  }

  predicate Conflicts(a: Row, b: Row) {
    a.caseId == b.caseId || (a.businessId == b.businessId && a.dedupeKey == b.dedupeKey)
  }

  /** `INSERT OR REPLACE` under the primary key and the unique business and dedupe key: every
      conflicting row goes, then the new one is added. */
  function InsertOrReplace(rows: seq<Row>, row: Row): seq<Row> {
    Filter(rows, (r: Row) => !Conflicts(r, row)) + [row]
  }

  predicate RowSelected(filter: CaseFilter, r: Row) {
    && (filter.businessId.Some? ==> r.businessId == filter.businessId.value)
    && (filter.status.Some? ==> r.status == filter.status.value)
  }

  /** `ORDER BY priority_score DESC, opened_at ASC, case_id ASC` over the text columns. */
  predicate RowBefore(a: Row, b: Row) {
    || a.priority > b.priority
    || (a.priority == b.priority &&
        (TextLess(a.openedAt, b.openedAt) || (a.openedAt == b.openedAt && !TextLess(b.caseId, a.caseId))))
  }

  /** `LIMIT n`: a negative one means no limit. */
  function SqlLimit<T>(s: seq<T>, limit: Option<int>): seq<T> {
    match limit
    case None => s
    case Some(n) => if 0 <= n <= |s| then s[..n] else s
  }

  /** Decoding a stored row backfills what older rows lack. */
  function Decode(r: Row): Case { Backfill(r.data) }

  function ChosenRows(rows: seq<Row>, filter: CaseFilter): (chosen: seq<Row>)
    ensures forall r :: r in chosen <==> r in rows && RowSelected(filter, r)
  {
    Filter(rows, (r: Row) => RowSelected(filter, r))
  }

  function FullRows(rows: seq<Row>, filter: CaseFilter): seq<Row> { StableSort(ChosenRows(rows, filter), RowBefore) }

  function ListedFromTable(rows: seq<Row>, filter: CaseFilter, limit: Option<int>): seq<Case> {
    Map(SqlLimit(FullRows(rows, filter), limit), Decode)
  }

  // ---- the table mirrors the dictionary

  ghost predicate TimesRepresentable(cases: seq<Case>) {
    forall c :: c in cases ==> Representable(c.openedAt)
  }

  /** The same cases, each in one row whose columns repeat the case's fields. */
  ghost predicate Mirrors(rows: seq<Row>, cases: seq<Case>) {
    && NoDuplicates(rows)
    && (forall r :: r in rows ==> r.data in cases && r == RowOf(r.data))
    && (forall c :: c in cases ==> RowOf(c) in rows)
  }

  function DataOf(r: Row): Case { r.data }

  /** Sorting rows sorts the cases in them when both orders agree. */
  lemma {:induction false} SortThroughRows(rows: seq<Row>)
    requires forall a, b :: a in rows && b in rows ==> (RowBefore(a, b) <==> ListsBefore(a.data, b.data))
    ensures Map(StableSort(rows, RowBefore), DataOf) == StableSort(Map(rows, DataOf), ListsBefore)
  {
    if rows != [] {
      var rest := rows[1..];
      assert rows == [rows[0]] + rest;
      SortThroughRows(rest);
      assert Map(rows, DataOf)[1..] == Map(rest, DataOf);
      var sorted := StableSort(rest, RowBefore);
      MultisetMembers(sorted, rest);
      InsertThroughRows(rows[0], sorted);
    }
  }

  lemma DataCons(r: Row, rows: seq<Row>)
    ensures Map([r] + rows, DataOf) == [r.data] + Map(rows, DataOf)
  {
  }

  lemma {:induction false} InsertThroughRows(row: Row, rows: seq<Row>)
    requires forall b :: b in rows ==> (RowBefore(row, b) <==> ListsBefore(row.data, b.data))
    ensures Map(Insert(row, rows, RowBefore), DataOf) == Insert(row.data, Map(rows, DataOf), ListsBefore)
  {
    if rows != [] {
      var first, rest := rows[0], rows[1..];
      assert first in rows;
      DataCons(first, rest);
      assert [first] + rest == rows;
      InsertThroughRows(row, rest);
      DataCons(first, Insert(row, rest, RowBefore));
      DataCons(row, rows);
    }
  }

  lemma OrdersAgree(a: Case, b: Case)
    requires Representable(a.openedAt) && Representable(b.openedAt)
    ensures RowBefore(RowOf(a), RowOf(b)) <==> ListsBefore(a, b)
  {
    IsoOrder(a.openedAt, b.openedAt);
    IsoOrder(b.openedAt, a.openedAt);
    if Iso(a.openedAt) == Iso(b.openedAt) { TextLessIrreflexive(Iso(a.openedAt)); }
  }

  lemma {:induction false} TextLessIrreflexive(s: string)
    ensures !TextLess(s, s)
  {
    if s != [] { TextLessIrreflexive(s[1..]); }
  }

  lemma DecodedRows(rows: seq<Row>, cases: seq<Case>)
    requires Mirrors(rows, cases) && Consistent(cases)
    ensures forall r :: r in rows ==> Decode(r) == r.data
  {
  }

  lemma DistinctIdsDistinctCases(cases: seq<Case>)
    requires NoDuplicates(Map(cases, CaseId))
    ensures NoDuplicates(cases)
  {
  }

  lemma RowsDistinctByData(rows: seq<Row>)
    requires NoDuplicates(rows) && forall r :: r in rows ==> r == RowOf(r.data)
    ensures NoDuplicates(Map(rows, DataOf))
  {
  }

  lemma ChosenDistinct(rows: seq<Row>, cases: seq<Case>, filter: CaseFilter)
    requires Mirrors(rows, cases) && Consistent(cases)
    ensures NoDuplicates(Map(ChosenRows(rows, filter), DataOf)) && NoDuplicates(Chosen(cases, filter))
  {
    FilterDistinct(rows, (r: Row) => RowSelected(filter, r));
    DistinctIdsDistinctCases(cases);
    FilterDistinct(cases, (c: Case) => Selects(filter, c));
    RowsDistinctByData(ChosenRows(rows, filter));
  }

  /** The selected rows hold the selected cases. */
  lemma SelectionsAgree(rows: seq<Row>, cases: seq<Case>, filter: CaseFilter)
    requires Mirrors(rows, cases)
    ensures forall c :: c in Map(ChosenRows(rows, filter), DataOf) <==> c in Chosen(cases, filter)
  {
    var fr, fc := ChosenRows(rows, filter), Chosen(cases, filter);
    MapMembers(fr, DataOf);
    forall c | c in fc ensures c in Map(fr, DataOf) {
      assert RowOf(c) in fr && DataOf(RowOf(c)) == c;
    }
  }

  lemma OnlyEqualCasesTie(cases: seq<Case>, a: Case, b: Case)
    requires Consistent(cases) && a in cases && b in cases && ListsBefore(a, b) && ListsBefore(b, a)
    ensures a == b
  {
    TextLessTotal(a.caseId, b.caseId);
    SameId(cases, a, b);
  }

  /** Before limits, table and dictionary list the same sequence. */
  lemma FullListsAgree(rows: seq<Row>, cases: seq<Case>, filter: CaseFilter)
    requires Mirrors(rows, cases) && Consistent(cases) && TimesRepresentable(cases)
    ensures Map(FullRows(rows, filter), DataOf) == FullList(cases, filter)
  {
    var fr := ChosenRows(rows, filter);
    forall a, b | a in fr && b in fr ensures RowBefore(a, b) <==> ListsBefore(a.data, b.data) {
      OrdersAgree(a.data, b.data);
    }
    SortThroughRows(fr);
    SelectionsAgree(rows, cases, filter);
    ChosenDistinct(rows, cases, filter);
    SortsAlike(cases, Map(fr, DataOf), Chosen(cases, filter));
  }

  lemma SortsAlike(cases: seq<Case>, a: seq<Case>, b: seq<Case>)
    requires Consistent(cases) && NoDuplicates(a) && NoDuplicates(b)
    requires (forall c :: c in a <==> c in b) && (forall c :: c in b ==> c in cases)
    ensures StableSort(a, ListsBefore) == StableSort(b, ListsBefore)
  {
    ListsBeforeIsTotal();
    forall x, y | x in a && y in a && ListsBefore(x, y) && ListsBefore(y, x) ensures x == y {
      OnlyEqualCasesTie(cases, x, y);
    }
    SortIgnoresArrival(a, b, ListsBefore);
  }

  lemma LimitsAgree<T>(s: seq<T>, limit: Option<int>)
    ensures SqlLimit(s, limit) == Slice(s, limit) <==> limit.None? || limit.value >= 0 || s == []
  {
  }

  lemma LimitThenDecode(rows: seq<Row>, limit: Option<int>)
    ensures Map(SqlLimit(rows, limit), Decode) == SqlLimit(Map(rows, Decode), limit)
  {
  }

  lemma DecodesAsData(rows: seq<Row>, some: seq<Row>)
    requires (forall r :: r in some ==> r in rows) && (forall r :: r in rows ==> Decode(r) == r.data)
    ensures Map(some, Decode) == Map(some, DataOf)
  {
    forall i | 0 <= i < |some| ensures Decode(some[i]) == DataOf(some[i]) { assert some[i] in rows; }
  }

  lemma DecodedListsAgree(rows: seq<Row>, cases: seq<Case>, filter: CaseFilter)
    requires Mirrors(rows, cases) && Consistent(cases) && TimesRepresentable(cases)
    ensures Map(FullRows(rows, filter), Decode) == FullList(cases, filter)
  {
    FullListsAgree(rows, cases, filter);
    DecodedRows(rows, cases);
    MultisetMembers(FullRows(rows, filter), ChosenRows(rows, filter));
    DecodesAsData(rows, FullRows(rows, filter));
  }

  lemma NothingSelected(cases: seq<Case>, filter: CaseFilter)
    ensures FullList(cases, filter) == [] <==> forall c :: c in cases ==> !Selects(filter, c)
  {
    var fc := Chosen(cases, filter);
    MultisetMembers(FullList(cases, filter), fc);
    if fc != [] { assert fc[0] in fc; }
  }

  /** Both stores list the same sequence for every filter and limit, except that a negative limit
      drops cases from the dictionary's list only: it agrees just when nothing is selected. */
  lemma ListsAgree(rows: seq<Row>, cases: seq<Case>, filter: CaseFilter, limit: Option<int>)
    requires Mirrors(rows, cases) && Consistent(cases) && TimesRepresentable(cases)
    ensures ListedFromTable(rows, filter, limit) == ListedInMemory(cases, filter, limit)
       <==> limit.None? || limit.value >= 0 || forall c :: c in cases ==> !Selects(filter, c)
  {
    DecodedListsAgree(rows, cases, filter);
    LimitThenDecode(FullRows(rows, filter), limit);
    LimitsAgree(FullList(cases, filter), limit);
    NothingSelected(cases, filter);
  }
}
