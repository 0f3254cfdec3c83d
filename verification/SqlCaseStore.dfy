/** The SQLite case store, and its refinement of the in-memory one under every run. */
module SqlCaseStore {
  import opened Basics
  import opened Calendar
  import opened Cases
  import opened CaseHistory
  import opened CaseStore
  import opened CaseListing

  // ---- queries

  function SelectById(rows: seq<Row>, caseId: string): (r: Option<Case>)
    ensures r.Some? ==> exists row :: row in rows && row.caseId == caseId && r == Some(Decode(row))
    ensures r.None? ==> forall row :: row in rows ==> row.caseId != caseId
  {
    if rows == [] then None
    else if rows[0].caseId == caseId then Some(Decode(rows[0]))
    else SelectById(rows[1..], caseId)
  }

  function SelectByKey(rows: seq<Row>, businessId: string, dedupeKey: string): (r: Option<Case>)
    ensures r.Some? ==> exists row :: && row in rows && row.businessId == businessId && row.dedupeKey == dedupeKey
                                      && r == Some(Decode(row))
    ensures r.None? ==> forall row :: row in rows ==> !(row.businessId == businessId && row.dedupeKey == dedupeKey)
  {
    if rows == [] then None
    else if rows[0].businessId == businessId && rows[0].dedupeKey == dedupeKey then Some(Decode(rows[0]))
    else SelectByKey(rows[1..], businessId, dedupeKey)
  }

  function LoadRow(rows: seq<Row>, op: Op): Option<Case> {
    if op.Detect? then SelectByKey(rows, op.d.businessId, op.d.dedupeKey) else SelectById(rows, op.caseId)
  }

  function SqlResult(rows: seq<Row>, op: Op): Result<Case, CaseError> { Outcome(op, LoadRow(rows, op)) }

  function SqlApply(rows: seq<Row>, op: Op): seq<Row> {
    match SqlResult(rows, op)
    case Ok(c) => InsertOrReplace(rows, RowOf(c))
    case Err(_) => rows
  }

  function SqlRun(ops: seq<Op>): seq<Row> {
    if ops == [] then [] else SqlApply(SqlRun(ops[..|ops| - 1]), ops[|ops| - 1])
  }

  // ---- refinement

  lemma LoadsAgree(rows: seq<Row>, cases: seq<Case>, op: Op)
    requires Mirrors(rows, cases) && Consistent(cases)
    ensures LoadRow(rows, op) == Load(cases, op)
  {
    DecodedRows(rows, cases);
    match LoadRow(rows, op)
    case Some(c) =>
      if op.Detect? {
        SameKey(cases, c, Load(cases, op).value);
      } else {
        SameId(cases, c, Load(cases, op).value);
      }
    case None =>
  }

  /** The only row that conflicts with a written case is the case's own. */
  lemma ConflictIsOwnRow(rows: seq<Row>, cases: seq<Case>, c: Case, r: Row)
    requires Mirrors(rows, cases) && r in rows
    requires forall x :: x in cases ==> (x.caseId == c.caseId <==> DedupeOf(x) == DedupeOf(c))
    ensures Conflicts(r, RowOf(c)) <==> r.caseId == c.caseId
  {
  }

  lemma ReplacedRows(rows: seq<Row>, cases: seq<Case>, c: Case)
    requires Mirrors(rows, cases)
    requires forall x :: x in cases ==> (x.caseId == c.caseId <==> DedupeOf(x) == DedupeOf(c))
    ensures var after := InsertOrReplace(rows, RowOf(c));
            NoDuplicates(after) && forall r :: r in after <==> r == RowOf(c) || (r in rows && r.caseId != c.caseId)
  {
    var kept := Filter(rows, (r: Row) => !Conflicts(r, RowOf(c)));
    FilterDistinct(rows, (r: Row) => !Conflicts(r, RowOf(c)));
    forall r | r in rows
      ensures Conflicts(r, RowOf(c)) <==> r.caseId == c.caseId
    {
      ConflictIsOwnRow(rows, cases, c, r);
    }
    assert RowOf(c) !in kept;
  }

  lemma ReplacedHoldsPut(rows: seq<Row>, cases: seq<Case>, c: Case, r: Row)
    requires Mirrors(rows, cases) && Consistent(cases)
    requires r == RowOf(c) || (r in rows && r.caseId != c.caseId)
    ensures r.data in Put(cases, c) && r == RowOf(r.data)
  {
    PutMembers(cases, c);
  }

  lemma PutHasRow(rows: seq<Row>, cases: seq<Case>, c: Case, x: Case)
    requires Mirrors(rows, cases) && Consistent(cases) && x in Put(cases, c)
    ensures RowOf(x) == RowOf(c) || (RowOf(x) in rows && x.caseId != c.caseId)
  {
    PutMembers(cases, c);
  }

  /** Replacing a row never evicts another case, and keeps table and dictionary in step. */
  lemma ReplaceMirrors(rows: seq<Row>, cases: seq<Case>, c: Case)
    requires Mirrors(rows, cases) && Consistent(cases)
    requires forall x :: x in cases ==> (x.caseId == c.caseId <==> DedupeOf(x) == DedupeOf(c))
    ensures Mirrors(InsertOrReplace(rows, RowOf(c)), Put(cases, c))
    ensures forall r :: r in rows && r.caseId != c.caseId ==> r in InsertOrReplace(rows, RowOf(c))
  {
    var after := InsertOrReplace(rows, RowOf(c));
    ReplacedRows(rows, cases, c);
    forall r | r in after ensures r.data in Put(cases, c) && r == RowOf(r.data) { ReplacedHoldsPut(rows, cases, c, r); }
    forall x | x in Put(cases, c) ensures RowOf(x) in after { PutHasRow(rows, cases, c, x); }
  }

  ghost predicate TimesInRange(ops: seq<Op>) { forall i :: 0 <= i < |ops| ==> Representable(ops[i].at) }

  lemma {:induction false} OpenTimesRepresentable(ops: seq<Op>)
    requires FreshIds(ops) && TimesInRange(ops)
    ensures TimesRepresentable(RunFrom([], ops))
  {
    if ops != [] {
      var front, op := ops[..|ops| - 1], ops[|ops| - 1];
      var cases := RunFrom([], front);
      OpenTimesRepresentable(front);
      ReachableIsConsistent(front);
      if ResultOf(cases, op).Ok? {
        if op.Detect? { ReachableIsConsistent(front); NewIdIsNew(ops); }
        ResultIsSound(cases, op);
        PutMembers(cases, ResultOf(cases, op).value);
        if Load(cases, op).None? { OpenIsSound(op.d, op.newIds, op.caseId, op.at); }
      }
    }
  }

  /** Under every run of operations the two stores hold the same cases and give the same results. */
  lemma {:induction false} TableRefinesDictionary(ops: seq<Op>)
    requires FreshIds(ops)
    ensures Mirrors(SqlRun(ops), RunFrom([], ops))
    ensures ops != [] ==>
              SqlResult(SqlRun(ops[..|ops| - 1]), ops[|ops| - 1])
                == ResultOf(RunFrom([], ops[..|ops| - 1]), ops[|ops| - 1])
  {
    if ops != [] {
      var front, op := ops[..|ops| - 1], ops[|ops| - 1];
      var cases, rows := RunFrom([], front), SqlRun(front);
      TableRefinesDictionary(front);
      ReachableIsConsistent(front);
      LoadsAgree(rows, cases, op);
      if ResultOf(cases, op).Ok? {
        if op.Detect? { NewIdIsNew(ops); }
        ResultIsSound(cases, op);
        ReplaceMirrors(rows, cases, ResultOf(cases, op).value);
      }
    }
  }

  /** After any run, listing gives the same sequence from either store, exactly when the limit is
      absent or non-negative or nothing is selected. */
  lemma ReachableListsAgree(ops: seq<Op>, filter: CaseFilter, limit: Option<int>)
    requires FreshIds(ops) && TimesInRange(ops)
    ensures ListedFromTable(SqlRun(ops), filter, limit) == ListedInMemory(RunFrom([], ops), filter, limit)
       <==> limit.None? || limit.value >= 0 || forall c :: c in RunFrom([], ops) ==> !Selects(filter, c)
  {
    TableRefinesDictionary(ops);
    ReachableIsConsistent(ops);
    OpenTimesRepresentable(ops);
    ListsAgree(SqlRun(ops), RunFrom([], ops), filter, limit);
  }

  /** With one stored case and the limit -1 the dictionary lists nothing and the table lists the case. */
  lemma NegativeLimitDiffers(d: Detection, newIds: nat -> string, caseId: string, at: Time)
    requires Representable(at)
    ensures var ops := [Detect(d, newIds, caseId, at)];
            var filter := CaseFilter(None, None);
            ListedInMemory(RunFrom([], ops), filter, Some(-1)) == []
              && ListedFromTable(SqlRun(ops), filter, Some(-1)) != []
  {
    var ops, filter := [Detect(d, newIds, caseId, at)], CaseFilter(None, None);
    var c := OneStored(d, newIds, caseId, at);
    OneListed(c);
    assert TimesInRange(ops);
    ReachableListsAgree(ops, filter, Some(-1));
    assert Selects(filter, c);
  }

  lemma OneStored(d: Detection, newIds: nat -> string, caseId: string, at: Time) returns (c: Case)
    ensures RunFrom([], [Detect(d, newIds, caseId, at)]) == [c]
  {
    var ops := [Detect(d, newIds, caseId, at)];
    OpenIsSound(d, newIds, caseId, at);
    c := Upsert(None, d, newIds, caseId, at).value;
    assert ops[..0] == [] && RunFrom([], []) == [];
  }

  lemma OneListed(c: Case)
    ensures ListedInMemory([c], CaseFilter(None, None), Some(-1)) == []
  {
    var filter := CaseFilter(None, None);
    FilterSnoc([], c, (x: Case) => Selects(filter, x));
    assert [] + [c] == [c];
    ListingKeepsItsPromise([c], filter, Some(-1));
  }

  /** The SQLite-backed store object; the connection is its table. */
  class SQLiteCaseStore {
    var rows: seq<Row>

    constructor ()
      ensures rows == SqlRun([])
    {
      rows := [];
    }

    method Persist(record: Case)
      modifies this
      ensures rows == InsertOrReplace(old(rows), RowOf(record))
    {
      rows := InsertOrReplace(rows, RowOf(record));
    }

    /** One of the shared mutations over this store: load, mutate, validate, then write one row. */
    method Perform(op: Op) returns (r: Result<Case, CaseError>)
      modifies this
      ensures r == SqlResult(old(rows), op) && rows == SqlApply(old(rows), op)
      ensures r.Err? ==> rows == old(rows)
    {
      var loaded := LoadRow(rows, op);
      r := Outcome(op, loaded);
      if r.Ok? { Persist(r.value); }
    }

    method ListCases(filter: CaseFilter, limit: Option<int>) returns (listed: seq<Case>)
      ensures listed == ListedFromTable(rows, filter, limit)
    {
      listed := ListedFromTable(rows, filter, limit);
    }
  }
}
