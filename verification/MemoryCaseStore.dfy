/** The process-local case store object. */
module MemoryCaseStore {
  import opened Basics
  import opened Calendar
  import opened Cases
  import opened CaseStore
  import opened CaseListing
  import opened Sorting

  class InMemoryCaseStore {
    var cases: seq<Case>

    constructor ()
      ensures cases == RunFrom([], [])
    {
      cases := [];
    }

    method FindByDedupeKey(businessId: string, dedupeKey: string) returns (found: Option<Case>)
      ensures found == FindByKey(cases, businessId, dedupeKey)
    {
      assert cases[0..] == cases;
      for i := 0 to |cases|
        invariant FindByKey(cases[i..], businessId, dedupeKey) == FindByKey(cases, businessId, dedupeKey)
      {
        if cases[i].businessId == businessId && cases[i].dedupeKey == dedupeKey { return Some(cases[i]); }
      }
      return None;
    }

    method Persist(record: Case)
      modifies this
      ensures cases == Put(old(cases), record)
    {
      cases := Put(cases, record);
    }

    /** Opens, updates or reopens a case; a rejected write leaves the store as it was. */
    method UpsertDetection(d: Detection, newIds: nat -> string, caseId: string, at: Time)
      returns (r: Result<Case, CaseError>)
      modifies this
      ensures r == ResultOf(old(cases), Detect(d, newIds, caseId, at))
      ensures cases == Apply(old(cases), Detect(d, newIds, caseId, at))
      ensures r.Err? ==> cases == old(cases)
    {
      var existing := FindByDedupeKey(d.businessId, d.dedupeKey);
      r := Upsert(existing, d, newIds, caseId, at);
      if r.Ok? { Persist(r.value); }
    }

    method TransitionCase(
        caseId: string, status: Status, actor: Actor, actorRef: string, reason: Option<string>, at: Time)
      returns (r: Result<Case, CaseError>)
      modifies this
      ensures r == ResultOf(old(cases), Move(caseId, status, actor, actorRef, reason, at))
      ensures cases == Apply(old(cases), Move(caseId, status, actor, actorRef, reason, at))
      ensures r.Err? ==> cases == old(cases)
    {
      var record := Get(cases, caseId);
      if record.None? { return Err(NotFound); }
      r := Transition(record.value, status, actor, actorRef, reason, at);
      if r.Ok? { Persist(r.value); }
    }

    method CommentOnCase(
        caseId: string, actor: Actor, actorRef: string, comment: string, metadata: map<string, string>, at: Time)
      returns (r: Result<Case, CaseError>)
      modifies this
      ensures r == ResultOf(old(cases), Comment(caseId, actor, actorRef, comment, metadata, at))
      ensures cases == Apply(old(cases), Comment(caseId, actor, actorRef, comment, metadata, at))
      ensures r.Err? ==> cases == old(cases)
    {
      var record := Get(cases, caseId);
      if record.None? { return Err(NotFound); }
      r := AddComment(record.value, actor, actorRef, comment, metadata, at);
      if r.Ok? { Persist(r.value); }
    }

    method AssignCase(caseId: string, actor: Actor, actorRef: string, assignee: string, at: Time)
      returns (r: Result<Case, CaseError>)
      modifies this
      ensures r == ResultOf(old(cases), AssignTo(caseId, actor, actorRef, assignee, at))
      ensures cases == Apply(old(cases), AssignTo(caseId, actor, actorRef, assignee, at))
      ensures r.Err? ==> cases == old(cases)
    {
      var record := Get(cases, caseId);
      if record.None? { return Err(NotFound); }
      r := Assign(record.value, actor, actorRef, assignee, at);
      if r.Ok? { Persist(r.value); }
    }

    /** `list_cases`: select, sort by priority, opening time and id, then cut. */
    method ListCases(filter: CaseFilter, limit: Option<int>) returns (listed: seq<Case>)
      ensures listed == ListedInMemory(cases, filter, limit)
      ensures ListsAsPromised(cases, filter, limit, listed)
    {
      var records: seq<Case> := [];
      assert cases[..0] == [];
      for i := 0 to |cases|
        invariant records == Chosen(cases[..i], filter)
      {
        assert cases[..i + 1] == cases[..i] + [cases[i]];
        FilterSnoc(cases[..i], cases[i], (c: Case) => Selects(filter, c));
        if Selects(filter, cases[i]) { records := records + [cases[i]]; }
      }
      assert cases[..|cases|] == cases;
      records := StableSort(records, ListsBefore);
      listed := if limit.None? then records else Slice(records, limit);
      ListingKeepsItsPromise(cases, filter, limit);
    }
  }
}
