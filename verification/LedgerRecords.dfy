/** What the workflow ledger writes down: every field of a planned action and its approval request, what a
    decision changes in them, and the order the two queues list them in. */
module LedgerRecords {
  import opened Basics
  import opened Sorting
  import opened WorkflowLedger
  import opened WorkflowQueues

  // ---- planning

  /** Text that is missing or empty counts as none. */
  predicate IsText(kept: Option<string>, given: Option<string>) {
    if given == None || given == Some("") then kept == None else kept == given
  }

  /** The record of a planned action: it says what was asked for, and awaits approval just when that is required. */
  predicate RecordsPlan(digest: Digest, r: Record, p: Plan) {
    && r.key == p.key && r.caseId == p.caseId && r.actionKey == p.actionKey && r.source == p.source
    && IsText(r.actorRef, p.actorRef) && r.params == p.params && r.ruleId == p.ruleId
    && r.executionState == p.executionState && r.createdAt == p.at && r.updatedAt == p.at
    && r.approvalState == (if p.approvalRequired then PendingApproval else NotRequired)
    && r.ledgerId
       == "workflow-action" + "/" + p.key.businessId + "/" + digest(p.key.businessId + ":" + p.key.idempotencyKey)
    && (r.requestId.Some? <==> p.approvalRequired)
  }

  /** The request that goes with a gated record. */
  predicate RequestsApproval(digest: Digest, q: Request, r: Record, p: Plan) {
    && r.requestId == Some(q.requestId) && q.ledgerId == r.ledgerId && q.businessId == p.key.businessId
    && q.caseId == p.caseId && q.actionKey == p.actionKey && q.requester == r.actorRef && q.source == p.source
    && IsText(q.ruleId, p.ruleId) && q.status == PendingApproval && q.requestedAt == p.at
    && q.decidedAt == None && q.decidedBy == None && q.reason == None
    && q.requestId
       == "workflow-approval" + "/" + p.key.businessId + "/" + digest(p.key.businessId + ":" + p.key.idempotencyKey)
  }

  /** Recording a known key hands back its record and changes nothing; recording a new one adds the record last,
      and a request with it just when approval is required, and leaves every other record and request alone. */
  lemma PlanningRecords(digest: Digest, l: Ledger, p: Plan)
    ensures p.key in l.actions ==>
              AfterPlan(digest, l, p) == l && PlanResult(digest, l, p) == Write(l.actions[p.key], false, None)
    ensures p.key !in l.actions ==>
              var m, w := AfterPlan(digest, l, p), PlanResult(digest, l, p);
              && w.created && m.order == l.order + [p.key] && m.actions.Keys == l.actions.Keys + {p.key}
              && m.actions[p.key] == w.record && RecordsPlan(digest, w.record, p)
              && (forall k :: k in l.actions ==> m.actions[k] == l.actions[k])
              && (w.request.Some? <==> p.approvalRequired)
              && (!p.approvalRequired ==> m.requests == l.requests && m.requestOrder == l.requestOrder)
    ensures p.key !in l.actions && p.approvalRequired ==>
              var m, w := AfterPlan(digest, l, p), PlanResult(digest, l, p);
              && w.request.Some? && RequestsApproval(digest, w.request.value, w.record, p)
              && m.requests == l.requests[w.request.value.requestId := w.request.value]
              && (w.request.value.requestId !in l.requests ==>
                    m.requestOrder == l.requestOrder + [w.request.value.requestId])
  {
  }

  // ---- deciding

  /** Why a decision is refused: the first that applies. */
  function FirstRefusal(l: Ledger, d: Decision): Option<LedgerError> {
    if d.decision != "approved" && d.decision != "rejected" then Some(InvalidDecision)
    else if d.requestId !in l.requests || l.requests[d.requestId].businessId != d.businessId then Some(RequestNotFound)
    else if l.requests[d.requestId].status != PendingApproval then Some(AlreadyDecided(l.requests[d.requestId].status))
    else None
  }

  /** The record after a decision: approved and to be executed, or rejected and failed; all else as it was. */
  predicate RecordsDecision(r: Record, was: Record, d: Decision) {
    && (if d.decision == "approved" then r.approvalState == Approved && r.executionState == PendingExecution
        else r.approvalState == Rejected && r.executionState == Failed)
    && r.updatedAt == d.at
    && r == was.(approvalState := r.approvalState, executionState := r.executionState, updatedAt := r.updatedAt)
  }

  /** The request after a decision: who decided what, when and why; all else as it was. */
  predicate RequestDecided(q: Request, was: Request, d: Decision) {
    && q.status == (if d.decision == "approved" then Approved else Rejected) && q.decidedAt == Some(d.at)
    && IsText(q.decidedBy, Some(d.actorRef)) && IsText(q.reason, Some(d.reason))
    && q == was.(status := q.status, decidedAt := q.decidedAt, decidedBy := q.decidedBy, reason := q.reason)
  }

  /** Over every reachable ledger a decision is refused for the first reason that applies and then changes nothing;
      otherwise it writes itself into its request and into the one record that owns the request, hands both
      back, and leaves every other request and record alone. */
  lemma DecidingRecords(digest: Digest, ops: seq<LedgerOp>, d: Decision)
    requires DigestsApart(digest, PlannedKeys(ops))
    ensures var l := Run(digest, ops);
            var r, m := DecideResult(l, d), AfterDecision(l, d);
            match FirstRefusal(l, d)
            case Some(e) => r == Err(e) && m == l
            case None =>
              && r.Ok? && m.order == l.order && m.requestOrder == l.requestOrder
              && m.requests == l.requests[d.requestId := r.value.request]
              && RequestDecided(r.value.request, l.requests[d.requestId], d)
              && exists k ::
                   && k in l.actions && l.actions[k].requestId == Some(d.requestId) && k.businessId == d.businessId
                   && m.actions == l.actions[k := r.value.record] && RecordsDecision(r.value.record, l.actions[k], d)
  {
    var l := Run(digest, ops);
    DecisionOutcome(digest, ops, d);
    RefusedFirst(l, d);
    if DecideResult(l, d).Ok? {
      var k := DecisionChangesOne(digest, ops, d);
      DecisionSays(l, d, k);
    }
  }

  lemma RefusedFirst(l: Ledger, d: Decision)
    requires Indexed(l) && DecideResult(l, d) != Err(RecordNotFound)
    ensures match FirstRefusal(l, d)
            case Some(e) => DecideResult(l, d) == Err(e)
            case None => DecideResult(l, d).Ok?
  {
  }

  lemma DecisionSays(l: Ledger, d: Decision, k: Key)
    requires Indexed(l) && DecideResult(l, d).Ok? && k in l.actions && l.actions[k].requestId == Some(d.requestId)
    requires l.actions[k].approvalState == PendingApproval
    requires d.requestId in l.requests && AfterDecision(l, d) == WithDecision(l, d, k)
    ensures var r, m := DecideResult(l, d).value, AfterDecision(l, d);
            && m.requests == l.requests[d.requestId := r.request]
            && RequestDecided(r.request, l.requests[d.requestId], d)
            && m.actions == l.actions[k := r.record] && RecordsDecision(r.record, l.actions[k], d)
  {
    var found := FirstKey(l.order, l.actions, d.businessId, l.requests[d.requestId].ledgerId).value;
    var r, m := DecideResult(l, d).value, AfterDecision(l, d);
    assert m.actions == l.actions[found := r.record];
    assert m.actions[k] == DecidedRecord(l.actions[k], d);
    assert m.actions[found] == r.record;
    assert m.actions[k].approvalState != l.actions[k].approvalState;
  }

  // ---- the queues

  /** Earlier comes first; at the same time, the smaller id does. */
  predicate InTurn(at: int, id: string, laterAt: int, laterId: string) {
    at < laterAt || (at == laterAt && !TextLess(laterId, id))
  }

  lemma TextOrderIsTotal(a: string, b: string, c: string)
    ensures !TextLess(a, b) || !TextLess(b, a)
    ensures !TextLess(b, a) && !TextLess(c, b) ==> !TextLess(c, a)
  {
    if TextLess(a, b) { TextLessAsymmetric(a, b); }
    if TextLess(c, a) && !TextLess(b, a) && !TextLess(c, b) {
      TextLessTotal(a, b);
      if TextLess(a, b) { TextLessTransitive(c, a, b); }
    }
  }

  lemma QueueOrdersAreTotal()
    ensures TotalPreorder(OlderRequest) && TotalPreorder(OlderRecord)
  {
    forall x: Request, y: Request ensures OlderRequest(x, y) || OlderRequest(y, x) {
      TextOrderIsTotal(x.requestId, y.requestId, "");
    }
    forall x: Request, y: Request, z: Request | OlderRequest(x, y) && OlderRequest(y, z) ensures OlderRequest(x, z) {
      TextOrderIsTotal(x.requestId, y.requestId, z.requestId);
    }
    forall x: Record, y: Record ensures OlderRecord(x, y) || OlderRecord(y, x) {
      TextOrderIsTotal(x.ledgerId, y.ledgerId, "");
    }
    forall x: Record, y: Record, z: Record | OlderRecord(x, y) && OlderRecord(y, z) ensures OlderRecord(x, z) {
      TextOrderIsTotal(x.ledgerId, y.ledgerId, z.ledgerId);
    }
  }

  /** How many entries a page shows of a queue: all without a limit, none for a negative one. */
  function Shown(total: nat, limit: Option<int>): nat {
    if limit == None || limit.value > total then total else if limit.value < 0 then 0 else limit.value
  }

  ghost predicate RequestsInTurn(queue: seq<Request>) {
    forall i, j :: 0 <= i < j < |queue| ==>
      InTurn(queue[i].requestedAt, queue[i].requestId, queue[j].requestedAt, queue[j].requestId)
  }

  ghost predicate RecordsInTurn(queue: seq<Record>) {
    forall i, j :: 0 <= i < j < |queue| ==>
      InTurn(queue[i].updatedAt, queue[i].ledgerId, queue[j].updatedAt, queue[j].ledgerId)
  }

  lemma SortedInTurn(requests: seq<Request>, records: seq<Record>)
    ensures RequestsInTurn(StableSort(requests, OlderRequest)) && RecordsInTurn(StableSort(records, OlderRecord))
  {
    QueueOrdersAreTotal();
    StableSortSorts(requests, OlderRequest);
    StableSortSorts(records, OlderRecord);
  }

  lemma LimitShows<T>(s: seq<T>, limit: Option<int>)
    ensures Limited(s, limit) == s[..Shown(|s|, limit)]
  {
  }

  /** The approval page lists the oldest requests first, and the execution page the oldest approvals; each shows as
      many as the limit allows and counts the whole queue. */
  lemma PagesInTurn(l: Ledger, businessId: string, limit: Option<int>)
    requires Listable(l)
    ensures var queue, page := ApprovalQueue(l, businessId), ListApprovalQueue(l, businessId, limit);
            && RequestsInTurn(queue) && page.total == |queue| && page.returned == Shown(|queue|, limit)
            && page.items == queue[..page.returned]
    ensures var queue, page := ExecutionQueue(l, businessId), ListExecutionQueue(l, businessId, limit);
            && RecordsInTurn(queue) && page.total == |queue| && page.returned == Shown(|queue|, limit)
            && page.items == queue[..page.returned]
  {
    var waiting, approved := Waiting(l, businessId),
      Filter(ListActions(l.order, l.actions, businessId), IsPendingExecution);
    SortedInTurn(waiting, approved);
    LimitShows(ApprovalQueue(l, businessId), limit);
    LimitShows(ExecutionQueue(l, businessId), limit);
  }
}
