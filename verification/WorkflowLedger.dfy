/** The workflow action ledger: planned actions, the approval requests that gate some of them, and
    the decisions on those requests. Redaction is taken as the identity. */
module WorkflowLedger {
  import opened Basics

  datatype ApprovalState = NotRequired | PendingApproval | Approved | Rejected

  datatype ExecutionState = DryRun | SuggestionOnly | BlockedApprovalRequired | PendingExecution | Executed | Failed

  datatype Source = FromWorkflow | FromOperator

  datatype Param = TextParam(s: string) | OtherParam(code: int)

  type Params = map<string, Param>

  /** The business and the idempotency key: what the action dictionary is indexed by. */
  datatype Key = Key(businessId: string, idempotencyKey: string)

  datatype Record = Record(
    ledgerId: string,
    key: Key,
    caseId: string,
    actionKey: string,
    source: Source,
    actorRef: Option<string>,
    approvalState: ApprovalState,
    executionState: ExecutionState,
    params: Params,
    ruleId: Option<string>,
    requestId: Option<string>,
    createdAt: int,
    updatedAt: int)

  datatype Request = Request(
    requestId: string,
    ledgerId: string,
    businessId: string,
    caseId: string,
    actionKey: string,
    requester: Option<string>,
    status: ApprovalState,
    requestedAt: int,
    decidedAt: Option<int>,
    decidedBy: Option<string>,
    reason: Option<string>,
    source: Source,
    ruleId: Option<string>)

  /** What a caller asks to have recorded. */
  datatype Plan = Plan(
    key: Key,
    caseId: string,
    actionKey: string,
    executionState: ExecutionState,
    approvalRequired: bool,
    source: Source,
    actorRef: Option<string>,
    params: Params,
    ruleId: Option<string>,
    at: int)

  datatype Decision = Decision(
    businessId: string, requestId: string, decision: string, actorRef: string, reason: string, at: int)

  datatype Write = Write(record: Record, created: bool, request: Option<Request>)

  datatype Decided = Decided(record: Record, request: Request)

  datatype LedgerError = InvalidDecision | RequestNotFound | AlreadyDecided(status: ApprovalState) | RecordNotFound

  /** The two dictionaries, each with the order its keys were inserted in. */
  datatype Ledger = Ledger(
    order: seq<Key>, actions: map<Key, Record>, requestOrder: seq<string>, requests: map<string, Request>)

  const EMPTY := Ledger([], map[], [], map[])

  // ---- identifiers

  /** The digest of an idempotency key within its business. */
  type Digest = string -> string

  function StableId(digest: Digest, prefix: string, key: Key): string {
    prefix + "/" + key.businessId + "/" + digest(key.businessId + ":" + key.idempotencyKey)
  }

  function ActionId(digest: Digest, key: Key): string { StableId(digest, "workflow-action", key) }

  function ApprovalId(digest: Digest, key: Key): string { StableId(digest, "workflow-approval", key) }

  /** Digests have sixteen characters and do not collide within a business, on the keys in play. */
  ghost predicate DigestsApart(digest: Digest, keys: set<Key>) {
    && (forall s :: |digest(s)| == 16)
    && (forall k, l :: k in keys && l in keys && k.businessId == l.businessId && k != l ==>
          digest(k.businessId + ":" + k.idempotencyKey) != digest(l.businessId + ":" + l.idempotencyKey))
  }

  lemma SplitAtTail(prefix: string, a: string, b: string, x: string, y: string)
    requires |x| == |y| && prefix + "/" + a + "/" + x == prefix + "/" + b + "/" + y
    ensures a == b && x == y
  {
    var s, t := prefix + "/" + a + "/" + x, prefix + "/" + b + "/" + y;
    var n := |prefix| + 1;
    assert |a| == |b|;
    assert a == s[n..n + |a|] && b == t[n..n + |b|];
    assert x == s[n + |a| + 1..] && y == t[n + |b| + 1..];
  }

  lemma IdsApart(digest: Digest, keys: set<Key>, prefix: string, k: Key, l: Key)
    requires DigestsApart(digest, keys) && k in keys && l in keys
    requires StableId(digest, prefix, k) == StableId(digest, prefix, l)
    ensures k == l
  {
    var x, y := digest(k.businessId + ":" + k.idempotencyKey), digest(l.businessId + ":" + l.idempotencyKey);
    SplitAtTail(prefix, k.businessId, l.businessId, x, y);
  }

  // ---- recording a planned action

  function NonEmpty(s: Option<string>): Option<string> { if s == Some("") then None else s }

  function NewRecord(digest: Digest, p: Plan): Record {
    Record(ActionId(digest, p.key), p.key, p.caseId, p.actionKey, p.source, NonEmpty(p.actorRef),
           if p.approvalRequired then PendingApproval else NotRequired,
           p.executionState, p.params, p.ruleId,
           if p.approvalRequired then Some(ApprovalId(digest, p.key)) else None,
           p.at, p.at)
  }

  function NewRequest(digest: Digest, p: Plan): Option<Request> {
    if !p.approvalRequired then None
    else Some(Request(ApprovalId(digest, p.key), ActionId(digest, p.key), p.key.businessId, p.caseId, p.actionKey,
                      NonEmpty(p.actorRef), PendingApproval, p.at, None, None, None, p.source, NonEmpty(p.ruleId)))
  }

  function AppendIfNew<T(==)>(s: seq<T>, x: T, present: bool): seq<T> { if present then s else s + [x] }

  function AfterPlan(digest: Digest, l: Ledger, p: Plan): Ledger {
    if p.key in l.actions then l
    else
      var request := NewRequest(digest, p);
      var l1 := l.(order := l.order + [p.key], actions := l.actions[p.key := NewRecord(digest, p)]);
      match request
      case None => l1
      case Some(q) =>
        l1.(requestOrder := AppendIfNew(l.requestOrder, q.requestId, q.requestId in l.requests),
          requests := l.requests[q.requestId := q])
  }

  function PlanResult(digest: Digest, l: Ledger, p: Plan): Write {
    if p.key in l.actions then Write(l.actions[p.key], false, None)
    else Write(NewRecord(digest, p), true, NewRequest(digest, p))
  }

  // ---- deciding a request

  function DecisionStates(decision: string): (ApprovalState, ExecutionState) {
    if decision == "approved" then (Approved, PendingExecution) else (Rejected, Failed)
  }

  function Text(s: string): Option<string> { if s == "" then None else Some(s) }

  function DecidedRecord(r: Record, d: Decision): Record {
    var (approval, execution) := DecisionStates(d.decision);
    r.(approvalState := approval, executionState := execution, updatedAt := d.at)
  }

  function DecidedRequest(q: Request, d: Decision): Request {
    q.(status := DecisionStates(d.decision).0, decidedAt := Some(d.at), decidedBy := Text(d.actorRef),
      reason := Text(d.reason))
  }

  /** The key of the first record of the business with a ledger id. */
  function FirstKey(order: seq<Key>, actions: map<Key, Record>, businessId: string, ledgerId: string): (r: Option<Key>)
    requires forall k :: k in order ==> k in actions
    ensures r.Some? ==>
              r.value in order && actions[r.value].key.businessId == businessId && actions[r.value].ledgerId == ledgerId
    ensures r.None? ==> forall k :: k in order ==>
              !(actions[k].key.businessId == businessId && actions[k].ledgerId == ledgerId)
  {
    if order == [] then None
    else if actions[order[0]].key.businessId == businessId && actions[order[0]].ledgerId == ledgerId then Some(order[0])
    else FirstKey(order[1..], actions, businessId, ledgerId)
  }

  /** Every listed key has its record. */
  predicate Indexed(l: Ledger) { forall k :: k in l.order ==> k in l.actions }

  /** Why a decision is refused, if it is. */
  function Refusal(l: Ledger, d: Decision): (e: Option<LedgerError>)
    requires Indexed(l)
    ensures e.None? ==>
              d.requestId in l.requests
                && FirstKey(l.order, l.actions, d.businessId, l.requests[d.requestId].ledgerId).Some?
  {
    if d.decision != "approved" && d.decision != "rejected" then Some(InvalidDecision)
    else if d.requestId !in l.requests || l.requests[d.requestId].businessId != d.businessId then Some(RequestNotFound)
    else
      var q := l.requests[d.requestId];
      if q.status != PendingApproval then Some(AlreadyDecided(q.status))
      else if FirstKey(l.order, l.actions, d.businessId, q.ledgerId).None? then Some(RecordNotFound)
      else None
  }

  function DecideResult(l: Ledger, d: Decision): Result<Decided, LedgerError>
    requires Indexed(l)
  {
    match Refusal(l, d)
    case Some(e) => Err(e)
    case None =>
      var q := l.requests[d.requestId];
      var k := FirstKey(l.order, l.actions, d.businessId, q.ledgerId).value;
      Ok(Decided(DecidedRecord(l.actions[k], d), DecidedRequest(q, d)))
  }

  function AfterDecision(l: Ledger, d: Decision): Ledger
    requires Indexed(l)
  {
    if DecideResult(l, d).Err? then l
    else
      var q := l.requests[d.requestId];
      var k := FirstKey(l.order, l.actions, d.businessId, q.ledgerId).value;
      l.(actions := l.actions[k := DecidedRecord(l.actions[k], d)],
        requests := l.requests[d.requestId := DecidedRequest(q, d)])
  }

  // ---- runs

  datatype LedgerOp = PlanOp(p: Plan) | DecideOp(d: Decision)

  function After(digest: Digest, l: Ledger, op: LedgerOp): (r: Ledger)
    requires Indexed(l)
    ensures Indexed(r)
  {
    match op
    case PlanOp(p) => AfterPlan(digest, l, p)
    case DecideOp(d) => AfterDecision(l, d)
  }

  function Run(digest: Digest, ops: seq<LedgerOp>): (r: Ledger)
    ensures Indexed(r)
  {
    if ops == [] then EMPTY else After(digest, Run(digest, ops[..|ops| - 1]), ops[|ops| - 1])
  }

  function PlannedKeys(ops: seq<LedgerOp>): set<Key> {
    set op | op in ops && op.PlanOp? :: op.p.key
  }

  // ---- where every record comes from

  function RequestOf(l: Ledger, k: Key): Option<Request>
    requires k in l.actions
  {
    var id := l.actions[k].requestId;
    if id.Some? && id.value in l.requests then Some(l.requests[id.value]) else None
  }

  /** The record and its request are as planned at step `i`. */
  ghost predicate AsPlanned(digest: Digest, ops: seq<LedgerOp>, i: nat, k: Key, r: Record, q: Option<Request>) {
    i < |ops| && ops[i].PlanOp? && ops[i].p.key == k && r == NewRecord(digest, ops[i].p)
      && q == NewRequest(digest, ops[i].p)
  }

  /** They were planned with an approval gate at step `i` and decided at the later step `j`. */
  ghost predicate AsDecided(digest: Digest, ops: seq<LedgerOp>, i: nat, j: nat, k: Key, r: Record, q: Option<Request>) {
    && i < j < |ops| && ops[i].PlanOp? && ops[i].p.key == k && ops[i].p.approvalRequired
    && ops[j].DecideOp? && ops[j].d.requestId == ApprovalId(digest, k) && ops[j].d.businessId == k.businessId
    && (ops[j].d.decision == "approved" || ops[j].d.decision == "rejected")
    && r == DecidedRecord(NewRecord(digest, ops[i].p), ops[j].d)
    && q == Some(DecidedRequest(NewRequest(digest, ops[i].p).value, ops[j].d))
  }

  ghost predicate Explained(digest: Digest, ops: seq<LedgerOp>, k: Key, r: Record, q: Option<Request>) {
    (exists i: nat :: AsPlanned(digest, ops, i, k, r, q))
      || (exists i: nat, j: nat :: AsDecided(digest, ops, i, j, k, r, q))
  }

  ghost predicate WellIndexed(digest: Digest, l: Ledger) {
    && NoDuplicates(l.order) && (forall k :: k in l.order <==> k in l.actions)
    && NoDuplicates(l.requestOrder) && (forall id :: id in l.requestOrder <==> id in l.requests)
    && (forall id :: id in l.requests ==>
         exists k :: k in l.actions && id == ApprovalId(digest, k) && l.actions[k].requestId == Some(id))
  }

  ghost predicate Traced(digest: Digest, ops: seq<LedgerOp>, l: Ledger) {
    forall k :: k in l.actions ==> Explained(digest, ops, k, l.actions[k], RequestOf(l, k))
  }

  lemma ExplainedLater(digest: Digest, ops: seq<LedgerOp>, op: LedgerOp, k: Key, r: Record, q: Option<Request>)
    requires Explained(digest, ops, k, r, q)
    ensures Explained(digest, ops + [op], k, r, q)
  {
    var longer := ops + [op];
    if i: nat :| AsPlanned(digest, ops, i, k, r, q) {
      assert longer[i] == ops[i];
      assert AsPlanned(digest, longer, i, k, r, q);
    } else {
      var i: nat, j: nat :| AsDecided(digest, ops, i, j, k, r, q);
      assert longer[i] == ops[i] && longer[j] == ops[j];
      assert AsDecided(digest, longer, i, j, k, r, q);
    }
  }

  /** What a record shows of itself, however it came about. */
  lemma ExplainedIsPlain(digest: Digest, ops: seq<LedgerOp>, k: Key, r: Record, q: Option<Request>)
    requires Explained(digest, ops, k, r, q)
    ensures k in PlannedKeys(ops) && r.key == k && r.ledgerId == ActionId(digest, k)
    ensures r.requestId == if r.approvalState == NotRequired then None else Some(ApprovalId(digest, k))
    ensures q.Some? <==> r.requestId.Some?
  {
    if i: nat :| AsPlanned(digest, ops, i, k, r, q) {
      assert ops[i] in ops;
    } else {
      var i: nat, j: nat :| AsDecided(digest, ops, i, j, k, r, q);
      assert ops[i] in ops;
    }
  }

  lemma PendingIsAsPlanned(digest: Digest, ops: seq<LedgerOp>, k: Key, r: Record, q: Option<Request>) returns (i: nat)
    requires Explained(digest, ops, k, r, q) && q.Some? && q.value.status == PendingApproval
    ensures AsPlanned(digest, ops, i, k, r, q) && ops[i].p.approvalRequired
  {
    assert !exists n: nat, j: nat :: AsDecided(digest, ops, n, j, k, r, q);
    i :| AsPlanned(digest, ops, i, k, r, q);
  }

  // ---- planning keeps it

  lemma PlanKeepsTrace(digest: Digest, ops: seq<LedgerOp>, l: Ledger, p: Plan)
    requires WellIndexed(digest, l) && Traced(digest, ops, l) && p.key !in l.actions
    requires DigestsApart(digest, PlannedKeys(ops + [PlanOp(p)]))
    ensures Traced(digest, ops + [PlanOp(p)], AfterPlan(digest, l, p))
  {
    var op := PlanOp(p);
    var longer, r := ops + [op], AfterPlan(digest, l, p);
    assert longer[|ops|] == op && op in longer;
    forall k | k in r.actions ensures Explained(digest, longer, k, r.actions[k], RequestOf(r, k)) {
      if k == p.key {
        assert AsPlanned(digest, longer, |ops|, k, r.actions[k], RequestOf(r, k));
      } else {
        PlanLeavesOthers(digest, ops, l, p, k);
        ExplainedLater(digest, ops, op, k, l.actions[k], RequestOf(l, k));
      }
    }
  }

  lemma PlanLeavesOthers(digest: Digest, ops: seq<LedgerOp>, l: Ledger, p: Plan, k: Key)
    requires p.key !in l.actions && k in l.actions && Explained(digest, ops, k, l.actions[k], RequestOf(l, k))
    requires DigestsApart(digest, PlannedKeys(ops + [PlanOp(p)]))
    ensures var r := AfterPlan(digest, l, p);
            k in r.actions && r.actions[k] == l.actions[k] && RequestOf(r, k) == RequestOf(l, k)
  {
    ExplainedIsPlain(digest, ops, k, l.actions[k], RequestOf(l, k));
    PlannedKeysGrow(ops, PlanOp(p));
    if ApprovalId(digest, k) == ApprovalId(digest, p.key) {
      IdsApart(digest, PlannedKeys(ops + [PlanOp(p)]), "workflow-approval", k, p.key);
    }
  }

  lemma PlannedKeysGrow(ops: seq<LedgerOp>, op: LedgerOp)
    ensures PlannedKeys(ops) <= PlannedKeys(ops + [op])
    ensures op.PlanOp? ==> op.p.key in PlannedKeys(ops + [op])
  {
    var longer := ops + [op];
    assert op in longer;
    forall k | k in PlannedKeys(ops) ensures k in PlannedKeys(longer) {
      var x :| x in ops && x.PlanOp? && x.p.key == k;
      assert x in longer;
    }
  }

  lemma AppendDistinct<T>(s: seq<T>, x: T)
    requires NoDuplicates(s) && x !in s
    ensures NoDuplicates(s + [x])
  {
  }

  lemma PlanKeepsIndex(digest: Digest, ops: seq<LedgerOp>, l: Ledger, p: Plan)
    requires WellIndexed(digest, l) && Traced(digest, ops, l) && p.key !in l.actions
    requires DigestsApart(digest, PlannedKeys(ops + [PlanOp(p)]))
    ensures WellIndexed(digest, AfterPlan(digest, l, p))
  {
    var r, id := AfterPlan(digest, l, p), ApprovalId(digest, p.key);
    AppendDistinct(l.order, p.key);
    PlannedKeysGrow(ops, PlanOp(p));
    if id in l.requests {
      var k :| k in l.actions && id == ApprovalId(digest, k) && l.actions[k].requestId == Some(id);
      ExplainedIsPlain(digest, ops, k, l.actions[k], RequestOf(l, k));
      IdsApart(digest, PlannedKeys(ops + [PlanOp(p)]), "workflow-approval", k, p.key);
    }
    AppendDistinct(l.requestOrder, id);
    forall x | x in r.requests
      ensures exists k :: k in r.actions && x == ApprovalId(digest, k) && r.actions[k].requestId == Some(x)
    {
      if x in l.requests {
        var k :| k in l.actions && x == ApprovalId(digest, k) && l.actions[k].requestId == Some(x);
        assert k in r.actions && r.actions[k] == l.actions[k];
      } else {
        assert r.actions[p.key].requestId == Some(x);
      }
    }
  }

  // ---- deciding keeps it

  /** A pending request belongs to the one record the decision finds. */
  lemma DecisionFindsItsRecord(digest: Digest, ops: seq<LedgerOp>, l: Ledger, d: Decision) returns (k: Key, i: nat)
    requires WellIndexed(digest, l) && Traced(digest, ops, l) && DigestsApart(digest, PlannedKeys(ops))
    requires d.requestId in l.requests && l.requests[d.requestId].status == PendingApproval
    requires l.requests[d.requestId].businessId == d.businessId
    ensures k in l.actions && d.requestId == ApprovalId(digest, k) && RequestOf(l, k) == Some(l.requests[d.requestId])
    ensures FirstKey(l.order, l.actions, d.businessId, l.requests[d.requestId].ledgerId) == Some(k)
    ensures AsPlanned(digest, ops, i, k, l.actions[k], RequestOf(l, k)) && ops[i].p.approvalRequired
    ensures k.businessId == d.businessId
  {
    var id := d.requestId;
    var q := l.requests[id];
    k :| k in l.actions && id == ApprovalId(digest, k) && l.actions[k].requestId == Some(id);
    ExplainedIsPlain(digest, ops, k, l.actions[k], RequestOf(l, k));
    i := PendingIsAsPlanned(digest, ops, k, l.actions[k], RequestOf(l, k));
    assert q.ledgerId == ActionId(digest, k) && q.businessId == k.businessId;
    var found := FirstKey(l.order, l.actions, d.businessId, q.ledgerId);
    assert k in l.order;
    assert found.Some?;
    ExplainedIsPlain(digest, ops, found.value, l.actions[found.value], RequestOf(l, found.value));
    IdsApart(digest, PlannedKeys(ops), "workflow-action", found.value, k);
  }

  /** The state after a decision that found record `k`. */
  function WithDecision(l: Ledger, d: Decision, k: Key): Ledger
    requires k in l.actions && d.requestId in l.requests
  {
    Ledger(l.order, l.actions[k := DecidedRecord(l.actions[k], d)],
           l.requestOrder, l.requests[d.requestId := DecidedRequest(l.requests[d.requestId], d)])
  }

  lemma DecisionChanges(digest: Digest, ops: seq<LedgerOp>, l: Ledger, d: Decision) returns (k: Key, i: nat)
    requires WellIndexed(digest, l) && Traced(digest, ops, l) && DigestsApart(digest, PlannedKeys(ops))
    requires Indexed(l) && DecideResult(l, d).Ok?
    ensures k in l.actions && d.requestId == ApprovalId(digest, k) && d.requestId in l.requests
    ensures RequestOf(l, k) == Some(l.requests[d.requestId]) && AfterDecision(l, d) == WithDecision(l, d, k)
    ensures AsPlanned(digest, ops, i, k, l.actions[k], RequestOf(l, k)) && ops[i].p.approvalRequired
    ensures k.businessId == d.businessId && d.decision in {"approved", "rejected"} && k in PlannedKeys(ops)
  {
    k, i := DecisionFindsItsRecord(digest, ops, l, d);
    assert ops[i] in ops;
  }

  lemma DecisionLeavesOthers(digest: Digest, ops: seq<LedgerOp>, l: Ledger, d: Decision, k: Key, x: Key)
    requires k in PlannedKeys(ops) && d.requestId == ApprovalId(digest, k) && d.requestId in l.requests
             && k in l.actions
    requires x in l.actions && x != k && Explained(digest, ops, x, l.actions[x], RequestOf(l, x))
    requires DigestsApart(digest, PlannedKeys(ops))
    ensures var r := WithDecision(l, d, k);
            x in r.actions && r.actions[x] == l.actions[x] && RequestOf(r, x) == RequestOf(l, x)
  {
    ExplainedIsPlain(digest, ops, x, l.actions[x], RequestOf(l, x));
    if ApprovalId(digest, x) == ApprovalId(digest, k) {
      IdsApart(digest, PlannedKeys(ops), "workflow-approval", x, k);
    }
  }

  lemma DecisionExplains(digest: Digest, ops: seq<LedgerOp>, l: Ledger, d: Decision, k: Key, i: nat)
    requires k in l.actions && d.requestId == ApprovalId(digest, k) && d.requestId in l.requests
    requires RequestOf(l, k) == Some(l.requests[d.requestId])
    requires AsPlanned(digest, ops, i, k, l.actions[k], RequestOf(l, k)) && ops[i].p.approvalRequired
    requires k.businessId == d.businessId && d.decision in {"approved", "rejected"}
    ensures var r := WithDecision(l, d, k);
            Explained(digest, ops + [DecideOp(d)], k, r.actions[k], RequestOf(r, k))
  {
    var longer, r := ops + [DecideOp(d)], WithDecision(l, d, k);
    assert longer[i] == ops[i] && longer[|ops|] == DecideOp(d);
    assert AsDecided(digest, longer, i, |ops|, k, r.actions[k], RequestOf(r, k));
  }

  lemma DecisionKeepsTrace(digest: Digest, ops: seq<LedgerOp>, l: Ledger, d: Decision)
    requires WellIndexed(digest, l) && Traced(digest, ops, l) && DigestsApart(digest, PlannedKeys(ops))
    requires Indexed(l) && DecideResult(l, d).Ok?
    ensures Traced(digest, ops + [DecideOp(d)], AfterDecision(l, d))
  {
    var k, i := DecisionChanges(digest, ops, l, d);
    var r := WithDecision(l, d, k);
    forall x | x in r.actions ensures Explained(digest, ops + [DecideOp(d)], x, r.actions[x], RequestOf(r, x)) {
      if x == k {
        DecisionExplains(digest, ops, l, d, k, i);
      } else {
        DecisionLeavesOthers(digest, ops, l, d, k, x);
        ExplainedLater(digest, ops, DecideOp(d), x, l.actions[x], RequestOf(l, x));
      }
    }
  }

  lemma DecisionKeepsIndex(digest: Digest, ops: seq<LedgerOp>, l: Ledger, d: Decision)
    requires WellIndexed(digest, l) && Traced(digest, ops, l) && DigestsApart(digest, PlannedKeys(ops))
    requires Indexed(l) && DecideResult(l, d).Ok?
    ensures WellIndexed(digest, AfterDecision(l, d))
  {
    var k, i := DecisionChanges(digest, ops, l, d);
    WithDecisionKeepsIndex(digest, l, d, k);
  }

  lemma WithDecisionKeepsIndex(digest: Digest, l: Ledger, d: Decision, k: Key)
    requires WellIndexed(digest, l) && k in l.actions && d.requestId in l.requests
    ensures WellIndexed(digest, WithDecision(l, d, k))
  {
    SameIndex(digest, l, WithDecision(l, d, k));
  }

  lemma SameIndex(digest: Digest, l: Ledger, r: Ledger)
    requires WellIndexed(digest, l) && r.order == l.order && r.requestOrder == l.requestOrder
    requires (forall k :: k in r.actions <==> k in l.actions) && (forall id :: id in r.requests <==> id in l.requests)
    requires forall k :: k in r.actions ==> r.actions[k].requestId == l.actions[k].requestId
    ensures WellIndexed(digest, r)
  {
    forall id | id in r.requests
      ensures exists x :: x in r.actions && id == ApprovalId(digest, x) && r.actions[x].requestId == Some(id)
    {
      var x :| x in l.actions && id == ApprovalId(digest, x) && l.actions[x].requestId == Some(id);
      assert x in r.actions;
    }
  }

  lemma TracedLater(digest: Digest, ops: seq<LedgerOp>, op: LedgerOp, l: Ledger)
    requires Traced(digest, ops, l)
    ensures Traced(digest, ops + [op], l)
  {
    forall k | k in l.actions ensures Explained(digest, ops + [op], k, l.actions[k], RequestOf(l, k)) {
      ExplainedLater(digest, ops, op, k, l.actions[k], RequestOf(l, k));
    }
  }

  lemma ApartEarlier(digest: Digest, ops: seq<LedgerOp>, op: LedgerOp)
    requires DigestsApart(digest, PlannedKeys(ops + [op]))
    ensures DigestsApart(digest, PlannedKeys(ops))
  {
    PlannedKeysGrow(ops, op);
  }

  lemma StepKeepsTrace(digest: Digest, ops: seq<LedgerOp>, l: Ledger, op: LedgerOp)
    requires WellIndexed(digest, l) && Traced(digest, ops, l) && DigestsApart(digest, PlannedKeys(ops + [op]))
             && Indexed(l)
    ensures WellIndexed(digest, After(digest, l, op)) && Traced(digest, ops + [op], After(digest, l, op))
  {
    ApartEarlier(digest, ops, op);
    match op
    case PlanOp(p) =>
      if p.key in l.actions {
        TracedLater(digest, ops, op, l);
      } else {
        PlanKeepsIndex(digest, ops, l, p);
        PlanKeepsTrace(digest, ops, l, p);
      }
    case DecideOp(d) =>
      if DecideResult(l, d).Ok? {
        DecisionKeepsIndex(digest, ops, l, d);
        DecisionKeepsTrace(digest, ops, l, d);
      } else {
        TracedLater(digest, ops, op, l);
      }
  }

  /** Every record and request of a reachable ledger is as one planning step made it, or as one later
      decision left what that step made. */
  lemma {:induction false} ReachableIsTraced(digest: Digest, ops: seq<LedgerOp>)
    requires DigestsApart(digest, PlannedKeys(ops))
    ensures WellIndexed(digest, Run(digest, ops)) && Traced(digest, ops, Run(digest, ops))
  {
    if ops != [] {
      var front, op := ops[..|ops| - 1], ops[|ops| - 1];
      assert ops == front + [op];
      ApartEarlier(digest, front, op);
      ReachableIsTraced(digest, front);
      StepKeepsTrace(digest, front, Run(digest, front), op);
    }
  }

  // ---- lock-step

  /** The request agrees with the record, and the three states move together. */
  predicate Paired(r: Record, q: Request) {
    && q.ledgerId == r.ledgerId && r.requestId == Some(q.requestId) && q.businessId == r.key.businessId
    && q.caseId == r.caseId && q.actionKey == r.actionKey && q.requestedAt == r.createdAt
    && match q.status
       case PendingApproval => r.approvalState == PendingApproval && q.decidedAt == None && r.updatedAt == r.createdAt
       case Approved =>
         r.approvalState == Approved && r.executionState == PendingExecution && q.decidedAt == Some(r.updatedAt)
       case Rejected => r.approvalState == Rejected && r.executionState == Failed && q.decidedAt == Some(r.updatedAt)
       case NotRequired => false
  }

  ghost predicate LockStep(digest: Digest, l: Ledger) {
    && (forall k :: k in l.actions ==>
         l.actions[k].key == k && (l.actions[k].requestId.Some? <==> l.actions[k].approvalState != NotRequired))
    && (forall k :: k in l.actions && l.actions[k].requestId.Some? ==>
          l.actions[k].requestId.value in l.requests && Paired(l.actions[k], l.requests[l.actions[k].requestId.value]))
    && (forall id :: id in l.requests ==> l.requests[id].requestId == id && exists k :: Owns(l, k, id))
    && (forall id, k,
       m :: Owns(l, k, id) && m in l.actions && l.actions[m].ledgerId == l.requests[id].ledgerId ==> m == k)
  }

  ghost predicate Owns(l: Ledger, k: Key, id: string) {
    k in l.actions && id in l.requests && l.actions[k].requestId == Some(id) && Paired(l.actions[k], l.requests[id])
  }

  lemma ExplainedIsPaired(digest: Digest, ops: seq<LedgerOp>, k: Key, r: Record, q: Option<Request>)
    requires Explained(digest, ops, k, r, q) && q.Some?
    ensures Paired(r, q.value)
  {
    if i: nat :| AsPlanned(digest, ops, i, k, r, q) {
    } else {
      var i: nat, j: nat :| AsDecided(digest, ops, i, j, k, r, q);
    }
  }

  /** In every reachable ledger each request belongs to exactly one record, and request status, approval
      state and execution state move together. */
  lemma ReachableLockStep(digest: Digest, ops: seq<LedgerOp>)
    requires DigestsApart(digest, PlannedKeys(ops))
    ensures LockStep(digest, Run(digest, ops))
  {
    var l := Run(digest, ops);
    ReachableIsTraced(digest, ops);
    forall k | k in l.actions
      ensures l.actions[k].key == k && l.actions[k].ledgerId == ActionId(digest, k) && k in PlannedKeys(ops)
      ensures l.actions[k].requestId.Some? <==> l.actions[k].approvalState != NotRequired
      ensures l.actions[k].requestId.Some? ==>
                l.actions[k].requestId.value in l.requests
                  && Paired(l.actions[k], l.requests[l.actions[k].requestId.value])
    {
      ExplainedIsPlain(digest, ops, k, l.actions[k], RequestOf(l, k));
      if RequestOf(l, k).Some? { ExplainedIsPaired(digest, ops, k, l.actions[k], RequestOf(l, k)); }
    }
    forall id | id in l.requests ensures l.requests[id].requestId == id && exists k :: Owns(l, k, id) {
      var k :| k in l.actions && id == ApprovalId(digest, k) && l.actions[k].requestId == Some(id);
      assert Owns(l, k, id);
    }
    forall id, k, m | Owns(l, k, id) && m in l.actions && l.actions[m].ledgerId == l.requests[id].ledgerId
      ensures m == k
    {
      IdsApart(digest, PlannedKeys(ops), "workflow-action", m, k);
    }
  }

  /** A decision succeeds exactly when it is a known decision on a pending request of that business, and a
      decision that fails changes nothing. */
  lemma DecisionOutcome(digest: Digest, ops: seq<LedgerOp>, d: Decision)
    requires DigestsApart(digest, PlannedKeys(ops))
    ensures var l := Run(digest, ops);
            && (DecideResult(l, d).Ok? <==>
                  && d.decision in {"approved", "rejected"}
                  && d.requestId in l.requests && l.requests[d.requestId].businessId == d.businessId
                  && l.requests[d.requestId].status == PendingApproval)
            && DecideResult(l, d) != Err(RecordNotFound)
            && (DecideResult(l, d).Err? ==> AfterDecision(l, d) == l)
  {
    ReachableIsTraced(digest, ops);
    DecisionOutcomeIn(digest, ops, Run(digest, ops), d);
  }

  lemma DecisionOutcomeIn(digest: Digest, ops: seq<LedgerOp>, l: Ledger, d: Decision)
    requires DigestsApart(digest, PlannedKeys(ops)) && WellIndexed(digest, l) && Traced(digest, ops, l) && Indexed(l)
    ensures (Refusal(l, d).None? <==>
               && d.decision in {"approved", "rejected"}
               && d.requestId in l.requests && l.requests[d.requestId].businessId == d.businessId
               && l.requests[d.requestId].status == PendingApproval)
    ensures Refusal(l, d) != Some(RecordNotFound)
  {
    if d.requestId in l.requests && l.requests[d.requestId].businessId == d.businessId
      && l.requests[d.requestId].status == PendingApproval {
      PendingHasRecord(digest, ops, l, d);
    }
    RefusalCases(l, d);
  }

  lemma RefusalCases(l: Ledger, d: Decision)
    requires Indexed(l)
    requires d.requestId in l.requests && l.requests[d.requestId].businessId == d.businessId
             && l.requests[d.requestId].status == PendingApproval ==>
               FirstKey(l.order, l.actions, d.businessId, l.requests[d.requestId].ledgerId).Some?
    ensures (Refusal(l, d).None? <==>
               && d.decision in {"approved", "rejected"}
               && d.requestId in l.requests && l.requests[d.requestId].businessId == d.businessId
               && l.requests[d.requestId].status == PendingApproval)
    ensures Refusal(l, d) != Some(RecordNotFound)
  {
  }

  lemma PendingHasRecord(digest: Digest, ops: seq<LedgerOp>, l: Ledger, d: Decision)
    requires WellIndexed(digest, l) && Traced(digest, ops, l) && DigestsApart(digest, PlannedKeys(ops)) && Indexed(l)
    requires d.requestId in l.requests && l.requests[d.requestId].businessId == d.businessId
    requires l.requests[d.requestId].status == PendingApproval
    ensures FirstKey(l.order, l.actions, d.businessId, l.requests[d.requestId].ledgerId).Some?
  {
    var k, i := DecisionFindsItsRecord(digest, ops, l, d);
  }

  /** A decision that succeeds changes its request and the one record that owns it, and nothing else. */
  lemma DecisionChangesOne(digest: Digest, ops: seq<LedgerOp>, d: Decision) returns (k: Key)
    requires DigestsApart(digest, PlannedKeys(ops)) && DecideResult(Run(digest, ops), d).Ok?
    ensures var l := Run(digest, ops);
            && Owns(l, k, d.requestId) && l.actions[k].approvalState == PendingApproval && k.businessId == d.businessId
            && AfterDecision(l, d) == WithDecision(l, d, k)
  {
    var l := Run(digest, ops);
    ReachableIsTraced(digest, ops);
    var i;
    k, i := DecisionChanges(digest, ops, l, d);
    ExplainedIsPaired(digest, ops, k, l.actions[k], RequestOf(l, k));
  }

  // ---- decisions are final

  lemma StepKeepsDecided(digest: Digest, ops: seq<LedgerOp>, l: Ledger, op: LedgerOp, id: string)
    requires WellIndexed(digest, l) && Traced(digest, ops, l) && DigestsApart(digest, PlannedKeys(ops + [op]))
             && Indexed(l)
    requires id in l.requests && l.requests[id].status != PendingApproval
    ensures id in After(digest, l, op).requests && After(digest, l, op).requests[id] == l.requests[id]
  {
    match op
    case PlanOp(p) => if p.key !in l.actions { NewPlanNewRequest(digest, ops, l, p); }
    case DecideOp(d) => DecisionKeepsDecided(l, d, id);
  }

  lemma DecisionKeepsDecided(l: Ledger, d: Decision, id: string)
    requires Indexed(l) && id in l.requests && l.requests[id].status != PendingApproval
    ensures id in AfterDecision(l, d).requests && AfterDecision(l, d).requests[id] == l.requests[id]
  {
  }

  lemma {:induction false} DecidedStays(digest: Digest, ops: seq<LedgerOp>, n: nat, id: string)
    requires DigestsApart(digest, PlannedKeys(ops)) && n <= |ops|
    requires id in Run(digest, ops[..n]).requests && Run(digest, ops[..n]).requests[id].status != PendingApproval
    ensures id in Run(digest, ops).requests && Run(digest, ops).requests[id] == Run(digest, ops[..n]).requests[id]
  {
    if n == |ops| {
      assert ops[..n] == ops;
    } else {
      var front, op := ops[..|ops| - 1], ops[|ops| - 1];
      assert ops == front + [op] && front[..n] == ops[..n];
      ApartEarlier(digest, front, op);
      DecidedStays(digest, front, n, id);
      ReachableIsTraced(digest, front);
      StepKeepsDecided(digest, front, Run(digest, front), op, id);
    }
  }

  lemma NewPlanNewRequest(digest: Digest, ops: seq<LedgerOp>, l: Ledger, p: Plan)
    requires WellIndexed(digest, l) && Traced(digest, ops, l) && p.key !in l.actions
    requires DigestsApart(digest, PlannedKeys(ops + [PlanOp(p)]))
    ensures ApprovalId(digest, p.key) !in l.requests
  {
    var id := ApprovalId(digest, p.key);
    PlannedKeysGrow(ops, PlanOp(p));
    if id in l.requests {
      var k :| k in l.actions && id == ApprovalId(digest, k) && l.actions[k].requestId == Some(id);
      ExplainedIsPlain(digest, ops, k, l.actions[k], RequestOf(l, k));
      IdsApart(digest, PlannedKeys(ops + [PlanOp(p)]), "workflow-approval", k, p.key);
    }
  }

  /** No request is ever decided twice. */
  lemma DecidedOnce(digest: Digest, ops: seq<LedgerOp>, i: nat, j: nat)
    requires DigestsApart(digest, PlannedKeys(ops)) && i < j < |ops|
    requires ops[i].DecideOp? && ops[j].DecideOp? && ops[i].d.requestId == ops[j].d.requestId
    requires DecideResult(Run(digest, ops[..i]), ops[i].d).Ok?
    ensures DecideResult(Run(digest, ops[..j]), ops[j].d).Err?
    ensures ops[j].d.businessId == ops[i].d.businessId && ops[j].d.decision in {"approved", "rejected"} ==>
              DecideResult(Run(digest, ops[..j]), ops[j].d) == Err(AlreadyDecided(DecisionStates(ops[i].d.decision).0))
  {
    var id := ops[i].d.requestId;
    assert ops[..i + 1][..i] == ops[..i] && ops[..i + 1][i] == ops[i];
    assert ops[..j][..i + 1] == ops[..i + 1] && ops[..j] + ops[j..] == ops;
    EarlierKeys(ops, j);
    DecidedStays(digest, ops[..j], i + 1, id);
  }

  lemma EarlierKeys(ops: seq<LedgerOp>, n: nat)
    requires n <= |ops|
    ensures PlannedKeys(ops[..n]) <= PlannedKeys(ops)
  {
    forall k | k in PlannedKeys(ops[..n]) ensures k in PlannedKeys(ops) {
      var x :| x in ops[..n] && x.PlanOp? && x.p.key == k;
      assert x in ops;
    }
  }

  /** An approved record was approved by a decision made after it was planned. */
  lemma ApprovalHasADecision(digest: Digest, ops: seq<LedgerOp>, k: Key) returns (i: nat, j: nat)
    requires DigestsApart(digest, PlannedKeys(ops))
    requires k in Run(digest, ops).actions && Run(digest, ops).actions[k].approvalState == Approved
    ensures AsDecided(digest, ops, i, j, k, Run(digest, ops).actions[k], RequestOf(Run(digest, ops), k))
    ensures ops[j].d.decision == "approved"
  {
    var l := Run(digest, ops);
    ReachableIsTraced(digest, ops);
    assert Explained(digest, ops, k, l.actions[k], RequestOf(l, k));
    assert !exists i: nat :: AsPlanned(digest, ops, i, k, l.actions[k], RequestOf(l, k));
    i, j :| AsDecided(digest, ops, i, j, k, l.actions[k], RequestOf(l, k));
  }

  // ---- the store object

  class InMemoryWorkflowActionLedger {
    var order: seq<Key>
    var actions: map<Key, Record>
    var requestOrder: seq<string>
    var requests: map<string, Request>

    function State(): Ledger
      reads this
    {
      Ledger(order, actions, requestOrder, requests)
    }

    constructor ()
      ensures State() == EMPTY
    {
      order, actions, requestOrder, requests := [], map[], [], map[];
    }

    method RecordPlannedAction(digest: Digest, p: Plan) returns (write: Write)
      modifies this
      ensures State() == AfterPlan(digest, old(State()), p) && write == PlanResult(digest, old(State()), p)
    {
      if p.key in actions {
        return Write(actions[p.key], false, None);
      }
      var record := NewRecord(digest, p);
      order, actions := order + [p.key], actions[p.key := record];
      var request := NewRequest(digest, p);
      if request.Some? {
        var q := request.value;
        requestOrder := AppendIfNew(requestOrder, q.requestId, q.requestId in requests);
        requests := requests[q.requestId := q];
      }
      return Write(record, true, request);
    }

    /** The first record of the business with that ledger id. */
    method FindRecord(businessId: string, ledgerId: string) returns (key: Option<Key>)
      requires Indexed(State())
      ensures key == FirstKey(order, actions, businessId, ledgerId)
    {
      assert order[0..] == order;
      for n := 0 to |order|
        invariant FirstKey(order[n..], actions, businessId, ledgerId) == FirstKey(order, actions, businessId, ledgerId)
      {
        var k := order[n];
        if actions[k].key.businessId == businessId && actions[k].ledgerId == ledgerId { return Some(k); }
      }
      return None;
    }

    method DecideApprovalRequest(d: Decision) returns (r: Result<Decided, LedgerError>)
      requires Indexed(State())
      modifies this
      ensures Indexed(State()) && State() == AfterDecision(old(State()), d) && r == DecideResult(old(State()), d)
      ensures r.Err? ==> State() == old(State())
    {
      if d.decision != "approved" && d.decision != "rejected" { return Err(InvalidDecision); }
      if d.requestId !in requests || requests[d.requestId].businessId != d.businessId { return Err(RequestNotFound); }
      var request := requests[d.requestId];
      if request.status != PendingApproval { return Err(AlreadyDecided(request.status)); }
      var found := FindRecord(d.businessId, request.ledgerId);
      if found.None? { return Err(RecordNotFound); }
      var record := DecidedRecord(actions[found.value], d);
      var decided := DecidedRequest(request, d);
      actions := actions[found.value := record];
      requests := requests[d.requestId := decided];
      return Ok(Decided(record, decided));
    }
  }
}
