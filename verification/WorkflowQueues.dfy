/** The approval queue and the execution queue: two projections of the ledger, which together with the
    rejected actions account for every gated action once. */
module WorkflowQueues {
  import opened Basics
  import opened Sorting
  import opened WorkflowLedger
  import ActionCatalog

  // ---- listing

  /** `list_actions`: a business's records in insertion order. */
  function ListActions(order: seq<Key>, actions: map<Key, Record>, businessId: string): (r: seq<Record>)
    requires forall k :: k in order ==> k in actions
    ensures forall x :: x in r ==> exists k :: k in order && k.businessId == businessId && actions[k] == x
    ensures forall k :: k in order && k.businessId == businessId ==> actions[k] in r
  {
    if order == [] then []
    else
      var front, k := order[..|order| - 1], order[|order| - 1];
      assert order == front + [k];
      ListActions(front, actions, businessId) + (if k.businessId == businessId then [actions[k]] else [])
  }

  /** `list_approval_requests`: a business's requests in insertion order. */
  function ListRequests(order: seq<string>, requests: map<string, Request>, businessId: string): (r: seq<Request>)
    requires forall id :: id in order ==> id in requests
    ensures forall x :: x in r ==> exists id :: id in order && requests[id] == x && x.businessId == businessId
    ensures forall id :: id in order && requests[id].businessId == businessId ==> requests[id] in r
  {
    if order == [] then []
    else
      var front, id := order[..|order| - 1], order[|order| - 1];
      assert order == front + [id];
      ListRequests(front, requests, businessId) + (if requests[id].businessId == businessId then [requests[id]] else [])
  }

  /** The record an index by ledger id holds: the last one listed under that id. */
  function IndexedRecord(records: seq<Record>, ledgerId: string): (r: Option<Record>)
    ensures r.Some? ==> r.value in records && r.value.ledgerId == ledgerId
    ensures r.None? ==> forall x :: x in records ==> x.ledgerId != ledgerId
  {
    if records == [] then None
    else
      var front, x := records[..|records| - 1], records[|records| - 1];
      assert records == front + [x];
      if x.ledgerId == ledgerId then Some(x) else IndexedRecord(front, ledgerId)
  }

  predicate IsPendingApproval(q: Request, record: Option<Record>) {
    record.Some? &&
    var r := record.value;
    && q.ledgerId == r.ledgerId && q.businessId == r.key.businessId && q.caseId == r.caseId
       && q.actionKey == r.actionKey
    && Some(q.requestId) == r.requestId && q.status == PendingApproval && ActionCatalog.Lookup(r.actionKey).Some?
    && r.approvalState == PendingApproval && r.executionState == BlockedApprovalRequired
  }

  predicate IsPendingExecution(r: Record) {
    ActionCatalog.Lookup(r.actionKey).Some? && r.approvalState == Approved && r.executionState == PendingExecution
  }

  predicate OlderRequest(a: Request, b: Request) {
    a.requestedAt < b.requestedAt || (a.requestedAt == b.requestedAt && !TextLess(b.requestId, a.requestId))
  }

  predicate OlderRecord(a: Record, b: Record) {
    a.updatedAt < b.updatedAt || (a.updatedAt == b.updatedAt && !TextLess(b.ledgerId, a.ledgerId))
  }

  /** `pairs if limit is None else pairs[:max(limit, 0)]` */
  function Limited<T>(s: seq<T>, limit: Option<int>): (r: seq<T>)
    ensures r <= s && (limit == None || limit.value >= |s| ==> r == s)
  {
    match limit
    case None => s
    case Some(n) => if n <= 0 then [] else if n <= |s| then s[..n] else s
  }

  predicate Listable(l: Ledger) {
    (forall k :: k in l.order ==> k in l.actions) && (forall id :: id in l.requestOrder ==> id in l.requests)
  }

  function AwaitsApproval(records: seq<Record>): Request -> bool {
    (q: Request) => IsPendingApproval(q, IndexedRecord(records, q.ledgerId))
  }

  /** The requests of a business that await approval, in insertion order. */
  function Waiting(l: Ledger, businessId: string): seq<Request>
    requires Listable(l)
  {
    Filter(ListRequests(l.requestOrder, l.requests, businessId),
      AwaitsApproval(ListActions(l.order, l.actions, businessId)))
  }

  /** The whole approval queue of a business, oldest request first. */
  function ApprovalQueue(l: Ledger, businessId: string): seq<Request>
    requires Listable(l)
  {
    StableSort(Waiting(l, businessId), OlderRequest)
  }

  /** The whole execution queue of a business, oldest approval first. */
  function ExecutionQueue(l: Ledger, businessId: string): seq<Record>
    requires Listable(l)
  {
    StableSort(Filter(ListActions(l.order, l.actions, businessId), IsPendingExecution), OlderRecord)
  }

  datatype QueuePage<T> = QueuePage(items: seq<T>, total: nat, returned: nat)

  /** `list_workflow_approval_queue`: the total counts the whole queue. */
  function ListApprovalQueue(l: Ledger, businessId: string, limit: Option<int>): (page: QueuePage<Request>)
    requires Listable(l)
    ensures page.items <= ApprovalQueue(l, businessId) && page.returned == |page.items|
    ensures page.total == |ApprovalQueue(l, businessId)|
    ensures limit == None || limit.value >= page.total ==> page.items == ApprovalQueue(l, businessId)
  {
    var queue := ApprovalQueue(l, businessId);
    QueuePage(Limited(queue, limit), |queue|, |Limited(queue, limit)|)
  }

  function ListExecutionQueue(l: Ledger, businessId: string, limit: Option<int>): (page: QueuePage<Record>)
    requires Listable(l)
    ensures page.items <= ExecutionQueue(l, businessId) && page.returned == |page.items|
    ensures page.total == |ExecutionQueue(l, businessId)|
    ensures limit == None || limit.value >= page.total ==> page.items == ExecutionQueue(l, businessId)
  {
    var queue := ExecutionQueue(l, businessId);
    QueuePage(Limited(queue, limit), |queue|, |Limited(queue, limit)|)
  }

  // ---- ledgers filled by the workflow service

  /** What the workflow service passes for a registered action. */
  predicate ServicePlanned(p: Plan) {
    match ActionCatalog.Lookup(p.actionKey)
    case None => false
    case Some(definition) =>
      p.approvalRequired == definition.requiresApproval && p.executionState == ActionCatalog.ExecutionStatus(definition)
  }

  ghost predicate ServiceOps(ops: seq<LedgerOp>) {
    forall i :: 0 <= i < |ops| && ops[i].PlanOp? ==> ServicePlanned(ops[i].p)
  }

  // ---- the three places of a gated action

  function GatedKeys(l: Ledger, businessId: string): set<Key> {
    set k | k in l.actions && k.businessId == businessId && l.actions[k].approvalState != NotRequired
  }

  function AwaitingApproval(l: Ledger, businessId: string): set<Key> {
    set k | k in l.actions && k.businessId == businessId && RequestOf(l, k).Some?
      && IsPendingApproval(RequestOf(l, k).value, Some(l.actions[k]))
  }

  function AwaitingExecution(l: Ledger, businessId: string): set<Key> {
    set k | k in l.actions && k.businessId == businessId && IsPendingExecution(l.actions[k])
  }

  function RejectedKeys(l: Ledger, businessId: string): set<Key> {
    set k | k in l.actions && k.businessId == businessId && l.actions[k].approvalState == Rejected
  }

  /** A record planned by the service is in one of the states the queues look for. */
  lemma ServiceRecord(digest: Digest, ops: seq<LedgerOp>, k: Key, r: Record, q: Option<Request>)
    requires ServiceOps(ops) && Explained(digest, ops, k, r, q)
    ensures ActionCatalog.Lookup(r.actionKey).Some?
    ensures r.approvalState == PendingApproval <==> q.Some? && IsPendingApproval(q.value, Some(r))
    ensures r.approvalState == Approved <==> IsPendingExecution(r)
  {
  }

  /** The ledger is one the operations lead to. */
  ghost predicate From(digest: Digest, ops: seq<LedgerOp>, l: Ledger) {
    DigestsApart(digest, PlannedKeys(ops)) && WellIndexed(digest, l) && Traced(digest, ops, l) && Indexed(l)
  }

  lemma RunIsFrom(digest: Digest, ops: seq<LedgerOp>)
    requires DigestsApart(digest, PlannedKeys(ops))
    ensures From(digest, ops, Run(digest, ops)) && Listable(Run(digest, ops))
  {
    ReachableIsTraced(digest, ops);
  }

  lemma PlaceOf(digest: Digest, ops: seq<LedgerOp>, l: Ledger, businessId: string, k: Key)
    requires From(digest, ops, l) && ServiceOps(ops)
    ensures k in AwaitingApproval(l, businessId)
       <==> k in GatedKeys(l, businessId) && l.actions[k].approvalState == PendingApproval
    ensures k in AwaitingExecution(l, businessId)
       <==> k in GatedKeys(l, businessId) && l.actions[k].approvalState == Approved
    ensures k in RejectedKeys(l, businessId)
       <==> k in GatedKeys(l, businessId) && l.actions[k].approvalState == Rejected
  {
    if k in l.actions { ServiceRecord(digest, ops, k, l.actions[k], RequestOf(l, k)); }
  }

  lemma ThreeParts<T>(all: set<T>, a: set<T>, b: set<T>, c: set<T>)
    requires a * b == {} && a * c == {} && b * c == {} && all == a + b + c
    ensures |all| == |a| + |b| + |c|
  {
    assert (a + b) * c == {};
  }

  /** In every ledger the service fills, the actions awaiting approval, those awaiting execution and the
      rejected ones are disjoint and are together exactly the gated actions. */
  lemma QueuesPartitionGatedActions(digest: Digest, ops: seq<LedgerOp>, businessId: string)
    requires DigestsApart(digest, PlannedKeys(ops)) && ServiceOps(ops)
    ensures var l := Run(digest, ops);
            var a, e, j := AwaitingApproval(l, businessId), AwaitingExecution(l, businessId),
              RejectedKeys(l, businessId);
            && GatedKeys(l, businessId) == a + e + j
            && a * e == {} && a * j == {} && e * j == {}
            && |GatedKeys(l, businessId)| == |a| + |e| + |j|
  {
    var l := Run(digest, ops);
    RunIsFrom(digest, ops);
    PartitionOf(digest, ops, l, businessId);
  }

  lemma PartitionOf(digest: Digest, ops: seq<LedgerOp>, l: Ledger, businessId: string)
    requires From(digest, ops, l) && ServiceOps(ops)
    ensures var a, e, j := AwaitingApproval(l, businessId), AwaitingExecution(l, businessId),
            RejectedKeys(l, businessId);
            && GatedKeys(l, businessId) == a + e + j
            && a * e == {} && a * j == {} && e * j == {}
            && |GatedKeys(l, businessId)| == |a| + |e| + |j|
  {
    var g, a, e, j := GatedKeys(l, businessId), AwaitingApproval(l, businessId), AwaitingExecution(l, businessId),
      RejectedKeys(l, businessId);
    forall k
      ensures k in a <==> k in g && l.actions[k].approvalState == PendingApproval
    {
      PlaceOf(digest, ops, l, businessId, k);
    }
    forall k
      ensures k in e <==> k in g && l.actions[k].approvalState == Approved
    {
      PlaceOf(digest, ops, l, businessId, k);
    }
    forall k
      ensures k in j <==> k in g && l.actions[k].approvalState == Rejected
    {
      PlaceOf(digest, ops, l, businessId, k);
    }
    SplitByState(l.actions, g, a, e, j);
  }

  lemma SplitByState(actions: map<Key, Record>, g: set<Key>, a: set<Key>, e: set<Key>, j: set<Key>)
    requires forall k :: k in g ==> k in actions && actions[k].approvalState != NotRequired
    requires forall k :: k in a <==> k in g && actions[k].approvalState == PendingApproval
    requires forall k :: k in e <==> k in g && actions[k].approvalState == Approved
    requires forall k :: k in j <==> k in g && actions[k].approvalState == Rejected
    ensures g == a + e + j && a * e == {} && a * j == {} && e * j == {} && |g| == |a| + |e| + |j|
  {
    assert g == a + e + j;
    assert a * e == {} && a * j == {} && e * j == {};
    ThreeParts(g, a, e, j);
  }

  /** A successful decision takes one action out of the approval queue of its business and puts it where
      the decision says; every other queue keeps its actions. */
  lemma DecisionMovesOne(digest: Digest, ops: seq<LedgerOp>, d: Decision, businessId: string) returns (k: Key)
    requires DigestsApart(digest, PlannedKeys(ops)) && ServiceOps(ops) && DecideResult(Run(digest, ops), d).Ok?
    ensures var l, r := Run(digest, ops), AfterDecision(Run(digest, ops), d);
            var moved := if d.businessId == businessId then {k} else {};
            var approved := d.decision == "approved";
            && k in AwaitingApproval(l, d.businessId)
            && AwaitingApproval(r, businessId) == AwaitingApproval(l, businessId) - moved
            && AwaitingExecution(r, businessId) == AwaitingExecution(l, businessId) + (if approved then moved else {})
            && RejectedKeys(r, businessId) == RejectedKeys(l, businessId) + (if approved then {} else moved)
  {
    var l := Run(digest, ops);
    k := DecisionChangesOne(digest, ops, d);
    RunIsFrom(digest, ops);
    PlaceOf(digest, ops, l, d.businessId, k);
    OthersKeepTheirRequests(digest, ops, l, d, k);
    MovedKeys(l, WithDecision(l, d, k), d, k, businessId);
  }

  lemma OthersKeepTheirRequests(digest: Digest, ops: seq<LedgerOp>, l: Ledger, d: Decision, k: Key)
    requires From(digest, ops, l) && Owns(l, k, d.requestId)
    ensures forall x :: x in l.actions && x != k ==> RequestOf(WithDecision(l, d, k), x) == RequestOf(l, x)
  {
    ExplainedIsPlain(digest, ops, k, l.actions[k], RequestOf(l, k));
    forall x | x in l.actions && x != k ensures RequestOf(WithDecision(l, d, k), x) == RequestOf(l, x) {
      DecisionLeavesOthers(digest, ops, l, d, k, x);
    }
  }

  lemma MovedKeys(l: Ledger, r: Ledger, d: Decision, k: Key, businessId: string)
    requires k in l.actions && d.requestId in l.requests && r == WithDecision(l, d, k) && k.businessId == d.businessId
    requires k in AwaitingApproval(l, d.businessId) && l.actions[k].requestId == Some(d.requestId)
    requires forall x :: x in l.actions && x != k ==> RequestOf(r, x) == RequestOf(l, x)
    ensures var moved := if d.businessId == businessId then {k} else {};
            var approved := d.decision == "approved";
            && AwaitingApproval(r, businessId) == AwaitingApproval(l, businessId) - moved
            && AwaitingExecution(r, businessId) == AwaitingExecution(l, businessId) + (if approved then moved else {})
            && RejectedKeys(r, businessId) == RejectedKeys(l, businessId) + (if approved then {} else moved)
  {
    forall x ensures x in AwaitingApproval(r, businessId) <==> x in AwaitingApproval(l, businessId) && x != k {
      PlaceAfter(l, d, k, x, businessId);
    }
    forall x ensures x in AwaitingExecution(r, businessId)
                <==> || x in AwaitingExecution(l, businessId)
                     || (x == k && k.businessId == businessId && d.decision == "approved") {
      PlaceAfter(l, d, k, x, businessId);
    }
    forall x ensures x in RejectedKeys(r, businessId)
                <==> || x in RejectedKeys(l, businessId)
                     || (x == k && k.businessId == businessId && d.decision != "approved") {
      PlaceAfter(l, d, k, x, businessId);
    }
  }

  lemma PlaceAfter(l: Ledger, d: Decision, k: Key, x: Key, businessId: string)
    requires k in l.actions && d.requestId in l.requests && k in AwaitingApproval(l, k.businessId)
    requires x in l.actions && x != k ==> RequestOf(WithDecision(l, d, k), x) == RequestOf(l, x)
    ensures var r := WithDecision(l, d, k);
            && (x in AwaitingApproval(r, businessId) <==> x in AwaitingApproval(l, businessId) && x != k)
            && (x in AwaitingExecution(r, businessId)
                <==> || x in AwaitingExecution(l, businessId)
                     || (x == k && k.businessId == businessId && d.decision == "approved"))
            && (x in RejectedKeys(r, businessId)
                <==> || x in RejectedKeys(l, businessId)
                     || (x == k && k.businessId == businessId && d.decision != "approved"))
  {
  }

  // ---- the queues list exactly those actions

  /** A request stands in the approval queue exactly when its action awaits approval. */
  lemma ApprovalQueueLists(digest: Digest, ops: seq<LedgerOp>, businessId: string, q: Request)
    requires DigestsApart(digest, PlannedKeys(ops)) && Listable(Run(digest, ops))
    ensures q in ApprovalQueue(Run(digest, ops), businessId)
       <==> exists k :: k in AwaitingApproval(Run(digest, ops), businessId) && RequestOf(Run(digest, ops), k) == Some(q)
  {
    var l := Run(digest, ops);
    RunIsFrom(digest, ops);
    ReachableLockStep(digest, ops);
    MultisetMembers(ApprovalQueue(l, businessId), Waiting(l, businessId));
    if q in Waiting(l, businessId) { var _ := WaitingHasAction(l, businessId, q); }
    if k :| k in AwaitingApproval(l, businessId) && RequestOf(l, k) == Some(q) {
      ActionIsWaiting(digest, ops, l, businessId, k);
    }
  }

  lemma WaitingHasAction(l: Ledger, businessId: string, q: Request) returns (k: Key)
    requires Listable(l) && q in Waiting(l, businessId) && forall id :: id in l.requests ==>
               l.requests[id].requestId == id
    ensures k in AwaitingApproval(l, businessId) && RequestOf(l, k) == Some(q)
  {
    var record := IndexedRecord(ListActions(l.order, l.actions, businessId), q.ledgerId).value;
    k :| k in l.order && k.businessId == businessId && l.actions[k] == record;
    var id :| id in l.requestOrder && l.requests[id] == q;
  }

  lemma ActionIsWaiting(digest: Digest, ops: seq<LedgerOp>, l: Ledger, businessId: string, k: Key)
    requires From(digest, ops, l) && Listable(l) && k in AwaitingApproval(l, businessId)
    ensures RequestOf(l, k).Some? && RequestOf(l, k).value in Waiting(l, businessId)
  {
    var q, records := RequestOf(l, k).value, ListActions(l.order, l.actions, businessId);
    ExplainedIsPlain(digest, ops, k, l.actions[k], RequestOf(l, k));
    assert l.actions[k] in records;
    var record := IndexedRecord(records, q.ledgerId).value;
    var m :| m in l.order && m.businessId == businessId && l.actions[m] == record;
    ExplainedIsPlain(digest, ops, m, l.actions[m], RequestOf(l, m));
    IdsApart(digest, PlannedKeys(ops), "workflow-action", m, k);
    assert l.actions[k].requestId.value in l.requestOrder;
  }

  /** A record stands in the execution queue exactly when its action awaits execution. */
  lemma ExecutionQueueLists(digest: Digest, ops: seq<LedgerOp>, businessId: string, r: Record)
    requires DigestsApart(digest, PlannedKeys(ops)) && Listable(Run(digest, ops))
    ensures r in ExecutionQueue(Run(digest, ops), businessId)
       <==> exists k :: k in AwaitingExecution(Run(digest, ops), businessId) && Run(digest, ops).actions[k] == r
  {
    var l := Run(digest, ops);
    ReachableIsTraced(digest, ops);
    MultisetMembers(ExecutionQueue(l, businessId),
      Filter(ListActions(l.order, l.actions, businessId), IsPendingExecution));
  }

  // ---- the totals add up

  lemma {:induction false} ListActionsDistinct(order: seq<Key>, actions: map<Key, Record>, businessId: string)
    requires (forall k :: k in order ==> k in actions && actions[k].key == k) && NoDuplicates(order)
    ensures NoDuplicates(ListActions(order, actions, businessId))
  {
    if order != [] {
      var front, k := order[..|order| - 1], order[|order| - 1];
      assert order == front + [k];
      ListActionsDistinct(front, actions, businessId);
      assert actions[k] !in ListActions(front, actions, businessId);
    }
  }

  lemma {:induction false} ListRequestsDistinct(order: seq<string>, requests: map<string, Request>, businessId: string)
    requires (forall id :: id in order ==> id in requests && requests[id].requestId == id) && NoDuplicates(order)
    ensures NoDuplicates(ListRequests(order, requests, businessId))
  {
    if order != [] {
      var front, id := order[..|order| - 1], order[|order| - 1];
      assert order == front + [id];
      ListRequestsDistinct(front, requests, businessId);
      assert requests[id] !in ListRequests(front, requests, businessId);
    }
  }

  /** A list without repetitions whose items match a set one to one has as many items as the set. */
  lemma {:induction false} CountMatches<A(!new), B(!new)>(s: seq<A>, keys: set<B>, matches: (A, B) -> bool)
    requires NoDuplicates(s)
    requires forall a :: a in s ==> exists b :: b in keys && matches(a, b)
    requires forall b :: b in keys ==> exists a :: a in s && matches(a, b)
    requires forall a, b, c :: a in s && b in keys && c in keys && matches(a, b) && matches(a, c) ==> b == c
    requires forall a, c, b :: a in s && c in s && b in keys && matches(a, b) && matches(c, b) ==> a == c
    ensures |s| == |keys|
  {
    if s == [] {
      assert keys == {};
    } else {
      var front, a := s[..|s| - 1], s[|s| - 1];
      assert s == front + [a] && a !in front && a in s;
      var b :| b in keys && matches(a, b);
      forall x | x in front ensures exists y :: y in keys - {b} && matches(x, y) {
        assert x in s;
        var y :| y in keys && matches(x, y);
        assert y != b;
      }
      forall y | y in keys - {b} ensures exists x :: x in front && matches(x, y) {
        var x :| x in s && matches(x, y);
        assert x != a;
      }
      CountMatches(front, keys - {b}, matches);
    }
  }

  function IsRequestOf(l: Ledger): (Request, Key) -> bool {
    (q: Request, k: Key) => k in l.actions && RequestOf(l, k) == Some(q)
  }

  function IsRecordOf(l: Ledger): (Record, Key) -> bool {
    (r: Record, k: Key) => k in l.actions && l.actions[k] == r
  }

  lemma ApprovalQueueDistinct(digest: Digest, ops: seq<LedgerOp>, businessId: string)
    requires DigestsApart(digest, PlannedKeys(ops)) && Listable(Run(digest, ops))
    ensures NoDuplicates(ApprovalQueue(Run(digest, ops), businessId))
  {
    var l := Run(digest, ops);
    RunIsFrom(digest, ops);
    ReachableLockStep(digest, ops);
    var listed := ListRequests(l.requestOrder, l.requests, businessId);
    var keep := AwaitsApproval(ListActions(l.order, l.actions, businessId));
    ListRequestsDistinct(l.requestOrder, l.requests, businessId);
    FilterDistinct(listed, keep);
    DistinctPermutation(Filter(listed, keep), ApprovalQueue(l, businessId));
  }

  lemma ApprovalTotal(digest: Digest, ops: seq<LedgerOp>, businessId: string)
    requires DigestsApart(digest, PlannedKeys(ops)) && Listable(Run(digest, ops))
    ensures |ApprovalQueue(Run(digest, ops), businessId)| == |AwaitingApproval(Run(digest, ops), businessId)|
  {
    var l := Run(digest, ops);
    var queue, keys := ApprovalQueue(l, businessId), AwaitingApproval(l, businessId);
    ApprovalQueueDistinct(digest, ops, businessId);
    forall q ensures q in queue <==> exists k :: k in keys && RequestOf(l, k) == Some(q) {
      ApprovalQueueLists(digest, ops, businessId, q);
    }
    forall k, m | k in keys && m in keys && RequestOf(l, k) == RequestOf(l, m) ensures k == m {
      SameRequest(digest, ops, k, m);
    }
    CountRequests(l, queue, keys);
  }

  lemma CountRequests(l: Ledger, queue: seq<Request>, keys: set<Key>)
    requires NoDuplicates(queue) && forall k :: k in keys ==> k in l.actions && RequestOf(l, k).Some?
    requires forall q :: q in queue <==> exists k :: k in keys && RequestOf(l, k) == Some(q)
    requires forall k, m :: k in keys && m in keys && RequestOf(l, k) == RequestOf(l, m) ==> k == m
    ensures |queue| == |keys|
  {
    var matches := IsRequestOf(l);
    forall q | q in queue ensures exists k :: k in keys && matches(q, k) {
      var k :| k in keys && RequestOf(l, k) == Some(q);
      assert matches(q, k);
    }
    forall k | k in keys ensures exists q :: q in queue && matches(q, k) {
      assert matches(RequestOf(l, k).value, k);
    }
    CountMatches(queue, keys, matches);
  }

  lemma SameRequest(digest: Digest, ops: seq<LedgerOp>, k: Key, m: Key)
    requires DigestsApart(digest, PlannedKeys(ops))
    requires var l := Run(digest, ops);
             k in l.actions && m in l.actions && RequestOf(l, k).Some? && RequestOf(l, k) == RequestOf(l, m)
    ensures k == m
  {
    var l := Run(digest, ops);
    ReachableIsTraced(digest, ops);
    ExplainedIsPaired(digest, ops, k, l.actions[k], RequestOf(l, k));
    ExplainedIsPaired(digest, ops, m, l.actions[m], RequestOf(l, m));
    ExplainedIsPlain(digest, ops, k, l.actions[k], RequestOf(l, k));
    ExplainedIsPlain(digest, ops, m, l.actions[m], RequestOf(l, m));
    IdsApart(digest, PlannedKeys(ops), "workflow-action", k, m);
  }

  lemma ExecutionQueueDistinct(digest: Digest, ops: seq<LedgerOp>, businessId: string)
    requires DigestsApart(digest, PlannedKeys(ops)) && Listable(Run(digest, ops))
    ensures NoDuplicates(ExecutionQueue(Run(digest, ops), businessId))
  {
    var l := Run(digest, ops);
    RunIsFrom(digest, ops);
    ReachableLockStep(digest, ops);
    var listed := ListActions(l.order, l.actions, businessId);
    ListActionsDistinct(l.order, l.actions, businessId);
    FilterDistinct(listed, IsPendingExecution);
    DistinctPermutation(Filter(listed, IsPendingExecution), ExecutionQueue(l, businessId));
  }

  lemma ExecutionTotal(digest: Digest, ops: seq<LedgerOp>, businessId: string)
    requires DigestsApart(digest, PlannedKeys(ops)) && Listable(Run(digest, ops))
    ensures |ExecutionQueue(Run(digest, ops), businessId)| == |AwaitingExecution(Run(digest, ops), businessId)|
  {
    var l := Run(digest, ops);
    var queue, keys := ExecutionQueue(l, businessId), AwaitingExecution(l, businessId);
    ExecutionQueueDistinct(digest, ops, businessId);
    forall r ensures r in queue <==> exists k :: k in keys && l.actions[k] == r {
      ExecutionQueueLists(digest, ops, businessId, r);
    }
    ReachableLockStep(digest, ops);
    CountRecords(l, queue, keys);
  }

  lemma CountRecords(l: Ledger, queue: seq<Record>, keys: set<Key>)
    requires NoDuplicates(queue) && forall k :: k in keys ==> k in l.actions && l.actions[k].key == k
    requires forall r :: r in queue <==> exists k :: k in keys && l.actions[k] == r
    ensures |queue| == |keys|
  {
    var matches := IsRecordOf(l);
    forall r | r in queue ensures exists k :: k in keys && matches(r, k) {
      var k :| k in keys && l.actions[k] == r;
      assert matches(r, k);
    }
    forall k | k in keys ensures exists r :: r in queue && matches(r, k) {
      assert matches(l.actions[k], k);
    }
    CountMatches(queue, keys, matches);
  }

  /** What the two queues report and the rejected actions add up to the gated actions. */
  lemma QueueTotalsAddUp(digest: Digest, ops: seq<LedgerOp>, businessId: string, limit: Option<int>)
    requires DigestsApart(digest, PlannedKeys(ops)) && ServiceOps(ops) && Listable(Run(digest, ops))
    ensures var l := Run(digest, ops);
            ListApprovalQueue(l, businessId, limit).total + ListExecutionQueue(l, businessId, limit).total
              + |RejectedKeys(l, businessId)|
            == |GatedKeys(l, businessId)|
  {
    QueuesPartitionGatedActions(digest, ops, businessId);
    ApprovalTotal(digest, ops, businessId);
    ExecutionTotal(digest, ops, businessId);
  }
}
