/** The in-memory case store: an insertion-ordered dictionary of cases by id, the operations
    on it, and what holds in every state a run of operations reaches. */
module CaseStore {
  import opened Basics
  import opened Calendar
  import opened Cases
  import opened CaseHistory

  /** One call of a store operation, with the clock reading and ids it draws. */
  datatype Op =
    | Detect(d: Detection, newIds: nat -> string, caseId: string, at: Time)
    | Move(caseId: string, status: Status, actor: Actor, actorRef: string, reason: Option<string>, at: Time)
    | Comment(caseId: string, actor: Actor, actorRef: string, comment: string, metadata: map<string, string>, at: Time)
    | AssignTo(caseId: string, actor: Actor, actorRef: string, assignee: string, at: Time)

  // ---- the dictionary, as its values in insertion order

  function Get(cases: seq<Case>, caseId: string): (r: Option<Case>)
    ensures r.Some? ==> r.value in cases && r.value.caseId == caseId
    ensures r.None? ==> forall c :: c in cases ==> c.caseId != caseId
  {
    if cases == [] then None
    else if cases[0].caseId == caseId then Some(cases[0])
    else Get(cases[1..], caseId)
  }

  /** The first case of a business with a dedupe key. */
  function FindByKey(cases: seq<Case>, businessId: string, dedupeKey: string): (r: Option<Case>)
    ensures r.Some? ==> r.value in cases && r.value.businessId == businessId && r.value.dedupeKey == dedupeKey
    ensures r.None? ==> forall c :: c in cases ==> !(c.businessId == businessId && c.dedupeKey == dedupeKey)
  {
    if cases == [] then None
    else if cases[0].businessId == businessId && cases[0].dedupeKey == dedupeKey then Some(cases[0])
    else FindByKey(cases[1..], businessId, dedupeKey)
  }

  /** Assigning a dictionary entry: in place for a known id, at the end for a new one. */
  function Put(cases: seq<Case>, c: Case): seq<Case> {
    if cases == [] then [c]
    else if cases[0].caseId == c.caseId then [c] + cases[1..]
    else [cases[0]] + Put(cases[1..], c)
  }

  function CaseId(c: Case): string { c.caseId }

  function DedupeOf(c: Case): (string, string) { (c.businessId, c.dedupeKey) }

  // ---- operations

  /** The mutation an operation performs, given what it loads. */
  function Outcome(op: Op, loaded: Option<Case>): Result<Case, CaseError> {
    match op
    case Detect(d, newIds, caseId, at) => Upsert(loaded, d, newIds, caseId, at)
    case _ =>
      match loaded
      case None => Err(NotFound)
      case Some(c) =>
        match op
        case Move(_, status, actor, actorRef, reason, at) => Transition(c, status, actor, actorRef, reason, at)
        case Comment(_, actor, actorRef, comment, metadata, at) => AddComment(c, actor, actorRef, comment, metadata, at)
        case AssignTo(_, actor, actorRef, assignee, at) => Assign(c, actor, actorRef, assignee, at)
  }

  function Load(cases: seq<Case>, op: Op): Option<Case> {
    if op.Detect? then FindByKey(cases, op.d.businessId, op.d.dedupeKey) else Get(cases, op.caseId)
  }

  function ResultOf(cases: seq<Case>, op: Op): Result<Case, CaseError> { Outcome(op, Load(cases, op)) }

  /** The store after an operation: only a successful one writes, and it writes one case. */
  function Apply(cases: seq<Case>, op: Op): seq<Case> {
    match ResultOf(cases, op)
    case Ok(c) => Put(cases, c)
    case Err(_) => cases
  }

  function RunFrom(cases: seq<Case>, ops: seq<Op>): seq<Case> {
    if ops == [] then cases else Apply(RunFrom(cases, ops[..|ops| - 1]), ops[|ops| - 1])
  }

  /** Generated case ids do not collide. */
  ghost predicate FreshIds(ops: seq<Op>) {
    forall i, j :: 0 <= i < j < |ops| && ops[i].Detect? && ops[j].Detect? ==> ops[i].caseId != ops[j].caseId
  }

  // ---- what every reachable store satisfies

  ghost predicate Consistent(cases: seq<Case>) {
    && (forall c :: c in cases ==> Sound(c))
    && NoDuplicates(Map(cases, CaseId))
    && NoDuplicates(Map(cases, DedupeOf))
  }

  lemma SameId(cases: seq<Case>, a: Case, b: Case)
    requires NoDuplicates(Map(cases, CaseId)) && a in cases && b in cases && a.caseId == b.caseId
    ensures a == b
  {
  }

  lemma SameKey(cases: seq<Case>, a: Case, b: Case)
    requires NoDuplicates(Map(cases, DedupeOf)) && a in cases && b in cases && DedupeOf(a) == DedupeOf(b)
    ensures a == b
  {
  }

  /** Writing a new id appends; writing a known id replaces its entry where it is. */
  lemma {:induction false} PutShape(cases: seq<Case>, c: Case) returns (i: nat)
    ensures Get(cases, c.caseId).None? ==> Put(cases, c) == cases + [c]
    ensures Get(cases, c.caseId).Some? ==> i < |cases| && cases[i].caseId == c.caseId && Put(cases, c) == cases[i := c]
  {
    i := 0;
    if cases != [] && cases[0].caseId != c.caseId {
      i := PutShape(cases[1..], c);
      i := i + 1;
    }
  }

  /** Writing replaces the entry of the written id and keeps every other. */
  lemma PutMembers(cases: seq<Case>, c: Case)
    requires NoDuplicates(Map(cases, CaseId))
    ensures forall x :: x in Put(cases, c) <==> x == c || (x in cases && x.caseId != c.caseId)
    ensures |Put(cases, c)| == |cases| + (if Get(cases, c.caseId).None? then 1 else 0)
  {
  }

  lemma PutKeys(cases: seq<Case>, c: Case)
    requires NoDuplicates(Map(cases, CaseId)) && NoDuplicates(Map(cases, DedupeOf))
    requires forall x :: x in cases ==> (x.caseId == c.caseId <==> DedupeOf(x) == DedupeOf(c))
    ensures NoDuplicates(Map(Put(cases, c), CaseId)) && NoDuplicates(Map(Put(cases, c), DedupeOf))
  {
    var i := PutShape(cases, c);
    var put := Put(cases, c);
    if Get(cases, c.caseId).Some? {
      assert cases[i] in cases;
      assert Map(put, CaseId) == Map(cases, CaseId) && Map(put, DedupeOf) == Map(cases, DedupeOf);
    } else {
      assert Map(put, CaseId) == Map(cases, CaseId) + [c.caseId];
      assert Map(put, DedupeOf) == Map(cases, DedupeOf) + [DedupeOf(c)];
      forall j | 0 <= j < |cases| ensures Map(cases, CaseId)[j] != c.caseId && Map(cases, DedupeOf)[j] != DedupeOf(c) {
        assert cases[j] in cases;
      }
    }
  }

  /** What one successful operation returns: a sound case that is new to the store or has grown from
      the entry it replaces. */
  lemma ResultIsSound(cases: seq<Case>, op: Op)
    requires Consistent(cases) && ResultOf(cases, op).Ok?
    requires op.Detect? && FindByKey(cases, op.d.businessId, op.d.dedupeKey).None? ==> Get(cases, op.caseId).None?
    ensures var r := ResultOf(cases, op).value;
            && Sound(r)
            && (forall x :: x in cases ==> (x.caseId == r.caseId <==> DedupeOf(x) == DedupeOf(r)))
            && (match Load(cases, op)
                case Some(c) => c in cases && Grew(c, r)
                case None => op.Detect? && r.caseId == op.caseId && Get(cases, r.caseId).None?)
  {
    var r := ResultOf(cases, op).value;
    match Load(cases, op)
    case None =>
      OpenIsSound(op.d, op.newIds, op.caseId, op.at);
    case Some(c) =>
      assert c in cases && Sound(c);
      match op {
        case Detect(d, newIds, caseId, at) => UpsertIsSound(c, d, newIds, caseId, at);
        case Move(_, status, actor, actorRef, reason, at) => TransitionIsSound(c, status, actor, actorRef, reason, at);
        case Comment(_, actor, actorRef, comment, metadata, at) =>
          CommentIsSound(c, actor, actorRef, comment, metadata, at);
        case AssignTo(_, actor, actorRef, assignee, at) => AssignIsSound(c, actor, actorRef, assignee, at);
      }
      forall x | x in cases ensures x.caseId == r.caseId <==> DedupeOf(x) == DedupeOf(r) {
        if x.caseId == c.caseId { SameId(cases, x, c); }
        if DedupeOf(x) == DedupeOf(c) { SameKey(cases, x, c); }
      }
  }

  lemma ApplyKeepsConsistency(cases: seq<Case>, op: Op)
    requires Consistent(cases)
    requires op.Detect? && FindByKey(cases, op.d.businessId, op.d.dedupeKey).None? ==> Get(cases, op.caseId).None?
    ensures Consistent(Apply(cases, op))
    ensures forall c :: c in cases ==> exists later :: later in Apply(cases, op) && Grew(c, later)
  {
    if ResultOf(cases, op).Ok? {
      var r := ResultOf(cases, op).value;
      ResultIsSound(cases, op);
      PutMembers(cases, r);
      PutKeys(cases, r);
      forall c | c in cases ensures exists later :: later in Apply(cases, op) && Grew(c, later) {
        if c.caseId == r.caseId {
          assert Load(cases, op).Some?;
          SameId(cases, c, Load(cases, op).value);
          assert r in Apply(cases, op);
        } else {
          assert c in Apply(cases, op) && Grew(c, c);
        }
      }
    } else {
      forall c | c in cases ensures exists later :: later in Apply(cases, op) && Grew(c, later) {
        assert Grew(c, c);
      }
    }
  }

  /** The case ids drawn by a run's detections. */
  ghost function DrawnIds(ops: seq<Op>): set<string> {
    set op | op in ops && op.Detect? :: op.caseId
  }

  lemma DrawnGrow(ops: seq<Op>)
    requires ops != []
    ensures DrawnIds(ops[..|ops| - 1]) <= DrawnIds(ops)
    ensures ops[|ops| - 1].Detect? ==> ops[|ops| - 1].caseId in DrawnIds(ops)
  {
  }

  /** A detection that opens a case draws an id the store does not hold. */
  lemma NewIdIsNew(ops: seq<Op>)
    requires ops != [] && FreshIds(ops) && ops[|ops| - 1].Detect?
    requires forall c :: c in RunFrom([], ops[..|ops| - 1]) ==> c.caseId in DrawnIds(ops[..|ops| - 1])
    ensures Get(RunFrom([], ops[..|ops| - 1]), ops[|ops| - 1].caseId).None?
  {
  }

  /** Every store that operations reach is consistent: sound cases, one per id, and at most one per
      business and dedupe key. */
  lemma {:induction false} ReachableIsConsistent(ops: seq<Op>)
    requires FreshIds(ops)
    ensures Consistent(RunFrom([], ops))
    ensures forall c :: c in RunFrom([], ops) ==> c.caseId in DrawnIds(ops)
  {
    if ops != [] {
      var front, op := ops[..|ops| - 1], ops[|ops| - 1];
      var cases := RunFrom([], front);
      ReachableIsConsistent(front);
      DrawnGrow(ops);
      if op.Detect? { NewIdIsNew(ops); }
      ApplyKeepsConsistency(cases, op);
      if ResultOf(cases, op).Ok? {
        ResultIsSound(cases, op);
        PutMembers(cases, ResultOf(cases, op).value);
      }
    }
  }

  lemma GrewTransitive(a: Case, b: Case, c: Case)
    requires Grew(a, b) && Grew(b, c)
    ensures Grew(a, c)
  {
  }

  lemma GrowsOneStep(ops: seq<Op>, c: Case) returns (later: Case)
    requires ops != [] && FreshIds(ops) && c in RunFrom([], ops[..|ops| - 1])
    ensures later in RunFrom([], ops) && Grew(c, later)
  {
    var front, op := ops[..|ops| - 1], ops[|ops| - 1];
    ReachableIsConsistent(front);
    if op.Detect? { NewIdIsNew(ops); }
    ApplyKeepsConsistency(RunFrom([], front), op);
    later :| later in Apply(RunFrom([], front), op) && Grew(c, later);
  }

  lemma {:induction false} GrowsAlong(ops: seq<Op>, more: seq<Op>, c: Case) returns (later: Case)
    requires FreshIds(ops + more) && c in RunFrom([], ops)
    ensures later in RunFrom([], ops + more) && Grew(c, later)
    decreases |more|
  {
    if more == [] {
      assert ops + more == ops;
      later := c;
    } else {
      var all := ops + more;
      assert all[..|all| - 1] == ops + more[..|more| - 1];
      assert FreshIds(ops + more[..|more| - 1]);
      var before := GrowsAlong(ops, more[..|more| - 1], c);
      later := GrowsOneStep(all, before);
      GrewTransitive(c, before, later);
    }
  }

  /** Over any continuation of a run every case stays, keeps its identity, and only appends to its
      evidence, snapshots and timeline; a snapshot key keeps its first id. */
  lemma HistoryOnlyGrows(ops: seq<Op>, more: seq<Op>, c: Case) returns (later: Case)
    requires FreshIds(ops + more) && c in RunFrom([], ops)
    ensures later in RunFrom([], ops + more) && Grew(c, later)
    ensures forall key :: key in KeysOf(c.snapshots) ==> IdFor(later.snapshots, key) == IdFor(c.snapshots, key)
  {
    later := GrowsAlong(ops, more, c);
    assert (ops + more)[..|ops|] == ops;
    assert FreshIds(ops);
    ReachableIsConsistent(ops);
    ReachableIsConsistent(ops + more);
    forall key | key in KeysOf(c.snapshots) ensures IdFor(later.snapshots, key) == IdFor(c.snapshots, key) {
      StoredIdIsKept(c, later, key);
    }
  }

  /** In every reachable store each case's lifecycle fields are what its timeline says, its timeline
      is legal, its evidence has no repetition, its events name only snapshots it holds, a resolved
      case was acknowledged, and erasing a dismissal time loses nothing. */
  lemma ReachableCases(ops: seq<Op>, c: Case)
    requires FreshIds(ops) && c in RunFrom([], ops)
    ensures Replay(c.timeline) == Some(ViewOf(c))
    ensures EvidenceDistinct(c) && ReferencesHeld(c.timeline, c.snapshots)
    ensures c.status == Resolved ==> c.acknowledgedAt.Some?
    ensures Backfill(c.(dismissedAt := None)) == c
            && (c.status == Dismissed ==> LastDismissal(c.timeline) == c.dismissedAt)
    ensures forall other :: other in RunFrom([], ops) && DedupeOf(other) == DedupeOf(c) ==> other == c
  {
    ReachableIsConsistent(ops);
    BackfillRestores(c);
    forall other | other in RunFrom([], ops) && DedupeOf(other) == DedupeOf(c) ensures other == c {
      SameKey(RunFrom([], ops), other, c);
    }
  }
}
