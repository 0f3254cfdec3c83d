/** What an idempotency key stands for: one business, rule, case, action and set of parameters. A simulation
    plans exactly the actions the ledger has no record of, told by the records and not by their keys. */
module PlannerKeys {
  import opened Basics
  import opened WorkflowLedger
  import opened WorkflowPlanner
  import Text
  import ActionCatalog
  import C = Cases

  /** What a planned action is about. */
  datatype Subject = Subject(businessId: string, ruleId: string, caseId: string, actionKey: string, params: Params)

  function SubjectOf(rule: Rule, c: C.Case, action: Action): Subject {
    Subject(c.businessId, rule.ruleId, c.caseId, action.actionKey, action.params)
  }

  /** The record under `k` is about `s`. */
  predicate IsAbout(k: Key, r: Record, s: Subject) {
    && k.businessId == s.businessId && r.ruleId == Some(s.ruleId) && r.caseId == s.caseId
    && r.actionKey == s.actionKey && r.params == s.params
  }

  predicate Recorded(l: Ledger, s: Subject) {
    exists k :: k in l.actions && IsAbout(k, l.actions[k], s)
  }

  function FingerprintOf(digests: Digests, s: Subject): string {
    digests.fingerprint(s.businessId, s.ruleId, s.caseId, s.actionKey, s.params)
  }

  /** Fingerprints have sixteen characters and do not collide on the subjects in play. */
  ghost predicate FingerprintsApart(digests: Digests, subjects: set<Subject>) {
    && (forall s :: s in subjects ==> |FingerprintOf(digests, s)| == 16)
    && (forall s, t :: s in subjects && t in subjects && s != t ==>
          FingerprintOf(digests, s) != FingerprintOf(digests, t))
  }

  function StepSubjects(step: ServiceStep): set<Subject> {
    if step.Simulating? then set action | action in step.rule.actions :: SubjectOf(step.rule, step.c, action) else {}
  }

  /** The subjects of all actions of the rules simulated so far. */
  function Subjects(steps: seq<ServiceStep>): set<Subject> {
    if steps == [] then {} else Subjects(steps[..|steps| - 1]) + StepSubjects(steps[|steps| - 1])
  }

  // ---- keys and subjects

  lemma SameTail(a: string, x: string, b: string, y: string)
    requires a + x == b + y && |x| == |y|
    ensures x == y
  {
    assert x == (a + x)[|a|..] && y == (b + y)[|b|..];
  }

  lemma KeyEndsInFingerprint(digests: Digests, rule: Rule, c: C.Case, action: Action) returns (front: string)
    ensures IdempotencyKey(digests, rule, c, action) == front + FingerprintOf(digests, SubjectOf(rule, c, action))
  {
    front := "workflow/" + c.businessId + "/" + rule.ruleId + "/" + c.caseId + "/" + action.actionKey + "/";
  }

  /** Actions with the same key are about the same subject. */
  lemma SameKeySameSubject(
      digests: Digests, subjects: set<Subject>, rule: Rule, c: C.Case, action: Action, rule2: Rule, c2: C.Case,
      action2: Action)
    requires FingerprintsApart(digests, subjects)
    requires SubjectOf(rule, c, action) in subjects && SubjectOf(rule2, c2, action2) in subjects
    requires IdempotencyKey(digests, rule, c, action) == IdempotencyKey(digests, rule2, c2, action2)
    ensures SubjectOf(rule, c, action) == SubjectOf(rule2, c2, action2)
  {
    var s, t := SubjectOf(rule, c, action), SubjectOf(rule2, c2, action2);
    var a := KeyEndsInFingerprint(digests, rule, c, action);
    var b := KeyEndsInFingerprint(digests, rule2, c2, action2);
    SameTail(a, FingerprintOf(digests, s), b, FingerprintOf(digests, t));
  }

  lemma SameSubjectSameKey(
      digests: Digests, rule: Rule, c: C.Case, action: Action, rule2: Rule, c2: C.Case, action2: Action)
    requires SubjectOf(rule, c, action) == SubjectOf(rule2, c2, action2)
    ensures IdempotencyKey(digests, rule, c, action) == IdempotencyKey(digests, rule2, c2, action2)
  {
  }

  // ---- every record is about what its key was made of

  /** The record was planned for an action with a subject in play, under the key of that action. */
  ghost predicate PlannedFor(digests: Digests, subjects: set<Subject>, k: Key, r: Record) {
    exists rule: Rule, c: C.Case, action: Action ::
      && k == Key(c.businessId, IdempotencyKey(digests, rule, c, action))
      && SubjectOf(rule, c, action) in subjects && IsAbout(k, r, SubjectOf(rule, c, action))
  }

  ghost predicate AllPlanned(digests: Digests, subjects: set<Subject>, l: Ledger) {
    forall k :: k in l.actions ==> PlannedFor(digests, subjects, k, l.actions[k])
  }

  lemma MoreSubjects(digests: Digests, few: set<Subject>, many: set<Subject>, l: Ledger)
    requires AllPlanned(digests, few, l) && few <= many
    ensures AllPlanned(digests, many, l)
  {
    forall k | k in l.actions ensures PlannedFor(digests, many, k, l.actions[k]) {
      var rule: Rule, c: C.Case, action: Action :|
        && k == Key(c.businessId, IdempotencyKey(digests, rule, c, action))
        && SubjectOf(rule, c, action) in few && IsAbout(k, l.actions[k], SubjectOf(rule, c, action));
      assert SubjectOf(rule, c, action) in many;
    }
  }

  lemma DecidingKeepsPlanned(digests: Digests, subjects: set<Subject>, l: Ledger, d: Decision)
    requires Indexed(l) && AllPlanned(digests, subjects, l)
    ensures AllPlanned(digests, subjects, AfterDecision(l, d))
  {
    var m := AfterDecision(l, d);
    forall k | k in m.actions ensures PlannedFor(digests, subjects, k, m.actions[k]) {
      assert k in l.actions;
      var rule: Rule, c: C.Case, action: Action :|
        && k == Key(c.businessId, IdempotencyKey(digests, rule, c, action))
        && SubjectOf(rule, c, action) in subjects && IsAbout(k, l.actions[k], SubjectOf(rule, c, action));
      assert IsAbout(k, m.actions[k], SubjectOf(rule, c, action));
    }
  }

  /** What a reported action says of its record, in the record's own fields. */
  lemma ReportIsAbout(
      digests: Digests, rule: Rule, c: C.Case, actor: Option<string>, now: int, action: Action, x: Planned, l: Ledger)
    requires ActionCatalog.Lookup(action.actionKey).Some?
    requires ReportsRecord(digests, rule, c, actor, now, action, x, l)
    ensures var k := Key(c.businessId, x.idempotencyKey);
            && k.idempotencyKey == IdempotencyKey(digests, rule, c, action) && x.actionKey == action.actionKey
            && k in l.actions && IsAbout(k, l.actions[k], SubjectOf(rule, c, action))
            && WrittenNow(l.actions[k], x, actor, now)
  {
  }

  lemma SimulatingKeepsPlanned(
      digests: Digests, subjects: set<Subject>, l: Ledger, rule: Rule, c: C.Case, now: int, actor: Option<string>)
    requires AllPlanned(digests, subjects, l) && StepSubjects(Simulating(rule, c, now, actor)) <= subjects
    ensures var after := Simulate(digests, rule, c, now, Some(l), actor).1;
            after.Some? && AllPlanned(digests, subjects, after.value)
  {
    SimulationConserves(digests, rule, c, now, l, actor);
    var (r, after) := Simulate(digests, rule, c, now, Some(l), actor);
    if r.Ok? && r.value.matched {
      SimulationReports(digests, rule, c, now, l, actor);
      var m, keys := after.value, Map(r.value.planned, KeyOf(c.businessId));
      forall k | k in m.actions ensures PlannedFor(digests, subjects, k, m.actions[k]) {
        if k !in l.actions {
          var i :| 0 <= i < |keys| && keys[i] == k;
          PlannedIsPlannedFor(digests, subjects, rule, c, actor, now, r.value.planned, r.value.planned[i], m);
        }
      }
    }
  }

  lemma PlannedIsPlannedFor(
      digests: Digests, subjects: set<Subject>, rule: Rule, c: C.Case, actor: Option<string>, now: int,
      planned: seq<Planned>, x: Planned, m: Ledger)
    requires KnownActions(rule.actions) && AllReported(digests, rule, c, actor, now, rule.actions, planned, m)
    requires x in planned && StepSubjects(Simulating(rule, c, now, actor)) <= subjects
    ensures var k := Key(c.businessId, x.idempotencyKey);
            k in m.actions && PlannedFor(digests, subjects, k, m.actions[k])
  {
    var i :| 0 <= i < |rule.actions| && ReportsRecord(digests, rule, c, actor, now, rule.actions[i], x, m);
    ReportIsAbout(digests, rule, c, actor, now, rule.actions[i], x, m);
    assert rule.actions[i] in rule.actions;
    assert SubjectOf(rule, c, rule.actions[i]) in StepSubjects(Simulating(rule, c, now, actor));
  }

  lemma {:induction false} ServiceKeepsPlanned(digests: Digests, steps: seq<ServiceStep>)
    ensures AllPlanned(digests, Subjects(steps), ServiceLedger(digests, steps))
  {
    if steps != [] {
      var front, step := steps[..|steps| - 1], steps[|steps| - 1];
      var l := ServiceLedger(digests, front);
      ServiceKeepsPlanned(digests, front);
      MoreSubjects(digests, Subjects(front), Subjects(steps), l);
      match step
      case Deciding(d) => DecidingKeepsPlanned(digests, Subjects(steps), l, d);
      case Simulating(rule, c, now, actor) =>
        SimulatingKeepsPlanned(digests, Subjects(steps), l, rule, c, now, actor);
    }
  }

  // ---- what a simulation plans

  /** The record a report speaks of is about `s`. */
  predicate ReportsAbout(m: Ledger, x: Planned, s: Subject) {
    var k := Key(s.businessId, x.idempotencyKey);
    x.actionKey == s.actionKey && k in m.actions && IsAbout(k, m.actions[k], s)
  }

  /** The record was written just now by the workflow service, in the state its catalog entry gives, and the report
      repeats it. */
  predicate WrittenNow(r: Record, x: Planned, actor: Option<string>, now: int) {
    match ActionCatalog.Lookup(r.actionKey)
    case None => false
    case Some(definition) =>
      && r.source == FromWorkflow && r.createdAt == now && r.updatedAt == now
      && r.actorRef == (if actor == Some("") then None else actor)
      && r.approvalState == (if definition.requiresApproval then PendingApproval else NotRequired)
      && r.executionState
         == (if definition.requiresApproval then BlockedApprovalRequired
             else if definition.mode == ActionCatalog.Suggestion then SuggestionOnly else DryRun)
      && x.ledgerId == Some(r.ledgerId) && x.requestId == r.requestId && x.executionState == r.executionState
      && x.approvalState == Some(r.approvalState)
  }

  /** The entry reports a record written just now about an action of the rule on this case. */
  ghost predicate ReportsNew(
      rule: Rule, c: C.Case, m: Ledger, x: Planned, action: Action, actor: Option<string>, now: int)
  {
    && action in rule.actions && ReportsAbout(m, x, SubjectOf(rule, c, action))
    && WrittenNow(m.actions[Key(c.businessId, x.idempotencyKey)], x, actor, now)
  }

  /** From ledger `l` to ledger `m`: each planned entry reports a new record about an action of the rule on this case
      that had none; no two entries are about the same; and every action of the rule that had no record is
      planned. */
  ghost predicate PlansExactlyTheNew(
      rule: Rule, c: C.Case, l: Ledger, m: Ledger, planned: seq<Planned>, actor: Option<string>, now: int)
  {
    && (forall x :: x in planned ==>
          exists action ::
            ReportsNew(rule, c, m, x, action, actor, now) && !Recorded(l, SubjectOf(rule, c, action)))
    && (forall i, j, action ::
          && 0 <= i < j < |planned| && action in rule.actions
          && ReportsAbout(m, planned[i], SubjectOf(rule, c, action)) ==>
            !ReportsAbout(m, planned[j], SubjectOf(rule, c, action)))
    && (forall action :: action in rule.actions && !Recorded(l, SubjectOf(rule, c, action)) ==>
          exists x ::
            x in planned && ReportsAbout(m, x, SubjectOf(rule, c, action)))
  }

  lemma OneSubject(k: Key, r: Record, s: Subject, t: Subject)
    requires IsAbout(k, r, s) && IsAbout(k, r, t)
    ensures s == t
  {
  }

  /** A record about a subject in play is under the key of that subject. */
  lemma RecordedUnderItsKey(
      digests: Digests, subjects: set<Subject>, l: Ledger, rule: Rule, c: C.Case, action: Action)
    requires AllPlanned(digests, subjects, l) && FingerprintsApart(digests, subjects)
    requires SubjectOf(rule, c, action) in subjects
    ensures Recorded(l, SubjectOf(rule, c, action))
       <==> Key(c.businessId, IdempotencyKey(digests, rule, c, action)) in l.actions
  {
    var s, key := SubjectOf(rule, c, action), Key(c.businessId, IdempotencyKey(digests, rule, c, action));
    if Recorded(l, s) {
      var k :| k in l.actions && IsAbout(k, l.actions[k], s);
      assert PlannedFor(digests, subjects, k, l.actions[k]);
      var rule2: Rule, c2: C.Case, action2: Action :|
        && k == Key(c2.businessId, IdempotencyKey(digests, rule2, c2, action2))
        && SubjectOf(rule2, c2, action2) in subjects && IsAbout(k, l.actions[k], SubjectOf(rule2, c2, action2));
      OneSubject(k, l.actions[k], s, SubjectOf(rule2, c2, action2));
      SameSubjectSameKey(digests, rule, c, action, rule2, c2, action2);
    }
    if key in l.actions {
      assert PlannedFor(digests, subjects, key, l.actions[key]);
      var rule2: Rule, c2: C.Case, action2: Action :|
        && key == Key(c2.businessId, IdempotencyKey(digests, rule2, c2, action2))
        && SubjectOf(rule2, c2, action2) in subjects && IsAbout(key, l.actions[key], SubjectOf(rule2, c2, action2));
      SameKeySameSubject(digests, subjects, rule, c, action, rule2, c2, action2);
    }
  }

  /** The action a planned entry is reported for, with its key. */
  lemma PlannedAction(
      digests: Digests, rule: Rule, c: C.Case, now: int, l: Ledger, actor: Option<string>, i: nat)
      returns (action: Action)
    requires var r := Simulate(digests, rule, c, now, Some(l), actor).0;
             r.Ok? && r.value.matched && i < |r.value.planned|
    ensures var (r, after) := Simulate(digests, rule, c, now, Some(l), actor);
            var x := r.value.planned[i];
            && after.Some? && ReportsNew(rule, c, after.value, x, action, actor, now)
            && x.idempotencyKey == IdempotencyKey(digests, rule, c, action)
  {
    SimulationReports(digests, rule, c, now, l, actor);
    var (r, after) := Simulate(digests, rule, c, now, Some(l), actor);
    var x := r.value.planned[i];
    assert x in r.value.planned;
    var j :| 0 <= j < |rule.actions| && ReportsRecord(digests, rule, c, actor, now, rule.actions[j], x, after.value);
    action := rule.actions[j];
    ReportIsAbout(digests, rule, c, actor, now, action, x, after.value);
  }

  lemma PlannedIsNew(
      digests: Digests, subjects: set<Subject>, rule: Rule, c: C.Case, now: int, l: Ledger, actor: Option<string>,
      i: nat)
    requires AllPlanned(digests, subjects, l) && FingerprintsApart(digests, subjects)
    requires StepSubjects(Simulating(rule, c, now, actor)) <= subjects
    requires var r := Simulate(digests, rule, c, now, Some(l), actor).0;
             r.Ok? && r.value.matched && i < |r.value.planned|
    ensures var (r, after) := Simulate(digests, rule, c, now, Some(l), actor);
            && after.Some?
            && exists action ::
                 && ReportsNew(rule, c, after.value, r.value.planned[i], action, actor, now)
                 && !Recorded(l, SubjectOf(rule, c, action))
  {
    var action := PlannedAction(digests, rule, c, now, l, actor, i);
    SimulationConserves(digests, rule, c, now, l, actor);
    assert SubjectOf(rule, c, action) in StepSubjects(Simulating(rule, c, now, actor));
    RecordedUnderItsKey(digests, subjects, l, rule, c, action);
    var r := Simulate(digests, rule, c, now, Some(l), actor).0;
    assert Map(r.value.planned, KeyOf(c.businessId))[i] == Key(c.businessId, r.value.planned[i].idempotencyKey);
  }

  lemma PlannedOnce(
      digests: Digests, rule: Rule, c: C.Case, now: int, l: Ledger, actor: Option<string>, i: nat, j: nat,
      action: Action)
    requires var r := Simulate(digests, rule, c, now, Some(l), actor).0;
             r.Ok? && r.value.matched && i < j < |r.value.planned|
    ensures var (r, after) := Simulate(digests, rule, c, now, Some(l), actor);
            after.Some? && !(ReportsAbout(after.value, r.value.planned[i], SubjectOf(rule, c, action))
                             && ReportsAbout(after.value, r.value.planned[j], SubjectOf(rule, c, action)))
  {
    var (r, after) := Simulate(digests, rule, c, now, Some(l), actor);
    var planned := r.value.planned;
    KeysDiffer(digests, rule, c, now, l, actor, i, j);
    var a := PlannedAction(digests, rule, c, now, l, actor, i);
    var b := PlannedAction(digests, rule, c, now, l, actor, j);
    OnceEach(digests, rule, c, after.value, planned[i], planned[j], a, b, action);
  }

  lemma KeysDiffer(
      digests: Digests, rule: Rule, c: C.Case, now: int, l: Ledger, actor: Option<string>, i: nat, j: nat)
    requires var r := Simulate(digests, rule, c, now, Some(l), actor).0;
             r.Ok? && r.value.matched && i < j < |r.value.planned|
    ensures var planned := Simulate(digests, rule, c, now, Some(l), actor).0.value.planned;
            planned[i].idempotencyKey != planned[j].idempotencyKey
  {
    SimulationConserves(digests, rule, c, now, l, actor);
    var keys := Map(Simulate(digests, rule, c, now, Some(l), actor).0.value.planned, KeyOf(c.businessId));
    assert keys[i] != keys[j];
  }

  lemma OnceEach(
      digests: Digests, rule: Rule, c: C.Case, m: Ledger, x: Planned, y: Planned, a: Action, b: Action, action: Action)
    requires x.idempotencyKey == IdempotencyKey(digests, rule, c, a) && ReportsAbout(m, x, SubjectOf(rule, c, a))
    requires y.idempotencyKey == IdempotencyKey(digests, rule, c, b) && ReportsAbout(m, y, SubjectOf(rule, c, b))
    requires x.idempotencyKey != y.idempotencyKey
    ensures !(ReportsAbout(m, x, SubjectOf(rule, c, action)) && ReportsAbout(m, y, SubjectOf(rule, c, action)))
  {
    if ReportsAbout(m, x, SubjectOf(rule, c, action)) && ReportsAbout(m, y, SubjectOf(rule, c, action)) {
      OneSubject(Key(c.businessId, x.idempotencyKey), m.actions[Key(c.businessId, x.idempotencyKey)],
        SubjectOf(rule, c, a), SubjectOf(rule, c, action));
      OneSubject(Key(c.businessId, y.idempotencyKey), m.actions[Key(c.businessId, y.idempotencyKey)],
        SubjectOf(rule, c, b), SubjectOf(rule, c, action));
      SameSubjectSameKey(digests, rule, c, a, rule, c, b);
    }
  }

  lemma NewIsPlanned(
      digests: Digests, subjects: set<Subject>, rule: Rule, c: C.Case, now: int, l: Ledger, actor: Option<string>,
      action: Action)
    requires AllPlanned(digests, subjects, l) && FingerprintsApart(digests, subjects)
    requires StepSubjects(Simulating(rule, c, now, actor)) <= subjects
    requires var r := Simulate(digests, rule, c, now, Some(l), actor).0; r.Ok? && r.value.matched
    requires action in rule.actions && !Recorded(l, SubjectOf(rule, c, action))
    ensures var (r, after) := Simulate(digests, rule, c, now, Some(l), actor);
            && after.Some?
            && exists x ::
                 x in r.value.planned && ReportsAbout(after.value, x, SubjectOf(rule, c, action))
  {
    var (r, after) := Simulate(digests, rule, c, now, Some(l), actor);
    var key := Key(c.businessId, IdempotencyKey(digests, rule, c, action));
    MatchedKeysAreRecorded(digests, rule, c, now, l, actor);
    SimulationConserves(digests, rule, c, now, l, actor);
    assert SubjectOf(rule, c, action) in StepSubjects(Simulating(rule, c, now, actor));
    RecordedUnderItsKey(digests, subjects, l, rule, c, action);
    var keys := Map(r.value.planned, KeyOf(c.businessId));
    assert key in keys;
    var i :| 0 <= i < |keys| && keys[i] == key;
    var planned := PlannedAction(digests, rule, c, now, l, actor, i);
    assert SubjectOf(rule, c, planned) in StepSubjects(Simulating(rule, c, now, actor));
    SameKeySameSubject(digests, subjects, rule, c, action, rule, c, planned);
    assert r.value.planned[i] in r.value.planned;
  }

  /** After any history of simulations and decisions, and with fingerprints that do not collide on what was
      simulated, a matched simulation plans exactly the actions of its rule that the ledger has no record of for
      this business, rule, case, action key and parameters, each once, whatever else the ledger holds. */
  lemma SimulationPlansExactlyTheNew(
      digests: Digests, steps: seq<ServiceStep>, rule: Rule, c: C.Case, now: int, actor: Option<string>)
    requires FingerprintsApart(digests, Subjects(steps + [Simulating(rule, c, now, actor)]))
    requires var r := Simulate(digests, rule, c, now, Some(ServiceLedger(digests, steps)), actor).0;
             r.Ok? && r.value.matched
    ensures var l := ServiceLedger(digests, steps);
            var (r, after) := Simulate(digests, rule, c, now, Some(l), actor);
            after.Some? && PlansExactlyTheNew(rule, c, l, after.value, r.value.planned, actor, now)
  {
    var step, l := Simulating(rule, c, now, actor), ServiceLedger(digests, steps);
    var subjects := Subjects(steps + [step]);
    assert (steps + [step])[..|steps|] == steps;
    ServiceKeepsPlanned(digests, steps);
    MoreSubjects(digests, Subjects(steps), subjects, l);
    PlansTheNew(digests, subjects, rule, c, now, l, actor);
  }

  lemma PlansTheNew(
      digests: Digests, subjects: set<Subject>, rule: Rule, c: C.Case, now: int, l: Ledger, actor: Option<string>)
    requires AllPlanned(digests, subjects, l) && FingerprintsApart(digests, subjects)
    requires StepSubjects(Simulating(rule, c, now, actor)) <= subjects
    requires var r := Simulate(digests, rule, c, now, Some(l), actor).0; r.Ok? && r.value.matched
    ensures var (r, after) := Simulate(digests, rule, c, now, Some(l), actor);
            after.Some? && PlansExactlyTheNew(rule, c, l, after.value, r.value.planned, actor, now)
  {
    SimulationConserves(digests, rule, c, now, l, actor);
    var (r, after) := Simulate(digests, rule, c, now, Some(l), actor);
    var planned := r.value.planned;
    forall x | x in planned
      ensures exists action ::
                ReportsNew(rule, c, after.value, x, action, actor, now) && !Recorded(l, SubjectOf(rule, c, action))
    {
      var i :| 0 <= i < |planned| && planned[i] == x;
      PlannedIsNew(digests, subjects, rule, c, now, l, actor, i);
    }
    forall i, j, action |
      && 0 <= i < j < |planned| && action in rule.actions
      && ReportsAbout(after.value, planned[i], SubjectOf(rule, c, action))
      ensures !ReportsAbout(after.value, planned[j], SubjectOf(rule, c, action))
    {
      PlannedOnce(digests, rule, c, now, l, actor, i, j, action);
    }
    forall action | action in rule.actions && !Recorded(l, SubjectOf(rule, c, action))
      ensures exists x :: x in planned && ReportsAbout(after.value, x, SubjectOf(rule, c, action))
    {
      NewIsPlanned(digests, subjects, rule, c, now, l, actor, action);
    }
  }

  // ---- what a simulation skips

  /** The entry stands for the action at `i`: its key was recorded before, under the ledger id it shows, or an earlier
      action of the rule had it. */
  ghost predicate SkipsKey(
      digests: Digests, rule: Rule, c: C.Case, l: Ledger, actions: seq<Action>, i: nat, s: Skipped)
  {
    && i < |actions| && s.actionKey == actions[i].actionKey
    && s.idempotencyKey == IdempotencyKey(digests, rule, c, actions[i])
    && match s.ledgerId
       case Some(id) =>
         && Key(c.businessId, s.idempotencyKey) in l.actions
         && l.actions[Key(c.businessId, s.idempotencyKey)].ledgerId == id
       case None => exists j :: 0 <= j < i && IdempotencyKey(digests, rule, c, actions[j]) == s.idempotencyKey
  }

  ghost predicate SkipsOrSeen(
      digests: Digests, rule: Rule, c: C.Case, l: Ledger, actions: seq<Action>, p: Progress)
  {
    && (forall s :: s in p.skipped ==> exists i: nat :: SkipsKey(digests, rule, c, l, actions, i, s))
    && (forall key :: key in p.seen ==>
          exists j :: 0 <= j < |actions| && IdempotencyKey(digests, rule, c, actions[j]) == key)
  }

  lemma SkipsStay(
      digests: Digests, rule: Rule, c: C.Case, l: Ledger, front: seq<Action>, action: Action, p: Progress)
    requires SkipsOrSeen(digests, rule, c, l, front, p)
    ensures SkipsOrSeen(digests, rule, c, l, front + [action], p)
  {
    var actions := front + [action];
    forall s | s in p.skipped ensures exists i: nat :: SkipsKey(digests, rule, c, l, actions, i, s) {
      var i: nat :| SkipsKey(digests, rule, c, l, front, i, s);
      assert actions[i] == front[i] && forall j :: 0 <= j < i ==> actions[j] == front[j];
      assert SkipsKey(digests, rule, c, l, actions, i, s);
    }
    forall key | key in p.seen
      ensures exists j :: 0 <= j < |actions| && IdempotencyKey(digests, rule, c, actions[j]) == key
    {
      var j :| 0 <= j < |front| && IdempotencyKey(digests, rule, c, front[j]) == key;
      assert actions[j] == front[j];
    }
  }

  lemma SkipsStep(
      digests: Digests, rule: Rule, c: C.Case, actor: Option<string>, now: int, l: Ledger, front: seq<Action>,
      action: Action, p: Progress)
    requires ActionCatalog.Lookup(action.actionKey).Some?
    requires Conserves(digests, rule, c, l, front, p) && SkipsOrSeen(digests, rule, c, l, front + [action], p)
    requires forall key :: key in p.seen ==>
               exists j :: 0 <= j < |front| && IdempotencyKey(digests, rule, c, front[j]) == key
    ensures SkipsOrSeen(digests, rule, c, l, front + [action], PlanOne(digests, rule, c, actor, now, p, action))
  {
    var actions, key := front + [action], IdempotencyKey(digests, rule, c, action);
    assert actions[|front|] == action;
    if key in p.seen {
      var j :| 0 <= j < |front| && IdempotencyKey(digests, rule, c, front[j]) == key;
      assert actions[j] == front[j];
    }
    OneSkips(digests, rule, c, actor, now, l, p, action);
    var q := PlanOne(digests, rule, c, actor, now, p, action);
    NewSkipSays(digests, rule, c, l, front, action, p, q);
  }

  /** What one action adds to the skipped entries and the keys seen. */
  ghost predicate AddsSkip(
      digests: Digests, rule: Rule, c: C.Case, l: Ledger, p: Progress, q: Progress, action: Action)
  {
    var key := IdempotencyKey(digests, rule, c, action);
    && q.seen == p.seen + {key}
    && (q.skipped == p.skipped
        || (key in p.seen && q.skipped == p.skipped + [Skipped(action.actionKey, key, None)])
        || (Key(c.businessId, key) in l.actions
            && q.skipped == p.skipped
                 + [Skipped(action.actionKey, key, Some(l.actions[Key(c.businessId, key)].ledgerId))]))
  }

  lemma OneSkips(
      digests: Digests, rule: Rule, c: C.Case, actor: Option<string>, now: int, l: Ledger, p: Progress, action: Action)
    requires ActionCatalog.Lookup(action.actionKey).Some? && p.ledger.Some?
    requires forall k :: k in p.ledger.value.actions && k !in l.actions ==> k.idempotencyKey in p.seen
    requires forall k :: k in l.actions ==> k in p.ledger.value.actions && p.ledger.value.actions[k] == l.actions[k]
    ensures AddsSkip(digests, rule, c, l, p, PlanOne(digests, rule, c, actor, now, p, action), action)
  {
    var key := IdempotencyKey(digests, rule, c, action);
    if key in p.seen { assert p.seen + {key} == p.seen; }
  }

  lemma NewSkipSays(
      digests: Digests, rule: Rule, c: C.Case, l: Ledger, front: seq<Action>, action: Action, p: Progress, q: Progress)
    requires SkipsOrSeen(digests, rule, c, l, front + [action], p) && AddsSkip(digests, rule, c, l, p, q, action)
    requires IdempotencyKey(digests, rule, c, action) in p.seen ==>
               exists j :: 0 <= j < |front| && IdempotencyKey(digests, rule, c, (front + [action])[j])
                                               == IdempotencyKey(digests, rule, c, action)
    ensures SkipsOrSeen(digests, rule, c, l, front + [action], q)
  {
    var actions := front + [action];
    assert actions[|front|] == action;
    forall s | s in q.skipped ensures exists i: nat :: SkipsKey(digests, rule, c, l, actions, i, s) {
      if s !in p.skipped { assert SkipsKey(digests, rule, c, l, actions, |front|, s); }
    }
    forall key | key in q.seen
      ensures exists j :: 0 <= j < |actions| && IdempotencyKey(digests, rule, c, actions[j]) == key
    {
      if key !in p.seen { assert key == IdempotencyKey(digests, rule, c, actions[|front|]); }
    }
  }

  lemma {:induction false} PlanAllSkips(
      digests: Digests, rule: Rule, c: C.Case, actor: Option<string>, now: int, l: Ledger, actions: seq<Action>)
    requires KnownActions(actions)
    ensures SkipsOrSeen(digests, rule, c, l, actions, PlanAll(digests, rule, c, actor, now, Some(l), actions))
  {
    if actions != [] {
      var front, action := actions[..|actions| - 1], actions[|actions| - 1];
      assert actions == front + [action];
      var p := PlanAll(digests, rule, c, actor, now, Some(l), front);
      PlanAllSkips(digests, rule, c, actor, now, l, front);
      PlanAllConserves(digests, rule, c, actor, now, l, front);
      SkipsStay(digests, rule, c, l, front, action, p);
      SkipsStep(digests, rule, c, actor, now, l, front, action, p);
      PlanAllLast(digests, rule, c, actor, now, Some(l), front, action);
    }
  }

  /** The skipped entry stands for an action whose subject the ledger already had a record of, with that record's id,
      or whose subject an earlier action of the rule has. */
  ghost predicate SkipsKnown(rule: Rule, c: C.Case, l: Ledger, s: Skipped, i: nat) {
    && i < |rule.actions| && s.actionKey == rule.actions[i].actionKey
    && match s.ledgerId
       case Some(id) =>
         exists k ::
           && k in l.actions && IsAbout(k, l.actions[k], SubjectOf(rule, c, rule.actions[i]))
           && l.actions[k].ledgerId == id
       case None =>
         exists j ::
           0 <= j < i && SubjectOf(rule, c, rule.actions[j]) == SubjectOf(rule, c, rule.actions[i])
  }

  lemma SkippedIsKnown(
      digests: Digests, subjects: set<Subject>, rule: Rule, c: C.Case, l: Ledger, i: nat, s: Skipped)
    requires AllPlanned(digests, subjects, l) && FingerprintsApart(digests, subjects)
    requires forall action :: action in rule.actions ==> SubjectOf(rule, c, action) in subjects
    requires SkipsKey(digests, rule, c, l, rule.actions, i, s)
    ensures SkipsKnown(rule, c, l, s, i)
  {
    var action := rule.actions[i];
    assert action in rule.actions;
    if s.ledgerId.Some? {
      var k := Key(c.businessId, s.idempotencyKey);
      assert PlannedFor(digests, subjects, k, l.actions[k]);
      var rule2: Rule, c2: C.Case, action2: Action :|
        && k == Key(c2.businessId, IdempotencyKey(digests, rule2, c2, action2))
        && SubjectOf(rule2, c2, action2) in subjects && IsAbout(k, l.actions[k], SubjectOf(rule2, c2, action2));
      SameKeySameSubject(digests, subjects, rule, c, action, rule2, c2, action2);
    } else {
      var j :| 0 <= j < i && IdempotencyKey(digests, rule, c, rule.actions[j]) == s.idempotencyKey;
      assert rule.actions[j] in rule.actions;
      SameKeySameSubject(digests, subjects, rule, c, rule.actions[j], rule, c, action);
    }
  }

  /** After any history, with fingerprints that do not collide on what was simulated, a simulation skips an action only
      for a record of the same business, rule, case, action key and parameters, or for an earlier action of the rule
      with the same action key and parameters. */
  lemma SimulationSkipsOnlyTheKnown(
      digests: Digests, steps: seq<ServiceStep>, rule: Rule, c: C.Case, now: int, actor: Option<string>, s: Skipped)
      returns (i: nat)
    requires FingerprintsApart(digests, Subjects(steps + [Simulating(rule, c, now, actor)]))
    requires var r := Simulate(digests, rule, c, now, Some(ServiceLedger(digests, steps)), actor).0;
             r.Ok? && r.value.matched && s in r.value.skipped
    ensures SkipsKnown(rule, c, ServiceLedger(digests, steps), s, i)
  {
    var step, l := Simulating(rule, c, now, actor), ServiceLedger(digests, steps);
    var subjects := Subjects(steps + [step]);
    assert (steps + [step])[..|steps|] == steps;
    ServiceKeepsPlanned(digests, steps);
    MoreSubjects(digests, Subjects(steps), subjects, l);
    i := SkippedAction(digests, rule, c, now, l, actor, s);
    forall action | action in rule.actions ensures SubjectOf(rule, c, action) in subjects {
      assert SubjectOf(rule, c, action) in StepSubjects(step);
    }
    SkippedIsKnown(digests, subjects, rule, c, l, i, s);
  }

  lemma SkippedAction(
      digests: Digests, rule: Rule, c: C.Case, now: int, l: Ledger, actor: Option<string>, s: Skipped) returns (i: nat)
    requires var r := Simulate(digests, rule, c, now, Some(l), actor).0;
             r.Ok? && r.value.matched && s in r.value.skipped
    ensures SkipsKey(digests, rule, c, l, rule.actions, i, s)
  {
    NoProblemMeansRegistered(c, rule.actions);
    assert forall n :: 0 <= n < |rule.actions| ==> ActionProblem(c, rule.actions[n]) == None;
    PlanAllSkips(digests, rule, c, actor, now, l, rule.actions);
    i :| SkipsKey(digests, rule, c, l, rule.actions, i, s);
  }

  // ---- other cases

  /** A step that simulates this rule on this case of this business. */
  predicate SimulatesOn(step: ServiceStep, businessId: string, ruleId: string, caseId: string) {
    step.Simulating? && step.c.businessId == businessId && step.rule.ruleId == ruleId && step.c.caseId == caseId
  }

  lemma {:induction false} SubjectsWereSimulated(steps: seq<ServiceStep>, s: Subject)
    requires s in Subjects(steps)
    ensures exists i :: 0 <= i < |steps| && SimulatesOn(steps[i], s.businessId, s.ruleId, s.caseId)
  {
    var front, step := steps[..|steps| - 1], steps[|steps| - 1];
    if s in Subjects(front) {
      SubjectsWereSimulated(front, s);
      var i :| 0 <= i < |front| && SimulatesOn(front[i], s.businessId, s.ruleId, s.caseId);
      assert steps[i] == front[i];
    } else {
      assert SimulatesOn(steps[|steps| - 1], s.businessId, s.ruleId, s.caseId);
    }
  }

  /** However often other rules and other cases were simulated, and whatever was decided, the first simulation of
      a rule on a case plans each of its distinct actions: nothing that was done for another case makes an action
      of this one skipped. */
  lemma FirstSimulationPlansAll(
      digests: Digests, steps: seq<ServiceStep>, rule: Rule, c: C.Case, now: int, actor: Option<string>)
    requires FingerprintsApart(digests, Subjects(steps + [Simulating(rule, c, now, actor)]))
    requires forall i :: 0 <= i < |steps| ==> !SimulatesOn(steps[i], c.businessId, rule.ruleId, c.caseId)
    requires var r := Simulate(digests, rule, c, now, Some(ServiceLedger(digests, steps)), actor).0;
             r.Ok? && r.value.matched
    ensures var l := ServiceLedger(digests, steps);
            var (r, after) := Simulate(digests, rule, c, now, Some(l), actor);
            && after.Some? && PlansExactlyTheNew(rule, c, l, after.value, r.value.planned, actor, now)
            && forall action :: action in rule.actions ==> !Recorded(l, SubjectOf(rule, c, action))
  {
    var l := ServiceLedger(digests, steps);
    SimulationPlansExactlyTheNew(digests, steps, rule, c, now, actor);
    ServiceKeepsPlanned(digests, steps);
    forall action | action in rule.actions ensures !Recorded(l, SubjectOf(rule, c, action)) {
      if Recorded(l, SubjectOf(rule, c, action)) {
        var k :| k in l.actions && IsAbout(k, l.actions[k], SubjectOf(rule, c, action));
        assert PlannedFor(digests, Subjects(steps), k, l.actions[k]);
        var rule2: Rule, c2: C.Case, action2: Action :|
          && k == Key(c2.businessId, IdempotencyKey(digests, rule2, c2, action2))
          && SubjectOf(rule2, c2, action2) in Subjects(steps)
          && IsAbout(k, l.actions[k], SubjectOf(rule2, c2, action2));
        OneSubject(k, l.actions[k], SubjectOf(rule, c, action), SubjectOf(rule2, c2, action2));
        SubjectsWereSimulated(steps, SubjectOf(rule2, c2, action2));
      }
    }
  }

  // ---- the text of a key

  lemma Nested(a: string, b: string, c: string, d: string, e: string, f: string)
    ensures a + "/" + b + "/" + c + "/" + d + "/" + e + "/" + f
            == a + "/" + (b + "/" + (c + "/" + (d + "/" + (e + "/" + f))))
  {
    NestedOnce(a + "/" + b + "/" + c + "/" + d, e, f);
    NestedOnce(a + "/" + b + "/" + c, d, e + "/" + f);
    NestedOnce(a + "/" + b, c, d + "/" + (e + "/" + f));
    NestedOnce(a, b, c + "/" + (d + "/" + (e + "/" + f)));
  }

  lemma NestedOnce(a: string, b: string, c: string)
    ensures a + "/" + b + "/" + c == a + "/" + (b + "/" + c)
  {
  }

  lemma SixParts(a: string, b: string, c: string, d: string, e: string, f: string)
    requires '/' !in a && '/' !in b && '/' !in c && '/' !in d && '/' !in e && '/' !in f
    ensures Text.SplitOn(a + "/" + (b + "/" + (c + "/" + (d + "/" + (e + "/" + f)))), '/') == [a, b, c, d, e, f]
  {
    var fromE := e + "/" + f;
    var fromD := d + "/" + fromE;
    var fromC := c + "/" + fromD;
    Text.SplitAtSep(a, b + "/" + fromC, '/');
    Text.SplitAtSep(b, fromC, '/');
    Text.SplitAtSep(c, fromD, '/');
    Text.SplitAtSep(d, fromE, '/');
    Text.SplitAtSep(e, f, '/');
    Text.SplitLast(f, '/');
  }

  /** A key spells out what it stands for, in this order. */
  lemma KeySpellsItsSubject(digests: Digests, rule: Rule, c: C.Case, action: Action)
    requires '/' !in c.businessId && '/' !in rule.ruleId && '/' !in c.caseId && '/' !in action.actionKey
    requires '/' !in FingerprintOf(digests, SubjectOf(rule, c, action))
    ensures Text.SplitOn(IdempotencyKey(digests, rule, c, action), '/')
            == ["workflow", c.businessId, rule.ruleId, c.caseId, action.actionKey,
                FingerprintOf(digests, SubjectOf(rule, c, action))]
  {
    var f := FingerprintOf(digests, SubjectOf(rule, c, action));
    Nested("workflow", c.businessId, rule.ruleId, c.caseId, action.actionKey, f);
    SixParts("workflow", c.businessId, rule.ruleId, c.caseId, action.actionKey, f);
    assert "workflow" + "/" == "workflow/";
  }
}
