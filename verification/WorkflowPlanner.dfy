/** Workflow simulation: a rule is validated against a case, its conditions are evaluated, and its
    actions are recorded in the ledger, each idempotency key once. */
module WorkflowPlanner {
  import opened Basics
  import opened WorkflowLedger
  import Text
  import Decimals
  import C = Cases
  import ActionCatalog
  import WorkflowQueues

  /** Values a condition can expect; `OtherValue` is one that equals no case field and is no integer. */
  datatype Expected = ExpectedText(s: string) | ExpectedInt(n: int) | ExpectedBool(b: bool) | OtherValue

  datatype Condition = Condition(field: string, expected: Expected)

  datatype Action = Action(actionKey: string, params: Params)

  datatype Rule = Rule(
    ruleId: string, businessId: string, trigger: string, conditions: seq<Condition>, actions: seq<Action>)

  datatype PlanError =
    | ScopeMismatch | InvalidRule | UnsupportedTrigger | UnknownAction | NotForCaseType
    | MissingParams(names: seq<string>)
    | UnsupportedCondition | InvalidCondition

  datatype Planned = Planned(
    actionKey: string,
    idempotencyKey: string,
    executionState: ExecutionState,
    ledgerId: Option<string>,
    approvalState: Option<ApprovalState>,
    requestId: Option<string>)

  datatype Skipped = Skipped(actionKey: string, idempotencyKey: string, ledgerId: Option<string>)

  datatype Simulation = Simulation(matched: bool, conditions: seq<bool>, planned: seq<Planned>, skipped: seq<Skipped>)

  /** The two digests: of business, rule, case, action key and parameters, and of an idempotency key. */
  datatype Digests = Digests(fingerprint: (string, string, string, string, Params) -> string, ofKey: Digest)

  // ---- validation

  predicate HasText(params: Params, name: string) {
    name in params && params[name].TextParam? && Text.Strip(params[name].s) != ""
  }

  function Missing(definition: ActionCatalog.Definition, params: Params): seq<string> {
    (if definition.requiresReason && !HasText(params, "reason") then ["reason"] else [])
    + (if definition.requiresComment && !HasText(params, "comment") then ["comment"] else [])
    + Filter(definition.inputFields, name => !HasText(params, name))
  }

  function ActionProblem(c: C.Case, action: Action): Option<PlanError> {
    match ActionCatalog.Lookup(action.actionKey)
    case None => Some(UnknownAction)
    case Some(definition) =>
      if definition.families != {} && c.caseType !in definition.families then Some(NotForCaseType)
      else if Missing(definition, action.params) != [] then Some(MissingParams(Missing(definition, action.params)))
      else None
  }

  function FirstActionProblem(c: C.Case, actions: seq<Action>): Option<PlanError> {
    if actions == [] then None
    else if ActionProblem(c, actions[0]).Some? then ActionProblem(c, actions[0])
    else FirstActionProblem(c, actions[1..])
  }

  function RuleProblem(rule: Rule, c: C.Case): Option<PlanError> {
    if rule.businessId != c.businessId then Some(ScopeMismatch)
    else if Text.Strip(rule.ruleId) == "" then Some(InvalidRule)
    else if rule.trigger !in {"case_opened", "case_updated", "manual"} then Some(UnsupportedTrigger)
    else FirstActionProblem(c, rule.actions)
  }

  /** Every action of the rule is registered, for this case type and with its parameters. */
  predicate AllRegistered(c: C.Case, actions: seq<Action>) {
    forall i :: 0 <= i < |actions| ==> ActionProblem(c, actions[i]) == None
  }

  lemma {:induction false} NoProblemMeansRegistered(c: C.Case, actions: seq<Action>)
    ensures FirstActionProblem(c, actions) == None <==> AllRegistered(c, actions)
  {
    if actions != [] {
      NoProblemMeansRegistered(c, actions[1..]);
      if AllRegistered(c, actions) {
        assert ActionProblem(c, actions[0]) == None;
        forall i | 0 <= i < |actions[1..]|
          ensures ActionProblem(c, actions[1..][i]) == None
        {
          assert actions[1..][i] == actions[i + 1];
        }
      } else if ActionProblem(c, actions[0]) == None {
        var i :| 0 <= i < |actions| && ActionProblem(c, actions[i]) != None;
        assert actions[1..][i - 1] == actions[i];
      }
    }
  }

  // ---- conditions

  /** Comparing a flag with an expected value: the integers 0 and 1 equal the flags. */
  predicate FlagEquals(flag: bool, expected: Expected) {
    match expected
    case ExpectedBool(b) => flag == b
    case ExpectedInt(n) => n == (if flag then 1 else 0)
    case _ => false
  }

  function AsInt(expected: Expected): Option<int> {
    match expected
    case ExpectedInt(n) => Some(n)
    case ExpectedBool(b) => Some(if b then 1 else 0)
    case ExpectedText(s) => Decimals.ParseInt(s)
    case OtherValue => None
  }

  function ConditionHolds(c: C.Case, condition: Condition): Result<bool, PlanError> {
    if condition.field == "status" then Ok(condition.expected == ExpectedText(C.StatusText(c.status)))
    else if condition.field == "case_type" then Ok(condition.expected == ExpectedText(C.CaseTypeText(c.caseType)))
    else if condition.field == "severity" then Ok(condition.expected == ExpectedText(C.SeverityText(c.severity)))
    else if condition.field == "min_priority_score" then
      (match AsInt(condition.expected)
       case None => Err(InvalidCondition)
       case Some(n) => Ok(c.priority >= n))
    else if condition.field == "degraded" then Ok(FlagEquals(C.IsDegraded(c), condition.expected))
    else Err(UnsupportedCondition)
  }

  function EvaluateConditions(c: C.Case, conditions: seq<Condition>): Result<seq<bool>, PlanError> {
    if conditions == [] then Ok([])
    else
      match ConditionHolds(c, conditions[0])
      case Err(e) => Err(e)
      case Ok(holds) =>
        match EvaluateConditions(c, conditions[1..])
        case Err(e) => Err(e)
        case Ok(rest) => Ok([holds] + rest)
  }

  // ---- planning

  function IdempotencyKey(digests: Digests, rule: Rule, c: C.Case, action: Action): string {
    "workflow/" + c.businessId + "/" + rule.ruleId + "/" + c.caseId + "/" + action.actionKey + "/"
    + digests.fingerprint(c.businessId, rule.ruleId, c.caseId, action.actionKey, action.params)
  }

  /** What the planner asks the ledger to record for an action. */
  function PlanFor(digests: Digests, rule: Rule, c: C.Case, action: Action, actor: Option<string>, now: int): Plan
    requires ActionCatalog.Lookup(action.actionKey).Some?
  {
    var definition := ActionCatalog.Lookup(action.actionKey).value;
    Plan(Key(c.businessId, IdempotencyKey(digests, rule, c, action)), c.caseId, action.actionKey,
         ActionCatalog.ExecutionStatus(definition), definition.requiresApproval, FromWorkflow, actor, action.params,
         Some(rule.ruleId), now)
  }

  /** What the loop over the actions has produced so far; without a ledger nothing is recorded. */
  datatype Progress = Progress(planned: seq<Planned>, skipped: seq<Skipped>, seen: set<string>, ledger: Option<Ledger>)

  function PlanOne(
      digests: Digests, rule: Rule, c: C.Case, actor: Option<string>, now: int, p: Progress, action: Action): Progress
    requires ActionCatalog.Lookup(action.actionKey).Some?
  {
    var plan := PlanFor(digests, rule, c, action, actor, now);
    var key := plan.key.idempotencyKey;
    if key in p.seen then p.(skipped := p.skipped + [Skipped(action.actionKey, key, None)])
    else if p.ledger.None? then
      p.(planned := p.planned + [Planned(action.actionKey, key, plan.executionState, None, None, None)],
        seen := p.seen + {key})
    else
      var write := PlanResult(digests.ofKey, p.ledger.value, plan);
      if !write.created then
        p.(skipped := p.skipped + [Skipped(action.actionKey, key, Some(write.record.ledgerId))], seen := p.seen + {key})
      else
        Progress(p.planned + [Planned(action.actionKey, key, plan.executionState, Some(write.record.ledgerId),
                                      Some(write.record.approvalState), write.record.requestId)],
                 p.skipped, p.seen + {key}, Some(AfterPlan(digests.ofKey, p.ledger.value, plan)))
  }

  predicate KnownActions(actions: seq<Action>) {
    forall i :: 0 <= i < |actions| ==> ActionCatalog.Lookup(actions[i].actionKey).Some?
  }

  function PlanAll(
      digests: Digests, rule: Rule, c: C.Case, actor: Option<string>, now: int, ledger: Option<Ledger>,
      actions: seq<Action>): Progress
    requires KnownActions(actions)
  {
    if actions == [] then Progress([], [], {}, ledger)
    else
      assert KnownActions(actions[..|actions| - 1]);
      PlanOne(digests, rule, c, actor, now, PlanAll(digests, rule, c, actor, now, ledger, actions[..|actions| - 1]),
        actions[|actions| - 1])
  }

  /** The outcome of a simulation and the ledger it leaves. */
  function Simulate(digests: Digests, rule: Rule, c: C.Case, now: int, ledger: Option<Ledger>, actor: Option<string>)
    : (Result<Simulation, PlanError>, Option<Ledger>)
  {
    if RuleProblem(rule, c).Some? then (Err(RuleProblem(rule, c).value), ledger)
    else
      match EvaluateConditions(c, rule.conditions)
      case Err(e) => (Err(e), ledger)
      case Ok(results) =>
        if false in results then (Ok(Simulation(false, results, [], [])), ledger)
        else
          NoProblemMeansRegistered(c, rule.actions);
          assert forall i :: 0 <= i < |rule.actions| ==> ActionProblem(c, rule.actions[i]) == None;
          var p := PlanAll(digests, rule, c, actor, now, ledger, rule.actions);
          (Ok(Simulation(true, results, p.planned, p.skipped)), p.ledger)
  }

  // ---- the planner as it runs, over the store object

  function StateOf(ledger: InMemoryWorkflowActionLedger?): Option<Ledger>
    reads ledger
  {
    if ledger == null then None else Some(ledger.State())
  }

  lemma PlanAllSnoc(
      digests: Digests, rule: Rule, c: C.Case, actor: Option<string>, now: int, ledger: Option<Ledger>, i: nat)
    requires KnownActions(rule.actions) && i < |rule.actions|
    ensures KnownActions(rule.actions[..i]) && KnownActions(rule.actions[..i + 1])
    ensures PlanAll(digests, rule, c, actor, now, ledger, rule.actions[..i + 1])
            == PlanOne(digests, rule, c, actor, now, PlanAll(digests, rule, c, actor, now, ledger, rule.actions[..i]),
              rule.actions[i])
  {
    assert rule.actions[..i + 1][..i] == rule.actions[..i];
  }

  method DedupePlannedActions(
      digests: Digests, rule: Rule, c: C.Case, now: int, ledger: InMemoryWorkflowActionLedger?, actor: Option<string>)
    returns (planned: seq<Planned>, skipped: seq<Skipped>)
    requires KnownActions(rule.actions)
    modifies ledger
    ensures var p := PlanAll(digests, rule, c, actor, now, old(StateOf(ledger)), rule.actions);
            planned == p.planned && skipped == p.skipped && p.ledger == StateOf(ledger)
  {
    planned, skipped := [], [];
    var seen: set<string> := {};
    ghost var before := StateOf(ledger);
    for i := 0 to |rule.actions|
      invariant KnownActions(rule.actions[..i])
      invariant PlanAll(digests, rule, c, actor, now, before, rule.actions[..i])
                == Progress(planned, skipped, seen, StateOf(ledger))
    {
      PlanAllSnoc(digests, rule, c, actor, now, before, i);
      var action := rule.actions[i];
      var plan := PlanFor(digests, rule, c, action, actor, now);
      var key := plan.key.idempotencyKey;
      if key in seen {
        skipped := skipped + [Skipped(action.actionKey, key, None)];
        continue;
      }
      seen := seen + {key};
      if ledger == null {
        planned := planned + [Planned(action.actionKey, key, plan.executionState, None, None, None)];
        continue;
      }
      var write := ledger.RecordPlannedAction(digests.ofKey, plan);
      if !write.created {
        skipped := skipped + [Skipped(action.actionKey, key, Some(write.record.ledgerId))];
        continue;
      }
      planned := planned + [Planned(action.actionKey, key, plan.executionState, Some(write.record.ledgerId),
                                    Some(write.record.approvalState), write.record.requestId)];
    }
    assert rule.actions[..|rule.actions|] == rule.actions;
  }

  /** The service entry point; without a ledger it is a dry run that records nothing. */
  method SimulateCaseWorkflow(
      digests: Digests, rule: Rule, c: C.Case, now: int, ledger: InMemoryWorkflowActionLedger?, actor: Option<string>)
    returns (r: Result<Simulation, PlanError>)
    modifies ledger
    ensures Simulate(digests, rule, c, now, old(StateOf(ledger)), actor) == (r, StateOf(ledger))
    ensures r.Err? ==> StateOf(ledger) == old(StateOf(ledger))
  {
    var problem := RuleProblem(rule, c);
    if problem.Some? { return Err(problem.value); }
    var results := EvaluateConditions(c, rule.conditions);
    if results.Err? { return Err(results.error); }
    if false in results.value { return Ok(Simulation(false, results.value, [], [])); }
    NoProblemMeansRegistered(c, rule.actions);
    assert forall i :: 0 <= i < |rule.actions| ==> ActionProblem(c, rule.actions[i]) == None;
    var planned, skipped := DedupePlannedActions(digests, rule, c, now, ledger, actor);
    return Ok(Simulation(true, results.value, planned, skipped));
  }

  // ---- planning conserves actions

  function KeyOf(businessId: string): Planned -> Key { (p: Planned) => Key(businessId, p.idempotencyKey) }

  /** The planned keys are new and distinct; the ledger gains exactly them, in order, and keeps the rest;
      every action seen so far has its record. */
  ghost predicate Conserves(digests: Digests, rule: Rule, c: C.Case, l: Ledger, actions: seq<Action>, p: Progress) {
    && |p.planned| + |p.skipped| == |actions|
    && p.ledger.Some?
    && var keys := Map(p.planned, KeyOf(c.businessId));
    && p.ledger.value.order == l.order + keys
    && NoDuplicates(keys)
    && (forall k :: k in keys ==> k !in l.actions && k.idempotencyKey in p.seen)
    && (forall k :: k in p.ledger.value.actions <==> k in l.actions || k in keys)
    && (forall k :: k in l.actions ==> p.ledger.value.actions[k] == l.actions[k])
    && (forall i :: 0 <= i < |actions| ==> IdempotencyKey(digests, rule, c, actions[i]) in p.seen)
    && (forall key :: key in p.seen ==> Key(c.businessId, key) in p.ledger.value.actions)
  }

  lemma SkipConserves(
      digests: Digests, rule: Rule, c: C.Case, l: Ledger, actions: seq<Action>, p: Progress, action: Action,
      ledgerId: Option<string>)
    requires Conserves(digests, rule, c, l, actions, p)
    requires Key(c.businessId, IdempotencyKey(digests, rule, c, action)) in p.ledger.value.actions
    ensures var key := IdempotencyKey(digests, rule, c, action);
            Conserves(digests, rule, c, l, actions + [action],
                      p.(skipped := p.skipped + [Skipped(action.actionKey, key, ledgerId)], seen := p.seen + {key}))
  {
  }

  lemma MapSnoc(planned: seq<Planned>, x: Planned, businessId: string)
    ensures Map(planned + [x], KeyOf(businessId))
            == Map(planned, KeyOf(businessId)) + [Key(businessId, x.idempotencyKey)]
  {
  }

  lemma AddConserves(
      digests: Digests, rule: Rule, c: C.Case, l: Ledger, actions: seq<Action>, p: Progress, action: Action, x: Planned,
      after: Ledger)
    requires Conserves(digests, rule, c, l, actions, p) && x.idempotencyKey == IdempotencyKey(digests, rule, c, action)
    requires var k := Key(c.businessId, x.idempotencyKey);
             && k !in p.ledger.value.actions && after.order == p.ledger.value.order + [k]
             && (forall m :: m in after.actions <==> m in p.ledger.value.actions || m == k)
             && (forall m :: m in p.ledger.value.actions ==> after.actions[m] == p.ledger.value.actions[m])
    ensures Conserves(digests, rule, c, l, actions + [action],
                      Progress(p.planned + [x], p.skipped, p.seen + {x.idempotencyKey}, Some(after)))
  {
    var k := Key(c.businessId, x.idempotencyKey);
    var keys := Map(p.planned, KeyOf(c.businessId));
    MapSnoc(p.planned, x, c.businessId);
    AppendDistinct(keys, k);
    assert l.order + keys + [k] == l.order + (keys + [k]);
    forall m | m in keys + [k] ensures m !in l.actions && m.idempotencyKey in p.seen + {x.idempotencyKey} { }
  }

  lemma PlanOneConserves(
      digests: Digests, rule: Rule, c: C.Case, actor: Option<string>, now: int, l: Ledger, actions: seq<Action>,
      p: Progress, action: Action)
    requires ActionCatalog.Lookup(action.actionKey).Some? && Conserves(digests, rule, c, l, actions, p)
    ensures Conserves(digests, rule, c, l, actions + [action], PlanOne(digests, rule, c, actor, now, p, action))
  {
    var plan := PlanFor(digests, rule, c, action, actor, now);
    var key := plan.key.idempotencyKey;
    var write := PlanResult(digests.ofKey, p.ledger.value, plan);
    if key in p.seen {
      SkipConserves(digests, rule, c, l, actions, p, action, None);
      assert p.seen + {key} == p.seen;
    } else if !write.created {
      SkipConserves(digests, rule, c, l, actions, p, action, Some(write.record.ledgerId));
    } else {
      var x := Planned(action.actionKey, key, plan.executionState, Some(write.record.ledgerId),
        Some(write.record.approvalState), write.record.requestId);
      AddConserves(digests, rule, c, l, actions, p, action, x, AfterPlan(digests.ofKey, p.ledger.value, plan));
    }
  }

  lemma PlanAllLast(
      digests: Digests, rule: Rule, c: C.Case, actor: Option<string>, now: int, ledger: Option<Ledger>,
      front: seq<Action>, action: Action)
    requires KnownActions(front) && KnownActions(front + [action]) && ActionCatalog.Lookup(action.actionKey).Some?
    ensures PlanAll(digests, rule, c, actor, now, ledger, front + [action])
            == PlanOne(digests, rule, c, actor, now, PlanAll(digests, rule, c, actor, now, ledger, front), action)
  {
    assert (front + [action])[..|front|] == front;
  }

  lemma {:induction false} PlanAllConserves(
      digests: Digests, rule: Rule, c: C.Case, actor: Option<string>, now: int, l: Ledger, actions: seq<Action>)
    requires KnownActions(actions)
    ensures Conserves(digests, rule, c, l, actions, PlanAll(digests, rule, c, actor, now, Some(l), actions))
  {
    if actions == [] {
      NothingConserves(digests, rule, c, l);
    } else {
      var front, action := actions[..|actions| - 1], actions[|actions| - 1];
      assert actions == front + [action];
      PlanAllConserves(digests, rule, c, actor, now, l, front);
      PlanLastConserves(digests, rule, c, actor, now, l, front, action);
    }
  }

  lemma PlanLastConserves(
      digests: Digests, rule: Rule, c: C.Case, actor: Option<string>, now: int, l: Ledger, front: seq<Action>,
      action: Action)
    requires KnownActions(front) && KnownActions(front + [action]) && ActionCatalog.Lookup(action.actionKey).Some?
    requires Conserves(digests, rule, c, l, front, PlanAll(digests, rule, c, actor, now, Some(l), front))
    ensures Conserves(digests, rule, c, l, front + [action],
                      PlanAll(digests, rule, c, actor, now, Some(l), front + [action]))
  {
    var p := PlanAll(digests, rule, c, actor, now, Some(l), front);
    PlanOneConserves(digests, rule, c, actor, now, l, front, p, action);
    PlanAllLast(digests, rule, c, actor, now, Some(l), front, action);
  }

  lemma NothingConserves(digests: Digests, rule: Rule, c: C.Case, l: Ledger)
    ensures Conserves(digests, rule, c, l, [], Progress([], [], {}, Some(l)))
  {
    assert Map([], KeyOf(c.businessId)) == [] && l.order + [] == l.order;
  }

  /** From ledger `l` to ledger `after`: the keys grow by exactly those planned, which are distinct and
      new, and no earlier record changes. */
  ghost predicate GrowsBy(l: Ledger, after: Ledger, keys: seq<Key>) {
    && after.order == l.order + keys && NoDuplicates(keys)
    && (forall k :: k in keys ==> k !in l.actions)
    && (forall k :: k in after.actions <==> k in l.actions || k in keys)
    && (forall k :: k in l.actions ==> after.actions[k] == l.actions[k])
  }

  /** Planned and skipped actions are together as many as the rule's, and the ledger grows by exactly the
      planned ones. A rejected or unmatched rule leaves the ledger alone. */
  lemma SimulationConserves(digests: Digests, rule: Rule, c: C.Case, now: int, l: Ledger, actor: Option<string>)
    ensures var (r, after) := Simulate(digests, rule, c, now, Some(l), actor);
            && after.Some?
            && (r.Err? ==> after.value == l)
            && (r.Ok? ==> |r.value.planned| + |r.value.skipped| == if r.value.matched then |rule.actions| else 0)
            && (r.Ok? ==> GrowsBy(l, after.value, Map(r.value.planned, KeyOf(c.businessId))))
            && (r.Ok? && !r.value.matched ==> after.value == l)
  {
    var r := Simulate(digests, rule, c, now, Some(l), actor).0;
    if r.Ok? && r.value.matched {
      MatchedConserves(digests, rule, c, now, l, actor);
    } else {
      GrowsByNone(l, c.businessId);
    }
  }

  lemma MatchedConserves(digests: Digests, rule: Rule, c: C.Case, now: int, l: Ledger, actor: Option<string>)
    requires var r := Simulate(digests, rule, c, now, Some(l), actor).0; r.Ok? && r.value.matched
    ensures var (r, after) := Simulate(digests, rule, c, now, Some(l), actor);
            && after.Some? && |r.value.planned| + |r.value.skipped| == |rule.actions|
            && GrowsBy(l, after.value, Map(r.value.planned, KeyOf(c.businessId)))
  {
    NoProblemMeansRegistered(c, rule.actions);
    assert forall i :: 0 <= i < |rule.actions| ==> ActionProblem(c, rule.actions[i]) == None;
    PlanAllConserves(digests, rule, c, actor, now, l, rule.actions);
    ConservingGrows(digests, rule, c, l, rule.actions, PlanAll(digests, rule, c, actor, now, Some(l), rule.actions));
  }

  lemma ConservingGrows(digests: Digests, rule: Rule, c: C.Case, l: Ledger, actions: seq<Action>, p: Progress)
    requires Conserves(digests, rule, c, l, actions, p)
    ensures GrowsBy(l, p.ledger.value, Map(p.planned, KeyOf(c.businessId)))
  {
  }

  lemma GrowsByNone(l: Ledger, businessId: string)
    ensures GrowsBy(l, l, Map([], KeyOf(businessId)))
  {
  }

  // ---- dry runs

  /** The keys a dry run plans that a ledger does not hold yet. */
  function NewTo(l: Ledger): Key -> bool { (k: Key) => k !in l.actions }

  /** A dry run beside a run on ledger `l`: same keys seen, distinct ones planned, and the run plans those of
      them that are new to `l`. */
  ghost predicate RunsBeside(c: C.Case, l: Ledger, actions: seq<Action>, dry: Progress, wet: Progress) {
    var keys := Map(dry.planned, KeyOf(c.businessId));
    && dry.ledger.None? && wet.ledger.Some? && dry.seen == wet.seen
    && |dry.planned| + |dry.skipped| == |actions| && NoDuplicates(keys)
    && (forall k :: k in keys ==> k.idempotencyKey in dry.seen)
    && Map(wet.planned, KeyOf(c.businessId)) == Filter(keys, NewTo(l))
  }

  lemma DryStep(
      digests: Digests, rule: Rule, c: C.Case, actor: Option<string>, now: int, l: Ledger, actions: seq<Action>,
        dry: Progress, wet: Progress,
      action: Action)
    requires ActionCatalog.Lookup(action.actionKey).Some? && RunsBeside(c, l, actions, dry, wet)
    requires Conserves(digests, rule, c, l, actions, wet)
    ensures RunsBeside(c, l, actions + [action], PlanOne(digests, rule, c, actor, now, dry, action),
                       PlanOne(digests, rule, c, actor, now, wet, action))
  {
    var key := Key(c.businessId, IdempotencyKey(digests, rule, c, action));
    var keys := Map(dry.planned, KeyOf(c.businessId));
    if key.idempotencyKey !in dry.seen {
      var x := PlanOne(digests, rule, c, actor, now, dry, action).planned[|dry.planned|];
      MapSnoc(dry.planned, x, c.businessId);
      AppendDistinct(keys, key);
      FilterSnoc(keys, key, NewTo(l));
      assert key in wet.ledger.value.actions <==> key in l.actions;
      if key !in l.actions {
        MapSnoc(wet.planned, PlanOne(digests, rule, c, actor, now, wet, action).planned[|wet.planned|], c.businessId);
      }
    }
  }

  lemma {:induction false} DryRunBeside(
      digests: Digests, rule: Rule, c: C.Case, actor: Option<string>, now: int, l: Ledger, actions: seq<Action>)
    requires KnownActions(actions)
    ensures RunsBeside(c, l, actions, PlanAll(digests, rule, c, actor, now, None, actions),
                       PlanAll(digests, rule, c, actor, now, Some(l), actions))
  {
    if actions == [] {
      NothingBeside(c, l);
    } else {
      var front, action := actions[..|actions| - 1], actions[|actions| - 1];
      assert actions == front + [action];
      DryRunBeside(digests, rule, c, actor, now, l, front);
      PlanAllConserves(digests, rule, c, actor, now, l, front);
      DryLast(digests, rule, c, actor, now, l, front, action);
    }
  }

  lemma DryLast(
      digests: Digests, rule: Rule, c: C.Case, actor: Option<string>, now: int, l: Ledger, front: seq<Action>,
      action: Action)
    requires KnownActions(front) && KnownActions(front + [action]) && ActionCatalog.Lookup(action.actionKey).Some?
    requires Conserves(digests, rule, c, l, front, PlanAll(digests, rule, c, actor, now, Some(l), front))
    requires RunsBeside(c, l, front, PlanAll(digests, rule, c, actor, now, None, front),
                        PlanAll(digests, rule, c, actor, now, Some(l), front))
    ensures RunsBeside(c, l, front + [action], PlanAll(digests, rule, c, actor, now, None, front + [action]),
                       PlanAll(digests, rule, c, actor, now, Some(l), front + [action]))
  {
    var dry := PlanAll(digests, rule, c, actor, now, None, front);
    var wet := PlanAll(digests, rule, c, actor, now, Some(l), front);
    DryStep(digests, rule, c, actor, now, l, front, dry, wet, action);
    PlanAllLast(digests, rule, c, actor, now, None, front, action);
    PlanAllLast(digests, rule, c, actor, now, Some(l), front, action);
  }

  lemma NothingBeside(c: C.Case, l: Ledger)
    ensures RunsBeside(c, l, [], Progress([], [], {}, None), Progress([], [], {}, Some(l)))
  {
    assert Map([], KeyOf(c.businessId)) == [];
  }

  /** A dry run accepts the same rules with the same verdict, plans each key once, accounts for every action,
      and foretells the run: on any ledger the run plans exactly the dry run's keys the ledger lacks. */
  lemma DryRunForetells(digests: Digests, rule: Rule, c: C.Case, now: int, l: Ledger, actor: Option<string>)
    ensures var (dry, none) := Simulate(digests, rule, c, now, None, actor);
            var (wet, _) := Simulate(digests, rule, c, now, Some(l), actor);
            && none == None && (dry.Ok? <==> wet.Ok?)
            && (dry.Ok? ==>
                  && dry.value.matched == wet.value.matched
                  && |dry.value.planned| + |dry.value.skipped| == (if dry.value.matched then |rule.actions| else 0)
                  && NoDuplicates(Map(dry.value.planned, KeyOf(c.businessId)))
                  && Map(wet.value.planned, KeyOf(c.businessId))
                     == Filter(Map(dry.value.planned, KeyOf(c.businessId)), NewTo(l)))
  {
    NoProblemMeansRegistered(c, rule.actions);
    assert Map([], KeyOf(c.businessId)) == [];
    if RuleProblem(rule, c) == None {
      assert forall i :: 0 <= i < |rule.actions| ==> ActionProblem(c, rule.actions[i]) == None;
      DryRunBeside(digests, rule, c, actor, now, l, rule.actions);
    }
  }

  // ---- what is reported as planned is what the ledger holds

  /** The report of one action: the ledger holds its record as planned now, and an action the catalog
      gates is blocked behind a request the ledger also holds. */
  ghost predicate ReportsRecord(
      digests: Digests, rule: Rule, c: C.Case, actor: Option<string>, now: int, action: Action, x: Planned, l: Ledger)
    requires ActionCatalog.Lookup(action.actionKey).Some?
  {
    var plan := PlanFor(digests, rule, c, action, actor, now);
    var gated := ActionCatalog.Lookup(action.actionKey).value.requiresApproval;
    && x.actionKey == action.actionKey && x.idempotencyKey == plan.key.idempotencyKey
    && plan.key in l.actions && l.actions[plan.key] == NewRecord(digests.ofKey, plan)
    && x.ledgerId == Some(l.actions[plan.key].ledgerId) && x.executionState == l.actions[plan.key].executionState
    && x.approvalState == Some(if gated then PendingApproval else NotRequired)
    && (gated <==> x.executionState == BlockedApprovalRequired) && (gated <==> x.requestId.Some?)
    && x.requestId == l.actions[plan.key].requestId && (gated ==> x.requestId.value in l.requests)
  }

  ghost predicate AllReported(
      digests: Digests, rule: Rule, c: C.Case, actor: Option<string>, now: int, actions: seq<Action>,
      planned: seq<Planned>, l: Ledger)
    requires KnownActions(actions)
  {
    forall x :: x in planned ==>
        exists i :: 0 <= i < |actions| && ReportsRecord(digests, rule, c, actor, now, actions[i], x, l)
  }

  /** The later ledger keeps every record and every request id of the earlier one. */
  predicate Keeps(l: Ledger, m: Ledger) {
    && (forall k :: k in l.actions ==> k in m.actions && m.actions[k] == l.actions[k])
    && (forall id :: id in l.requests ==> id in m.requests)
  }

  lemma PlanReports(
      digests: Digests, rule: Rule, c: C.Case, actor: Option<string>, now: int, p: Progress, action: Action)
    requires ActionCatalog.Lookup(action.actionKey).Some? && p.ledger.Some?
    ensures var q := PlanOne(digests, rule, c, actor, now, p, action);
            && q.ledger.Some? && Keeps(p.ledger.value, q.ledger.value)
            && (q.planned == p.planned
                || exists x ::
                     && q.planned == p.planned + [x]
                     && ReportsRecord(digests, rule, c, actor, now, action, x, q.ledger.value))
  {
  }

  lemma ReportsKept(
      digests: Digests, rule: Rule, c: C.Case, actor: Option<string>, now: int, front: seq<Action>, action: Action,
        planned: seq<Planned>, l: Ledger, m: Ledger)
    requires KnownActions(front) && KnownActions(front + [action]) && Keeps(l, m)
             && AllReported(digests, rule, c, actor, now, front, planned, l)
    ensures AllReported(digests, rule, c, actor, now, front + [action], planned, m)
  {
    var actions := front + [action];
    forall x | x in planned
      ensures exists i :: 0 <= i < |actions| && ReportsRecord(digests, rule, c, actor, now, actions[i], x, m)
    {
      var i :| 0 <= i < |front| && ReportsRecord(digests, rule, c, actor, now, front[i], x, l);
      assert actions[i] == front[i];
      assert ReportsRecord(digests, rule, c, actor, now, actions[i], x, m);
    }
  }

  lemma {:induction false} PlannedAreReported(
      digests: Digests, rule: Rule, c: C.Case, actor: Option<string>, now: int, l: Ledger, actions: seq<Action>)
    requires KnownActions(actions)
    ensures var p := PlanAll(digests, rule, c, actor, now, Some(l), actions);
            p.ledger.Some? && AllReported(digests, rule, c, actor, now, actions, p.planned, p.ledger.value)
  {
    if actions != [] {
      var front, action := actions[..|actions| - 1], actions[|actions| - 1];
      assert actions == front + [action];
      PlannedAreReported(digests, rule, c, actor, now, l, front);
      LastIsReported(digests, rule, c, actor, now, l, front, action);
    }
  }

  lemma LastIsReported(
      digests: Digests, rule: Rule, c: C.Case, actor: Option<string>, now: int, l: Ledger, front: seq<Action>,
      action: Action)
    requires KnownActions(front) && KnownActions(front + [action]) && ActionCatalog.Lookup(action.actionKey).Some?
    requires var p := PlanAll(digests, rule, c, actor, now, Some(l), front);
             p.ledger.Some? && AllReported(digests, rule, c, actor, now, front, p.planned, p.ledger.value)
    ensures var q := PlanAll(digests, rule, c, actor, now, Some(l), front + [action]);
            q.ledger.Some? && AllReported(digests, rule, c, actor, now, front + [action], q.planned, q.ledger.value)
  {
    var p := PlanAll(digests, rule, c, actor, now, Some(l), front);
    var q := PlanOne(digests, rule, c, actor, now, p, action);
    PlanReports(digests, rule, c, actor, now, p, action);
    ReportsKept(digests, rule, c, actor, now, front, action, p.planned, p.ledger.value, q.ledger.value);
    OneMoreReported(digests, rule, c, actor, now, front, action, p.planned, q);
    PlanAllLast(digests, rule, c, actor, now, Some(l), front, action);
  }

  lemma OneMoreReported(
      digests: Digests, rule: Rule, c: C.Case, actor: Option<string>, now: int, front: seq<Action>, action: Action,
        planned: seq<Planned>, q: Progress)
    requires ActionCatalog.Lookup(action.actionKey).Some? && KnownActions(front + [action]) && q.ledger.Some?
    requires AllReported(digests, rule, c, actor, now, front + [action], planned, q.ledger.value)
    requires q.planned == planned
             || exists x ::
                  q.planned == planned + [x] && ReportsRecord(digests, rule, c, actor, now, action, x, q.ledger.value)
    ensures AllReported(digests, rule, c, actor, now, front + [action], q.planned, q.ledger.value)
  {
    assert (front + [action])[|front|] == action;
  }

  /** Every action a simulation reports as planned is an action of the rule whose record the ledger now
      holds, blocked behind a pending request exactly when the catalog gates it. */
  lemma SimulationReports(digests: Digests, rule: Rule, c: C.Case, now: int, l: Ledger, actor: Option<string>)
    requires var r := Simulate(digests, rule, c, now, Some(l), actor).0; r.Ok? && r.value.matched
    ensures KnownActions(rule.actions)
    ensures var (r, after) := Simulate(digests, rule, c, now, Some(l), actor);
            after.Some? && AllReported(digests, rule, c, actor, now, rule.actions, r.value.planned, after.value)
  {
    NoProblemMeansRegistered(c, rule.actions);
    assert forall i :: 0 <= i < |rule.actions| ==> ActionProblem(c, rule.actions[i]) == None;
    PlannedAreReported(digests, rule, c, actor, now, l, rule.actions);
  }

  // ---- planning again

  lemma {:induction false} NothingLeftToPlan(
      digests: Digests, rule: Rule, c: C.Case, actor: Option<string>, now: int, l: Ledger, actions: seq<Action>)
    requires KnownActions(actions)
    requires forall i :: 0 <= i < |actions| ==>
               Key(c.businessId, IdempotencyKey(digests, rule, c, actions[i])) in l.actions
    ensures var p := PlanAll(digests, rule, c, actor, now, Some(l), actions);
            p.planned == [] && p.ledger == Some(l) && |p.skipped| == |actions|
  {
    if actions != [] {
      var front, action := actions[..|actions| - 1], actions[|actions| - 1];
      assert forall i :: 0 <= i < |front| ==> front[i] == actions[i];
      NothingLeftToPlan(digests, rule, c, actor, now, l, front);
    }
  }

  /** Once a rule has been simulated on a case, simulating it on the same case again, at any time, by any
      actor and on any ledger that still has those keys, plans nothing and changes nothing. */
  lemma SimulationIsIdempotent(
      digests: Digests, rule: Rule, c: C.Case, now: int, l: Ledger, actor: Option<string>, later: int, m: Ledger,
        other: Option<string>)
    requires var after := Simulate(digests, rule, c, now, Some(l), actor).1;
             after.Some? && forall k :: k in after.value.actions ==> k in m.actions
    ensures var (first, _) := Simulate(digests, rule, c, now, Some(l), actor);
            var (again, ledger) := Simulate(digests, rule, c, later, Some(m), other);
            && ledger == Some(m)
            && (again.Ok? <==> first.Ok?)
            && (again.Ok? ==> again.value.matched == first.value.matched && again.value.planned == [])
            && (again.Ok? ==> |again.value.skipped| == if first.value.matched then |rule.actions| else 0)
  {
    var first := Simulate(digests, rule, c, now, Some(l), actor).0;
    if first.Ok? && first.value.matched {
      MatchedKeysAreRecorded(digests, rule, c, now, l, actor);
      RecordedPlansNothing(digests, rule, c, later, m, other);
    }
  }

  /** The same holds when the case has changed in the meantime, as long as it is the same case. */
  lemma ReplanningAChangedCase(
      digests: Digests, rule: Rule, c: C.Case, now: int, l: Ledger, actor: Option<string>, d: C.Case, later: int,
        m: Ledger, other: Option<string>)
    requires d.caseId == c.caseId && d.businessId == c.businessId
    requires var (r, after) := Simulate(digests, rule, c, now, Some(l), actor);
             r.Ok? && r.value.matched && after.Some? && forall k :: k in after.value.actions ==> k in m.actions
    ensures var (again, ledger) := Simulate(digests, rule, d, later, Some(m), other);
            ledger == Some(m) && (again.Ok? ==> again.value.planned == [])
  {
    MatchedKeysAreRecorded(digests, rule, c, now, l, actor);
    forall i | 0 <= i < |rule.actions|
      ensures Key(d.businessId, IdempotencyKey(digests, rule, d, rule.actions[i])) in m.actions
    {
      assert IdempotencyKey(digests, rule, d, rule.actions[i]) == IdempotencyKey(digests, rule, c, rule.actions[i]);
    }
    RecordedPlansNothing(digests, rule, d, later, m, other);
  }

  lemma RecordedPlansNothing(digests: Digests, rule: Rule, c: C.Case, now: int, l: Ledger, actor: Option<string>)
    requires KnownActions(rule.actions)
    requires forall i :: 0 <= i < |rule.actions| ==>
               Key(c.businessId, IdempotencyKey(digests, rule, c, rule.actions[i])) in l.actions
    ensures var (r, after) := Simulate(digests, rule, c, now, Some(l), actor);
            after == Some(l)
              && (r.Ok? ==> r.value.planned == [] && |r.value.skipped| == if r.value.matched then |rule.actions| else 0)
  {
    NothingLeftToPlan(digests, rule, c, actor, now, l, rule.actions);
  }

  lemma MatchedKeysAreRecorded(digests: Digests, rule: Rule, c: C.Case, now: int, l: Ledger, actor: Option<string>)
    requires var (r, after) := Simulate(digests, rule, c, now, Some(l), actor); r.Ok? && r.value.matched
    ensures KnownActions(rule.actions)
    ensures var after := Simulate(digests, rule, c, now, Some(l), actor).1;
            && after.Some?
            && forall i :: 0 <= i < |rule.actions| ==>
                 Key(c.businessId, IdempotencyKey(digests, rule, c, rule.actions[i])) in after.value.actions
  {
    NoProblemMeansRegistered(c, rule.actions);
    assert forall i :: 0 <= i < |rule.actions| ==> ActionProblem(c, rule.actions[i]) == None;
    PlanAllConserves(digests, rule, c, actor, now, l, rule.actions);
  }

  // ---- a simulation is a run of the ledger

  function PlanOps(
      digests: Digests, rule: Rule, c: C.Case, actor: Option<string>, now: int, actions: seq<Action>): seq<LedgerOp>
    requires KnownActions(actions)
  {
    seq(|actions|, i requires 0 <= i < |actions| => PlanOp(PlanFor(digests, rule, c, actions[i], actor, now)))
  }

  /** The operations a simulation performs on the ledger; recording a key again is no change, so the
      actions it skips may be listed too. */
  function SimulationOps(digests: Digests, rule: Rule, c: C.Case, now: int, actor: Option<string>): seq<LedgerOp> {
    if RuleProblem(rule, c).Some? || EvaluateConditions(c, rule.conditions).Err?
      || false in EvaluateConditions(c, rule.conditions).value then []
    else
      NoProblemMeansRegistered(c, rule.actions);
      assert forall i :: 0 <= i < |rule.actions| ==> ActionProblem(c, rule.actions[i]) == None;
      PlanOps(digests, rule, c, actor, now, rule.actions)
  }

  lemma RunSnoc(digest: Digest, ops: seq<LedgerOp>, op: LedgerOp)
    ensures Run(digest, ops + [op]) == After(digest, Run(digest, ops), op)
  {
  }

  /** Planning one action is the ledger operation, whether it is skipped or not. */
  lemma PlanOneRecords(
      digests: Digests, rule: Rule, c: C.Case, actor: Option<string>, now: int, p: Progress, action: Action)
    requires ActionCatalog.Lookup(action.actionKey).Some? && p.ledger.Some?
    requires forall key :: key in p.seen ==> Key(c.businessId, key) in p.ledger.value.actions
    ensures PlanOne(digests, rule, c, actor, now, p, action).ledger
            == Some(AfterPlan(digests.ofKey, p.ledger.value, PlanFor(digests, rule, c, action, actor, now)))
  {
  }

  lemma {:induction false} PlanAllRuns(
      digests: Digests, rule: Rule, c: C.Case, actor: Option<string>, now: int, ops: seq<LedgerOp>,
      actions: seq<Action>)
    requires KnownActions(actions)
    ensures PlanAll(digests, rule, c, actor, now, Some(Run(digests.ofKey, ops)), actions).ledger
            == Some(Run(digests.ofKey, ops + PlanOps(digests, rule, c, actor, now, actions)))
  {
    var l := Run(digests.ofKey, ops);
    if actions == [] {
      assert ops + PlanOps(digests, rule, c, actor, now, actions) == ops;
    } else {
      var front, action := actions[..|actions| - 1], actions[|actions| - 1];
      assert actions == front + [action];
      PlanAllRuns(digests, rule, c, actor, now, ops, front);
      PlanAllConserves(digests, rule, c, actor, now, l, front);
      PlanLastRuns(digests, rule, c, actor, now, ops, front, action);
    }
  }

  lemma PlanLastRuns(
      digests: Digests, rule: Rule, c: C.Case, actor: Option<string>, now: int, ops: seq<LedgerOp>, front: seq<Action>,
      action: Action)
    requires KnownActions(front) && KnownActions(front + [action])
    requires var p := PlanAll(digests, rule, c, actor, now, Some(Run(digests.ofKey, ops)), front);
             && p.ledger == Some(Run(digests.ofKey, ops + PlanOps(digests, rule, c, actor, now, front)))
             && forall key :: key in p.seen ==> Key(c.businessId, key) in p.ledger.value.actions
    ensures PlanAll(digests, rule, c, actor, now, Some(Run(digests.ofKey, ops)), front + [action]).ledger
            == Some(Run(digests.ofKey, ops + PlanOps(digests, rule, c, actor, now, front + [action])))
  {
    assert (front + [action])[|front|] == action;
    var l := Run(digests.ofKey, ops);
    PlanAllLast(digests, rule, c, actor, now, Some(l), front, action);
    PlanOneRecords(digests, rule, c, actor, now, PlanAll(digests, rule, c, actor, now, Some(l), front), action);
    PlanOpsLast(digests, rule, c, actor, now, ops, front, action);
    RunSnoc(digests.ofKey, ops + PlanOps(digests, rule, c, actor, now, front),
      PlanOp(PlanFor(digests, rule, c, action, actor, now)));
  }

  lemma PlanOpsLast(
      digests: Digests, rule: Rule, c: C.Case, actor: Option<string>, now: int, ops: seq<LedgerOp>, front: seq<Action>,
      action: Action)
    requires KnownActions(front) && KnownActions(front + [action]) && ActionCatalog.Lookup(action.actionKey).Some?
    ensures ops + PlanOps(digests, rule, c, actor, now, front + [action])
            == ops + PlanOps(digests, rule, c, actor, now, front)
              + [PlanOp(PlanFor(digests, rule, c, action, actor, now))]
  {
  }

  lemma SimulationRuns(digests: Digests, rule: Rule, c: C.Case, now: int, actor: Option<string>, ops: seq<LedgerOp>)
    ensures Simulate(digests, rule, c, now, Some(Run(digests.ofKey, ops)), actor).1
            == Some(Run(digests.ofKey, ops + SimulationOps(digests, rule, c, now, actor)))
  {
    NoProblemMeansRegistered(c, rule.actions);
    assert ops + [] == ops;
    if RuleProblem(rule, c) == None {
      assert forall i :: 0 <= i < |rule.actions| ==> ActionProblem(c, rule.actions[i]) == None;
      PlanAllRuns(digests, rule, c, actor, now, ops, rule.actions);
    }
  }

  // ---- the workflow service

  /** What happens to a ledger in service: simulations and decisions, in any order. */
  datatype ServiceStep = Simulating(rule: Rule, c: C.Case, now: int, actor: Option<string>) | Deciding(d: Decision)

  function ServiceLedger(digests: Digests, steps: seq<ServiceStep>): (l: Ledger)
    ensures Indexed(l)
  {
    if steps == [] then EMPTY
    else
      var l := ServiceLedger(digests, steps[..|steps| - 1]);
      match steps[|steps| - 1]
      case Deciding(d) => After(digests.ofKey, l, DecideOp(d))
      case Simulating(rule, c, now, actor) =>
        SimulationConserves(digests, rule, c, now, l, actor);
        Simulate(digests, rule, c, now, Some(l), actor).1.value
  }

  function StepOps(digests: Digests, step: ServiceStep): seq<LedgerOp> {
    match step
    case Deciding(d) => [DecideOp(d)]
    case Simulating(rule, c, now, actor) => SimulationOps(digests, rule, c, now, actor)
  }

  function LedgerOps(digests: Digests, steps: seq<ServiceStep>): seq<LedgerOp> {
    if steps == [] then [] else LedgerOps(digests, steps[..|steps| - 1]) + StepOps(digests, steps[|steps| - 1])
  }

  /** Every history of simulations and decisions is a run of the ledger in which each planned action is
      registered and gated as the catalog says. */
  lemma {:induction false} ServiceRuns(digests: Digests, steps: seq<ServiceStep>)
    ensures ServiceLedger(digests, steps) == Run(digests.ofKey, LedgerOps(digests, steps))
    ensures WorkflowQueues.ServiceOps(LedgerOps(digests, steps))
  {
    if steps != [] {
      var front, step := steps[..|steps| - 1], steps[|steps| - 1];
      ServiceRuns(digests, front);
      StepRuns(digests, LedgerOps(digests, front), step);
    }
  }

  function AfterStep(digests: Digests, l: Ledger, step: ServiceStep): Option<Ledger>
    requires Indexed(l)
  {
    match step
    case Deciding(d) => Some(After(digests.ofKey, l, DecideOp(d)))
    case Simulating(rule, c, now, actor) => Simulate(digests, rule, c, now, Some(l), actor).1
  }

  lemma StepRuns(digests: Digests, ops: seq<LedgerOp>, step: ServiceStep)
    requires WorkflowQueues.ServiceOps(ops)
    ensures AfterStep(digests, Run(digests.ofKey, ops), step) == Some(Run(digests.ofKey, ops + StepOps(digests, step)))
    ensures WorkflowQueues.ServiceOps(ops + StepOps(digests, step))
  {
    StepOpsAreServiceOps(digests, step);
    match step
    case Deciding(d) => RunSnoc(digests.ofKey, ops, DecideOp(d));
    case Simulating(rule, c, now, actor) => SimulationRuns(digests, rule, c, now, actor, ops);
  }

  lemma StepOpsAreServiceOps(digests: Digests, step: ServiceStep)
    ensures WorkflowQueues.ServiceOps(StepOps(digests, step))
  {
    match step
    case Deciding(d) =>
    case Simulating(rule, c, now, actor) =>
      NoProblemMeansRegistered(c, rule.actions);
      if SimulationOps(digests, rule, c, now, actor) != [] {
        assert forall i :: 0 <= i < |rule.actions| ==> ActionProblem(c, rule.actions[i]) == None;
        PlanOpsAreServiceOps(digests, rule, c, actor, now, rule.actions);
      }
  }

  lemma PlanOpsAreServiceOps(
      digests: Digests, rule: Rule, c: C.Case, actor: Option<string>, now: int, actions: seq<Action>)
    requires KnownActions(actions)
    ensures WorkflowQueues.ServiceOps(PlanOps(digests, rule, c, actor, now, actions))
  {
  }

  /** Over every history of simulations and decisions, each gated action is in exactly one of three
      places: the approval queue, the execution queue, or rejected. */
  lemma ServicePartition(digests: Digests, steps: seq<ServiceStep>, businessId: string)
    requires DigestsApart(digests.ofKey, PlannedKeys(LedgerOps(digests, steps)))
    ensures var l := ServiceLedger(digests, steps);
            && WorkflowQueues.GatedKeys(l, businessId)
               == WorkflowQueues.AwaitingApproval(l, businessId) + WorkflowQueues.AwaitingExecution(l, businessId)
                 + WorkflowQueues.RejectedKeys(l, businessId)
            && |WorkflowQueues.GatedKeys(l, businessId)|
               == |WorkflowQueues.AwaitingApproval(l, businessId)| + |WorkflowQueues.AwaitingExecution(l, businessId)|
                 + |WorkflowQueues.RejectedKeys(l, businessId)|
  {
    ServiceRuns(digests, steps);
    WorkflowQueues.QueuesPartitionGatedActions(digests.ofKey, LedgerOps(digests, steps), businessId);
  }
}
