/** What a rule must satisfy before it is planned, told by the actions themselves and the catalog. */
module PlannerRules {
  import opened Basics
  import opened ActionCatalog
  import W = WorkflowLedger
  import P = WorkflowPlanner
  import C = Cases
  import Decimals
  import Text

  // ---- the catalog

  lemma {:induction false} EntryIsListed(definitions: seq<(string, Definition)>, key: string) returns (i: nat)
    requires Entry(definitions, key).Some?
    ensures i < |definitions| && definitions[i] == (key, Entry(definitions, key).value)
  {
    if definitions[0].0 == key {
      i := 0;
    } else {
      i := EntryIsListed(definitions[1..], key);
      i := i + 1;
    }
  }

  lemma {:induction false} ListedHasEntry(definitions: seq<(string, Definition)>, i: nat)
    requires i < |definitions|
    ensures Entry(definitions, definitions[i].0).Some?
  {
    if i > 0 { ListedHasEntry(definitions[1..], i - 1); }
  }

  /** The registered keys are those the catalog lists. */
  lemma RegisteredExactly(key: string)
    ensures Lookup(key).Some? <==> exists i: nat :: i < |Definitions()| && Definitions()[i].0 == key
  {
    if Lookup(key).Some? { var i := EntryIsListed(Definitions(), key); }
    if i: nat :| i < |Definitions()| && Definitions()[i].0 == key { ListedHasEntry(Definitions(), i); }
  }

  predicate IsSuggestion(key: string) {
    || key == "check_storefront" || key == "review_campaigns" || key == "confirm_stock"
    || key == "inspect_pending_orders" || key == "reply_pending_chats"
  }

  /** The case families an action is for; none means all. */
  function FamiliesOf(key: string): set<C.CaseType> {
    if key == "check_storefront" then {C.SalesDrop, C.SpendWithoutOrders}
    else if key == "review_campaigns" then {C.SpendWithoutOrders}
    else if key == "confirm_stock" then {C.StockoutRisk}
    else if key == "pause_promotion" then {C.StockoutRisk, C.SpendWithoutOrders}
    else if key == "refresh_credentials" || key == "retry_connector" then {C.DataStale}
    else if key == "inspect_pending_orders" then {C.FulfillmentBacklog}
    else if key == "reply_pending_chats" then {C.UnansweredConversations}
    else {}
  }

  predicate IsGated(key: string) { key == "request_external_action" || key == "pause_promotion" }

  /** What an action must be given. */
  function RequiredField(key: string): Option<string> {
    if key == "dismiss_case" || key == "resolve_case" || key == "request_external_action" then Some("reason")
    else if key == "add_comment" then Some("comment")
    else if key == "assign_owner" then Some("assignee_ref")
    else None
  }

  /** The catalog entry asks what its key says: approval, one field or none, and the case families. */
  predicate FollowsCatalog(key: string, d: Definition) {
    && (d.requiresApproval <==> IsGated(key)) && (d.mode == ApprovalRequired <==> IsGated(key))
    && (d.mode == Suggestion <==> IsSuggestion(key)) && d.families == FamiliesOf(key)
    && (d.requiresReason <==> RequiredField(key) == Some("reason"))
    && (d.requiresComment <==> RequiredField(key) == Some("comment"))
    && d.inputFields == (if key == "assign_owner" then ["assignee_ref"] else [])
  }

  lemma EveryEntryFollows(i: nat)
    requires i < |Definitions()|
    ensures FollowsCatalog(Definitions()[i].0, Definitions()[i].1)
  {
    if i < 8 { EntriesForAnyCase(i); } else { EntriesForFamilies(i); }
  }

  lemma EntriesForAnyCase(i: nat)
    requires i < 8 && |Definitions()| == 16
    ensures FollowsCatalog(Definitions()[i].0, Definitions()[i].1)
  {
  }

  lemma EntriesForFamilies(i: nat)
    requires 8 <= i < 16 == |Definitions()|
    ensures FollowsCatalog(Definitions()[i].0, Definitions()[i].1)
  {
  }

  lemma CatalogFollows(key: string)
    requires Lookup(key).Some?
    ensures FollowsCatalog(key, Lookup(key).value)
  {
    var i := EntryIsListed(Definitions(), key);
    EveryEntryFollows(i);
  }

  // ---- one action

  /** The parameter is text that is not only whitespace. */
  predicate Provides(params: W.Params, name: string) {
    name in params && params[name].TextParam? && !Text.IsOnlySpace(params[name].s)
  }

  lemma ProvidesIsText(params: W.Params, name: string)
    ensures P.HasText(params, name) <==> Provides(params, name)
  {
    if name in params && params[name].TextParam? { Text.BlankIsOnlySpace(params[name].s); }
  }

  lemma FilterOne(name: string, keep: string -> bool)
    ensures Filter([], keep) == [] && Filter([name], keep) == if keep(name) then [name] else []
  {
    assert [name][..0] == [];
  }

  lemma MissingExactly(d: Definition, key: string, params: W.Params)
    requires FollowsCatalog(key, d)
    ensures P.Missing(d, params)
            == match RequiredField(key)
               case None => []
               case Some(name) => if Provides(params, name) then [] else [name]
  {
    ProvidesIsText(params, "reason");
    ProvidesIsText(params, "comment");
    ProvidesIsText(params, "assignee_ref");
    FilterOne("assignee_ref", name => !P.HasText(params, name));
  }

  /** What is wrong with one action, the first that applies: an unknown key, the wrong case family, or the one text
      its key requires. */
  function ProblemOf(c: C.Case, action: P.Action): Option<P.PlanError> {
    if Lookup(action.actionKey).None? then Some(P.UnknownAction)
    else if FamiliesOf(action.actionKey) != {} && c.caseType !in FamiliesOf(action.actionKey) then
      Some(P.NotForCaseType)
    else
      match RequiredField(action.actionKey)
      case None => None
      case Some(name) => if Provides(action.params, name) then None else Some(P.MissingParams([name]))
  }

  lemma ActionProblemExactly(c: C.Case, action: P.Action)
    ensures P.ActionProblem(c, action) == ProblemOf(c, action)
  {
    if Lookup(action.actionKey).Some? {
      CatalogFollows(action.actionKey);
      MissingExactly(Lookup(action.actionKey).value, action.actionKey, action.params);
    }
  }

  // ---- the rule

  lemma {:induction false} FirstProblem(c: C.Case, actions: seq<P.Action>) returns (i: nat)
    requires P.FirstActionProblem(c, actions).Some?
    ensures i < |actions| && P.FirstActionProblem(c, actions) == ProblemOf(c, actions[i])
    ensures forall j :: 0 <= j < i ==> ProblemOf(c, actions[j]) == None
  {
    ActionProblemExactly(c, actions[0]);
    if P.ActionProblem(c, actions[0]).Some? {
      i := 0;
    } else {
      i := FirstProblem(c, actions[1..]);
      assert forall j :: 0 < j <= i ==> actions[j] == actions[1..][j - 1];
      i := i + 1;
    }
  }

  predicate IsTrigger(trigger: string) { trigger == "case_opened" || trigger == "case_updated" || trigger == "manual" }

  /** A rule is refused for the first of: another business, a blank id, an unknown trigger, and the problem of its first
      action that has one; otherwise it is accepted. */
  lemma RuleProblemExactly(rule: P.Rule, c: C.Case)
    ensures var problem := P.RuleProblem(rule, c);
            if rule.businessId != c.businessId then problem == Some(P.ScopeMismatch)
            else if Text.IsOnlySpace(rule.ruleId) then problem == Some(P.InvalidRule)
            else if !IsTrigger(rule.trigger) then problem == Some(P.UnsupportedTrigger)
            else
              && (problem == None <==> forall i :: 0 <= i < |rule.actions| ==> ProblemOf(c, rule.actions[i]) == None)
              && (problem.Some? ==>
                    exists i ::
                      && 0 <= i < |rule.actions| && problem == ProblemOf(c, rule.actions[i])
                      && forall j :: 0 <= j < i ==> ProblemOf(c, rule.actions[j]) == None)
  {
    Text.BlankIsOnlySpace(rule.ruleId);
    TriggersAre(rule.trigger);
    P.NoProblemMeansRegistered(c, rule.actions);
    forall i | 0 <= i < |rule.actions| ensures P.ActionProblem(c, rule.actions[i]) == ProblemOf(c, rule.actions[i]) {
      ActionProblemExactly(c, rule.actions[i]);
    }
    if P.FirstActionProblem(c, rule.actions).Some? { var i := FirstProblem(c, rule.actions); }
  }

  lemma TriggersAre(trigger: string)
    ensures trigger in {"case_opened", "case_updated", "manual"} <==> IsTrigger(trigger)
  {
  }

  // ---- the conditions

  /** Conditions are evaluated in order up to the first that cannot be; otherwise each has its own result. */
  lemma {:induction false} EvaluatedInOrder(c: C.Case, conditions: seq<P.Condition>)
    ensures match P.EvaluateConditions(c, conditions)
            case Ok(results) =>
              && |results| == |conditions|
              && forall i :: 0 <= i < |conditions| ==> P.ConditionHolds(c, conditions[i]) == Ok(results[i])
            case Err(e) =>
              exists i ::
                && 0 <= i < |conditions| && P.ConditionHolds(c, conditions[i]) == Err(e)
                && forall j :: 0 <= j < i ==> P.ConditionHolds(c, conditions[j]).Ok?
  {
    if conditions != [] && P.ConditionHolds(c, conditions[0]).Ok? {
      var rest := conditions[1..];
      EvaluatedInOrder(c, rest);
      assert forall i :: 1 <= i < |conditions| ==> conditions[i] == rest[i - 1];
      if P.EvaluateConditions(c, rest).Err? {
        var e := P.EvaluateConditions(c, rest).error;
        var i :| 0 <= i < |rest| && P.ConditionHolds(c, rest[i]) == Err(e)
          && forall j :: 0 <= j < i ==> P.ConditionHolds(c, rest[j]).Ok?;
        assert conditions[i + 1] == rest[i];
      }
    }
  }

  predicate RestsOnBadEvidence(c: C.Case) {
    exists s :: s in c.snapshots && (s.freshness == C.Stale || s.freshness == C.Degraded || s.freshness == C.Missing)
  }

  /** The integer a condition compares the priority with, if it names one. */
  function Threshold(expected: P.Expected): Option<int> {
    match expected
    case ExpectedInt(n) => Some(n)
    case ExpectedBool(b) => Some(if b then 1 else 0)
    case ExpectedText(s) => Decimals.ParseInt(s)
    case OtherValue => None
  }

  /** What a condition says of the case: equality of a named field, at least a priority, or the flag, which also
      equals the integers 0 and 1. */
  lemma ConditionExactly(c: C.Case, condition: P.Condition)
    ensures var r := P.ConditionHolds(c, condition);
            var expected := condition.expected;
            if condition.field == "status" then r == Ok(expected == P.ExpectedText(C.StatusText(c.status)))
            else if condition.field == "case_type" then r == Ok(expected == P.ExpectedText(C.CaseTypeText(c.caseType)))
            else if condition.field == "severity" then r == Ok(expected == P.ExpectedText(C.SeverityText(c.severity)))
            else if condition.field == "min_priority_score" then
              r == (match Threshold(expected) case Some(n) => Ok(n <= c.priority) case None => Err(P.InvalidCondition))
            else if condition.field == "degraded" then
              var flag := RestsOnBadEvidence(c);
              r == Ok(expected == P.ExpectedBool(flag) || expected == P.ExpectedInt(if flag then 1 else 0))
            else r == Err(P.UnsupportedCondition)
  {
    assert RestsOnBadEvidence(c) <==> C.IsDegraded(c);
  }

  // ---- the verdict of a simulation

  /** A simulation fails with the problem of its rule, or else with the first condition that cannot be evaluated;
      otherwise it matches exactly when every condition holds, and plans and skips nothing when one does not. */
  lemma SimulationVerdict(
      digests: P.Digests, rule: P.Rule, c: C.Case, now: int, ledger: Option<W.Ledger>, actor: Option<string>)
    ensures var (r, after) := P.Simulate(digests, rule, c, now, ledger, actor);
            var results := P.EvaluateConditions(c, rule.conditions);
            && (P.RuleProblem(rule, c).Some? ==> r == Err(P.RuleProblem(rule, c).value) && after == ledger)
            && (P.RuleProblem(rule, c).None? && results.Err? ==> r == Err(results.error) && after == ledger)
            && (P.RuleProblem(rule, c).None? && results.Ok? ==>
                  && r.Ok? && r.value.conditions == results.value
                  && (r.value.matched <==> forall i :: 0 <= i < |results.value| ==> results.value[i])
                  && (!r.value.matched ==> r.value.planned == [] && r.value.skipped == [] && after == ledger))
  {
  }
}
