/** Workflow conditions and JQL clauses are two ways to ask about a case; where both can ask, they agree. */
module ConditionQueries {
  import opened Basics
  import opened Cases
  import P = WorkflowPlanner
  import J = JqlSyntax
  import Q = JqlQuery

  /** The clause that asks what a condition asks, if there is one. */
  function ClauseFor(condition: P.Condition): Option<J.Clause> {
    match condition.expected
    case ExpectedText(s) =>
      if condition.field in {"status", "case_type", "severity"} then Some(J.Clause(condition.field, "=", [J.Text(s)]))
        else None
    case ExpectedInt(n) =>
      if condition.field == "min_priority_score" then Some(J.Clause("priority_score", ">=", [J.Number(n)])) else None
    case ExpectedBool(b) => if condition.field == "degraded" then Some(J.Clause("degraded", "=", [J.Flag(b)])) else None
    case OtherValue => None
  }

  lemma ConditionAgrees(surface: Q.Surface, c: Case, condition: P.Condition)
    requires ClauseFor(condition).Some?
    ensures ClauseFor(condition).value.operator != "IN"
    ensures P.ConditionHolds(c, condition) == Ok(Q.MatchesClause(surface, c, ClauseFor(condition).value))
  {
  }

  ghost predicate Asks(conditions: seq<P.Condition>, clauses: seq<J.Clause>) {
    && |clauses| == |conditions|
    && (forall i :: 0 <= i < |conditions| ==> ClauseFor(conditions[i]) == Some(clauses[i]))
    && (forall d :: d in clauses ==> d.values != [])
  }

  /** A rule whose conditions can all be asked as clauses applies to exactly the cases the query selects. */
  lemma {:induction false} RuleSelectsAsQuery(
      surface: Q.Surface, c: Case, conditions: seq<P.Condition>, clauses: seq<J.Clause>)
    requires Asks(conditions, clauses)
    ensures var results := P.EvaluateConditions(c, conditions);
            results.Ok? && (false !in results.value <==> Q.Matches(surface, c, clauses))
  {
    if conditions != [] {
      var more, rest := conditions[1..], clauses[1..];
      assert forall i :: 0 <= i < |more| ==> more[i] == conditions[i + 1] && rest[i] == clauses[i + 1];
      assert forall d :: d in rest ==> d in clauses;
      RuleSelectsAsQuery(surface, c, more, rest);
      ConditionAgrees(surface, c, conditions[0]);
      MatchesFirst(surface, c, clauses);
    }
  }

  lemma MatchesFirst(surface: Q.Surface, c: Case, clauses: seq<J.Clause>)
    requires clauses != [] && forall d :: d in clauses ==> d.values != []
    ensures clauses[0].values != [] && forall d :: d in clauses[1..] ==> d.values != []
    ensures Q.Matches(surface, c, clauses)
       <==> Q.MatchesClause(surface, c, clauses[0]) && Q.Matches(surface, c, clauses[1..])
  {
  }
}
