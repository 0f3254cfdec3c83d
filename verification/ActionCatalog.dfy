/** The registered workflow actions: how each runs, what it needs and which cases it is for. */
module ActionCatalog {
  import opened Basics
  import opened Cases
  import WorkflowLedger

  datatype Mode = Manual | Suggestion | ApprovalRequired

  /** An empty set of families means every case type. */
  datatype Definition = Definition(
    mode: Mode,
    requiresReason: bool,
    requiresComment: bool,
    inputFields: seq<string>,
    requiresApproval: bool,
    families: set<CaseType>)

  function ManualAction(families: set<CaseType>): Definition { Definition(Manual, false, false, [], false, families) }

  function SuggestedAction(families: set<CaseType>): Definition {
    Definition(Suggestion, false, false, [], false, families)
  }

  const ANY_CASE: set<CaseType> := {}

  /** The catalog, in its own order. */
  function Definitions(): seq<(string, Definition)> {
    [ ("acknowledge_case", ManualAction(ANY_CASE)),
      ("add_comment", ManualAction(ANY_CASE).(requiresComment := true)),
      ("assign_owner", ManualAction(ANY_CASE).(inputFields := ["assignee_ref"])),
      ("dismiss_case", ManualAction(ANY_CASE).(requiresReason := true)),
      ("mark_in_progress", ManualAction(ANY_CASE)),
      ("resolve_case", ManualAction(ANY_CASE).(requiresReason := true)),
      ("request_follow_up", ManualAction(ANY_CASE)),
      ("request_external_action", Definition(ApprovalRequired, true, false, [], true, ANY_CASE)),
      ("check_storefront", SuggestedAction({SalesDrop, SpendWithoutOrders})),
      ("review_campaigns", SuggestedAction({SpendWithoutOrders})),
      ("confirm_stock", SuggestedAction({StockoutRisk})),
      ("pause_promotion", Definition(ApprovalRequired, false, false, [], true, {StockoutRisk, SpendWithoutOrders})),
      ("refresh_credentials", ManualAction({DataStale})),
      ("retry_connector", ManualAction({DataStale})),
      ("inspect_pending_orders", SuggestedAction({FulfillmentBacklog})),
      ("reply_pending_chats", SuggestedAction({UnansweredConversations})) ]
  }

  function Entry(definitions: seq<(string, Definition)>, actionKey: string): Option<Definition> {
    if definitions == [] then None
    else if definitions[0].0 == actionKey then Some(definitions[0].1)
    else Entry(definitions[1..], actionKey)
  }

  /** The registered definition of an action key. */
  function Lookup(actionKey: string): Option<Definition> { Entry(Definitions(), actionKey) }

  /** What state an action is recorded in when it is planned. */
  function ExecutionStatus(d: Definition): WorkflowLedger.ExecutionState {
    if d.requiresApproval then WorkflowLedger.BlockedApprovalRequired
    else if d.mode == Suggestion then WorkflowLedger.SuggestionOnly
    else WorkflowLedger.DryRun
  }
}
