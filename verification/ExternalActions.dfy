/** Executing one external provider action: checks that fail closed, an audit record before the call,
    the call, and a record of how it ended. What the provider answers is an argument. */
module ExternalActions {
  import opened Basics
  import opened RunLedger
  import W = WorkflowLedger
  import Q = WorkflowQueues
  import Text

  datatype Request = Request(
    businessId: string,
    runId: string,
    toolkit: string,
    actionKey: string,
    operation: string,
    idempotencyKey: string,
    actorRef: Option<string>,
    ledgerId: Option<string>,
    payload: map<string, string>)

  datatype Provider = Provider(name: string, allowed: set<(string, string)>)

  /** The provider raises, answers with something that is no object, or answers with an object. */
  datatype Reply = Raised | NotAnObject | Answer(response: map<string, string>)

  datatype ActionError =
    | InvalidRequest | RunNotFound | ScopeMismatch | Duplicate | ToolkitReserved | NotAllowed | ApprovalRequired
    | ProviderFailed | RunClosed | AppendLost

  datatype Success = Success(
    provider: string,
    toolkit: string,
    actionKey: string,
    operation: string,
    idempotencyKey: string,
    approvalState: string,
    responseRef: string,
    response: map<string, string>)

  const RESERVED_TOOLKITS: set<string> :=
    {"tiendanube", "nuvemshop", "mercadolibre", "mercado_libre", "whatsapp", "meta_whatsapp", "meta_cloud_api"}

  // ---- checks

  predicate IsLowerOrDigit(c: char) { 'a' <= c <= 'z' || Text.IsDigit(c) }

  predicate SafeToolkit(s: string) {
    s != "" && IsLowerOrDigit(s[0]) && forall c :: c in s ==> IsLowerOrDigit(c) || c == '_' || c == '-'
  }

  predicate SafeActionKey(s: string) {
    s != "" && IsLowerOrDigit(s[0]) && forall c :: c in s ==> IsLowerOrDigit(c) || c == '_' || c == '.' || c == '-'
  }

  predicate IsBlank(s: string) { Text.Strip(s) == "" }

  predicate ValidRequest(r: Request) {
    && !IsBlank(r.businessId) && !IsBlank(r.runId) && !IsBlank(r.toolkit) && !IsBlank(r.actionKey)
       && !IsBlank(r.idempotencyKey)
    && SafeToolkit(r.toolkit) && SafeActionKey(r.actionKey)
    && (r.operation == "read" || r.operation == "write")
  }

  function KeyOfOutcome(o: Outcome): Option<string> {
    if o.metadata.Audit? then Some(o.metadata.idempotencyKey) else o.metadata.key
  }

  predicate MarksExecuted(o: Outcome) {
    o.status == Succeeded || (if o.metadata.Audit? then o.metadata.mark == Some(Executed) else o.metadata.executed)
  }

  predicate Executes(o: Outcome, key: string) { KeyOfOutcome(o) == Some(key) && MarksExecuted(o) }

  predicate HasExecuted(outcomes: seq<Outcome>, key: string) {
    exists o :: o in outcomes && Executes(o, key)
  }

  predicate ParamIs(params: W.Params, name: string, value: string) {
    name in params && params[name] == W.TextParam(value)
  }

  predicate Authorises(record: W.Record, provider: Provider, r: Request) {
    && record.approvalState == W.Approved && record.executionState == W.PendingExecution
    && record.key.idempotencyKey == r.idempotencyKey && record.actionKey == "request_external_action"
    && ParamIs(record.params, "provider", provider.name) && ParamIs(record.params, "toolkit", r.toolkit)
    && ParamIs(record.params, "external_action_key", r.actionKey)
  }

  /** The first record with the requested ledger id, if it authorises the request. */
  function Authorising(records: seq<W.Record>, provider: Provider, r: Request): (found: Option<W.Record>)
    requires r.ledgerId.Some?
    ensures found.Some? ==>
              found.value in records && found.value.ledgerId == r.ledgerId.value && Authorises(found.value, provider, r)
  {
    if records == [] then None
    else if records[0].ledgerId != r.ledgerId.value then Authorising(records[1..], provider, r)
    else if Authorises(records[0], provider, r) then Some(records[0])
    else None
  }

  /** The loop over the listed records. */
  method FindApprovedWorkflowAction(records: seq<W.Record>, provider: Provider, r: Request)
    returns (found: Option<W.Record>)
    ensures found == if r.ledgerId.None? || r.ledgerId.value == "" then None else Authorising(records, provider, r)
  {
    if r.ledgerId.None? || r.ledgerId.value == "" { return None; }
    assert records[0..] == records;
    for i := 0 to |records|
      invariant Authorising(records[i..], provider, r) == Authorising(records, provider, r)
    {
      if records[i].ledgerId != r.ledgerId.value { continue; }
      return if Authorises(records[i], provider, r) then Some(records[i]) else None;
    }
    return None;
  }

  /** The workflow record a request rests on, without a ledger none. */
  function ApprovedRecord(ledger: Option<W.Ledger>, provider: Provider, r: Request): Option<W.Record>
    requires ledger.Some? ==> W.Indexed(ledger.value)
  {
    if ledger.None? || r.ledgerId.None? || r.ledgerId.value == "" then None
    else Authorising(Q.ListActions(ledger.value.order, ledger.value.actions, r.businessId), provider, r)
  }

  function LowerChar(c: char): char { if 'A' <= c <= 'Z' then (c as int + 32) as char else c }

  function NormalToolkit(toolkit: string): string { Text.Strip(Map(toolkit, LowerChar)) }

  datatype Verdict = Refused(error: ActionError) | Audited(error: ActionError) | Proceed

  /** The checks in order: refused ones leave no trace, audited ones record why they stopped. */
  function Checked(runs: Runs, record: Option<W.Record>, provider: Provider, r: Request): Verdict {
    if !ValidRequest(r) then Refused(InvalidRequest)
    else if r.runId !in runs then Refused(RunNotFound)
    else if runs[r.runId].businessId != r.businessId then Refused(ScopeMismatch)
    else CheckedInRun(runs, record, provider, r)
  }

  /** The checks of a request in scope. */
  function CheckedInRun(runs: Runs, record: Option<W.Record>, provider: Provider, r: Request): Verdict
    requires r.runId in runs
  {
    if HasExecuted(runs[r.runId].outcomes, r.idempotencyKey) then Audited(Duplicate)
    else if NormalToolkit(r.toolkit) in RESERVED_TOOLKITS then Audited(ToolkitReserved)
    else if (r.toolkit, r.actionKey) !in provider.allowed then Audited(NotAllowed)
    else if r.operation == "write" && record.None? then Audited(ApprovalRequired)
    else Proceed
  }

  // ---- audit records

  function ApprovalText(r: Request, record: Option<W.Record>): string {
    if r.operation == "read" then "not_required" else if record.Some? then "approved" else "pending_approval"
  }

  /** What an audit says before anything came back from the provider. */
  function AuditOf(provider: Provider, r: Request, record: Option<W.Record>, mark: Option<ExecutionMark>): (m: Metadata)
    ensures m.Audit?
  {
    Audit(provider.name, r.toolkit, r.actionKey, r.operation, r.idempotencyKey, false, r.actorRef,
      ApprovalText(r, record), true,
          r.ledgerId, mark, None, r.payload, None, None)
  }

  function AuditOutcome(
      provider: Provider, r: Request, status: ConnectorStatus, now: int, error: Option<string>,
      metadata: Metadata): Outcome
  {
    Outcome("external-action:" + provider.name + ":" + r.toolkit + ":" + r.actionKey, status, now, Some(now), error,
      metadata)
  }

  function RefusalAudit(provider: Provider, r: Request, record: Option<W.Record>, error: ActionError): Metadata {
    var plain := AuditOf(provider, r, record, None);
    match error
    case Duplicate => plain.(duplicate := true)
    case ToolkitReserved => plain.(allowed := false, reservedToolkit := Some(NormalToolkit(r.toolkit)))
    case NotAllowed => plain.(allowed := false)
    case _ => plain
  }

  function RefusalSummary(error: ActionError): string {
    match error
    case Duplicate => "external action duplicate idempotency key"
    case ToolkitReserved => "external action toolkit is reserved for Orvo core connectors"
    case NotAllowed => "external action not allowed by Orvo allowlist"
    case _ => "external write action requires approved workflow action before execution"
  }

  function RefusalOutcome(
      provider: Provider, r: Request, record: Option<W.Record>, error: ActionError, now: int): Outcome
  {
    AuditOutcome(provider, r, Skipped, now, Some(RefusalSummary(error)), RefusalAudit(provider, r, record, error))
  }

  function AttemptOutcome(provider: Provider, r: Request, record: Option<W.Record>, now: int): Outcome {
    AuditOutcome(provider, r, Skipped, now, None, AuditOf(provider, r, record, Some(AttemptPlanned)))
  }

  predicate HasValue(response: map<string, string>, key: string) { key in response && response[key] != "" }

  /** The id a response names, under either of its two keys; an empty one counts as missing. */
  function ExternalId(response: map<string, string>): string {
    if HasValue(response, "external_id") then response["external_id"]
    else if HasValue(response, "id") then response["id"]
    else "unknown"
  }

  function ResponseRef(provider: Provider, r: Request, response: map<string, string>): string {
    provider.name + "://" + r.toolkit + "/" + r.actionKey + "/" + ExternalId(response)
  }

  function ExecutedAudit(
      provider: Provider, r: Request, record: Option<W.Record>, response: map<string, string>): Metadata
  {
    var plain := AuditOf(provider, r, record, Some(Executed));
    plain.(summary := Some(ResponseSummary(ExternalId(response), response.Keys)),
      responseRef := Some(ResponseRef(provider, r, response)))
  }

  /** What the caller gets back after a successful call. */
  function Projection(provider: Provider, r: Request, record: Option<W.Record>, response: map<string, string>): Success
  {
    Success(provider.name, r.toolkit, r.actionKey, r.operation, r.idempotencyKey, ApprovalText(r, record),
            ResponseRef(provider, r, response), response)
  }

  /** How the call ended, as recorded. */
  function FinalOutcome(provider: Provider, r: Request, record: Option<W.Record>, reply: Reply, now: int): Outcome {
    match reply
    case Answer(response) =>
      AuditOutcome(provider, r, Succeeded, now, None, ExecutedAudit(provider, r, record, response))
    case _ =>
      AuditOutcome(provider, r, Failed, now, Some("external provider failed"), AuditOf(provider, r, record, None))
  }

  // ---- execution as a step

  /** What an execution leaves: the outcomes it recorded in order, whether the provider was called after
      the first of them, and the result. */
  datatype Execution = Execution(recorded: seq<Outcome>, called: bool, result: Result<Success, ActionError>)

  /** What follows the verdict; `closed` tells whether the run refuses appends and `stored` whether the last
      append reaches the store. */
  function Concluding(
      verdict: Verdict, closed: bool, provider: Provider, r: Request, record: Option<W.Record>, now: int, reply: Reply,
      stored: bool): Execution
  {
    match verdict
    case Refused(e) => Execution([], false, Err(e))
    case Audited(e) =>
      if closed then Execution([], false, Err(RunClosed))
      else Execution([RefusalOutcome(provider, r, record, e, now)], false, Err(e))
    case Proceed =>
      if closed then Execution([], false, Err(RunClosed))
      else
        var attempt := AttemptOutcome(provider, r, record, now);
        if !stored then Execution([attempt], true, Err(AppendLost))
        else
          Execution([attempt, FinalOutcome(provider, r, record, reply, now)], true,
                    if reply.Answer? then Ok(Projection(provider, r, record, reply.response)) else Err(ProviderFailed))
  }

  predicate IsClosed(runs: Runs, runId: string) { runId in runs && IsTerminal(runs[runId].status) }

  function Executing(
      runs: Runs, ledger: Option<W.Ledger>, provider: Provider, r: Request, now: int, reply: Reply,
      stored: bool): Execution
    requires ledger.Some? ==> W.Indexed(ledger.value)
  {
    var record := ApprovedRecord(ledger, provider, r);
    Concluding(Checked(runs, record, provider, r), IsClosed(runs, r.runId), provider, r, record, now, reply, stored)
  }

  function AppendAll(runs: Runs, runId: string, outcomes: seq<Outcome>): Runs {
    if runId !in runs then runs else runs[runId := runs[runId].(outcomes := runs[runId].outcomes + outcomes)]
  }

  // ---- execution as it runs, over the store objects

  /** Appends one audit outcome, unless the run is gone or closed. */
  method AppendAuditOutcome(runLedger: InMemoryRunLedger, runId: string, outcome: Outcome) returns (ok: bool)
    requires Sound(runLedger.runs)
    modifies runLedger
    ensures ok == (runId in old(runLedger.runs) && !IsTerminal(old(runLedger.runs)[runId].status))
    ensures runLedger.runs == AppendAll(old(runLedger.runs), runId, if ok then [outcome] else [])
            && Sound(runLedger.runs)
  {
    NothingAppended(runLedger.runs, runId);
    var appended := runLedger.AppendConnectorOutcome(runId, outcome);
    return appended.Ok?;
  }

  method FindRecord(ledger: W.InMemoryWorkflowActionLedger?, provider: Provider, r: Request)
    returns (record: Option<W.Record>)
    requires ledger != null ==> W.Indexed(ledger.State())
    ensures record == ApprovedRecord(if ledger == null then None else Some(ledger.State()), provider, r)
  {
    if ledger == null { return None; }
    record := FindApprovedWorkflowAction(Q.ListActions(ledger.order, ledger.actions, r.businessId), provider, r);
  }

  /** The execution step by step; `reply` is what the client call gives back. */
  method ExecuteExternalAction(
      provider: Provider, r: Request, runLedger: InMemoryRunLedger, ledger: W.InMemoryWorkflowActionLedger?, now: int,
        reply: Reply, stored: bool)
    returns (result: Result<Success, ActionError>, called: bool)
    requires Sound(runLedger.runs) && (ledger != null ==> W.Indexed(ledger.State()))
    modifies runLedger
    ensures var e := Executing(old(runLedger.runs), if ledger == null then None else Some(old(ledger.State())),
            provider, r, now, reply, stored);
            result == e.result && called == e.called
              && runLedger.runs == AppendAll(old(runLedger.runs), r.runId, e.recorded)
    ensures Sound(runLedger.runs)
  {
    var record := FindRecord(ledger, provider, r);
    var verdict := Checked(runLedger.runs, record, provider, r);
    NothingAppended(runLedger.runs, r.runId);
    if verdict.Refused? { return Err(verdict.error), false; }
    var first := if verdict.Audited? then RefusalOutcome(provider, r, record, verdict.error, now)
      else AttemptOutcome(provider, r, record, now);
    var final := FinalOutcome(provider, r, record, reply, now);
    AppendedTwice(runLedger.runs, r.runId, first, final);
    var ok := AppendAuditOutcome(runLedger, r.runId, first);
    if !ok { return Err(RunClosed), false; }
    if verdict.Audited? { return Err(verdict.error), false; }
    if !stored { return Err(AppendLost), true; }
    ok := AppendAuditOutcome(runLedger, r.runId, final);
    if !reply.Answer? { return Err(ProviderFailed), true; }
    return Ok(Projection(provider, r, record, reply.response)), true;
  }

  lemma NothingAppended(runs: Runs, runId: string)
    ensures AppendAll(runs, runId, []) == runs
  {
    if runId in runs {
      assert runs[runId].outcomes + [] == runs[runId].outcomes;
      assert runs[runId].(outcomes := runs[runId].outcomes + []) == runs[runId];
    }
  }

  lemma AppendedTwice(runs: Runs, runId: string, a: Outcome, b: Outcome)
    ensures AppendAll(AppendAll(runs, runId, [a]), runId, [b]) == AppendAll(runs, runId, [a, b])
  {
    if runId in runs {
      assert runs[runId].outcomes + [a] + [b] == runs[runId].outcomes + [a, b];
    }
  }
}
