/** What an external action leaves in the audit of its run, told from the request, the run and the ledger:
    the first guard that fails decides, and what it recorded says so. */
module ActionAudit {
  import opened Basics
  import opened RunLedger
  import opened ExternalActions
  import W = WorkflowLedger
  import G = GuardedExecution
  import Text

  // ---- the guards

  /** Text of lower-case letters, digits and the given marks that does not begin with a mark. */
  predicate IsKeyText(s: string, marks: string) {
    && s != "" && (forall i :: 0 <= i < |s| ==> 'a' <= s[i] <= 'z' || '0' <= s[i] <= '9' || s[i] in marks)
    && s[0] !in marks
  }

  predicate Malformed(r: Request) {
    || Text.IsOnlySpace(r.businessId) || Text.IsOnlySpace(r.runId) || Text.IsOnlySpace(r.idempotencyKey)
    || !IsKeyText(r.toolkit, "_-") || !IsKeyText(r.actionKey, "_.-")
    || (r.operation != "read" && r.operation != "write")
  }

  /** An outcome of the run shows the key as executed: an audit by its own mark or success, anything else by
      its flag or success. */
  predicate KeyWasExecuted(run: RunRecord, key: string) {
    exists o :: o in run.outcomes &&
      match o.metadata
      case Audit(_, _, _, _, used, _, _, _, _, _, mark, _, _, _, _) =>
        used == key && (o.status == Succeeded || mark == Some(Executed))
      case OtherMetadata(used, executed) => used == Some(key) && (o.status == Succeeded || executed)
  }

  predicate IsCoreToolkit(toolkit: string) {
    || toolkit == "tiendanube" || toolkit == "nuvemshop" || toolkit == "mercadolibre" || toolkit == "mercado_libre"
    || toolkit == "whatsapp" || toolkit == "meta_whatsapp" || toolkit == "meta_cloud_api"
  }

  /** The record approves exactly this call: planned under its key for an external action of this provider,
      toolkit and action, approved, and not executed yet. */
  predicate Approves(record: W.Record, provider: Provider, r: Request) {
    && record.key == W.Key(r.businessId, r.idempotencyKey) && Some(record.ledgerId) == r.ledgerId
    && record.actionKey == "request_external_action"
    && record.approvalState == W.Approved && record.executionState == W.PendingExecution
    && "provider" in record.params && record.params["provider"] == W.TextParam(provider.name)
    && "toolkit" in record.params && record.params["toolkit"] == W.TextParam(r.toolkit)
    && "external_action_key" in record.params && record.params["external_action_key"] == W.TextParam(r.actionKey)
  }

  ghost predicate IsApproved(ledger: Option<W.Ledger>, provider: Provider, r: Request) {
    ledger.Some? && exists k :: k in ledger.value.actions && Approves(ledger.value.actions[k], provider, r)
  }

  /** The guards in their order; the first that fails names the error. */
  ghost function FirstFailing(runs: Runs, ledger: Option<W.Ledger>, provider: Provider, r: Request): Option<ActionError>
  {
    if Malformed(r) then Some(InvalidRequest)
    else if r.runId !in runs then Some(RunNotFound)
    else if runs[r.runId].businessId != r.businessId then Some(ScopeMismatch)
    else FirstFailingInRun(runs, ledger, provider, r)
  }

  /** The guards of a request in scope. */
  ghost function FirstFailingInRun(
      runs: Runs, ledger: Option<W.Ledger>, provider: Provider, r: Request): Option<ActionError>
    requires r.runId in runs
  {
    if KeyWasExecuted(runs[r.runId], r.idempotencyKey) then Some(Duplicate)
    else if IsCoreToolkit(r.toolkit) then Some(ToolkitReserved)
    else if (r.toolkit, r.actionKey) !in provider.allowed then Some(NotAllowed)
    else if r.operation == "write" && !IsApproved(ledger, provider, r) then Some(ApprovalRequired)
    else None
  }

  predicate LeavesNoRecord(error: ActionError) {
    error == InvalidRequest || error == RunNotFound || error == ScopeMismatch
  }

  // ---- the records

  /** What every audit of the call repeats from the request, with no mark of a guard. */
  predicate RepeatsRequest(o: Outcome, provider: Provider, r: Request, approved: bool, now: int) {
    && o.connectorId == "external-action:" + provider.name + ":" + r.toolkit + ":" + r.actionKey
    && o.startedAt == now && o.finishedAt == Some(now) && o.metadata.Audit?
    && o.metadata.provider == provider.name && o.metadata.toolkit == r.toolkit && o.metadata.actionKey == r.actionKey
    && o.metadata.operation == r.operation && o.metadata.idempotencyKey == r.idempotencyKey
    && o.metadata.actorRef == r.actorRef && o.metadata.ledgerId == r.ledgerId && o.metadata.payload == r.payload
    && o.metadata.approvalState
       == (if r.operation == "read" then "not_required" else if approved then "approved" else "pending_approval")
  }

  /** The words each guard leaves. */
  predicate SaysWhy(words: string, error: ActionError) {
    match error
    case Duplicate => words == "external action duplicate idempotency key"
    case ToolkitReserved => words == "external action toolkit is reserved for Orvo core connectors"
    case NotAllowed => words == "external action not allowed by Orvo allowlist"
    case ApprovalRequired => words == "external write action requires approved workflow action before execution"
    case _ => false
  }

  /** The mark each guard leaves, and no other. */
  predicate MarksGuard(m: Metadata, toolkit: string, error: ActionError) {
    && m.Audit? && m.mark == None && m.summary == None && m.responseRef == None
    && (m.duplicate <==> error == Duplicate) && (!m.allowed <==> error == ToolkitReserved || error == NotAllowed)
    && m.reservedToolkit == if error == ToolkitReserved then Some(toolkit) else None
  }

  /** The one outcome of a refusal: skipped, with the words and the mark of the guard. */
  predicate RecordsRefusal(o: Outcome, provider: Provider, r: Request, approved: bool, error: ActionError, now: int) {
    && RepeatsRequest(o, provider, r, approved, now) && o.status == Skipped
    && o.errorSummary.Some? && SaysWhy(o.errorSummary.value, error) && MarksGuard(o.metadata, r.toolkit, error)
  }

  predicate Unmarked(m: Metadata) { m.Audit? && !m.duplicate && m.allowed && m.reservedToolkit == None }

  predicate RecordsAttempt(o: Outcome, provider: Provider, r: Request, approved: bool, now: int) {
    && RepeatsRequest(o, provider, r, approved, now) && Unmarked(o.metadata) && o.status == Skipped
    && o.errorSummary == None && o.metadata.mark == Some(AttemptPlanned)
    && o.metadata.summary == None && o.metadata.responseRef == None
  }

  /** How the call ended; a response is kept as its keys and the id it names. */
  predicate RecordsEnd(o: Outcome, provider: Provider, r: Request, approved: bool, reply: Reply, now: int) {
    && RepeatsRequest(o, provider, r, approved, now) && Unmarked(o.metadata)
    && match reply
       case Answer(response) =>
         && o.status == Succeeded && o.errorSummary == None && o.metadata.mark == Some(Executed)
         && o.metadata.summary.Some? && o.metadata.summary.value.resultKeys == response.Keys
         && NamesResponse(o.metadata.summary.value.externalId, response)
         && o.metadata.responseRef
            == Some(provider.name + "://" + r.toolkit + "/" + r.actionKey + "/" + o.metadata.summary.value.externalId)
       case _ =>
         && o.status == Failed && o.errorSummary == Some("external provider failed") && o.metadata.mark == None
         && o.metadata.summary == None && o.metadata.responseRef == None
  }

  /** The id of a response: under `external_id`, else under `id`, an empty one counting as missing. */
  predicate NamesResponse(id: string, response: map<string, string>) {
    if "external_id" in response && response["external_id"] != "" then id == response["external_id"]
    else if "id" in response && response["id"] != "" then id == response["id"]
    else id == "unknown"
  }

  /** What a failing guard leaves; a closed run takes no record. */
  predicate LeavesRefusal(
      e: Execution, closed: bool, provider: Provider, r: Request, approved: bool, error: ActionError, now: int)
  {
    && !e.called
    && (if LeavesNoRecord(error) then e.recorded == [] && e.result == Err(error)
        else if closed then e.recorded == [] && e.result == Err(RunClosed)
        else |e.recorded| == 1 && e.result == Err(error)
             && RecordsRefusal(e.recorded[0], provider, r, approved, error, now))
  }

  /** What is left when no guard fails and the run is open. */
  predicate LeavesCall(
      e: Execution, provider: Provider, r: Request, approved: bool, now: int, reply: Reply, stored: bool)
  {
    && e.called && |e.recorded| == (if stored then 2 else 1)
    && RecordsAttempt(e.recorded[0], provider, r, approved, now)
    && (stored ==> RecordsEnd(e.recorded[1], provider, r, approved, reply, now))
    && (!stored ==> e.result == Err(AppendLost))
    && (stored && !reply.Answer? ==> e.result == Err(ProviderFailed))
    && (stored && reply.Answer? ==> e.result.Ok? && HandsOn(e.result.value, provider, r, approved, reply.response))
  }

  /** What an execution leaves, by the first failing guard and whether the run is still open. */
  ghost predicate LeavesAudit(
      e: Execution, runs: Runs, ledger: Option<W.Ledger>, provider: Provider, r: Request, now: int, reply: Reply,
      stored: bool)
  {
    var approved := IsApproved(ledger, provider, r);
    var closed := r.runId in runs && runs[r.runId].status != Running;
    match FirstFailing(runs, ledger, provider, r)
    case Some(error) => LeavesRefusal(e, closed, provider, r, approved, error, now)
    case None =>
      if closed then !e.called && e.recorded == [] && e.result == Err(RunClosed)
      else LeavesCall(e, provider, r, approved, now, reply, stored)
  }

  predicate HandsOn(s: Success, provider: Provider, r: Request, approved: bool, response: map<string, string>) {
    && s.provider == provider.name && s.toolkit == r.toolkit && s.actionKey == r.actionKey
    && s.operation == r.operation && s.idempotencyKey == r.idempotencyKey && s.response == response
    && s.approvalState
       == (if r.operation == "read" then "not_required" else if approved then "approved" else "pending_approval")
    && s.responseRef == provider.name + "://" + r.toolkit + "/" + r.actionKey + "/" + ExternalId(response)
    && NamesResponse(ExternalId(response), response)
  }

  // ---- the guards as the program checks them

  lemma KeyTexts(r: Request)
    ensures SafeToolkit(r.toolkit) <==> IsKeyText(r.toolkit, "_-")
    ensures SafeActionKey(r.actionKey) <==> IsKeyText(r.actionKey, "_.-")
  {
    ToolkitText(r.toolkit);
    ActionKeyText(r.actionKey);
  }

  lemma ToolkitText(s: string)
    ensures SafeToolkit(s) <==> IsKeyText(s, "_-")
  {
    if SafeToolkit(s) { forall i | 0 <= i < |s| ensures IsLowerOrDigit(s[i]) || s[i] in "_-" { assert s[i] in s; } }
  }

  lemma ActionKeyText(s: string)
    ensures SafeActionKey(s) <==> IsKeyText(s, "_.-")
  {
    if SafeActionKey(s) { forall i | 0 <= i < |s| ensures IsLowerOrDigit(s[i]) || s[i] in "_.-" { assert s[i] in s; } }
  }

  lemma KeyTextIsNotBlank(s: string, marks: string)
    requires IsKeyText(s, marks)
    ensures !Text.IsOnlySpace(s)
  {
    assert !Text.IsSpace(s[0]);
  }

  lemma MalformedIsInvalid(r: Request)
    ensures ValidRequest(r) <==> !Malformed(r)
  {
    Text.BlankIsOnlySpace(r.businessId);
    Text.BlankIsOnlySpace(r.runId);
    Text.BlankIsOnlySpace(r.idempotencyKey);
    Text.BlankIsOnlySpace(r.toolkit);
    Text.BlankIsOnlySpace(r.actionKey);
    KeyTexts(r);
    if IsKeyText(r.toolkit, "_-") { KeyTextIsNotBlank(r.toolkit, "_-"); }
    if IsKeyText(r.actionKey, "_.-") { KeyTextIsNotBlank(r.actionKey, "_.-"); }
  }

  lemma ExecutedAlike(run: RunRecord, key: string)
    ensures HasExecuted(run.outcomes, key) <==> KeyWasExecuted(run, key)
  {
  }

  lemma CoreToolkits(toolkit: string)
    ensures toolkit in RESERVED_TOOLKITS <==> IsCoreToolkit(toolkit)
  {
  }

  lemma ApprovedAlike(digest: W.Digest, history: seq<W.LedgerOp>, provider: Provider, r: Request)
    requires W.DigestsApart(digest, W.PlannedKeys(history))
    ensures ApprovedRecord(Some(W.Run(digest, history)), provider, r).Some?
       <==> IsApproved(Some(W.Run(digest, history)), provider, r)
  {
    var l := W.Run(digest, history);
    G.ApprovedIsFound(digest, history, provider, r);
    W.ReachableIsTraced(digest, history);
    forall k | k in l.actions ensures l.actions[k].key == k {
      W.ExplainedIsPlain(digest, history, k, l.actions[k], W.RequestOf(l, k));
    }
    SameApproval(l, provider, r);
  }

  lemma SameApproval(l: W.Ledger, provider: Provider, r: Request)
    requires forall k :: k in l.actions ==> l.actions[k].key == k
    ensures G.ApprovedIn(l, provider, r) <==> IsApproved(Some(l), provider, r)
  {
    if G.ApprovedIn(l, provider, r) {
      var k :| k in l.actions && k.businessId == r.businessId && Some(l.actions[k].ledgerId) == r.ledgerId
        && Authorises(l.actions[k], provider, r);
      assert Approves(l.actions[k], provider, r);
    }
    if IsApproved(Some(l), provider, r) {
      var k :| k in l.actions && Approves(l.actions[k], provider, r);
      assert Authorises(l.actions[k], provider, r);
    }
  }

  function VerdictOf(failing: Option<ActionError>): Verdict {
    match failing
    case None => Proceed
    case Some(error) => if LeavesNoRecord(error) then Refused(error) else Audited(error)
  }

  /** The verdict is that of the first failing guard. */
  lemma VerdictIsFirstFailing(
      runs: Runs, ledger: Option<W.Ledger>, record: Option<W.Record>, provider: Provider, r: Request)
    requires record.Some? <==> IsApproved(ledger, provider, r)
    ensures Checked(runs, record, provider, r) == VerdictOf(FirstFailing(runs, ledger, provider, r))
  {
    MalformedIsInvalid(r);
    if ValidRequest(r) && r.runId in runs {
      G.ToolkitIsNormal(r.toolkit);
      CoreToolkits(r.toolkit);
      ExecutedAlike(runs[r.runId], r.idempotencyKey);
      VerdictInRun(runs, ledger, record, provider, r);
    }
  }

  lemma VerdictInRun(
      runs: Runs, ledger: Option<W.Ledger>, record: Option<W.Record>, provider: Provider, r: Request)
    requires (record.Some? <==> IsApproved(ledger, provider, r)) && r.runId in runs
    requires NormalToolkit(r.toolkit) == r.toolkit
    requires r.toolkit in RESERVED_TOOLKITS <==> IsCoreToolkit(r.toolkit)
    requires HasExecuted(runs[r.runId].outcomes, r.idempotencyKey)
        <==> KeyWasExecuted(runs[r.runId], r.idempotencyKey)
    ensures CheckedInRun(runs, record, provider, r) == VerdictOf(FirstFailingInRun(runs, ledger, provider, r))
  {
  }

  lemma RefusalRepeats(
      provider: Provider, r: Request, record: Option<W.Record>, error: ActionError, words: string, now: int)
    ensures RepeatsRequest(
      AuditOutcome(provider, r, Skipped, now, Some(words), RefusalAudit(provider, r, record, error)),
      provider, r, record.Some?, now)
  {
  }

  lemma RefusalMarks(provider: Provider, r: Request, record: Option<W.Record>, error: ActionError)
    requires NormalToolkit(r.toolkit) == r.toolkit
    ensures MarksGuard(RefusalAudit(provider, r, record, error), r.toolkit, error)
  {
  }

  lemma RefusalWords(error: ActionError)
    requires error == Duplicate || error == ToolkitReserved || error == NotAllowed || error == ApprovalRequired
    ensures SaysWhy(RefusalSummary(error), error)
  {
    match error
    case Duplicate => DuplicateWords();
    case ToolkitReserved => ReservedWords();
    case NotAllowed => DeniedWords();
    case ApprovalRequired => ApprovalWords();
    case _ =>
  }

  lemma DuplicateWords()
    ensures SaysWhy(RefusalSummary(Duplicate), Duplicate)
  {
  }

  lemma ReservedWords()
    ensures SaysWhy(RefusalSummary(ToolkitReserved), ToolkitReserved)
  {
  }

  lemma DeniedWords()
    ensures SaysWhy(RefusalSummary(NotAllowed), NotAllowed)
  {
  }

  lemma ApprovalWords()
    ensures SaysWhy(RefusalSummary(ApprovalRequired), ApprovalRequired)
  {
  }

  lemma RefusalIs(provider: Provider, r: Request, record: Option<W.Record>, error: ActionError, words: string, now: int)
    requires words == RefusalSummary(error)
    ensures RefusalOutcome(provider, r, record, error, now)
            == AuditOutcome(provider, r, Skipped, now, Some(words), RefusalAudit(provider, r, record, error))
  {
  }

  lemma RefusalIsRecorded(
      provider: Provider, r: Request, record: Option<W.Record>, error: ActionError, words: string, m: Metadata,
      now: int)
    requires SaysWhy(words, error) && MarksGuard(m, r.toolkit, error)
    requires RepeatsRequest(AuditOutcome(provider, r, Skipped, now, Some(words), m), provider, r, record.Some?, now)
    ensures RecordsRefusal(AuditOutcome(provider, r, Skipped, now, Some(words), m), provider, r, record.Some?, error,
                           now)
  {
  }

  lemma RefusalRecorded(provider: Provider, r: Request, record: Option<W.Record>, error: ActionError, now: int)
    requires error == Duplicate || error == ToolkitReserved || error == NotAllowed || error == ApprovalRequired
    requires NormalToolkit(r.toolkit) == r.toolkit
    ensures RecordsRefusal(RefusalOutcome(provider, r, record, error, now), provider, r, record.Some?, error, now)
  {
    var words, m := RefusalSummary(error), RefusalAudit(provider, r, record, error);
    RefusalRepeats(provider, r, record, error, words, now);
    RefusalMarks(provider, r, record, error);
    RefusalWords(error);
    RefusalIs(provider, r, record, error, words, now);
    RefusalIsRecorded(provider, r, record, error, words, m, now);
  }

  lemma CallIsRecorded(provider: Provider, r: Request, record: Option<W.Record>, reply: Reply, now: int)
    ensures RecordsAttempt(AttemptOutcome(provider, r, record, now), provider, r, record.Some?, now)
    ensures RecordsEnd(FinalOutcome(provider, r, record, reply, now), provider, r, record.Some?, reply, now)
  {
  }

  lemma ReplyIsHandedOn(provider: Provider, r: Request, record: Option<W.Record>, response: map<string, string>)
    ensures HandsOn(Projection(provider, r, record, response), provider, r, record.Some?, response)
  {
  }

  /** Over every reachable ledger, an execution answers with the error of the first failing guard. The first three
      guards leave no record. The other four leave exactly one in an open run, skipped, under the request's key,
      with the guard's words and its mark; in a closed run nothing is recorded and nothing is called. Without
      a failing guard the attempt is recorded, the provider is called, and how the call ended is recorded when the
      record reaches the store. */
  lemma ExecutionLeavesAudit(
      digest: W.Digest, history: seq<W.LedgerOp>, runs: Runs, withLedger: bool, provider: Provider, r: Request,
      now: int, reply: Reply, stored: bool)
    requires W.DigestsApart(digest, W.PlannedKeys(history))
    ensures var ledger := if withLedger then Some(W.Run(digest, history)) else None;
            LeavesAudit(Executing(runs, ledger, provider, r, now, reply, stored), runs, ledger, provider, r, now, reply,
                        stored)
  {
    var ledger := if withLedger then Some(W.Run(digest, history)) else None;
    var record := ApprovedRecord(ledger, provider, r);
    ApprovedAlike(digest, history, provider, r);
    VerdictIsFirstFailing(runs, ledger, record, provider, r);
    ConclusionLeavesAudit(runs, ledger, record, provider, r, now, reply, stored);
  }

  lemma ConclusionLeavesAudit(
      runs: Runs, ledger: Option<W.Ledger>, record: Option<W.Record>, provider: Provider, r: Request, now: int,
      reply: Reply, stored: bool)
    requires record.Some? <==> IsApproved(ledger, provider, r)
    ensures LeavesAudit(
      Concluding(VerdictOf(FirstFailing(runs, ledger, provider, r)), IsClosed(runs, r.runId), provider, r, record, now,
                 reply, stored),
      runs, ledger, provider, r, now, reply, stored)
  {
    match FirstFailing(runs, ledger, provider, r)
    case None => CallLeaves(provider, r, record, now, reply, stored);
    case Some(error) =>
      if !LeavesNoRecord(error) {
        WellFormedToolkit(r);
        RefusalLeaves(IsClosed(runs, r.runId), provider, r, record, error, now, reply, stored);
      }
  }

  lemma WellFormedToolkit(r: Request)
    requires !Malformed(r)
    ensures NormalToolkit(r.toolkit) == r.toolkit
  {
    MalformedIsInvalid(r);
    G.ToolkitIsNormal(r.toolkit);
  }

  lemma CallLeaves(
      provider: Provider, r: Request, record: Option<W.Record>, now: int, reply: Reply, stored: bool)
    ensures LeavesCall(Concluding(Proceed, false, provider, r, record, now, reply, stored), provider, r, record.Some?,
                       now, reply, stored)
  {
    CallIsRecorded(provider, r, record, reply, now);
    if reply.Answer? { ReplyIsHandedOn(provider, r, record, reply.response); }
  }

  lemma RefusalLeaves(
      closed: bool, provider: Provider, r: Request, record: Option<W.Record>, error: ActionError, now: int,
      reply: Reply, stored: bool)
    requires error == Duplicate || error == ToolkitReserved || error == NotAllowed || error == ApprovalRequired
    requires NormalToolkit(r.toolkit) == r.toolkit
    ensures LeavesRefusal(Concluding(Audited(error), closed, provider, r, record, now, reply, stored), closed, provider,
                          r, record.Some?, error, now)
  {
    var o := RefusalOutcome(provider, r, record, error, now);
    RefusalRecorded(provider, r, record, error, now);
    AuditedConcludes(closed, provider, r, record, error, now, reply, stored);
    SkippedLeaves(closed, provider, r, record.Some?, error, now, o,
      Concluding(Audited(error), closed, provider, r, record, now, reply, stored));
  }

  lemma SkippedLeaves(
      closed: bool, provider: Provider, r: Request, approved: bool, error: ActionError, now: int, o: Outcome,
      e: Execution)
    requires RecordsRefusal(o, provider, r, approved, error, now) && !LeavesNoRecord(error)
    requires e == OneSkipped(closed, o, error)
    ensures LeavesRefusal(e, closed, provider, r, approved, error, now)
  {
    OneRefusal(closed, provider, r, approved, error, now, o);
  }

  function OneSkipped(closed: bool, o: Outcome, error: ActionError): Execution {
    if closed then Execution([], false, Err(RunClosed)) else Execution([o], false, Err(error))
  }

  lemma AuditedConcludes(
      closed: bool, provider: Provider, r: Request, record: Option<W.Record>, error: ActionError, now: int,
      reply: Reply, stored: bool)
    ensures Concluding(Audited(error), closed, provider, r, record, now, reply, stored)
            == OneSkipped(closed, RefusalOutcome(provider, r, record, error, now), error)
  {
  }

  lemma OneRefusal(
      closed: bool, provider: Provider, r: Request, approved: bool, error: ActionError, now: int, o: Outcome)
    requires RecordsRefusal(o, provider, r, approved, error, now) && !LeavesNoRecord(error)
    ensures LeavesRefusal(OneSkipped(closed, o, error), closed, provider, r, approved, error, now)
  {
  }
}
