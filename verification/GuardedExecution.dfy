/** Whole runs of the approval protocol: planning and deciding in the workflow ledger, opening and
    closing runs, recording connector outcomes, and executing external actions, in any order. The log
    keeps what happened when. */
module GuardedExecution {
  import opened Basics
  import opened RunLedger
  import opened ExternalActions
  import W = WorkflowLedger
  import Text

  datatype Event =
    | Recorded(runId: string, outcome: Outcome)
    | Called(provider: Provider, request: Request)
    | Unrecorded(runId: string, key: string)
    | Closed(runId: string)
    | LedgerChanged(op: W.LedgerOp)

  datatype Op =
    | LedgerStep(op: W.LedgerOp)
    | OpenRun(runId: string, businessId: string, at: int)
    | ChangeRun(runId: string, change: Change)
    | OtherConnector(runId: string, connectorId: string, status: ConnectorStatus, at: int, key: Option<string>,
      executed: bool)
    | Execute(provider: Provider, request: Request, withLedger: bool, now: int, reply: Reply, stored: bool)

  datatype System = System(runs: Runs, ledger: W.Ledger, log: seq<Event>)

  const START := System(map[], W.EMPTY, [])

  /** The events of one execution, in order: the call comes after the first record, and how it ended is
      recorded or lost. */
  function EventsOf(provider: Provider, r: Request, e: Execution): seq<Event> {
    if e.recorded == [] then []
    else
      [Recorded(r.runId, e.recorded[0])]
      + (if e.called then [Called(provider, r)] else [])
      + seq(|e.recorded| - 1, i requires 0 <= i < |e.recorded| - 1 => Recorded(r.runId, e.recorded[i + 1]))
      + (if e.called && |e.recorded| == 1 then [Unrecorded(r.runId, r.idempotencyKey)] else [])
  }

  function ExecutionIn(s: System, op: Op): Execution
    requires op.Execute? && W.Indexed(s.ledger)
  {
    Executing(s.runs, if op.withLedger then Some(s.ledger) else None, op.provider, op.request, op.now, op.reply,
      op.stored)
  }

  function Step(digest: W.Digest, s: System, op: Op): (r: System)
    requires W.Indexed(s.ledger)
    ensures W.Indexed(r.ledger)
  {
    match op
    case LedgerStep(l) => System(s.runs, W.After(digest, s.ledger, l), s.log + [LedgerChanged(l)])
    case OpenRun(id, business, at) => s.(runs := Apply(s.runs, Create(id, business, at)))
    case ChangeRun(id, change) =>
      var runs := Apply(s.runs, Update(id, change));
      s.(runs := runs, log := s.log + (if id in runs && IsTerminal(runs[id].status) then [Closed(id)] else []))
    case OtherConnector(id, connectorId, status, at, key, executed) =>
      var outcome := Outcome(connectorId, status, at, Some(at), None, OtherMetadata(key, executed));
      var result := Appended(s.runs, id, outcome);
      s.(runs := Stored(s.runs, result), log := s.log + (if result.Ok? then [Recorded(id, outcome)] else []))
    case Execute(provider, request, _, _, _, _) =>
      var e := ExecutionIn(s, op);
      s.(runs := AppendAll(s.runs, request.runId, e.recorded), log := s.log + EventsOf(provider, request, e))
  }

  function RunSystem(digest: W.Digest, ops: seq<Op>): (s: System)
    ensures W.Indexed(s.ledger)
  {
    if ops == [] then START else Step(digest, RunSystem(digest, ops[..|ops| - 1]), ops[|ops| - 1])
  }

  // ---- what the log says

  function LedgerOps(log: seq<Event>): seq<W.LedgerOp> {
    if log == [] then []
    else
      var front, e := log[..|log| - 1], log[|log| - 1];
      LedgerOps(front) + (if e.LedgerChanged? then [e.op] else [])
  }

  /** The log has an outcome that counts as an execution of the key in the run. */
  ghost predicate ExecutedIn(log: seq<Event>, runId: string, key: string) {
    exists e :: e in log && e.Recorded? && e.runId == runId && Executes(e.outcome, key)
  }

  predicate IsAttempt(provider: Provider, r: Request, o: Outcome) {
    && o.status == Skipped && o.metadata.Audit? && o.metadata.mark == Some(AttemptPlanned)
    && o.metadata.provider == provider.name && o.metadata.toolkit == r.toolkit && o.metadata.actionKey == r.actionKey
    && o.metadata.operation == r.operation && o.metadata.idempotencyKey == r.idempotencyKey
       && o.metadata.ledgerId == r.ledgerId
    && o.metadata.payload == r.payload
  }

  ghost predicate ApprovedIn(ledger: W.Ledger, provider: Provider, r: Request) {
    exists k :: k in ledger.actions && k.businessId == r.businessId && Some(ledger.actions[k].ledgerId) == r.ledgerId
                && Authorises(ledger.actions[k], provider, r)
  }

  /** The request is well formed, on the allowlist and not for a reserved toolkit. */
  predicate Cleared(provider: Provider, r: Request) {
    ValidRequest(r) && (r.toolkit, r.actionKey) in provider.allowed && r.toolkit !in RESERVED_TOOLKITS
  }

  /** The call at `j` is guarded: its own attempt was recorded just before, the key has not been executed
      in the run, the run was not closed, and a write rests on an approved action. */
  ghost predicate GuardedCall(digest: W.Digest, log: seq<Event>, j: nat)
    requires j < |log| && log[j].Called?
  {
    var provider, r := log[j].provider, log[j].request;
    && j > 0 && log[j - 1].Recorded? && log[j - 1].runId == r.runId && IsAttempt(provider, r, log[j - 1].outcome)
    && !ExecutedIn(log[..j], r.runId, r.idempotencyKey)
    && Closed(r.runId) !in log[..j] && Cleared(provider, r)
    && (r.operation == "write" ==> ApprovedIn(W.Run(digest, LedgerOps(log[..j])), provider, r))
  }

  /** A recorded success of an external action ends the call just before it. */
  ghost predicate BackedSuccess(log: seq<Event>, i: nat)
    requires i < |log| && log[i].Recorded?
  {
    log[i].outcome.metadata.Audit? && MarksExecuted(log[i].outcome) ==>
      && i > 0 && log[i - 1].Called? && log[i - 1].request.runId == log[i].runId
      && log[i - 1].request.idempotencyKey == log[i].outcome.metadata.idempotencyKey
  }

  ghost predicate Guarded(digest: W.Digest, log: seq<Event>) {
    && (forall j :: 0 <= j < |log| && log[j].Called? ==> GuardedCall(digest, log, j))
    && (forall i :: 0 <= i < |log| && log[i].Recorded? ==> BackedSuccess(log, i))
  }

  /** The stores hold what the log says. */
  ghost predicate Faithful(digest: W.Digest, s: System) {
    && Sound(s.runs)
    && s.ledger == W.Run(digest, LedgerOps(s.log))
    && (forall e :: e in s.log && e.Recorded? ==> e.runId in s.runs && e.outcome in s.runs[e.runId].outcomes)
    && (forall e :: e in s.log && e.Closed? ==> e.runId in s.runs && IsTerminal(s.runs[e.runId].status))
  }

  // ---- steps that make no call

  lemma LedgerOpsSnoc(log: seq<Event>, e: Event)
    ensures LedgerOps(log + [e]) == if e.LedgerChanged? then LedgerOps(log) + [e.op] else LedgerOps(log)
  {
    assert (log + [e])[..|log|] == log;
  }

  lemma {:induction false} LedgerOpsUnchanged(log: seq<Event>, more: seq<Event>)
    requires forall e :: e in more ==> !e.LedgerChanged?
    ensures LedgerOps(log + more) == LedgerOps(log)
  {
    if more == [] {
      assert log + more == log;
    } else {
      var front, e := more[..|more| - 1], more[|more| - 1];
      assert more == front + [e] && e in more;
      assert forall x :: x in front ==> x in more;
      LedgerOpsUnchanged(log, front);
      assert log + more == (log + front) + [e];
      LedgerOpsSnoc(log + front, e);
    }
  }

  /** Nothing that follows a guarded log changes what was guarded in it. */
  lemma GuardedPrefix(digest: W.Digest, log: seq<Event>, more: seq<Event>, j: nat)
    requires j < |log|
    ensures (log + more)[..j] == log[..j]
    ensures log[j].Called? ==> (GuardedCall(digest, log + more, j) <==> GuardedCall(digest, log, j))
    ensures log[j].Recorded? ==> (BackedSuccess(log + more, j) <==> BackedSuccess(log, j))
  {
    assert (log + more)[..j] == log[..j];
    assert (log + more)[j] == log[j];
    if j > 0 { assert (log + more)[j - 1] == log[j - 1]; }
  }

  /** An event that is no call and no audited success keeps the log guarded. */
  predicate IsQuiet(e: Event) {
    !e.Called? && (e.Recorded? && e.outcome.metadata.Audit? ==> !MarksExecuted(e.outcome))
  }

  lemma QuietKeepsGuarded(digest: W.Digest, log: seq<Event>, e: Event)
    requires Guarded(digest, log) && IsQuiet(e)
    ensures Guarded(digest, log + [e])
  {
    var longer := log + [e];
    forall j | 0 <= j < |longer| && longer[j].Called?
      ensures GuardedCall(digest, longer, j)
    {
      GuardedPrefix(digest, log, [e], j);
    }
    forall i | 0 <= i < |longer| && longer[i].Recorded? ensures BackedSuccess(longer, i) {
      if i < |log| { GuardedPrefix(digest, log, [e], i); }
    }
  }

  lemma CallKeepsGuarded(digest: W.Digest, log: seq<Event>, provider: Provider, r: Request)
    requires Guarded(digest, log) && GuardedCall(digest, log + [Called(provider, r)], |log|)
    ensures Guarded(digest, log + [Called(provider, r)])
  {
    var more := [Called(provider, r)];
    var longer := log + more;
    forall j | 0 <= j < |longer| && longer[j].Called? ensures GuardedCall(digest, longer, j) {
      if j < |log| { GuardedPrefix(digest, log, more, j); }
    }
    forall i | 0 <= i < |longer| && longer[i].Recorded?
      ensures BackedSuccess(longer, i)
    {
      GuardedPrefix(digest, log, more, i);
    }
  }

  lemma EndKeepsGuarded(digest: W.Digest, log: seq<Event>, e: Event)
    requires Guarded(digest, log) && e.Recorded? && BackedSuccess(log + [e], |log|)
    ensures Guarded(digest, log + [e])
  {
    var longer := log + [e];
    forall j | 0 <= j < |longer| && longer[j].Called?
      ensures GuardedCall(digest, longer, j)
    {
      GuardedPrefix(digest, log, [e], j);
    }
    forall i | 0 <= i < |longer| && longer[i].Recorded? ensures BackedSuccess(longer, i) {
      if i < |log| { GuardedPrefix(digest, log, [e], i); }
    }
  }

  // ---- an execution

  lemma ToolkitIsNormal(s: string)
    requires SafeToolkit(s)
    ensures NormalToolkit(s) == s
  {
    forall c | c in s
      ensures LowerChar(c) == c && !Text.IsSpace(c)
    {
      assert IsLowerOrDigit(c) || c == '_' || c == '-';
    }
    forall i | 0 <= i < |s| ensures Map(s, LowerChar)[i] == s[i] { assert s[i] in s; }
    assert Map(s, LowerChar) == s;
    assert s[|s| - 1] in s && s[0] in s;
    Text.StripTrimmed(s);
  }

  lemma ApprovedRecordIsApproved(ledger: W.Ledger, provider: Provider, r: Request)
    requires W.Indexed(ledger) && ApprovedRecord(Some(ledger), provider, r).Some?
    ensures ApprovedIn(ledger, provider, r)
  {
    var record := ApprovedRecord(Some(ledger), provider, r).value;
    var k :| k in ledger.order && k.businessId == r.businessId && ledger.actions[k] == record;
    assert Some(ledger.actions[k].ledgerId) == r.ledgerId;
  }

  /** What an execution promises: nothing is recorded in a missing or closed run; a call is made only
      after its attempt, on an unexecuted key, within the allowlist and, for a write, on an approved
      action; only the record after a call can count as an execution. */
  ghost predicate Promised(runs: Runs, ledger: W.Ledger, provider: Provider, r: Request, e: Execution) {
    && |e.recorded| <= 2 && (e.called ==> e.recorded != []) && (|e.recorded| == 2 ==> e.called)
    && (forall o :: o in e.recorded ==> o.metadata.Audit? && o.metadata.idempotencyKey == r.idempotencyKey)
    && (e.recorded != [] ==> r.runId in runs && !IsTerminal(runs[r.runId].status) && !MarksExecuted(e.recorded[0]))
    && (e.called ==> Permitted(runs, ledger, provider, r) && IsAttempt(provider, r, e.recorded[0]))
    && (|e.recorded| == 2 ==> IsEnd(e.recorded[1]))
  }

  /** The record of how a call ended: a success marks the key executed and a failure does not. */
  predicate IsEnd(o: Outcome) { o.status != Skipped && (MarksExecuted(o) <==> o.status == Succeeded) }

  ghost predicate Permitted(runs: Runs, ledger: W.Ledger, provider: Provider, r: Request) {
    && r.runId in runs && !HasExecuted(runs[r.runId].outcomes, r.idempotencyKey)
    && Cleared(provider, r)
    && (r.operation == "write" ==> ApprovedIn(ledger, provider, r))
  }

  lemma ProceedIsPermitted(runs: Runs, ledger: W.Ledger, withLedger: bool, provider: Provider, r: Request)
    requires W.Indexed(ledger)
    requires Checked(runs, ApprovedRecord(if withLedger then Some(ledger) else None, provider, r), provider, r).Proceed?
    ensures Permitted(runs, ledger, provider, r)
  {
    ToolkitIsNormal(r.toolkit);
    if withLedger && r.operation == "write" { ApprovedRecordIsApproved(ledger, provider, r); }
  }

  lemma RefusalMarksNothing(provider: Provider, r: Request, record: Option<W.Record>, error: ActionError)
    ensures var m := RefusalAudit(provider, r, record, error);
            m.Audit? && m.idempotencyKey == r.idempotencyKey && m.mark == None
  {
  }

  lemma AuditedIsPromised(
      runs: Runs, ledger: W.Ledger, record: Option<W.Record>, provider: Provider, r: Request, error: ActionError,
      now: int)
    requires r.runId in runs && !IsTerminal(runs[r.runId].status)
    ensures Promised(runs, ledger, provider, r,
            Execution([RefusalOutcome(provider, r, record, error, now)], false, Err(error)))
  {
    RefusalIsQuiet(provider, r, record, error, now);
    OneQuietOutcome(runs, ledger, provider, r, RefusalOutcome(provider, r, record, error, now), Err(error));
  }

  lemma RefusalIsSkipped(provider: Provider, r: Request, record: Option<W.Record>, error: ActionError, now: int)
    ensures var o := RefusalOutcome(provider, r, record, error, now);
            o.status == Skipped && o.metadata == RefusalAudit(provider, r, record, error)
  {
  }

  lemma RefusalIsQuiet(provider: Provider, r: Request, record: Option<W.Record>, error: ActionError, now: int)
    ensures var o := RefusalOutcome(provider, r, record, error, now);
            o.metadata.Audit? && o.metadata.idempotencyKey == r.idempotencyKey && !MarksExecuted(o)
  {
    RefusalMarksNothing(provider, r, record, error);
    RefusalIsSkipped(provider, r, record, error, now);
  }

  lemma OneQuietOutcome(
      runs: Runs, ledger: W.Ledger, provider: Provider, r: Request, o: Outcome, result: Result<Success, ActionError>)
    requires r.runId in runs && !IsTerminal(runs[r.runId].status)
    requires o.metadata.Audit? && o.metadata.idempotencyKey == r.idempotencyKey && !MarksExecuted(o)
    ensures Promised(runs, ledger, provider, r, Execution([o], false, result))
  {
  }

  lemma ProceedingIsPromised(
      runs: Runs, ledger: W.Ledger, record: Option<W.Record>, provider: Provider, r: Request, now: int, reply: Reply,
        result: Result<Success, ActionError>)
    requires Permitted(runs, ledger, provider, r) && !IsTerminal(runs[r.runId].status)
    ensures var attempt, final := AttemptOutcome(provider, r, record, now),
            FinalOutcome(provider, r, record, reply, now);
            && Promised(runs, ledger, provider, r, Execution([attempt], true, result))
            && Promised(runs, ledger, provider, r, Execution([attempt, final], true, result))
  {
  }

  lemma CheckedNeedsRun(runs: Runs, record: Option<W.Record>, provider: Provider, r: Request)
    ensures !Checked(runs, record, provider, r).Refused? ==> r.runId in runs
  {
  }

  lemma ExecutionIsPromised(
      runs: Runs, ledger: W.Ledger, withLedger: bool, provider: Provider, r: Request, now: int, reply: Reply,
      stored: bool)
    requires W.Indexed(ledger)
    ensures Promised(runs, ledger, provider, r,
            Executing(runs, if withLedger then Some(ledger) else None, provider, r, now, reply, stored))
  {
    var record := ApprovedRecord(if withLedger then Some(ledger) else None, provider, r);
    var e := Executing(runs, if withLedger then Some(ledger) else None, provider, r, now, reply, stored);
    CheckedNeedsRun(runs, record, provider, r);
    match Checked(runs, record, provider, r)
    case Refused(_) =>
    case Audited(error) =>
      if !IsTerminal(runs[r.runId].status) { AuditedIsPromised(runs, ledger, record, provider, r, error, now); }
    case Proceed =>
      ProceedIsPermitted(runs, ledger, withLedger, provider, r);
      if !IsTerminal(runs[r.runId].status) {
        ProceedingIsPromised(runs, ledger, record, provider, r, now, reply, e.result);
      }
  }

  lemma NotExecutedYet(digest: W.Digest, s: System, runId: string, key: string, attempt: Outcome)
    requires Faithful(digest, s) && runId in s.runs && !HasExecuted(s.runs[runId].outcomes, key)
             && !MarksExecuted(attempt)
    ensures !ExecutedIn(s.log + [Recorded(runId, attempt)], runId, key)
  {
  }

  lemma CallIsGuarded(digest: W.Digest, s: System, provider: Provider, r: Request, attempt: Outcome)
    requires Faithful(digest, s) && W.Indexed(s.ledger) && Guarded(digest, s.log)
    requires Permitted(s.runs, s.ledger, provider, r) && !IsTerminal(s.runs[r.runId].status)
    requires IsAttempt(provider, r, attempt) && !MarksExecuted(attempt)
    ensures Guarded(digest, s.log + [Recorded(r.runId, attempt)] + [Called(provider, r)])
  {
    NotExecutedYet(digest, s, r.runId, r.idempotencyKey, attempt);
    AttemptThenCall(digest, s.log, provider, r, attempt);
  }

  lemma AttemptThenCall(digest: W.Digest, log: seq<Event>, provider: Provider, r: Request, attempt: Outcome)
    requires Guarded(digest, log) && IsAttempt(provider, r, attempt) && !MarksExecuted(attempt) && Cleared(provider, r)
    requires !ExecutedIn(log + [Recorded(r.runId, attempt)], r.runId, r.idempotencyKey) && Closed(r.runId) !in log
    requires r.operation == "write" ==> ApprovedIn(W.Run(digest, LedgerOps(log)), provider, r)
    ensures Guarded(digest, log + [Recorded(r.runId, attempt)] + [Called(provider, r)])
  {
    var attempted := log + [Recorded(r.runId, attempt)];
    QuietKeepsGuarded(digest, log, Recorded(r.runId, attempt));
    LedgerOpsSnoc(log, Recorded(r.runId, attempt));
    NowGuarded(digest, attempted, provider, r);
    CallKeepsGuarded(digest, attempted, provider, r);
  }

  lemma NowGuarded(digest: W.Digest, log: seq<Event>, provider: Provider, r: Request)
    requires log != [] && log[|log| - 1].Recorded? && log[|log| - 1].runId == r.runId
             && IsAttempt(provider, r, log[|log| - 1].outcome)
    requires !ExecutedIn(log, r.runId, r.idempotencyKey) && Closed(r.runId) !in log && Cleared(provider, r)
    requires r.operation == "write" ==> ApprovedIn(W.Run(digest, LedgerOps(log)), provider, r)
    ensures GuardedCall(digest, log + [Called(provider, r)], |log|)
  {
    assert (log + [Called(provider, r)])[..|log|] == log;
  }

  lemma FinalIsBacked(log: seq<Event>, provider: Provider, r: Request, final: Outcome)
    requires log != [] && log[|log| - 1] == Called(provider, r)
    requires final.metadata.Audit? && final.metadata.idempotencyKey == r.idempotencyKey
    ensures BackedSuccess(log + [Recorded(r.runId, final)], |log|)
  {
  }

  /** The shapes of an execution's events. */
  lemma EventShapes(provider: Provider, r: Request, e: Execution)
    requires |e.recorded| <= 2 && (e.called ==> e.recorded != []) && (|e.recorded| == 2 ==> e.called)
    ensures e.recorded == [] ==> EventsOf(provider, r, e) == []
    ensures |e.recorded| == 1 && !e.called ==> EventsOf(provider, r, e) == [Recorded(r.runId, e.recorded[0])]
    ensures |e.recorded| == 1 && e.called ==>
              EventsOf(provider, r, e)
              == [Recorded(r.runId, e.recorded[0])] + [Called(provider, r)] + [Unrecorded(r.runId, r.idempotencyKey)]
    ensures |e.recorded| == 2 ==>
              EventsOf(provider, r, e)
                == [Recorded(r.runId, e.recorded[0])] + [Called(provider, r)] + [Recorded(r.runId, e.recorded[1])]
  {
  }

  lemma ExecutionKeepsGuarded(digest: W.Digest, s: System, provider: Provider, r: Request, e: Execution)
    requires Faithful(digest, s) && W.Indexed(s.ledger) && Guarded(digest, s.log)
             && Promised(s.runs, s.ledger, provider, r, e)
    ensures Guarded(digest, s.log + EventsOf(provider, r, e))
  {
    EventShapes(provider, r, e);
    if e.recorded == [] {
      assert s.log + [] == s.log;
    } else if !e.called {
      QuietKeepsGuarded(digest, s.log, Recorded(r.runId, e.recorded[0]));
    } else {
      var first, call := Recorded(r.runId, e.recorded[0]), Called(provider, r);
      CallIsGuarded(digest, s, provider, r, e.recorded[0]);
      if |e.recorded| == 2 {
        CallAndEnd(digest, s.log, first, provider, r, e.recorded[1]);
      } else {
        var lost := Unrecorded(r.runId, r.idempotencyKey);
        QuietKeepsGuarded(digest, s.log + [first] + [call], lost);
        assert s.log + ([first] + [call] + [lost]) == s.log + [first] + [call] + [lost];
      }
    }
  }

  lemma CallAndEnd(digest: W.Digest, log: seq<Event>, first: Event, provider: Provider, r: Request, final: Outcome)
    requires Guarded(digest, log + [first] + [Called(provider, r)])
    requires final.metadata.Audit? && final.metadata.idempotencyKey == r.idempotencyKey
    ensures Guarded(digest, log + ([first] + [Called(provider, r)] + [Recorded(r.runId, final)]))
  {
    var called, last := log + [first] + [Called(provider, r)], Recorded(r.runId, final);
    FinalIsBacked(called, provider, r, final);
    EndKeepsGuarded(digest, called, last);
    assert log + ([first] + [Called(provider, r)] + [last]) == called + [last];
  }

  lemma EventsAreOfTheRun(provider: Provider, r: Request, e: Execution)
    requires |e.recorded| <= 2 && (e.called ==> e.recorded != []) && (|e.recorded| == 2 ==> e.called)
    ensures forall x :: x in EventsOf(provider, r, e) ==>
              || x == Called(provider, r) || x == Unrecorded(r.runId, r.idempotencyKey)
              || (x.Recorded? && x.runId == r.runId && x.outcome in e.recorded)
  {
    EventShapes(provider, r, e);
  }

  /** Recording the outcomes in the run and the events in the log keeps the two in agreement. */
  lemma ExecutionKeepsFaithful(digest: W.Digest, s: System, provider: Provider, r: Request, e: Execution)
    requires Faithful(digest, s) && Promised(s.runs, s.ledger, provider, r, e)
    ensures Faithful(digest, System(AppendAll(s.runs, r.runId, e.recorded), s.ledger, s.log + EventsOf(provider, r, e)))
  {
    EventsAreOfTheRun(provider, r, e);
    AppendedStaysFaithful(digest, s, r, e.recorded, EventsOf(provider, r, e));
  }

  lemma AppendedStaysFaithful(digest: W.Digest, s: System, r: Request, outcomes: seq<Outcome>, more: seq<Event>)
    requires Faithful(digest, s) && (outcomes != [] ==> r.runId in s.runs)
    requires forall x :: x in more ==> !x.LedgerChanged? && !x.Closed?
    requires forall x :: x in more && x.Recorded? ==> x.runId == r.runId && x.outcome in outcomes
    ensures Faithful(digest, System(AppendAll(s.runs, r.runId, outcomes), s.ledger, s.log + more))
  {
    var runs := AppendAll(s.runs, r.runId, outcomes);
    LedgerOpsUnchanged(s.log, more);
    AppendKeepsRuns(s.runs, r.runId, outcomes);
    forall x | x in s.log + more && x.Recorded? ensures x.runId in runs && x.outcome in runs[x.runId].outcomes {
      if x in more { assert outcomes != []; }
    }
  }

  lemma AppendKeepsRuns(runs: Runs, runId: string, outcomes: seq<Outcome>)
    requires Sound(runs)
    ensures var after := AppendAll(runs, runId, outcomes);
            && Sound(after)
            && (forall id :: id in runs ==>
                 id in after && after[id].status == runs[id].status && runs[id].outcomes <= after[id].outcomes)
            && (runId in runs ==> forall o :: o in outcomes ==> o in after[runId].outcomes)
  {
  }

  lemma ExecuteKeeps(digest: W.Digest, s: System, op: Op)
    requires Faithful(digest, s) && W.Indexed(s.ledger) && Guarded(digest, s.log) && op.Execute?
    ensures Faithful(digest, Step(digest, s, op)) && Guarded(digest, Step(digest, s, op).log)
  {
    ExecutionIsPromised(s.runs, s.ledger, op.withLedger, op.provider, op.request, op.now, op.reply, op.stored);
    ExecutionKeepsFaithful(digest, s, op.provider, op.request, ExecutionIn(s, op));
    ExecutionKeepsGuarded(digest, s, op.provider, op.request, ExecutionIn(s, op));
  }

  // ---- every step

  /** Runs that only grew still hold what the log says. */
  lemma GrowthKeepsFaithful(digest: W.Digest, s: System, runs: Runs)
    requires Faithful(digest, s) && Sound(runs) && forall id :: id in s.runs ==>
               id in runs && Grew(s.runs[id], runs[id])
    ensures Faithful(digest, System(runs, s.ledger, s.log))
  {
  }

  lemma QuietEventKeeps(digest: W.Digest, s: System, e: Event)
    requires Faithful(digest, s) && Guarded(digest, s.log) && IsQuiet(e) && !e.LedgerChanged?
    requires e.Recorded? ==> e.runId in s.runs && e.outcome in s.runs[e.runId].outcomes
    requires e.Closed? ==> e.runId in s.runs && IsTerminal(s.runs[e.runId].status)
    ensures Faithful(digest, System(s.runs, s.ledger, s.log + [e])) && Guarded(digest, s.log + [e])
  {
    LedgerOpsSnoc(s.log, e);
    QuietKeepsGuarded(digest, s.log, e);
  }

  lemma ApplyKeepsFaithful(digest: W.Digest, s: System, change: RunOp)
    requires Faithful(digest, s)
    ensures Faithful(digest, System(Apply(s.runs, change), s.ledger, s.log))
  {
    var runs := Apply(s.runs, change);
    forall id | id in s.runs ensures id in runs && Grew(s.runs[id], runs[id]) { StepGrows(s.runs, change, id); }
    GrowthKeepsFaithful(digest, s, runs);
  }

  lemma RunChangeKeeps(digest: W.Digest, s: System, op: Op)
    requires Faithful(digest, s) && W.Indexed(s.ledger) && Guarded(digest, s.log)
    requires op.OpenRun? || op.ChangeRun?
    ensures Faithful(digest, Step(digest, s, op)) && Guarded(digest, Step(digest, s, op).log)
  {
    var change := if op.OpenRun? then Create(op.runId, op.businessId, op.at) else Update(op.runId, op.change);
    ApplyKeepsFaithful(digest, s, change);
    var changed := System(Apply(s.runs, change), s.ledger, s.log);
    assert s.log + [] == s.log;
    if op.ChangeRun? && op.runId in changed.runs && IsTerminal(changed.runs[op.runId].status) {
      QuietEventKeeps(digest, changed, Closed(op.runId));
    }
  }

  lemma OtherConnectorKeeps(digest: W.Digest, s: System, op: Op)
    requires Faithful(digest, s) && W.Indexed(s.ledger) && Guarded(digest, s.log) && op.OtherConnector?
    ensures Faithful(digest, Step(digest, s, op)) && Guarded(digest, Step(digest, s, op).log)
  {
    var outcome := Outcome(op.connectorId, op.status, op.at, Some(op.at), None, OtherMetadata(op.key, op.executed));
    ApplyKeepsFaithful(digest, s, Append(op.runId, outcome));
    assert s.log + [] == s.log;
    if Appended(s.runs, op.runId, outcome).Ok? {
      QuietEventKeeps(digest, System(Apply(s.runs, Append(op.runId, outcome)), s.ledger, s.log),
        Recorded(op.runId, outcome));
    }
  }

  lemma LedgerStepKeeps(digest: W.Digest, s: System, l: W.LedgerOp)
    requires Faithful(digest, s) && W.Indexed(s.ledger) && Guarded(digest, s.log)
    ensures Faithful(digest, Step(digest, s, LedgerStep(l))) && Guarded(digest, Step(digest, s, LedgerStep(l)).log)
  {
    var ops := LedgerOps(s.log);
    LedgerOpsSnoc(s.log, LedgerChanged(l));
    assert (ops + [l])[..|ops|] == ops;
    QuietKeepsGuarded(digest, s.log, LedgerChanged(l));
  }

  /** Over every sequence of operations, every provider call is guarded and every recorded success is
      backed by its call. */
  lemma {:induction false} EveryCallIsGuarded(digest: W.Digest, ops: seq<Op>)
    ensures Faithful(digest, RunSystem(digest, ops)) && Guarded(digest, RunSystem(digest, ops).log)
  {
    if ops != [] {
      var s, op := RunSystem(digest, ops[..|ops| - 1]), ops[|ops| - 1];
      EveryCallIsGuarded(digest, ops[..|ops| - 1]);
      match op
      case LedgerStep(l) => LedgerStepKeeps(digest, s, l);
      case OpenRun(_, _, _) => RunChangeKeeps(digest, s, op);
      case ChangeRun(_, _) => RunChangeKeeps(digest, s, op);
      case OtherConnector(_, _, _, _, _, _) => OtherConnectorKeeps(digest, s, op);
      case Execute(_, _, _, _, _, _) =>
        ExecuteKeeps(digest, s, op);
    }
  }

  // ---- what this gives

  predicate IsSuccess(e: Event, runId: string, key: string) {
    e.Recorded? && e.runId == runId && e.outcome.metadata.Audit? && MarksExecuted(e.outcome)
      && e.outcome.metadata.idempotencyKey == key
  }

  /** In one run, a key is recorded as executed at most once, and the provider is not called for it
      afterwards. */
  lemma AtMostOnce(digest: W.Digest, ops: seq<Op>, runId: string, key: string, i: nat, j: nat)
    requires var log := RunSystem(digest, ops).log; i < j < |log| && IsSuccess(log[i], runId, key)
    ensures var log := RunSystem(digest, ops).log;
            && !IsSuccess(log[j], runId, key)
            && !(log[j].Called? && log[j].request.runId == runId && log[j].request.idempotencyKey == key)
  {
    EveryCallIsGuarded(digest, ops);
    NoCallAfter(digest, RunSystem(digest, ops).log, runId, key, i, j);
    NoCallAfter(digest, RunSystem(digest, ops).log, runId, key, i, j - 1);
  }

  lemma NoCallAfter(digest: W.Digest, log: seq<Event>, runId: string, key: string, i: nat, j: nat)
    requires Guarded(digest, log) && i <= j < |log| && IsSuccess(log[i], runId, key)
    ensures !(log[j].Called? && log[j].request.runId == runId && log[j].request.idempotencyKey == key)
    ensures j > i && IsSuccess(log[j], runId, key) ==>
              i < j - 1 && log[j - 1].Called? && log[j - 1].request.runId == runId
                && log[j - 1].request.idempotencyKey == key
  {
    if i < j { assert log[..j][i] == log[i]; }
  }

  // ---- calling a key again

  predicate CallsKey(e: Event, runId: string, key: string) {
    e.Called? && e.request.runId == runId && e.request.idempotencyKey == key
  }

  /** Right after a call comes its end: its record, or the loss of it. */
  predicate CallEnds(log: seq<Event>, j: nat)
    requires j < |log| && log[j].Called?
  {
    var r := log[j].request;
    && j + 1 < |log|
    && (|| log[j + 1] == Unrecorded(r.runId, r.idempotencyKey)
        || (&& log[j + 1].Recorded? && log[j + 1].runId == r.runId && log[j + 1].outcome.metadata.Audit?
            && log[j + 1].outcome.metadata.idempotencyKey == r.idempotencyKey && IsEnd(log[j + 1].outcome)))
  }

  ghost predicate AllCallsEnd(log: seq<Event>) { forall j :: 0 <= j < |log| && log[j].Called? ==> CallEnds(log, j) }

  predicate CallSucceeded(log: seq<Event>, j: nat)
    requires j < |log| && log[j].Called?
  {
    j + 1 < |log| && IsSuccess(log[j + 1], log[j].request.runId, log[j].request.idempotencyKey)
  }

  /** Every outcome a run holds was logged. */
  ghost predicate Logged(s: System) {
    forall id, o :: id in s.runs && o in s.runs[id].outcomes ==> Recorded(id, o) in s.log
  }

  lemma EndedExtends(log: seq<Event>, more: seq<Event>)
    requires AllCallsEnd(log) && AllCallsEnd(more)
    ensures AllCallsEnd(log + more)
  {
    var all := log + more;
    forall j | 0 <= j < |all| && all[j].Called? ensures CallEnds(all, j) {
      if j < |log| {
        assert all[j] == log[j] && CallEnds(log, j) && all[j + 1] == log[j + 1];
      } else {
        assert all[j] == more[j - |log|] && CallEnds(more, j - |log|) && all[j + 1] == more[j - |log| + 1];
      }
    }
  }

  lemma ExecutionEndsItsCall(runs: Runs, ledger: W.Ledger, provider: Provider, r: Request, e: Execution)
    requires Promised(runs, ledger, provider, r, e)
    ensures AllCallsEnd(EventsOf(provider, r, e))
  {
    EventShapes(provider, r, e);
    var events := EventsOf(provider, r, e);
    if |e.recorded| == 2 { assert e.recorded[1] in e.recorded && events[2] == Recorded(r.runId, e.recorded[1]); }
    forall j | 0 <= j < |events| && events[j].Called? ensures CallEnds(events, j) { assert j == 1; }
  }

  lemma ExecutionIsLogged(s: System, provider: Provider, r: Request, e: Execution)
    requires Logged(s) && Promised(s.runs, s.ledger, provider, r, e)
    ensures Logged(System(AppendAll(s.runs, r.runId, e.recorded), s.ledger, s.log + EventsOf(provider, r, e)))
  {
    EventShapes(provider, r, e);
    var more, runs := EventsOf(provider, r, e), AppendAll(s.runs, r.runId, e.recorded);
    forall o | o in e.recorded ensures Recorded(r.runId, o) in more {
      if |e.recorded| == 2 && o == e.recorded[1] { assert more[2] == Recorded(r.runId, o); }
      if o == e.recorded[0] { assert more[0] == Recorded(r.runId, o); }
    }
    forall id, o | id in runs && o in runs[id].outcomes ensures Recorded(id, o) in s.log + more {
      if id in s.runs && o in s.runs[id].outcomes { assert Recorded(id, o) in s.log; }
    }
  }

  lemma StepKeepsLogged(digest: W.Digest, s: System, op: Op)
    requires Sound(s.runs) && W.Indexed(s.ledger) && Logged(s) && AllCallsEnd(s.log) && !op.Execute?
    ensures Logged(Step(digest, s, op)) && AllCallsEnd(Step(digest, s, op).log)
  {
    var after := Step(digest, s, op);
    assert s.log + [] == s.log;
    assert after.log == s.log + after.log[|s.log|..];
    EndedExtends(s.log, after.log[|s.log|..]);
  }

  lemma {:induction false} EveryCallEnds(digest: W.Digest, ops: seq<Op>)
    ensures Logged(RunSystem(digest, ops)) && AllCallsEnd(RunSystem(digest, ops).log)
  {
    if ops != [] {
      var front, op := ops[..|ops| - 1], ops[|ops| - 1];
      var s := RunSystem(digest, front);
      EveryCallEnds(digest, front);
      EveryCallIsGuarded(digest, front);
      if op.Execute? {
        ExecuteKeepsLogged(digest, s, op);
      } else {
        StepKeepsLogged(digest, s, op);
      }
    }
  }

  lemma ExecuteKeepsLogged(digest: W.Digest, s: System, op: Op)
    requires W.Indexed(s.ledger) && Logged(s) && AllCallsEnd(s.log) && op.Execute?
    ensures Logged(Step(digest, s, op)) && AllCallsEnd(Step(digest, s, op).log)
  {
    ExecutionIsPromised(s.runs, s.ledger, op.withLedger, op.provider, op.request, op.now, op.reply, op.stored);
    ExecutionIsLogged(s, op.provider, op.request, ExecutionIn(s, op));
    ExecutionEndsItsCall(s.runs, s.ledger, op.provider, op.request, ExecutionIn(s, op));
    EndedExtends(s.log, EventsOf(op.provider, op.request, ExecutionIn(s, op)));
  }

  /** When a key is called twice in one run, the earlier call failed or its end was never recorded. */
  lemma RepeatedCallsHadFailed(digest: W.Digest, ops: seq<Op>, runId: string, key: string, i: nat, j: nat)
    requires var log := RunSystem(digest, ops).log;
             i < j < |log| && CallsKey(log[i], runId, key) && CallsKey(log[j], runId, key)
    ensures var log := RunSystem(digest, ops).log;
            && i + 1 < j
            && (log[i + 1] == Unrecorded(runId, key) || (log[i + 1].Recorded? && log[i + 1].outcome.status == Failed))
  {
    var log := RunSystem(digest, ops).log;
    EveryCallIsGuarded(digest, ops);
    EveryCallEnds(digest, ops);
    assert CallEnds(log, i);
    assert GuardedCall(digest, log, j) && log[..j][i + 1] == log[i + 1];
  }

  /** Another connector recorded the key as executed in the run. */
  ghost predicate ExecutedElsewhere(log: seq<Event>, runId: string, key: string) {
    exists e :: e in log && e.Recorded? && e.runId == runId && e.outcome.metadata.OtherMetadata?
      && Executes(e.outcome, key)
  }

  lemma ExecutedByCallOrElsewhere(digest: W.Digest, s: System, runId: string, key: string)
    requires Faithful(digest, s) && Guarded(digest, s.log) && Logged(s) && runId in s.runs
    ensures HasExecuted(s.runs[runId].outcomes, key) <==>
              || ExecutedElsewhere(s.log, runId, key)
              || exists i: nat :: i < |s.log| && CallsKey(s.log[i], runId, key) && CallSucceeded(s.log, i)
  {
    if HasExecuted(s.runs[runId].outcomes, key) {
      var o :| o in s.runs[runId].outcomes && Executes(o, key);
      assert Recorded(runId, o) in s.log;
      if o.metadata.Audit? { var _ := SuccessHasCall(digest, s.log, runId, key, o); }
    }
    if i: nat :| i < |s.log| && CallsKey(s.log[i], runId, key) && CallSucceeded(s.log, i) {
      assert s.log[i + 1] in s.log;
    }
  }

  lemma SuccessHasCall(digest: W.Digest, log: seq<Event>, runId: string, key: string, o: Outcome) returns (i: nat)
    requires Guarded(digest, log) && Recorded(runId, o) in log && o.metadata.Audit? && Executes(o, key)
    ensures i < |log| && CallsKey(log[i], runId, key) && CallSucceeded(log, i)
  {
    var m :| 0 <= m < |log| && log[m] == Recorded(runId, o);
    assert BackedSuccess(log, m);
    i := m - 1;
  }

  /** After any history, a request calls the provider exactly when it is cleared, its run is open and of its
      business, a write rests on an approved action, no other connector executed the key in the run, and
      every earlier call of the key in the run failed or was never recorded as ended. */
  lemma CalledAgainExactlyWhen(digest: W.Digest, ops: seq<Op>, op: Op)
    requires op.Execute? && W.DigestsApart(digest, W.PlannedKeys(LedgerOps(RunSystem(digest, ops).log)))
    ensures var s, r := RunSystem(digest, ops), op.request;
            ExecutionIn(s, op).called <==>
              && Cleared(op.provider, r) && r.runId in s.runs && s.runs[r.runId].businessId == r.businessId
              && !IsTerminal(s.runs[r.runId].status)
              && (r.operation == "write" ==> op.withLedger && ApprovedIn(s.ledger, op.provider, r))
              && !ExecutedElsewhere(s.log, r.runId, r.idempotencyKey)
              && forall i: nat :: i < |s.log| && CallsKey(s.log[i], r.runId, r.idempotencyKey) ==>
                   !CallSucceeded(s.log, i)
  {
    var s, r := RunSystem(digest, ops), op.request;
    EveryCallIsGuarded(digest, ops);
    EveryCallEnds(digest, ops);
    CalledExactlyWhen(digest, LedgerOps(s.log), s.runs, op.withLedger, op.provider, r, op.now, op.reply, op.stored);
    if r.runId in s.runs { ExecutedByCallOrElsewhere(digest, s, r.runId, r.idempotencyKey); }
  }

  /** Where the ledger operations of a log stand in it. */
  function Positions(log: seq<Event>): (p: seq<nat>)
    ensures |p| == |LedgerOps(log)|
    ensures forall n :: 0 <= n < |p| ==> p[n] < |log| && log[p[n]] == LedgerChanged(LedgerOps(log)[n])
    ensures forall n, m :: 0 <= n < m < |p| ==> p[n] < p[m]
  {
    if log == [] then []
    else
      var front := log[..|log| - 1];
      Positions(front) + (if log[|log| - 1].LedgerChanged? then [|front|] else [])
  }

  /** Every write call was preceded, in this order, by the planning of the action it rests on, by a
      decision approving that action's request, and by the call's own attempt record. */
  lemma WriteCallsWereApproved(digest: W.Digest, ops: seq<Op>, j: nat) returns (planned: nat, decided: nat)
    requires var log := RunSystem(digest, ops).log;
             && j < |log| && log[j].Called? && log[j].request.operation == "write"
             && W.DigestsApart(digest, W.PlannedKeys(LedgerOps(log[..j])))
    ensures var log := RunSystem(digest, ops).log;
            var r := log[j].request;
            && planned < decided < j - 1
            && log[planned].LedgerChanged? && log[planned].op.PlanOp?
            && log[decided].LedgerChanged? && log[decided].op.DecideOp?
            && var p, d := log[planned].op.p, log[decided].op.d;
            && p.approvalRequired && p.actionKey == "request_external_action"
            && p.key == W.Key(r.businessId, r.idempotencyKey) && Some(W.ActionId(digest, p.key)) == r.ledgerId
            && ParamIs(p.params, "provider", log[j].provider.name) && ParamIs(p.params, "toolkit", r.toolkit)
            && ParamIs(p.params, "external_action_key", r.actionKey)
            && d.decision == "approved" && d.requestId == W.ApprovalId(digest, p.key) && d.businessId == r.businessId
  {
    var log := RunSystem(digest, ops).log;
    EveryCallIsGuarded(digest, ops);
    assert GuardedCall(digest, log, j);
    var before := log[..j];
    var history := LedgerOps(before);
    planned, decided := ApprovalPositions(digest, history, log[j].provider, log[j].request);
    var p := Positions(before);
    planned, decided := p[planned], p[decided];
    assert log[planned] == before[planned] && log[decided] == before[decided] && before[j - 1] == log[j - 1];
  }

  lemma ApprovalPositions(digest: W.Digest, history: seq<W.LedgerOp>, provider: Provider, r: Request)
    returns (i: nat, d: nat)
    requires W.DigestsApart(digest, W.PlannedKeys(history)) && ApprovedIn(W.Run(digest, history), provider, r)
    ensures i < d < |history| && history[i].PlanOp? && history[d].DecideOp?
    ensures var p := history[i].p;
            && p.approvalRequired && p.actionKey == "request_external_action"
            && p.key == W.Key(r.businessId, r.idempotencyKey) && Some(W.ActionId(digest, p.key)) == r.ledgerId
            && ParamIs(p.params, "provider", provider.name) && ParamIs(p.params, "toolkit", r.toolkit)
            && ParamIs(p.params, "external_action_key", r.actionKey)
            && history[d].d.decision == "approved" && history[d].d.requestId == W.ApprovalId(digest, p.key)
            && history[d].d.businessId == r.businessId
  {
    var l := W.Run(digest, history);
    var k :| k in l.actions && k.businessId == r.businessId && Some(l.actions[k].ledgerId) == r.ledgerId
      && Authorises(l.actions[k], provider, r);
    i, d := W.ApprovalHasADecision(digest, history, k);
  }

  // ---- and exactly when a call is made

  /** A success is reported and recorded exactly when the provider answered and the record was stored, and a
      failure leaves the key free. */
  ghost predicate EndsAs(e: Execution, r: Request, reply: Reply, stored: bool) {
    && (e.result.Ok? <==> e.called && stored && reply.Answer?)
    && (e.called && stored ==>
          && |e.recorded| == 2
          && (Executes(e.recorded[1], r.idempotencyKey) <==> reply.Answer?)
          && e.recorded[1].status == if reply.Answer? then Succeeded else Failed)
    && (!e.called ==> |e.recorded| <= 1 && forall o :: o in e.recorded ==> o.status == Skipped)
  }

  /** What the provider answers decides the result and the last record. */
  lemma ExecutionEnds(
      runs: Runs, ledger: W.Ledger, withLedger: bool, provider: Provider, r: Request, now: int, reply: Reply,
      stored: bool)
    requires W.Indexed(ledger)
    ensures EndsAs(Executing(runs, if withLedger then Some(ledger) else None, provider, r, now, reply, stored),
                   r, reply, stored)
  {
    var record := ApprovedRecord(if withLedger then Some(ledger) else None, provider, r);
    var verdict := Checked(runs, record, provider, r);
    ConclusionEnds(verdict, IsClosed(runs, r.runId), provider, r, record, now, reply, stored);
  }

  lemma ConclusionEnds(
      verdict: Verdict, closed: bool, provider: Provider, r: Request, record: Option<W.Record>, now: int, reply: Reply,
      stored: bool)
    ensures EndsAs(Concluding(verdict, closed, provider, r, record, now, reply, stored), r, reply, stored)
  {
    if verdict.Audited? { RefusalIsSkipped(provider, r, record, verdict.error, now); }
    FinalTells(provider, r, record, reply, now);
  }

  lemma FinalTells(provider: Provider, r: Request, record: Option<W.Record>, reply: Reply, now: int)
    ensures var o := FinalOutcome(provider, r, record, reply, now);
            && (Executes(o, r.idempotencyKey) <==> reply.Answer?)
            && o.status == if reply.Answer? then Succeeded else Failed
  {
  }

  /** The result hands on the provider's answer, and its reference, approval and keys are those on record. */
  lemma ExecutionReports(
      runs: Runs, ledger: W.Ledger, withLedger: bool, provider: Provider, r: Request, now: int, reply: Reply,
      stored: bool)
    requires W.Indexed(ledger)
    requires Executing(runs, if withLedger then Some(ledger) else None, provider, r, now, reply, stored).result.Ok?
    ensures var e := Executing(runs, if withLedger then Some(ledger) else None, provider, r, now, reply, stored);
            var success := e.result.value;
            && |e.recorded| == 2 && e.recorded[1].metadata.Audit? && reply.Answer? && success.response == reply.response
            && e.recorded[1].metadata.responseRef == Some(success.responseRef)
            && e.recorded[1].metadata.approvalState == success.approvalState
            && e.recorded[1].metadata.summary.Some?
               && e.recorded[1].metadata.summary.value.resultKeys == reply.response.Keys
            && success.approvalState == if r.operation == "read" then "not_required" else "approved"
  {
  }

  /** In a ledger with distinct ids, the first record listed under an id is the only one. */
  lemma ApprovedIsFound(digest: W.Digest, history: seq<W.LedgerOp>, provider: Provider, r: Request)
    requires W.DigestsApart(digest, W.PlannedKeys(history))
    ensures ApprovedRecord(Some(W.Run(digest, history)), provider, r).Some?
       <==> ApprovedIn(W.Run(digest, history), provider, r)
  {
    var l := W.Run(digest, history);
    if ApprovedRecord(Some(l), provider, r).Some? { ApprovedRecordIsApproved(l, provider, r); }
    if ApprovedIn(l, provider, r) {
      var k :| k in l.actions && k.businessId == r.businessId && Some(l.actions[k].ledgerId) == r.ledgerId
        && Authorises(l.actions[k], provider, r);
      W.ReachableIsTraced(digest, history);
      W.ExplainedIsPlain(digest, history, k, l.actions[k], W.RequestOf(l, k));
      var records := Q.ListActions(l.order, l.actions, r.businessId);
      forall x | x in records && Some(x.ledgerId) == r.ledgerId ensures x == l.actions[k] {
        var m :| m in l.order && m.businessId == r.businessId && l.actions[m] == x;
        W.ExplainedIsPlain(digest, history, m, l.actions[m], W.RequestOf(l, m));
        W.IdsApart(digest, W.PlannedKeys(history), "workflow-action", m, k);
      }
      OnlyListed(records, provider, r, l.actions[k]);
    }
  }

  lemma {:induction false} OnlyListed(records: seq<W.Record>, provider: Provider, r: Request, record: W.Record)
    requires r.ledgerId == Some(record.ledgerId) && record in records && Authorises(record, provider, r)
    requires forall x :: x in records && Some(x.ledgerId) == r.ledgerId ==> x == record
    ensures Authorising(records, provider, r) == Some(record)
  {
    if records[0] != record {
      assert records[0] in records;
      OnlyListed(records[1..], provider, r, record);
    }
  }

  /** The provider is called exactly when the request is cleared, its run is open, of its business and has
      not executed the key, and a write rests on an approved action of the ledger it was given. */
  lemma CalledExactlyWhen(
      digest: W.Digest, history: seq<W.LedgerOp>, runs: Runs, withLedger: bool, provider: Provider, r: Request,
      now: int, reply: Reply, stored: bool)
    requires W.DigestsApart(digest, W.PlannedKeys(history))
    ensures var ledger := W.Run(digest, history);
            Executing(runs, if withLedger then Some(ledger) else None, provider, r, now, reply, stored).called <==>
              && Cleared(provider, r) && r.runId in runs && runs[r.runId].businessId == r.businessId
              && !IsTerminal(runs[r.runId].status) && !HasExecuted(runs[r.runId].outcomes, r.idempotencyKey)
              && (r.operation == "write" ==> withLedger && ApprovedIn(ledger, provider, r))
  {
    if ValidRequest(r) { ToolkitIsNormal(r.toolkit); }
    ApprovedIsFound(digest, history, provider, r);
    var record := ApprovedRecord(if withLedger then Some(W.Run(digest, history)) else None, provider, r);
    ProceedsWhen(runs, record, provider, r);
  }

  lemma ProceedsWhen(runs: Runs, record: Option<W.Record>, provider: Provider, r: Request)
    requires ValidRequest(r) ==> NormalToolkit(r.toolkit) == r.toolkit
    ensures Checked(runs, record, provider, r).Proceed? <==>
              && Cleared(provider, r) && r.runId in runs && runs[r.runId].businessId == r.businessId
              && !HasExecuted(runs[r.runId].outcomes, r.idempotencyKey) && (r.operation == "write" ==> record.Some?)
  {
  }
}
