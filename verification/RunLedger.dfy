/** The run ledger: one record per run, open for appending until it reaches a terminal status. */
module RunLedger {
  import opened Basics

  datatype RunStatus = Running | RunSucceeded | RunFailed | RunPartial | RunCancelled

  datatype ConnectorStatus = Succeeded | Failed | Skipped

  datatype ExecutionMark = AttemptPlanned | Executed

  /** What is kept of a provider's response: the id it names and its keys. */
  datatype ResponseSummary = ResponseSummary(externalId: string, resultKeys: set<string>)

  /** What an outcome records beside its status: the audit of an external action, or whatever another
      connector records. */
  datatype Metadata =
    | Audit(
        provider: string,
        toolkit: string,
        actionKey: string,
        operation: string,
        idempotencyKey: string,
        duplicate: bool,
        actorRef: Option<string>,
        approvalState: string,
        allowed: bool,
        ledgerId: Option<string>,
        mark: Option<ExecutionMark>,
        reservedToolkit: Option<string>,
        payload: map<string, string>,
        summary: Option<ResponseSummary>,
        responseRef: Option<string>)
    | OtherMetadata(key: Option<string>, executed: bool)

  datatype Outcome = Outcome(
    connectorId: string,
    status: ConnectorStatus,
    startedAt: int,
    finishedAt: Option<int>,
    errorSummary: Option<string>,
    metadata: Metadata)

  datatype RunRecord = RunRecord(
    runId: string,
    businessId: string,
    status: RunStatus,
    startedAt: int,
    finishedAt: Option<int>,
    outcomes: seq<Outcome>,
    summary: map<string, string>,
    errorSummary: Option<string>)

  datatype RunError = NotFound | AlreadyExists | InvalidRecord | TerminalRun | FinishRequired | RunningCannotFinish

  datatype Change = Change(
    status: Option<RunStatus>, finishedAt: Option<int>, summary: Option<map<string, string>>,
    errorSummary: Option<string>)

  type Runs = map<string, RunRecord>

  predicate IsTerminal(s: RunStatus) { s != Running }

  /** The record validator. */
  predicate LifecycleValid(r: RunRecord) {
    && r.runId != "" && r.businessId != ""
    && (IsTerminal(r.status) <==> r.finishedAt.Some?)
    && (r.finishedAt.Some? ==> r.finishedAt.value >= r.startedAt)
  }

  function Created(runs: Runs, runId: string, businessId: string, startedAt: int): Result<RunRecord, RunError> {
    var record := RunRecord(runId, businessId, Running, startedAt, None, [], map[], None);
    if !LifecycleValid(record) then Err(InvalidRecord)
    else if runId in runs then Err(AlreadyExists)
    else Ok(record)
  }

  predicate IsMutation(c: Change) { c.status.Some? || c.finishedAt.Some? || c.summary.Some? || c.errorSummary.Some? }

  function Or<T>(x: Option<T>, otherwise: Option<T>): Option<T> { if x.Some? then x else otherwise }

  function Updated(runs: Runs, runId: string, c: Change): Result<RunRecord, RunError> {
    if runId !in runs then Err(NotFound)
    else
      var record := runs[runId];
      var status := if c.status.Some? then c.status.value else record.status;
      var finishedAt := Or(c.finishedAt, record.finishedAt);
      if IsTerminal(record.status) && IsMutation(c) then Err(TerminalRun)
      else if IsTerminal(status) && finishedAt.None? then Err(FinishRequired)
      else if status == Running && c.finishedAt.Some? then Err(RunningCannotFinish)
      else
        var updated := record.(status := status, finishedAt := finishedAt,
          errorSummary := Or(c.errorSummary, record.errorSummary),
                               summary := if c.summary.Some? then record.summary + c.summary.value else record.summary);
        if LifecycleValid(updated) then Ok(updated) else Err(InvalidRecord)
  }

  function Appended(runs: Runs, runId: string, outcome: Outcome): Result<RunRecord, RunError> {
    if runId !in runs then Err(NotFound)
    else if IsTerminal(runs[runId].status) then Err(TerminalRun)
    else Ok(runs[runId].(outcomes := runs[runId].outcomes + [outcome]))
  }

  /** The runs after a mutation: stored when it succeeds, untouched when it fails. */
  function Stored(runs: Runs, result: Result<RunRecord, RunError>): Runs {
    if result.Ok? then runs[result.value.runId := result.value] else runs
  }

  // ---- what every mutation keeps

  predicate Sound(runs: Runs) {
    forall id :: id in runs ==> runs[id].runId == id && LifecycleValid(runs[id])
  }

  datatype RunOp = Create(runId: string, businessId: string, startedAt: int) | Update(runId: string,
    change: Change) | Append(runId: string, outcome: Outcome)

  function ResultOf(runs: Runs, op: RunOp): Result<RunRecord, RunError> {
    match op
    case Create(id, business, at) => Created(runs, id, business, at)
    case Update(id, change) => Updated(runs, id, change)
    case Append(id, outcome) => Appended(runs, id, outcome)
  }

  function Apply(runs: Runs, op: RunOp): Runs { Stored(runs, ResultOf(runs, op)) }

  function RunAll(ops: seq<RunOp>): Runs {
    if ops == [] then map[] else Apply(RunAll(ops[..|ops| - 1]), ops[|ops| - 1])
  }

  lemma {:induction false} ReachableRunsAreSound(ops: seq<RunOp>)
    ensures Sound(RunAll(ops))
  {
    if ops != [] { ReachableRunsAreSound(ops[..|ops| - 1]); }
  }

  /** A later record keeps identity and start, extends the outcomes, and is the same record once terminal. */
  predicate Grew(a: RunRecord, b: RunRecord) {
    && b.runId == a.runId && b.businessId == a.businessId && b.startedAt == a.startedAt
    && a.outcomes <= b.outcomes
    && (IsTerminal(a.status) ==> b == a)
  }

  lemma StepGrows(runs: Runs, op: RunOp, id: string)
    requires Sound(runs) && id in runs
    ensures id in Apply(runs, op) && Grew(runs[id], Apply(runs, op)[id])
  {
  }

  /** Runs are never lost, outcomes are never rewritten, and a terminal run never changes again. */
  lemma {:induction false} RunsOnlyGrow(ops: seq<RunOp>, n: nat, id: string)
    requires n <= |ops| && id in RunAll(ops[..n])
    ensures id in RunAll(ops) && Grew(RunAll(ops[..n])[id], RunAll(ops)[id])
  {
    if n == |ops| {
      assert ops[..n] == ops;
    } else {
      var front := ops[..|ops| - 1];
      assert front[..n] == ops[..n];
      RunsOnlyGrow(front, n, id);
      ReachableRunsAreSound(front);
      StepGrows(RunAll(front), ops[|ops| - 1], id);
    }
  }

  function NewStatus(record: RunRecord, c: Change): RunStatus {
    if c.status.Some? then c.status.value else record.status
  }

  /** The run exists, is not a closed one being changed, and would end up finished, at or after its start,
      exactly if terminal. */
  predicate Accepts(runs: Runs, id: string, c: Change) {
    && id in runs && !(IsTerminal(runs[id].status) && IsMutation(c))
    && (IsTerminal(NewStatus(runs[id], c)) <==> Or(c.finishedAt, runs[id].finishedAt).Some?)
    && (c.finishedAt.Some? ==> c.finishedAt.value >= runs[id].startedAt)
  }

  /** `after` is `before` with what the change names and nothing else changed. */
  ghost predicate ChangedAs(before: RunRecord, c: Change, after: RunRecord) {
    && after.runId == before.runId && after.businessId == before.businessId
    && after.startedAt == before.startedAt && after.outcomes == before.outcomes
    && after.status == NewStatus(before, c)
    && after.finishedAt == Or(c.finishedAt, before.finishedAt)
    && after.errorSummary == Or(c.errorSummary, before.errorSummary)
    && (forall k :: k in after.summary <==> k in before.summary || (c.summary.Some? && k in c.summary.value))
    && (forall k :: k in after.summary ==>
                      after.summary[k] == if c.summary.Some? && k in c.summary.value then c.summary.value[k]
                        else before.summary[k])
  }

  /** An update is refused or changes exactly what it names. */
  lemma UpdateAccepted(runs: Runs, id: string, c: Change)
    requires Sound(runs)
    ensures Updated(runs, id, c).Ok? <==> Accepts(runs, id, c)
    ensures Updated(runs, id, c).Ok? ==> ChangedAs(runs[id], c, Updated(runs, id, c).value)
  {
  }

  // ---- the store object

  class InMemoryRunLedger {
    var runs: Runs

    constructor ()
      ensures runs == RunAll([])
    {
      runs := map[];
    }

    method Persist(record: RunRecord)
      modifies this
      ensures runs == old(runs)[record.runId := record]
    {
      runs := runs[record.runId := record];
    }

    method LoadForUpdate(runId: string) returns (r: Result<RunRecord, RunError>)
      ensures r == if runId in runs then Ok(runs[runId]) else Err(NotFound)
    {
      if runId in runs { return Ok(runs[runId]); }
      return Err(NotFound);
    }

    method CreateRun(runId: string, businessId: string, startedAt: int) returns (r: Result<RunRecord, RunError>)
      requires Sound(runs)
      modifies this
      ensures r == ResultOf(old(runs), Create(runId, businessId, startedAt))
      ensures runs == Apply(old(runs), Create(runId, businessId, startedAt)) && Sound(runs)
      ensures r.Ok? <==> runId != "" && businessId != "" && runId !in old(runs)
      ensures r.Err? ==> runs == old(runs)
    {
      var record := RunRecord(runId, businessId, Running, startedAt, None, [], map[], None);
      if !LifecycleValid(record) { return Err(InvalidRecord); }
      if runId in runs { return Err(AlreadyExists); }
      Persist(record);
      return Ok(record);
    }

    /** Each field the change names is put into a copy, which is validated and stored. */
    method UpdateRun(runId: string, change: Change) returns (r: Result<RunRecord, RunError>)
      requires Sound(runs)
      modifies this
      ensures r == ResultOf(old(runs), Update(runId, change)) && runs == Apply(old(runs), Update(runId, change))
      ensures Sound(runs)
      ensures r.Ok? <==> Accepts(old(runs), runId, change)
      ensures r.Ok? ==> ChangedAs(old(runs)[runId], change, r.value) && runs == old(runs)[runId := r.value]
      ensures r.Err? ==> runs == old(runs)
    {
      UpdateAccepted(runs, runId, change);
      var loaded := LoadForUpdate(runId);
      if loaded.Err? { return loaded; }
      var record := loaded.value;
      if IsTerminal(record.status) && IsMutation(change) { return Err(TerminalRun); }
      var status := if change.status.Some? then change.status.value else record.status;
      var finishedAt := if change.finishedAt.Some? then change.finishedAt else record.finishedAt;
      if IsTerminal(status) && finishedAt.None? { return Err(FinishRequired); }
      if status == Running && change.finishedAt.Some? { return Err(RunningCannotFinish); }
      var updated := record;
      if change.status.Some? { updated := updated.(status := change.status.value); }
      if change.finishedAt.Some? { updated := updated.(finishedAt := change.finishedAt); }
      if change.summary.Some? { updated := updated.(summary := record.summary + change.summary.value); }
      if change.errorSummary.Some? { updated := updated.(errorSummary := change.errorSummary); }
      if !LifecycleValid(updated) { return Err(InvalidRecord); }
      Persist(updated);
      return Ok(updated);
    }

    method AppendConnectorOutcome(runId: string, outcome: Outcome) returns (r: Result<RunRecord, RunError>)
      requires Sound(runs)
      modifies this
      ensures r == ResultOf(old(runs), Append(runId, outcome)) && runs == Apply(old(runs), Append(runId, outcome))
      ensures Sound(runs)
    {
      var loaded := LoadForUpdate(runId);
      if loaded.Err? { return loaded; }
      var record := loaded.value;
      if IsTerminal(record.status) { return Err(TerminalRun); }
      var updated := record.(outcomes := record.outcomes + [outcome]);
      Persist(updated);
      return Ok(updated);
    }
  }
}
