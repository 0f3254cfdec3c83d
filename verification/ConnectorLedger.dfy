/** The connector runtime's append-only audit log and the two ways it is summarised:
    one run at a time, and all runs at once. */
module ConnectorLedger {
  import opened Basics

  const STARTED := "connector.execution.started"
  const SUCCEEDED := "connector.execution.succeeded"
  const FAILED := "connector.execution.failed"

  datatype Contract = Contract(
    connectorId: string,
    operations: seq<string>,
    publicKeys: set<string>,
    secretKeys: set<string>,
    evidenceKinds: set<string>)

  datatype Request = Request(
    runId: string,
    connectorId: string,
    operation: string,
    publicKeys: set<string>,
    secretKeys: set<string>)

  datatype Call = Call(runId: string, connectorId: string, operation: string, evidenceKinds: set<string>)

  datatype CompileError =
    | UnknownConnector | UndeclaredOperation | UndeclaredPublicKey | MissingSecret | UndeclaredSecret

  /** What calling the adapter led to; `Raised` includes a connector without an adapter. */
  datatype Reply = Raised(errorType: string) | Returned(status: string, evidence: seq<string>, events: seq<string>)

  /** The normalised outcome; evidence and events are listed by kind. */
  datatype Outcome = Outcome(
    runId: string,
    connectorId: string,
    operation: string,
    status: string,
    evidence: seq<string>,
    events: seq<string>)

  datatype Event = Event(
    sequence: nat,
    runId: string,
    eventType: string,
    connectorId: string,
    operation: string,
    fromState: string,
    toState: string,
    counts: map<string, nat>,
    createdAt: int)

  datatype Summary = Summary(
    runId: string,
    connectorId: string,
    operation: string,
    status: Option<string>,
    startedAt: int,
    finishedAt: Option<int>,
    evidenceCount: nat,
    eventCount: nat)

  // ---- compiling and normalising

  function Compile(registry: map<string, Contract>, r: Request): Result<Call, CompileError> {
    if r.connectorId !in registry then Err(UnknownConnector)
    else
      var c := registry[r.connectorId];
      if r.operation !in c.operations then Err(UndeclaredOperation)
      else if r.publicKeys - c.publicKeys != {} then Err(UndeclaredPublicKey)
      else if c.secretKeys - r.secretKeys != {} then Err(MissingSecret)
      else if r.secretKeys - c.secretKeys != {} then Err(UndeclaredSecret)
      else Ok(Call(r.runId, c.connectorId, r.operation, c.evidenceKinds))
  }

  /** A reply that breaks the contract counts as raised. */
  predicate Honoured(call: Call, reply: Reply) {
    && reply.Returned? && (reply.status == "succeeded" || reply.status == "failed")
    && forall kind :: kind in reply.evidence ==> kind in call.evidenceKinds
  }

  function Normalise(call: Call, reply: Reply): Outcome {
    if Honoured(call, reply) then
      Outcome(call.runId, call.connectorId, call.operation, reply.status, reply.evidence, reply.events)
    else
      Outcome(call.runId, call.connectorId, call.operation, "failed", [], ["connector.failed"])
  }

  function StartEvent(sequence: nat, call: Call, now: int): Event {
    Event(sequence, call.runId, STARTED, call.connectorId, call.operation, "requested", "running", map[], now)
  }

  /** The closing event; only a reply that honours the contract records its counts. */
  function FinishEvent(sequence: nat, call: Call, reply: Reply, now: int): Event {
    if Honoured(call, reply) then
      Event(sequence, call.runId, "connector.execution." + reply.status, call.connectorId, call.operation, "running",
            reply.status, map["evidence_count" := |reply.evidence|, "event_count" := |reply.events|], now)
    else
      Event(sequence, call.runId, FAILED, call.connectorId, call.operation, "running", "failed", map[], now)
  }

  // ---- summarising

  function EventsOf(log: seq<Event>, runId: string): seq<Event> {
    Filter(log, (e: Event) => e.runId == runId)
  }

  predicate IsTerminal(e: Event) { e.eventType == SUCCEEDED || e.eventType == FAILED }

  function Count(e: Event, name: string): nat { if name in e.counts then e.counts[name] else 0 }

  function Summarise(runId: string, events: seq<Event>): Summary
    requires events != []
  {
    var first, last := events[0], events[|events| - 1];
    if exists e :: e in events && IsTerminal(e) then
      Summary(runId, first.connectorId, first.operation, Some(last.toState), first.createdAt, Some(last.createdAt),
              Count(last, "evidence_count"), Count(last, "event_count"))
    else
      Summary(runId, first.connectorId, first.operation, None, first.createdAt, None, 0, 0)
  }

  function RunSummary(log: seq<Event>, runId: string): Option<Summary> {
    var events := EventsOf(log, runId);
    if events == [] then None else Some(Summarise(runId, events))
  }

  function RunIdOf(e: Event): string { e.runId }

  /** The run ids of a log in order of first appearance. */
  function RunIds(log: seq<Event>): seq<string> { Unique(Map(log, RunIdOf)) }

  lemma {:induction false} RunIdsAreLogged(log: seq<Event>)
    ensures forall id :: id in RunIds(log) <==> EventsOf(log, id) != []
  {
    var ids := Map(log, RunIdOf);
    AppendNewMembers([], ids, Identity<string>);
    assert Map(RunIds(log), Identity<string>) == RunIds(log);
    forall id ensures id in RunIds(log) <==> EventsOf(log, id) != [] {
      if id in RunIds(log) {
        assert id in ids;
        var i :| 0 <= i < |ids| && ids[i] == id;
        assert log[i] in EventsOf(log, id);
      }
      if EventsOf(log, id) != [] {
        var e := EventsOf(log, id)[0];
        assert e in log;
        var i :| 0 <= i < |log| && log[i] == e;
        assert ids[i] == id;
      }
    }
  }

  function Summaries(log: seq<Event>): seq<Summary> {
    RunIdsAreLogged(log);
    var ids := RunIds(log);
    seq(|ids|, i requires 0 <= i < |ids| => RunSummary(log, ids[i]).value)
  }

  predicate IsCompleted(s: Summary, connectorId: string) {
    s.connectorId == connectorId && s.status.Some? && s.finishedAt.Some?
  }

  // ---- runs interleaved in one log

  /** One execution's two ledger writes, as they reach the log. */
  datatype Step = Begin(call: Call, now: int) | End(call: Call, reply: Reply, now: int)

  function Log(steps: seq<Step>): (log: seq<Event>)
    ensures |log| == |steps|
  {
    if steps == [] then []
    else
      var log := Log(steps[..|steps| - 1]);
      log + [EventFor(steps[|steps| - 1], |log| + 1)]
  }

  function StepsOf(steps: seq<Step>, runId: string): seq<Step> {
    Filter(steps, (s: Step) => s.call.runId == runId)
  }

  function Begins(steps: seq<Step>): nat { |Filter(steps, (s: Step) => s.Begin?)| }

  function Ends(steps: seq<Step>): nat { |Filter(steps, (s: Step) => s.End?)| }

  function EventFor(step: Step, sequence: nat): Event {
    match step
    case Begin(call, now) => StartEvent(sequence, call, now)
    case End(call, reply, now) => FinishEvent(sequence, call, reply, now)
  }

  /** Sequence numbers run from 1 without gaps, whatever the interleaving. */
  lemma {:induction false} LogIsNumbered(steps: seq<Step>, i: nat)
    requires i < |steps|
    ensures Log(steps)[i].sequence == i + 1
  {
    if i < |steps| - 1 { LogIsNumbered(steps[..|steps| - 1], i); }
  }

  lemma FinishIsTerminal(call: Call, reply: Reply, sequence: nat, now: int)
    ensures IsTerminal(FinishEvent(sequence, call, reply, now)) && !IsTerminal(StartEvent(sequence, call, now))
  {
  }

  /** A run's events are its own steps in order, however other runs interleave. */
  lemma {:induction false} EventsOfRun(steps: seq<Step>, runId: string)
    ensures |EventsOf(Log(steps), runId)| == |StepsOf(steps, runId)|
    ensures forall i :: 0 <= i < |StepsOf(steps, runId)| ==>
              var e := EventsOf(Log(steps), runId)[i]; e == EventFor(StepsOf(steps, runId)[i], e.sequence)
  {
    if steps != [] {
      var front, last := steps[..|steps| - 1], steps[|steps| - 1];
      EventsOfRun(front, runId);
      assert steps == front + [last];
      var log := Log(front);
      FilterSnoc(log, EventFor(last, |log| + 1), (e: Event) => e.runId == runId);
      FilterSnoc(front, last, (s: Step) => s.call.runId == runId);
    }
  }

  lemma {:induction false} EndsCounted(steps: seq<Step>)
    ensures Ends(steps) > 0 <==> exists i :: 0 <= i < |steps| && steps[i].End?
  {
    var ends := Filter(steps, (s: Step) => s.End?);
    if ends != [] { assert ends[0] in steps; }
    forall i | 0 <= i < |steps| && steps[i].End? ensures ends != [] { assert steps[i] in ends; }
  }

  lemma TerminalMeansEnded(steps: seq<Step>, runId: string)
    ensures (exists e :: e in EventsOf(Log(steps), runId) && IsTerminal(e)) <==> Ends(StepsOf(steps, runId)) > 0
  {
    var mine, events := StepsOf(steps, runId), EventsOf(Log(steps), runId);
    EventsOfRun(steps, runId);
    EndsCounted(mine);
    forall i | 0 <= i < |mine| ensures IsTerminal(events[i]) <==> mine[i].End? {
      var e := events[i];
      assert e == EventFor(mine[i], e.sequence);
      if mine[i].End? {
        FinishIsTerminal(mine[i].call, mine[i].reply, e.sequence, mine[i].now);
      }
    }
    forall i | 0 <= i < |mine| && mine[i].End? ensures events[i] in events && IsTerminal(events[i]) { }
  }

  predicate ReportedOpen(log: seq<Event>, runId: string) {
    match RunSummary(log, runId)
    case Some(s) => s.status.None?
    case None => false
  }

  /** A run is reported open exactly when it is unfinished, except for a run id that is begun
      again after it ended: that one is reported closed. */
  lemma OpenMeansUnfinished(steps: seq<Step>, runId: string)
    requires Ends(StepsOf(steps, runId)) <= Begins(StepsOf(steps, runId))
    requires Begins(StepsOf(steps, runId)) > 0
    ensures var begun, ended := Begins(StepsOf(steps, runId)), Ends(StepsOf(steps, runId));
            (ReportedOpen(Log(steps), runId) <==> begun > ended) <==> !(0 < ended < begun)
  {
    TerminalMeansEnded(steps, runId);
    EventsOfRun(steps, runId);
    assert StepsOf(steps, runId) != [];
  }

  /** What of one execution reaches the log: its begin, its end, both in that order, or neither. */
  predicate SingleRun(steps: seq<Step>) {
    || |steps| <= 1
    || (|steps| == 2 && steps[0].Begin? && steps[1].End? && steps[0].call == steps[1].call)
  }

  /** Executions with distinct run ids, interleaved in any way. */
  ghost predicate Interleaving(steps: seq<Step>) {
    forall id :: SingleRun(StepsOf(steps, id))
  }

  /** The summary of a run whose end is logged: of a reply that kept the contract its status and counts, and of any
      other a failure with none. */
  predicate TellsEnd(s: Summary, first: Step, call: Call, reply: Reply, now: int) {
    var kept := KeepsContract(call.evidenceKinds, reply);
    && s.status == Some(if kept then reply.status else "failed")
    && s.connectorId == first.call.connectorId && s.operation == first.call.operation
    && s.startedAt == first.now && s.finishedAt == Some(now)
    && s.evidenceCount == (if kept then |reply.evidence| else 0)
    && s.eventCount == (if kept then |reply.events| else 0)
  }

  lemma EndSummary(runId: string, events: seq<Event>, first: Step, call: Call, reply: Reply, now: int)
    requires events != [] && exists e :: e in events && IsTerminal(e)
    requires events[0] == EventFor(first, events[0].sequence)
    requires events[|events| - 1] == EventFor(End(call, reply, now), events[|events| - 1].sequence)
    ensures TellsEnd(Summarise(runId, events), first, call, reply, now)
  {
    EventsSay(call, reply, events[|events| - 1].sequence, now);
  }

  /** What the log says of each run of an interleaving: a run whose end is not logged is open; one whose
      end is has the status and counts of a reply that kept the contract, and otherwise failed with none. */
  lemma InterleavedSummary(steps: seq<Step>, runId: string)
    requires Interleaving(steps)
    ensures var mine, summary := StepsOf(steps, runId), RunSummary(Log(steps), runId);
            && (mine == [] ==> summary == None)
            && (mine != [] && !mine[|mine| - 1].End? ==>
                  summary == Some(Summary(runId, mine[0].call.connectorId, mine[0].call.operation, None, mine[0].now,
                    None, 0, 0)))
            && (mine != [] && mine[|mine| - 1].End? ==>
                  var end := mine[|mine| - 1];
                  summary.Some? && TellsEnd(summary.value, mine[0], end.call, end.reply, end.now))
  {
    var mine, events := StepsOf(steps, runId), EventsOf(Log(steps), runId);
    assert SingleRun(mine);
    EventsOfRun(steps, runId);
    TerminalMeansEnded(steps, runId);
    EndsCounted(mine);
    if mine != [] {
      var last := |mine| - 1;
      assert events[0] == EventFor(mine[0], events[0].sequence)
        && events[last] == EventFor(mine[last], events[last].sequence);
      if mine[last].End? {
        EndSummary(runId, events, mine[0], mine[last].call, mine[last].reply, mine[last].now);
      }
    }
  }

  // ---- choosing the last completed run

  function FinishTime(s: Summary): int { if s.finishedAt.Some? then s.finishedAt.value else 0 }

  /** `max` by finish time: the first of the latest. */
  function Latest(runs: seq<Summary>): (best: Summary)
    requires runs != []
    ensures best in runs
  {
    if |runs| == 1 then runs[0]
    else
      var best := Latest(runs[..|runs| - 1]);
      if FinishTime(runs[|runs| - 1]) > FinishTime(best) then runs[|runs| - 1] else best
  }

  lemma {:induction false} LatestIsFirstMaximum(runs: seq<Summary>) returns (i: nat)
    requires runs != []
    ensures i < |runs| && runs[i] == Latest(runs)
    ensures forall j :: 0 <= j < |runs| ==> FinishTime(runs[j]) <= FinishTime(runs[i])
    ensures forall j :: 0 <= j < i ==> FinishTime(runs[j]) < FinishTime(runs[i])
  {
    var n := |runs|;
    if n == 1 {
      i := 0;
    } else {
      i := LatestIsFirstMaximum(runs[..n - 1]);
      if FinishTime(runs[n - 1]) > FinishTime(runs[i]) { i := n - 1; }
    }
  }

  // ---- the ledger object

  class ConnectorRunLedger {
    var events: seq<Event>

    constructor ()
      ensures events == []
    {
      events := [];
    }

    /** Numbers and stores one event; the clock is read before the lock is taken. */
    method Append(step: Step) returns (event: Event)
      modifies this
      ensures event == EventFor(step, |old(events)| + 1)
      ensures events == old(events) + [event]
    {
      event := EventFor(step, |events| + 1);
      events := events + [event];
    }

    /** One grouping pass over the log: the run ids in order of first appearance, and each run's events. */
    method GroupEvents() returns (order: seq<string>, runs: map<string, seq<Event>>)
      ensures order == RunIds(events)
      ensures forall id :: id in runs <==> EventsOf(events, id) != []
      ensures forall id :: id in runs ==> runs[id] == EventsOf(events, id)
    {
      order, runs := [], map[];
      for i := 0 to |events|
        invariant order == RunIds(events[..i])
        invariant forall id :: id in runs <==> EventsOf(events[..i], id) != []
        invariant forall id :: id in runs ==> runs[id] == EventsOf(events[..i], id)
      {
        var event := events[i];
        assert events[..i + 1] == events[..i] + [event];
        RunIdsAreLogged(events[..i]);
        NextRunId(events[..i], event);
        EventsOfNext(events[..i], event);
        if event.runId !in runs {
          order := order + [event.runId];
          runs := runs[event.runId := []];
        }
        runs := runs[event.runId := runs[event.runId] + [event]];
      }
      assert events[..|events|] == events;
    }

    /** All summaries at once: the same as summarising each run on its own, in order of first appearance. */
    method RunSummaries() returns (summaries: seq<Summary>)
      ensures |summaries| == |RunIds(events)|
      ensures forall i :: 0 <= i < |summaries| ==> RunSummary(events, RunIds(events)[i]) == Some(summaries[i])
    {
      var order, runs := GroupEvents();
      RunIdsAreLogged(events);
      summaries := [];
      for i := 0 to |order|
        invariant |summaries| == i
        invariant forall j :: 0 <= j < i ==> RunSummary(events, order[j]) == Some(summaries[j])
      {
        assert order[i] in order;
        summaries := summaries + [Summarise(order[i], runs[order[i]])];
      }
    }

    /** The runs not yet terminal, in order of first appearance. */
    method OpenRuns() returns (open: seq<Summary>)
      ensures open == Filter(Summaries(events), (s: Summary) => s.status.None?)
      ensures forall s :: s in open <==> EventsOf(events, s.runId) != [] && RunSummary(events, s.runId) == Some(s)
                                         && ReportedOpen(events, s.runId)
    {
      var all := RunSummaries();
      RunIdsAreLogged(events);
      assert all == Summaries(events);
      open := Filter(all, (s: Summary) => s.status.None?);
      forall s ensures s in open <==> EventsOf(events, s.runId) != [] && RunSummary(events, s.runId) == Some(s)
                                      && ReportedOpen(events, s.runId) {
        var ids := RunIds(events);
        if s in open {
          var i :| 0 <= i < |all| && all[i] == s;
          assert ids[i] in ids && s.runId == ids[i];
        }
        if EventsOf(events, s.runId) != [] && RunSummary(events, s.runId) == Some(s) && ReportedOpen(events, s.runId) {
          var i :| 0 <= i < |ids| && ids[i] == s.runId;
          assert all[i] == s;
        }
      }
    }

    /** The most recently finished run of a connector; the first to appear among ties. */
    method LastCompletedRun(connectorId: string) returns (run: Option<Summary>)
      ensures var completed := Filter(Summaries(events), (s: Summary) => IsCompleted(s, connectorId));
              if completed == [] then run == None
              else exists i :: && 0 <= i < |completed| && run == Some(completed[i])
                               && (forall j :: 0 <= j < |completed| ==>
                                    FinishTime(completed[j]) <= FinishTime(completed[i]))
                               && (forall j :: 0 <= j < i ==> FinishTime(completed[j]) < FinishTime(completed[i]))
    {
      var all := RunSummaries();
      RunIdsAreLogged(events);
      assert all == Summaries(events);
      var completed := Filter(all, (s: Summary) => IsCompleted(s, connectorId));
      if completed == [] { return None; }
      ghost var i := LatestIsFirstMaximum(completed);
      return Some(Latest(completed));
    }
  }

  lemma EventsOfNext(log: seq<Event>, e: Event)
    ensures forall id :: EventsOf(log + [e], id) == EventsOf(log, id) + (if e.runId == id then [e] else [])
  {
    forall id ensures EventsOf(log + [e], id) == EventsOf(log, id) + (if e.runId == id then [e] else []) {
      FilterSnoc(log, e, (x: Event) => x.runId == id);
    }
  }

  lemma NextRunId(log: seq<Event>, e: Event)
    ensures RunIds(log + [e]) == if e.runId in RunIds(log) then RunIds(log) else RunIds(log) + [e.runId]
  {
    var ids := Map(log + [e], RunIdOf);
    assert ids[..|log|] == Map(log, RunIdOf);
    assert Map(RunIds(log), Identity<string>) == RunIds(log);
  }

  /** Which of an execution's two appends reach the ledger: a failing append is swallowed. */
  datatype Stored = Stored(start: bool, finish: bool)

  /** The events one execution adds to a log of `n` events. */
  function Recorded(n: nat, call: Call, reply: Reply, began: int, ended: int, stored: Stored): seq<Event> {
    (if stored.start then [EventFor(Begin(call, began), n + 1)] else [])
    + (if stored.finish then [EventFor(End(call, reply, ended), n + (if stored.start then 2 else 1))] else [])
  }

  /** Records an audit event if there is a ledger and it takes the event; nothing is raised either way. */
  method RecordAuditEvent(ledger: ConnectorRunLedger?, step: Step, accepted: bool)
    modifies ledger
    ensures ledger != null ==>
              ledger.events == old(ledger.events)
                + (if accepted then [EventFor(step, |old(ledger.events)| + 1)] else [])
  {
    if ledger == null || !accepted { return; }
    var _ := ledger.Append(step);
  }

  /** One execution through the shim: a call the registry rejects writes nothing; any other records its two
      events around the adapter, as far as the ledger takes them, and returns the adapter's outcome
      whatever becomes of the audit. */
  method Execute(
      ledger: ConnectorRunLedger?, registry: map<string, Contract>, r: Request, reply: Reply, began: int, ended: int,
      stored: Stored)
    returns (result: Result<Outcome, CompileError>)
    modifies ledger
    ensures match Compile(registry, r)
            case Err(e) => result == Err(e) && (ledger != null ==> ledger.events == old(ledger.events))
            case Ok(call) =>
              && result == Ok(Normalise(call, reply))
              && (ledger != null ==>
                    ledger.events == old(ledger.events)
                      + Recorded(|old(ledger.events)|, call, reply, began, ended, stored))
  {
    match Compile(registry, r)
    case Err(e) => return Err(e);
    case Ok(call) =>
      RecordAuditEvent(ledger, Begin(call, began), stored.start);
      RecordAuditEvent(ledger, End(call, reply, ended), stored.finish);
      return Ok(Normalise(call, reply));
  }

  // ---- what an execution gives back and writes

  /** The adapter answered with one of the two statuses, and only with declared kinds of evidence. */
  predicate KeepsContract(kinds: set<string>, reply: Reply) {
    match reply
    case Raised(_) => false
    case Returned(status, evidence, _) =>
      status in {"succeeded", "failed"} && forall i :: 0 <= i < |evidence| ==> evidence[i] in kinds
  }

  /** A request compiles exactly when its connector is registered, the operation is declared, every public key is
      declared, and the secret keys are those declared; else the first of these that fails is the error. */
  lemma CompilesExactly(registry: map<string, Contract>, r: Request)
    ensures r.connectorId !in registry ==> Compile(registry, r) == Err(UnknownConnector)
    ensures r.connectorId in registry ==>
              var c, result := registry[r.connectorId], Compile(registry, r);
              && (result.Ok? <==> r.operation in c.operations && r.publicKeys <= c.publicKeys
                                  && r.secretKeys == c.secretKeys)
              && (result.Ok? ==> result.value == Call(r.runId, c.connectorId, r.operation, c.evidenceKinds))
              && (r.operation !in c.operations ==> result == Err(UndeclaredOperation))
              && (r.operation in c.operations && !(r.publicKeys <= c.publicKeys) ==>
                    result == Err(UndeclaredPublicKey))
              && (r.operation in c.operations && r.publicKeys <= c.publicKeys && !(c.secretKeys <= r.secretKeys) ==>
                    result == Err(MissingSecret))
              && (r.operation in c.operations && r.publicKeys <= c.publicKeys && c.secretKeys < r.secretKeys ==>
                    result == Err(UndeclaredSecret))
  {
    if r.connectorId in registry {
      var c := registry[r.connectorId];
      NoneBeyond(r.publicKeys, c.publicKeys);
      NoneBeyond(c.secretKeys, r.secretKeys);
      NoneBeyond(r.secretKeys, c.secretKeys);
    }
  }

  lemma NoneBeyond<T>(a: set<T>, b: set<T>)
    ensures a - b == {} <==> a <= b
  {
    forall x | x in a && a - b == {} ensures x in b { assert x !in a - b; }
  }

  /** The caller gets the adapter's answer when it kept the contract, and otherwise a failure without evidence. */
  lemma OutcomeExactly(call: Call, reply: Reply)
    ensures Normalise(call, reply)
            == if KeepsContract(call.evidenceKinds, reply)
               then Outcome(call.runId, call.connectorId, call.operation, reply.status, reply.evidence, reply.events)
               else Outcome(call.runId, call.connectorId, call.operation, "failed", [], ["connector.failed"])
  {
  }

  /** The two events of an execution say how it began and how it ended. */
  lemma EventsSay(call: Call, reply: Reply, sequence: nat, now: int)
    ensures EventFor(Begin(call, now), sequence)
            == Event(sequence, call.runId, "connector.execution.started", call.connectorId, call.operation, "requested",
                     "running", map[], now)
    ensures var kept, e := KeepsContract(call.evidenceKinds, reply), EventFor(End(call, reply, now), sequence);
            && e.sequence == sequence && e.runId == call.runId && e.connectorId == call.connectorId
            && e.operation == call.operation && e.fromState == "running" && e.createdAt == now
            && e.toState == (if kept then reply.status else "failed")
            && e.eventType == (if kept && reply.status == "succeeded" then "connector.execution.succeeded"
                               else "connector.execution.failed")
            && e.counts == (if kept then map["evidence_count" := |reply.evidence|, "event_count" := |reply.events|]
                            else map[])
  {
  }

  // ---- a reused run id

  /** A run id that is begun, ended and begun again is unfinished and reported closed. */
  lemma ReusedRunIdLooksClosed(call: Call, reply: Reply, t1: int, t2: int, t3: int)
    ensures var steps := [Begin(call, t1), End(call, reply, t2), Begin(call, t3)];
            && Begins(StepsOf(steps, call.runId)) == 2 && Ends(StepsOf(steps, call.runId)) == 1
            && !ReportedOpen(Log(steps), call.runId)
  {
    var a, b, c := Begin(call, t1), End(call, reply, t2), Begin(call, t3);
    var steps := [a, b, c];
    assert [a, b, c] == [] + [a] + [b] + [c];
    FilterThree(a, b, c, (s: Step) => s.call.runId == call.runId);
    FilterThree(a, b, c, (s: Step) => s.Begin?);
    FilterThree(a, b, c, (s: Step) => s.End?);
    assert StepsOf(steps, call.runId) == steps;
    OpenMeansUnfinished(steps, call.runId);
  }

  lemma FilterThree<T(!new)>(a: T, b: T, c: T, keep: T -> bool)
    ensures Filter([a, b, c], keep)
            == (if keep(a) then [a] else []) + (if keep(b) then [b] else []) + (if keep(c) then [c] else [])
  {
    FilterSnoc([], a, keep);
    FilterSnoc([a], b, keep);
    FilterSnoc([a, b], c, keep);
    assert [] + [a] == [a] && [a] + [b] == [a, b] && [a, b] + [c] == [a, b, c];
  }
}
