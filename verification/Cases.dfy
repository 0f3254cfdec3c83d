/** Operational cases: the records and the four mutations, each as a function from the
    stored case to the new one or an error. Clock readings and generated ids are arguments;
    redaction is taken as the identity. */
module Cases {
  import opened Basics
  import opened Text
  import opened Calendar

  datatype Status = Open | Acknowledged | InProgress | Resolved | Dismissed

  datatype CaseType =
    | SalesDrop | StockoutRisk | SpendWithoutOrders | DataStale
    | FulfillmentBacklog | UnansweredConversations | ChannelMixShift

  datatype Severity = Info | Warning | Critical

  datatype Freshness = Fresh | Stale | Degraded | Missing | Unknown

  datatype Actor = System | Operator

  datatype EventKind =
    CaseOpened | CaseUpdated | CaseReopened | StatusChanged | CaseAssigned | EvidenceAttached | OperatorComment

  datatype MetricValue = NumberValue(x: real) | TextValue(s: string) | FlagValue(b: bool)

  /** A metric captured as evidence, under its canonical key; `reportedAs` is its own key when that differs. */
  datatype EvidenceMetric = EvidenceMetric(
    key: string,
    caption: string,
    value: MetricValue,
    unit: Option<string>,
    reportedAs: Option<string>)

  datatype Snapshot = Snapshot(
    id: string,
    key: string,
    capturedAt: Time,
    runId: Option<string>,
    artifactRef: Option<string>,
    evidenceRef: string,
    source: string,
    sourceCaption: Option<string>,
    caseType: CaseType,
    scope: map<string, string>,
    summary: string,
    freshness: Freshness,
    metrics: seq<EvidenceMetric>)

  datatype Event = Event(
    kind: EventKind,
    actor: Actor,
    actorRef: string,
    runId: Option<string>,
    artifactRef: Option<string>,
    snapshotIds: seq<string>,
    at: Time,
    summary: string,
    metadata: map<string, string>)

  datatype Detection = Detection(
    businessId: string,
    caseType: CaseType,
    dedupeKey: string,
    title: string,
    severity: Severity,
    priority: int,
    scope: map<string, string>,
    evidenceRefs: seq<string>,
    runId: Option<string>,
    artifactRefs: seq<string>,
    snapshots: seq<Snapshot>,
    metadata: map<string, string>)

  datatype Case = Case(
    caseId: string,
    businessId: string,
    caseType: CaseType,
    dedupeKey: string,
    title: string,
    status: Status,
    severity: Severity,
    priority: int,
    scope: map<string, string>,
    openedAt: Time,
    updatedAt: Time,
    acknowledgedAt: Option<Time>,
    assignedAt: Option<Time>,
    assigneeRef: Option<string>,
    resolvedAt: Option<Time>,
    dismissedAt: Option<Time>,
    latestRunId: Option<string>,
    sourceRunIds: seq<string>,
    evidenceRefs: seq<string>,
    artifactRefs: seq<string>,
    snapshots: seq<Snapshot>,
    timeline: seq<Event>,
    metadata: map<string, string>)

  datatype CaseError = NotFound | BadTransition | BadValue

  // ---- lifecycle tables

  predicate IsTerminal(s: Status) { s == Resolved || s == Dismissed }

  function Targets(s: Status): set<Status> {
    match s
    case Open => {Acknowledged, InProgress, Dismissed}
    case Acknowledged => {InProgress, Resolved, Dismissed}
    case InProgress => {Resolved, Dismissed}
    case Resolved => {}
    case Dismissed => {}
  }

  function StatusText(s: Status): string {
    match s
    case Open => "open"
    case Acknowledged => "acknowledged"
    case InProgress => "in_progress"
    case Resolved => "resolved"
    case Dismissed => "dismissed"
  }

  function CaseTypeText(t: CaseType): string {
    match t
    case SalesDrop => "sales_drop"
    case StockoutRisk => "stockout_risk"
    case SpendWithoutOrders => "spend_without_orders"
    case DataStale => "data_stale"
    case FulfillmentBacklog => "fulfillment_backlog"
    case UnansweredConversations => "unanswered_conversations"
    case ChannelMixShift => "channel_mix_shift"
  }

  function SeverityText(s: Severity): string {
    match s
    case Info => "info"
    case Warning => "warning"
    case Critical => "critical"
  }

  /** Some evidence the case rests on is stale, degraded or missing. */
  predicate IsDegraded(c: Case) {
    exists s :: s in c.snapshots && s.freshness in {Stale, Degraded, Missing}
  }

  predicate NotBefore(t: Option<Time>, start: Time) { t.Some? ==> t.value >= start }

  /** The record validator every mutation ends with. */
  predicate LifecycleValid(c: Case) {
    && c.updatedAt >= c.openedAt
    && NotBefore(c.acknowledgedAt, c.openedAt)
    && NotBefore(c.assignedAt, c.openedAt)
    && (c.assignedAt.Some? <==> c.assigneeRef.Some?)
    && NotBefore(c.resolvedAt, c.openedAt)
    && NotBefore(c.dismissedAt, c.openedAt)
    && (c.status == Resolved <==> c.resolvedAt.Some?)
    && (c.status == Dismissed <==> c.dismissedAt.Some?)
  }

  function Validated(c: Case): Result<Case, CaseError> {
    if LifecycleValid(c) then Ok(c) else Err(BadValue)
  }

  // ---- evidence helpers

  predicate Truthy(s: Option<string>) { s.Some? && s.value != "" }

  function RunIds(runId: Option<string>): seq<string> { if Truthy(runId) then [runId.value] else [] }

  function FirstOf(refs: seq<string>): Option<string> { if refs == [] then None else Some(refs[0]) }

  function SnapshotKey(s: Snapshot): string { s.key }

  function KeysOf(snapshots: seq<Snapshot>): seq<string> { Map(snapshots, SnapshotKey) }

  /** The id a `{key: id}` dictionary built from `snapshots` holds for `key`: the last one wins. */
  function IdFor(snapshots: seq<Snapshot>, key: string): Option<string> {
    if snapshots == [] then None
    else if snapshots[|snapshots| - 1].key == key then Some(snapshots[|snapshots| - 1].id)
    else IdFor(snapshots[..|snapshots| - 1], key)
  }

  /** The ids stored for the requested keys, without repetition. */
  function CanonicalIds(snapshots: seq<Snapshot>, keys: seq<string>): seq<string> {
    if keys == [] then []
    else
      var ids := CanonicalIds(snapshots, keys[..|keys| - 1]);
      match IdFor(snapshots, keys[|keys| - 1])
      case Some(id) => if id in ids then ids else ids + [id]
      case None => ids
  }

  function Lookup(m: map<string, string>, key: string, default: string): string {
    if key in m then m[key] else default
  }

  /** `evidence://<source>/...`, or unknown. */
  function SourceOf(ref: string): string {
    var prefix := "evidence://";
    if prefix <= ref then
      var source := SplitOn(ref[|prefix|..], '/')[0];
      if source == "" then "unknown" else source
    else "unknown"
  }

  /** The key of a detection's snapshot of one evidence reference. */
  function KeyFor(d: Detection, ref: string): string {
    var run := if Truthy(d.runId) then d.runId.value else "unknown-run";
    run + "/" + ref + "/" + CaseTypeText(d.caseType) + "/" + Lookup(d.scope, "kind", "unknown") + "/"
    + Lookup(d.scope, "id", "unknown")
  }

  function MinimalSnapshot(d: Detection, ref: string, artifactRef: Option<string>, id: string, at: Time): Snapshot {
    Snapshot(
      id, KeyFor(d, ref),
      at, d.runId, artifactRef, ref, SourceOf(ref), None, d.caseType, d.scope, d.title, Unknown, [])
  }

  /** One minimal snapshot per evidence reference, with ids drawn from `newIds`. */
  function MinimalSnapshots(d: Detection, newIds: nat -> string, at: Time): seq<Snapshot> {
    seq(|d.evidenceRefs|, i requires 0 <= i < |d.evidenceRefs| =>
      MinimalSnapshot(d, d.evidenceRefs[i], FirstOf(d.artifactRefs), newIds(i), at))
  }

  /** The snapshots a detection brings, or else minimal ones. */
  function DetectionSnapshots(d: Detection, newIds: nat -> string, at: Time): seq<Snapshot> {
    UniqueBy(if d.snapshots != [] then d.snapshots else MinimalSnapshots(d, newIds, at), SnapshotKey)
  }

  // ---- the mutations

  function DetectionEvent(kind: EventKind, d: Detection, ids: seq<string>, at: Time): Event {
    var verb := if kind == CaseOpened then "Opened " else if kind == CaseReopened then "Reopened " else "Updated ";
    Event(kind, System, "orvo_runtime", d.runId, FirstOf(d.artifactRefs), ids, at,
          verb + CaseTypeText(d.caseType) + " case from deterministic detection.", map["dedupe_key" := d.dedupeKey])
  }

  function OpenCase(d: Detection, snapshots: seq<Snapshot>, caseId: string, at: Time): Case {
    Case(
      caseId, d.businessId, d.caseType, d.dedupeKey, d.title, Open, d.severity, d.priority, d.scope, at, at,
      None, None, None, None, None, d.runId, RunIds(d.runId), Unique(d.evidenceRefs), Unique(d.artifactRefs), snapshots,
      [DetectionEvent(CaseOpened, d, CanonicalIds(snapshots, KeysOf(snapshots)), at)],
      d.metadata)
  }

  function UpdateCase(c: Case, d: Detection, snapshots: seq<Snapshot>, at: Time): Case {
    var recurrence := IsTerminal(c.status);
    var merged := UniqueBy(c.snapshots + snapshots, SnapshotKey);
    var event := DetectionEvent(if recurrence then CaseReopened else CaseUpdated, d,
      CanonicalIds(merged, KeysOf(snapshots)), at);
    c.(title := d.title,
       status := if recurrence then Open else c.status,
       severity := d.severity,
       priority := d.priority,
       scope := if d.scope != map[] then d.scope else c.scope,
       updatedAt := at,
       acknowledgedAt := if recurrence then None else c.acknowledgedAt,
       resolvedAt := if recurrence then None else c.resolvedAt,
       dismissedAt := if recurrence then None else c.dismissedAt,
       latestRunId := if Truthy(d.runId) then d.runId else c.latestRunId,
       sourceRunIds := Unique(c.sourceRunIds + RunIds(d.runId)),
       evidenceRefs := Unique(c.evidenceRefs + d.evidenceRefs),
       artifactRefs := Unique(c.artifactRefs + d.artifactRefs),
       snapshots := merged,
       metadata := c.metadata + d.metadata,
       timeline := c.timeline + [event])
  }

  /** A detection opens a case, updates the one it duplicates, or reopens it if it was closed. */
  function Upsert(
      existing: Option<Case>, d: Detection, newIds: nat -> string, caseId: string, at: Time): Result<Case, CaseError>
  {
    var snapshots := DetectionSnapshots(d, newIds, at);
    match existing
    case None => Validated(OpenCase(d, snapshots, caseId, at))
    case Some(c) => Validated(UpdateCase(c, d, snapshots, at))
  }

  function NonBlank(text: Option<string>): Option<string> {
    if text.Some? && Strip(text.value) != "" then Some(Strip(text.value)) else None
  }

  function OperatorEvent(
      kind: EventKind, actor: Actor, actorRef: string, at: Time, summary: string, metadata: map<string, string>): Event
  {
    Event(kind, actor, actorRef, None, None, [], at, summary, metadata)
  }

  function TransitionEvent(
      from: Status, to: Status, actor: Actor, actorRef: string, reason: Option<string>, at: Time): Event
  {
    var summary := match NonBlank(reason)
                   case Some(text) => text
                   case None => "Status changed from " + StatusText(from) + " to " + StatusText(to) + ".";
    OperatorEvent(StatusChanged, actor, actorRef, at, summary,
      map["from_status" := StatusText(from), "to_status" := StatusText(to)])
  }

  function Transition(
      c: Case, status: Status, actor: Actor, actorRef: string, reason: Option<string>, at: Time)
    : Result<Case, CaseError>
  {
    if status == c.status || status !in Targets(c.status) then Err(BadTransition)
    else if actor == Operator && IsTerminal(status) && NonBlank(reason).None? then Err(BadTransition)
    else
      Validated(c.(status := status,
                   updatedAt := at,
                   acknowledgedAt := if status == Acknowledged || status == InProgress then Some(at)
                     else c.acknowledgedAt,
                   resolvedAt := if status == Resolved then Some(at) else c.resolvedAt,
                   dismissedAt := if status == Dismissed then Some(at) else c.dismissedAt,
                   timeline := c.timeline + [TransitionEvent(c.status, status, actor, actorRef, reason, at)]))
  }

  function AddComment(c: Case, actor: Actor, actorRef: string, comment: string, metadata: map<string, string>, at: Time)
    : Result<Case, CaseError>
  {
    if Strip(comment) == "" then Err(BadValue)
    else
      Validated(c.(updatedAt := at,
                   timeline := c.timeline
                     + [OperatorEvent(OperatorComment, actor, actorRef, at, Strip(comment), metadata)]))
  }

  function Assign(c: Case, actor: Actor, actorRef: string, assignee: string, at: Time): Result<Case, CaseError> {
    var ref := Strip(assignee);
    if IsTerminal(c.status) then Err(BadTransition)
    else if ref == "" then Err(BadValue)
    else
      Validated(c.(assigneeRef := Some(ref),
                   assignedAt := Some(at),
                   updatedAt := at,
                   timeline := c.timeline
                     + [OperatorEvent(CaseAssigned, actor, actorRef, at, "Assigned case to " + ref + ".",
                                                           map["assignee_ref" := ref])]))
  }

  // ---- the list helpers as the program runs them

  method UniqueStrings(values: seq<string>) returns (result: seq<string>)
    ensures result == Unique(values)
  {
    var seen: set<string> := {};
    result := [];
    for i := 0 to |values|
      invariant result == Unique(values[..i])
      invariant forall v :: v in seen <==> v in Map(result, Identity<string>)
    {
      assert values[..i + 1][..i] == values[..i];
      if values[i] !in seen {
        seen := seen + {values[i]};
        assert Map(result + [values[i]], Identity<string>) == Map(result, Identity<string>) + [values[i]];
        result := result + [values[i]];
      }
    }
    assert values[..|values|] == values;
  }

  method UniqueSnapshots(snapshots: seq<Snapshot>) returns (result: seq<Snapshot>)
    ensures result == UniqueBy(snapshots, SnapshotKey)
  {
    var seen: set<string> := {};
    result := [];
    for i := 0 to |snapshots|
      invariant result == UniqueBy(snapshots[..i], SnapshotKey)
      invariant forall k :: k in seen <==> k in KeysOf(result)
    {
      assert snapshots[..i + 1][..i] == snapshots[..i];
      if snapshots[i].key !in seen {
        seen := seen + {snapshots[i].key};
        assert KeysOf(result + [snapshots[i]]) == KeysOf(result) + [snapshots[i].key];
        result := result + [snapshots[i]];
      }
    }
    assert snapshots[..|snapshots|] == snapshots;
  }

  method CanonicalSnapshotIds(snapshots: seq<Snapshot>, keys: seq<string>) returns (ids: seq<string>)
    ensures ids == CanonicalIds(snapshots, keys)
  {
    var byKey: map<string, string> := map[];
    for i := 0 to |snapshots|
      invariant forall k :: k in byKey <==> IdFor(snapshots[..i], k).Some?
      invariant forall k :: k in byKey ==> IdFor(snapshots[..i], k) == Some(byKey[k])
    {
      assert snapshots[..i + 1][..i] == snapshots[..i];
      byKey := byKey[snapshots[i].key := snapshots[i].id];
    }
    assert snapshots[..|snapshots|] == snapshots;
    ids := [];
    var seen: set<string> := {};
    for i := 0 to |keys|
      invariant ids == CanonicalIds(snapshots, keys[..i])
      invariant forall id :: id in seen <==> id in ids
    {
      assert keys[..i + 1][..i] == keys[..i];
      if keys[i] in byKey && byKey[keys[i]] !in seen {
        seen := seen + {byKey[keys[i]]};
        ids := ids + [byKey[keys[i]]];
      }
    }
    assert keys[..|keys|] == keys;
  }
}
