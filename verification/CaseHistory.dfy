/** The timeline as the source of truth: an independent reading of timelines that refuses
    illegal histories, and what every mutation keeps of a single case. */
module CaseHistory {
  import opened Basics
  import opened Text
  import opened Calendar
  import opened Cases

  /** The lifecycle fields of a case. */
  datatype View = View(
    status: Status,
    openedAt: Time,
    updatedAt: Time,
    acknowledgedAt: Option<Time>,
    resolvedAt: Option<Time>,
    dismissedAt: Option<Time>,
    assigneeRef: Option<string>,
    assignedAt: Option<Time>)

  function ViewOf(c: Case): View {
    View(c.status, c.openedAt, c.updatedAt, c.acknowledgedAt, c.resolvedAt, c.dismissedAt, c.assigneeRef, c.assignedAt)
  }

  function ReadStatus(text: string): Option<Status> {
    if text == "open" then Some(Open)
    else if text == "acknowledged" then Some(Acknowledged)
    else if text == "in_progress" then Some(InProgress)
    else if text == "resolved" then Some(Resolved)
    else if text == "dismissed" then Some(Dismissed)
    else None
  }

  lemma ReadStatusText(s: Status)
    ensures ReadStatus(StatusText(s)) == Some(s)
  {
  }

  /** A recorded transition, if it leaves the current status along the table. */
  function ReadTransition(current: Status, e: Event): Option<Status> {
    if "from_status" !in e.metadata || "to_status" !in e.metadata then None
    else
      match ReadStatus(e.metadata["to_status"])
      case None => None
      case Some(to) =>
        if e.metadata["from_status"] == StatusText(current) && to in Targets(current) then Some(to) else None
  }

  /** The lifecycle after one more event, or None when the event is illegal there: a status changes
      only along the table, and a closed case is left only by reopening. */
  function Fold(v: View, e: Event): Option<View> {
    match e.kind
    case CaseOpened => None
    case EvidenceAttached => None
    case OperatorComment => Some(v.(updatedAt := e.at))
    case CaseUpdated => if IsTerminal(v.status) then None else Some(v.(updatedAt := e.at))
    case CaseReopened =>
      if !IsTerminal(v.status) then None
      else Some(v.(status := Open, updatedAt := e.at, acknowledgedAt := None, resolvedAt := None, dismissedAt := None))
    case CaseAssigned =>
      if IsTerminal(v.status) || "assignee_ref" !in e.metadata then None
      else Some(v.(assigneeRef := Some(e.metadata["assignee_ref"]), assignedAt := Some(e.at), updatedAt := e.at))
    case StatusChanged =>
      match ReadTransition(v.status, e)
      case None => None
      case Some(Resolved) => Some(v.(status := Resolved, updatedAt := e.at, resolvedAt := Some(e.at)))
      case Some(Dismissed) => Some(v.(status := Dismissed, updatedAt := e.at, dismissedAt := Some(e.at)))
      case Some(to) => Some(v.(status := to, updatedAt := e.at, acknowledgedAt := Some(e.at)))
  }

  /** The lifecycle a timeline describes, or None for an illegal timeline. */
  function Replay(timeline: seq<Event>): Option<View> {
    if timeline == [] then None
    else
      var e := timeline[|timeline| - 1];
      if |timeline| == 1 then
        if e.kind == CaseOpened then Some(View(Open, e.at, e.at, None, None, None, None, None)) else None
      else
        match Replay(timeline[..|timeline| - 1])
        case None => None
        case Some(v) => Fold(v, e)
  }

  predicate HoldsId(snapshots: seq<Snapshot>, id: string) { exists s :: s in snapshots && s.id == id }

  /** Every snapshot an event names is still held by the case. */
  predicate ReferencesHeld(timeline: seq<Event>, snapshots: seq<Snapshot>) {
    forall e, id :: e in timeline && id in e.snapshotIds ==> HoldsId(snapshots, id)
  }

  ghost predicate EvidenceDistinct(c: Case) {
    && NoDuplicates(c.sourceRunIds) && NoDuplicates(c.evidenceRefs) && NoDuplicates(c.artifactRefs)
    && NoDuplicates(KeysOf(c.snapshots))
  }

  /** What every stored case satisfies. */
  ghost predicate Sound(c: Case) {
    && LifecycleValid(c)
    && Replay(c.timeline) == Some(ViewOf(c))
    && EvidenceDistinct(c)
    && ReferencesHeld(c.timeline, c.snapshots)
    && (c.status == Resolved ==> c.acknowledgedAt.Some?)
    && (c.status == InProgress || c.status == Acknowledged ==> c.acknowledgedAt.Some?)
  }

  /** `later` is `c` after one or more mutations or none: same identity, and every list only grew at its end. */
  ghost predicate Grew(c: Case, later: Case) {
    && later.caseId == c.caseId && later.businessId == c.businessId && later.dedupeKey == c.dedupeKey
    && later.caseType == c.caseType && later.openedAt == c.openedAt
    && c.sourceRunIds <= later.sourceRunIds && c.evidenceRefs <= later.evidenceRefs
       && c.artifactRefs <= later.artifactRefs
    && c.snapshots <= later.snapshots && c.timeline <= later.timeline
  }

  // ---- snapshot ids

  lemma {:induction false} IdForIsHeld(snapshots: seq<Snapshot>, key: string)
    ensures IdFor(snapshots, key).Some? ==> HoldsId(snapshots, IdFor(snapshots, key).value)
    ensures IdFor(snapshots, key).Some? <==> key in KeysOf(snapshots)
  {
    if snapshots != [] {
      var n := |snapshots|;
      IdForIsHeld(snapshots[..n - 1], key);
      assert KeysOf(snapshots)[..n - 1] == KeysOf(snapshots[..n - 1]);
      assert KeysOf(snapshots) == KeysOf(snapshots[..n - 1]) + [snapshots[n - 1].key];
      if IdFor(snapshots, key).Some? {
        if snapshots[n - 1].key == key {
          assert snapshots[n - 1] in snapshots;
        } else {
          var s :| s in snapshots[..n - 1] && s.id == IdFor(snapshots, key).value;
          assert s in snapshots;
        }
      }
    }
  }

  /** Requested keys that are held give held ids, each once. */
  lemma {:induction false} CanonicalIdsAreHeld(snapshots: seq<Snapshot>, keys: seq<string>)
    ensures forall id :: id in CanonicalIds(snapshots, keys) ==> HoldsId(snapshots, id)
    ensures NoDuplicates(CanonicalIds(snapshots, keys))
    ensures forall k :: k in keys && k in KeysOf(snapshots) ==>
              IdFor(snapshots, k).Some? && IdFor(snapshots, k).value in CanonicalIds(snapshots, keys)
    ensures forall id :: id in CanonicalIds(snapshots, keys) ==>
              exists k ::
                k in keys && IdFor(snapshots, k) == Some(id)
  {
    if keys != [] {
      var n := |keys|;
      CanonicalIdsAreHeld(snapshots, keys[..n - 1]);
      IdForIsHeld(snapshots, keys[n - 1]);
      assert keys == keys[..n - 1] + [keys[n - 1]];
      forall id | id in CanonicalIds(snapshots, keys)
        ensures exists k :: k in keys && IdFor(snapshots, k) == Some(id)
      {
        if id in CanonicalIds(snapshots, keys[..n - 1]) {
          var k :| k in keys[..n - 1] && IdFor(snapshots, k) == Some(id);
          assert k in keys;
        } else {
          assert keys[n - 1] in keys;
        }
      }
    }
  }

  /** With distinct keys, a key's id is the id of the one snapshot that has the key. */
  lemma {:induction false} IdForUnique(snapshots: seq<Snapshot>, i: nat)
    requires NoDuplicates(KeysOf(snapshots)) && i < |snapshots|
    ensures IdFor(snapshots, snapshots[i].key) == Some(snapshots[i].id)
  {
    var n := |snapshots|;
    assert KeysOf(snapshots)[..n - 1] == KeysOf(snapshots[..n - 1]);
    if i < n - 1 {
      assert KeysOf(snapshots)[i] != KeysOf(snapshots)[n - 1];
      IdForUnique(snapshots[..n - 1], i);
    }
  }

  /** A snapshot key keeps the id it was first stored with, however often it is detected again. */
  lemma StoredIdIsKept(c: Case, later: Case, key: string)
    requires Sound(c) && Sound(later) && Grew(c, later) && key in KeysOf(c.snapshots)
    ensures IdFor(c.snapshots, key).Some? && IdFor(later.snapshots, key) == IdFor(c.snapshots, key)
  {
    var i :| 0 <= i < |c.snapshots| && KeysOf(c.snapshots)[i] == key;
    IdForUnique(c.snapshots, i);
    IdForUnique(later.snapshots, i);
  }

  // ---- the mutations keep cases sound

  lemma UniqueIsDistinct(s: seq<string>)
    ensures NoDuplicates(Unique(s))
  {
    assert Map([], Identity<string>) == [];
    AppendNewKeys([], s, Identity<string>);
    assert Map(Unique(s), Identity<string>) == Unique(s);
  }

  lemma UniqueExtends(s: seq<string>, more: seq<string>)
    requires NoDuplicates(s)
    ensures s <= Unique(s + more) && NoDuplicates(Unique(s + more))
  {
    assert Map(s, Identity<string>) == s;
    UniqueKeepsPrefix(s, more, Identity<string>);
    UniqueIsDistinct(s + more);
  }

  lemma SnapshotsDistinct(s: seq<Snapshot>)
    ensures NoDuplicates(KeysOf(UniqueBy(s, SnapshotKey)))
  {
    assert Map([], SnapshotKey) == [];
    AppendNewKeys([], s, SnapshotKey);
  }

  lemma ReplayStep(timeline: seq<Event>, e: Event)
    requires Replay(timeline).Some?
    ensures Replay(timeline + [e]) == Fold(Replay(timeline).value, e)
  {
  }

  lemma ReferencesExtend(timeline: seq<Event>, e: Event, before: seq<Snapshot>, after: seq<Snapshot>)
    requires ReferencesHeld(timeline, before) && before <= after
    requires forall id :: id in e.snapshotIds ==> HoldsId(after, id)
    ensures ReferencesHeld(timeline + [e], after)
  {
    forall x, id | x in timeline + [e] && id in x.snapshotIds ensures HoldsId(after, id) {
      if x in timeline {
        assert HoldsId(before, id);
        var s :| s in before && s.id == id;
        assert s in after;
      }
    }
  }

  lemma OpenIsSound(d: Detection, newIds: nat -> string, caseId: string, at: Time)
    ensures var r := Upsert(None, d, newIds, caseId, at);
            && r.Ok? && Sound(r.value) && r.value.caseId == caseId && r.value.businessId == d.businessId
            && r.value.dedupeKey == d.dedupeKey && r.value.openedAt == at
  {
    var snapshots := DetectionSnapshots(d, newIds, at);
    var c := OpenCase(d, snapshots, caseId, at);
    SnapshotsDistinct(if d.snapshots != [] then d.snapshots else MinimalSnapshots(d, newIds, at));
    UniqueIsDistinct(d.evidenceRefs);
    UniqueIsDistinct(d.artifactRefs);
    CanonicalIdsAreHeld(snapshots, KeysOf(snapshots));
    ReferencesExtend([], c.timeline[0], [], snapshots);
    assert [] + [c.timeline[0]] == c.timeline;
  }

  lemma UpsertIsSound(c: Case, d: Detection, newIds: nat -> string, caseId: string, at: Time)
    requires Sound(c) && Upsert(Some(c), d, newIds, caseId, at).Ok?
    ensures var r := Upsert(Some(c), d, newIds, caseId, at).value; Sound(r) && Grew(c, r)
  {
    var snapshots := DetectionSnapshots(d, newIds, at);
    var r := UpdateCase(c, d, snapshots, at);
    UniqueExtends(c.sourceRunIds, RunIds(d.runId));
    UniqueExtends(c.evidenceRefs, d.evidenceRefs);
    UniqueExtends(c.artifactRefs, d.artifactRefs);
    UniqueKeepsPrefix(c.snapshots, snapshots, SnapshotKey);
    SnapshotsDistinct(c.snapshots + snapshots);
    var e := r.timeline[|c.timeline|];
    CanonicalIdsAreHeld(r.snapshots, KeysOf(snapshots));
    ReferencesExtend(c.timeline, e, c.snapshots, r.snapshots);
    ReplayStep(c.timeline, e);
  }

  lemma TransitionIsSound(c: Case, status: Status, actor: Actor, actorRef: string, reason: Option<string>, at: Time)
    requires Sound(c) && Transition(c, status, actor, actorRef, reason, at).Ok?
    ensures var r := Transition(c, status, actor, actorRef, reason, at).value;
            && Sound(r) && Grew(c, r) && |r.timeline| == |c.timeline| + 1 && r.status == status
            && r == c.(status := r.status, updatedAt := at, acknowledgedAt := r.acknowledgedAt,
                       resolvedAt := r.resolvedAt, dismissedAt := r.dismissedAt, timeline := r.timeline)
    ensures var r := Transition(c, status, actor, actorRef, reason, at).value;
            r.timeline[|c.timeline|] == Event(
              StatusChanged, actor, actorRef, None, None, [], at,
              if reason.Some? && Strip(reason.value) != "" then Strip(reason.value)
              else "Status changed from " + StatusText(c.status) + " to " + StatusText(status) + ".",
              map["from_status" := StatusText(c.status), "to_status" := StatusText(status)])
  {
    var e := TransitionEvent(c.status, status, actor, actorRef, reason, at);
    ReferencesExtend(c.timeline, e, c.snapshots, c.snapshots);
    ReplayStep(c.timeline, e);
    ReadStatusText(status);
  }

  lemma CommentIsSound(
      c: Case, actor: Actor, actorRef: string, comment: string, metadata: map<string, string>, at: Time)
    requires Sound(c) && AddComment(c, actor, actorRef, comment, metadata, at).Ok?
    ensures var r := AddComment(c, actor, actorRef, comment, metadata, at).value;
            Sound(r) && Grew(c, r) && |r.timeline| == |c.timeline| + 1
              && r == c.(updatedAt := at, timeline := r.timeline)
    ensures AddComment(c, actor, actorRef, comment, metadata, at).value.timeline[|c.timeline|]
            == Event(OperatorComment, actor, actorRef, None, None, [], at, Strip(comment), metadata)
  {
  }

  lemma AssignIsSound(c: Case, actor: Actor, actorRef: string, assignee: string, at: Time)
    requires Sound(c) && Assign(c, actor, actorRef, assignee, at).Ok?
    ensures var r := Assign(c, actor, actorRef, assignee, at).value;
            && Sound(r) && Grew(c, r) && |r.timeline| == |c.timeline| + 1
            && r == c.(assigneeRef := Some(Strip(assignee)), assignedAt := Some(at), updatedAt := at,
                       timeline := r.timeline)
    ensures Assign(c, actor, actorRef, assignee, at).value.timeline[|c.timeline|]
            == Event(CaseAssigned, actor, actorRef, None, None, [], at, "Assigned case to " + Strip(assignee) + ".",
                     map["assignee_ref" := Strip(assignee)])
  {
  }

  // ---- what each mutation records

  /** `all` holds the old items, the new ones, and nothing else. */
  predicate HoldsBoth<T(==)>(all: seq<T>, was: seq<T>, more: seq<T>) {
    && (forall x :: x in was ==> x in all) && (forall x :: x in more ==> x in all)
    && (forall x :: x in all ==> x in was || x in more)
  }

  lemma UniqueHasAll(s: seq<string>)
    ensures forall x :: x in Unique(s) <==> x in s
  {
    AppendNewMembers([], s, Identity<string>);
    assert Map(Unique(s), Identity<string>) == Unique(s);
    forall x | x in s ensures x in Unique(s) { assert Identity<string>(x) in Map(Unique(s), Identity<string>); }
  }

  lemma UniqueHoldsBoth(s: seq<string>, more: seq<string>)
    ensures HoldsBoth(Unique(s + more), s, more)
  {
    UniqueHasAll(s + more);
  }

  lemma SnapshotKeysHoldBoth(s: seq<Snapshot>, more: seq<Snapshot>)
    ensures HoldsBoth(KeysOf(UniqueBy(s + more, SnapshotKey)), KeysOf(s), KeysOf(more))
  {
    var kept := UniqueBy(s + more, SnapshotKey);
    AppendNewMembers([], s + more, SnapshotKey);
    assert KeysOf(s + more) == KeysOf(s) + KeysOf(more);
    MapMembers(s + more, SnapshotKey);
    MapMembers(kept, SnapshotKey);
  }

  lemma {:induction false} FirstIsKept<T, K>(s: seq<T>, key: T -> K, i: nat)
    requires i < |s| && forall j :: 0 <= j < i ==> key(s[j]) != key(s[i])
    ensures s[i] in UniqueBy(s, key)
  {
    var front := s[..|s| - 1];
    if i < |front| {
      assert front[i] == s[i];
      FirstIsKept(front, key, i);
    } else {
      var kept := UniqueBy(front, key);
      AppendNewMembers([], front, key);
      assert forall m :: 0 <= m < |kept| ==> kept[m] in front;
    }
  }

  /** The event a detection leaves. */
  predicate RecordsDetection(e: Event, kind: EventKind, verb: string, d: Detection, at: Time) {
    && e.kind == kind && e.actor == System && e.actorRef == "orvo_runtime" && e.runId == d.runId && e.at == at
    && (if d.artifactRefs == [] then e.artifactRef == None else e.artifactRef == Some(d.artifactRefs[0]))
    && e.summary == verb + " " + CaseTypeText(d.caseType) + " case from deterministic detection."
    && e.metadata == map["dedupe_key" := d.dedupeKey]
  }

  /** A run id counts unless it is missing or empty. */
  ghost predicate RunOf(ids: seq<string>, runId: Option<string>) {
    forall x :: x in ids <==> x != "" && runId == Some(x)
  }

  ghost predicate SameItems(all: seq<string>, items: seq<string>) {
    forall x :: x in all <==> x in items
  }

  /** The event names exactly the stored ids of the snapshots brought under `keys`. */
  ghost predicate NamesSnapshots(e: Event, held: seq<Snapshot>, keys: seq<string>) {
    && (forall k :: k in keys ==> IdFor(held, k).Some? && IdFor(held, k).value in e.snapshotIds)
    && (forall id :: id in e.snapshotIds ==>
          exists k ::
            k in keys && IdFor(held, k) == Some(id))
    && NoDuplicates(e.snapshotIds)
  }

  /** A first detection opens a case that says and holds exactly what the detection brings; its one event
      names every snapshot. */
  lemma OpenRecords(d: Detection, newIds: nat -> string, caseId: string, at: Time)
    requires Upsert(None, d, newIds, caseId, at).Ok?
    ensures var c := Upsert(None, d, newIds, caseId, at).value;
            && c.caseId == caseId && c.businessId == d.businessId && c.dedupeKey == d.dedupeKey
            && c.caseType == d.caseType && c.title == d.title && c.severity == d.severity && c.priority == d.priority
            && c.scope == d.scope && c.metadata == d.metadata && c.latestRunId == d.runId
            && c.status == Open && c.openedAt == at && c.updatedAt == at && c.acknowledgedAt == None
            && c.assignedAt == None && c.assigneeRef == None && c.resolvedAt == None && c.dismissedAt == None
    ensures var c := Upsert(None, d, newIds, caseId, at).value;
            && RunOf(c.sourceRunIds, d.runId) && SameItems(c.evidenceRefs, d.evidenceRefs)
            && SameItems(c.artifactRefs, d.artifactRefs)
            && SameItems(KeysOf(c.snapshots), KeysOf(DetectionSnapshots(d, newIds, at)))
            && forall s :: s in c.snapshots <==> s in DetectionSnapshots(d, newIds, at)
    ensures var c := Upsert(None, d, newIds, caseId, at).value;
            && |c.timeline| == 1 && RecordsDetection(c.timeline[0], CaseOpened, "Opened", d, at)
            && NamesSnapshots(c.timeline[0], c.snapshots, KeysOf(c.snapshots))
            && forall s :: s in c.snapshots ==> s.id in c.timeline[0].snapshotIds
  {
    var snapshots := DetectionSnapshots(d, newIds, at);
    UniqueHasAll(d.evidenceRefs);
    UniqueHasAll(d.artifactRefs);
    CanonicalIdsAreHeld(snapshots, KeysOf(snapshots));
    IdsOfKeys(snapshots);
    SnapshotsDistinct(if d.snapshots != [] then d.snapshots else MinimalSnapshots(d, newIds, at));
    OpenedText(d, CanonicalIds(snapshots, KeysOf(snapshots)), at);
    forall s | s in snapshots ensures s.id in CanonicalIds(snapshots, KeysOf(snapshots)) {
      var i :| 0 <= i < |snapshots| && snapshots[i] == s;
      IdForUnique(snapshots, i);
      assert KeysOf(snapshots)[i] == s.key;
    }
  }

  lemma IdsOfKeys(snapshots: seq<Snapshot>)
    ensures forall k :: k in KeysOf(snapshots) ==> IdFor(snapshots, k).Some?
  {
    forall k | k in KeysOf(snapshots) ensures IdFor(snapshots, k).Some? { IdForIsHeld(snapshots, k); }
  }

  lemma OpenedText(d: Detection, ids: seq<string>, at: Time)
    ensures RecordsDetection(DetectionEvent(CaseOpened, d, ids, at), CaseOpened, "Opened", d, at)
    ensures RecordsDetection(DetectionEvent(CaseUpdated, d, ids, at), CaseUpdated, "Updated", d, at)
    ensures RecordsDetection(DetectionEvent(CaseReopened, d, ids, at), CaseReopened, "Reopened", d, at)
  {
    assert "Opened" + " " == "Opened " && "Updated" + " " == "Updated " && "Reopened" + " " == "Reopened ";
  }

  /** A detection with snapshots brings those, the first of each key. */
  lemma OwnSnapshots(d: Detection, newIds: nat -> string, at: Time)
    requires d.snapshots != []
    ensures var brought := DetectionSnapshots(d, newIds, at);
            && SameItems(KeysOf(brought), KeysOf(d.snapshots)) && (forall s :: s in brought ==> s in d.snapshots)
            && forall i :: 0 <= i < |d.snapshots| && IsFirstOfItsKey(d.snapshots, i) ==> d.snapshots[i] in brought
  {
    var brought := DetectionSnapshots(d, newIds, at);
    AppendNewMembers([], d.snapshots, SnapshotKey);
    MapMembers(brought, SnapshotKey);
    MapMembers(d.snapshots, SnapshotKey);
    forall i | 0 <= i < |d.snapshots| && IsFirstOfItsKey(d.snapshots, i) ensures d.snapshots[i] in brought {
      FirstIsKept(d.snapshots, SnapshotKey, i);
    }
  }

  /** A detection without snapshots brings a minimal one for each evidence reference, and no other. */
  lemma MinimalOnes(d: Detection, newIds: nat -> string, at: Time)
    requires d.snapshots == []
    ensures forall s :: s in DetectionSnapshots(d, newIds, at) ==>
              s.evidenceRef in d.evidenceRefs && IsMinimal(s, d, at) && DrawsId(s, d, newIds)
    ensures forall ref :: ref in d.evidenceRefs ==> BringsReference(DetectionSnapshots(d, newIds, at), ref)
  {
    var all, brought := MinimalSnapshots(d, newIds, at), DetectionSnapshots(d, newIds, at);
    AppendNewMembers([], all, SnapshotKey);
    AllMinimal(d, newIds, at);
    forall s | s in brought ensures s.evidenceRef in d.evidenceRefs && IsMinimal(s, d, at) && DrawsId(s, d, newIds) {
      MinimalTells(s, d, at);
    }
    forall ref | ref in d.evidenceRefs ensures BringsReference(brought, ref) {
      var i :| 0 <= i < |d.evidenceRefs| && d.evidenceRefs[i] == ref;
      assert all[i].evidenceRef == ref && all[i] in all;
      KeptUnderItsKey(all, all[i]);
      var s :| s in brought && s.key == all[i].key;
      KeyTellsReference(d, ref, s.evidenceRef);
    }
  }

  /** Its id is the one drawn for its place among the references. */
  predicate DrawsId(s: Snapshot, d: Detection, newIds: nat -> string) {
    exists i :: 0 <= i < |d.evidenceRefs| && d.evidenceRefs[i] == s.evidenceRef && s.id == newIds(i)
  }

  lemma AllMinimal(d: Detection, newIds: nat -> string, at: Time)
    ensures forall s :: s in MinimalSnapshots(d, newIds, at) ==>
              s.evidenceRef in d.evidenceRefs && MinimalOf(s, d, at) && DrawsId(s, d, newIds)
  {
    var all := MinimalSnapshots(d, newIds, at);
    forall i | 0 <= i < |all|
      ensures all[i].evidenceRef in d.evidenceRefs && MinimalOf(all[i], d, at) && DrawsId(all[i], d, newIds)
    {
      assert all[i] == MinimalSnapshot(d, d.evidenceRefs[i], FirstOf(d.artifactRefs), newIds(i), at);
    }
  }

  lemma MinimalTells(s: Snapshot, d: Detection, at: Time)
    requires MinimalOf(s, d, at)
    ensures IsMinimal(s, d, at)
  {
  }

  predicate BringsReference(snapshots: seq<Snapshot>, ref: string) {
    exists s :: s in snapshots && s.evidenceRef == ref
  }

  lemma KeptUnderItsKey(all: seq<Snapshot>, s: Snapshot)
    requires s in all
    ensures exists t :: t in UniqueBy(all, SnapshotKey) && t.key == s.key
  {
    var kept := UniqueBy(all, SnapshotKey);
    AppendNewMembers([], all, SnapshotKey);
    var m :| 0 <= m < |kept| && Map(kept, SnapshotKey)[m] == SnapshotKey(s);
    assert kept[m] in kept;
  }

  predicate IsFirstOfItsKey(snapshots: seq<Snapshot>, i: nat)
    requires i < |snapshots|
  {
    forall j :: 0 <= j < i ==> snapshots[j].key != snapshots[i].key
  }

  /** A snapshot that tells no more than the detection: its title, and no metrics of unknown age. */
  predicate IsMinimal(s: Snapshot, d: Detection, at: Time) {
    && s.capturedAt == at && s.runId == d.runId && s.caseType == d.caseType && s.scope == d.scope
    && s.summary == d.title && s.freshness == Unknown && s.metrics == [] && s.sourceCaption == None
    && (if d.artifactRefs == [] then s.artifactRef == None else s.artifactRef == Some(d.artifactRefs[0]))
    && s.source == SourceOf(s.evidenceRef)
  }

  /** Snapshots of one detection share a key only when they are of the same reference. */
  lemma KeyTellsReference(d: Detection, a: string, b: string)
    requires KeyFor(d, a) == KeyFor(d, b)
    ensures a == b
  {
    var run := if Truthy(d.runId) then d.runId.value else "unknown-run";
    var kind, id := Lookup(d.scope, "kind", "unknown"), Lookup(d.scope, "id", "unknown");
    var caseType := CaseTypeText(d.caseType);
    Regrouped(run, a, caseType, kind, id);
    Regrouped(run, b, caseType, kind, id);
    SameMiddle(run + "/", a, b, "/" + caseType + "/" + kind + "/" + id);
  }

  predicate MinimalOf(s: Snapshot, d: Detection, at: Time) {
    s == MinimalSnapshot(d, s.evidenceRef, FirstOf(d.artifactRefs), s.id, at)
  }

  lemma Regrouped(run: string, ref: string, caseType: string, kind: string, id: string)
    ensures run + "/" + ref + "/" + caseType + "/" + kind + "/" + id
            == (run + "/") + ref + ("/" + caseType + "/" + kind + "/" + id)
  {
    var tail := "/" + caseType + "/" + kind + "/" + id;
    assert run + "/" + ref + "/" + caseType + "/" + kind + "/" + id == (run + "/" + ref) + tail;
  }

  lemma SameMiddle(front: string, a: string, b: string, tail: string)
    requires front + a + tail == front + b + tail
    ensures a == b
  {
    var s, t := front + a + tail, front + b + tail;
    assert |s| == |front| + |a| + |tail| && |t| == |front| + |b| + |tail|;
    assert a == s[|front|..|front| + |a|] && b == t[|front|..|front| + |b|];
  }

  /** A detection that finds its case adds one event, a reopening exactly when the case was closed; the case
      then holds what it held and what the detection brings, and the event names the stored id of each
      snapshot the detection brings. */
  lemma UpsertRecords(c: Case, d: Detection, newIds: nat -> string, caseId: string, at: Time)
    requires Sound(c) && Upsert(Some(c), d, newIds, caseId, at).Ok?
    ensures var r := Upsert(Some(c), d, newIds, caseId, at).value;
            && HoldsBoth(r.sourceRunIds, c.sourceRunIds, RunIds(d.runId))
            && HoldsBoth(r.evidenceRefs, c.evidenceRefs, d.evidenceRefs)
            && HoldsBoth(r.artifactRefs, c.artifactRefs, d.artifactRefs)
            && HoldsBoth(KeysOf(r.snapshots), KeysOf(c.snapshots), KeysOf(DetectionSnapshots(d, newIds, at)))
            && |r.timeline| == |c.timeline| + 1
            && r.title == d.title && r.severity == d.severity && r.priority == d.priority
    ensures var r := Upsert(Some(c), d, newIds, caseId, at).value;
            && r.scope == (if d.scope == map[] then c.scope else d.scope)
            && r.latestRunId == (if d.runId == None || d.runId == Some("") then c.latestRunId else d.runId)
            && r.metadata.Keys == c.metadata.Keys + d.metadata.Keys
            && (forall k :: k in d.metadata ==> r.metadata[k] == d.metadata[k])
            && (forall k :: k in c.metadata && k !in d.metadata ==> r.metadata[k] == c.metadata[k])
    ensures var r := Upsert(Some(c), d, newIds, caseId, at).value;
            && r.updatedAt == at && r.assigneeRef == c.assigneeRef && r.assignedAt == c.assignedAt
            && (if IsTerminal(c.status) then
                  r.status == Open && r.acknowledgedAt == None && r.resolvedAt == None && r.dismissedAt == None
                else r.status == c.status && r.acknowledgedAt == c.acknowledgedAt)
    ensures var r := Upsert(Some(c), d, newIds, caseId, at).value;
            var e := r.timeline[|c.timeline|];
            && NamesSnapshots(e, r.snapshots, KeysOf(DetectionSnapshots(d, newIds, at)))
            && (if IsTerminal(c.status) then RecordsDetection(e, CaseReopened, "Reopened", d, at)
                else RecordsDetection(e, CaseUpdated, "Updated", d, at))
    ensures RunOf(RunIds(d.runId), d.runId)
  {
    var snapshots := DetectionSnapshots(d, newIds, at);
    UniqueHoldsBoth(c.sourceRunIds, RunIds(d.runId));
    UniqueHoldsBoth(c.evidenceRefs, d.evidenceRefs);
    UniqueHoldsBoth(c.artifactRefs, d.artifactRefs);
    SnapshotKeysHoldBoth(c.snapshots, snapshots);
    var merged := UniqueBy(c.snapshots + snapshots, SnapshotKey);
    CanonicalIdsAreHeld(merged, KeysOf(snapshots));
    OpenedText(d, CanonicalIds(merged, KeysOf(snapshots)), at);
  }

  /** A transition succeeds exactly when it moves an open case forward, without resolving it before it was
      acknowledged, not before the case opened, and with a reason when an operator closes the case. */
  lemma TransitionAllowed(c: Case, status: Status, actor: Actor, actorRef: string, reason: Option<string>, at: Time)
    requires Sound(c)
    ensures Transition(c, status, actor, actorRef, reason, at).Ok?
       <==> && MovesForward(c.status, status) && at >= c.openedAt
            && (actor == Operator && (status == Resolved || status == Dismissed) ==>
                  reason.Some? && Strip(reason.value) != "")
    ensures Transition(c, status, actor, actorRef, reason, at).Err? ==>
              Transition(c, status, actor, actorRef, reason, at).error
              == if MovesForward(c.status, status) && at < c.openedAt
                    && (actor == Operator && IsTerminal(status) ==> NonBlank(reason).Some?)
                 then BadValue else BadTransition
  {
  }

  /** How far the handling of a case has come. */
  function Stage(s: Status): nat {
    match s
    case Open => 0
    case Acknowledged => 1
    case InProgress => 2
    case _ => 3
  }

  predicate MovesForward(from: Status, to: Status) {
    Stage(from) < Stage(to) && !(from == Open && to == Resolved)
  }

  /** A comment is taken exactly when it is not blank, and an assignment exactly of an open case to a name
      that is not blank; neither is dated before the opening. */
  lemma CommentAndAssignAllowed(
      c: Case, actor: Actor, actorRef: string, text: string, metadata: map<string, string>, at: Time)
    requires Sound(c)
    ensures AddComment(c, actor, actorRef, text, metadata, at).Ok? <==> Strip(text) != "" && at >= c.openedAt
    ensures Assign(c, actor, actorRef, text, at).Ok?
       <==> c.status != Resolved && c.status != Dismissed && Strip(text) != "" && at >= c.openedAt
    ensures AddComment(c, actor, actorRef, text, metadata, at).Err? ==>
              AddComment(c, actor, actorRef, text, metadata, at).error == BadValue
    ensures Assign(c, actor, actorRef, text, at).Err? ==>
              Assign(c, actor, actorRef, text, at).error == if IsTerminal(c.status) then BadTransition else BadValue
  {
  }

  // ---- the legacy backfill

  /** The latest recorded change to dismissed, searching backwards. */
  function LastDismissal(timeline: seq<Event>): Option<Time> {
    if timeline == [] then None
    else
      var e := timeline[|timeline| - 1];
      if e.kind == StatusChanged && "to_status" in e.metadata && e.metadata["to_status"] == "dismissed" then Some(e.at)
      else LastDismissal(timeline[..|timeline| - 1])
  }

  /** Fills in the dismissal time of records stored before it was kept; without a recorded
      dismissal the last update stands in. */
  function Backfill(c: Case): Case {
    if c.status != Dismissed || c.dismissedAt.Some? then c
    else
      match LastDismissal(c.timeline)
      case Some(at) => c.(dismissedAt := Some(at))
      case None => c.(dismissedAt := Some(c.updatedAt))
  }

  /** A legal timeline that ends dismissed records the dismissal time as its last dismissal. */
  lemma {:induction false} DismissalIsRecorded(timeline: seq<Event>)
    requires Replay(timeline).Some?
    ensures var v := Replay(timeline).value;
            v.status == Dismissed ==> v.dismissedAt.Some? && LastDismissal(timeline) == v.dismissedAt
  {
    if |timeline| > 1 {
      var front, e := timeline[..|timeline| - 1], timeline[|timeline| - 1];
      DismissalIsRecorded(front);
      if e.kind == StatusChanged && e.metadata["to_status"] != "dismissed" {
        ReadStatusText(Dismissed);
      }
    }
  }

  /** Loading a stored case whose dismissal time was erased restores it exactly, from the timeline;
      every other stored case loads unchanged. */
  lemma BackfillRestores(c: Case)
    requires Sound(c)
    ensures c.status == Dismissed ==>
              LastDismissal(c.timeline) == c.dismissedAt && Backfill(c.(dismissedAt := None)) == c
    ensures c.status != Dismissed ==> Backfill(c.(dismissedAt := None)) == c
    ensures Backfill(c) == c
  {
    DismissalIsRecorded(c.timeline);
  }
}
