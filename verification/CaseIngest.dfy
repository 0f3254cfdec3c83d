/** Storing a report's detections one after another, and the accounting the caller gets back. */
module CaseIngest {
  import opened Basics
  import opened Calendar
  import opened Cases
  import opened CaseHistory
  import opened CaseStore
  import opened Detections
  import opened MemoryCaseStore

  /** One detection's upsert: the case id to use if it opens a case, the ids for minimal snapshots
      and the clock reading. */
  datatype Draw = Draw(caseId: string, newIds: nat -> string, at: Time)

  /** The batch so far; it stops at the first write the store rejects. */
  datatype Progress = Progress(cases: seq<Case>, caseIds: seq<string>, opened_: nat, updated: nat, failed: bool)

  function StepOp(d: Detection, draw: Draw): Op { Detect(d, draw.newIds, draw.caseId, draw.at) }

  function Next(p: Progress, d: Detection, draw: Draw): Progress {
    if p.failed then p
    else
      match ResultOf(p.cases, StepOp(d, draw))
      case Err(_) => p.(failed := true)
      case Ok(c) =>
        var isNew := FindByKey(p.cases, d.businessId, d.dedupeKey).None?;
        Progress(Put(p.cases, c), p.caseIds + [c.caseId],
                 if isNew then p.opened_ + 1 else p.opened_, if isNew then p.updated else p.updated + 1, false)
  }

  function Ingest(cases: seq<Case>, ds: seq<Detection>, draws: seq<Draw>): Progress
    requires |draws| == |ds|
  {
    if ds == [] then Progress(cases, [], 0, 0, false)
    else Next(Ingest(cases, ds[..|ds| - 1], draws[..|ds| - 1]), ds[|ds| - 1], draws[|ds| - 1])
  }

  /** One round of the loop: look the case up, upsert it, count it. */
  method StoreOne(store: InMemoryCaseStore, p: Progress, d: Detection, draw: Draw) returns (next: Progress)
    requires !p.failed && p.cases == store.cases
    modifies store
    ensures next == Next(p, d, draw) && store.cases == next.cases
  {
    var existing := store.FindByDedupeKey(d.businessId, d.dedupeKey);
    var r := store.UpsertDetection(d, draw.newIds, draw.caseId, draw.at);
    if r.Err? { return p.(failed := true); }
    next := Progress(store.cases, p.caseIds + [r.value.caseId],
                     if existing.None? then p.opened_ + 1 else p.opened_,
                     if existing.None? then p.updated else p.updated + 1, false);
  }

  /** The loop over a report's detections, against the store object. */
  method UpsertCases(store: InMemoryCaseStore, ds: seq<Detection>, draws: seq<Draw>) returns (summary: Progress)
    requires |draws| == |ds|
    modifies store
    ensures summary == Ingest(old(store.cases), ds, draws)
    ensures store.cases == summary.cases
  {
    ghost var before := store.cases;
    summary := Progress(store.cases, [], 0, 0, false);
    for i := 0 to |ds|
      invariant summary == Ingest(before, ds[..i], draws[..i])
      invariant !summary.failed && store.cases == summary.cases
    {
      IngestPrefix(before, ds, draws, i);
      summary := StoreOne(store, summary, ds[i], draws[i]);
      if summary.failed {
        IngestStopped(before, ds, draws, i + 1);
        return;
      }
    }
    assert ds[..|ds|] == ds && draws[..|ds|] == draws;
  }

  lemma IngestPrefix(cases: seq<Case>, ds: seq<Detection>, draws: seq<Draw>, i: nat)
    requires |draws| == |ds| && i < |ds|
    ensures Ingest(cases, ds[..i + 1], draws[..i + 1]) == Next(Ingest(cases, ds[..i], draws[..i]), ds[i], draws[i])
  {
    assert ds[..i + 1][..i] == ds[..i] && draws[..i + 1][..i] == draws[..i];
  }

  lemma {:induction false} IngestStopped(cases: seq<Case>, ds: seq<Detection>, draws: seq<Draw>, n: nat)
    requires |draws| == |ds| && n <= |ds| && Ingest(cases, ds[..n], draws[..n]).failed
    ensures Ingest(cases, ds, draws) == Ingest(cases, ds[..n], draws[..n])
  {
    if n < |ds| {
      var m := |ds| - 1;
      var front, draws0 := ds[..m], draws[..m];
      assert front[..n] == ds[..n] && draws0[..n] == draws[..n];
      IngestStopped(cases, front, draws0, n);
      assert front + [ds[m]] == ds && draws0 + [draws[m]] == draws;
      IngestOneMore(cases, front, draws0, ds[m], draws[m]);
    } else {
      assert ds[..n] == ds && draws[..n] == draws;
    }
  }

  lemma IngestOneMore(cases: seq<Case>, ds: seq<Detection>, draws: seq<Draw>, d: Detection, draw: Draw)
    requires |draws| == |ds|
    ensures Ingest(cases, ds + [d], draws + [draw]) == Next(Ingest(cases, ds, draws), d, draw)
    ensures Ingest(cases, ds, draws).failed ==> Next(Ingest(cases, ds, draws), d, draw) == Ingest(cases, ds, draws)
  {
  }

  // ---- accounting

  /** The drawn case ids are new to the store and to each other. */
  ghost predicate FreshDraws(cases: seq<Case>, draws: seq<Draw>) {
    && (forall i :: 0 <= i < |draws| ==> Get(cases, draws[i].caseId).None?)
    && (forall i, j :: 0 <= i < j < |draws| ==> draws[i].caseId != draws[j].caseId)
  }

  ghost predicate KeyHeld(cases: seq<Case>, d: Detection) { FindByKey(cases, d.businessId, d.dedupeKey).Some? }

  /** `later` holds every case of `cases`, possibly grown. */
  ghost predicate Continues(cases: seq<Case>, later: seq<Case>) {
    forall c :: c in cases ==> exists l :: l in later && Grew(c, l)
  }

  lemma ContinuesKeepsKeys(cases: seq<Case>, later: seq<Case>, d: Detection)
    requires Continues(cases, later) && KeyHeld(cases, d)
    ensures KeyHeld(later, d)
  {
  }

  lemma ContinuesTransitive(a: seq<Case>, b: seq<Case>, c: seq<Case>)
    requires Continues(a, b) && Continues(b, c)
    ensures Continues(a, c)
  {
  }

  predicate SameElsewhere(cases: seq<Case>, later: seq<Case>, businessId: string) {
    && (forall c: Case :: c in later && c.businessId != businessId ==> c in cases)
    && (forall c: Case :: c in cases && c.businessId != businessId ==> c in later)
  }

  /** What one accepted detection does to the store. */
  lemma StepWrites(cases: seq<Case>, d: Detection, draw: Draw)
    requires Consistent(cases) && Get(cases, draw.caseId).None?
    requires ResultOf(cases, StepOp(d, draw)).Ok?
    ensures var c := ResultOf(cases, StepOp(d, draw)).value;
            var later := Put(cases, c);
            && Consistent(later) && Continues(cases, later) && KeyHeld(later, d)
            && |later| == |cases| + (if KeyHeld(cases, d) then 0 else 1)
            && SameElsewhere(cases, later, d.businessId)
            && (Get(cases, c.caseId).Some? || c.caseId == draw.caseId)
            && c in later && c.businessId == d.businessId && c.dedupeKey == d.dedupeKey
  {
    var op := StepOp(d, draw);
    var c := ResultOf(cases, op).value;
    ResultIsSound(cases, op);
    ApplyKeepsConsistency(cases, op);
    PutMembers(cases, c);
    if KeyHeld(cases, d) {
      var before := FindByKey(cases, d.businessId, d.dedupeKey).value;
      assert Grew(before, c);
      assert Get(cases, before.caseId).Some?;
    } else {
      OpenIsSound(d, draw.newIds, draw.caseId, draw.at);
    }
    assert c in Put(cases, c) && c.businessId == d.businessId && c.dedupeKey == d.dedupeKey;
  }

  /** What holds after any part of a batch for one business. */
  ghost predicate Accounted(cases: seq<Case>, businessId: string, ds: seq<Detection>, p: Progress) {
    && Consistent(p.cases)
    && p.opened_ + p.updated == |p.caseIds| <= |ds|
    && (!p.failed ==> |p.caseIds| == |ds|)
    && |p.cases| == |cases| + p.opened_
    && Continues(cases, p.cases)
    && SameElsewhere(cases, p.cases, businessId)
    && (!p.failed ==> forall d :: d in ds ==> KeyHeld(p.cases, d))
  }

  /** An id the store holds was there before the batch or drawn by it. */
  ghost predicate IdsTraced(cases: seq<Case>, draws: seq<Draw>, later: seq<Case>) {
    forall c :: c in later ==> Get(cases, c.caseId).Some? || exists i :: 0 <= i < |draws| && draws[i].caseId == c.caseId
  }

  lemma NextIdUnused(cases: seq<Case>, draws: seq<Draw>, draw: Draw, later: seq<Case>)
    requires FreshDraws(cases, draws + [draw]) && IdsTraced(cases, draws, later)
    ensures Get(later, draw.caseId).None?
  {
    assert (draws + [draw])[|draws|] == draw;
    forall i | 0 <= i < |draws| ensures draws[i].caseId != draw.caseId {
      assert (draws + [draw])[i] == draws[i];
    }
  }

  lemma TracedStep(cases: seq<Case>, draws: seq<Draw>, draw: Draw, later: seq<Case>, c: Case)
    requires IdsTraced(cases, draws, later) && NoDuplicates(Map(later, CaseId))
    requires Get(later, c.caseId).Some? || c.caseId == draw.caseId
    ensures IdsTraced(cases, draws + [draw], Put(later, c)) && IdsTraced(cases, draws + [draw], later)
  {
    PutMembers(later, c);
    var more := draws + [draw];
    assert more[|draws|] == draw && forall i :: 0 <= i < |draws| ==> more[i] == draws[i];
    forall x | x in Put(later, c) || x in later
      ensures Get(cases, x.caseId).Some? || exists i :: 0 <= i < |more| && more[i].caseId == x.caseId
    {
      var y := if x == c && Get(later, c.caseId).Some? then Get(later, c.caseId).value else x;
      if y in later && Get(cases, y.caseId).None? {
        var i :| 0 <= i < |draws| && draws[i].caseId == y.caseId;
        assert more[i].caseId == x.caseId;
      }
    }
  }

  lemma KeyAdded(cases: seq<Case>, ds: seq<Detection>, d: Detection)
    requires KeyHeld(cases, d) && forall x :: x in ds ==> KeyHeld(cases, x)
    ensures forall x :: x in ds + [d] ==> KeyHeld(cases, x)
  {
  }

  lemma AccountedWrite(cases: seq<Case>, businessId: string, ds: seq<Detection>, p: Progress, d: Detection, q: Progress)
    requires Accounted(cases, businessId, ds, p) && d.businessId == businessId && !p.failed && !q.failed
    requires Consistent(q.cases) && Continues(p.cases, q.cases) && KeyHeld(q.cases, d)
    requires |q.caseIds| == |p.caseIds| + 1
    requires q.opened_ == p.opened_ + (if KeyHeld(p.cases, d) then 0 else 1)
    requires q.updated == p.updated + (if KeyHeld(p.cases, d) then 1 else 0)
    requires |q.cases| == |p.cases| + (if KeyHeld(p.cases, d) then 0 else 1)
    requires SameElsewhere(p.cases, q.cases, businessId)
    ensures Accounted(cases, businessId, ds + [d], q)
  {
    ContinuesTransitive(cases, p.cases, q.cases);
    KeysStayHeld(p.cases, q.cases, ds);
    KeyAdded(q.cases, ds, d);
    ElsewhereTransitive(cases, p.cases, q.cases, businessId);
  }

  lemma KeysStayHeld(cases: seq<Case>, later: seq<Case>, ds: seq<Detection>)
    requires Continues(cases, later) && forall d :: d in ds ==> KeyHeld(cases, d)
    ensures forall d :: d in ds ==> KeyHeld(later, d)
  {
  }

  lemma ElsewhereTransitive(a: seq<Case>, b: seq<Case>, c: seq<Case>, businessId: string)
    requires SameElsewhere(a, b, businessId) && SameElsewhere(b, c, businessId)
    ensures SameElsewhere(a, c, businessId)
  {
  }

  lemma AccountedStep(cases: seq<Case>, businessId: string, ds: seq<Detection>, p: Progress, d: Detection, draw: Draw)
    requires Accounted(cases, businessId, ds, p) && d.businessId == businessId
    requires Get(p.cases, draw.caseId).None?
    ensures Accounted(cases, businessId, ds + [d], Next(p, d, draw))
  {
    if !p.failed && ResultOf(p.cases, StepOp(d, draw)).Ok? {
      StepWrites(p.cases, d, draw);
      AccountedWrite(cases, businessId, ds, p, d, Next(p, d, draw));
    }
  }

  lemma TracedNext(cases: seq<Case>, draws: seq<Draw>, p: Progress, d: Detection, draw: Draw)
    requires IdsTraced(cases, draws, p.cases) && Consistent(p.cases) && Get(p.cases, draw.caseId).None?
    ensures IdsTraced(cases, draws + [draw], Next(p, d, draw).cases)
  {
    if !p.failed && ResultOf(p.cases, StepOp(d, draw)).Ok? {
      StepWrites(p.cases, d, draw);
      TracedStep(cases, draws, draw, p.cases, ResultOf(p.cases, StepOp(d, draw)).value);
    } else {
      TracedLonger(cases, draws, draw, p.cases);
    }
  }

  lemma TracedLonger(cases: seq<Case>, draws: seq<Draw>, draw: Draw, later: seq<Case>)
    requires IdsTraced(cases, draws, later)
    ensures IdsTraced(cases, draws + [draw], later)
  {
    var more := draws + [draw];
    forall x | x in later
      ensures Get(cases, x.caseId).Some? || exists i :: 0 <= i < |more| && more[i].caseId == x.caseId
    {
      if Get(cases, x.caseId).None? {
        var i :| 0 <= i < |draws| && draws[i].caseId == x.caseId;
        assert more[i].caseId == x.caseId;
      }
    }
  }

  /** Storing detections of one business: every processed detection either opened or updated a case,
      the store grew by exactly the opened ones, other businesses' cases are untouched, no case was
      lost, and unless a write was rejected every detection's key is held. */
  lemma {:induction false} IngestAccounts(cases: seq<Case>, businessId: string, ds: seq<Detection>, draws: seq<Draw>)
    requires |draws| == |ds| && Consistent(cases) && FreshDraws(cases, draws)
    requires forall d :: d in ds ==> d.businessId == businessId
    ensures Accounted(cases, businessId, ds, Ingest(cases, ds, draws))
    ensures IdsTraced(cases, draws, Ingest(cases, ds, draws).cases)
  {
    if ds == [] {
      forall c | c in cases ensures exists l :: l in cases && Grew(c, l) { assert Grew(c, c); }
    } else {
      var n := |ds| - 1;
      var front, draws0 := ds[..n], draws[..n];
      assert ds == front + [ds[n]] && draws == draws0 + [draws[n]];
      IngestAccounts(cases, businessId, front, draws0);
      var p := Ingest(cases, front, draws0);
      NextIdUnused(cases, draws0, draws[n], p.cases);
      AccountedStep(cases, businessId, front, p, ds[n], draws[n]);
      TracedNext(cases, draws0, p, ds[n], draws[n]);
    }
  }

  /** The store holds, under the id handed back, the case of the detection's key. */
  ghost predicate IsHeldAs(cases: seq<Case>, d: Detection, caseId: string) {
    exists c :: c in cases && c.caseId == caseId && c.businessId == d.businessId && c.dedupeKey == d.dedupeKey
  }

  ghost predicate AllHeldAs(cases: seq<Case>, ds: seq<Detection>, ids: seq<string>) {
    |ids| <= |ds| && forall i :: 0 <= i < |ids| ==> IsHeldAs(cases, ds[i], ids[i])
  }

  lemma HeldLonger(cases: seq<Case>, later: seq<Case>, ds: seq<Detection>, ids: seq<string>, d: Detection)
    requires AllHeldAs(cases, ds, ids) && Continues(cases, later)
    ensures AllHeldAs(later, ds + [d], ids)
  {
    forall i | 0 <= i < |ids| ensures IsHeldAs(later, (ds + [d])[i], ids[i]) {
      assert IsHeldAs(cases, ds[i], ids[i]) && (ds + [d])[i] == ds[i];
      var c :| c in cases && c.caseId == ids[i] && c.businessId == ds[i].businessId && c.dedupeKey == ds[i].dedupeKey;
      var l :| l in later && Grew(c, l);
    }
  }

  lemma HeldNext(cases: seq<Case>, ds: seq<Detection>, ids: seq<string>, d: Detection, caseId: string)
    requires AllHeldAs(cases, ds + [d], ids) && |ids| == |ds| && IsHeldAs(cases, d, caseId)
    ensures AllHeldAs(cases, ds + [d], ids + [caseId])
  {
  }

  /** The ids handed back are, in order, those of the cases held for the detections stored. */
  ghost predicate NamesItsCases(cases: seq<Case>, ds: seq<Detection>, draws: seq<Draw>)
    requires |draws| == |ds|
  {
    AllHeldAs(Ingest(cases, ds, draws).cases, ds, Ingest(cases, ds, draws).caseIds)
  }

  lemma {:induction false} IngestNamesItsCases(
      cases: seq<Case>, businessId: string, ds: seq<Detection>, draws: seq<Draw>)
    requires |draws| == |ds| && Consistent(cases) && FreshDraws(cases, draws)
    requires forall d :: d in ds ==> d.businessId == businessId
    ensures NamesItsCases(cases, ds, draws)
  {
    if ds != [] {
      var n := |ds| - 1;
      var front, draws0 := ds[..n], draws[..n];
      assert ds == front + [ds[n]] && draws == draws0 + [draws[n]];
      EarlierDraws(cases, draws0, draws[n]);
      IngestNamesItsCases(cases, businessId, front, draws0);
      NamesOneMore(cases, businessId, front, draws0, ds[n], draws[n]);
    }
  }

  lemma NamesOneMore(
      cases: seq<Case>, businessId: string, ds: seq<Detection>, draws: seq<Draw>, d: Detection, draw: Draw)
    requires |draws| == |ds| && Consistent(cases) && FreshDraws(cases, draws + [draw])
    requires forall x :: x in ds ==> x.businessId == businessId
    requires NamesItsCases(cases, ds, draws)
    ensures NamesItsCases(cases, ds + [d], draws + [draw])
  {
    EarlierDraws(cases, draws, draw);
    IngestAccounts(cases, businessId, ds, draws);
    var p := Ingest(cases, ds, draws);
    NextIdUnused(cases, draws, draw, p.cases);
    IngestOneMore(cases, ds, draws, d, draw);
    NamesNext(ds, p, d, draw);
  }

  lemma EarlierDraws(cases: seq<Case>, draws: seq<Draw>, draw: Draw)
    requires FreshDraws(cases, draws + [draw])
    ensures FreshDraws(cases, draws)
  {
    assert forall i :: 0 <= i < |draws| ==> (draws + [draw])[i] == draws[i];
  }

  lemma NamesNext(ds: seq<Detection>, p: Progress, d: Detection, draw: Draw)
    requires AllHeldAs(p.cases, ds, p.caseIds) && Consistent(p.cases) && Get(p.cases, draw.caseId).None?
    requires !p.failed ==> |p.caseIds| == |ds|
    ensures var q := Next(p, d, draw); AllHeldAs(q.cases, ds + [d], q.caseIds)
  {
    if !p.failed && ResultOf(p.cases, StepOp(d, draw)).Ok? {
      var c := ResultOf(p.cases, StepOp(d, draw)).value;
      StepWrites(p.cases, d, draw);
      HeldLonger(p.cases, Put(p.cases, c), ds, p.caseIds, d);
      HeldNext(Put(p.cases, c), ds, p.caseIds, d, c.caseId);
    } else {
      forall c | c in p.cases ensures exists l :: l in p.cases && Grew(c, l) { assert Grew(c, c); }
      HeldLonger(p.cases, p.cases, ds, p.caseIds, d);
    }
  }

  /** A write is rejected exactly when its clock reading precedes the opening of the case it updates. */
  lemma RejectedExactlyWhenEarly(cases: seq<Case>, d: Detection, draw: Draw)
    requires Consistent(cases)
    ensures ResultOf(cases, StepOp(d, draw)).Err? <==>
            match FindByKey(cases, d.businessId, d.dedupeKey)
            case None => false
            case Some(c) => draw.at < c.openedAt
    ensures ResultOf(cases, StepOp(d, draw)).Err? ==> ResultOf(cases, StepOp(d, draw)) == Err(BadValue)
  {
  }

  lemma {:induction false} NothingNew(cases: seq<Case>, businessId: string, ds: seq<Detection>, draws: seq<Draw>)
    requires |draws| == |ds| && Consistent(cases) && FreshDraws(cases, draws)
    requires forall d :: d in ds ==> d.businessId == businessId && KeyHeld(cases, d)
    ensures Ingest(cases, ds, draws).opened_ == 0
  {
    if ds != [] {
      var n := |ds| - 1;
      NothingNew(cases, businessId, ds[..n], draws[..n]);
      IngestAccounts(cases, businessId, ds[..n], draws[..n]);
      var p := Ingest(cases, ds[..n], draws[..n]);
      ContinuesKeepsKeys(cases, p.cases, ds[n]);
      HeldKeyOpensNone(p, ds[n], draws[n]);
    }
  }

  lemma HeldKeyOpensNone(p: Progress, d: Detection, draw: Draw)
    requires KeyHeld(p.cases, d)
    ensures Next(p, d, draw).opened_ == p.opened_
  {
  }

  /** Processing the same report again, in any later state of the store, opens nothing. */
  lemma ReprocessingOpensNothing(
    cases: seq<Case>, src: Source, report: Report, d1: Draws, draws1: seq<Draw>,
    later: seq<Case>, d2: Draws, draws2: seq<Draw>)
    requires |draws1| == |Detected(src, report, d1)| && |draws2| == |Detected(src, report, d2)|
    requires Consistent(cases) && FreshDraws(cases, draws1)
    requires !Ingest(cases, Detected(src, report, d1), draws1).failed
    requires Continues(Ingest(cases, Detected(src, report, d1), draws1).cases, later)
    requires Consistent(later) && FreshDraws(later, draws2)
    ensures Ingest(later, Detected(src, report, d2), draws2).opened_ == 0
  {
    var ds1, ds2 := Detected(src, report, d1), Detected(src, report, d2);
    DetectionCoverage(src, report, d1, "");
    DetectionCoverage(src, report, d2, "");
    IngestAccounts(cases, src.businessId, ds1, draws1);
    KeysStayHeld(Ingest(cases, ds1, draws1).cases, later, ds1);
    forall d | d in ds2 ensures KeyHeld(later, d) {
      var x := SameKeyDetected(src, report, d1, d2, d);
      assert KeyHeld(later, x);
    }
    NothingNew(later, src.businessId, ds2, draws2);
  }

  /** Whatever ids are drawn, a report raises the same keys for the same business. */
  lemma SameKeyDetected(src: Source, report: Report, d1: Draws, d2: Draws, d: Detection) returns (x: Detection)
    requires d in Detected(src, report, d2)
    ensures x in Detected(src, report, d1) && x.dedupeKey == d.dedupeKey
            && x.businessId == d.businessId == src.businessId
  {
    var ds1 := Detected(src, report, d1);
    DetectionCoverage(src, report, d1, d.dedupeKey);
    DetectionCoverage(src, report, d2, d.dedupeKey);
    MapMembers(Detected(src, report, d2), KeyOf);
    MapMembers(ds1, KeyOf);
    x :| x in ds1 && KeyOf(x) == d.dedupeKey;
  }
}
