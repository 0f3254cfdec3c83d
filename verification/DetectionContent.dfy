/** What detections say: which insights raise which case family, when a source counts as stale, and what a
    detection carries, each told from the report. */
module DetectionContent {
  import opened Basics
  import opened Text
  import opened Calendar
  import opened Cases
  import opened Detections
  import H = CaseHistory

  // ---- case families

  predicate OccursAt(s: string, part: string, i: nat) { i + |part| <= |s| && s[i..i + |part|] == part }

  ghost predicate Mentions(s: string, part: string) { exists i: nat :: OccursAt(s, part, i) }

  lemma MentionsLater(s: string, part: string)
    requires s != []
    ensures Mentions(s, part) <==> OccursAt(s, part, 0) || Mentions(s[1..], part)
  {
    if i: nat :| OccursAt(s[1..], part, i) {
      assert s[1..][i..i + |part|] == s[i + 1..i + 1 + |part|];
      assert OccursAt(s, part, i + 1);
    }
    if i: nat :| i > 0 && OccursAt(s, part, i) {
      assert s[1..][i - 1..i - 1 + |part|] == s[i..i + |part|];
      assert OccursAt(s[1..], part, i - 1);
    }
  }

  lemma {:induction false} ContainsExactly(s: string, part: string)
    ensures Contains(s, part) <==> Mentions(s, part)
  {
    StartsAt(s, part);
    if s != [] {
      ContainsExactly(s[1..], part);
      MentionsLater(s, part);
    } else {
      assert forall i: nat :: OccursAt(s, part, i) ==> i == 0;
    }
  }

  lemma StartsAt(s: string, part: string)
    ensures part <= s <==> OccursAt(s, part, 0)
  {
    if part <= s { assert s[0..|part|] == part; }
  }

  /** The words of the title decide the family, the first that occurs; an insight of information, or one about
      channels, raises nothing. */
  lemma FamiliesExactly(insight: Insight)
    ensures insight.severity == Info ==> CaseTypeFor(insight) == None
    ensures var said := (part: string) => insight.severity != Info && Contains(insight.lowered, part);
            && (CaseTypeFor(insight) == Some(StockoutRisk) <==> said("stock"))
            && (CaseTypeFor(insight) == Some(SpendWithoutOrders)
                <==> !said("stock") && (said("sin ventas") || said("roas bajo")))
            && (CaseTypeFor(insight) == Some(UnansweredConversations)
                <==> !said("stock") && !said("sin ventas") && !said("roas bajo") && said("conversaciones"))
            && (CaseTypeFor(insight) == Some(SalesDrop)
                <==> && !said("stock") && !said("sin ventas") && !said("roas bajo") && !said("conversaciones")
                     && !said("tiendanube") && !said("canal") && said("ventas"))
    ensures CaseTypeFor(insight).Some? ==>
              CaseTypeFor(insight).value in {StockoutRisk, SpendWithoutOrders, UnansweredConversations, SalesDrop}
  {
  }

  // ---- stale sources

  /** The metric counts under a canonical key for a source. */
  predicate Reports(report: Report, i: nat, source: string, key: string) {
    && i < |report.metrics| && report.registry.canonical(report.metrics[i].key) == Some(key)
    && source in report.metrics[i].sources
  }

  /** The value found is that of the first metric that counts. */
  lemma {:induction false} FirstReported(report: Report, source: string, key: string)
    ensures var found := ValueFor(report.registry, report.metrics, source, key);
            && (found == None <==> forall i: nat :: !Reports(report, i, source, key))
            && (found.Some? ==>
                  exists i: nat ::
                    && Reports(report, i, source, key) && found == Some(report.metrics[i].value)
                    && forall j: nat :: j < i ==> !Reports(report, j, source, key))
    decreases |report.metrics|
  {
    if report.metrics != [] && !Speaks(report.registry, report.metrics[0], source, key) {
      var rest := report.(metrics := report.metrics[1..]);
      FirstReported(rest, source, key);
      forall i: nat | i > 0
        ensures Reports(report, i, source, key) <==> Reports(rest, i - 1, source, key)
      {
      }
      var found := ValueFor(report.registry, rest.metrics, source, key);
      if found.Some? {
        var i: nat :| Reports(rest, i, source, key) && found == Some(rest.metrics[i].value)
          && forall j: nat :: j < i ==> !Reports(rest, j, source, key);
        assert Reports(report, i + 1, source, key);
        forall j: nat | j < i + 1 ensures !Reports(report, j, source, key) {
          if j > 0 { assert !Reports(rest, j - 1, source, key); }
        }
      } else {
        forall i: nat ensures !Reports(report, i, source, key) {
          if i > 0 { assert !Reports(rest, i - 1, source, key); }
        }
      }
    } else if report.metrics != [] {
      assert Reports(report, 0, source, key);
    }
  }

  /** The status words that tell a state, and those that tell a healthy one. */
  predicate IsTrouble(word: string) {
    || word == "stale" || word == "missing" || word == "degraded" || word == "failed" || word == "failure"
    || word == "error" || word == "unauthorized" || word == "expired"
  }

  predicate IsHealth(word: string) {
    word == "fresh" || word == "ok" || word == "healthy" || word == "success" || word == "true"
  }

  function StatusWord(report: Report, source: string): Option<string> {
    match ValueFor(report.registry, report.metrics, source, "runtime.connector.status")
    case Some(TextValue(s)) => Some(report.registry.lower(Strip(s)))
    case _ => None
  }

  predicate StatusIsOff(report: Report, source: string) {
    ValueFor(report.registry, report.metrics, source, "runtime.connector.status") == Some(FlagValue(false))
  }

  /** The age in seconds, if the source reports one that is a number, a flag or text that reads as a number. */
  ghost predicate AgeIs(report: Report, source: string, age: real) {
    match ValueFor(report.registry, report.metrics, source, "runtime.freshness.age_seconds")
    case None => false
    case Some(NumberValue(x)) => age == x
    case Some(FlagValue(b)) => age == if b then 1.0 else 0.0
    case Some(TextValue(s)) => report.registry.toFloat(s) == Some(age)
  }

  /** The status says nothing of the state, so that the age decides. */
  predicate LeftToAge(report: Report, source: string) {
    && !StatusIsOff(report, source)
    && (StatusWord(report, source).Some? ==>
          !IsTrouble(StatusWord(report, source).value) && !IsHealth(StatusWord(report, source).value))
  }

  lemma StatusWordTells(word: string)
    ensures StatusFreshness(word).Some? <==> IsTrouble(word) || IsHealth(word)
    ensures StatusFreshness(word) == Some(Fresh) <==> IsHealth(word)
    ensures StatusFreshness(word) == Some(Missing) <==> word == "missing"
    ensures StatusFreshness(word) == Some(Degraded) <==> word == "degraded"
    ensures StatusFreshness(word) != Some(Unknown)
  {
  }

  /** The state of a source: what its status names, or else a day and six hours of age decide. */
  lemma FreshnessExactly(report: Report, source: string)
    ensures var f, word := FreshnessOf(report, source), StatusWord(report, source);
            var byAge := LeftToAge(report, source);
            && (f == Missing <==> word == Some("missing"))
            && (f == Degraded <==>
                  word == Some("degraded")
                  || (byAge && exists age: real :: AgeIs(report, source, age) && 21600.0 <= age < 86400.0))
            && (f == Fresh <==>
                  (word.Some? && IsHealth(word.value))
                  || (byAge && exists age: real :: AgeIs(report, source, age) && age < 21600.0))
            && (f == Unknown <==> byAge && forall age: real :: !AgeIs(report, source, age))
  {
    var age := AgeOf(report.registry,
      ValueFor(report.registry, report.metrics, source, "runtime.freshness.age_seconds"));
    if age.Some? { assert AgeIs(report, source, age.value); }
    assert forall x: real :: AgeIs(report, source, x) <==> age == Some(x);
    if StatusWord(report, source).Some? { StatusWordTells(StatusWord(report, source).value); }
  }

  /** A source is stale when its status names trouble or is off, or when the status says nothing and it is at least
      six hours old. */
  lemma StaleExactly(report: Report, source: string)
    ensures IsStale(report, source) <==>
              || (StatusWord(report, source).Some? && IsTrouble(StatusWord(report, source).value))
              || StatusIsOff(report, source)
              || (LeftToAge(report, source) && exists age: real :: AgeIs(report, source, age) && age >= 21600.0)
  {
    FreshnessExactly(report, source);
    if StatusWord(report, source).Some? { HealthIsNoTrouble(StatusWord(report, source).value); }
  }

  lemma HealthIsNoTrouble(word: string)
    ensures !(IsHealth(word) && IsTrouble(word))
  {
    assert "fresh"[0] == 'f' && "ok"[0] == 'o' && "healthy"[0] == 'h' && "success"[0] == 's' && "true"[0] == 't';
    assert |"ok"| == 2 && |"fresh"| == 5 && |"failed"| == 6 && |"failure"| == 7 && |"success"| == 7 && |"stale"| == 5;
    assert |"missing"| == 7 && |"degraded"| == 8 && |"error"| == 5 && |"unauthorized"| == 12 && |"expired"| == 7;
  }

  // ---- keys

  /** The families that insights raise, with the metric family each rests on. */
  function MetricOf(t: CaseType): Option<string> {
    match t
    case SalesDrop => Some("commerce.revenue")
    case StockoutRisk => Some("commerce.inventory")
    case SpendWithoutOrders => Some("ads.spend")
    case UnansweredConversations => Some("support.conversations")
    case _ => None
  }

  lemma ScopeKeys(t: CaseType)
    ensures EntityScope(t).Keys == {"kind", "id", "label"}
  {
  }

  function Joined(family: string, kind: string, id: string, metric: string): string {
    family + "/" + kind + "/" + id + "/" + metric + "/daily"
  }

  lemma SalesDropKey()
    ensures Joined("sales_drop", "channel", "all", "commerce.revenue")
         == "sales_drop/channel/all/commerce.revenue/daily"
  {
  }

  lemma StockoutKey()
    ensures Joined("stockout_risk", "business", "monitored", "commerce.inventory")
         == "stockout_risk/business/monitored/commerce.inventory/daily"
  {
    var front := "stockout_risk/business/monitored";
    assert "stockout_risk" + "/" + "business" + "/" + "monitored" == front;
    assert front + "/" + "commerce.inventory" + "/daily" == "stockout_risk/business/monitored/commerce.inventory/daily";
  }

  lemma SpendKey()
    ensures Joined("spend_without_orders", "channel", "meta_ads", "ads.spend")
         == "spend_without_orders/channel/meta_ads/ads.spend/daily"
  {
  }

  lemma ConversationsKey()
    ensures Joined("unanswered_conversations", "channel", "whatsapp", "support.conversations")
         == "unanswered_conversations/channel/whatsapp/support.conversations/daily"
  {
    var front := "unanswered_conversations/channel/whatsapp";
    assert "unanswered_conversations" + "/" + "channel" + "/" + "whatsapp" == front;
    assert front + "/" + "support.conversations" + "/daily"
        == "unanswered_conversations/channel/whatsapp/support.conversations/daily";
  }

  /** A raised key names its family, the entity that the scope of the case names, and its metric. */
  lemma KeyNamesItsScope(businessId: string, t: CaseType)
    requires MetricOf(t).Some?
    ensures EntityScope(t).Keys == {"kind", "id", "label"}
    ensures DedupeKey(businessId, t)
         == businessId + "/" + Joined(CaseTypeText(t), EntityScope(t)["kind"], EntityScope(t)["id"], MetricOf(t).value)
  {
    ScopeKeys(t);
    match t
    case SalesDrop => SalesDropKey();
    case StockoutRisk => StockoutKey();
    case SpendWithoutOrders => SpendKey();
    case UnansweredConversations => ConversationsKey();
  }

  // ---- what a detection carries

  /** The first entry of a source, or the length when there is none. */
  predicate FirstEntry(evidence: seq<Evidence>, source: string, i: nat) {
    && i <= |evidence| && (i < |evidence| ==> evidence[i].source == source)
    && forall j :: 0 <= j < i ==> evidence[j].source != source
  }

  lemma {:induction false} FirstCaption(evidence: seq<Evidence>, source: string, i: nat)
    requires FirstEntry(evidence, source, i)
    ensures CaptionFor(evidence, source) == if i < |evidence| then evidence[i].caption else source
  {
    if i > 0 {
      assert forall j :: 0 <= j < i - 1 ==> evidence[1..][j] == evidence[j + 1];
      FirstCaption(evidence[1..], source, i - 1);
    }
  }

  predicate PlainSource(source: string) { source != "" && '/' !in source }

  lemma SourceReadsBack(source: string, date: string, family: string)
    requires PlainSource(source)
    ensures SourceOf(EvidenceRef(source, date, family)) == source
  {
    var prefix := "evidence://";
    var rest := "/" + (date + "/" + family);
    var ref := EvidenceRef(source, date, family);
    RefPieces(prefix, source, date, family);
    assert ref == prefix + (source + rest) && ref[|prefix|..] == source + rest;
    SplitOnSkips(source, rest, '/');
    assert source + "" == source;
  }

  lemma RefPieces(prefix: string, source: string, date: string, family: string)
    ensures prefix + source + "/" + date + "/" + family == prefix + (source + ("/" + (date + "/" + family)))
  {
  }

  /** The run and artifact a detection belongs to; an empty artifact reference counts as none. */
  predicate CarriesRun(d: Detection, src: Source) {
    && d.businessId == src.businessId && d.runId == src.runId
    && d.artifactRefs
       == (if src.artifactRef == None || src.artifactRef == Some("") then [] else [src.artifactRef.value])
  }

  /** A snapshot of one source of an insight. */
  predicate SnapshotSays(s: Snapshot, d: Detection, src: Source, report: Report, source: string) {
    && s.evidenceRef == EvidenceRef(source, report.date, CaseTypeText(d.caseType))
    && s.runId == src.runId && s.artifactRef == src.artifactRef && s.caseType == d.caseType && s.scope == d.scope
    && s.summary == d.title && s.metrics == EvidenceMetrics(report, d.caseType, source)
    && (PlainSource(source) ==> s.source == source && s.freshness == FreshnessOf(report, source))
  }

  /** A case of the insight's own family. */
  ghost predicate OwnCase(d: Detection, src: Source, report: Report, insight: Insight, t: CaseType) {
    && CarriesRun(d, src) && d.caseType == t && d.dedupeKey == DedupeKey(src.businessId, t)
    && d.title == insight.title && d.severity == insight.severity && d.scope == EntityScope(t)
    && d.priority == (match insight.severity case Critical => 100 case Warning => 70 case Info => 30)
    && d.metadata == map["insight_title" := insight.title, "insight_explanation" := insight.explanation,
                         "recommended_action" := insight.recommended]
    && NoDuplicates(d.evidenceRefs)
    && (forall ref :: ref in d.evidenceRefs <==>
          exists e ::
            e in insight.evidence && ref == EvidenceRef(e.source, report.date, CaseTypeText(t)))
    && (forall s :: s in d.snapshots ==> ShowsOne(s, d, src, report, insight))
    && (forall e :: e in insight.evidence ==>
          ShowsReference(d.snapshots, EvidenceRef(e.source, report.date, CaseTypeText(t))))
  }

  ghost predicate ShowsOne(s: Snapshot, d: Detection, src: Source, report: Report, insight: Insight) {
    exists e :: e in insight.evidence && s.sourceCaption == Some(e.caption) && SnapshotSays(s, d, src, report, e.source)
  }

  ghost predicate ShowsReference(snapshots: seq<Snapshot>, ref: string) {
    exists s :: s in snapshots && s.evidenceRef == ref
  }

  /** The case of a stale source, in place of the family it suppresses. */
  predicate StaleCase(d: Detection, src: Source, report: Report, insight: Insight, t: CaseType, source: string) {
    && CarriesRun(d, src) && d.caseType == DataStale && d.severity == Warning && d.priority == 80
    && d.dedupeKey == src.businessId + "/data_stale/connector/" + source + "/runtime.freshness/daily"
    && d.title == "Datos stale o fallidos: " + source
    && d.scope == map["kind" := "connector", "id" := source, "label" := source]
    && d.evidenceRefs == [EvidenceRef(source, report.date, "data_stale")]
    && |d.snapshots| == 1 && d.snapshots[0].evidenceRef == d.evidenceRefs[0]
    && d.snapshots[0].freshness == FreshnessOf(report, source)
    && d.snapshots[0].sourceCaption == Some(CaptionFor(insight.evidence, source))
    && d.snapshots[0].metrics == EvidenceMetrics(report, DataStale, source)
    && d.snapshots[0].artifactRef == src.artifactRef && d.snapshots[0].runId == src.runId
    && d.snapshots[0].summary == d.title && d.snapshots[0].caseType == DataStale && d.snapshots[0].scope == d.scope
    && d.metadata == map["connector_type" := source, "insight_title" := insight.title,
                         "freshness_state" := FreshnessText(FreshnessOf(report, source)),
                         "error_summary" := source + " data is " + FreshnessText(FreshnessOf(report, source))
                           + "; suppressed " + CaseTypeText(t) + " detection until source freshness recovers."]
  }

  lemma StaleDetectionSays(
      src: Source, report: Report, insight: Insight, t: CaseType, source: string, id: string, at: Time)
    ensures StaleCase(StaleDetection(src, report, insight, t, source, id, at), src, report, insight, t, source)
  {
  }

  lemma RefTellsSource(a: string, b: string, date: string, family: string)
    requires EvidenceRef(a, date, family) == EvidenceRef(b, date, family)
    ensures a == b
  {
    var prefix, tail := "evidence://", "/" + date + "/" + family;
    RefParts(prefix, a, date, family);
    RefParts(prefix, b, date, family);
    H.SameMiddle(prefix, a, b, tail);
  }

  lemma RefParts(prefix: string, source: string, date: string, family: string)
    ensures prefix + source + "/" + date + "/" + family == prefix + source + ("/" + date + "/" + family)
  {
  }

  lemma RefsSay(d: Detection, report: Report, insight: Insight, t: CaseType, refs: seq<string>)
    requires refs == Unique(Map(insight.evidence, SourceName)) && |d.evidenceRefs| == |refs|
    requires forall k :: 0 <= k < |refs| ==> d.evidenceRefs[k] == EvidenceRef(refs[k], report.date, CaseTypeText(t))
    ensures NoDuplicates(d.evidenceRefs)
    ensures forall ref :: ref in d.evidenceRefs <==>
              exists e ::
                e in insight.evidence && ref == EvidenceRef(e.source, report.date, CaseTypeText(t))
  {
    var sources := Map(insight.evidence, SourceName);
    H.UniqueHasAll(sources);
    H.UniqueIsDistinct(sources);
    MapMembers(insight.evidence, SourceName);
    forall i, j | 0 <= i < j < |refs| ensures d.evidenceRefs[i] != d.evidenceRefs[j] {
      if d.evidenceRefs[i] == d.evidenceRefs[j] { RefTellsSource(refs[i], refs[j], report.date, CaseTypeText(t)); }
    }
    forall ref | ref in d.evidenceRefs
      ensures exists e :: e in insight.evidence && ref == EvidenceRef(e.source, report.date, CaseTypeText(t))
    {
      var k :| 0 <= k < |refs| && d.evidenceRefs[k] == ref;
      assert refs[k] in sources;
      var e :| e in insight.evidence && SourceName(e) == refs[k];
    }
    forall e | e in insight.evidence ensures EvidenceRef(e.source, report.date, CaseTypeText(t)) in d.evidenceRefs {
      assert SourceName(e) in sources && SourceName(e) in refs;
      var k :| 0 <= k < |refs| && refs[k] == e.source;
      assert d.evidenceRefs[k] == EvidenceRef(e.source, report.date, CaseTypeText(t));
    }
  }

  lemma SnapshotOfEvidence(
      src: Source, report: Report, insight: Insight, d: Detection, e: Evidence, id: string, at: Time)
    requires e in insight.evidence && d.runId == src.runId
    ensures var s := InsightSnapshot(src, report, insight, d, e, id, at);
            && s.sourceCaption == Some(e.caption) && SnapshotSays(s, d, src, report, e.source)
            && s.key == KeyFor(d, s.evidenceRef)
  {
    if PlainSource(e.source) {
      SourceReadsBack(e.source, report.date, CaseTypeText(d.caseType));
      MapMembers(insight.evidence, SourceName);
      assert SourceName(e) in Map(insight.evidence, SourceName);
    }
  }

  lemma EachSnapshotSays(src: Source, report: Report, i: nat, d: Detection, draws: Draws, k: nat)
    requires i < |report.insights| && k < |report.insights[i].evidence| && d.runId == src.runId
    ensures var insight, s := report.insights[i], InsightSnapshots(src, report, i, d, draws)[k];
            && ShowsOne(s, d, src, report, insight) && s.key == KeyFor(d, s.evidenceRef)
            && s.evidenceRef == EvidenceRef(insight.evidence[k].source, report.date, CaseTypeText(d.caseType))
  {
    var insight := report.insights[i];
    assert insight.evidence[k] in insight.evidence;
    SnapshotOfEvidence(src, report, insight, d, insight.evidence[k], draws.id(i, k), draws.at(i, k));
  }

  lemma ReferenceIsKept(d: Detection, found: seq<Snapshot>, k: nat)
    requires k < |found| && forall s :: s in found ==> s.key == KeyFor(d, s.evidenceRef)
    ensures ShowsReference(UniqueBy(found, SnapshotKey), found[k].evidenceRef)
  {
    AppendNewMembers([], found, SnapshotKey);
    H.KeptUnderItsKey(found, found[k]);
    var s :| s in UniqueBy(found, SnapshotKey) && s.key == found[k].key;
    H.KeyTellsReference(d, s.evidenceRef, found[k].evidenceRef);
  }

  lemma SnapshotsSay(src: Source, report: Report, i: nat, d: Detection, draws: Draws)
    requires i < |report.insights| && d.runId == src.runId
    ensures var kept := UniqueBy(InsightSnapshots(src, report, i, d, draws), SnapshotKey);
            && (forall s :: s in kept ==> ShowsOne(s, d, src, report, report.insights[i]))
            && forall e :: e in report.insights[i].evidence ==>
                 ShowsReference(kept, EvidenceRef(e.source, report.date, CaseTypeText(d.caseType)))
  {
    var found := InsightSnapshots(src, report, i, d, draws);
    AppendNewMembers([], found, SnapshotKey);
    forall s | s in found
      ensures ShowsOne(s, d, src, report, report.insights[i]) && s.key == KeyFor(d, s.evidenceRef)
    {
      var k :| 0 <= k < |found| && found[k] == s;
      EachSnapshotSays(src, report, i, d, draws, k);
    }
    forall e | e in report.insights[i].evidence
      ensures ShowsReference(UniqueBy(found, SnapshotKey), EvidenceRef(e.source, report.date, CaseTypeText(d.caseType)))
    {
      var k :| 0 <= k < |found| && report.insights[i].evidence[k] == e;
      EachSnapshotSays(src, report, i, d, draws, k);
      ReferenceIsKept(d, found, k);
    }
  }

  lemma PlainSays(src: Source, report: Report, insight: Insight, t: CaseType)
    ensures var d := PlainDetection(src, report, insight, t);
            && CarriesRun(d, src) && d.caseType == t && d.dedupeKey == DedupeKey(src.businessId, t)
            && d.title == insight.title && d.severity == insight.severity && d.scope == EntityScope(t)
            && d.priority == (match insight.severity case Critical => 100 case Warning => 70 case Info => 30)
            && d.metadata == map["insight_title" := insight.title, "insight_explanation" := insight.explanation,
                                 "recommended_action" := insight.recommended]
  {
  }

  lemma SameShown(s: Snapshot, d: Detection, d2: Detection, src: Source, report: Report, insight: Insight)
    requires ShowsOne(s, d, src, report, insight)
    requires d2.caseType == d.caseType && d2.scope == d.scope && d2.title == d.title
    ensures ShowsOne(s, d2, src, report, insight)
  {
    var e :| e in insight.evidence && s.sourceCaption == Some(e.caption) && SnapshotSays(s, d, src, report, e.source);
    assert SnapshotSays(s, d2, src, report, e.source);
  }

  lemma CaseDetectionSays(src: Source, report: Report, i: nat, t: CaseType, draws: Draws)
    requires i < |report.insights|
    ensures OwnCase(CaseDetection(src, report, i, t, draws), src, report, report.insights[i], t)
  {
    var insight := report.insights[i];
    var d := CaseDetection(src, report, i, t, draws);
    var plain := PlainDetection(src, report, insight, t);
    PlainSays(src, report, insight, t);
    RefsSay(plain, report, insight, t, Unique(Map(insight.evidence, SourceName)));
    SnapshotsSay(src, report, i, plain, draws);
    forall s | s in d.snapshots ensures ShowsOne(s, d, src, report, insight) {
      SameShown(s, plain, d, src, report, insight);
    }
  }

  // ---- which insight speaks

  /** The detection is what an insight contributes: its own case when none of its sources is stale, and the case of one
      of its stale sources otherwise. */
  ghost predicate ComesFrom(d: Detection, src: Source, report: Report, insight: Insight) {
    && CaseTypeFor(insight).Some?
    && var t := CaseTypeFor(insight).value;
    if forall e :: e in insight.evidence ==> !IsStale(report, e.source) then OwnCase(d, src, report, insight, t)
    else
      exists e ::
        e in insight.evidence && IsStale(report, e.source) && StaleCase(d, src, report, insight, t, e.source)
  }

  lemma OwnComes(d: Detection, src: Source, report: Report, insight: Insight, t: CaseType)
    requires CaseTypeFor(insight) == Some(t) && forall e :: e in insight.evidence ==> !IsStale(report, e.source)
    requires OwnCase(d, src, report, insight, t)
    ensures ComesFrom(d, src, report, insight)
  {
  }

  lemma StaleComes(d: Detection, src: Source, report: Report, insight: Insight, t: CaseType, e: Evidence)
    requires CaseTypeFor(insight) == Some(t) && e in insight.evidence && IsStale(report, e.source)
    requires StaleCase(d, src, report, insight, t, e.source)
    ensures ComesFrom(d, src, report, insight)
  {
  }

  lemma StaleContribution(
      src: Source, report: Report, insight: Insight, t: CaseType, source: string, id: string, at: Time)
    requires CaseTypeFor(insight) == Some(t) && source in StaleSources(report, insight)
    ensures ComesFrom(StaleDetection(src, report, insight, t, source, id, at), src, report, insight)
  {
    StaleSourcesExactly(report, insight, source);
    var e :| e in insight.evidence && IsStale(report, e.source) && e.source == source;
    StaleDetectionSays(src, report, insight, t, source, id, at);
    StaleComes(StaleDetection(src, report, insight, t, source, id, at), src, report, insight, t, e);
  }

  lemma OwnContribution(src: Source, report: Report, i: nat, t: CaseType, draws: Draws)
    requires i < |report.insights| && CaseTypeFor(report.insights[i]) == Some(t)
    requires StaleSources(report, report.insights[i]) == []
    ensures ComesFrom(CaseDetection(src, report, i, t, draws), src, report, report.insights[i])
  {
    NoneStale(report, report.insights[i]);
    CaseDetectionSays(src, report, i, t, draws);
    OwnComes(CaseDetection(src, report, i, t, draws), src, report, report.insights[i], t);
  }

  lemma ContributionIs(src: Source, report: Report, i: nat, draws: Draws, d: Detection) returns (k: nat)
    requires i < |report.insights| && d in Contribution(src, report, i, draws)
    ensures CaseTypeFor(report.insights[i]).Some?
    ensures var insight := report.insights[i];
            var t, stale := CaseTypeFor(insight).value, StaleSources(report, insight);
            if stale == [] then d == CaseDetection(src, report, i, t, draws)
            else k < |stale| && d == StaleDetection(src, report, insight, t, stale[k], draws.id(i, k), draws.at(i, k))
  {
    k :| k < |Contribution(src, report, i, draws)| && Contribution(src, report, i, draws)[k] == d;
  }

  lemma ContributionSays(src: Source, report: Report, i: nat, draws: Draws, d: Detection)
    requires i < |report.insights| && d in Contribution(src, report, i, draws)
    ensures ComesFrom(d, src, report, report.insights[i])
  {
    var insight := report.insights[i];
    var k := ContributionIs(src, report, i, draws, d);
    var t, stale := CaseTypeFor(insight).value, StaleSources(report, insight);
    if stale == [] {
      OwnContribution(src, report, i, t, draws);
    } else {
      StaleContribution(src, report, insight, t, stale[k], draws.id(i, k), draws.at(i, k));
    }
  }

  lemma NoneStale(report: Report, insight: Insight)
    ensures StaleSources(report, insight) == [] <==> forall e :: e in insight.evidence ==> !IsStale(report, e.source)
  {
    var stale := StaleSources(report, insight);
    forall e | e in insight.evidence
      ensures IsStale(report, e.source) ==> e.source in stale
    {
      StaleSourcesExactly(report, insight, e.source);
    }
    if stale != [] {
      assert stale[0] in stale;
      StaleSourcesExactly(report, insight, stale[0]);
    }
  }

  lemma {:induction false} AppendedIsNew<T, K>(s: seq<T>, more: seq<T>, key: T -> K, x: T)
    requires x in AppendNew(s, more, key)
    ensures x in s || (x in more && key(x) !in Map(s, key))
  {
    if more != [] {
      var front := more[..|more| - 1];
      if x in AppendNew(s, front, key) {
        AppendedIsNew(s, front, key, x);
      } else {
        var r := AppendNew(s, front, key);
        assert Map(s, key) == Map(r, key)[..|s|];
      }
    }
  }

  lemma {:induction false} AppendNewTwice<T, K>(s: seq<T>, a: seq<T>, b: seq<T>, key: T -> K)
    ensures AppendNew(s, a + b, key) == AppendNew(AppendNew(s, a, key), b, key)
  {
    if b == [] {
      assert a + b == a;
    } else {
      assert (a + b)[..|a + b| - 1] == a + b[..|b| - 1];
      AppendNewTwice(s, a, b[..|b| - 1], key);
    }
  }

  /** The first insight that raises a detection's key is the one the detection comes from. */
  ghost predicate FirstToRaise(src: Source, report: Report, i: nat, d: Detection)
    requires i < |report.insights|
  {
    && ComesFrom(d, src, report, report.insights[i])
    && forall j :: 0 <= j < i ==> !Raises(src, report, report.insights[j], d.dedupeKey)
  }

  /** In what grows part by part, an item kept under its key comes from the first part with that key. */
  lemma {:induction false} FirstOfItsKey<T, K>(all: nat -> seq<T>, part: nat -> seq<T>, key: T -> K, n: nat, x: T)
      returns (i: nat)
    requires all(0) == [] && forall k: nat :: k < n ==> all(k + 1) == all(k) + part(k)
    requires x in UniqueBy(all(n), key)
    ensures i < n && x in part(i) && key(x) !in Map(UniqueBy(all(i), key), key)
  {
    var before, found := all(n - 1), part(n - 1);
    AppendNewTwice([], before, found, key);
    AppendedIsNew(UniqueBy(before, key), found, key, x);
    if x in UniqueBy(before, key) {
      i := FirstOfItsKey(all, part, key, n - 1, x);
    } else {
      i := n - 1;
    }
  }

  lemma ContributionsGrow(src: Source, report: Report, draws: Draws) returns (all: nat -> seq<Detection>,
      part: nat -> seq<Detection>)
    ensures forall n: nat :: n <= |report.insights| ==> all(n) == Contributions(src, report, n, draws)
    ensures forall n: nat :: n < |report.insights| ==> part(n) == Contribution(src, report, n, draws)
    ensures all(0) == [] && forall n: nat :: n < |report.insights| ==> all(n + 1) == all(n) + part(n)
  {
    all := (n: nat) => if n <= |report.insights| then Contributions(src, report, n, draws) else [];
    part := (n: nat) => if n < |report.insights| then Contribution(src, report, n, draws) else [];
    forall n: nat | n < |report.insights| ensures all(n + 1) == all(n) + part(n) {
      OneMoreInsight(src, report, n, draws);
    }
  }

  lemma OneMoreInsight(src: Source, report: Report, n: nat, draws: Draws)
    requires n < |report.insights|
    ensures Contributions(src, report, n + 1, draws)
         == Contributions(src, report, n, draws) + Contribution(src, report, n, draws)
  {
  }

  lemma KeyNotBefore(src: Source, report: Report, n: nat, draws: Draws, key: string)
    requires n <= |report.insights|
    requires key !in Map(UniqueBy(Contributions(src, report, n, draws), KeyOf), KeyOf)
    ensures forall j :: 0 <= j < n ==> !Raises(src, report, report.insights[j], key)
  {
    var all := Contributions(src, report, n, draws);
    AppendNewMembers([], all, KeyOf);
    MapMembers(all, KeyOf);
    ContributionsKeys(src, report, n, draws, key);
  }

  /** Every detection of a report is what the first insight that raises its key contributes, and says what that
      insight and the report say. */
  lemma DetectionsSay(src: Source, report: Report, draws: Draws, d: Detection) returns (i: nat)
    requires d in Detected(src, report, draws)
    ensures i < |report.insights| && FirstToRaise(src, report, i, d)
  {
    var all, part := ContributionsGrow(src, report, draws);
    i := FirstOfItsKey(all, part, KeyOf, |report.insights|, d);
    ContributionSays(src, report, i, draws, d);
    KeyNotBefore(src, report, i, draws, d.dedupeKey);
  }

  // ---- captured metrics

  /** The metric at `i` counts for the family, under a canonical key, and cites the source. */
  predicate Counts(report: Report, t: CaseType, source: string, i: nat, key: string) {
    && i < |report.metrics| && report.registry.canonical(report.metrics[i].key) == Some(key)
    && report.registry.allowed(t, key) && source in report.metrics[i].sources
  }

  /** What is captured of a metric: its value, unit and caption, and its own key when that is not the canonical one. */
  predicate Captures(e: EvidenceMetric, m: Metric) {
    && e.caption == m.caption && e.value == m.value && e.unit == m.unit
    && e.reportedAs == if m.key == e.key then None else Some(m.key)
  }

  lemma MetricsGrow(report: Report, t: CaseType, source: string)
      returns (all: nat -> seq<EvidenceMetric>, part: nat -> seq<EvidenceMetric>)
    ensures all(|report.metrics|) == Qualifying(report.registry, t, source, report.metrics)
    ensures all(0) == [] && forall n: nat :: n < |report.metrics| ==> all(n + 1) == all(n) + part(n)
    ensures forall n: nat :: n < |report.metrics| ==>
              && all(n) == Qualifying(report.registry, t, source, report.metrics[..n])
              && part(n) == (if IsEvidence(report.registry, t, source, report.metrics[n])
                             then [EvidenceOf(report.registry, report.metrics[n])] else [])
  {
    all := (n: nat) =>
      if n <= |report.metrics| then Qualifying(report.registry, t, source, report.metrics[..n]) else [];
    part := (n: nat) =>
      if n < |report.metrics| && IsEvidence(report.registry, t, source, report.metrics[n])
      then [EvidenceOf(report.registry, report.metrics[n])] else [];
    assert report.metrics[..|report.metrics|] == report.metrics;
    forall n: nat | n < |report.metrics| ensures all(n + 1) == all(n) + part(n) {
      assert report.metrics[..n + 1][..n] == report.metrics[..n];
    }
  }

  /** Each captured metric is the first of the report that counts under its key, with what that one reports. */
  lemma CapturedIsFirst(report: Report, t: CaseType, source: string, e: EvidenceMetric) returns (i: nat)
    requires e in EvidenceMetrics(report, t, source)
    ensures Counts(report, t, source, i, e.key) && Captures(e, report.metrics[i])
    ensures forall j: nat :: j < i ==> !Counts(report, t, source, j, e.key)
  {
    var all, part := MetricsGrow(report, t, source);
    i := FirstOfItsKey(all, part, EvidenceKey, |report.metrics|, e);
    forall j: nat | j < i ensures !Counts(report, t, source, j, e.key) {
      if Counts(report, t, source, j, e.key) {
        var x := EvidenceOf(report.registry, report.metrics[j]);
        assert report.metrics[..i][j] == report.metrics[j] && report.metrics[j] in report.metrics[..i];
        QualifyingMembers(report.registry, t, source, report.metrics[..i], x);
        AppendNewMembers([], all(i), EvidenceKey);
      }
    }
  }

  /** A key is captured exactly when some metric counts under it. */
  lemma CapturedExactly(report: Report, t: CaseType, source: string, key: string)
    ensures key in Map(EvidenceMetrics(report, t, source), EvidenceKey)
       <==> exists i: nat :: Counts(report, t, source, i, key)
  {
    EvidenceMetricsExactly(report, t, source, key);
    if m :| m in report.metrics && IsEvidence(report.registry, t, source, m)
            && report.registry.canonical(m.key) == Some(key) {
      var i :| 0 <= i < |report.metrics| && report.metrics[i] == m;
      assert Counts(report, t, source, i, key);
    }
    if i: nat :| Counts(report, t, source, i, key) {
      assert report.metrics[i] in report.metrics;
    }
  }

  // ---- references

  /** A reference names its source, its day and its family. */
  lemma ReferenceNamesItsParts(source: string, date: string, family: string)
    requires '/' !in source && '/' !in date && '/' !in family
    ensures SplitOn(EvidenceRef(source, date, family), '/') == ["evidence:", "", source, date, family]
  {
    var fromDate := date + "/" + family;
    var fromSource := source + "/" + fromDate;
    RefPieces("evidence://", source, date, family);
    assert "evidence://" == "evidence:" + "/" + ("" + "/" + "");
    assert EvidenceRef(source, date, family) == "evidence:" + "/" + ("" + "/" + fromSource);
    SplitAtSep("evidence:", "" + "/" + fromSource, '/');
    SplitAtSep("", fromSource, '/');
    SplitAtSep(source, fromDate, '/');
    SplitAtSep(date, family, '/');
    SplitLast(family, '/');
  }
}
