/** Turning a daily report into case detections, and storing them. */
module Detections {
  import opened Basics
  import opened Text
  import opened Calendar
  import opened Cases

  datatype Evidence = Evidence(source: string, caption: string)

  /** An insight with its title also in lower case, as the host lowers it. */
  datatype Insight = Insight(
    severity: Severity,
    title: string,
    lowered: string,
    explanation: string,
    recommended: string,
    evidence: seq<Evidence>)

  datatype Metric = Metric(key: string, caption: string, value: MetricValue, unit: Option<string>, sources: set<string>)

  /** The metric registry and what the host supplies: the canonical key of a metric key, which canonical keys
      are evidence for a case family, lowering of text and reading of floats. */
  datatype Registry = Registry(
    canonical: string -> Option<string>,
    allowed: (CaseType, string) -> bool,
    lower: string -> string,
    toFloat: string -> Option<real>)

  datatype Report = Report(date: string, insights: seq<Insight>, metrics: seq<Metric>, registry: Registry)

  /** Snapshot ids and clock readings, by insight and evidence position. */
  datatype Draws = Draws(id: (nat, nat) -> string, at: (nat, nat) -> Time)

  datatype Source = Source(businessId: string, runId: Option<string>, artifactRef: Option<string>)

  function Contains(s: string, part: string): bool {
    part <= s || (s != [] && Contains(s[1..], part))
  }

  /** The case family of an insight; channel mix shift is recognised but not detectable. */
  function CaseTypeFor(insight: Insight): Option<CaseType> {
    var title := insight.lowered;
    if insight.severity == Info then None
    else if Contains(title, "stock") then Some(StockoutRisk)
    else if Contains(title, "sin ventas") || Contains(title, "roas bajo") then Some(SpendWithoutOrders)
    else if Contains(title, "conversaciones") then Some(UnansweredConversations)
    else if Contains(title, "tiendanube") || Contains(title, "canal") then None
    else if Contains(title, "ventas") then Some(SalesDrop)
    else None
  }

  function DedupeKey(businessId: string, t: CaseType): string {
    businessId + "/" +
    match t
    case SalesDrop => "sales_drop/channel/all/commerce.revenue/daily"
    case StockoutRisk => "stockout_risk/business/monitored/commerce.inventory/daily"
    case SpendWithoutOrders => "spend_without_orders/channel/meta_ads/ads.spend/daily"
    case DataStale => "data_stale/connector/unknown/runtime.freshness/daily"
    case FulfillmentBacklog => "fulfillment_backlog/channel/tiendanube/commerce.fulfillment/daily"
    case UnansweredConversations => "unanswered_conversations/channel/whatsapp/support.conversations/daily"
    case ChannelMixShift => "channel_mix_shift/business/all_channels/commerce.revenue/daily"
  }

  function StaleKey(businessId: string, source: string): string {
    businessId + "/data_stale/connector/" + source + "/runtime.freshness/daily"
  }

  function EntityScope(t: CaseType): map<string, string> {
    match t
    case SalesDrop => map["kind" := "channel", "id" := "all", "label" := "Canales monitoreados"]
    case StockoutRisk => map["kind" := "business", "id" := "monitored", "label" := "Productos monitoreados"]
    case SpendWithoutOrders => map["kind" := "channel", "id" := "meta_ads", "label" := "Meta Ads"]
    case DataStale => map["kind" := "connector", "id" := "unknown", "label" := "Unknown connector"]
    case FulfillmentBacklog => map["kind" := "channel", "id" := "tiendanube", "label" := "Tiendanube"]
    case UnansweredConversations => map["kind" := "channel", "id" := "whatsapp", "label" := "WhatsApp"]
    case ChannelMixShift => map["kind" := "business", "id" := "all_channels", "label" := "Todos los canales"]
  }

  function PriorityOf(s: Severity): int {
    match s
    case Critical => 100
    case Warning => 70
    case Info => 30
  }

  function SourceName(e: Evidence): string { e.source }

  // ---- what the metrics say of a source

  predicate Speaks(registry: Registry, m: Metric, source: string, key: string) {
    registry.canonical(m.key) == Some(key) && source in m.sources
  }

  /** The value of the first metric with a canonical key that cites the source. */
  function ValueFor(registry: Registry, metrics: seq<Metric>, source: string, key: string): Option<MetricValue> {
    if metrics == [] then None
    else if Speaks(registry, metrics[0], source, key) then Some(metrics[0].value)
    else ValueFor(registry, metrics[1..], source, key)
  }

  /** The loop that looks the value up. */
  method FindValue(registry: Registry, metrics: seq<Metric>, source: string, key: string)
    returns (value: Option<MetricValue>)
    ensures value == ValueFor(registry, metrics, source, key)
  {
    assert metrics[0..] == metrics;
    for i := 0 to |metrics|
      invariant ValueFor(registry, metrics[i..], source, key) == ValueFor(registry, metrics, source, key)
    {
      if Speaks(registry, metrics[i], source, key) { return Some(metrics[i].value); }
    }
    return None;
  }

  /** The state a status text names, if it names one. */
  function StatusFreshness(status: string): Option<Freshness> {
    if status == "stale" then Some(Stale)
    else if status == "missing" then Some(Missing)
    else if status == "degraded" then Some(Degraded)
    else if status in {"failed", "failure", "error", "unauthorized", "expired"} then Some(Stale)
    else if status in {"fresh", "ok", "healthy", "success", "true"} then Some(Fresh)
    else None
  }

  function AgeOf(registry: Registry, value: Option<MetricValue>): Option<real> {
    match value
    case None => None
    case Some(NumberValue(x)) => Some(x)
    case Some(FlagValue(b)) => Some(if b then 1.0 else 0.0)
    case Some(TextValue(s)) => registry.toFloat(s)
  }

  function AgeFreshness(age: Option<real>): Freshness {
    match age
    case None => Unknown
    case Some(x) => if x >= 86400.0 then Stale else if x >= 21600.0 then Degraded else Fresh
  }

  /** A source's state: what its reported status names, or else what its age gives. */
  function FreshnessOf(report: Report, source: string): Freshness {
    var status := ValueFor(report.registry, report.metrics, source, "runtime.connector.status");
    var age := AgeFreshness(AgeOf(report.registry,
      ValueFor(report.registry, report.metrics, source, "runtime.freshness.age_seconds")));
    match status
    case Some(TextValue(s)) =>
      (match StatusFreshness(report.registry.lower(Strip(s)))
       case Some(f) => f
       case None => age)
    case Some(FlagValue(false)) => Stale
    case _ => age
  }

  function FreshnessText(f: Freshness): string {
    match f
    case Fresh => "fresh"
    case Stale => "stale"
    case Degraded => "degraded"
    case Missing => "missing"
    case Unknown => "unknown"
  }

  predicate IsEvidence(registry: Registry, t: CaseType, source: string, m: Metric) {
    registry.canonical(m.key).Some? && registry.allowed(t, registry.canonical(m.key).value) && source in m.sources
  }

  function EvidenceOf(registry: Registry, m: Metric): EvidenceMetric
    requires registry.canonical(m.key).Some?
  {
    var key := registry.canonical(m.key).value;
    EvidenceMetric(key, m.caption, m.value, m.unit, if m.key != key then Some(m.key) else None)
  }

  function EvidenceKey(e: EvidenceMetric): string { e.key }

  function Qualifying(registry: Registry, t: CaseType, source: string, metrics: seq<Metric>): seq<EvidenceMetric> {
    if metrics == [] then []
    else
      var m := metrics[|metrics| - 1];
      Qualifying(registry, t, source, metrics[..|metrics| - 1])
      + (if IsEvidence(registry, t, source, m) then [EvidenceOf(registry, m)] else [])
  }

  /** The metrics captured for a source: the first of each canonical key that counts for the case family. */
  function EvidenceMetrics(report: Report, t: CaseType, source: string): seq<EvidenceMetric> {
    UniqueBy(Qualifying(report.registry, t, source, report.metrics), EvidenceKey)
  }

  method CaseEvidenceMetrics(report: Report, t: CaseType, source: string) returns (captured: seq<EvidenceMetric>)
    ensures captured == EvidenceMetrics(report, t, source)
    ensures NoDuplicates(Map(captured, EvidenceKey))
  {
    captured := [];
    var seen: set<string> := {};
    for i := 0 to |report.metrics|
      invariant captured == UniqueBy(Qualifying(report.registry, t, source, report.metrics[..i]), EvidenceKey)
      invariant forall k :: k in seen <==> k in Map(captured, EvidenceKey)
    {
      var m := report.metrics[i];
      NextEvidence(report, t, source, i);
      if !IsEvidence(report.registry, t, source, m) { continue; }
      var e := EvidenceOf(report.registry, m);
      if e.key in seen { continue; }
      seen := seen + {e.key};
      MapOneMore(captured, e);
      captured := captured + [e];
    }
    assert report.metrics[..|report.metrics|] == report.metrics;
    EvidenceKeysDistinct(report, t, source);
  }

  lemma MapOneMore(captured: seq<EvidenceMetric>, e: EvidenceMetric)
    ensures Map(captured + [e], EvidenceKey) == Map(captured, EvidenceKey) + [e.key]
  {
  }

  lemma EvidenceKeysDistinct(report: Report, t: CaseType, source: string)
    ensures NoDuplicates(Map(EvidenceMetrics(report, t, source), EvidenceKey))
  {
    assert Map([], EvidenceKey) == [];
    AppendNewKeys([], Qualifying(report.registry, t, source, report.metrics), EvidenceKey);
  }

  /** What one more metric adds to those captured so far. */
  lemma NextEvidence(report: Report, t: CaseType, source: string, i: nat)
    requires i < |report.metrics|
    ensures var m := report.metrics[i];
            var held := UniqueBy(Qualifying(report.registry, t, source, report.metrics[..i]), EvidenceKey);
            var now := UniqueBy(Qualifying(report.registry, t, source, report.metrics[..i + 1]), EvidenceKey);
            if IsEvidence(report.registry, t, source, m)
              && EvidenceOf(report.registry, m).key !in Map(held, EvidenceKey)
            then now == held + [EvidenceOf(report.registry, m)] else now == held
  {
    var before := Qualifying(report.registry, t, source, report.metrics[..i]);
    assert report.metrics[..i + 1][..i] == report.metrics[..i];
    if IsEvidence(report.registry, t, source, report.metrics[i]) {
      UniqueBySnoc(before, EvidenceOf(report.registry, report.metrics[i]), EvidenceKey);
    } else {
      assert before + [] == before;
    }
  }

  lemma UniqueBySnoc<T, K>(s: seq<T>, x: T, key: T -> K)
    ensures UniqueBy(s + [x], key) == if key(x) in Map(UniqueBy(s, key), key) then UniqueBy(s, key)
            else UniqueBy(s, key) + [x]
  {
    assert (s + [x])[..|s|] == s;
  }

  lemma {:induction false} QualifyingMembers(
      registry: Registry, t: CaseType, source: string, metrics: seq<Metric>, e: EvidenceMetric)
    ensures e in Qualifying(registry, t, source, metrics)
       <==> exists m :: m in metrics && IsEvidence(registry, t, source, m) && e == EvidenceOf(registry, m)
  {
    if metrics != [] {
      var front, m := metrics[..|metrics| - 1], metrics[|metrics| - 1];
      assert metrics == front + [m];
      QualifyingMembers(registry, t, source, front, e);
    }
  }

  /** A canonical key is captured exactly when some metric of the report has it, counts for the case family and
      cites the source; each is captured once, as one of those metrics reports it. */
  lemma EvidenceMetricsExactly(report: Report, t: CaseType, source: string, key: string)
    ensures NoDuplicates(Map(EvidenceMetrics(report, t, source), EvidenceKey))
    ensures key in Map(EvidenceMetrics(report, t, source), EvidenceKey)
       <==> exists m :: m in report.metrics && IsEvidence(report.registry, t, source, m)
                        && report.registry.canonical(m.key) == Some(key)
    ensures forall e :: e in EvidenceMetrics(report, t, source) ==>
              exists m :: m in report.metrics && IsEvidence(report.registry, t, source, m)
                && e == EvidenceOf(report.registry, m)
  {
    var all, kept := Qualifying(report.registry, t, source, report.metrics), EvidenceMetrics(report, t, source);
    EvidenceKeysDistinct(report, t, source);
    AppendNewMembers([], all, EvidenceKey);
    MapMembers(kept, EvidenceKey);
    forall e | e in kept
      ensures exists m ::
                m in report.metrics && IsEvidence(report.registry, t, source, m) && e == EvidenceOf(report.registry, m)
    {
      QualifyingMembers(report.registry, t, source, report.metrics, e);
    }
    forall m | m in report.metrics && IsEvidence(report.registry, t, source, m)
      ensures EvidenceOf(report.registry, m) in all
    {
      QualifyingMembers(report.registry, t, source, report.metrics, EvidenceOf(report.registry, m));
    }
  }

  predicate IsStale(report: Report, source: string) { FreshnessOf(report, source) in {Stale, Degraded, Missing} }

  /** The distinct stale sources of an insight, in order of first appearance. */
  function StaleSources(report: Report, insight: Insight): seq<string> {
    Unique(Filter(Map(insight.evidence, SourceName), (s: string) => IsStale(report, s)))
  }

  function EvidenceRef(source: string, date: string, family: string): string {
    "evidence://" + source + "/" + date + "/" + family
  }

  function ArtifactRefs(src: Source): seq<string> { RunIds(src.artifactRef) }

  function SuppressionSummary(source: string, state: Freshness, suppressed: CaseType): string {
    source + " data is " + FreshnessText(state) + "; suppressed " + CaseTypeText(suppressed)
    + " detection until source freshness recovers."
  }

  /** The label of the first evidence from a source. */
  function CaptionFor(evidence: seq<Evidence>, source: string): string {
    if evidence == [] then source
    else if evidence[0].source == source then evidence[0].caption
    else CaptionFor(evidence[1..], source)
  }

  /** The detection raised for a stale source instead of the case it suppresses. */
  function StaleDetection(
    src: Source, report: Report, insight: Insight, suppressed: CaseType, source: string, id: string,
      at: Time): (d: Detection)
    ensures d.businessId == src.businessId && d.dedupeKey == StaleKey(src.businessId, source) && d.snapshots != []
  {
    var ref := EvidenceRef(source, report.date, "data_stale");
    var state := FreshnessOf(report, source);
    var d := Detection(
               src.businessId, DataStale, StaleKey(src.businessId, source),
               "Datos stale o fallidos: " + source, Warning, 80,
               map["kind" := "connector", "id" := source, "label" := source], [ref], src.runId, ArtifactRefs(src), [],
               map["connector_type" := source, "insight_title" := insight.title,
                   "freshness_state" := FreshnessText(state),
                   "error_summary" := SuppressionSummary(source, state, suppressed)]);
    d.(snapshots := [MinimalSnapshot(d, ref, src.artifactRef, id, at).(
                       sourceCaption := Some(CaptionFor(insight.evidence, source)), freshness := state,
                       metrics := EvidenceMetrics(report, DataStale, source))])
  }

  function InsightSnapshot(
    src: Source, report: Report, insight: Insight, d: Detection, evidence: Evidence, id: string, at: Time): Snapshot
  {
    var s := MinimalSnapshot(d, EvidenceRef(evidence.source, report.date, CaseTypeText(d.caseType)), src.artifactRef,
      id, at);
    s.(sourceCaption := Some(evidence.caption),
       metrics := EvidenceMetrics(report, d.caseType, evidence.source),
       freshness := if s.source in Map(insight.evidence, SourceName) then FreshnessOf(report, s.source) else Unknown)
  }

  /** The case of an insight, before its snapshots. */
  function PlainDetection(src: Source, report: Report, insight: Insight, t: CaseType): Detection {
    var refs := Unique(Map(insight.evidence, SourceName));
    Detection(
      src.businessId, t, DedupeKey(src.businessId, t), insight.title, insight.severity, PriorityOf(insight.severity),
      EntityScope(t),
      seq(|refs|, k requires 0 <= k < |refs| => EvidenceRef(refs[k], report.date, CaseTypeText(t))),
      src.runId, ArtifactRefs(src), [],
      map["insight_title" := insight.title, "insight_explanation" := insight.explanation,
          "recommended_action" := insight.recommended])
  }

  /** A snapshot per evidence entry of the insight. */
  function InsightSnapshots(src: Source, report: Report, i: nat, d: Detection, draws: Draws): (found: seq<Snapshot>)
    requires i < |report.insights|
    ensures |found| == |report.insights[i].evidence|
  {
    var insight := report.insights[i];
    seq(|insight.evidence|, k requires 0 <= k < |insight.evidence| =>
      InsightSnapshot(src, report, insight, d, insight.evidence[k], draws.id(i, k), draws.at(i, k)))
  }

  function CaseDetection(src: Source, report: Report, i: nat, t: CaseType, draws: Draws): (d: Detection)
    requires i < |report.insights|
    ensures d.businessId == src.businessId && d.dedupeKey == DedupeKey(src.businessId, t)
  {
    var d := PlainDetection(src, report, report.insights[i], t);
    d.(snapshots := UniqueBy(InsightSnapshots(src, report, i, d, draws), SnapshotKey))
  }

  /** What one insight contributes: nothing, a detection per stale source, or its own case. */
  function Contribution(src: Source, report: Report, i: nat, draws: Draws): seq<Detection>
    requires i < |report.insights|
  {
    var insight := report.insights[i];
    match CaseTypeFor(insight)
    case None => []
    case Some(t) =>
      var stale := StaleSources(report, insight);
      if stale != [] then
        seq(|stale|, k requires 0 <= k < |stale| => StaleDetection(src, report, insight, t, stale[k], draws.id(i, k),
          draws.at(i, k)))
      else [CaseDetection(src, report, i, t, draws)]
  }

  function Contributions(src: Source, report: Report, n: nat, draws: Draws): seq<Detection>
    requires n <= |report.insights|
  {
    if n == 0 then [] else Contributions(src, report, n - 1, draws) + Contribution(src, report, n - 1, draws)
  }

  function KeyOf(d: Detection): string { d.dedupeKey }

  /** The detections of a report: the first contribution of each dedupe key. */
  function Detected(src: Source, report: Report, draws: Draws): seq<Detection> {
    UniqueBy(Contributions(src, report, |report.insights|, draws), KeyOf)
  }

  /** Adds the detections whose key was not seen yet. */
  method AddUnseen(detections: seq<Detection>, seen: set<string>, found: seq<Detection>, ghost before: seq<Detection>)
    returns (r: seq<Detection>, newSeen: set<string>)
    requires detections == UniqueBy(before, KeyOf) && forall k :: k in seen <==> k in Map(detections, KeyOf)
    ensures r == UniqueBy(before + found, KeyOf) && forall k :: k in newSeen <==> k in Map(r, KeyOf)
  {
    r, newSeen := detections, seen;
    assert before + found[..0] == before;
    for j := 0 to |found|
      invariant r == UniqueBy(before + found[..j], KeyOf)
      invariant forall k :: k in newSeen <==> k in Map(r, KeyOf)
    {
      assert (before + found[..j + 1])[..|before| + j] == before + found[..j];
      if found[j].dedupeKey !in newSeen {
        assert Map(r + [found[j]], KeyOf) == Map(r, KeyOf) + [KeyOf(found[j])];
        r := r + [found[j]];
        newSeen := newSeen + {found[j].dedupeKey};
      }
    }
    assert found[..|found|] == found;
  }

  method DetectCases(src: Source, report: Report, draws: Draws) returns (detections: seq<Detection>)
    ensures detections == Detected(src, report, draws)
  {
    detections := [];
    var seen: set<string> := {};
    for i := 0 to |report.insights|
      invariant detections == UniqueBy(Contributions(src, report, i, draws), KeyOf)
      invariant forall k :: k in seen <==> k in Map(detections, KeyOf)
    {
      var found := Contribution(src, report, i, draws);
      detections, seen := AddUnseen(detections, seen, found, Contributions(src, report, i, draws));
    }
  }

  // ---- coverage

  /** The keys an insight is expected to raise. */
  predicate Raises(src: Source, report: Report, insight: Insight, key: string) {
    match CaseTypeFor(insight)
    case None => false
    case Some(t) =>
      if exists e :: e in insight.evidence && IsStale(report, e.source) then
        exists e :: e in insight.evidence && IsStale(report, e.source) && key == StaleKey(src.businessId, e.source)
      else key == DedupeKey(src.businessId, t)
  }

  lemma StaleSourcesExactly(report: Report, insight: Insight, source: string)
    ensures source in StaleSources(report, insight)
       <==> exists e :: e in insight.evidence && IsStale(report, e.source) && e.source == source
  {
    var sources := Map(insight.evidence, SourceName);
    var stale := Filter(sources, (s: string) => IsStale(report, s));
    MapMembers(insight.evidence, SourceName);
    AppendNewMembers([], stale, Identity<string>);
    MapMembers(Unique(stale), Identity<string>);
  }

  /** The keys of one insight's contribution. */
  function RaisedKeys(src: Source, report: Report, insight: Insight): seq<string> {
    match CaseTypeFor(insight)
    case None => []
    case Some(t) =>
      var stale := StaleSources(report, insight);
      if stale != [] then seq(|stale|, k requires 0 <= k < |stale| => StaleKey(src.businessId, stale[k]))
      else [DedupeKey(src.businessId, t)]
  }

  lemma ContributionKeys(src: Source, report: Report, i: nat, draws: Draws)
    requires i < |report.insights|
    ensures Map(Contribution(src, report, i, draws), KeyOf) == RaisedKeys(src, report, report.insights[i])
    ensures forall d :: d in Contribution(src, report, i, draws) ==> d.businessId == src.businessId
  {
    var found, keys := Contribution(src, report, i, draws), RaisedKeys(src, report, report.insights[i]);
    assert |found| == |keys|;
    var insight := report.insights[i];
    var stale := StaleSources(report, insight);
    forall k | 0 <= k < |found| ensures found[k].dedupeKey == keys[k] && found[k].businessId == src.businessId {
      if stale != [] {
        assert found[k]
          == StaleDetection(src, report, insight, CaseTypeFor(insight).value, stale[k], draws.id(i, k), draws.at(i, k));
      } else {
        assert found[k] == CaseDetection(src, report, i, CaseTypeFor(insight).value, draws);
      }
    }
  }

  lemma RaisedKeysExactly(src: Source, report: Report, insight: Insight, key: string)
    ensures key in RaisedKeys(src, report, insight) <==> Raises(src, report, insight, key)
  {
    var stale, keys := StaleSources(report, insight), RaisedKeys(src, report, insight);
    forall source
      ensures source in stale <==> exists e :: e in insight.evidence && IsStale(report, e.source) && e.source == source
    {
      StaleSourcesExactly(report, insight, source);
    }
    if CaseTypeFor(insight).Some? && stale != [] {
      assert stale[0] in stale;
      if key in keys {
        var k :| 0 <= k < |keys| && keys[k] == key;
        assert stale[k] in stale;
      }
      if Raises(src, report, insight, key) {
        var e :| e in insight.evidence && IsStale(report, e.source) && key == StaleKey(src.businessId, e.source);
        assert e.source in stale;
        var k :| 0 <= k < |stale| && stale[k] == e.source;
        assert keys[k] == key;
      }
    } else if CaseTypeFor(insight).Some? {
      forall e | e in insight.evidence ensures !IsStale(report, e.source) {
        assert IsStale(report, e.source) ==> e.source in stale;
      }
    }
  }

  /** One of the first `n` insights raises the key. */
  ghost predicate RaisedWithin(src: Source, report: Report, n: nat, key: string)
    requires n <= |report.insights|
  {
    exists i :: 0 <= i < n && Raises(src, report, report.insights[i], key)
  }

  lemma RaisedWithinStep(src: Source, report: Report, n: nat, key: string)
    requires 0 < n <= |report.insights|
    ensures RaisedWithin(src, report, n, key)
       <==> RaisedWithin(src, report, n - 1, key) || Raises(src, report, report.insights[n - 1], key)
  {
  }

  lemma ContributionRaises(src: Source, report: Report, i: nat, draws: Draws, key: string)
    requires i < |report.insights|
    ensures key in Map(Contribution(src, report, i, draws), KeyOf) <==> Raises(src, report, report.insights[i], key)
  {
    ContributionKeys(src, report, i, draws);
    RaisedKeysExactly(src, report, report.insights[i], key);
  }

  lemma {:induction false} ContributionsBusiness(src: Source, report: Report, n: nat, draws: Draws, d: Detection)
    requires n <= |report.insights| && d in Contributions(src, report, n, draws)
    ensures d.businessId == src.businessId
  {
    if d in Contributions(src, report, n - 1, draws) {
      ContributionsBusiness(src, report, n - 1, draws, d);
    } else {
      InEither(Contributions(src, report, n - 1, draws), Contribution(src, report, n - 1, draws));
      ContributionBusiness(src, report, n - 1, draws);
    }
  }

  lemma ContributionBusiness(src: Source, report: Report, i: nat, draws: Draws)
    requires i < |report.insights|
    ensures forall d :: d in Contribution(src, report, i, draws) ==> d.businessId == src.businessId
  {
    ContributionKeys(src, report, i, draws);
  }

  lemma InEither(a: seq<Detection>, b: seq<Detection>)
    ensures forall d :: d in a + b <==> d in a || d in b
  {
  }

  lemma KeyInEither(a: seq<Detection>, b: seq<Detection>, key: string)
    ensures key in Map(a + b, KeyOf) <==> key in Map(a, KeyOf) || key in Map(b, KeyOf)
  {
    assert Map(a + b, KeyOf) == Map(a, KeyOf) + Map(b, KeyOf);
  }

  lemma ContributionsStep(src: Source, report: Report, n: nat, draws: Draws, key: string)
    requires 0 < n <= |report.insights|
    ensures key in Map(Contributions(src, report, n, draws), KeyOf)
       <==> || key in Map(Contributions(src, report, n - 1, draws), KeyOf)
            || Raises(src, report, report.insights[n - 1], key)
  {
    ContributionRaises(src, report, n - 1, draws, key);
    ContributionsJoin(src, report, n, draws, key);
  }

  lemma ContributionsJoin(src: Source, report: Report, n: nat, draws: Draws, key: string)
    requires 0 < n <= |report.insights|
    ensures key in Map(Contributions(src, report, n, draws), KeyOf)
       <==> || key in Map(Contributions(src, report, n - 1, draws), KeyOf)
            || key in Map(Contribution(src, report, n - 1, draws), KeyOf)
  {
    KeyInEither(Contributions(src, report, n - 1, draws), Contribution(src, report, n - 1, draws), key);
  }

  lemma {:induction false} ContributionsKeys(src: Source, report: Report, n: nat, draws: Draws, key: string)
    requires n <= |report.insights|
    ensures key in Map(Contributions(src, report, n, draws), KeyOf) <==> RaisedWithin(src, report, n, key)
  {
    if n > 0 {
      ContributionsKeys(src, report, n - 1, draws, key);
      ContributionsStep(src, report, n, draws, key);
      RaisedWithinStep(src, report, n, key);
    }
  }

  /** Detections have distinct keys, and a key is detected exactly when some insight raises it: its own
      key when none of its sources is stale, and otherwise the stale-data keys of its stale sources. */
  lemma DetectionCoverage(src: Source, report: Report, draws: Draws, key: string)
    ensures NoDuplicates(Map(Detected(src, report, draws), KeyOf))
    ensures key in Map(Detected(src, report, draws), KeyOf) <==> RaisedWithin(src, report, |report.insights|, key)
    ensures forall d :: d in Detected(src, report, draws) ==> d.businessId == src.businessId
  {
    var all, detected := Contributions(src, report, |report.insights|, draws), Detected(src, report, draws);
    assert Map([], KeyOf) == [];
    AppendNewKeys([], all, KeyOf);
    AppendNewMembers([], all, KeyOf);
    MapMembers(all, KeyOf);
    MapMembers(detected, KeyOf);
    ContributionsKeys(src, report, |report.insights|, draws, key);
    forall d | d in all
      ensures d.businessId == src.businessId
    {
      ContributionsBusiness(src, report, |report.insights|, draws, d);
    }
    assert key in Map(detected, KeyOf) <==> key in Map(all, KeyOf);
  }
}
