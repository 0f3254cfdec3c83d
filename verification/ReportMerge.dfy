/** The merge policy for several connectors' daily reports: one metric per key, in
    first-seen order, additive where units agree and last-wins elsewhere. */
module ReportMerge {
  import opened Basics

  datatype Evidence = Evidence(source: string, caption: string, url: Option<string>)

  datatype Value = Number(x: real) | Text(s: string)

  datatype Metric = Metric(key: string, caption: string, value: Value, unit: Option<string>, evidence: seq<Evidence>)

  datatype Report<Insight> = Report(name: string, date: int, metrics: seq<Metric>, insights: seq<Insight>)

  /** Insight generation, which the merge treats as a function of the merged metrics, with and
      without a business's own thresholds. */
  datatype Insights<Insight> = Insights(business: bool, generate: seq<Metric> -> seq<Insight>)

  function EvidenceId(e: Evidence): (string, string) { (e.source, e.caption) }

  function MetricKey(m: Metric): string { m.key }

  predicate Additive(a: Metric, b: Metric) {
    a.value.Number? && b.value.Number? && a.unit == b.unit
  }

  function MergeDuplicate(existing: Metric, incoming: Metric): Metric {
    if Additive(existing, incoming) then
      existing.(value := Number(existing.value.x + incoming.value.x),
                evidence := AppendNew(existing.evidence, incoming.evidence, EvidenceId))
    else incoming
  }

  /** Appends the evidence of `right` whose source and label are new. */
  method MergeEvidence(left: seq<Evidence>, right: seq<Evidence>) returns (evidence: seq<Evidence>)
    ensures evidence == AppendNew(left, right, EvidenceId)
  {
    evidence := left;
    var seen := set e | e in left :: EvidenceId(e);
    for i := 0 to |right|
      invariant evidence == AppendNew(left, right[..i], EvidenceId)
      invariant forall k :: k in seen <==> k in Map(evidence, EvidenceId)
    {
      var item := right[i];
      assert right[..i + 1][..i] == right[..i];
      if EvidenceId(item) !in seen {
        ghost var before := evidence;
        evidence := evidence + [item];
        seen := seen + {EvidenceId(item)};
        assert Map(evidence, EvidenceId) == Map(before, EvidenceId) + [EvidenceId(item)];
      }
    }
    assert right[..|right|] == right;
  }

  /** An insertion-ordered dictionary of metrics, as its list of values. */
  ghost predicate Keyed(acc: seq<Metric>) { NoDuplicates(Map(acc, MetricKey)) }

  /** Position of a key, or the length when absent. */
  function Find(acc: seq<Metric>, key: string): (i: nat)
    ensures i <= |acc|
    ensures i < |acc| ==> acc[i].key == key
    ensures forall j :: 0 <= j < i ==> acc[j].key != key
  {
    if acc == [] then 0
    else
      var i := Find(acc[..|acc| - 1], key);
      if i < |acc| - 1 || acc[i].key == key then i else |acc|
  }

  function MergeInto(acc: seq<Metric>, m: Metric): seq<Metric> {
    var i := Find(acc, m.key);
    if i == |acc| then acc + [m] else
      acc[i := MergeDuplicate(acc[i], m)]
  }

  function MergeMetrics(acc: seq<Metric>, metrics: seq<Metric>): seq<Metric> {
    if metrics == [] then acc
    else MergeInto(MergeMetrics(acc, metrics[..|metrics| - 1]), metrics[|metrics| - 1])
  }

  function AllMetrics<Insight>(reports: seq<Report<Insight>>): seq<Metric> {
    if reports == [] then []
    else AllMetrics(reports[..|reports| - 1]) + reports[|reports| - 1].metrics
  }

  /** The merged report; an empty batch is refused, and a single report without a business
      configuration passes through untouched. */
  function Merge<Insight>(reports: seq<Report<Insight>>, insights: Insights<Insight>): Result<Report<Insight>, ()> {
    if reports == [] then Err(())
    else if |reports| == 1 && !insights.business then Ok(reports[0])
    else
      var metrics := MergeMetrics([], AllMetrics(reports));
      Ok(Report(reports[0].name, reports[0].date, metrics, insights.generate(metrics)))
  }

  function ValuesInOrder(order: seq<string>, byKey: map<string, Metric>): seq<Metric>
    requires forall k :: k in order ==> k in byKey
  {
    seq(|order|, i requires 0 <= i < |order| => assert order[i] in order; byKey[order[i]])
  }

  /** Folds one report's metrics into the dictionary. */
  method MergeReportMetrics(order: seq<string>, byKey: map<string, Metric>, metrics: seq<Metric>)
    returns (newOrder: seq<string>, newByKey: map<string, Metric>)
    requires Indexes(order, byKey)
    ensures Indexes(newOrder, newByKey)
    ensures ValuesInOrder(newOrder, newByKey) == MergeMetrics(ValuesInOrder(order, byKey), metrics)
  {
    newOrder, newByKey := order, byKey;
    for i := 0 to |metrics|
      invariant Indexes(newOrder, newByKey)
      invariant ValuesInOrder(newOrder, newByKey) == MergeMetrics(ValuesInOrder(order, byKey), metrics[..i])
    {
      var m := metrics[i];
      assert metrics[..i + 1][..i] == metrics[..i];
      PutIsMergeInto(newOrder, newByKey, m);
      if m.key !in newByKey {
        newOrder := newOrder + [m.key];
        newByKey := newByKey[m.key := m];
      } else {
        newByKey := newByKey[m.key := MergeDuplicate(newByKey[m.key], m)];
      }
    }
    assert metrics[..|metrics|] == metrics;
  }

  /** The merge as the program runs it, over one dictionary and its insertion order. */
  method MergeDailyReports<Insight>(reports: seq<Report<Insight>>, insights: Insights<Insight>)
    returns (merged: Result<Report<Insight>, ()>)
    ensures merged == Merge(reports, insights)
  {
    if reports == [] { return Err(()); }
    if |reports| == 1 && !insights.business { return Ok(reports[0]); }
    var order: seq<string>, byKey: map<string, Metric> := [], map[];
    for r := 0 to |reports|
      invariant Indexes(order, byKey)
      invariant ValuesInOrder(order, byKey) == MergeMetrics([], AllMetrics(reports[..r]))
    {
      MergeMetricsConcat([], AllMetrics(reports[..r]), reports[r].metrics);
      assert reports[..r + 1][..r] == reports[..r];
      order, byKey := MergeReportMetrics(order, byKey, reports[r].metrics);
    }
    assert reports[..|reports|] == reports;
    var metrics := ValuesInOrder(order, byKey);
    return Ok(Report(reports[0].name, reports[0].date, metrics, insights.generate(metrics)));
  }

  /** `order` lists the dictionary's keys once each, and values sit under their own key. */
  ghost predicate Indexes(order: seq<string>, byKey: map<string, Metric>) {
    && NoDuplicates(order) && (forall k :: k in order <==> k in byKey)
    && forall k :: k in byKey ==> byKey[k].key == k
  }

  lemma PutIsMergeInto(order: seq<string>, byKey: map<string, Metric>, m: Metric)
    requires Indexes(order, byKey)
    ensures m.key !in byKey ==>
              && Indexes(order + [m.key], byKey[m.key := m])
              && ValuesInOrder(order + [m.key], byKey[m.key := m]) == MergeInto(ValuesInOrder(order, byKey), m)
    ensures m.key in byKey ==>
              var put := byKey[m.key := MergeDuplicate(byKey[m.key], m)];
              && Indexes(order, put)
              && ValuesInOrder(order, put) == MergeInto(ValuesInOrder(order, byKey), m)
  {
    var acc := ValuesInOrder(order, byKey);
    assert forall i :: 0 <= i < |order| ==> order[i] in order && acc[i].key == order[i];
    var i := Find(acc, m.key);
    if m.key in byKey {
      var j :| 0 <= j < |order| && order[j] == m.key;
      assert acc[j].key == m.key;
      assert i == j;
    }
  }

  // ---- merging is incremental

  lemma MergeIntoKeys(acc: seq<Metric>, m: Metric)
    requires Keyed(acc)
    ensures Map(MergeInto(acc, m), MetricKey) == AppendNew(Map(acc, MetricKey), [m.key], Identity)
    ensures Keyed(MergeInto(acc, m))
  {
  }

  /** The merged keys are the distinct keys of the input, in first-seen order. */
  lemma {:induction false} MergedKeyOrder(metrics: seq<Metric>)
    ensures Map(MergeMetrics([], metrics), MetricKey) == Unique(Map(metrics, MetricKey))
    ensures Keyed(MergeMetrics([], metrics))
  {
    if metrics != [] {
      var front, m := metrics[..|metrics| - 1], metrics[|metrics| - 1];
      MergedKeyOrder(front);
      MergeIntoKeys(MergeMetrics([], front), m);
      assert Map(metrics, MetricKey)[..|metrics| - 1] == Map(front, MetricKey);
      OneMoreKey(Map(front, MetricKey), Map(metrics, MetricKey), m.key);
    }
  }

  lemma OneMoreKey(before: seq<string>, keys: seq<string>, key: string)
    requires keys != [] && keys[..|keys| - 1] == before && keys[|keys| - 1] == key
    ensures Unique(keys) == AppendNew(Unique(before), [key], Identity<string>)
  {
    assert [key][..0] == [] && AppendNew(Unique(before), [], Identity<string>) == Unique(before);
  }

  lemma {:induction false} MergeMetricsConcat(acc: seq<Metric>, a: seq<Metric>, b: seq<Metric>)
    ensures MergeMetrics(acc, a + b) == MergeMetrics(MergeMetrics(acc, a), b)
  {
    if b == [] {
      assert a + b == a;
    } else {
      assert (a + b)[..|a + b| - 1] == a + b[..|b| - 1];
      MergeMetricsConcat(acc, a, b[..|b| - 1]);
    }
  }

  lemma LastKeyIsNew(front: seq<Metric>, m: Metric)
    requires Keyed(front + [m])
    ensures Keyed(front) && MergeInto(front, m) == front + [m]
  {
    var keys := Map(front + [m], MetricKey);
    assert forall i :: 0 <= i < |front| ==> keys[i] == front[i].key && keys[i] != keys[|front|];
  }

  lemma {:induction false} MergedIsStable(metrics: seq<Metric>)
    requires Keyed(metrics)
    ensures MergeMetrics([], metrics) == metrics
  {
    if metrics != [] {
      var front, m := metrics[..|metrics| - 1], metrics[|metrics| - 1];
      assert metrics == front + [m];
      LastKeyIsNew(front, m);
      MergedIsStable(front);
    }
  }

  lemma {:induction false} AllMetricsConcat<Insight>(xs: seq<Report<Insight>>, ys: seq<Report<Insight>>)
    ensures AllMetrics(xs + ys) == AllMetrics(xs) + AllMetrics(ys)
  {
    if ys == [] {
      assert xs + ys == xs;
    } else {
      assert (xs + ys)[..|xs + ys| - 1] == xs + ys[..|ys| - 1];
      AllMetricsConcat(xs, ys[..|ys| - 1]);
    }
  }

  /** Merging a batch equals merging its merged beginning with the rest: same metrics, same
      order, same insights, with or without a business configuration. */
  lemma MergeIsIncremental<Insight>(xs: seq<Report<Insight>>, ys: seq<Report<Insight>>, insights: Insights<Insight>)
    requires xs != []
    ensures Merge(xs + ys, insights) == Merge([Merge(xs, insights).value] + ys, insights)
  {
    var merged := Merge(xs, insights).value;
    AllMetricsConcat(xs, ys);
    AllMetricsConcat([merged], ys);
    assert AllMetrics([merged]) == merged.metrics by {
      assert [merged][..0] == [];
    }
    MergeMetricsConcat([], AllMetrics(xs), AllMetrics(ys));
    MergeMetricsConcat([], merged.metrics, AllMetrics(ys));
    if |xs| == 1 && !insights.business {
      assert [merged] == xs;
    } else {
      MergedKeyOrder(AllMetrics(xs));
      MergedIsStable(merged.metrics);
      if ys == [] { assert xs + ys == xs && [merged] + ys == [merged]; }
    }
  }

  // ---- what one merged metric contains

  function HasKey(key: string): Metric -> bool { (m: Metric) => m.key == key }

  function Contributions(metrics: seq<Metric>, key: string): seq<Metric> {
    Filter(metrics, HasKey(key))
  }

  /** The longest ending of a list of contributions that adds up: each is numeric with the
      unit of the one before, or it is the last contribution alone. */
  function LastRun(cs: seq<Metric>): (run: seq<Metric>)
    requires cs != []
    ensures run != [] && |run| <= |cs| && run == cs[|cs| - |run|..]
  {
    var n := |cs|;
    if n > 1 && Additive(cs[n - 2], cs[n - 1]) then
      var run := LastRun(cs[..n - 1]);
      assert cs == cs[..n - 1] + [cs[n - 1]];
      run + [cs[n - 1]]
    else [cs[n - 1]]
  }

  function Sum(cs: seq<Metric>): real {
    if cs == [] then 0.0
    else Sum(cs[..|cs| - 1]) + (match cs[|cs| - 1].value case Number(x) => x case Text(_) => 0.0)
  }

  function EvidenceIds(cs: seq<Metric>): seq<(string, string)> {
    if cs == [] then [] else EvidenceIds(cs[..|cs| - 1]) + Map(cs[|cs| - 1].evidence, EvidenceId)
  }

  /** The evidence of a run: that of its first contribution, and of each later one what is new by then. */
  function EvidenceInOrder(run: seq<Metric>): seq<Evidence>
    requires run != []
  {
    var last := run[|run| - 1];
    if |run| == 1 then last.evidence else AppendNew(EvidenceInOrder(run[..|run| - 1]), last.evidence, EvidenceId)
  }

  /** A merged metric: labels and unit of the first contribution of the last run, the run's sum
      (or the last text), and exactly the run's evidence, in order. */
  ghost predicate Summarizes(m: Metric, run: seq<Metric>) {
    && run != [] && m.key == run[0].key && m.caption == run[0].caption && m.unit == run[|run| - 1].unit
    && m.value == (if run[|run| - 1].value.Number? then Number(Sum(run)) else run[|run| - 1].value)
    && (forall id :: id in Map(m.evidence, EvidenceId) <==> id in EvidenceIds(run))
    && m.evidence == EvidenceInOrder(run)
  }

  lemma SummarizesOne(c: Metric)
    ensures Summarizes(c, [c])
  {
  }

  lemma {:induction false} AppendedIds(s: seq<Evidence>, more: seq<Evidence>)
    ensures forall id :: id in Map(AppendNew(s, more, EvidenceId), EvidenceId)
                    <==> id in Map(s, EvidenceId) || id in Map(more, EvidenceId)
  {
    if more != [] {
      var front, x := more[..|more| - 1], more[|more| - 1];
      AppendedIds(s, front);
      var r := AppendNew(s, front, EvidenceId);
      assert Map(more, EvidenceId) == Map(front, EvidenceId) + [EvidenceId(x)];
      assert Map(r + [x], EvidenceId) == Map(r, EvidenceId) + [EvidenceId(x)];
    }
  }

  lemma SummarizesLonger(m: Metric, run: seq<Metric>, c: Metric)
    requires Summarizes(m, run) && Additive(run[|run| - 1], c)
    ensures Summarizes(MergeDuplicate(m, c), run + [c])
  {
    assert (run + [c])[..|run|] == run;
    assert Additive(m, c);
    AppendedIds(m.evidence, c.evidence);
    assert EvidenceIds(run + [c]) == EvidenceIds(run) + Map(c.evidence, EvidenceId);
  }

  lemma LastRunStep(cs: seq<Metric>, c: Metric)
    requires cs != []
    ensures LastRun(cs)[|LastRun(cs)| - 1] == cs[|cs| - 1]
    ensures LastRun(cs + [c]) == if Additive(cs[|cs| - 1], c) then LastRun(cs) + [c] else [c]
  {
  }

  lemma SummarizesNext(m: Metric, cs: seq<Metric>, c: Metric)
    requires cs != [] && Summarizes(m, LastRun(cs))
    ensures Summarizes(MergeDuplicate(m, c), LastRun(cs + [c]))
  {
    LastRunStep(cs, c);
    if Additive(cs[|cs| - 1], c) { SummarizesLonger(m, LastRun(cs), c); } else { SummarizesOne(c); }
  }

  /** What one more metric does to the entry of a key. */
  lemma FindAfterMergeInto(acc: seq<Metric>, m: Metric, key: string)
    ensures var i, put := Find(acc, key), MergeInto(acc, m);
            var j := Find(put, key);
            if m.key != key then
              (if i < |acc| then j == i && put[j] == acc[i] else j == |put|)
            else
              j < |put| && put[j] == if i < |acc| then MergeDuplicate(acc[i], m) else m
  {
  }

  lemma ContributionsStep(metrics: seq<Metric>, key: string)
    requires metrics != []
    ensures var front, m := metrics[..|metrics| - 1], metrics[|metrics| - 1];
            Contributions(metrics, key) == Contributions(front, key) + (if m.key == key then [m] else [])
  {
    var front, m := metrics[..|metrics| - 1], metrics[|metrics| - 1];
    assert metrics == front + [m];
    FilterSnoc(front, m, HasKey(key));
  }

  /** Every merged metric summarizes the last run of its key's contributions. */
  lemma {:induction false} MergedMetricSummarizes(metrics: seq<Metric>, key: string)
    requires Contributions(metrics, key) != []
    ensures var acc := MergeMetrics([], metrics);
            var i := Find(acc, key);
            i < |acc| && Summarizes(acc[i], LastRun(Contributions(metrics, key)))
  {
    var front, m := metrics[..|metrics| - 1], metrics[|metrics| - 1];
    var before, acc := Contributions(front, key), MergeMetrics([], front);
    ContributionsStep(metrics, key);
    FindAfterMergeInto(acc, m, key);
    if before == [] {
      NotMergedYet(front, key);
      SummarizesOne(m);
    } else {
      MergedMetricSummarizes(front, key);
      if m.key == key { SummarizesNext(acc[Find(acc, key)], before, m); }
    }
  }

  lemma {:induction false} NotMergedYet(metrics: seq<Metric>, key: string)
    requires Contributions(metrics, key) == []
    ensures Find(MergeMetrics([], metrics), key) == |MergeMetrics([], metrics)|
  {
    if metrics != [] {
      var front := metrics[..|metrics| - 1];
      NotMergedYet(front, key);
      FindAfterMergeInto(MergeMetrics([], front), metrics[|metrics| - 1], key);
    }
  }

  lemma {:induction false} OneUnitRun(cs: seq<Metric>)
    requires cs != [] && forall i :: 0 <= i < |cs| ==> Additive(cs[0], cs[i])
    ensures LastRun(cs) == cs
  {
    if |cs| > 1 {
      var n := |cs|;
      assert Additive(cs[0], cs[n - 2]) && Additive(cs[0], cs[n - 1]);
      OneUnitRun(cs[..n - 1]);
      assert cs == cs[..n - 1] + [cs[n - 1]];
    }
  }

  /** When every contribution to a key is numeric in one unit, the merged value is their sum and
      its evidence identities are the union of theirs. */
  lemma SameUnitAddsUp(metrics: seq<Metric>, key: string)
    requires var cs := Contributions(metrics, key); cs != [] && forall i :: 0 <= i < |cs| ==> Additive(cs[0], cs[i])
    ensures var acc := MergeMetrics([], metrics);
            var cs := Contributions(metrics, key);
            var i := Find(acc, key);
            && i < |acc| && acc[i].value == Number(Sum(cs)) && acc[i].unit == cs[0].unit
            && forall id :: id in Map(acc[i].evidence, EvidenceId) <==> id in EvidenceIds(cs)
  {
    var cs := Contributions(metrics, key);
    assert Additive(cs[0], cs[|cs| - 1]);
    OneUnitRun(cs);
    MergedMetricSummarizes(metrics, key);
  }

  predicate SameNumericUnit(a: Metric, b: Metric) {
    a.unit == b.unit && a.value.Number? && b.value.Number?
  }

  /** The last run is as long as it can be: each of its contributions is numeric in the unit of the one before, and the
      contribution before the run, if there is one, does not add up with its first. */
  ghost predicate IsLongestRun(run: seq<Metric>, cs: seq<Metric>) {
    && run != [] && |run| <= |cs| && run == cs[|cs| - |run|..]
    && (forall i :: 0 < i < |run| ==> SameNumericUnit(run[i - 1], run[i]))
    && (|run| < |cs| ==> !SameNumericUnit(cs[|cs| - |run| - 1], run[0]))
  }

  lemma LongerRun(run: seq<Metric>, front: seq<Metric>, c: Metric)
    requires IsLongestRun(run, front) && SameNumericUnit(run[|run| - 1], c)
    ensures IsLongestRun(run + [c], front + [c])
  {
    var k := |front| - |run|;
    assert (front + [c])[k..] == front[k..] + [c];
    assert k > 0 ==> (front + [c])[k - 1] == front[k - 1];
  }

  lemma NewRun(front: seq<Metric>, c: Metric)
    requires front != [] && !SameNumericUnit(front[|front| - 1], c)
    ensures IsLongestRun([c], front + [c])
  {
  }

  lemma {:induction false} LastRunIsLongest(cs: seq<Metric>)
    requires cs != []
    ensures IsLongestRun(LastRun(cs), cs)
  {
    if |cs| > 1 {
      var front, c := cs[..|cs| - 1], cs[|cs| - 1];
      assert cs == front + [c];
      LastRunIsLongest(front);
      LastRunStep(front, c);
      if SameNumericUnit(front[|front| - 1], c) { LongerRun(LastRun(front), front, c); } else { NewRun(front, c); }
    }
  }

  lemma EveryMetricSummarizes(all: seq<Metric>, i: nat)
    requires i < |MergeMetrics([], all)|
    ensures var m := MergeMetrics([], all)[i];
            Contributions(all, m.key) != [] && Summarizes(m, LastRun(Contributions(all, m.key)))
  {
    var acc := MergeMetrics([], all);
    MergedKeyOrder(all);
    if Contributions(all, acc[i].key) == [] {
      NotMergedYet(all, acc[i].key);
    } else {
      MergedMetricSummarizes(all, acc[i].key);
      var j := Find(acc, acc[i].key);
      assert Map(acc, MetricKey)[i] == Map(acc, MetricKey)[j];
    }
  }

  /** The merged report: an empty batch is refused, and one report of a business without its own thresholds passes
      through; any other batch gives the name and date of its first report, one metric per key in first-seen
      order, each summarizing the last run of its key, and the insights of those metrics. */
  lemma MergedReportSays<Insight>(reports: seq<Report<Insight>>, insights: Insights<Insight>)
    ensures reports == [] ==> Merge(reports, insights) == Err(())
    ensures |reports| == 1 && !insights.business ==> Merge(reports, insights) == Ok(reports[0])
    ensures |reports| > 1 || (|reports| == 1 && insights.business) ==>
              var r, all := Merge(reports, insights), AllMetrics(reports);
              && r.Ok? && r.value.name == reports[0].name && r.value.date == reports[0].date
              && r.value.insights == insights.generate(r.value.metrics)
              && Map(r.value.metrics, MetricKey) == Unique(Map(all, MetricKey))
              && forall m :: m in r.value.metrics ==>
                   Contributions(all, m.key) != [] && Summarizes(m, LastRun(Contributions(all, m.key)))
  {
    var all := AllMetrics(reports);
    MergedKeyOrder(all);
    forall m | m in MergeMetrics([], all)
      ensures Contributions(all, m.key) != [] && Summarizes(m, LastRun(Contributions(all, m.key)))
    {
      var i :| 0 <= i < |MergeMetrics([], all)| && MergeMetrics([], all)[i] == m;
      EveryMetricSummarizes(all, i);
    }
  }
}
