/** Latency histograms over one business's cases: handling time from acknowledgement and
    resolution time from opening, both to the resolution. */
module Histograms {
  import opened Basics
  import opened Calendar
  import opened Cases
  import opened CaseHistory
  import opened CaseStore
  import opened CaseListing
  import Sorting

  datatype Bucket = Under1h | Under6h | Under24h | Under7d | Over7d

  /** The age horizons in seconds, in order; the last has no upper end. */
  const AGE_BUCKETS: seq<(Bucket, Option<nat>)> :=
    [(Under1h, Some(3600)), (Under6h, Some(21600)), (Under24h, Some(86400)), (Under7d, Some(604800)), (Over7d, None)]

  function ClassifyIn(table: seq<(Bucket, Option<nat>)>, age: nat): Bucket {
    if table == [] then Over7d
    else if table[0].1.None? || age < table[0].1.value then table[0].0
    else ClassifyIn(table[1..], age)
  }

  function Classify(age: nat): Bucket { ClassifyIn(AGE_BUCKETS, age) }

  /** Each bucket is the interval between two horizons. */
  lemma BucketIntervals(age: nat)
    ensures Classify(age) == Under1h <==> age < 3600
    ensures Classify(age) == Under6h <==> 3600 <= age < 21600
    ensures Classify(age) == Under24h <==> 21600 <= age < 86400
    ensures Classify(age) == Under7d <==> 86400 <= age < 604800
    ensures Classify(age) == Over7d <==> 604800 <= age
  {
    var t := AGE_BUCKETS;
    assert t[1..] == [t[1], t[2], t[3], t[4]] && t[1..][1..] == [t[2], t[3], t[4]];
    assert [t[2], t[3], t[4]][1..] == [t[3], t[4]] && [t[3], t[4]][1..] == [t[4]];
    assert ClassifyIn([t[4]], age) == Over7d;
    assert ClassifyIn([t[3], t[4]], age) == if age < 604800 then Under7d else Over7d;
    assert ClassifyIn([t[2], t[3], t[4]], age) == if age < 86400 then Under24h else ClassifyIn([t[3], t[4]], age);
    assert ClassifyIn(t[1..], age) == if age < 21600 then Under6h else ClassifyIn([t[2], t[3], t[4]], age);
  }

  /** Whole seconds between two instants, never negative. */
  function Elapsed(from: Time, to: Time): nat { if to < from then 0 else (to - from) / 1000000 }

  function HandlingLatency(c: Case): Option<nat> {
    if c.resolvedAt.Some? && c.acknowledgedAt.Some? then Some(Elapsed(c.acknowledgedAt.value, c.resolvedAt.value))
      else None
  }

  function ResolutionLatency(c: Case): Option<nat> {
    if c.resolvedAt.Some? then Some(Elapsed(c.openedAt, c.resolvedAt.value)) else None
  }

  type Latency = Case -> Option<nat>

  datatype Histogram = Histogram(
    total: nat,
    counts: map<Bucket, nat>,
    bySeverity: map<Bucket, map<Severity, nat>>,
    fastest: Option<(Case, nat)>,
    slowest: Option<(Case, nat)>)

  // ---- what the numbers mean

  function Count(cases: seq<Case>, p: Case -> bool): nat { |Filter(cases, p)| }

  predicate InBucket(latency: Latency, c: Case, b: Bucket) { latency(c).Some? && Classify(latency(c).value) == b }

  function Timed(latency: Latency): Case -> bool { c => latency(c).Some? }

  function Total(cases: seq<Case>, latency: Latency): nat { Count(cases, Timed(latency)) }

  function BucketCount(cases: seq<Case>, latency: Latency, b: Bucket): nat {
    Count(cases, (c: Case) => InBucket(latency, c, b))
  }

  function SplitCount(cases: seq<Case>, latency: Latency, b: Bucket, s: Severity): nat {
    Count(cases, (c: Case) => InBucket(latency, c, b) && c.severity == s)
  }

  /** No timed case beats the one at `i`, and it beats every timed case before it. */
  ghost predicate BestAt(cases: seq<Case>, latency: Latency, i: nat, beats: (nat, nat) -> bool) {
    && i < |cases| && latency(cases[i]).Some?
    && (forall j :: 0 <= j < |cases| && latency(cases[j]).Some? ==>
         !beats(latency(cases[j]).value, latency(cases[i]).value))
    && (forall j :: 0 <= j < i && latency(cases[j]).Some? ==> beats(latency(cases[i]).value, latency(cases[j]).value))
  }

  /** `best` is the first case no other beats, with its latency; None when no case is timed. */
  ghost predicate FirstBest(cases: seq<Case>, latency: Latency, best: Option<(Case, nat)>, beats: (nat, nat) -> bool) {
    match best
    case None => forall c :: c in cases ==> latency(c).None?
    case Some((c, seconds)) =>
      exists i: nat :: BestAt(cases, latency, i, beats) && cases[i] == c && latency(c) == Some(seconds)
  }

  function Faster(a: nat, b: nat): bool { a < b }

  function Slower(a: nat, b: nat): bool { a > b }

  ghost predicate Counts(h: Histogram, cases: seq<Case>, latency: Latency) {
    && h.total == Total(cases, latency)
    && (forall b :: b in h.counts && h.counts[b] == BucketCount(cases, latency, b))
    && (forall b :: b in h.bySeverity)
    && (forall b, s :: s in h.bySeverity[b] <==> SplitCount(cases, latency, b, s) > 0)
    && (forall b, s :: s in h.bySeverity[b] ==> h.bySeverity[b][s] == SplitCount(cases, latency, b, s))
  }

  /** The totals, buckets and splits count what they name, and the extremes bound every latency. */
  ghost predicate Describes(h: Histogram, cases: seq<Case>, latency: Latency) {
    && Counts(h, cases, latency)
    && FirstBest(cases, latency, h.fastest, Faster)
    && FirstBest(cases, latency, h.slowest, Slower)
  }

  /** Bucket counts add up to the total. */
  lemma {:induction false} BucketsSumToTotal(cases: seq<Case>, latency: Latency)
    ensures BucketCount(cases, latency, Under1h) + BucketCount(cases, latency, Under6h)
            + BucketCount(cases, latency, Under24h)
            + BucketCount(cases, latency, Under7d) + BucketCount(cases, latency, Over7d) == Total(cases, latency)
  {
    if cases != [] { BucketsSumToTotal(cases[..|cases| - 1], latency); }
  }

  /** Each severity split adds up to its bucket. */
  lemma {:induction false} SplitsSumToBucket(cases: seq<Case>, latency: Latency, b: Bucket)
    ensures SplitCount(cases, latency, b, Info) + SplitCount(cases, latency, b, Warning)
            + SplitCount(cases, latency, b, Critical)
         == BucketCount(cases, latency, b)
  {
    if cases != [] { SplitsSumToBucket(cases[..|cases| - 1], latency, b); }
  }

  const NO_COUNTS: map<Bucket, nat> := map[Under1h := 0, Under6h := 0, Under24h := 0, Under7d := 0, Over7d := 0]

  const NO_SPLITS: map<Bucket, map<Severity, nat>> :=
    map[Under1h := map[], Under6h := map[], Under24h := map[], Under7d := map[], Over7d := map[]]

  lemma EmptyCounts(latency: Latency)
    ensures Counts(Histogram(0, NO_COUNTS, NO_SPLITS, None, None), [], latency)
  {
    forall b: Bucket ensures b in NO_COUNTS && NO_COUNTS[b] == 0 && b in NO_SPLITS && NO_SPLITS[b] == map[] {
      match b { case Under1h => case Under6h => case Under24h => case Under7d => case Over7d => }
    }
  }

  /** One more case joins the count of its bucket and severity and no other. */
  lemma CountsStep(cases: seq<Case>, c: Case, latency: Latency)
    ensures Total(cases + [c], latency) == Total(cases, latency) + (if latency(c).Some? then 1 else 0)
    ensures forall b ::
              BucketCount(cases + [c], latency, b)
                == BucketCount(cases, latency, b) + (if InBucket(latency, c, b) then 1 else 0)
    ensures forall b, s :: SplitCount(cases + [c], latency, b, s)
                        == SplitCount(cases, latency, b, s)
                          + (if InBucket(latency, c, b) && c.severity == s then 1 else 0)
  {
  }

  lemma BestAtStep(cases: seq<Case>, c: Case, latency: Latency, i: nat, beats: (nat, nat) -> bool)
    requires beats == Faster || beats == Slower
    requires BestAt(cases, latency, i, beats)
    ensures if latency(c).Some? && beats(latency(c).value, latency(cases[i]).value)
            then BestAt(cases + [c], latency, |cases|, beats)
            else BestAt(cases + [c], latency, i, beats)
  {
  }

  /** The running extreme after one more timed case: an equal one does not replace it. */
  function BetterOf(best: Option<(Case, nat)>, c: Case, seconds: nat, beats: (nat, nat) -> bool): Option<(Case, nat)> {
    if best.None? || beats(seconds, best.value.1) then Some((c, seconds)) else best
  }

  lemma FirstBestStep(cases: seq<Case>, c: Case, latency: Latency, best: Option<(Case, nat)>, beats: (nat, nat) -> bool)
    requires beats == Faster || beats == Slower
    requires FirstBest(cases, latency, best, beats)
    ensures latency(c).None? ==> FirstBest(cases + [c], latency, best, beats)
    ensures latency(c).Some? ==>
              FirstBest(cases + [c], latency, BetterOf(best, c, latency(c).value, beats), beats)
  {
    var more := cases + [c];
    match best
    case None =>
      assert forall j :: 0 <= j < |cases| ==> more[j] == cases[j] && cases[j] in cases;
      if latency(c).Some? { assert BestAt(more, latency, |cases|, beats); }
    case Some((x, seconds)) =>
      var i: nat :| BestAt(cases, latency, i, beats) && cases[i] == x && latency(x) == Some(seconds);
      BestAtStep(cases, c, latency, i, beats);
      assert more[i] == x && more[|cases|] == c;
  }

  /** One pass over the cases. */
  method Summarize(cases: seq<Case>, latency: Latency) returns (h: Histogram)
    ensures Describes(h, cases, latency)
  {
    h := Histogram(0, NO_COUNTS, NO_SPLITS, None, None);
    EmptyCounts(latency);
    assert cases[..0] == [];
    for i := 0 to |cases|
      invariant Describes(h, cases[..i], latency)
    {
      var c := cases[i];
      assert cases[..i + 1] == cases[..i] + [c];
      CountsStep(cases[..i], c, latency);
      FirstBestStep(cases[..i], c, latency, h.fastest, Faster);
      FirstBestStep(cases[..i], c, latency, h.slowest, Slower);
      if latency(c).Some? {
        var seconds := latency(c).value;
        h := h.(fastest := BetterOf(h.fastest, c, seconds, Faster), slowest := BetterOf(h.slowest, c, seconds, Slower));
        h := Tally(h, cases[..i], c, seconds, latency);
      }
    }
    assert cases[..|cases|] == cases;
  }

  /** Counts one timed case. */
  method Tally(h: Histogram, ghost before: seq<Case>, c: Case, seconds: nat, latency: Latency) returns (r: Histogram)
    requires Counts(h, before, latency) && latency(c) == Some(seconds)
    ensures Counts(r, before + [c], latency) && r.fastest == h.fastest && r.slowest == h.slowest
  {
    CountsStep(before, c, latency);
    var b := Classify(seconds);
    var split := h.bySeverity[b];
    var n := if c.severity in split then split[c.severity] else 0;
    r := h.(total := h.total + 1,
            counts := h.counts[b := h.counts[b] + 1],
            bySeverity := h.bySeverity[b := split[c.severity := n + 1]]);
    assert forall b' :: InBucket(latency, c, b') <==> b' == b;
    SplitTallied(h, before, c, b, r.bySeverity[b], latency);
  }

  lemma SplitTallied(h: Histogram, before: seq<Case>, c: Case, b: Bucket, grown: map<Severity, nat>, latency: Latency)
    requires Counts(h, before, latency) && forall b' :: InBucket(latency, c, b') <==> b' == b
    requires forall s :: s in grown <==> s in h.bySeverity[b] || s == c.severity
    requires forall s :: s in grown ==>
                           grown[s] == (if s in h.bySeverity[b] then h.bySeverity[b][s] else 0)
                             + (if s == c.severity then 1 else 0)
    ensures var splits := h.bySeverity[b := grown];
            && (forall b', s :: s in splits[b'] <==> SplitCount(before + [c], latency, b', s) > 0)
            && (forall b', s :: s in splits[b'] ==> splits[b'][s] == SplitCount(before + [c], latency, b', s))
  {
    CountsStep(before, c, latency);
  }

  // ---- the two histograms of a business

  function BusinessCases(cases: seq<Case>, businessId: string): seq<Case> {
    ListedInMemory(cases, CaseFilter(Some(businessId), None), None)
  }

  method HandlingHistogram(cases: seq<Case>, businessId: string) returns (h: Histogram)
    ensures Describes(h, BusinessCases(cases, businessId), HandlingLatency)
  {
    h := Summarize(BusinessCases(cases, businessId), HandlingLatency);
  }

  method ResolutionHistogram(cases: seq<Case>, businessId: string) returns (h: Histogram)
    ensures Describes(h, BusinessCases(cases, businessId), ResolutionLatency)
  {
    h := Summarize(BusinessCases(cases, businessId), ResolutionLatency);
  }

  lemma {:induction false} SameCount(cases: seq<Case>, p: Case -> bool, q: Case -> bool)
    requires forall c :: c in cases ==> p(c) == q(c)
    ensures Count(cases, p) == Count(cases, q)
  {
    if cases != [] {
      assert cases[|cases| - 1] in cases;
      assert forall c :: c in cases[..|cases| - 1] ==> c in cases;
      SameCount(cases[..|cases| - 1], p, q);
    }
  }

  lemma SoundLatencies(c: Case)
    requires Sound(c)
    ensures HandlingLatency(c).Some? == ResolutionLatency(c).Some?
    ensures HandlingLatency(c).Some? ==> HandlingLatency(c).value <= ResolutionLatency(c).value
  {
  }

  /** The latencies are whole seconds to the resolution: from the acknowledgement for handling, from the opening for
      resolution; a case without the instants it needs is not timed. */
  lemma LatenciesSay(c: Case)
    ensures HandlingLatency(c).Some? <==> c.acknowledgedAt.Some? && c.resolvedAt.Some?
    ensures ResolutionLatency(c).Some? <==> c.resolvedAt.Some?
    ensures HandlingLatency(c).Some? ==>
              IsWholeSeconds(HandlingLatency(c).value, c.acknowledgedAt.value, c.resolvedAt.value)
    ensures ResolutionLatency(c).Some? ==> IsWholeSeconds(ResolutionLatency(c).value, c.openedAt, c.resolvedAt.value)
  {
  }

  predicate IsWholeSeconds(seconds: nat, from: Time, to: Time) {
    if to < from then seconds == 0 else from + seconds * 1_000_000 <= to < from + (seconds + 1) * 1_000_000
  }

  /** A business's cases are those stored under it, in the listing order. */
  lemma BusinessCasesExactly(cases: seq<Case>, businessId: string)
    ensures forall c :: c in BusinessCases(cases, businessId) <==> c in cases && c.businessId == businessId
    ensures var listed := BusinessCases(cases, businessId);
            forall i, j :: 0 <= i < j < |listed| ==> KeepsOrder(listed[i], listed[j])
  {
    var filter := CaseFilter(Some(businessId), None);
    ListingKeepsItsPromise(cases, filter, None);
    Sorting.MultisetMembers(BusinessCases(cases, businessId), Chosen(cases, filter));
  }

  lemma BusinessCasesStored(cases: seq<Case>, businessId: string)
    ensures forall c :: c in BusinessCases(cases, businessId) ==> c in cases
  {
    var selected := Chosen(cases, CaseFilter(Some(businessId), None));
    Sorting.MultisetMembers(Sorting.StableSort(selected, ListsBefore), selected);
  }

  lemma TotalsAgree(cases: seq<Case>)
    requires forall c :: c in cases ==> Sound(c)
    ensures Total(cases, HandlingLatency) == Total(cases, ResolutionLatency)
  {
    forall c | c in cases ensures HandlingLatency(c).Some? == ResolutionLatency(c).Some? { SoundLatencies(c); }
    SameCount(cases, Timed(HandlingLatency), Timed(ResolutionLatency));
  }

  /** In every reachable store, the handled total of a business is its resolved total, and no case
      takes longer to handle than to resolve. */
  lemma HandledEqualsResolved(ops: seq<Op>, businessId: string)
    requires FreshIds(ops)
    ensures var cases := BusinessCases(RunFrom([], ops), businessId);
            && Total(cases, HandlingLatency) == Total(cases, ResolutionLatency)
            && forall c :: c in cases && ResolutionLatency(c).Some? ==>
                 HandlingLatency(c).Some? && HandlingLatency(c).value <= ResolutionLatency(c).value
  {
    var cases := BusinessCases(RunFrom([], ops), businessId);
    ReachableIsConsistent(ops);
    BusinessCasesStored(RunFrom([], ops), businessId);
    TotalsAgree(cases);
    forall c | c in cases && ResolutionLatency(c).Some?
      ensures HandlingLatency(c).Some? && HandlingLatency(c).value <= ResolutionLatency(c).value
    {
      SoundLatencies(c);
    }
  }
}
