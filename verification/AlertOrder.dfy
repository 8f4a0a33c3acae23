/** Exactly when the order of the input does not matter to an alert. */
module AlertOrder {
  import opened Wrappers
  import opened Clock
  import opened Telemetry
  import opened Sorting
  import opened Alerts

  /** A missing reading ranks below every other. */
  predicate ReadingLe(a: Option<nat>, b: Option<nat>) {
    a.None? || (b.Some? && a.value <= b.value)
  }

  /** By time; samples of one time by ascending reading. */
  function Rising(metric: Metric): (le: (Sample, Sample) -> bool) {
    (a: Sample, b: Sample) =>
      a.collectedAt < b.collectedAt ||
      (a.collectedAt == b.collectedAt && ReadingLe(MetricValue(a, metric), MetricValue(b, metric)))
  }

  /** By time; samples of one time by descending reading. */
  function Falling(metric: Metric): (le: (Sample, Sample) -> bool) {
    (a: Sample, b: Sample) =>
      a.collectedAt < b.collectedAt ||
      (a.collectedAt == b.collectedAt && ReadingLe(MetricValue(b, metric), MetricValue(a, metric)))
  }

  function Ascending(samples: seq<Sample>, metric: Metric): (s: seq<Sample>) {
    SortBy(samples, Rising(metric))
  }

  function Descending(samples: seq<Sample>, metric: Metric): (s: seq<Sample>) {
    SortBy(samples, Falling(metric))
  }

  lemma RisingOrders(samples: seq<Sample>, metric: Metric)
    ensures Sorted(Ascending(samples, metric), Rising(metric)) && Sorted(Ascending(samples, metric), ByTime)
    ensures multiset(Ascending(samples, metric)) == multiset(samples)
  {
    assert Preorder(Rising(metric));
    SortByIsSorted(samples, Rising(metric));
  }

  lemma FallingOrders(samples: seq<Sample>, metric: Metric)
    ensures Sorted(Descending(samples, metric), Falling(metric)) && Sorted(Descending(samples, metric), ByTime)
    ensures multiset(Descending(samples, metric)) == multiset(samples)
  {
    assert Preorder(Falling(metric));
    SortByIsSorted(samples, Falling(metric));
  }

  // ---- arrangements of the same samples ----

  /** Two time-ordered arrangements of the same samples. */
  ghost predicate Rearranged(a: seq<Sample>, b: seq<Sample>) {
    Sorted(a, ByTime) && Sorted(b, ByTime) && multiset(a) == multiset(b)
  }

  function TimeOf(s: Sample): (t: Time) {
    s.collectedAt
  }

  predicate IntLe(a: int, b: int) {
    a <= b
  }

  lemma TimesAlign(a: seq<Sample>, b: seq<Sample>)
    requires Rearranged(a, b)
    ensures |a| == |b| && forall i :: 0 <= i < |a| ==> a[i].collectedAt == b[i].collectedAt
  {
    MappedPermutation(a, b, TimeOf);
    var x, y := Mapped(a, TimeOf), Mapped(b, TimeOf);
    TimesSorted(a);
    TimesSorted(b);
    SortedUnique(x, y, IntLe);
    assert forall i :: 0 <= i < |a| ==> x[i] == a[i].collectedAt && y[i] == b[i].collectedAt;
  }

  lemma TimesSorted(s: seq<Sample>)
    requires Sorted(s, ByTime)
    ensures Sorted(Mapped(s, TimeOf), IntLe)
  {
    forall i, j | 0 <= i < j < |s| ensures IntLe(Mapped(s, TimeOf)[i], Mapped(s, TimeOf)[j]) {
      assert ByTime(s[i], s[j]);
    }
  }

  /** The position of a sample in another arrangement has the same time. */
  lemma Elsewhere(a: seq<Sample>, b: seq<Sample>, i: nat) returns (j: nat)
    requires Rearranged(a, b) && i < |a|
    ensures j < |b| && b[j] == a[i]
  {
    assert a[i] in multiset(b);
    j := Position(b, a[i]);
  }

  lemma EarlierIsBefore(s: seq<Sample>, i: nat, j: nat)
    requires Sorted(s, ByTime) && i < |s| && j < |s| && s[i].collectedAt < s[j].collectedAt
    ensures i < j
  {
    assert j < i ==> ByTime(s[j], s[i]);
  }

  // ---- the latest and the earliest start of a streak ----

  function First(s: seq<Sample>, metric: Metric, threshold: nat): (k: nat)
    ensures k <= |s|
    ensures forall i :: k <= i < |s| ==> Extends(s, i, metric, threshold)
    ensures k > 0 ==> !Extends(s, k - 1, metric, threshold)
  {
    StreakFrom(s, |s|, metric, threshold)
  }

  /** With falling ties a streak never starts within a group of equal times. */
  lemma FallingBoundary(d: seq<Sample>, metric: Metric, threshold: nat)
    requires Sorted(d, Falling(metric))
    ensures var k := First(d, metric, threshold); 0 < k < |d| ==> d[k - 1].collectedAt < d[k].collectedAt
  {
    var k := First(d, metric, threshold);
    if 0 < k < |d| {
      assert Falling(metric)(d[k - 1], d[k]);
      assert Extends(d, k, metric, threshold);
    }
  }

  /** What the falling arrangement has in its streak is loaded in every arrangement. */
  lemma StreakIsLoaded(s: seq<Sample>, d: seq<Sample>, metric: Metric, threshold: nat, i: nat)
    requires Rearranged(s, d) && Sorted(d, Falling(metric)) && First(d, metric, threshold) <= i < |s|
    ensures |s| == |d| && Loaded(s[i], metric, threshold)
  {
    TimesAlign(s, d);
    FallingBoundary(d, metric, threshold);
    var k := First(d, metric, threshold);
    var j := Elsewhere(s, d, i);
    assert k < i ==> ByTime(d[k], d[i]);
    if k > 0 {
      EarlierIsBefore(d, k - 1, j);
    }
    assert Extends(d, j, metric, threshold);
  }

  lemma GapsAlign(s: seq<Sample>, d: seq<Sample>, metric: Metric, threshold: nat, i: nat)
    requires Rearranged(s, d) && i < |s| && |s| == |d|
    requires Extends(d, i, metric, threshold) && Loaded(s[i], metric, threshold)
    ensures Extends(s, i, metric, threshold)
  {
    TimesAlign(s, d);
  }

  /** The falling arrangement has the latest start. */
  lemma FallingIsLatest(s: seq<Sample>, d: seq<Sample>, metric: Metric, threshold: nat)
    requires Rearranged(s, d) && Sorted(d, Falling(metric))
    ensures |s| == |d| && First(s, metric, threshold) <= First(d, metric, threshold)
  {
    TimesAlign(s, d);
    var k := First(s, metric, threshold);
    if First(d, metric, threshold) < k {
      StreakIsLoaded(s, d, metric, threshold, k - 1);
      GapsAlign(s, d, metric, threshold, k - 1);
    }
  }

  lemma UnloadedIsBefore(s: seq<Sample>, metric: Metric, threshold: nat, j: nat)
    requires j < |s| && !Loaded(s[j], metric, threshold)
    ensures j < First(s, metric, threshold)
  {
    assert First(s, metric, threshold) <= j ==> Extends(s, j, metric, threshold);
  }

  /** Where another arrangement goes on, the falling one meets a sample that is not loaded. */
  lemma FallingStops(s: seq<Sample>, d: seq<Sample>, metric: Metric, threshold: nat)
    requires Rearranged(s, d) && First(s, metric, threshold) < First(d, metric, threshold)
    ensures |s| == |d| && !Loaded(d[First(d, metric, threshold) - 1], metric, threshold)
  {
    TimesAlign(s, d);
    var last := First(d, metric, threshold) - 1;
    assert Extends(s, last, metric, threshold) && !Extends(d, last, metric, threshold);
  }

  /** And it stops within the same group of equal times. */
  lemma StopsInGroup(s: seq<Sample>, d: seq<Sample>, metric: Metric, threshold: nat)
    requires Rearranged(s, d) && First(s, metric, threshold) < First(d, metric, threshold)
    ensures |s| == |d| && s[First(s, metric, threshold)].collectedAt == d[First(d, metric, threshold) - 1].collectedAt
  {
    TimesAlign(s, d);
    FallingStops(s, d, metric, threshold);
    var k, last := First(s, metric, threshold), First(d, metric, threshold) - 1;
    var j := Elsewhere(d, s, last);
    UnloadedIsBefore(s, metric, threshold, j);
    assert ByTime(s[j], s[k]) && (k < last ==> ByTime(s[k], s[last]));
  }

  lemma RisingIsLoaded(s: seq<Sample>, a: seq<Sample>, d: seq<Sample>, metric: Metric, threshold: nat)
    requires Rearranged(s, d) && Rearranged(s, a) && Sorted(d, Falling(metric)) && Sorted(a, Rising(metric))
    requires First(s, metric, threshold) < First(d, metric, threshold)
    ensures |a| == |s| == |d| && Loaded(a[First(d, metric, threshold) - 1], metric, threshold)
  {
    TimesAlign(s, d);
    TimesAlign(s, a);
    FallingBoundary(d, metric, threshold);
    var last := First(d, metric, threshold) - 1;
    assert Extends(s, last, metric, threshold);
    var j := Elsewhere(s, a, last);
    if last + 1 < |d| {
      EarlierIsBefore(a, j, last + 1);
    }
    assert j < last ==> Rising(metric)(a[j], a[last]);
  }

  /** If any arrangement starts before the falling one, the rising one does. */
  lemma RisingIsEarliest(s: seq<Sample>, a: seq<Sample>, d: seq<Sample>, metric: Metric, threshold: nat)
    requires Rearranged(s, d) && Rearranged(s, a) && Sorted(d, Falling(metric)) && Sorted(a, Rising(metric))
    requires First(s, metric, threshold) < First(d, metric, threshold)
    ensures First(a, metric, threshold) < First(d, metric, threshold)
  {
    var k := First(d, metric, threshold);
    RisingIsLoaded(s, a, d, metric, threshold);
    TimesAlign(s, a);
    assert Extends(s, k - 1, metric, threshold);
    GapsAlign(a, s, metric, threshold, k - 1);
    FallingIsLatest(a, d, metric, threshold);
  }

  /**
   Every arrangement starts its streak when the rising or when the falling one does; the rising one is the earliest.
   */
  lemma StartIsExtreme(s: seq<Sample>, a: seq<Sample>, d: seq<Sample>, metric: Metric, threshold: nat)
    requires Rearranged(s, d) && Rearranged(s, a) && Sorted(d, Falling(metric)) && Sorted(a, Rising(metric))
    ensures var x := StreakStart(s, metric, threshold);
            x == StreakStart(a, metric, threshold) || x == StreakStart(d, metric, threshold)
    ensures StreakStart(d, metric, threshold).Some? ==>
              StreakStart(a, metric, threshold).Some? &&
              StreakStart(a, metric, threshold).value <= StreakStart(d, metric, threshold).value
  {
    TimesAlign(s, d);
    TimesAlign(s, a);
    FallingIsLatest(s, d, metric, threshold);
    FallingIsLatest(a, d, metric, threshold);
    if First(s, metric, threshold) < First(d, metric, threshold) {
      StopsInGroup(s, d, metric, threshold);
      RisingIsEarliest(s, a, d, metric, threshold);
      StopsInGroup(a, d, metric, threshold);
    }
    var ka, kd := First(a, metric, threshold), First(d, metric, threshold);
    assert ka < kd < |d| ==> ByTime(a[ka], a[kd]);
  }

  // ---- the latest reading ----

  lemma LatestIsBetween(s: seq<Sample>, a: seq<Sample>, d: seq<Sample>, metric: Metric)
    requires Rearranged(s, d) && Rearranged(s, a) && Sorted(d, Falling(metric)) && Sorted(a, Rising(metric)) && s != []
    ensures |a| == |s| == |d|
    ensures var n := |s| - 1;
            && ReadingLe(MetricValue(d[n], metric), MetricValue(s[n], metric))
            && ReadingLe(MetricValue(s[n], metric), MetricValue(a[n], metric))
  {
    TimesAlign(s, d);
    TimesAlign(s, a);
    var n := |s| - 1;
    var i := Elsewhere(s, a, n);
    var j := Elsewhere(s, d, n);
    assert i < n ==> Rising(metric)(a[i], a[n]);
    assert j < n ==> Falling(metric)(d[j], d[n]);
  }

  // ---- the alert ----

  /** Between the extremes nothing else can happen. */
  lemma SustainedByRising(s: seq<Sample>, a: seq<Sample>, d: seq<Sample>, metric: Metric, t: Threshold)
    requires Rearranged(s, d) && Rearranged(s, a) && Sorted(d, Falling(metric)) && Sorted(a, Rising(metric)) && s != []
    ensures Sustained(s, metric, t) ==> Sustained(a, metric, t)
  {
    TimesAlign(s, d);
    TimesAlign(s, a);
    StartIsExtreme(s, a, d, metric, t.value);
    SustainedByLongest(s, metric, t);
    SustainedByLongest(a, metric, t);
  }

  /** An alert is a function of the latest reading and time and of the two starts. */
  lemma SameAlert(s: seq<Sample>, a: seq<Sample>, metric: Metric, t: Threshold)
    requires s != [] && a != [] && Sorted(s, ByTime) && Sorted(a, ByTime)
    requires s[|s| - 1].collectedAt == a[|a| - 1].collectedAt
    requires StreakStart(s, metric, t.value) == StreakStart(a, metric, t.value)
    ensures Sustained(s, metric, t) <==> Sustained(a, metric, t)
  {
    SustainedByLongest(s, metric, t);
    SustainedByLongest(a, metric, t);
  }

  lemma StartOfAlert(s: seq<Sample>, metric: Metric)
    requires s != [] && Sorted(s, ByTime) && EvaluateRule(RuleOf(metric), s).Some?
    ensures var alert := EvaluateRule(RuleOf(metric), s).value;
            var t := ThresholdOf(metric, alert.severity);
            && StreakStart(s, metric, t.value) == Some(alert.triggeredAt - t.duration)
            && MetricValue(s[|s| - 1], metric) == Some(alert.value)
            && (alert.severity.Critical? <==> Sustained(s, metric, RuleOf(metric).critical))
            && Sustained(s, metric, t)
  {
    RuleDeserved(s, metric);
  }

  /** Two arrangements that agree on these agree on the alert. */
  lemma AlertFromParts(s: seq<Sample>, a: seq<Sample>, metric: Metric)
    requires s != [] && a != [] && Sorted(s, ByTime) && Sorted(a, ByTime) && EvaluateRule(RuleOf(metric), a).Some?
    requires s[|s| - 1].collectedAt == a[|a| - 1].collectedAt
    requires MetricValue(s[|s| - 1], metric) == MetricValue(a[|a| - 1], metric)
    requires Sustained(s, metric, RuleOf(metric).critical) ==> Sustained(a, metric, RuleOf(metric).critical)
    requires var t := ThresholdOf(metric, EvaluateRule(RuleOf(metric), a).value.severity);
             StreakStart(s, metric, t.value) == StreakStart(a, metric, t.value)
    ensures EvaluateRule(RuleOf(metric), s) == EvaluateRule(RuleOf(metric), a)
  {
    var t := ThresholdOf(metric, EvaluateRule(RuleOf(metric), a).value.severity);
    StartOfAlert(a, metric);
    SameAlert(s, a, metric, t);
    SustainedByLongest(s, metric, RuleOf(metric).critical);
    SustainedByLongest(s, metric, RuleOf(metric).warning);
  }

  /** The rising arrangement is the last to fall silent. */
  lemma RisingSilenceDecides(s: seq<Sample>, a: seq<Sample>, d: seq<Sample>, metric: Metric)
    requires Rearranged(s, d) && Rearranged(s, a) && Sorted(d, Falling(metric)) && Sorted(a, Rising(metric)) && s != []
    requires a != [] && EvaluateRule(RuleOf(metric), a).None?
    ensures EvaluateRule(RuleOf(metric), s).None?
  {
    SustainedByRising(s, a, d, metric, RuleOf(metric).critical);
    SustainedByRising(s, a, d, metric, RuleOf(metric).warning);
    RuleDeserved(a, metric);
    RuleDeserved(s, metric);
  }

  lemma SameParts(s: seq<Sample>, a: seq<Sample>, d: seq<Sample>, metric: Metric, alert: Alert)
    requires Rearranged(s, d) && Rearranged(s, a) && Sorted(d, Falling(metric)) && Sorted(a, Rising(metric)) && s != []
    requires a != [] && d != []
    requires EvaluateRule(RuleOf(metric), a) == Some(alert) == EvaluateRule(RuleOf(metric), d)
    ensures var t := ThresholdOf(metric, alert.severity);
            StreakStart(s, metric, t.value) == StreakStart(a, metric, t.value)
    ensures MetricValue(s[|s| - 1], metric) == MetricValue(a[|a| - 1], metric)
  {
    StartOfAlert(a, metric);
    StartOfAlert(d, metric);
    StartIsExtreme(s, a, d, metric, ThresholdOf(metric, alert.severity).value);
    LatestIsBetween(s, a, d, metric);
  }

  /** If the two extreme arrangements give the same alert, so does every other. */
  lemma ExtremesDecide(s: seq<Sample>, a: seq<Sample>, d: seq<Sample>, metric: Metric)
    requires Rearranged(s, d) && Rearranged(s, a) && Sorted(d, Falling(metric)) && Sorted(a, Rising(metric)) && s != []
    requires a != [] && d != [] && EvaluateRule(RuleOf(metric), a) == EvaluateRule(RuleOf(metric), d)
    ensures EvaluateRule(RuleOf(metric), s) == EvaluateRule(RuleOf(metric), a)
  {
    if EvaluateRule(RuleOf(metric), a).None? {
      RisingSilenceDecides(s, a, d, metric);
    } else {
      SameParts(s, a, d, metric, EvaluateRule(RuleOf(metric), a).value);
      SustainedByRising(s, a, d, metric, RuleOf(metric).critical);
      TimesAlign(s, a);
      AlertFromParts(s, a, metric);
    }
  }

  /** The report of a metric does not depend on the order of the input. */
  ghost predicate OrderFree(samples: seq<Sample>, metric: Metric) {
    forall shuffled :: multiset(shuffled) == multiset(samples) ==>
        AlertFor(shuffled, metric) == AlertFor(samples, metric)
  }

  lemma ExtremesDecideAlert(samples: seq<Sample>, shuffled: seq<Sample>, metric: Metric)
    requires multiset(shuffled) == multiset(samples)
    requires AlertFor(Ascending(samples, metric), metric) == AlertFor(Descending(samples, metric), metric)
    ensures AlertFor(shuffled, metric) == AlertFor(Ascending(samples, metric), metric)
  {
    var s, a, d := SortBy(shuffled, ByTime), Ascending(samples, metric), Descending(samples, metric);
    RisingOrders(samples, metric);
    FallingOrders(samples, metric);
    SortByIsSorted(shuffled, ByTime);
    SortedIsFixed(a);
    SortedIsFixed(d);
    assert |shuffled| == |multiset(shuffled)| == |multiset(samples)| == |samples|;
    if s != [] {
      ExtremesDecide(s, a, d, metric);
    }
  }

  /**
   No permutation of the input changes a metric's alert if and only if the arrangement that breaks ties by
   ascending reading and the one that breaks them by descending reading give the same alert.
   */
  lemma OrderFreeExactly(samples: seq<Sample>, metric: Metric)
    ensures OrderFree(samples, metric) <==>
            AlertFor(Ascending(samples, metric), metric) == AlertFor(Descending(samples, metric), metric)
  {
    RisingOrders(samples, metric);
    FallingOrders(samples, metric);
    if AlertFor(Ascending(samples, metric), metric) == AlertFor(Descending(samples, metric), metric) {
      forall shuffled | multiset(shuffled) == multiset(samples)
        ensures AlertFor(shuffled, metric) == AlertFor(samples, metric)
      {
        ExtremesDecideAlert(samples, shuffled, metric);
        ExtremesDecideAlert(samples, samples, metric);
      }
    }
  }

  lemma SameReportSameAlert(a: seq<Sample>, b: seq<Sample>, metric: Metric)
    requires EvaluateTelemetryThresholds(a) == EvaluateTelemetryThresholds(b) && AlertFor(a, metric).Some?
    ensures AlertFor(b, metric) == AlertFor(a, metric)
  {
    var alert := AlertFor(a, metric).value;
    AlertsExactly(a, metric);
    ReportExactly(a, alert);
    ReportExactly(b, alert);
  }

  /** The same for the whole report. */
  lemma ReportOrderFreeExactly(samples: seq<Sample>)
    ensures (forall shuffled :: multiset(shuffled) == multiset(samples) ==>
               EvaluateTelemetryThresholds(shuffled) == EvaluateTelemetryThresholds(samples)) <==>
            forall metric ::
              AlertFor(Ascending(samples, metric), metric) == AlertFor(Descending(samples, metric), metric)
  {
    forall metric
      ensures OrderFree(samples, metric) <==>
              AlertFor(Ascending(samples, metric), metric) == AlertFor(Descending(samples, metric), metric)
    {
      OrderFreeExactly(samples, metric);
    }
    if forall shuffled :: multiset(shuffled) == multiset(samples) ==>
         EvaluateTelemetryThresholds(shuffled) == EvaluateTelemetryThresholds(samples) {
      forall metric ensures OrderFree(samples, metric) {
        forall shuffled | multiset(shuffled) == multiset(samples)
          ensures AlertFor(shuffled, metric) == AlertFor(samples, metric)
        {
          if AlertFor(shuffled, metric).Some? {
            SameReportSameAlert(shuffled, samples, metric);
          } else if AlertFor(samples, metric).Some? {
            SameReportSameAlert(samples, shuffled, metric);
          }
        }
      }
    }
    if forall metric :: AlertFor(Ascending(samples, metric), metric) == AlertFor(Descending(samples, metric), metric) {
      forall shuffled | multiset(shuffled) == multiset(samples)
        ensures EvaluateTelemetryThresholds(shuffled) == EvaluateTelemetryThresholds(samples)
      {
        assert OrderFree(samples, Cpu) && OrderFree(samples, Memory) && OrderFree(samples, Storage);
      }
    }
  }
}
