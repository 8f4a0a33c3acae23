/** Sustained-load alerts over a set of telemetry samples. */
module Alerts {
  import opened Wrappers
  import opened Clock
  import opened Telemetry
  import opened Sorting

  const MAX_SAMPLE_GAP: Time := 7 * SECOND

  datatype Metric = Cpu | Memory | Storage

  datatype Severity = Warning | Critical

  datatype Threshold = Threshold(value: nat, duration: Time)

  datatype Rule = Rule(metric: Metric, warning: Threshold, critical: Threshold)

  datatype Alert = Alert(metric: Metric, severity: Severity, value: nat, threshold: nat, triggeredAt: Time,
    observedAt: Time)

  function RuleOf(metric: Metric): (r: Rule)
    ensures r.metric == metric
  {
    match metric
    case Cpu => Rule(Cpu, Threshold(9_000, 5 * MINUTE), Threshold(9_800, 2 * MINUTE))
    case Memory => Rule(Memory, Threshold(9_000, 5 * MINUTE), Threshold(9_500, 2 * MINUTE))
    case Storage => Rule(Storage, Threshold(8_500, 10 * MINUTE), Threshold(9_500, 5 * MINUTE))
  }

  function MetricValue(sample: Sample, metric: Metric): (v: Option<nat>) {
    match metric
    case Cpu => sample.cpu
    case Memory => sample.memory
    case Storage => sample.storage
  }

  predicate ByTime(a: Sample, b: Sample) {
    a.collectedAt <= b.collectedAt
  }

  // ---- the streak that ends with the latest sample ----

  predicate Loaded(sample: Sample, metric: Metric, threshold: nat) {
    MetricValue(sample, metric).Some? && MetricValue(sample, metric).value >= threshold
  }

  /** Sample `i` carries on a streak that already holds every later sample. */
  predicate Extends(s: seq<Sample>, i: nat, metric: Metric, threshold: nat)
    requires i < |s|
  {
    && Loaded(s[i], metric, threshold)
    && (i + 1 < |s| ==> s[i + 1].collectedAt - s[i].collectedAt <= MAX_SAMPLE_GAP)
  }

  /** Every sample from `k` on is loaded and no two neighbours are more than seven seconds apart. */
  ghost predicate Streak(s: seq<Sample>, k: int, metric: Metric, threshold: nat) {
    && 0 <= k < |s|
    && (forall i :: k <= i < |s| ==> Loaded(s[i], metric, threshold))
    && (forall i :: k < i < |s| ==> s[i].collectedAt - s[i - 1].collectedAt <= MAX_SAMPLE_GAP)
  }

  ghost predicate Lasting(s: seq<Sample>, k: int, metric: Metric, t: Threshold) {
    Streak(s, k, metric, t.value) && s[|s| - 1].collectedAt - s[k].collectedAt >= t.duration
  }

  ghost predicate Sustained(s: seq<Sample>, metric: Metric, t: Threshold) {
    exists k :: Lasting(s, k, metric, t)
  }

  /** Walks back from `k` for as long as the streak extends. */
  function StreakFrom(s: seq<Sample>, k: nat, metric: Metric, threshold: nat): (start: nat)
    requires k <= |s|
    ensures start <= k
    ensures forall i :: start <= i < k ==> Extends(s, i, metric, threshold)
    ensures start > 0 ==> !Extends(s, start - 1, metric, threshold)
  {
    if k > 0 && Extends(s, k - 1, metric, threshold) then StreakFrom(s, k - 1, metric, threshold) else k
  }

  function StreakStart(s: seq<Sample>, metric: Metric, threshold: nat): (start: Option<Time>) {
    var k := StreakFrom(s, |s|, metric, threshold);
    if k < |s| then Some(s[k].collectedAt) else None
  }

  /** No streak starts earlier. */
  ghost predicate Longest(s: seq<Sample>, k: int, metric: Metric, threshold: nat) {
    Streak(s, k, metric, threshold) && forall j :: Streak(s, j, metric, threshold) ==> k <= j
  }

  lemma LongestIs(s: seq<Sample>, metric: Metric, threshold: nat)
    ensures var first := StreakFrom(s, |s|, metric, threshold);
            if first < |s| then Longest(s, first, metric, threshold) else forall k :: !Streak(s, k, metric, threshold)
  {
    var first := StreakFrom(s, |s|, metric, threshold);
    forall k: int ensures Streak(s, k, metric, threshold) <==> first <= k < |s| {
      StreaksAreTails(s, k, metric, threshold);
    }
  }

  /** `StreakFrom` marks the longest streak: exactly the later starts are streaks too. */
  lemma StreaksAreTails(s: seq<Sample>, k: int, metric: Metric, threshold: nat)
    ensures Streak(s, k, metric, threshold) <==> StreakFrom(s, |s|, metric, threshold) <= k < |s|
  {
    var start := StreakFrom(s, |s|, metric, threshold);
    if start <= k < |s| {
      forall i | k <= i < |s| ensures Loaded(s[i], metric, threshold) {
        assert Extends(s, i, metric, threshold);
      }
      forall i | k < i < |s| ensures s[i].collectedAt - s[i - 1].collectedAt <= MAX_SAMPLE_GAP {
        assert Extends(s, i - 1, metric, threshold);
      }
    }
  }

  method SustainedStart(s: seq<Sample>, metric: Metric, threshold: nat) returns (start: Option<Time>)
    ensures start.None? <==> forall k :: !Streak(s, k, metric, threshold)
    ensures start.Some? ==> exists k :: Longest(s, k, metric, threshold) && start.value == s[k].collectedAt
    ensures start == StreakStart(s, metric, threshold)
  {
    start := None;
    var previous: Option<Time> := None;
    var i := |s|;
    while i > 0
      invariant 0 <= i <= |s|
      invariant previous == start == if i < |s| then Some(s[i].collectedAt) else None
      invariant StreakFrom(s, |s|, metric, threshold) == StreakFrom(s, i, metric, threshold)
    {
      var sample := s[i - 1];
      var value := MetricValue(sample, metric);
      if value.None? || value.value < threshold {
        break;
      }
      if previous.Some? && previous.value - sample.collectedAt > MAX_SAMPLE_GAP {
        break;
      }
      start, previous := Some(sample.collectedAt), Some(sample.collectedAt);
      i := i - 1;
    }
    LongestIs(s, metric, threshold);
  }

  function EvaluateRule(rule: Rule, s: seq<Sample>): (alert: Option<Alert>)
    requires s != []
  {
    var latest := s[|s| - 1];
    var value := MetricValue(latest, rule.metric);
    if value.None? then None
    else
      var critical := StreakStart(s, rule.metric, rule.critical.value);
      if critical.Some? && latest.collectedAt - critical.value >= rule.critical.duration then
        Some(Alert(rule.metric, Critical, value.value, rule.critical.value,
                   critical.value + rule.critical.duration, latest.collectedAt))
      else
        var warning := StreakStart(s, rule.metric, rule.warning.value);
        if warning.Some? && latest.collectedAt - warning.value >= rule.warning.duration then
          Some(Alert(rule.metric, Warning, value.value, rule.warning.value,
                     warning.value + rule.warning.duration, latest.collectedAt))
        else None
  }

  function AlertFor(samples: seq<Sample>, metric: Metric): (alert: Option<Alert>) {
    var ordered := SortBy(samples, ByTime);
    if ordered == [] then None else EvaluateRule(RuleOf(metric), ordered)
  }

  function Listed(alert: Option<Alert>): (r: seq<Alert>) {
    if alert.Some? then [alert.value] else []
  }

  function EvaluateTelemetryThresholds(samples: seq<Sample>): (alerts: seq<Alert>) {
    Listed(AlertFor(samples, Cpu)) + Listed(AlertFor(samples, Memory)) + Listed(AlertFor(samples, Storage))
  }

  // ---- exactly when an alert is raised ----

  ghost predicate IsOrdered(s: seq<Sample>, samples: seq<Sample>) {
    Sorted(s, ByTime) && multiset(s) == multiset(samples)
  }

  lemma TimeOrders(samples: seq<Sample>)
    ensures IsOrdered(SortBy(samples, ByTime), samples)
  {
    SortByIsSorted(samples, ByTime);
  }

  lemma SustainedByLongest(s: seq<Sample>, metric: Metric, t: Threshold)
    requires Sorted(s, ByTime)
    ensures var start := StreakStart(s, metric, t.value);
            Sustained(s, metric, t) <==> start.Some? && s[|s| - 1].collectedAt - start.value >= t.duration
    ensures Sustained(s, metric, t) ==> MetricValue(s[|s| - 1], metric).Some?
  {
    var first := StreakFrom(s, |s|, metric, t.value);
    if Sustained(s, metric, t) {
      var k :| Lasting(s, k, metric, t);
      StreaksAreTails(s, k, metric, t.value);
      assert Loaded(s[|s| - 1], metric, t.value);
      assert first < k ==> ByTime(s[first], s[k]);
    }
    if first < |s| {
      StreaksAreTails(s, first, metric, t.value);
      assert s[|s| - 1].collectedAt - s[first].collectedAt >= t.duration ==> Lasting(s, first, metric, t);
    }
  }

  /** The start of the longest streak, plus the duration, is when a sustained load began to count. */
  ghost predicate TriggeredBy(s: seq<Sample>, metric: Metric, t: Threshold, at: Time) {
    exists k :: Longest(s, k, metric, t.value) && at == s[k].collectedAt + t.duration
  }

  lemma LongestTriggers(s: seq<Sample>, metric: Metric, t: Threshold)
    requires Sorted(s, ByTime) && Sustained(s, metric, t)
    ensures var start := StreakStart(s, metric, t.value);
            start.Some? && TriggeredBy(s, metric, t, start.value + t.duration)
  {
    SustainedByLongest(s, metric, t);
    LongestIs(s, metric, t.value);
  }

  /** The alert a metric deserves on time-ordered samples, said without walking them. */
  ghost predicate Deserved(s: seq<Sample>, metric: Metric, alert: Option<Alert>) {
    var rule := RuleOf(metric);
    && (alert.Some? <==> Sustained(s, metric, rule.critical) || Sustained(s, metric, rule.warning))
    && (alert.Some? ==> s != [] && WellFounded(s, metric, alert.value))
  }

  /** Severity, reading, threshold and times of an alert that is raised. */
  ghost predicate WellFounded(s: seq<Sample>, metric: Metric, a: Alert)
    requires s != []
  {
    var t := ThresholdOf(metric, a.severity);
    && a.metric == metric
    && (a.severity.Critical? <==> Sustained(s, metric, RuleOf(metric).critical))
    && Sustained(s, metric, t)
    && MetricValue(s[|s| - 1], metric) == Some(a.value)
    && a.threshold == t.value <= a.value
    && TriggeredBy(s, metric, t, a.triggeredAt)
    && a.triggeredAt <= a.observedAt == s[|s| - 1].collectedAt
  }

  function ThresholdOf(metric: Metric, severity: Severity): (t: Threshold) {
    if severity.Critical? then RuleOf(metric).critical else RuleOf(metric).warning
  }

  lemma RuleDeserved(s: seq<Sample>, metric: Metric)
    requires s != [] && Sorted(s, ByTime)
    ensures Deserved(s, metric, EvaluateRule(RuleOf(metric), s))
  {
    var rule := RuleOf(metric);
    SustainedByLongest(s, metric, rule.critical);
    SustainedByLongest(s, metric, rule.warning);
    if Sustained(s, metric, rule.critical) {
      RaisedIsWellFounded(s, metric, Critical);
    } else if Sustained(s, metric, rule.warning) {
      RaisedIsWellFounded(s, metric, Warning);
    }
  }

  lemma RaisedIsWellFounded(s: seq<Sample>, metric: Metric, severity: Severity)
    requires s != [] && Sorted(s, ByTime) && Sustained(s, metric, ThresholdOf(metric, severity))
    requires severity.Critical? <==> Sustained(s, metric, RuleOf(metric).critical)
    ensures var alert := EvaluateRule(RuleOf(metric), s);
            alert.Some? && alert.value.severity == severity && WellFounded(s, metric, alert.value)
  {
    var t := ThresholdOf(metric, severity);
    SustainedByLongest(s, metric, RuleOf(metric).critical);
    SustainedByLongest(s, metric, t);
    LongestTriggers(s, metric, t);
    LatestIsLoaded(s, metric, t);
  }

  lemma LatestIsLoaded(s: seq<Sample>, metric: Metric, t: Threshold)
    requires Sustained(s, metric, t)
    ensures s != [] && Loaded(s[|s| - 1], metric, t.value)
  {
    var k :| Lasting(s, k, metric, t);
    assert Loaded(s[|s| - 1], metric, t.value);
  }

  /** Critical if the critical load is sustained, else Warning if the warning load is, else nothing. */
  lemma AlertsExactly(samples: seq<Sample>, metric: Metric)
    ensures Deserved(SortBy(samples, ByTime), metric, AlertFor(samples, metric))
  {
    TimeOrders(samples);
    if samples != [] {
      RuleDeserved(SortBy(samples, ByTime), metric);
    }
  }

  /** The metrics in the order in which they are reported. */
  function Place(metric: Metric): (n: nat) {
    match metric case Cpu => 0 case Memory => 1 case Storage => 2
  }

  /** The report holds exactly the alert of every metric that has one: processor, memory, storage. */
  lemma ReportExactly(samples: seq<Sample>, alert: Alert)
    ensures alert in EvaluateTelemetryThresholds(samples) <==> AlertFor(samples, alert.metric) == Some(alert)
    ensures var report := EvaluateTelemetryThresholds(samples);
            forall i, j :: 0 <= i < j < |report| ==> Place(report[i].metric) < Place(report[j].metric)
  {
    AlertIsOf(samples, Cpu);
    AlertIsOf(samples, Memory);
    AlertIsOf(samples, Storage);
    ReportOf(AlertFor(samples, Cpu), AlertFor(samples, Memory), AlertFor(samples, Storage), alert);
  }

  ghost predicate IsOf(alert: Option<Alert>, metric: Metric) {
    alert.Some? ==> alert.value.metric == metric
  }

  lemma AlertIsOf(samples: seq<Sample>, metric: Metric)
    ensures IsOf(AlertFor(samples, metric), metric)
  {
    AlertsExactly(samples, metric);
  }

  lemma ReportOf(cpu: Option<Alert>, memory: Option<Alert>, storage: Option<Alert>, alert: Alert)
    requires IsOf(cpu, Cpu) && IsOf(memory, Memory) && IsOf(storage, Storage)
    ensures var report := Listed(cpu) + Listed(memory) + Listed(storage);
            && (alert in report <==> Some(alert) == match alert.metric
                                                    case Cpu => cpu
                                                    case Memory => memory
                                                    case Storage => storage)
            && forall i, j :: 0 <= i < j < |report| ==> Place(report[i].metric) < Place(report[j].metric)
  {
  }

  /** The load, in hundredths of a percent, and the minutes that it has to last. */
  ghost predicate LoadedFor(samples: seq<Sample>, metric: Metric, load: nat, minutes: nat) {
    Sustained(SortBy(samples, ByTime), metric, Threshold(load, minutes * MINUTE))
  }

  /**
   Critical: 98 % processor or 95 % memory for two minutes, or 95 % storage for five. Warning, unless critical: 90 %
   processor or memory for five minutes, or 85 % storage for ten.
   */
  lemma LevelsExactly(samples: seq<Sample>, metric: Metric)
    ensures var alert := AlertFor(samples, metric);
            var critical := if metric.Cpu? then LoadedFor(samples, metric, 98_00, 2)
                            else if metric.Memory? then LoadedFor(samples, metric, 95_00, 2)
                            else LoadedFor(samples, metric, 95_00, 5);
            var warning := if metric.Storage? then LoadedFor(samples, metric, 85_00, 10)
                           else LoadedFor(samples, metric, 90_00, 5);
            && (alert.Some? && alert.value.severity == Critical <==> critical)
            && (alert.Some? && alert.value.severity == Warning <==> warning && !critical)
  {
    AlertsExactly(samples, metric);
  }

  // ---- input order ----

  /** Samples that share a timestamp are the same sample. */
  ghost predicate OneSamplePerTime(samples: seq<Sample>) {
    forall a, b :: a in samples && b in samples && a.collectedAt == b.collectedAt ==> a == b
  }

  /** With one sample per timestamp the order of the input does not matter. */
  lemma OrderIsIrrelevant(samples: seq<Sample>, shuffled: seq<Sample>)
    requires multiset(samples) == multiset(shuffled) && OneSamplePerTime(samples)
    ensures EvaluateTelemetryThresholds(samples) == EvaluateTelemetryThresholds(shuffled)
  {
    SortForgetsOrder(samples, shuffled, ByTime);
  }

  // ---- number of samples ----

  /** Fewest samples that can span a duration. */
  function Needed(d: Time): (n: int) {
    (d + MAX_SAMPLE_GAP - 1) / MAX_SAMPLE_GAP + 1
  }

  lemma {:induction false} StreakSpan(s: seq<Sample>, k: nat, metric: Metric, threshold: nat)
    requires Streak(s, k, metric, threshold)
    ensures s[|s| - 1].collectedAt - s[k].collectedAt <= (|s| - 1 - k) * MAX_SAMPLE_GAP
    decreases |s| - k
  {
    if k + 1 < |s| {
      StreakSpan(s, k + 1, metric, threshold);
      assert s[k + 1].collectedAt - s[k + 1 - 1].collectedAt <= MAX_SAMPLE_GAP;
    }
  }

  /** A sustained load takes at least as many samples as gaps of seven seconds need to span its duration. */
  lemma SustainedNeeds(s: seq<Sample>, metric: Metric, t: Threshold)
    requires Sustained(s, metric, t)
    ensures |s| >= Needed(t.duration)
  {
    var k :| Lasting(s, k, metric, t);
    StreakSpan(s, k, metric, t.value);
  }

  lemma AlertIsSustained(samples: seq<Sample>, alert: Alert)
    requires alert in EvaluateTelemetryThresholds(samples)
    ensures Sustained(SortBy(samples, ByTime), alert.metric, ThresholdOf(alert.metric, alert.severity))
  {
    ReportExactly(samples, alert);
    AlertsExactly(samples, alert.metric);
  }

  function FewestSamples(metric: Metric, severity: Severity): (n: nat) {
    match (metric, severity)
    case (Storage, Critical) => 44
    case (Storage, Warning) => 87
    case (_, Critical) => 19
    case (_, Warning) => 44
  }

  lemma NeededIsFewest(metric: Metric, severity: Severity)
    ensures Needed(ThresholdOf(metric, severity).duration) == FewestSamples(metric, severity)
  {
    assert Needed(2 * MINUTE) == 19 && Needed(5 * MINUTE) == 44 && Needed(10 * MINUTE) == 87;
  }

  /** 19 samples for two minutes, 44 for five and 87 for ten. */
  lemma AlertNeedsSamples(samples: seq<Sample>, alert: Alert)
    requires alert in EvaluateTelemetryThresholds(samples)
    ensures |samples| >= FewestSamples(alert.metric, alert.severity)
  {
    AlertIsSustained(samples, alert);
    SustainedNeeds(SortBy(samples, ByTime), alert.metric, ThresholdOf(alert.metric, alert.severity));
    NeededIsFewest(alert.metric, alert.severity);
  }

  // ---- raising readings ----

  predicate ReadingRaised(before: Option<nat>, after: Option<nat>) {
    before.Some? == after.Some? && (before.Some? ==> before.value <= after.value)
  }

  predicate SampleRaised(before: Sample, after: Sample) {
    && before.collectedAt == after.collectedAt
    && ReadingRaised(before.cpu, after.cpu)
    && ReadingRaised(before.memory, after.memory)
    && ReadingRaised(before.storage, after.storage)
  }

  ghost predicate Raised(before: seq<Sample>, after: seq<Sample>) {
    |before| == |after| && forall i :: 0 <= i < |before| ==> SampleRaised(before[i], after[i])
  }

  lemma {:induction false} InsertRaised(x: Sample, y: Sample, before: seq<Sample>, after: seq<Sample>)
    requires SampleRaised(x, y) && Raised(before, after)
    ensures Raised(Insert(x, before, ByTime), Insert(y, after, ByTime))
  {
    if before != [] {
      assert SampleRaised(before[0], after[0]);
      if !ByTime(x, before[0]) {
        InsertRaised(x, y, before[1..], after[1..]);
      }
    }
  }

  lemma {:induction false} SortRaised(before: seq<Sample>, after: seq<Sample>)
    requires Raised(before, after)
    ensures Raised(SortBy(before, ByTime), SortBy(after, ByTime))
  {
    if before != [] {
      SortRaised(before[1..], after[1..]);
      InsertRaised(before[0], after[0], SortBy(before[1..], ByTime), SortBy(after[1..], ByTime));
    }
  }

  lemma SustainedRaised(before: seq<Sample>, after: seq<Sample>, metric: Metric, t: Threshold)
    requires Raised(before, after) && Sustained(before, metric, t)
    ensures Sustained(after, metric, t)
  {
    var k :| Lasting(before, k, metric, t);
    forall i | k <= i < |after| ensures Loaded(after[i], metric, t.value) {
      assert Loaded(before[i], metric, t.value) && SampleRaised(before[i], after[i]);
    }
    forall i | k < i < |after| ensures after[i].collectedAt - after[i - 1].collectedAt <= MAX_SAMPLE_GAP {
      assert SampleRaised(before[i], after[i]) && SampleRaised(before[i - 1], after[i - 1]);
    }
    assert Lasting(after, k, metric, t);
  }

  function Rank(alert: Option<Alert>): (rank: nat) {
    if alert.None? then 0 else if alert.value.severity.Warning? then 1 else 2
  }

  /** Raising readings never lowers a metric's severity. */
  lemma SeverityIsMonotone(before: seq<Sample>, after: seq<Sample>, metric: Metric)
    requires Raised(before, after)
    ensures Rank(AlertFor(before, metric)) <= Rank(AlertFor(after, metric))
  {
    var b, a, rule := SortBy(before, ByTime), SortBy(after, ByTime), RuleOf(metric);
    SortRaised(before, after);
    AlertsExactly(before, metric);
    AlertsExactly(after, metric);
    if Sustained(b, metric, rule.critical) {
      SustainedRaised(b, a, metric, rule.critical);
    }
    if Sustained(b, metric, rule.warning) {
      SustainedRaised(b, a, metric, rule.warning);
    }
  }

  // ---- the conditions are needed ----

  function Busy(at: Time): (s: Sample) { Sample(at, Some(9_900), None, None) }

  function Idle(at: Time): (s: Sample) { Sample(at, Some(0), None, None) }

  /** `n` busy samples, seven seconds apart, from `at` on. */
  function BusySamples(at: Time, n: nat): (s: seq<Sample>) {
    seq(n, (i: nat) => Busy(at + i * MAX_SAMPLE_GAP))
  }

  lemma {:induction false} SortedIsFixed(s: seq<Sample>)
    requires Sorted(s, ByTime)
    ensures SortBy(s, ByTime) == s
  {
    if s != [] {
      SortedIsFixed(s[1..]);
      assert |s| > 1 ==> ByTime(s[0], s[1]);
      assert s == [s[0]] + s[1..];
    }
  }

  lemma BusyInOrder(at: Time, n: nat)
    ensures Sorted(BusySamples(at, n), ByTime)
    ensures var s := BusySamples(at, n);
            forall i :: 0 < i < n ==> s[i].collectedAt - s[i - 1].collectedAt == MAX_SAMPLE_GAP
  {
  }

  /** A sample with one reading. */
  function Reading(metric: Metric, value: nat, at: Time): (s: Sample)
    ensures MetricValue(s, metric) == Some(value) && s.collectedAt == at
  {
    match metric
    case Cpu => Sample(at, Some(value), None, None)
    case Memory => Sample(at, None, Some(value), None)
    case Storage => Sample(at, None, None, Some(value))
  }

  /** `n` equal readings, seven seconds apart. */
  function SteadySamples(metric: Metric, value: nat, n: nat): (s: seq<Sample>) {
    seq(n, (i: nat) => Reading(metric, value, i * MAX_SAMPLE_GAP))
  }

  lemma SteadyInOrder(metric: Metric, value: nat, n: nat)
    ensures Sorted(SteadySamples(metric, value, n), ByTime)
    ensures n > 0 ==> Streak(SteadySamples(metric, value, n), 0, metric, value)
  {
    var s := SteadySamples(metric, value, n);
    assert forall i :: 0 <= i < n ==> s[i] == Reading(metric, value, i * MAX_SAMPLE_GAP);
  }

  lemma SpanIsEnough(d: Time, n: nat)
    ensures n >= Needed(d) ==> (n - 1) * MAX_SAMPLE_GAP >= d
  {
  }

  lemma SteadyIsSustained(metric: Metric, severity: Severity, n: nat)
    ensures var t := ThresholdOf(metric, severity);
            Sustained(SteadySamples(metric, t.value, n), metric, t) <==> n >= FewestSamples(metric, severity)
  {
    var t := ThresholdOf(metric, severity);
    var s := SteadySamples(metric, t.value, n);
    NeededIsFewest(metric, severity);
    if n >= FewestSamples(metric, severity) {
      SteadyInOrder(metric, t.value, n);
      SpanIsEnough(t.duration, n);
      assert Lasting(s, 0, metric, t);
    }
    if Sustained(s, metric, t) {
      SustainedNeeds(s, metric, t);
    }
  }

  /** Readings at the warning threshold are never critical. */
  lemma WarningIsNotCritical(metric: Metric, n: nat)
    ensures !Sustained(SteadySamples(metric, RuleOf(metric).warning.value, n), metric, RuleOf(metric).critical)
  {
    var s := SteadySamples(metric, RuleOf(metric).warning.value, n);
    forall k ensures !Lasting(s, k, metric, RuleOf(metric).critical) {
      assert 0 <= k < |s| ==> !Loaded(s[k], metric, RuleOf(metric).critical.value);
    }
  }

  /**
   The bound is tight for every metric and severity: that many readings at the threshold, seven seconds apart, alert.
   */
  lemma BoundIsTight(metric: Metric, severity: Severity, n: nat)
    ensures var alert := AlertFor(SteadySamples(metric, ThresholdOf(metric, severity).value, n), metric);
            alert.Some? && alert.value.severity == severity <==> n >= FewestSamples(metric, severity)
  {
    var s := SteadySamples(metric, ThresholdOf(metric, severity).value, n);
    AlertsExactly(s, metric);
    SteadyInOrder(metric, ThresholdOf(metric, severity).value, n);
    SortedIsFixed(s);
    SteadyIsSustained(metric, severity, n);
    WarningIsNotCritical(metric, n);
  }

  /** Two samples with one timestamp: their order decides whether there is an alert. */
  lemma TiesAreOrderSensitive()
    ensures var later := BusySamples(7 * SECOND, 18);
            && AlertFor([Idle(0), Busy(0)] + later, Cpu).Some?
            && AlertFor([Busy(0), Idle(0)] + later, Cpu).None?
  {
    BusyLast();
    IdleLast();
  }

  lemma LastingBehind(x: Sample, s: seq<Sample>, k: int, metric: Metric, t: Threshold)
    requires Lasting(s, k, metric, t)
    ensures Lasting([x] + s, k + 1, metric, t)
  {
    var longer := [x] + s;
    forall i | k + 1 <= i < |longer| ensures Loaded(longer[i], metric, t.value) {
      assert longer[i] == s[i - 1];
    }
    forall i | k + 1 < i < |longer| ensures longer[i].collectedAt - longer[i - 1].collectedAt <= MAX_SAMPLE_GAP {
      assert longer[i] == s[i - 1] && longer[i - 1] == s[i - 1 - 1];
    }
  }

  lemma BusyStreak()
    ensures Lasting(BusySamples(0, 19), 0, Cpu, RuleOf(Cpu).critical)
  {
    BusyInOrder(0, 19);
  }

  lemma BusyFromZero()
    ensures [Busy(0)] + BusySamples(7 * SECOND, 18) == BusySamples(0, 19)
  {
  }

  lemma BusyLast()
    ensures AlertFor([Idle(0), Busy(0)] + BusySamples(7 * SECOND, 18), Cpu).Some?
  {
    var later := BusySamples(7 * SECOND, 18);
    var s := [Idle(0), Busy(0)] + later;
    AfterZero(Idle(0), Busy(0), later);
    SortedIsFixed(s);
    AlertsExactly(s, Cpu);
    BusyStreak();
    BusyFromZero();
    LastingBehind(Idle(0), BusySamples(0, 19), 0, Cpu, RuleOf(Cpu).critical);
    assert s == [Idle(0)] + BusySamples(0, 19);
  }

  lemma IdleLast()
    ensures AlertFor([Busy(0), Idle(0)] + BusySamples(7 * SECOND, 18), Cpu).None?
  {
    var later := BusySamples(7 * SECOND, 18);
    var s := [Busy(0), Idle(0)] + later;
    AfterZero(Busy(0), Idle(0), later);
    SortedIsFixed(s);
    AlertsExactly(s, Cpu);
    ShortStreak(s, RuleOf(Cpu).critical);
    ShortStreak(s, RuleOf(Cpu).warning);
  }

  lemma AfterZero(a: Sample, b: Sample, later: seq<Sample>)
    requires a.collectedAt == 0 && b.collectedAt == 0 && later == BusySamples(7 * SECOND, 18)
    ensures Sorted([a, b] + later, ByTime)
  {
    BusyInOrder(7 * SECOND, 18);
  }

  lemma ShortStreak(s: seq<Sample>, t: Threshold)
    requires |s| == 20 && s[1] == Idle(0) && s[2].collectedAt == 7 * SECOND && s[19].collectedAt == 126 * SECOND
    requires Sorted(s, ByTime) && t.duration >= 2 * MINUTE && t.value > 0
    ensures !Sustained(s, Cpu, t)
  {
    forall k ensures !Lasting(s, k, Cpu, t) {
      if 2 < k < 20 {
        assert ByTime(s[2], s[k]);
      }
      assert !Loaded(s[1], Cpu, t.value);
    }
  }
}
