/** What the status of a comparison says about the two runs, told on their measurements alone. */
module Verdicts {
  import opened Models
  import opened Ordering
  import opened Repository
  import opened Comparison
  import opened ComparisonLaws
  import Evaluator

  const LOWER_IS_BETTER := {"absolute_error", "measured_duration", "median_absolute_deviation", "median_duration", "robust_variability"}
  const HIGHER_IS_BETTER := {"operations_per_second", "read_throughput", "throughput", "write_throughput"}

  predicate IsPerformanceMetric(name: string) {
    name in LOWER_IS_BETTER || name in HIGHER_IS_BETTER
  }

  /** The nine metrics and which way each of them is better. */
  lemma PoliciesAre(name: string)
    ensures name in POLICIES <==> IsPerformanceMetric(name)
    ensures name in LOWER_IS_BETTER ==> POLICIES[name] == MetricDirection.LowerIsBetter
    ensures name in HIGHER_IS_BETTER ==> POLICIES[name] == MetricDirection.HigherIsBetter
  {
  }

  lemma NoMetricIsBoth(name: string)
    requires name in LOWER_IS_BETTER
    ensures name !in HIGHER_IS_BETTER
  {
    PoliciesAre(name);
  }

  function Size(x: real): real {
    if x >= 0.0 then x else -x
  }

  /** By how much the metric is worse now. */
  function WorseBy(name: string, before: real, now: real): real {
    if name in HIGHER_IS_BETTER then before - now else now - before
  }

  /** A result of the test holds a number under that metric, in that unit. */
  ghost predicate Measured(results: seq<TestResult>, test: TestId, name: string, x: real, unit: Option<string>) {
    IsPerformanceMetric(name) &&
    exists i :: 0 <= i < |results| && Holds(results[i], test, name, x, unit)
  }

  ghost predicate Holds(r: TestResult, test: TestId, name: string, x: real, unit: Option<string>) {
    r.testId == test && name in r.measured && Evaluator.IsNumber(r.measured[name].value, x) && r.measured[name].unit == unit
  }

  /** Both runs measured the metric of that test in one unit. */
  ghost predicate MeasuredTwice(source: RunExecution, current: RunExecution, test: TestId, name: string, x: real, y: real, unit: Option<string>) {
    Measured(source.run.testResults, test, name, x, unit) && Measured(current.run.testResults, test, name, y, unit)
  }

  ghost predicate SomethingCompared(source: RunExecution, current: RunExecution) {
    exists test, name, x, y, unit :: MeasuredTwice(source, current, test, name, x, y, unit)
  }

  /** Some metric got worse by the failure threshold or more, in percent of a baseline other than zero. */
  ghost predicate Regressed(source: RunExecution, current: RunExecution, failure: real) {
    exists test, name, x, y, unit ::
      MeasuredTwice(source, current, test, name, x, y, unit) && Regresses(name, x, y, failure)
  }

  /** Some metric got worse by the warning threshold or more, or moved away from a baseline of zero. */
  ghost predicate Noticed(source: RunExecution, current: RunExecution, warning: real) {
    exists test, name, x, y, unit ::
      MeasuredTwice(source, current, test, name, x, y, unit) && Suspicious(name, x, y, warning)
  }

  ghost predicate UnitsDiffer(source: RunExecution, current: RunExecution) {
    exists test, name, x, y, unit, other ::
      Measured(source.run.testResults, test, name, x, unit) && Measured(current.run.testResults, test, name, y, other) && unit != other
  }

  /** Some limitation contains the word, in small or capital letters. */
  ghost predicate TemperatureMissing(limitations: seq<string>) {
    exists i, k :: 0 <= i < |limitations| && WordAt(limitations[i], k)
  }

  predicate WordAt(text: string, k: int) {
    0 <= k <= |text| - 11 && forall j :: 0 <= j < 11 ==> text[k + j] in {"temperature"[j], "TEMPERATURE"[j]}
  }

  predicate SameIdentity(baseline: BaselineRecord, current: RunExecution) {
    baseline.platformFingerprint == current.run.platformFingerprint && baseline.planHash == current.run.planHash
  }

  // ---- From measurements to metrics ----

  lemma NumbersAre(s: Scalar, x: real)
    ensures Evaluator.IsNumber(s, x) <==> IsNumber(s) && ToFloat(s) == x
  {
  }

  lemma MeasuredIsMetric(results: seq<TestResult>, test: TestId, name: string, x: real, unit: Option<string>)
    requires UniqueIds(results)
    ensures Measured(results, test, name, x, unit) <==>
            (test, name) in NumericMetrics(results) && NumericMetrics(results)[(test, name)] == Quantity(x, unit)
  {
    hide NumericMetrics, POLICIES, IsPerformanceMetric, UniqueIds;
    MetricsAreMeasurements(results, (test, name));
    PoliciesAre(name);
    if Measured(results, test, name, x, unit) {
      var i :| 0 <= i < |results| && Holds(results[i], test, name, x, unit);
      NumbersAre(results[i].measured[name].value, x);
      assert IsRegistered(results[i], name);
    }
    if (test, name) in NumericMetrics(results) && NumericMetrics(results)[(test, name)] == Quantity(x, unit) {
      var i :| 0 <= i < |results| && results[i].testId == test && IsRegistered(results[i], name);
      NumbersAre(results[i].measured[name].value, x);
      assert Holds(results[i], test, name, x, unit);
    }
  }

  /** A comparison in the report, spelled out. */
  ghost predicate Says(m: MetricComparison, w: real, f: real) {
    && IsPerformanceMetric(m.metric)
    && m.absoluteDifference == m.currentValue - m.baselineValue
    && (if m.baselineValue == 0.0 then m.percentDifference.None?
        else m.percentDifference.Some? && m.percentDifference.value * Size(m.baselineValue) == 100.0 * (m.currentValue - m.baselineValue))
    && (m.direction == MetricDirection.HigherIsBetter <==> m.metric in HIGHER_IS_BETTER)
    && OutcomeSays(m.metric, m.baselineValue, m.currentValue, m.outcome, w, f)
  }

  ghost predicate OutcomeSays(name: string, x: real, y: real, outcome: ComparisonOutcome, w: real, f: real) {
    && (outcome == MuchWorse <==> Regresses(name, x, y, f))
    && (outcome in {Worse, MuchWorse, Unavailable} <==> Suspicious(name, x, y, w))
    && (outcome == Unavailable <==> x == 0.0 && y != 0.0)
    && (outcome == Improved <==> x != 0.0 && WorseBy(name, x, y) < 0.0 && -100.0 * WorseBy(name, x, y) >= w * Size(x))
  }

  ghost predicate Regresses(name: string, x: real, y: real, f: real) {
    x != 0.0 && 100.0 * WorseBy(name, x, y) >= f * Size(x)
  }

  ghost predicate Suspicious(name: string, x: real, y: real, w: real) {
    if x == 0.0 then y != 0.0 else WorseBy(name, x, y) > 0.0 && 100.0 * WorseBy(name, x, y) >= w * Size(x)
  }

  lemma DirectionSays(name: string)
    requires name in POLICIES
    ensures IsPerformanceMetric(name)
    ensures POLICIES[name] == MetricDirection.HigherIsBetter <==> name in HIGHER_IS_BETTER
    ensures forall x, y :: WorseBy(name, x, y) == Adverse(x, y, POLICIES[name])
  {
    PoliciesAre(name);
    if name in LOWER_IS_BETTER {
      NoMetricIsBoth(name);
    }
    hide POLICIES;
  }

  lemma OutcomeSaysIt(name: string, x: real, y: real, w: real, f: real)
    requires name in POLICIES && AdmissibleThresholds(w, f)
    ensures OutcomeSays(name, x, y, OutcomeOf(x, y, POLICIES[name], w, f).1, w, f)
  {
    hide POLICIES, PercentDifference, Classify, IsPerformanceMetric;
    DirectionSays(name);
    if x != 0.0 {
      OutcomeMeans(x, y, POLICIES[name], w, f);
      assert Magnitude(x) == Size(x) > 0.0;
      hide OutcomeOf, Magnitude, Size, WorseBy, Adverse;
      Widens(w, f, Size(x), WorseBy(name, x, y));
    }
  }

  lemma CompareSays(key: Key, before: Quantity, after: Quantity, w: real, f: real)
    requires key.1 in POLICIES && AdmissibleThresholds(w, f)
    ensures Says(Compare(key, before, after, w, f), w, f)
  {
    hide POLICIES, PercentDifference, Classify, OutcomeSays, IsPerformanceMetric, WorseBy;
    DirectionSays(key.1);
    OutcomeSaysIt(key.1, before.value, after.value, w, f);
    if before.value != 0.0 {
      PercentSays(before.value, after.value);
    }
  }

  lemma PercentSays(x: real, y: real)
    requires x != 0.0
    ensures PercentDifference(x, y) * Magnitude(x) == 100.0 * (y - x)
  {
    var m := Magnitude(x);
    assert (y - x) / m * m == y - x;
  }

  /** Past the failure threshold is past the warning threshold. */
  lemma Widens(w: real, f: real, m: real, d: real)
    requires 0.0 <= w < f && m > 0.0
    ensures 100.0 * d >= f * m ==> d > 0.0 && 100.0 * d >= w * m
  {
    assert (f - w) * m > 0.0 by { Positive(f - w, m); }
    Positive(f, m);
  }

  /** Which comparisons a report between compatible runs holds, and that each says what it should. */
  lemma ComparisonsAre(source: RunExecution, current: RunExecution, w: real, f: real, test: TestId, name: string)
    requires UniqueIds(source.run.testResults) && UniqueIds(current.run.testResults) && AdmissibleThresholds(w, f)
    ensures forall m :: m in Numeric(source, current, w, f).0 ==>
              Says(m, w, f) && MeasuredTwice(source, current, m.testId, m.metric, m.baselineValue, m.currentValue, m.unit)
    ensures forall x, y, unit :: MeasuredTwice(source, current, test, name, x, y, unit) ==>
              exists m :: m in Numeric(source, current, w, f).0 && m.testId == test && m.metric == name
                          && m.baselineValue == x && m.currentValue == y && m.unit == unit
  {
    hide POLICIES, NumericMetrics, Measured, Says, OutcomeOf, TextPairLe, Compared, UnitWarnings, UniqueIds, IsPerformanceMetric;
    var before, after := NumericMetrics(source.run.testResults), NumericMetrics(current.run.testResults);
    var keys := CommonKeys(before, after);
    SharedKeys(source.run.testResults, current.run.testResults);
    ComparedIsComplete(keys, before, after, w, f);
    var compared := Compared(keys, before, after, w, f);
    forall m | m in compared
      ensures Says(m, w, f) && MeasuredTwice(source, current, m.testId, m.metric, m.baselineValue, m.currentValue, m.unit)
    {
      var k := KeyOf(m);
      CompareSays(k, before[k], after[k], w, f);
      MeasuredIsMetric(source.run.testResults, k.0, k.1, before[k].value, before[k].unit);
      MeasuredIsMetric(current.run.testResults, k.0, k.1, after[k].value, after[k].unit);
    }
    forall x, y, unit | MeasuredTwice(source, current, test, name, x, y, unit)
      ensures exists m :: m in compared && m.testId == test && m.metric == name
                          && m.baselineValue == x && m.currentValue == y && m.unit == unit
    {
      MeasuredIsMetric(source.run.testResults, test, name, x, unit);
      MeasuredIsMetric(current.run.testResults, test, name, y, unit);
      var k := (test, name);
      assert k in keys;
      var m := Compare(k, before[k], after[k], w, f);
      assert m in compared;
    }
  }

  // ---- The four facts the status depends on ----

  lemma RegressionIsReported(source: RunExecution, current: RunExecution, w: real, f: real)
    requires UniqueIds(source.run.testResults) && UniqueIds(current.run.testResults) && AdmissibleThresholds(w, f)
    requires Regressed(source, current, f)
    ensures exists m :: m in Numeric(source, current, w, f).0 && m.outcome == MuchWorse
  {
    hide Numeric, MeasuredTwice, UniqueIds, IsPerformanceMetric, Suspicious, Regresses, WorseBy, Size;
    var test, name, x, y, unit :| MeasuredTwice(source, current, test, name, x, y, unit) && Regresses(name, x, y, f);
    ComparisonsAre(source, current, w, f, test, name);
    var m :| m in Numeric(source, current, w, f).0 && m.testId == test && m.metric == name
             && m.baselineValue == x && m.currentValue == y && m.unit == unit;
    assert Says(m, w, f);
  }

  lemma ReportedIsRegression(source: RunExecution, current: RunExecution, w: real, f: real, m: MetricComparison)
    requires UniqueIds(source.run.testResults) && UniqueIds(current.run.testResults) && AdmissibleThresholds(w, f)
    requires m in Numeric(source, current, w, f).0 && m.outcome == MuchWorse
    ensures Regressed(source, current, f)
  {
    hide Numeric, MeasuredTwice, UniqueIds, IsPerformanceMetric, Suspicious, Regresses, WorseBy, Size;
    ComparisonsAre(source, current, w, f, "", "");
    assert Says(m, w, f);
    assert MeasuredTwice(source, current, m.testId, m.metric, m.baselineValue, m.currentValue, m.unit);
  }

  lemma RegressionShows(source: RunExecution, current: RunExecution, w: real, f: real)
    requires UniqueIds(source.run.testResults) && UniqueIds(current.run.testResults) && AdmissibleThresholds(w, f)
    ensures AnyOutcome(Numeric(source, current, w, f).0, {MuchWorse}) <==> Regressed(source, current, f)
  {
    hide Numeric, Regressed, UniqueIds;
    var all := Numeric(source, current, w, f).0;
    if AnyOutcome(all, {MuchWorse}) {
      var i :| 0 <= i < |all| && all[i].outcome in {MuchWorse};
      ReportedIsRegression(source, current, w, f, all[i]);
    }
    if Regressed(source, current, f) {
      RegressionIsReported(source, current, w, f);
      var m :| m in all && m.outcome == MuchWorse;
      var i :| 0 <= i < |all| && all[i] == m;
    }
  }

  lemma SuspicionShows(source: RunExecution, current: RunExecution, w: real, f: real)
    requires UniqueIds(source.run.testResults) && UniqueIds(current.run.testResults) && AdmissibleThresholds(w, f)
    ensures (forall m :: m in Numeric(source, current, w, f).0 ==> m.outcome in {Improved, Unchanged}) <==> !Noticed(source, current, w)
    ensures Numeric(source, current, w, f).0 != [] <==> SomethingCompared(source, current)
  {
    hide Numeric, MeasuredTwice, UniqueIds, IsPerformanceMetric, Suspicious, Regresses, WorseBy, Size;
    var all := Numeric(source, current, w, f).0;
    ComparisonsAre(source, current, w, f, "", "");
    if all != [] {
      assert all[0] in all;
      assert MeasuredTwice(source, current, all[0].testId, all[0].metric, all[0].baselineValue, all[0].currentValue, all[0].unit);
    }
    if SomethingCompared(source, current) {
      var test, name, x, y, unit :| MeasuredTwice(source, current, test, name, x, y, unit);
      ComparisonsAre(source, current, w, f, test, name);
    }
    forall m | m in all && m.outcome !in {Improved, Unchanged}
      ensures Noticed(source, current, w)
    {
      assert m.outcome in {Worse, MuchWorse, Unavailable};
      assert MeasuredTwice(source, current, m.testId, m.metric, m.baselineValue, m.currentValue, m.unit);
    }
    if Noticed(source, current, w) {
      var test, name, x, y, unit :|
        MeasuredTwice(source, current, test, name, x, y, unit) && Suspicious(name, x, y, w);
      ComparisonsAre(source, current, w, f, test, name);
      var m :| m in all && m.testId == test && m.metric == name && m.baselineValue == x && m.currentValue == y && m.unit == unit;
      assert m.outcome in {Worse, MuchWorse, Unavailable};
    }
  }

  lemma UnitsShow(source: RunExecution, current: RunExecution)
    requires UniqueIds(source.run.testResults) && UniqueIds(current.run.testResults)
    ensures UnitsAgree(source, current) <==> !UnitsDiffer(source, current)
  {
    hide NumericMetrics, Measured, UniqueIds;
    var before, after := NumericMetrics(source.run.testResults), NumericMetrics(current.run.testResults);
    if UnitsDiffer(source, current) {
      var test, name, x, y, unit, other :|
        Measured(source.run.testResults, test, name, x, unit) && Measured(current.run.testResults, test, name, y, other) && unit != other;
      MeasuredIsMetric(source.run.testResults, test, name, x, unit);
      MeasuredIsMetric(current.run.testResults, test, name, y, other);
      assert (test, name) in before && (test, name) in after;
    }
    forall k | k in before && k in after && before[k].unit != after[k].unit
      ensures UnitsDiffer(source, current)
    {
      MeasuredIsMetric(source.run.testResults, k.0, k.1, before[k].value, before[k].unit);
      MeasuredIsMetric(current.run.testResults, k.0, k.1, after[k].value, after[k].unit);
      assert Measured(source.run.testResults, k.0, k.1, before[k].value, before[k].unit);
      assert Measured(current.run.testResults, k.0, k.1, after[k].value, after[k].unit);
    }
  }

  lemma LoweredChar(c: char, j: int)
    requires 0 <= j < 11
    ensures (if 'A' <= c <= 'Z' then c - 'A' + 'a' else c) == "temperature"[j] <==> c in {"temperature"[j], "TEMPERATURE"[j]}
  {
    assert "TEMPERATURE"[j] - 'A' + 'a' == "temperature"[j] && 'A' <= "TEMPERATURE"[j] <= 'Z' && 'a' <= "temperature"[j] <= 'z';
  }

  lemma WordShows(text: string, k: int)
    ensures Evaluator.OccursAt("temperature", Lowered(text), k) <==> WordAt(text, k)
  {
    forall j | 0 <= j < 11 && 0 <= k <= |text| - 11
      ensures Lowered(text)[k + j] == "temperature"[j] <==> text[k + j] in {"temperature"[j], "TEMPERATURE"[j]}
    {
      LoweredChar(text[k + j], j);
    }
    if 0 <= k <= |text| - 11 {
      var part := Lowered(text)[k..k + 11];
      assert part == "temperature" <==> forall j :: 0 <= j < 11 ==> part[j] == "temperature"[j];
      assert forall j :: 0 <= j < 11 ==> part[j] == Lowered(text)[k + j];
    }
  }

  lemma TemperatureShows(limitations: seq<string>)
    ensures MentionsTemperature(limitations) <==> TemperatureMissing(limitations)
  {
    hide Lowered, WordAt, Evaluator.OccursAt;
    forall i, k | 0 <= i < |limitations|
      ensures Evaluator.OccursAt("temperature", Lowered(limitations[i]), k) <==> WordAt(limitations[i], k)
    {
      WordShows(limitations[i], k);
    }
    if TemperatureMissing(limitations) {
      var i, k :| 0 <= i < |limitations| && WordAt(limitations[i], k);
      OccurrenceInRange(limitations[i], k);
    }
  }

  lemma OccurrenceInRange(text: string, k: int)
    requires WordAt(text, k)
    ensures 0 <= k <= |Lowered(text)|
  {
  }

  /** Thresholds are admitted when they are not negative and in strict order. */
  lemma ThresholdsAre(w: real, f: real)
    ensures AdmissibleThresholds(w, f) <==> w >= 0.0 && f > w
  {
  }

  /** The four warnings about identity, each exactly when it applies. */
  lemma IdentityWarningsSay(baseline: BaselineRecord, source: RunExecution, current: RunExecution, runId: RunId, w: real, f: real)
    ensures var said := IdentityWarnings(baseline, source, current, runId);
            && said <= Report(baseline, source, current, runId, w, f).warnings
            && (SELF_COMPARISON in said <==> baseline.sourceRunId == runId)
            && (POWER_PLANS in said <==> source.platform.powerPlanName != current.platform.powerPlanName)
            && (PLATFORMS in said <==> baseline.platformFingerprint != current.run.platformFingerprint)
            && (PLANS in said <==> baseline.planHash != current.run.planHash)
  {
    assert |SELF_COMPARISON| > |POWER_PLANS| > |PLATFORMS| > |PLANS|;
    hide Numeric, MentionsTemperature, OverallStatus;
  }

  // ---- The status ----

  /** The status of a report, exactly. ERROR for an errored run. FAIL for a failed run, and for any
      other run of the same platform and plan in which some metric got worse by the failure threshold or
      more. PASS for a run that passed or was skipped, other than the source, of the same platform, plan
      and power plan, without missing temperature evidence, with something compared, all in the same
      units, and nothing worse by the warning threshold. WARN for the rest. */
  lemma StatusIsExact(baseline: BaselineRecord, source: RunExecution, current: RunExecution, runId: RunId, w: real, f: real)
    requires UniqueIds(source.run.testResults) && UniqueIds(current.run.testResults) && AdmissibleThresholds(w, f)
    ensures var status, now := Report(baseline, source, current, runId, w, f).overallStatus, current.run.overallStatus;
            var fails := now == Fail || (now != Error && SameIdentity(baseline, current) && Regressed(source, current, f));
            var passes := now in {Pass, Skip} && SameIdentity(baseline, current) && baseline.sourceRunId != runId
                          && source.platform.powerPlanName == current.platform.powerPlanName
                          && !TemperatureMissing(current.run.limitations)
                          && SomethingCompared(source, current) && !UnitsDiffer(source, current) && !Noticed(source, current, w);
            && (status == Error <==> now == Error)
            && (status == Fail <==> fails)
            && (status == Pass <==> passes)
            && (status == Warn <==> now != Error && !fails && !passes)
  {
    hide MentionsTemperature, TemperatureMissing, UnitsAgree, UnitsDiffer, Numeric, Regressed, Noticed, SomethingCompared, IdentityWarnings, UniqueIds;
    PassCertifies(baseline, source, current, runId, w, f);
    TemperatureShows(current.run.limitations);
    UnitsShow(source, current);
    RegressionShows(source, current, w, f);
    SuspicionShows(source, current, w, f);
    hide AnyOutcome;
  }
}
