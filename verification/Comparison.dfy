/** Regression comparison of a stored run with a named baseline. */
module Comparison {
  import opened Models
  import opened Ordering
  import opened Catalogues
  import opened Repository
  import Evaluator

  datatype MetricDirection = HigherIsBetter | LowerIsBetter

  /** IMPROVED, UNCHANGED, WARN, FAIL and UNAVAILABLE. */
  datatype ComparisonOutcome = Improved | Unchanged | Worse | MuchWorse | Unavailable

  const POLICIES: map<string, MetricDirection> := map[
    "absolute_error" := LowerIsBetter,
    "measured_duration" := LowerIsBetter,
    "median_absolute_deviation" := LowerIsBetter,
    "median_duration" := LowerIsBetter,
    "operations_per_second" := HigherIsBetter,
    "read_throughput" := HigherIsBetter,
    "robust_variability" := LowerIsBetter,
    "throughput" := HigherIsBetter,
    "write_throughput" := HigherIsBetter
  ]

  // ---- One metric ----

  function Magnitude(x: real): real {
    if x < 0.0 then -x else x
  }

  function PercentDifference(baseline: real, current: real): real
    requires baseline != 0.0
  {
    (current - baseline) / Magnitude(baseline) * 100.0
  }

  function Classify(adverse: real, warning: real, failure: real): ComparisonOutcome {
    if adverse == 0.0 then Unchanged
    else if adverse >= failure then MuchWorse
    else if adverse >= warning then Worse
    else if adverse <= -warning then Improved
    else Unchanged
  }

  function OutcomeOf(baseline: real, current: real, direction: MetricDirection, warning: real, failure: real)
    : (Option<real>, ComparisonOutcome)
  {
    if baseline == 0.0 then (None, if current == 0.0 then Unchanged else Unavailable)
    else
      var percent := PercentDifference(baseline, current);
      (Some(percent), Classify(if direction == HigherIsBetter then -percent else percent, warning, failure))
  }

  // ---- The metrics of a run ----

  type Key = (TestId, string)

  datatype Quantity = Quantity(value: real, unit: Option<string>)

  /** Integers and floats; a boolean is not a number here. */
  predicate IsNumber(s: Scalar) {
    s.Int? || s.Float?
  }

  function ToFloat(s: Scalar): real
    requires IsNumber(s)
  {
    if s.Int? then s.i as real else s.x
  }

  predicate IsRegistered(r: TestResult, name: string) {
    name in r.measured && name in POLICIES && IsNumber(r.measured[name].value)
  }

  function RegisteredIn(r: TestResult, names: set<string>): map<Key, Quantity> {
    map name | name in names && IsRegistered(r, name) ::
      (r.testId, name) := Quantity(ToFloat(r.measured[name].value), r.measured[name].unit)
  }

  function Registered(r: TestResult): map<Key, Quantity> {
    RegisteredIn(r, r.measured.Keys)
  }

  /** Later results override earlier ones of the same test and metric. */
  function NumericMetrics(results: seq<TestResult>): map<Key, Quantity> {
    if results == [] then map[]
    else NumericMetrics(results[..|results| - 1]) + Registered(results[|results| - 1])
  }

  lemma RegisteredStep(metrics: map<Key, Quantity>, r: TestResult, done: set<string>, name: string)
    requires name in r.measured
    ensures var before, after := metrics + RegisteredIn(r, done), metrics + RegisteredIn(r, done + {name});
            if IsRegistered(r, name) then
              after == before[(r.testId, name) := Quantity(ToFloat(r.measured[name].value), r.measured[name].unit)]
            else after == before
  {
    hide POLICIES;
    assert RegisteredIn(r, done + {name}) == RegisteredIn(r, done) + RegisteredIn(r, {name});
  }

  /** One pass of the inner loop. */
  method CollectOne(metrics: map<Key, Quantity>, result: TestResult, ghost start: map<Key, Quantity>, ghost done: set<string>, name: string)
    returns (r: map<Key, Quantity>)
    requires name in result.measured
    requires metrics == start + RegisteredIn(result, done)
    ensures r == start + RegisteredIn(result, done + {name})
  {
    var value := result.measured[name].value;
    r := metrics;
    RegisteredStep(start, result, done, name);
    if name in POLICIES && IsNumber(value) {
      r := r[(result.testId, name) := Quantity(ToFloat(value), result.measured[name].unit)];
    }
    hide RegisteredIn, POLICIES;
  }

  lemma RegisteredEnds(metrics: map<Key, Quantity>, r: TestResult)
    ensures metrics + RegisteredIn(r, {}) == metrics
    ensures Registered(r) == RegisteredIn(r, r.measured.Keys)
  {
  }

  method CollectFrom(metrics: map<Key, Quantity>, result: TestResult) returns (r: map<Key, Quantity>)
    ensures r == metrics + Registered(result)
  {
    var names: set<string>, done: set<string> := result.measured.Keys, {};
    r := metrics;
    hide *;
    RegisteredEnds(metrics, result);
    while names != {}
      invariant names + done == result.measured.Keys
      invariant r == metrics + RegisteredIn(result, done)
      decreases names
    {
      var name :| name in names;
      r := CollectOne(r, result, metrics, done, name);
      names, done := names - {name}, done + {name};
    }
    assert done == result.measured.Keys;
  }

  method CollectMetrics(results: seq<TestResult>) returns (metrics: map<Key, Quantity>)
    ensures metrics == NumericMetrics(results)
  {
    hide Registered;
    metrics := map[];
    for i: nat := 0 to |results|
      invariant metrics == NumericMetrics(results[..i])
    {
      metrics := CollectFrom(metrics, results[i]);
      assert results[..i + 1][..i] == results[..i];
    }
    assert results[..|results|] == results;
  }

  // ---- The report ----

  datatype MetricComparison = MetricComparison(
    testId: TestId,
    metric: string,
    unit: Option<string>,
    direction: MetricDirection,
    baselineValue: real,
    currentValue: real,
    absoluteDifference: real,
    percentDifference: Option<real>,
    outcome: ComparisonOutcome)

  datatype ComparisonReport = ComparisonReport(
    baseline: BaselineRecord,
    runId: RunId,
    platformCompatible: bool,
    planCompatible: bool,
    overallStatus: Status,
    warningThreshold: real,
    failureThreshold: real,
    comparisons: seq<MetricComparison>,
    warnings: seq<string>)

  const SELF_COMPARISON :=
    "The baseline source and current run are identical; this is a self-comparison, not independent regression evidence."
  const POWER_PLANS := "Recorded power plans differ; timing comparisons are not controlled for power policy."
  const PLATFORMS := "Platform fingerprints differ; numeric regression conclusions were withheld."
  const PLANS := "Plan hashes differ; numeric regression conclusions were withheld."
  const NO_METRICS := "No compatible registered performance metrics were available."
  const TEMPERATURE := "Temperature evidence is unavailable; thermal conditions cannot be excluded."

  function UnitWarning(key: Key): string {
    key.0 + " " + key.1 + " units differ; that metric was not compared."
  }

  function Compare(key: Key, baseline: Quantity, current: Quantity, warning: real, failure: real): MetricComparison
    requires key.1 in POLICIES
  {
    var (percent, outcome) := OutcomeOf(baseline.value, current.value, POLICIES[key.1], warning, failure);
    MetricComparison(key.0, key.1, baseline.unit, POLICIES[key.1], baseline.value, current.value,
                     current.value - baseline.value, percent, outcome)
  }

  /** Both runs measured every key, under a registered name. */
  predicate Shared(keys: seq<Key>, baseline: map<Key, Quantity>, current: map<Key, Quantity>) {
    forall k :: k in keys ==> k in baseline && k in current && k.1 in POLICIES
  }

  function Compared(keys: seq<Key>, baseline: map<Key, Quantity>, current: map<Key, Quantity>, warning: real, failure: real)
    : seq<MetricComparison>
    requires Shared(keys, baseline, current)
  {
    if keys == [] then []
    else
      var key := keys[|keys| - 1];
      Compared(keys[..|keys| - 1], baseline, current, warning, failure) +
      if baseline[key].unit == current[key].unit then [Compare(key, baseline[key], current[key], warning, failure)] else []
  }

  function UnitWarnings(keys: seq<Key>, baseline: map<Key, Quantity>, current: map<Key, Quantity>): seq<string>
    requires Shared(keys, baseline, current)
  {
    if keys == [] then []
    else
      var key := keys[|keys| - 1];
      UnitWarnings(keys[..|keys| - 1], baseline, current) +
      if baseline[key].unit == current[key].unit then [] else [UnitWarning(key)]
  }

  lemma {:induction false} MetricsAreRegistered(results: seq<TestResult>, key: Key)
    requires key in NumericMetrics(results)
    ensures key.1 in POLICIES
  {
    var n := |results| - 1;
    if key !in Registered(results[n]) {
      MetricsAreRegistered(results[..n], key);
    }
  }

  function CommonKeys(baseline: map<Key, Quantity>, current: map<Key, Quantity>): (keys: seq<Key>)
    ensures forall k :: k in keys <==> k in baseline && k in current
    ensures StrictlyAscending(keys, TextPairLe)
  {
    TextPairOrder();
    Ascending(baseline.Keys * current.Keys, TextPairLe)
  }

  function Lowered(s: string): string {
    seq(|s|, i requires 0 <= i < |s| => if 'A' <= s[i] <= 'Z' then s[i] - 'A' + 'a' else s[i])
  }

  predicate MentionsTemperature(limitations: seq<string>) {
    exists i :: 0 <= i < |limitations| && Evaluator.OccursIn("temperature", Lowered(limitations[i]))
  }

  predicate AnyOutcome(comparisons: seq<MetricComparison>, outcomes: set<ComparisonOutcome>) {
    exists i :: 0 <= i < |comparisons| && comparisons[i].outcome in outcomes
  }

  function OverallStatus(current: Status, compatible: bool, comparisons: seq<MetricComparison>, warnings: seq<string>): Status {
    if current == Error then Error
    else if current == Fail then Fail
    else if !compatible then Warn
    else if AnyOutcome(comparisons, {MuchWorse}) then Fail
    else if current == Warn || warnings != [] || AnyOutcome(comparisons, {Worse, Unavailable}) then Warn
    else Pass
  }

  function When(condition: bool, text: string): seq<string> {
    if condition then [text] else []
  }

  function IdentityWarnings(baseline: BaselineRecord, source: RunExecution, current: RunExecution, runId: RunId): seq<string> {
    When(baseline.sourceRunId == runId, SELF_COMPARISON)
    + When(source.platform.powerPlanName != current.platform.powerPlanName, POWER_PLANS)
    + When(baseline.platformFingerprint != current.run.platformFingerprint, PLATFORMS)
    + When(baseline.planHash != current.run.planHash, PLANS)
  }

  predicate Compatible(baseline: BaselineRecord, current: RunExecution) {
    baseline.platformFingerprint == current.run.platformFingerprint && baseline.planHash == current.run.planHash
  }

  /** The comparisons of two compatible runs and the warnings they raise. */
  function Numeric(source: RunExecution, current: RunExecution, warning: real, failure: real): (seq<MetricComparison>, seq<string>)
  {
    var before, after := NumericMetrics(source.run.testResults), NumericMetrics(current.run.testResults);
    var keys := CommonKeys(before, after);
    SharedKeys(source.run.testResults, current.run.testResults);
    var comparisons := Compared(keys, before, after, warning, failure);
    (comparisons, UnitWarnings(keys, before, after) + When(comparisons == [], NO_METRICS))
  }

  function Report(baseline: BaselineRecord, source: RunExecution, current: RunExecution, runId: RunId, warning: real, failure: real)
    : ComparisonReport
  {
    var compatible := Compatible(baseline, current);
    var (comparisons, raised) := if compatible then Numeric(source, current, warning, failure) else ([], []);
    var warnings := IdentityWarnings(baseline, source, current, runId) + raised
                    + When(MentionsTemperature(current.run.limitations), TEMPERATURE);
    ComparisonReport(baseline, runId,
                     baseline.platformFingerprint == current.run.platformFingerprint,
                     baseline.planHash == current.run.planHash,
                     OverallStatus(current.run.overallStatus, compatible, comparisons, warnings),
                     warning, failure, comparisons, warnings)
  }

  predicate AdmissibleThresholds(warning: real, failure: real) {
    0.0 <= warning < failure
  }

  datatype ComparisonError = ThresholdsRejected | Store(error: StoreError)

  function BaselineOf(c: Catalogue, name: string): BaselineRecord
    requires name in c.baselines && c.baselines[name].sourceRunId in c.runs
  {
    var row := c.baselines[name];
    var run := c.runs[row.sourceRunId].execution.run;
    BaselineRecord(name, row.sourceRunId, row.createdAt, run.platformFingerprint, run.planHash, run.planName)
  }

  /** The baseline, its source and the run are read one after the other: `first`, `second` and `third`
      are what the store holds at these three moments. */
  function CompareAcross(first: Catalogue, second: Catalogue, third: Catalogue, name: string, runId: RunId, warning: real, failure: real)
    : Result<ComparisonReport, ComparisonError>
    requires name in first.baselines ==> first.baselines[name].sourceRunId in first.runs
  {
    if !AdmissibleThresholds(warning, failure) then Err(ThresholdsRejected)
    else if name !in first.baselines then Err(Store(BaselineNotFound))
    else
      var baseline := BaselineOf(first, name);
      if baseline.sourceRunId !in second.runs || runId !in third.runs then Err(Store(RunNotFound))
      else Ok(Report(baseline, second.runs[baseline.sourceRunId].execution, third.runs[runId].execution, runId, warning, failure))
  }

  lemma ComparedStep(keys: seq<Key>, i: nat, baseline: map<Key, Quantity>, current: map<Key, Quantity>, warning: real, failure: real)
    requires Shared(keys, baseline, current) && i < |keys|
    ensures Shared(keys[..i], baseline, current) && Shared(keys[..i + 1], baseline, current)
    ensures keys[i] in baseline && keys[i] in current && keys[i].1 in POLICIES
    ensures Compared(keys[..i + 1], baseline, current, warning, failure) ==
            Compared(keys[..i], baseline, current, warning, failure) +
            if baseline[keys[i]].unit == current[keys[i]].unit
            then [Compare(keys[i], baseline[keys[i]], current[keys[i]], warning, failure)] else []
    ensures UnitWarnings(keys[..i + 1], baseline, current) ==
            UnitWarnings(keys[..i], baseline, current) +
            if baseline[keys[i]].unit == current[keys[i]].unit then [] else [UnitWarning(keys[i])]
  {
    assert keys[..i + 1][..i] == keys[..i];
    assert forall k :: k in keys[..i + 1] ==> k in keys;
    hide Compare, UnitWarning;
  }

  lemma SharedKeys(a: seq<TestResult>, b: seq<TestResult>)
    ensures Shared(CommonKeys(NumericMetrics(a), NumericMetrics(b)), NumericMetrics(a), NumericMetrics(b))
  {
    forall k | k in NumericMetrics(a) {
      MetricsAreRegistered(a, k);
    }
  }

  method CompareMetrics(source: RunExecution, current: RunExecution, warning: real, failure: real)
    returns (comparisons: seq<MetricComparison>, warnings: seq<string>)
    ensures (comparisons, warnings) == Numeric(source, current, warning, failure)
  {
    var before := CollectMetrics(source.run.testResults);
    var after := CollectMetrics(current.run.testResults);
    var keys := CommonKeys(before, after);
    SharedKeys(source.run.testResults, current.run.testResults);
    hide Compare, UnitWarning, NumericMetrics, Compared, UnitWarnings, CommonKeys;
    comparisons, warnings := [], [];
    ComparedNone(before, after, warning, failure);
    for i: nat := 0 to |keys|
      invariant Shared(keys[..i], before, after)
      invariant comparisons == Compared(keys[..i], before, after, warning, failure)
      invariant warnings == UnitWarnings(keys[..i], before, after)
    {
      var key := keys[i];
      ComparedStep(keys, i, before, after, warning, failure);
      if before[key].unit != after[key].unit {
        warnings := warnings + [UnitWarning(key)];
        continue;
      }
      comparisons := comparisons + [Compare(key, before[key], after[key], warning, failure)];
    }
    assert keys[..|keys|] == keys;
    ghost var unitWarnings := warnings;
    if comparisons == [] {
      warnings := warnings + [NO_METRICS];
    }
    assert warnings == unitWarnings + When(comparisons == [], NO_METRICS);
  }

  lemma ComparedNone(before: map<Key, Quantity>, after: map<Key, Quantity>, warning: real, failure: real)
    ensures Compared([], before, after, warning, failure) == [] && UnitWarnings([], before, after) == []
  {
  }

  /** A threshold as the caller gives it; NaN and the infinities are not finite. */
  datatype Threshold = Finite(percent: real) | NotFinite

  method CompareRun(repository: SQLiteRepository, name: string, runId: RunId, warningThreshold: Threshold, failureThreshold: Threshold)
    returns (r: Result<ComparisonReport, ComparisonError>)
    requires repository.Valid()
    ensures r == if warningThreshold.Finite? && failureThreshold.Finite?
                 then CompareAcross(repository.catalogue, repository.catalogue, repository.catalogue, name, runId,
                                    warningThreshold.percent, failureThreshold.percent)
                 else Err(ThresholdsRejected)
  {
    hide Numeric, WellFormedEvidence, DistinctSnapshots, Normalise, MentionsTemperature, AnyOutcome, ByPath;
    if warningThreshold.NotFinite? || failureThreshold.NotFinite? {
      return Err(ThresholdsRejected);
    }
    var warning, failure := warningThreshold.percent, failureThreshold.percent;
    if warning < 0.0 || failure <= warning {
      return Err(ThresholdsRejected);
    }
    var looked := repository.GetBaseline(name);
    if looked.Err? {
      return Err(Store(looked.error));
    }
    var baseline := looked.value;
    var source := repository.GetRun(baseline.sourceRunId);
    if source.Err? {
      return Err(Store(RunNotFound));
    }
    var current := repository.GetRun(runId);
    if current.Err? {
      return Err(Store(current.error));
    }
    var before, now := source.value.execution, current.value.execution;
    var platformCompatible := baseline.platformFingerprint == now.run.platformFingerprint;
    var planCompatible := baseline.planHash == now.run.planHash;
    var warnings: seq<string> := [];
    if baseline.sourceRunId == runId {
      warnings := warnings + [SELF_COMPARISON];
    }
    if before.platform.powerPlanName != now.platform.powerPlanName {
      warnings := warnings + [POWER_PLANS];
    }
    if !platformCompatible {
      warnings := warnings + [PLATFORMS];
    }
    if !planCompatible {
      warnings := warnings + [PLANS];
    }
    assert warnings == IdentityWarnings(baseline, before, now, runId);
    var comparisons: seq<MetricComparison>, raised: seq<string> := [], [];
    if platformCompatible && planCompatible {
      comparisons, raised := CompareMetrics(before, now, warning, failure);
      warnings := warnings + raised;
    }
    assert warnings == IdentityWarnings(baseline, before, now, runId) + raised;
    if MentionsTemperature(now.run.limitations) {
      warnings := warnings + [TEMPERATURE];
    }
    assert warnings == IdentityWarnings(baseline, before, now, runId) + raised + When(MentionsTemperature(now.run.limitations), TEMPERATURE);
    var overallStatus := Pass;
    if now.run.overallStatus == Error {
      overallStatus := Error;
    } else if now.run.overallStatus == Fail {
      overallStatus := Fail;
    } else if !platformCompatible || !planCompatible {
      overallStatus := Warn;
    } else if AnyOutcome(comparisons, {MuchWorse}) {
      overallStatus := Fail;
    } else if now.run.overallStatus == Warn || warnings != [] || AnyOutcome(comparisons, {Worse, Unavailable}) {
      overallStatus := Warn;
    }
    r := Ok(ComparisonReport(baseline, runId, platformCompatible, planCompatible, overallStatus, warning, failure, comparisons, warnings));
  }
}
