/** Coherence of the regression comparison: the scale of outcomes, self-comparison, what a passing
    report certifies, and reports over time. */
module ComparisonLaws {
  import opened Models
  import opened Ordering
  import opened Schema
  import opened Catalogues
  import opened Histories
  import opened Repository
  import opened Comparison

  // ---- Outcomes ----

  /** How far the metric moved for the worse. */
  function Adverse(baseline: real, current: real, direction: MetricDirection): real {
    if direction == LowerIsBetter then current - baseline else baseline - current
  }

  lemma Ratio(x: real, m: real, f: real)
    requires m > 0.0
    ensures x / m * 100.0 >= f <==> x * 100.0 >= f * m
    ensures -(x / m * 100.0) >= f <==> -x * 100.0 >= f * m
    ensures x / m * 100.0 == 0.0 <==> x == 0.0
    ensures -(x / m) == -x / m
  {
    var q := x / m;
    assert q * m == x;
    assert x * 100.0 - f * m == (q * 100.0 - f) * m;
    assert -x * 100.0 - f * m == (-q * 100.0 - f) * m;
    Sign(q * 100.0 - f, m);
    Sign(-q * 100.0 - f, m);
    Sign(q, m);
    Sign(-q, m);
  }

  lemma Sign(a: real, m: real)
    requires m > 0.0
    ensures a * m >= 0.0 <==> a >= 0.0
  {
    if a < 0.0 {
      assert a * m < 0.0;
    }
  }

  /** The outcome without division: the adverse move against the thresholds, both relative to the
      size of the baseline. */
  lemma OutcomeMeans(b: real, c: real, direction: MetricDirection, w: real, f: real)
    requires AdmissibleThresholds(w, f) && b != 0.0
    ensures var outcome := OutcomeOf(b, c, direction, w, f).1;
            var d := Adverse(b, c, direction);
            var m := Magnitude(b);
            && outcome != Unavailable
            && (outcome == MuchWorse <==> 100.0 * d >= f * m)
            && (outcome == Worse <==> d > 0.0 && 100.0 * d >= w * m && 100.0 * d < f * m)
            && (outcome == Improved <==> d < 0.0 && -100.0 * d >= w * m)
  {
    var d, m := c - b, Magnitude(b);
    Ratio(d, m, f);
    Ratio(d, m, w);
    Positive(f, m);
    NonNegative(w, m);
    var p := d / m * 100.0;
    assert p == PercentDifference(b, c);
    Sign(d / m, m);
    Sign(-(d / m), m);
    assert d / m * m == d;
    assert -(d / m) * m == -d;
    hide PercentDifference, Magnitude;
  }

  lemma Positive(x: real, y: real)
    requires x > 0.0 && y > 0.0
    ensures x * y > 0.0
  {
  }

  lemma NonNegative(x: real, y: real)
    requires x >= 0.0 && y > 0.0
    ensures x * y >= 0.0
  {
  }

  /** Outcomes from good to bad. */
  function Rank(outcome: ComparisonOutcome): nat {
    match outcome
    case Improved => 0
    case Unchanged => 1
    case Worse => 2
    case MuchWorse => 3
    case Unavailable => 4
  }

  /** A value that moved further for the worse never gets a better outcome. */
  lemma OutcomeIsMonotone(b: real, better: real, worse: real, direction: MetricDirection, w: real, f: real)
    requires AdmissibleThresholds(w, f) && b != 0.0
    requires Adverse(b, better, direction) <= Adverse(b, worse, direction)
    ensures Rank(OutcomeOf(b, better, direction, w, f).1) <= Rank(OutcomeOf(b, worse, direction, w, f).1)
  {
    OutcomeMeans(b, better, direction, w, f);
    OutcomeMeans(b, worse, direction, w, f);
    Positive(f, Magnitude(b));
    NonNegative(w, Magnitude(b));
    hide OutcomeOf, Magnitude;
  }

  function Swapped(direction: MetricDirection): MetricDirection {
    if direction == LowerIsBetter then HigherIsBetter else LowerIsBetter
  }

  /** Swapping the direction mirrors the outcome, whether the current value is reflected at the
      baseline or both values are negated; the percentage changes sign. */
  lemma OutcomeIsMirrored(b: real, c: real, direction: MetricDirection, w: real, f: real)
    requires b != 0.0
    ensures var here := OutcomeOf(b, c, direction, w, f);
            var reflected := OutcomeOf(b, 2.0 * b - c, Swapped(direction), w, f);
            var negated := OutcomeOf(-b, -c, Swapped(direction), w, f);
            && here.1 == reflected.1 == negated.1
            && here.0.Some? && reflected.0 == negated.0 == Some(-here.0.value)
  {
    Ratio(c - b, Magnitude(b), 0.0);
    assert (2.0 * b - c) - b == -(c - b) && -c - -b == -(c - b);
    assert Magnitude(-b) == Magnitude(b);
    hide Magnitude, Classify;
  }

  /** A change of unit, applied to both values, changes neither the outcome nor the percentage. */
  lemma OutcomeIsScaleFree(b: real, c: real, k: real, direction: MetricDirection, w: real, f: real)
    requires k > 0.0
    ensures OutcomeOf(k * b, k * c, direction, w, f) == OutcomeOf(b, c, direction, w, f)
  {
    ZeroProduct(k, b);
    ZeroProduct(k, c);
    if b != 0.0 {
      assert Magnitude(k * b) == k * Magnitude(b);
      assert k * c - k * b == k * (c - b);
      Cancel(k, c - b, Magnitude(b));
      assert PercentDifference(k * b, k * c) == PercentDifference(b, c);
    }
    hide Classify, PercentDifference;
  }

  lemma ZeroProduct(k: real, x: real)
    requires k > 0.0
    ensures k * x == 0.0 <==> x == 0.0
    ensures k * x < 0.0 <==> x < 0.0
  {
  }

  lemma Cancel(k: real, x: real, m: real)
    requires k > 0.0 && m > 0.0
    ensures k * m > 0.0 && (k * x) / (k * m) == x / m
  {
    var q := x / m;
    assert k * x == k * (q * m) == q * (k * m);
    Positive(k, m);
    Divides(q, k * m);
  }

  lemma Divides(q: real, n: real)
    requires n > 0.0
    ensures q * n / n == q
  {
  }

  /** Wider thresholds report less: whatever they still call worse or improved, narrower ones do too. */
  lemma WiderThresholdsReportLess(b: real, c: real, direction: MetricDirection, w: real, f: real, wider: real, higher: real)
    requires AdmissibleThresholds(w, f) && AdmissibleThresholds(wider, higher)
    requires w <= wider && f <= higher
    ensures var narrow, wide := OutcomeOf(b, c, direction, w, f).1, OutcomeOf(b, c, direction, wider, higher).1;
            && (wide == MuchWorse ==> narrow == MuchWorse)
            && (wide in {Worse, MuchWorse} ==> narrow in {Worse, MuchWorse})
            && (wide == Improved ==> narrow == Improved)
            && (wide == Unavailable <==> narrow == Unavailable)
  {
  }

  // ---- Metrics ----

  /** With unique test identifiers, the metrics compared are exactly the registered numeric
      measurements of the run. */
  lemma {:induction false} MetricsAreMeasurements(results: seq<TestResult>, key: Key)
    requires UniqueIds(results)
    ensures key in NumericMetrics(results) <==> exists i :: 0 <= i < |results| && results[i].testId == key.0 && IsRegistered(results[i], key.1)
    ensures forall i :: 0 <= i < |results| && results[i].testId == key.0 && IsRegistered(results[i], key.1) ==>
              NumericMetrics(results)[key] == Quantity(ToFloat(results[i].measured[key.1].value), results[i].measured[key.1].unit)
  {
    if results != [] {
      var n := |results| - 1;
      MetricsAreMeasurements(results[..n], key);
      RegisteredHas(results[n], key);
      assert forall i :: 0 <= i < n ==> results[..n][i] == results[i];
      hide IsRegistered, Registered, ToFloat;
      if exists i :: 0 <= i < n && results[i].testId == key.0 && IsRegistered(results[i], key.1) {
        var i :| 0 <= i < n && results[i].testId == key.0 && IsRegistered(results[i], key.1);
        assert results[..n][i].testId == key.0;
      }
    }
  }

  lemma RegisteredHas(r: TestResult, key: Key)
    ensures key in Registered(r) <==> r.testId == key.0 && IsRegistered(r, key.1)
    ensures key in Registered(r) ==> Registered(r)[key] == Quantity(ToFloat(r.measured[key.1].value), r.measured[key.1].unit)
  {
    hide POLICIES;
  }

  function KeyOf(m: MetricComparison): Key {
    (m.testId, m.metric)
  }

  /** The comparisons are exactly the keys both sides measured in the same unit, each once, in the
      order of the keys. */
  lemma {:induction false} ComparedIsComplete(keys: seq<Key>, before: map<Key, Quantity>, after: map<Key, Quantity>, w: real, f: real)
    requires Shared(keys, before, after) && StrictlyAscending(keys, TextPairLe)
    ensures var compared := Compared(keys, before, after, w, f);
            && (forall m :: m in compared ==>
                  var k := KeyOf(m);
                  k in keys && before[k].unit == after[k].unit && m == Compare(k, before[k], after[k], w, f))
            && (forall k :: k in keys && before[k].unit == after[k].unit ==> Compare(k, before[k], after[k], w, f) in compared)
            && forall i, j :: 0 <= i < j < |compared| ==> TextPairLe(KeyOf(compared[i]), KeyOf(compared[j])) && KeyOf(compared[i]) != KeyOf(compared[j])
  {
    hide OutcomeOf, POLICIES, TextPairLe;
    if keys != [] {
      var n := |keys| - 1;
      ComparedIsComplete(keys[..n], before, after, w, f);
      assert forall k :: k in keys <==> k in keys[..n] || k == keys[n];
      assert forall k :: k in keys[..n] ==> TextPairLe(k, keys[n]) && k != keys[n];
    }
  }

  // ---- Reports ----

  /** Comparing two runs with the same measurements finds nothing changed and nothing incomparable. */
  lemma {:induction false} SameIsUnchanged(keys: seq<Key>, metrics: map<Key, Quantity>, w: real, f: real)
    requires Shared(keys, metrics, metrics)
    requires AdmissibleThresholds(w, f)
    ensures UnitWarnings(keys, metrics, metrics) == []
    ensures |Compared(keys, metrics, metrics, w, f)| == |keys|
    ensures forall i :: 0 <= i < |keys| ==>
              var m := Compared(keys, metrics, metrics, w, f)[i];
              KeyOf(m) == keys[i] && m.outcome == Unchanged && m.absoluteDifference == 0.0 && m.currentValue == m.baselineValue
  {
    hide POLICIES;
    if keys != [] {
      var n := |keys| - 1;
      SameIsUnchanged(keys[..n], metrics, w, f);
      SameOutcome(metrics[keys[n]].value, POLICIES[keys[n].1], w, f);
      hide OutcomeOf;
    }
  }

  lemma SameOutcome(x: real, direction: MetricDirection, w: real, f: real)
    ensures OutcomeOf(x, x, direction, w, f).1 == Unchanged
  {
    if x != 0.0 {
      Ratio(0.0, Magnitude(x), 0.0);
    }
  }

  /** Comparing a baseline with its own source: every metric is unchanged, the report says that it is a
      self-comparison, and it is a warning unless the source itself failed or errored. */
  lemma SelfComparisonWarns(c: Catalogue, name: string, w: real, f: real)
    requires WellFormed(c) && name in c.baselines && AdmissibleThresholds(w, f)
    ensures var row := c.baselines[name];
            var source := c.runs[row.sourceRunId].execution;
            var r := CompareAcross(c, c, c, name, row.sourceRunId, w, f);
            && r.Ok?
            && r.value.platformCompatible && r.value.planCompatible
            && SELF_COMPARISON in r.value.warnings
            && |r.value.comparisons| == |NumericMetrics(source.run.testResults)|
            && (forall m :: m in r.value.comparisons ==> m.outcome == Unchanged && m.absoluteDifference == 0.0)
            && r.value.overallStatus == if KnownGood(source) then Warn else source.run.overallStatus
  {
    hide WellFormedEvidence, DistinctSnapshots, OutcomeOf, POLICIES, NumericMetrics, MentionsTemperature, Compared, UnitWarnings;
    var row := c.baselines[name];
    var source := c.runs[row.sourceRunId].execution;
    var metrics := NumericMetrics(source.run.testResults);
    var keys := CommonKeys(metrics, metrics);
    SharedKeys(source.run.testResults, source.run.testResults);
    SameIsUnchanged(keys, metrics, w, f);
    CommonWithSelf(metrics);
    var report := Report(BaselineOf(c, name), source, source, row.sourceRunId, w, f);
    assert report.warnings[0] == SELF_COMPARISON;
    assert !AnyOutcome(report.comparisons, {MuchWorse});
  }

  lemma CommonWithSelf(metrics: map<Key, Quantity>)
    ensures |CommonKeys(metrics, metrics)| == |metrics|
  {
    var keys := CommonKeys(metrics, metrics);
    AscendingLength(keys, metrics.Keys);
  }

  lemma {:induction false} AscendingLength(keys: seq<Key>, s: set<Key>)
    requires StrictlyAscending(keys, TextPairLe)
    requires forall k :: k in keys <==> k in s
    ensures |keys| == |s|
  {
    hide TextPairLe;
    if keys != [] {
      var n := |keys| - 1;
      assert forall k :: k in keys <==> k in keys[..n] || k == keys[n];
      AscendingLength(keys[..n], s - {keys[n]});
    } else {
      assert s == {};
    }
  }

  /** What a passing report certifies, exactly: another run, on the same platform under the same plan
      and power plan, itself not worse than passed or skipped, with temperature evidence, and with at
      least one metric compared, none of them worse, unavailable or in another unit. */
  lemma PassCertifies(baseline: BaselineRecord, source: RunExecution, current: RunExecution, runId: RunId, w: real, f: real)
    ensures var r := Report(baseline, source, current, runId, w, f);
            r.overallStatus == Pass <==>
              && current.run.overallStatus in {Pass, Skip}
              && baseline.sourceRunId != runId
              && source.platform.powerPlanName == current.platform.powerPlanName
              && baseline.platformFingerprint == current.run.platformFingerprint
              && baseline.planHash == current.run.planHash
              && !MentionsTemperature(current.run.limitations)
              && UnitsAgree(source, current)
              && r.comparisons != []
              && forall m :: m in r.comparisons ==> m.outcome in {Improved, Unchanged}
  {
    var r := Report(baseline, source, current, runId, w, f);
    if Compatible(baseline, current) {
      CleanWarnings(baseline, source, current, runId, w, f);
      GoodOutcomes(r.comparisons);
    }
    hide IdentityWarnings, MentionsTemperature, UnitsAgree, Numeric, AnyOutcome;
  }

  lemma GoodOutcomes(comparisons: seq<MetricComparison>)
    ensures (forall m :: m in comparisons ==> m.outcome in {Improved, Unchanged}) <==>
            !AnyOutcome(comparisons, {MuchWorse}) && !AnyOutcome(comparisons, {Worse, Unavailable})
  {
    if !AnyOutcome(comparisons, {MuchWorse}) && !AnyOutcome(comparisons, {Worse, Unavailable}) {
      forall m | m in comparisons
        ensures m.outcome in {Improved, Unchanged}
      {
        var i :| 0 <= i < |comparisons| && comparisons[i] == m;
        assert m.outcome != MuchWorse && m.outcome != Worse && m.outcome != Unavailable;
      }
    }
    if forall m :: m in comparisons ==> m.outcome in {Improved, Unchanged} {
      assert forall i :: 0 <= i < |comparisons| ==> comparisons[i] in comparisons;
    }
  }

  lemma CleanWarnings(baseline: BaselineRecord, source: RunExecution, current: RunExecution, runId: RunId, w: real, f: real)
    requires Compatible(baseline, current)
    ensures var r := Report(baseline, source, current, runId, w, f);
            r.warnings == [] <==>
              && baseline.sourceRunId != runId
              && source.platform.powerPlanName == current.platform.powerPlanName
              && !MentionsTemperature(current.run.limitations)
              && UnitsAgree(source, current)
              && r.comparisons != []
  {
    hide MentionsTemperature, NumericMetrics, CommonKeys, Compared, UnitWarnings, OverallStatus, UnitsAgree;
    NoUnitWarnings(source, current);
  }

  /** Every metric both runs measured has the same unit in both. */
  ghost predicate UnitsAgree(source: RunExecution, current: RunExecution) {
    var before, after := NumericMetrics(source.run.testResults), NumericMetrics(current.run.testResults);
    forall k :: k in before && k in after ==> before[k].unit == after[k].unit
  }

  lemma NoUnitWarnings(source: RunExecution, current: RunExecution)
    ensures var before, after := NumericMetrics(source.run.testResults), NumericMetrics(current.run.testResults);
            var keys := CommonKeys(before, after);
            Shared(keys, before, after) && (UnitWarnings(keys, before, after) == [] <==> UnitsAgree(source, current))
  {
    hide NumericMetrics, POLICIES;
    var before, after := NumericMetrics(source.run.testResults), NumericMetrics(current.run.testResults);
    SharedKeys(source.run.testResults, current.run.testResults);
    UnitWarningsEmpty(CommonKeys(before, after), before, after);
  }

  lemma {:induction false} UnitWarningsEmpty(keys: seq<Key>, before: map<Key, Quantity>, after: map<Key, Quantity>)
    requires Shared(keys, before, after)
    ensures UnitWarnings(keys, before, after) == [] <==> forall k :: k in keys ==> before[k].unit == after[k].unit
  {
    hide POLICIES;
    if keys != [] {
      var n := |keys| - 1;
      UnitWarningsEmpty(keys[..n], before, after);
      assert forall k :: k in keys <==> k in keys[..n] || k == keys[n];
    }
  }

  // ---- Over time ----

  /** Whatever other processes commit between the three reads, a comparison fails only for thresholds
      out of order, an unknown baseline or an unknown current run: the source is never lost. Its
      identity checks compare with that source. */
  lemma ComparisonNeverLosesItsSource(first: Catalogue, afterLookup: seq<Transaction>, afterSource: seq<Transaction>, name: string, runId: RunId, w: real, f: real)
    requires WellFormed(first)
    ensures var second := After(first, afterLookup);
            var third := After(second, afterSource);
            var r := CompareAcross(first, second, third, name, runId, w, f);
            && (r.Ok? <==> AdmissibleThresholds(w, f) && name in first.baselines && runId in third.runs)
            && (r.Ok? ==>
                  var source := first.runs[first.baselines[name].sourceRunId].execution;
                  r.value == Report(BaselineOf(first, name), source, third.runs[runId].execution, runId, w, f))
  {
    hide Report;
    if name in first.baselines {
      CompareFindsSource(first, afterLookup, name);
    }
  }

  /** A comparison is reproducible: as long as the run is still the one that was stored, repeating it
      after any history gives the same report. */
  lemma ComparisonIsReproducible(c: Catalogue, history: seq<Transaction>, name: string, runId: RunId, w: real, f: real)
    requires WellFormed(c) && name in c.baselines
    requires DoesNotSave(history, runId) && runId in After(c, history).runs
    ensures var later := After(c, history);
            && name in later.baselines && later.baselines[name].sourceRunId in later.runs
            && CompareAcross(c, c, c, name, runId, w, f) == CompareAcross(later, later, later, name, runId, w, f)
  {
    hide Report, WellFormedEvidence, DistinctSnapshots;
    BaselinePermanence(c, history, name);
    UnsavedRunIsUnchanged(c, history, runId);
    hide After;
    assert View(c, name) == View(After(c, history), name);
  }
}
