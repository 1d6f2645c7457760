/** What the columns of a saved run hold, told from the execution. */
module Columns {
  import opened Models
  import opened Schema
  import opened Catalogues
  import opened Repository

  /** The row of the run and the row of its platform. */
  lemma RunColumns(c: Catalogue, e: RunExecution, records: seq<ArtifactRecord>, capturedAt: int, savedAt: int)
    requires WellFormed(c) && Admissible(c, e, records)
    ensures var saved := Saved(c, e, records, capturedAt, savedAt);
            WellFormed(saved) &&
            var db, id, run := Normalise(saved), e.run.runId, e.run;
            && id in db.runs
            && var row := db.runs[id];
               && row.planName == run.planName && row.planHash == run.planHash && row.toolVersion == run.toolVersion
               && row.platformFingerprint == run.platformFingerprint
               && row.startedAt == run.startedAt && row.endedAt == run.endedAt
               && row.overallStatus == run.overallStatus && row.result == run && row.createdAt == savedAt
               && row.platformSnapshotId in db.platforms
               && db.platforms[row.platformSnapshotId] == PlatformRow(e.platform.fingerprint, e.platform, capturedAt)
  {
    SavedTables(c, e, records, capturedAt, savedAt);
    hide WellFormed, Normalise, Admissible, ArtifactMap, Canonical;
    SavedRun(c, e, records, capturedAt, savedAt);
    NormaliseRunRow(Saved(c, e, records, capturedAt, savedAt), e.run.runId);
  }

  lemma SavedRun(c: Catalogue, e: RunExecution, records: seq<ArtifactRecord>, capturedAt: int, savedAt: int)
    ensures var saved := Saved(c, e, records, capturedAt, savedAt);
            && e.run.runId in saved.runs
            && var ev := saved.runs[e.run.runId];
               && ev.execution.run == e.run && ev.execution.platform == e.platform
               && ev.capturedAt == capturedAt && ev.createdAt == savedAt && ev.artifacts == ArtifactMap(records)
               && (forall t :: t in ev.execution.telemetry <==> t in TestIds(e.run.testResults))
               && forall t :: t in ev.execution.telemetry ==> ev.execution.telemetry[t] == if t in e.telemetry then e.telemetry[t] else []
  {
  }

  /** The rows of one result. */
  lemma ResultColumns(results: seq<TestResult>, k: nat)
    requires UniqueIds(results) && k < |results|
    ensures var r := results[k];
            && r.testId in TestRows(results)
            && TestRows(results)[r.testId] ==
               TestRow(r.status, r.startedAt, r.endedAt, r.failureReason, r.exceptionSummary, r.injected, r)
            && (forall name :: name in r.measured ==>
                  && (r.testId, name) in MetricRows(results)
                  && var m := MetricRows(results)[(r.testId, name)];
                     m.value == r.measured[name].value && m.unit == r.measured[name].unit && m.source == r.measured[name].source)
            && (forall i: nat :: i < |r.requirements| ==>
                  && (r.testId, i) in EvaluationRows(results)
                  && var row, evaluation := EvaluationRows(results)[(r.testId, i)], r.requirements[i];
                     && row.metric == evaluation.requirement.metric && row.op == evaluation.requirement.op
                     && row.expected == evaluation.requirement.expected && row.unit == evaluation.requirement.unit
                     && row.actual == evaluation.actual && row.passed == evaluation.passed)
  {
    ByIdFinds(results, k);
    var r := results[k];
    forall name | name in r.measured
      ensures (r.testId, name) in MetricRows(results) && MetricRows(results)[(r.testId, name)] == MetricRowOf(r.measured[name])
    {
      FlattenHas(ById(results), MeasuredRows, (r.testId, name));
    }
    forall i: nat | i < |r.requirements|
      ensures (r.testId, i) in EvaluationRows(results) && EvaluationRows(results)[(r.testId, i)] == EvaluationRowOf(r.requirements[i])
    {
      FlattenHas(ById(results), RequirementRows, (r.testId, i));
    }
    hide Flatten, MeasuredRows, RequirementRows, UniqueIds;
  }

  /** Every row of a result belongs to a result: nothing is stored that the execution does not hold. */
  lemma OnlyResultRows(results: seq<TestResult>, test: TestId, name: string, i: nat)
    requires UniqueIds(results)
    ensures test in TestRows(results) ==> exists k :: 0 <= k < |results| && results[k].testId == test
    ensures (test, name) in MetricRows(results) ==> exists k :: 0 <= k < |results| && results[k].testId == test && name in results[k].measured
    ensures (test, i) in EvaluationRows(results) ==> exists k :: 0 <= k < |results| && results[k].testId == test && i < |results[k].requirements|
  {
    FlattenHas(ById(results), MeasuredRows, (test, name));
    FlattenHas(ById(results), RequirementRows, (test, i));
    hide Flatten;
    if test in ById(results) {
      var k :| 0 <= k < |results| && results[k].testId == test;
      ByIdFinds(results, k);
    }
  }

  /** The rows of the samples of one test. */
  lemma SampleColumns(telemetry: map<TestId, seq<TelemetrySample>>, test: TestId, i: nat)
    ensures (test, i) in SampleRows(telemetry) <==> test in telemetry && i < |telemetry[test]|
    ensures (test, i) in SampleRows(telemetry) ==>
              var row, sample := SampleRows(telemetry)[(test, i)], telemetry[test][i];
              row.elapsedSeconds == sample.elapsedSeconds && row.timestamp == sample.timestamp && row.sample == sample
  {
    FlattenHas(telemetry, SampleListRows, (test, i));
    hide Flatten;
  }

  /** The tables of a saved run hold those rows under its identifier, and no others. */
  lemma SavedColumns(c: Catalogue, e: RunExecution, records: seq<ArtifactRecord>, capturedAt: int, savedAt: int)
    requires WellFormed(c) && Admissible(c, e, records)
    ensures var saved := Saved(c, e, records, capturedAt, savedAt);
            WellFormed(saved) &&
            var db, id, results := Normalise(saved), e.run.runId, e.run.testResults;
            && Belong(db.tests, id, TestRows(results))
            && Belong(db.metrics, id, MetricRows(results))
            && Belong(db.evaluations, id, EvaluationRows(results))
            && Belong(db.samples, id, SampleRows(saved.runs[id].execution.telemetry))
            && Belong(db.artifacts, id, ArtifactMap(records))
  {
    SavedTables(c, e, records, capturedAt, savedAt);
    SavedRun(c, e, records, capturedAt, savedAt);
    hide WellFormed, Admissible, Saved, TestRows, MetricRows, EvaluationRows, SampleRows;
    var runs, id := Saved(c, e, records, capturedAt, savedAt).runs, e.run.runId;
    FlattenBelongs(runs, id, TestsOf);
    FlattenBelongs(runs, id, MetricsOf);
    FlattenBelongs(runs, id, EvaluationsOf);
    FlattenBelongs(runs, id, SamplesOf);
    FlattenBelongs(runs, id, ArtifactsOf);
    hide Flatten, Belong;
  }

  ghost predicate Belong<K(!new), V>(table: ChildTable<K, V>, id: RunId, rows: map<K, V>) {
    && (forall k :: (id, k) in table <==> k in rows)
    && (forall k :: k in rows ==> (id, k) in table && table[(id, k)] == rows[k])
  }

  lemma FlattenBelongs<T, K(!new), V>(owners: map<string, T>, id: string, rows: T -> map<K, V>)
    requires id in owners
    ensures Belong(Flatten(owners, rows), id, rows(owners[id]))
  {
    forall k {
      FlattenHas(owners, rows, (id, k));
    }
    hide Flatten;
  }
}
