/** What the normalised tables stand for: a map from run identifier to stored evidence, the named
    baselines, and the next snapshot number. `Normalise` flattens a catalogue into the tables. */
module Catalogues {
  import opened Models
  import opened Schema

  datatype ArtifactRecord = ArtifactRecord(kind: string, relativePath: string, sha256: Bytes, sizeBytes: nat)

  datatype Evidence = Evidence(
    execution: RunExecution,
    artifacts: map<string, ArtifactRow>,
    snapshotId: nat,
    capturedAt: int,
    createdAt: int)

  datatype Catalogue = Catalogue(
    runs: map<RunId, Evidence>,
    baselines: map<string, BaselineRow>,
    nextSnapshotId: nat)

  const EMPTY_CATALOGUE := Catalogue(map[], map[], 1)

  ghost predicate WellFormedEvidence(id: RunId, ev: Evidence) {
    && ev.execution.run.runId == id
    && UniqueIds(ev.execution.run.testResults)
    && TelemetryMatchesResults(ev.execution)
  }

  ghost predicate DistinctSnapshots(runs: map<RunId, Evidence>) {
    forall id, other :: id in runs && other in runs && id != other ==> runs[id].snapshotId != runs[other].snapshotId
  }

  ghost predicate WellFormed(c: Catalogue) {
    && (forall id :: id in c.runs ==> WellFormedEvidence(id, c.runs[id]) && c.runs[id].snapshotId < c.nextSnapshotId)
    && DistinctSnapshots(c.runs)
    && (forall name :: name in c.baselines ==> c.baselines[name].sourceRunId in c.runs)
  }

  // ---- The rows of one run ----

  /** Results by identifier; the last one wins when an identifier repeats. */
  function ById(results: seq<TestResult>): (m: map<TestId, TestResult>)
    ensures m.Keys == TestIds(results)
  {
    if results == [] then map[]
    else
      var n := |results| - 1;
      assert TestIds(results) == TestIds(results[..n]) + {results[n].testId} by {
        forall t | t in TestIds(results)
          ensures t in TestIds(results[..n]) + {results[n].testId}
        {
          var i :| 0 <= i < |results| && results[i].testId == t;
          assert i < n ==> results[..n][i].testId == t;
        }
        forall t | t in TestIds(results[..n])
          ensures t in TestIds(results)
        {
          var i :| 0 <= i < n && results[..n][i].testId == t;
          assert results[i].testId == t;
        }
      }
      ById(results[..n])[results[n].testId := results[n]]
  }

  lemma {:induction false} ByIdFinds(results: seq<TestResult>, k: nat)
    requires UniqueIds(results)
    requires k < |results|
    ensures results[k].testId in ById(results)
    ensures ById(results)[results[k].testId] == results[k]
  {
    var n := |results| - 1;
    if k < n {
      ByIdFinds(results[..n], k);
    }
  }

  function TestRowOf(r: TestResult): TestRow {
    TestRow(r.status, r.startedAt, r.endedAt, r.failureReason, r.exceptionSummary, r.injected, r)
  }

  function MetricRowOf(m: MetricValue): MetricRow {
    MetricRow(m.value, m.unit, m.source)
  }

  function EvaluationRowOf(e: RequirementEvaluation): EvaluationRow {
    EvaluationRow(e.requirement.metric, e.requirement.op, e.requirement.expected, e.actual, e.requirement.unit, e.passed)
  }

  function SampleRowOf(s: TelemetrySample): SampleRow {
    SampleRow(s.elapsedSeconds, s.timestamp, s)
  }

  function MeasuredRows(r: TestResult): map<string, MetricRow> {
    map name | name in r.measured :: MetricRowOf(r.measured[name])
  }

  function RequirementRows(r: TestResult): map<nat, EvaluationRow> {
    map i: nat | 0 <= i < |r.requirements| :: EvaluationRowOf(r.requirements[i])
  }

  function SampleListRows(samples: seq<TelemetrySample>): map<nat, SampleRow> {
    map i: nat | 0 <= i < |samples| :: SampleRowOf(samples[i])
  }

  function TestRows(results: seq<TestResult>): map<TestId, TestRow> {
    var m := ById(results);
    map t | t in m :: TestRowOf(m[t])
  }

  function MetricRows(results: seq<TestResult>): map<(TestId, string), MetricRow> {
    Flatten(ById(results), MeasuredRows)
  }

  function EvaluationRows(results: seq<TestResult>): map<(TestId, nat), EvaluationRow> {
    Flatten(ById(results), RequirementRows)
  }

  function SampleRows(telemetry: map<TestId, seq<TelemetrySample>>): map<(TestId, nat), SampleRow> {
    Flatten(telemetry, SampleListRows)
  }

  function RunRowOf(ev: Evidence): RunRow {
    var run := ev.execution.run;
    RunRow(run.planName, run.planHash, run.toolVersion, ev.snapshotId, run.platformFingerprint,
           run.startedAt, run.endedAt, run.overallStatus, run, ev.createdAt)
  }

  function PlatformRowOf(ev: Evidence): PlatformRow {
    PlatformRow(ev.execution.platform.fingerprint, ev.execution.platform, ev.capturedAt)
  }

  function TestsOf(ev: Evidence): map<TestId, TestRow> { TestRows(ev.execution.run.testResults) }
  function MetricsOf(ev: Evidence): map<(TestId, string), MetricRow> { MetricRows(ev.execution.run.testResults) }
  function EvaluationsOf(ev: Evidence): map<(TestId, nat), EvaluationRow> { EvaluationRows(ev.execution.run.testResults) }
  function SamplesOf(ev: Evidence): map<(TestId, nat), SampleRow> { SampleRows(ev.execution.telemetry) }
  function ArtifactsOf(ev: Evidence): map<string, ArtifactRow> { ev.artifacts }

  // ---- Flattening ----

  /** The child rows of one run, keyed by that run. */
  function Prefixed<K(==), V>(id: RunId, rows: map<K, V>): ChildTable<K, V> {
    map k | k in rows :: (id, k) := rows[k]
  }

  /** The child rows of every owner, keyed by that owner. */
  function Flatten<T, K(==), V>(owners: map<string, T>, rows: T -> map<K, V>): ChildTable<K, V> {
    map id, k | id in owners && k in rows(owners[id]) :: (id, k) := rows(owners[id])[k]
  }

  function Without<K(==), V>(table: ChildTable<K, V>, id: RunId): ChildTable<K, V> {
    map key | key in table && key.0 != id :: table[key]
  }

  function RunRows(runs: map<RunId, Evidence>): (rows: map<RunId, RunRow>)
    ensures rows.Keys == runs.Keys
  {
    map id | id in runs :: RunRowOf(runs[id])
  }

  ghost function PlatformsOf(runs: map<RunId, Evidence>): map<nat, PlatformRow>
    requires DistinctSnapshots(runs)
  {
    map id | id in runs :: runs[id].snapshotId := PlatformRowOf(runs[id])
  }

  lemma PlatformsHas(runs: map<RunId, Evidence>, s: nat)
    requires DistinctSnapshots(runs)
    ensures s in PlatformsOf(runs) <==> exists id :: id in runs && runs[id].snapshotId == s
    ensures forall id :: id in runs && runs[id].snapshotId == s ==> PlatformsOf(runs)[s] == PlatformRowOf(runs[id])
  {
  }

  ghost function Normalise(c: Catalogue): Database
    requires DistinctSnapshots(c.runs)
  {
    Database(
      PlatformsOf(c.runs),
      c.nextSnapshotId,
      RunRows(c.runs),
      Flatten(c.runs, TestsOf),
      Flatten(c.runs, MetricsOf),
      Flatten(c.runs, EvaluationsOf),
      Flatten(c.runs, SamplesOf),
      Flatten(c.runs, ArtifactsOf),
      c.baselines)
  }

  lemma FlattenHas<T, K, V>(runs: map<string, T>, rows: T -> map<K, V>, key: (RunId, K))
    ensures key in Flatten(runs, rows) <==> key.0 in runs && key.1 in rows(runs[key.0])
    ensures key in Flatten(runs, rows) ==> Flatten(runs, rows)[key] == rows(runs[key.0])[key.1]
  {
    assert key == (key.0, key.1);
  }

  lemma PrefixedHas<K, V>(id: RunId, rows: map<K, V>, key: (RunId, K))
    ensures key in Prefixed(id, rows) <==> key.0 == id && key.1 in rows
    ensures key in Prefixed(id, rows) ==> Prefixed(id, rows)[key] == rows[key.1]
  {
    assert key == (key.0, key.1);
  }

  lemma FlattenAddAt<T, K, V>(runs: map<string, T>, id: string, ev: T, rows: T -> map<K, V>, key: (RunId, K))
    requires id !in runs
    ensures key in Flatten(runs[id := ev], rows) <==> key in Flatten(runs, rows) + Prefixed(id, rows(ev))
    ensures key in Flatten(runs[id := ev], rows) ==>
              Flatten(runs[id := ev], rows)[key] == (Flatten(runs, rows) + Prefixed(id, rows(ev)))[key]
  {
    FlattenHas(runs[id := ev], rows, key);
    FlattenHas(runs, rows, key);
    PrefixedHas(id, rows(ev), key);
  }

  lemma FlattenAdd<T, K(!new), V>(runs: map<string, T>, id: string, ev: T, rows: T -> map<K, V>)
    requires id !in runs
    ensures Flatten(runs[id := ev], rows) == Flatten(runs, rows) + Prefixed(id, rows(ev))
  {
    forall key: (RunId, K) {
      FlattenAddAt(runs, id, ev, rows, key);
    }
  }

  lemma FlattenRemove<T, K, V>(runs: map<string, T>, id: string, rows: T -> map<K, V>)
    ensures Flatten(runs - {id}, rows) == Without(Flatten(runs, rows), id)
  {
  }

  lemma FlattenReplace<T, K, V>(runs: map<string, T>, id: string, ev: T, rows: T -> map<K, V>)
    requires id in runs && rows(ev) == rows(runs[id])
    ensures Flatten(runs[id := ev], rows) == Flatten(runs, rows)
  {
  }

  /** A flattened table gives back each run's rows. */
  lemma FlattenInjective<T, K(!new), V(!new)>(a: map<string, T>, b: map<string, T>, rows: T -> map<K, V>, id: string)
    requires Flatten(a, rows) == Flatten(b, rows)
    requires id in a && id in b
    ensures rows(a[id]) == rows(b[id])
  {
    forall k
      ensures k in rows(a[id]) <==> k in rows(b[id])
      ensures k in rows(a[id]) && k in rows(b[id]) ==> rows(a[id])[k] == rows(b[id])[k]
    {
      assert k in rows(a[id]) <==> (id, k) in Flatten(a, rows);
      assert k in rows(b[id]) <==> (id, k) in Flatten(b, rows);
    }
  }

  /** Sample rows determine the sample lists of a known set of tests. */
  lemma SampleRowsInjective(a: map<TestId, seq<TelemetrySample>>, b: map<TestId, seq<TelemetrySample>>)
    requires a.Keys == b.Keys
    requires SampleRows(a) == SampleRows(b)
    ensures a == b
  {
    forall t | t in a
      ensures a[t] == b[t]
    {
      FlattenInjective(a, b, SampleListRows, t);
      SampleListInjective(a[t], b[t]);
    }
  }

  lemma SampleListInjective(a: seq<TelemetrySample>, b: seq<TelemetrySample>)
    requires SampleListRows(a) == SampleListRows(b)
    ensures a == b
  {
    assert |a| !in SampleListRows(a) && |b| !in SampleListRows(b);
    assert |a| == |b|;
    forall i: nat | i < |a|
      ensures a[i] == b[i]
    {
      assert SampleListRows(a)[i] == SampleRowOf(a[i]);
      assert SampleListRows(b)[i] == SampleRowOf(b[i]);
    }
  }

  /** Two runs with the same row, the same snapshot and the same child rows hold the same evidence. */
  lemma SameEvidence(id: RunId, x: Evidence, y: Evidence)
    requires WellFormedEvidence(id, x) && WellFormedEvidence(id, y)
    requires RunRowOf(x) == RunRowOf(y) && PlatformRowOf(x) == PlatformRowOf(y)
    requires SamplesOf(x) == SamplesOf(y) && ArtifactsOf(x) == ArtifactsOf(y)
    ensures x == y
  {
    SampleRowsInjective(x.execution.telemetry, y.execution.telemetry);
  }

  lemma NormaliseRunRow(c: Catalogue, id: RunId)
    requires WellFormed(c) && id in c.runs
    ensures id in Normalise(c).runs && Normalise(c).runs[id] == RunRowOf(c.runs[id])
    ensures c.runs[id].snapshotId in PlatformsOf(c.runs)
    ensures Normalise(c).platforms[c.runs[id].snapshotId] == PlatformRowOf(c.runs[id])
  {
  }

  lemma NormaliseSameEvidence(a: Catalogue, b: Catalogue, id: RunId)
    requires WellFormed(a) && WellFormed(b)
    requires Normalise(a) == Normalise(b)
    requires id in a.runs && id in b.runs
    ensures a.runs[id] == b.runs[id]
  {
    NormaliseRunRow(a, id);
    NormaliseRunRow(b, id);
    FlattenInjective(a.runs, b.runs, SamplesOf, id);
    FlattenInjective(a.runs, b.runs, ArtifactsOf, id);
    SameEvidence(id, a.runs[id], b.runs[id]);
  }

  lemma NormaliseParts(a: Catalogue, b: Catalogue)
    requires WellFormed(a) && WellFormed(b)
    requires Normalise(a) == Normalise(b)
    ensures a.runs.Keys == b.runs.Keys && a.baselines == b.baselines && a.nextSnapshotId == b.nextSnapshotId
  {
    assert RunRows(a.runs) == RunRows(b.runs);
  }

  /** Normalisation loses nothing: equal tables come from equal catalogues. */
  lemma NormaliseInjective(a: Catalogue, b: Catalogue)
    requires WellFormed(a) && WellFormed(b)
    requires Normalise(a) == Normalise(b)
    ensures a == b
  {
    hide Normalise, WellFormed;
    NormaliseParts(a, b);
    forall id | id in a.runs
      ensures a.runs[id] == b.runs[id]
    {
      NormaliseSameEvidence(a, b, id);
    }
  }

  /** The tables of a catalogue satisfy every key and reference the schema declares. */
  lemma NormaliseIntegrity(c: Catalogue)
    requires WellFormed(c)
    ensures Integrity(Normalise(c))
  {
    hide Flatten, PlatformsOf, RunRowOf, PlatformRowOf;
    var db := Normalise(c);
    SnapshotBijection(c);
    forall key | key in db.tests
      ensures key.0 in db.runs
    {
      FlattenHas(c.runs, TestsOf, key);
    }
    forall key | key in db.artifacts
      ensures key.0 in db.runs
    {
      FlattenHas(c.runs, ArtifactsOf, key);
    }
    forall key | key in db.metrics
      ensures (key.0, key.1.0) in db.tests
    {
      FlattenHas(c.runs, MetricsOf, key);
      FlattenHas(ById(c.runs[key.0].execution.run.testResults), MeasuredRows, key.1);
      FlattenHas(c.runs, TestsOf, (key.0, key.1.0));
    }
    forall key | key in db.evaluations
      ensures (key.0, key.1.0) in db.tests
    {
      FlattenHas(c.runs, EvaluationsOf, key);
      FlattenHas(ById(c.runs[key.0].execution.run.testResults), RequirementRows, key.1);
      FlattenHas(c.runs, TestsOf, (key.0, key.1.0));
    }
    forall key | key in db.samples
      ensures (key.0, key.1.0) in db.tests
    {
      FlattenHas(c.runs, SamplesOf, key);
      FlattenHas(c.runs[key.0].execution.telemetry, SampleListRows, key.1);
      FlattenHas(c.runs, TestsOf, (key.0, key.1.0));
    }
  }

  lemma DistinctRunRows(c: Catalogue)
    requires WellFormed(c)
    ensures var runs := Normalise(c).runs;
            forall id, other :: id in runs && other in runs && id != other ==>
              runs[id].platformSnapshotId != runs[other].platformSnapshotId
  {
    hide Flatten, PlatformsOf;
  }

  /** Runs and platform snapshots correspond one to one. */
  lemma SnapshotBijection(c: Catalogue)
    requires WellFormed(c)
    ensures var db := Normalise(c);
            && (forall id :: id in db.runs ==> db.runs[id].platformSnapshotId in db.platforms)
            && (forall s :: s in db.platforms ==>
                  s < db.nextSnapshotId && exists id :: id in db.runs && db.runs[id].platformSnapshotId == s)
            && (forall id, other :: id in db.runs && other in db.runs && id != other ==>
                  db.runs[id].platformSnapshotId != db.runs[other].platformSnapshotId)
  {
    DistinctRunRows(c);
    var db := Normalise(c);
    forall id | id in db.runs
      ensures db.runs[id].platformSnapshotId in db.platforms
    {
      NormaliseRunRow(c, id);
    }
    forall s | s in db.platforms
      ensures s < db.nextSnapshotId && exists id :: id in db.runs && db.runs[id].platformSnapshotId == s
    {
      var id :| id in c.runs && c.runs[id].snapshotId == s;
      NormaliseRunRow(c, id);
    }
  }

  // ---- The operations on catalogues ----

  datatype StoreError =
    | SqliteError(violation: Violation)
    | RunNotFound
    | MissingSnapshot
    | UnexpectedRowCount
    | BaselineSourceProtected
    | BaselineNotFound
    | BaselineExists

  predicate UniquePaths(records: seq<ArtifactRecord>) {
    forall i, j :: 0 <= i < j < |records| ==> records[i].relativePath != records[j].relativePath
  }

  /** Every sample list that holds a sample belongs to a test with a result. */
  predicate SamplesHaveTests(e: RunExecution) {
    forall t :: t in e.telemetry && e.telemetry[t] != [] ==> t in TestIds(e.run.testResults)
  }

  /** What the constraints let through. */
  predicate Admissible(c: Catalogue, e: RunExecution, records: seq<ArtifactRecord>) {
    && e.run.runId !in c.runs
    && UniqueIds(e.run.testResults)
    && SamplesHaveTests(e)
    && UniquePaths(records)
  }

  /** An execution as the store gives it back: one sample list per test with a result. */
  function Canonical(e: RunExecution): (r: RunExecution)
    ensures r == e <==> TelemetryMatchesResults(e)
  {
    var telemetry := map t | t in TestIds(e.run.testResults) :: if t in e.telemetry then e.telemetry[t] else [];
    assert telemetry.Keys == TestIds(e.run.testResults);
    e.(telemetry := telemetry)
  }

  function ArtifactRowOf(record: ArtifactRecord): ArtifactRow {
    ArtifactRow(record.kind, record.sha256, record.sizeBytes)
  }

  function ArtifactMap(records: seq<ArtifactRecord>): map<string, ArtifactRow> {
    if records == [] then map[]
    else
      var n := |records| - 1;
      ArtifactMap(records[..n])[records[n].relativePath := ArtifactRowOf(records[n])]
  }

  function NewEvidence(c: Catalogue, e: RunExecution, records: seq<ArtifactRecord>, capturedAt: int, createdAt: int): Evidence {
    Evidence(Canonical(e), ArtifactMap(records), c.nextSnapshotId, capturedAt, createdAt)
  }

  function Saved(c: Catalogue, e: RunExecution, records: seq<ArtifactRecord>, capturedAt: int, createdAt: int): Catalogue {
    c.(runs := c.runs[e.run.runId := NewEvidence(c, e, records, capturedAt, createdAt)],
       nextSnapshotId := c.nextSnapshotId + 1)
  }

  function WithArtifact(c: Catalogue, id: RunId, record: ArtifactRecord): Result<Catalogue, StoreError> {
    if id !in c.runs then Err(RunNotFound)
    else if record.relativePath in c.runs[id].artifacts then Err(SqliteError(DuplicateKey))
    else
      var ev := c.runs[id];
      Ok(c.(runs := c.runs[id := ev.(artifacts := ev.artifacts[record.relativePath := ArtifactRowOf(record)])]))
  }

  function WithBaseline(c: Catalogue, name: string, source: RunId, createdAt: int): Result<Catalogue, StoreError> {
    if name in c.baselines then Err(BaselineExists)
    else if source !in c.runs then Err(RunNotFound)
    else Ok(c.(baselines := c.baselines[name := BaselineRow(source, createdAt)]))
  }

  predicate IsBaselineSource(c: Catalogue, id: RunId) {
    exists name :: name in c.baselines && c.baselines[name].sourceRunId == id
  }

  function WithoutRun(c: Catalogue, id: RunId): Result<Catalogue, StoreError> {
    if id !in c.runs then Err(RunNotFound)
    else if IsBaselineSource(c, id) then Err(BaselineSourceProtected)
    else Ok(c.(runs := c.runs - {id}))
  }
}
