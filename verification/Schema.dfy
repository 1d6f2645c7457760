/** The normalised evidence tables, their keys and the statements that change them.
    Every insert checks its primary key and its foreign keys; DELETE cascades or is
    restricted as the schema declares. */
module Schema {
  import opened Models

  datatype PlatformRow = PlatformRow(fingerprint: string, snapshot: PlatformIdentity, capturedAt: int)

  datatype RunRow = RunRow(
    planName: string,
    planHash: string,
    toolVersion: string,
    platformSnapshotId: nat,
    platformFingerprint: string,
    startedAt: int,
    endedAt: int,
    overallStatus: Status,
    result: RunResult,
    createdAt: int)

  datatype TestRow = TestRow(
    status: Status,
    startedAt: int,
    endedAt: int,
    failureReason: Option<string>,
    exceptionSummary: Option<string>,
    injected: bool,
    result: TestResult)

  datatype MetricRow = MetricRow(value: Scalar, unit: Option<string>, source: string)

  datatype EvaluationRow = EvaluationRow(
    metric: string,
    op: Operator,
    expected: Expected,
    actual: Scalar,
    unit: Option<string>,
    passed: bool)

  datatype SampleRow = SampleRow(elapsedSeconds: real, timestamp: int, sample: TelemetrySample)

  datatype ArtifactRow = ArtifactRow(kind: string, sha256: Bytes, sizeBytes: nat)

  datatype BaselineRow = BaselineRow(sourceRunId: RunId, createdAt: int)

  /** A table whose primary key starts with the owning run. */
  type ChildTable<!K(==), V> = map<(RunId, K), V>

  datatype Database = Database(
    platforms: map<nat, PlatformRow>,
    nextSnapshotId: nat,
    runs: map<RunId, RunRow>,
    tests: ChildTable<TestId, TestRow>,
    metrics: ChildTable<(TestId, string), MetricRow>,
    evaluations: ChildTable<(TestId, nat), EvaluationRow>,
    samples: ChildTable<(TestId, nat), SampleRow>,
    artifacts: ChildTable<string, ArtifactRow>,
    baselines: map<string, BaselineRow>)

  /** A violated UNIQUE, FOREIGN KEY or RESTRICT constraint aborts the statement. */
  datatype Violation = DuplicateKey | MissingParent | Restricted

  type Statement = Result<Database, Violation>

  const EMPTY := Database(map[], 1, map[], map[], map[], map[], map[], map[], map[])

  /** AUTOINCREMENT never reuses an identifier. */
  function InsertPlatform(db: Database, row: PlatformRow): Database {
    db.(platforms := db.platforms[db.nextSnapshotId := row], nextSnapshotId := db.nextSnapshotId + 1)
  }

  function InsertRun(db: Database, id: RunId, row: RunRow): Statement {
    if id in db.runs then Err(DuplicateKey)
    else if row.platformSnapshotId !in db.platforms then Err(MissingParent)
    else Ok(db.(runs := db.runs[id := row]))
  }

  function InsertTest(db: Database, id: RunId, test: TestId, row: TestRow): Statement {
    if (id, test) in db.tests then Err(DuplicateKey)
    else if id !in db.runs then Err(MissingParent)
    else Ok(db.(tests := db.tests[(id, test) := row]))
  }

  function InsertMetric(db: Database, id: RunId, test: TestId, name: string, row: MetricRow): Statement {
    if (id, (test, name)) in db.metrics then Err(DuplicateKey)
    else if (id, test) !in db.tests then Err(MissingParent)
    else Ok(db.(metrics := db.metrics[(id, (test, name)) := row]))
  }

  function InsertEvaluation(db: Database, id: RunId, test: TestId, index: nat, row: EvaluationRow): Statement {
    if (id, (test, index)) in db.evaluations then Err(DuplicateKey)
    else if (id, test) !in db.tests then Err(MissingParent)
    else Ok(db.(evaluations := db.evaluations[(id, (test, index)) := row]))
  }

  function InsertSample(db: Database, id: RunId, test: TestId, index: nat, row: SampleRow): Statement {
    if (id, (test, index)) in db.samples then Err(DuplicateKey)
    else if (id, test) !in db.tests then Err(MissingParent)
    else Ok(db.(samples := db.samples[(id, (test, index)) := row]))
  }

  function InsertArtifact(db: Database, id: RunId, path: string, row: ArtifactRow): Statement {
    if (id, path) in db.artifacts then Err(DuplicateKey)
    else if id !in db.runs then Err(MissingParent)
    else Ok(db.(artifacts := db.artifacts[(id, path) := row]))
  }

  function InsertBaseline(db: Database, name: string, row: BaselineRow): Statement {
    if name in db.baselines then Err(DuplicateKey)
    else if row.sourceRunId !in db.runs then Err(MissingParent)
    else Ok(db.(baselines := db.baselines[name := row]))
  }

  /** Rows whose parent test is not among the deleted ones. */
  function KeepUnless<K(==), V>(table: ChildTable<(TestId, K), V>, deleted: set<(RunId, TestId)>): ChildTable<(TestId, K), V> {
    map key | key in table && (key.0, key.1.0) !in deleted :: table[key]
  }

  /** DELETE FROM runs: refused while a baseline points at the run; otherwise the run's tests and
      artifacts go, and the metrics, evaluations and samples of the deleted tests go with them. */
  function DeleteRunRow(db: Database, id: RunId): Statement {
    if exists name :: name in db.baselines && db.baselines[name].sourceRunId == id then
      Err(Restricted)
    else
      var deleted := set key | key in db.tests && key.0 == id;
      Ok(db.(runs := db.runs - {id},
             tests := db.tests - deleted,
             metrics := KeepUnless(db.metrics, deleted),
             evaluations := KeepUnless(db.evaluations, deleted),
             samples := KeepUnless(db.samples, deleted),
             artifacts := map key | key in db.artifacts && key.0 != id :: db.artifacts[key]))
  }

  /** DELETE FROM platforms: refused while a run still references the snapshot. */
  function DeletePlatformRow(db: Database, snapshotId: nat): Statement {
    if exists id :: id in db.runs && db.runs[id].platformSnapshotId == snapshotId then
      Err(Restricted)
    else
      Ok(db.(platforms := db.platforms - {snapshotId}))
  }

  /** Every foreign key resolves, and runs and platform snapshots correspond one to one. */
  ghost predicate Integrity(db: Database) {
    && (forall s :: s in db.platforms ==> s < db.nextSnapshotId)
    && (forall id :: id in db.runs ==> db.runs[id].platformSnapshotId in db.platforms)
    && (forall id, other ::
          id in db.runs && other in db.runs && id != other ==>
          db.runs[id].platformSnapshotId != db.runs[other].platformSnapshotId)
    && (forall s :: s in db.platforms ==> exists id :: id in db.runs && db.runs[id].platformSnapshotId == s)
    && (forall key :: key in db.tests ==> key.0 in db.runs)
    && (forall key :: key in db.metrics ==> (key.0, key.1.0) in db.tests)
    && (forall key :: key in db.evaluations ==> (key.0, key.1.0) in db.tests)
    && (forall key :: key in db.samples ==> (key.0, key.1.0) in db.tests)
    && (forall key :: key in db.artifacts ==> key.0 in db.runs)
    && (forall name :: name in db.baselines ==> db.baselines[name].sourceRunId in db.runs)
  }
}
