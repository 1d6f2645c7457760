/** The transactional repository. Each transaction works on a copy of the tables and either
    commits all of it or rolls back; its effect is one operation on the catalogue. */
module Repository {
  import opened Models
  import opened Ordering
  import opened Schema
  import opened Catalogues

  datatype StoredRun = StoredRun(execution: RunExecution, artifacts: seq<ArtifactRecord>)

  datatype BaselineRecord = BaselineRecord(
    name: string,
    sourceRunId: RunId,
    createdAt: int,
    platformFingerprint: string,
    planHash: string,
    planName: string)

  // ---- Row loops of save_execution ----

  predicate NoTestRows(db: Database, id: RunId) {
    && (forall key :: key in db.tests ==> key.0 != id)
    && (forall key :: key in db.metrics ==> key.0 != id)
    && (forall key :: key in db.evaluations ==> key.0 != id)
  }

  function WithResults(db: Database, id: RunId, results: seq<TestResult>): Database {
    db.(tests := db.tests + Prefixed(id, TestRows(results)),
        metrics := db.metrics + Prefixed(id, MetricRows(results)),
        evaluations := db.evaluations + Prefixed(id, EvaluationRows(results)))
  }

  /** The rows of one test, keyed by run and test. */
  function Tagged<K(==), V>(id: RunId, test: TestId, rows: map<K, V>): ChildTable<(TestId, K), V> {
    Prefixed(id, Prefixed(test, rows))
  }

  lemma TaggedAdd<K, V>(table: ChildTable<(TestId, K), V>, id: RunId, test: TestId, rows: map<K, V>, k: K, v: V)
    ensures table + Tagged(id, test, rows[k := v]) == (table + Tagged(id, test, rows))[(id, (test, k)) := v]
  {
    assert Tagged(id, test, rows[k := v]) == Tagged(id, test, rows)[(id, (test, k)) := v];
  }

  lemma TaggedEmpty<K, V>(table: ChildTable<(TestId, K), V>, id: RunId, test: TestId)
    ensures table + Tagged(id, test, map[]) == table
  {
    var none: map<K, V> := map[];
    assert Tagged(id, test, none) == map[];
  }

  lemma TaggedHas<K, V>(id: RunId, test: TestId, rows: map<K, V>, k: K)
    ensures (id, (test, k)) in Tagged(id, test, rows) <==> k in rows
  {
  }

  method InsertMetrics(db: Database, id: RunId, result: TestResult) returns (r: Statement)
    requires (id, result.testId) in db.tests
    requires forall name :: (id, (result.testId, name)) !in db.metrics
    ensures r == Ok(db.(metrics := db.metrics + Tagged(id, result.testId, MeasuredRows(result))))
  {
    var working, pending := db, result.measured.Keys;
    ghost var inserted: map<string, MetricRow> := map[];
    TaggedEmpty(db.metrics, id, result.testId);
    hide Tagged;
    while pending != {}
      invariant pending <= result.measured.Keys
      invariant inserted == MeasuredRows(result) - pending
      invariant working == db.(metrics := db.metrics + Tagged(id, result.testId, inserted))
      decreases pending
    {
      var name :| name in pending;
      var row := MetricRowOf(result.measured[name]);
      TaggedHas(id, result.testId, inserted, name);
      TaggedAdd(db.metrics, id, result.testId, inserted, name, row);
      working := InsertMetric(working, id, result.testId, name, row).value;
      inserted := inserted[name := row];
      pending := pending - {name};
    }
    assert MeasuredRows(result) - {} == MeasuredRows(result);
    r := Ok(working);
  }

  lemma RequirementRowsStep(result: TestResult, n: nat)
    requires n < |result.requirements|
    ensures var before := result.(requirements := result.requirements[..n]);
            && n !in RequirementRows(before)
            && RequirementRows(result.(requirements := result.requirements[..n + 1])) ==
               RequirementRows(before)[n := EvaluationRowOf(result.requirements[n])]
  {
  }

  method InsertEvaluations(db: Database, id: RunId, result: TestResult) returns (r: Statement)
    requires (id, result.testId) in db.tests
    requires forall i: nat :: (id, (result.testId, i)) !in db.evaluations
    ensures r == Ok(db.(evaluations := db.evaluations + Tagged(id, result.testId, RequirementRows(result))))
  {
    var working, test := db, result.testId;
    TaggedEmpty(db.evaluations, id, test);
    ghost var inserted: map<nat, EvaluationRow> := map[];
    assert RequirementRows(result.(requirements := [])) == map[];
    hide Tagged, RequirementRows;
    for i: nat := 0 to |result.requirements|
      invariant inserted == RequirementRows(result.(requirements := result.requirements[..i]))
      invariant working == db.(evaluations := db.evaluations + Tagged(id, test, inserted))
    {
      var row := EvaluationRowOf(result.requirements[i]);
      RequirementRowsStep(result, i);
      TaggedHas(id, test, inserted, i);
      TaggedAdd(db.evaluations, id, test, inserted, i, row);
      working := InsertEvaluation(working, id, test, i, row).value;
      inserted := inserted[i := row];
    }
    assert result.requirements[..|result.requirements|] == result.requirements;
    r := Ok(working);
  }

  lemma SampleListRowsStep(samples: seq<TelemetrySample>, n: nat)
    requires n < |samples|
    ensures n !in SampleListRows(samples[..n])
    ensures SampleListRows(samples[..n + 1]) == SampleListRows(samples[..n])[n := SampleRowOf(samples[n])]
  {
  }

  method InsertSamples(db: Database, id: RunId, test: TestId, samples: seq<TelemetrySample>) returns (r: Statement)
    requires forall i: nat :: (id, (test, i)) !in db.samples
    ensures r == if samples == [] || (id, test) in db.tests
                 then Ok(db.(samples := db.samples + Tagged(id, test, SampleListRows(samples))))
                 else Err(MissingParent)
  {
    var working := db;
    TaggedEmpty(db.samples, id, test);
    assert SampleListRows(samples[..0]) == map[];
    hide Tagged, SampleListRows;
    for i: nat := 0 to |samples|
      invariant working == db.(samples := db.samples + Tagged(id, test, SampleListRows(samples[..i])))
      invariant i > 0 ==> (id, test) in db.tests
    {
      SampleListRowsStep(samples, i);
      TaggedHas(id, test, SampleListRows(samples[..i]), i);
      TaggedAdd(db.samples, id, test, SampleListRows(samples[..i]), i, SampleRowOf(samples[i]));
      var step := InsertSample(working, id, test, i, SampleRowOf(samples[i]));
      if step.Err? {
        return step;
      }
      working := step.value;
    }
    assert samples[..|samples|] == samples;
    r := Ok(working);
  }

  // ---- One more result ----

  lemma ByIdStep(results: seq<TestResult>, k: nat)
    requires k < |results|
    ensures ById(results[..k + 1]) == ById(results[..k])[results[k].testId := results[k]]
  {
    assert results[..k + 1][..k] == results[..k];
  }

  lemma PrefixedUnion<K, V>(id: RunId, a: map<K, V>, b: map<K, V>)
    ensures Prefixed(id, a + b) == Prefixed(id, a) + Prefixed(id, b)
  {
  }

  lemma TestRowsStep(results: seq<TestResult>, k: nat)
    requires k < |results|
    ensures TestRows(results[..k + 1]) == TestRows(results[..k])[results[k].testId := TestRowOf(results[k])]
  {
    ByIdStep(results, k);
    hide ById;
  }

  lemma PrefixedSet<K, V>(id: RunId, rows: map<K, V>, k: K, v: V)
    ensures Prefixed(id, rows[k := v]) == Prefixed(id, rows)[(id, k) := v]
  {
  }

  lemma PrefixedFlattenAdd<T, K(!new), V>(id: RunId, owners: map<string, T>, owner: string, t: T, rows: T -> map<K, V>)
    requires owner !in owners
    ensures Prefixed(id, Flatten(owners[owner := t], rows)) ==
            Prefixed(id, Flatten(owners, rows)) + Tagged(id, owner, rows(t))
  {
    FlattenAdd(owners, owner, t, rows);
    PrefixedUnion(id, Flatten(owners, rows), Prefixed(owner, rows(t)));
  }

  lemma UnionAssociates<K, V>(a: map<K, V>, b: map<K, V>, c: map<K, V>)
    ensures a + (b + c) == (a + b) + c
  {
  }

  lemma UnionUpdates<K, V>(a: map<K, V>, b: map<K, V>, k: K, v: V)
    ensures a + b[k := v] == (a + b)[k := v]
  {
  }

  /** Adding the rows of result `k` after those of the results before it. */
  lemma WithResultsStep(db: Database, id: RunId, results: seq<TestResult>, k: nat)
    requires k < |results| && results[k].testId !in TestIds(results[..k])
    ensures var before, t := WithResults(db, id, results[..k]), results[k].testId;
            WithResults(db, id, results[..k + 1]) ==
            before.(tests := before.tests[(id, t) := TestRowOf(results[k])],
                    metrics := before.metrics + Tagged(id, t, MeasuredRows(results[k])),
                    evaluations := before.evaluations + Tagged(id, t, RequirementRows(results[k])))
  {
    hide Prefixed, Flatten, Tagged, TestRows, MeasuredRows, RequirementRows, ById;
    var t := results[k].testId;
    TestRowsStep(results, k);
    ByIdStep(results, k);
    PrefixedSet(id, TestRows(results[..k]), t, TestRowOf(results[k]));
    PrefixedFlattenAdd(id, ById(results[..k]), t, results[k], MeasuredRows);
    PrefixedFlattenAdd(id, ById(results[..k]), t, results[k], RequirementRows);
    UnionUpdates(db.tests, Prefixed(id, TestRows(results[..k])), (id, t), TestRowOf(results[k]));
    UnionAssociates(db.metrics, Prefixed(id, MetricRows(results[..k])), Tagged(id, t, MeasuredRows(results[k])));
    UnionAssociates(db.evaluations, Prefixed(id, EvaluationRows(results[..k])), Tagged(id, t, RequirementRows(results[k])));
  }

  /** Which keys the first `k` results occupy. */
  lemma WithResultsKeys(db: Database, id: RunId, results: seq<TestResult>, test: TestId)
    requires NoTestRows(db, id)
    ensures (id, test) in WithResults(db, id, results).tests <==> test in TestIds(results)
    ensures test !in TestIds(results) ==>
              && (forall name :: (id, (test, name)) !in WithResults(db, id, results).metrics)
              && (forall i: nat :: (id, (test, i)) !in WithResults(db, id, results).evaluations)
  {
    forall name
      ensures test !in TestIds(results) ==> (id, (test, name)) !in WithResults(db, id, results).metrics
    {
      PrefixedHas(id, MetricRows(results), (id, (test, name)));
    }
    forall i: nat
      ensures test !in TestIds(results) ==> (id, (test, i)) !in WithResults(db, id, results).evaluations
    {
      PrefixedHas(id, EvaluationRows(results), (id, (test, i)));
    }
    PrefixedHas(id, TestRows(results), (id, test));
  }

  lemma UniqueIdsStep(results: seq<TestResult>, k: nat)
    requires k < |results|
    ensures UniqueIds(results) ==> results[k].testId !in TestIds(results[..k])
    ensures UniqueIds(results[..k]) && results[k].testId !in TestIds(results[..k]) ==> UniqueIds(results[..k + 1])
  {
    var before := results[..k];
    if UniqueIds(before) && results[k].testId !in TestIds(before) {
      assert forall i :: 0 <= i < k ==> results[i].testId == before[i].testId && before[i].testId in TestIds(before);
    }
  }

  lemma WithNoResults(db: Database, id: RunId)
    ensures WithResults(db, id, []) == db
    ensures WithResults(db, id, []).runs == db.runs
  {
    NoRows(db.tests, id);
    NoRows(db.metrics, id);
    NoRows(db.evaluations, id);
    assert TestRows([]) == map[] && MetricRows([]) == map[] && EvaluationRows([]) == map[];
    hide Prefixed;
  }

  lemma NoRows<K, V>(table: ChildTable<K, V>, id: RunId)
    ensures table + Prefixed(id, map[]) == table
  {
    var none: map<K, V> := map[];
    assert Prefixed(id, none) == map[];
  }

  method InsertResults(db: Database, id: RunId, results: seq<TestResult>) returns (r: Statement)
    requires id in db.runs
    requires NoTestRows(db, id)
    ensures r == if UniqueIds(results) then Ok(WithResults(db, id, results)) else Err(DuplicateKey)
  {
    hide WithResults, Tagged, Prefixed, MeasuredRows, RequirementRows, TestIds, NoTestRows;
    var working := db;
    WithNoResults(db, id);
    assert results[..0] == [];
    for k: nat := 0 to |results|
      invariant working == WithResults(db, id, results[..k])
      invariant working.runs == db.runs
      invariant UniqueIds(results[..k])
    {
      var result := results[k];
      UniqueIdsStep(results, k);
      WithResultsKeys(db, id, results[..k], result.testId);
      var step := InsertTest(working, id, result.testId, TestRowOf(result));
      if step.Err? {
        return step;
      }
      step := InsertMetrics(step.value, id, result);
      step := InsertEvaluations(step.value, id, result);
      WithResultsStep(db, id, results, k);
      working := step.value;
    }
    assert results[..|results|] == results;
    r := Ok(working);
  }

  method InsertTelemetry(db: Database, id: RunId, telemetry: map<TestId, seq<TelemetrySample>>) returns (r: Statement)
    requires forall key :: key in db.samples ==> key.0 != id
    ensures r == if forall t :: t in telemetry && telemetry[t] != [] ==> (id, t) in db.tests
                 then Ok(db.(samples := db.samples + Prefixed(id, SampleRows(telemetry))))
                 else Err(MissingParent)
  {
    hide Prefixed, Flatten, Tagged, SampleListRows;
    var working, pending := db, telemetry.Keys;
    ghost var done: map<TestId, seq<TelemetrySample>> := map[];
    assert SampleRows(map[]) == map[] by { FlattenEmpty(SampleListRows); }
    NoRows(db.samples, id);
    while pending != {}
      invariant pending <= telemetry.Keys
      invariant done == telemetry - pending
      invariant working == db.(samples := db.samples + Prefixed(id, SampleRows(done)))
      invariant forall t :: t in done && telemetry[t] != [] ==> (id, t) in db.tests
      decreases pending
    {
      var t :| t in pending;
      forall i: nat
        ensures (id, (t, i)) !in working.samples
      {
        PrefixedHas(id, SampleRows(done), (id, (t, i)));
        FlattenHas(done, SampleListRows, (t, i));
      }
      var step := InsertSamples(working, id, t, telemetry[t]);
      if step.Err? {
        return step;
      }
      PrefixedFlattenAdd(id, done, t, telemetry[t], SampleListRows);
      UnionAssociates(db.samples, Prefixed(id, SampleRows(done)), Tagged(id, t, SampleListRows(telemetry[t])));
      working := step.value;
      done := done[t := telemetry[t]];
      pending := pending - {t};
    }
    assert telemetry - {} == telemetry;
    r := Ok(working);
  }

  lemma FlattenEmpty<T, K, V>(rows: T -> map<K, V>)
    ensures Flatten(map[], rows) == map[]
  {
  }

  lemma {:induction false} ArtifactMapKeys(records: seq<ArtifactRecord>, path: string)
    ensures path in ArtifactMap(records) <==> exists i :: 0 <= i < |records| && records[i].relativePath == path
  {
    if records != [] {
      var n := |records| - 1;
      ArtifactMapKeys(records[..n], path);
      if records[n].relativePath != path && path in ArtifactMap(records) {
        var i :| 0 <= i < n && records[..n][i].relativePath == path;
        assert records[i].relativePath == path;
      }
      if i :| 0 <= i < n && records[i].relativePath == path {
        assert records[..n][i].relativePath == path;
      }
    }
  }

  lemma ArtifactMapStep(records: seq<ArtifactRecord>, k: nat)
    requires k < |records|
    ensures ArtifactMap(records[..k + 1]) == ArtifactMap(records[..k])[records[k].relativePath := ArtifactRowOf(records[k])]
  {
    assert records[..k + 1][..k] == records[..k];
  }

  method InsertArtifacts(db: Database, id: RunId, records: seq<ArtifactRecord>) returns (r: Statement)
    requires id in db.runs
    requires forall key :: key in db.artifacts ==> key.0 != id
    ensures r == if UniquePaths(records)
                 then Ok(db.(artifacts := db.artifacts + Prefixed(id, ArtifactMap(records))))
                 else Err(DuplicateKey)
  {
    hide Prefixed, ArtifactMap;
    var working := db;
    assert ArtifactMap(records[..0]) == map[] by { ArtifactMapEmpty(); }
    NoRows(db.artifacts, id);
    for k: nat := 0 to |records|
      invariant working == db.(artifacts := db.artifacts + Prefixed(id, ArtifactMap(records[..k])))
      invariant UniquePaths(records[..k])
    {
      var path := records[k].relativePath;
      PrefixedHas(id, ArtifactMap(records[..k]), (id, path));
      ArtifactMapKeys(records[..k], path);
      var step := InsertArtifact(working, id, path, ArtifactRowOf(records[k]));
      if step.Err? {
        DuplicatePath(records, k);
        return step;
      }
      FreshPath(records, k);
      ArtifactMapStep(records, k);
      PrefixedSet(id, ArtifactMap(records[..k]), path, ArtifactRowOf(records[k]));
      UnionUpdates(db.artifacts, Prefixed(id, ArtifactMap(records[..k])), (id, path), ArtifactRowOf(records[k]));
      working := step.value;
    }
    assert records[..|records|] == records;
    r := Ok(working);
  }

  lemma ArtifactMapEmpty()
    ensures ArtifactMap([]) == map[]
  {
  }

  lemma DuplicatePath(records: seq<ArtifactRecord>, k: nat)
    requires k < |records|
    requires exists i :: 0 <= i < |records[..k]| && records[..k][i].relativePath == records[k].relativePath
    ensures !UniquePaths(records)
  {
    var i :| 0 <= i < |records[..k]| && records[..k][i].relativePath == records[k].relativePath;
    assert records[i].relativePath == records[k].relativePath;
  }

  lemma FreshPath(records: seq<ArtifactRecord>, k: nat)
    requires k < |records|
    requires UniquePaths(records[..k])
    requires !exists i :: 0 <= i < |records[..k]| && records[..k][i].relativePath == records[k].relativePath
    ensures UniquePaths(records[..k + 1])
  {
    assert forall i :: 0 <= i < k ==> records[i].relativePath == records[..k][i].relativePath;
  }

  // ---- Transactions on the tables and operations on the catalogue ----

  lemma PlatformsAdd(runs: map<RunId, Evidence>, id: RunId, ev: Evidence)
    requires DistinctSnapshots(runs) && id !in runs
    requires forall a :: a in runs ==> runs[a].snapshotId != ev.snapshotId
    ensures DistinctSnapshots(runs[id := ev])
    ensures PlatformsOf(runs[id := ev]) == PlatformsOf(runs)[ev.snapshotId := PlatformRowOf(ev)]
  {
    hide PlatformsOf;
    var more := runs[id := ev];
    assert DistinctSnapshots(more);
    forall s: nat
      ensures s in PlatformsOf(more) <==> s in PlatformsOf(runs) || s == ev.snapshotId
      ensures s in PlatformsOf(more) ==>
                PlatformsOf(more)[s] == if s == ev.snapshotId then PlatformRowOf(ev) else PlatformsOf(runs)[s]
    {
      PlatformsHas(runs, s);
      PlatformsHas(more, s);
      assert more[id].snapshotId == ev.snapshotId;
      assert forall a :: a in runs ==> more[a] == runs[a];
    }
  }

  lemma RunRowsAdd(runs: map<RunId, Evidence>, id: RunId, ev: Evidence)
    ensures RunRows(runs[id := ev]) == RunRows(runs)[id := RunRowOf(ev)]
  {
  }

  /** Dropping sample lists of unknown tests, all empty, and adding empty lists changes no row. */
  lemma CanonicalSamples(e: RunExecution)
    requires SamplesHaveTests(e)
    ensures SampleRows(Canonical(e).telemetry) == SampleRows(e.telemetry)
  {
    var a, b := Canonical(e).telemetry, e.telemetry;
    forall key: (TestId, nat)
      ensures key in SampleRows(a) <==> key in SampleRows(b)
      ensures key in SampleRows(a) ==> SampleRows(a)[key] == SampleRows(b)[key]
    {
      FlattenHas(a, SampleListRows, key);
      FlattenHas(b, SampleListRows, key);
    }
  }

  function AddedRun(c: Catalogue, id: RunId, ev: Evidence): Catalogue {
    c.(runs := c.runs[id := ev], nextSnapshotId := c.nextSnapshotId + 1)
  }

  lemma AddedRunWellFormed(c: Catalogue, id: RunId, ev: Evidence)
    requires WellFormed(c) && id !in c.runs && ev.snapshotId == c.nextSnapshotId
    requires WellFormedEvidence(id, ev)
    ensures WellFormed(AddedRun(c, id, ev))
  {
    hide WellFormedEvidence;
  }

  /** The tables after one more run: each table of the old catalogue plus the new run's rows. */
  lemma AddedRunTables(c: Catalogue, id: RunId, ev: Evidence)
    requires DistinctSnapshots(c.runs) && id !in c.runs && ev.snapshotId == c.nextSnapshotId
    requires forall a :: a in c.runs ==> c.runs[a].snapshotId < c.nextSnapshotId
    ensures DistinctSnapshots(AddedRun(c, id, ev).runs)
    ensures var db := Normalise(c);
            Normalise(AddedRun(c, id, ev)) ==
            Database(
              db.platforms[c.nextSnapshotId := PlatformRowOf(ev)],
              c.nextSnapshotId + 1,
              db.runs[id := RunRowOf(ev)],
              db.tests + Prefixed(id, TestsOf(ev)),
              db.metrics + Prefixed(id, MetricsOf(ev)),
              db.evaluations + Prefixed(id, EvaluationsOf(ev)),
              db.samples + Prefixed(id, SamplesOf(ev)),
              db.artifacts + Prefixed(id, ArtifactsOf(ev)),
              db.baselines)
  {
    hide Prefixed, Flatten, PlatformsOf, RunRows, PlatformRowOf, RunRowOf;
    PlatformsAdd(c.runs, id, ev);
    RunRowsAdd(c.runs, id, ev);
    hide DistinctSnapshots, TestsOf, MetricsOf, EvaluationsOf, SamplesOf, ArtifactsOf;
    FlattenAdd(c.runs, id, ev, TestsOf);
    FlattenAdd(c.runs, id, ev, MetricsOf);
    FlattenAdd(c.runs, id, ev, EvaluationsOf);
    FlattenAdd(c.runs, id, ev, SamplesOf);
    FlattenAdd(c.runs, id, ev, ArtifactsOf);
  }

  lemma SavedTables(c: Catalogue, e: RunExecution, records: seq<ArtifactRecord>, capturedAt: int, createdAt: int)
    requires WellFormed(c) && Admissible(c, e, records)
    ensures WellFormed(Saved(c, e, records, capturedAt, createdAt))
    ensures var db, id, ev := Normalise(c), e.run.runId, NewEvidence(c, e, records, capturedAt, createdAt);
            Normalise(Saved(c, e, records, capturedAt, createdAt)) ==
            Database(
              db.platforms[c.nextSnapshotId := PlatformRowOf(ev)],
              c.nextSnapshotId + 1,
              db.runs[id := RunRowOf(ev)],
              db.tests + Prefixed(id, TestRows(e.run.testResults)),
              db.metrics + Prefixed(id, MetricRows(e.run.testResults)),
              db.evaluations + Prefixed(id, EvaluationRows(e.run.testResults)),
              db.samples + Prefixed(id, SampleRows(e.telemetry)),
              db.artifacts + Prefixed(id, ArtifactMap(records)),
              db.baselines)
  {
    var ev := NewEvidence(c, e, records, capturedAt, createdAt);
    AddedRunWellFormed(c, e.run.runId, ev);
    CanonicalSamples(e);
    hide Prefixed, Flatten, TestRows, MetricRows, EvaluationRows, SampleRows, ArtifactMap, RunRowOf, PlatformRowOf, Canonical;
    AddedRunTables(c, e.run.runId, ev);
    hide Normalise, WellFormed, DistinctSnapshots, UniqueIds, SamplesHaveTests, TelemetryMatchesResults;
  }

  lemma FreshRunHasNoRows(c: Catalogue, id: RunId)
    requires WellFormed(c) && id !in c.runs
    ensures NoTestRows(Normalise(c), id)
    ensures forall key :: key in Normalise(c).samples ==> key.0 != id
    ensures forall key :: key in Normalise(c).artifacts ==> key.0 != id
  {
  }

  lemma FlattenUpdateAt<T, K, V>(owners: map<string, T>, id: string, t: T, rows: T -> map<K, V>, k: K, v: V, key: (string, K))
    requires id in owners && rows(t) == rows(owners[id])[k := v]
    ensures key in Flatten(owners[id := t], rows) <==> key in Flatten(owners, rows) || key == (id, k)
    ensures key in Flatten(owners[id := t], rows) ==>
              Flatten(owners[id := t], rows)[key] == if key == (id, k) then v else Flatten(owners, rows)[key]
  {
    FlattenHas(owners[id := t], rows, key);
    FlattenHas(owners, rows, key);
    assert key == (key.0, key.1);
  }

  lemma FlattenUpdate<T, K(!new), V>(owners: map<string, T>, id: string, t: T, rows: T -> map<K, V>, k: K, v: V)
    requires id in owners && rows(t) == rows(owners[id])[k := v]
    ensures Flatten(owners[id := t], rows) == Flatten(owners, rows)[(id, k) := v]
  {
    hide Flatten;
    var updated, expected := Flatten(owners[id := t], rows), Flatten(owners, rows)[(id, k) := v];
    forall key: (string, K)
      ensures key in updated <==> key in expected
      ensures key in updated ==> updated[key] == expected[key]
    {
      FlattenUpdateAt(owners, id, t, rows, k, v, key);
    }
    assert updated == expected;
  }

  lemma PlatformsSame(runs: map<RunId, Evidence>, id: RunId, ev: Evidence)
    requires DistinctSnapshots(runs) && id in runs
    requires ev.snapshotId == runs[id].snapshotId && PlatformRowOf(ev) == PlatformRowOf(runs[id])
    ensures DistinctSnapshots(runs[id := ev])
    ensures PlatformsOf(runs[id := ev]) == PlatformsOf(runs)
  {
    hide PlatformsOf, PlatformRowOf;
    var same := runs[id := ev];
    assert DistinctSnapshots(same);
    forall s: nat
      ensures s in PlatformsOf(same) <==> s in PlatformsOf(runs)
      ensures s in PlatformsOf(same) ==> PlatformsOf(same)[s] == PlatformsOf(runs)[s]
    {
      PlatformsHas(runs, s);
      PlatformsHas(same, s);
      assert forall a :: a in runs ==> a in same && same[a].snapshotId == runs[a].snapshotId && PlatformRowOf(same[a]) == PlatformRowOf(runs[a]);
    }
  }

  lemma RunRowsSame(runs: map<RunId, Evidence>, id: RunId, ev: Evidence)
    requires id in runs && RunRowOf(ev) == RunRowOf(runs[id])
    ensures RunRows(runs[id := ev]) == RunRows(runs)
  {
    hide RunRowOf;
  }

  lemma ReplacedArtifactsTables(c: Catalogue, id: RunId, ev: Evidence, path: string, row: ArtifactRow)
    requires DistinctSnapshots(c.runs) && id in c.runs
    requires ev == c.runs[id].(artifacts := c.runs[id].artifacts[path := row])
    ensures DistinctSnapshots(c.runs[id := ev])
    ensures var db := Normalise(c);
            Normalise(c.(runs := c.runs[id := ev])) == db.(artifacts := db.artifacts[(id, path) := row])
  {
    hide Flatten, PlatformsOf, RunRows, PlatformRowOf, RunRowOf, TestRows, MetricRows, EvaluationRows, SampleRows;
    SameExecution(id, c.runs[id], ev);
    PlatformsSame(c.runs, id, ev);
    RunRowsSame(c.runs, id, ev);
    hide DistinctSnapshots;
    FlattenReplace(c.runs, id, ev, TestsOf);
    FlattenReplace(c.runs, id, ev, MetricsOf);
    FlattenReplace(c.runs, id, ev, EvaluationsOf);
    FlattenReplace(c.runs, id, ev, SamplesOf);
    FlattenUpdate(c.runs, id, ev, ArtifactsOf, path, row);
  }

  /** Registering an artifact inserts one row and touches nothing else. */
  lemma WithArtifactTables(c: Catalogue, id: RunId, record: ArtifactRecord)
    requires WellFormed(c) && WithArtifact(c, id, record).Ok?
    ensures WellFormed(WithArtifact(c, id, record).value)
    ensures var db := Normalise(c);
            Normalise(WithArtifact(c, id, record).value) ==
            db.(artifacts := db.artifacts[(id, record.relativePath) := ArtifactRowOf(record)])
  {
    hide Normalise, WellFormedEvidence, ArtifactRowOf;
    var row := ArtifactRowOf(record);
    var ev := c.runs[id].(artifacts := c.runs[id].artifacts[record.relativePath := row]);
    SameExecution(id, c.runs[id], ev);
    ReplacedArtifactsTables(c, id, ev, record.relativePath, row);
  }

  lemma SameExecution(id: RunId, a: Evidence, b: Evidence)
    requires a.execution == b.execution && a.snapshotId == b.snapshotId
    requires a.capturedAt == b.capturedAt && a.createdAt == b.createdAt
    ensures WellFormedEvidence(id, a) <==> WellFormedEvidence(id, b)
    ensures PlatformRowOf(a) == PlatformRowOf(b) && RunRowOf(a) == RunRowOf(b)
  {
  }

  lemma PlatformsRemove(runs: map<RunId, Evidence>, id: RunId)
    requires DistinctSnapshots(runs) && id in runs
    ensures DistinctSnapshots(runs - {id})
    ensures PlatformsOf(runs - {id}) == PlatformsOf(runs) - {runs[id].snapshotId}
  {
    hide PlatformsOf, PlatformRowOf;
    var fewer := runs - {id};
    forall s: nat
      ensures s in PlatformsOf(fewer) <==> s in PlatformsOf(runs) && s != runs[id].snapshotId
      ensures s in PlatformsOf(fewer) ==> PlatformsOf(fewer)[s] == PlatformsOf(runs)[s]
    {
      PlatformsHas(runs, s);
      PlatformsHas(fewer, s);
      assert forall a :: a in runs && a != id ==> a in fewer;
    }
  }

  /** The cascade removes exactly the rows of the deleted run. */
  lemma CascadeIsWithout<K, V>(tests: ChildTable<TestId, TestRow>, table: ChildTable<(TestId, K), V>, id: RunId)
    requires forall key :: key in table ==> (key.0, key.1.0) in tests
    ensures KeepUnless(table, set key | key in tests && key.0 == id) == Without(table, id)
  {
  }

  lemma RunRowsRemove(runs: map<RunId, Evidence>, id: RunId)
    ensures RunRows(runs - {id}) == RunRows(runs) - {id}
  {
  }

  function RemovedRun(c: Catalogue, id: RunId): Catalogue {
    c.(runs := c.runs - {id})
  }

  /** The tables without one run. */
  lemma RemovedRunTables(c: Catalogue, id: RunId)
    requires DistinctSnapshots(c.runs) && id in c.runs
    ensures DistinctSnapshots(RemovedRun(c, id).runs)
    ensures var db := Normalise(c);
            Normalise(RemovedRun(c, id)) ==
            Database(
              db.platforms - {c.runs[id].snapshotId},
              db.nextSnapshotId,
              db.runs - {id},
              Without(db.tests, id),
              Without(db.metrics, id),
              Without(db.evaluations, id),
              Without(db.samples, id),
              Without(db.artifacts, id),
              db.baselines)
  {
    hide Flatten, Without, PlatformsOf, RunRows, PlatformRowOf, RunRowOf, TestsOf, MetricsOf, EvaluationsOf, SamplesOf, ArtifactsOf;
    PlatformsRemove(c.runs, id);
    RunRowsRemove(c.runs, id);
    hide DistinctSnapshots;
    FlattenRemove(c.runs, id, TestsOf);
    FlattenRemove(c.runs, id, MetricsOf);
    FlattenRemove(c.runs, id, EvaluationsOf);
    FlattenRemove(c.runs, id, SamplesOf);
    FlattenRemove(c.runs, id, ArtifactsOf);
  }

  lemma RemovedRunWellFormed(c: Catalogue, id: RunId)
    requires WellFormed(c) && !IsBaselineSource(c, id)
    ensures WellFormed(RemovedRun(c, id))
  {
    hide WellFormedEvidence;
  }

  lemma TestsWithout(tests: ChildTable<TestId, TestRow>, id: RunId)
    ensures tests - (set key | key in tests && key.0 == id) == Without(tests, id)
  {
  }

  /** On referentially sound tables, DELETE FROM runs takes the run's rows out of every table. */
  lemma DeleteRunRowEffect(db: Database, id: RunId)
    requires Integrity(db)
    requires forall name :: name in db.baselines ==> db.baselines[name].sourceRunId != id
    ensures DeleteRunRow(db, id) ==
            Ok(db.(runs := db.runs - {id},
                   tests := Without(db.tests, id),
                   metrics := Without(db.metrics, id),
                   evaluations := Without(db.evaluations, id),
                   samples := Without(db.samples, id),
                   artifacts := Without(db.artifacts, id)))
  {
    hide KeepUnless;
    CascadeIsWithout(db.tests, db.metrics, id);
    CascadeIsWithout(db.tests, db.evaluations, id);
    CascadeIsWithout(db.tests, db.samples, id);
    TestsWithout(db.tests, id);
    hide Integrity;
  }

  // ---- Reading a run back ----

  function SampleKeys(db: Database, id: RunId): set<(TestId, nat)> {
    set key | key in db.samples && key.0 == id :: key.1
  }

  function ArtifactPaths(db: Database, id: RunId): set<string> {
    set key | key in db.artifacts && key.0 == id :: key.1
  }

  function RecordOf(path: string, row: ArtifactRow): ArtifactRecord {
    ArtifactRecord(row.kind, path, row.sha256, row.sizeBytes)
  }

  /** The artifacts of a run in path order. */
  function ByPath(artifacts: map<string, ArtifactRow>): (records: seq<ArtifactRecord>) {
    TextOrder();
    var paths := Ascending(artifacts.Keys, TextLe);
    seq(|paths|, i requires 0 <= i < |paths| => RecordOf(paths[i], artifacts[paths[i]]))
  }

  lemma SampleRowAt(stored: map<TestId, seq<TelemetrySample>>, t: TestId, n: nat)
    requires (t, n) in SampleRows(stored)
    ensures t in stored && n < |stored[t]| && SampleRows(stored)[(t, n)].sample == stored[t][n]
  {
    FlattenHas(stored, SampleListRows, (t, n));
  }

  /** Appends every sample to the list of its test; a test without a list gets one. */
  method Regroup(db: Database, id: RunId, results: seq<TestResult>, keys: seq<(TestId, nat)>, ghost stored: map<TestId, seq<TelemetrySample>>)
    returns (telemetry: map<TestId, seq<TelemetrySample>>)
    requires TotalOrder(IndexedTextLe)
    requires StrictlyAscending(keys, IndexedTextLe)
    requires forall key :: key in keys <==> key in SampleRows(stored)
    requires forall key :: key in SampleRows(stored) ==> (id, key) in db.samples && db.samples[(id, key)] == SampleRows(stored)[key]
    requires stored.Keys == TestIds(results)
    ensures telemetry == stored
  {
    hide Flatten, SampleListRows, IndexedTextLe, TotalOrder, StrictlyAscending;
    telemetry := map t | t in TestIds(results) :: [];
    for i := 0 to |keys|
      invariant telemetry.Keys == stored.Keys
      invariant forall t :: t in stored ==> telemetry[t] <= stored[t]
      invariant forall t, n: nat :: t in stored ==> ((t, n) in keys[..i] <==> n < |telemetry[t]|)
    {
      var (t, n) := keys[i];
      assert keys[i] in SampleRows(stored);
      SampleRowAt(stored, t, n);
      NextSampleOf(stored, keys, i, telemetry[t]);
      var samples := if t in telemetry then telemetry[t] else [];
      telemetry := telemetry[t := samples + [db.samples[(id, keys[i])].sample]];
      assert keys[..i + 1] == keys[..i] + [keys[i]];
    }
    assert keys[..|keys|] == keys;
    AllSamplesRead(stored, keys, telemetry);
  }

  /** In ascending order, a row comes after every smaller index of its test. */
  lemma SmallerIndexComesFirst(stored: map<TestId, seq<TelemetrySample>>, keys: seq<(TestId, nat)>, i: nat, n: nat)
    requires TotalOrder(IndexedTextLe)
    requires StrictlyAscending(keys, IndexedTextLe)
    requires forall key :: key in keys <==> key in SampleRows(stored)
    requires i < |keys| && n < keys[i].1
    ensures (keys[i].0, n) in keys[..i]
  {
    var t := keys[i].0;
    FlattenHas(stored, SampleListRows, keys[i]);
    FlattenHas(stored, SampleListRows, (t, n));
    assert (t, n) in keys;
    var j :| 0 <= j < |keys| && keys[j] == (t, n);
    assert j < i;
    assert keys[..i][j] == (t, n);
  }

  /** In ascending order, the next row of a test carries the next index of that test. */
  lemma NextSampleOf(stored: map<TestId, seq<TelemetrySample>>, keys: seq<(TestId, nat)>, i: nat, read: seq<TelemetrySample>)
    requires TotalOrder(IndexedTextLe)
    requires StrictlyAscending(keys, IndexedTextLe)
    requires forall key :: key in keys <==> key in SampleRows(stored)
    requires i < |keys|
    requires forall n: nat :: (keys[i].0, n) in keys[..i] <==> n < |read|
    ensures keys[i].1 == |read|
  {
    assert keys[i] == (keys[i].0, keys[i].1);
    assert keys[i] !in keys[..i];
    if |read| < keys[i].1 {
      SmallerIndexComesFirst(stored, keys, i, |read|);
      assert false;
    }
  }

  lemma AllSamplesRead(stored: map<TestId, seq<TelemetrySample>>, keys: seq<(TestId, nat)>, telemetry: map<TestId, seq<TelemetrySample>>)
    requires forall key :: key in keys <==> key in SampleRows(stored)
    requires telemetry.Keys == stored.Keys
    requires forall t :: t in stored ==> telemetry[t] <= stored[t]
    requires forall t, n: nat :: t in stored ==> ((t, n) in keys <==> n < |telemetry[t]|)
    ensures telemetry == stored
  {
    forall t | t in stored
      ensures telemetry[t] == stored[t]
    {
      var n: nat := |telemetry[t]|;
      FlattenHas(stored, SampleListRows, (t, n));
      assert (t, n) !in keys;
    }
  }

  /** After the result rows went in, the run's tests are exactly those with a result. */
  lemma InsertedTests(db: Database, id: RunId, results: seq<TestResult>)
    requires NoTestRows(db, id)
    ensures forall t :: (id, t) in db.tests + Prefixed(id, TestRows(results)) <==> t in TestIds(results)
  {
    forall t
      ensures (id, t) in db.tests + Prefixed(id, TestRows(results)) <==> t in TestIds(results)
    {
      PrefixedHas(id, TestRows(results), (id, t));
    }
  }

  lemma BeforeSave(c: Catalogue, e: RunExecution)
    requires WellFormed(c)
    ensures DistinctSnapshots(c.runs)
    ensures Normalise(c).nextSnapshotId == c.nextSnapshotId && Normalise(c).runs.Keys == c.runs.Keys
    ensures e.run.runId !in c.runs ==>
              && NoTestRows(Normalise(c), e.run.runId)
              && (forall key :: key in Normalise(c).samples ==> key.0 != e.run.runId)
              && (forall key :: key in Normalise(c).artifacts ==> key.0 != e.run.runId)
    ensures Canonical(e).run == e.run && Canonical(e).platform == e.platform
  {
    if e.run.runId !in c.runs {
      FreshRunHasNoRows(c, e.run.runId);
    }
  }

  lemma NoTestRowsSame(a: Database, b: Database, id: RunId)
    requires a.tests == b.tests && a.metrics == b.metrics && a.evaluations == b.evaluations
    ensures NoTestRows(a, id) <==> NoTestRows(b, id)
  {
  }

  /** The child rows of a new run, test by test, sample by sample, artifact by artifact. */
  method InsertChildren(db: Database, e: RunExecution, records: seq<ArtifactRecord>) returns (r: Statement)
    requires e.run.runId in db.runs
    requires NoTestRows(db, e.run.runId)
    requires forall key :: key in db.samples ==> key.0 != e.run.runId
    requires forall key :: key in db.artifacts ==> key.0 != e.run.runId
    ensures r.Ok? <==> UniqueIds(e.run.testResults) && SamplesHaveTests(e) && UniquePaths(records)
    ensures r.Ok? ==>
              var id := e.run.runId;
              r.value == WithResults(db, id, e.run.testResults).(
                samples := db.samples + Prefixed(id, SampleRows(e.telemetry)),
                artifacts := db.artifacts + Prefixed(id, ArtifactMap(records)))
  {
    hide Prefixed, TestRows, MetricRows, EvaluationRows, SampleRows, ArtifactMap, UniqueIds, UniquePaths, TestIds;
    InsertedTests(db, e.run.runId, e.run.testResults);
    hide NoTestRows;
    r := InsertResults(db, e.run.runId, e.run.testResults);
    if r.Err? {
      return;
    }
    r := InsertTelemetry(r.value, e.run.runId, e.telemetry);
    if r.Err? {
      return;
    }
    r := InsertArtifacts(r.value, e.run.runId, records);
  }

  lemma ReadRun(c: Catalogue, id: RunId)
    requires WellFormed(c)
    ensures var db := Normalise(c);
            && (id in db.runs <==> id in c.runs)
            && db.baselines == c.baselines
            && (id in c.runs ==>
                  var ev := c.runs[id];
                  && db.runs[id] == RunRowOf(ev)
                  && ev.snapshotId in db.platforms
                  && db.platforms[ev.snapshotId] == PlatformRowOf(ev)
                  && ev.execution.telemetry.Keys == TestIds(ev.execution.run.testResults)
                  && SampleKeys(db, id) == SampleRows(ev.execution.telemetry).Keys
                  && (forall key :: key in SampleRows(ev.execution.telemetry) ==>
                        (id, key) in db.samples && db.samples[(id, key)] == SampleRows(ev.execution.telemetry)[key])
                  && ArtifactPaths(db, id) == ev.artifacts.Keys
                  && (forall path :: path in ev.artifacts ==>
                        (id, path) in db.artifacts && db.artifacts[(id, path)] == ev.artifacts[path]))
  {
    if id in c.runs {
      NormaliseRunRow(c, id);
      ReadChildren(c.runs, SamplesOf, id);
      ReadChildren(c.runs, ArtifactsOf, id);
      hide Flatten, SampleRows;
    }
  }

  lemma ReadChildren<T, K(!new), V>(owners: map<string, T>, rows: T -> map<K, V>, id: string)
    requires id in owners
    ensures (set key | key in Flatten(owners, rows) && key.0 == id :: key.1) == rows(owners[id]).Keys
    ensures forall k :: k in rows(owners[id]) ==>
              (id, k) in Flatten(owners, rows) && Flatten(owners, rows)[(id, k)] == rows(owners[id])[k]
  {
    hide Flatten;
    forall k {
      FlattenHas(owners, rows, (id, k));
    }
    forall key {
      FlattenHas(owners, rows, key);
    }
    forall k | k in rows(owners[id])
      ensures k in set key | key in Flatten(owners, rows) && key.0 == id :: key.1
    {
      assert (id, k) in Flatten(owners, rows);
    }
  }

  lemma ReadArtifactKey(c: Catalogue, id: RunId, path: string)
    requires WellFormed(c)
    ensures id in Normalise(c).runs <==> id in c.runs
    ensures (id, path) in Normalise(c).artifacts <==> id in c.runs && path in c.runs[id].artifacts
  {
    FlattenHas(c.runs, ArtifactsOf, (id, path));
  }

  /** Once the run's row is gone nothing references its snapshot. */
  lemma SnapshotUnreferenced(db: Database, after: Database, id: RunId)
    requires Integrity(db) && id in db.runs && after.runs == db.runs - {id}
    ensures DeletePlatformRow(after, db.runs[id].platformSnapshotId) ==
            Ok(after.(platforms := after.platforms - {db.runs[id].platformSnapshotId}))
  {
  }

  /** Both statements of the deletion go through, and together they remove exactly that run. */
  lemma DeleteTransaction(c: Catalogue, id: RunId)
    requires WellFormed(c) && id in c.runs && !IsBaselineSource(c, id)
    ensures WellFormed(RemovedRun(c, id))
    ensures var db := Normalise(c);
            && id in db.runs
            && DeleteRunRow(db, id).Ok?
            && DeletePlatformRow(DeleteRunRow(db, id).value, db.runs[id].platformSnapshotId) == Ok(Normalise(RemovedRun(c, id)))
  {
    var db := Normalise(c);
    RemovedRunWellFormed(c, id);
    NormaliseIntegrity(c);
    NormaliseRunRow(c, id);
    RemovedRunTables(c, id);
    hide Normalise, WellFormed, DistinctSnapshots, Without, RemovedRun;
    assert db.baselines == c.baselines by { ReadRun(c, id); }
    DeleteRunRowEffect(db, id);
    var after := DeleteRunRow(db, id).value;
    hide DeleteRunRow;
    SnapshotUnreferenced(db, after, id);
    hide Integrity, DeletePlatformRow;
  }

  class SQLiteRepository {
    var db: Database
    ghost var catalogue: Catalogue

    /** The tables are the normalised form of the catalogue. */
    ghost predicate Valid()
      reads this
    {
      WellFormed(catalogue) && db == Normalise(catalogue)
    }

    constructor ()
      ensures Valid()
      ensures catalogue == EMPTY_CATALOGUE && db == EMPTY
    {
      db := EMPTY;
      catalogue := EMPTY_CATALOGUE;
    }

    method SaveExecution(e: RunExecution, records: seq<ArtifactRecord>, capturedAt: int, createdAt: int)
      returns (r: Result<(), StoreError>)
      requires Valid()
      modifies this
      ensures Valid()
      ensures r.Ok? <==> Admissible(old(catalogue), e, records)
      ensures r.Err? ==> r.error.SqliteError? && db == old(db) && catalogue == old(catalogue)
      ensures r.Ok? ==> catalogue == Saved(old(catalogue), e, records, capturedAt, createdAt)
    {
      var run, snapshotId := e.run, db.nextSnapshotId;
      hide WellFormed, DistinctSnapshots, Normalise, NoTestRows, Prefixed;
      hide TestRows, MetricRows, EvaluationRows, SampleRows, ArtifactMap, Canonical, UniqueIds, UniquePaths, SamplesHaveTests;
      BeforeSave(catalogue, e);
      var working := InsertPlatform(db, PlatformRow(e.platform.fingerprint, e.platform, capturedAt));
      var row := RunRow(run.planName, run.planHash, run.toolVersion, snapshotId, run.platformFingerprint,
                        run.startedAt, run.endedAt, run.overallStatus, run, createdAt);
      var step := InsertRun(working, run.runId, row);
      if step.Err? {
        return Err(SqliteError(step.error));
      }
      NoTestRowsSame(db, step.value, run.runId);
      step := InsertChildren(step.value, e, records);
      if step.Err? {
        return Err(SqliteError(step.error));
      }
      SavedTables(catalogue, e, records, capturedAt, createdAt);
      db := step.value;
      catalogue := Saved(catalogue, e, records, capturedAt, createdAt);
      r := Ok(());
    }

    method AddArtifact(id: RunId, record: ArtifactRecord) returns (r: Result<(), StoreError>)
      requires Valid()
      modifies this
      ensures Valid()
      ensures match WithArtifact(old(catalogue), id, record)
              case Ok(after) => r.Ok? && catalogue == after
              case Err(error) => r == Err(error) && db == old(db) && catalogue == old(catalogue)
    {
      hide Normalise, WellFormed, DistinctSnapshots;
      ReadArtifactKey(catalogue, id, record.relativePath);
      if id !in db.runs {
        return Err(RunNotFound);
      }
      var step := InsertArtifact(db, id, record.relativePath, ArtifactRowOf(record));
      if step.Err? {
        return Err(SqliteError(step.error));
      }
      WithArtifactTables(catalogue, id, record);
      db := step.value;
      catalogue := WithArtifact(catalogue, id, record).value;
      r := Ok(());
    }

    /** The stored evidence comes back exactly: the execution, and the artifacts in path order. */
    method GetRun(id: RunId) returns (r: Result<StoredRun, StoreError>)
      requires Valid()
      ensures r == if id in catalogue.runs
                   then Ok(StoredRun(catalogue.runs[id].execution, ByPath(catalogue.runs[id].artifacts)))
                   else Err(RunNotFound)
    {
      hide Normalise, WellFormed, DistinctSnapshots, ByPath;
      ReadRun(catalogue, id);
      if id !in db.runs {
        return Err(RunNotFound);
      }
      var row := db.runs[id];
      if row.platformSnapshotId !in db.platforms {
        return Err(MissingSnapshot);
      }
      IndexedTextOrder();
      var sampleKeys := Ascending(SampleKeys(db, id), IndexedTextLe);
      var artifacts := ByPath(map path | path in ArtifactPaths(db, id) :: db.artifacts[(id, path)]);
      var telemetry := Regroup(db, id, row.result.testResults, sampleKeys, catalogue.runs[id].execution.telemetry);
      assert (map path | path in ArtifactPaths(db, id) :: db.artifacts[(id, path)]) == catalogue.runs[id].artifacts;
      r := Ok(StoredRun(RunExecution(row.result, db.platforms[row.platformSnapshotId].snapshot, telemetry), artifacts));
    }

    method CreateBaseline(name: string, source: RunId, createdAt: int) returns (r: Result<BaselineRecord, StoreError>)
      requires Valid()
      modifies this
      ensures Valid()
      ensures match WithBaseline(old(catalogue), name, source, createdAt)
              case Ok(after) =>
                var run := old(catalogue).runs[source].execution.run;
                && catalogue == after
                && r == Ok(BaselineRecord(name, source, createdAt, run.platformFingerprint, run.planHash, run.planName))
              case Err(error) => r == Err(error) && db == old(db) && catalogue == old(catalogue)
    {
      hide WellFormedEvidence, DistinctSnapshots, Flatten, PlatformsOf, RunRows;
      ReadRun(catalogue, source);
      if name in db.baselines {
        return Err(BaselineExists);
      }
      if source !in db.runs {
        return Err(RunNotFound);
      }
      var step := InsertBaseline(db, name, BaselineRow(source, createdAt));
      var run := db.runs[source];
      db := step.value;
      catalogue := WithBaseline(catalogue, name, source, createdAt).value;
      r := Ok(BaselineRecord(name, source, createdAt, run.platformFingerprint, run.planHash, run.planName));
    }

    /** A baseline joined with its source run; the join never loses a baseline. */
    method GetBaseline(name: string) returns (r: Result<BaselineRecord, StoreError>)
      requires Valid()
      ensures r == if name !in catalogue.baselines then Err(BaselineNotFound)
                   else
                     var row := catalogue.baselines[name];
                     var run := catalogue.runs[row.sourceRunId].execution.run;
                     Ok(BaselineRecord(name, row.sourceRunId, row.createdAt, run.platformFingerprint, run.planHash, run.planName))
    {
      if name in db.baselines {
        ReadRun(catalogue, db.baselines[name].sourceRunId);
      }
      if name !in db.baselines || db.baselines[name].sourceRunId !in db.runs {
        return Err(BaselineNotFound);
      }
      var row := db.baselines[name];
      var run := db.runs[row.sourceRunId];
      r := Ok(BaselineRecord(name, row.sourceRunId, row.createdAt, run.platformFingerprint, run.planHash, run.planName));
    }

    method DeleteRun(id: RunId) returns (r: Result<(), StoreError>)
      requires Valid()
      modifies this
      ensures Valid()
      ensures match WithoutRun(old(catalogue), id)
              case Ok(after) => r.Ok? && catalogue == after
              case Err(error) => r == Err(error) && db == old(db) && catalogue == old(catalogue)
    {
      hide Normalise, WellFormed, DistinctSnapshots, DeleteRunRow, DeletePlatformRow;
      ReadRun(catalogue, id);
      if id !in db.runs {
        return Err(RunNotFound);
      }
      if exists name :: name in db.baselines && db.baselines[name].sourceRunId == id {
        return Err(BaselineSourceProtected);
      }
      var snapshotId := db.runs[id].platformSnapshotId;
      DeleteTransaction(catalogue, id);
      RemovedRunWellFormed(catalogue, id);
      var step := DeleteRunRow(db, id);
      step := DeletePlatformRow(step.value, snapshotId);
      db := step.value;
      catalogue := RemovedRun(catalogue, id);
      r := Ok(());
    }
  }
}
