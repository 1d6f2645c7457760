/** Histories of committed transactions, from one process or from several that interleave:
    what a stored run and a baseline keep across all of them. */
module Histories {
  import opened Models
  import opened Ordering
  import opened Schema
  import opened Catalogues
  import opened Repository

  /** One write transaction, with the clock readings it takes. A transaction that breaks a
      constraint rolls back and leaves the catalogue as it was. */
  datatype Transaction =
    | Save(e: RunExecution, records: seq<ArtifactRecord>, capturedAt: int, savedAt: int)
    | Register(id: RunId, record: ArtifactRecord)
    | Point(name: string, source: RunId, createdAt: int)
    | Remove(id: RunId)

  function Commit(c: Catalogue, t: Transaction): Catalogue {
    match t
    case Save(e, records, capturedAt, savedAt) =>
      if Admissible(c, e, records) then Saved(c, e, records, capturedAt, savedAt) else c
    case Register(id, record) =>
      var r := WithArtifact(c, id, record); if r.Ok? then r.value else c
    case Point(name, source, createdAt) =>
      var r := WithBaseline(c, name, source, createdAt); if r.Ok? then r.value else c
    case Remove(id) =>
      var r := WithoutRun(c, id); if r.Ok? then r.value else c
  }

  function After(c: Catalogue, history: seq<Transaction>): Catalogue
    decreases |history|
  {
    if history == [] then c else After(Commit(c, history[0]), history[1..])
  }

  lemma CommitWellFormed(c: Catalogue, t: Transaction)
    requires WellFormed(c)
    ensures WellFormed(Commit(c, t))
  {
    match t
    case Save(e, records, capturedAt, savedAt) =>
      if Admissible(c, e, records) {
        SavedTables(c, e, records, capturedAt, savedAt);
      }
    case Register(id, record) =>
      if WithArtifact(c, id, record).Ok? {
        WithArtifactTables(c, id, record);
      }
    case Point(name, source, createdAt) =>
    case Remove(id) =>
      if WithoutRun(c, id).Ok? {
        RemovedRunWellFormed(c, id);
      }
  }

  /** In every history the tables keep all keys and references, and runs and platform snapshots
      correspond one to one. */
  lemma {:induction false} HistoryIntegrity(c: Catalogue, history: seq<Transaction>)
    requires WellFormed(c)
    ensures WellFormed(After(c, history))
    ensures Integrity(Normalise(After(c, history)))
    decreases |history|
  {
    if history == [] {
      NormaliseIntegrity(c);
    } else {
      CommitWellFormed(c, history[0]);
      HistoryIntegrity(Commit(c, history[0]), history[1..]);
    }
  }

  // ---- Round trip ----

  /** A saved execution is read back unchanged exactly when its telemetry is keyed by exactly
      the tests it has results for. */
  lemma SavedIsReadBack(c: Catalogue, e: RunExecution, records: seq<ArtifactRecord>, capturedAt: int, savedAt: int)
    requires Admissible(c, e, records)
    ensures var after := Saved(c, e, records, capturedAt, savedAt);
            && e.run.runId in after.runs
            && (after.runs[e.run.runId].execution == e <==> TelemetryMatchesResults(e))
  {
  }

  lemma {:induction false} ArtifactMapHolds(records: seq<ArtifactRecord>, k: nat)
    requires UniquePaths(records) && k < |records|
    ensures records[k].relativePath in ArtifactMap(records)
    ensures ArtifactMap(records)[records[k].relativePath] == ArtifactRowOf(records[k])
  {
    var n := |records| - 1;
    if k < n {
      ArtifactMapHolds(records[..n], k);
    }
  }

  /** The artifacts come back as the same records, sorted by path, with nothing added or lost; no other
      list has these properties. */
  lemma ArtifactsAreReadBack(records: seq<ArtifactRecord>)
    requires UniquePaths(records)
    ensures var stored := ByPath(ArtifactMap(records));
            && (forall record :: record in stored <==> record in records)
            && SortedByPath(stored)
            && forall other :: SortedByPath(other) && (forall record :: record in other <==> record in records) ==> other == stored
  {
    hide ByPath, ArtifactMap, SortedByPath, UniquePaths;
    var stored := ByPath(ArtifactMap(records));
    StoredInOrder(records);
    forall record
      ensures record in stored <==> record in records
    {
      if record in records {
        RecordIsStored(records, record);
      }
      if record in stored {
        StoredIsRecord(records, record);
      }
    }
    forall other | SortedByPath(other) && forall record :: record in other <==> record in records
      ensures other == stored
    {
      SortedListIsUnique(records, other, stored);
    }
  }

  lemma StoredInOrder(records: seq<ArtifactRecord>)
    ensures SortedByPath(ByPath(ArtifactMap(records)))
  {
    hide ArtifactMap, TextLe;
    TextOrder();
  }

  lemma RecordIsStored(records: seq<ArtifactRecord>, record: ArtifactRecord)
    requires UniquePaths(records) && record in records
    ensures record in ByPath(ArtifactMap(records))
  {
    hide ArtifactMap, UniquePaths, StrictlyAscending, TotalOrder, TextLe;
    TextOrder();
    var k :| 0 <= k < |records| && records[k] == record;
    ArtifactMapHolds(records, k);
    var paths := Ascending(ArtifactMap(records).Keys, TextLe);
    assert record.relativePath in paths;
    var i :| 0 <= i < |paths| && paths[i] == record.relativePath;
    assert ByPath(ArtifactMap(records))[i] == record;
  }

  lemma StoredIsRecord(records: seq<ArtifactRecord>, record: ArtifactRecord)
    requires UniquePaths(records) && record in ByPath(ArtifactMap(records))
    ensures record in records
  {
    hide ArtifactMap, UniquePaths, StrictlyAscending, TotalOrder, TextLe;
    TextOrder();
    var stored := ByPath(ArtifactMap(records));
    var paths := Ascending(ArtifactMap(records).Keys, TextLe);
    var i :| 0 <= i < |stored| && stored[i] == record;
    assert paths[i] in ArtifactMap(records);
    ArtifactMapKeys(records, paths[i]);
    var k :| 0 <= k < |records| && records[k].relativePath == paths[i];
    ArtifactMapHolds(records, k);
    assert stored[i] == records[k];
  }

  /** Strictly ascending paths. */
  ghost predicate SortedByPath(list: seq<ArtifactRecord>) {
    forall i, j :: 0 <= i < j < |list| ==>
      TextLe(list[i].relativePath, list[j].relativePath) && list[i].relativePath != list[j].relativePath
  }

  function Paths(list: seq<ArtifactRecord>): (paths: seq<string>)
    ensures |paths| == |list|
    ensures forall i :: 0 <= i < |list| ==> paths[i] == list[i].relativePath
  {
    seq(|list|, i requires 0 <= i < |list| => list[i].relativePath)
  }

  lemma SortedListIsUnique(records: seq<ArtifactRecord>, a: seq<ArtifactRecord>, b: seq<ArtifactRecord>)
    requires UniquePaths(records)
    requires forall record :: record in a <==> record in records
    requires forall record :: record in b <==> record in records
    requires SortedByPath(a) && SortedByPath(b)
    ensures a == b
  {
    TextOrder();
    SamePaths(a, b);
    SamePaths(b, a);
    AscendingUnique(Paths(a), Paths(b), TextLe);
    forall i | 0 <= i < |a|
      ensures a[i] == b[i]
    {
      assert Paths(a)[i] == Paths(b)[i];
      assert a[i] in records && b[i] in records;
    }
  }

  lemma SamePaths(a: seq<ArtifactRecord>, b: seq<ArtifactRecord>)
    requires forall record :: record in a ==> record in b
    ensures forall path :: path in Paths(a) ==> path in Paths(b)
  {
    forall path | path in Paths(a)
      ensures path in Paths(b)
    {
      var i :| 0 <= i < |a| && Paths(a)[i] == path;
      assert a[i] in b;
      var j :| 0 <= j < |b| && b[j] == a[i];
      assert Paths(b)[j] == path;
    }
  }

  lemma CounterOnly(c: Catalogue)
    requires WellFormed(c)
    ensures var moved := c.(nextSnapshotId := c.nextSnapshotId + 1);
            && WellFormed(moved)
            && Normalise(moved) == Normalise(c).(nextSnapshotId := Normalise(c).nextSnapshotId + 1)
  {
    hide WellFormedEvidence, Flatten, PlatformsOf, RunRows;
  }

  /** Deleting a run that was just saved restores every table; only the snapshot counter moved on. */
  lemma DeleteUndoesSave(c: Catalogue, e: RunExecution, records: seq<ArtifactRecord>, capturedAt: int, savedAt: int)
    requires WellFormed(c) && Admissible(c, e, records)
    ensures var saved := Saved(c, e, records, capturedAt, savedAt);
            && WithoutRun(saved, e.run.runId).Ok?
            && var restored := WithoutRun(saved, e.run.runId).value;
               && WellFormed(restored)
               && Normalise(restored) == Normalise(c).(nextSnapshotId := Normalise(c).nextSnapshotId + 1)
  {
    hide Normalise, DistinctSnapshots, WellFormedEvidence, UniqueIds, SamplesHaveTests, UniquePaths, NewEvidence;
    var saved := Saved(c, e, records, capturedAt, savedAt);
    assert saved.runs - {e.run.runId} == c.runs;
    assert !IsBaselineSource(saved, e.run.runId);
    CounterOnly(c);
  }

  /** Deleting one run leaves what every other run reads back as it was. */
  lemma DeleteIsLocal(c: Catalogue, id: RunId, other: RunId)
    requires WithoutRun(c, id).Ok? && other != id
    ensures var after := WithoutRun(c, id).value;
            && (other in after.runs <==> other in c.runs)
            && (other in c.runs ==> after.runs[other] == c.runs[other])
            && id !in after.runs
  {
  }

  // ---- Baselines ----

  /** What a reader sees behind a baseline name. */
  datatype BaselineView = BaselineView(source: RunId, createdAt: int, execution: RunExecution)

  ghost function View(c: Catalogue, name: string): BaselineView
    requires WellFormed(c) && name in c.baselines
  {
    var row := c.baselines[name];
    BaselineView(row.sourceRunId, row.createdAt, c.runs[row.sourceRunId].execution)
  }

  lemma CommitKeepsBaseline(c: Catalogue, t: Transaction, name: string)
    requires WellFormed(c) && name in c.baselines
    ensures WellFormed(Commit(c, t))
    ensures name in Commit(c, t).baselines && View(Commit(c, t), name) == View(c, name)
  {
    hide WellFormedEvidence, DistinctSnapshots, UniqueIds, SamplesHaveTests, UniquePaths, NewEvidence;
    CommitWellFormed(c, t);
  }

  /** Once created, a baseline answers the same in every later state: same source, same
      creation time, same stored execution, whoever commits what in between. */
  lemma {:induction false} BaselinePermanence(c: Catalogue, history: seq<Transaction>, name: string)
    requires WellFormed(c) && name in c.baselines
    ensures WellFormed(After(c, history))
    ensures name in After(c, history).baselines && View(After(c, history), name) == View(c, name)
    decreases |history|
  {
    if history != [] {
      CommitKeepsBaseline(c, history[0], name);
      BaselinePermanence(Commit(c, history[0]), history[1..], name);
    }
  }

  /** `compare_run` looks the baseline up, then its source: any transactions that other processes
      commit in between leave the source run readable, with the plan and platform the lookup saw. */
  lemma CompareFindsSource(c: Catalogue, between: seq<Transaction>, name: string)
    requires WellFormed(c) && name in c.baselines
    ensures var source := c.baselines[name].sourceRunId;
            && source in c.runs
            && source in After(c, between).runs
            && After(c, between).runs[source].execution == c.runs[source].execution
  {
    BaselinePermanence(c, between, name);
  }

  predicate KnownGood(e: RunExecution) {
    !e.run.overallStatus.Fail? && !e.run.overallStatus.Error?
  }

  ghost predicate BaselinesKnownGood(c: Catalogue) {
    forall name :: name in c.baselines ==>
      c.baselines[name].sourceRunId in c.runs && KnownGood(c.runs[c.baselines[name].sourceRunId].execution)
  }

  datatype BaselineError = StoreFailure(error: StoreError) | NotKnownGood

  /** The service call: read the run, refuse a failed or errored one, then commit the pointer.
      Other processes may commit `between` the read and the pointer. */
  function CreateBaseline(c: Catalogue, between: seq<Transaction>, name: string, source: RunId, createdAt: int)
    : (Catalogue, Result<(), BaselineError>)
  {
    if source !in c.runs then (After(c, between), Err(StoreFailure(RunNotFound)))
    else if !KnownGood(c.runs[source].execution) then (After(c, between), Err(NotKnownGood))
    else
      var r := WithBaseline(After(c, between), name, source, createdAt);
      if r.Ok? then (r.value, Ok(())) else (After(c, between), Err(StoreFailure(r.error)))
  }

  /** Nothing in the history stores a run under `id`. */
  predicate DoesNotSave(history: seq<Transaction>, id: RunId) {
    forall i :: 0 <= i < |history| && history[i].Save? ==> history[i].e.run.runId != id
  }

  lemma {:induction false} UnsavedRunIsUnchanged(c: Catalogue, history: seq<Transaction>, id: RunId)
    requires DoesNotSave(history, id)
    ensures id in After(c, history).runs ==> id in c.runs && After(c, history).runs[id].execution == c.runs[id].execution
    decreases |history|
  {
    if history != [] {
      var next := Commit(c, history[0]);
      assert id in next.runs ==> id in c.runs && next.runs[id].execution == c.runs[id].execution;
      assert forall i :: 0 <= i < |history[1..]| ==> history[1..][i] == history[i + 1];
      UnsavedRunIsUnchanged(next, history[1..], id);
    }
  }

  /** Whatever the history stores under `id` neither failed nor errored. */
  predicate OnlyGoodSaves(history: seq<Transaction>, id: RunId) {
    forall i :: 0 <= i < |history| && history[i].Save? && history[i].e.run.runId == id ==> KnownGood(history[i].e)
  }

  lemma {:induction false} GoodSavesStayGood(c: Catalogue, history: seq<Transaction>, id: RunId)
    requires OnlyGoodSaves(history, id)
    requires id in c.runs ==> KnownGood(c.runs[id].execution)
    ensures id in After(c, history).runs ==> KnownGood(After(c, history).runs[id].execution)
    decreases |history|
  {
    if history != [] {
      assert history[0].Save? && history[0].e.run.runId == id ==> KnownGood(history[0].e);
      assert forall i :: 0 <= i < |history[1..]| ==> history[1..][i] == history[i + 1];
      GoodSavesStayGood(Commit(c, history[0]), history[1..], id);
    }
  }

  /** A created baseline points at a run that neither failed nor errored, provided no process stores
      a failed or errored run under the same identifier between the check and the commit. */
  lemma CreatedBaselineIsKnownGood(c: Catalogue, between: seq<Transaction>, name: string, source: RunId, createdAt: int)
    requires OnlyGoodSaves(between, source)
    ensures var (after, r) := CreateBaseline(c, between, name, source, createdAt);
            r.Ok? ==> name in after.baselines && after.baselines[name].sourceRunId == source
                      && source in after.runs && KnownGood(after.runs[source].execution)
  {
    if source in c.runs && KnownGood(c.runs[source].execution) {
      GoodSavesStayGood(c, between, source);
    }
  }

  /** The proviso is needed: for every stored run that no baseline protects, deleting it and
      storing a failed run under its identifier in between yields a baseline on a failed run. */
  lemma CheckThenPointRace(c: Catalogue, name: string, source: RunId, failed: RunExecution, capturedAt: int, savedAt: int, createdAt: int)
    requires source in c.runs && KnownGood(c.runs[source].execution)
    requires !IsBaselineSource(c, source) && name !in c.baselines
    requires failed.run.runId == source && failed.run.overallStatus.Fail?
    requires UniqueIds(failed.run.testResults) && SamplesHaveTests(failed)
    ensures var between := [Remove(source), Save(failed, [], capturedAt, savedAt)];
            var (after, r) := CreateBaseline(c, between, name, source, createdAt);
            r.Ok? && after.baselines[name].sourceRunId == source && !KnownGood(after.runs[source].execution)
  {
    var removed := Commit(c, Remove(source));
    var save := Save(failed, [], capturedAt, savedAt);
    var between := [Remove(source), save];
    assert Admissible(removed, failed, []);
    assert between[1..] == [save] && [save][1..] == [];
    assert After(c, between) == After(removed, [save]) == After(Commit(removed, save), []) == Commit(removed, save);
  }

  /** Every baseline of the history is created on a run that is known good at that moment, which is
      what the service call does when nothing comes between its check and its commit. */
  ghost predicate PointsAreChecked(c: Catalogue, history: seq<Transaction>)
    decreases |history|
  {
    history != [] ==>
      var t := history[0];
      && (t.Point? && t.source in c.runs ==> KnownGood(c.runs[t.source].execution))
      && PointsAreChecked(Commit(c, t), history[1..])
  }

  lemma CommitKeepsKnownGood(c: Catalogue, t: Transaction)
    requires WellFormed(c) && BaselinesKnownGood(c)
    requires t.Point? && t.source in c.runs ==> KnownGood(c.runs[t.source].execution)
    ensures BaselinesKnownGood(Commit(c, t))
  {
    var next := Commit(c, t);
    forall name | name in next.baselines
      ensures next.baselines[name].sourceRunId in next.runs
      ensures KnownGood(next.runs[next.baselines[name].sourceRunId].execution)
    {
      if name in c.baselines {
        CommitKeepsBaseline(c, t, name);
        assert View(next, name) == View(c, name);
      }
    }
  }

  /** In every such history, from the empty store on, no baseline ever points at a failed or
      errored run. */
  lemma {:induction false} KnownGoodForever(c: Catalogue, history: seq<Transaction>)
    requires WellFormed(c) && BaselinesKnownGood(c)
    requires PointsAreChecked(c, history)
    ensures BaselinesKnownGood(After(c, history))
    decreases |history|
  {
    if history != [] {
      CommitWellFormed(c, history[0]);
      CommitKeepsKnownGood(c, history[0]);
      KnownGoodForever(Commit(c, history[0]), history[1..]);
    }
  }
}
