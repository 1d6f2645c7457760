/** What the two stores keep together, whatever step a fault interrupts. */
module CrashConsistency {
  import opened Models
  import opened Schema
  import opened Catalogues
  import opened Repository
  import opened Histories
  import opened EvidenceStore

  type Event = (Operation, Fault)

  function Run(codec: Codec, s: Store, history: seq<Event>): Store
    decreases |history|
  {
    if history == [] then s
    else Run(codec, Perform(codec, s, history[0].0, history[0].1).0, history[1..])
  }

  // ---- Every registered artifact is on disk, intact ----

  /** The row's path lies in the run's own directory, and the file there has the recorded hash and length. */
  ghost predicate OnDisk(codec: Codec, s: Store, id: RunId, path: string, row: ArtifactRow) {
    exists name ::
      && path == RelativePath(id, name)
      && id in s.dirs && name in s.dirs[id]
      && codec.sha256(s.dirs[id][name]) == row.sha256
      && |s.dirs[id][name]| == row.sizeBytes
  }

  ghost predicate Anchored(codec: Codec, s: Store) {
    forall id, path :: id in s.rows.runs && path in s.rows.runs[id].artifacts ==>
      OnDisk(codec, s, id, path, s.rows.runs[id].artifacts[path])
  }

  /** The operation has work to do at that step: its guards let it through, and, for the steps
      after the commit, so do the constraints. */
  predicate Reaches(codec: Codec, s: Store, op: Operation, at: Step) {
    match op
    case Persist(e, _, _) =>
      && PersistStep(at) && e.run.runId !in s.dirs
      && (at == Return ==> Admissible(s.rows, e, PersistRecords(codec, e)))
    case Derive(id, name, kind, content) =>
      && DeriveStep(at) && id in s.rows.runs && id in s.dirs && name !in s.dirs[id] && TempName(name) !in s.dirs[id]
      && (at == Return ==> WithArtifact(s.rows, id, RecordFor(codec, id, name, kind, content)).Ok?)
    case Delete(id) => at in {Commit, MakeTrash, Move, Return} && (at == Commit || (WithoutRun(s.rows, id).Ok? && id in s.dirs))
    case Baseline(_, _, _) => false
  }

  /** A clean-up handler removes something although the transaction has already committed. */
  predicate CleansUpAfterCommit(op: Operation, fault: Fault) {
    && (op.Persist? || op.Derive?)
    && fault.strike.Raise? && fault.strike.at == Return && Finishes(fault.handling, 1)
  }

  /** ... and the operation gets that far. */
  predicate LosesCommittedFile(codec: Codec, s: Store, op: Operation, fault: Fault) {
    CleansUpAfterCommit(op, fault) && Reaches(codec, s, op, Return)
  }

  lemma OnDiskAfter(codec: Codec, s: Store, t: Store, id: RunId, path: string, row: ArtifactRow)
    requires OnDisk(codec, s, id, path, row)
    requires id in t.dirs && forall name :: name in s.dirs[id] ==> name in t.dirs[id] && t.dirs[id][name] == s.dirs[id][name]
    ensures OnDisk(codec, t, id, path, row)
  {
    var name :|
      && path == RelativePath(id, name)
      && id in s.dirs && name in s.dirs[id]
      && codec.sha256(s.dirs[id][name]) == row.sha256
      && |s.dirs[id][name]| == row.sizeBytes;
    assert name in t.dirs[id];
  }

  lemma NewFileOnDisk(codec: Codec, s: Store, id: RunId, name: string, kind: string, payload: Bytes)
    requires id in s.dirs && name in s.dirs[id] && s.dirs[id][name] == payload
    ensures var record := RecordFor(codec, id, name, kind, payload);
            OnDisk(codec, s, id, record.relativePath, ArtifactRowOf(record))
  {
  }

  lemma MissingFileNotOnDisk(codec: Codec, s: Store, id: RunId, name: string, row: ArtifactRow)
    requires id !in s.dirs || name !in s.dirs[id]
    ensures !OnDisk(codec, s, id, RelativePath(id, name), row)
  {
    forall other | RelativePath(id, other) == RelativePath(id, name)
      ensures other == name
    {
      RelativePathInjective(id, other, name);
    }
  }

  /** Every file that was there is still there with the same bytes. */
  ghost predicate FilesKept(s: Store, t: Store) {
    forall id :: id in s.dirs ==> id in t.dirs && forall name :: name in s.dirs[id] ==> name in t.dirs[id] && t.dirs[id][name] == s.dirs[id][name]
  }

  predicate Registered(c: Catalogue, id: RunId, path: string) {
    id in c.runs && path in c.runs[id].artifacts
  }

  ghost predicate SameArtifacts(before: Catalogue, after: Catalogue) {
    forall id, path :: Registered(after, id, path) ==>
      Registered(before, id, path) && after.runs[id].artifacts[path] == before.runs[id].artifacts[path]
  }

  /** The rows after registering one more artifact. */
  ghost predicate OneMoreArtifact(before: Catalogue, after: Catalogue, id: RunId, record: ArtifactRecord) {
    && Registered(after, id, record.relativePath)
    && after.runs[id].artifacts[record.relativePath] == ArtifactRowOf(record)
    && (forall other, path :: Registered(after, other, path) && (other, path) != (id, record.relativePath) ==>
          Registered(before, other, path) && after.runs[other].artifacts[path] == before.runs[other].artifacts[path])
  }

  lemma KeptIsAnchored(codec: Codec, s: Store, t: Store)
    requires Anchored(codec, s) && FilesKept(s, t) && SameArtifacts(s.rows, t.rows)
    ensures Anchored(codec, t)
  {
    forall id, path | id in t.rows.runs && path in t.rows.runs[id].artifacts
      ensures OnDisk(codec, t, id, path, t.rows.runs[id].artifacts[path])
    {
      assert Registered(t.rows, id, path);
      OnDiskAfter(codec, s, t, id, path, s.rows.runs[id].artifacts[path]);
    }
  }

  lemma OneMoreIsAnchored(codec: Codec, s: Store, t: Store, id: RunId, record: ArtifactRecord)
    requires Anchored(codec, s) && FilesKept(s, t) && OneMoreArtifact(s.rows, t.rows, id, record)
    ensures Anchored(codec, t) <==> OnDisk(codec, t, id, record.relativePath, ArtifactRowOf(record))
  {
    assert Registered(t.rows, id, record.relativePath);
    hide OnDisk;
    forall other, path | Registered(t.rows, other, path) && (other, path) != (id, record.relativePath)
      ensures OnDisk(codec, t, other, path, t.rows.runs[other].artifacts[path])
    {
      assert Registered(s.rows, other, path);
      OnDiskAfter(codec, s, t, other, path, s.rows.runs[other].artifacts[path]);
    }
  }

  /** Persisting keeps existing files, and either leaves the rows alone or adds the run with its one
      artifact; the committed artifact is on disk unless a handler ran after the commit. */
  lemma PersistEffect(codec: Codec, s: Store, e: RunExecution, capturedAt: int, savedAt: int, fault: Fault)
    ensures var op := Persist(e, capturedAt, savedAt);
            var id, t := e.run.runId, PersistResult(codec, s, e, capturedAt, savedAt, fault).0;
            && FilesKept(s, t)
            && t.trash == s.trash
            && (id in s.dirs ==> t == s)
            && (t.rows == s.rows || (Admissible(s.rows, e, PersistRecords(codec, e)) && t.rows == Saved(s.rows, e, PersistRecords(codec, e), capturedAt, savedAt)))
            && (LosesCommittedFile(codec, s, op, fault) ==> t.rows != s.rows)
            && (t.rows != s.rows ==>
                  if LosesCommittedFile(codec, s, op, fault) then id !in t.dirs || RUN_JSON !in t.dirs[id]
                  else id in t.dirs && t.dirs[id] == map[RUN_JSON := codec.dump(e)])
  {
    hide Admissible, NewEvidence, RecordFor, Canonical;
  }

  lemma SavedAddsOne(c: Catalogue, e: RunExecution, record: ArtifactRecord, capturedAt: int, savedAt: int)
    requires e.run.runId !in c.runs
    ensures OneMoreArtifact(c, Saved(c, e, [record], capturedAt, savedAt), e.run.runId, record)
  {
    SingleArtifact(record);
    hide Canonical;
  }

  lemma PersistAnchored(codec: Codec, s: Store, e: RunExecution, capturedAt: int, savedAt: int, fault: Fault)
    requires Anchored(codec, s)
    ensures var op := Persist(e, capturedAt, savedAt);
            Anchored(codec, Perform(codec, s, op, fault).0) <==> !LosesCommittedFile(codec, s, op, fault)
  {
    hide Anchored, FilesKept, LosesCommittedFile, PersistResult, RecordFor;
    var id, payload := e.run.runId, codec.dump(e);
    var t := PersistResult(codec, s, e, capturedAt, savedAt, fault).0;
    var record := RecordFor(codec, id, RUN_JSON, "run_json", payload);
    PersistEffect(codec, s, e, capturedAt, savedAt, fault);
    if t.rows == s.rows {
      KeptIsAnchored(codec, s, t);
    } else {
      SavedAddsOne(s.rows, e, record, capturedAt, savedAt);
      OneMoreIsAnchored(codec, s, t, id, record);
      if id in t.dirs && RUN_JSON in t.dirs[id] {
        NewFileOnDisk(codec, t, id, RUN_JSON, "run_json", payload);
      } else {
        MissingFileNotOnDisk(codec, t, id, RUN_JSON, ArtifactRowOf(record));
        RecordPath(codec, id, RUN_JSON, "run_json", payload);
      }
    }
  }

  lemma RecordPath(codec: Codec, id: RunId, name: string, kind: string, payload: Bytes)
    ensures RecordFor(codec, id, name, kind, payload).relativePath == RelativePath(id, name)
  {
  }

  lemma SingleArtifact(record: ArtifactRecord)
    ensures ArtifactMap([record]) == map[record.relativePath := ArtifactRowOf(record)]
  {
    assert [record][..0] == [];
  }

  lemma DeriveKeepsFiles(codec: Codec, s: Store, id: RunId, name: string, kind: string, payload: Bytes, fault: Fault)
    ensures var t := DeriveResult(codec, s, id, name, kind, payload, fault).0;
            FilesKept(s, t) && t.trash == s.trash && t.dirs.Keys == s.dirs.Keys
  {
    hide RecordFor, WithArtifact;
  }

  lemma DeriveEffect(codec: Codec, s: Store, id: RunId, name: string, kind: string, payload: Bytes, fault: Fault)
    ensures var op := Derive(id, name, kind, payload);
            var record, t := RecordFor(codec, id, name, kind, payload), DeriveResult(codec, s, id, name, kind, payload, fault).0;
            && FilesKept(s, t)
            && t.trash == s.trash && t.dirs.Keys == s.dirs.Keys
            && (t.rows == s.rows || WithArtifact(s.rows, id, record) == Ok(t.rows))
            && (LosesCommittedFile(codec, s, op, fault) ==> t.rows != s.rows)
            && (t.rows != s.rows ==>
                  && id in s.dirs && id in t.dirs
                  && t.dirs[id] == if LosesCommittedFile(codec, s, op, fault) then s.dirs[id] else s.dirs[id][name := payload])
            && (t.rows != s.rows ==> name !in s.dirs[id])
  {
    hide RecordFor, ArtifactRowOf, FilesKept, OneMoreArtifact, WithArtifact;
    DeriveKeepsFiles(codec, s, id, name, kind, payload, fault);
    var registered := WithArtifact(s.rows, id, RecordFor(codec, id, name, kind, payload));
    if registered.Ok? {
      WithArtifactChanges(s.rows, id, RecordFor(codec, id, name, kind, payload));
    }
  }

  lemma WithArtifactChanges(c: Catalogue, id: RunId, record: ArtifactRecord)
    requires WithArtifact(c, id, record).Ok?
    ensures WithArtifact(c, id, record).value != c
    ensures OneMoreArtifact(c, WithArtifact(c, id, record).value, id, record)
    ensures record.relativePath !in c.runs[id].artifacts
  {
    assert record.relativePath in WithArtifact(c, id, record).value.runs[id].artifacts;
  }

  lemma DeriveAnchored(codec: Codec, s: Store, id: RunId, name: string, kind: string, payload: Bytes, fault: Fault)
    requires Anchored(codec, s)
    ensures var op := Derive(id, name, kind, payload);
            Anchored(codec, Perform(codec, s, op, fault).0) <==> !LosesCommittedFile(codec, s, op, fault)
  {
    hide Anchored, FilesKept, LosesCommittedFile, DeriveResult, RecordFor, WithArtifact, OneMoreArtifact, OnDisk;
    var t := DeriveResult(codec, s, id, name, kind, payload, fault).0;
    var record := RecordFor(codec, id, name, kind, payload);
    DeriveEffect(codec, s, id, name, kind, payload, fault);
    if t.rows == s.rows {
      KeptIsAnchored(codec, s, t);
    } else {
      WithArtifactChanges(s.rows, id, record);
      OneMoreIsAnchored(codec, s, t, id, record);
      RecordPath(codec, id, name, kind, payload);
      if name in t.dirs[id] {
        NewFileOnDisk(codec, t, id, name, kind, payload);
      } else {
        MissingFileNotOnDisk(codec, t, id, name, ArtifactRowOf(record));
      }
    }
  }

  /** Deletion takes away that run at most, and moves its directory only once its rows are gone. */
  lemma RemovedRuns(s: Store, id: RunId, strike: Strike)
    ensures var t := DeleteResult(s, id, strike).0;
            && (t.rows.runs == s.rows.runs || t.rows.runs == s.rows.runs - {id})
            && (t.dirs == s.dirs || (t.dirs == s.dirs - {id} && id !in t.rows.runs))
  {
  }

  /** Deletion removes the run's rows before it touches the run's directory. */
  lemma DeleteAnchored(codec: Codec, s: Store, id: RunId, fault: Fault)
    requires Anchored(codec, s)
    ensures Anchored(codec, DeleteResult(s, id, fault.strike).0)
  {
    hide WithoutRun;
    var t := DeleteResult(s, id, fault.strike).0;
    RemovedRuns(s, id, fault.strike);
    forall other, path | other in t.rows.runs && path in t.rows.runs[other].artifacts
      ensures OnDisk(codec, t, other, path, t.rows.runs[other].artifacts[path])
    {
      assert OnDisk(codec, s, other, path, s.rows.runs[other].artifacts[path]);
      assert t.dirs == s.dirs || other != id;
      OnDiskAfter(codec, s, t, other, path, s.rows.runs[other].artifacts[path]);
    }
  }

  /** One operation under one fault keeps every registered artifact on disk and intact if and
      only if no clean-up handler runs after a commit that went through. */
  lemma CrashConsistentStep(codec: Codec, s: Store, op: Operation, fault: Fault)
    requires Anchored(codec, s)
    ensures Anchored(codec, Perform(codec, s, op, fault).0) <==> !LosesCommittedFile(codec, s, op, fault)
  {
    match op
    case Persist(e, capturedAt, savedAt) =>
      PersistAnchored(codec, s, e, capturedAt, savedAt, fault);
    case Derive(id, name, kind, content) =>
      DeriveAnchored(codec, s, id, name, kind, content, fault);
    case Delete(id) =>
      DeleteAnchored(codec, s, id, fault);
    case Baseline(name, source, createdAt) =>
      KeptIsAnchored(codec, s, Perform(codec, s, op, fault).0);
  }

  predicate NoCleanUpAfterCommit(history: seq<Event>) {
    forall i :: 0 <= i < |history| ==> !CleansUpAfterCommit(history[i].0, history[i].1)
  }

  /** Crash consistency: from the empty store, after any operations, each stopped or interrupted
      anywhere, every artifact row names a file of its own run with the recorded hash and length. */
  lemma {:induction false} CrashConsistency(codec: Codec, s: Store, history: seq<Event>)
    requires Anchored(codec, s)
    requires NoCleanUpAfterCommit(history)
    ensures Anchored(codec, Run(codec, s, history))
    decreases |history|
  {
    if history != [] {
      CrashConsistentStep(codec, s, history[0].0, history[0].1);
      assert forall i :: 0 <= i < |history[1..]| ==> history[1..][i] == history[i + 1];
      CrashConsistency(codec, Perform(codec, s, history[0].0, history[0].1).0, history[1..]);
    }
  }

  lemma EmptyIsAnchored(codec: Codec)
    ensures Anchored(codec, EMPTY_STORE)
  {
  }

  // ---- No file is ever lost or altered ----

  /** The file is in place, or it went into the trash with its whole directory. */
  ghost predicate Survives(s: Store, t: Store, id: RunId, name: string)
    requires id in s.dirs && name in s.dirs[id]
  {
    || (id in t.dirs && name in t.dirs[id] && t.dirs[id][name] == s.dirs[id][name])
    || (exists k :: |s.trash| <= k < |t.trash| && t.trash[k].0 == id && name in t.trash[k].1 && t.trash[k].1[name] == s.dirs[id][name])
  }

  ghost predicate NothingLost(s: Store, t: Store) {
    && s.trash <= t.trash
    && forall id, name :: id in s.dirs && name in s.dirs[id] ==> Survives(s, t, id, name)
  }

  lemma KeptIsNotLost(s: Store, t: Store)
    requires FilesKept(s, t) && t.trash == s.trash
    ensures NothingLost(s, t)
  {
  }

  lemma DeleteLosesNothing(s: Store, id: RunId, fault: Fault)
    ensures NothingLost(s, DeleteResult(s, id, fault.strike).0)
  {
    hide WithoutRun;
    var t := DeleteResult(s, id, fault.strike).0;
    if t.dirs == s.dirs {
      KeptIsNotLost(s, t);
    } else {
      var k := |s.trash|;
      assert t.trash[k] == (id, s.dirs[id]);
      forall other, name | other in s.dirs && name in s.dirs[other]
        ensures Survives(s, t, other, name)
      {
        if other == id {
          assert name in t.trash[k].1;
        }
      }
    }
  }

  /** Whatever the fault, a file that existed before an operation keeps its bytes. */
  lemma StepLosesNothing(codec: Codec, s: Store, op: Operation, fault: Fault)
    ensures NothingLost(s, Perform(codec, s, op, fault).0)
  {
    hide FilesKept, NothingLost, PersistResult, DeriveResult, DeleteResult, LosesCommittedFile;
    var t := Perform(codec, s, op, fault).0;
    match op
    case Persist(e, capturedAt, savedAt) =>
      PersistEffect(codec, s, e, capturedAt, savedAt, fault);
      KeptIsNotLost(s, t);
    case Derive(id, name, kind, content) =>
      DeriveEffect(codec, s, id, name, kind, content, fault);
      KeptIsNotLost(s, t);
    case Delete(id) =>
      DeleteLosesNothing(s, id, fault);
    case Baseline(name, source, createdAt) =>
      SameFilesKept(s, t);
      KeptIsNotLost(s, t);
  }

  lemma SameFilesKept(s: Store, t: Store)
    requires s.dirs == t.dirs
    ensures FilesKept(s, t)
  {
  }

  lemma NothingLostTransitive(s: Store, t: Store, u: Store)
    requires NothingLost(s, t) && NothingLost(t, u)
    ensures NothingLost(s, u)
  {
    forall id, name | id in s.dirs && name in s.dirs[id]
      ensures Survives(s, u, id, name)
    {
      assert Survives(s, t, id, name);
      if id in t.dirs && name in t.dirs[id] && t.dirs[id][name] == s.dirs[id][name] {
        assert Survives(t, u, id, name);
      } else {
        var k :| |s.trash| <= k < |t.trash| && t.trash[k].0 == id && name in t.trash[k].1 && t.trash[k].1[name] == s.dirs[id][name];
        assert u.trash[k] == t.trash[k];
      }
    }
  }

  /** In every history of operations and faults, without exception, each file that any operation
      leaves behind stays in place unchanged or lies in the trash unchanged. */
  lemma {:induction false} NoFileIsEverLost(codec: Codec, s: Store, history: seq<Event>)
    ensures NothingLost(s, Run(codec, s, history))
    decreases |history|
  {
    if history == [] {
      KeptIsNotLost(s, s);
    } else {
      var next := Perform(codec, s, history[0].0, history[0].1).0;
      StepLosesNothing(codec, s, history[0].0, history[0].1);
      NoFileIsEverLost(codec, next, history[1..]);
      NothingLostTransitive(s, next, Run(codec, next, history[1..]));
    }
  }

  // ---- Both stores agree, and a failed operation leaves no trace ----

  /** The run directories are exactly the stored runs, and their files exactly the registered artifacts. */
  ghost predicate Synced(s: Store) {
    && s.dirs.Keys == s.rows.runs.Keys
    && forall id :: id in s.dirs ==> FilesAreRegistered(id, s.dirs[id], s.rows.runs[id].artifacts)
  }

  ghost predicate FilesAreRegistered(id: RunId, files: Directory, artifacts: map<string, ArtifactRow>) {
    && (forall name :: name in files <==> RelativePath(id, name) in artifacts)
    && (forall path :: path in artifacts ==> exists name :: path == RelativePath(id, name))
  }

  /** The step at which an operation raises on its own or because of a strike; none when its guards
      turn it away first. A row that the constraints reject raises at the commit. */
  function RaisedAt(codec: Codec, s: Store, op: Operation, strike: Strike): Option<Step> {
    if strike.Raise? && Reaches(codec, s, op, strike.at) then Some(strike.at)
    else if Rejects(codec, s, op) then Some(Commit)
    else None
  }

  /** The constraints refuse the rows of an operation that its guards let through. */
  predicate Rejects(codec: Codec, s: Store, op: Operation) {
    match op
    case Persist(e, _, _) => Reaches(codec, s, op, Commit) && !Admissible(s.rows, e, PersistRecords(codec, e))
    case Derive(id, name, kind, content) =>
      Reaches(codec, s, op, Commit) && WithArtifact(s.rows, id, RecordFor(codec, id, name, kind, content)).Err?
    case Delete(_) => false
    case Baseline(_, _, _) => false
  }

  /** An exception at that step leaves no trace. It does leave one where no handler is in charge:
      after the directory is made but before the `try`, between the rename and the flag, after a
      commit, between the deletion of the rows and the move of the files; and where the handler is
      cut short with an action left to do. */
  predicate Traceless(op: Operation, at: Step, handling: Handling) {
    match op
    case Persist(_, _, _) => at != Serialise && at != Return && (at == MakeDirectory || Finishes(handling, 2))
    case Derive(_, _, _, _) => at != MarkCreated && at != Return && (at == OpenTemp || Finishes(handling, 1))
    case Delete(_) => at == Commit
    case Baseline(_, _, _) => true
  }

  /** All or nothing, exactly: the store is as it was. */
  predicate LeavesNothing(codec: Codec, s: Store, op: Operation, fault: Fault) {
    var at := RaisedAt(codec, s, op, fault.strike);
    at.None? || Traceless(op, at.value, fault.handling)
  }

  lemma PersistAllOrNothing(codec: Codec, s: Store, e: RunExecution, capturedAt: int, savedAt: int, fault: Fault)
    ensures var op := Persist(e, capturedAt, savedAt);
            var (t, outcome) := Perform(codec, s, op, fault);
            outcome.Raised? ==> (t == s <==> LeavesNothing(codec, s, op, fault))
  {
    hide Admissible, PersistRecords, NewEvidence;
    var id := e.run.runId;
    UpdateIsSeen(s.dirs, id, map[]);
    if fault.strike.Raise? {
      UpdateIsSeen(s.dirs, id, FilesAt(fault.strike.at, map[], RUN_JSON, codec.dump(e), fault.strike.written));
    }
    UpdateIsSeen(s.dirs, id, FilesAt(Commit, map[], RUN_JSON, codec.dump(e), 0));
    hide FilesAt;
  }

  lemma DeriveAllOrNothing(codec: Codec, s: Store, id: RunId, name: string, kind: string, content: Bytes, fault: Fault)
    ensures var op := Derive(id, name, kind, content);
            var (t, outcome) := Perform(codec, s, op, fault);
            outcome.Raised? ==> (t == s <==> LeavesNothing(codec, s, op, fault))
  {
    hide RecordFor, TempName, FilesAt, FilesUndone;
    if id in s.dirs && name !in s.dirs[id] && TempName(name) !in s.dirs[id] {
      var files := s.dirs[id];
      if fault.strike.Raise? {
        StepShows(fault.strike.at, files, name, content, fault.strike.written);
        UpdateIsSeen(s.dirs, id, FilesAt(fault.strike.at, files, name, content, fault.strike.written));
        UpdateIsSeen(s.dirs, id, FilesUndone(fault.strike.at, files, name, content));
      }
      StepShows(Commit, files, name, content, 0);
      UpdateIsSeen(s.dirs, id, FilesAt(Commit, files, name, content, 0));
      UpdateIsSeen(s.dirs, id, FilesUndone(Commit, files, name, content));
    }
    if WithArtifact(s.rows, id, RecordFor(codec, id, name, kind, content)).Ok? {
      WithArtifactChanges(s.rows, id, RecordFor(codec, id, name, kind, content));
    }
    hide WithArtifact, OneMoreArtifact;
  }

  lemma UpdateIsSeen(dirs: map<RunId, Directory>, id: RunId, files: Directory)
    ensures dirs[id := files] == dirs <==> id in dirs && dirs[id] == files
  {
    assert id in dirs[id := files] && dirs[id := files][id] == files;
  }

  /** At which steps the directory of a report differs from what it was, before and after the handler. */
  lemma StepShows(at: Step, files: Directory, name: string, payload: Bytes, written: nat)
    requires name !in files && TempName(name) !in files
    ensures FilesAt(at, files, name, payload, written) == files <==> at !in {WriteTemp, Replace, MarkCreated, Commit, Return}
    ensures FilesUndone(at, files, name, payload) == files <==> at != MarkCreated
  {
    hide TempName;
    AddedFileIsSeen(files, name, payload);
    AddedFileIsSeen(files, TempName(name), payload);
    AddedFileIsSeen(files, TempName(name), Written(payload, written));
  }

  lemma AddedFileIsSeen(files: Directory, name: string, content: Bytes)
    requires name !in files
    ensures files[name := content] != files
  {
    assert name in files[name := content];
  }

  lemma DeleteAllOrNothing(codec: Codec, s: Store, id: RunId, fault: Fault)
    ensures var op := Delete(id);
            var (t, outcome) := Perform(codec, s, op, fault);
            outcome.Raised? ==> (t == s <==> LeavesNothing(codec, s, op, fault))
  {
    if WithoutRun(s.rows, id).Ok? {
      assert id !in WithoutRun(s.rows, id).value.runs;
    }
    hide WithoutRun;
  }

  /** All or nothing: for every fault, an exception in the handler included, an operation that raises
      leaves files, trash and rows exactly as they were if and only if its guards turned it away or
      the exception came at a step that leaves no trace. */
  lemma AllOrNothing(codec: Codec, s: Store, op: Operation, fault: Fault)
    ensures var (t, outcome) := Perform(codec, s, op, fault);
            outcome.Raised? ==> (t == s <==> LeavesNothing(codec, s, op, fault))
  {
    match op
    case Persist(e, capturedAt, savedAt) =>
      PersistAllOrNothing(codec, s, e, capturedAt, savedAt, fault);
    case Derive(id, name, kind, content) =>
      DeriveAllOrNothing(codec, s, id, name, kind, content, fault);
    case Delete(id) =>
      DeleteAllOrNothing(codec, s, id, fault);
    case Baseline(name, source, createdAt) =>
  }

  /** No strike, or an exception at a step that leaves no trace, and no handler cut short. */
  predicate Handled(event: Event) {
    var (op, fault) := event;
    && (fault.strike.Nothing? || (fault.strike.Raise? && Traceless(op, fault.strike.at, fault.handling)))
    && !fault.handling.Dies? && Finishes(fault.handling, 2)
  }

  lemma HandledIsAllOrNothing(codec: Codec, s: Store, op: Operation, fault: Fault)
    requires Handled((op, fault))
    ensures var (t, outcome), (done, success) := Perform(codec, s, op, fault), Perform(codec, s, op, NO_FAULT);
            t == s || (t == done && success.Returned?)
  {
    AllOrNothing(codec, s, op, fault);
    hide Admissible, WithArtifact, WithoutRun, WithBaseline, RecordFor, PersistRecords, NewEvidence;
  }

  lemma OnlyThatPath(id: RunId, name: string)
    ensures forall other :: RelativePath(id, other) == RelativePath(id, name) ==> other == name
  {
    forall other | RelativePath(id, other) == RelativePath(id, name)
      ensures other == name
    {
      RelativePathInjective(id, other, name);
    }
  }

  lemma SyncedUpdate(s: Store, t: Store, id: RunId, files: Directory, ev: Evidence)
    requires Synced(s)
    requires t.dirs == s.dirs[id := files] && t.rows.runs == s.rows.runs[id := ev]
    requires FilesAreRegistered(id, files, ev.artifacts)
    ensures Synced(t)
  {
    hide FilesAreRegistered;
  }

  lemma FirstFileRegistered(id: RunId, name: string, payload: Bytes, row: ArtifactRow)
    ensures FilesAreRegistered(id, map[name := payload], map[RelativePath(id, name) := row])
  {
    OnlyThatPath(id, name);
    hide RelativePath;
  }

  lemma NextFileRegistered(id: RunId, files: Directory, artifacts: map<string, ArtifactRow>, name: string, payload: Bytes, row: ArtifactRow)
    requires FilesAreRegistered(id, files, artifacts)
    ensures FilesAreRegistered(id, files[name := payload], artifacts[RelativePath(id, name) := row])
  {
    OnlyThatPath(id, name);
    hide RelativePath;
  }

  lemma PersistSynced(codec: Codec, s: Store, e: RunExecution, capturedAt: int, savedAt: int)
    requires Synced(s)
    requires Perform(codec, s, Persist(e, capturedAt, savedAt), NO_FAULT).1.Returned?
    ensures Synced(Perform(codec, s, Persist(e, capturedAt, savedAt), NO_FAULT).0)
  {
    hide Canonical, RelativePath, Synced, Admissible;
    var t := Perform(codec, s, Persist(e, capturedAt, savedAt), NO_FAULT).0;
    var id := e.run.runId;
    var record := RecordFor(codec, id, RUN_JSON, "run_json", codec.dump(e));
    SingleArtifact(record);
    hide ArtifactMap;
    FirstFileRegistered(id, RUN_JSON, codec.dump(e), ArtifactRowOf(record));
    SyncedUpdate(s, t, id, map[RUN_JSON := codec.dump(e)], NewEvidence(s.rows, e, [record], capturedAt, savedAt));
  }

  lemma DeriveSynced(codec: Codec, s: Store, id: RunId, name: string, kind: string, content: Bytes)
    requires Synced(s)
    requires Perform(codec, s, Derive(id, name, kind, content), NO_FAULT).1.Returned?
    ensures Synced(Perform(codec, s, Derive(id, name, kind, content), NO_FAULT).0)
  {
    hide RelativePath, FilesAreRegistered;
    var t := Perform(codec, s, Derive(id, name, kind, content), NO_FAULT).0;
    var record := RecordFor(codec, id, name, kind, content);
    NextFileRegistered(id, s.dirs[id], s.rows.runs[id].artifacts, name, content, ArtifactRowOf(record));
    hide Synced;
    SyncedUpdate(s, t, id, s.dirs[id][name := content], t.rows.runs[id]);
  }

  lemma DeleteSynced(s: Store, id: RunId)
    requires Synced(s) && WithoutRun(s.rows, id).Ok?
    ensures Synced(DeleteResult(s, id, Nothing).0)
  {
    hide FilesAreRegistered;
  }

  /** Both stores stay in step through every operation whose faults the handlers undo. */
  lemma SyncedStep(codec: Codec, s: Store, op: Operation, fault: Fault)
    requires Synced(s) && Handled((op, fault))
    ensures Synced(Perform(codec, s, op, fault).0)
  {
    hide FilesAreRegistered, Admissible, WithArtifact, RecordFor, PersistRecords, NewEvidence, Handled;
    HandledIsAllOrNothing(codec, s, op, fault);
    var (done, success) := Perform(codec, s, op, NO_FAULT);
    if success.Returned? {
      match op
      case Persist(e, capturedAt, savedAt) =>
        PersistSynced(codec, s, e, capturedAt, savedAt);
      case Derive(id, name, kind, content) =>
        DeriveSynced(codec, s, id, name, kind, content);
      case Delete(id) =>
        DeleteSynced(s, id);
      case Baseline(name, source, createdAt) =>
        assert Synced(done);
    }
  }

  /** Over whole histories: the files under `runs/` are exactly the registered artifacts, and the
      run directories exactly the stored run identifiers. */
  lemma {:induction false} StoresStayInStep(codec: Codec, s: Store, history: seq<Event>)
    requires Synced(s)
    requires forall i :: 0 <= i < |history| ==> Handled(history[i])
    ensures Synced(Run(codec, s, history))
    decreases |history|
  {
    if history != [] {
      SyncedStep(codec, s, history[0].0, history[0].1);
      assert forall i :: 0 <= i < |history[1..]| ==> history[1..][i] == history[i + 1];
      StoresStayInStep(codec, Perform(codec, s, history[0].0, history[0].1).0, history[1..]);
    }
  }

  lemma EmptyIsSynced()
    ensures Synced(EMPTY_STORE)
  {
  }

  // ---- The canonical JSON and the tables tell the same story ----

  /** `run.json` of every stored run is on disk, registered, and is the text of the execution the
      tables give back. */
  ghost predicate Mirrored(codec: Codec, s: Store) {
    forall id :: id in s.rows.runs ==> HasCanonicalJson(codec, s, id)
  }

  ghost predicate HasCanonicalJson(codec: Codec, s: Store, id: RunId)
    requires id in s.rows.runs
  {
    && id in s.dirs && RUN_JSON in s.dirs[id]
    && s.dirs[id][RUN_JSON] == codec.dump(s.rows.runs[id].execution)
    && RelativePath(id, RUN_JSON) in s.rows.runs[id].artifacts
  }

  /** Executions keyed like the runner's, and no handler that deletes a committed `run.json`. */
  predicate Faithful(event: Event) {
    && (event.0.Persist? ==> TelemetryMatchesResults(event.0.e))
    && !CleansUpAfterCommit(event.0, event.1)
  }

  lemma PersistMirrored(codec: Codec, s: Store, e: RunExecution, capturedAt: int, savedAt: int, fault: Fault)
    requires Mirrored(codec, s) && Faithful((Persist(e, capturedAt, savedAt), fault))
    ensures Mirrored(codec, Perform(codec, s, Persist(e, capturedAt, savedAt), fault).0)
  {
    var id, t := e.run.runId, PersistResult(codec, s, e, capturedAt, savedAt, fault).0;
    var record := RecordFor(codec, id, RUN_JSON, "run_json", codec.dump(e));
    hide PersistResult, Canonical, RelativePath, TelemetryMatchesResults, LosesCommittedFile;
    PersistEffect(codec, s, e, capturedAt, savedAt, fault);
    assert !LosesCommittedFile(codec, s, Persist(e, capturedAt, savedAt), fault) by { NotLost(codec, s, Persist(e, capturedAt, savedAt), fault); }
    SingleArtifact(record);
    RecordPath(codec, id, RUN_JSON, "run_json", codec.dump(e));
    hide ArtifactMap, RecordFor;
    forall other | other in t.rows.runs
      ensures HasCanonicalJson(codec, t, other)
    {
      if other in s.rows.runs {
        assert HasCanonicalJson(codec, s, other);
      } else {
        assert t.rows.runs[id].execution == Canonical(e) == e;
      }
    }
  }

  lemma NotLost(codec: Codec, s: Store, op: Operation, fault: Fault)
    requires !CleansUpAfterCommit(op, fault)
    ensures !LosesCommittedFile(codec, s, op, fault)
  {
  }

  lemma DeriveMirrored(codec: Codec, s: Store, id: RunId, name: string, kind: string, content: Bytes, fault: Fault)
    requires Mirrored(codec, s)
    ensures Mirrored(codec, Perform(codec, s, Derive(id, name, kind, content), fault).0)
  {
    var t := DeriveResult(codec, s, id, name, kind, content, fault).0;
    hide DeriveResult, RelativePath, LosesCommittedFile, RecordFor;
    DeriveEffect(codec, s, id, name, kind, content, fault);
    forall other | other in t.rows.runs
      ensures HasCanonicalJson(codec, t, other)
    {
      assert HasCanonicalJson(codec, s, other);
    }
  }

  lemma RemovalMirrored(codec: Codec, s: Store, t: Store)
    requires Mirrored(codec, s)
    requires forall id :: id in t.rows.runs ==> id in s.rows.runs && t.rows.runs[id] == s.rows.runs[id]
    requires forall id :: id in t.rows.runs && id in s.dirs ==> id in t.dirs && t.dirs[id] == s.dirs[id]
    ensures Mirrored(codec, t)
  {
    forall id | id in t.rows.runs
      ensures HasCanonicalJson(codec, t, id)
    {
      assert HasCanonicalJson(codec, s, id);
    }
  }

  lemma MirroredStep(codec: Codec, s: Store, op: Operation, fault: Fault)
    requires Mirrored(codec, s) && Faithful((op, fault))
    ensures Mirrored(codec, Perform(codec, s, op, fault).0)
  {
    hide Mirrored, Faithful, PersistResult, DeriveResult;
    match op
    case Persist(e, capturedAt, savedAt) =>
      PersistMirrored(codec, s, e, capturedAt, savedAt, fault);
    case Derive(id, name, kind, content) =>
      DeriveMirrored(codec, s, id, name, kind, content, fault);
    case Delete(id) =>
      DeleteMirrored(codec, s, id, fault);
    case Baseline(name, source, createdAt) =>
      RemovalMirrored(codec, s, Perform(codec, s, op, fault).0);
  }

  lemma DeleteMirrored(codec: Codec, s: Store, id: RunId, fault: Fault)
    requires Mirrored(codec, s)
    ensures Mirrored(codec, DeleteResult(s, id, fault.strike).0)
  {
    hide Mirrored, IsBaselineSource;
    RemovalMirrored(codec, s, DeleteResult(s, id, fault.strike).0);
  }

  /** Over whole histories with faults anywhere: `run.json` of every stored run is the text of the
      execution the tables give back. */
  lemma {:induction false} CanonicalJsonMatchesTables(codec: Codec, s: Store, history: seq<Event>)
    requires Mirrored(codec, s)
    requires forall i :: 0 <= i < |history| ==> Faithful(history[i])
    ensures Mirrored(codec, Run(codec, s, history))
    decreases |history|
  {
    hide Mirrored, Faithful, Perform;
    if history != [] {
      MirroredStep(codec, s, history[0].0, history[0].1);
      assert forall i :: 0 <= i < |history[1..]| ==> history[1..][i] == history[i + 1];
      CanonicalJsonMatchesTables(codec, Perform(codec, s, history[0].0, history[0].1).0, history[1..]);
    }
  }

  // ---- What a kill leaves behind ----

  /** A half-written or unregistered file of that name lies in the run's directory. */
  predicate Blocked(s: Store, id: RunId, name: string) {
    id in s.dirs && (name in s.dirs[id] || TempName(name) in s.dirs[id])
  }

  predicate DoesNotDelete(history: seq<Event>, id: RunId) {
    forall i :: 0 <= i < |history| ==> history[i].0 != Delete(id)
  }

  lemma BlockedStays(codec: Codec, s: Store, id: RunId, name: string, op: Operation, fault: Fault)
    requires Blocked(s, id, name) && op != Delete(id)
    ensures Blocked(Perform(codec, s, op, fault).0, id, name)
  {
    match op
    case Persist(e, capturedAt, savedAt) => PersistEffect(codec, s, e, capturedAt, savedAt, fault);
    case Derive(other, n, kind, content) => DeriveKeepsFiles(codec, s, other, n, kind, content, fault);
    case Delete(other) =>
    case Baseline(_, _, _) =>
    hide PersistResult, DeriveResult, WithoutRun;
  }

  lemma {:induction false} BlockedForever(codec: Codec, s: Store, history: seq<Event>, id: RunId, name: string)
    requires Blocked(s, id, name) && DoesNotDelete(history, id)
    ensures Blocked(Run(codec, s, history), id, name)
    decreases |history|
  {
    if history != [] {
      BlockedStays(codec, s, id, name, history[0].0, history[0].1);
      assert forall i :: 0 <= i < |history[1..]| ==> history[1..][i] == history[i + 1];
      BlockedForever(codec, Perform(codec, s, history[0].0, history[0].1).0, history[1..], id, name);
    }
  }

  /** The fault leaves the temporary file or an unregistered artifact behind: the process stops, the
      flag is not set yet, or the handler is cut short. */
  predicate LeavesLeftover(fault: Fault) {
    || (fault.strike.Kill? && fault.strike.at in {WriteTemp, Replace, MarkCreated, Commit})
    || (fault.strike.Raise? && fault.strike.at == MarkCreated)
    || (fault.strike.Raise? && fault.strike.at in {WriteTemp, Replace, Commit} && !Finishes(fault.handling, 1))
  }

  /** A report that was cut short in this way can never be written again: until the run is deleted
      every later attempt raises and changes nothing, although no row was ever recorded for it. */
  lemma LeftoverBlocksReportForever(codec: Codec, s: Store, id: RunId, name: string, kind: string, content: Bytes, fault: Fault,
                                    history: seq<Event>, again: Bytes, later: Fault)
    requires id in s.rows.runs && id in s.dirs && !Blocked(s, id, name)
    requires WithArtifact(s.rows, id, RecordFor(codec, id, name, kind, content)).Ok?
    requires LeavesLeftover(fault)
    requires DoesNotDelete(history, id)
    ensures var cut := Perform(codec, s, Derive(id, name, kind, content), fault).0;
            var end := Run(codec, cut, history);
            && cut.rows == s.rows
            && Perform(codec, end, Derive(id, name, kind, again), later).0 == end
            && Perform(codec, end, Derive(id, name, kind, again), later).1.Raised?
  {
    var cut := Perform(codec, s, Derive(id, name, kind, content), fault).0;
    assert Blocked(cut, id, name);
    hide WithArtifact;
    BlockedForever(codec, cut, history, id, name);
  }

  /** Without a committed row, an attempt on a free name leaves it blocked only in these ways. */
  lemma OnlyLeftoversBlock(codec: Codec, s: Store, id: RunId, name: string, kind: string, content: Bytes, fault: Fault)
    requires id in s.rows.runs && id in s.dirs && !Blocked(s, id, name)
    requires WithArtifact(s.rows, id, RecordFor(codec, id, name, kind, content)).Ok?
    ensures var cut := Perform(codec, s, Derive(id, name, kind, content), fault).0;
            Blocked(cut, id, name) && cut.rows == s.rows <==> LeavesLeftover(fault)
  {
    WithArtifactChanges(s.rows, id, RecordFor(codec, id, name, kind, content));
    hide WithArtifact, OneMoreArtifact, RecordFor;
  }
}
