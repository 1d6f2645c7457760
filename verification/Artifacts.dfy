/** The artifact service: the step-by-step operations on files and rows, with their exception
    handlers, each proved against the result `EvidenceStore` gives for it. */
module Artifacts {
  import opened Models
  import opened Schema
  import opened Catalogues
  import opened Histories
  import opened Repository
  import opened EvidenceStore

  predicate Hits(strike: Strike, step: Step) {
    !strike.Nothing? && strike.at == step
  }

  class ArtifactStore {
    const codec: Codec
    const repository: SQLiteRepository
    var dirs: map<RunId, Directory>
    var trash: seq<(RunId, Directory)>

    ghost predicate Valid()
      reads this, repository
    {
      repository.Valid()
    }

    ghost function State(): Store
      reads this, repository
    {
      Store(dirs, trash, repository.catalogue)
    }

    constructor (codec: Codec)
      ensures Valid()
      ensures State() == EMPTY_STORE && this.codec == codec
      ensures fresh(repository)
    {
      hide SQLiteRepository.Valid;
      this.codec := codec;
      repository := new SQLiteRepository();
      dirs := map[];
      trash := [];
    }

    method WriteFile(id: RunId, name: string, content: Bytes)
      requires id in dirs
      modifies this`dirs
      ensures dirs == old(dirs)[id := old(dirs)[id][name := content]]
    {
      dirs := dirs[id := dirs[id][name := content]];
    }

    method Unlink(id: RunId, name: string)
      requires id in dirs
      modifies this`dirs
      ensures dirs == old(dirs)[id := old(dirs)[id] - {name}]
    {
      dirs := dirs[id := dirs[id] - {name}];
    }

    method Rename(id: RunId, source: string, target: string)
      requires id in dirs && source in dirs[id]
      modifies this`dirs
      ensures dirs == old(dirs)[id := (old(dirs)[id] - {source})[target := old(dirs)[id][source]]]
    {
      dirs := dirs[id := (dirs[id] - {source})[target := dirs[id][source]]];
    }

    /** Opens the temporary file, writes it, and renames it onto the artifact. */
    method WriteAtomically(id: RunId, name: string, payload: Bytes, strike: Strike) returns (thrown: bool)
      requires id in dirs && name !in dirs[id] && TempName(name) !in dirs[id]
      modifies this`dirs
      ensures thrown <==> Hits(strike, OpenTemp) || Hits(strike, WriteTemp) || Hits(strike, Replace)
      ensures dirs == old(dirs)[id := FilesAt(if thrown then strike.at else Commit, old(dirs)[id], name, payload, if thrown then strike.written else 0)]
    {
      hide TempName, FilesAt;
      var temp := TempName(name);
      ghost var files := dirs[id];
      FilesWhileWriting(files, name, payload);
      if Hits(strike, OpenTemp) {
        assert dirs[id := files] == dirs;
        return true;
      }
      WriteFile(id, temp, []);
      if Hits(strike, WriteTemp) {
        WriteFile(id, temp, Written(payload, strike.written));
        assert dirs[id] == files[temp := Written(payload, strike.written)];
        assert dirs == old(dirs)[id := dirs[id]];
        return true;
      }
      WriteFile(id, temp, payload);
      assert dirs[id] == files[temp := payload];
      assert dirs == old(dirs)[id := dirs[id]];
      if Hits(strike, Replace) {
        return true;
      }
      Rename(id, temp, name);
      assert dirs[id] == files[name := payload] by { RenameEffect(files, temp, name, payload); }
      assert dirs == old(dirs)[id := dirs[id]];
      thrown := false;
    }

    /** The `try` block of `PersistExecution`: what stopped it, what the directory then holds, and
        whether the rows are committed. */
    method TryPersist(e: RunExecution, capturedAt: int, savedAt: int, strike: Strike) returns (thrown: Option<ArtifactError>)
      requires Valid()
      requires e.run.runId in dirs && dirs[e.run.runId] == map[]
      requires !Hits(strike, MakeDirectory) && !Hits(strike, Serialise)
      modifies this`dirs, repository
      ensures Valid()
      ensures var id, payload, rows := e.run.runId, codec.dump(e), old(repository.catalogue);
              var accepted := Admissible(rows, e, PersistRecords(codec, e));
              var event := Decisive(strike, !strike.Nothing? && PersistStep(strike.at), accepted);
              var at := if event.Nothing? then Return else event.at;
              && thrown == (if event.Nothing? then None else Some(if event == strike then Interrupted else Rejected))
              && dirs == old(dirs)[id := FilesAt(at, map[], RUN_JSON, payload, if event.Nothing? then 0 else event.written)]
              && repository.catalogue == (if at == Return then Saved(rows, e, PersistRecords(codec, e), capturedAt, savedAt) else rows)
    {
      hide SQLiteRepository.Valid, Admissible, Saved, RecordFor, TempName;
      var id, payload := e.run.runId, codec.dump(e);
      var written := WriteAtomically(id, RUN_JSON, payload, strike);
      if written {
        return Some(Interrupted);
      }
      var artifact := RecordFor(codec, id, RUN_JSON, "run_json", payload);
      if Hits(strike, Commit) {
        return Some(Interrupted);
      }
      var saved := repository.SaveExecution(e, [artifact], capturedAt, savedAt);
      if saved.Err? {
        return Some(Rejected);
      }
      if Hits(strike, Return) {
        return Some(Interrupted);
      }
      thrown := None;
    }

    /** The handler of `PersistExecution` removes the directory tree: first the files in it, then the
        directory. The process may stop before either, or the removal may raise. */
    method RemoveTree(id: RunId, handling: Handling)
      requires id in dirs
      modifies this`dirs
      ensures dirs == if Finishes(handling, 2) then old(dirs) - {id}
                      else if Finishes(handling, 1) then old(dirs)[id := map[]]
                      else old(dirs)
    {
      if !Finishes(handling, 1) {
        return;
      }
      dirs := dirs[id := map[]];
      if !Finishes(handling, 2) {
        return;
      }
      dirs := dirs - {id};
    }

    /** `PersistExecution` once the directory is made: the `try` block and its handler. */
    method PersistInto(e: RunExecution, capturedAt: int, savedAt: int, fault: Fault, ghost before: Store) returns (outcome: Outcome)
      requires Valid()
      requires e.run.runId !in before.dirs && dirs == before.dirs[e.run.runId := map[]]
      requires trash == before.trash && repository.catalogue == before.rows
      requires !Hits(fault.strike, MakeDirectory) && !Hits(fault.strike, Serialise)
      modifies this`dirs, repository
      ensures Valid()
      ensures (State(), outcome) == PersistResult(codec, before, e, capturedAt, savedAt, fault)
    {
      hide SQLiteRepository.Valid, Admissible, Saved, PersistRecords, FilesAt;
      var id := e.run.runId;
      var thrown := TryPersist(e, capturedAt, savedAt, fault.strike);
      assert dirs == before.dirs[id := dirs[id]];
      if thrown == None {
        return Returned;
      }
      if thrown == Some(Interrupted) && fault.strike.Kill? {
        return Stopped;
      }
      RemoveTree(id, fault.handling);
      assert Finishes(fault.handling, 2) ==> dirs == before.dirs;
      assert Finishes(fault.handling, 1) && !Finishes(fault.handling, 2) ==> dirs == before.dirs[id := map[]];
      outcome := AfterHandler(fault.handling, thrown.value);
    }

    /** Writes `run.json` through a temporary file, then commits the rows; on an exception the
        handler removes the run directory. */
    method PersistExecution(e: RunExecution, capturedAt: int, savedAt: int, fault: Fault) returns (outcome: Outcome)
      requires Valid()
      modifies this, repository
      ensures Valid()
      ensures (State(), outcome) == PersistResult(codec, old(State()), e, capturedAt, savedAt, fault)
    {
      hide SQLiteRepository.Valid, Admissible, Saved, PersistRecords, FilesAt;
      var id := e.run.runId;
      if id in dirs {
        return Raised(DirectoryExists);
      }
      if Hits(fault.strike, MakeDirectory) {
        return Interruption(fault.strike);
      }
      dirs := dirs[id := map[]];
      if Hits(fault.strike, Serialise) {
        EmptyBeforeTheTry(codec.dump(e), fault.strike.written);
        return Interruption(fault.strike);
      }
      outcome := PersistInto(e, capturedAt, savedAt, fault, old(State()));
    }

    /** The `try` block of `WriteDerivedArtifact`. */
    method TryDerive(id: RunId, name: string, kind: string, content: Bytes, strike: Strike)
      returns (thrown: Option<ArtifactError>, createdArtifact: bool)
      requires Valid()
      requires id in dirs && name !in dirs[id] && TempName(name) !in dirs[id]
      modifies this`dirs, repository
      ensures Valid()
      ensures var rows := old(repository.catalogue);
              var registered := WithArtifact(rows, id, RecordFor(codec, id, name, kind, content));
              var event := Decisive(strike, !strike.Nothing? && DeriveStep(strike.at), registered.Ok?);
              var at := if event.Nothing? then Return else event.at;
              && thrown == (if event.Nothing? then None else Some(if event == strike then Interrupted else Rejected))
              && dirs == old(dirs)[id := FilesAt(at, old(dirs)[id], name, content, if event.Nothing? then 0 else event.written)]
              && createdArtifact == (at == Commit || at == Return)
              && repository.catalogue == (if at == Return && registered.Ok? then registered.value else rows)
    {
      hide SQLiteRepository.Valid, WithArtifact, RecordFor, TempName;
      createdArtifact := false;
      var interrupted := WriteAtomically(id, name, content, strike);
      if interrupted || Hits(strike, MarkCreated) {
        return Some(Interrupted), false;
      }
      createdArtifact := true;
      if Hits(strike, Commit) {
        return Some(Interrupted), true;
      }
      var added := repository.AddArtifact(id, RecordFor(codec, id, name, kind, content));
      if added.Err? {
        return Some(Rejected), true;
      }
      thrown := if Hits(strike, Return) then Some(Interrupted) else None;
    }

    /** The handler of `WriteDerivedArtifact`. A removal that is due may raise or never happen, and the
        one after it is then skipped; whatever the step, at most one is due. */
    method UndoDerived(id: RunId, name: string, createdArtifact: bool, handling: Handling,
                       ghost at: Step, ghost files: Directory, ghost content: Bytes, ghost written: nat)
      requires id in dirs && name !in files && TempName(name) !in files
      requires DeriveStep(at) && createdArtifact == (at == Commit || at == Return)
      requires dirs[id] == FilesAt(at, files, name, content, written)
      modifies this`dirs
      ensures dirs == old(dirs)[id := if Finishes(handling, 1) then FilesUndone(at, files, name, content)
                                      else FilesAt(at, files, name, content, written)]
    {
      TempNameDiffers(name);
      hide TempName;
      var undone := 0;
      if TempName(name) in dirs[id] {
        if !Finishes(handling, undone + 1) {
          assert dirs == old(dirs)[id := dirs[id]];
          return;
        }
        Unlink(id, TempName(name));
        undone := undone + 1;
      }
      if createdArtifact && name in dirs[id] {
        if !Finishes(handling, undone + 1) {
          assert dirs == old(dirs)[id := dirs[id]];
          return;
        }
        Unlink(id, name);
      }
      assert dirs[id] == FilesUndone(at, files, name, content);
      assert dirs == old(dirs)[id := dirs[id]];
    }

    /** Registers a new file of a stored run; on an exception the handler removes the temporary
        file, and the artifact if this call created it. */
    method WriteDerivedArtifact(id: RunId, name: string, kind: string, content: Bytes, fault: Fault) returns (outcome: Outcome)
      requires Valid()
      modifies this, repository
      ensures Valid()
      ensures (State(), outcome) == DeriveResult(codec, old(State()), id, name, kind, content, fault)
    {
      hide SQLiteRepository.Valid, WithArtifact, RecordFor, TempName, ByPath, FilesAt, FilesUndone;
      UnknownRunRejected(repository.catalogue, id, RecordFor(codec, id, name, kind, content));
      var stored := repository.GetRun(id);
      if stored.Err? {
        return Raised(UnknownRun);
      }
      if id !in dirs {
        return Raised(DirectoryMissing);
      }
      if name in dirs[id] || TempName(name) in dirs[id] {
        return Raised(FileExists);
      }
      ghost var files := dirs[id];
      ghost var event := Decisive(fault.strike, !fault.strike.Nothing? && DeriveStep(fault.strike.at), WithArtifact(repository.catalogue, id, RecordFor(codec, id, name, kind, content)).Ok?);
      var thrown, createdArtifact := TryDerive(id, name, kind, content, fault.strike);
      if thrown == None {
        FileOfReturn(files, name, content);
        return Returned;
      }
      if thrown == Some(Interrupted) && fault.strike.Kill? {
        return Stopped;
      }
      UndoDerived(id, name, createdArtifact, fault.handling, event.at, files, content, event.written);
      assert dirs == old(dirs)[id := dirs[id]];
      outcome := AfterHandler(fault.handling, thrown.value);
    }

    /** Deletes the rows, then moves the run directory into the trash. */
    method DeleteRunRecoverably(id: RunId, strike: Strike) returns (outcome: Outcome)
      requires Valid()
      modifies this, repository
      ensures Valid()
      ensures (State(), outcome) == DeleteResult(old(State()), id, strike)
    {
      hide SQLiteRepository.Valid, WithoutRun;
      if Hits(strike, Commit) {
        return Interruption(strike);
      }
      var deleted := repository.DeleteRun(id);
      if deleted.Err? {
        return Raised(if deleted.error == BaselineSourceProtected then Protected else UnknownRun);
      }
      if id !in dirs {
        return Returned;
      }
      if Hits(strike, MakeTrash) || Hits(strike, Move) {
        return Interruption(strike);
      }
      trash := trash + [(id, dirs[id])];
      dirs := dirs - {id};
      outcome := if Hits(strike, Return) then Interruption(strike) else Returned;
    }

    /** Points a name at a run that neither failed nor errored. */
    method CreateBaseline(name: string, source: RunId, createdAt: int) returns (outcome: Outcome)
      requires Valid()
      modifies repository
      ensures Valid()
      ensures (State(), outcome) == BaselineResult(old(State()), name, source, createdAt)
    {
      hide SQLiteRepository.Valid, ByPath;
      var stored := repository.GetRun(source);
      if stored.Err? {
        return Raised(UnknownRun);
      }
      if !KnownGood(stored.value.execution) {
        return Raised(NotAcceptable);
      }
      var created := repository.CreateBaseline(name, source, createdAt);
      outcome := if created.Ok? then Returned else Raised(Rejected);
    }
  }

  lemma TempNameDiffers(name: string)
    ensures TempName(name) != name
  {
    assert |TempName(name)| == |name| + 4;
  }

  lemma UnknownRunRejected(c: Catalogue, id: RunId, record: ArtifactRecord)
    ensures WithArtifact(c, id, record).Ok? ==> id in c.runs
  {
  }

  lemma EmptyBeforeTheTry(payload: Bytes, written: nat)
    ensures FilesAt(Serialise, map[], RUN_JSON, payload, written) == map[]
  {
  }

  lemma FilesWhileWriting(files: Directory, name: string, payload: Bytes)
    ensures forall written: nat ::
              && FilesAt(OpenTemp, files, name, payload, written) == files
              && FilesAt(WriteTemp, files, name, payload, written) == files[TempName(name) := Written(payload, written)]
              && FilesAt(Replace, files, name, payload, written) == files[TempName(name) := payload]
              && FilesAt(Commit, files, name, payload, written) == files[name := payload]
  {
  }

  lemma FileOfReturn(files: Directory, name: string, payload: Bytes)
    ensures FilesAt(Return, files, name, payload, 0) == files[name := payload]
  {
  }

  lemma RenameEffect(files: Directory, temp: string, name: string, payload: Bytes)
    requires temp !in files
    ensures (files[temp := payload] - {temp})[name := payload] == files[name := payload]
  {
  }
}
