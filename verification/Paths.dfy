/** Where registered artifacts lie, told by a reader of paths that knows nothing of how they are made. */
module Paths {
  import opened Models
  import opened Schema
  import opened Catalogues
  import opened Histories
  import opened EvidenceStore
  import opened CrashConsistency

  predicate NoSlash(s: string) {
    forall i :: 0 <= i < |s| ==> s[i] != '/'
  }

  /** The parts between the slashes. */
  function Split(s: string): (parts: seq<string>)
    ensures parts != []
  {
    if s == [] then [[]]
    else
      var rest := Split(s[1..]);
      if s[0] == '/' then [[]] + rest else [[s[0]] + rest[0]] + rest[1..]
  }

  /** Reads a path as a run identifier and a file name: exactly three parts, the first of them `runs`. */
  function ReadPath(path: string): Option<(string, string)> {
    var parts := Split(path);
    if |parts| == 3 && parts[0] == "runs" then Some((parts[1], parts[2])) else None
  }

  lemma {:induction false} SplitOne(a: string)
    requires NoSlash(a)
    ensures Split(a) == [a]
  {
    if a != [] {
      assert forall i :: 0 <= i < |a[1..]| ==> a[1..][i] == a[i + 1];
      SplitOne(a[1..]);
      assert [a[0]] + a[1..] == a;
    }
  }

  lemma {:induction false} SplitFirst(a: string, b: string)
    requires NoSlash(a)
    ensures Split(a + "/" + b) == [a] + Split(b)
  {
    var s := a + "/" + b;
    if a == [] {
      assert s[1..] == b;
    } else {
      assert forall i :: 0 <= i < |a[1..]| ==> a[1..][i] == a[i + 1];
      assert s[1..] == a[1..] + "/" + b;
      SplitFirst(a[1..], b);
      assert [a[0]] + a[1..] == a;
    }
  }

  /** A registered path reads as its run and its file name. */
  lemma RelativePathReads(id: string, name: string)
    requires NoSlash(id) && NoSlash(name)
    ensures ReadPath(RelativePath(id, name)) == Some((id, name))
  {
    var path := RelativePath(id, name);
    assert path == "runs" + "/" + (id + "/" + name);
    SplitFirst("runs", id + "/" + name);
    SplitFirst(id, name);
    SplitOne(name);
  }

  // ---- Histories ----

  /** Run identifiers and file names are single path components. */
  predicate PlainNames(op: Operation) {
    match op
    case Persist(e, _, _) => NoSlash(e.run.runId)
    case Derive(id, name, _, _) => NoSlash(id) && NoSlash(name)
    case Delete(_) => true
    case Baseline(_, _, _) => true
  }

  ghost predicate PlainStore(s: Store) {
    && (forall id :: id in s.rows.runs ==> NoSlash(id))
    && (forall id, name :: id in s.dirs && name in s.dirs[id] ==> NoSlash(name))
  }

  lemma TempIsPlain(name: string)
    requires NoSlash(name)
    ensures NoSlash(TempName(name))
  {
  }

  lemma FilesArePlain(step: Step, files: Directory, name: string, payload: Bytes, written: nat)
    requires NoSlash(name) && forall n :: n in files ==> NoSlash(n)
    ensures forall n :: n in FilesAt(step, files, name, payload, written) ==> NoSlash(n)
    ensures forall n :: n in FilesUndone(step, files, name, payload) ==> NoSlash(n)
  {
    TempIsPlain(name);
    hide NoSlash, TempName;
  }

  lemma PersistIsPlain(codec: Codec, s: Store, e: RunExecution, capturedAt: int, savedAt: int, fault: Fault)
    requires PlainStore(s) && NoSlash(e.run.runId)
    ensures PlainStore(PersistResult(codec, s, e, capturedAt, savedAt, fault).0)
  {
    assert NoSlash(RUN_JSON);
    FilesArePlain(Return, map[], RUN_JSON, codec.dump(e), 0);
    FilesArePlain(Commit, map[], RUN_JSON, codec.dump(e), 0);
    if !fault.strike.Nothing? {
      FilesArePlain(fault.strike.at, map[], RUN_JSON, codec.dump(e), fault.strike.written);
    }
    hide FilesAt, NoSlash, Admissible, NewEvidence, PersistRecords;
  }

  lemma DeriveIsPlain(codec: Codec, s: Store, id: RunId, name: string, kind: string, content: Bytes, fault: Fault)
    requires PlainStore(s) && NoSlash(name)
    ensures PlainStore(DeriveResult(codec, s, id, name, kind, content, fault).0)
  {
    if id in s.dirs {
      FilesArePlain(Commit, s.dirs[id], name, content, 0);
      if !fault.strike.Nothing? {
        FilesArePlain(fault.strike.at, s.dirs[id], name, content, fault.strike.written);
      }
    }
    hide FilesAt, FilesUndone, NoSlash, RecordFor, TempName;
  }

  lemma StepIsPlain(codec: Codec, s: Store, op: Operation, fault: Fault)
    requires PlainStore(s) && PlainNames(op)
    ensures PlainStore(Perform(codec, s, op, fault).0)
  {
    hide NoSlash, PersistResult, DeriveResult;
    match op
    case Persist(e, capturedAt, savedAt) => PersistIsPlain(codec, s, e, capturedAt, savedAt, fault);
    case Derive(id, name, kind, content) => DeriveIsPlain(codec, s, id, name, kind, content, fault);
    case Delete(id) =>
    case Baseline(_, _, _) =>
  }

  lemma {:induction false} HistoryIsPlain(codec: Codec, s: Store, history: seq<Event>)
    requires PlainStore(s)
    requires forall i :: 0 <= i < |history| ==> PlainNames(history[i].0)
    ensures PlainStore(Run(codec, s, history))
    decreases |history|
  {
    hide PlainStore, PlainNames, Perform;
    if history != [] {
      StepIsPlain(codec, s, history[0].0, history[0].1);
      assert forall i :: 0 <= i < |history[1..]| ==> history[1..][i] == history[i + 1];
      HistoryIsPlain(codec, Perform(codec, s, history[0].0, history[0].1).0, history[1..]);
    }
  }

  /** The row's path reads as a file of that run, and the file is there with the recorded digest and length. */
  ghost predicate LiesInItsRun(codec: Codec, s: Store, id: RunId, path: string) {
    && Registers(s, id, path)
    && ReadPath(path).Some? && ReadPath(path).value.0 == id
    && var name, row := ReadPath(path).value.1, s.rows.runs[id].artifacts[path];
       && id in s.dirs && name in s.dirs[id]
       && codec.sha256(s.dirs[id][name]) == row.sha256
       && |s.dirs[id][name]| == row.sizeBytes
  }

  predicate Registers(s: Store, id: RunId, path: string) {
    id in s.rows.runs && path in s.rows.runs[id].artifacts
  }

  /** After every history from the empty store, with exceptions and process stops anywhere but in a
      clean-up after a commit, each artifact row names an intact file under its own run's directory,
      and no two runs register the same path. */
  lemma ArtifactsLieInTheirRuns(codec: Codec, history: seq<Event>)
    requires NoCleanUpAfterCommit(history)
    requires forall i :: 0 <= i < |history| ==> PlainNames(history[i].0)
    ensures var s := Run(codec, EMPTY_STORE, history);
            && (forall id, path :: Registers(s, id, path) ==> LiesInItsRun(codec, s, id, path))
            && (forall id, other, path :: Registers(s, id, path) && Registers(s, other, path) ==> id == other)
  {
    hide Run, PlainNames, NoCleanUpAfterCommit, ReadPath, RelativePath, NoSlash;
    var s := Run(codec, EMPTY_STORE, history);
    EmptyIsAnchored(codec);
    CrashConsistency.CrashConsistency(codec, EMPTY_STORE, history);
    HistoryIsPlain(codec, EMPTY_STORE, history);
    forall id, path | Registers(s, id, path)
      ensures LiesInItsRun(codec, s, id, path)
    {
      var row := s.rows.runs[id].artifacts[path];
      assert OnDisk(codec, s, id, path, row);
      var name :|
        && path == RelativePath(id, name)
        && id in s.dirs && name in s.dirs[id]
        && codec.sha256(s.dirs[id][name]) == row.sha256
        && |s.dirs[id][name]| == row.sizeBytes;
      RelativePathReads(id, name);
    }
    forall id, other, path | Registers(s, id, path) && Registers(s, other, path)
      ensures id == other
    {
      assert LiesInItsRun(codec, s, id, path) && LiesInItsRun(codec, s, other, path);
    }
  }

  // ---- What one call registers ----

  /** A persisted run has one file, `run.json`, with the text of the execution, registered as such. */
  lemma PersistRegisters(codec: Codec, s: Store, e: RunExecution, capturedAt: int, savedAt: int)
    requires NoSlash(e.run.runId)
    ensures var (t, outcome) := PersistResult(codec, s, e, capturedAt, savedAt, NO_FAULT);
            var id, text := e.run.runId, codec.dump(e);
            outcome == Returned ==>
              && id !in s.dirs && t.dirs == s.dirs[id := map["run.json" := text]]
              && id in t.rows.runs && |t.rows.runs[id].artifacts| == 1
              && forall path :: path in t.rows.runs[id].artifacts ==>
                   ReadPath(path) == Some((id, "run.json"))
                   && t.rows.runs[id].artifacts[path] == ArtifactRow("run_json", codec.sha256(text), |text|)
  {
    var id := e.run.runId;
    RelativePathReads(id, "run.json");
    SingleArtifact(RecordFor(codec, id, RUN_JSON, "run_json", codec.dump(e)));
    hide ReadPath, RelativePath, NoSlash, Admissible, Canonical, ArtifactMap;
  }

  /** A derived artifact adds one file and one row, of the given name, kind and content. */
  lemma DeriveRegisters(codec: Codec, s: Store, id: RunId, name: string, kind: string, content: Bytes)
    requires NoSlash(id) && NoSlash(name)
    ensures var (t, outcome) := DeriveResult(codec, s, id, name, kind, content, NO_FAULT);
            outcome == Returned ==>
              && id in s.rows.runs && id in s.dirs && name !in s.dirs[id]
              && t.dirs == s.dirs[id := s.dirs[id][name := content]]
              && id in t.rows.runs
              && exists path ::
                   && ReadPath(path) == Some((id, name)) && path !in s.rows.runs[id].artifacts
                   && t.rows.runs[id].artifacts == s.rows.runs[id].artifacts[path := ArtifactRow(kind, codec.sha256(content), |content|)]
  {
    RelativePathReads(id, name);
    hide ReadPath, RelativePath, NoSlash;
  }

  /** A process stopped while it wrote leaves the text under the temporary name only. */
  lemma StoppedWriteIsTemporary(codec: Codec, s: Store, e: RunExecution, capturedAt: int, savedAt: int, at: Step, written: nat)
    requires e.run.runId !in s.dirs && at in {WriteTemp, Replace}
    ensures var (t, outcome) := PersistResult(codec, s, e, capturedAt, savedAt, Fault(Kill(at, written), Completes));
            && outcome == Stopped && t.rows == s.rows
            && e.run.runId in t.dirs && t.dirs[e.run.runId].Keys == {"run.json.tmp"}
  {
    assert TempName(RUN_JSON) == "run.json.tmp";
    hide TempName, Admissible;
  }
}
