/** The evidence store: files under `runs/<id>/`, the trash, and the repository's rows.
    Each operation is a sequence of file and database steps; a fault may interrupt it with an
    exception or stop the process before any step. The functions here say what is left. */
module EvidenceStore {
  import opened Models
  import opened Schema
  import opened Catalogues
  import opened Histories

  type Directory = map<string, Bytes>

  datatype Store = Store(dirs: map<RunId, Directory>, trash: seq<(RunId, Directory)>, rows: Catalogue)

  const EMPTY_STORE := Store(map[], [], EMPTY_CATALOGUE)

  /** The digest and the JSON text of an execution, both left abstract. */
  datatype Codec = Codec(sha256: Bytes -> Bytes, dump: RunExecution -> Bytes)

  datatype Step =
    | MakeDirectory | Serialise | OpenTemp | WriteTemp | Replace | MarkCreated | Commit
    | MakeTrash | Move
    | Return

  /** What strikes an operation: an exception or a process stop, just before `at` takes effect; while
      the temporary file is being written, `written` bytes of it may already be there. */
  datatype Strike = Nothing | Raise(at: Step, written: nat) | Kill(at: Step, written: nat)

  /** How far a clean-up handler gets, if one runs: to its end, or through `undone` of its actions
      before the process stops or an action raises. */
  datatype Handling = Completes | Dies(undone: nat) | Fails(undone: nat)

  /** A handler runs after a strike, or because the constraints rejected the rows. */
  datatype Fault = Fault(strike: Strike, handling: Handling)

  const NO_FAULT := Fault(Nothing, Completes)

  /** The handler gets through at least `actions` of its actions. */
  predicate Finishes(handling: Handling, actions: nat) {
    handling.Completes? || handling.undone >= actions
  }

  datatype ArtifactError =
    | DirectoryExists | DirectoryMissing | FileExists
    | UnknownRun | Protected | NotAcceptable | Rejected
    | Interrupted | HandlerFailed

  datatype Outcome = Returned | Raised(error: ArtifactError) | Stopped

  const RUN_JSON := "run.json"

  function TempName(name: string): string {
    name + ".tmp"
  }

  function RelativePath(id: RunId, name: string): string {
    "runs/" + id + "/" + name
  }

  lemma RelativePathInjective(id: RunId, a: string, b: string)
    requires RelativePath(id, a) == RelativePath(id, b)
    ensures a == b
  {
    var prefix := "runs/" + id + "/";
    assert RelativePath(id, a) == prefix + a && RelativePath(id, b) == prefix + b;
    assert (prefix + a)[|prefix|..] == a && (prefix + b)[|prefix|..] == b;
  }

  function RecordFor(codec: Codec, id: RunId, name: string, kind: string, payload: Bytes): ArtifactRecord {
    ArtifactRecord(kind, RelativePath(id, name), codec.sha256(payload), |payload|)
  }

  function Written(payload: Bytes, written: nat): Bytes {
    if written <= |payload| then payload[..written] else payload
  }

  datatype Operation =
    | Persist(e: RunExecution, capturedAt: int, savedAt: int)
    | Derive(id: RunId, name: string, kind: string, content: Bytes)
    | Delete(id: RunId)
    | Baseline(name: string, source: RunId, createdAt: int)

  /** What a directory holds when the atomic write of `name` stands before `step`: the temporary
      file grows, then replaces the artifact. */
  function FilesAt(step: Step, files: Directory, name: string, payload: Bytes, written: nat): Directory {
    match step
    case WriteTemp => files[TempName(name) := Written(payload, written)]
    case Replace => files[TempName(name) := payload]
    case MarkCreated | Commit | Return => files[name := payload]
    case _ => files
  }

  // ---- persist_execution ----

  function PersistRecords(codec: Codec, e: RunExecution): seq<ArtifactRecord> {
    [RecordFor(codec, e.run.runId, RUN_JSON, "run_json", codec.dump(e))]
  }

  predicate PersistStep(step: Step) {
    step in {MakeDirectory, Serialise, OpenTemp, WriteTemp, Replace, Commit, Return}
  }

  /** The event that ends the attempt: the strike, unless the constraints reject the rows first. */
  function Decisive(strike: Strike, usesStep: bool, accepted: bool): Strike {
    var none := strike.Nothing? || !usesStep;
    if !accepted && (none || strike.at == Return) then Raise(Commit, 0)
    else if none then Nothing
    else strike
  }

  /** How an operation ends when its handler ran: an exception of the handler takes the place of the
      one it was handling. */
  function AfterHandler(handling: Handling, error: ArtifactError): Outcome {
    match handling
    case Completes => Raised(error)
    case Dies(_) => Stopped
    case Fails(_) => Raised(HandlerFailed)
  }

  function PersistResult(codec: Codec, s: Store, e: RunExecution, capturedAt: int, savedAt: int, fault: Fault): (Store, Outcome) {
    var id, payload, strike := e.run.runId, codec.dump(e), fault.strike;
    var records := PersistRecords(codec, e);
    var accepted := Admissible(s.rows, e, records);
    var event := Decisive(strike, !strike.Nothing? && PersistStep(strike.at), accepted);
    var error := if event == strike then Interrupted else Rejected;
    var rows := if accepted then Saved(s.rows, e, records, capturedAt, savedAt) else s.rows;
    if id in s.dirs then (s, Raised(DirectoryExists))
    else
      match event
      case Nothing => (s.(dirs := s.dirs[id := FilesAt(Return, map[], RUN_JSON, payload, 0)], rows := rows), Returned)
      case Kill(at, written) =>
        if at == MakeDirectory then (s, Stopped)
        else (s.(dirs := s.dirs[id := FilesAt(at, map[], RUN_JSON, payload, written)], rows := if at == Return then rows else s.rows), Stopped)
      case Raise(at, written) =>
        if at == MakeDirectory then (s, Raised(error))
        else if at == Serialise then (s.(dirs := s.dirs[id := map[]]), Raised(error))
        else
          var left := if Finishes(fault.handling, 2) then s.dirs
                      else if Finishes(fault.handling, 1) then s.dirs[id := map[]]
                      else s.dirs[id := FilesAt(at, map[], RUN_JSON, payload, written)];
          (s.(dirs := left, rows := if at == Return then rows else s.rows), AfterHandler(fault.handling, error))
  }

  // ---- write_derived_artifact ----

  predicate DeriveStep(step: Step) {
    step in {OpenTemp, WriteTemp, Replace, MarkCreated, Commit, Return}
  }

  /** What the handler leaves: it removes the temporary file, and the artifact once the flag is set. */
  function FilesUndone(step: Step, files: Directory, name: string, payload: Bytes): Directory {
    if step == MarkCreated then files[name := payload] else files
  }

  function DeriveResult(codec: Codec, s: Store, id: RunId, name: string, kind: string, payload: Bytes, fault: Fault): (Store, Outcome) {
    var strike := fault.strike;
    var registered := WithArtifact(s.rows, id, RecordFor(codec, id, name, kind, payload));
    var event := Decisive(strike, !strike.Nothing? && DeriveStep(strike.at), registered.Ok?);
    var error := if event == strike then Interrupted else Rejected;
    var rows := if registered.Ok? then registered.value else s.rows;
    if id !in s.rows.runs then (s, Raised(UnknownRun))
    else if id !in s.dirs then (s, Raised(DirectoryMissing))
    else if name in s.dirs[id] || TempName(name) in s.dirs[id] then (s, Raised(FileExists))
    else
      var files := s.dirs[id];
      match event
      case Nothing => (s.(dirs := s.dirs[id := files[name := payload]], rows := rows), Returned)
      case Kill(at, written) =>
        (s.(dirs := s.dirs[id := FilesAt(at, files, name, payload, written)], rows := if at == Return then rows else s.rows), Stopped)
      case Raise(at, written) =>
        var left := if Finishes(fault.handling, 1) then FilesUndone(at, files, name, payload)
                    else FilesAt(at, files, name, payload, written);
        (s.(dirs := s.dirs[id := left], rows := if at == Return then rows else s.rows), AfterHandler(fault.handling, error))
  }

  // ---- delete_run_recoverably ----

  function Interruption(strike: Strike): Outcome {
    if strike.Kill? then Stopped else Raised(Interrupted)
  }

  /** No handler: rows and files are never put back. */
  function DeleteResult(s: Store, id: RunId, strike: Strike): (Store, Outcome) {
    var hits := (step: Step) => !strike.Nothing? && strike.at == step;
    if hits(Commit) then (s, Interruption(strike))
    else
      match WithoutRun(s.rows, id)
      case Err(error) => (s, Raised(if error == BaselineSourceProtected then Protected else UnknownRun))
      case Ok(rows) =>
        var uncommitted := s.(rows := rows);
        if id !in s.dirs then (uncommitted, Returned)
        else if hits(MakeTrash) || hits(Move) then (uncommitted, Interruption(strike))
        else
          var moved := uncommitted.(dirs := s.dirs - {id}, trash := s.trash + [(id, s.dirs[id])]);
          (moved, if hits(Return) then Interruption(strike) else Returned)
  }

  // ---- create_baseline ----

  function BaselineResult(s: Store, name: string, source: RunId, createdAt: int): (Store, Outcome) {
    if source !in s.rows.runs then (s, Raised(UnknownRun))
    else if !KnownGood(s.rows.runs[source].execution) then (s, Raised(NotAcceptable))
    else
      match WithBaseline(s.rows, name, source, createdAt)
      case Err(_) => (s, Raised(Rejected))
      case Ok(rows) => (s.(rows := rows), Returned)
  }

  function Perform(codec: Codec, s: Store, op: Operation, fault: Fault): (Store, Outcome) {
    match op
    case Persist(e, capturedAt, savedAt) => PersistResult(codec, s, e, capturedAt, savedAt, fault)
    case Derive(id, name, kind, content) => DeriveResult(codec, s, id, name, kind, content, fault)
    case Delete(id) => DeleteResult(s, id, fault.strike)
    case Baseline(name, source, createdAt) => BaselineResult(s, name, source, createdAt)
  }
}
