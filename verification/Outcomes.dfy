/** How each operation of the evidence store ends, told without the functions that compute it. */
module Outcomes {
  import opened Models
  import opened Schema
  import opened Catalogues
  import opened Histories
  import opened EvidenceStore
  import opened CrashConsistency

  /** Without a fault, persisting is turned away by a directory, rejected by the constraints, or returns;
      when it is not turned away and not rejected it does return. */
  lemma PersistEnds(codec: Codec, s: Store, e: RunExecution, capturedAt: int, savedAt: int)
    ensures var (t, outcome) := PersistResult(codec, s, e, capturedAt, savedAt, NO_FAULT);
            var accepted := Admissible(s.rows, e, PersistRecords(codec, e));
            && (outcome == Raised(DirectoryExists) <==> e.run.runId in s.dirs)
            && (outcome == Raised(Rejected) <==> e.run.runId !in s.dirs && !accepted)
            && (outcome == Returned <==> e.run.runId !in s.dirs && accepted)
            && (outcome.Raised? ==> t == s)
  {
    hide Admissible, Saved, PersistRecords;
    assert e.run.runId !in s.dirs ==> s.dirs[e.run.runId := map[]] != s.dirs;
  }

  /** The only execution the constraints reject here is one whose run is stored, whose tests repeat, or
      whose samples belong to no result. */
  lemma AcceptedIs(codec: Codec, s: Store, e: RunExecution)
    ensures Admissible(s.rows, e, PersistRecords(codec, e)) <==>
            && e.run.runId !in s.rows.runs
            && (forall i, j :: 0 <= i < j < |e.run.testResults| ==> e.run.testResults[i].testId != e.run.testResults[j].testId)
            && (forall t :: t in e.telemetry && e.telemetry[t] != [] ==>
                  exists i :: 0 <= i < |e.run.testResults| && e.run.testResults[i].testId == t)
  {
  }

  /** An exception in the `try` block of a persist, and what befalls the handler: complete, it leaves
      nothing and passes the exception on; raising, it passes on its own; dying, it passes on nothing.
      Cut short before its first action it leaves the files, before its second an empty directory. */
  lemma InterruptedPersistEnds(codec: Codec, s: Store, e: RunExecution, capturedAt: int, savedAt: int, at: Step, written: nat)
    requires e.run.runId !in s.dirs && at in {OpenTemp, WriteTemp, Replace, Commit}
    ensures var id := e.run.runId;
            var after := (handling: Handling) => PersistResult(codec, s, e, capturedAt, savedAt, Fault(Raise(at, written), handling));
            && after(Completes) == (s, Raised(Interrupted))
            && after(Fails(0)).1 == Raised(HandlerFailed) && after(Dies(0)).1 == Stopped
            && after(Fails(0)).0 == after(Dies(0)).0
            && id in after(Fails(0)).0.dirs && after(Fails(0)).0.rows == s.rows
            && after(Fails(0)).0.dirs[id].Keys == (if at == OpenTemp then {} else if at == Commit then {"run.json"} else {"run.json.tmp"})
            && after(Fails(1)) == (s.(dirs := s.dirs[id := map[]]), Raised(HandlerFailed))
            && after(Dies(1)) == (s.(dirs := s.dirs[id := map[]]), Stopped)
            && after(Fails(2)) == (s, Raised(HandlerFailed)) && after(Dies(2)) == (s, Stopped)
  {
    assert TempName(RUN_JSON) == "run.json.tmp";
    hide TempName, Admissible, Saved, Written;
  }

  /** The same for a report, whose handler has one action at most. */
  lemma InterruptedDeriveEnds(codec: Codec, s: Store, id: RunId, name: string, kind: string, content: Bytes, at: Step, written: nat)
    requires id in s.rows.runs && id in s.dirs && name !in s.dirs[id] && TempName(name) !in s.dirs[id]
    requires at in {OpenTemp, WriteTemp, Replace, Commit}
    ensures var after := (handling: Handling) => DeriveResult(codec, s, id, name, kind, content, Fault(Raise(at, written), handling));
            && after(Completes) == (s, Raised(Interrupted))
            && after(Fails(1)) == (s, Raised(HandlerFailed)) && after(Dies(1)) == (s, Stopped)
            && after(Fails(0)).1 == Raised(HandlerFailed) && after(Dies(0)).1 == Stopped
            && after(Fails(0)).0 == after(Dies(0)).0
            && id in after(Fails(0)).0.dirs && after(Fails(0)).0.rows == s.rows
            && after(Fails(0)).0.dirs[id].Keys ==
               s.dirs[id].Keys + (if at == OpenTemp then {} else if at == Commit then {name} else {name + ".tmp"})
  {
    assert s.dirs[id := s.dirs[id]] == s.dirs;
    assert TempName(name) == name + ".tmp";
    hide TempName, WithArtifact, RecordFor, Written;
  }

  /** Without a fault a report needs a stored run, its directory and a free name. */
  lemma DeriveEnds(codec: Codec, s: Store, id: RunId, name: string, kind: string, content: Bytes)
    ensures var (t, outcome) := DeriveResult(codec, s, id, name, kind, content, NO_FAULT);
            var free := id in s.dirs && name !in s.dirs[id] && name + ".tmp" !in s.dirs[id];
            && (outcome == Raised(UnknownRun) <==> id !in s.rows.runs)
            && (outcome == Raised(DirectoryMissing) <==> id in s.rows.runs && id !in s.dirs)
            && (outcome == Raised(FileExists) <==> id in s.rows.runs && id in s.dirs && !free)
            && (outcome == Raised(Rejected) <==>
                  id in s.rows.runs && free && RelativePath(id, name) in s.rows.runs[id].artifacts)
            && (outcome == Returned <==>
                  id in s.rows.runs && free && RelativePath(id, name) !in s.rows.runs[id].artifacts)
            && (outcome.Raised? ==> t == s)
  {
    assert TempName(name) == name + ".tmp";
    assert id in s.dirs ==> s.dirs[id := s.dirs[id]] == s.dirs;
    hide TempName, RelativePath;
  }

  /** Deletion needs a stored run that no baseline points at, and moves what its directory holds. */
  lemma DeleteEnds(s: Store, id: RunId)
    ensures var (t, outcome) := DeleteResult(s, id, Nothing);
            && (outcome == Raised(UnknownRun) <==> id !in s.rows.runs)
            && (outcome == Raised(Protected) <==> id in s.rows.runs && IsBaselineSource(s.rows, id))
            && (outcome == Returned <==> id in s.rows.runs && !IsBaselineSource(s.rows, id))
            && (outcome.Raised? ==> t == s)
            && (outcome == Returned ==>
                  && t.rows.runs == s.rows.runs - {id} && t.rows.baselines == s.rows.baselines
                  && t.dirs == s.dirs - {id}
                  && t.trash == if id in s.dirs then s.trash + [(id, s.dirs[id])] else s.trash)
  {
    hide IsBaselineSource;
    assert id !in s.dirs ==> s.dirs - {id} == s.dirs;
  }

  /** A baseline needs a stored run that passed, warned or was skipped, and a free name; it adds the
      pointer and nothing else. */
  lemma BaselineEnds(s: Store, name: string, source: RunId, createdAt: int)
    ensures var (t, outcome) := BaselineResult(s, name, source, createdAt);
            var stored := source in s.rows.runs;
            var good := stored && s.rows.runs[source].execution.run.overallStatus in {Pass, Warn, Skip};
            && (outcome == Raised(UnknownRun) <==> !stored)
            && (outcome == Raised(NotAcceptable) <==> stored && !good)
            && (outcome == Raised(Rejected) <==> good && name in s.rows.baselines)
            && (outcome == Returned <==> good && name !in s.rows.baselines)
            && t == if outcome == Returned then s.(rows := s.rows.(baselines := s.rows.baselines[name := BaselineRow(source, createdAt)])) else s
  {
  }
}
