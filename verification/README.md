# Verified model of the platform validation tool

This project models the parts of the platform validation tool that decide whether its evidence can be
trusted, and proves what they promise.

- **The evidence store.** A run lives twice: as files under `runs/<id>/` and as rows of nine related
  tables. `Schema` is the tables with their keys, cascades and restrictions; `Catalogues` is what they
  stand for (a map from run to evidence) and the flattening into rows; `Repository` is the transactional
  repository, statement by statement; `Histories` is sequences of transactions of any number of
  processes; `Baselines` is when a baseline is sure to point at a good run. `EvidenceStore` says what
  each file-and-row operation leaves behind when it is interrupted before any of its steps, `Artifacts`
  is the operations themselves with their exception handlers, and `CrashConsistency` is what survives
  every history of operations and faults. `Paths` is where registered artifacts lie, told by
  a reader of paths, `Columns` what the columns of a saved run hold, `Outcomes` how each operation ends, and
  `ConcurrentReports` two processes writing the same report at the same time.
- **The concurrent hashing workload.** `Control` is the token and the deadline, `IntegerHashing` is what
  is computed, `Concurrency` is the threads as single steps under an arbitrary scheduler, `Cancellation`
  is how cancellations and timeouts travel, `Series` the same for the repetitions of the stability
  workload. `Containment` follows a timeout, and an injected fault, from the threads to the verdict of
  the run.
- **The numerical and buffer workloads.** `FloatingPoint` (compensated summation under an abstract
  rounding), `Stability` (median and median absolute deviation), `Memory` (three chunked passes over an
  array), `Storage` (the owned temporary directory).
- **The CPUID probe.** `JsonPrinter` is the printer with its stream state, `Json` an independent reader
  of RFC 8259 (sections 2, 6 and 7), `JsonDocuments` the layouts in between, `Probe` the data and a reader
  that takes it out of a JSON value member by member; `Decoder` is the cache leaf and the brand string.
- **Verdicts.** `Evaluator`, `Results`, `Engine` and `Soundness` go from one requirement to the status of
  a run and into the store, `Records` says what requests, cases and records hold; `Comparison` and
  `ComparisonLaws` are the regression comparison, `Verdicts` its status told on the measurements alone.

`Models`, `Ordering` and `ByteStrings` hold the shared records, orders and byte strings.

## Modelling decisions

- SHA-256 is any function from bytes to bytes; where a digest must be non-empty, collision free
  or different from zero, the lemma says so. The JSON text of an execution is any function of it,
  and columns that hold JSON text hold the value itself.
- A transaction is atomic and serialised: it works on a copy of the tables and commits all of it or
  nothing. Only the declared constraints are modelled.
- Faults. An exception or a process stop may come just before any step that a handler could observe,
  with any part of the temporary file written. Independently, a clean-up handler may be cut short after
  any number of its actions, by a process stop or by an exception of its own (a removal that fails, a
  second interrupt); this also covers the handler that runs because the constraints rejected the rows.
  The step `Return` stands between the commit and the return: an exception there makes the
  handlers at `src/platval/persistence/artifacts.py:73-76` and `118-123` delete files whose rows are
  committed. `CrashConsistentStep` shows that this is exactly when a registered file is lost;
  `CrashConsistency` is therefore stated for histories in which no handler removes anything after a commit.
- The failed clean-ups the code has are kept. `AllOrNothing` is an equivalence over all faults: an
  operation that raises leaves a trace exactly when the exception comes between `mkdir` and the `try`
  (`artifacts.py:53-57`), between the rename and the flag (`104-105`), after a commit, between the
  deletion of the rows and the move of the files (`136-145`), or where the handler (`73-76`, `118-123`)
  is itself cut short with an action left to do.
- `docs/architecture.md:36` says that a test timeout cannot cancel unrelated tests. The code does not do
  that with two workers or more: the worker that hits the deadline sets the shared child token, another
  worker then raises a cancellation, the first future reports that one, and the runner re-raises it out
  of the run. `TimeoutEscapesAsCancellation` builds the schedule for every such configuration,
  `TimeoutsStayTimeoutsIffOneWorker` and `TimeoutIsContained` give the exact condition, and
  `TimeoutLosesTheRun` carries it to the whole plan. The lemmas whose names start with `Series` say the
  same of the stability test, whose repetitions run the same threads.
- A baseline is created by a read in one transaction and a write in another. When another process
  deletes the run and stores a failed one under the same identifier in between, the baseline points at
  a failed run (`CheckThenPointRace`). `KnownGoodIffProtected` gives the exact condition, which a caller
  can read off the store before the call: no interleaving can mislead the call if and only if it is
  bound to fail or another baseline already protects the run. For a whole history,
  `CheckedBaselinesStayKnownGood` needs only that run identifiers are never reused
  (`src/platval/runner/engine.py:446` draws each from `uuid4`), with every check at any earlier moment.
- Two calls that write the same report of one run can destroy it. `IntactIffNotOvertaken` gives the
  exact condition over every interleaving of their steps: the registered file is lost if and only if
  one call renames while the other stands between its look for the artifact
  (`src/platval/persistence/artifacts.py:98`) and its exclusive open (`103`). Whether an open file can be
  removed differs between systems; the result holds for both kinds. For any number of calls,
  `UndisturbedCallsAreIntact` shows that nothing else can go wrong than an overtaking rename or a handler
  that removes another call's temporary file, and `LeftoversTurnCallsAway` that leftovers of an earlier
  attempt turn every call away.
- The storage workload remembers the path of its directory only after making it
  (`src/platval/workloads/storage.py:64`). An interruption in between leaves the directory behind; the
  contract of `RunStorageWorkload` says exactly when it is left.
- The number of cache sets wraps to zero for ECX = 0xFFFFFFFF; the size product itself never wraps.
- Metric values are reals or integers, never NaN or infinite; an unavailable value is `Null`.
- Whatever comes from outside (scheduler, clock, sensor readings, loads from memory and disk, workload
  outcomes where only the runner is at stake) is an arbitrary input.

## Model

| member | source | states |
|---|---|---|
| Repository.InsertMetrics | src/platval/persistence/repository.py:194-208 | the loop over the measured values inserts exactly one row per value, whatever the order, and no statement fails once the test row is there |
| Repository.InsertEvaluations | src/platval/persistence/repository.py:209-229 | one row per evaluation, keyed by its position |
| Repository.InsertSamples | src/platval/persistence/repository.py:231-246 | one row per sample, keyed by its position; fails exactly when there is a sample and the test has no row |
| Repository.InsertResults | src/platval/persistence/repository.py:172-229 | the result loop succeeds exactly when no test identifier repeats, and then adds exactly the rows of the results |
| Repository.InsertTelemetry | src/platval/persistence/repository.py:230-246 | the telemetry loop succeeds exactly when every non-empty sample list belongs to a stored test |
| Repository.InsertArtifacts | src/platval/persistence/repository.py:247-260 | the artifact loop succeeds exactly when no path repeats |
| Repository.InsertChildren | src/platval/persistence/repository.py:172-260 | all child rows go in exactly when the keys and references allow it, and then they are the flattened execution |
| Repository.Regroup | src/platval/persistence/repository.py:316-322 | reading the sample rows in (test, index) order and appending each to its test's list rebuilds the stored lists exactly |
| Repository.DeleteRunRowEffect | src/platval/persistence/schema.py:27-91 | on sound tables, deleting a run that no baseline references cascades to exactly its rows in every child table |
| Repository.DeleteTransaction | src/platval/persistence/repository.py:432-438 | both delete statements go through and together remove exactly that run and its snapshot |
| Repository.SQLiteRepository.constructor | src/platval/persistence/repository.py:104-129 | a new database is the empty catalogue |
| Repository.SQLiteRepository.SaveExecution | src/platval/persistence/repository.py:131-260 | saves exactly the admissible executions (fresh run, unique tests, samples only for tests with a result, unique paths); otherwise a database error and no table changes |
| Repository.SQLiteRepository.AddArtifact | src/platval/persistence/repository.py:262-284 | registers a new path of a stored run and nothing else; an unknown run or a known path changes nothing |
| Repository.SQLiteRepository.GetRun | src/platval/persistence/repository.py:286-330 | returns the stored execution and its artifacts in path order, from the normalised rows alone |
| Repository.SQLiteRepository.CreateBaseline | src/platval/persistence/repository.py:355-383 | adds the name once, for a stored run; the record repeats the source's identity |
| Repository.SQLiteRepository.GetBaseline | src/platval/persistence/repository.py:385-400 | finds exactly the registered names; the join never loses a baseline |
| Repository.SQLiteRepository.DeleteRun | src/platval/persistence/repository.py:416-438 | removes the run unless it is unknown or the source of a baseline, in which case nothing changes |
| Catalogues.NormaliseInjective | src/platval/persistence/repository.py:131-330 | normalisation loses nothing: equal tables come from equal stored evidence |
| Catalogues.NormaliseIntegrity | src/platval/persistence/schema.py:6-91 | the tables of a catalogue satisfy every declared key and reference |
| Catalogues.SnapshotBijection | src/platval/persistence/schema.py:6-25 | runs and platform snapshots correspond one to one: each run has a snapshot of its own, each snapshot a run, with numbers below the counter |
| Catalogues.Canonical | src/platval/persistence/repository.py:316-322 | reading back gives one sample list per result; that is the saved execution exactly when its telemetry is keyed by its results |
| Repository.SavedTables | src/platval/persistence/repository.py:137-260 | the tables after the inserts are the normalised form of the catalogue with the run added |
| Repository.WithArtifactTables | src/platval/persistence/repository.py:272-284 | the tables after registering an artifact are the normalised form of the changed catalogue |
| Repository.RemovedRunTables | src/platval/persistence/repository.py:432-438 | dropping one run's rows from every table is the normalised form of the catalogue without it |
| Columns.RunColumns | src/platval/persistence/repository.py:139-171 | every column of the run's row and of its platform's row, told from the execution |
| Columns.ResultColumns | src/platval/persistence/repository.py:172-229 | every column of a result's row, of its metrics and of its evaluations (`expected`, `actual` and `passed` among them) |
| Columns.SampleColumns | src/platval/persistence/repository.py:230-246 | every column of a sample's row, numbered in list order |
| Columns.OnlyResultRows | src/platval/persistence/repository.py:172-229 | no row without a result, a metric or an evaluation behind it |
| Columns.SavedColumns | src/platval/persistence/repository.py:131-260 | the tables hold these rows under the run's identifier, and no others |
| Histories.HistoryIntegrity | src/platval/persistence/schema.py:6-91 | after every sequence of transactions all keys and references hold |
| Histories.SavedIsReadBack | src/platval/persistence/repository.py:131-330 | corollary: a saved execution is read back unchanged if and only if its telemetry is keyed by exactly its results |
| Histories.ArtifactsAreReadBack | src/platval/persistence/repository.py:307-329 | the artifact records come back, all and only, strictly sorted by path, and no other list has these properties |
| Ordering.TextLeMeans | src/platval/persistence/repository.py:307-313 | the order of paths and keys is that of dictionaries |
| Histories.DeleteUndoesSave | src/platval/persistence/repository.py:416-438 | deleting a just-saved run restores every table except the snapshot counter |
| Histories.DeleteIsLocal | src/platval/persistence/repository.py:416-438 | corollary: deleting a run changes no other run |
| Histories.BaselinePermanence | src/platval/persistence/repository.py:355-438 | once created, a baseline has the same source, creation time and stored source execution in every later state |
| Histories.CompareFindsSource | src/platval/baselines/service.py:119-122 | whatever is committed after the baseline lookup, its source run is still there, unchanged |
| Histories.CreatedBaselineIsKnownGood | src/platval/baselines/service.py:41-51 | a created baseline points at a run that neither failed nor errored, unless a failed or errored run was stored under its identifier in between |
| Histories.CheckThenPointRace | src/platval/baselines/service.py:47-51 | for every unprotected stored run, delete and re-save of a failed run in between defeats the known-good check |
| Baselines.KnownGoodIffProtected | src/platval/baselines/service.py:41-51 | no interleaving can leave a created baseline on a failed or errored run if and only if the call is bound to fail or the run is already the source of a baseline |
| Baselines.CheckedBaselinesStayKnownGood | src/platval/baselines/service.py:41-51 | in every history without reused run identifiers, in which each baseline was checked at some moment before its commit, no baseline ever points at a failed or errored run |
| Baselines.BaselineStatuses | src/platval/baselines/service.py:49-50 | such a run passed, warned or was skipped |
| Baselines.GoodStaysGood | src/platval/persistence/repository.py:131-260 | without reused identifiers a run that was good once is good as long as it is stored |
| Baselines.FailedRun | src/platval/models/results.py:72-108 | for every identifier there is a failed run, with names and hashes of the demanded form, that summary validation and the store accept |
| Histories.UnsavedRunIsUnchanged | src/platval/persistence/repository.py:131-438 | no transaction but a save of that identifier changes what a run reads back as |
| Artifacts.ArtifactStore.WriteAtomically | src/platval/persistence/artifacts.py:58-62 | before every step the artifact is either absent or complete; only the temporary file is ever partial |
| Artifacts.ArtifactStore.TryPersist | src/platval/persistence/artifacts.py:57-72 | what the `try` block leaves in files and rows, for a fault before any of its steps |
| Artifacts.ArtifactStore.RemoveTree | src/platval/persistence/artifacts.py:73-76 | the handler removes the files, then the directory; cut short, it leaves the directory full or empty |
| Artifacts.ArtifactStore.PersistExecution | src/platval/persistence/artifacts.py:42-76 | the operation and its handler, complete or cut short, end for every fault in the state and outcome that `PersistResult` gives |
| Artifacts.ArtifactStore.TryDerive | src/platval/persistence/artifacts.py:102-117 | what the `try` block leaves, and whether the created flag is set, for a fault before any step |
| Artifacts.ArtifactStore.UndoDerived | src/platval/persistence/artifacts.py:118-123 | the handler restores the directory except when the rename had happened and the flag was not yet set; cut short, it leaves what the `try` block left |
| Artifacts.ArtifactStore.WriteDerivedArtifact | src/platval/persistence/artifacts.py:79-123 | the operation and its handler, complete or cut short, end for every fault in the state and outcome that `DeriveResult` gives |
| Artifacts.ArtifactStore.DeleteRunRecoverably | src/platval/persistence/artifacts.py:131-146 | rows first, then the move: for every fault the state and outcome that `DeleteResult` gives |
| Artifacts.ArtifactStore.CreateBaseline | src/platval/baselines/service.py:41-51 | a baseline needs a stored run that neither failed nor errored and a free name; files never change |
| Outcomes.PersistEnds | src/platval/persistence/artifacts.py:51-72 | without a fault persisting is turned away, rejected or returns, each exactly when |
| Outcomes.AcceptedIs | src/platval/persistence/schema.py:13-85 | what the constraints accept from a persist |
| Outcomes.InterruptedPersistEnds | src/platval/persistence/artifacts.py:57-76 | an exception in the `try` block and a handler that completes, raises or dies after any of its actions: what is left and what is passed on |
| Outcomes.InterruptedDeriveEnds | src/platval/persistence/artifacts.py:102-123 | the same for a report |
| Outcomes.DeriveEnds | src/platval/persistence/artifacts.py:94-117 | a report needs a stored run, its directory, a free name and a free path; each refusal exactly when |
| Outcomes.DeleteEnds | src/platval/persistence/artifacts.py:131-146 | deletion needs a stored run without a baseline, removes its rows and moves what its directory holds |
| Outcomes.BaselineEnds | src/platval/baselines/service.py:41-51 | a baseline needs a stored run that passed, warned or was skipped and a free name, and adds the pointer alone |
| EvidenceStore.RelativePathInjective | src/platval/persistence/artifacts.py:63-69 | corollary: different file names of a run have different registered paths |
| Paths.RelativePathReads | src/platval/persistence/artifacts.py:63-69 | a reader that splits at slashes and accepts `runs`, an identifier and a name reads the run and the file name off a registered path |
| Paths.ArtifactsLieInTheirRuns | src/platval/persistence/artifacts.py:42-146 | after every admitted history from the empty store, each row's path reads as a file of its own run, that file has the recorded digest and length, and no two runs share a path |
| Paths.PersistRegisters | src/platval/persistence/artifacts.py:54-72 | a persisted run has exactly the file `run.json` with the text of the execution, registered under that path, kind, digest and length |
| Paths.DeriveRegisters | src/platval/persistence/artifacts.py:96-117 | a derived artifact adds exactly one file and one row, of the given name, kind and content |
| Paths.StoppedWriteIsTemporary | src/platval/persistence/artifacts.py:55-62 | a process stopped while it writes leaves `run.json.tmp` alone |
| CrashConsistency.CrashConsistentStep | src/platval/persistence/artifacts.py:42-146 | one operation under any fault keeps every registered artifact on disk with its recorded hash and length, if and only if no handler removes anything after the commit |
| CrashConsistency.CrashConsistency | src/platval/persistence/artifacts.py:42-146 | over every history of operations, exceptions and process stops, every artifact row names an intact file of its own run |
| CrashConsistency.EmptyIsAnchored | src/platval/persistence/artifacts.py:42-146 | corollary: the empty store satisfies the invariant of the histories |
| CrashConsistency.NoFileIsEverLost | src/platval/persistence/artifacts.py:131-146 | whatever faults strike, every file that is there between two operations stays in place or lies in the trash, unchanged, in every later state |
| CrashConsistency.AllOrNothing | src/platval/persistence/artifacts.py:50-146 | for every fault, an exception of the handler included: an operation that raises changes nothing if and only if its guards turned it away or the exception came at a step that leaves no trace |
| CrashConsistency.HandledIsAllOrNothing | src/platval/persistence/artifacts.py:50-146 | where no exception leaves a trace, an operation has its whole effect or none |
| CrashConsistency.StoresStayInStep | src/platval/persistence/artifacts.py:50-146 | in histories without process stops and exceptions that leave a trace, run directories are exactly the stored runs and their files exactly the registered paths |
| CrashConsistency.EmptyIsSynced | src/platval/persistence/artifacts.py:50-146 | corollary: the empty store is in step |
| CrashConsistency.SyncedStep | src/platval/persistence/artifacts.py:50-146 | each operation of such a history keeps files and rows in step |
| CrashConsistency.CanonicalJsonMatchesTables | src/platval/persistence/artifacts.py:56-71 | `run.json` of every stored run is registered and is the text of the execution the tables give back |
| CrashConsistency.LeftoverBlocksReportForever | src/platval/persistence/artifacts.py:98-123 | a report cut short with a file left behind and no row can never be written again until the run is deleted |
| CrashConsistency.OnlyLeftoversBlock | src/platval/persistence/artifacts.py:96-123 | the faults that leave a report in that state, exactly |
| ConcurrentReports.IntactIffNotOvertaken | src/platval/persistence/artifacts.py:96-123 | for every interleaving of two calls for one report, the registered file is there with the registered payload if and only if no call renamed while the other stood between its look for the artifact and its open; otherwise one call returned and the file is gone |
| ConcurrentReports.RunKeeps | src/platval/persistence/artifacts.py:96-123 | what every step of the two calls keeps, before and after one overtakes the other |
| ConcurrentReports.OvertakenReportIsLost | src/platval/persistence/artifacts.py:98-123 | the loss happens on every system: a schedule of fifteen steps |
| ConcurrentReports.UndisturbedCallsAreIntact | src/platval/persistence/artifacts.py:96-123 | for any number of calls, without an overtaking rename and without a handler removing another call's temporary file, the registered file is there with the registered payload and only the registered call returned |
| ConcurrentReports.LeftoversTurnCallsAway | src/platval/persistence/artifacts.py:96-99 | whatever file an earlier attempt left, any number of calls in any interleaving get no further than looking |
| Control.CancellationToken.Cancel | src/platval/workloads/control.py:17-18 | cancelling is permanent and leaves the tokens above as they were |
| Control.CancelledMeansSomeoneSet | src/platval/workloads/control.py:20-22 | a token is cancelled exactly when some token of its parent chain was set |
| Control.WorkloadContext.Checkpoint | src/platval/workloads/control.py:39-44 | raises exactly when cancelled or at the deadline, the first taking precedence; the second sets only the own token |
| Control.WorkloadContext.RemainingSeconds | src/platval/workloads/control.py:46-48 | the time to the deadline at the second clock read, and zero from there on, even after a passed checkpoint |
| IntegerHashing.SplitIsFair | src/platval/workloads/cpu.py:69-71 | the split gives away every operation, no two workers differ by more than one, the first ones are ahead, and none is idle |
| IntegerHashing.HashWorker | src/platval/workloads/cpu.py:54-66 | the loop computes the worker's digest over its numbered blocks, or ends at the first checkpoint that raises |
| IntegerHashing.CombineWorkerDigests | src/platval/workloads/cpu.py:74-78 | hashes the concatenation in worker order |
| IntegerHashing.ReferenceChecksum | src/platval/workloads/cpu.py:81-86 | the sequential reference is the checksum of the configuration, unless one of its checkpoints raises, in which case the first one tells why |
| IntegerHashing.ReferenceSpelledOut | src/platval/workloads/cpu.py:49-86 | the checksum byte by byte: the digest of the workers' digests, of the digests of blocks that repeat the digest of the worker's label and end in the block's number |
| IntegerHashing.SpellingExists | src/platval/workloads/cpu.py:49-86 | such bytes exist for every configuration when digests have 32 bytes |
| IntegerHashing.LabelsDiffer | src/platval/workloads/cpu.py:50 | different workers hash different labels |
| IntegerHashing.BlocksDiffer | src/platval/workloads/cpu.py:65 | a worker never feeds the inner hash the same bytes twice |
| IntegerHashing.FirstStopIsFirst | src/platval/workloads/cpu.py:63-64 | what ends a worker is the first checkpoint that raises |
| IntegerHashing.FirstStopOfIsFirst | src/platval/workloads/cpu.py:82-85 | and what ends the sequential reference is the first worker that is stopped |
| ByteStrings.LittleEndianReads | src/platval/workloads/cpu.py:65 | the encoded bytes, summed with powers of 256, give the number modulo 256 to their count |
| ByteStrings.LittleEndianAt | cpp/cpuid_probe/src/decoder.cpp:48 | each encoded byte by division and remainder |
| ByteStrings.DecimalReads | src/platval/workloads/cpu.py:50 | the decimal digits read as the number, without leading zeros |
| Concurrency.ExecConsistent | src/platval/workloads/cpu.py:54-112 | in every interleaving each worker's stream is a prefix of its own sequential stream and collected digests are those of the first workers |
| Concurrency.ScheduleIndependence | src/platval/workloads/cpu.py:89-122 | under every schedule that returns, the checksum is the sequential reference and the verdict is positive exactly when no checksum was expected or the expected one is that reference |
| Cancellation.RunTokenIsIsolated | src/platval/workloads/control.py:39-44 | no step of the workload ever sets the run token |
| Cancellation.AtMostOneMoreBlock | src/platval/workloads/cpu.py:63-65 | once the child token is set each worker completes at most the block in hand |
| Cancellation.WorkersStopOnceCancelled | src/platval/workloads/cpu.py:63-65 | and within four steps of its own it has raised, unless that block was its last |
| Cancellation.CancellationHasACause | src/platval/workloads/cpu.py:107-111 | a cancellation leaves the workload only if the run was cancelled or, with two workers or more, some worker hit the deadline |
| Cancellation.WorkloadTerminates | src/platval/workloads/cpu.py:54-112 | no schedule contains more effective steps than the remaining-work measure |
| Cancellation.SomeThreadCanStep | src/platval/workloads/cpu.py:102-111 | until the workload returned or raised, some thread can take an effective step |
| Cancellation.EscapedPoolIsIdle | src/platval/workloads/cpu.py:102-111 | when the workload has raised, every worker of its pool has ended |
| Cancellation.TimeoutEscapesAsCancellation | src/platval/workloads/cpu.py:102-111 | for every configuration with two workers or more there is a schedule in which a deadline alone ends as a cancellation |
| Cancellation.TimeoutsStayTimeoutsIffOneWorker | docs/architecture.md:36 | a deadline alone can end as a cancellation if and only if there is more than one worker |
| Series.SeriesIsScheduleIndependent | src/platval/workloads/cpu.py:199-216 | under all schedules in which every repetition returns, the series is judged correct exactly when no checksum was expected or the expected one is the sequential reference |
| Series.ScheduledVerdict | src/platval/workloads/cpu.py:211-212 | the verdict of the stability loop is that one, whatever schedule each repetition ran under |
| Series.ReturnedLeavesTokenClear | src/platval/workloads/cpu.py:203-210 | a repetition that returns leaves the shared child token clear for the next |
| Series.EnterMeans | src/platval/workloads/cpu.py:203-210 | the ways into a repetition, exactly, and that its deadline is as far away as that of the series |
| Series.OneWorkerSeriesIsContained | src/platval/workloads/cpu.py:202-210 | with one worker no deadline, in any repetition and under any schedule, ends as a cancellation |
| Series.TimeoutEscapesFromSeries | src/platval/workloads/cpu.py:202-210 | with two workers or more a deadline alone can end the series as a cancellation |
| Series.SeriesTimeoutsStayTimeoutsIffOneWorker | docs/architecture.md:36 | the exact condition for the stability workload |
| FloatingPoint.Telescope | src/platval/workloads/cpu.py:154-161 | the exact terms add up to n/(n+1) |
| FloatingPoint.IterateTracks | src/platval/workloads/cpu.py:154-158 | one iteration in any rounding keeps the compensated total near the exact partial sum, with an error that does not grow linearly |
| FloatingPoint.SumTracks | src/platval/workloads/cpu.py:149-158 | the compensated sum follows the exact one at every length |
| FloatingPoint.RunFloatingPointWorkload | src/platval/workloads/cpu.py:135-183 | in any arithmetic whose divisors are not zero, `actual` is the total after all iterations, `expected` the rounded n/(n+1), the error their rounded difference, and the verdict its comparison with the tolerance; under rounding to nearest and up to 20,000,000 terms the total is within 10 units of 2^-53 of n/(n+1) and the error within 12, so the verdict is positive at every tolerance from there on; it is interrupted exactly by a raising checkpoint |
| Stability.MedianIsMiddle | src/platval/workloads/cpu.py:217 | the mean of the two middle values of any sorted arrangement, which are one value when their number is odd |
| Stability.MadIsMedianDistance | src/platval/workloads/cpu.py:218 | the median of the distances from the median |
| Stability.VariabilityIsPercentage | src/platval/workloads/cpu.py:219 | the deviation in percent of a positive median, unavailable otherwise |
| Stability.MedianIsRobust | src/platval/workloads/cpu.py:217 | if more than half of the durations lie in an interval, so does the median |
| Stability.MadIsRobust | src/platval/workloads/cpu.py:218 | and the median absolute deviation is at most its width |
| Stability.VariabilityIsScaleFree | src/platval/workloads/cpu.py:217-219 | a change of time unit changes neither the availability nor the value of the variability |
| Stability.VariabilityUnavailableIffMedianZero | src/platval/workloads/timing.py:6-11 | the variability is unavailable exactly when the median duration is zero |
| Stability.RunStabilityWorkload | src/platval/workloads/cpu.py:186-235 | the verdict is positive exactly when all repetitions agree with the first expectation, the statistics are those of all durations in order, and it ends early exactly when a repetition is cancelled, times out or is refused for want of time |
| Memory.TransformTwice | src/platval/workloads/memory.py:18 | the translation table is its own inverse |
| Memory.TransformFlips | src/platval/workloads/memory.py:18 | the table flips exactly the bits where 0xA5 has a one |
| Memory.PatternChunkAt | src/platval/workloads/memory.py:33-35 | byte i of a chunk is the (transformed) pattern at i mod 256, for every chunk size |
| Memory.Fill | src/platval/workloads/memory.py:58-61 | the first pass leaves byte i equal to the pattern at (i mod chunk) mod 256, for every allocation and chunk size |
| Memory.TransformBuffer | src/platval/workloads/memory.py:63-71 | the second pass translates every byte exactly once and feeds the expected hasher the transformed pattern |
| Memory.HashBuffer | src/platval/workloads/memory.py:73-77 | the third pass feeds the hasher every byte once, in order |
| Memory.RunMemoryWorkload | src/platval/workloads/memory.py:38-99 | the verdict compares the bytes as read in pass three with the transformed pattern of the whole allocation; it is interrupted exactly by a raising checkpoint, with what a checkpoint raised |
| Memory.MemoryVerdictIsExact | src/platval/workloads/memory.py:78-88 | with a collision-free hash the verdict is positive exactly when every byte read is the transformed pattern |
| Memory.SecondPassFaultsAreSeen | src/platval/workloads/memory.py:65-88 | a wrong load in the second pass cannot be masked by the translation |
| Storage.ContentAt | src/platval/workloads/storage.py:27-29 | byte i of the file is byte i mod block of block number i / block |
| Storage.FileSpelledOut | src/platval/workloads/storage.py:27-29 | byte i of the file from the digest of the text `platval-storage-block-` and the number of its block |
| Storage.LabelsDiffer | src/platval/workloads/storage.py:28 | different blocks hash different labels |
| Storage.WriteStopMeans | src/platval/workloads/storage.py:71-80 | the write loop meets no problem exactly if no checkpoint before a block of the file raises and the flush succeeds |
| Storage.ReadStopMeans | src/platval/workloads/storage.py:87-92 | the read loop meets the first problem that a checkpoint before a read raises |
| Storage.ObstacleMeans | src/platval/workloads/storage.py:41-82 | what stands in the way of a verdict, and in which order it is met |
| Storage.TemporaryRoot.WriteBlocks | src/platval/workloads/storage.py:68-82 | the loop ends, having written and hashed exactly the numbered blocks, or at the first problem |
| Storage.TemporaryRoot.ReadFile | src/platval/workloads/storage.py:86-94 | any division of the file into reads feeds the hasher the same bytes |
| Storage.TemporaryRoot.RunStorageWorkload | src/platval/workloads/storage.py:32-119 | a missing root or too little free space is refused with nothing changed; the owned directory is left behind exactly when its path was not yet remembered or removing it fails; nothing else under the root changes, and the outcome is the first obstacle or the comparison of what was read with exactly `size_bytes` written bytes |
| JsonPrinter.EscapeCharacter | cpp/cpuid_probe/src/json.cpp:14-44 | one byte is escaped as RFC 8259 requires, and the stream's number base and width are back as they were |
| JsonPrinter.EscapeJson | cpp/cpuid_probe/src/json.cpp:12-47 | the loop gives the escaped string, byte by byte |
| JsonPrinter.RenderJson | cpp/cpuid_probe/src/json.cpp:53-124 | the stream ends up holding the text of a JSON document laid out in the chosen style, from which the independent readers recover the data |
| JsonPrinter.PutCaches | cpp/cpuid_probe/src/json.cpp:100-122 | the cache loop prints an array, with commas between items only and the empty array without line breaks |
| JsonDocuments.DocumentParses | cpp/cpuid_probe/src/json.cpp:53-124 | every document in every layout reads back as its value under the reference reader |
| JsonDocuments.CharsParse | cpp/cpuid_probe/src/json.cpp:12-47 | reading an escaped string gives back every byte of it |
| JsonPrinter.RenderedJsonReadsBack | cpp/cpuid_probe/src/json.cpp:53-124 | the printed text of any probe data, compact or pretty, reads as the same JSON value |
| JsonPrinter.RenderedDataReadsBack | cpp/cpuid_probe/src/json.cpp:53-124 | for both formats the printed text parses, and a reader that looks members up by their literal names and maps the literal kind names recovers the same data |
| JsonPrinter.RenderedConstants | cpp/cpuid_probe/src/json.cpp:59-98 | schema version 1, probe version 0.1.0, and the virtualisation flag as either vendor's extension |
| JsonPrinter.TextShape | cpp/cpuid_probe/src/json.cpp:54-58 | the pretty format breaks lines, the compact one does not begin or end with one |
| JsonPrinter.JsonProbeInjective | cpp/cpuid_probe/src/json.cpp:53-124 | that value determines the probe data, every byte of every string included |
| JsonPrinter.RenderingIsInjective | cpp/cpuid_probe/src/json.cpp:53-124 | different probe data never print the same text, in any combination of formats |
| Decoder.CacheSizeIsExact | cpp/cpuid_probe/src/decoder.cpp:79-83 | for any register values the 64-bit product is the exact size |
| Decoder.DecodeInvertsPack | cpp/cpuid_probe/src/decoder.cpp:73-95 | decoding inverts the packing of leaf 04H (Intel SDM Volume 2A, CPUID); sets and size come back exactly when there are not 2^32 sets |
| Decoder.KindIs | cpp/cpuid_probe/src/decoder.cpp:74-88 | the low five bits of EAX decide whether there is a cache and of which kind |
| Decoder.TrimCpuString | cpp/cpuid_probe/src/decoder.cpp:13-31 | the result has the same words and no leading, trailing or doubled space |
| Decoder.TidyIsDeterminedByWords | cpp/cpuid_probe/src/decoder.cpp:13-31 | such a string is determined by its words, so trimming twice is trimming once |
| Decoder.DecodeBrand | cpp/cpuid_probe/src/decoder.cpp:43-53 | the brand has the words of the 48 register bytes up to the first zero, in register order |
| Decoder.BrandByteAt | cpp/cpuid_probe/src/decoder.cpp:43-52 | each brand byte is that byte of its register by division and remainder, in leaf and register order |
| Decoder.CStringIs | cpp/cpuid_probe/src/decoder.cpp:52 | the bytes before the first zero |
| Results.AggregateIsMaximum | src/platval/models/results.py:13-22 | the aggregate is the least upper bound of the statuses in the order SKIP, PASS, WARN, FAIL, ERROR |
| Results.SeverityOrder | src/platval/models/results.py:17-22 | the order of consequence |
| Results.OrderDoesNotMatter | src/platval/models/results.py:13-22 | only the set of statuses matters |
| Results.AggregateOfConcatenation | src/platval/models/results.py:13-22 | aggregating a concatenation is joining the aggregates by severity |
| Results.AggregateIsMonotone | src/platval/models/results.py:13-22 | worse tests never make a better run |
| Results.CountsDecideStatus | src/platval/models/results.py:97-108 | two accepted results with the same counts have the same overall status |
| Results.CountsAddUp | src/platval/models/results.py:97-108 | the counts of an accepted result add up to its number of tests |
| Results.CountsAreOccurrences | src/platval/models/results.py:104 | the count of a status is the number of tests that have it |
| Evaluator.OperatorsMean | src/platval/evaluation/evaluator.py:26-64 | every operator passes exactly when the metric is present and the stated relation holds, and raises exactly when a present metric meets operands it cannot compare |
| Evaluator.BetweenIsBothBounds | src/platval/evaluation/evaluator.py:50-58 | `between` is the conjunction of the one-sided operators, and raises on boundaries out of order |
| Evaluator.OppositesDisagree | src/platval/evaluation/evaluator.py:34-49 | corollary: an operator and its opposite disagree on a present metric and both fail on an absent one |
| Evaluator.EqualityIs | src/platval/evaluation/evaluator.py:38-41 | equality is by value, across booleans, integers and floats |
| Engine.EvaluateAllEach | src/platval/runner/engine.py:363-366 | the evaluations are those of each requirement in order, or there is an error exactly if one raises |
| Engine.RunTest | src/platval/runner/engine.py:297-397 | the branches and handlers of one test end in the outcome that `TestOutcome` gives |
| Records.DefaultRequests | src/platval/runner/engine.py:175-262 | what each test asks of its workload without parameters |
| Records.HashingRequest | src/platval/runner/engine.py:177-195 | what an integer test hashes with parameters, the injected fault included |
| Records.SeriesRequest | src/platval/runner/engine.py:237-247 | the same for the stability test |
| Records.OtherRequests | src/platval/runner/engine.py:196-234 | the same for the floating-point, memory and storage tests |
| Records.WrongTypesRaise | src/platval/runner/engine.py:66-84 | a parameter of another type raises and is named; a boolean is no number |
| Records.WorkersAreLimited | src/platval/runner/engine.py:87-90 | the plan can lower the number of workers, never raise it |
| Records.StabilityWarns | src/platval/runner/engine.py:253-261 | the stability test warns exactly when its variability is unavailable or above the threshold |
| Records.TelemetryWarns | src/platval/runner/engine.py:137-149 | the telemetry test warns exactly when temperature is unavailable |
| Records.ConfigurationReads | src/platval/runner/engine.py:152-164 | the configuration test is skipped exactly without the probe, and otherwise measures exactly the CPU flags |
| Records.WorkloadMetrics | src/platval/runner/engine.py:103-113 | every measurement becomes a metric of the same name, value and unit |
| Records.OtherTestsRead | src/platval/runner/engine.py:116-134 | the inventory test measures five things; the regression test and unknown tests are skipped |
| Records.ReadingTests | src/platval/runner/engine.py:235-263 | the telemetry and configuration tests read what they are named after |
| Records.WorkloadTests | src/platval/runner/engine.py:194-234 | a workload test is what its workload reported, or what it raised |
| Records.ResultSays | src/platval/runner/engine.py:376-397 | identity, clock readings, injection, samples and summary of a result |
| Records.FailureSays | src/platval/runner/engine.py:345-354 | what is recorded when a workload raised |
| Records.JudgementSays | src/platval/runner/engine.py:367-374 | what is recorded when requirements are not met or cannot be evaluated |
| Records.EvaluationErrorsRead | src/platval/evaluation/evaluator.py:14-61 | the error of each operand check, the actual value's first |
| Records.BetweenErrorsRead | src/platval/evaluation/evaluator.py:50-58 | the error of each boundary check, the order of the boundaries before the actual value |
| Records.ErrorTextsRead | src/platval/evaluation/evaluator.py:14-61 | the text of each error |
| Records.SummarySays | src/platval/runner/engine.py:275-294 | the summary counts the samples, names the sensors that gave a reading and adds up the errors |
| Records.ErrorsAddUp | src/platval/runner/engine.py:293 | errors of lists add up |
| Engine.RunValidationPlan | src/platval/runner/engine.py:400-461 | an execution results exactly when the preparation succeeds, every test gets its turn and each yields a result; otherwise the exception of the preparation or of the first test that yields none, and no result survives |
| Records.ExecutedSays | src/platval/runner/engine.py:444-461 | the parts of an execution that come from the plan, the platform and the clock, and when the injection warning is there |
| Soundness.HintIsMild | src/platval/runner/engine.py:167-272 | a case that ran never itself asks for FAIL or ERROR |
| Soundness.StatusIsExact | src/platval/runner/engine.py:309-375 | if and only if conditions for each status of a test, down to the meaning of its requirements |
| Soundness.EvaluationsAreComplete | src/platval/runner/engine.py:358-388 | a judged result carries one evaluation per planned requirement, in order, decided on the measured value |
| Soundness.RequirementsOnlyTighten | src/platval/runner/engine.py:358-374 | with at least the same requirements, in any order, a test ends at least as severely |
| Soundness.PassIsSound | src/platval/runner/engine.py:421-461 | a run passes exactly when each test was skipped or was correct with every planned requirement true on a present metric, and at least one was not skipped |
| Soundness.TelemetryAt | src/platval/runner/engine.py:422-436 | with unique test identifiers no sample list overwrites another |
| Soundness.ProducerMeetsStore | src/platval/runner/engine.py:421-461 | every execution the runner builds passes its own summary validation, has one result and one sample list per planned test in plan order, violates no key under a fresh identifier, and reads back unchanged |
| Soundness.ExecutedRunPersists | src/platval/persistence/artifacts.py:42-76 | and is persisted, in files and rows, on the first try |
| Containment.InjectedFaultIsCaught | src/platval/runner/engine.py:177-195 | under every schedule an injected checksum mismatch ends in FAIL or ERROR, and a failure names it |
| Containment.InjectedRunIsNeverGood | src/platval/runner/engine.py:438-456 | a finished run with an injected fault fails or errs, says so in its warnings, and cannot become a baseline |
| Containment.HexReads | src/platval/workloads/cpu.py:78 | a digest's text has two lower-case digits for each byte, the higher one first |
| Containment.TimeoutLosesTheRun | src/platval/runner/engine.py:343-344 | in the hashing tests, with two workers or more, a deadline alone can discard every result of the plan |
| Containment.TimeoutIsContained | src/platval/runner/engine.py:345-347 | in the hashing tests, with one worker, a deadline costs its test an ERROR and the run goes on, under every schedule |
| Containment.SeriesTimeoutLosesTheRun | src/platval/runner/engine.py:237-252 | in the stability test, with two workers or more, a deadline alone can discard every result of the plan |
| Containment.SeriesTimeoutIsContained | src/platval/runner/engine.py:237-252 | in the stability test, with one worker, a series cut short costs its test an ERROR and the run goes on, whatever the schedules |
| Containment.SoleTimeoutIsContained | src/platval/runner/engine.py:196-234 | in the floating-point, memory and storage tests a deadline costs its test an ERROR and the run goes on, whatever the clock shows at each checkpoint |
| Comparison.CollectMetrics | src/platval/baselines/service.py:62-73 | the nested loops collect the registered numeric metrics, later results overriding earlier ones |
| Comparison.CompareMetrics | src/platval/baselines/service.py:143-177 | the loop over the sorted common keys gives the comparisons and the unit warnings |
| Comparison.CompareRun | src/platval/baselines/service.py:104-217 | the report, or the error, for the stored baseline, its source and the run; thresholds that are not finite or out of order are rejected first |
| Verdicts.StatusIsExact | src/platval/baselines/service.py:183-202 | if and only if conditions for every status of a report, on the runs' measurements alone |
| Verdicts.PoliciesAre | src/platval/baselines/service.py:23-33 | the nine metrics and which way each of them is better |
| Verdicts.ComparisonsAre | src/platval/baselines/service.py:143-175 | each comparison says what was measured twice, by how much it differs and how that is judged; and everything measured twice in one unit is compared |
| Verdicts.TemperatureShows | src/platval/baselines/service.py:178 | a limitation mentions temperature when it contains the word in small or capital letters |
| Verdicts.ThresholdsAre | src/platval/baselines/service.py:112-118 | thresholds are admitted when not negative and in strict order |
| Verdicts.IdentityWarningsSay | src/platval/baselines/service.py:127-142 | the four warnings about identity, each exactly when it applies |
| ComparisonLaws.OutcomeMeans | src/platval/baselines/service.py:76-101 | the outcome as inequalities without division, relative to the size of the baseline |
| ComparisonLaws.OutcomeIsMonotone | src/platval/baselines/service.py:76-101 | a value that moved further for the worse never gets a better outcome |
| ComparisonLaws.OutcomeIsMirrored | src/platval/baselines/service.py:87-90 | swapping the direction mirrors the outcome under reflection and negation |
| ComparisonLaws.OutcomeIsScaleFree | src/platval/baselines/service.py:76-101 | a common change of unit changes neither outcome nor percentage, a zero baseline included |
| ComparisonLaws.WiderThresholdsReportLess | src/platval/baselines/service.py:91-100 | whatever wider thresholds report, narrower ones report too |
| ComparisonLaws.MetricsAreMeasurements | src/platval/baselines/service.py:62-73 | with unique test identifiers the metrics are exactly the registered numeric measurements, booleans excluded |
| ComparisonLaws.ComparedIsComplete | src/platval/baselines/service.py:147-175 | the comparisons are exactly the common keys in a common unit, each once, in key order |
| ComparisonLaws.SelfComparisonWarns | src/platval/baselines/service.py:128-202 | comparing a baseline with its source finds every metric unchanged and warns, for all admissible thresholds, unless the source failed or errored |
| ComparisonLaws.PassCertifies | src/platval/baselines/service.py:127-202 | the exact list of facts a passing report certifies |
| ComparisonLaws.ComparisonNeverLosesItsSource | src/platval/baselines/service.py:112-122 | whatever is committed between its three reads, a comparison fails only for thresholds, an unknown baseline or an unknown run |
| ComparisonLaws.ComparisonIsReproducible | src/platval/baselines/service.py:104-217 | as long as the run is still the stored one, repeating a comparison after any history gives the same report |

## Left out

- Command line, tables on the terminal, doctor checks, report templates and charts: presentation.
- Platform inventory, psutil, powercfg and the probe subprocess: foreign calls, their results are inputs.
- The telemetry sampler thread: a bounded append loop; its sample lists are inputs.
- SHA-256 itself, UUID generation, pydantic parsing, plan loading and the canonical plan hash.
- Opening the database, the schema version check and `list_runs` / `list_baselines`: queries without a property of their own.
- SQLite internals (WAL, locking, crash recovery): transactions are assumed atomic and serialised.
- Checks of path escapes, run identifiers, artifact file names and baseline names: one branch each.
- Safety policies and their minima: the bounds appear as preconditions or as a workload that refuses.
- `decode_vendor` and `decode_features`: single bit tests and copies.
- FloatingPoint.RunFloatingPointWorkload: overflow, underflow and NaN do not occur at these magnitudes and are not modelled; throughput figures are left out.
- Stability.RunStabilityWorkload: durations are observations, and the statistics are over exact reals.
- Engine.RunTest: duration, evidence references and the explanation text are left out, and clock readings are inputs.
- Engine.RunValidationPlan: why the preparation (directories, storage path, inventory) fails is an input.
- Storage.TemporaryRoot.RunStorageWorkload: the file system below the owned directory is left out; an interruption of the final removal counts as a removal that fails.
- JsonPrinter.RenderJson: strings are bytes; whether they are valid UTF-8, which a strict reader would also demand, is not decided here.
- Comparison.CompareRun: letters are lowered in ASCII only; no other character lowers to a letter of the word it looks for.
- ConcurrentReports.IntactIffNotOvertaken: covers two calls for the same report, without faults; calls for different operations are left out.
- ConcurrentReports.UndisturbedCallsAreIntact: one direction only; with three calls or more a handler's removal can also undo the harm of a rename, so the condition is not necessary. A report name that ends in `.tmp` and collides with another call's temporary file is left out.
- Artifacts.ArtifactStore.DeleteRunRecoverably: the time stamp in the trash name is left out, and the move is one step.
- Requirement units: the code never compares them with the metric's unit, and neither does the model.
