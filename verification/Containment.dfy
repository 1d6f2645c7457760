/** From the threads of the hashing and stability workloads to the verdict of the run: injected faults
    are always caught, and a timeout stays inside its test exactly when the workload has one worker. */
module Containment {
  import opened Models
  import opened Control
  import opened IntegerHashing
  import opened Concurrency
  import opened Cancellation
  import opened Results
  import opened Engine
  import opened Stability
  import opened Series
  import opened Soundness
  import opened Histories

  function HexDigit(n: int): char
    requires 0 <= n < 16
  {
    "0123456789abcdef"[n]
  }

  /** `hexdigest` */
  function Hex(b: Bytes): (s: string)
    ensures |s| == 2 * |b|
  {
    if b == [] then "" else [HexDigit(b[0] / 16), HexDigit(b[0] % 16)] + Hex(b[1..])
  }

  /** The value of a hexadecimal digit. */
  function HexValue(c: char): int {
    if '0' <= c <= '9' then c as int - '0' as int
    else if 'a' <= c <= 'f' then c as int - 'a' as int + 10
    else -1
  }

  /** Two lower-case digits for each byte, the higher one first. */
  lemma {:induction false} HexReads(b: Bytes, i: nat)
    requires i < |b|
    ensures HexValue(Hex(b)[2 * i]) >= 0 && HexValue(Hex(b)[2 * i + 1]) >= 0
    ensures 16 * HexValue(Hex(b)[2 * i]) + HexValue(Hex(b)[2 * i + 1]) == b[i]
  {
    if i == 0 {
      HexDigitReads(b[0] / 16);
      HexDigitReads(b[0] % 16);
    } else {
      HexReads(b[1..], i - 1);
    }
  }

  lemma HexDigitReads(n: int)
    requires 0 <= n < 16
    ensures HexValue(HexDigit(n)) == n
  {
  }

  /** The request spells out the configuration, its expected checksum in hexadecimal. */
  ghost predicate Asks(request: Request, c: Config) {
    && request.IntegerHashing?
    && request.workers == c.workers && request.operations == c.operations && request.blockSize == c.blockSize
    && request.expected == if c.expected.None? then None else Some(Hex(c.expected.value))
  }

  /** How the runner sees the submitting thread end. */
  ghost predicate Reports(outcome: Result<WorkloadResult, Failure>, main: Main) {
    match main
    case Returned(checksum, correct) =>
      outcome.Ok? && outcome.value.correct == correct && outcome.value.checksum == Some(Hex(checksum))
    case Escaped(WorkloadCancelled) => outcome == Err(Cancelled)
    case Escaped(WorkloadTimeout) => outcome.Err? && outcome.error.TimedOut?
    case _ => false
  }

  ghost function End(sha256: Bytes -> Bytes, job: Job, runToken: bool, now: int, actions: seq<Action>): Main
    requires ValidConfig(job.config)
  {
    Exec(sha256, job, Init(runToken, now), actions).main
  }

  /** The workload ends as some schedule lets it end. */
  ghost predicate SomeSchedule(sha256: Bytes -> Bytes, outcome: Result<WorkloadResult, Failure>, c: Config)
    requires ValidConfig(c)
  {
    exists deadline, runToken, now, actions :: Reports(outcome, End(sha256, Job(c, deadline), runToken, now, actions))
  }

  /** An integer request is refused, or runs under some schedule of its configuration. */
  ghost predicate HashingBehaves(sha256: Bytes -> Bytes, run: Request -> Result<WorkloadResult, Failure>) {
    forall request: Request :: request.IntegerHashing? ==>
      || (run(request).Err? && run(request).error.Failed?)
      || exists c :: ValidConfig(c) && Asks(request, c) && SomeSchedule(sha256, run(request), c)
  }

  lemma ReturnedMeansCompared(sha256: Bytes -> Bytes, outcome: Result<WorkloadResult, Failure>, c: Config)
    requires ValidConfig(c) && SomeSchedule(sha256, outcome, c)
    requires outcome.Ok?
    ensures outcome.value.correct <==> c.expected.None? || c.expected.value == Reference(sha256, c)
  {
    hide Exec, Reference;
    var deadline, runToken, now, actions :| Reports(outcome, End(sha256, Job(c, deadline), runToken, now, actions));
    ScheduleIndependence(sha256, Job(c, deadline), runToken, now, actions);
  }

  const CAUGHT := "opt-in injected checksum mismatch produced the expected failure"

  /** However the threads are scheduled and whatever the test requires, an injected mismatch never
      yields a result that passes, warns or is skipped, and a failure names its cause. It holds as
      long as no input hashes to zero. */
  lemma InjectedFaultIsCaught(sha256: Bytes -> Bytes, t: TestDefinition, snapshot: Snapshot, detected: nat, around: Surroundings)
    requires ValidTest(t) && t.inject
    requires HashingBehaves(sha256, around.run)
    requires forall b :: Hex(sha256(b)) != ZEROS
    ensures var outcome := TestOutcome(t, snapshot, detected, around);
            outcome.Ok? ==>
              && outcome.value.0.injected
              && outcome.value.0.status in {Fail, Error}
              && (outcome.value.0.status == Fail ==> outcome.value.0.failureReason == Some(CAUGHT))
  {
    var request := RequestOf(t, detected);
    hide IntParameter, DefaultWorkers, Hex, Reference;
    InjectedRequest(t, detected);
    hide RequestOf, ValidTest;
    if request.Ok? && around.run(request.value.value).Ok? {
      var outcome := around.run(request.value.value);
      var c :| ValidConfig(c) && Asks(request.value.value, c) && SomeSchedule(sha256, outcome, c);
      ReturnedMeansCompared(sha256, outcome, c);
      ReferenceIsADigest(sha256, c);
      assert !outcome.value.correct;
    }
    hide HashingBehaves, EvaluateAll, ReadingCase;
  }

  lemma ReferenceIsADigest(sha256: Bytes -> Bytes, c: Config)
    requires ValidConfig(c)
    requires forall b :: Hex(sha256(b)) != ZEROS
    ensures Hex(Reference(sha256, c)) != ZEROS
  {
  }

  lemma InjectedRequest(t: TestDefinition, detected: nat)
    requires ValidTest(t) && t.inject
    ensures t.enabled && t.id != "STB-001"
    ensures var request := RequestOf(t, detected);
            if request.Ok? then request.value.Some? && request.value.value.IntegerHashing? && request.value.value.expected == Some(ZEROS)
            else request.error.Failed?
  {
    assert forall name, default :: IntParameter(t, name, default).Err? ==> IntParameter(t, name, default).error.Failed?;
    hide IntParameter, DefaultWorkers;
  }

  /** A plan that injects a fault and finishes fails or errs as a whole, says so in its warnings, and
      can never become a baseline. */
  lemma InjectedRunIsNeverGood(sha256: Bytes -> Bytes, plan: TestPlan, facts: RunFacts, around: nat -> Surroundings, k: nat)
    requires ValidPlan(plan) && Reaches(plan, facts, around, |plan.tests|)
    requires k < |plan.tests| && plan.tests[k].inject
    requires HashingBehaves(sha256, around(k).run)
    requires forall b :: Hex(sha256(b)) != ZEROS
    ensures var e := Executed(plan, facts, around);
            && INJECTED_WARNING in e.run.warnings
            && e.run.overallStatus in {Fail, Error}
            && !KnownGood(e)
  {
    hide HashingBehaves, TestOutcome, Hex;
    var e := Executed(plan, facts, around);
    InjectedFaultIsCaught(sha256, plan.tests[k], facts.snapshot, facts.detected, around(k));
    hide ValidPlan, ValidTest;
    var statuses := Statuses(e.run.testResults);
    assert e.run.testResults[k].injected && statuses[k] in {Fail, Error};
    AggregateIsMaximum(statuses, AggregateStatus(statuses));
    assert statuses[k] in statuses;
    assert e.run.warnings == facts.snapshot.limitations + [INJECTED_WARNING];
    hide AggregateStatus;
  }

  // ---- Timeouts ----

  /** With two workers or more there is a schedule in which nobody cancels the run, a deadline passes,
      and the run is lost: not only the slow test but every result of the plan. */
  lemma TimeoutLosesTheRun(sha256: Bytes -> Bytes, plan: TestPlan, facts: RunFacts, around: nat -> Surroundings, k: nat,
                           request: Request, c: Config, deadline: int, now: int)
    returns (actions: seq<Action>)
    requires k < |plan.tests| && plan.tests[k].enabled
    requires RequestOf(plan.tests[k], facts.detected) == Ok(Some(request)) && Asks(request, c)
    requires ValidConfig(c) && c.workers >= 2 && now < deadline
    ensures NoCancel(actions)
    ensures Reports(around(k).run(request), End(sha256, Job(c, deadline), false, now, actions)) ==>
              && OutcomeAt(plan, facts, around, k) == Err(Cancelled)
              && !Reaches(plan, facts, around, |plan.tests|)
  {
    hide Exec, RequestOf, ReadingCase, StabilityCase;
    actions := TimeoutEscapesAsCancellation(sha256, Job(c, deadline), now);
  }

  /** With one worker a deadline costs the test an error and nothing else: under every schedule in
      which nobody cancels the run, the test yields a result and the run goes on. */
  lemma TimeoutIsContained(sha256: Bytes -> Bytes, plan: TestPlan, facts: RunFacts, around: nat -> Surroundings, k: nat,
                           request: Request, c: Config, deadline: int, now: int, actions: seq<Action>)
    requires k < |plan.tests| && HashesIntegers(plan.tests[k])
    requires RequestOf(plan.tests[k], facts.detected) == Ok(Some(request)) && Asks(request, c)
    requires ValidConfig(c) && c.workers == 1
    requires NoCancel(actions)
    requires Reports(around(k).run(request), End(sha256, Job(c, deadline), false, now, actions))
    requires Reaches(plan, facts, around, k) && !around(k).cancelled
    ensures Reaches(plan, facts, around, k + 1)
    ensures plan.tests[k].enabled && End(sha256, Job(c, deadline), false, now, actions).Escaped? ==>
              var result := OutcomeAt(plan, facts, around, k).value.0;
              result.status == Error && result.exceptionSummary == Some("WorkloadTimeout")
  {
    CancellationHasACause(sha256, Job(c, deadline), now, actions);
    hide Exec, RequestOf, ReadingCase, StabilityCase, EvaluateAll;
    assert plan.tests[k].id != "STB-001";
  }

  // ---- Timeouts in the stability test ----

  /** The request spells out the configuration of every repetition; none expects a checksum at first. */
  ghost predicate AsksSeries(request: Request, repetitions: nat, c: Config) {
    && request.StabilitySeries?
    && request.repetitions == repetitions
    && request.workers == c.workers && request.operations == c.operations && request.blockSize == c.blockSize
    && c.expected.None?
  }

  /** How the runner sees the series end; a repetition without time left is refused. */
  ghost predicate ReportsSeries(outcome: Result<WorkloadResult, Failure>, end: SeriesEnd) {
    match end
    case Completed(checksum, correct) =>
      && outcome.Ok? && outcome.value.correct == correct && outcome.value.checksum == Some(Hex(checksum))
      && "robust_variability" in outcome.value.measurements
    case Broken(Interrupted(WorkloadCancelled)) => outcome == Err(Cancelled)
    case Broken(Interrupted(WorkloadTimeout)) => outcome.Err? && outcome.error.TimedOut?
    case Broken(NoTimeLeft) => outcome.Err? && outcome.error.Failed?
    case Unfinished => false
  }

  function SeriesOf(sha256: Bytes -> Bytes, c: Config, deadline: int, repetitions: nat, now: int, turns: seq<Turn>): SeriesEnd
    requires ValidConfig(c)
  {
    RunSeries(sha256, c, deadline, repetitions, Moment(false, now), true, turns)
  }

  /** The stability test loses the run in the same way when its repetitions have two workers or more. */
  lemma SeriesTimeoutLosesTheRun(sha256: Bytes -> Bytes, plan: TestPlan, facts: RunFacts, around: nat -> Surroundings, k: nat,
                                 request: Request, repetitions: nat, c: Config, deadline: int, now: int)
    returns (turns: seq<Turn>)
    requires k < |plan.tests| && plan.tests[k].enabled
    requires RequestOf(plan.tests[k], facts.detected) == Ok(Some(request)) && AsksSeries(request, repetitions, c)
    requires ValidConfig(c) && c.workers >= 2 && now < deadline && repetitions > 0
    ensures NobodyCancels(turns)
    ensures ReportsSeries(around(k).run(request), SeriesOf(sha256, c, deadline, repetitions, now, turns)) ==>
              && OutcomeAt(plan, facts, around, k) == Err(Cancelled)
              && !Reaches(plan, facts, around, |plan.tests|)
  {
    hide RunSeries, RequestOf, ReadingCase, StabilityCase;
    turns := TimeoutEscapesFromSeries(sha256, c, deadline, repetitions, now);
  }

  /** With one worker no deadline loses it: whatever the schedules of the repetitions, the test yields
      a result, an error when the series was cut short, and the run goes on. */
  lemma SeriesTimeoutIsContained(sha256: Bytes -> Bytes, plan: TestPlan, facts: RunFacts, around: nat -> Surroundings, k: nat,
                                 request: Request, repetitions: nat, c: Config, deadline: int, now: int, turns: seq<Turn>)
    requires k < |plan.tests| && plan.tests[k].id == "STB-001"
    requires RequestOf(plan.tests[k], facts.detected) == Ok(Some(request)) && AsksSeries(request, repetitions, c)
    requires ValidConfig(c) && c.workers == 1
    requires NobodyCancels(turns)
    requires ReportsSeries(around(k).run(request), SeriesOf(sha256, c, deadline, repetitions, now, turns))
    requires Reaches(plan, facts, around, k) && !around(k).cancelled
    ensures Reaches(plan, facts, around, k + 1)
    ensures plan.tests[k].enabled && SeriesOf(sha256, c, deadline, repetitions, now, turns).Broken? ==>
              OutcomeAt(plan, facts, around, k).value.0.status == Error
  {
    hide RunSeries, RequestOf, TestOutcome;
    OneWorkerSeriesIsContained(sha256, c, deadline, repetitions, Moment(false, now), true, turns);
    SeriesOutcome(plan.tests[k], facts.snapshot, facts.detected, around(k), request);
  }

  lemma SeriesOutcome(t: TestDefinition, snapshot: Snapshot, detected: nat, around: Surroundings, request: Request)
    requires t.id == "STB-001" && RequestOf(t, detected) == Ok(Some(request))
    requires var outcome := around.run(request);
             if outcome.Ok? then "robust_variability" in outcome.value.measurements
             else outcome.error.TimedOut? || outcome.error.Failed?
    ensures TestOutcome(t, snapshot, detected, around).Ok?
    ensures t.enabled && around.run(request).Err? ==> TestOutcome(t, snapshot, detected, around).value.0.status == Error
  {
    FloatParameterFails(t);
    hide RequestOf, ReadingCase, Judge, Exceeds, FloatParameter, Summarise;
  }

  lemma FloatParameterFails(t: TestDefinition)
    ensures forall name, default :: FloatParameter(t, name, default).Err? ==> FloatParameter(t, name, default).error.Failed?
  {
  }

  // ---- Timeouts in the single-threaded tests ----

  /** The checkpoints of a workload that has its child token to itself: the token is clear until the
      one that sets it, which ends the workload. */
  function SoleCheckpoint(runToken: nat -> bool, now: nat -> int, deadline: int): nat -> Option<Interrupt> {
    (i: nat) => if runToken(i) then Some(WorkloadCancelled) else if now(i) >= deadline then Some(WorkloadTimeout) else None
  }

  /** As the contracts of the single-threaded workloads say: an interruption is what one of the
      checkpoints raised. */
  ghost predicate RaisedByCheckpoint(outcome: Result<WorkloadResult, Failure>, checkpoint: nat -> Option<Interrupt>) {
    || outcome.Ok?
    || outcome.error.Failed?
    || exists i :: checkpoint(i).Some? && Reports(outcome, Escaped(checkpoint(i).value))
  }

  /** The floating-point, memory and storage tests never lose the run to a deadline: whatever the clock
      shows at each checkpoint, as long as nobody cancels the run the test yields a result, an error
      when its workload raised, and the run goes on. */
  lemma SoleTimeoutIsContained(plan: TestPlan, facts: RunFacts, around: nat -> Surroundings, k: nat,
                               request: Request, runToken: nat -> bool, now: nat -> int, deadline: int)
    requires k < |plan.tests| && plan.tests[k].id in {"CPU-002", "MEM-001", "STO-001"}
    requires RequestOf(plan.tests[k], facts.detected) == Ok(Some(request))
    requires RaisedByCheckpoint(around(k).run(request), SoleCheckpoint(runToken, now, deadline))
    requires forall i :: !runToken(i)
    requires Reaches(plan, facts, around, k) && !around(k).cancelled
    ensures Reaches(plan, facts, around, k + 1)
    ensures plan.tests[k].enabled && around(k).run(request).Err? ==>
              OutcomeAt(plan, facts, around, k).value.0.status == Error
  {
    hide RequestOf, ReadingCase, StabilityCase, Judge, Summarise;
    assert plan.tests[k].id != "STB-001";
  }
}
