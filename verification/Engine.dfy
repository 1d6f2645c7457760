/** The runner: one test from definition to result, and a whole plan to an execution. What the
    workloads, the telemetry sampler, the inventory and the clock deliver are inputs. */
module Engine {
  import opened Models
  import opened Evaluator
  import opened Results

  datatype TestDefinition = TestDefinition(
    id: TestId,
    enabled: bool,
    parameters: map<string, Scalar>,
    requirements: seq<Requirement>,
    maxWorkers: Option<nat>,
    inject: bool)

  datatype TestPlan = TestPlan(name: string, tests: seq<TestDefinition>)

  /** What plan validation accepts. */
  predicate ValidRequirement(r: Requirement) {
    match r.op
    case Between => r.expected.Many? && |r.expected.items| == 2
    case Present => r.expected == Single(Null)
    case _ => r.expected != Single(Null)
  }

  predicate ValidTest(t: TestDefinition) {
    && (forall r :: r in t.requirements ==> ValidRequirement(r))
    && (t.inject ==> t.enabled && t.id in {"CPU-001", "CPU-003"})
    && (t.maxWorkers.Some? ==> t.maxWorkers.value > 0)
  }

  predicate ValidPlan(plan: TestPlan) {
    && plan.tests != []
    && (forall t :: t in plan.tests ==> ValidTest(t))
    && (forall i, j :: 0 <= i < j < |plan.tests| ==> plan.tests[i].id != plan.tests[j].id)
  }

  datatype Capability = Capability(metric: string, available: bool, source: string)

  datatype Snapshot = Snapshot(
    platform: PlatformIdentity,
    logicalProcessors: Scalar,
    physicalProcessors: Scalar,
    memoryBytes: Scalar,
    freeBytes: Scalar,
    architecture: string,
    capabilities: seq<Capability>,
    limitations: seq<string>)

  /** What a test asks of a workload. */
  datatype Request =
    | IntegerHashing(workers: int, operations: int, blockSize: int, expected: Option<string>)
    | FloatingPointSum(iterations: int, tolerance: real)
    | MemoryPattern(allocation: Option<int>)
    | StorageRoundTrip(size: int, blockSize: int)
    | StabilitySeries(repetitions: int, workers: int, operations: int, blockSize: int)

  datatype WorkloadMeasurement = WorkloadMeasurement(value: Scalar, unit: Option<string>)

  datatype WorkloadResult =
    WorkloadResult(workload: string, correct: bool, checksum: Option<string>, measurements: map<string, WorkloadMeasurement>)

  /** Exceptions: cancellation and a missing dictionary key leave the run, the others become results. */
  datatype Failure =
    | Cancelled
    | MissingKey(key: string)
    | TimedOut(message: string)
    | Failed(kind: string, message: string)

  /** What surrounds one test: whether the run token is set when its turn comes, how a workload
      would end, the samples taken meanwhile and the clock. */
  datatype Surroundings = Surroundings(
    cancelled: bool,
    run: Request -> Result<WorkloadResult, Failure>,
    samples: seq<TelemetrySample>,
    startedAt: int,
    endedAt: int)

  datatype Case = Case(correct: bool, measured: map<string, MetricValue>, hint: Status, reason: Option<string>)

  // ---- Parameters ----

  function Parameter(t: TestDefinition, name: string, default: Scalar): Scalar {
    if name in t.parameters then t.parameters[name] else default
  }

  function IntParameter(t: TestDefinition, name: string, default: int): Result<int, Failure> {
    match Parameter(t, name, Int(default))
    case Int(i) => Ok(i)
    case _ => Err(Failed("ValueError", "parameter '" + name + "' must be an integer"))
  }

  function FloatParameter(t: TestDefinition, name: string, default: real): Result<real, Failure> {
    match Parameter(t, name, Float(default))
    case Int(i) => Ok(i as real)
    case Float(x) => Ok(x)
    case _ => Err(Failed("ValueError", "parameter '" + name + "' must be numeric"))
  }

  function StringParameter(t: TestDefinition, name: string): Result<Option<string>, Failure> {
    match Parameter(t, name, Null)
    case Null => Ok(None)
    case Text(s) => Ok(Some(s))
    case _ => Err(Failed("ValueError", "parameter '" + name + "' must be a string"))
  }

  function OptionalIntParameter(t: TestDefinition, name: string): Result<Option<int>, Failure> {
    match Parameter(t, name, Null)
    case Null => Ok(None)
    case Int(i) => Ok(Some(i))
    case _ => Err(Failed("ValueError", "parameter '" + name + "' must be an integer"))
  }

  /** The checksum an injected mismatch is compared with. */
  const ZEROS := "0000000000000000000000000000000000000000000000000000000000000000"

  /** The worker limit of a test: the detected one, lowered by the plan. */
  function WorkerLimit(t: TestDefinition, detected: nat): nat {
    if t.maxWorkers.Some? && 0 < t.maxWorkers.value < detected then t.maxWorkers.value else detected
  }

  predicate HashesIntegers(t: TestDefinition) {
    t.id in {"CPU-001", "CPU-003"}
  }

  function DefaultWorkers(t: TestDefinition, detected: nat): nat {
    if t.id == "CPU-001" then 1 else if WorkerLimit(t, detected) < 2 then WorkerLimit(t, detected) else 2
  }

  function ExpectedChecksum(t: TestDefinition): Result<Option<string>, Failure> {
    if t.inject then Ok(Some(ZEROS)) else StringParameter(t, "expected_checksum")
  }

  function IntegerRequest(t: TestDefinition, detected: nat): Result<Request, Failure> {
    var expected :- ExpectedChecksum(t);
    var workers :- IntParameter(t, "workers", DefaultWorkers(t, detected));
    var operations :- IntParameter(t, "workload_size", 256);
    var blockSize :- IntParameter(t, "block_size_bytes", 64 * 1024);
    Ok(IntegerHashing(workers, operations, blockSize, expected))
  }

  function StabilityRequest(t: TestDefinition): Result<Request, Failure> {
    var repetitions :- IntParameter(t, "repetitions", 5);
    var workers :- IntParameter(t, "workers", 1);
    var operations :- IntParameter(t, "workload_size", 64);
    var blockSize :- IntParameter(t, "block_size_bytes", 16 * 1024);
    Ok(StabilitySeries(repetitions, workers, operations, blockSize))
  }

  // ---- Cases ----

  function WorkloadCase(r: WorkloadResult): Case {
    Case(r.correct,
         map name | name in r.measurements :: MetricValue(r.measurements[name].value, r.measurements[name].unit, r.workload),
         Pass,
         if r.correct then None else Some("workload correctness verification failed"))
  }

  function CapabilityMetrics(capabilities: seq<Capability>): map<string, MetricValue> {
    if capabilities == [] then map[]
    else
      var last := capabilities[|capabilities| - 1];
      CapabilityMetrics(capabilities[..|capabilities| - 1])
        [last.metric + "_available" := MetricValue(Bool(last.available), None, last.source)]
  }

  function InventoryCase(snapshot: Snapshot): Case {
    Case(true,
         map["logical_cpu_count" := MetricValue(snapshot.logicalProcessors, Some("processors"), "inventory"),
             "physical_cpu_count" := MetricValue(snapshot.physicalProcessors, Some("processors"), "inventory"),
             "total_memory_bytes" := MetricValue(snapshot.memoryBytes, Some("bytes"), "inventory"),
             "storage_free_bytes" := MetricValue(snapshot.freeBytes, Some("bytes"), "inventory"),
             "architecture" := MetricValue(Text(snapshot.architecture), None, "inventory")],
         Pass, None)
  }

  function TelemetryCase(snapshot: Snapshot): Result<Case, Failure> {
    var measured := CapabilityMetrics(snapshot.capabilities);
    if "temperature_available" !in measured then Err(MissingKey("temperature_available"))
    else if measured["temperature_available"].value == Bool(true) then Ok(Case(true, measured, Pass, None))
    else Ok(Case(true, measured, Warn, Some("temperature telemetry is unavailable")))
  }

  predicate IsCpuFlag(name: string) {
    "cpu." <= name
  }

  function ConfigurationCase(snapshot: Snapshot): Case {
    var flags := snapshot.platform.capabilityFlags;
    if "native_cpuid_probe" !in flags || !flags["native_cpuid_probe"] then
      Case(true, map[], Skip, Some("native CPUID probe is unavailable; CPU feature requirements were not evaluated"))
    else
      Case(true,
           map name | name in flags && IsCpuFlag(name) :: MetricValue(Bool(flags[name]), None, "native_cpuid_probe"),
           Pass, None)
  }

  /** Booleans are compared with the threshold too, as one and zero. */
  predicate Exceeds(value: Scalar, threshold: real) {
    var number := EqualityValue(value);
    number.Some? && number.value > threshold
  }

  function StabilityCase(t: TestDefinition, r: WorkloadResult): Result<Case, Failure> {
    var c := WorkloadCase(r);
    if "robust_variability" !in c.measured then Err(MissingKey("robust_variability"))
    else
      var variability := c.measured["robust_variability"].value;
      var threshold :- FloatParameter(t, "warn_variability_percent", 50.0);
      if variability == Null then
        Ok(c.(hint := Warn, reason := Some("timing variability is unavailable because duration could not be measured")))
      else if Exceeds(variability, threshold) then
        Ok(c.(hint := Warn, reason := Some("timing variability exceeded the configured soft threshold")))
      else Ok(c)
  }

  /** The workload a test runs, with its parameters; `None` when it runs none. */
  function RequestOf(t: TestDefinition, detected: nat): Result<Option<Request>, Failure> {
    if HashesIntegers(t) then
      var request :- IntegerRequest(t, detected);
      Ok(Some(request))
    else if t.id == "CPU-002" then
      var iterations :- IntParameter(t, "iterations", 1_000_000);
      var tolerance :- FloatParameter(t, "tolerance", 0.000_000_000_001);
      Ok(Some(FloatingPointSum(iterations, tolerance)))
    else if t.id == "MEM-001" then
      var allocation :- OptionalIntParameter(t, "allocation_bytes");
      Ok(Some(MemoryPattern(allocation)))
    else if t.id == "STO-001" then
      var size :- IntParameter(t, "size_bytes", 64 * 1024 * 1024);
      var blockSize :- IntParameter(t, "block_size_bytes", 1024 * 1024);
      Ok(Some(StorageRoundTrip(size, blockSize)))
    else if t.id == "STB-001" then
      var request :- StabilityRequest(t);
      Ok(Some(request))
    else Ok(None)
  }

  /** A test that reads the inventory instead of running a workload. */
  function ReadingCase(id: TestId, snapshot: Snapshot): Result<Case, Failure> {
    if id == "INV-001" then Ok(InventoryCase(snapshot))
    else if id == "TEL-001" then TelemetryCase(snapshot)
    else if id == "CFG-001" then Ok(ConfigurationCase(snapshot))
    else if id == "REG-001" then Ok(Case(true, map[], Skip, Some("baseline comparison is not available until Milestone 8")))
    else Ok(Case(true, map[], Skip, Some("no workload implementation is registered for " + id)))
  }

  function ExecuteCase(t: TestDefinition, snapshot: Snapshot, detected: nat, run: Request -> Result<WorkloadResult, Failure>)
    : Result<Case, Failure>
  {
    var request :- RequestOf(t, detected);
    if request.None? then ReadingCase(t.id, snapshot)
    else
      var r :- run(request.value);
      if t.id == "STB-001" then StabilityCase(t, r) else Ok(WorkloadCase(r))
  }

  // ---- Requirements ----

  function Values(measured: map<string, MetricValue>): map<string, Scalar> {
    map name | name in measured :: measured[name].value
  }

  /** All requirements in order, or the first error. */
  function EvaluateAll(requirements: seq<Requirement>, metrics: map<string, Scalar>)
    : Result<seq<RequirementEvaluation>, EvaluationError>
  {
    if requirements == [] then Ok([])
    else
      var earlier :- EvaluateAll(requirements[..|requirements| - 1], metrics);
      var last :- EvaluateRequirement(requirements[|requirements| - 1], metrics);
      Ok(earlier + [last])
  }

  predicate AnyFailed(evaluations: seq<RequirementEvaluation>) {
    exists i :: 0 <= i < |evaluations| && !evaluations[i].passed
  }

  lemma {:induction false} EvaluateAllEach(requirements: seq<Requirement>, metrics: map<string, Scalar>)
    ensures EvaluateAll(requirements, metrics).Ok? <==>
            forall i :: 0 <= i < |requirements| ==> EvaluateRequirement(requirements[i], metrics).Ok?
    ensures EvaluateAll(requirements, metrics).Ok? ==>
              var evaluations := EvaluateAll(requirements, metrics).value;
              && |evaluations| == |requirements|
              && forall i :: 0 <= i < |requirements| ==> EvaluateRequirement(requirements[i], metrics) == Ok(evaluations[i])
  {
    if requirements != [] {
      var n := |requirements| - 1;
      EvaluateAllEach(requirements[..n], metrics);
      assert forall i :: 0 <= i < n ==> requirements[..n][i] == requirements[i];
    }
  }

  // ---- One test ----

  /** The class name of an evaluation error. */
  const EVALUATION_ERROR := "EvaluationError"

  function ErrorText(e: EvaluationError): string {
    match e
    case NotNumeric(operand) => operand + " must be numeric"
    case ExpectedMustBeScalar => "expected value must be scalar for this operator"
    case NeedsTwoBoundaries => "between requires two numeric boundaries"
    case BoundariesNotOrdered => "between boundaries must be ordered"
    case NeedsStrings => "contains requires string operands"
  }

  datatype Verdict = Verdict(
    status: Status,
    measured: map<string, MetricValue>,
    requirements: seq<RequirementEvaluation>,
    reason: Option<string>,
    exceptionSummary: Option<string>)

  function OrElse(reason: Option<string>, default: string): Option<string> {
    if reason.None? || reason.value == "" then Some(default) else reason
  }

  /** How a case that ran is judged. */
  function Judge(requirements: seq<Requirement>, c: Case): Verdict {
    if c.hint in {Skip, Error} then Verdict(c.hint, c.measured, [], c.reason, None)
    else
      match EvaluateAll(requirements, Values(c.measured))
      case Err(e) =>
        Verdict(Error, c.measured, [], Some("requirement evaluation configuration is invalid"),
                Some(EVALUATION_ERROR + ": " + ErrorText(e)))
      case Ok(evaluations) =>
        if !c.correct || AnyFailed(evaluations) then
          Verdict(Fail, c.measured, evaluations, OrElse(c.reason, "one or more explicit requirements were not met"), None)
        else
          Verdict(c.hint, c.measured, evaluations, c.reason, None)
  }

  function VerdictOn(t: TestDefinition, ran: Result<Case, Failure>): Result<Verdict, Failure> {
    match ran
    case Ok(c) =>
      var reason := if t.inject && !c.correct then Some("opt-in injected checksum mismatch produced the expected failure")
                    else c.reason;
      Ok(Judge(t.requirements, c.(reason := reason)))
    case Err(TimedOut(message)) => Ok(Verdict(Error, map[], [], Some(message), Some("WorkloadTimeout")))
    case Err(Failed(kind, message)) =>
      Ok(Verdict(Error, map[], [], Some("test execution failed before producing valid measurements"), Some(kind + ": " + message)))
    case Err(escaping) => Err(escaping)
  }

  function Errors(samples: seq<TelemetrySample>): nat {
    if samples == [] then 0 else Errors(samples[..|samples| - 1]) + samples[|samples| - 1].errorCount
  }

  function Summarise(samples: seq<TelemetrySample>): TelemetrySummary {
    TelemetrySummary(|samples|, set i, name | 0 <= i < |samples| && name in samples[i].readings :: name, Errors(samples))
  }

  function ResultOf(t: TestDefinition, v: Verdict, samples: seq<TelemetrySample>, startedAt: int, endedAt: int): TestResult {
    TestResult(t.id, startedAt, endedAt, v.status, v.measured, v.requirements, v.reason, v.exceptionSummary,
               Summarise(samples), t.inject)
  }

  const DISABLED := Verdict(Skip, map[], [], Some("test is disabled in the plan"), None)

  /** What one test yields: a result and its samples, or an exception that leaves the run. */
  function TestOutcome(t: TestDefinition, snapshot: Snapshot, detected: nat, around: Surroundings)
    : Result<(TestResult, seq<TelemetrySample>), Failure>
  {
    if !t.enabled then
      Ok((ResultOf(t, DISABLED, [], around.startedAt, around.endedAt).(injected := false), []))
    else
      match VerdictOn(t, ExecuteCase(t, snapshot, detected, around.run))
      case Err(e) => Err(e)
      case Ok(v) => Ok((ResultOf(t, v, around.samples, around.startedAt, around.endedAt), around.samples))
  }

  method RunTest(t: TestDefinition, snapshot: Snapshot, detected: nat, around: Surroundings)
    returns (r: Result<(TestResult, seq<TelemetrySample>), Failure>)
    ensures r == TestOutcome(t, snapshot, detected, around)
  {
    if !t.enabled {
      return Ok((TestResult(t.id, around.startedAt, around.endedAt, Skip, map[], [], Some("test is disabled in the plan"),
                            None, Summarise([]), false), []));
    }
    var c := Case(true, map[], Pass, None);
    var exceptionSummary: Option<string> := None;
    match ExecuteCase(t, snapshot, detected, around.run) {
      case Ok(executed) =>
        c := executed;
        if t.inject && !c.correct {
          c := c.(reason := Some("opt-in injected checksum mismatch produced the expected failure"));
        }
      case Err(Cancelled) => return Err(Cancelled);
      case Err(MissingKey(key)) => return Err(MissingKey(key));
      case Err(TimedOut(message)) =>
        c := Case(false, map[], Error, Some(message));
        exceptionSummary := Some("WorkloadTimeout");
      case Err(Failed(kind, message)) =>
        c := Case(false, map[], Error, Some("test execution failed before producing valid measurements"));
        exceptionSummary := Some(kind + ": " + message);
    }
    var evaluations: seq<RequirementEvaluation> := [];
    var status := c.hint;
    if status !in {Skip, Error} {
      var evaluated := EvaluateAll(t.requirements, Values(c.measured));
      if evaluated.Err? {
        status := Error;
        c := c.(reason := Some("requirement evaluation configuration is invalid"));
        exceptionSummary := Some(EVALUATION_ERROR + ": " + ErrorText(evaluated.error));
      } else {
        evaluations := evaluated.value;
        if !c.correct || AnyFailed(evaluations) {
          status := Fail;
          c := c.(reason := OrElse(c.reason, "one or more explicit requirements were not met"));
        }
      }
    }
    r := Ok((TestResult(t.id, around.startedAt, around.endedAt, status, c.measured, evaluations, c.reason, exceptionSummary,
                        Summarise(around.samples), t.inject), around.samples));
  }

  // ---- A whole plan ----

  /** The parts of an execution that come from outside the loop. */
  datatype RunFacts =
    RunFacts(runId: RunId, planHash: string, toolVersion: string, startedAt: int, endedAt: int, snapshot: Snapshot, detected: nat)

  const INJECTED_WARNING := "Synthetic fault injection was enabled; injected results are not hardware evidence."

  function OutcomeAt(plan: TestPlan, facts: RunFacts, around: nat -> Surroundings, k: nat)
    : Result<(TestResult, seq<TelemetrySample>), Failure>
    requires k < |plan.tests|
  {
    TestOutcome(plan.tests[k], facts.snapshot, facts.detected, around(k))
  }

  /** The first `n` tests each got their turn and produced a result. */
  predicate Reaches(plan: TestPlan, facts: RunFacts, around: nat -> Surroundings, n: nat)
    requires n <= |plan.tests|
  {
    forall k: nat :: k < n ==> !around(k).cancelled && OutcomeAt(plan, facts, around, k).Ok?
  }

  function ResultsOf(plan: TestPlan, facts: RunFacts, around: nat -> Surroundings, n: nat): (results: seq<TestResult>)
    requires n <= |plan.tests| && Reaches(plan, facts, around, n)
    ensures |results| == n
  {
    seq(n, k requires 0 <= k < n => OutcomeAt(plan, facts, around, k).value.0)
  }

  function TelemetryOf(plan: TestPlan, facts: RunFacts, around: nat -> Surroundings, n: nat): map<TestId, seq<TelemetrySample>>
    requires n <= |plan.tests| && Reaches(plan, facts, around, n)
  {
    if n == 0 then map[]
    else TelemetryOf(plan, facts, around, n - 1)[plan.tests[n - 1].id := OutcomeAt(plan, facts, around, n - 1).value.1]
  }

  predicate AnyInjected(results: seq<TestResult>) {
    exists i :: 0 <= i < |results| && results[i].injected
  }

  /** The execution of a plan whose tests all produced a result. */
  function Executed(plan: TestPlan, facts: RunFacts, around: nat -> Surroundings): RunExecution
    requires Reaches(plan, facts, around, |plan.tests|)
  {
    var results := ResultsOf(plan, facts, around, |plan.tests|);
    var snapshot := facts.snapshot;
    RunExecution(
      RunResult(facts.runId, plan.name, facts.planHash, facts.toolVersion, snapshot.platform.fingerprint,
                facts.startedAt, facts.endedAt,
                AggregateStatus(Statuses(results)), Counts(Statuses(results)), results,
                snapshot.limitations + (if AnyInjected(results) then [INJECTED_WARNING] else []),
                snapshot.limitations),
      snapshot.platform,
      TelemetryOf(plan, facts, around, |plan.tests|))
  }

  /** An execution when the directories and the inventory are ready and every test gets its turn and
      yields a result. Otherwise the exception of the preparation (`unready`), or else that of the
      first test that yields none, with every earlier result dropped. */
  method RunValidationPlan(plan: TestPlan, facts: RunFacts, around: nat -> Surroundings, unready: Option<Failure>)
    returns (r: Result<RunExecution, Failure>)
    ensures r.Ok? <==> unready.None? && Reaches(plan, facts, around, |plan.tests|)
    ensures r.Ok? ==> r.value == Executed(plan, facts, around)
    ensures unready.Some? ==> r == Err(unready.value)
    ensures unready.None? && r.Err? ==> exists k: nat ::
              && k < |plan.tests| && Reaches(plan, facts, around, k)
              && if around(k).cancelled then r.error == Cancelled else OutcomeAt(plan, facts, around, k) == Err(r.error)
  {
    hide TestOutcome;
    if unready.Some? {
      return Err(unready.value);
    }
    var results: seq<TestResult> := [];
    var telemetry: map<TestId, seq<TelemetrySample>> := map[];
    for k: nat := 0 to |plan.tests|
      invariant Reaches(plan, facts, around, k)
      invariant results == ResultsOf(plan, facts, around, k)
      invariant telemetry == TelemetryOf(plan, facts, around, k)
    {
      if around(k).cancelled {
        return Err(Cancelled);
      }
      var outcome := RunTest(plan.tests[k], facts.snapshot, facts.detected, around(k));
      if outcome.Err? {
        return Err(outcome.error);
      }
      results := results + [outcome.value.0];
      telemetry := telemetry[plan.tests[k].id := outcome.value.1];
    }
    var injectedWarning := if AnyInjected(results) then [INJECTED_WARNING] else [];
    r := Ok(RunExecution(
      RunResult(facts.runId, plan.name, facts.planHash, facts.toolVersion, facts.snapshot.platform.fingerprint,
                facts.startedAt, facts.endedAt, AggregateStatus(Statuses(results)), Counts(Statuses(results)), results,
                facts.snapshot.limitations + injectedWarning, facts.snapshot.limitations),
      facts.snapshot.platform, telemetry));
  }
}
