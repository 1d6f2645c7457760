/** Domain records shared by the runner, the repository and the baseline service.
    Timestamps are integers, finite floats are reals, and a column of JSON text holds the
    value itself. */
module Models {

  datatype Option<+T> = None | Some(value: T)

  datatype Result<+T, +E> = Ok(value: T) | Err(error: E) {
    predicate IsFailure() {
      Err?
    }

    function PropagateFailure<U>(): Result<U, E>
      requires Err?
    {
      Err(error)
    }

    function Extract(): T
      requires Ok?
    {
      value
    }
  }

  type Byte = x: int | 0 <= x < 256
  type Bytes = seq<Byte>

  type RunId = string
  type TestId = string

  datatype Status = Pass | Fail | Warn | Skip | Error

  /** A metric value; `Null` is an unavailable reading, never zero. */
  datatype Scalar = Null | Bool(b: bool) | Int(i: int) | Float(x: real) | Text(s: string)

  datatype Expected = Single(scalar: Scalar) | Many(items: seq<Scalar>)

  datatype Operator =
    | Equals | NotEquals
    | GreaterThan | GreaterThanOrEqual | LessThan | LessThanOrEqual
    | Between | Present | Contains

  datatype Requirement = Requirement(metric: string, op: Operator, expected: Expected, unit: Option<string>)

  datatype RequirementEvaluation =
    RequirementEvaluation(requirement: Requirement, actual: Scalar, passed: bool)

  datatype MetricValue = MetricValue(value: Scalar, unit: Option<string>, source: string)

  /** `readings` holds exactly the sensors that produced a value in this sample. */
  datatype TelemetrySample =
    TelemetrySample(elapsedSeconds: real, timestamp: int, readings: map<string, real>, errorCount: nat)

  datatype TelemetrySummary = TelemetrySummary(sampleCount: nat, available: set<string>, errorCount: nat)

  datatype TestResult = TestResult(
    testId: TestId,
    startedAt: int,
    endedAt: int,
    status: Status,
    measured: map<string, MetricValue>,
    requirements: seq<RequirementEvaluation>,
    failureReason: Option<string>,
    exceptionSummary: Option<string>,
    telemetrySummary: TelemetrySummary,
    injected: bool)

  datatype RunResult = RunResult(
    runId: RunId,
    planName: string,
    planHash: string,
    toolVersion: string,
    platformFingerprint: string,
    startedAt: int,
    endedAt: int,
    overallStatus: Status,
    resultCounts: map<Status, nat>,
    testResults: seq<TestResult>,
    warnings: seq<string>,
    limitations: seq<string>)

  datatype PlatformIdentity =
    PlatformIdentity(fingerprint: string, powerPlanName: Option<string>, capabilityFlags: map<string, bool>)

  datatype RunExecution =
    RunExecution(run: RunResult, platform: PlatformIdentity, telemetry: map<TestId, seq<TelemetrySample>>)

  predicate UniqueIds(results: seq<TestResult>) {
    forall i, j :: 0 <= i < j < |results| ==> results[i].testId != results[j].testId
  }

  function TestIds(results: seq<TestResult>): set<TestId> {
    set i | 0 <= i < |results| :: results[i].testId
  }

  /** Telemetry is keyed by exactly the tests that have a result. */
  predicate TelemetryMatchesResults(e: RunExecution) {
    e.telemetry.Keys == TestIds(e.run.testResults)
  }
}
