/** What the runner's cases, requests and records hold, told field by field. */
module Records {
  import opened Models
  import opened Results
  import opened Engine
  import Evaluator

  // ---- Requests ----

  /** The requests of a plan without parameters. */
  lemma DefaultRequests(t: TestDefinition, detected: nat)
    requires t.parameters == map[] && !t.inject && t.maxWorkers.None?
    ensures var request := RequestOf(t, detected);
            && (t.id == "CPU-001" ==> request == Ok(Some(IntegerHashing(1, 256, 65536, None))))
            && (t.id == "CPU-003" ==> request == Ok(Some(IntegerHashing(if detected < 2 then detected else 2, 256, 65536, None))))
            && (t.id == "CPU-002" ==> request == Ok(Some(FloatingPointSum(1_000_000, 1.0 / 1_000_000_000_000.0))))
            && (t.id == "MEM-001" ==> request == Ok(Some(MemoryPattern(None))))
            && (t.id == "STO-001" ==> request == Ok(Some(StorageRoundTrip(67_108_864, 1_048_576))))
            && (t.id == "STB-001" ==> request == Ok(Some(StabilitySeries(5, 1, 64, 16384))))
            && (t.id in {"INV-001", "TEL-001", "CFG-001", "REG-001"} ==> request == Ok(None))
  {
  }

  predicate Gives(t: TestDefinition, name: string, value: Scalar) {
    name in t.parameters && t.parameters[name] == value
  }

  /** An integer test hashes what its parameters say; the injected fault overrides the expected checksum
      with 64 zeros. */
  lemma HashingRequest(t: TestDefinition, detected: nat, workers: int, operations: int, blockSize: int, expected: string)
    requires t.id in {"CPU-001", "CPU-003"}
    requires Gives(t, "workers", Int(workers)) && Gives(t, "workload_size", Int(operations)) && Gives(t, "block_size_bytes", Int(blockSize))
    requires Gives(t, "expected_checksum", Text(expected))
    ensures RequestOf(t, detected) ==
            Ok(Some(IntegerHashing(workers, operations, blockSize,
                                   Some(if t.inject then "0000000000000000000000000000000000000000000000000000000000000000" else expected))))
  {
    hide DefaultWorkers;
  }

  lemma SeriesRequest(t: TestDefinition, detected: nat, repetitions: int, workers: int, operations: int, blockSize: int)
    requires t.id == "STB-001"
    requires Gives(t, "repetitions", Int(repetitions)) && Gives(t, "workers", Int(workers))
    requires Gives(t, "workload_size", Int(operations)) && Gives(t, "block_size_bytes", Int(blockSize))
    ensures RequestOf(t, detected) == Ok(Some(StabilitySeries(repetitions, workers, operations, blockSize)))
  {
  }

  lemma OtherRequests(t: TestDefinition, detected: nat, n: int, x: real, size: int)
    ensures t.id == "CPU-002" && Gives(t, "iterations", Int(n)) && Gives(t, "tolerance", Float(x)) ==>
              RequestOf(t, detected) == Ok(Some(FloatingPointSum(n, x)))
    ensures t.id == "MEM-001" && Gives(t, "allocation_bytes", Int(n)) ==>
              RequestOf(t, detected) == Ok(Some(MemoryPattern(Some(n))))
    ensures t.id == "STO-001" && Gives(t, "size_bytes", Int(n)) && Gives(t, "block_size_bytes", Int(size)) ==>
              RequestOf(t, detected) == Ok(Some(StorageRoundTrip(n, size)))
  {
  }

  /** A parameter of the wrong type is a ValueError that names it; a boolean is no number. */
  lemma WrongTypesRaise(t: TestDefinition, name: string, default: int, real_default: real, value: Scalar)
    requires Gives(t, name, value)
    ensures !value.Int? ==>
              IntParameter(t, name, default) == Err(Failed("ValueError", "parameter '" + name + "' must be an integer"))
    ensures !value.Int? && value != Null ==>
              OptionalIntParameter(t, name) == Err(Failed("ValueError", "parameter '" + name + "' must be an integer"))
    ensures !value.Int? && !value.Float? ==>
              FloatParameter(t, name, real_default) == Err(Failed("ValueError", "parameter '" + name + "' must be numeric"))
    ensures !value.Text? && value != Null ==>
              StringParameter(t, name) == Err(Failed("ValueError", "parameter '" + name + "' must be a string"))
  {
  }

  /** The plan can lower the number of workers, never raise it. */
  lemma WorkersAreLimited(t: TestDefinition, detected: nat)
    ensures var limit := WorkerLimit(t, detected);
            && limit <= detected
            && (t.maxWorkers.Some? && t.maxWorkers.value > 0 ==> limit <= t.maxWorkers.value)
            && (limit == detected || t.maxWorkers == Some(limit))
  {
  }

  // ---- Cases ----

  /** The threshold of the stability test: the parameter, or 50 percent. */
  ghost predicate IsThreshold(t: TestDefinition, threshold: real) {
    if "warn_variability_percent" in t.parameters then Evaluator.IsNumber(t.parameters["warn_variability_percent"], threshold)
    else threshold == 50.0
  }

  /** The stability test warns exactly when its variability is unavailable or exceeds the threshold. */
  lemma StabilityWarns(t: TestDefinition, snapshot: Snapshot, detected: nat, run: Request -> Result<WorkloadResult, Failure>,
                       request: Request, r: WorkloadResult, threshold: real)
    requires t.id == "STB-001" && RequestOf(t, detected) == Ok(Some(request)) && run(request) == Ok(r)
    requires "robust_variability" in r.measurements && IsThreshold(t, threshold)
    ensures var ran := ExecuteCase(t, snapshot, detected, run);
            var v := r.measurements["robust_variability"].value;
            && ran.Ok? && ran.value.correct == r.correct && ran.value.measured == WorkloadCase(r).measured
            && ran.value.hint in {Pass, Warn}
            && (ran.value.hint == Warn <==> v == Null || exists x :: Evaluator.CountsAs(v, x) && x > threshold)
  {
    hide RequestOf, ReadingCase, IsThreshold, StabilityCase, Evaluator.CountsAs, WorkloadCase;
    SeriesCaseWarns(t, r, threshold);
  }

  lemma SeriesCaseWarns(t: TestDefinition, r: WorkloadResult, threshold: real)
    requires "robust_variability" in r.measurements && IsThreshold(t, threshold)
    ensures var ran := StabilityCase(t, r);
            var v := r.measurements["robust_variability"].value;
            && ran.Ok? && ran.value.correct == r.correct && ran.value.measured == WorkloadCase(r).measured
            && ran.value.hint in {Pass, Warn}
            && (ran.value.hint == Warn <==> v == Null || exists x :: Evaluator.CountsAs(v, x) && x > threshold)
  {
    hide FloatParameter, Evaluator.EqualityValue, Evaluator.CountsAs, IsThreshold;
    ThresholdRead(t, threshold);
    var v := r.measurements["robust_variability"].value;
    ValueCounts(v);
    assert WorkloadCase(r).measured["robust_variability"].value == v;
  }

  lemma ThresholdRead(t: TestDefinition, threshold: real)
    requires IsThreshold(t, threshold)
    ensures FloatParameter(t, "warn_variability_percent", 50.0) == Ok(threshold)
  {
  }

  lemma ValueCounts(v: Scalar)
    ensures forall x :: Evaluator.CountsAs(v, x) <==> Evaluator.EqualityValue(v) == Some(x)
  {
  }

  /** Every measurement of a workload becomes a metric of the same name, value and unit, with the
      workload as its source. */
  lemma WorkloadMetrics(r: WorkloadResult)
    ensures var c := WorkloadCase(r);
            && c.correct == r.correct && c.hint == Pass
            && c.reason == (if r.correct then None else Some("workload correctness verification failed"))
            && c.measured.Keys == r.measurements.Keys
            && forall name :: name in r.measurements ==>
                 c.measured[name] == MetricValue(r.measurements[name].value, r.measurements[name].unit, r.workload)
  {
  }

  /** The inventory test measures five things; the regression test, and any test nobody implements, is
      skipped. */
  lemma OtherTestsRead(t: TestDefinition, snapshot: Snapshot, detected: nat, run: Request -> Result<WorkloadResult, Failure>)
    requires t.id !in {"CPU-001", "CPU-002", "CPU-003", "MEM-001", "STO-001", "STB-001", "TEL-001", "CFG-001"}
    ensures var ran := ExecuteCase(t, snapshot, detected, run);
            && ran.Ok? && ran.value.correct
            && (t.id == "INV-001" ==>
                  && ran.value.hint == Pass
                  && ran.value.measured.Keys ==
                     {"logical_cpu_count", "physical_cpu_count", "total_memory_bytes", "storage_free_bytes", "architecture"}
                  && ran.value.measured["logical_cpu_count"] == MetricValue(snapshot.logicalProcessors, Some("processors"), "inventory")
                  && ran.value.measured["physical_cpu_count"] == MetricValue(snapshot.physicalProcessors, Some("processors"), "inventory")
                  && ran.value.measured["total_memory_bytes"] == MetricValue(snapshot.memoryBytes, Some("bytes"), "inventory")
                  && ran.value.measured["storage_free_bytes"] == MetricValue(snapshot.freeBytes, Some("bytes"), "inventory")
                  && ran.value.measured["architecture"] == MetricValue(Text(snapshot.architecture), None, "inventory"))
            && (t.id != "INV-001" ==> ran.value.hint == Skip && ran.value.measured == map[])
            && (t.id !in {"INV-001", "REG-001"} ==>
                  ran.value.reason == Some("no workload implementation is registered for " + t.id))
  {
  }

  /** ... and the telemetry and configuration tests read what they are named after. */
  lemma ReadingTests(t: TestDefinition, snapshot: Snapshot, detected: nat, run: Request -> Result<WorkloadResult, Failure>)
    requires t.id in {"TEL-001", "CFG-001"}
    ensures t.id == "TEL-001" ==> ExecuteCase(t, snapshot, detected, run) == TelemetryCase(snapshot)
    ensures t.id == "CFG-001" ==> ExecuteCase(t, snapshot, detected, run) == Ok(ConfigurationCase(snapshot))
  {
    NoRequest(t, detected);
    hide RequestOf, TelemetryCase, ConfigurationCase, InventoryCase;
  }

  lemma NoRequest(t: TestDefinition, detected: nat)
    requires t.id in {"TEL-001", "CFG-001"}
    ensures RequestOf(t, detected) == Ok(None)
  {
    hide IntegerRequest, StabilityRequest, IntParameter, FloatParameter, OptionalIntParameter;
  }

  /** A hashing, floating-point, memory or storage test is what its workload reported, or what it raised. */
  lemma WorkloadTests(t: TestDefinition, snapshot: Snapshot, detected: nat, run: Request -> Result<WorkloadResult, Failure>, request: Request)
    requires RequestOf(t, detected) == Ok(Some(request)) && t.id != "STB-001"
    ensures ExecuteCase(t, snapshot, detected, run) ==
            match run(request)
            case Ok(r) => Ok(WorkloadCase(r))
            case Err(e) => Err(e)
  {
    hide RequestOf, ReadingCase;
  }

  /** The last capability of a metric decides. */
  lemma {:induction false} CapabilityRead(capabilities: seq<Capability>, k: nat)
    requires k < |capabilities|
    requires forall j :: k < j < |capabilities| ==> capabilities[j].metric != capabilities[k].metric
    ensures var key := capabilities[k].metric + "_available";
            && key in CapabilityMetrics(capabilities)
            && CapabilityMetrics(capabilities)[key] == MetricValue(Bool(capabilities[k].available), None, capabilities[k].source)
  {
    var n := |capabilities| - 1;
    if k < n {
      CapabilityRead(capabilities[..n], k);
      SuffixCancels(capabilities[k].metric, capabilities[n].metric, "_available");
    }
  }

  lemma SuffixCancels(a: string, b: string, suffix: string)
    ensures a + suffix == b + suffix ==> a == b
  {
    var x, y := a + suffix, b + suffix;
    assert x[..|x| - |suffix|] == a && y[..|y| - |suffix|] == b;
  }

  /** The telemetry test warns exactly when the last word on temperature is that it is unavailable. */
  lemma TelemetryWarns(snapshot: Snapshot, k: nat)
    requires k < |snapshot.capabilities| && snapshot.capabilities[k].metric == "temperature"
    requires forall j :: k < j < |snapshot.capabilities| ==> snapshot.capabilities[j].metric != "temperature"
    ensures var ran := TelemetryCase(snapshot);
            && ran.Ok? && ran.value.correct
            && ran.value.hint == if snapshot.capabilities[k].available then Pass else Warn
  {
    CapabilityRead(snapshot.capabilities, k);
    assert "temperature" + "_available" == "temperature_available";
    hide CapabilityMetrics;
  }

  /** The configuration test is skipped exactly without the probe; with it, it measures the CPU flags. */
  lemma ConfigurationReads(snapshot: Snapshot)
    ensures var flags, c := snapshot.platform.capabilityFlags, ConfigurationCase(snapshot);
            var probed := "native_cpuid_probe" in flags && flags["native_cpuid_probe"];
            && c.correct && c.hint == (if probed then Pass else Skip)
            && (forall name :: name in c.measured <==> probed && name in flags && |name| >= 4 && name[..4] == "cpu.")
            && (forall name :: name in c.measured ==> c.measured[name].value == Bool(flags[name]))
  {
    forall name: string
      ensures "cpu." <= name <==> |name| >= 4 && name[..4] == "cpu."
    {
    }
  }

  // ---- Results ----

  /** The fields of a result that its status does not decide. */
  lemma ResultSays(t: TestDefinition, snapshot: Snapshot, detected: nat, around: Surroundings)
    requires TestOutcome(t, snapshot, detected, around).Ok?
    ensures var (result, samples) := TestOutcome(t, snapshot, detected, around).value;
            && result.testId == t.id
            && result.startedAt == around.startedAt && result.endedAt == around.endedAt
            && (result.injected <==> t.enabled && t.inject)
            && samples == (if t.enabled then around.samples else [])
            && result.telemetrySummary == Summarise(samples)
  {
    hide ExecuteCase, VerdictOn, Summarise;
  }

  /** What is recorded when a workload raised, and the metrics of one that did not. */
  lemma FailureSays(t: TestDefinition, snapshot: Snapshot, detected: nat, around: Surroundings)
    requires t.enabled && TestOutcome(t, snapshot, detected, around).Ok?
    ensures var ran := ExecuteCase(t, snapshot, detected, around.run);
            var result := TestOutcome(t, snapshot, detected, around).value.0;
            match ran
            case Ok(c) => result.measured == c.measured
            case Err(TimedOut(message)) =>
              result.measured == map[] && result.requirements == []
              && result.failureReason == Some(message) && result.exceptionSummary == Some("WorkloadTimeout")
            case Err(Failed(kind, message)) =>
              result.measured == map[] && result.requirements == []
              && result.failureReason == Some("test execution failed before producing valid measurements")
              && result.exceptionSummary == Some(kind + ": " + message)
            case _ => false
  {
    hide ExecuteCase, Summarise, EvaluateAll;
  }

  /** What is recorded when requirements are not met, or cannot be evaluated. */
  lemma JudgementSays(requirements: seq<Requirement>, c: Case)
    requires c.hint in {Pass, Warn}
    ensures var v := Judge(requirements, c);
            && (v.status == Fail ==>
                  v.exceptionSummary == None
                  && v.reason == if c.reason.Some? && c.reason.value != "" then c.reason
                                          else Some("one or more explicit requirements were not met"))
            && (v.status == Error ==>
                  v.requirements == [] && v.reason == Some("requirement evaluation configuration is invalid")
                  && v.exceptionSummary.Some? && "EvaluationError: " <= v.exceptionSummary.value)
            && (v.status in {Pass, Warn} ==> v.exceptionSummary == None && v.reason == c.reason)
  {
    hide EvaluateAll, ErrorText;
  }

  /** The error of each operand check, on operands that raise it; the actual value is checked first. */
  lemma EvaluationErrorsRead(x: string, y: string)
    ensures Evaluator.Passed(GreaterThan, Text(x), Single(Int(1))) == Err(Evaluator.NotNumeric("actual"))
    ensures Evaluator.Passed(LessThan, Int(1), Single(Text(y))) == Err(Evaluator.NotNumeric("expected"))
    ensures Evaluator.Passed(GreaterThan, Int(1), Many([])) == Err(Evaluator.ExpectedMustBeScalar)
    ensures Evaluator.Passed(Contains, Int(1), Single(Text(y))) == Err(Evaluator.NeedsStrings)
  {
    hide Evaluator.PassedBetween, Evaluator.OccursIn;
  }

  lemma ErrorTextsRead(operand: string)
    ensures ErrorText(Evaluator.NotNumeric(operand)) == operand + " must be numeric"
    ensures ErrorText(Evaluator.ExpectedMustBeScalar) == "expected value must be scalar for this operator"
    ensures ErrorText(Evaluator.NeedsTwoBoundaries) == "between requires two numeric boundaries"
    ensures ErrorText(Evaluator.BoundariesNotOrdered) == "between boundaries must be ordered"
    ensures ErrorText(Evaluator.NeedsStrings) == "contains requires string operands"
  {
  }

  lemma BetweenErrorsRead(x: string, y: string, lo: real, hi: real)
    requires lo > hi
    ensures Evaluator.Passed(Between, Int(1), Many([Text(x), Int(2)])) == Err(Evaluator.NotNumeric("lower boundary"))
    ensures Evaluator.Passed(Between, Int(1), Many([Int(0), Text(y)])) == Err(Evaluator.NotNumeric("upper boundary"))
    ensures Evaluator.Passed(Between, Text(x), Many([Int(0), Int(2)])) == Err(Evaluator.NotNumeric("actual"))
    ensures Evaluator.Passed(Between, Int(1), Single(Int(1))) == Err(Evaluator.NeedsTwoBoundaries)
    ensures Evaluator.Passed(Between, Text(x), Many([Float(lo), Float(hi)])) == Err(Evaluator.BoundariesNotOrdered)
  {
    hide Evaluator.OccursIn, Evaluator.Operands;
  }

  /** The summary counts the samples, names the sensors that gave a reading, and adds up the errors. */
  lemma SummarySays(samples: seq<TelemetrySample>, name: string)
    ensures var s := Summarise(samples);
            && s.sampleCount == |samples|
            && (name in s.available <==> exists i :: 0 <= i < |samples| && name in samples[i].readings)
            && s.errorCount == Errors(samples)
  {
  }

  lemma {:induction false} ErrorsAddUp(a: seq<TelemetrySample>, b: seq<TelemetrySample>)
    ensures Errors(a + b) == Errors(a) + Errors(b)
    ensures |a| == 1 ==> Errors(a) == a[0].errorCount
    decreases |b|
  {
    if b == [] {
      assert a + b == a;
    } else {
      var n := |b| - 1;
      assert (a + b)[..|a + b| - 1] == a + b[..n];
      ErrorsAddUp(a, b[..n]);
    }
  }

  // ---- The run ----

  /** The parts of an execution that come from the plan, the platform and the clock. */
  lemma ExecutedSays(plan: TestPlan, facts: RunFacts, around: nat -> Surroundings)
    requires Reaches(plan, facts, around, |plan.tests|)
    ensures var e := Executed(plan, facts, around);
            && e.run.runId == facts.runId
            && e.run.planName == plan.name && e.run.planHash == facts.planHash
            && e.run.toolVersion == facts.toolVersion
            && e.run.platformFingerprint == e.platform.fingerprint && e.platform == facts.snapshot.platform
            && e.run.startedAt == facts.startedAt && e.run.endedAt == facts.endedAt
            && e.run.limitations == facts.snapshot.limitations
            && facts.snapshot.limitations <= e.run.warnings
            && |e.run.warnings| <= |facts.snapshot.limitations| + 1
            && (|e.run.warnings| > |facts.snapshot.limitations| <==>
                  exists i :: 0 <= i < |e.run.testResults| && e.run.testResults[i].injected)
  {
    hide TestOutcome, Reaches;
  }
}
