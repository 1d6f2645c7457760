/** What a verdict is worth: a passed run from the status of the run down to each requirement of
    each test, and from the runner into the store and back. */
module Soundness {
  import opened Models
  import opened Evaluator
  import opened Results
  import opened Engine
  import opened Catalogues
  import opened EvidenceStore

  // ---- One test ----

  /** The metric was measured, and its value stands in the relation the plan asks for. */
  ghost predicate Met(r: Requirement, c: Case) {
    r.metric in c.measured && Holds(r.op, c.measured[r.metric].value, r.expected)
  }

  /** The test ran, its workload was right, it had nothing to warn about, and it met every
      requirement of the plan. */
  ghost predicate FullyPassed(t: TestDefinition, ran: Result<Case, Failure>) {
    && t.enabled
    && ran.Ok? && ran.value.correct && ran.value.hint == Pass
    && forall i :: 0 <= i < |t.requirements| ==> Met(t.requirements[i], ran.value)
  }

  /** The test was switched off, or had nothing to run. */
  ghost predicate Skipped(t: TestDefinition, ran: Result<Case, Failure>) {
    !t.enabled || (ran.Ok? && ran.value.hint == Skip)
  }

  /** A measured metric met operands its operator cannot compare. */
  ghost predicate Unevaluable(r: Requirement, c: Case) {
    r.metric in c.measured && c.measured[r.metric].value != Null &&
    !Comparable(r.op, c.measured[r.metric].value, r.expected)
  }

  /** The workload raised, or some requirement could not be evaluated. */
  ghost predicate Errored(t: TestDefinition, ran: Result<Case, Failure>) {
    && t.enabled
    && (ran.Err?
        || (ran.value.hint != Skip && exists i :: 0 <= i < |t.requirements| && Unevaluable(t.requirements[i], ran.value)))
  }

  /** As `FullyPassed`, except that the case itself asked for a warning. */
  ghost predicate Warned(t: TestDefinition, ran: Result<Case, Failure>) {
    && t.enabled
    && ran.Ok? && ran.value.correct && ran.value.hint == Warn
    && forall i :: 0 <= i < |t.requirements| ==> Met(t.requirements[i], ran.value)
  }

  lemma EvaluatedIsMet(r: Requirement, c: Case)
    ensures var e := EvaluateRequirement(r, Values(c.measured));
            && (e.Ok? && e.value.passed <==> Met(r, c))
            && (e.Err? <==> Unevaluable(r, c))
            && (e.Ok? ==> e.value.requirement == r && e.value.actual == Reading(Values(c.measured), r.metric))
  {
    var actual := Reading(Values(c.measured), r.metric);
    OperatorsMean(r.op, actual, r.expected);
    hide Passed, Comparable;
    if r.metric !in c.measured {
      assert actual == Null;
    }
  }

  lemma JudgedPass(requirements: seq<Requirement>, c: Case)
    requires c.hint !in {Skip, Error}
    ensures var v := Judge(requirements, c);
            && (v.status == Error <==> exists i :: 0 <= i < |requirements| && Unevaluable(requirements[i], c))
            && (v.status == c.hint != Fail <==>
                  c.hint != Fail && c.correct && forall i :: 0 <= i < |requirements| ==> Met(requirements[i], c))
            && (v.status in {Error, Fail, c.hint})
  {
    var metrics := Values(c.measured);
    EvaluateAllEach(requirements, metrics);
    forall i | 0 <= i < |requirements|
      ensures var e := EvaluateRequirement(requirements[i], metrics);
              && (e.Ok? && e.value.passed <==> Met(requirements[i], c))
              && (e.Err? <==> Unevaluable(requirements[i], c))
    {
      EvaluatedIsMet(requirements[i], c);
    }
    hide EvaluateRequirement, EvaluateAll, Met, Unevaluable;
  }

  /** The same for a case that ran and was judged. */
  lemma VerdictIsExact(t: TestDefinition, ran: Result<Case, Failure>)
    requires t.enabled && ran.Ok? && ran.value.hint in {Pass, Warn, Skip}
    ensures VerdictOn(t, ran).Ok?
    ensures var status := VerdictOn(t, ran).value.status;
            && (status == Pass <==> FullyPassed(t, ran))
            && (status == Skip <==> Skipped(t, ran))
            && (status == Error <==> Errored(t, ran))
            && (status == Warn <==> Warned(t, ran))
  {
    hide EvaluateAll;
    if ran.value.hint != Skip {
      var reason := if t.inject && !ran.value.correct then Some("opt-in injected checksum mismatch produced the expected failure")
                    else ran.value.reason;
      var c := ran.value.(reason := reason);
      JudgedPass(t.requirements, c);
      assert forall i :: 0 <= i < |t.requirements| ==>
        (Met(t.requirements[i], c) <==> Met(t.requirements[i], ran.value)) &&
        (Unevaluable(t.requirements[i], c) <==> Unevaluable(t.requirements[i], ran.value));
      hide Judge, Met, Unevaluable;
    }
  }

  /** Where each status comes from, exactly. A cancelled workload and a missing dictionary key give
      no result at all. */
  lemma StatusIsExact(t: TestDefinition, snapshot: Snapshot, detected: nat, around: Surroundings)
    ensures var ran := ExecuteCase(t, snapshot, detected, around.run);
            var outcome := TestOutcome(t, snapshot, detected, around);
            && (outcome.Err? <==> t.enabled && ran.Err? && (ran.error.Cancelled? || ran.error.MissingKey?))
            && (outcome.Ok? ==>
                  var status := outcome.value.0.status;
                  && (status == Pass <==> FullyPassed(t, ran))
                  && (status == Skip <==> Skipped(t, ran))
                  && (status == Error <==> Errored(t, ran))
                  && (status == Warn <==> Warned(t, ran)))
  {
    hide ExecuteCase, Judge, Met, Unevaluable, Summarise;
    var ran := ExecuteCase(t, snapshot, detected, around.run);
    HintIsMild(t, snapshot, detected, around.run);
    if t.enabled && ran.Ok? {
      VerdictIsExact(t, ran);
    }
  }

  /** A case that ran hints at passing, warning or skipping, never at failing. */
  lemma HintIsMild(t: TestDefinition, snapshot: Snapshot, detected: nat, run: Request -> Result<WorkloadResult, Failure>)
    ensures var ran := ExecuteCase(t, snapshot, detected, run);
            ran.Ok? ==> ran.value.hint in {Pass, Warn, Skip}
  {
    hide RequestOf, CapabilityMetrics, IsCpuFlag, FloatParameter;
  }

  /** One evaluation per requirement, in order, decided on the value in `metrics`. */
  ghost predicate Answers(evaluations: seq<RequirementEvaluation>, requirements: seq<Requirement>, metrics: map<string, Scalar>) {
    && |evaluations| == |requirements|
    && forall i :: 0 <= i < |requirements| ==>
         var e := evaluations[i];
         && e.requirement == requirements[i]
         && e.actual == Reading(metrics, requirements[i].metric)
         && (e.passed <==> Holds(requirements[i].op, e.actual, requirements[i].expected))
  }

  lemma EvaluatedAnswers(requirements: seq<Requirement>, metrics: map<string, Scalar>)
    requires EvaluateAll(requirements, metrics).Ok?
    ensures Answers(EvaluateAll(requirements, metrics).value, requirements, metrics)
  {
    EvaluateAllEach(requirements, metrics);
    forall i | 0 <= i < |requirements|
      ensures var e := EvaluateRequirement(requirements[i], metrics);
              e.Ok? ==> e.value.requirement == requirements[i]
                        && e.value.actual == Reading(metrics, requirements[i].metric)
                        && (e.value.passed <==> Holds(requirements[i].op, e.value.actual, requirements[i].expected))
    {
      OperatorsMean(requirements[i].op, Reading(metrics, requirements[i].metric), requirements[i].expected);
    }
    hide EvaluateAll, EvaluateRequirement, Holds;
  }

  /** A result that passed, warned or failed on its requirements carries one evaluation for each
      planned requirement, in plan order, with the measured value it was decided on. */
  lemma EvaluationsAreComplete(t: TestDefinition, snapshot: Snapshot, detected: nat, around: Surroundings)
    requires TestOutcome(t, snapshot, detected, around).Ok?
    requires TestOutcome(t, snapshot, detected, around).value.0.status in {Pass, Warn, Fail}
    ensures var result := TestOutcome(t, snapshot, detected, around).value.0;
            Answers(result.requirements, t.requirements, Values(result.measured))
  {
    hide ExecuteCase, EvaluateAll, Answers, Summarise;
    var ran := ExecuteCase(t, snapshot, detected, around.run);
    HintIsMild(t, snapshot, detected, around.run);
    if ran.Ok? && EvaluateAll(t.requirements, Values(ran.value.measured)).Ok? {
      EvaluatedAnswers(t.requirements, Values(ran.value.measured));
    }
  }

  /** Asking for more never helps: with at least the same requirements, in any order, a test ends at
      least as severely. */
  lemma RequirementsOnlyTighten(t: TestDefinition, more: seq<Requirement>, snapshot: Snapshot, detected: nat, around: Surroundings)
    requires forall r :: r in t.requirements ==> r in more
    requires TestOutcome(t, snapshot, detected, around).Ok?
    ensures var stricter := TestOutcome(t.(requirements := more), snapshot, detected, around);
            && stricter.Ok?
            && Severity(TestOutcome(t, snapshot, detected, around).value.0.status) <= Severity(stricter.value.0.status)
  {
    var stricter := t.(requirements := more);
    var ran := ExecuteCase(t, snapshot, detected, around.run);
    SameCase(t, more, snapshot, detected, around.run);
    StatusIsExact(t, snapshot, detected, around);
    StatusIsExact(stricter, snapshot, detected, around);
    HintIsMild(t, snapshot, detected, around.run);
    hide ExecuteCase, TestOutcome, Met, Unevaluable;
    forall i | 0 <= i < |t.requirements|
      ensures exists j :: 0 <= j < |more| && more[j] == t.requirements[i]
    {
      assert t.requirements[i] in more;
    }
  }

  lemma SameParameters(t: TestDefinition, more: seq<Requirement>)
    ensures var u := t.(requirements := more);
            && (forall name, default :: IntParameter(u, name, default) == IntParameter(t, name, default))
            && (forall name, default :: FloatParameter(u, name, default) == FloatParameter(t, name, default))
            && (forall name :: OptionalIntParameter(u, name) == OptionalIntParameter(t, name))
            && ExpectedChecksum(u) == ExpectedChecksum(t)
  {
    var u := t.(requirements := more);
    assert forall name, default :: Parameter(u, name, default) == Parameter(t, name, default);
    hide Parameter;
  }

  lemma SameRequest(t: TestDefinition, more: seq<Requirement>, detected: nat)
    ensures RequestOf(t.(requirements := more), detected) == RequestOf(t, detected)
  {
    SameParameters(t, more);
    hide IntParameter, FloatParameter, OptionalIntParameter, ExpectedChecksum;
    var u := t.(requirements := more);
    assert IntegerRequest(u, detected) == IntegerRequest(t, detected) && StabilityRequest(u) == StabilityRequest(t);
    hide IntegerRequest, StabilityRequest;
  }

  lemma SameStability(t: TestDefinition, more: seq<Requirement>, r: WorkloadResult)
    ensures StabilityCase(t.(requirements := more), r) == StabilityCase(t, r)
  {
    SameParameters(t, more);
    hide IntParameter, FloatParameter, OptionalIntParameter, ExpectedChecksum, WorkloadCase, Exceeds;
  }

  /** What runs does not depend on what is required of it. */
  lemma SameCase(t: TestDefinition, more: seq<Requirement>, snapshot: Snapshot, detected: nat, run: Request -> Result<WorkloadResult, Failure>)
    ensures ExecuteCase(t.(requirements := more), snapshot, detected, run) == ExecuteCase(t, snapshot, detected, run)
  {
    hide RequestOf, ReadingCase, StabilityCase;
    SameRequest(t, more, detected);
    var request := RequestOf(t, detected);
    if request.Ok? && request.value.Some? && run(request.value.value).Ok? {
      SameStability(t, more, run(request.value.value).value);
    }
  }

  // ---- The whole run ----

  ghost function Ran(plan: TestPlan, facts: RunFacts, around: nat -> Surroundings, k: nat): Result<Case, Failure>
    requires k < |plan.tests|
  {
    ExecuteCase(plan.tests[k], facts.snapshot, facts.detected, around(k).run)
  }

  /** A run passes exactly when every test fully passed or was skipped, and at least one did pass. */
  lemma PassIsSound(plan: TestPlan, facts: RunFacts, around: nat -> Surroundings)
    requires ValidPlan(plan) && Reaches(plan, facts, around, |plan.tests|)
    ensures Executed(plan, facts, around).run.overallStatus == Pass <==>
            && (forall k: nat :: k < |plan.tests| ==>
                  FullyPassed(plan.tests[k], Ran(plan, facts, around, k)) || Skipped(plan.tests[k], Ran(plan, facts, around, k)))
            && exists k: nat :: k < |plan.tests| && FullyPassed(plan.tests[k], Ran(plan, facts, around, k))
  {
    hide ValidPlan, TestOutcome, FullyPassed, Skipped, ExecuteCase;
    var results := Executed(plan, facts, around).run.testResults;
    var statuses := Statuses(results);
    forall k: nat | k < |plan.tests|
      ensures statuses[k] == Pass <==> FullyPassed(plan.tests[k], Ran(plan, facts, around, k))
      ensures statuses[k] == Skip <==> Skipped(plan.tests[k], Ran(plan, facts, around, k))
    {
      StatusIsExact(plan.tests[k], facts.snapshot, facts.detected, around(k));
      hide Met, Unevaluable;
    }
    AggregateIsMaximum(statuses, AggregateStatus(statuses));
    assert forall x :: Severity(x) <= 1 <==> x in {Pass, Skip};
    assert forall k :: 0 <= k < |statuses| ==> statuses[k] in statuses;
    AggregateIsMaximum(statuses, Pass);
    hide AggregateStatus;
  }

  // ---- Into the store ----

  lemma {:induction false} TelemetryOfEach(plan: TestPlan, facts: RunFacts, around: nat -> Surroundings, n: nat, id: TestId)
    requires n <= |plan.tests| && Reaches(plan, facts, around, n)
    ensures id in TelemetryOf(plan, facts, around, n) <==> exists k :: 0 <= k < n && plan.tests[k].id == id
  {
    hide TestOutcome;
    if n > 0 {
      TelemetryOfEach(plan, facts, around, n - 1, id);
      if plan.tests[n - 1].id == id {
        assert exists k :: 0 <= k < n && plan.tests[k].id == id;
      }
    }
  }

  /** With unique test identifiers no sample list overwrites another. */
  lemma {:induction false} TelemetryAt(plan: TestPlan, facts: RunFacts, around: nat -> Surroundings, n: nat, k: nat)
    requires ValidPlan(plan) && k < n <= |plan.tests| && Reaches(plan, facts, around, n)
    ensures plan.tests[k].id in TelemetryOf(plan, facts, around, n)
    ensures TelemetryOf(plan, facts, around, n)[plan.tests[k].id] == OutcomeAt(plan, facts, around, k).value.1
  {
    hide TestOutcome, ValidTest;
    if k < n - 1 {
      TelemetryAt(plan, facts, around, n - 1, k);
    }
  }

  lemma SummaryIsAccepted(plan: TestPlan, facts: RunFacts, around: nat -> Surroundings)
    requires Reaches(plan, facts, around, |plan.tests|)
    requires facts.startedAt <= facts.endedAt
    ensures SummaryMatchesResults(Executed(plan, facts, around).run)
  {
    hide Reaches, TestOutcome, AnyInjected, TelemetryOf;
    var statuses := Statuses(Executed(plan, facts, around).run.testResults);
    forall s {
      CountsMembers(statuses, s);
    }
    assert NonZero(Counts(statuses)) == Counts(statuses);
  }

  lemma ResultIds(plan: TestPlan, facts: RunFacts, around: nat -> Surroundings)
    requires Reaches(plan, facts, around, |plan.tests|)
    ensures var results := ResultsOf(plan, facts, around, |plan.tests|);
            forall k: nat :: k < |plan.tests| ==> results[k].testId == plan.tests[k].id
  {
    hide ExecuteCase, VerdictOn, Summarise;
  }

  lemma TelemetryHasTheKeys(plan: TestPlan, facts: RunFacts, around: nat -> Surroundings)
    requires Reaches(plan, facts, around, |plan.tests|)
    ensures TelemetryOf(plan, facts, around, |plan.tests|).Keys == TestIds(ResultsOf(plan, facts, around, |plan.tests|))
  {
    ResultIds(plan, facts, around);
    hide Reaches, TestOutcome, TelemetryOf;
    var telemetry, results := TelemetryOf(plan, facts, around, |plan.tests|), ResultsOf(plan, facts, around, |plan.tests|);
    forall id
      ensures id in telemetry <==> id in TestIds(results)
    {
      TelemetryOfEach(plan, facts, around, |plan.tests|, id);
      if exists k :: 0 <= k < |plan.tests| && plan.tests[k].id == id {
        var k :| 0 <= k < |plan.tests| && plan.tests[k].id == id;
        assert results[k].testId == id;
      }
    }
  }

  /** Every execution the runner builds carries a summary that its own validator accepts, has one
      result and one sample list per planned test, in plan order, and so is stored under a fresh run
      identifier without breaking a key, and reads back as it was. */
  lemma ProducerMeetsStore(plan: TestPlan, facts: RunFacts, around: nat -> Surroundings, c: Catalogue, codec: Codec, capturedAt: int, savedAt: int)
    requires ValidPlan(plan) && Reaches(plan, facts, around, |plan.tests|)
    requires facts.startedAt <= facts.endedAt
    requires facts.runId !in c.runs
    ensures var e := Executed(plan, facts, around);
            && SummaryMatchesResults(e.run)
            && |e.run.testResults| == |plan.tests|
            && (forall k: nat :: k < |plan.tests| ==> e.run.testResults[k].testId == plan.tests[k].id)
            && TelemetryMatchesResults(e)
            && (forall k: nat :: k < |plan.tests| ==> e.telemetry[plan.tests[k].id] == OutcomeAt(plan, facts, around, k).value.1)
            && e.run.runId == facts.runId
            && Admissible(c, e, PersistRecords(codec, e))
            && facts.runId in Saved(c, e, PersistRecords(codec, e), capturedAt, savedAt).runs
            && Saved(c, e, PersistRecords(codec, e), capturedAt, savedAt).runs[facts.runId].execution == e
  {
    hide TestOutcome, ValidTest, SummaryMatchesResults, Canonical, RecordFor;
    var e := Executed(plan, facts, around);
    SummaryIsAccepted(plan, facts, around);
    ResultIds(plan, facts, around);
    TelemetryHasTheKeys(plan, facts, around);
    forall k: nat | k < |plan.tests|
      ensures plan.tests[k].id in e.telemetry && e.telemetry[plan.tests[k].id] == OutcomeAt(plan, facts, around, k).value.1
    {
      TelemetryAt(plan, facts, around, |plan.tests|, k);
    }
    hide TelemetryOf, AnyInjected, TestIds;
    assert Canonical(e) == e;
  }

  /** Without faults the execution of a plan is persisted, in files and in rows, on the first try. */
  lemma ExecutedRunPersists(plan: TestPlan, facts: RunFacts, around: nat -> Surroundings, s: Store, codec: Codec, capturedAt: int, savedAt: int)
    requires ValidPlan(plan) && Reaches(plan, facts, around, |plan.tests|)
    requires facts.startedAt <= facts.endedAt
    requires facts.runId !in s.rows.runs && facts.runId !in s.dirs
    ensures var e := Executed(plan, facts, around);
            var (after, outcome) := PersistResult(codec, s, e, capturedAt, savedAt, NO_FAULT);
            && outcome == Returned
            && after.dirs == s.dirs[facts.runId := map[RUN_JSON := codec.dump(e)]]
            && facts.runId in after.rows.runs && after.rows.runs[facts.runId].execution == e
  {
    ProducerMeetsStore(plan, facts, around, s.rows, codec, capturedAt, savedAt);
    hide Executed, Reaches, ValidPlan, Admissible, TelemetryMatchesResults, SummaryMatchesResults, Saved;
    PersistSucceeds(codec, s, Executed(plan, facts, around), capturedAt, savedAt);
    hide PersistResult;
  }

  lemma PersistSucceeds(codec: Codec, s: Store, e: RunExecution, capturedAt: int, savedAt: int)
    requires Admissible(s.rows, e, PersistRecords(codec, e)) && e.run.runId !in s.dirs
    ensures PersistResult(codec, s, e, capturedAt, savedAt, NO_FAULT) ==
            (s.(dirs := s.dirs[e.run.runId := map[RUN_JSON := codec.dump(e)]],
                rows := Saved(s.rows, e, PersistRecords(codec, e), capturedAt, savedAt)), Returned)
  {
    hide Admissible, Saved;
  }
}
