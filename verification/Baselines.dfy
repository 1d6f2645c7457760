/** When a baseline is sure to point at a run that neither failed nor errored, although the service
    checks the run in one transaction and commits the baseline in another. */
module Baselines {
  import opened Models
  import opened Results
  import opened Catalogues
  import opened Histories

  // ---- One call, anything in between ----

  const SOME_HASH := "0123456789abcdef0123456789abcdef0123456789abcdef0123456789abcdef"

  /** A finished run with one failed test, its names and hashes as the record demands them. */
  function FailedRun(id: RunId): (e: RunExecution)
    ensures e.run.runId == id && e.run.overallStatus == Fail && !KnownGood(e)
    ensures e.run.planName != "" && e.run.toolVersion != "" && |e.run.planHash| == |e.run.platformFingerprint| == 64
    ensures UniqueIds(e.run.testResults) && TelemetryMatchesResults(e) && SummaryMatchesResults(e.run)
  {
    var result := TestResult("CPU-001", 0, 0, Fail, map[], [], None, None, TelemetrySummary(0, {}, 0), false);
    var run := RunResult(id, "plan", SOME_HASH, "1.0.0", SOME_HASH, 0, 0, Fail, map[Fail := 1], [result], [], []);
    assert Statuses(run.testResults) == [Fail];
    assert Counts([Fail]) == map[Fail := 1];
    assert TestIds([result]) == {"CPU-001"};
    RunExecution(run, PlatformIdentity(SOME_HASH, None, map[]), map["CPU-001" := []])
  }

  /** Whatever other processes commit between the check and the baseline, a call that succeeds
      leaves a baseline on a known-good run. */
  ghost predicate NeverMisled(c: Catalogue, name: string, source: RunId) {
    forall between: seq<Transaction>, createdAt: int ::
      var (after, r) := CreateBaseline(c, between, name, source, createdAt);
      r.Ok? ==> source in after.runs && KnownGood(after.runs[source].execution)
  }

  /** A caller can tell from the store before the call: the call is bound to fail, or another
      baseline already protects the run from deletion. */
  predicate SureBeforehand(c: Catalogue, name: string, source: RunId) {
    || source !in c.runs
    || !KnownGood(c.runs[source].execution)
    || name in c.baselines
    || IsBaselineSource(c, source)
  }

  lemma ProtectedIsNeverMisled(c: Catalogue, between: seq<Transaction>, name: string, source: RunId, createdAt: int)
    requires WellFormed(c) && SureBeforehand(c, name, source)
    ensures var (after, r) := CreateBaseline(c, between, name, source, createdAt);
            r.Ok? ==> source in after.runs && KnownGood(after.runs[source].execution)
  {
    hide WellFormed;
    if name in c.baselines {
      BaselinePermanence(c, between, name);
    } else if IsBaselineSource(c, source) {
      var other :| other in c.baselines && c.baselines[other].sourceRunId == source;
      CompareFindsSource(c, between, other);
    }
  }

  /** The exact condition: no interleaving can mislead the call if and only if the call is bound to
      fail or the run is already the source of a baseline. */
  lemma KnownGoodIffProtected(c: Catalogue, name: string, source: RunId)
    requires WellFormed(c)
    ensures NeverMisled(c, name, source) <==> SureBeforehand(c, name, source)
  {
    hide WellFormed;
    if SureBeforehand(c, name, source) {
      forall between: seq<Transaction>, createdAt: int
        ensures var (after, r) := CreateBaseline(c, between, name, source, createdAt);
                r.Ok? ==> source in after.runs && KnownGood(after.runs[source].execution)
      {
        ProtectedIsNeverMisled(c, between, name, source, createdAt);
      }
    } else {
      CheckThenPointRace(c, name, source, FailedRun(source), 0, 0, 0);
      hide CreateBaseline;
      var between := [Remove(source), Save(FailedRun(source), [], 0, 0)];
      var (after, r) := CreateBaseline(c, between, name, source, 0);
      assert r.Ok? && !KnownGood(after.runs[source].execution);
    }
  }

  // ---- Whole histories, the check apart from the commit ----

  lemma {:induction false} AfterConcat(c: Catalogue, a: seq<Transaction>, b: seq<Transaction>)
    ensures After(c, a + b) == After(After(c, a), b)
    decreases |a|
  {
    if a == [] {
      assert a + b == b;
    } else {
      assert (a + b)[0] == a[0] && (a + b)[1..] == a[1..] + b;
      AfterConcat(Commit(c, a[0]), a[1..], b);
    }
  }

  /** The store after the first `n` transactions of a history. */
  function State(c: Catalogue, history: seq<Transaction>, n: nat): Catalogue
    requires n <= |history|
  {
    After(c, history[..n])
  }

  /** Run identifiers are never reused: no state up to a save holds the identifier it saves. */
  ghost predicate FreshIds(c: Catalogue, history: seq<Transaction>) {
    forall i: nat, j: nat :: i <= j < |history| && history[j].Save? ==> history[j].e.run.runId !in State(c, history, i).runs
  }

  predicate GoodAt(c: Catalogue, history: seq<Transaction>, n: nat, source: RunId)
    requires n <= |history|
  {
    source in State(c, history, n).runs && KnownGood(State(c, history, n).runs[source].execution)
  }

  /** Every baseline was checked at some moment before its commit, with any transactions of other
      processes in between. */
  ghost predicate CheckedEarlier(c: Catalogue, history: seq<Transaction>) {
    forall j: nat :: j < |history| && history[j].Point? ==>
      exists i: nat :: i <= j && GoodAt(c, history, i, history[j].source)
  }

  lemma StateStep(c: Catalogue, history: seq<Transaction>, n: nat)
    requires n < |history|
    ensures State(c, history, n + 1) == Commit(State(c, history, n), history[n])
  {
    assert history[..n + 1] == history[..n] + [history[n]];
    AfterConcat(c, history[..n], [history[n]]);
    assert [history[n]][1..] == [];
  }

  /** A run that was good once is good as long as it is stored. */
  lemma GoodStaysGood(c: Catalogue, history: seq<Transaction>, i: nat, j: nat, source: RunId)
    requires i <= j <= |history| && FreshIds(c, history)
    requires GoodAt(c, history, i, source) && source in State(c, history, j).runs
    ensures KnownGood(State(c, history, j).runs[source].execution)
  {
    var between := history[i..j];
    assert history[..j] == history[..i] + between;
    AfterConcat(c, history[..i], between);
    forall k | 0 <= k < |between| && between[k].Save?
      ensures between[k].e.run.runId != source
    {
      assert between[k] == history[i + k];
    }
    UnsavedRunIsUnchanged(State(c, history, i), between, source);
  }

  /** In every history of any number of processes in which run identifiers are never reused, no
      baseline ever points at a failed or errored run, although each was checked only at some earlier
      moment. */
  lemma {:induction false} CheckedBaselinesStayKnownGood(c: Catalogue, history: seq<Transaction>, n: nat)
    requires WellFormed(c) && BaselinesKnownGood(c)
    requires FreshIds(c, history) && CheckedEarlier(c, history)
    requires n <= |history|
    ensures WellFormed(State(c, history, n)) && BaselinesKnownGood(State(c, history, n))
    decreases n
  {
    hide WellFormed, BaselinesKnownGood, State, FreshIds;
    if n == 0 {
      StateStart(c, history);
    } else {
      CheckedBaselinesStayKnownGood(c, history, n - 1);
      StateStep(c, history, n - 1);
      var s, t := State(c, history, n - 1), history[n - 1];
      if t.Point? && t.source in s.runs {
        var i: nat :| i <= n - 1 && GoodAt(c, history, i, t.source);
        GoodStaysGood(c, history, i, n - 1, t.source);
      }
      CommitKeepsKnownGood(s, t);
      CommitWellFormed(s, t);
    }
  }

  /** Known good means neither failed nor errored: every baseline points at a stored run that passed,
      warned or was skipped. */
  lemma BaselineStatuses(c: Catalogue, name: string)
    requires BaselinesKnownGood(c) && name in c.baselines
    ensures c.baselines[name].sourceRunId in c.runs
    ensures c.runs[c.baselines[name].sourceRunId].execution.run.overallStatus in {Pass, Warn, Skip}
  {
  }

  lemma StateStart(c: Catalogue, history: seq<Transaction>)
    ensures State(c, history, 0) == c
  {
  }
}
