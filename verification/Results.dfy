/** Aggregating the statuses of a run's tests, and the summary a run result must carry. */
module Results {
  import opened Models

  function AggregateStatus(statuses: seq<Status>): Status {
    if statuses == [] then Skip
    else if Error in statuses then Error
    else if Fail in statuses then Fail
    else if Warn in statuses then Warn
    else if Pass in statuses then Pass
    else Skip
  }

  /** The scale the aggregate is a maximum on: a skipped test says less than a passed one. */
  function Severity(s: Status): nat {
    match s
    case Skip => 0
    case Pass => 1
    case Warn => 2
    case Fail => 3
    case Error => 4
  }

  /** The order of consequence. */
  lemma SeverityOrder()
    ensures Severity(Skip) < Severity(Pass) < Severity(Warn) < Severity(Fail) < Severity(Error)
  {
  }

  /** The more consequential of two statuses. */
  function Join(a: Status, b: Status): Status {
    if Severity(a) >= Severity(b) then a else b
  }

  /** The aggregate is the least upper bound: at least as severe as every test, and attained by
      one of them, or `Skip` when there is none. */
  lemma AggregateIsMaximum(statuses: seq<Status>, s: Status)
    ensures AggregateStatus(statuses) == s <==>
            && (forall x :: x in statuses ==> Severity(x) <= Severity(s))
            && (s in statuses || (statuses == [] && s == Skip))
  {
    if s in statuses && forall x :: x in statuses ==> Severity(x) <= Severity(s) {
      assert forall x :: Severity(x) > Severity(s) ==> x !in statuses;
    }
    var a := AggregateStatus(statuses);
    if statuses != [] {
      assert statuses[0] in statuses;
      assert Severity(a) >= Severity(statuses[0]);
      assert a in statuses by {
        if a == Skip {
          assert statuses[0] == Skip;
        }
      }
    }
  }

  /** Only the set of statuses matters: neither the order of the tests nor how many agree. */
  lemma OrderDoesNotMatter(a: seq<Status>, b: seq<Status>)
    requires forall s :: s in a <==> s in b
    ensures AggregateStatus(a) == AggregateStatus(b)
  {
    assert a == [] <==> b == [] by {
      assert a != [] ==> a[0] in b;
      assert b != [] ==> b[0] in a;
    }
  }

  /** Aggregating groups of tests and joining the results is aggregating all of them: grouping
      does not matter either. */
  lemma AggregateOfConcatenation(a: seq<Status>, b: seq<Status>)
    ensures AggregateStatus(a + b) == Join(AggregateStatus(a), AggregateStatus(b))
  {
    var j := Join(AggregateStatus(a), AggregateStatus(b));
    AggregateIsMaximum(a, AggregateStatus(a));
    AggregateIsMaximum(b, AggregateStatus(b));
    AggregateIsMaximum(a + b, j);
  }

  /** Making tests worse, one by one, never makes the run better. */
  lemma AggregateIsMonotone(a: seq<Status>, b: seq<Status>)
    requires |a| == |b|
    requires forall i :: 0 <= i < |a| ==> Severity(a[i]) <= Severity(b[i])
    ensures Severity(AggregateStatus(a)) <= Severity(AggregateStatus(b))
  {
    var s := AggregateStatus(a);
    AggregateIsMaximum(a, s);
    AggregateIsMaximum(b, AggregateStatus(b));
    if a != [] {
      var i :| 0 <= i < |a| && a[i] == s;
      assert b[i] in b;
    }
  }

  function Statuses(results: seq<TestResult>): (statuses: seq<Status>)
    ensures |statuses| == |results|
  {
    seq(|results|, i requires 0 <= i < |results| => results[i].status)
  }

  /** How often each status occurs. */
  function Counts(statuses: seq<Status>): map<Status, nat> {
    map s | s in statuses :: multiset(statuses)[s]
  }

  /** The tests that have a status. */
  function Positions(statuses: seq<Status>, s: Status): set<int> {
    set i | 0 <= i < |statuses| && statuses[i] == s
  }

  lemma PositionsStep(statuses: seq<Status>, s: Status)
    requires statuses != []
    ensures var n := |statuses| - 1;
            && n !in Positions(statuses[..n], s)
            && Positions(statuses, s) == Positions(statuses[..n], s) + if statuses[n] == s then {n} else {}
  {
    var n := |statuses| - 1;
    assert forall i :: 0 <= i < n ==> statuses[..n][i] == statuses[i];
  }

  lemma {:induction false} OccurrencesArePositions(statuses: seq<Status>, s: Status)
    ensures multiset(statuses)[s] == |Positions(statuses, s)|
  {
    hide Positions;
    if statuses == [] {
      NoPositions(s);
    } else {
      var n := |statuses| - 1;
      OccurrencesArePositions(statuses[..n], s);
      PositionsStep(statuses, s);
      assert statuses == statuses[..n] + [statuses[n]];
    }
  }

  lemma NoPositions(s: Status)
    ensures Positions([], s) == {}
  {
  }

  /** The count of a status is the number of tests that have it. */
  lemma CountsAreOccurrences(statuses: seq<Status>, s: Status)
    ensures (if s in Counts(statuses) then Counts(statuses)[s] else 0) == |Positions(statuses, s)|
  {
    OccurrencesArePositions(statuses, s);
    hide Positions;
    assert s in statuses <==> s in multiset(statuses);
  }

  function NonZero(counts: map<Status, nat>): map<Status, nat> {
    map s | s in counts && counts[s] != 0 :: counts[s]
  }

  predicate SummaryMatchesResults(run: RunResult) {
    && run.endedAt >= run.startedAt
    && run.overallStatus == AggregateStatus(Statuses(run.testResults))
    && NonZero(run.resultCounts) == Counts(Statuses(run.testResults))
  }

  lemma CountsMembers(statuses: seq<Status>, s: Status)
    ensures s in Counts(statuses) <==> s in statuses
    ensures s in Counts(statuses) ==> Counts(statuses)[s] > 0
  {
    assert s in statuses <==> s in multiset(statuses);
  }

  /** The counts alone decide the overall status, so two accepted results that agree on the one
      cannot disagree on the other. */
  lemma CountsDecideStatus(a: RunResult, b: RunResult)
    requires SummaryMatchesResults(a) && SummaryMatchesResults(b)
    requires a.resultCounts == b.resultCounts
    ensures a.overallStatus == b.overallStatus
  {
    var x, y := Statuses(a.testResults), Statuses(b.testResults);
    forall s
      ensures s in x <==> s in y
    {
      CountsMembers(x, s);
      CountsMembers(y, s);
    }
    OrderDoesNotMatter(x, y);
  }

  /** How many tests ended in each state, summed over the five states. */
  function Total(counts: map<Status, nat>): nat {
    Entry(counts, Pass) + Entry(counts, Fail) + Entry(counts, Warn) + Entry(counts, Skip) + Entry(counts, Error)
  }

  function Entry(counts: map<Status, nat>, s: Status): nat {
    if s in counts then counts[s] else 0
  }

  lemma {:induction false} OccurrencesSum(statuses: seq<Status>)
    ensures var m := multiset(statuses);
            m[Pass] + m[Fail] + m[Warn] + m[Skip] + m[Error] == |statuses|
  {
    if statuses != [] {
      var n := |statuses| - 1;
      OccurrencesSum(statuses[..n]);
      assert statuses == statuses[..n] + [statuses[n]];
      match statuses[n]
      case Pass => case Fail => case Warn => case Skip => case Error =>
    }
  }

  /** Every test is counted once: the counts of an accepted result add up to its tests. */
  lemma CountsAddUp(run: RunResult)
    requires SummaryMatchesResults(run)
    ensures Total(run.resultCounts) == |run.testResults|
  {
    var statuses := Statuses(run.testResults);
    OccurrencesSum(statuses);
    forall s
      ensures Entry(run.resultCounts, s) == multiset(statuses)[s]
    {
      CountsMembers(statuses, s);
      assert s in statuses <==> s in multiset(statuses);
      assert s in NonZero(run.resultCounts) <==> s in Counts(statuses);
      if s in statuses {
        assert NonZero(run.resultCounts)[s] == Counts(statuses)[s];
      }
    }
  }
}
