/** The stability workload as a series of concurrent workloads: each repetition runs the threads of
    `Concurrency` under a schedule of its own, within what is left of one deadline. */
module Series {
  import opened Models
  import opened Control
  import opened IntegerHashing
  import opened Concurrency
  import opened Cancellation
  import opened Stability

  /** The run token and the clock between two repetitions. */
  datatype Moment = Moment(runToken: bool, now: int)

  /** What happens around and during one repetition: what passes before the run token is read, before
      the clock is read, before it is read again for the remaining time, and before the nested
      workload sets its own deadline; then the schedule of its threads. */
  datatype Turn = Turn(toToken: seq<Action>, toClock: seq<Action>, toRemaining: seq<Action>, toStart: seq<Action>, run: seq<Action>)

  datatype SeriesEnd = Unfinished | Completed(checksum: Bytes, correct: bool) | Broken(why: Stop)

  /** While the series itself is at work, others can cancel the run and time passes. */
  function Elapse(m: Moment, actions: seq<Action>): Moment
    decreases |actions|
  {
    if actions == [] then m
    else
      var next := match actions[0]
                  case CancelRun => m.(runToken := true)
                  case Tick(delta) => m.(now := m.now + delta)
                  case _ => m;
      Elapse(next, actions[1..])
  }

  /** The checkpoint of the series, the remaining time, and the refusal of a workload without any:
      the deadline of the nested workload and the moment it starts. Nobody else holds the child token,
      and no repetition that returns leaves it set. */
  function Enter(m: Moment, deadline: int, t: Turn): Result<(int, Moment), Stop> {
    var token := Elapse(m, t.toToken);
    var clock := Elapse(token, t.toClock);
    var read := Elapse(clock, t.toRemaining);
    var start := Elapse(read, t.toStart);
    if token.runToken then Err(Interrupted(WorkloadCancelled))
    else if clock.now >= deadline then Err(Interrupted(WorkloadTimeout))
    else if read.now >= deadline then Err(NoTimeLeft)
    else Ok((start.now + (deadline - read.now), start))
  }

  /** A repetition starts only before the deadline of the series, and its own deadline is as far away as
      the other one was when it was read; the four ways in, exactly. */
  lemma EnterMeans(m: Moment, deadline: int, t: Turn)
    ensures var token := Elapse(m, t.toToken);
            var clock := Elapse(token, t.toClock);
            var read := Elapse(clock, t.toRemaining);
            && (Enter(m, deadline, t) == Err(Interrupted(WorkloadCancelled)) <==> token.runToken)
            && (Enter(m, deadline, t) == Err(Interrupted(WorkloadTimeout)) <==> !token.runToken && clock.now >= deadline)
            && (Enter(m, deadline, t) == Err(NoTimeLeft) <==> !token.runToken && clock.now < deadline && read.now >= deadline)
            && (Enter(m, deadline, t).Ok? ==>
                  var (own, start) := Enter(m, deadline, t).value;
                  own - start.now == deadline - read.now > 0)
  {
    hide Elapse;
  }

  function Repeated(sha256: Bytes -> Bytes, c: Config, deadline: int, start: Moment, run: seq<Action>): State
    requires ValidConfig(c)
  {
    Exec(sha256, Job(c, deadline), Init(start.runToken, start.now), run)
  }

  /** `left` more repetitions, each compared with the checksum of the one before. */
  function RunSeries(sha256: Bytes -> Bytes, c: Config, deadline: int, left: nat, m: Moment, correct: bool, turns: seq<Turn>): SeriesEnd
    requires ValidConfig(c)
    decreases left
  {
    if left == 0 then
      (if c.expected.Some? then Completed(c.expected.value, correct) else Unfinished)
    else if turns == [] then Unfinished
    else
      match Enter(m, deadline, turns[0])
      case Err(why) => Broken(why)
      case Ok((d, start)) =>
        var end := Repeated(sha256, c, d, start, turns[0].run);
        match end.main
        case Returned(checksum, ok) =>
          RunSeries(sha256, c.(expected := Some(checksum)), deadline, left - 1, Moment(end.runToken, end.now), correct && ok, turns[1..])
        case Escaped(why) => Broken(Interrupted(why))
        case _ => Unfinished
  }

  // ---- The verdict ----

  lemma ReferenceIgnoresExpected(sha256: Bytes -> Bytes, c: Config, expected: Option<Bytes>)
    requires ValidConfig(c)
    ensures Reference(sha256, c.(expected := expected)) == Reference(sha256, c)
  {
    assert Digests(sha256, c.(expected := expected), c.workers) == Digests(sha256, c, c.workers);
  }

  /** Under all schedules in which every repetition returns, the series is judged correct exactly when
      no checksum was expected or the expected one is the sequential reference. */
  lemma {:induction false} SeriesIsScheduleIndependent(sha256: Bytes -> Bytes, c: Config, deadline: int, left: nat, m: Moment, correct: bool, turns: seq<Turn>)
    requires ValidConfig(c) && left > 0
    ensures var end := RunSeries(sha256, c, deadline, left, m, correct, turns);
            end.Completed? ==>
              && end.checksum == Reference(sha256, c)
              && (end.correct <==> correct && (c.expected.None? || c.expected.value == Reference(sha256, c)))
    decreases left
  {
    hide Reference, Exec, Enter;
    if turns != [] && Enter(m, deadline, turns[0]).Ok? {
      var (d, start) := Enter(m, deadline, turns[0]).value;
      ScheduleIndependence(sha256, Job(c, d), start.runToken, start.now, turns[0].run);
      var end := Repeated(sha256, c, d, start, turns[0].run);
      if end.main.Returned? && left > 1 {
        var next := c.(expected := Some(end.main.checksum));
        ReferenceIgnoresExpected(sha256, c, next.expected);
        SeriesIsScheduleIndependent(sha256, next, deadline, left - 1, Moment(end.runToken, end.now), correct && end.main.correct, turns[1..]);
      }
    }
  }

  /** What a repetition observed is what some schedule of the configuration returns, whatever it was
      compared with. */
  ghost predicate FromSomeSchedule(sha256: Bytes -> Bytes, c: Config, checksum: Bytes)
    requires ValidConfig(c)
  {
    exists expected, deadline, runToken, now, actions, correct ::
      Exec(sha256, Job(c.(expected := expected), deadline), Init(runToken, now), actions).main == Returned(checksum, correct)
  }

  lemma ObservedIsReference(sha256: Bytes -> Bytes, c: Config, checksum: Bytes)
    requires ValidConfig(c) && FromSomeSchedule(sha256, c, checksum)
    ensures checksum == Reference(sha256, c)
  {
    hide Exec, Reference;
    var expected, deadline, runToken, now, actions, correct :|
      Exec(sha256, Job(c.(expected := expected), deadline), Init(runToken, now), actions).main == Returned(checksum, correct);
    ScheduleIndependence(sha256, Job(c.(expected := expected), deadline), runToken, now, actions);
    ReferenceIgnoresExpected(sha256, c, expected);
  }

  /** The verdict of `RunStabilityWorkload`, when each repetition ran under some schedule: positive
      exactly when no checksum was expected or the expected one is the sequential reference. */
  lemma ScheduledVerdict(sha256: Bytes -> Bytes, repetitions: nat, c: Config, observe: nat -> Result<Repetition, Stop>)
    requires repetitions > 0 && ValidConfig(c)
    requires forall i: nat :: i < repetitions ==> observe(i).Ok? && FromSomeSchedule(sha256, c, observe(i).value.checksum)
    ensures AllAgree(observe, repetitions, FirstExpected(sha256, c)) <==>
            c.expected.None? || c.expected.value == Reference(sha256, c)
  {
    hide Reference, FromSomeSchedule;
    forall i: nat | i < repetitions
      ensures observe(i).value.checksum == Reference(sha256, c)
    {
      ObservedIsReference(sha256, c, observe(i).value.checksum);
    }
    assert observe(0).value.checksum == Reference(sha256, c);
  }

  // ---- The child token between repetitions ----

  /** The futures collected so far belong to workers that finished. */
  ghost predicate CollectedFinished(s: State) {
    && (s.main.Collecting? ==> |s.main.digests| <= |s.pool| && forall i :: 0 <= i < |s.main.digests| ==> s.pool[i].Finished?)
    && (s.main.Returned? ==> forall i :: 0 <= i < |s.pool| ==> s.pool[i].Finished?)
  }

  lemma StepCollectedFinished(sha256: Bytes -> Bytes, job: Job, s: State, a: Action)
    requires ValidConfig(job.config) && Consistent(sha256, job, s) && CollectedFinished(s)
    ensures CollectedFinished(Step(sha256, job, s, a))
  {
    hide Stream, BlockDigest, WorkerDigest, Digests, Reference, Counts, WorkerOk;
  }

  lemma {:induction false} ExecCollectedFinished(sha256: Bytes -> Bytes, job: Job, s: State, actions: seq<Action>)
    requires ValidConfig(job.config) && Consistent(sha256, job, s) && CollectedFinished(s)
    ensures CollectedFinished(Exec(sha256, job, s, actions))
    decreases |actions|
  {
    hide Step, Consistent, CollectedFinished;
    if actions != [] {
      StepCollectedFinished(sha256, job, s, actions[0]);
      StepConsistent(sha256, job, s, actions[0]);
      ExecCollectedFinished(sha256, job, Step(sha256, job, s, actions[0]), actions[1..]);
    }
  }

  /** A workload that returns leaves the child token clear, so that the next repetition starts as the
      first one did. */
  lemma ReturnedLeavesTokenClear(sha256: Bytes -> Bytes, job: Job, runToken: bool, now: int, actions: seq<Action>)
    requires ValidConfig(job.config)
    ensures var end := Exec(sha256, job, Init(runToken, now), actions);
            end.main.Returned? ==> !end.token
  {
    hide Exec;
    ExecCollectedFinished(sha256, job, Init(runToken, now), actions);
    ExecBlame(sha256, job, Init(runToken, now), actions);
  }

  // ---- Timeouts ----

  predicate NobodyCancels(turns: seq<Turn>) {
    forall i :: 0 <= i < |turns| ==>
      NoCancel(turns[i].toToken) && NoCancel(turns[i].toClock) && NoCancel(turns[i].toRemaining) && NoCancel(turns[i].toStart) && NoCancel(turns[i].run)
  }

  lemma {:induction false} ElapseKeepsRunToken(m: Moment, actions: seq<Action>)
    requires NoCancel(actions) && !m.runToken
    ensures !Elapse(m, actions).runToken
    decreases |actions|
  {
    if actions != [] {
      assert forall i :: 0 <= i < |actions[1..]| ==> actions[1..][i] == actions[i + 1];
      var next := if actions[0].Tick? then m.(now := m.now + actions[0].delta) else m;
      ElapseKeepsRunToken(next, actions[1..]);
    }
  }

  lemma EnterUncancelled(m: Moment, deadline: int, t: Turn)
    requires !m.runToken && NobodyCancels([t])
    ensures Enter(m, deadline, t) != Err(Interrupted(WorkloadCancelled))
    ensures Enter(m, deadline, t).Ok? ==> !Enter(m, deadline, t).value.1.runToken
  {
    hide Elapse;
    assert [t][0] == t;
    ElapseKeepsRunToken(m, t.toToken);
    ElapseKeepsRunToken(Elapse(m, t.toToken), t.toClock);
    ElapseKeepsRunToken(Elapse(Elapse(m, t.toToken), t.toClock), t.toRemaining);
    ElapseKeepsRunToken(Elapse(Elapse(Elapse(m, t.toToken), t.toClock), t.toRemaining), t.toStart);
  }

  /** With one worker no deadline, in any repetition and under any schedule, ends as a cancellation. */
  lemma {:induction false} OneWorkerSeriesIsContained(sha256: Bytes -> Bytes, c: Config, deadline: int, left: nat, m: Moment, correct: bool, turns: seq<Turn>)
    requires ValidConfig(c) && c.workers == 1
    requires !m.runToken && NobodyCancels(turns)
    ensures RunSeries(sha256, c, deadline, left, m, correct, turns) != Broken(Interrupted(WorkloadCancelled))
    decreases left
  {
    hide Exec, Enter, NoCancel;
    if left > 0 && turns != [] {
      assert [turns[0]][0] == turns[0];
      EnterUncancelled(m, deadline, turns[0]);
      if Enter(m, deadline, turns[0]).Ok? {
        var (d, start) := Enter(m, deadline, turns[0]).value;
        CancellationHasACause(sha256, Job(c, d), start.now, turns[0].run);
        RunTokenIsIsolated(sha256, Job(c, d), Init(false, start.now), turns[0].run);
        var end := Repeated(sha256, c, d, start, turns[0].run);
        if end.main.Returned? {
          assert forall i :: 0 <= i < |turns[1..]| ==> turns[1..][i] == turns[i + 1];
          OneWorkerSeriesIsContained(sha256, c.(expected := Some(end.main.checksum)), deadline, left - 1,
                                     Moment(end.runToken, end.now), correct && end.main.correct, turns[1..]);
        }
      }
    }
  }

  /** With two workers or more, a deadline alone can end the first repetition, and with it the series,
      as a cancellation. */
  lemma TimeoutEscapesFromSeries(sha256: Bytes -> Bytes, c: Config, deadline: int, left: nat, now: int) returns (turns: seq<Turn>)
    requires ValidConfig(c) && c.workers >= 2 && now < deadline && left > 0
    ensures NobodyCancels(turns)
    ensures RunSeries(sha256, c, deadline, left, Moment(false, now), true, turns) == Broken(Interrupted(WorkloadCancelled))
  {
    hide Exec;
    var actions := TimeoutEscapesAsCancellation(sha256, Job(c, deadline), now);
    var turn := Turn([], [], [], [], actions);
    turns := [turn];
    assert Enter(Moment(false, now), deadline, turn) == Ok((deadline, Moment(false, now)));
  }

  /** In a series too, a deadline alone can end as a cancellation if and only if there is more than
      one worker. */
  lemma SeriesTimeoutsStayTimeoutsIffOneWorker(sha256: Bytes -> Bytes, c: Config, deadline: int, left: nat, now: int)
    requires ValidConfig(c) && now < deadline && left > 0
    ensures (exists turns :: NobodyCancels(turns) &&
                             RunSeries(sha256, c, deadline, left, Moment(false, now), true, turns) == Broken(Interrupted(WorkloadCancelled)))
            <==> c.workers >= 2
  {
    hide RunSeries;
    if c.workers >= 2 {
      var turns := TimeoutEscapesFromSeries(sha256, c, deadline, left, now);
    }
    forall turns | NobodyCancels(turns) &&
                   RunSeries(sha256, c, deadline, left, Moment(false, now), true, turns) == Broken(Interrupted(WorkloadCancelled))
      ensures c.workers >= 2
    {
      if c.workers == 1 {
        OneWorkerSeriesIsContained(sha256, c, deadline, left, Moment(false, now), true, turns);
      }
    }
  }
}
