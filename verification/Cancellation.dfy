/** How cancellation and timeouts travel through the concurrent workload. */
module Cancellation {
  import opened Models
  import opened ByteStrings
  import opened Control
  import opened IntegerHashing
  import opened Concurrency

  predicate NoCancel(actions: seq<Action>) {
    forall i :: 0 <= i < |actions| ==> !actions[i].CancelRun?
  }

  lemma {:induction false} ExecConcat(sha256: Bytes -> Bytes, job: Job, s: State, a: seq<Action>, b: seq<Action>)
    requires ValidConfig(job.config)
    ensures Exec(sha256, job, s, a + b) == Exec(sha256, job, Exec(sha256, job, s, a), b)
    decreases |a|
  {
    if a == [] {
      assert a + b == b;
    } else {
      assert (a + b)[0] == a[0] && (a + b)[1..] == a[1..] + b;
      ExecConcat(sha256, job, Step(sha256, job, s, a[0]), a[1..], b);
    }
  }

  // ---- Isolation of the run token ----

  /** No step of the workload ever sets the run token: after any schedule it is set exactly if it was
      set before or someone outside cancelled the run. */
  lemma {:induction false} RunTokenIsIsolated(sha256: Bytes -> Bytes, job: Job, s: State, actions: seq<Action>)
    requires ValidConfig(job.config)
    ensures Exec(sha256, job, s, actions).runToken <==> s.runToken || !NoCancel(actions)
    decreases |actions|
  {
    if actions != [] {
      RunTokenIsIsolated(sha256, job, Step(sha256, job, s, actions[0]), actions[1..]);
      assert forall i :: 0 <= i < |actions[1..]| ==> actions[1..][i] == actions[i + 1];
      assert NoCancel(actions) <==> !actions[0].CancelRun? && NoCancel(actions[1..]) by {
        if NoCancel(actions[1..]) && !actions[0].CancelRun? {
          forall i | 0 <= i < |actions|
            ensures !actions[i].CancelRun?
          {
            assert i > 0 ==> actions[i] == actions[1..][i - 1];
          }
        }
      }
    }
  }

  // ---- Cancellation is prompt ----

  /** A worker that has already read the token as clear may still hash the block in hand. */
  function BlockInHand(w: Worker): nat {
    if w.Running? && w.phase in {AtRunToken, AtClock, AtBlock} then 1 else 0
  }

  lemma {:induction false} PromptCancellation(sha256: Bytes -> Bytes, job: Job, s: State, actions: seq<Action>, i: nat)
    requires ValidConfig(job.config)
    requires s.token && i < |s.pool| && !s.main.Entering? && !s.main.Referencing?
    ensures var end := Exec(sha256, job, s, actions);
            && i < |end.pool|
            && end.pool[i].done + BlockInHand(end.pool[i]) <= s.pool[i].done + BlockInHand(s.pool[i])
    decreases |actions|
  {
    if actions != [] {
      PromptCancellation(sha256, job, Step(sha256, job, s, actions[0]), actions[1..], i);
    }
  }

  /** Once the child token is set, each worker completes at most one more block, whatever the schedule. */
  lemma AtMostOneMoreBlock(sha256: Bytes -> Bytes, job: Job, s: State, actions: seq<Action>, i: nat)
    requires ValidConfig(job.config)
    requires s.token && i < |s.pool| && !s.main.Entering? && !s.main.Referencing?
    ensures var end := Exec(sha256, job, s, actions);
            i < |end.pool| && end.pool[i].done <= s.pool[i].done + 1
  {
    PromptCancellation(sha256, job, s, actions, i);
  }

  /** The steps a worker can still take once the token is set. */
  function StepsToStop(w: Worker): nat {
    if !w.Running? then 0
    else
      match w.phase
      case AtToken => 1
      case AtCancel => 1
      case AtBlock => 2
      case AtClock => 3
      case AtRunToken => 4
  }

  function StepsOf(actions: seq<Action>, i: nat): nat {
    if actions == [] then 0 else (if actions[0] == WorkerStep(i) then 1 else 0) + StepsOf(actions[1..], i)
  }

  lemma {:induction false} StepsRunOut(sha256: Bytes -> Bytes, job: Job, s: State, actions: seq<Action>, i: nat)
    requires ValidConfig(job.config)
    requires s.token && i < |s.pool| && i < job.config.workers && !s.main.Entering? && !s.main.Referencing?
    ensures var w := Exec(sha256, job, s, actions).pool;
            i < |w| && (w[i].Running? ==> StepsToStop(w[i]) + StepsOf(actions, i) <= StepsToStop(s.pool[i]))
    decreases |actions|
  {
    hide BlockDigest, Counts, WorkerDigest, Concat;
    if actions != [] {
      StepsRunOut(sha256, job, Step(sha256, job, s, actions[0]), actions[1..], i);
    }
  }

  /** ... and then raises: once the child token is set, a worker that takes four more steps of its own
      is no longer running. It failed, unless the block in hand was the last of its count. */
  lemma WorkersStopOnceCancelled(sha256: Bytes -> Bytes, job: Job, s: State, actions: seq<Action>, i: nat)
    requires ValidConfig(job.config) && Consistent(sha256, job, s)
    requires s.token && i < |s.pool| && i < job.config.workers && !s.main.Entering? && !s.main.Referencing?
    requires StepsOf(actions, i) >= 4
    ensures var pool := Exec(sha256, job, s, actions).pool;
            && i < |pool|
            && (pool[i].Failed? || (pool[i].Finished? && pool[i].done == Counts(job)[i] <= s.pool[i].done + 1))
  {
    hide Exec, Counts, Stream, WorkerDigest, MainOk, StepsOf, WorkerOk;
    StepsRunOut(sha256, job, s, actions, i);
    AtMostOneMoreBlock(sha256, job, s, actions, i);
    ExecConsistent(sha256, job, s, actions);
    DoneOrCounting(sha256, job, i, Counts(job)[i], Exec(sha256, job, s, actions).pool[i]);
  }

  lemma DoneOrCounting(sha256: Bytes -> Bytes, job: Job, index: nat, count: nat, w: Worker)
    requires WorkerOk(sha256, job, index, count, w)
    ensures w.Finished? ==> w.done == count
  {
  }

  // ---- Who is to blame for a cancellation ----

  predicate SomeoneTimedOut(s: State) {
    exists i :: 0 <= i < |s.pool| && s.pool[i].Failed? && s.pool[i].why == WorkloadTimeout
  }

  predicate SomeoneCancelled(s: State) {
    exists i :: 0 <= i < |s.pool| && s.pool[i].Failed? && s.pool[i].why == WorkloadCancelled
  }

  predicate Over(m: Main) {
    m.Draining? || m.Escaped?
  }

  function Why(m: Main): Option<Interrupt> {
    match m
    case Cancelling(why) => Some(why)
    case Draining(why) => Some(why)
    case Escaped(why) => Some(why)
    case _ => None
  }

  /** Before the submitting thread gives up, only a timed-out thread has set the token; and a
      cancellation it reports goes back to the run token or to a worker that timed out. */
  ghost predicate Blame(s: State) {
    && (s.token && !Over(s.main) ==> SomeoneTimedOut(s) || (s.main.Referencing? && s.main.worker.Failed? && s.main.worker.why == WorkloadTimeout))
    && (SomeoneCancelled(s) && !Over(s.main) ==> s.runToken || SomeoneTimedOut(s))
    && (s.main.Referencing? && s.main.worker.Failed? && s.main.worker.why == WorkloadCancelled ==> s.runToken)
    && (s.main.Entering? || s.main.Referencing? ==> s.pool == [])
    && (Why(s.main) == Some(WorkloadCancelled) ==> s.runToken || (|s.pool| >= 2 && SomeoneTimedOut(s)))
  }

  lemma SomeoneTimedOutKept(s: State, t: State, i: nat)
    requires SomeoneTimedOut(s)
    requires |s.pool| == |t.pool| && (i < |s.pool| && t.pool == s.pool[i := t.pool[i]])
    requires s.pool[i].Failed? ==> t.pool[i] == s.pool[i]
    ensures SomeoneTimedOut(t)
  {
    var j :| 0 <= j < |s.pool| && s.pool[j].Failed? && s.pool[j].why == WorkloadTimeout;
    assert t.pool[j] == s.pool[j];
  }

  lemma WorkerStepBlame(sha256: Bytes -> Bytes, job: Job, s: State, i: nat)
    requires ValidConfig(job.config)
    requires Blame(s) && i < |s.pool| && i < job.config.workers
    ensures Blame(Step(sha256, job, s, WorkerStep(i)))
  {
    var t := Step(sha256, job, s, WorkerStep(i));
    hide BlockDigest, Counts;
    if SomeoneTimedOut(s) {
      SomeoneTimedOutKept(s, t, i);
    }
    if SetsToken(s.pool[i]) {
      assert t.pool[i].Failed? && t.pool[i].why == WorkloadTimeout;
    }
    if SomeoneCancelled(t) && !SomeoneCancelled(s) {
      var j :| 0 <= j < |t.pool| && t.pool[j].Failed? && t.pool[j].why == WorkloadCancelled;
      assert j == i;
      assert s.token || s.runToken;
    }
  }

  lemma MainStepBlame(sha256: Bytes -> Bytes, job: Job, s: State)
    requires ValidConfig(job.config)
    requires Blame(s) && Consistent(sha256, job, s)
    ensures Blame(MainResult(sha256, job, s))
  {
    hide BlockDigest, Counts, Stream, WorkerDigest, Digests, Reference, Concat;
    var t := MainResult(sha256, job, s);
    if s.main.Collecting? && t.main.Cancelling? && t.main.why == WorkloadCancelled {
      var k := |s.main.digests|;
      assert s.pool[k].Failed? && s.pool[k].why == WorkloadCancelled;
      assert SomeoneCancelled(s);
      if !s.runToken {
        var j :| 0 <= j < |s.pool| && s.pool[j].Failed? && s.pool[j].why == WorkloadTimeout;
        assert j != k;
      }
    }
  }

  lemma StepBlame(sha256: Bytes -> Bytes, job: Job, s: State, a: Action)
    requires ValidConfig(job.config)
    requires Blame(s) && Consistent(sha256, job, s)
    ensures Blame(Step(sha256, job, s, a))
  {
    match a
    case CancelRun =>
    case Tick(delta) =>
    case MainStep => MainStepBlame(sha256, job, s);
    case WorkerStep(i) =>
      if i < |s.pool| && i < job.config.workers {
        WorkerStepBlame(sha256, job, s, i);
      }
  }

  lemma {:induction false} ExecBlame(sha256: Bytes -> Bytes, job: Job, s: State, actions: seq<Action>)
    requires ValidConfig(job.config)
    requires Blame(s) && Consistent(sha256, job, s)
    ensures Blame(Exec(sha256, job, s, actions)) && Consistent(sha256, job, Exec(sha256, job, s, actions))
    decreases |actions|
  {
    if actions != [] {
      StepBlame(sha256, job, s, actions[0]);
      StepConsistent(sha256, job, s, actions[0]);
      ExecBlame(sha256, job, Step(sha256, job, s, actions[0]), actions[1..]);
    }
  }

  /** In every interleaving, a cancellation leaves the workload only if the run was cancelled or, with
      two workers or more, some worker hit the deadline. */
  lemma CancellationHasACause(sha256: Bytes -> Bytes, job: Job, now: int, actions: seq<Action>)
    requires ValidConfig(job.config)
    ensures var end := Exec(sha256, job, Init(false, now), actions);
            end.main == Escaped(WorkloadCancelled) ==>
              || !NoCancel(actions)
              || (job.config.workers >= 2 && SomeoneTimedOut(end))
  {
    ExecBlame(sha256, job, Init(false, now), actions);
    RunTokenIsIsolated(sha256, job, Init(false, now), actions);
  }

  // ---- Nobody is left behind ----

  lemma StepKeepsPoolIdle(sha256: Bytes -> Bytes, job: Job, s: State, a: Action)
    requires ValidConfig(job.config)
    requires s.main.Escaped? ==> forall i :: 0 <= i < |s.pool| ==> !s.pool[i].Running?
    requires s.main.Entering? || s.main.Referencing? ==> s.pool == []
    ensures var t := Step(sha256, job, s, a);
            && (t.main.Escaped? ==> forall i :: 0 <= i < |t.pool| ==> !t.pool[i].Running?)
            && (t.main.Entering? || t.main.Referencing? ==> t.pool == [])
  {
    hide BlockDigest, Counts, Concat;
  }

  /** When the workload has raised, every worker of its pool has ended. */
  lemma {:induction false} EscapedPoolIsIdle(sha256: Bytes -> Bytes, job: Job, s: State, actions: seq<Action>)
    requires ValidConfig(job.config)
    requires s.main.Escaped? ==> forall i :: 0 <= i < |s.pool| ==> !s.pool[i].Running?
    requires s.main.Entering? || s.main.Referencing? ==> s.pool == []
    ensures var end := Exec(sha256, job, s, actions);
            end.main.Escaped? ==> forall i :: 0 <= i < |end.pool| ==> !end.pool[i].Running?
    decreases |actions|
  {
    hide Step;
    if actions != [] {
      StepKeepsPoolIdle(sha256, job, s, actions[0]);
      EscapedPoolIsIdle(sha256, job, Step(sha256, job, s, actions[0]), actions[1..]);
    }
  }

  // ---- Termination ----

  function PhaseWeight(phase: Phase): nat {
    match phase
    case AtToken => 5
    case AtRunToken => 4
    case AtClock => 3
    case AtBlock => 2
    case AtCancel => 1
  }

  /** Steps a worker has left, at most. */
  function WorkerLeft(w: Worker, count: nat): nat {
    if w.Running? && w.done < count then 5 * (count - w.done - 1) + PhaseWeight(w.phase) else 0
  }

  function PoolLeft(pool: seq<Worker>, counts: seq<nat>): nat
    requires |pool| <= |counts|
  {
    if pool == [] then 0
    else
      var n := |pool| - 1;
      PoolLeft(pool[..n], counts) + WorkerLeft(pool[n], counts[n])
  }

  /** Steps a pool of `n` fresh workers takes, at most. */
  function FreshLeft(counts: seq<nat>, n: nat): nat
    requires n <= |counts|
  {
    if n == 0 then 0 else FreshLeft(counts, n - 1) + 5 * counts[n - 1]
  }

  /** Steps of sequential hashing left after `n` digests, each digest also being collected. */
  function ReferenceLeft(counts: seq<nat>, n: nat): nat
    requires n <= |counts|
    decreases |counts| - n
  {
    if n == |counts| then 0 else 5 * counts[n] + 1 + ReferenceLeft(counts, n + 1)
  }

  function MainLeft(job: Job, s: State): nat
    requires ValidConfig(job.config)
  {
    var counts := Counts(job);
    var pool := FreshLeft(counts, |counts|) + |counts| + 4;
    match s.main
    case Entering(phase) => PhaseWeight(phase) + ReferenceLeft(counts, 0) + pool
    case Referencing(w, digests) =>
      if |digests| < |counts| then WorkerLeft(w, counts[|digests|]) + 1 + ReferenceLeft(counts, |digests| + 1) + pool else pool
    case Collecting(digests, _) => 3 + if |digests| <= |counts| then |counts| - |digests| else 0
    case Cancelling(_) => 2
    case Draining(_) => 1
    case Returned(_, _) => 0
    case Escaped(_) => 0
  }

  /** Bounds the steps the workload can still take, whatever the schedule. */
  function Left(job: Job, s: State): nat
    requires ValidConfig(job.config)
  {
    MainLeft(job, s) + if |s.pool| <= job.config.workers then PoolLeft(s.pool, Counts(job)) else 0
  }

  lemma {:induction false} PoolLeftUpdate(pool: seq<Worker>, counts: seq<nat>, i: nat, w: Worker)
    requires i < |pool| <= |counts|
    ensures PoolLeft(pool[i := w], counts) == PoolLeft(pool, counts) - WorkerLeft(pool[i], counts[i]) + WorkerLeft(w, counts[i])
  {
    var n := |pool| - 1;
    if i == n {
      assert pool[i := w][..n] == pool[..n];
    } else {
      PoolLeftUpdate(pool[..n], counts, i, w);
      assert pool[i := w][..n] == pool[..n][i := w];
    }
  }

  lemma {:induction false} FreshPoolLeft(pool: seq<Worker>, counts: seq<nat>)
    requires |pool| <= |counts|
    requires forall i :: 0 <= i < |pool| ==> pool[i] == START
    requires forall i :: 0 <= i < |counts| ==> counts[i] >= 1
    ensures PoolLeft(pool, counts) == FreshLeft(counts, |pool|)
  {
    if pool != [] {
      FreshPoolLeft(pool[..|pool| - 1], counts);
    }
  }

  lemma AdvanceLeft(sha256: Bytes -> Bytes, job: Job, s: State, index: nat, count: nat, w: Worker)
    requires WorkerOk(sha256, job, index, count, w) && w.Running?
    ensures WorkerLeft(Advance(sha256, job, s, index, count, w), count) < WorkerLeft(w, count)
  {
    hide Stream, BlockDigest, WorkerDigest;
  }

  lemma WorkerStepLeft(sha256: Bytes -> Bytes, job: Job, s: State, i: nat)
    requires ValidConfig(job.config) && Consistent(sha256, job, s)
    requires Step(sha256, job, s, WorkerStep(i)) != s
    ensures Left(job, Step(sha256, job, s, WorkerStep(i))) < Left(job, s)
  {
    hide WorkerOk, Counts, PoolLeft, WorkerLeft;
    var counts, w := Counts(job), s.pool[i];
    var next := Advance(sha256, job, s, i, counts[i], w);
    assert s.pool[i := s.pool[i]] == s.pool;
    assert w.Running?;
    AdvanceLeft(sha256, job, s, i, counts[i], w);
    hide Advance;
    PoolLeftUpdate(s.pool, counts, i, next);
  }

  lemma EnterPoolLeft(sha256: Bytes -> Bytes, job: Job, s: State, expected: Bytes)
    requires ValidConfig(job.config)
    ensures Left(job, EnterPool(s, job, expected)) == FreshLeft(Counts(job), job.config.workers) + job.config.workers + 3
  {
    SplitIsFair(job.config.operations, job.config.workers);
    FreshPoolLeft(EnterPool(s, job, expected).pool, Counts(job));
  }

  lemma StartLeft(job: Job, n: nat)
    requires ValidConfig(job.config) && n < job.config.workers
    ensures WorkerLeft(START, Counts(job)[n]) == 5 * Counts(job)[n]
  {
    SplitIsFair(job.config.operations, job.config.workers);
  }

  lemma EnteringLeft(sha256: Bytes -> Bytes, job: Job, s: State)
    requires ValidConfig(job.config) && Consistent(sha256, job, s) && s.main.Entering?
    ensures Left(job, MainResult(sha256, job, s)) < Left(job, s)
            || MainResult(sha256, job, s) == s
  {
    hide Counts, WorkerLeft, FreshLeft, EnterPool;
    if s.main.phase == AtBlock {
      if job.config.expected.Some? {
        EnterPoolLeft(sha256, job, s, job.config.expected.value);
        hide Left;
        EnteringWeight(job, s);
      } else {
        StartLeft(job, 0);
      }
    }
  }

  lemma EnteringWeight(job: Job, s: State)
    requires ValidConfig(job.config) && s.main.Entering?
    ensures Left(job, s) > FreshLeft(Counts(job), job.config.workers) + job.config.workers + 3
  {
  }

  lemma ReferencingWeight(job: Job, s: State)
    requires ValidConfig(job.config) && s.main.Referencing?
    ensures Left(job, s) > FreshLeft(Counts(job), job.config.workers) + job.config.workers + 3
  {
  }

  lemma ReferencingLeft(sha256: Bytes -> Bytes, job: Job, s: State)
    requires ValidConfig(job.config) && Consistent(sha256, job, s) && s.main.Referencing?
    ensures Left(job, MainResult(sha256, job, s)) < Left(job, s)
  {
    hide Counts, WorkerLeft, FreshLeft, EnterPool, Advance, Digests, WorkerOk;
    var Referencing(w, digests) := s.main;
    if w.Finished? {
      var more := digests + [w.digest];
      if |more| >= job.config.workers {
        EnterPoolLeft(sha256, job, s, sha256(Concat(more)));
        ReferencingWeight(job, s);
        hide Left;
      } else {
        StartLeft(job, |more|);
      }
    } else if w.Running? {
      AdvanceLeft(sha256, job, s, |digests|, Counts(job)[|digests|], w);
    }
  }

  lemma MainStepLeft(sha256: Bytes -> Bytes, job: Job, s: State)
    requires ValidConfig(job.config) && Consistent(sha256, job, s)
    requires MainResult(sha256, job, s) != s
    ensures Left(job, MainResult(sha256, job, s)) < Left(job, s)
  {
    if s.main.Entering? {
      EnteringLeft(sha256, job, s);
    } else if s.main.Referencing? {
      ReferencingLeft(sha256, job, s);
    } else {
      hide MainResult, Left, Consistent;
      LateMainStepLeft(sha256, job, s);
    }
  }

  /** Collecting, cancelling and draining. */
  lemma LateMainStepLeft(sha256: Bytes -> Bytes, job: Job, s: State)
    requires ValidConfig(job.config) && Consistent(sha256, job, s)
    requires !s.main.Entering? && !s.main.Referencing?
    requires MainResult(sha256, job, s) != s
    ensures Left(job, MainResult(sha256, job, s)) < Left(job, s)
  {
    hide WorkerOk, Digests, Reference, Concat, Counts, WorkerLeft, Advance, FreshLeft, PoolLeft;
  }

  /** Steps of the workload's own threads that changed something. */
  function Effective(sha256: Bytes -> Bytes, job: Job, s: State, actions: seq<Action>): nat
    requires ValidConfig(job.config)
    decreases |actions|
  {
    if actions == [] then 0
    else
      var a, next := actions[0], Step(sha256, job, s, actions[0]);
      (if (a.MainStep? || a.WorkerStep?) && next != s then 1 else 0) + Effective(sha256, job, next, actions[1..])
  }

  lemma StepLeft(sha256: Bytes -> Bytes, job: Job, s: State, a: Action)
    requires ValidConfig(job.config) && Consistent(sha256, job, s)
    ensures var next := Step(sha256, job, s, a);
            Left(job, next) + (if (a.MainStep? || a.WorkerStep?) && next != s then 1 else 0) <= Left(job, s)
  {
    hide Consistent, MainResult, Advance, PoolLeft, FreshLeft;
    match a
    case CancelRun =>
    case Tick(_) =>
    case MainStep =>
      if Step(sha256, job, s, a) != s {
        MainStepLeft(sha256, job, s);
      }
    case WorkerStep(i) =>
      if Step(sha256, job, s, a) != s {
        WorkerStepLeft(sha256, job, s, i);
      }
  }

  /** Termination: no schedule makes the workload take more than `Left` effective steps. */
  lemma {:induction false} WorkloadTerminates(sha256: Bytes -> Bytes, job: Job, s: State, actions: seq<Action>)
    requires ValidConfig(job.config) && Consistent(sha256, job, s)
    ensures Effective(sha256, job, s, actions) + Left(job, Exec(sha256, job, s, actions)) <= Left(job, s)
    decreases |actions|
  {
    hide Consistent, Step, Left;
    if actions != [] {
      StepConsistent(sha256, job, s, actions[0]);
      StepLeft(sha256, job, s, actions[0]);
      WorkloadTerminates(sha256, job, Step(sha256, job, s, actions[0]), actions[1..]);
    }
  }

  /** No deadlock: until the workload returned or raised, some thread can take a step. */
  lemma SomeThreadCanStep(sha256: Bytes -> Bytes, job: Job, s: State)
    requires ValidConfig(job.config) && Consistent(sha256, job, s)
    requires !s.main.Returned? && !s.main.Escaped?
    ensures Step(sha256, job, s, MainStep) != s
            || exists i :: 0 <= i < |s.pool| && Step(sha256, job, s, WorkerStep(i)) != s
  {
    hide Stream, BlockDigest, WorkerDigest, Digests, Reference, Concat, Counts;
    if s.main.Collecting? && |s.main.digests| < |s.pool| && s.pool[|s.main.digests|].Running? {
      RunningCanStep(sha256, job, s, |s.main.digests|);
    }
    if s.main.Draining? && !PoolIdle(s) {
      var i :| 0 <= i < |s.pool| && s.pool[i].Running?;
      RunningCanStep(sha256, job, s, i);
    }
  }

  lemma RunningCanStep(sha256: Bytes -> Bytes, job: Job, s: State, i: nat)
    requires ValidConfig(job.config)
    requires i < |s.pool| && i < job.config.workers && s.pool[i].Running?
    ensures Step(sha256, job, s, WorkerStep(i)) != s
  {
    hide BlockDigest, Counts;
    var t := Step(sha256, job, s, WorkerStep(i));
    assert t.pool[i] != s.pool[i];
  }

  // ---- A timeout that escapes as a cancellation ----

  lemma ExecOne(sha256: Bytes -> Bytes, job: Job, s: State, a: Action)
    requires ValidConfig(job.config)
    ensures Exec(sha256, job, s, [a]) == Step(sha256, job, s, a)
  {
    assert [a][1..] == [];
    assert Exec(sha256, job, Step(sha256, job, s, a), []) == Step(sha256, job, s, a);
  }

  lemma ExecSnoc(sha256: Bytes -> Bytes, job: Job, s: State, actions: seq<Action>, a: Action)
    requires ValidConfig(job.config)
    ensures Exec(sha256, job, s, actions + [a]) == Step(sha256, job, Exec(sha256, job, s, actions), a)
  {
    ExecConcat(sha256, job, s, actions, [a]);
    ExecOne(sha256, job, Exec(sha256, job, s, actions), a);
  }

  /** The submitting thread is still on its way to the pool, in time and undisturbed. */
  ghost predicate OnTheWay(job: Job, s: State) {
    && !s.token && !s.runToken && s.now < job.deadline
    && (s.main.Entering? || s.main.Referencing?)
    && (s.main.Entering? ==> s.main.phase != AtCancel)
    && (s.main.Referencing? ==> !s.main.worker.Failed? && !SetsToken(s.main.worker))
  }

  ghost predicate AtFreshPool(job: Job, s: State, now: int) {
    && !s.token && !s.runToken && s.now == now
    && s.main.Collecting? && s.main.digests == []
    && s.pool == seq(job.config.workers, i => START)
  }

  lemma MainStepOnTheWay(sha256: Bytes -> Bytes, job: Job, s: State)
    requires ValidConfig(job.config) && Consistent(sha256, job, s) && OnTheWay(job, s)
    ensures var t := MainResult(sha256, job, s);
            (OnTheWay(job, t) && t.now == s.now && t != s) || AtFreshPool(job, t, s.now)
  {
    hide Stream, BlockDigest, WorkerDigest, Digests, Reference, Concat, Counts;
    var t := MainResult(sha256, job, s);
    if s.main.Referencing? && s.main.worker.Running? {
      assert t.main.worker != s.main.worker;
    }
  }

  lemma ReachPool(sha256: Bytes -> Bytes, job: Job, s: State) returns (actions: seq<Action>)
    requires ValidConfig(job.config) && Consistent(sha256, job, s) && OnTheWay(job, s)
    ensures NoCancel(actions) && AtFreshPool(job, Exec(sha256, job, s, actions), s.now)
    decreases Left(job, s)
  {
    hide Consistent, OnTheWay, AtFreshPool, Left, MainResult;
    var t := Step(sha256, job, s, MainStep);
    MainStepOnTheWay(sha256, job, s);
    if AtFreshPool(job, t, s.now) {
      actions := [MainStep];
      ExecOne(sha256, job, s, MainStep);
    } else {
      StepConsistent(sha256, job, s, MainStep);
      MainStepLeft(sha256, job, s);
      var rest := ReachPool(sha256, job, t);
      actions := [MainStep] + rest;
      ExecConcat(sha256, job, s, [MainStep], rest);
      ExecOne(sha256, job, s, MainStep);
    }
  }

  /** With the token set, fresh workers raise at their first checkpoint and the pool drains. */
  lemma DrainPool(sha256: Bytes -> Bytes, job: Job, s: State, i: nat) returns (actions: seq<Action>)
    requires ValidConfig(job.config) && i <= job.config.workers == |s.pool|
    requires s.token && s.main.Draining?
    requires forall j :: 0 <= j < i ==> !s.pool[j].Running?
    requires forall j :: i <= j < |s.pool| ==> s.pool[j] == START
    ensures NoCancel(actions) && Exec(sha256, job, s, actions).main == Escaped(s.main.why)
    decreases job.config.workers - i
  {
    if i == job.config.workers {
      actions := [MainStep];
      ExecOne(sha256, job, s, MainStep);
    } else {
      var a := WorkerStep(i);
      var t := Step(sha256, job, s, a);
      assert t.pool[i] == Failed(0, WorkloadCancelled);
      var rest := DrainPool(sha256, job, t, i + 1);
      actions := [a] + rest;
      ExecConcat(sha256, job, s, [a], rest);
      ExecOne(sha256, job, s, a);
    }
  }

  /** Worker 1 times out and sets the token; worker 0 then raises the cancellation that the first
      future reports. */
  lemma SecondWorkerTimesOut(sha256: Bytes -> Bytes, job: Job, s: State, now: int) returns (actions: seq<Action>)
    requires ValidConfig(job.config) && job.config.workers >= 2 && now < job.deadline
    requires AtFreshPool(job, s, now)
    ensures NoCancel(actions)
    ensures var end := Exec(sha256, job, s, actions);
            && |end.pool| == job.config.workers && end.token
            && end.main == Draining(WorkloadCancelled)
            && !end.pool[0].Running? && !end.pool[1].Running?
            && forall j :: 2 <= j < |end.pool| ==> end.pool[j] == START
  {
    hide Counts, BlockDigest;
    var s1 := Step(sha256, job, s, Tick(job.deadline - now));
    var s2 := Step(sha256, job, s1, WorkerStep(1));
    var s3 := Step(sha256, job, s2, WorkerStep(1));
    var s4 := Step(sha256, job, s3, WorkerStep(1));
    assert s4.pool[1] == Running(AtCancel, 0, []);
    var s5 := Step(sha256, job, s4, WorkerStep(1));
    assert s5.token && s5.pool[1] == Failed(0, WorkloadTimeout);
    var s6 := Step(sha256, job, s5, WorkerStep(0));
    assert s6.pool[0] == Failed(0, WorkloadCancelled);
    var s7 := Step(sha256, job, s6, MainStep);
    var s8 := Step(sha256, job, s7, MainStep);
    assert s8.main == Draining(WorkloadCancelled);
    hide Step;
    actions := [Tick(job.deadline - now)];
    ExecOne(sha256, job, s, actions[0]);
    ExecSnoc(sha256, job, s, actions, WorkerStep(1));
    actions := actions + [WorkerStep(1)];
    ExecSnoc(sha256, job, s, actions, WorkerStep(1));
    actions := actions + [WorkerStep(1)];
    ExecSnoc(sha256, job, s, actions, WorkerStep(1));
    actions := actions + [WorkerStep(1)];
    ExecSnoc(sha256, job, s, actions, WorkerStep(1));
    actions := actions + [WorkerStep(1)];
    ExecSnoc(sha256, job, s, actions, WorkerStep(0));
    actions := actions + [WorkerStep(0)];
    ExecSnoc(sha256, job, s, actions, MainStep);
    actions := actions + [MainStep];
    ExecSnoc(sha256, job, s, actions, MainStep);
    actions := actions + [MainStep];
  }

  /** With two workers or more, a deadline alone, with nobody cancelling, can leave the workload as
      a cancellation. */
  lemma TimeoutEscapesAsCancellation(sha256: Bytes -> Bytes, job: Job, now: int) returns (actions: seq<Action>)
    requires ValidConfig(job.config) && job.config.workers >= 2 && now < job.deadline
    ensures NoCancel(actions)
    ensures Exec(sha256, job, Init(false, now), actions).main == Escaped(WorkloadCancelled)
  {
    var s := Init(false, now);
    var first := ReachPool(sha256, job, s);
    var t := Exec(sha256, job, s, first);
    var second := SecondWorkerTimesOut(sha256, job, t, now);
    var u := Exec(sha256, job, t, second);
    var third := DrainPool(sha256, job, u, 2);
    actions := first + second + third;
    ExecConcat(sha256, job, s, first, second);
    ExecConcat(sha256, job, s, first + second, third);
  }

  /** A timeout can be reported as a cancellation of the whole run exactly when the workload has
      more than one worker. */
  lemma TimeoutsStayTimeoutsIffOneWorker(sha256: Bytes -> Bytes, job: Job, now: int)
    requires ValidConfig(job.config) && now < job.deadline
    ensures (exists actions :: NoCancel(actions) && Exec(sha256, job, Init(false, now), actions).main == Escaped(WorkloadCancelled))
            <==> job.config.workers >= 2
  {
    if job.config.workers >= 2 {
      var actions := TimeoutEscapesAsCancellation(sha256, job, now);
    }
    forall actions | NoCancel(actions) && Exec(sha256, job, Init(false, now), actions).main == Escaped(WorkloadCancelled)
      ensures job.config.workers >= 2
    {
      CancellationHasACause(sha256, job, now, actions);
    }
  }
}
