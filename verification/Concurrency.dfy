/** The integer workload as processes under an arbitrary scheduler: the submitting thread and one
    worker per digest share a child token, a run token above it and a clock. Every read of a token or
    the clock, every token write and every hashed block is a separate step. */
module Concurrency {
  import opened Models
  import opened ByteStrings
  import opened Control
  import opened IntegerHashing

  /** Where a thread stands in its loop body: reading its own token, the run token, the clock,
      about to cancel its token, or about to hash. */
  datatype Phase = AtToken | AtRunToken | AtClock | AtCancel | AtBlock

  /** `done` counts the blocks hashed so far. */
  datatype Worker =
    | Running(phase: Phase, done: nat, stream: Bytes)
    | Finished(done: nat, digest: Bytes)
    | Failed(done: nat, why: Interrupt)

  /** The submitting thread: its own checkpoint, the sequential reference, collecting the futures
      in order, and after an exception cancelling the token and waiting for the pool. */
  datatype Main =
    | Entering(phase: Phase)
    | Referencing(worker: Worker, digests: seq<Bytes>)
    | Collecting(digests: seq<Bytes>, expected: Bytes)
    | Cancelling(why: Interrupt)
    | Draining(why: Interrupt)
    | Returned(checksum: Bytes, correct: bool)
    | Escaped(why: Interrupt)

  datatype State = State(token: bool, runToken: bool, now: int, main: Main, pool: seq<Worker>)

  datatype Job = Job(config: Config, deadline: int)

  datatype Action = CancelRun | Tick(delta: nat) | MainStep | WorkerStep(index: nat)

  const START := Running(AtToken, 0, [])

  function Counts(job: Job): (counts: seq<nat>)
    requires ValidConfig(job.config)
    ensures |counts| == job.config.workers
  {
    OperationCounts(job.config.operations, job.config.workers)
  }

  function Init(runToken: bool, now: int): State {
    State(false, runToken, now, Entering(AtToken), [])
  }

  // ---- Steps ----

  /** One step of a checkpoint; `AtBlock` means it passed. */
  function CheckStep(job: Job, s: State, phase: Phase): Result<Phase, Interrupt> {
    match phase
    case AtToken => if s.token then Err(WorkloadCancelled) else Ok(AtRunToken)
    case AtRunToken => if s.runToken then Err(WorkloadCancelled) else Ok(AtClock)
    case AtClock => if s.now >= job.deadline then Ok(AtCancel) else Ok(AtBlock)
    case AtCancel => Err(WorkloadTimeout)
    case AtBlock => Ok(AtBlock)
  }

  /** One step of a worker that has `count` blocks to hash. */
  function Advance(sha256: Bytes -> Bytes, job: Job, s: State, index: nat, count: nat, w: Worker): Worker {
    if !w.Running? then w
    else if w.phase == AtBlock then
      var stream := w.stream + BlockDigest(sha256, index, job.config.blockSize, w.done);
      if w.done + 1 >= count then Finished(w.done + 1, sha256(stream)) else Running(AtToken, w.done + 1, stream)
    else
      match CheckStep(job, s, w.phase)
      case Ok(phase) => w.(phase := phase)
      case Err(why) => Failed(w.done, why)
  }

  /** A thread that finds the deadline passed sets the shared token. */
  predicate SetsToken(w: Worker) {
    w.Running? && w.phase == AtCancel
  }

  function EnterPool(s: State, job: Job, expected: Bytes): State
    requires ValidConfig(job.config)
  {
    s.(main := Collecting([], expected), pool := seq(job.config.workers, i => START))
  }

  predicate PoolIdle(s: State) {
    forall i :: 0 <= i < |s.pool| ==> !s.pool[i].Running?
  }

  function MainResult(sha256: Bytes -> Bytes, job: Job, s: State): State
    requires ValidConfig(job.config)
  {
    match s.main
    case Entering(phase) =>
      if phase == AtBlock then
        if job.config.expected.Some? then EnterPool(s, job, job.config.expected.value)
        else s.(main := Referencing(START, []))
      else
        (match CheckStep(job, s, phase)
         case Ok(next) => s.(main := Entering(next))
         case Err(why) => s.(main := Escaped(why), token := s.token || phase == AtCancel))
    case Referencing(w, digests) =>
      (match w
       case Finished(_, digest) =>
         var more := digests + [digest];
         if |more| >= job.config.workers then EnterPool(s, job, sha256(Concat(more)))
         else s.(main := Referencing(START, more))
       case Failed(_, why) => s.(main := Escaped(why))
       case Running(_, _, _) =>
         if |digests| < job.config.workers then
           s.(main := Referencing(Advance(sha256, job, s, |digests|, Counts(job)[|digests|], w), digests),
              token := s.token || SetsToken(w))
         else s)
    case Collecting(digests, expected) =>
      if |digests| >= |s.pool| then
        var checksum := sha256(Concat(digests));
        s.(main := Returned(checksum, checksum == expected))
      else
        (match s.pool[|digests|]
         case Finished(_, digest) => s.(main := Collecting(digests + [digest], expected))
         case Failed(_, why) => s.(main := Cancelling(why))
         case Running(_, _, _) => s)
    case Cancelling(why) => s.(main := Draining(why), token := true)
    case Draining(why) => if PoolIdle(s) then s.(main := Escaped(why)) else s
    case Returned(_, _) => s
    case Escaped(_) => s
  }

  /** A disabled action leaves the state as it is. */
  function Step(sha256: Bytes -> Bytes, job: Job, s: State, a: Action): State
    requires ValidConfig(job.config)
  {
    match a
    case CancelRun => s.(runToken := true)
    case Tick(delta) => s.(now := s.now + delta)
    case MainStep => MainResult(sha256, job, s)
    case WorkerStep(i) =>
      if i < |s.pool| && i < job.config.workers then
        s.(pool := s.pool[i := Advance(sha256, job, s, i, Counts(job)[i], s.pool[i])],
           token := s.token || SetsToken(s.pool[i]))
      else s
  }

  function Exec(sha256: Bytes -> Bytes, job: Job, s: State, actions: seq<Action>): State
    requires ValidConfig(job.config)
    decreases |actions|
  {
    if actions == [] then s else Exec(sha256, job, Step(sha256, job, s, actions[0]), actions[1..])
  }

  // ---- Schedule independence ----

  ghost predicate WorkerOk(sha256: Bytes -> Bytes, job: Job, index: nat, count: nat, w: Worker) {
    match w
    case Running(_, done, stream) => done < count && stream == Stream(sha256, index, job.config.blockSize, done)
    case Finished(done, digest) => done == count && digest == WorkerDigest(sha256, index, job.config.blockSize, count)
    case Failed(done, _) => done < count
  }

  ghost predicate MainOk(sha256: Bytes -> Bytes, job: Job, s: State)
    requires ValidConfig(job.config)
  {
    var c := job.config;
    match s.main
    case Entering(_) => s.pool == []
    case Referencing(w, digests) =>
      && s.pool == [] && c.expected.None?
      && |digests| < c.workers && digests == Digests(sha256, c, |digests|)
      && WorkerOk(sha256, job, |digests|, Counts(job)[|digests|], w)
    case Collecting(digests, expected) =>
      && |s.pool| == c.workers
      && |digests| <= c.workers && digests == Digests(sha256, c, |digests|)
      && expected == (if c.expected.Some? then c.expected.value else Reference(sha256, c))
    case Returned(checksum, correct) =>
      && |s.pool| == c.workers
      && checksum == Reference(sha256, c)
      && (correct <==> c.expected.None? || c.expected.value == checksum)
    case Cancelling(_) => |s.pool| == c.workers
    case Draining(_) => |s.pool| == c.workers
    case Escaped(_) => |s.pool| == 0 || |s.pool| == c.workers
  }

  ghost predicate Consistent(sha256: Bytes -> Bytes, job: Job, s: State)
    requires ValidConfig(job.config)
  {
    && (forall i :: 0 <= i < |s.pool| && i < job.config.workers ==> WorkerOk(sha256, job, i, Counts(job)[i], s.pool[i]))
    && MainOk(sha256, job, s)
  }

  lemma AdvanceOk(sha256: Bytes -> Bytes, job: Job, s: State, index: nat, count: nat, w: Worker)
    requires WorkerOk(sha256, job, index, count, w)
    ensures WorkerOk(sha256, job, index, count, Advance(sha256, job, s, index, count, w))
  {
  }

  lemma DigestsStep(sha256: Bytes -> Bytes, c: Config, n: nat)
    requires ValidConfig(c) && n < c.workers
    ensures Digests(sha256, c, n + 1) ==
            Digests(sha256, c, n) + [WorkerDigest(sha256, n, c.blockSize, OperationCounts(c.operations, c.workers)[n])]
  {
  }

  lemma StartOk(sha256: Bytes -> Bytes, job: Job, index: nat)
    requires ValidConfig(job.config) && index < job.config.workers
    ensures WorkerOk(sha256, job, index, Counts(job)[index], START)
  {
    SplitIsFair(job.config.operations, job.config.workers);
  }

  lemma EnterPoolOk(sha256: Bytes -> Bytes, job: Job, s: State, expected: Bytes)
    requires ValidConfig(job.config)
    requires expected == (if job.config.expected.Some? then job.config.expected.value else Reference(sha256, job.config))
    ensures Consistent(sha256, job, EnterPool(s, job, expected))
  {
    hide WorkerOk, Reference, Counts;
    forall i: nat | i < job.config.workers
      ensures WorkerOk(sha256, job, i, Counts(job)[i], START)
    {
      StartOk(sha256, job, i);
    }
  }

  lemma ReferencingOk(sha256: Bytes -> Bytes, job: Job, s: State)
    requires ValidConfig(job.config) && Consistent(sha256, job, s) && s.main.Referencing?
    ensures Consistent(sha256, job, MainResult(sha256, job, s))
  {
    var Referencing(w, digests) := s.main;
    DigestsStep(sha256, job.config, |digests|);
    match w
    case Finished(_, digest) =>
      var more := digests + [digest];
      assert more == Digests(sha256, job.config, |more|);
      if |more| >= job.config.workers {
        EnterPoolOk(sha256, job, s, sha256(Concat(more)));
      } else {
        StartOk(sha256, job, |more|);
      }
    case Failed(_, _) =>
    case Running(_, _, _) =>
      hide Digests, WorkerOk, Advance, Counts;
      AdvanceOk(sha256, job, s, |digests|, Counts(job)[|digests|], w);
  }

  lemma CollectingOk(sha256: Bytes -> Bytes, job: Job, s: State)
    requires ValidConfig(job.config) && Consistent(sha256, job, s) && s.main.Collecting?
    ensures Consistent(sha256, job, MainResult(sha256, job, s))
  {
    hide Digests, WorkerDigest, Stream;
    var c, n := job.config, |s.main.digests|;
    if n < c.workers {
      DigestsStep(sha256, c, n);
      assert WorkerOk(sha256, job, n, Counts(job)[n], s.pool[n]);
      assert s.pool[n].Finished? ==> s.main.digests + [s.pool[n].digest] == Digests(sha256, c, n + 1);
    } else {
      assert sha256(Concat(s.main.digests)) == Reference(sha256, c);
    }
    hide Counts, OperationCounts, Reference, Concat, WorkerOk;
  }

  lemma MainStepConsistent(sha256: Bytes -> Bytes, job: Job, s: State)
    requires ValidConfig(job.config) && Consistent(sha256, job, s)
    ensures Consistent(sha256, job, MainResult(sha256, job, s))
  {
    hide WorkerOk, Advance;
    if s.main.Referencing? {
      ReferencingOk(sha256, job, s);
    } else if s.main.Collecting? {
      CollectingOk(sha256, job, s);
    } else if s.main.Entering? && s.main.phase == AtBlock {
      if job.config.expected.Some? {
        EnterPoolOk(sha256, job, s, job.config.expected.value);
      } else {
        StartOk(sha256, job, 0);
      }
    }
  }

  lemma StepConsistent(sha256: Bytes -> Bytes, job: Job, s: State, a: Action)
    requires ValidConfig(job.config) && Consistent(sha256, job, s)
    ensures Consistent(sha256, job, Step(sha256, job, s, a))
  {
    match a
    case CancelRun =>
    case Tick(delta) =>
    case MainStep => MainStepConsistent(sha256, job, s);
    case WorkerStep(i) =>
      if i < |s.pool| && i < job.config.workers {
        AdvanceOk(sha256, job, s, i, Counts(job)[i], s.pool[i]);
      }
  }

  lemma {:induction false} ExecConsistent(sha256: Bytes -> Bytes, job: Job, s: State, actions: seq<Action>)
    requires ValidConfig(job.config) && Consistent(sha256, job, s)
    ensures Consistent(sha256, job, Exec(sha256, job, s, actions))
    decreases |actions|
  {
    if actions != [] {
      StepConsistent(sha256, job, s, actions[0]);
      ExecConsistent(sha256, job, Step(sha256, job, s, actions[0]), actions[1..]);
    }
  }

  /** Under every schedule in which the workload returns, its checksum is the sequential reference,
      and it is judged correct exactly when no checksum was expected or the expected one is that
      reference. */
  lemma ScheduleIndependence(sha256: Bytes -> Bytes, job: Job, runToken: bool, now: int, actions: seq<Action>)
    requires ValidConfig(job.config)
    ensures var end := Exec(sha256, job, Init(runToken, now), actions).main;
            end.Returned? ==>
              && end.checksum == Reference(sha256, job.config)
              && (end.correct <==> job.config.expected.None? || job.config.expected.value == Reference(sha256, job.config))
  {
    ExecConsistent(sha256, job, Init(runToken, now), actions);
  }
}
