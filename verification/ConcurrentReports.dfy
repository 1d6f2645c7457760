/** Two processes write the same report of the same stored run at the same time. Every look at the
    directory, every file operation and the transaction is a separate step; no step is interrupted. */
module ConcurrentReports {
  import opened Models

  /** Whose payload a file holds, and whether all of it. */
  datatype Content = Content(writer: nat, whole: bool)

  /** The next step of a call: the two looks, the exclusive open, the write, the rename, the insert;
      in the handler, a look and a removal for the temporary file and for the artifact. */
  datatype Next =
    | LookForFile | LookForTemp | OpenTemp | WriteTemp | Rename | Register
    | SeeTemp | RemoveTemp | SeeFile | RemoveFile
    | Returned | Raised

  datatype Writer = Writer(next: Next, created: bool)

  /** `row` is the call whose hash and length are registered. */
  datatype State = State(file: Option<Content>, temp: Option<Content>, row: Option<nat>, writers: seq<Writer>)

  const START := State(None, None, None, [Writer(LookForFile, false), Writer(LookForFile, false)])

  /** The temporary file is open in another process. */
  predicate OpenElsewhere(s: State, i: nat) {
    exists j :: 0 <= j < |s.writers| && j != i && s.writers[j].next == WriteTemp && s.temp.Some? && s.temp.value.writer == j
  }

  function Go(s: State, i: nat, next: Next): (t: State)
    requires i < |s.writers|
    ensures |t.writers| == |s.writers|
  {
    s.(writers := s.writers[i := s.writers[i].(next := next)])
  }

  /** One step of one call. Some systems refuse to remove an open file (`locks`); on the others the
      writer goes on writing to a file without a name. A finished call does nothing. */
  function Step(s: State, i: nat, locks: bool): (t: State)
    requires i < |s.writers|
    ensures |t.writers| == |s.writers|
  {
    match s.writers[i].next
    case LookForFile => Go(s, i, if s.file.Some? then Raised else LookForTemp)
    case LookForTemp => Go(s, i, if s.temp.Some? then Raised else OpenTemp)
    case OpenTemp => if s.temp.Some? then Go(s, i, SeeTemp) else Go(s.(temp := Some(Content(i, false))), i, WriteTemp)
    case WriteTemp =>
      var mine := s.temp.Some? && s.temp.value.writer == i;
      Go(if mine then s.(temp := Some(Content(i, true))) else s, i, Rename)
    case Rename =>
      if s.temp.None? then Go(s, i, SeeTemp)
      else s.(file := s.temp, temp := None, writers := s.writers[i := Writer(Register, true)])
    case Register => if s.row.Some? then Go(s, i, SeeTemp) else Go(s.(row := Some(i)), i, Returned)
    case SeeTemp => Go(s, i, if s.temp.Some? then RemoveTemp else SeeFile)
    case RemoveTemp =>
      if s.temp.None? || (locks && OpenElsewhere(s, i)) then Go(s, i, Raised) else Go(s.(temp := None), i, SeeFile)
    case SeeFile => Go(s, i, if s.writers[i].created && s.file.Some? then RemoveFile else Raised)
    case RemoveFile => Go(s.(file := None), i, Raised)
    case Returned => s
    case Raised => s
  }

  /** A schedule of `n` calls. */
  predicate Schedule(steps: seq<nat>, n: nat) {
    forall k :: 0 <= k < |steps| ==> steps[k] < n
  }

  function Run(s: State, steps: seq<nat>, locks: bool): (t: State)
    requires Schedule(steps, |s.writers|)
    ensures |t.writers| == |s.writers|
    decreases |steps|
  {
    if steps == [] then s
    else
      assert Schedule(steps[1..], |s.writers|) by { assert forall k :: 0 <= k < |steps[1..]| ==> steps[1..][k] == steps[k + 1]; }
      Run(Step(s, steps[0], locks), steps[1..], locks)
  }

  /** This step renames while the other call stands between its look for the artifact and its open. */
  predicate RenamesPast(s: State, i: nat)
    requires |s.writers| == 2 && i < 2
  {
    && s.writers[i].next == Rename && s.temp.Some?
    && s.writers[1 - i].next in {LookForTemp, OpenTemp}
  }

  /** Some step of the schedule does. */
  predicate Overtakes(s: State, steps: seq<nat>, locks: bool)
    requires |s.writers| == 2 && Schedule(steps, 2)
    decreases |steps|
  {
    if steps == [] then false
    else
      assert Schedule(steps[1..], 2) by { assert forall k :: 0 <= k < |steps[1..]| ==> steps[1..][k] == steps[k + 1]; }
      RenamesPast(s, steps[0]) || Overtakes(Step(s, steps[0], locks), steps[1..], locks)
  }

  // ---- What every step keeps ----

  /** Where a call can be before and after its own rename. */
  predicate WellPlaced(w: Writer) {
    if w.created then w.next in {Register, SeeTemp, RemoveTemp, SeeFile, RemoveFile, Returned, Raised}
    else w.next !in {Register, RemoveFile, Returned}
  }

  /** No rename has overtaken the other call: at most one call has renamed, the artifact is its
      payload, and the temporary file belongs to the call that is writing it, unless the other call's
      handler removed it. */
  ghost predicate InTurn(s: State, i: nat)
    requires |s.writers| == 2 && i < 2
  {
    var me, other := s.writers[i], s.writers[1 - i];
    && WellPlaced(me)
    && (me.next in {WriteTemp, Rename} ==>
          || s.temp == Some(Content(i, me.next == Rename))
          || (s.temp.None? && other.next in {SeeFile, Raised} && !other.created))
    && (s.temp.Some? && s.temp.value.writer == i ==> me.next in {WriteTemp, Rename})
    && (me.created ==>
          && me.next in {Register, Returned}
          && s.file == Some(Content(i, true)) && s.temp.None?
          && !other.created && other.next in {LookForFile, SeeTemp, RemoveTemp, SeeFile, Raised})
    && (s.row == Some(i) <==> me.next == Returned)
  }

  ghost predicate Before(s: State) {
    && |s.writers| == 2
    && InTurn(s, 0) && InTurn(s, 1)
    && (s.file.Some? ==> s.writers[0].created || s.writers[1].created)
    && (s.temp.Some? ==> s.temp.value.writer < 2)
    && (s.row.Some? ==> s.row.value < 2)
  }

  /** Call `first` has renamed past the other one, which goes on to rename as well; one of them is
      registered and the other one's handler removes the artifact. */
  ghost predicate Behind(s: State, first: nat)
    requires |s.writers| == 2 && first < 2
  {
    var a, b, second := s.writers[first], s.writers[1 - first], 1 - first;
    && WellPlaced(a) && WellPlaced(b) && a.created
    && (if !b.created then
          && a.next in {Register, Returned}
          && s.row == (if a.next == Returned then Some(first) else None)
          && s.file == Some(Content(first, true))
          && b.next in {LookForTemp, OpenTemp, WriteTemp, Rename}
          && s.temp == (if b.next == WriteTemp then Some(Content(second, false))
                        else if b.next == Rename then Some(Content(second, true)) else None)
        else
          && s.temp.None?
          && ((s.row.None? && a.next == b.next == Register && s.file.Some?)
              || (s.row == Some(first) && a.next == Returned && Cleaning(b, s.file))
              || (s.row == Some(second) && b.next == Returned && Cleaning(a, s.file))))
  }

  /** A call whose row was refused, on its way through the handler. */
  predicate Cleaning(w: Writer, file: Option<Content>) {
    && w.next in {Register, SeeTemp, SeeFile, RemoveFile, Raised}
    && (file.None? <==> w.next == Raised)
  }

  ghost predicate After(s: State) {
    |s.writers| == 2 && (Behind(s, 0) || Behind(s, 1))
  }

  lemma MoverInTurn(s: State, i: nat, locks: bool)
    requires Before(s) && i < 2 && !RenamesPast(s, i)
    ensures InTurn(Step(s, i, locks), i)
  {
    assert InTurn(s, i) && InTurn(s, 1 - i);
  }

  lemma OtherInTurn(s: State, i: nat, locks: bool)
    requires Before(s) && i < 2 && !RenamesPast(s, i)
    ensures InTurn(Step(s, i, locks), 1 - i)
  {
    assert InTurn(s, i) && InTurn(s, 1 - i);
  }

  lemma FilesHaveOwners(s: State, i: nat, locks: bool)
    requires Before(s) && i < 2 && !RenamesPast(s, i)
    ensures var t := Step(s, i, locks);
            && (t.file.Some? ==> t.writers[0].created || t.writers[1].created)
            && (t.temp.Some? ==> t.temp.value.writer < 2)
            && (t.row.Some? ==> t.row.value < 2)
  {
  }

  lemma BeforeStep(s: State, i: nat, locks: bool)
    requires Before(s) && i < 2 && !RenamesPast(s, i)
    ensures Before(Step(s, i, locks))
  {
    MoverInTurn(s, i, locks);
    OtherInTurn(s, i, locks);
    FilesHaveOwners(s, i, locks);
    hide Step, InTurn;
  }

  lemma OvertakingStep(s: State, i: nat, locks: bool)
    requires Before(s) && i < 2 && RenamesPast(s, i)
    ensures Behind(Step(s, i, locks), i)
  {
    assert InTurn(s, i) && InTurn(s, 1 - i);
  }

  lemma BehindStep(s: State, first: nat, i: nat, locks: bool)
    requires |s.writers| == 2 && first < 2 && i < 2 && Behind(s, first)
    ensures Behind(Step(s, i, locks), first)
    ensures !RenamesPast(s, i)
  {
    if i == first {
      FirstMoves(s, first, locks);
    } else {
      SecondMoves(s, first, locks);
    }
    hide Step, Cleaning;
  }

  lemma FirstMoves(s: State, first: nat, locks: bool)
    requires |s.writers| == 2 && first < 2 && Behind(s, first)
    ensures Behind(Step(s, first, locks), first)
  {
  }

  lemma SecondMoves(s: State, first: nat, locks: bool)
    requires |s.writers| == 2 && first < 2 && Behind(s, first)
    ensures Behind(Step(s, 1 - first, locks), first)
  {
  }

  lemma {:induction false} RunKeeps(s: State, steps: seq<nat>, locks: bool)
    requires Schedule(steps, 2) && |s.writers| == 2
    requires Before(s)
    ensures if Overtakes(s, steps, locks) then After(Run(s, steps, locks)) else Before(Run(s, steps, locks))
    decreases |steps|
  {
    hide Before, After, Step, RenamesPast;
    if steps != [] {
      var i, t := steps[0], Step(s, steps[0], locks);
      assert forall k :: 0 <= k < |steps[1..]| ==> steps[1..][k] == steps[k + 1];
      if RenamesPast(s, i) {
        OvertakingStep(s, i, locks);
        BehindIsAfter(t, i);
        AfterRun(t, steps[1..], locks);
      } else {
        BeforeStep(s, i, locks);
        RunKeeps(t, steps[1..], locks);
      }
    }
  }

  lemma BehindIsAfter(s: State, first: nat)
    requires |s.writers| == 2 && first < 2 && Behind(s, first)
    ensures After(s)
  {
  }

  lemma {:induction false} AfterRun(s: State, steps: seq<nat>, locks: bool)
    requires Schedule(steps, 2) && |s.writers| == 2
    requires After(s)
    ensures After(Run(s, steps, locks))
    decreases |steps|
  {
    hide Step, Behind;
    if steps != [] {
      assert forall k :: 0 <= k < |steps[1..]| ==> steps[1..][k] == steps[k + 1];
      var first: nat := if Behind(s, 0) then 0 else 1;
      BehindStep(s, first, steps[0], locks);
      BehindIsAfter(Step(s, steps[0], locks), first);
      AfterRun(Step(s, steps[0], locks), steps[1..], locks);
    }
  }

  // ---- The outcome ----

  predicate Over(w: Writer) {
    w.next == Returned || w.next == Raised
  }

  /** The file is there, whole, exactly for the call that is registered, if any. */
  predicate Intact(s: State) {
    s.file == if s.row.Some? then Some(Content(s.row.value, true)) else None
  }

  /** The exact condition, for every interleaving of two calls for one report: once both are over, the
      registered file is on disk, with the registered payload, if and only if no rename took place
      while the other call stood between its look for the artifact and its open. Otherwise one call
      returned, its row stands, and the file is gone. At most one call ever returns, its row is the
      registered one, and no temporary file is left. */
  lemma IntactIffNotOvertaken(steps: seq<nat>, locks: bool)
    requires Schedule(steps, 2)
    requires var end := Run(START, steps, locks); Over(end.writers[0]) && Over(end.writers[1])
    ensures var end := Run(START, steps, locks);
            && (Intact(end) <==> !Overtakes(START, steps, locks))
            && (!Intact(end) ==> end.row.Some? && end.file.None?)
            && (forall i: nat :: i < 2 ==> (end.writers[i].next == Returned <==> end.row == Some(i)))
            && end.temp.None?
  {
    hide Step, Run, Overtakes;
    RunKeeps(START, steps, locks);
    var end := Run(START, steps, locks);
    if !Overtakes(START, steps, locks) {
      assert InTurn(end, 0) && InTurn(end, 1);
    }
  }

  /** The loss does happen, on every system: the second call looks for the artifact, the first one
      writes, renames and registers it, the second one overwrites it, is refused, and removes it. */
  lemma OvertakenReportIsLost(locks: bool)
    ensures var end := Run(START, [1, 0, 0, 0, 0, 0, 0, 1, 1, 1, 1, 1, 1, 1, 1], locks);
            && end.writers[0].next == Returned && end.writers[1].next == Raised
            && end.row == Some(0) && end.file.None?
  {
    FirstCallReturns(locks);
    SecondCallRenames(locks);
    SecondCallRaises(locks);
    hide Run;
    RunConcat(START, [1, 0, 0, 0, 0, 0, 0], [1, 1, 1, 1], locks);
    RunConcat(START, [1, 0, 0, 0, 0, 0, 0, 1, 1, 1, 1], [1, 1, 1, 1], locks);
    assert [1, 0, 0, 0, 0, 0, 0] + [1, 1, 1, 1] == [1, 0, 0, 0, 0, 0, 0, 1, 1, 1, 1];
    assert [1, 0, 0, 0, 0, 0, 0, 1, 1, 1, 1] + [1, 1, 1, 1] == [1, 0, 0, 0, 0, 0, 0, 1, 1, 1, 1, 1, 1, 1, 1];
  }

  const FIRST_RETURNED := State(Some(Content(0, true)), None, Some(0), [Writer(Returned, true), Writer(LookForTemp, false)])
  const SECOND_RENAMED := State(Some(Content(1, true)), None, Some(0), [Writer(Returned, true), Writer(Register, true)])

  lemma FirstCallReturns(locks: bool)
    ensures Run(START, [1, 0, 0, 0, 0, 0, 0], locks) == FIRST_RETURNED
  {
  }

  lemma SecondCallRenames(locks: bool)
    ensures Run(FIRST_RETURNED, [1, 1, 1, 1], locks) == SECOND_RENAMED
  {
  }

  lemma SecondCallRaises(locks: bool)
    ensures Run(SECOND_RENAMED, [1, 1, 1, 1], locks).writers == [Writer(Returned, true), Writer(Raised, true)]
    ensures Run(SECOND_RENAMED, [1, 1, 1, 1], locks).row == Some(0)
    ensures Run(SECOND_RENAMED, [1, 1, 1, 1], locks).file.None?
  {
  }

  lemma {:induction false} RunConcat(s: State, a: seq<nat>, b: seq<nat>, locks: bool)
    requires |s.writers| == 2 && Schedule(a, 2) && Schedule(b, 2)
    ensures Schedule(a + b, 2)
    ensures Run(s, a + b, locks) == Run(Run(s, a, locks), b, locks)
    decreases |a|
  {
    hide Step;
    if a == [] {
      assert a + b == b;
    } else {
      assert (a + b)[0] == a[0] && (a + b)[1..] == a[1..] + b;
      assert forall k :: 0 <= k < |a[1..]| ==> a[1..][k] == a[k + 1];
      RunConcat(Step(s, a[0], locks), a[1..], b, locks);
    }
  }

  // ---- Leftovers ----

  /** Whatever file an earlier attempt left, any number of calls in any interleaving are turned away:
      files and row stay as they are, and no call gets further than looking. */
  lemma {:induction false} LeftoversTurnCallsAway(s: State, steps: seq<nat>, locks: bool)
    requires Schedule(steps, |s.writers|)
    requires s.file.Some? || s.temp.Some?
    requires forall i :: 0 <= i < |s.writers| ==> TurnedAway(s.writers[i], s.file)
    ensures var end := Run(s, steps, locks);
            && end.file == s.file && end.temp == s.temp && end.row == s.row
            && forall i :: 0 <= i < |end.writers| ==> TurnedAway(end.writers[i], s.file)
    decreases |steps|
  {
    hide OpenElsewhere;
    if steps != [] {
      assert forall k :: 0 <= k < |steps[1..]| ==> steps[1..][k] == steps[k + 1];
      assert TurnedAway(s.writers[steps[0]], s.file);
      LeftoversTurnCallsAway(Step(s, steps[0], locks), steps[1..], locks);
    }
  }

  predicate TurnedAway(w: Writer, file: Option<Content>) {
    w.next == LookForFile || (w.next == LookForTemp && file.None?) || w.next == Raised
  }

  // ---- Any number of calls ----

  /** A rename while any other call stands between its look for the artifact and its open, or a
      handler's removal of another call's temporary file. */
  predicate Disturbs(s: State, i: nat)
    requires i < |s.writers|
  {
    || (s.writers[i].next == Rename && s.temp.Some?
        && exists j :: 0 <= j < |s.writers| && j != i && s.writers[j].next in {LookForTemp, OpenTemp})
    || (s.writers[i].next == RemoveTemp && s.temp.Some? && s.temp.value.writer != i)
  }

  predicate Undisturbed(s: State, steps: seq<nat>, locks: bool)
    requires Schedule(steps, |s.writers|)
    decreases |steps|
  {
    if steps == [] then true
    else
      assert Schedule(steps[1..], |s.writers|) by { assert forall k :: 0 <= k < |steps[1..]| ==> steps[1..][k] == steps[k + 1]; }
      !Disturbs(s, steps[0]) && Undisturbed(Step(s, steps[0], locks), steps[1..], locks)
  }

  ghost predicate InTurnAmongAll(s: State, i: nat)
    requires i < |s.writers|
  {
    var me := s.writers[i];
    && WellPlaced(me)
    && (me.next in {WriteTemp, Rename} <==> s.temp.Some? && s.temp.value.writer == i)
    && (me.next in {WriteTemp, Rename} ==> s.temp == Some(Content(i, me.next == Rename)))
    && (me.created <==> s.file == Some(Content(i, true)))
    && (me.created ==> me.next in {Register, Returned} && s.temp.None?)
    && (s.file.Some? ==> me.next !in {LookForTemp, OpenTemp})
    && (s.row == Some(i) <==> me.next == Returned)
  }

  ghost predicate AllInTurn(s: State) {
    && (forall i: nat :: i < |s.writers| ==> InTurnAmongAll(s, i))
    && (s.file.Some? ==> s.file.value.writer < |s.writers| && s.file.value.whole)
    && (s.temp.Some? ==> s.temp.value.writer < |s.writers|)
    && (s.row.Some? ==> s.row.value < |s.writers|)
  }

  lemma UndisturbedStep(s: State, i: nat, locks: bool)
    requires i < |s.writers| && AllInTurn(s) && !Disturbs(s, i)
    ensures AllInTurn(Step(s, i, locks))
  {
    hide OpenElsewhere;
    var t := Step(s, i, locks);
    assert InTurnAmongAll(s, i);
    assert s.file.Some? ==> InTurnAmongAll(s, s.file.value.writer);
    assert s.temp.Some? ==> InTurnAmongAll(s, s.temp.value.writer);
    assert s.row.Some? ==> InTurnAmongAll(s, s.row.value);
    forall j: nat | j < |t.writers|
      ensures InTurnAmongAll(t, j)
    {
      assert InTurnAmongAll(s, j);
    }
  }

  lemma {:induction false} UndisturbedRun(s: State, steps: seq<nat>, locks: bool)
    requires Schedule(steps, |s.writers|) && AllInTurn(s) && Undisturbed(s, steps, locks)
    ensures AllInTurn(Run(s, steps, locks))
    decreases |steps|
  {
    hide Step, AllInTurn, Disturbs;
    if steps != [] {
      assert forall k :: 0 <= k < |steps[1..]| ==> steps[1..][k] == steps[k + 1];
      UndisturbedStep(s, steps[0], locks);
      UndisturbedRun(Step(s, steps[0], locks), steps[1..], locks);
    }
  }

  /** For any number of calls: as long as no rename overtakes another call and no handler removes
      another call's temporary file, the registered file is there with the registered payload once all
      are over, at most one call returned, and its row is the registered one. */
  lemma UndisturbedCallsAreIntact(s: State, steps: seq<nat>, locks: bool)
    requires Schedule(steps, |s.writers|) && Undisturbed(s, steps, locks)
    requires s.file.None? && s.temp.None? && s.row.None?
    requires forall i :: 0 <= i < |s.writers| ==> s.writers[i] == Writer(LookForFile, false)
    requires var end := Run(s, steps, locks); forall i :: 0 <= i < |end.writers| ==> Over(end.writers[i])
    ensures var end := Run(s, steps, locks);
            && Intact(end) && end.temp.None?
            && forall i: nat :: i < |end.writers| ==> (end.writers[i].next == Returned <==> end.row == Some(i))
  {
    hide Run, Undisturbed;
    UndisturbedRun(s, steps, locks);
    var end := Run(s, steps, locks);
    forall i: nat | i < |end.writers|
      ensures InTurnAmongAll(end, i) && Over(end.writers[i])
    {
    }
    assert end.file.Some? ==> InTurnAmongAll(end, end.file.value.writer);
    assert end.temp.Some? ==> InTurnAmongAll(end, end.temp.value.writer);
    assert end.row.Some? ==> InTurnAmongAll(end, end.row.value);
  }
}
