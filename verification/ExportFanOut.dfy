/**
 * The fan-out of an export: one goroutine per provider under an errgroup. Each
 * writes only its own slot; the first failure is kept and cancels the siblings'
 * context; after the barrier the outcome is read off that failure and the job's
 * own context.
 */
module ExportFanOut {
  import opened Outcomes

  /** A CSV file; `rows` stands for its contents. */
  datatype File = File(name: string, rows: int)

  /** Why a collection failed. Only a context that is done makes a provider fail as cancelled. */
  datatype Cause = Genuine | Panic | DeadlineExceeded | Cancelled

  datatype State = State(slots: seq<Option<File>>, finished: seq<bool>, first: Option<(nat, Cause)>, expired: bool)

  datatype Step = Collect(i: nat) | Fail(i: nat, cause: Cause) | Expire

  datatype Outcome = Archive(files: seq<File>) | TimedOut | CollectionFailed(provider: string)

  function Initial(n: nat): State { State(seq(n, _ => None), seq(n, _ => false), None, false) }

  predicate ContextDone(s: State) { s.expired || s.first.Some? }

  predicate Working(s: State, i: nat) { i < |s.finished| == |s.slots| && !s.finished[i] }

  predicate Enabled(s: State, st: Step) {
    match st
    case Collect(i) => Working(s, i)
    case Fail(i, cause) => Working(s, i) && (cause.Cancelled? ==> ContextDone(s))
    case Expire => !s.expired
  }

  /** What a provider returns when it succeeds is fixed by the user's data. */
  function Apply(files: seq<File>, s: State, st: Step): State
    requires Enabled(s, st) && |files| == |s.slots|
  {
    match st
    case Collect(i) => s.(slots := s.slots[i := Some(files[i])], finished := s.finished[i := true])
    case Fail(i, cause) =>
      s.(finished := s.finished[i := true], first := if s.first.None? then Some((i, cause)) else s.first)
    case Expire => s.(expired := true)
  }

  ghost predicate Runs(files: seq<File>, s: State, steps: seq<Step>)
    decreases |steps|
  {
    |steps| > 0 ==> Enabled(s, steps[0]) && |files| == |s.slots| && Runs(files, Apply(files, s, steps[0]), steps[1..])
  }

  ghost function After(files: seq<File>, s: State, steps: seq<Step>): State
    requires Runs(files, s, steps)
    decreases |steps|
  {
    if |steps| == 0 then s else After(files, Apply(files, s, steps[0]), steps[1..])
  }

  predicate AllFinished(s: State) { forall i :: 0 <= i < |s.finished| ==> s.finished[i] }

  /** The switch after the barrier; an empty slot would go into the archive as an unnamed file. */
  function Waited(files: seq<File>, s: State): Outcome
    requires s.first.Some? ==> s.first.value.0 < |files|
  {
    match s.first
    case None => Archive(seq(|s.slots|, i requires 0 <= i < |s.slots| => Slot(s.slots[i])))
    case Some((i, cause)) =>
      if s.expired || cause.DeadlineExceeded? then TimedOut else CollectionFailed(files[i].name)
  }

  function Slot(slot: Option<File>): File { if slot.Some? then slot.value else File("", 0) }

  // ---------------------------------------------------------------- invariant

  predicate SlotInv(files: seq<File>, s: State, i: nat)
    requires i < |files| == |s.slots| == |s.finished|
  {
    && (s.slots[i].Some? ==> s.slots[i].value == files[i] && s.finished[i])
    && (s.finished[i] && s.slots[i].None? ==> s.first.Some?)
  }

  ghost predicate Inv(files: seq<File>, s: State) {
    && |s.slots| == |s.finished| == |files|
    && (forall i :: 0 <= i < |files| ==> SlotInv(files, s, i))
    && (s.first.Some? ==> s.first.value.0 < |files| && s.finished[s.first.value.0] && s.slots[s.first.value.0].None?)
    && (s.first.Some? && s.first.value.1.Cancelled? ==> s.expired)
  }

  lemma StepKeepsInv(files: seq<File>, s: State, st: Step)
    requires Inv(files, s) && Enabled(s, st)
    ensures Inv(files, Apply(files, s, st))
  {
    var s' := Apply(files, s, st);
    if !st.Expire? {
      assert SlotInv(files, s, st.i);
    }
    forall i | 0 <= i < |files| ensures SlotInv(files, s', i) {
      assert SlotInv(files, s, i);
    }
  }

  lemma {:induction false} RunKeepsInv(files: seq<File>, s: State, steps: seq<Step>)
    requires Inv(files, s) && Runs(files, s, steps)
    ensures Inv(files, After(files, s, steps))
    decreases |steps|
  {
    if |steps| > 0 {
      StepKeepsInv(files, s, steps[0]);
      RunKeepsInv(files, Apply(files, s, steps[0]), steps[1..]);
    }
  }

  /** The first failing step of a run, if there is one. */
  function FirstFailure(steps: seq<Step>): Option<(nat, Cause)> {
    if |steps| == 0 then None
    else if steps[0].Fail? then Some((steps[0].i, steps[0].cause))
    else FirstFailure(steps[1..])
  }

  lemma {:induction false} FirstFailureWins(files: seq<File>, s: State, steps: seq<Step>)
    requires Runs(files, s, steps)
    ensures After(files, s, steps).first == if s.first.Some? then s.first else FirstFailure(steps)
    ensures After(files, s, steps).expired <==> s.expired || Expire in steps
    decreases |steps|
  {
    if |steps| > 0 {
      FirstFailureWins(files, Apply(files, s, steps[0]), steps[1..]);
      assert steps == [steps[0]] + steps[1..];
    }
  }

  lemma InitialInv(files: seq<File>)
    ensures Inv(files, Initial(|files|))
  {
  }

  /**
   * Whatever the schedule, the archive holds every provider's own file in the
   * factory's order, and it is built exactly when no collection failed; a job
   * whose context ends only after that is not failed for it.
   */
  lemma ArchiveIsComplete(files: seq<File>, steps: seq<Step>)
    requires Runs(files, Initial(|files|), steps) && AllFinished(After(files, Initial(|files|), steps))
    ensures var s := After(files, Initial(|files|), steps);
            && Inv(files, s)
            && (Waited(files, s).Archive? <==> forall k :: 0 <= k < |steps| ==> !steps[k].Fail?)
            && (Waited(files, s).Archive? ==> Waited(files, s).files == files)
  {
    InitialInv(files);
    RunKeepsInv(files, Initial(|files|), steps);
    FirstFailureWins(files, Initial(|files|), steps);
    NoFailure(steps);
    AllSlotsFilled(files, After(files, Initial(|files|), steps));
  }

  lemma AllSlotsFilled(files: seq<File>, s: State)
    requires Inv(files, s) && AllFinished(s)
    ensures Waited(files, s).Archive? <==> s.first.None?
    ensures Waited(files, s).Archive? ==> Waited(files, s).files == files
  {
    if s.first.None? {
      forall i | 0 <= i < |files| ensures Slot(s.slots[i]) == files[i] {
        assert SlotInv(files, s, i);
      }
    }
  }

  lemma {:induction false} NoFailure(steps: seq<Step>)
    ensures FirstFailure(steps).None? <==> forall k :: 0 <= k < |steps| ==> !steps[k].Fail?
  {
    if |steps| > 0 && !steps[0].Fail? {
      NoFailure(steps[1..]);
      assert forall k :: 0 < k < |steps| ==> steps[k] == steps[1..][k - 1];
    }
  }

  /**
   * A job is blamed on the provider that failed first, by an error or a panic of
   * its own: never on one that merely saw the siblings' context cancelled. It is
   * reported as timed out exactly when something failed and the job's context had
   * ended or that first failure was a deadline.
   */
  lemma BlameIsFair(files: seq<File>, steps: seq<Step>)
    requires Runs(files, Initial(|files|), steps) && AllFinished(After(files, Initial(|files|), steps))
    ensures var s := After(files, Initial(|files|), steps);
            var failure := FirstFailure(steps);
            && Inv(files, s)
            && (Waited(files, s) == TimedOut <==>
                  failure.Some? && (Expire in steps || failure.value.1.DeadlineExceeded?))
            && (Waited(files, s).CollectionFailed? ==>
                  && failure.Some? && failure.value.0 < |files|
                  && (failure.value.1.Genuine? || failure.value.1.Panic?)
                  && Waited(files, s).provider == files[failure.value.0].name)
  {
    InitialInv(files);
    RunKeepsInv(files, Initial(|files|), steps);
    FirstFailureWins(files, Initial(|files|), steps);
  }

  /** A failure lets every provider still at work fail as cancelled, and so does the end of the job's context. */
  lemma FailureCancelsTheOthers(files: seq<File>, s: State, st: Step, j: nat)
    requires |files| == |s.slots| && Enabled(s, st) && (st.Fail? || st.Expire?)
    requires Working(s, j) && (st.Fail? ==> st.i != j)
    ensures Enabled(Apply(files, s, st), Fail(j, Cancelled))
  {
  }

  // ---------------------------------------------------------------- the barrier opens

  function Left(finished: seq<bool>): nat {
    if |finished| == 0 then 0 else (if finished[0] then 0 else 1) + Left(finished[1..])
  }

  lemma {:induction false} FinishOne(finished: seq<bool>, i: nat)
    requires i < |finished| && !finished[i]
    ensures Left(finished[i := true]) == Left(finished) - 1
  {
    if i == 0 {
      assert finished[0 := true][1..] == finished[1..];
    } else {
      assert finished[i := true][1..] == finished[1..][i - 1 := true];
      FinishOne(finished[1..], i - 1);
    }
  }

  lemma {:induction false} NoneLeft(finished: seq<bool>)
    ensures Left(finished) == 0 <==> forall i :: 0 <= i < |finished| ==> finished[i]
  {
    if |finished| > 0 {
      NoneLeft(finished[1..]);
      assert forall i :: 0 < i < |finished| ==> finished[i] == finished[1..][i - 1];
    }
  }

  /** Every provider's return, by rows, error or panic alike, brings the barrier one closer. */
  lemma {:induction false} BarrierOpens(files: seq<File>, s: State, steps: seq<Step>)
    requires Inv(files, s) && Runs(files, s, steps)
    ensures Left(After(files, s, steps).finished) + Returns(steps) == Left(s.finished)
    ensures AllFinished(After(files, s, steps)) <==> Returns(steps) == Left(s.finished)
    decreases |steps|
  {
    NoneLeft(s.finished);
    if |steps| > 0 {
      var s' := Apply(files, s, steps[0]);
      if !steps[0].Expire? {
        FinishOne(s.finished, steps[0].i);
      }
      StepKeepsInv(files, s, steps[0]);
      BarrierOpens(files, s', steps[1..]);
    }
  }

  function Returns(steps: seq<Step>): nat {
    if |steps| == 0 then 0 else (if steps[0].Expire? then 0 else 1) + Returns(steps[1..])
  }
}
