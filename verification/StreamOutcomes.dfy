/**
 * Why an export stream ends as it does: each outcome against what happened in
 * the run, told from the steps and the states they are taken in.
 */
module StreamOutcomes {
  import opened Outcomes
  import opened Ledger
  import opened Keyset
  import opened ExpenseStream

  datatype Cause = SendFailure | CancelNoticed | CancelSeen | ReadFailure | Breakdown

  /** What this step, taken here, contributes to the failure of the stream. */
  ghost function CausesOfStep(c: Config, s: State, st: Step): set<Cause> {
    match st
    case Send(ok) => if ok then {} else {SendFailure}
    case Check => if s.cancelled then {CancelNoticed} else {}
    case SeeCancel => {CancelSeen}
    case FetchFail => {ReadFailure}
    case Fetch =>
      if s.producer.Fetching? && PageAfter(s.table, c.userId, s.producer.cursor, c.size).Err?
      then {ReadFailure} else {}
    case Panic => {Breakdown}
    case _ => {}
  }

  ghost function CausesOf(c: Config, s: State, steps: seq<Step>): set<Cause>
    requires Runs(c, s, steps)
    decreases |steps|
  {
    if |steps| == 0 then {}
    else CausesOfStep(c, s, steps[0]) + CausesOf(c, Apply(c, s, steps[0]), steps[1..])
  }

  /** The outcome is one of those that these causes explain. */
  predicate Explains(causes: set<Cause>, outcome: Outcome) {
    match outcome
    case Success => causes == {}
    case SendFailed => SendFailure in causes
    case Failed(ReadFailed) => ReadFailure in causes
    case Failed(Panicked) => Breakdown in causes
    case Failed(Cancelled) => CancelNoticed in causes || CancelSeen in causes
    case Failed(CleanEof) => false
  }

  predicate Left(s: State, outcome: Outcome) { Gone(s) && s.consumer.outcome == outcome }

  // ---------------------------------------------------------------- nothing after a failed send

  /** Once the consumer has left its loop, it keeps its outcome and sends nothing more. */
  lemma {:induction false} LeavingIsFinal(c: Config, s: State, steps: seq<Step>)
    requires Gone(s) && Runs(c, s, steps)
    ensures After(c, s, steps).sent == s.sent && Left(After(c, s, steps), s.consumer.outcome)
    decreases |steps|
  {
    if |steps| > 0 {
      LeavingIsFinal(c, Apply(c, s, steps[0]), steps[1..]);
    }
  }

  lemma {:induction false} RunSplits(c: Config, s: State, steps: seq<Step>, k: nat)
    requires Runs(c, s, steps) && k <= |steps|
    ensures Runs(c, s, steps[..k]) && Runs(c, After(c, s, steps[..k]), steps[k..])
    ensures After(c, After(c, s, steps[..k]), steps[k..]) == After(c, s, steps)
    decreases |steps|
  {
    if k == 0 {
      assert steps[..0] == [] && steps[0..] == steps;
    } else {
      RunSplits(c, Apply(c, s, steps[0]), steps[1..], k - 1);
      assert steps[..k][1..] == steps[1..][..k - 1] && steps[k..] == steps[1..][k - 1..];
    }
  }

  /** A send that fails is the last one, and whatever happens next the stream ends with its error. */
  lemma FailedSendIsLast(c: Config, s: State, steps: seq<Step>, k: nat)
    requires Runs(c, s, steps) && k < |steps| && steps[k] == Send(false)
    ensures Runs(c, s, steps[..k]) && After(c, s, steps[..k]).consumer.Ready?
    ensures After(c, s, steps).sent == After(c, s, steps[..k]).sent + [After(c, s, steps[..k]).consumer.row]
    ensures Left(After(c, s, steps), SendFailed)
  {
    RunSplits(c, s, steps, k);
    var at := After(c, s, steps[..k]);
    assert steps[k..][0] == Send(false);
    LeavingIsFinal(c, Apply(c, at, Send(false)), steps[k..][1..]);
  }

  // ---------------------------------------------------------------- the records are the run

  function RowSent(s: State, st: Step): seq<Expense> {
    if st.Send? && s.consumer.Ready? then [s.consumer.row] else []
  }

  /** The rows given to send, in order. */
  ghost function RowsSent(c: Config, s: State, steps: seq<Step>): seq<Expense>
    requires Runs(c, s, steps)
    decreases |steps|
  {
    if |steps| == 0 then []
    else RowSent(s, steps[0]) + RowsSent(c, Apply(c, s, steps[0]), steps[1..])
  }

  predicate Late(s: State, st: Step) { st.Send? && s.cancelled }

  /** The sends that begin after a cancellation. */
  ghost function SentLate(c: Config, s: State, steps: seq<Step>): nat
    requires Runs(c, s, steps)
    decreases |steps|
  {
    if |steps| == 0 then 0
    else (if Late(s, steps[0]) then 1 else 0) + SentLate(c, Apply(c, s, steps[0]), steps[1..])
  }

  function Reports(steps: seq<Step>): nat {
    if |steps| == 0 then 0 else (if steps[0].Report? then 1 else 0) + Reports(steps[1..])
  }

  lemma StepIsRecorded(c: Config, s: State, st: Step)
    requires Enabled(c, s, st)
    ensures Apply(c, s, st).sent == s.sent + RowSent(s, st)
    ensures Apply(c, s, st).lateSends == s.lateSends + if Late(s, st) then 1 else 0
    ensures Apply(c, s, st).reports == s.reports + if st.Report? then 1 else 0
  {
  }

  lemma {:induction false} SentIsTheRun(c: Config, s: State, steps: seq<Step>)
    requires Runs(c, s, steps)
    ensures After(c, s, steps).sent == s.sent + RowsSent(c, s, steps)
    decreases |steps|
  {
    if |steps| == 0 {
      assert s.sent + [] == s.sent;
    } else {
      StepIsRecorded(c, s, steps[0]);
      SentIsTheRun(c, Apply(c, s, steps[0]), steps[1..]);
      Associates(s.sent, RowSent(s, steps[0]), RowsSent(c, Apply(c, s, steps[0]), steps[1..]));
    }
  }

  lemma Associates(a: seq<Expense>, b: seq<Expense>, d: seq<Expense>)
    ensures a + b + d == a + (b + d)
  {
  }

  lemma {:induction false} CountsAreTheRun(c: Config, s: State, steps: seq<Step>)
    requires Runs(c, s, steps)
    ensures After(c, s, steps).lateSends == s.lateSends + SentLate(c, s, steps)
    ensures After(c, s, steps).reports == s.reports + Reports(steps)
    decreases |steps|
  {
    if |steps| > 0 {
      StepIsRecorded(c, s, steps[0]);
      CountsAreTheRun(c, Apply(c, s, steps[0]), steps[1..]);
    }
  }

  /** At most one send of a run begins after a cancellation, and errc is sent to once at most. */
  lemma OneLateSend(c: Config, steps: seq<Step>)
    requires Opens(c) && Runs(c, Initial(c), steps)
    ensures SentLate(c, Initial(c), steps) <= 1 && Reports(steps) <= 1
    ensures Increasing(RowsSent(c, Initial(c), steps))
  {
    StreamIsSafe(c, steps);
    StreamIsBounded(c, steps);
    SentIsTheRun(c, Initial(c), steps);
    CountsAreTheRun(c, Initial(c), steps);
    assert [] + RowsSent(c, Initial(c), steps) == RowsSent(c, Initial(c), steps);
  }

  // ---------------------------------------------------------------- every outcome has its cause

  function CauseOf(status: Terminal): set<Cause> {
    match status
    case CleanEof => {}
    case ReadFailed => {ReadFailure}
    case Cancelled => {CancelSeen}
    case Panicked => {Breakdown}
  }

  predicate ProducerSpoilt(causes: set<Cause>) {
    CancelSeen in causes || ReadFailure in causes || Breakdown in causes
  }

  /** The producer's part: what it reports it has met, and what it has met it does not report as clean. */
  predicate ProducerTells(s: State, past: set<Cause>) {
    && (s.producer.Reporting? ==> CauseOf(s.producer.status) <= past)
    && (s.errc.Some? ==> CauseOf(s.errc.value) <= past)
    && (ProducerSpoilt(past) ==> !s.producer.Fetching? && !s.producer.Sending? && !EndedCleanly(s))
  }

  /** The consumer's part. */
  predicate ConsumerTells(s: State, past: set<Cause>) {
    && (SendFailure in past <==> Left(s, SendFailed))
    && (CancelNoticed in past ==> Left(s, Failed(Cancelled)))
    && (Gone(s) ==> Explains(past, s.consumer.outcome))
  }

  /** Short of a return, the context was cancelled by the caller. */
  predicate AskedFor(s: State, asked: bool) {
    && (s.cancelled && !s.consumer.Returned? ==> asked)
    && (s.producer == Reporting(Cancelled) || s.errc == Some(Cancelled) ==> asked || s.consumer.Returned?)
    && (Left(s, Failed(Cancelled)) ==> asked)
  }

  ghost predicate Accounts(s: State, past: set<Cause>, asked: bool) {
    ProducerTells(s, past) && ConsumerTells(s, past) && AskedFor(s, asked)
  }

  /** Each cause can strike wherever its goroutine is exposed to it. */
  lemma CausesCanStrike(c: Config, s: State)
    ensures !s.cancelled ==> Enabled(c, s, Cancel)
    ensures s.producer.Fetching? ==> CausesOfStep(c, s, FetchFail) == {ReadFailure} && Enabled(c, s, FetchFail)
    ensures s.producer.Fetching? || s.producer.Sending? ==>
      CausesOfStep(c, s, Panic) == {Breakdown} && Enabled(c, s, Panic)
    ensures s.producer.Sending? && s.producer.page != [] && s.cancelled ==>
      CausesOfStep(c, s, SeeCancel) == {CancelSeen} && Enabled(c, s, SeeCancel)
    ensures s.consumer.Ready? ==> CausesOfStep(c, s, Send(false)) == {SendFailure} && Enabled(c, s, Send(false))
  {
  }

  lemma NoCause(causes: set<Cause>)
    requires SendFailure !in causes && CancelNoticed !in causes && !ProducerSpoilt(causes)
    ensures causes == {}
  {
    forall cause ensures cause !in causes {
      match cause
      case SendFailure =>
      case CancelNoticed =>
      case CancelSeen =>
      case ReadFailure =>
      case Breakdown =>
    }
  }

  lemma ProducerStepAccounts(c: Config, s: State, st: Step, past: set<Cause>, asked: bool)
    requires ControlInv(c, s) && Enabled(c, s, st) && Accounts(s, past, asked)
    requires st.Fetch? || st.FetchFail? || st.Panic? || st.HandOff? || st.SeeCancel? || st.FinishPage?
             || st.Report? || st.Close?
    ensures Accounts(Apply(c, s, st), past + CausesOfStep(c, s, st), asked)
  {
  }

  lemma ConsumerStepAccounts(c: Config, s: State, st: Step, past: set<Cause>, asked: bool)
    requires ControlInv(c, s) && Enabled(c, s, st) && Accounts(s, past, asked)
    requires st.Receive? || st.SeeClosed? || st.Check? || st.Send? || st.TakeStatus? || st.Leave?
    ensures Accounts(Apply(c, s, st), past + CausesOfStep(c, s, st), asked)
  {
    if st.TakeStatus? && s.errc == Some(CleanEof) {
      NoCause(past);
    }
  }

  lemma StepAccounts(c: Config, s: State, st: Step, past: set<Cause>, asked: bool)
    requires ControlInv(c, s) && Enabled(c, s, st) && Accounts(s, past, asked)
    ensures Accounts(Apply(c, s, st), past + CausesOfStep(c, s, st), asked || st.Cancel?)
  {
    if st.Receive? || st.SeeClosed? || st.Check? || st.Send? || st.TakeStatus? || st.Leave? {
      ConsumerStepAccounts(c, s, st, past, asked);
    } else if !st.Serve? && !st.Cancel? {
      ProducerStepAccounts(c, s, st, past, asked);
    }
  }

  lemma UnionsAssociate(a: set<Cause>, b: set<Cause>, d: set<Cause>)
    ensures a + b + d == a + (b + d)
  {
  }

  lemma CancelIn(steps: seq<Step>)
    requires |steps| > 0
    ensures Cancel in steps <==> steps[0].Cancel? || Cancel in steps[1..]
  {
    assert steps == [steps[0]] + steps[1..];
  }

  lemma {:induction false} RunAccounts(c: Config, s: State, steps: seq<Step>, past: set<Cause>, asked: bool)
    requires Inv(c, s) && Runs(c, s, steps) && Accounts(s, past, asked)
    ensures Accounts(After(c, s, steps), past + CausesOf(c, s, steps), asked || Cancel in steps)
    decreases |steps|
  {
    if |steps| == 0 {
      assert past + {} == past;
    } else {
      var here, s' := CausesOfStep(c, s, steps[0]), Apply(c, s, steps[0]);
      StepKeepsInv(c, s, steps[0]);
      StepAccounts(c, s, steps[0], past, asked);
      RunAccounts(c, s', steps[1..], past + here, asked || steps[0].Cancel?);
      UnionsAssociate(past, here, CausesOf(c, s', steps[1..]));
      CancelIn(steps);
    }
  }

  /**
   * A stream that has returned did so with nil exactly when no send failed, no read
   * failed or met an unreadable row, nothing panicked and no goroutine noticed a
   * cancellation; any error it returns names one of those that happened, and a
   * cancellation that it reports was the caller's.
   */
  lemma OutcomeIsCaused(c: Config, steps: seq<Step>)
    requires Opens(c) && Runs(c, Initial(c), steps) && Gone(After(c, Initial(c), steps))
    ensures var outcome, causes := After(c, Initial(c), steps).consumer.outcome, CausesOf(c, Initial(c), steps);
      && Explains(causes, outcome)
      && (outcome == Success <==> causes == {})
      && (outcome == SendFailed <==> SendFailure in causes)
      && (outcome == Failed(Cancelled) ==> Cancel in steps)
  {
    InitialInv(c);
    assert Accounts(Initial(c), {}, false);
    RunAccounts(c, Initial(c), steps, {}, false);
    assert {} + CausesOf(c, Initial(c), steps) == CausesOf(c, Initial(c), steps);
  }
}
