/**
 * How jobs end, against what their strategy returned: every verdict is stored,
 * and every terminal row was some verdict.
 */
module JobVerdicts {
  import opened Outcomes
  import opened JobRunner

  /** The row that this verdict of the strategy calls for. */
  predicate Fits(job: Job, result: Verdict) {
    match result
    case Delivered(size) => job.status.Completed? && job.fileSize == Some(size)
    case Broken(reason) => job.status.Failed? && job.error == reason
    case Panicked => job.status.Failed? && job.error == "Job failed unexpectedly"
  }

  // ---------------------------------------------------------------- every verdict is stored

  /** The worker of this job is about to store this verdict. */
  predicate AboutToStore(s: State, w: nat, id: string, result: Verdict) {
    && w < |s.workers| && s.workers[w].jobId == id
    && match result
       case Delivered(size) => s.workers[w].phase.Completing? && s.workers[w].size == size
       case Broken(reason) => s.workers[w].phase == Failing(reason)
       case Panicked => s.workers[w].phase == Failing("Job failed unexpectedly")
  }

  /** The worker of this job has made its last write, and left the row like this. */
  predicate HasStored(s: State, w: nat, id: string, row: Job) {
    w < |s.workers| && s.workers[w].jobId == id && !Live(s.workers[w].phase) && id in s.db && s.db[id] == row
  }

  predicate WritesVerdict(st: Step, w: nat) { (st.Complete? || st.Fail?) && st.w == w }

  /** The first attempt of worker w to store a verdict. */
  function FirstWrite(steps: seq<Step>, w: nat): Option<Write> {
    if |steps| == 0 then None
    else if WritesVerdict(steps[0], w) then Some(steps[0].write)
    else FirstWrite(steps[1..], w)
  }

  lemma VerdictWaits(capacity: nat, s: State, st: Step, w: nat, id: string, result: Verdict)
    requires OwnInv(s) && Enabled(capacity, s, st) && !st.Crash? && !WritesVerdict(st, w)
    requires AboutToStore(s, w, id, result)
    ensures AboutToStore(Apply(capacity, s, st), w, id, result)
  {
    if Actor(st).Some? && Actor(st).value != w {
      WorkerStepIsLocal(capacity, s, st);
    }
  }

  /** The write that stores the verdict: applied, the row fits it; rejected, the row is as it was. */
  lemma VerdictIsWritten(capacity: nat, s: State, st: Step, w: nat, id: string, result: Verdict)
    requires OwnInv(s) && Enabled(capacity, s, st) && WritesVerdict(st, w) && AboutToStore(s, w, id, result)
    ensures id in Apply(capacity, s, st).db && HasStored(Apply(capacity, s, st), w, id, Apply(capacity, s, st).db[id])
    ensures if st.write.Rejected?
            then id in s.db && Apply(capacity, s, st).db[id] == s.db[id] && s.db[id].status.Running?
            else Fits(Apply(capacity, s, st).db[id], result)
  {
    assert WorkerInv(s, w);
  }

  lemma StoredStays(capacity: nat, s: State, st: Step, w: nat, id: string, row: Job)
    requires OwnInv(s) && Enabled(capacity, s, st) && !st.Crash? && HasStored(s, w, id, row)
    ensures HasStored(Apply(capacity, s, st), w, id, row)
  {
    if Actor(st).Some? {
      WorkerStepIsOwnJob(capacity, s, st);
      WorkerStepIsLocal(capacity, s, st);
      if Actor(st).value != w {
        OthersWorkOnOthers(s, w, Actor(st).value);
      }
    }
  }

  lemma OthersWorkOnOthers(s: State, v: nat, w: nat)
    requires OwnInv(s) && v < |s.workers| && w < |s.workers| && v != w
    ensures s.workers[v].jobId != s.workers[w].jobId
  {
  }

  lemma {:induction false} RunKeepsStored(capacity: nat, start: Jobs, s: State, steps: seq<Step>,
                                          w: nat, id: string, row: Job)
    requires Inv(capacity, start, s) && Runs(capacity, s, steps) && Crash !in steps && HasStored(s, w, id, row)
    ensures HasStored(After(capacity, s, steps), w, id, row)
    decreases |steps|
  {
    if |steps| > 0 {
      assert steps[0] in steps;
      StepKeepsInv(capacity, start, s, steps[0]);
      StoredStays(capacity, s, steps[0], w, id, row);
      RunKeepsStored(capacity, start, Apply(capacity, s, steps[0]), steps[1..], w, id, row);
    }
  }

  /** What a process that does not crash makes of a verdict, told by the write that was to store it. */
  ghost predicate Fate(s: State, w: nat, id: string, result: Verdict, write: Option<Write>) {
    match write
    case None => AboutToStore(s, w, id, result)
    case Some(Rejected) => id in s.db && HasStored(s, w, id, s.db[id]) && s.db[id].status.Running?
    case Some(_) => id in s.db && HasStored(s, w, id, s.db[id]) && Fits(s.db[id], result)
  }

  lemma {:induction false} PendingVerdictIsStored(capacity: nat, start: Jobs, s: State, steps: seq<Step>,
                                                  w: nat, id: string, result: Verdict)
    requires Inv(capacity, start, s) && Runs(capacity, s, steps) && Crash !in steps
    requires AboutToStore(s, w, id, result)
    ensures Fate(After(capacity, s, steps), w, id, result, FirstWrite(steps, w))
    decreases |steps|
  {
    if |steps| > 0 {
      var st, s' := steps[0], Apply(capacity, s, steps[0]);
      assert st in steps;
      StepKeepsInv(capacity, start, s, st);
      if WritesVerdict(st, w) {
        VerdictIsWritten(capacity, s, st, w, id, result);
        RunKeepsStored(capacity, start, s', steps[1..], w, id, s'.db[id]);
      } else {
        VerdictWaits(capacity, s, st, w, id, result);
        PendingVerdictIsStored(capacity, start, s', steps[1..], w, id, result);
      }
    }
  }

  /**
   * Whatever a strategy returned, until the process crashes its job waits for one
   * write: once that is applied the row is completed with the size delivered, or
   * failed with the reason given, and stays so; if it is rejected the row stays running.
   */
  lemma VerdictIsStored(capacity: nat, start: Jobs, s: State, w: nat, result: Verdict, steps: seq<Step>)
    requires Inv(capacity, start, s) && Enabled(capacity, s, Work(w, result))
    requires Runs(capacity, Apply(capacity, s, Work(w, result)), steps) && Crash !in steps
    ensures Fate(After(capacity, Apply(capacity, s, Work(w, result)), steps), w, s.workers[w].jobId, result,
                 FirstWrite(steps, w))
  {
    StepKeepsInv(capacity, start, s, Work(w, result));
    PendingVerdictIsStored(capacity, start, Apply(capacity, s, Work(w, result)), steps, w, s.workers[w].jobId, result);
  }

  // ---------------------------------------------------------------- every terminal row was a verdict

  /** What the strategies of a run returned, by job. */
  ghost function VerdictsOf(capacity: nat, s: State, steps: seq<Step>): set<(string, Verdict)>
    requires Runs(capacity, s, steps)
    decreases |steps|
  {
    if |steps| == 0 then {}
    else VerdictOfStep(s, steps[0]) + VerdictsOf(capacity, Apply(capacity, s, steps[0]), steps[1..])
  }

  function VerdictOfStep(s: State, st: Step): set<(string, Verdict)> {
    if st.Work? && st.w < |s.workers| then {(s.workers[st.w].jobId, st.result)} else {}
  }

  ghost predicate Explained(id: string, job: Job, told: set<(string, Verdict)>) {
    exists result :: (id, result) in told && Fits(job, result)
  }

  ghost predicate WorkerTells(s: State, w: nat, told: set<(string, Verdict)>)
    requires w < |s.workers|
  {
    s.workers[w].phase.Failing? || s.workers[w].phase.Completing? ==>
      exists result :: (s.workers[w].jobId, result) in told && AboutToStore(s, w, s.workers[w].jobId, result)
  }

  /** A row terminal since the start has its verdict. */
  ghost predicate RowTells(start: Jobs, s: State, id: string, told: set<(string, Verdict)>)
    requires id in s.db
  {
    Terminal(s.db[id].status) && !(id in start && start[id] == s.db[id]) ==> Explained(id, s.db[id], told)
  }

  ghost predicate Accounts(start: Jobs, s: State, told: set<(string, Verdict)>) {
    && (forall w :: 0 <= w < |s.workers| ==> WorkerTells(s, w, told))
    && (forall id :: id in s.db ==> RowTells(start, s, id, told))
  }

  lemma StepKeepsWorkerTells(capacity: nat, s: State, st: Step, told: set<(string, Verdict)>, v: nat)
    requires OwnInv(s) && Enabled(capacity, s, st) && v < |Apply(capacity, s, st).workers|
    requires v < |s.workers| ==> WorkerTells(s, v, told)
    ensures WorkerTells(Apply(capacity, s, st), v, told + VerdictOfStep(s, st))
  {
    var s' := Apply(capacity, s, st);
    if s'.workers[v].phase.Failing? || s'.workers[v].phase.Completing? {
      if st.Work? && st.w == v {
        assert AboutToStore(s', v, s'.workers[v].jobId, st.result);
      } else {
        assert s'.workers[v] == s.workers[v];
        var result :| (s.workers[v].jobId, result) in told && AboutToStore(s, v, s.workers[v].jobId, result);
        assert AboutToStore(s', v, s'.workers[v].jobId, result);
      }
    }
  }

  lemma ExplainedStays(id: string, job: Job, told: set<(string, Verdict)>, more: set<(string, Verdict)>)
    requires Explained(id, job, told)
    ensures Explained(id, job, told + more)
  {
    var result :| (id, result) in told && Fits(job, result);
    assert (id, result) in told + more;
  }

  /** Only storing a verdict makes a row terminal. */
  lemma OnlyVerdictsEnd(capacity: nat, s: State, st: Step, id: string)
    requires OwnInv(s) && Enabled(capacity, s, st) && id in Apply(capacity, s, st).db
    requires Terminal(Apply(capacity, s, st).db[id].status)
    requires !(id in s.db && s.db[id] == Apply(capacity, s, st).db[id])
    ensures (st.Complete? || st.Fail?) && s.workers[st.w].jobId == id && !st.write.Rejected?
  {
    if Actor(st).Some? {
      WorkerStepIsOwnJob(capacity, s, st);
      assert WorkerInv(s, Actor(st).value);
    }
  }

  lemma StepKeepsRowTells(capacity: nat, start: Jobs, s: State, st: Step, told: set<(string, Verdict)>, id: string)
    requires OwnInv(s) && Enabled(capacity, s, st) && Accounts(start, s, told) && id in Apply(capacity, s, st).db
    ensures RowTells(start, Apply(capacity, s, st), id, told + VerdictOfStep(s, st))
  {
    var s' := Apply(capacity, s, st);
    if Terminal(s'.db[id].status) && !(id in start && start[id] == s'.db[id]) {
      if id in s.db && s.db[id] == s'.db[id] {
        assert RowTells(start, s, id, told);
        ExplainedStays(id, s'.db[id], told, VerdictOfStep(s, st));
      } else {
        OnlyVerdictsEnd(capacity, s, st, id);
        assert WorkerTells(s, st.w, told);
        var result :| (id, result) in told && AboutToStore(s, st.w, id, result);
        VerdictIsWritten(capacity, s, st, st.w, id, result);
        assert Explained(id, s'.db[id], told);
        ExplainedStays(id, s'.db[id], told, VerdictOfStep(s, st));
      }
    }
  }

  lemma {:induction false} RunAccounts(capacity: nat, start: Jobs, s: State, steps: seq<Step>,
                                       told: set<(string, Verdict)>)
    requires Inv(capacity, start, s) && Runs(capacity, s, steps) && Accounts(start, s, told)
    ensures Accounts(start, After(capacity, s, steps), told + VerdictsOf(capacity, s, steps))
    decreases |steps|
  {
    if |steps| == 0 {
      assert told + {} == told;
    } else {
      var st, s' := steps[0], Apply(capacity, s, steps[0]);
      var more := told + VerdictOfStep(s, st);
      StepKeepsInv(capacity, start, s, st);
      forall v | 0 <= v < |s'.workers| ensures WorkerTells(s', v, more) {
        StepKeepsWorkerTells(capacity, s, st, told, v);
      }
      forall id | id in s'.db ensures RowTells(start, s', id, more) {
        StepKeepsRowTells(capacity, start, s, st, told, id);
      }
      RunAccounts(capacity, start, s', steps[1..], more);
      assert told + VerdictsOf(capacity, s, steps) == more + VerdictsOf(capacity, s', steps[1..]);
    }
  }

  /**
   * A job that became terminal in a run had its strategy return in that run, and
   * its row is what that verdict calls for: failed with the reason it gave, or with
   * the fixed text for a panic, or completed with the size delivered.
   */
  lemma TerminalRowsWereVerdicts(capacity: nat, start: Jobs, steps: seq<Step>, id: string)
    requires Runs(capacity, Initial(start), steps)
    requires var s := After(capacity, Initial(start), steps);
      id in s.db && Terminal(s.db[id].status) && !(id in start && start[id] == s.db[id])
    ensures Explained(id, After(capacity, Initial(start), steps).db[id], VerdictsOf(capacity, Initial(start), steps))
  {
    InitialInv(capacity, start);
    RunAccounts(capacity, start, Initial(start), steps, {});
    assert {} + VerdictsOf(capacity, Initial(start), steps) == VerdictsOf(capacity, Initial(start), steps);
    assert RowTells(start, After(capacity, Initial(start), steps), id, VerdictsOf(capacity, Initial(start), steps));
  }

  /** A running process may crash in any state, and a strategy at work may return anything. */
  lemma AnythingMayHappen(capacity: nat, s: State, w: nat, result: Verdict)
    ensures s.process != Down ==> Enabled(capacity, s, Crash)
    ensures w < |s.workers| && s.workers[w].phase.Working? ==> Enabled(capacity, s, Work(w, result))
  {
  }

  // ---------------------------------------------------------------- the records are the run

  /** The mails a run sends: one for each archive delivered, none for anything else. */
  ghost function MailsOf(capacity: nat, s: State, steps: seq<Step>): seq<(string, string, int)>
    requires Runs(capacity, s, steps)
    decreases |steps|
  {
    if |steps| == 0 then []
    else MailOfStep(s, steps[0]) + MailsOf(capacity, Apply(capacity, s, steps[0]), steps[1..])
  }

  function MailOfStep(s: State, st: Step): seq<(string, string, int)> {
    if st.Work? && st.result.Delivered? && st.w < |s.workers| && s.workers[st.w].phase.Working?
    then [(s.workers[st.w].jobId, s.workers[st.w].phase.email, st.result.size)] else []
  }

  /** The jobs whose strategy a run starts. */
  ghost function StartsOf(capacity: nat, s: State, steps: seq<Step>): seq<string>
    requires Runs(capacity, s, steps)
    decreases |steps|
  {
    if |steps| == 0 then []
    else StartOfStep(s, steps[0]) + StartsOf(capacity, Apply(capacity, s, steps[0]), steps[1..])
  }

  function StartOfStep(s: State, st: Step): seq<string> {
    if st.Load? && st.w < |s.workers| then [s.workers[st.w].jobId] else []
  }

  /** One mail is sent for each archive delivered, to the address its worker holds, and none for anything else. */
  lemma {:induction false} MailsAreDeliveries(capacity: nat, s: State, steps: seq<Step>)
    requires Runs(capacity, s, steps)
    ensures After(capacity, s, steps).mails == s.mails + MailsOf(capacity, s, steps)
    decreases |steps|
  {
    if |steps| == 0 {
      assert s.mails + [] == s.mails;
    } else {
      var s' := Apply(capacity, s, steps[0]);
      StepIsRecorded(capacity, s, steps[0]);
      MailsAreDeliveries(capacity, s', steps[1..]);
      Associates(s.mails, MailOfStep(s, steps[0]), MailsOf(capacity, s', steps[1..]));
    }
  }

  lemma {:induction false} StartsAreRecorded(capacity: nat, s: State, steps: seq<Step>)
    requires Runs(capacity, s, steps)
    ensures After(capacity, s, steps).runs == s.runs + StartsOf(capacity, s, steps)
    decreases |steps|
  {
    if |steps| == 0 {
      assert s.runs + [] == s.runs;
    } else {
      var s' := Apply(capacity, s, steps[0]);
      StepIsRecorded(capacity, s, steps[0]);
      StartsAreRecorded(capacity, s', steps[1..]);
      Associates(s.runs, StartOfStep(s, steps[0]), StartsOf(capacity, s', steps[1..]));
    }
  }

  lemma Associates<T>(a: seq<T>, b: seq<T>, c: seq<T>)
    ensures a + b + c == a + (b + c)
  {
  }

  lemma StepIsRecorded(capacity: nat, s: State, st: Step)
    requires Enabled(capacity, s, st)
    ensures Apply(capacity, s, st).mails == s.mails + MailOfStep(s, st)
    ensures Apply(capacity, s, st).runs == s.runs + StartOfStep(s, st)
  {
  }
}
