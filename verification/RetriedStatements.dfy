/**
 * How often a statement runs, against what its first attempt met and whether
 * the lost session could be reopened.
 */
module RetriedStatements {
  import opened Outcomes
  import opened ImmudbSession

  /** The answer that the first attempt of goroutine t met in these steps. */
  function FirstAnswer(steps: seq<Step>, t: nat): Option<Answer> {
    if |steps| == 0 then None
    else
      var before := FirstAnswer(steps[..|steps| - 1], t);
      var last := steps[|steps| - 1];
      if before.None? && last.Call? && last.t == t then Some(last.answer) else before
  }

  /** Goroutine t found the session it had lost still installed, and could not open another. */
  predicate FailsToReopen(s: State, st: Step, t: nat) {
    st == Reconnect(t, false) && t < |s.threads| && s.session.generation == s.threads[t].lost
  }

  ghost predicate ReopeningFailed(s: State, steps: seq<Step>, t: nat)
    requires Runs(s, steps)
    decreases |steps|
  {
    |steps| > 0 && (FailsToReopen(s, steps[0], t) || ReopeningFailed(Apply(s, steps[0]), steps[1..], t))
  }

  /** Where a request is tells what it has met. */
  predicate Tells(th: Thread, answer: Option<Answer>, failed: bool) {
    match th.phase
    case Unlocking(ok) => answer == Some(SessionLost) && (ok <==> !failed) && th.attempts == 1
    case Done =>
      && answer.Some?
      && (if answer.value.SessionLost? && !failed then th.attempts == 2 else th.attempts == 1)
    case _ =>
      if th.phase.WantRecover? || th.phase.Recovering? || th.phase.Retrying?
      then answer == Some(SessionLost) && !failed && th.attempts == 1
      else answer.None? && !failed && th.attempts == 0
  }

  lemma AnswerGrows(past: seq<Step>, st: Step, t: nat)
    ensures FirstAnswer(past + [st], t) ==
      if FirstAnswer(past, t).None? && st.Call? && st.t == t then Some(st.answer) else FirstAnswer(past, t)
  {
    assert (past + [st])[..|past|] == past;
  }

  lemma StepTells(s: State, st: Step, t: nat, answer: Option<Answer>, failed: bool)
    requires Inv(s) && Enabled(s, st) && t < |s.threads| && !s.threads[t].heartbeat
    requires Tells(s.threads[t], answer, failed)
    ensures t < |Apply(s, st).threads| && !Apply(s, st).threads[t].heartbeat
    ensures Tells(Apply(s, st).threads[t],
                  if answer.None? && st.Call? && st.t == t then Some(st.answer) else answer,
                  failed || FailsToReopen(s, st, t))
  {
    assert ThreadInv(s, s.threads[t]);
  }

  lemma {:induction false} RequestTells(s: State, past: seq<Step>, steps: seq<Step>, t: nat, failed: bool)
    requires Inv(s) && Runs(s, steps) && t < |s.threads| && !s.threads[t].heartbeat
    requires Tells(s.threads[t], FirstAnswer(past, t), failed)
    ensures t < |After(s, steps).threads|
    ensures Tells(After(s, steps).threads[t], FirstAnswer(past + steps, t), failed || ReopeningFailed(s, steps, t))
    decreases |steps|
  {
    if |steps| == 0 {
      assert past + steps == past;
    } else {
      StepKeepsInv(s, steps[0]);
      StepTells(s, steps[0], t, FirstAnswer(past, t), failed);
      AnswerGrows(past, steps[0], t);
      RequestTells(Apply(s, steps[0]), past + [steps[0]], steps[1..], t, failed || FailsToReopen(s, steps[0], t));
      assert past + [steps[0]] + steps[1..] == past + steps;
    }
  }

  /**
   * However a run goes on after a request, the request ends after one attempt, or
   * after two: two exactly when the first lost its session and the session was
   * reopened, by the request or by another goroutine before it.
   */
  lemma RetriesIffRecovered(s: State, steps: seq<Step>)
    requires Inv(s) && Runs(Apply(s, Request), steps)
    ensures var t, s' := |s.threads|, After(Apply(s, Request), steps);
      && t < |s'.threads|
      && (s'.threads[t].phase.Done? ==>
            && FirstAnswer(steps, t).Some? && 1 <= s'.threads[t].attempts <= 2
            && (s'.threads[t].attempts == 2 <==>
                  FirstAnswer(steps, t) == Some(SessionLost) && !ReopeningFailed(Apply(s, Request), steps, t)))
  {
    StepKeepsInv(s, Request);
    RequestTells(Apply(s, Request), [], steps, |s.threads|, false);
    assert [] + steps == steps;
  }
}
