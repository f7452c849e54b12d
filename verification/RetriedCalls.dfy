/**
 * How the calls of a page end, against the responses they were given and the
 * refresh they joined.
 */
module RetriedCalls {
  import opened Outcomes
  import RT = RefreshTokens
  import opened RefreshClient

  function ResponseOf(st: Step, i: nat): seq<Response> {
    match st
    case Respond(j, response) => if i == j then [response] else []
    case RespondAgain(j, response) => if i == j then [response] else []
    case _ => []
  }

  /** The responses that the steps of a run give to call i, in order. */
  function Responses(steps: seq<Step>, i: nat): seq<Response> {
    if |steps| == 0 then [] else Responses(steps[..|steps| - 1], i) + ResponseOf(steps[|steps| - 1], i)
  }

  /** The refresh that the call joined has settled like this. */
  predicate JoinedSettled(p: Page, call: Call, ok: bool) {
    call.joined.Some? && call.joined.value < |p.refreshes| && p.refreshes[call.joined.value] == Settled(ok)
  }

  /** The one history that leads a call to where it is. */
  predicate Tells(p: Page, call: Call, got: seq<Response>) {
    match call.phase
    case First => got == [] && call.fetches == 1 && call.joined.None?
    case Waiting => got == [Unauthorized] && !call.auth && call.fetches == 1 && call.joined.Some?
    case Second => got == [Unauthorized] && !call.auth && call.fetches == 2 && JoinedSettled(p, call, true)
    case Done(outcome) =>
      || (&& call.joined.None? && call.fetches == 1 && |got| == 1 && !outcome.SessionExpired?
          && (outcome.Success? <==> got == [Good]) && (got == [Unauthorized] ==> call.auth))
      || (&& JoinedSettled(p, call, true) && !call.auth && call.fetches == 2 && |got| == 2 && got[0] == Unauthorized
          && !outcome.SessionExpired? && (outcome.Success? <==> got[1] == Good))
      || (&& JoinedSettled(p, call, false) && !call.auth && call.fetches == 1 && got == [Unauthorized]
          && outcome.SessionExpired?)
  }

  ghost predicate CallsTell(p: Page, past: seq<Step>) {
    && (forall i :: 0 <= i < |p.calls| ==> Tells(p, p.calls[i], Responses(past, i)))
    && (forall i: nat :: i >= |p.calls| ==> Responses(past, i) == [])
  }

  lemma ResponsesGrow(past: seq<Step>, st: Step, i: nat)
    ensures Responses(past + [st], i) == Responses(past, i) + ResponseOf(st, i)
  {
    assert (past + [st])[..|past|] == past;
  }

  /** The call that a step moves goes on telling what happened to it. */
  lemma CallerTells(p: Page, st: Step, i: nat, got: seq<Response>)
    requires SingleFlight(p) && Enabled(p, st) && Caller(st) == Some(i) && Tells(p, p.calls[i], got)
    ensures i < |Apply(p, st).calls| && Tells(Apply(p, st), Apply(p, st).calls[i], got + ResponseOf(st, i))
  {
    StepKeepsSettled(p, st);
    assert got + [] == got;
    if st.Respond? {
      assert [] + [st.response] == [st.response];
    }
  }

  lemma OthersTell(p: Page, st: Step, i: nat, got: seq<Response>)
    requires Enabled(p, st) && i < |p.calls| && Caller(st) != Some(i) && Tells(p, p.calls[i], got)
    ensures i < |Apply(p, st).calls| && Tells(Apply(p, st), Apply(p, st).calls[i], got + ResponseOf(st, i))
  {
    OthersWait(p, st, i);
    StepKeepsSettled(p, st);
    assert got + [] == got;
  }

  lemma StepTells(p: Page, st: Step, past: seq<Step>)
    requires SingleFlight(p) && Enabled(p, st) && CallsTell(p, past)
    ensures CallsTell(Apply(p, st), past + [st])
  {
    var p' := Apply(p, st);
    forall i | 0 <= i < |p'.calls| ensures Tells(p', p'.calls[i], Responses(past + [st], i)) {
      ResponsesGrow(past, st, i);
      if i < |p.calls| {
        if Caller(st) == Some(i) {
          CallerTells(p, st, i, Responses(past, i));
        } else {
          OthersTell(p, st, i, Responses(past, i));
        }
      }
    }
    forall i: nat | i >= |p'.calls| ensures Responses(past + [st], i) == [] {
      ResponsesGrow(past, st, i);
    }
  }

  lemma {:induction false} RunTells(p: Page, past: seq<Step>, steps: seq<Step>)
    requires Inv(p) && Runs(p, steps) && CallsTell(p, past)
    ensures CallsTell(After(p, steps), past + steps)
    decreases |steps|
  {
    if |steps| == 0 {
      assert past + steps == past;
    } else {
      StepKeepsInv(p, steps[0]);
      StepTells(p, steps[0], past);
      RunTells(Apply(p, steps[0]), past + [steps[0]], steps[1..]);
      assert past + [steps[0]] + steps[1..] == past + steps;
    }
  }

  // ---------------------------------------------------------------- what spoils a page

  predicate SomethingInFlight(p: Page) {
    exists r :: 0 <= r < |p.refreshes| && (p.refreshes[r].Requested? || p.refreshes[r].Answering?)
  }

  /**
   * The browser may be left with a spent token: a response is lost, the server spends
   * the token without replacing it, or a refresh or a logout begins while one is in flight.
   */
  predicate Spoils(p: Page, st: Step) {
    match st
    case Lose(_) => true
    case ServeFails(r, applied) => applied && r < |p.refreshes| && p.refreshes[r].Requested?
                                   && Presentable(p, p.refreshes[r].cookie)
    case Serve(r, _) => r < |p.refreshes| && p.refreshes[r].Requested? && Presentable(p, p.refreshes[r].cookie)
                        && Unspent(p, p.refreshes[r].cookie.value)
                        && p.refreshes[r].cookie.value.subject !in p.server.users
    case TabSends => SomethingInFlight(p)
    case Logout(_) => SomethingInFlight(p)
    case Respond(i, Unauthorized) =>
      i < |p.calls| && !p.calls[i].auth && p.current.None? && SomethingInFlight(p)
    case _ => false
  }

  ghost predicate SpoiltIn(p: Page, steps: seq<Step>)
    requires Runs(p, steps)
    decreases |steps|
  {
    |steps| > 0 && (Spoils(p, steps[0]) || SpoiltIn(Apply(p, steps[0]), steps[1..]))
  }

  lemma StepSpoils(p: Page, st: Step)
    requires Enabled(p, st)
    ensures Apply(p, st).spoiled <==> p.spoiled || Spoils(p, st)
  {
    assert SomethingInFlight(p) <==> AnyInFlight(p);
  }

  lemma {:induction false} SpoiledIsTheRun(p: Page, steps: seq<Step>)
    requires Runs(p, steps)
    ensures After(p, steps).spoiled <==> p.spoiled || SpoiltIn(p, steps)
    decreases |steps|
  {
    if |steps| > 0 {
      StepSpoils(p, steps[0]);
      SpoiledIsTheRun(Apply(p, steps[0]), steps[1..]);
    }
  }

  /** Unless one of these happened in the run, no refresh of any tab was refused as a replay. */
  lemma NoReplayUnlessSpoilt(server: RT.State, steps: seq<Step>, r: nat)
    requires RT.Inv(server) && Runs(Initial(server), steps) && !SpoiltIn(Initial(server), steps)
    requires r < |After(Initial(server), steps).refreshes| && After(Initial(server), steps).refreshes[r].Answering?
    ensures After(Initial(server), steps).refreshes[r].reply != Refused(RT.Replayed)
  {
    SpoiledIsTheRun(Initial(server), steps);
    PageIsSound(server, steps);
  }

  // ---------------------------------------------------------------- how a refresh turns out

  /** Refresh r is delivered to its page, and it was granted. */
  predicate GrantArrives(p: Page, st: Step, r: nat) {
    st == Deliver(r) && r < |p.refreshes| && p.refreshes[r].Answering? && p.refreshes[r].reply.Granted?
  }

  ghost predicate GrantArrived(p: Page, steps: seq<Step>, r: nat)
    requires Runs(p, steps)
    decreases |steps|
  {
    |steps| > 0 && (GrantArrives(p, steps[0], r) || GrantArrived(Apply(p, steps[0]), steps[1..], r))
  }

  /** Refresh r counts as a success exactly if its grant has arrived. */
  predicate TurnsOut(p: Page, r: nat, arrived: bool) {
    if r >= |p.refreshes| then !arrived
    else
      match p.refreshes[r]
      case Resolved(ok) => ok <==> arrived
      case Settled(ok) => ok <==> arrived
      case _ => !arrived
  }

  lemma StepTurnsOut(p: Page, st: Step, r: nat, arrived: bool)
    requires Enabled(p, st) && TurnsOut(p, r, arrived)
    ensures TurnsOut(Apply(p, st), r, arrived || GrantArrives(p, st, r))
  {
  }

  /** A refresh succeeds for its page exactly when the server granted it and the answer arrived. */
  lemma {:induction false} RefreshSucceedsIffGranted(p: Page, steps: seq<Step>, r: nat, arrived: bool)
    requires Runs(p, steps) && TurnsOut(p, r, arrived)
    ensures TurnsOut(After(p, steps), r, arrived || GrantArrived(p, steps, r))
    decreases |steps|
  {
    if |steps| > 0 {
      StepTurnsOut(p, steps[0], r, arrived);
      RefreshSucceedsIffGranted(Apply(p, steps[0]), steps[1..], r, arrived || GrantArrives(p, steps[0], r));
    }
  }

  // ---------------------------------------------------------------- how a call ends

  /** What an ended call tells. */
  lemma EndedTells(p: Page, call: Call, got: seq<Response>)
    requires Tells(p, call, got) && call.phase.Done?
    ensures 1 <= |got| == call.fetches && (call.phase.outcome == Success <==> got[|got| - 1] == Good)
    ensures call.fetches == 2 <==> JoinedSettled(p, call, true)
    ensures call.phase.outcome == SessionExpired <==> JoinedSettled(p, call, false)
    ensures call.joined.Some? <==> got[0] == Unauthorized && !call.auth
  {
  }

  /**
   * A call that has ended was fetched as often as it got a response, and its outcome
   * is that of its last one: a second fetch was made exactly when the refresh it
   * joined succeeded, and a session reported expired exactly when that failed. It
   * joined one exactly when its first response was a 401 and it is no auth endpoint.
   */
  lemma CallsEndAsAnswered(server: RT.State, steps: seq<Step>, i: nat)
    requires RT.Inv(server) && Runs(Initial(server), steps)
    requires i < |After(Initial(server), steps).calls| && After(Initial(server), steps).calls[i].phase.Done?
    ensures var p, got := After(Initial(server), steps), Responses(steps, i);
      var call := p.calls[i];
      && 1 <= |got| == call.fetches
      && (call.phase.outcome == Success <==> got[|got| - 1] == Good)
      && (call.fetches == 2 <==> JoinedSettled(p, call, true))
      && (call.phase.outcome == SessionExpired <==> JoinedSettled(p, call, false))
      && (call.joined.Some? <==> got[0] == Unauthorized && !call.auth)
  {
    assert CallsTell(Initial(server), []);
    RunTells(Initial(server), [], steps);
    assert [] + steps == steps;
    var p := After(Initial(server), steps);
    assert Tells(p, p.calls[i], Responses(steps, i));
    EndedTells(p, p.calls[i], Responses(steps, i));
  }
}
