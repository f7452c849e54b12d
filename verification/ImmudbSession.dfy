/**
 * immudb session recovery: request goroutines and the SDK's heartbeat share one
 * client behind a mutex, and a generation counter keeps requests that lost the
 * same session from reopening it twice.
 */
module ImmudbSession {
  import opened Outcomes

  // ---------------------------------------------------------------- the guarded fields

  /** The installed client, named by the order in which clients were opened, and the generation. */
  datatype Session = Session(client: nat, generation: nat, clients: nat)

  /** Reopen unless someone already did; a failed open changes nothing. */
  function Reconnected(s: Session, observed: nat, opens: bool): (Session, bool) {
    if s.generation != observed then (s, true)
    else if !opens then (s, false)
    else (Session(s.clients, s.generation + 1, s.clients + 1), true)
  }

  class RealImmudbClient {
    var client: nat
    var generation: nat
    var clients: nat

    constructor ()
      ensures State() == Session(0, 0, 1)
    {
      client, generation, clients := 0, 0, 1;
    }

    function State(): Session
      reads this
    {
      Session(client, generation, clients)
    }

    /** Called with the mutex held. */
    method ReconnectLocked(observedGen: nat, opens: bool) returns (ok: bool)
      modifies this
      ensures (State(), ok) == Reconnected(old(State()), observedGen, opens)
    {
      if generation != observedGen {
        return true;
      }
      if !opens {
        return false;
      }
      client, clients := clients, clients + 1;
      generation := generation + 1;
      ok := true;
    }
  }

  // ---------------------------------------------------------------- goroutines

  datatype Phase =
    | WantRead                    // waiting for the mutex to read client and generation
    | Reading                     // holding it
    | Calling                     // first attempt, without the mutex
    | WantRecover                 // the session was lost: waiting for the mutex
    | Recovering                  // holding it, about to reconnect
    | Unlocking(ok: bool)         // holding it, reconnect returned
    | Retrying                    // second attempt, without the mutex
    | Done

  /**
   * `lost` is the generation whose session this goroutine saw fail; `used` the
   * client of its latest attempt and `usedAt` the generation it was installed at.
   */
  datatype Thread = Thread(heartbeat: bool, phase: Phase, lost: nat, used: nat, usedAt: nat, attempts: nat)

  datatype Reopening = Reopening(from: nat, thread: nat)

  /** `installed` lists the client of every generation; `log` every successful reconnect. */
  datatype State = State(
    session: Session, lock: Option<nat>, threads: seq<Thread>,
    installed: seq<nat>, log: seq<Reopening>)

  datatype Answer = Good | SessionLost | OtherError

  datatype Step =
    | Request
    | Heartbeat(of: nat)
    | Acquire(t: nat)
    | Capture(t: nat)
    | Call(t: nat, answer: Answer)
    | Reconnect(t: nat, opens: bool)
    | Unlock(t: nat)
    | Retry(t: nat)

  const INITIAL := State(Session(0, 0, 1), None, [], [0], [])

  predicate At(s: State, t: nat, phase: Phase) {
    t < |s.threads| && s.threads[t].phase == phase
  }

  /** A heartbeat reports the loss of the session of some generation so far. */
  predicate Enabled(s: State, st: Step) {
    match st
    case Request => true
    case Heartbeat(of) => of <= s.session.generation
    case Acquire(t) => (At(s, t, WantRead) || At(s, t, WantRecover)) && s.lock.None?
    case Capture(t) => At(s, t, Reading)
    case Call(t, _) => At(s, t, Calling)
    case Reconnect(t, _) => At(s, t, Recovering)
    case Unlock(t) => t < |s.threads| && s.threads[t].phase.Unlocking?
    case Retry(t) => At(s, t, Retrying)
  }

  function Set(s: State, t: nat, thread: Thread): State
    requires t < |s.threads|
  {
    s.(threads := s.threads[t := thread])
  }

  /** The generation a goroutine passes to the reconnect: a request its own, the heartbeat whatever is current. */
  function Observed(s: State, t: nat): nat
    requires t < |s.threads|
  {
    if s.threads[t].heartbeat then s.session.generation else s.threads[t].lost
  }

  function Apply(s: State, st: Step): State
    requires Enabled(s, st)
  {
    match st
    case Request => s.(threads := s.threads + [Thread(false, WantRead, 0, 0, 0, 0)])
    case Heartbeat(of) => s.(threads := s.threads + [Thread(true, WantRecover, of, 0, 0, 0)])
    case Acquire(t) =>
      Set(s, t, s.threads[t].(phase := if s.threads[t].phase.WantRead? then Reading else Recovering)).(lock := Some(t))
    case Capture(t) =>
      var th := s.threads[t];
      Set(s, t, th.(phase := Calling, used := s.session.client, usedAt := s.session.generation)).(lock := None)
    case Call(t, answer) =>
      var th := s.threads[t].(attempts := s.threads[t].attempts + 1);
      Set(s, t, if answer.SessionLost? then th.(phase := WantRecover, lost := th.usedAt) else th.(phase := Done))
    case Reconnect(t, opens) =>
      var (session, ok) := Reconnected(s.session, Observed(s, t), opens);
      var s' := Set(s, t, s.threads[t].(phase := Unlocking(ok), used := session.client, usedAt := session.generation))
                .(session := session);
      if session == s.session then s'
      else s'.(installed := s.installed + [session.client], log := s.log + [Reopening(s.session.generation, t)])
    case Unlock(t) =>
      var th := s.threads[t];
      Set(s, t, th.(phase := if th.heartbeat || !th.phase.ok then Done else Retrying)).(lock := None)
    case Retry(t) => Set(s, t, s.threads[t].(phase := Done, attempts := s.threads[t].attempts + 1))
  }

  ghost predicate Runs(s: State, steps: seq<Step>)
    decreases |steps|
  {
    |steps| > 0 ==> Enabled(s, steps[0]) && Runs(Apply(s, steps[0]), steps[1..])
  }

  ghost function After(s: State, steps: seq<Step>): State
    requires Runs(s, steps)
    decreases |steps|
  {
    if |steps| == 0 then s else After(Apply(s, steps[0]), steps[1..])
  }

  // ---------------------------------------------------------------- invariants

  predicate Recovery(p: Phase) { p.WantRecover? || p.Recovering? || p.Unlocking? }

  predicate Holding(p: Phase) { p.Reading? || p.Recovering? || p.Unlocking? }

  /** The mutex is held by exactly the goroutine that is inside a guarded section. */
  ghost predicate LockInv(s: State) {
    && (forall t :: 0 <= t < |s.threads| && Holding(s.threads[t].phase) ==> s.lock == Some(t))
    && (s.lock.Some? ==> s.lock.value < |s.threads| && Holding(s.threads[s.lock.value].phase))
  }

  /** The generation counts the successful reconnects, each out of the generation before it. */
  ghost predicate GenerationInv(s: State) {
    && s.session.generation == |s.log|
    && |s.installed| == |s.log| + 1 && s.session.client == s.installed[|s.log|]
    && (forall g :: 0 <= g < |s.log| ==> s.log[g].from == g)
    && (forall g :: 0 <= g < |s.installed| ==> s.installed[g] < s.session.clients)
    && (forall g, h :: 0 <= g < h < |s.installed| ==> s.installed[g] < s.installed[h])
  }

  ghost predicate ThreadInv(s: State, th: Thread) {
    && th.lost <= s.session.generation && th.usedAt <= s.session.generation
    && (th.phase.Calling? || th.phase.Retrying? || (th.phase.Unlocking? && th.phase.ok) || th.attempts > 0 ==>
          th.usedAt < |s.installed| && th.used == s.installed[th.usedAt])
    && (th.heartbeat ==> th.attempts == 0 && (Recovery(th.phase) || th.phase.Done?))
    && (th.phase.WantRead? || th.phase.Reading? || th.phase.Calling? ==> th.attempts == 0)
    && (!th.heartbeat && (Recovery(th.phase) || th.phase.Retrying?) ==>
          th.attempts == 1)
    && (!th.heartbeat && th.phase.Unlocking? && th.phase.ok ==> th.lost < th.usedAt)
    && (th.phase.Retrying? || th.attempts == 2 ==> th.lost < th.usedAt)
    && th.attempts <= 2
  }

  ghost predicate Inv(s: State) {
    LockInv(s) && GenerationInv(s) && forall t :: 0 <= t < |s.threads| ==> ThreadInv(s, s.threads[t])
  }

  lemma StepKeepsLock(s: State, st: Step)
    requires LockInv(s) && Enabled(s, st)
    ensures LockInv(Apply(s, st))
  {
  }

  lemma StepKeepsGeneration(s: State, st: Step)
    requires GenerationInv(s) && Enabled(s, st)
    ensures GenerationInv(Apply(s, st))
    ensures s.installed <= Apply(s, st).installed && s.log <= Apply(s, st).log
  {
  }

  /** What holds of a goroutine stays true while others reconnect. */
  lemma ThreadKeepsItsInv(s: State, s': State, th: Thread)
    requires GenerationInv(s) && GenerationInv(s') && s.installed <= s'.installed && ThreadInv(s, th)
    ensures ThreadInv(s', th)
  {
  }

  /** The goroutine a step belongs to. */
  function Actor(st: Step): Option<nat> {
    match st
    case Request => None
    case Heartbeat(_) => None
    case Acquire(t) => Some(t)
    case Capture(t) => Some(t)
    case Call(t, _) => Some(t)
    case Reconnect(t, _) => Some(t)
    case Unlock(t) => Some(t)
    case Retry(t) => Some(t)
  }

  lemma ActorKeepsItsInv(s: State, st: Step, t: nat)
    requires GenerationInv(s) && Enabled(s, st) && Actor(st) == Some(t) && ThreadInv(s, s.threads[t])
    ensures ThreadInv(Apply(s, st), Apply(s, st).threads[t])
  {
    StepKeepsGeneration(s, st);
  }

  lemma StepKeepsThread(s: State, st: Step, t: nat)
    requires GenerationInv(s) && Enabled(s, st) && t < |Apply(s, st).threads|
    requires forall k :: 0 <= k < |s.threads| ==> ThreadInv(s, s.threads[k])
    ensures ThreadInv(Apply(s, st), Apply(s, st).threads[t])
  {
    if Actor(st) == Some(t) {
      ActorKeepsItsInv(s, st, t);
    } else if t < |s.threads| {
      StepKeepsGeneration(s, st);
      ThreadKeepsItsInv(s, Apply(s, st), s.threads[t]);
    }
  }

  lemma StepKeepsInv(s: State, st: Step)
    requires Inv(s) && Enabled(s, st)
    ensures Inv(Apply(s, st))
  {
    StepKeepsLock(s, st);
    StepKeepsGeneration(s, st);
    forall t | 0 <= t < |Apply(s, st).threads| ensures ThreadInv(Apply(s, st), Apply(s, st).threads[t]) {
      StepKeepsThread(s, st, t);
    }
  }

  lemma {:induction false} RunKeepsInv(s: State, steps: seq<Step>)
    requires Inv(s) && Runs(s, steps)
    ensures Inv(After(s, steps))
    decreases |steps|
  {
    if |steps| > 0 {
      StepKeepsInv(s, steps[0]);
      RunKeepsInv(Apply(s, steps[0]), steps[1..]);
    }
  }

  /**
   * In every interleaving of requests and heartbeats: one goroutine at a time is
   * inside the mutex, the generation counts the reconnects, each generation is
   * left at most once, a statement runs at most twice, and a retry uses the client
   * of a strictly later generation than the one that failed.
   */
  lemma RecoveryIsSound(steps: seq<Step>)
    requires Runs(INITIAL, steps)
    ensures var s := After(INITIAL, steps);
      && (forall t, u :: 0 <= t < u < |s.threads| ==> !(Holding(s.threads[t].phase) && Holding(s.threads[u].phase)))
      && s.session.generation == |s.log|
      && (forall i, j :: 0 <= i < j < |s.log| ==> s.log[i].from != s.log[j].from)
      && (forall t :: 0 <= t < |s.threads| ==> s.threads[t].attempts <= 2)
      && (forall t :: 0 <= t < |s.threads| && (s.threads[t].phase.Retrying? || s.threads[t].attempts == 2) ==>
            var th := s.threads[t];
            && th.lost < th.usedAt < |s.installed| && th.used == s.installed[th.usedAt]
            && s.installed[th.lost] < th.used)
  {
    RunKeepsInv(INITIAL, steps);
    var s := After(INITIAL, steps);
    forall t | 0 <= t < |s.threads| ensures ThreadInv(s, s.threads[t]) {}
  }

  /** A request reopens the session only if the generation it lost is still installed. */
  lemma RequestReopensIffCurrent(s: State, t: nat, opens: bool)
    requires Inv(s) && Enabled(s, Reconnect(t, opens)) && !s.threads[t].heartbeat
    ensures |Apply(s, Reconnect(t, opens)).log| > |s.log| <==> opens && s.threads[t].lost == s.session.generation
  {
  }

  /** The heartbeat reopens whatever is installed, even after a request has already replaced the session it lost. */
  lemma HeartbeatReopensIffItCan(s: State, t: nat, opens: bool)
    requires Inv(s) && Enabled(s, Reconnect(t, opens)) && s.threads[t].heartbeat
    ensures |Apply(s, Reconnect(t, opens)).log| > |s.log| <==> opens
  {
  }

  lemma {:induction false} RunThen(s: State, steps: seq<Step>, st: Step)
    requires Runs(s, steps) && Enabled(After(s, steps), st)
    ensures Runs(s, steps + [st]) && After(s, steps + [st]) == Apply(After(s, steps), st)
    decreases |steps|
  {
    if |steps| == 0 {
      assert steps + [st] == [st];
      assert Runs(Apply(s, st), []);
    } else {
      assert (steps + [st])[1..] == steps[1..] + [st];
      RunThen(Apply(s, steps[0]), steps[1..], st);
    }
  }

  /** So one lost session can be reopened twice: by the request that hit it and by its own heartbeat. */
  lemma HeartbeatReopensAReplacedSession() returns (steps: seq<Step>, t: nat)
    ensures Runs(INITIAL, steps)
    ensures var s := After(INITIAL, steps);
      && Enabled(s, Reconnect(t, true)) && s.threads[t].heartbeat && s.threads[t].lost < s.session.generation
      && Apply(s, Reconnect(t, true)).session.generation == s.session.generation + 1
  {
    steps := [];
    RunThen(INITIAL, steps, Request);
    steps := steps + [Request];
    RunThen(INITIAL, steps, Heartbeat(0));
    steps := steps + [Heartbeat(0)];
    RunThen(INITIAL, steps, Acquire(0));
    steps := steps + [Acquire(0)];
    RunThen(INITIAL, steps, Capture(0));
    steps := steps + [Capture(0)];
    RunThen(INITIAL, steps, Call(0, SessionLost));
    steps := steps + [Call(0, SessionLost)];
    RunThen(INITIAL, steps, Acquire(0));
    steps := steps + [Acquire(0)];
    RunThen(INITIAL, steps, Reconnect(0, true));
    steps := steps + [Reconnect(0, true)];
    RunThen(INITIAL, steps, Unlock(0));
    steps := steps + [Unlock(0)];
    RunThen(INITIAL, steps, Acquire(1));
    steps := steps + [Acquire(1)];
    t := 1;
  }

  // ---------------------------------------------------------------- progress

  /** The next step of a goroutine that need not wait. */
  function NextStep(s: State, t: nat): Step
    requires t < |s.threads|
  {
    match s.threads[t].phase
    case WantRead => Acquire(t)
    case WantRecover => Acquire(t)
    case Reading => Capture(t)
    case Calling => Call(t, Good)
    case Recovering => Reconnect(t, true)
    case Unlocking(_) => Unlock(t)
    case Retrying => Retry(t)
    case Done => Retry(t)
  }

  /** If some goroutine is unfinished, some goroutine can move: the mutex never deadlocks. */
  lemma NeverStuck(s: State, t: nat) returns (u: nat)
    requires Inv(s) && t < |s.threads| && !s.threads[t].phase.Done?
    ensures u < |s.threads| && Enabled(s, NextStep(s, u))
  {
    u := if s.lock.Some? then s.lock.value else t;
  }
}
