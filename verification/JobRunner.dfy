/**
 * The data-rights job runner: N workers behind a slot semaphore, a queue counter,
 * a side table of per-job values, a status table that survives crashes, panic
 * recovery, and re-submission of unfinished jobs at start-up.
 *
 * Each worker action other goroutines can observe is one step, and so are the
 * requests that create jobs, the crash of the process and its restart.
 */
module JobRunner {
  import opened Outcomes

  // ---------------------------------------------------------------- persistent jobs

  datatype Status = Pending | Running | Completed | Failed

  datatype Job = Job(userId: string, createdAt: int, status: Status, fileSize: Option<int>, error: string)

  type Jobs = map<string, Job>

  predicate Terminal(status: Status) { status.Completed? || status.Failed? }

  function NonTerminal(db: Jobs): set<string> {
    set id | id in db && !Terminal(db[id].status)
  }

  /** The only ways a status may change. */
  predicate MayBecome(a: Status, b: Status) {
    a == b || (a.Pending? && b.Running?) || (a.Running? && Terminal(b))
  }

  /** A job is never re-assigned, its status moves forward only, and a terminal row is final. */
  predicate RowMoves(before: Job, after: Job) {
    && after.userId == before.userId && after.createdAt == before.createdAt
    && MayBecome(before.status, after.status)
    && (Terminal(before.status) ==> after == before)
  }

  /** Jobs are never removed, their rows move, and new ones are pending. */
  ghost predicate StatusMoves(db: Jobs, db': Jobs) {
    && db.Keys <= db'.Keys
    && (forall id :: id in db ==> RowMoves(db[id], db'[id]))
    && (forall id :: id in db' && id !in db ==> db'[id].status.Pending?)
  }

  // ---------------------------------------------------------------- the running process

  datatype Phase =
    | Queued | Acquired | Starting | Executing | Working(email: string)
    | Failing(reason: string) | Completing | Releasing | Done

  /** `email` and `size` record what was submitted and what the strategy returned. */
  datatype Worker = Worker(jobId: string, email: string, size: int, phase: Phase)

  datatype SideState = SideState(email: string, fileSize: int)

  datatype Process = Down | Booting(todo: set<string>) | Serving

  /**
   * `lost` are the jobs of this incarnation with a failed status write;
   * `submissions`, `runs` and `mails` record the whole history.
   */
  datatype State = State(
    db: Jobs, process: Process,
    workers: seq<Worker>, queued: int, slots: int,
    side: map<string, SideState>, unsubmitted: set<string>, lost: set<string>,
    submissions: set<(string, string)>, runs: seq<string>, mails: seq<(string, string, int)>)

  datatype Verdict = Delivered(size: int) | Broken(reason: string) | Panicked

  datatype Step =
    | Create(id: string, userId: string, at: int)
    | Submit(id: string, email: string)
    | Boot | Recover(id: string, email: string) | StartServing | Crash
    | Acquire(w: nat) | Count(w: nat) | Start(w: nat, write: Write) | Load(w: nat)
    | Work(w: nat, result: Verdict)
    | Fail(w: nat, write: Write) | Complete(w: nat, write: Write) | Release(w: nat)

  const PANIC_REASON := "Job failed unexpectedly"

  function Initial(db: Jobs): State {
    State(db, Down, [], 0, 0, map[], {}, {}, {}, [], [])
  }

  predicate At(s: State, w: nat, phase: Phase) {
    w < |s.workers| && s.workers[w].phase == phase
  }

  predicate Enabled(capacity: nat, s: State, st: Step) {
    match st
    case Create(id, _, _) => s.process.Serving? && id !in s.db
    case Submit(id, _) => s.process.Serving? && id in s.unsubmitted
    case Boot => s.process.Down?
    case Recover(id, _) => s.process.Booting? && id in s.process.todo
    case StartServing => s.process == Booting({})
    case Crash => !s.process.Down?
    case Acquire(w) => At(s, w, Queued) && s.slots < capacity
    case Count(w) => At(s, w, Acquired)
    case Start(w, _) => At(s, w, Starting)
    case Load(w) => At(s, w, Executing)
    case Work(w, _) => w < |s.workers| && s.workers[w].phase.Working?
    case Fail(w, _) => w < |s.workers| && s.workers[w].phase.Failing?
    case Complete(w, _) => At(s, w, Completing)
    case Release(w) => At(s, w, Releasing)
  }

  function Moved(s: State, w: nat, phase: Phase): State
    requires w < |s.workers|
  {
    s.(workers := s.workers[w := s.workers[w].(phase := phase)])
  }

  /** Store the per-job values, count the job as queued, spawn its worker. */
  function Submitted(s: State, id: string, email: string): State {
    s.(side := s.side[id := SideState(email, 0)], queued := s.queued + 1,
       submissions := s.submissions + {(id, email)},
       workers := s.workers + [Worker(id, email, 0, Queued)])
  }

  function WithStatus(db: Jobs, id: string, status: Status): Jobs {
    if id in db then db[id := db[id].(status := status)] else db
  }

  /** The repository's status write: applied or not, and acknowledged or not. */
  function Written(s: State, id: string, after: Jobs, write: Write): State {
    s.(db := if write.Rejected? then s.db else after,
       lost := if write.Acknowledged? then s.lost else s.lost + {id})
  }

  function SideOf(s: State, id: string): SideState {
    if id in s.side then s.side[id] else SideState("", 0)
  }

  function Apply(capacity: nat, s: State, st: Step): State
    requires Enabled(capacity, s, st)
  {
    match st
    case Create(id, userId, at) =>
      s.(db := s.db[id := Job(userId, at, Pending, None, "")], unsubmitted := s.unsubmitted + {id})
    case Submit(id, email) => Submitted(s, id, email).(unsubmitted := s.unsubmitted - {id})
    case Boot => s.(process := Booting(NonTerminal(s.db)))
    case Recover(id, email) => Submitted(s, id, email).(process := Booting(s.process.todo - {id}))
    case StartServing => s.(process := Serving)
    case Crash =>
      s.(process := Down, workers := [], queued := 0, slots := 0, side := map[], unsubmitted := {}, lost := {})
    case Acquire(w) => Moved(s, w, Acquired).(slots := s.slots + 1)
    case Count(w) => Moved(s, w, Starting).(queued := s.queued - 1)
    case Start(w, write) =>
      var id := s.workers[w].jobId;
      var s' := Written(s, id, WithStatus(s.db, id, Running), write);
      if write.Acknowledged? then Moved(s', w, Executing)
      else Moved(s', w, Releasing).(side := s.side - {id})
    case Load(w) =>
      var id := s.workers[w].jobId;
      Moved(s, w, Working(SideOf(s, id).email)).(runs := s.runs + [id])
    case Work(w, result) =>
      var id := s.workers[w].jobId;
      (match result
       case Delivered(size) =>
         var s' := s.(workers := s.workers[w := s.workers[w].(size := size, phase := Completing)],
                      mails := s.mails + [(id, s.workers[w].phase.email, size)]);
         if id in s.side then s'.(side := s.side[id := s.side[id].(fileSize := size)]) else s'
       case Broken(reason) => Moved(s, w, Failing(reason))
       case Panicked => Moved(s, w, Failing(PANIC_REASON)))
    case Fail(w, write) =>
      var id := s.workers[w].jobId;
      var after := if id in s.db
                   then s.db[id := s.db[id].(status := Status.Failed, error := s.workers[w].phase.reason)] else s.db;
      Moved(Written(s, id, after, write), w, Releasing).(side := s.side - {id})
    case Complete(w, write) =>
      var id := s.workers[w].jobId;
      var after := if id in s.db
                   then s.db[id := s.db[id].(status := Completed, fileSize := Some(SideOf(s, id).fileSize))] else s.db;
      Moved(Written(s, id, after, write), w, Releasing).(side := s.side - {id})
    case Release(w) => Moved(s, w, Done).(slots := s.slots - 1)
  }

  ghost predicate Runs(capacity: nat, s: State, steps: seq<Step>)
    decreases |steps|
  {
    |steps| > 0 ==> Enabled(capacity, s, steps[0]) && Runs(capacity, Apply(capacity, s, steps[0]), steps[1..])
  }

  ghost function After(capacity: nat, s: State, steps: seq<Step>): State
    requires Runs(capacity, s, steps)
    decreases |steps|
  {
    if |steps| == 0 then s else After(capacity, Apply(capacity, s, steps[0]), steps[1..])
  }

  // ---------------------------------------------------------------- slots and queue

  predicate Waits(p: Phase) { p.Queued? || p.Acquired? }

  predicate Holds(p: Phase) { !p.Queued? && !p.Done? }

  /** The worker has not yet made, or given up, its last status write. */
  predicate Live(p: Phase) { !p.Releasing? && !p.Done? }

  /** What is counted: workers that hold a slot, or workers the queue counter includes. */
  datatype Kind = Slot | Queue

  function Weight(kind: Kind, p: Phase): nat {
    if (if kind.Slot? then Holds(p) else Waits(p)) then 1 else 0
  }

  function Tally(ws: seq<Worker>, kind: Kind): nat {
    if |ws| == 0 then 0 else Tally(ws[..|ws| - 1], kind) + Weight(kind, ws[|ws| - 1].phase)
  }

  lemma {:induction false} TallyUpdate(ws: seq<Worker>, w: nat, wk: Worker, kind: Kind)
    requires w < |ws|
    ensures Tally(ws[w := wk], kind) == Tally(ws, kind) - Weight(kind, ws[w].phase) + Weight(kind, wk.phase)
  {
    var n := |ws| - 1;
    if w == n {
      assert ws[w := wk][..n] == ws[..n];
    } else {
      assert ws[w := wk][..n] == ws[..n][w := wk];
      TallyUpdate(ws[..n], w, wk, kind);
    }
  }

  lemma TallyAppend(ws: seq<Worker>, wk: Worker, kind: Kind)
    ensures Tally(ws + [wk], kind) == Tally(ws, kind) + Weight(kind, wk.phase)
  {
    assert (ws + [wk])[..|ws|] == ws;
  }

  /** Slots taken are the workers between acquire and release; the counter is the workers not yet counted out. */
  ghost predicate CountInv(capacity: nat, s: State) {
    s.slots == Tally(s.workers, Slot) <= capacity && s.queued == Tally(s.workers, Queue)
  }

  /** The worker a step belongs to. */
  function Actor(st: Step): Option<nat> {
    match st
    case Acquire(w) => Some(w)
    case Count(w) => Some(w)
    case Start(w, _) => Some(w)
    case Load(w) => Some(w)
    case Work(w, _) => Some(w)
    case Fail(w, _) => Some(w)
    case Complete(w, _) => Some(w)
    case Release(w) => Some(w)
    case _ => None
  }

  /** A worker step changes the phase of its own worker and no other worker. */
  lemma WorkerStepIsLocal(capacity: nat, s: State, st: Step)
    requires Enabled(capacity, s, st) && Actor(st).Some?
    ensures var w := Actor(st).value;
      && w < |s.workers| == |Apply(capacity, s, st).workers|
      && Apply(capacity, s, st).workers == s.workers[w := Apply(capacity, s, st).workers[w]]
      && Apply(capacity, s, st).workers[w].jobId == s.workers[w].jobId
      && Apply(capacity, s, st).workers[w].email == s.workers[w].email
  {
  }

  /** A worker step moves the counters as it moves its own worker. */
  lemma CountersFollow(capacity: nat, s: State, st: Step)
    requires Enabled(capacity, s, st) && Actor(st).Some?
    ensures var s', w := Apply(capacity, s, st), Actor(st).value;
      && s'.slots == s.slots - Weight(Slot, s.workers[w].phase) + Weight(Slot, s'.workers[w].phase)
      && s'.queued == s.queued - Weight(Queue, s.workers[w].phase) + Weight(Queue, s'.workers[w].phase)
      && (s'.slots <= s.slots || s'.slots <= capacity)
  {
  }

  lemma WorkerStepKeepsCounts(capacity: nat, s: State, st: Step)
    requires CountInv(capacity, s) && Enabled(capacity, s, st) && Actor(st).Some?
    ensures CountInv(capacity, Apply(capacity, s, st))
  {
    var s', w := Apply(capacity, s, st), Actor(st).value;
    WorkerStepIsLocal(capacity, s, st);
    CountersFollow(capacity, s, st);
    TallyUpdate(s.workers, w, s'.workers[w], Slot);
    TallyUpdate(s.workers, w, s'.workers[w], Queue);
  }

  lemma SubmissionKeepsCounts(capacity: nat, s: State, id: string, email: string)
    requires CountInv(capacity, s)
    ensures CountInv(capacity, Submitted(s, id, email))
  {
    TallyAppend(s.workers, Worker(id, email, 0, Queued), Slot);
    TallyAppend(s.workers, Worker(id, email, 0, Queued), Queue);
  }

  lemma StepKeepsCounts(capacity: nat, s: State, st: Step)
    requires CountInv(capacity, s) && Enabled(capacity, s, st)
    ensures CountInv(capacity, Apply(capacity, s, st))
  {
    if Actor(st).Some? {
      WorkerStepKeepsCounts(capacity, s, st);
    } else if st.Submit? || st.Recover? {
      SubmissionKeepsCounts(capacity, s, st.id, st.email);
    }
  }

  // ---------------------------------------------------------------- jobs, workers and the side table

  ghost predicate OneWorkerPerJob(s: State) {
    forall v, w :: 0 <= v < w < |s.workers| ==> s.workers[v].jobId != s.workers[w].jobId
  }

  ghost predicate Unclaimed(s: State, id: string) {
    && id in s.db && !Terminal(s.db[id].status) && id !in s.side
    && forall w :: 0 <= w < |s.workers| ==> s.workers[w].jobId != id
  }

  ghost predicate WorkerInv(s: State, w: nat)
    requires w < |s.workers|
  {
    var wk := s.workers[w];
    && wk.jobId in s.db
    && (!Live(wk.phase) ==> wk.jobId !in s.side)
    && (Live(wk.phase) ==>
          && wk.jobId in s.side && s.side[wk.jobId].email == wk.email
          && (if Waits(wk.phase) || wk.phase.Starting? then !Terminal(s.db[wk.jobId].status)
              else s.db[wk.jobId].status.Running?)
          && (wk.phase.Working? ==> wk.phase.email == wk.email)
          && (wk.phase.Completing? ==> s.side[wk.jobId].fileSize == wk.size))
  }

  ghost predicate HasLiveWorker(s: State, id: string) {
    exists w :: 0 <= w < |s.workers| && s.workers[w].jobId == id && Live(s.workers[w].phase)
  }

  ghost predicate OwnInv(s: State) {
    && OneWorkerPerJob(s)
    && (forall w :: 0 <= w < |s.workers| ==> WorkerInv(s, w))
    && (forall id :: id in s.unsubmitted ==> Unclaimed(s, id))
    && (s.process.Booting? ==> s.unsubmitted == {} && forall id :: id in s.process.todo ==> Unclaimed(s, id))
    && (s.process.Down? ==> s.workers == [] && s.side == map[] && s.unsubmitted == {})
    && (forall id :: id in s.side ==> HasLiveWorker(s, id))
  }

  /** Every unfinished job is someone's: a request's, recovery's, a worker's, or marked by a failed write. */
  ghost predicate Accounted(s: State, id: string) {
    || id in s.unsubmitted || (s.process.Booting? && id in s.process.todo)
    || HasLiveWorker(s, id) || id in s.lost
  }

  ghost predicate CoverInv(s: State) {
    !s.process.Down? ==> forall id :: id in s.db && !Terminal(s.db[id].status) ==> Accounted(s, id)
  }

  /** A status write happens in the state it expects. */
  lemma WorkerMovesItsRow(capacity: nat, s: State, st: Step)
    requires OwnInv(s) && Enabled(capacity, s, st) && Actor(st).Some?
    ensures var own := s.workers[Actor(st).value].jobId;
      own in s.db && own in Apply(capacity, s, st).db && RowMoves(s.db[own], Apply(capacity, s, st).db[own])
  {
    assert WorkerInv(s, Actor(st).value);
  }

  lemma StepKeepsStatuses(capacity: nat, s: State, st: Step)
    requires OwnInv(s) && Enabled(capacity, s, st)
    ensures StatusMoves(s.db, Apply(capacity, s, st).db)
  {
    if Actor(st).Some? {
      WorkerMovesItsRow(capacity, s, st);
      WorkerStepIsOwnJob(capacity, s, st);
    }
  }

  /** A worker step touches the row and the side entry of its own job only. */
  lemma WorkerStepIsOwnJob(capacity: nat, s: State, st: Step)
    requires OwnInv(s) && Enabled(capacity, s, st) && Actor(st).Some?
    ensures var s' := Apply(capacity, s, st);
      var own := s.workers[Actor(st).value].jobId;
      && s'.db.Keys == s.db.Keys && s'.process == s.process && s'.unsubmitted == s.unsubmitted
      && (forall id :: id in s.db && id != own ==> s'.db[id] == s.db[id])
      && (forall id :: id != own ==> ((id in s'.side) == (id in s.side)))
      && (forall id :: id in s.side && id != own ==> s'.side[id] == s.side[id])
  {
    assert WorkerInv(s, Actor(st).value);
  }

  lemma ActorKeepsItsInv(capacity: nat, s: State, st: Step)
    requires OwnInv(s) && Enabled(capacity, s, st) && Actor(st).Some?
    ensures var s' := Apply(capacity, s, st);
      Actor(st).value < |s'.workers| && WorkerInv(s', Actor(st).value)
  {
    assert WorkerInv(s, Actor(st).value);
    match st
    case Start(_, _) => WriterKeepsItsInv(capacity, s, st);
    case Fail(_, _) => WriterKeepsItsInv(capacity, s, st);
    case Complete(_, _) => WriterKeepsItsInv(capacity, s, st);
    case _ =>
  }

  lemma WriterKeepsItsInv(capacity: nat, s: State, st: Step)
    requires Enabled(capacity, s, st) && (st.Start? || st.Fail? || st.Complete?) && WorkerInv(s, st.w)
    ensures st.w < |Apply(capacity, s, st).workers| && WorkerInv(Apply(capacity, s, st), st.w)
  {
  }

  lemma LiveWorkerStays(s: State, s': State, v: nat, id: string)
    requires v < |s.workers| <= |s'.workers| && s'.workers[v] == s.workers[v]
    requires s.workers[v].jobId == id && Live(s.workers[v].phase)
    ensures HasLiveWorker(s', id)
  {
  }

  lemma WorkerStepKeepsOwn(capacity: nat, s: State, st: Step)
    requires OwnInv(s) && Enabled(capacity, s, st) && Actor(st).Some?
    ensures OwnInv(Apply(capacity, s, st))
  {
    var s', w := Apply(capacity, s, st), Actor(st).value;
    WorkerStepIsLocal(capacity, s, st);
    WorkerStepIsOwnJob(capacity, s, st);
    ActorKeepsItsInv(capacity, s, st);
    var own := s.workers[w].jobId;
    forall v, u | 0 <= v < u < |s'.workers| ensures s'.workers[v].jobId != s'.workers[u].jobId {
      assert s.workers[v].jobId != s.workers[u].jobId;
    }
    forall v | 0 <= v < |s'.workers| ensures WorkerInv(s', v) {
      if v != w {
        assert WorkerInv(s, v);
        assert s.workers[v].jobId != own;
      }
    }
    forall id | Unclaimed(s, id) ensures Unclaimed(s', id) {
      assert s.workers[w].jobId != id;
      assert forall v :: 0 <= v < |s'.workers| ==> s'.workers[v].jobId == s.workers[v].jobId;
    }
    forall id | id in s'.side ensures HasLiveWorker(s', id) {
      if id == own {
        assert WorkerInv(s', w);
      } else {
        assert HasLiveWorker(s, id);
        var v :| 0 <= v < |s.workers| && s.workers[v].jobId == id && Live(s.workers[v].phase);
        LiveWorkerStays(s, s', v, id);
      }
    }
  }

  lemma SubmissionKeepsOwn(capacity: nat, s: State, st: Step)
    requires OwnInv(s) && Enabled(capacity, s, st) && (st.Submit? || st.Recover?)
    ensures OwnInv(Apply(capacity, s, st))
  {
    var s' := Apply(capacity, s, st);
    var id := st.id;
    assert Unclaimed(s, id);
    assert HasLiveWorker(s', id) by {
      assert s'.workers[|s.workers|].jobId == id;
    }
    forall v | 0 <= v < |s'.workers| ensures WorkerInv(s', v) {
      if v < |s.workers| {
        assert WorkerInv(s, v);
        assert s.workers[v].jobId != id;
      }
    }
    forall other | other != id && Unclaimed(s, other) ensures Unclaimed(s', other) {
    }
    forall other | other in s'.side ensures HasLiveWorker(s', other) {
      if other != id {
        assert HasLiveWorker(s, other);
        var v :| 0 <= v < |s.workers| && s.workers[v].jobId == other && Live(s.workers[v].phase);
        LiveWorkerStays(s, s', v, other);
      }
    }
  }

  lemma SideIsKnown(s: State, id: string)
    requires OwnInv(s) && id in s.side
    ensures id in s.db
  {
    assert HasLiveWorker(s, id);
    var v :| 0 <= v < |s.workers| && s.workers[v].jobId == id && Live(s.workers[v].phase);
    assert WorkerInv(s, v);
  }

  lemma ProcessStepKeepsOwn(capacity: nat, s: State, st: Step)
    requires OwnInv(s) && Enabled(capacity, s, st) && (st.Create? || st.Boot? || st.StartServing? || st.Crash?)
    ensures OwnInv(Apply(capacity, s, st))
  {
    var s' := Apply(capacity, s, st);
    if !st.Crash? {
      forall v | 0 <= v < |s'.workers| ensures WorkerInv(s', v) {
        assert WorkerInv(s, v);
      }
      if st.Create? {
        forall v | 0 <= v < |s.workers| ensures s.workers[v].jobId != st.id {
          assert WorkerInv(s, v);
        }
        forall id | id in s.side ensures id in s.db {
          SideIsKnown(s, id);
        }
        assert forall id :: Unclaimed(s, id) ==> Unclaimed(s', id);
      } else {
        assert forall id :: Unclaimed(s, id) ==> Unclaimed(s', id);
      }
      forall id | id in s'.side ensures HasLiveWorker(s', id) {
        assert HasLiveWorker(s, id);
        var v :| 0 <= v < |s.workers| && s.workers[v].jobId == id && Live(s.workers[v].phase);
        LiveWorkerStays(s, s', v, id);
      }
    }
  }

  lemma StepKeepsOwn(capacity: nat, s: State, st: Step)
    requires OwnInv(s) && Enabled(capacity, s, st)
    ensures OwnInv(Apply(capacity, s, st))
  {
    if Actor(st).Some? {
      WorkerStepKeepsOwn(capacity, s, st);
    } else if st.Submit? || st.Recover? {
      SubmissionKeepsOwn(capacity, s, st);
    } else {
      ProcessStepKeepsOwn(capacity, s, st);
    }
  }

  lemma AccountedStays(s: State, s': State, id: string, own: nat)
    requires Accounted(s, id) && s.process == s'.process && s.lost <= s'.lost && s.unsubmitted == s'.unsubmitted
    requires own < |s.workers| == |s'.workers| && s.workers[own].jobId != id
    requires forall v :: 0 <= v < |s.workers| && v != own ==> s'.workers[v] == s.workers[v]
    ensures Accounted(s', id)
  {
  }

  lemma WorkerStepKeepsCover(capacity: nat, s: State, st: Step, id: string)
    requires OwnInv(s) && CoverInv(s) && Enabled(capacity, s, st) && Actor(st).Some? && !s.process.Down?
    requires id in Apply(capacity, s, st).db && !Terminal(Apply(capacity, s, st).db[id].status)
    ensures Accounted(Apply(capacity, s, st), id)
  {
    var s', w := Apply(capacity, s, st), Actor(st).value;
    WorkerStepIsLocal(capacity, s, st);
    WorkerStepIsOwnJob(capacity, s, st);
    if id != s.workers[w].jobId {
      AccountedStays(s, s', id, w);
    } else if Live(s'.workers[w].phase) {
      assert HasLiveWorker(s', id);
    } else {
      FinishedOrLost(capacity, s, st);
    }
  }

  lemma OtherStepKeepsCover(capacity: nat, s: State, st: Step, id: string)
    requires OwnInv(s) && CoverInv(s) && Enabled(capacity, s, st)
    requires Actor(st).None? && !Apply(capacity, s, st).process.Down?
    requires id in Apply(capacity, s, st).db && !Terminal(Apply(capacity, s, st).db[id].status)
    ensures Accounted(Apply(capacity, s, st), id)
  {
    var s' := Apply(capacity, s, st);
    if !st.Boot? && !(st.Create? && id == st.id) {
      assert Accounted(s, id);
      if HasLiveWorker(s, id) {
        var v :| 0 <= v < |s.workers| && s.workers[v].jobId == id && Live(s.workers[v].phase);
        LiveWorkerStays(s, s', v, id);
      } else if (st.Submit? || st.Recover?) && id == st.id {
        assert s'.workers[|s.workers|].jobId == id;
      }
    }
  }

  lemma StepKeepsCover(capacity: nat, s: State, st: Step)
    requires OwnInv(s) && CoverInv(s) && Enabled(capacity, s, st)
    ensures CoverInv(Apply(capacity, s, st))
  {
    var s' := Apply(capacity, s, st);
    if !s'.process.Down? {
      forall id | id in s'.db && !Terminal(s'.db[id].status) ensures Accounted(s', id) {
        if Actor(st).Some? {
          WorkerStepKeepsCover(capacity, s, st, id);
        } else {
          OtherStepKeepsCover(capacity, s, st, id);
        }
      }
    }
  }

  /** A worker that stops being live leaves its job terminal or marked lost, unless it was marked already. */
  lemma FinishedOrLost(capacity: nat, s: State, st: Step)
    requires OwnInv(s) && CoverInv(s) && Enabled(capacity, s, st) && Actor(st).Some?
    requires var w := Actor(st).value; !s.process.Down? && !Live(Apply(capacity, s, st).workers[w].phase)
    ensures var s' := Apply(capacity, s, st);
      var own := s.workers[Actor(st).value].jobId;
      own in s'.db && (Terminal(s'.db[own].status) || own in s'.lost)
  {
    var w := Actor(st).value;
    assert WorkerInv(s, w);
    if st.Release? {
      var own := s.workers[w].jobId;
      if !Terminal(s.db[own].status) {
        assert Accounted(s, own);
        NotLiveNotOwned(s, w);
      }
    }
  }

  lemma NotLiveNotOwned(s: State, w: nat)
    requires OwnInv(s) && w < |s.workers| && !Live(s.workers[w].phase)
    ensures var own := s.workers[w].jobId;
      !HasLiveWorker(s, own) && own !in s.unsubmitted && (s.process.Booting? ==> own !in s.process.todo)
  {
  }

  // ---------------------------------------------------------------- what was delivered

  ghost predicate WasDelivered(s: State, id: string, size: int) {
    exists k :: 0 <= k < |s.mails| && s.mails[k].0 == id && s.mails[k].2 == size
  }

  /** Every mail went to an address submitted for its job. */
  ghost predicate MailInv(s: State) {
    && (forall w :: 0 <= w < |s.workers| ==> (s.workers[w].jobId, s.workers[w].email) in s.submissions)
    && (forall k :: 0 <= k < |s.mails| ==> (s.mails[k].0, s.mails[k].1) in s.submissions)
  }

  /** A row completed since the start carries a size one of its own deliveries returned. */
  ghost predicate SizeInv(start: Jobs, s: State, id: string)
    requires id in s.db
  {
    s.db[id].status.Completed? && !(id in start && start[id] == s.db[id]) ==>
      s.db[id].fileSize.Some? && WasDelivered(s, id, s.db[id].fileSize.value)
  }

  ghost predicate LogInv(start: Jobs, s: State) {
    && MailInv(s)
    && (forall w :: 0 <= w < |s.workers| && s.workers[w].phase.Completing? ==>
          WasDelivered(s, s.workers[w].jobId, s.workers[w].size))
    && (forall id :: id in s.db ==> SizeInv(start, s, id))
  }

  lemma DeliveredStays(s: State, s': State, id: string, size: int)
    requires WasDelivered(s, id, size) && s.mails <= s'.mails
    ensures WasDelivered(s', id, size)
  {
  }

  lemma StepKeepsMail(capacity: nat, s: State, st: Step)
    requires OwnInv(s) && MailInv(s) && Enabled(capacity, s, st)
    ensures MailInv(Apply(capacity, s, st)) && s.mails <= Apply(capacity, s, st).mails
  {
    if Actor(st).Some? {
      assert WorkerInv(s, Actor(st).value);
    }
  }

  /** Only a completion makes a row completed, with the size its own side entry holds. */
  lemma CompletionStoresTheSize(capacity: nat, s: State, st: Step, id: string)
    requires OwnInv(s) && Enabled(capacity, s, st) && id in Apply(capacity, s, st).db
    requires Apply(capacity, s, st).db[id].status.Completed?
    requires !(id in s.db && s.db[id] == Apply(capacity, s, st).db[id])
    ensures st.Complete? && id == s.workers[st.w].jobId
    ensures Apply(capacity, s, st).db[id].fileSize == Some(s.workers[st.w].size)
  {
    if Actor(st).Some? {
      assert WorkerInv(s, Actor(st).value);
    }
  }

  lemma StepKeepsSize(capacity: nat, start: Jobs, s: State, st: Step, id: string)
    requires OwnInv(s) && LogInv(start, s) && Enabled(capacity, s, st) && id in Apply(capacity, s, st).db
    ensures SizeInv(start, Apply(capacity, s, st), id)
  {
    var s' := Apply(capacity, s, st);
    StepKeepsMail(capacity, s, st);
    if id in s.db && s'.db[id] == s.db[id] {
      assert SizeInv(start, s, id);
      if s.db[id].fileSize.Some? && WasDelivered(s, id, s.db[id].fileSize.value) {
        DeliveredStays(s, s', id, s.db[id].fileSize.value);
      }
    } else if s'.db[id].status.Completed? {
      CompletionStoresTheSize(capacity, s, st, id);
      DeliveredStays(s, s', s.workers[st.w].jobId, s.workers[st.w].size);
    }
  }

  /** Only a delivery brings a worker to completion, and it is recorded. */
  lemma DeliveryIsRecorded(capacity: nat, s: State, st: Step, v: nat)
    requires Enabled(capacity, s, st) && v < |Apply(capacity, s, st).workers|
    requires Apply(capacity, s, st).workers[v].phase.Completing?
    requires !(v < |s.workers| && Apply(capacity, s, st).workers[v] == s.workers[v])
    ensures var s' := Apply(capacity, s, st); WasDelivered(s', s'.workers[v].jobId, s'.workers[v].size)
  {
    var s' := Apply(capacity, s, st);
    assert st.Work? && st.result.Delivered? && v == st.w;
    assert s'.mails[|s.mails|] == (s.workers[v].jobId, s.workers[v].phase.email, st.result.size);
  }

  lemma StepKeepsCompleting(capacity: nat, start: Jobs, s: State, st: Step, v: nat)
    requires OwnInv(s) && LogInv(start, s) && Enabled(capacity, s, st) && v < |Apply(capacity, s, st).workers|
    requires Apply(capacity, s, st).workers[v].phase.Completing?
    ensures var s' := Apply(capacity, s, st); WasDelivered(s', s'.workers[v].jobId, s'.workers[v].size)
  {
    var s' := Apply(capacity, s, st);
    if v < |s.workers| && s'.workers[v] == s.workers[v] {
      StepKeepsMail(capacity, s, st);
      DeliveredStays(s, s', s.workers[v].jobId, s.workers[v].size);
    } else {
      DeliveryIsRecorded(capacity, s, st, v);
    }
  }

  lemma StepKeepsLog(capacity: nat, start: Jobs, s: State, st: Step)
    requires OwnInv(s) && LogInv(start, s) && Enabled(capacity, s, st)
    ensures LogInv(start, Apply(capacity, s, st))
  {
    var s' := Apply(capacity, s, st);
    StepKeepsMail(capacity, s, st);
    forall v | 0 <= v < |s'.workers| && s'.workers[v].phase.Completing?
      ensures WasDelivered(s', s'.workers[v].jobId, s'.workers[v].size)
    {
      StepKeepsCompleting(capacity, start, s, st, v);
    }
    forall id | id in s'.db ensures SizeInv(start, s', id) {
      StepKeepsSize(capacity, start, s, st, id);
    }
  }

  // ---------------------------------------------------------------- runs

  ghost predicate Inv(capacity: nat, start: Jobs, s: State) {
    CountInv(capacity, s) && OwnInv(s) && CoverInv(s) && LogInv(start, s)
  }

  lemma InitialInv(capacity: nat, db: Jobs)
    ensures Inv(capacity, db, Initial(db))
  {
  }

  lemma StepKeepsInv(capacity: nat, start: Jobs, s: State, st: Step)
    requires Inv(capacity, start, s) && Enabled(capacity, s, st)
    ensures Inv(capacity, start, Apply(capacity, s, st))
  {
    StepKeepsCounts(capacity, s, st);
    StepKeepsOwn(capacity, s, st);
    StepKeepsCover(capacity, s, st);
    StepKeepsLog(capacity, start, s, st);
  }

  lemma {:induction false} RunKeepsInv(capacity: nat, start: Jobs, s: State, steps: seq<Step>)
    requires Inv(capacity, start, s) && Runs(capacity, s, steps)
    ensures Inv(capacity, start, After(capacity, s, steps))
    decreases |steps|
  {
    if |steps| > 0 {
      StepKeepsInv(capacity, start, s, steps[0]);
      RunKeepsInv(capacity, start, Apply(capacity, s, steps[0]), steps[1..]);
    }
  }

  /** How often the strategy was started for a job. */
  function Executions(runs: seq<string>, id: string): nat {
    if |runs| == 0 then 0 else Executions(runs[..|runs| - 1], id) + if runs[|runs| - 1] == id then 1 else 0
  }

  lemma StepExecutes(capacity: nat, s: State, st: Step, id: string)
    requires OwnInv(s) && Enabled(capacity, s, st) && id in s.db
    ensures id in Apply(capacity, s, st).db
    ensures Terminal(s.db[id].status) ==>
      Apply(capacity, s, st).db[id] == s.db[id]
      && Executions(Apply(capacity, s, st).runs, id) == Executions(s.runs, id)
  {
    StepKeepsStatuses(capacity, s, st);
    if st.Load? {
      assert WorkerInv(s, st.w);
      assert (s.runs + [s.workers[st.w].jobId])[..|s.runs|] == s.runs;
    }
  }

  /** Across crashes and restarts, a terminal job keeps its row and its strategy is never started again. */
  lemma {:induction false} TerminalIsFinal(capacity: nat, start: Jobs, s: State, steps: seq<Step>, id: string)
    requires Inv(capacity, start, s) && Runs(capacity, s, steps)
    requires id in s.db && Terminal(s.db[id].status)
    ensures var s' := After(capacity, s, steps);
      id in s'.db && s'.db[id] == s.db[id] && Executions(s'.runs, id) == Executions(s.runs, id)
    decreases |steps|
  {
    if |steps| > 0 {
      StepKeepsInv(capacity, start, s, steps[0]);
      StepExecutes(capacity, s, steps[0], id);
      TerminalIsFinal(capacity, start, Apply(capacity, s, steps[0]), steps[1..], id);
    }
  }

  predicate Quiescent(s: State) {
    s.process.Serving? && s.unsubmitted == {} && forall w :: 0 <= w < |s.workers| ==> s.workers[w].phase.Done?
  }

  /**
   * After any run from any job table: slots and queue are what they count, the
   * side table holds no entry of a finished job, mails went where they were
   * submitted, and an incarnation at rest without a failed status write has
   * every job terminal.
   */
  lemma RunnerIsSound(capacity: nat, start: Jobs, steps: seq<Step>)
    requires Runs(capacity, Initial(start), steps)
    ensures var s := After(capacity, Initial(start), steps);
      && s.slots == Tally(s.workers, Slot) <= capacity && s.queued == Tally(s.workers, Queue)
      && (forall w :: 0 <= w < |s.workers| && s.workers[w].phase.Done? ==> s.workers[w].jobId !in s.side)
      && (forall k :: 0 <= k < |s.mails| ==> (s.mails[k].0, s.mails[k].1) in s.submissions)
      && (Quiescent(s) ==> s.side == map[])
      && (Quiescent(s) && s.lost == {} ==> forall id :: id in s.db ==> Terminal(s.db[id].status))
  {
    InitialInv(capacity, start);
    RunKeepsInv(capacity, start, Initial(start), steps);
    var s := After(capacity, Initial(start), steps);
    forall w | 0 <= w < |s.workers| && s.workers[w].phase.Done? ensures s.workers[w].jobId !in s.side {
      assert WorkerInv(s, w);
    }
    if Quiescent(s) {
      assert forall id :: !HasLiveWorker(s, id);
      assert s.side.Keys == {};
      if s.lost == {} {
        forall id | id in s.db ensures Terminal(s.db[id].status) {
          assert !Terminal(s.db[id].status) ==> Accounted(s, id);
        }
      }
    }
  }

  /** A job completed during the run carries a size one of its own deliveries returned. */
  lemma CompletedSizeIsDelivered(capacity: nat, start: Jobs, steps: seq<Step>, id: string)
    requires Runs(capacity, Initial(start), steps)
    requires var s := After(capacity, Initial(start), steps);
      id in s.db && s.db[id].status.Completed? && !(id in start && start[id] == s.db[id])
    ensures var s := After(capacity, Initial(start), steps);
      s.db[id].fileSize.Some? && WasDelivered(s, id, s.db[id].fileSize.value)
  {
    InitialInv(capacity, start);
    RunKeepsInv(capacity, start, Initial(start), steps);
    assert SizeInv(start, After(capacity, Initial(start), steps), id);
  }

  // ---------------------------------------------------------------- progress

  /** The step a worker waits to make, with every write and the strategy succeeding. */
  function NextStep(s: State, w: nat): Step
    requires w < |s.workers|
  {
    match s.workers[w].phase
    case Queued => Acquire(w)
    case Acquired => Count(w)
    case Starting => Start(w, Acknowledged)
    case Executing => Load(w)
    case Working(_) => Work(w, Delivered(0))
    case Failing(_) => Fail(w, Acknowledged)
    case Completing => Complete(w, Acknowledged)
    case Releasing => Release(w)
    case Done => Release(w)
  }

  lemma {:induction false} SomeoneHolds(ws: seq<Worker>) returns (w: nat)
    requires Tally(ws, Slot) > 0
    ensures w < |ws| && Holds(ws[w].phase)
  {
    if Holds(ws[|ws| - 1].phase) {
      w := |ws| - 1;
    } else {
      w := SomeoneHolds(ws[..|ws| - 1]);
    }
  }

  /** With at least one slot, an unfinished worker means some worker can move. */
  lemma PoolNeverStuck(capacity: nat, start: Jobs, s: State, w: nat) returns (v: nat)
    requires Inv(capacity, start, s) && w < |s.workers| && !s.workers[w].phase.Done?
    requires capacity > 0
    ensures v < |s.workers| && Enabled(capacity, s, NextStep(s, v))
  {
    if s.slots > 0 {
      v := SomeoneHolds(s.workers);
    } else {
      v := w;
      if Holds(s.workers[w].phase) {
        HolderCounts(s.workers, w);
      }
    }
  }

  lemma {:induction false} HolderCounts(ws: seq<Worker>, w: nat)
    requires w < |ws| && Holds(ws[w].phase)
    ensures Tally(ws, Slot) > 0
  {
    if w < |ws| - 1 {
      HolderCounts(ws[..|ws| - 1], w);
    }
  }

  /** Without slots every worker waits for ever: the semaphore needs a positive capacity. */
  lemma NoSlotsNoProgress(start: Jobs, s: State, st: Step)
    requires Inv(0, start, s) && Actor(st).Some?
    ensures !Enabled(0, s, st)
  {
    if Enabled(0, s, st) && !st.Acquire? {
      HolderCounts(s.workers, Actor(st).value);
    }
  }

  function Rank(p: Phase): nat {
    match p
    case Queued => 8
    case Acquired => 7
    case Starting => 6
    case Executing => 5
    case Working(_) => 4
    case Failing(_) => 3
    case Completing => 3
    case Releasing => 2
    case Done => 0
  }

  function WorkLeft(ws: seq<Worker>): nat {
    if |ws| == 0 then 0 else WorkLeft(ws[..|ws| - 1]) + Rank(ws[|ws| - 1].phase)
  }

  lemma {:induction false} WorkUpdate(ws: seq<Worker>, w: nat, wk: Worker)
    requires w < |ws|
    ensures WorkLeft(ws[w := wk]) == WorkLeft(ws) - Rank(ws[w].phase) + Rank(wk.phase)
  {
    var n := |ws| - 1;
    if w == n {
      assert ws[w := wk][..n] == ws[..n];
    } else {
      assert ws[w := wk][..n] == ws[..n][w := wk];
      WorkUpdate(ws[..n], w, wk);
    }
  }

  /** Every worker step brings the pool strictly closer to rest, whatever its writes and strategy return. */
  lemma WorkerStepMakesProgress(capacity: nat, s: State, st: Step)
    requires Enabled(capacity, s, st) && Actor(st).Some?
    ensures WorkLeft(Apply(capacity, s, st).workers) < WorkLeft(s.workers)
  {
    var w := Actor(st).value;
    WorkerStepIsLocal(capacity, s, st);
    WorkUpdate(s.workers, w, Apply(capacity, s, st).workers[w]);
  }

  function Acts(st: Step): nat { if Actor(st).Some? then 1 else 0 }

  function Submits(st: Step): nat { if st.Submit? || st.Recover? then 1 else 0 }

  /** Steps that workers take. */
  function WorkerSteps(steps: seq<Step>): nat {
    if |steps| == 0 then 0 else Acts(steps[0]) + WorkerSteps(steps[1..])
  }

  /** Workers that a run brings into being. */
  function Submissions(steps: seq<Step>): nat {
    if |steps| == 0 then 0 else Submits(steps[0]) + Submissions(steps[1..])
  }

  lemma WorkAppend(ws: seq<Worker>, wk: Worker)
    ensures WorkLeft(ws + [wk]) == WorkLeft(ws) + Rank(wk.phase)
  {
    assert (ws + [wk])[..|ws|] == ws;
  }

  /** A worker's step uses work up, a submission adds eight steps of it, and a crash takes all of it away. */
  lemma StepAddsWork(capacity: nat, s: State, st: Step)
    requires Enabled(capacity, s, st)
    ensures Acts(st) + WorkLeft(Apply(capacity, s, st).workers) <= WorkLeft(s.workers) + 8 * Submits(st)
  {
    if Actor(st).Some? {
      WorkerStepMakesProgress(capacity, s, st);
    } else if st.Submit? || st.Recover? {
      WorkAppend(s.workers, Apply(capacity, s, st).workers[|s.workers|]);
    }
  }

  /**
   * In every run, crashes included, workers take at most eight steps for each
   * submission, beyond the work left at its start.
   */
  lemma {:induction false} WorkIsBounded(capacity: nat, s: State, steps: seq<Step>)
    requires Runs(capacity, s, steps)
    ensures WorkerSteps(steps) + WorkLeft(After(capacity, s, steps).workers)
         <= WorkLeft(s.workers) + 8 * Submissions(steps)
    decreases |steps|
  {
    if |steps| > 0 {
      StepAddsWork(capacity, s, steps[0]);
      WorkIsBounded(capacity, Apply(capacity, s, steps[0]), steps[1..]);
    }
  }

  predicate AllDone(s: State) { forall w :: 0 <= w < |s.workers| ==> s.workers[w].phase.Done? }

  lemma StepFirst(capacity: nat, s: State, st: Step, rest: seq<Step>)
    requires Enabled(capacity, s, st) && Runs(capacity, Apply(capacity, s, st), rest)
    ensures Runs(capacity, s, [st] + rest)
    ensures After(capacity, s, [st] + rest) == After(capacity, Apply(capacity, s, st), rest)
  {
    assert ([st] + rest)[1..] == rest;
  }

  /** An unfinished pool has a worker step that brings it closer to rest. */
  lemma SomeStepHelps(capacity: nat, start: Jobs, s: State) returns (st: Step)
    requires Inv(capacity, start, s) && capacity > 0 && !AllDone(s)
    ensures Enabled(capacity, s, st) && Actor(st).Some?
    ensures WorkLeft(Apply(capacity, s, st).workers) < WorkLeft(s.workers)
  {
    var w :| 0 <= w < |s.workers| && !s.workers[w].phase.Done?;
    var v := PoolNeverStuck(capacity, start, s, w);
    st := NextStep(s, v);
    WorkerStepMakesProgress(capacity, s, st);
  }

  /** From every reachable state, worker steps alone bring all workers to an end. */
  lemma {:induction false} PoolCanDrain(capacity: nat, start: Jobs, s: State) returns (steps: seq<Step>)
    requires Inv(capacity, start, s) && capacity > 0
    ensures Runs(capacity, s, steps) && |steps| <= WorkLeft(s.workers) && AllDone(After(capacity, s, steps))
    ensures forall k :: 0 <= k < |steps| ==> Actor(steps[k]).Some?
    decreases WorkLeft(s.workers)
  {
    steps := [];
    if !AllDone(s) {
      var st := SomeStepHelps(capacity, start, s);
      StepKeepsInv(capacity, start, s, st);
      var rest := PoolCanDrain(capacity, start, Apply(capacity, s, st));
      StepFirst(capacity, s, st, rest);
      steps := [st] + rest;
    }
  }
}
