/**
 * Admission of export jobs: an unfinished job is returned instead of a new one,
 * and a new one waits until 30 days after the last export that did not fail.
 */
module ExportJobs {
  import opened Outcomes
  import opened JobRunner

  /** 30 days, in seconds. */
  const WINDOW := 30 * 24 * 60 * 60

  datatype Decision = Existing(id: string) | RateLimited(retryAfter: int) | Created(id: string) | StorageError

  predicate InProgress(job: Job, userId: string) {
    job.userId == userId && (job.status.Pending? || job.status.Running?)
  }

  predicate Spent(job: Job, userId: string) {
    job.userId == userId && !job.status.Failed?
  }

  ghost predicate Idle(db: Jobs, userId: string) {
    forall id :: id in db ==> !InProgress(db[id], userId)
  }

  /** This job is the user's newest export that did not fail. */
  ghost predicate IsLatest(db: Jobs, userId: string, id: string) {
    id in db && Spent(db[id], userId)
    && forall other :: other in db && Spent(db[other], userId) ==> db[other].createdAt <= db[id].createdAt
  }

  function NewJob(userId: string, now: int): Job { Job(userId, now, Pending, None, "") }

  /** The table admits a new job of this user at this time. */
  ghost predicate Admits(db: Jobs, userId: string, now: int) {
    Idle(db, userId) && forall id :: id in db && Spent(db[id], userId) ==> db[id].createdAt + WINDOW <= now
  }

  ghost predicate Added(db: Jobs, userId: string, now: int, newId: string, db': Jobs) {
    newId !in db && db' == db[newId := NewJob(userId, now)] && Admits(db, userId, now)
  }

  /**
   * What a request may answer, and the table it leaves; which unfinished job is
   * found is the database's choice. An INSERT that fails may have been applied.
   */
  ghost predicate Decided(db: Jobs, userId: string, now: int, newId: string, db': Jobs, d: Decision) {
    match d
    case Existing(id) => db' == db && id in db && InProgress(db[id], userId)
    case RateLimited(retryAfter) =>
      && db' == db && Idle(db, userId) && now < retryAfter
      && exists id :: IsLatest(db, userId, id) && retryAfter == db[id].createdAt + WINDOW
    case Created(id) => id == newId && Added(db, userId, now, newId, db')
    case StorageError => db' == db || Added(db, userId, now, newId, db')
  }

  class ExportService {
    var jobs: Jobs

    constructor ()
      ensures jobs == map[]
    {
      jobs := map[];
    }

    method GetInProgressJob(userId: string) returns (found: Option<string>)
      ensures found.None? ==> Idle(jobs, userId)
      ensures found.Some? ==> found.value in jobs && InProgress(jobs[found.value], userId)
    {
      if id :| id in jobs && InProgress(jobs[id], userId) {
        found := Some(id);
      } else {
        found := None;
      }
    }

    /** ORDER BY created_at DESC LIMIT 1 over the user's jobs that did not fail. */
    method GetLatestNonFailedJob(userId: string) returns (latest: Option<string>)
      ensures latest.None? ==> forall id :: id in jobs ==> !Spent(jobs[id], userId)
      ensures latest.Some? ==> IsLatest(jobs, userId, latest.value)
      ensures latest.None? <==>
        forall id :: id in jobs && jobs[id].userId == userId ==> jobs[id].status == Status.Failed
    {
      latest := None;
      var rest := jobs.Keys;
      while rest != {}
        invariant rest <= jobs.Keys
        invariant latest.None? ==> forall id :: id in jobs && id !in rest ==> !Spent(jobs[id], userId)
        invariant latest.Some? ==> latest.value in jobs && Spent(jobs[latest.value], userId)
        invariant latest.Some? ==> forall id :: id in jobs && id !in rest && Spent(jobs[id], userId) ==>
                                     jobs[id].createdAt <= jobs[latest.value].createdAt
        decreases rest
      {
        var id :| id in rest;
        rest := rest - {id};
        if Spent(jobs[id], userId) && (latest.None? || jobs[latest.value].createdAt < jobs[id].createdAt) {
          latest := Some(id);
        }
      }
    }

    method CreateJob(userId: string, now: int, newId: string, dedupFails: bool, limitFails: bool, insert: Write)
      returns (d: Decision)
      requires newId !in jobs
      modifies this
      ensures Decided(old(jobs), userId, now, newId, jobs, d)
      ensures !dedupFails && !limitFails && insert.Acknowledged? ==> !d.StorageError?
      ensures dedupFails || insert.Rejected? ==> jobs == old(jobs)
      ensures dedupFails ==> d == StorageError
      ensures !dedupFails ==> (d.Existing? <==> !Idle(old(jobs), userId))
      ensures !dedupFails && limitFails && Idle(old(jobs), userId) ==> d == StorageError && jobs == old(jobs)
    {
      if dedupFails {
        return StorageError;
      }
      var existing := GetInProgressJob(userId);
      if existing.Some? {
        return Existing(existing.value);
      }
      if limitFails {
        return StorageError;
      }
      var latest := GetLatestNonFailedJob(userId);
      if latest.Some? {
        var retryAfter := jobs[latest.value].createdAt + WINDOW;
        if now < retryAfter {
          return RateLimited(retryAfter);
        }
      }
      if !insert.Rejected? {
        jobs := jobs[newId := NewJob(userId, now)];
      }
      d := if insert.Acknowledged? then Created(newId) else StorageError;
    }
  }

  /** A rate-limited user is told exactly when the same table would admit a new job. */
  lemma RetryAfterIsExact(db: Jobs, userId: string, now: int, retryAfter: int, later: int,
                          newId: string, db': Jobs, d: Decision)
    requires Decided(db, userId, now, newId, db, RateLimited(retryAfter))
    requires Decided(db, userId, later, newId, db', d) && !d.StorageError?
    ensures exists id :: IsLatest(db, userId, id) && retryAfter == db[id].createdAt + 2_592_000
    ensures d.Created? <==> retryAfter <= later
    ensures !d.Created? <==> d == RateLimited(retryAfter)
  {
  }

  // ---------------------------------------------------------------- runs

  datatype World = World(db: Jobs, now: int)

  datatype Event =
    | Tick(now: int)
    | Request(userId: string, newId: string, decision: Decision, db: Jobs)
    | Pool(db: Jobs)

  /** Requests are atomic; between them the clock moves on and the pool moves statuses as it likes. */
  ghost predicate Possible(w: World, e: Event) {
    match e
    case Tick(now) => w.now <= now
    case Request(userId, newId, d, db) => Decided(w.db, userId, w.now, newId, db, d)
    case Pool(db) => StatusMoves(w.db, db) && db.Keys == w.db.Keys
  }

  function Next(w: World, e: Event): World {
    match e
    case Tick(now) => w.(now := now)
    case Request(_, _, _, db) => w.(db := db)
    case Pool(db) => w.(db := db)
  }

  ghost predicate Happens(w: World, events: seq<Event>)
    decreases |events|
  {
    |events| > 0 ==> Possible(w, events[0]) && Happens(Next(w, events[0]), events[1..])
  }

  function Finally(w: World, events: seq<Event>): World
    decreases |events|
  {
    if |events| == 0 then w else Finally(Next(w, events[0]), events[1..])
  }

  /** At most one unfinished export per user. */
  ghost predicate OneInProgress(db: Jobs) {
    forall a, b :: a in db && b in db && a != b && db[a].userId == db[b].userId ==>
      Terminal(db[a].status) || Terminal(db[b].status)
  }

  /** Two exports of one user that did not fail are at least 30 days apart. */
  ghost predicate Spaced(db: Jobs) {
    forall a, b ::
      (&& a in db && b in db && a != b && db[a].userId == db[b].userId
       && db[a].status != Status.Failed && db[b].status != Status.Failed) ==>
      db[a].createdAt + 2_592_000 <= db[b].createdAt || db[b].createdAt + 2_592_000 <= db[a].createdAt
  }

  ghost predicate Admitted(w: World) {
    OneInProgress(w.db) && Spaced(w.db) && forall id :: id in w.db ==> w.db[id].createdAt <= w.now
  }

  lemma PoolKeepsAdmission(w: World, db: Jobs)
    requires Admitted(w) && StatusMoves(w.db, db) && db.Keys == w.db.Keys
    ensures Admitted(w.(db := db))
  {
    forall id | id in db ensures
      && db[id].userId == w.db[id].userId && db[id].createdAt == w.db[id].createdAt
      && (InProgress(db[id], db[id].userId) ==> InProgress(w.db[id], w.db[id].userId))
      && (!db[id].status.Failed? ==> !w.db[id].status.Failed?)
    {
      assert RowMoves(w.db[id], db[id]);
    }
  }

  lemma AdditionKeepsAdmission(w: World, userId: string, newId: string, db: Jobs)
    requires Admitted(w) && Added(w.db, userId, w.now, newId, db)
    ensures Admitted(w.(db := db))
  {
  }

  lemma EventKeepsAdmission(w: World, e: Event)
    requires Admitted(w) && Possible(w, e)
    ensures Admitted(Next(w, e))
  {
    match e
    case Tick(_) =>
    case Pool(db) => PoolKeepsAdmission(w, db);
    case Request(userId, newId, _, db) =>
      if db != w.db {
        AdditionKeepsAdmission(w, userId, newId, db);
      }
  }

  /** Over every run, each user has at most one unfinished export and exports that count are 30 days apart. */
  lemma {:induction false} ExportsStayAdmitted(w: World, events: seq<Event>)
    requires Admitted(w) && Happens(w, events)
    ensures Admitted(Finally(w, events))
    decreases |events|
  {
    if |events| > 0 {
      EventKeepsAdmission(w, events[0]);
      ExportsStayAdmitted(Next(w, events[0]), events[1..]);
    }
  }

  /** The runner's creation of a job stores the row that an admitted request adds. */
  lemma RunnerCreatesTheRow(capacity: nat, s: State, id: string, userId: string, at: int)
    requires Enabled(capacity, s, Step.Create(id, userId, at)) && Admits(s.db, userId, at)
    ensures var db := Apply(capacity, s, Step.Create(id, userId, at)).db;
      && Possible(World(s.db, at), Request(userId, id, Created(id), db))
      && db[id] == Job(userId, at, Pending, None, "")
  {
  }

  /** Every step of the job runner other than creating a job is a pool event here. */
  lemma RunnerStepIsPoolEvent(capacity: nat, s: State, st: Step, now: int)
    requires OwnInv(s) && Enabled(capacity, s, st) && !st.Create?
    ensures Possible(World(s.db, now), Pool(Apply(capacity, s, st).db))
  {
    StepKeepsStatuses(capacity, s, st);
    if Actor(st).Some? {
      WorkerStepIsOwnJob(capacity, s, st);
    }
  }
}
