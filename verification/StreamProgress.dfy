/**
 * How an export stream ends: it never stops short of its end, ends in nil unless
 * something disturbs it, and leaves no goroutine behind.
 */
module StreamProgress {
  import opened Outcomes
  import opened Ledger
  import opened LedgerInvariants
  import opened Keyset
  import opened ExpenseStream

  // ---------------------------------------------------------------- progress

  predicate Finished(s: State) { s.producer.Exited? && s.consumer.Returned? }

  /** A step of one of the two goroutines that does not depend on the ledger, a panic or a failing read. */
  function NextStep(c: Config, s: State): Step {
    match s.consumer
    case Holding(_) => Check
    case Ready(_) => Send(true)
    case Leaving(_) => Leave
    case AwaitingStatus => TakeStatus
    case Ranging =>
      if s.channel != [] then Receive else if s.closed then SeeClosed else ProducerStep(s)
    case Returned(_) => if s.producer.Sending? && s.producer.page != [] then SeeCancel else ProducerStep(s)
  }

  function ProducerStep(s: State): Step {
    match s.producer
    case Fetching(_) => Fetch
    case Sending(page, _, _) => if page == [] then FinishPage else HandOff
    case Reporting(_) => Report
    case Closing => Step.Close
    case Exited => Step.Close
  }

  /** No reachable state is stuck. */
  lemma NeverStuck(c: Config, s: State)
    requires Inv(c, s) && !Finished(s)
    ensures Enabled(c, s, NextStep(c, s))
  {
  }

  function ConsumerRank(k: Consumer): nat {
    match k
    case Ranging => 5
    case Holding(_) => 8
    case Ready(_) => 7
    case AwaitingStatus => 4
    case Leaving(_) => 2
    case Returned(_) => 1
  }

  function ProducerRank(p: Producer): nat {
    match p
    case Fetching(_) => 4
    case Sending(_, _, hasMore) => if hasMore then 5 else 3
    case Reporting(_) => 2
    case Closing => 1
    case Exited => 0
  }

  /** What is left to do, counting every row not yet fetched. */
  function Remaining(s: State): int {
    12 * (|s.table| - |s.fetched|) + 5 * |Pending(s)| + 4 * |s.channel|
    + ConsumerRank(s.consumer) + ProducerRank(s.producer) + if s.cancelled then 0 else 1
  }

  lemma {:induction false} IdSetSize(s: seq<Expense>) returns (ids: set<string>)
    requires DistinctIds(s)
    ensures |ids| == |s| && forall id :: id in ids <==> HasId(s, id)
  {
    if |s| == 0 {
      ids := {};
    } else {
      var front := s[..|s| - 1];
      var rest := IdSetSize(front);
      ids := rest + {s[|s| - 1].id};
      assert s[|s| - 1].id !in rest;
      forall id ensures id in ids <==> HasId(s, id) {
        if HasId(s, id) && id != s[|s| - 1].id {
          var i :| 0 <= i < |s| && s[i].id == id;
          assert front[i].id == id;
        }
        if HasId(front, id) {
          var i :| 0 <= i < |front| && front[i].id == id;
          assert s[i].id == id;
        }
      }
    }
  }

  lemma SubsetSize(a: set<string>, b: set<string>)
    requires a <= b
    ensures |a| <= |b|
  {
    assert b == a + (b - a);
  }

  /** The stream never fetches more rows than the ledger holds. */
  lemma FetchedFitsTable(c: Config, s: State)
    requires LedgerInv(c, s) && FetchedInv(c, s)
    ensures |s.fetched| <= |s.table| && Remaining(s) >= 0
  {
    FetchedIdsDistinct(c, s);
    var a := IdSetSize(s.fetched);
    var b := IdSetSize(s.table);
    forall id | id in a ensures id in b {
      var k :| 0 <= k < |s.fetched| && s.fetched[k].id == id;
      assert Found(s, s.fetched[k]);
    }
    SubsetSize(a, b);
  }

  lemma RequestAddsWork(c: Config, s: State, st: Step)
    requires LedgerInv(c, s) && Enabled(c, s, st) && st.Serve?
    ensures Remaining(Apply(c, s, st)) <= Remaining(s) + 12
  {
    RequestWritesItsRow(s.table, st.env, st.req);
  }

  lemma OtherStepsMakeProgress(c: Config, s: State, st: Step)
    requires ControlInv(c, s) && Enabled(c, s, st) && !st.Serve? && !st.Fetch?
    ensures Remaining(Apply(c, s, st)) < Remaining(s)
  {
  }

  /** Every step that is not a ledger request makes progress; a request adds at most one row of work. */
  lemma StepMakesProgress(c: Config, s: State, st: Step)
    requires Inv(c, s) && Enabled(c, s, st)
    ensures !st.Serve? ==> Remaining(Apply(c, s, st)) < Remaining(s)
    ensures st.Serve? ==> Remaining(Apply(c, s, st)) <= Remaining(s) + 12
  {
    if st.Serve? {
      RequestAddsWork(c, s, st);
    } else if st.Fetch? {
    } else {
      OtherStepsMakeProgress(c, s, st);
    }
  }

  /** How many of the steps are ledger requests. */
  function Requests(steps: seq<Step>): nat {
    if |steps| == 0 then 0 else Requests(steps[1..]) + if steps[0].Serve? then 1 else 0
  }

  /** A run lasts no longer than the rows it started with and the requests served meanwhile allow. */
  lemma {:induction false} RunLength(c: Config, s: State, steps: seq<Step>)
    requires Inv(c, s) && Runs(c, s, steps)
    ensures |steps| <= Remaining(s) + 13 * Requests(steps)
    decreases |steps|
  {
    FetchedFitsTable(c, s);
    if |steps| > 0 {
      StepKeepsInv(c, s, steps[0]);
      StepMakesProgress(c, s, steps[0]);
      RunLength(c, Apply(c, s, steps[0]), steps[1..]);
    }
  }

  /** From opening: at most 12 steps per row, 13 per request served meanwhile, and 10 more. */
  lemma StreamTerminates(c: Config, steps: seq<Step>)
    requires Opens(c) && Runs(c, Initial(c), steps)
    ensures |steps| <= 12 * |c.start| + 10 + 13 * Requests(steps)
  {
    InitialInv(c);
    RunLength(c, Initial(c), steps);
  }

  /** Every row of the streaming user can be read back. */
  ghost predicate ReadableRows(t: Table, userId: string) {
    forall i :: 0 <= i < |t| && t[i].userId == userId ==> Complete(t[i].money)
  }

  /** What can make a stream fail: a cancellation, a read that fails, a panic, a failing send, an unreadable row. */
  ghost predicate Disturbs(c: Config, s: State, st: Step) {
    || st.Cancel? || st.FetchFail? || st.Panic? || st == Send(false)
    || (st.Fetch? && s.producer.Fetching? && PageAfter(s.table, c.userId, s.producer.cursor, c.size).Err?)
  }

  ghost predicate Undisturbed(c: Config, s: State, steps: seq<Step>)
    requires Runs(c, s, steps)
    decreases |steps|
  {
    |steps| > 0 ==> !Disturbs(c, s, steps[0]) && Undisturbed(c, Apply(c, s, steps[0]), steps[1..])
  }

  /** Nothing has gone wrong so far. */
  predicate Quiet(s: State) {
    && (s.producer.Reporting? ==> s.producer.status == CleanEof)
    && (s.errc.Some? ==> s.errc.value == CleanEof)
    && (s.consumer.Leaving? || s.consumer.Returned? ==> s.consumer.outcome == Success)
    && (s.cancelled ==> s.consumer.Returned?)
  }

  lemma {:induction false} QuietRun(c: Config, s: State, steps: seq<Step>)
    requires Inv(c, s) && Quiet(s) && Runs(c, s, steps) && Undisturbed(c, s, steps)
    ensures Quiet(After(c, s, steps))
    decreases |steps|
  {
    if |steps| > 0 {
      StepKeepsInv(c, s, steps[0]);
      QuietRun(c, Apply(c, s, steps[0]), steps[1..]);
    }
  }

  /** A stream that returns an error was cancelled, met a failing read, a panic, a failing send or an unreadable row. */
  lemma FailureHasACause(c: Config, steps: seq<Step>)
    requires Opens(c) && Runs(c, Initial(c), steps)
    requires var k := After(c, Initial(c), steps).consumer; k.Returned? && k.outcome != Success
    ensures !Undisturbed(c, Initial(c), steps)
  {
    InitialInv(c);
    if Undisturbed(c, Initial(c), steps) {
      QuietRun(c, Initial(c), steps);
    }
  }

  /** A page is refused only for a row of the user that cannot be read. */
  lemma PageReadsIfReadable(t: Table, userId: string, cursor: Cursor, size: int)
    requires ReadableRows(t, userId)
    ensures PageAfter(t, userId, cursor, size).Ok?
  {
    var all := SelectAfter(t, userId, cursor);
    forall k | 0 <= k < |all| ensures Complete(all[k].money) {
      SelectContains(t, userId, cursor, all[k]);
    }
  }

  lemma NextStepDoesNotDisturb(c: Config, s: State)
    requires Inv(c, s) && !Finished(s) && Quiet(s) && ReadableRows(s.table, c.userId)
    ensures Enabled(c, s, NextStep(c, s)) && !Disturbs(c, s, NextStep(c, s))
    ensures Apply(c, s, NextStep(c, s)).table == s.table
  {
    NeverStuck(c, s);
    if s.producer.Fetching? {
      PageReadsIfReadable(s.table, c.userId, s.producer.cursor, c.size);
    }
  }

  /** The next step of the goroutines brings the end closer, and spoils nothing if the rows can be read. */
  lemma NextStepHelps(c: Config, s: State)
    requires Inv(c, s) && !Finished(s)
    ensures var st := NextStep(c, s);
      && Enabled(c, s, st) && !st.Serve? && Inv(c, Apply(c, s, st)) && 0 <= Remaining(Apply(c, s, st)) < Remaining(s)
    ensures Quiet(s) && ReadableRows(s.table, c.userId) ==>
              Quiet(Apply(c, s, NextStep(c, s))) && Apply(c, s, NextStep(c, s)).table == s.table
  {
    NeverStuck(c, s);
    var st := NextStep(c, s);
    StepKeepsInv(c, s, st);
    StepMakesProgress(c, s, st);
    FetchedFitsTable(c, Apply(c, s, st));
    if Quiet(s) && ReadableRows(s.table, c.userId) {
      NextStepDoesNotDisturb(c, s);
    }
  }

  /**
   * From every reachable state the two goroutines can finish by themselves, with
   * success if nothing has gone wrong and the user's rows can be read: no deadlock, no leak.
   */
  lemma {:induction false} CanAlwaysFinish(c: Config, s: State) returns (steps: seq<Step>)
    requires Inv(c, s)
    ensures Runs(c, s, steps) && Requests(steps) == 0 && Finished(After(c, s, steps))
    ensures Quiet(s) && ReadableRows(s.table, c.userId) ==> After(c, s, steps).consumer == Returned(Success)
    decreases Remaining(s)
  {
    steps := [];
    if !Finished(s) {
      var st := NextStep(c, s);
      NextStepHelps(c, s);
      var rest := CanAlwaysFinish(c, Apply(c, s, st));
      steps := [st] + rest;
      assert steps[1..] == rest;
    }
  }

  /** A row that was unreadable when the stream was opened is never fetched. */
  lemma UnreadableIsNotFetched(c: Config, s: State, i: nat)
    requires Inv(c, s) && s.erasure.Never? && FetchedAreReadable(s) && i < |c.start|
    requires c.start[i].userId == c.userId && !Complete(c.start[i].money)
    ensures !HasId(s.fetched, c.start[i].id)
  {
    forall k | 0 <= k < |s.fetched| ensures s.fetched[k].id != c.start[i].id {
    }
  }

  ghost predicate FetchedAreReadable(s: State) { AllComplete(s.fetched) }

  lemma {:induction false} RunReadsReadable(c: Config, s: State, steps: seq<Step>)
    requires FetchedAreReadable(s) && Runs(c, s, steps)
    ensures FetchedAreReadable(After(c, s, steps))
    decreases |steps|
  {
    if |steps| > 0 {
      RunReadsReadable(c, Apply(c, s, steps[0]), steps[1..]);
    }
  }

  /** One unreadable row of the user, and no stream opened on that ledger returns nil before the user is erased. */
  lemma UnreadableRowFailsEveryExport(c: Config, steps: seq<Step>, i: nat)
    requires Opens(c) && Runs(c, Initial(c), steps)
    requires i < |c.start| && c.start[i].userId == c.userId && !Complete(c.start[i].money)
    ensures After(c, Initial(c), steps).consumer == Returned(Success) ==>
      !After(c, Initial(c), steps).erasure.Never?
  {
    var s := After(c, Initial(c), steps);
    InitialInv(c);
    RunKeepsInv(c, Initial(c), steps);
    RunReadsReadable(c, Initial(c), steps);
    if s.erasure.Never? {
      UnreadableIsNotFetched(c, s, i);
      assert CoveredAt(c, s, i);
    }
  }

  lemma {:induction false} SparedWithoutRequests(c: Config, s: State, steps: seq<Step>)
    requires Runs(c, s, steps) && Requests(steps) == 0
    ensures After(c, s, steps).erasure == s.erasure
    decreases |steps|
  {
    if |steps| > 0 {
      SparedWithoutRequests(c, Apply(c, s, steps[0]), steps[1..]);
    }
  }

  ghost predicate Exports(c: Config, steps: seq<Step>) {
    && Runs(c, Initial(c), steps)
    && After(c, Initial(c), steps).consumer == Returned(Success) && After(c, Initial(c), steps).erasure.Never?
  }

  /** A stream of a user not erased can return nil if and only if every row the user had at the start can be read. */
  lemma ExportPossibleIff(c: Config)
    requires Opens(c)
    ensures (exists steps :: Exports(c, steps)) <==> ReadableRows(c.start, c.userId)
  {
    InitialInv(c);
    if ReadableRows(c.start, c.userId) {
      var steps := CanAlwaysFinish(c, Initial(c));
      SparedWithoutRequests(c, Initial(c), steps);
      assert Exports(c, steps);
    } else {
      var i :| 0 <= i < |c.start| && c.start[i].userId == c.userId && !Complete(c.start[i].money);
      forall steps ensures !Exports(c, steps) {
        if Runs(c, Initial(c), steps) {
          UnreadableRowFailsEveryExport(c, steps, i);
        }
      }
    }
  }

  lemma ErasedAtOnce(c: Config, env: Env) returns (s: State)
    requires Opens(c) && c.userId !in {"", DELETED_USER}
    requires env.newId != "" && env.timestamp != "" && !env.update.Rejected?
    ensures var st := Serve(env, Anonymize(c.userId)); Enabled(c, Initial(c), st) && s == Apply(c, Initial(c), st)
    ensures Inv(c, s) && Quiet(s) && s.erasure == Midway(START) && ReadableRows(s.table, c.userId)
  {
    var req := Anonymize(c.userId);
    InitialInv(c);
    StepKeepsInv(c, Initial(c), Serve(env, req));
    s := Apply(c, Initial(c), Serve(env, req));
    assert Wipes(env, req, c.userId);
  }

  /** Erase the user before the first page is read, and the stream can return nil with none of the rows sent. */
  lemma ErasureEmptiesExport(c: Config, env: Env) returns (steps: seq<Step>)
    requires Opens(c) && c.userId !in {"", DELETED_USER}
    requires env.newId != "" && env.timestamp != "" && !env.update.Rejected?
    ensures Runs(c, Initial(c), steps) && After(c, Initial(c), steps).consumer == Returned(Success)
    ensures forall i :: 0 <= i < |c.start| && c.start[i].userId == c.userId ==>
      !HasId(After(c, Initial(c), steps).sent, c.start[i].id)
  {
    var st := Serve(env, Anonymize(c.userId));
    var s := ErasedAtOnce(c, env);
    var rest := CanAlwaysFinish(c, s);
    SparedWithoutRequests(c, s, rest);
    steps := [st] + rest;
    assert steps[1..] == rest;
    forall i | 0 <= i < |c.start| && c.start[i].userId == c.userId
      ensures !HasId(After(c, Initial(c), steps).sent, c.start[i].id)
    {
      NilMissesExactlyTheLost(c, steps, i);
      assert Past(c.start[i], START);
    }
  }

  // ---------------------------------------------------------------- after the consumer has gone

  predicate IsProducerStep(st: Step) {
    st.Fetch? || st.FetchFail? || st.Panic? || st.HandOff? || st.SeeCancel? || st.FinishPage? || st.Report? || st.Close?
  }

  /** Fuel of a producer nobody drains: three steps per free slot of the channel and a few more. */
  function Fuel(c: Config, s: State): int {
    3 * (PageSize(c) - |s.channel|)
    + match s.producer
      case Fetching(_) => 4
      case Sending(page, _, hasMore) => if page == [] && hasMore then 5 else 3
      case Reporting(_) => 2
      case Closing => 1
      case Exited => 0
  }

  function ProducerSteps(steps: seq<Step>): nat {
    if |steps| == 0 then 0 else ProducerSteps(steps[1..]) + if IsProducerStep(steps[0]) then 1 else 0
  }

  function HandOffs(steps: seq<Step>): nat {
    if |steps| == 0 then 0 else HandOffs(steps[1..]) + if steps[0].HandOff? then 1 else 0
  }

  lemma OrphanStep(c: Config, s: State, st: Step)
    requires Inv(c, s) && s.consumer.Returned? && Enabled(c, s, st)
    ensures var s' := Apply(c, s, st);
      && s'.consumer.Returned? && s'.sent == s.sent
      && Fuel(c, s') + (if IsProducerStep(st) then 1 else 0) <= Fuel(c, s)
      && |s'.channel| == |s.channel| + (if st.HandOff? then 1 else 0)
  {
    if st.Fetch? && PageAfter(s.table, c.userId, s.producer.cursor, c.size).Ok? {
      PageIsExact(s.table, c.userId, s.producer.cursor, c.size);
    }
  }

  /**
   * Once the consumer has returned nothing more is sent, and the producer hands
   * off at most the free slots of the channel and stops within its fuel, however
   * fast the ledger grows.
   */
  lemma {:induction false} OrphanedProducerStops(c: Config, s: State, steps: seq<Step>)
    requires Inv(c, s) && s.consumer.Returned? && Runs(c, s, steps)
    ensures After(c, s, steps).sent == s.sent
    ensures HandOffs(steps) <= PageSize(c) - |s.channel|
    ensures ProducerSteps(steps) <= Fuel(c, s) <= 3 * PageSize(c) + 5
    decreases |steps|
  {
    if |steps| > 0 {
      StepKeepsInv(c, s, steps[0]);
      OrphanStep(c, s, steps[0]);
      OrphanedProducerStops(c, Apply(c, s, steps[0]), steps[1..]);
    }
  }
}
