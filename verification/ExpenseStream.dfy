/**
 * The export stream: a producer goroutine pages the ledger into a bounded
 * channel, a consumer drains it into `send` and then reads a one-slot error
 * channel, while requests keep changing the ledger and the caller may cancel.
 *
 * Every goroutine action that other goroutines can observe is one step; a run is
 * any interleaving of enabled steps.
 */
module ExpenseStream {
  import opened Outcomes
  import opened Ordering
  import opened Ledger
  import opened LedgerInvariants
  import opened Keyset

  // ---------------------------------------------------------------- the protocol

  datatype Terminal = CleanEof | ReadFailed | Cancelled | Panicked

  datatype Producer =
    | Fetching(cursor: Cursor)
    | Sending(page: seq<Expense>, next: Cursor, hasMore: bool)
    | Reporting(status: Terminal)
    | Closing
    | Exited

  datatype Outcome = Success | Failed(why: Terminal) | SendFailed

  datatype Consumer =
    | Ranging
    | Holding(row: Expense)
    | Ready(row: Expense)
    | AwaitingStatus
    | Leaving(outcome: Outcome)
    | Returned(outcome: Outcome)

  /**
   * Whether the streaming user has been erased during the stream: while the rows
   * past `ahead` were still to be fetched, or when none were.
   */
  datatype Erasure = Never | Midway(ahead: Cursor) | Late

  /** Who streams, with what page size, over which table the stream was opened. */
  datatype Config = Config(userId: string, size: int, start: Table)

  /**
   * `fetched`, `sent`, `reports`, `lateSends` and `erasure` record the run; no step
   * reads them.
   */
  datatype State = State(
    table: Table, cancelled: bool,
    producer: Producer, channel: seq<Expense>, closed: bool, errc: Option<Terminal>,
    consumer: Consumer,
    fetched: seq<Expense>, sent: seq<Expense>, reports: nat, lateSends: nat, erasure: Erasure)

  datatype Step =
    | Serve(env: Env, req: Request)
    | Cancel
    | Fetch | FetchFail | Panic | HandOff | SeeCancel | FinishPage | Report | Close
    | Receive | SeeClosed | Check | Send(ok: bool) | TakeStatus | Leave

  function PageSize(c: Config): nat { EffectivePageSize(c.size) }

  function Initial(c: Config): State {
    State(c.start, false, Fetching(START), [], false, None, Ranging, [], [], 0, 0, Never)
  }

  /** A request that erases this user's rows. */
  predicate Wipes(env: Env, req: Request, userId: string) {
    Erases(req, userId) && userId != "" && !env.update.Rejected?
  }

  function ErasedNow(s: State): Erasure {
    match s.producer
    case Fetching(cursor) => Midway(cursor)
    case Sending(_, next, true) => Midway(next)
    case _ => Late
  }

  predicate Enabled(c: Config, s: State, st: Step) {
    match st
    case Serve(env, _) => env.newId != "" && env.timestamp != ""
    case Cancel => !s.cancelled
    case Fetch => s.producer.Fetching?
    case FetchFail => s.producer.Fetching?
    case Panic => s.producer.Fetching? || s.producer.Sending?
    case HandOff => s.producer.Sending? && s.producer.page != [] && |s.channel| < PageSize(c)
    case SeeCancel => s.producer.Sending? && s.producer.page != [] && s.cancelled
    case FinishPage => s.producer.Sending? && s.producer.page == []
    case Report => s.producer.Reporting? && s.errc.None?
    case Close => s.producer.Closing?
    case Receive => s.consumer.Ranging? && s.channel != []
    case SeeClosed => s.consumer.Ranging? && s.channel == [] && s.closed
    case Check => s.consumer.Holding?
    case Send(_) => s.consumer.Ready?
    case TakeStatus => s.consumer.AwaitingStatus? && s.errc.Some?
    case Leave => s.consumer.Leaving?
  }

  ghost function Apply(c: Config, s: State, st: Step): State
    requires Enabled(c, s, st)
  {
    match st
    case Serve(env, req) =>
      s.(table := Handle(s.table, env, req),
         erasure := if s.erasure.Never? && Wipes(env, req, c.userId) then ErasedNow(s) else s.erasure)
    case Cancel => s.(cancelled := true)
    case Fetch =>
      (match PageAfter(s.table, c.userId, s.producer.cursor, c.size)
       case Ok(page) => s.(producer := Sending(page.rows, page.next, page.hasMore), fetched := s.fetched + page.rows)
       case Err(_) => s.(producer := Reporting(ReadFailed)))
    case FetchFail => s.(producer := Reporting(ReadFailed))
    case Panic => s.(producer := Reporting(Panicked))
    case HandOff =>
      s.(producer := s.producer.(page := s.producer.page[1..]), channel := s.channel + [s.producer.page[0]])
    case SeeCancel => s.(producer := Reporting(Cancelled))
    case FinishPage => s.(producer := if s.producer.hasMore then Fetching(s.producer.next) else Reporting(CleanEof))
    case Report => s.(producer := Closing, errc := Some(s.producer.status), reports := s.reports + 1)
    case Close => s.(producer := Exited, closed := true)
    case Receive => s.(consumer := Holding(s.channel[0]), channel := s.channel[1..])
    case SeeClosed => s.(consumer := AwaitingStatus)
    case Check => s.(consumer := if s.cancelled then Leaving(Failed(Cancelled)) else Ready(s.consumer.row))
    case Send(ok) =>
      s.(consumer := if ok then Ranging else Leaving(SendFailed), sent := s.sent + [s.consumer.row],
         lateSends := s.lateSends + if s.cancelled then 1 else 0)
    case TakeStatus =>
      s.(consumer := Leaving(if s.errc.value == CleanEof then Success else Failed(s.errc.value)), errc := None)
    case Leave => s.(consumer := Returned(s.consumer.outcome), cancelled := true)
  }

  /** The steps are enabled one after the other from s. */
  ghost predicate Runs(c: Config, s: State, steps: seq<Step>)
    decreases |steps|
  {
    |steps| > 0 ==> Enabled(c, s, steps[0]) && Runs(c, Apply(c, s, steps[0]), steps[1..])
  }

  ghost function After(c: Config, s: State, steps: seq<Step>): State
    requires Runs(c, s, steps)
    decreases |steps|
  {
    if |steps| == 0 then s else After(c, Apply(c, s, steps[0]), steps[1..])
  }

  /** A ledger a stream may be opened on: sound, with real ids and timestamps. */
  ghost predicate Opens(c: Config) {
    Sound(c.start) && Named(c.start) && Stamped(c.start) && c.size < MAX_INT32
  }

  /** Every ledger that requests can bring about is one. */
  lemma EveryLedgerOpens(c: Config, log: Log)
    requires RealSources(log) && c.start == Ledger.Serve([], log) && c.size < MAX_INT32
    ensures Opens(c)
  {
    RunKeepsLinks([], log);
    RunStaysNamedAndStamped([], log);
  }

  // ---------------------------------------------------------------- invariants

  function Held(s: State): seq<Expense> {
    if s.consumer.Holding? || s.consumer.Ready? then [s.consumer.row] else []
  }

  function Pending(s: State): seq<Expense> {
    if s.producer.Sending? then s.producer.page else []
  }

  predicate Gone(s: State) { s.consumer.Leaving? || s.consumer.Returned? }

  /** The producer's verdict, whether about to be sent, in the channel or taken. */
  predicate EndedCleanly(s: State) {
    || s.producer == Reporting(CleanEof) || s.errc == Some(CleanEof)
    || s.consumer == Leaving(Success) || s.consumer == Returned(Success)
  }

  ghost predicate LedgerInv(c: Config, s: State) {
    Sound(s.table) && Named(s.table) && Stamped(s.table) && (s.erasure.Never? ==> Extends(c.start, s.table, c.userId))
  }

  ghost predicate ControlInv(c: Config, s: State) {
    && |s.channel| <= PageSize(c) && |Pending(s)| <= PageSize(c)
    && (s.closed <==> s.producer.Exited?)
    && (s.producer.Fetching? || s.producer.Sending? || s.producer.Reporting? ==> s.errc.None? && s.reports == 0)
    && (s.producer.Closing? || s.producer.Exited? ==> s.reports == 1)
    && (s.producer.Closing? ==> s.errc.Some?)
    && (s.producer.Exited? && !Gone(s) ==> s.errc.Some?)
    && (s.consumer.AwaitingStatus? ==> s.producer.Exited? && s.channel == [])
    && (s.consumer == Leaving(Success) || s.consumer == Returned(Success) ==> s.producer.Exited?)
    && (s.consumer.Returned? ==> s.cancelled)
    && s.lateSends + (if s.consumer.Ready? && s.cancelled then 1 else 0) <= 1
    && (s.lateSends == 1 ==> s.cancelled)
    && (s.cancelled && s.consumer.Ready? ==> s.lateSends == 0)
  }

  /** The cursor stands at the last row fetched. */
  predicate AtLast(fetched: seq<Expense>, cursor: Cursor) {
    if fetched == [] then cursor == START
    else (cursor.createdAt, cursor.id) == Key(fetched[|fetched| - 1])
  }

  predicate SameRow(a: Expense, b: Expense) {
    a.id == b.id && a.userId == b.userId && a.createdAt == b.createdAt && a.money == b.money
  }

  ghost predicate InTable(t: Table, e: Expense) {
    exists i :: 0 <= i < |t| && SameRow(t[i], e)
  }

  /** The table has a row with the id and the timestamp of this one. */
  ghost predicate Known(t: Table, e: Expense) {
    exists i :: 0 <= i < |t| && (t[i].id, t[i].createdAt) == (e.id, e.createdAt)
  }

  /** A fetched row is still known, and as long as its user is, it is still the same. */
  ghost predicate Found(s: State, e: Expense) {
    Known(s.table, e) && (s.erasure.Never? ==> InTable(s.table, e))
  }

  ghost predicate FetchedInv(c: Config, s: State) {
    && Increasing(s.fetched)
    && (forall k :: 0 <= k < |s.fetched| ==> s.fetched[k].userId == c.userId && Found(s, s.fetched[k]))
    && (s.producer.Fetching? ==> AtLast(s.fetched, s.producer.cursor))
    && (s.producer.Sending? && s.producer.hasMore ==> AtLast(s.fetched, s.producer.next))
  }

  function Flow(s: State): seq<Expense> {
    s.sent + (Held(s) + (s.channel + Pending(s)))
  }

  /** What was sent, is held, is in the channel and is still on the page, in that order, is what was fetched. */
  predicate FlowInv(s: State) {
    && s.sent <= s.fetched
    && (!Gone(s) ==> Flow(s) <= s.fetched)
    && (!Gone(s) && (s.producer.Fetching? || s.producer.Sending? || EndedCleanly(s)) ==> Flow(s) == s.fetched)
    && (s.consumer == Leaving(Success) || s.consumer == Returned(Success) ==> s.sent == s.fetched)
  }

  /** The row was still to be fetched when its user was erased. */
  predicate Lost(s: State, row: Expense) {
    s.erasure.Midway? && Past(row, s.erasure.ahead)
  }

  /** A row of the starting table has been fetched, still lies ahead of the cursor, or is lost. */
  ghost predicate CoveredAt(c: Config, s: State, i: nat)
    requires i < |c.start|
  {
    c.start[i].userId == c.userId && !Lost(s, c.start[i]) ==>
      && (s.producer.Fetching? ==>
            HasId(s.fetched, c.start[i].id) || (s.erasure.Never? && Past(c.start[i], s.producer.cursor)))
      && (s.producer.Sending? ==>
            || HasId(s.fetched, c.start[i].id)
            || (s.erasure.Never? && s.producer.hasMore && Past(c.start[i], s.producer.next)))
      && (EndedCleanly(s) ==> HasId(s.fetched, c.start[i].id))
  }

  ghost predicate CoverInv(c: Config, s: State) {
    forall i :: 0 <= i < |c.start| ==> CoveredAt(c, s, i)
  }

  ghost predicate Inv(c: Config, s: State) {
    c.size < MAX_INT32 && LedgerInv(c, s) && ControlInv(c, s) && FetchedInv(c, s) && FlowInv(s) && CoverInv(c, s)
  }

  lemma InitialLedger(c: Config)
    requires Opens(c)
    ensures LedgerInv(c, Initial(c)) && FetchedInv(c, Initial(c))
  {
  }

  lemma InitialControl(c: Config)
    ensures ControlInv(c, Initial(c)) && FlowInv(Initial(c))
  {
    assert Flow(Initial(c)) == [];
  }

  lemma InitialCover(c: Config)
    ensures CoverInv(c, Initial(c))
  {
    forall i | 0 <= i < |c.start| ensures CoveredAt(c, Initial(c), i) {
      assert Past(c.start[i], START);
    }
  }

  lemma InitialInv(c: Config)
    requires Opens(c)
    ensures Inv(c, Initial(c))
  {
    InitialLedger(c);
    InitialControl(c);
    InitialCover(c);
  }

  /** No request removes a row or touches its id or its timestamp. */
  ghost predicate Keeps(t: Table, t': Table) {
    |t| <= |t'| && forall i :: 0 <= i < |t| ==> (t'[i].id, t'[i].createdAt) == (t[i].id, t[i].createdAt)
  }

  lemma RequestKeeps(t: Table, env: Env, req: Request)
    requires Sound(t)
    ensures Keeps(t, Handle(t, env, req))
  {
    if !req.Anonymize? {
      var m := RequestIsMove(t, env, req);
    }
  }

  /** A request that does not wipe this user extends the ledger for the user. */
  lemma RequestSpares(t: Table, env: Env, req: Request, userId: string)
    requires Sound(t) && !Wipes(env, req, userId)
    ensures Extends(t, Handle(t, env, req), userId)
  {
    if Erases(req, userId) {
      assert Handle(t, env, req) == t;
    } else {
      RequestExtends(t, env, req, userId);
    }
  }

  lemma ServeSpares(c: Config, s: State, env: Env, req: Request)
    requires Sound(s.table) && Extends(c.start, s.table, c.userId) && !Wipes(env, req, c.userId)
    ensures Extends(s.table, Handle(s.table, env, req), c.userId)
    ensures Extends(c.start, Handle(s.table, env, req), c.userId)
  {
    RequestSpares(s.table, env, req, c.userId);
    ExtendsTransitive(c.start, s.table, Handle(s.table, env, req), c.userId);
  }

  lemma StepSpares(c: Config, s: State, st: Step)
    requires LedgerInv(c, s) && Enabled(c, s, st) && Apply(c, s, st).erasure.Never?
    ensures s.erasure.Never? && Extends(s.table, Apply(c, s, st).table, c.userId)
    ensures Extends(c.start, Apply(c, s, st).table, c.userId)
  {
    match st
    case Serve(env, req) => ServeSpares(c, s, env, req);
    case _ =>
  }

  lemma StepKeepsLedger(c: Config, s: State, st: Step)
    requires LedgerInv(c, s) && Enabled(c, s, st)
    ensures LedgerInv(c, Apply(c, s, st)) && Keeps(s.table, Apply(c, s, st).table)
  {
    if st.Serve? {
      RequestKeepsLinks(s.table, st.env, st.req);
      RequestStaysNamedAndStamped(s.table, st.env, st.req);
      RequestKeeps(s.table, st.env, st.req);
    }
    if Apply(c, s, st).erasure.Never? {
      StepSpares(c, s, st);
    }
  }

  lemma FetchKeepsControl(c: Config, s: State)
    requires LedgerInv(c, s) && ControlInv(c, s) && Enabled(c, s, Fetch)
    ensures ControlInv(c, Apply(c, s, Fetch))
  {
    if PageAfter(s.table, c.userId, s.producer.cursor, c.size).Ok? {
      PageIsExact(s.table, c.userId, s.producer.cursor, c.size);
    }
  }

  lemma ConsumerKeepsControl(c: Config, s: State, st: Step)
    requires ControlInv(c, s) && Enabled(c, s, st)
    requires st.Receive? || st.SeeClosed? || st.Check? || st.Send? || st.TakeStatus? || st.Leave?
    ensures ControlInv(c, Apply(c, s, st))
  {
  }

  lemma OthersKeepControl(c: Config, s: State, st: Step)
    requires ControlInv(c, s) && Enabled(c, s, st) && !st.Fetch?
    requires !(st.Receive? || st.SeeClosed? || st.Check? || st.Send? || st.TakeStatus? || st.Leave?)
    ensures ControlInv(c, Apply(c, s, st))
  {
  }

  lemma StepKeepsControl(c: Config, s: State, st: Step)
    requires LedgerInv(c, s) && ControlInv(c, s) && Enabled(c, s, st)
    ensures ControlInv(c, Apply(c, s, st))
  {
    if st.Fetch? {
      FetchKeepsControl(c, s);
    } else if st.Receive? || st.SeeClosed? || st.Check? || st.Send? || st.TakeStatus? || st.Leave? {
      ConsumerKeepsControl(c, s, st);
    } else {
      OthersKeepControl(c, s, st);
    }
  }

  lemma InTableStays(t: Table, t': Table, e: Expense)
    requires InTable(t, e) && Extends(t, t', e.userId)
    ensures InTable(t', e)
  {
    var i :| 0 <= i < |t| && SameRow(t[i], e);
    assert Stays(t[i], t'[i], e.userId);
    assert SameRow(t'[i], e);
  }

  lemma KnownStays(t: Table, t': Table, e: Expense)
    requires Known(t, e) && Keeps(t, t')
    ensures Known(t', e)
  {
    var i :| 0 <= i < |t| && (t[i].id, t[i].createdAt) == (e.id, e.createdAt);
    assert (t'[i].id, t'[i].createdAt) == (e.id, e.createdAt);
  }

  lemma FoundStays(c: Config, s: State, st: Step, e: Expense)
    requires LedgerInv(c, s) && Enabled(c, s, st) && Found(s, e) && e.userId == c.userId
    ensures Found(Apply(c, s, st), e)
  {
    StepKeepsLedger(c, s, st);
    var s' := Apply(c, s, st);
    KnownStays(s.table, s'.table, e);
    if s'.erasure.Never? {
      StepSpares(c, s, st);
      InTableStays(s.table, s'.table, e);
    }
  }

  /** The page a fetch obtains, if it obtains one. */
  ghost predicate Obtains(c: Config, s: State, page: Page) {
    s.producer.Fetching? && PageAfter(s.table, c.userId, s.producer.cursor, c.size) == Ok(page)
  }

  lemma IncreasingJoins(a: seq<Expense>, b: seq<Expense>)
    requires Increasing(a) && Increasing(b)
    requires |a| > 0 ==> forall k :: 0 <= k < |b| ==> PairLess(Key(a[|a| - 1]), Key(b[k]))
    ensures Increasing(a + b)
  {
    forall i, k | 0 <= i < |a| && 0 <= k < |b| ensures PairLess(Key(a[i]), Key(b[k])) {
      if i < |a| - 1 {
        PairLessTransitive(Key(a[i]), Key(a[|a| - 1]), Key(b[k]));
      }
    }
  }

  /** A page past the last row fetched continues the rows fetched in order. */
  lemma PageContinues(t: Table, userId: string, cursor: Cursor, size: int, fetched: seq<Expense>, page: Page)
    requires DistinctIds(t) && Stamped(t) && PageAfter(t, userId, cursor, size) == Ok(page)
    requires Increasing(fetched) && AtLast(fetched, cursor)
    requires |fetched| > 0 ==> fetched[|fetched| - 1].createdAt != ""
    ensures Increasing(fetched + page.rows)
  {
    PageIsExact(t, userId, cursor, size);
    forall k | 0 <= k < |page.rows| && |fetched| > 0
      ensures PairLess(Key(fetched[|fetched| - 1]), Key(page.rows[k]))
    {
      assert Selected(page.rows[k], userId, cursor);
    }
    IncreasingJoins(fetched, page.rows);
  }

  lemma PageComesFromTable(t: Table, userId: string, cursor: Cursor, size: int, page: Page, k: nat)
    requires DistinctIds(t) && Stamped(t) && PageAfter(t, userId, cursor, size) == Ok(page) && k < |page.rows|
    ensures page.rows[k].userId == userId && InTable(t, page.rows[k]) && Known(t, page.rows[k])
  {
    PageIsExact(t, userId, cursor, size);
    var e := page.rows[k];
    var i :| 0 <= i < |t| && t[i] == e;
    assert SameRow(t[i], e) && (t[i].id, t[i].createdAt) == (e.id, e.createdAt);
  }

  lemma PageEndsAtNext(t: Table, userId: string, cursor: Cursor, size: int, fetched: seq<Expense>, page: Page)
    requires DistinctIds(t) && Stamped(t) && PageAfter(t, userId, cursor, size) == Ok(page) && page.hasMore
    ensures AtLast(fetched + page.rows, page.next)
  {
    PageIsExact(t, userId, cursor, size);
  }

  lemma LastIsStamped(c: Config, s: State)
    requires LedgerInv(c, s) && FetchedInv(c, s) && |s.fetched| > 0
    ensures s.fetched[|s.fetched| - 1].createdAt != ""
  {
    assert Found(s, s.fetched[|s.fetched| - 1]);
  }

  lemma FetchContinues(c: Config, s: State, page: Page)
    requires LedgerInv(c, s) && FetchedInv(c, s) && Obtains(c, s, page)
    ensures Increasing(s.fetched + page.rows)
  {
    if |s.fetched| > 0 {
      LastIsStamped(c, s);
    }
    PageContinues(s.table, c.userId, s.producer.cursor, c.size, s.fetched, page);
  }

  lemma FetchFinds(c: Config, s: State, page: Page, k: nat)
    requires LedgerInv(c, s) && FetchedInv(c, s) && Obtains(c, s, page) && k < |s.fetched + page.rows|
    ensures (s.fetched + page.rows)[k].userId == c.userId && Found(s, (s.fetched + page.rows)[k])
  {
    if k >= |s.fetched| {
      PageComesFromTable(s.table, c.userId, s.producer.cursor, c.size, page, k - |s.fetched|);
    }
  }

  lemma FetchKeepsFetched(c: Config, s: State, page: Page)
    requires LedgerInv(c, s) && FetchedInv(c, s) && Obtains(c, s, page)
    ensures FetchedInv(c, Apply(c, s, Fetch))
  {
    var s' := Apply(c, s, Fetch);
    FetchContinues(c, s, page);
    forall k | 0 <= k < |s'.fetched| ensures s'.fetched[k].userId == c.userId && Found(s', s'.fetched[k]) {
      FetchFinds(c, s, page, k);
    }
    if page.hasMore {
      PageEndsAtNext(s.table, c.userId, s.producer.cursor, c.size, s.fetched, page);
    }
  }

  lemma ServeKeepsFetched(c: Config, s: State, st: Step)
    requires LedgerInv(c, s) && FetchedInv(c, s) && Enabled(c, s, st) && st.Serve?
    ensures FetchedInv(c, Apply(c, s, st))
  {
    forall k | 0 <= k < |s.fetched| ensures Found(Apply(c, s, st), s.fetched[k]) {
      FoundStays(c, s, st, s.fetched[k]);
    }
  }

  lemma OthersKeepFetched(c: Config, s: State, st: Step)
    requires FetchedInv(c, s) && Enabled(c, s, st) && !st.Serve?
    requires !st.Fetch? || PageAfter(s.table, c.userId, s.producer.cursor, c.size).Err?
    ensures FetchedInv(c, Apply(c, s, st))
  {
    var s' := Apply(c, s, st);
    assert s'.table == s.table && s'.erasure == s.erasure && s'.fetched == s.fetched;
    forall k | 0 <= k < |s.fetched| ensures Found(s', s.fetched[k]) {
      assert Found(s, s.fetched[k]);
    }
  }

  lemma StepKeepsFetched(c: Config, s: State, st: Step)
    requires LedgerInv(c, s) && FetchedInv(c, s) && Enabled(c, s, st)
    ensures FetchedInv(c, Apply(c, s, st))
  {
    if st.Serve? {
      ServeKeepsFetched(c, s, st);
    } else if st.Fetch? && PageAfter(s.table, c.userId, s.producer.cursor, c.size).Ok? {
      FetchKeepsFetched(c, s, PageAfter(s.table, c.userId, s.producer.cursor, c.size).value);
    } else {
      OthersKeepFetched(c, s, st);
    }
  }

  // Rows move from the page into the channel, to the consumer and out; the lemmas
  // follow one such move each.

  lemma HandOffKeepsFlow(c: Config, s: State)
    requires Enabled(c, s, HandOff)
    ensures Flow(Apply(c, s, HandOff)) == Flow(s)
  {
    var page := s.producer.page;
    assert (s.channel + [page[0]]) + page[1..] == s.channel + page;
  }

  lemma ReceiveKeepsFlow(c: Config, s: State)
    requires Enabled(c, s, Receive)
    ensures Flow(Apply(c, s, Receive)) == Flow(s)
  {
    var rest := s.channel[1..] + Pending(s);
    assert s.channel + Pending(s) == [s.channel[0]] + rest;
    assert [] + ([s.channel[0]] + rest) == [s.channel[0]] + rest;
  }

  lemma SendMovesFlow(c: Config, s: State, ok: bool)
    requires Enabled(c, s, Send(ok))
    ensures Apply(c, s, Send(ok)).sent <= Flow(s)
    ensures ok ==> Flow(Apply(c, s, Send(ok))) == Flow(s)
  {
    var rest := s.channel + Pending(s);
    assert s.sent + ([s.consumer.row] + rest) == (s.sent + [s.consumer.row]) + rest;
    assert [] + rest == rest;
  }

  /** Giving up a page drops the end of the sequence and nothing else. */
  lemma AbortsKeepPrefix(c: Config, s: State, st: Step)
    requires Enabled(c, s, st) && (st.Panic? || st.SeeCancel? || st.FetchFail?)
    ensures Flow(Apply(c, s, st)) <= Flow(s)
  {
    AddedAtTheEnd(s.sent, Held(s), s.channel, Pending(s));
  }

  lemma AddedAtTheEnd(a: seq<Expense>, b: seq<Expense>, d: seq<Expense>, e: seq<Expense>)
    ensures a + (b + (d + e)) == (a + (b + (d + []))) + e
  {
  }

  lemma FetchKeepsFlow(c: Config, s: State)
    requires ControlInv(c, s) && FlowInv(s) && Enabled(c, s, Fetch)
    ensures FlowInv(Apply(c, s, Fetch))
  {
    match PageAfter(s.table, c.userId, s.producer.cursor, c.size)
    case Ok(page) => AddedAtTheEnd(s.sent, Held(s), s.channel, page.rows);
    case Err(_) =>
  }

  lemma TakeStatusKeepsFlow(c: Config, s: State)
    requires ControlInv(c, s) && FlowInv(s) && Enabled(c, s, TakeStatus)
    ensures FlowInv(Apply(c, s, TakeStatus))
  {
    assert s.sent + ([] + ([] + [])) == s.sent;
  }

  lemma SendKeepsFlow(c: Config, s: State, ok: bool)
    requires FlowInv(s) && Enabled(c, s, Send(ok))
    ensures FlowInv(Apply(c, s, Send(ok)))
  {
    SendMovesFlow(c, s, ok);
  }

  lemma AbortKeepsFlow(c: Config, s: State, st: Step)
    requires FlowInv(s) && Enabled(c, s, st) && (st.Panic? || st.SeeCancel? || st.FetchFail?)
    requires ControlInv(c, s)
    ensures FlowInv(Apply(c, s, st))
  {
    AbortsKeepPrefix(c, s, st);
  }

  lemma FinishPageKeepsFlow(c: Config, s: State)
    requires FlowInv(s) && Enabled(c, s, FinishPage)
    ensures FlowInv(Apply(c, s, FinishPage))
  {
    assert Flow(Apply(c, s, FinishPage)) == Flow(s);
  }

  /** The other steps move no row. */
  lemma OthersKeepFlow(c: Config, s: State, st: Step)
    requires ControlInv(c, s) && FlowInv(s) && Enabled(c, s, st)
    requires st.Serve? || st.Cancel? || st.Report? || st.Close? || st.SeeClosed? || st.Check? || st.Leave?
    ensures FlowInv(Apply(c, s, st))
  {
    var s' := Apply(c, s, st);
    assert Pending(s') == Pending(s);
  }

  lemma StepKeepsFlow(c: Config, s: State, st: Step)
    requires ControlInv(c, s) && FlowInv(s) && Enabled(c, s, st)
    ensures FlowInv(Apply(c, s, st))
  {
    match st
    case HandOff => HandOffKeepsFlow(c, s);
    case Receive => ReceiveKeepsFlow(c, s);
    case Send(ok) => SendKeepsFlow(c, s, ok);
    case Fetch => FetchKeepsFlow(c, s);
    case FetchFail => AbortKeepsFlow(c, s, st);
    case Panic => AbortKeepsFlow(c, s, st);
    case SeeCancel => AbortKeepsFlow(c, s, st);
    case FinishPage => FinishPageKeepsFlow(c, s);
    case TakeStatus => TakeStatusKeepsFlow(c, s);
    case _ => OthersKeepFlow(c, s, st);
  }

  /** A page covers every row up to its next cursor. */
  lemma PageCovers(t: Table, userId: string, cursor: Cursor, size: int, fetched: seq<Expense>, page: Page, row: Expense)
    requires DistinctIds(t) && Stamped(t) && PageAfter(t, userId, cursor, size) == Ok(page)
    requires row in t && row.userId == userId && (HasId(fetched, row.id) || Past(row, cursor))
    ensures HasId(fetched + page.rows, row.id) || (page.hasMore && Past(row, page.next))
  {
    var all := fetched + page.rows;
    if HasId(fetched, row.id) {
      var k :| 0 <= k < |fetched| && fetched[k].id == row.id;
      assert all[k].id == row.id;
    } else {
      PageIsExact(t, userId, cursor, size);
      assert Selected(row, userId, cursor);
      if row in page.rows {
        var k :| 0 <= k < |page.rows| && page.rows[k] == row;
        assert all[|fetched| + k].id == row.id;
      }
    }
  }

  lemma FetchCovers(c: Config, s: State, i: nat, page: Page)
    requires LedgerInv(c, s) && Obtains(c, s, page) && i < |c.start| && CoveredAt(c, s, i)
    requires ControlInv(c, s)
    ensures CoveredAt(c, Apply(c, s, Fetch), i)
  {
    if c.start[i].userId == c.userId && s.erasure.Never? {
      assert Stays(c.start[i], s.table[i], c.userId);
      PageCovers(s.table, c.userId, s.producer.cursor, c.size, s.fetched, page, s.table[i]);
    } else if HasId(s.fetched, c.start[i].id) {
      StillFetched(s.fetched, page.rows, c.start[i].id);
    }
  }

  lemma StillFetched(fetched: seq<Expense>, rows: seq<Expense>, id: string)
    requires HasId(fetched, id)
    ensures HasId(fetched + rows, id)
  {
    var k :| 0 <= k < |fetched| && fetched[k].id == id;
    assert (fetched + rows)[k].id == id;
  }

  lemma OthersKeepCover(c: Config, s: State, st: Step, i: nat)
    requires ControlInv(c, s) && Enabled(c, s, st) && i < |c.start| && CoveredAt(c, s, i)
    requires !st.Fetch? || PageAfter(s.table, c.userId, s.producer.cursor, c.size).Err?
    ensures CoveredAt(c, Apply(c, s, st), i)
  {
  }

  lemma StepKeepsCover(c: Config, s: State, st: Step)
    requires LedgerInv(c, s) && ControlInv(c, s) && CoverInv(c, s) && Enabled(c, s, st)
    ensures CoverInv(c, Apply(c, s, st))
  {
    forall i | 0 <= i < |c.start| ensures CoveredAt(c, Apply(c, s, st), i) {
      assert CoveredAt(c, s, i);
      if st.Fetch? && PageAfter(s.table, c.userId, s.producer.cursor, c.size).Ok? {
        FetchCovers(c, s, i, PageAfter(s.table, c.userId, s.producer.cursor, c.size).value);
      } else {
        OthersKeepCover(c, s, st, i);
      }
    }
  }

  lemma StepKeepsInv(c: Config, s: State, st: Step)
    requires Inv(c, s) && Enabled(c, s, st)
    ensures Inv(c, Apply(c, s, st))
  {
    StepKeepsLedger(c, s, st);
    StepKeepsControl(c, s, st);
    StepKeepsFetched(c, s, st);
    StepKeepsFlow(c, s, st);
    StepKeepsCover(c, s, st);
  }

  lemma {:induction false} RunKeepsInv(c: Config, s: State, steps: seq<Step>)
    requires Inv(c, s) && Runs(c, s, steps)
    ensures Inv(c, After(c, s, steps))
    decreases |steps|
  {
    if |steps| > 0 {
      StepKeepsInv(c, s, steps[0]);
      RunKeepsInv(c, Apply(c, s, steps[0]), steps[1..]);
    }
  }

  // ---------------------------------------------------------------- safety over every run

  lemma IncreasingPrefix(s: seq<Expense>, p: seq<Expense>)
    requires Increasing(s) && p <= s
    ensures Increasing(p)
  {
  }

  /** Rows of a sound table with different keys have different ids. */
  lemma FetchedIdsDistinct(c: Config, s: State)
    requires LedgerInv(c, s) && FetchedInv(c, s)
    ensures DistinctIds(s.fetched)
  {
    forall i, j | 0 <= i < j < |s.fetched| ensures s.fetched[i].id != s.fetched[j].id {
      assert Found(s, s.fetched[i]) && Found(s, s.fetched[j]);
      var p :| 0 <= p < |s.table| && (s.table[p].id, s.table[p].createdAt) == (s.fetched[i].id, s.fetched[i].createdAt);
      var q :| 0 <= q < |s.table| && (s.table[q].id, s.table[q].createdAt) == (s.fetched[j].id, s.fetched[j].createdAt);
      PairLessIrreflexive(Key(s.fetched[i]));
      assert p != q;
    }
  }

  // ---------------------------------------------------------------- erasure during the stream

  /** Once the user has been erased, no row the user had at the start is theirs, and none that was lost is fetched. */
  ghost predicate ErasureInv(c: Config, s: State) {
    && Keeps(c.start, s.table)
    && (!s.erasure.Never? ==>
          forall i :: 0 <= i < |c.start| && c.start[i].userId == c.userId ==> s.table[i].userId != c.userId)
    && forall i :: 0 <= i < |c.start| && c.start[i].userId == c.userId && Lost(s, c.start[i]) ==>
         !HasId(s.fetched, c.start[i].id)
  }

  /** A fetched row with the id of a starting row has its key. */
  lemma FetchedKey(c: Config, s: State, i: nat, k: nat)
    requires LedgerInv(c, s) && FetchedInv(c, s) && Keeps(c.start, s.table) && i < |c.start| && k < |s.fetched|
    requires s.fetched[k].id == c.start[i].id
    ensures Key(s.fetched[k]) == Key(c.start[i])
  {
    assert Found(s, s.fetched[k]);
    var p :| 0 <= p < |s.table| && (s.table[p].id, s.table[p].createdAt) == (s.fetched[k].id, s.fetched[k].createdAt);
    assert !(p < i) && !(i < p);
  }

  /** What has been fetched does not lie past the cursor. */
  lemma FetchedIsBehind(c: Config, s: State, cursor: Cursor, i: nat)
    requires LedgerInv(c, s) && FetchedInv(c, s) && Keeps(c.start, s.table) && i < |c.start|
    requires AtLast(s.fetched, cursor) && Past(c.start[i], cursor)
    ensures !HasId(s.fetched, c.start[i].id)
  {
    forall k | 0 <= k < |s.fetched| ensures s.fetched[k].id != c.start[i].id {
      if s.fetched[k].id == c.start[i].id {
        FetchedKey(c, s, i, k);
        LastIsStamped(c, s);
        NotPastTheLast(s.fetched, k);
      }
    }
  }

  lemma WipeTakesRows(t: Table, env: Env, req: Request, userId: string)
    requires Wipes(env, req, userId) && userId != DELETED_USER
    ensures forall i :: 0 <= i < |t| ==> Handle(t, env, req)[i].userId != userId
  {
  }

  lemma RequestKeepsTaken(t: Table, env: Env, req: Request, userId: string, i: nat)
    requires Sound(t) && i < |t| && userId != DELETED_USER && t[i].userId != userId
    ensures i < |Handle(t, env, req)| && Handle(t, env, req)[i].userId != userId
  {
    if Wipes(env, req, userId) {
      WipeTakesRows(t, env, req, userId);
    } else {
      RequestSpares(t, env, req, userId);
      assert Stays(t[i], Handle(t, env, req)[i], userId);
    }
  }

  lemma ServeKeepsErasure(c: Config, s: State, st: Step)
    requires LedgerInv(c, s) && FetchedInv(c, s) && ErasureInv(c, s) && c.userId != DELETED_USER
    requires Enabled(c, s, st) && st.Serve?
    ensures ErasureInv(c, Apply(c, s, st))
  {
    var s' := Apply(c, s, st);
    RequestKeeps(s.table, st.env, st.req);
    if s'.erasure != s.erasure {
      WipeTakesRows(s.table, st.env, st.req, c.userId);
      forall i | 0 <= i < |c.start| && Lost(s', c.start[i]) ensures !HasId(s.fetched, c.start[i].id) {
        FetchedIsBehind(c, s, s'.erasure.ahead, i);
      }
    } else if !s.erasure.Never? {
      forall i | 0 <= i < |c.start| && c.start[i].userId == c.userId ensures s'.table[i].userId != c.userId {
        RequestKeepsTaken(s.table, st.env, st.req, c.userId, i);
      }
    }
  }

  lemma FetchKeepsErasure(c: Config, s: State, page: Page)
    requires LedgerInv(c, s) && ErasureInv(c, s) && Obtains(c, s, page)
    ensures ErasureInv(c, Apply(c, s, Fetch))
  {
    var s' := Apply(c, s, Fetch);
    forall i | 0 <= i < |c.start| && c.start[i].userId == c.userId && Lost(s', c.start[i])
      ensures !HasId(s'.fetched, c.start[i].id)
    {
      forall k | 0 <= k < |page.rows| ensures page.rows[k].id != c.start[i].id {
        PageComesFromTable(s.table, c.userId, s.producer.cursor, c.size, page, k);
        var p :| 0 <= p < |s.table| && SameRow(s.table[p], page.rows[k]);
        assert page.rows[k].id == c.start[i].id ==> !(p < i) && !(i < p);
      }
    }
  }

  lemma StepKeepsErasure(c: Config, s: State, st: Step)
    requires LedgerInv(c, s) && FetchedInv(c, s) && ErasureInv(c, s) && c.userId != DELETED_USER && Enabled(c, s, st)
    ensures ErasureInv(c, Apply(c, s, st))
  {
    if st.Serve? {
      ServeKeepsErasure(c, s, st);
    } else if st.Fetch? && PageAfter(s.table, c.userId, s.producer.cursor, c.size).Ok? {
      FetchKeepsErasure(c, s, PageAfter(s.table, c.userId, s.producer.cursor, c.size).value);
    }
  }

  lemma {:induction false} RunKeepsErasure(c: Config, s: State, steps: seq<Step>)
    requires Inv(c, s) && ErasureInv(c, s) && c.userId != DELETED_USER && Runs(c, s, steps)
    ensures ErasureInv(c, After(c, s, steps))
    decreases |steps|
  {
    if |steps| > 0 {
      StepKeepsInv(c, s, steps[0]);
      StepKeepsErasure(c, s, steps[0]);
      RunKeepsErasure(c, Apply(c, s, steps[0]), steps[1..]);
    }
  }

  // ---------------------------------------------------------------- the promises

  /**
   * In every interleaving, the rows given to send were the user's, in strictly
   * increasing (created_at, id) order, without repetition; at most one of them
   * follows a cancellation; unless the user was erased meanwhile, they are still
   * in the ledger as sent.
   */
  lemma StreamIsSafe(c: Config, steps: seq<Step>)
    requires Opens(c) && Runs(c, Initial(c), steps)
    ensures var s := After(c, Initial(c), steps);
      && Increasing(s.sent) && DistinctIds(s.sent) && s.lateSends <= 1
      && (forall k :: 0 <= k < |s.sent| ==> s.sent[k].userId == c.userId && Known(s.table, s.sent[k]))
      && (s.erasure.Never? ==> forall k :: 0 <= k < |s.sent| ==> InTable(s.table, s.sent[k]))
  {
    InitialInv(c);
    RunKeepsInv(c, Initial(c), steps);
    var s := After(c, Initial(c), steps);
    FetchedIdsDistinct(c, s);
    IncreasingPrefix(s.fetched, s.sent);
    forall k | 0 <= k < |s.sent| ensures s.sent[k].userId == c.userId && Found(s, s.sent[k]) {
      assert s.sent[k] == s.fetched[k];
    }
  }

  /** A nil result means that every row the user had when the stream was opened was sent, or was lost to an erasure. */
  lemma NilMeansAllSent(c: Config, steps: seq<Step>, i: nat)
    requires Opens(c) && Runs(c, Initial(c), steps) && After(c, Initial(c), steps).consumer == Returned(Success)
    requires i < |c.start| && c.start[i].userId == c.userId
    ensures var s := After(c, Initial(c), steps); HasId(s.sent, c.start[i].id) || Lost(s, c.start[i])
  {
    InitialInv(c);
    RunKeepsInv(c, Initial(c), steps);
    assert CoveredAt(c, After(c, Initial(c), steps), i);
  }

  /** Behind a nil result, a starting row is missing exactly when it was still to be fetched as its user was erased. */
  lemma NilMissesExactlyTheLost(c: Config, steps: seq<Step>, i: nat)
    requires Opens(c) && Runs(c, Initial(c), steps) && After(c, Initial(c), steps).consumer == Returned(Success)
    requires i < |c.start| && c.start[i].userId == c.userId && c.userId != DELETED_USER
    ensures var s := After(c, Initial(c), steps); HasId(s.sent, c.start[i].id) <==> !Lost(s, c.start[i])
  {
    var s := After(c, Initial(c), steps);
    NilMeansAllSent(c, steps, i);
    InitialInv(c);
    assert ErasureInv(c, Initial(c));
    RunKeepsInv(c, Initial(c), steps);
    RunKeepsErasure(c, Initial(c), steps);
    assert s.sent == s.fetched;
  }

  /** The channel and the page never outgrow a page, and errc receives exactly one value, into an empty slot. */
  lemma StreamIsBounded(c: Config, steps: seq<Step>)
    requires Opens(c) && Runs(c, Initial(c), steps)
    ensures var s := After(c, Initial(c), steps);
      && |s.channel| <= PageSize(c) && |Pending(s)| <= PageSize(c)
      && (c.size < 1 ==> |s.channel| <= 100 && |Pending(s)| <= 100)
      && (s.producer.Reporting? ==> Enabled(c, s, Report))
      && s.reports == (if s.producer.Closing? || s.producer.Exited? then 1 else 0)
  {
    InitialInv(c);
    RunKeepsInv(c, Initial(c), steps);
  }
}
