/**
 * What every run of ledger requests keeps: distinct ids, sound correction links,
 * one row per idempotency key, and period totals that move by exactly the
 * amounts of the requests.
 */
module LedgerInvariants {
  import opened Outcomes
  import opened Ledger

  // ---------------------------------------------------------------- the four moves of the ledger

  /** Short of erasure, a request leaves the table alone or makes one of three moves. */
  datatype Move =
    | Nothing
    | Append(row: Expense)
    | Close(at: nat)
    | Supersede(at: nat, row: Expense)

  ghost predicate DistinctIds(t: Table) {
    forall i, j :: 0 <= i < j < |t| ==> t[i].id != t[j].id
  }

  predicate InPeriod(row: Expense, year: int, month: int) {
    row.year == year && row.month == month
  }

  predicate Closable(t: Table, env: Env, at: nat) {
    at < |t| && t[at].status.Active? && t[at].id != "" && InPeriod(t[at], env.year, env.month)
  }

  predicate FreshRow(t: Table, env: Env, row: Expense) {
    !HasId(t, row.id) && row.id == env.newId && row.status.Active? && row.createdAt == env.timestamp
  }

  predicate Legal(t: Table, env: Env, m: Move) {
    match m
    case Nothing => true
    case Append(row) =>
      && FreshRow(t, env, row) && row.correctsId == ""
      && (row.idempotencyKey != "" ==> FindKey(t, row.userId, row.idempotencyKey) == -1)
    case Close(at) => Closable(t, env, at)
    case Supersede(at, row) =>
      && Closable(t, env, at) && FreshRow(t, env, row)
      && row.correctsId == t[at].id && row.userId == t[at].userId
      && InPeriod(row, t[at].year, t[at].month)
      && row.idempotencyKey == "" && row.proRata == t[at].proRata
  }

  function Moved(t: Table, m: Move): Table
    requires m.Close? || m.Supersede? ==> m.at < |t|
  {
    match m
    case Nothing => t
    case Append(row) => t + [row]
    case Close(at) => t[at := t[at].(status := Corrected)]
    case Supersede(at, row) => t[at := t[at].(status := Corrected)] + [row]
  }

  lemma FlippedOne(t: Table, at: nat)
    requires DistinctIds(t) && at < |t|
    ensures Flipped(t, t[at].id) == t[at := t[at].(status := Corrected)]
    ensures FlippedFor(t, t[at].id, t[at].userId) == t[at := t[at].(status := Corrected)]
  {
  }

  /** The flip that names a user touches no row of another, and in every row the status at most. */
  lemma FlipIsNarrow(t: Table, id: string, userId: string, i: nat)
    requires i < |t|
    ensures FlippedFor(t, id, userId)[i] == t[i].(status := FlippedFor(t, id, userId)[i].status)
    ensures t[i].id != id || t[i].userId != userId ==> FlippedFor(t, id, userId)[i] == t[i]
    ensures t[i].id == id && t[i].userId == userId ==> FlippedFor(t, id, userId)[i].status == Corrected
  {
  }

  lemma FlippedKeepsIds(t: Table, id: string, other: string)
    ensures HasId(Flipped(t, id), other) == HasId(t, other)
  {
    var t' := Flipped(t, id);
    assert forall i :: 0 <= i < |t| ==> t'[i].id == t[i].id;
    if HasId(t, other) {
      var i :| 0 <= i < |t| && t[i].id == other;
      assert t'[i].id == other;
    }
  }

  /** Every request except erasure is one legal move. */
  lemma RequestIsMove(t: Table, env: Env, req: Request) returns (m: Move)
    requires DistinctIds(t) && !req.Anonymize?
    ensures Legal(t, env, m) && Handle(t, env, req) == Moved(t, m)
  {
    m := Nothing;
    var t' := Handle(t, env, req);
    match req
    case Create(userId, create) =>
      if t' != t { m := Append(t'[|t|]); }
    case CreateProRata(proRata) =>
      if t' != t { m := Append(t'[|t|]); }
    case Delete(userId, id) =>
      if t' != t {
        var at := Find(t, id);
        FlippedOne(t, at);
        m := Close(at);
      }
    case Correct(userId, id, d) =>
      if Correctable(t, env, userId, id).Ok? {
        var at := Find(t, id);
        FlippedOne(t, at);
        FlippedKeepsIds(t, id, env.newId);
        if |t'| > |t| {
          m := Supersede(at, t'[|t|]);
        } else if t' != t {
          m := Close(at);
        }
      }
    case Anonymize(_) =>
  }

  // ---------------------------------------------------------------- correction links

  /** The position of the row that row j corrects. */
  function Parent(t: Table, j: nat): int
    requires j < |t|
  {
    Find(t, t[j].correctsId)
  }

  predicate SamePeriod(a: Expense, b: Expense) {
    a.userId == b.userId && InPeriod(a, b.year, b.month)
  }

  /** A non-empty corrects_id names an older row of the same user, period and installment that is no longer active. */
  ghost predicate LinkedAt(t: Table, j: nat)
    requires j < |t|
  {
    t[j].correctsId != "" ==>
      && 0 <= Parent(t, j) < j
      && SamePeriod(t[Parent(t, j)], t[j]) && t[Parent(t, j)].proRata == t[j].proRata
      && !t[Parent(t, j)].status.Active?
  }

  ghost predicate Linked(t: Table) {
    forall j :: 0 <= j < |t| ==> LinkedAt(t, j)
  }

  /** No row is corrected by two rows. */
  ghost predicate CorrectedOnce(t: Table) {
    forall i, j :: 0 <= i < j < |t| && t[i].correctsId != "" ==> t[i].correctsId != t[j].correctsId
  }

  ghost predicate Sound(t: Table) {
    DistinctIds(t) && Linked(t) && CorrectedOnce(t)
  }

  /** Find depends on nothing but the ids up to the row it finds. */
  lemma FindUnmoved(t: Table, t': Table, id: string)
    requires |t| <= |t'| && forall i :: 0 <= i < |t| ==> t'[i].id == t[i].id
    requires HasId(t, id)
    ensures Find(t', id) == Find(t, id)
  {
  }

  /** An active row has not been corrected by any other. */
  lemma ActiveIsUncorrected(t: Table, at: nat)
    requires Sound(t) && at < |t| && t[at].status.Active? && t[at].id != ""
    ensures forall j :: 0 <= j < |t| ==> t[j].correctsId != t[at].id
  {
    forall j | 0 <= j < |t| ensures t[j].correctsId != t[at].id {
      assert LinkedAt(t, j);
      assert Find(t, t[at].id) == at;
    }
  }

  lemma MoveKeepsSingleCorrections(t: Table, env: Env, m: Move)
    requires Sound(t) && Legal(t, env, m)
    ensures CorrectedOnce(Moved(t, m))
  {
    if m.Supersede? {
      ActiveIsUncorrected(t, m.at);
    }
    var t' := Moved(t, m);
    assert forall i :: 0 <= i < |t| ==> t'[i].correctsId == t[i].correctsId;
  }

  lemma MoveKeepsLinkAt(t: Table, env: Env, m: Move, j: nat)
    requires Sound(t) && Legal(t, env, m) && j < |Moved(t, m)|
    ensures LinkedAt(Moved(t, m), j)
  {
    if j < |t| {
      MoveKeepsOldLink(t, env, m, j);
    }
  }

  lemma MoveKeepsOldLink(t: Table, env: Env, m: Move, j: nat)
    requires Sound(t) && Legal(t, env, m) && j < |t|
    ensures LinkedAt(Moved(t, m), j)
  {
    var t' := Moved(t, m);
    assert forall i :: 0 <= i < |t| ==> t'[i].id == t[i].id;
    assert LinkedAt(t, j);
    if t[j].correctsId != "" {
      FindUnmoved(t, t', t[j].correctsId);
    }
  }

  lemma MoveKeepsLinks(t: Table, env: Env, m: Move)
    requires Sound(t) && Legal(t, env, m)
    ensures Sound(Moved(t, m))
  {
    MoveKeepsSingleCorrections(t, env, m);
    forall j | 0 <= j < |Moved(t, m)| ensures LinkedAt(Moved(t, m), j) {
      MoveKeepsLinkAt(t, env, m, j);
    }
  }

  lemma ErasureKeepsLinks(t: Table, userId: string)
    requires Sound(t)
    ensures Sound(ErasedFor(t, userId))
  {
    var t' := ErasedFor(t, userId);
    assert forall i :: 0 <= i < |t| ==> t'[i].id == t[i].id && t'[i].correctsId == t[i].correctsId;
    forall j | 0 <= j < |t'| ensures LinkedAt(t', j) {
      assert LinkedAt(t, j);
      if t[j].correctsId != "" {
        FindUnmoved(t, t', t[j].correctsId);
      }
    }
  }

  lemma RequestKeepsLinks(t: Table, env: Env, req: Request)
    requires Sound(t)
    ensures Sound(Handle(t, env, req))
  {
    if req.Anonymize? {
      ErasureKeepsLinks(t, req.userId);
    } else {
      var m := RequestIsMove(t, env, req);
      MoveKeepsLinks(t, env, m);
    }
  }

  /** Every run, erasure and half-finished corrections included, keeps ids and links sound. */
  lemma {:induction false} RunKeepsLinks(t: Table, log: Log)
    requires Sound(t)
    ensures Sound(Serve(t, log))
    decreases |log|
  {
    if |log| > 0 {
      RequestKeepsLinks(t, log[0].0, log[0].1);
      RunKeepsLinks(Handle(t, log[0].0, log[0].1), log[1..]);
    }
  }

  // ---------------------------------------------------------------- what never changes

  /** No request of the log erases this user. */
  ghost predicate Spares(log: Log, userId: string) {
    forall k :: 0 <= k < |log| ==> !Erases(log[k].1, userId)
  }

  predicate Erases(req: Request, userId: string) { req.Anonymize? && req.userId == userId }

  predicate Survives(before: Expense, after: Expense) {
    after == before || (before.status.Active? && after == before.(status := Corrected))
  }

  /** What a row keeps whatever happens, and what it keeps as a row of this user. */
  predicate Stays(before: Expense, after: Expense, userId: string) {
    && (after.id, after.createdAt, after.idempotencyKey) == (before.id, before.createdAt, before.idempotencyKey)
    && (before.userId == userId ==> Survives(before, after))
    && (after.userId == userId && userId != DELETED_USER ==> before.userId == userId)
  }

  /** Rows stay, in place; those of this user change only from active to corrected, and nobody else's become theirs. */
  ghost predicate Extends(t: Table, t': Table, userId: string) {
    |t| <= |t'| && forall i :: 0 <= i < |t| ==> Stays(t[i], t'[i], userId)
  }

  lemma RequestExtends(t: Table, env: Env, req: Request, userId: string)
    requires Sound(t) && !Erases(req, userId)
    ensures Extends(t, Handle(t, env, req), userId)
  {
    if !req.Anonymize? {
      var m := RequestIsMove(t, env, req);
    }
  }

  lemma ExtendsTransitive(t: Table, t': Table, t'': Table, userId: string)
    requires Extends(t, t', userId) && Extends(t', t'', userId)
    ensures Extends(t, t'', userId)
  {
    forall i | 0 <= i < |t| ensures Stays(t[i], t''[i], userId) {
      assert Stays(t[i], t'[i], userId) && Stays(t'[i], t''[i], userId);
    }
  }

  /** Over every run that does not erase this user, the user's rows stay and change from active to corrected at most. */
  lemma {:induction false} RunExtends(t: Table, log: Log, userId: string)
    requires Sound(t) && Spares(log, userId)
    ensures Extends(t, Serve(t, log), userId)
    decreases |log|
  {
    if |log| > 0 {
      var t' := Handle(t, log[0].0, log[0].1);
      RequestKeepsLinks(t, log[0].0, log[0].1);
      RequestExtends(t, log[0].0, log[0].1, userId);
      RunExtends(t', log[1..], userId);
      ExtendsTransitive(t, t', Serve(t, log), userId);
    }
  }

  /** Only rows that no longer belong to anyone are redacted. */
  ghost predicate Unerased(t: Table) {
    forall i :: 0 <= i < |t| && t[i].userId != DELETED_USER ==> !t[i].status.Redacted?
  }

  lemma RequestStaysUnerased(t: Table, env: Env, req: Request)
    requires Sound(t) && Unerased(t)
    ensures Unerased(Handle(t, env, req))
  {
    if !req.Anonymize? {
      var m := RequestIsMove(t, env, req);
    }
  }

  lemma {:induction false} RunStaysUnerased(t: Table, log: Log)
    requires Sound(t) && Unerased(t)
    ensures Unerased(Serve(t, log))
    decreases |log|
  {
    if |log| > 0 {
      RequestKeepsLinks(t, log[0].0, log[0].1);
      RequestStaysUnerased(t, log[0].0, log[0].1);
      RunStaysUnerased(Handle(t, log[0].0, log[0].1), log[1..]);
    }
  }

  /** After every run from an empty ledger, a correction names an older, no longer active row of its user and period. */
  lemma CorrectionsNameCorrectedRows(log: Log, j: nat)
    requires j < |Serve([], log)|
    ensures var t := Serve([], log);
      && Sound(t)
      && (t[j].correctsId != "" ==>
            && 0 <= Parent(t, j) < j && SamePeriod(t[Parent(t, j)], t[j])
            && t[Parent(t, j)].proRata == t[j].proRata && !t[Parent(t, j)].status.Active?
            && (t[j].userId != DELETED_USER ==> t[Parent(t, j)].status == Corrected))
  {
    RunKeepsLinks([], log);
    RunStaysUnerased([], log);
    var t := Serve([], log);
    assert LinkedAt(t, j);
  }

  /** Ids and timestamps are never empty: UUIDs and formatted clock readings. */
  ghost predicate Named(t: Table) {
    forall i :: 0 <= i < |t| ==> t[i].id != ""
  }

  ghost predicate Stamped(t: Table) {
    forall i :: 0 <= i < |t| ==> t[i].createdAt != ""
  }

  ghost predicate RealSources(log: Log) {
    forall k :: 0 <= k < |log| ==> log[k].0.newId != "" && log[k].0.timestamp != ""
  }

  lemma RequestStaysNamedAndStamped(t: Table, env: Env, req: Request)
    requires Sound(t) && env.newId != "" && env.timestamp != "" && Named(t) && Stamped(t)
    ensures Named(Handle(t, env, req)) && Stamped(Handle(t, env, req))
  {
    if !req.Anonymize? {
      var m := RequestIsMove(t, env, req);
    }
  }

  lemma {:induction false} RunStaysNamedAndStamped(t: Table, log: Log)
    requires Sound(t) && RealSources(log) && Named(t) && Stamped(t)
    ensures Named(Serve(t, log)) && Stamped(Serve(t, log))
    decreases |log|
  {
    if |log| > 0 {
      RequestKeepsLinks(t, log[0].0, log[0].1);
      RequestStaysNamedAndStamped(t, log[0].0, log[0].1);
      RunStaysNamedAndStamped(Handle(t, log[0].0, log[0].1), log[1..]);
    }
  }

  // ---------------------------------------------------------------- idempotency keys

  /** At most one row per user and non-empty key; erased rows no longer belong to a user. */
  ghost predicate KeysUnique(t: Table) {
    forall i, j :: 0 <= i < j < |t| && t[i].userId != DELETED_USER && t[i].idempotencyKey != "" ==>
      t[j].userId != t[i].userId || t[j].idempotencyKey != t[i].idempotencyKey
  }

  lemma RequestKeepsKeys(t: Table, env: Env, req: Request)
    requires Sound(t) && KeysUnique(t)
    ensures KeysUnique(Handle(t, env, req))
  {
    if !req.Anonymize? {
      var m := RequestIsMove(t, env, req);
    }
  }

  /** Over every run, erasures included, a user has at most one row per non-empty key. */
  lemma {:induction false} RunKeepsKeys(t: Table, log: Log)
    requires Sound(t) && KeysUnique(t)
    ensures KeysUnique(Serve(t, log))
    decreases |log|
  {
    if |log| > 0 {
      RequestKeepsLinks(t, log[0].0, log[0].1);
      RequestKeepsKeys(t, log[0].0, log[0].1);
      RunKeepsKeys(Handle(t, log[0].0, log[0].1), log[1..]);
    }
  }

  /** Later requests do not change which row answers for a key. */
  lemma KeyFoundAgain(t: Table, t': Table, userId: string, key: string)
    requires Extends(t, t', userId) && userId != DELETED_USER && FindKey(t, userId, key) != -1
    ensures FindKey(t', userId, key) == FindKey(t, userId, key)
  {
    forall k | 0 <= k < FindKey(t, userId, key) ensures !MatchesKey(t'[k], userId, key) {
      assert Stays(t[k], t'[k], userId);
    }
  }

  ghost predicate WellFormedCreate(req: CreateRequest) {
    ValidDetails(req.details) && ValidMonth(req.year, req.month) && IsUuid(req.idempotencyKey)
  }

  /**
   * Once a row holds a user's key, every later create with that key leaves the
   * ledger alone, whatever happened in between short of erasing the user; it
   * answers with that same row if and only if the row's money snapshot is
   * complete, and with a snapshot integrity error otherwise.
   */
  lemma ReplayAnswersTheStoredRow(t: Table, log: Log, at: nat, env: Env, req: CreateRequest)
    requires Sound(t) && at < |t| && t[at].userId != DELETED_USER && Spares(log, t[at].userId)
    requires FindKey(t, t[at].userId, req.idempotencyKey) == at
    requires WellFormedCreate(req) && !env.readFails
    ensures var t' := Serve(t, log);
      var (t'', reply) := CreateExpense(t', env, t[at].userId, req);
      && t'' == t' && at < |t'| && Survives(t[at], t'[at])
      && (reply == Ok(t'[at]) <==> Complete(t[at].money))
      && (reply == Err(SnapshotIntegrity) <==> !Complete(t[at].money))
  {
    RunExtends(t, log, t[at].userId);
    assert Stays(t[at], Serve(t, log)[at], t[at].userId);
    KeyFoundAgain(t, Serve(t, log), t[at].userId, req.idempotencyKey);
  }

  /** What FX must answer for the row of a foreign-currency create to be readable. */
  predicate Readable(quote: Quote) {
    quote.amount != 0 && quote.rate != "" && quote.timestamp != ""
  }

  /** A create stores a row that can be read back exactly when it is at par or FX answered a whole, non-zero quote. */
  lemma CreateStoresReadableIff(t: Table, env: Env, userId: string, req: CreateRequest)
    requires CreateExpense(t, env, userId, req).0 != t && "" !in env.catalog && env.timestamp != ""
    ensures var money := CreateExpense(t, env, userId, req).0[|t|].money;
      Complete(money) <==>
        money.transactionCurrency == money.reportingCurrency || (env.quote.Some? && Readable(env.quote.value))
  {
  }

  /** A create in a foreign currency that reaches the INSERT with a quote of nothing. */
  ghost predicate QuotedAtNothing(t: Table, env: Env, userId: string, req: CreateRequest) {
    && WellFormedCreate(req) && !env.readFails && FindKey(t, userId, req.idempotencyKey) == -1
    && env.period.Some? && env.period.value in env.catalog
    && req.details.currency in env.catalog && req.details.currency !in {"", env.period.value}
    && env.quote.Some? && env.quote.value.source in RATE_SOURCES && env.quote.value.amount == 0
  }

  lemma ZeroQuoteIsStored(t: Table, env: Env, userId: string, req: CreateRequest)
    requires QuotedAtNothing(t, env, userId, req) && env.insert.Acknowledged? && !HasId(t, env.newId)
    ensures var (t', reply) := CreateExpense(t, env, userId, req);
      && reply.Ok? && t' == t + [reply.value] && !Complete(reply.value.money) && reply.value.userId == userId
      && FindKey(t', userId, req.idempotencyKey) == |t|
  {
    CreateClaimsItsKey(t, env, userId, req);
  }

  /**
   * On every sound ledger a create whose quote rounds to nothing is acknowledged,
   * and the same request, at any later time, is refused for the row it stored itself.
   */
  lemma ZeroQuoteReplayFails(t: Table, env: Env, userId: string, req: CreateRequest, log: Log, later: Env)
    requires Sound(t) && userId != DELETED_USER && Spares(log, userId) && !later.readFails
    requires QuotedAtNothing(t, env, userId, req) && env.insert.Acknowledged? && !HasId(t, env.newId)
    ensures var (t', first) := CreateExpense(t, env, userId, req);
      && first.Ok? && t' == t + [first.value]
      && CreateExpense(Serve(t', log), later, userId, req) == (Serve(t', log), Err(SnapshotIntegrity))
  {
    ZeroQuoteIsStored(t, env, userId, req);
    RequestKeepsLinks(t, env, Create(userId, req));
    ReplayAnswersTheStoredRow(CreateExpense(t, env, userId, req).0, log, |t|, later, req);
  }

  /** Quotient and remainder. */
  function QuoRem(n: nat, den: nat): (qr: (nat, nat))
    requires den > 0
    ensures qr.1 < den && (n < den ==> qr == (0, n)) && (n >= den ==> qr.0 > 0)
  {
    if n < den then (0, n)
    else
      var (q, r) := QuoRem(n - den, den);
      (q + 1, r)
  }

  /** FX rounds a fraction of minor units half away from zero. */
  function RoundHalfAway(num: int, den: nat): int
    requires den > 0
  {
    var (q, r) := QuoRem(if num < 0 then -num else num, den);
    var rounded := if 2 * r >= den then q + 1 else q;
    if num < 0 then -rounded else rounded
  }

  lemma {:induction false} QuoRemDivides(n: nat, den: nat)
    requires den > 0
    ensures n == QuoRem(n, den).0 * den + QuoRem(n, den).1
  {
    if n >= den {
      QuoRemDivides(n - den, den);
      var q := QuoRem(n - den, den).0;
      assert (q + 1) * den == q * den + den;
    }
  }

  /** The rounded amount is at most half a minor unit away, and at exactly half it is the one further from zero. */
  lemma RoundsToNearest(num: int, den: int)
    requires num >= 0 && den > 0
    ensures RoundHalfAway(-num, den) == -RoundHalfAway(num, den)
    ensures -den <= 2 * (num - RoundHalfAway(num, den) * den) < den
  {
    QuoRemDivides(num, den);
    var q := QuoRem(num, den).0;
    assert (q + 1) * den == q * den + den;
  }

  /** A converted amount rounds to nothing exactly when it is less than half a minor unit. */
  lemma RoundsToNothingIff(num: int, den: nat)
    requires den > 0
    ensures RoundHalfAway(num, den) == 0 <==> 2 * (if num < 0 then -num else num) < den
  {
  }

  /** One cent at 0.128. */
  const CENT := CreateRequest(Details("gum", 1, "HKD", "desires", "tag", "2024-05-01"), 2024, 5,
                              ProRata(false, "", 0, 0), "00000000-0000-0000-0000-000000000001")

  const MARKET := Env("2024-05-01T10:00:00Z", 2024, 5, "e1", false, Some("USD"),
                      Some(Quote(RoundHalfAway(128, 1000), "0.128", "open_exchange_rates",
                                 "2024-05-01T09:00:00Z", "2024-05-01T10:00:00Z")),
                      {"USD", "HKD"}, Acknowledged, Acknowledged)

  lemma CentIsWellFormed()
    ensures WellFormedCreate(CENT)
  {
    assert IsUuid(CENT.idempotencyKey) by {
      assert |CENT.idempotencyKey| == 36;
    }
    assert IsIsoDate(CENT.details.expenseDate) by {
      assert |CENT.details.expenseDate| == 10;
    }
  }

  /** One Hong Kong cent, in a period kept in dollars, is such a create. */
  lemma OneCentCannotBeReplayed()
    ensures var (t, first) := CreateExpense([], MARKET, "u1", CENT);
      first.Ok? && |t| == 1 && CreateExpense(t, MARKET, "u1", CENT).1 == Err(SnapshotIntegrity)
  {
    CentIsWellFormed();
    RoundsToNothingIff(128, 1000);
    ZeroQuoteReplayFails([], MARKET, "u1", CENT, [], MARKET);
  }

  /** A create that inserts makes its row the holder of its key. */
  lemma CreateClaimsItsKey(t: Table, env: Env, userId: string, req: CreateRequest)
    requires CreateExpense(t, env, userId, req).0 != t
    ensures var t' := CreateExpense(t, env, userId, req).0;
      && t' == t + [t'[|t|]]
      && WellFormedCreate(req)
      && t'[|t|].userId == userId && t'[|t|].idempotencyKey == req.idempotencyKey
      && FindKey(t', userId, req.idempotencyKey) == |t|
  {
  }

  // ---------------------------------------------------------------- period totals

  predicate Counts(row: Expense, userId: string, year: int, month: int) {
    row.status.Active? && row.userId == userId && InPeriod(row, year, month)
  }

  function Share(row: Expense, userId: string, year: int, month: int): int {
    if Counts(row, userId, year, month) then row.money.reportingAmount else 0
  }

  /** Sum of the reporting amounts of a user's active rows in one period. */
  function ActiveTotal(t: Table, userId: string, year: int, month: int): int {
    if |t| == 0 then 0
    else ActiveTotal(t[..|t| - 1], userId, year, month) + Share(t[|t| - 1], userId, year, month)
  }

  lemma {:induction false} TotalOfUpdate(t: Table, at: nat, row: Expense, userId: string, year: int, month: int)
    requires at < |t|
    ensures ActiveTotal(t[at := row], userId, year, month)
         == ActiveTotal(t, userId, year, month) - Share(t[at], userId, year, month) + Share(row, userId, year, month)
  {
    var n := |t| - 1;
    if at == n {
      assert t[at := row][..n] == t[..n];
    } else {
      assert t[at := row][..n] == t[..n][at := row];
      TotalOfUpdate(t[..n], at, row, userId, year, month);
    }
  }

  /** What one move adds to a period's active total. */
  function Delta(t: Table, m: Move, userId: string, year: int, month: int): int
    requires m.Close? || m.Supersede? ==> m.at < |t|
  {
    match m
    case Nothing => 0
    case Append(row) => Share(row, userId, year, month)
    case Close(at) => -Share(t[at], userId, year, month)
    case Supersede(at, row) => Share(row, userId, year, month) - Share(t[at], userId, year, month)
  }

  lemma TotalOfMove(t: Table, env: Env, m: Move, userId: string, year: int, month: int)
    requires Legal(t, env, m)
    ensures ActiveTotal(Moved(t, m), userId, year, month)
         == ActiveTotal(t, userId, year, month) + Delta(t, m, userId, year, month)
  {
    match m
    case Nothing =>
    case Append(row) =>
    case Close(at) => TotalOfUpdate(t, at, t[at].(status := Corrected), userId, year, month);
    case Supersede(at, row) =>
      TotalOfUpdate(t, at, t[at].(status := Corrected), userId, year, month);
  }

  /**
   * An acknowledged correction moves its own period by new minus old and every
   * other user and period not at all.
   */
  lemma CorrectionMovesItsTotal(t: Table, env: Env, userId: string, id: string, d: Details, u: string, y: int, mo: int)
    requires Sound(t) && CorrectExpense(t, env, userId, id, d).1.Ok?
    ensures var (t', reply) := CorrectExpense(t, env, userId, id, d);
      var original := t[Find(t, id)];
      && 0 <= Find(t, id) && original.userId == userId && SamePeriod(original, reply.value)
      && ActiveTotal(t', u, y, mo) - ActiveTotal(t, u, y, mo)
         == if u == userId && InPeriod(original, y, mo)
            then reply.value.money.reportingAmount - original.money.reportingAmount else 0
  {
    var at := Find(t, id);
    FlippedOne(t, at);
    FlippedKeepsIds(t, id, env.newId);
    var m := Supersede(at, CorrectExpense(t, env, userId, id, d).1.value);
    assert Moved(t, m) == CorrectExpense(t, env, userId, id, d).0;
    TotalOfMove(t, env, m, u, y, mo);
  }

  /** The user's own readable row, active, in the month of the clock. */
  predicate MayChange(t: Table, env: Env, userId: string, id: string) {
    var at := Find(t, id);
    at != -1 && t[at].userId == userId && Complete(t[at].money) && t[at].status.Active?
    && InPeriod(t[at], env.year, env.month)
  }

  /** The request passes every check and is priced: it goes on to its writes. */
  predicate ReachesWrites(t: Table, env: Env, userId: string, id: string, d: Details) {
    && id != "" && ValidDetails(d) && !env.readFails && MayChange(t, env, userId, id)
    && Price(env, d.amount, d.currency, t[Find(t, id)].money.transactionCurrency).Ok?
  }

  predicate InsertLands(t: Table, env: Env) { !env.insert.Rejected? && !HasId(t, env.newId) }

  /** Both writes are done, or neither. */
  predicate WritesAgree(t: Table, env: Env) {
    env.update.Rejected? || (env.update.Acknowledged? && InsertLands(t, env))
  }

  /** A correction is acknowledged exactly when it reaches its writes and both are acknowledged. */
  lemma CorrectionSucceedsIff(t: Table, env: Env, userId: string, id: string, d: Details)
    ensures CorrectExpense(t, env, userId, id, d).1.Ok? <==>
      && ReachesWrites(t, env, userId, id, d)
      && env.update.Acknowledged? && env.insert.Acknowledged? && !HasId(t, env.newId)
  {
    if Correctable(t, env, userId, id).Ok? {
      FlippedKeepsIds(t, id, env.newId);
    }
  }

  /**
   * What a correction leaves: nothing if it does not reach its writes or the first
   * is rejected; the original closed and the correction added if both are done; and
   * otherwise the original closed alone.
   */
  lemma CorrectionLeaves(t: Table, env: Env, userId: string, id: string, d: Details)
    requires Sound(t)
    ensures var t' := CorrectExpense(t, env, userId, id, d).0;
      if !ReachesWrites(t, env, userId, id, d) || env.update.Rejected? then t' == t
      else
        var closed := t[Find(t, id) := t[Find(t, id)].(status := Corrected)];
        && closed != t
        && (if WritesAgree(t, env) then |t'| == |t| + 1 && t'[..|t|] == closed && t'[|t|].correctsId == id
            else t' == closed)
  {
    if ReachesWrites(t, env, userId, id, d) {
      var at := Find(t, id);
      FlippedOne(t, at);
      FlippedKeepsIds(t, id, env.newId);
      assert t[at := t[at].(status := Corrected)][at] != t[at];
    }
  }

  /**
   * A correction is atomic, leaving the ledger as it was or both of its writes,
   * exactly when it never reaches the writes or the writes agree; and one that is
   * acknowledged is always whole.
   */
  lemma CorrectionIsAtomicIff(t: Table, env: Env, userId: string, id: string, d: Details)
    requires Sound(t)
    ensures var (t', reply) := CorrectExpense(t, env, userId, id, d);
      && (t' == t || |t'| == |t| + 1 <==> !ReachesWrites(t, env, userId, id, d) || WritesAgree(t, env))
      && (reply.Ok? ==> |t'| == |t| + 1)
  {
    CorrectionLeaves(t, env, userId, id, d);
    CorrectionSucceedsIff(t, env, userId, id, d);
  }

  /**
   * Where it is not atomic, because the INSERT was refused or the UPDATE was applied
   * without its acknowledgement, it has taken the old amount out exactly as a deletion does.
   */
  lemma HalfCorrectionIsADeletion(t: Table, env: Env, userId: string, id: string, d: Details)
    requires Sound(t) && ReachesWrites(t, env, userId, id, d) && !WritesAgree(t, env)
    ensures CorrectExpense(t, env, userId, id, d) == (DeleteExpense(t, env, userId, id).0, Err(Storage))
    ensures CorrectExpense(t, env, userId, id, d).0 != t
  {
    CorrectionLeaves(t, env, userId, id, d);
    CorrectionSucceedsIff(t, env, userId, id, d);
    FlippedOne(t, Find(t, id));
    FlippedKeepsIds(t, id, env.newId);
  }

  lemma DeletionMovesItsTotal(t: Table, env: Env, userId: string, id: string, u: string, y: int, mo: int)
    requires Sound(t) && DeleteExpense(t, env, userId, id).1.Ok?
    ensures var (t', reply) := DeleteExpense(t, env, userId, id);
      && reply.value.userId == userId && reply.value.id == id
      && ActiveTotal(t', u, y, mo) - ActiveTotal(t, u, y, mo)
         == if u == userId && InPeriod(reply.value, y, mo) then -reply.value.money.reportingAmount else 0
  {
    var at := Find(t, id);
    FlippedOne(t, at);
    TotalOfMove(t, env, Close(at), u, y, mo);
  }

  lemma CreationMovesItsTotal(t: Table, env: Env, userId: string, req: CreateRequest, u: string, y: int, mo: int)
    requires CreateExpense(t, env, userId, req).0 != t
    ensures var t' := CreateExpense(t, env, userId, req).0;
      && |t'| == |t| + 1
      && ActiveTotal(t', u, y, mo) - ActiveTotal(t, u, y, mo)
         == if u == userId && (y, mo) == (req.year, req.month) then t'[|t|].money.reportingAmount else 0
  {
  }

  lemma ProRataMovesItsTotal(t: Table, env: Env, req: ProRataRequest, u: string, y: int, mo: int)
    requires CreateProRataInstallment(t, env, req).0 != t
    ensures var t' := CreateProRataInstallment(t, env, req).0;
      && |t'| == |t| + 1 && t'[|t|].proRata.group == req.group
      && ActiveTotal(t', u, y, mo) - ActiveTotal(t, u, y, mo)
         == if u == req.userId && (y, mo) == (req.context.year, req.context.month)
            then t'[|t|].money.reportingAmount else 0
  {
  }

  /** The reply to a request, with the row dropped. */
  function Refusal(t: Table, env: Env, req: Request): Option<LedgerError> {
    match req
    case Create(userId, create) =>
      (match CreateExpense(t, env, userId, create).1 case Ok(_) => None case Err(e) => Some(e))
    case CreateProRata(proRata) =>
      (match CreateProRataInstallment(t, env, proRata).1 case Ok(_) => None case Err(e) => Some(e))
    case Correct(userId, id, d) =>
      (match CorrectExpense(t, env, userId, id, d).1 case Ok(_) => None case Err(e) => Some(e))
    case Delete(userId, id) =>
      (match DeleteExpense(t, env, userId, id).1 case Ok(_) => None case Err(e) => Some(e))
    case Anonymize(userId) => None
  }

  /** Only a storage failure can leave a trace behind a refused request. */
  lemma RefusalsLeaveNoTrace(t: Table, env: Env, req: Request)
    requires Refusal(t, env, req).Some? && Refusal(t, env, req) != Some(Storage)
    ensures Handle(t, env, req) == t
  {
  }

  /** This request asks for a change of this row and may make it. */
  predicate AsksFor(env: Env, req: Request, row: Expense) {
    && (req.Correct? || req.Delete?) && req.userId == row.userId && req.id == row.id
    && row.status.Active? && InPeriod(row, env.year, env.month)
  }

  /** A request changes a stored row only if it erases its user, or names it, comes from its user, and is in time. */
  lemma RequestChangesOnlyItsRow(t: Table, env: Env, req: Request, i: nat)
    requires DistinctIds(t) && i < |t| && !Erases(req, t[i].userId)
    ensures i < |Handle(t, env, req)|
    ensures Handle(t, env, req)[i] != t[i] ==>
              AsksFor(env, req, t[i]) && Handle(t, env, req)[i] == t[i].(status := Corrected)
  {
    if req.Correct? || req.Delete? {
      var at := Find(t, req.id);
      if at != -1 {
        FlippedOne(t, at);
      }
    }
  }

  /** Over every run that does not erase its user, a row that changed was corrected or deleted by them in its month. */
  lemma {:induction false} ChangedRowsWereAskedFor(t: Table, log: Log, i: nat)
    requires Sound(t) && i < |t| && Spares(log, t[i].userId)
    ensures i < |Serve(t, log)|
    ensures Serve(t, log)[i] != t[i] ==> exists k :: 0 <= k < |log| && AsksFor(log[k].0, log[k].1, t[i])
    decreases |log|
  {
    if |log| > 0 {
      RequestKeepsLinks(t, log[0].0, log[0].1);
      RequestChangesOnlyItsRow(t, log[0].0, log[0].1, i);
      var t' := Handle(t, log[0].0, log[0].1);
      ChangedRowsWereAskedFor(t', log[1..], i);
      if Serve(t, log)[i] != t[i] && t'[i] == t[i] {
        var k :| 0 <= k < |log| - 1 && AsksFor(log[1..][k].0, log[1..][k].1, t[i]);
        assert AsksFor(log[k + 1].0, log[k + 1].1, t[i]);
      }
    }
  }

  // ---------------------------------------------------------------- what rows hold

  predicate AllHexadecimal(s: string) {
    forall i :: 0 <= i < |s| ==> '0' <= s[i] <= '9' || 'a' <= s[i] <= 'f' || 'A' <= s[i] <= 'F'
  }

  /** 32 hexadecimal digits, or groups of 8, 4, 4, 4 and 12 with dashes between. */
  predicate SpellsUuid(s: string) {
    || (|s| == 32 && AllHexadecimal(s))
    || (&& |s| == 36 && s[8] == s[13] == s[18] == s[23] == '-'
        && AllHexadecimal(s[..8]) && AllHexadecimal(s[9..13]) && AllHexadecimal(s[14..18])
        && AllHexadecimal(s[19..23]) && AllHexadecimal(s[24..]))
  }

  lemma SpellsUuidIff(s: string)
    ensures SpellsUuid(s) <==> IsUuid(s)
  {
    if |s| == 36 {
      assert forall i :: 0 <= i < 8 ==> s[i] == s[..8][i];
      assert forall i :: 9 <= i < 13 ==> s[i] == s[9..13][i - 9];
      assert forall i :: 14 <= i < 18 ==> s[i] == s[14..18][i - 14];
      assert forall i :: 19 <= i < 23 ==> s[i] == s[19..23][i - 19];
      assert forall i :: 24 <= i < 36 ==> s[i] == s[24..][i - 24];
    }
  }

  /** Nothing in the row is empty or out of range: a positive amount, one of three types, a dated day and a month. */
  predicate WellFilled(row: Expense) {
    && row.money.transactionAmount > 0 && row.name != "" && row.tagId != ""
    && (row.expenseType == "essentials" || row.expenseType == "desires" || row.expenseType == "savings")
    && |row.expenseDate| == 10 && row.expenseDate[4] == '-' && row.expenseDate[7] == '-'
    && (forall i :: 0 <= i < 10 && i != 4 && i != 7 ==> '0' <= row.expenseDate[i] <= '9')
    && (row.idempotencyKey != "" ==> SpellsUuid(row.idempotencyKey))
    && (row.money.source == "identity" || row.money.source == "open_exchange_rates" || row.money.source == "migration")
    && row.year >= 1 && 1 <= row.month <= 12
  }

  ghost predicate AllWellFilled(t: Table) {
    forall i :: 0 <= i < |t| && t[i].userId != DELETED_USER ==> WellFilled(t[i])
  }

  lemma NewRowIsWellFilled(t: Table, env: Env, req: Request)
    requires Sound(t) && AllWellFilled(t) && |Handle(t, env, req)| > |t| && !req.Correct?
    ensures WellFilled(Handle(t, env, req)[|t|])
  {
    SpellsUuidIff(Handle(t, env, req)[|t|].idempotencyKey);
  }

  /** And no stricter: a create is well-formed exactly when the row it asks for would be well filled. */
  lemma WellFormedIffWellFilled(env: Env, userId: string, req: CreateRequest, money: Money)
    requires req.idempotencyKey != "" && money.transactionAmount == req.details.amount && money.source in RATE_SOURCES
    ensures WellFormedCreate(req) <==>
      WellFilled(NewRow(env, userId, req.details, req.year, req.month, "", req.proRata, money, req.idempotencyKey))
  {
    SpellsUuidIff(req.idempotencyKey);
  }

  lemma CorrectionIsWellFilled(t: Table, env: Env, userId: string, id: string, d: Details)
    requires Sound(t) && AllWellFilled(t) && |CorrectExpense(t, env, userId, id, d).0| > |t|
    requires t[Find(t, id)].userId != DELETED_USER
    ensures WellFilled(CorrectExpense(t, env, userId, id, d).0[|t|])
  {
    assert WellFilled(t[Find(t, id)]);
  }

  lemma OldRowStaysFilled(t: Table, env: Env, req: Request, i: nat)
    requires Sound(t) && i < |t| && (t[i].userId != DELETED_USER ==> WellFilled(t[i]))
    ensures i < |Handle(t, env, req)|
    ensures Handle(t, env, req)[i].userId != DELETED_USER ==> WellFilled(Handle(t, env, req)[i])
  {
    if !Erases(req, t[i].userId) {
      RequestChangesOnlyItsRow(t, env, req, i);
    }
  }

  lemma AddedRowIsFilled(t: Table, env: Env, req: Request)
    requires Sound(t) && AllWellFilled(t) && |Handle(t, env, req)| > |t|
    ensures Handle(t, env, req)[|t|].userId != DELETED_USER ==> WellFilled(Handle(t, env, req)[|t|])
  {
    match req
    case Correct(userId, id, d) =>
      if CorrectExpense(t, env, userId, id, d).0[|t|].userId != DELETED_USER {
        CorrectionIsWellFilled(t, env, userId, id, d);
      }
    case _ => NewRowIsWellFilled(t, env, req);
  }

  lemma RequestKeepsWellFilled(t: Table, env: Env, req: Request, i: nat)
    requires Sound(t) && AllWellFilled(t) && i < |Handle(t, env, req)|
    ensures Handle(t, env, req)[i].userId != DELETED_USER ==> WellFilled(Handle(t, env, req)[i])
  {
    RequestWritesItsRow(t, env, req);
    if i < |t| {
      OldRowStaysFilled(t, env, req, i);
    } else {
      AddedRowIsFilled(t, env, req);
    }
  }

  /** After every run from an empty ledger, each row not erased is filled in as the service demands. */
  lemma {:induction false} StoredRowsAreWellFilled(t: Table, log: Log)
    requires Sound(t) && AllWellFilled(t)
    ensures AllWellFilled(Serve(t, log))
    decreases |log|
  {
    if |log| > 0 {
      RequestKeepsLinks(t, log[0].0, log[0].1);
      forall i | 0 <= i < |Handle(t, log[0].0, log[0].1)| && Handle(t, log[0].0, log[0].1)[i].userId != DELETED_USER
        ensures WellFilled(Handle(t, log[0].0, log[0].1)[i])
      {
        RequestKeepsWellFilled(t, log[0].0, log[0].1, i);
      }
      StoredRowsAreWellFilled(Handle(t, log[0].0, log[0].1), log[1..]);
    }
  }

  // ---------------------------------------------------------------- where rows come from

  predicate Describes(d: Details, row: Expense) {
    && (row.name, row.expenseType, row.tagId, row.expenseDate) == (d.name, d.expenseType, d.tagId, d.expenseDate)
    && row.money.transactionAmount == d.amount
  }

  /** The reporting side is the amount at par, or what FX quoted for it. */
  predicate Quoted(env: Env, m: Money) {
    env.quote.Some? && env.quote.value.source == m.source
    && m.reportingAmount == env.quote.value.amount && m.rate == env.quote.value.rate
    && m.timestamp == env.quote.value.timestamp && m.expiresAt == env.quote.value.expiresAt
  }

  predicate Priced(env: Env, m: Money) {
    && env.period == Some(m.reportingCurrency) && {m.transactionCurrency, m.reportingCurrency} <= env.catalog
    && if m.transactionCurrency == m.reportingCurrency
       then m.reportingAmount == m.transactionAmount && m.rate == "1" && m.source == "identity"
            && m.timestamp == env.timestamp && m.expiresAt == ""
       else Quoted(env, m)
  }

  predicate Chosen(currency: string, fallback: string, m: Money) {
    m.transactionCurrency == if currency == "" then fallback else currency
  }

  /** The transaction currency of the row that this one corrects. */
  function Inherited(t: Table, row: Expense): string {
    var at := Find(t, row.correctsId);
    if at == -1 then "" else t[at].money.transactionCurrency
  }

  /** This request, in this environment, is the one that wrote this row; `inherited` is the corrected row's currency. */
  predicate Wrote(env: Env, req: Request, row: Expense, inherited: string) {
    && row.id == env.newId && row.createdAt == env.timestamp
    && match req
       case Create(userId, c) =>
         && row.userId == userId && Describes(c.details, row) && InPeriod(row, c.year, c.month)
         && row.correctsId == "" && row.idempotencyKey == c.idempotencyKey && row.proRata == c.proRata
         && Priced(env, row.money) && Chosen(c.details.currency, row.money.reportingCurrency, row.money)
       case CreateProRata(p) =>
         && row.userId == p.userId && Describes(p.details, row) && InPeriod(row, p.context.year, p.context.month)
         && p.context.userId == p.userId && p.context.source == "finance_service" && 1 <= p.index <= p.total
         && {row.money.transactionCurrency, row.money.reportingCurrency} <= env.catalog * p.snapshotCurrencies
         && row.correctsId == "" && row.proRata == ProRata(true, p.group, p.index, p.total)
         && Quoted(env, row.money) && row.money.reportingCurrency == p.context.reportingCurrency
         && row.money.transactionCurrency == p.details.currency
       case Correct(userId, id, d) =>
         && row.userId == userId && Describes(d, row) && InPeriod(row, env.year, env.month)
         && row.correctsId == id != "" && row.idempotencyKey == ""
         && Priced(env, row.money) && Chosen(d.currency, inherited, row.money)
       case _ => false
  }

  ghost predicate HasAuthor(t: Table, row: Expense, log: Log) {
    exists k :: 0 <= k < |log| && Wrote(log[k].0, log[k].1, row, Inherited(t, row))
  }

  /** Every row that still belongs to a user was written by one request of that user. */
  ghost predicate Authored(t: Table, log: Log) {
    forall j :: 0 <= j < |t| && t[j].userId != DELETED_USER ==> HasAuthor(t, t[j], log)
  }

  lemma InheritsFrom(t: Table, at: nat, row: Expense)
    requires DistinctIds(t) && at < |t| && row.correctsId == t[at].id
    ensures Inherited(t[at := t[at].(status := Corrected)] + [row], row) == t[at].money.transactionCurrency
  {
    var t' := t[at := t[at].(status := Corrected)] + [row];
    assert t'[at].id == row.correctsId && HasId(t', row.correctsId);
    assert forall k :: 0 <= k < at ==> t'[k].id == t[k].id;
  }

  /** A price that is given is right, and in the currency asked for. */
  lemma PriceIsRight(env: Env, amount: int, currency: string, fallback: string)
    requires Price(env, amount, currency, fallback).Ok?
    ensures var m := Price(env, amount, currency, fallback).value;
      Priced(env, m) && Chosen(currency, fallback, m) && m.transactionAmount == amount
  {
  }

  lemma CorrectionIsPriced(t: Table, env: Env, userId: string, id: string, d: Details)
    requires DistinctIds(t) && Correctable(t, env, userId, id).Ok? && CorrectExpense(t, env, userId, id, d).0 != t
    ensures var (t', at) := (CorrectExpense(t, env, userId, id, d).0, Find(t, id));
      && 0 <= at
      && (t' == t[at := t[at].(status := Corrected)]
          || (&& |t'| == |t| + 1 && t' == t[at := t[at].(status := Corrected)] + [t'[|t|]]
              && Wrote(env, Correct(userId, id, d), t'[|t|], t[at].money.transactionCurrency)))
  {
    var fallback := t[Find(t, id)].money.transactionCurrency;
    FlippedOne(t, Find(t, id));
    PriceIsRight(env, d.amount, d.currency, fallback);
  }

  lemma CorrectionIsWritten(t: Table, env: Env, userId: string, id: string, d: Details)
    requires DistinctIds(t) && Correctable(t, env, userId, id).Ok?
    ensures var t' := CorrectExpense(t, env, userId, id, d).0;
      && |t| <= |t'| <= |t| + 1
      && (|t'| > |t| ==> Wrote(env, Correct(userId, id, d), t'[|t|], Inherited(t', t'[|t|])))
  {
    var t' := CorrectExpense(t, env, userId, id, d).0;
    if t' != t {
      CorrectionIsPriced(t, env, userId, id, d);
      if |t'| > |t| {
        InheritsFrom(t, Find(t, id), t'[|t|]);
      }
    }
  }

  /** A request adds one row at most, and it is the author of that row. */
  lemma RequestWritesItsRow(t: Table, env: Env, req: Request)
    requires DistinctIds(t)
    ensures var t' := Handle(t, env, req);
      && |t| <= |t'| <= |t| + 1
      && (|t'| > |t| ==> Wrote(env, req, t'[|t|], Inherited(t', t'[|t|])))
  {
    match req
    case Correct(userId, id, d) =>
      if Correctable(t, env, userId, id).Ok? {
        CorrectionIsWritten(t, env, userId, id, d);
      }
    case _ =>
  }

  /** Unless its user is erased, a row's corrected row keeps its currency. */
  lemma InheritanceStays(t: Table, env: Env, req: Request, j: nat)
    requires Sound(t) && j < |t| && t[j].correctsId != "" && !Erases(req, t[j].userId)
    ensures |t| <= |Handle(t, env, req)|
    ensures Inherited(Handle(t, env, req), t[j]) == Inherited(t, t[j])
  {
    var t', p := Handle(t, env, req), Parent(t, j);
    assert LinkedAt(t, j);
    RequestExtends(t, env, req, t[j].userId);
    assert forall i :: 0 <= i < |t| ==> Stays(t[i], t'[i], t[j].userId);
    FindUnmoved(t, t', t[j].correctsId);
    assert Survives(t[p], t'[p]);
  }

  lemma AuthorStays(t: Table, t': Table, row: Expense, row': Expense, log: Log, entry: (Env, Request))
    requires HasAuthor(t, row, log) && (row' == row || row' == row.(status := Corrected))
    requires row.correctsId == "" || Inherited(t', row) == Inherited(t, row)
    ensures HasAuthor(t', row', log + [entry])
  {
    var k :| 0 <= k < |log| && Wrote(log[k].0, log[k].1, row, Inherited(t, row));
    assert (log + [entry])[k] == log[k] && Wrote(log[k].0, log[k].1, row', Inherited(t', row'));
  }

  lemma RequestKeepsAuthor(t: Table, past: Log, env: Env, req: Request, j: nat)
    requires Sound(t) && Authored(t, past) && j < |t| && |t| <= |Handle(t, env, req)|
    requires Handle(t, env, req)[j].userId != DELETED_USER
    ensures HasAuthor(Handle(t, env, req), Handle(t, env, req)[j], past + [(env, req)])
  {
    var t' := Handle(t, env, req);
    if !Erases(req, t[j].userId) {
      RequestChangesOnlyItsRow(t, env, req, j);
      if t[j].correctsId != "" {
        InheritanceStays(t, env, req, j);
      }
    } else {
      assert t' == t;
    }
    AuthorStays(t, t', t[j], t'[j], past, (env, req));
  }

  lemma RequestKeepsAuthors(t: Table, past: Log, env: Env, req: Request)
    requires Sound(t) && Authored(t, past)
    ensures Authored(Handle(t, env, req), past + [(env, req)])
  {
    var t' := Handle(t, env, req);
    var log := past + [(env, req)];
    RequestWritesItsRow(t, env, req);
    forall j | 0 <= j < |t'| && t'[j].userId != DELETED_USER ensures HasAuthor(t', t'[j], log) {
      if j == |t| {
        assert log[|past|] == (env, req);
        assert Wrote(log[|past|].0, log[|past|].1, t'[j], Inherited(t', t'[j]));
      } else {
        RequestKeepsAuthor(t, past, env, req, j);
      }
    }
  }

  lemma {:induction false} RunKeepsAuthors(t: Table, past: Log, log: Log)
    requires Sound(t) && Authored(t, past)
    ensures Authored(Serve(t, log), past + log)
    decreases |log|
  {
    if |log| == 0 {
      assert past + log == past;
    } else {
      RequestKeepsAuthors(t, past, log[0].0, log[0].1);
      RequestKeepsLinks(t, log[0].0, log[0].1);
      RunKeepsAuthors(Handle(t, log[0].0, log[0].1), past + [log[0]], log[1..]);
      assert past + [log[0]] + log[1..] == past + log;
    }
  }

  /**
   * After every run from an empty ledger, each row that has not been erased holds,
   * unaltered, the details of one request of its own user, and nothing else is there.
   */
  lemma EveryRowHasAnAuthor(log: Log, j: nat)
    requires j < |Serve([], log)| && Serve([], log)[j].userId != DELETED_USER
    ensures HasAuthor(Serve([], log), Serve([], log)[j], log)
  {
    RunKeepsAuthors([], [], log);
    assert [] + log == log;
  }

  // ---------------------------------------------------------------- closed months

  predicate Before(y: int, m: int, env: Env) {
    y < env.year || (y == env.year && m < env.month)
  }

  /** The clock never reads an earlier month than it read before. */
  ghost predicate ClockAdvances(log: Log) {
    forall i, j :: 0 <= i < j < |log| ==> !Before(log[j].0.year, log[j].0.month, log[i].0)
  }

  /** Once the clock has left a month, its active rows never change, unless their user is erased. */
  lemma {:induction false} ClosedMonthKeepsItsRows(t: Table, log: Log, year: int, month: int, i: nat)
    requires Sound(t) && ClockAdvances(log) && i < |t| && Spares(log, t[i].userId)
    requires |log| > 0 ==> Before(year, month, log[0].0)
    requires t[i].status.Active? && InPeriod(t[i], year, month)
    ensures i < |Serve(t, log)| && Serve(t, log)[i] == t[i]
    decreases |log|
  {
    if |log| > 0 {
      RequestKeepsLinks(t, log[0].0, log[0].1);
      RequestChangesOnlyItsRow(t, log[0].0, log[0].1, i);
      if |log| > 1 {
        assert !Before(log[1].0.year, log[1].0.month, log[0].0);
      }
      ClosedMonthKeepsItsRows(Handle(t, log[0].0, log[0].1), log[1..], year, month, i);
    }
  }
}
