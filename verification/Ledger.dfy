/**
 * The expense ledger: one append-only table, the SQL statements that touch it
 * as functions on the table, and the requests that issue those statements.
 *
 * A table is the sequence of rows in insertion order. A request is atomic; what
 * the clock, the UUID source, Finance, FX and the database answer to it is the
 * `Env` it runs in.
 */
module Ledger {
  import opened Outcomes

  // ---------------------------------------------------------------- rows

  datatype Status = Active | Corrected | Redacted

  datatype Money = Money(
    transactionAmount: int, transactionCurrency: string,
    reportingAmount: int, reportingCurrency: string,
    rate: string, source: string, timestamp: string, expiresAt: string)

  datatype ProRata = ProRata(isProRata: bool, group: string, index: int, total: int)

  datatype Expense = Expense(
    id: string, userId: string,
    name: string, expenseType: string, tagId: string, expenseDate: string,
    year: int, month: int, status: Status, correctsId: string,
    proRata: ProRata, createdAt: string, money: Money, idempotencyKey: string)

  type Table = seq<Expense>

  datatype LedgerError =
    | Validation | Forbidden | NotFound | AlreadyCorrected | PeriodLocked
    | PeriodUnavailable | Internal | UnsupportedCurrency | ConversionFailed
    | SnapshotCurrencyMissing | SnapshotIntegrity | Storage

  // ---------------------------------------------------------------- SQL

  predicate HasId(t: Table, id: string) {
    exists i :: 0 <= i < |t| && t[i].id == id
  }

  /** Position of the first row with this id, or -1. */
  function Find(t: Table, id: string): (i: int)
    ensures -1 <= i < |t|
    ensures 0 <= i ==> t[i].id == id && forall k :: 0 <= k < i ==> t[k].id != id
    ensures i == -1 <==> !HasId(t, id)
  {
    if |t| == 0 then -1
    else
      var i := Find(t[..|t| - 1], id);
      if 0 <= i then
        assert t[..|t| - 1][i] == t[i];
        i
      else
        assert forall k :: 0 <= k < |t| - 1 ==> t[k] == t[..|t| - 1][k];
        if t[|t| - 1].id == id then |t| - 1 else -1
  }

  predicate MatchesKey(row: Expense, userId: string, key: string) {
    row.userId == userId && row.idempotencyKey == key
  }

  /** Position of the first row of this user with this idempotency key, or -1. */
  function FindKey(t: Table, userId: string, key: string): (i: int)
    ensures -1 <= i < |t|
    ensures 0 <= i ==> MatchesKey(t[i], userId, key)
    ensures forall k :: 0 <= k < (if i == -1 then |t| else i) ==> !MatchesKey(t[k], userId, key)
  {
    if |t| == 0 then -1
    else
      var i := FindKey(t[..|t| - 1], userId, key);
      assert forall k :: 0 <= k < |t| - 1 ==> t[k] == t[..|t| - 1][k];
      if 0 <= i then i
      else if MatchesKey(t[|t| - 1], userId, key) then |t| - 1 else -1
  }

  /** SELECT … WHERE id = … AND user_id = …; ids are the primary key. */
  function SelectById(t: Table, id: string, userId: string): Option<Expense> {
    var i := Find(t, id);
    if i == -1 || t[i].userId != userId then None else Some(t[i])
  }

  function SelectByKey(t: Table, userId: string, key: string): Option<Expense> {
    var i := FindKey(t, userId, key);
    if i == -1 then None else Some(t[i])
  }

  /** INSERT: a duplicate primary key is refused by the database. */
  function Inserted(t: Table, row: Expense, w: Write): Table {
    if w.Rejected? || HasId(t, row.id) then t else t + [row]
  }

  predicate InsertReported(t: Table, row: Expense, w: Write) {
    w.Acknowledged? && !HasId(t, row.id)
  }

  /** UPDATE … SET status = 'corrected' WHERE id = …. */
  function Flipped(t: Table, id: string): (t': Table)
    ensures |t'| == |t|
  {
    seq(|t|, i requires 0 <= i < |t| => if t[i].id == id then t[i].(status := Corrected) else t[i])
  }

  /** The same statement with AND user_id = …. */
  function FlippedFor(t: Table, id: string, userId: string): (t': Table)
    ensures |t'| == |t|
  {
    seq(|t|, i requires 0 <= i < |t| =>
        if t[i].id == id && t[i].userId == userId then t[i].(status := Corrected) else t[i])
  }

  const DELETED_USER := "DELETED"

  function Erased(row: Expense): Expense {
    row.(userId := DELETED_USER, name := "REDACTED", expenseType := "", tagId := "", expenseDate := "",
         status := Redacted, money := Money(0, "", 0, "", "", "", "", ""))
  }

  /** UPDATE … SET user_id = 'DELETED', … WHERE user_id = …. */
  function ErasedFor(t: Table, userId: string): (t': Table)
    ensures |t'| == |t|
  {
    seq(|t|, i requires 0 <= i < |t| => if t[i].userId == userId then Erased(t[i]) else t[i])
  }

  predicate Complete(m: Money) {
    && m.transactionAmount != 0 && m.transactionCurrency != ""
    && m.reportingAmount != 0 && m.reportingCurrency != ""
    && m.rate != "" && m.source != "" && m.timestamp != ""
  }

  /** Reading a row back: a row whose money snapshot has a hole is refused. */
  function MapRow(row: Expense): Result<Expense, LedgerError> {
    if Complete(row.money) then Ok(row) else Err(SnapshotIntegrity)
  }

  // ---------------------------------------------------------------- requests

  datatype Quote = Quote(amount: int, rate: string, source: string, timestamp: string, expiresAt: string)

  datatype Env = Env(
    timestamp: string, year: int, month: int, newId: string,
    readFails: bool, period: Option<string>, quote: Option<Quote>, catalog: set<string>,
    update: Write, insert: Write)

  datatype Details = Details(
    name: string, amount: int, currency: string,
    expenseType: string, tagId: string, expenseDate: string)

  datatype CreateRequest = CreateRequest(
    details: Details, year: int, month: int, proRata: ProRata, idempotencyKey: string)

  datatype PeriodContext = PeriodContext(
    periodId: string, userId: string, year: int, month: int, reportingCurrency: string, source: string)

  datatype ProRataRequest = ProRataRequest(
    userId: string, context: PeriodContext, details: Details,
    group: string, index: int, total: int, snapshotCurrencies: set<string>)

  datatype Request =
    | Create(userId: string, create: CreateRequest)
    | CreateProRata(proRata: ProRataRequest)
    | Correct(userId: string, id: string, correct: Details)
    | Delete(userId: string, id: string)
    | Anonymize(userId: string)

  predicate IsDigit(c: char) { '0' <= c <= '9' }

  predicate IsHex(c: char) { IsDigit(c) || 'a' <= c <= 'f' || 'A' <= c <= 'F' }

  /** YYYY-MM-DD, digits only; the calendar is not consulted. */
  predicate IsIsoDate(s: string) {
    |s| == 10 && forall i :: 0 <= i < 10 ==> if i == 4 || i == 7 then s[i] == '-' else IsDigit(s[i])
  }

  /** The UUID spellings that fit the 36-character column. */
  predicate IsUuid(s: string) {
    || (|s| == 32 && forall i :: 0 <= i < 32 ==> IsHex(s[i]))
    || (|s| == 36 && forall i :: 0 <= i < 36 ==>
          if i == 8 || i == 13 || i == 18 || i == 23 then s[i] == '-' else IsHex(s[i]))
  }

  predicate ValidDetails(d: Details) {
    && d.name != "" && d.amount > 0
    && d.expenseType in {"essentials", "desires", "savings"}
    && d.tagId != "" && IsIsoDate(d.expenseDate)
  }

  predicate ValidMonth(year: int, month: int) { year >= 1 && 1 <= month <= 12 }

  function Identity(amount: int, currency: string, reporting: string, timestamp: string): Money {
    Money(amount, currency, amount, reporting, "1", "identity", timestamp, "")
  }

  const RATE_SOURCES := {"identity", "open_exchange_rates", "migration"}

  function FromQuote(amount: int, currency: string, reporting: string, quote: Option<Quote>)
    : Result<Money, LedgerError>
  {
    match quote
    case None => Err(ConversionFailed)
    case Some(q) =>
      if q.source !in RATE_SOURCES then Err(Internal)
      else Ok(Money(amount, currency, q.amount, reporting, q.rate, q.source, q.timestamp, q.expiresAt))
  }

  /** Same-currency amounts need no rate; anything else asks FX before any write. */
  function TakeSnapshot(env: Env, amount: int, currency: string, reporting: string): Result<Money, LedgerError> {
    if currency == reporting then Ok(Identity(amount, currency, reporting, env.timestamp))
    else FromQuote(amount, currency, reporting, env.quote)
  }

  /** The money of a create or a correction, or the first reason it cannot be priced. */
  function Price(env: Env, amount: int, currency: string, fallback: string): Result<Money, LedgerError> {
    match env.period
    case None => Err(PeriodUnavailable)
    case Some(reporting) =>
      if reporting !in env.catalog then Err(Internal)
      else
        var currency := if currency == "" then fallback else currency;
        if currency !in env.catalog then Err(UnsupportedCurrency)
        else TakeSnapshot(env, amount, currency, reporting)
  }

  function NewRow(env: Env, userId: string, d: Details, year: int, month: int, correctsId: string,
                  proRata: ProRata, money: Money, key: string): Expense
  {
    Expense(env.newId, userId, d.name, d.expenseType, d.tagId, d.expenseDate, year, month, Active, correctsId,
            proRata, env.timestamp, money, key)
  }

  function Insert(t: Table, row: Expense, w: Write): (Table, Result<Expense, LedgerError>) {
    (Inserted(t, row, w), if InsertReported(t, row, w) then Ok(row) else Err(Storage))
  }

  function CreateExpense(t: Table, env: Env, userId: string, req: CreateRequest)
    : (Table, Result<Expense, LedgerError>)
  {
    if !ValidDetails(req.details) || !ValidMonth(req.year, req.month) then (t, Err(Validation))
    else if !IsUuid(req.idempotencyKey) then (t, Err(Validation))
    else if env.readFails then (t, Err(Storage))
    else match SelectByKey(t, userId, req.idempotencyKey)
      case Some(row) => (t, MapRow(row))
      case None =>
        var d := req.details;
        match Price(env, d.amount, d.currency, if env.period.Some? then env.period.value else "")
        case Err(e) => (t, Err(e))
        case Ok(money) =>
          Insert(t, NewRow(env, userId, d, req.year, req.month, "", req.proRata, money, req.idempotencyKey), env.insert)
  }

  function CreateProRataInstallment(t: Table, env: Env, req: ProRataRequest): (Table, Result<Expense, LedgerError>) {
    var d := req.details;
    if req.userId == "" || !ValidDetails(d) || req.group == "" || req.index < 1 || req.total < req.index then
      (t, Err(Validation))
    else if req.context.userId != req.userId then (t, Err(Forbidden))
    else if req.context.source != "finance_service" || req.context.periodId == ""
            || !ValidMonth(req.context.year, req.context.month) then
      (t, Err(Internal))
    else if req.context.reportingCurrency !in env.catalog then (t, Err(Internal))
    else if d.currency !in env.catalog then (t, Err(UnsupportedCurrency))
    else if d.currency !in req.snapshotCurrencies || req.context.reportingCurrency !in req.snapshotCurrencies then
      (t, Err(SnapshotCurrencyMissing))
    else match FromQuote(d.amount, d.currency, req.context.reportingCurrency, env.quote)
      case Err(e) => (t, Err(e))
      case Ok(money) =>
        Insert(t, NewRow(env, req.userId, d, req.context.year, req.context.month, "",
                         ProRata(true, req.group, req.index, req.total), money, ""), env.insert)
  }

  /** The row a correction or a deletion may touch, or why it may not. */
  function Correctable(t: Table, env: Env, userId: string, id: string): Result<Expense, LedgerError> {
    if env.readFails then Err(Storage)
    else match SelectById(t, id, userId)
      case None => Err(NotFound)
      case Some(row) =>
        if !Complete(row.money) then Err(SnapshotIntegrity)
        else if !row.status.Active? then Err(AlreadyCorrected)
        else if (row.year, row.month) != (env.year, env.month) then Err(PeriodLocked)
        else Ok(row)
  }

  /** UPDATE then INSERT. The two are not one transaction: the first can stand alone. */
  function CorrectRow(t: Table, original: Expense, correction: Expense, update: Write, insert: Write)
    : (Table, Result<Expense, LedgerError>)
  {
    match update
    case Rejected => (t, Err(Storage))
    case AppliedUnacknowledged => (Flipped(t, original.id), Err(Storage))
    case Acknowledged => Insert(Flipped(t, original.id), correction, insert)
  }

  function CorrectExpense(t: Table, env: Env, userId: string, id: string, d: Details)
    : (Table, Result<Expense, LedgerError>)
  {
    if id == "" || !ValidDetails(d) then (t, Err(Validation))
    else match Correctable(t, env, userId, id)
      case Err(e) => (t, Err(e))
      case Ok(original) =>
        match Price(env, d.amount, d.currency, original.money.transactionCurrency)
        case Err(e) => (t, Err(e))
        case Ok(money) =>
          var correction :=
            NewRow(env, userId, d, original.year, original.month, original.id, original.proRata, money, "");
          CorrectRow(t, original, correction, env.update, env.insert)
  }

  function DeleteExpense(t: Table, env: Env, userId: string, id: string): (Table, Result<Expense, LedgerError>) {
    if id == "" then (t, Err(Validation))
    else match Correctable(t, env, userId, id)
      case Err(e) => (t, Err(e))
      case Ok(row) =>
        (if env.update.Rejected? then t else FlippedFor(t, id, userId),
         if env.update.Acknowledged? then Ok(row) else Err(Storage))
  }

  function AnonymizeExpenses(t: Table, env: Env, userId: string): Table {
    if userId == "" || env.update.Rejected? then t else ErasedFor(t, userId)
  }

  /** The table a request leaves behind. */
  function Handle(t: Table, env: Env, req: Request): Table {
    match req
    case Create(userId, create) => CreateExpense(t, env, userId, create).0
    case CreateProRata(proRata) => CreateProRataInstallment(t, env, proRata).0
    case Correct(userId, id, d) => CorrectExpense(t, env, userId, id, d).0
    case Delete(userId, id) => DeleteExpense(t, env, userId, id).0
    case Anonymize(userId) => AnonymizeExpenses(t, env, userId)
  }

  type Log = seq<(Env, Request)>

  /** The table after serving the logged requests in order. */
  function Serve(t: Table, log: Log): Table
    decreases |log|
  {
    if |log| == 0 then t else Serve(Handle(t, log[0].0, log[0].1), log[1..])
  }
}
