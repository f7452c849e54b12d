/**
 * What the ledger answers: for each request, when it succeeds, and for each
 * refusal, exactly when it is given.
 */
module LedgerReplies {
  import opened Outcomes
  import opened Ledger
  import opened LedgerInvariants

  /** One field of the snapshot left blank is a hole, and the expiry is the only field that may be. */
  lemma HolesAreRefused(row: Expense)
    ensures MapRow(row).Ok? ==> MapRow(row) == Ok(row)
    ensures MapRow(row) == Err(SnapshotIntegrity) <==>
      || row.money == row.money.(transactionAmount := 0) || row.money == row.money.(reportingAmount := 0)
      || row.money == row.money.(transactionCurrency := "") || row.money == row.money.(reportingCurrency := "")
      || row.money == row.money.(rate := "") || row.money == row.money.(source := "")
      || row.money == row.money.(timestamp := "")
  {
  }

  /** Row i is the one that the user names. */
  predicate Names(t: Table, id: string, userId: string, i: nat) {
    i < |t| && t[i].id == id && t[i].userId == userId
  }

  predicate InMonth(row: Expense, env: Env) { row.year == env.year && row.month == env.month }

  /** The refusals that corrections and deletions share are decided by the row alone, in this order. */
  ghost predicate RefusedForItsRow(row: Expense, env: Env, reply: Result<Expense, LedgerError>) {
    && (reply == Err(SnapshotIntegrity) <==> !Complete(row.money))
    && (reply == Err(AlreadyCorrected) <==> Complete(row.money) && !row.status.Active?)
    && (reply == Err(PeriodLocked) <==> Complete(row.money) && row.status.Active? && !InMonth(row, env))
    && reply != Err(NotFound) && reply != Err(Validation)
  }

  lemma FindsTheNamed(t: Table, id: string, userId: string, i: nat)
    requires DistinctIds(t) && Names(t, id, userId, i)
    ensures Find(t, id) == i
  {
    assert !(Find(t, id) < i) && !(i < Find(t, id));
  }

  lemma DeletionReplies(t: Table, env: Env, userId: string, id: string, i: nat)
    requires DistinctIds(t) && Names(t, id, userId, i) && id != "" && !env.readFails
    ensures var reply := DeleteExpense(t, env, userId, id).1;
      var may := Complete(t[i].money) && t[i].status.Active? && InMonth(t[i], env);
      && RefusedForItsRow(t[i], env, reply)
      && (reply.Ok? <==> may && env.update.Acknowledged?)
      && (reply.Ok? ==> reply.value == t[i])
      && Handle(t, env, Delete(userId, id))
         == (if may && !env.update.Rejected? then t[i := t[i].(status := Corrected)] else t)
  {
    FindsTheNamed(t, id, userId, i);
    FlippedOne(t, i);
  }

  lemma CorrectionReplies(t: Table, env: Env, userId: string, id: string, d: Details, i: nat)
    requires DistinctIds(t) && Names(t, id, userId, i) && id != "" && ValidDetails(d) && !env.readFails
    ensures var reply := CorrectExpense(t, env, userId, id, d).1;
      var currency := if d.currency == "" then t[i].money.transactionCurrency else d.currency;
      var may := Complete(t[i].money) && t[i].status.Active? && InMonth(t[i], env);
      && RefusedForItsRow(t[i], env, reply)
      && (reply == Err(PeriodUnavailable) <==> may && env.period.None?)
      && (reply == Err(UnsupportedCurrency) <==>
            may && env.period.Some? && env.period.value in env.catalog && currency !in env.catalog)
      && (reply == Err(ConversionFailed) <==>
            && may && env.period.Some? && env.period.value in env.catalog && currency in env.catalog
            && currency != env.period.value && env.quote.None?)
      && (reply.Ok? ==> Handle(t, env, Correct(userId, id, d)) == t[i := t[i].(status := Corrected)] + [reply.value])
  {
    FindsTheNamed(t, id, userId, i);
    FlippedOne(t, i);
    if MayChange(t, env, userId, id) && Price(env, d.amount, d.currency, t[i].money.transactionCurrency).Ok? {
      FlippedKeepsIds(t, id, env.newId);
    }
  }

  /** A row that is not there, or is another user's, is not found, and nothing changes. */
  lemma MissingIsNotFound(t: Table, env: Env, userId: string, id: string, d: Details)
    requires DistinctIds(t) && !(exists i: nat :: Names(t, id, userId, i))
    requires id != "" && ValidDetails(d) && !env.readFails
    ensures CorrectExpense(t, env, userId, id, d) == (t, Err(NotFound))
    ensures DeleteExpense(t, env, userId, id) == (t, Err(NotFound))
  {
    if Find(t, id) != -1 {
      assert !Names(t, id, userId, Find(t, id));
    }
  }

  /** Invalid input is told before anything is read, and a failing read before anything is decided. */
  lemma EarlyRefusals(t: Table, env: Env, userId: string, id: string, d: Details, req: CreateRequest)
    ensures CorrectExpense(t, env, userId, id, d) == (t, Err(Validation)) <==> id == "" || !ValidDetails(d)
    ensures DeleteExpense(t, env, userId, id) == (t, Err(Validation)) <==> id == ""
    ensures CreateExpense(t, env, userId, req) == (t, Err(Validation)) <==> !WellFormedCreate(req)
    ensures env.readFails ==>
      && (id != "" ==> DeleteExpense(t, env, userId, id) == (t, Err(Storage)))
      && (id != "" && ValidDetails(d) ==> CorrectExpense(t, env, userId, id, d) == (t, Err(Storage)))
      && (WellFormedCreate(req) ==> CreateExpense(t, env, userId, req) == (t, Err(Storage)))
  {
    if Correctable(t, env, userId, id).Ok? {
      FlippedKeepsIds(t, id, env.newId);
    }
  }

  /** The user has no row with this key; another user may. */
  ghost predicate Unused(t: Table, userId: string, key: string) {
    forall i :: 0 <= i < |t| ==> t[i].userId != userId || t[i].idempotencyKey != key
  }

  /** A create is answered by a stored row exactly when its own user has one with the key, and then by one of those. */
  lemma ReplayIsForItsUser(t: Table, env: Env, userId: string, req: CreateRequest)
    requires WellFormedCreate(req) && !env.readFails && !Unused(t, userId, req.idempotencyKey)
    ensures var (t', reply) := CreateExpense(t, env, userId, req);
      && t' == t
      && exists i :: 0 <= i < |t| && t[i].userId == userId && t[i].idempotencyKey == req.idempotencyKey
                     && reply == MapRow(t[i])
  {
    var i := FindKey(t, userId, req.idempotencyKey);
    assert i != -1;
  }

  /** Under an unused key, what can keep a well-formed create from being acknowledged. */
  lemma CreationReplies(t: Table, env: Env, userId: string, req: CreateRequest)
    requires WellFormedCreate(req) && !env.readFails && Unused(t, userId, req.idempotencyKey)
    ensures var (t', reply) := (Handle(t, env, Create(userId, req)), CreateExpense(t, env, userId, req).1);
      var reporting := if env.period.Some? then env.period.value else "";
      var currency := if req.details.currency == "" then reporting else req.details.currency;
      var supported := env.period.Some? && reporting in env.catalog && currency in env.catalog;
      var quoted := currency == reporting || (env.quote.Some? && env.quote.value.source in RATE_SOURCES);
      && (reply.Ok? <==> supported && quoted && env.insert.Acknowledged? && !HasId(t, env.newId))
      && (t' != t <==> supported && quoted && !env.insert.Rejected? && !HasId(t, env.newId))
      && (reply.Ok? ==> t' == t + [reply.value])
      && (reply == Err(PeriodUnavailable) <==> env.period.None?)
      && (reply == Err(UnsupportedCurrency) <==>
            env.period.Some? && reporting in env.catalog && currency !in env.catalog)
      && (reply == Err(ConversionFailed) <==> supported && currency != reporting && env.quote.None?)
  {
  }

  /** An installment is taken only from Finance, for its own user, in currencies that catalog and snapshot know. */
  lemma ProRataReplies(t: Table, env: Env, req: ProRataRequest)
    ensures var (t', reply) := (Handle(t, env, CreateProRata(req)), CreateProRataInstallment(t, env, req).1);
      var valid := req.userId != "" && ValidDetails(req.details) && req.group != "" && 1 <= req.index <= req.total;
      var trusted := req.context.source == "finance_service" && req.context.periodId != ""
        && ValidMonth(req.context.year, req.context.month);
      var known := {req.details.currency, req.context.reportingCurrency} <= env.catalog * req.snapshotCurrencies;
      var quoted := env.quote.Some? && env.quote.value.source in RATE_SOURCES;
      && (reply == Err(Validation) <==> !valid)
      && (reply == Err(Forbidden) <==> valid && req.context.userId != req.userId)
      && (reply.Ok? <==>
            && valid && req.context.userId == req.userId && trusted && known && quoted
            && env.insert.Acknowledged? && !HasId(t, env.newId))
      && (reply.Ok? ==> t' == t + [reply.value])
      && (reply.Err? && reply.error != Storage ==> t' == t)
  {
  }
}
