/**
 * The expense service: each request as the sequence of checks and repository
 * calls the code makes, proved to be the request of the ledger model.
 */
module ExpenseService {
  import opened Outcomes
  import opened Ledger
  import History
  import opened Repository

  class ExpenseService {
    const repo: ImmudbExpenseRepository

    constructor (repo: ImmudbExpenseRepository)
      ensures this.repo == repo
    {
      this.repo := repo;
    }

    method CreateExpense(env: Env, userId: string, req: CreateRequest) returns (reply: Result<Expense, LedgerError>)
      modifies repo
      ensures (repo.rows, reply) == Ledger.CreateExpense(old(repo.rows), env, userId, req)
    {
      if !ValidDetails(req.details) || !ValidMonth(req.year, req.month) {
        return Err(Validation);
      }
      if !IsUuid(req.idempotencyKey) {
        return Err(Validation);
      }
      var replayed := repo.GetExpenseByIdempotencyKey(userId, req.idempotencyKey, env.readFails);
      if replayed.Err? {
        return Err(replayed.error);
      }
      if replayed.value.Some? {
        return Ok(replayed.value.value);
      }
      if env.period.None? {
        return Err(PeriodUnavailable);
      }
      var reporting := env.period.value;
      if reporting !in env.catalog {
        return Err(Internal);
      }
      var currency := req.details.currency;
      if currency == "" {
        currency := reporting;
      }
      if currency !in env.catalog {
        return Err(UnsupportedCurrency);
      }
      var snapshot: Money;
      if currency == reporting {
        snapshot := Identity(req.details.amount, currency, reporting, env.timestamp);
      } else {
        var quoted := FromQuote(req.details.amount, currency, reporting, env.quote);
        if quoted.Err? {
          return Err(quoted.error);
        }
        snapshot := quoted.value;
      }
      var expense :=
        NewRow(env, userId, req.details, req.year, req.month, "", req.proRata, snapshot, req.idempotencyKey);
      reply := repo.CreateExpense(expense, env.insert);
    }

    method CorrectExpense(env: Env, userId: string, expenseId: string, d: Details)
      returns (reply: Result<Expense, LedgerError>)
      modifies repo
      ensures (repo.rows, reply) == Ledger.CorrectExpense(old(repo.rows), env, userId, expenseId, d)
    {
      if expenseId == "" || !ValidDetails(d) {
        return Err(Validation);
      }
      var found := repo.GetExpenseByID(expenseId, userId, env.readFails);
      if found.Err? {
        return Err(found.error);
      }
      if found.value.None? {
        return Err(NotFound);
      }
      var original := found.value.value;
      if !original.status.Active? {
        return Err(AlreadyCorrected);
      }
      if original.year != env.year || original.month != env.month {
        return Err(PeriodLocked);
      }
      if env.period.None? {
        return Err(PeriodUnavailable);
      }
      var reporting := env.period.value;
      if reporting !in env.catalog {
        return Err(Internal);
      }
      var currency := d.currency;
      if currency == "" {
        currency := original.money.transactionCurrency;
      }
      if currency !in env.catalog {
        return Err(UnsupportedCurrency);
      }
      var snapshot: Money;
      if currency == reporting {
        snapshot := Identity(d.amount, currency, reporting, env.timestamp);
      } else {
        var quoted := FromQuote(d.amount, currency, reporting, env.quote);
        if quoted.Err? {
          return Err(quoted.error);
        }
        snapshot := quoted.value;
      }
      var correction :=
        NewRow(env, userId, d, original.year, original.month, original.id, original.proRata, snapshot, "");
      reply := repo.CorrectExpense(original, correction, env.update, env.insert);
    }

    method DeleteExpense(env: Env, userId: string, expenseId: string) returns (reply: Result<Expense, LedgerError>)
      modifies repo
      ensures (repo.rows, reply) == Ledger.DeleteExpense(old(repo.rows), env, userId, expenseId)
    {
      if expenseId == "" {
        return Err(Validation);
      }
      var found := repo.GetExpenseByID(expenseId, userId, env.readFails);
      if found.Err? {
        return Err(found.error);
      }
      if found.value.None? {
        return Err(NotFound);
      }
      var expense := found.value.value;
      if !expense.status.Active? {
        return Err(AlreadyCorrected);
      }
      if expense.year != env.year || expense.month != env.month {
        return Err(PeriodLocked);
      }
      var ok := repo.DeactivateExpense(expenseId, userId, env.update);
      reply := if ok then Ok(expense) else Err(Storage);
    }

    method AnonymizeAllUserExpenses(env: Env, userId: string) returns (refused: Option<LedgerError>)
      modifies repo
      ensures repo.rows == AnonymizeExpenses(old(repo.rows), env, userId)
      ensures refused == if userId == "" then Some(Validation)
                         else if env.update.Acknowledged? then None else Some(Storage)
    {
      if userId == "" {
        return Some(Validation);
      }
      var ok := repo.AnonymizeAllUserExpenses(userId, env.update);
      refused := if ok then None else Some(Storage);
    }

    /** A missing expense is an error here; the repository only reports it as absent. */
    method GetCorrectionHistory(userId: string, expenseId: string, fails: nat -> bool)
      returns (r: Result<seq<Expense>, LedgerError>)
      ensures expenseId == "" ==> r == Err(Validation)
      ensures expenseId != "" ==>
        if !Answered(fails, History.Queries(repo.rows, expenseId, userId)) then r == Err(Storage)
        else
          match History.CorrectionHistory(repo.rows, expenseId, userId)
          case Err(e) => r == Err(e)
          case Ok(None) => r == Err(NotFound)
          case Ok(Some(chain)) => r == Ok(chain)
      ensures r.Ok? ==> |r.value| > 0 && History.DistinctRows(r.value) && History.Chained(r.value)
    {
      if expenseId == "" {
        return Err(Validation);
      }
      var chain := repo.GetCorrectionHistory(expenseId, userId, fails);
      if chain.Err? {
        return Err(chain.error);
      }
      if chain.value.None? {
        return Err(NotFound);
      }
      History.HistoryIsAChain(repo.rows, expenseId, userId);
      r := Ok(chain.value.value);
    }
  }
}
