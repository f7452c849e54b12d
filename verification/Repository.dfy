/**
 * The immudb repository: the table as mutable state, and the statements and
 * loops that read and change it.
 */
module Repository {
  import opened Outcomes
  import opened Ledger
  import opened Keyset
  import opened History

  /** None of the first `n` queries fails. */
  ghost predicate Answered(fails: nat -> bool, n: nat) {
    forall k: nat :: k < n ==> !fails(k)
  }

  /** After `made` answered queries the backward walk goes on from `root` to what it gives in all. */
  ghost predicate WalkingBack(fails: nat -> bool, t: Table, userId: string, root: Expense, visited: set<string>,
                              made: nat, back: Result<(Expense, set<string>), LedgerError>, all: nat) {
    && WalkBack(t, userId, root, visited) == back
    && made + BackQueries(t, userId, root, visited) == all && Answered(fails, made)
  }

  lemma BackQuery(fails: nat -> bool, t: Table, userId: string, root: Expense, visited: set<string>,
                  made: nat, back: Result<(Expense, set<string>), LedgerError>, all: nat)
    requires WalkingBack(fails, t, userId, root, visited, made, back, all) && root.correctsId != ""
    ensures fails(made) ==> !Answered(fails, all)
    ensures !fails(made) ==>
      var r := Read(t, root.correctsId, userId);
      if r.Ok? && r.value.Some? && r.value.value.id !in visited then
        && Ids(t) - (visited + {r.value.value.id}) < Ids(t) - visited
        && WalkingBack(fails, t, userId, r.value.value, visited + {r.value.value.id}, made + 1, back, all)
      else
        && back == (if r.Err? then Err(r.error) else Ok((root, visited))) && all == made + 1 && Answered(fails, all)
  {
  }

  /** After `made` answered queries the forward walk goes on behind the chain to what it gives in all. */
  ghost predicate WalkingForward(fails: nat -> bool, t: Table, userId: string, currentId: string,
                                 visited: set<string>, chain: seq<Expense>,
                                 made: nat, full: Result<seq<Expense>, LedgerError>, all: nat) {
    && Prefixed(chain, WalkForward(t, userId, currentId, visited)) == full
    && made + ForwardQueries(t, userId, currentId, visited) == all && Answered(fails, made)
  }

  lemma ForwardQuery(fails: nat -> bool, t: Table, userId: string, currentId: string,
                     visited: set<string>, chain: seq<Expense>,
                     made: nat, full: Result<seq<Expense>, LedgerError>, all: nat)
    requires WalkingForward(fails, t, userId, currentId, visited, chain, made, full, all)
    ensures fails(made) ==> !Answered(fails, all)
    ensures !fails(made) ==>
      var r := ReadCorrection(t, currentId, userId);
      if r.Ok? && r.value.Some? && r.value.value.id !in visited then
        var next := r.value.value;
        && Ids(t) - (visited + {next.id}) < Ids(t) - visited
        && WalkingForward(fails, t, userId, next.id, visited + {next.id}, chain + [next], made + 1, full, all)
      else
        && full == (if r.Err? then Err(r.error) else Ok(chain)) && all == made + 1 && Answered(fails, all)
  {
    ForwardEnds(t, userId, currentId, visited, chain);
    var r := ReadCorrection(t, currentId, userId);
    if r.Ok? && r.value.Some? && r.value.value.id !in visited {
      ForwardContinues(t, userId, currentId, visited, chain, r.value.value);
    }
  }

  function Whole(chain: Result<seq<Expense>, LedgerError>): Result<Option<seq<Expense>>, LedgerError> {
    match chain
    case Err(e) => Err(e)
    case Ok(s) => Ok(Some(s))
  }

  /** Once the backward walk has ended, the history is what the forward walk finds, and so are its queries. */
  lemma HistoryGoesOn(t: Table, id: string, userId: string, starting: Expense, root: Expense, visited: set<string>)
    requires Read(t, id, userId) == Ok(Some(starting))
    requires WalkBack(t, userId, starting, {starting.id}) == Ok((root, visited))
    ensures Queries(t, id, userId)
         == 1 + BackQueries(t, userId, starting, {starting.id}) + ForwardQueries(t, userId, root.id, visited)
    ensures CorrectionHistory(t, id, userId) == Whole(Prefixed([root], WalkForward(t, userId, root.id, visited)))
  {
  }

  /** A backward walk that fails, for a query or for a row, fails the history. */
  lemma HistoryStops(fails: nat -> bool, t: Table, id: string, userId: string, starting: Expense, e: LedgerError)
    requires Read(t, id, userId) == Ok(Some(starting))
    requires Err(e) == if Answered(fails, 1 + BackQueries(t, userId, starting, {starting.id}))
                       then WalkBack(t, userId, starting, {starting.id}) else Err(Storage)
    ensures Err(e) == if Answered(fails, Queries(t, id, userId)) then CorrectionHistory(t, id, userId) else Err(Storage)
  {
  }

  class ImmudbExpenseRepository {
    var rows: Table

    constructor ()
      ensures rows == []
    {
      rows := [];
    }

    method CreateExpense(expense: Expense, w: Write) returns (reply: Result<Expense, LedgerError>)
      modifies this
      ensures (rows, reply) == Insert(old(rows), expense, w)
    {
      var duplicate := Find(rows, expense.id) != -1;
      reply := if w.Acknowledged? && !duplicate then Ok(expense) else Err(Storage);
      if !duplicate && !w.Rejected? {
        rows := rows + [expense];
      }
    }

    method GetExpenseByID(id: string, userId: string, fails: bool) returns (r: Result<Option<Expense>, LedgerError>)
      ensures fails ==> r == Err(Storage)
      ensures !fails ==> r == Read(rows, id, userId)
    {
      if fails {
        return Err(Storage);
      }
      match SelectById(rows, id, userId)
      case None => r := Ok(None);
      case Some(row) =>
        match MapRow(row)
        case Ok(expense) => r := Ok(Some(expense));
        case Err(e) => r := Err(e);
    }

    method GetExpenseByIdempotencyKey(userId: string, key: string, fails: bool)
      returns (r: Result<Option<Expense>, LedgerError>)
      ensures fails ==> r == Err(Storage)
      ensures !fails ==>
        match SelectByKey(rows, userId, key)
        case None => r == Ok(None)
        case Some(row) => if Complete(row.money) then r == Ok(Some(row)) else r == Err(SnapshotIntegrity)
    {
      if fails {
        return Err(Storage);
      }
      match SelectByKey(rows, userId, key)
      case None => r := Ok(None);
      case Some(row) =>
        match MapRow(row)
        case Ok(expense) => r := Ok(Some(expense));
        case Err(e) => r := Err(e);
    }

    /** UPDATE, then INSERT; a failed INSERT does not undo the UPDATE. */
    method CorrectExpense(original: Expense, correction: Expense, update: Write, insert: Write)
      returns (reply: Result<Expense, LedgerError>)
      modifies this
      ensures (rows, reply) == CorrectRow(old(rows), original, correction, update, insert)
    {
      if !update.Rejected? {
        rows := Flipped(rows, original.id);
      }
      if !update.Acknowledged? {
        return Err(Storage);
      }
      reply := CreateExpense(correction, insert);
    }

    method DeactivateExpense(id: string, userId: string, update: Write) returns (ok: bool)
      modifies this
      ensures rows == if update.Rejected? then old(rows) else FlippedFor(old(rows), id, userId)
      ensures ok == update.Acknowledged?
    {
      if !update.Rejected? {
        rows := FlippedFor(rows, id, userId);
      }
      ok := update.Acknowledged?;
    }

    method AnonymizeAllUserExpenses(userId: string, update: Write) returns (ok: bool)
      modifies this
      ensures rows == if update.Rejected? then old(rows) else ErasedFor(old(rows), userId)
      ensures ok == update.Acknowledged?
    {
      if !update.Rejected? {
        rows := ErasedFor(rows, userId);
      }
      ok := update.Acknowledged?;
    }

    /** The first loop of the history: up the links, query by query. */
    method FindOriginal(starting: Expense, userId: string, fails: nat -> bool)
      returns (r: Result<(Expense, set<string>), LedgerError>, made: nat)
      requires !fails(0)
      ensures r == if Answered(fails, 1 + BackQueries(rows, userId, starting, {starting.id}))
                   then WalkBack(rows, userId, starting, {starting.id}) else Err(Storage)
      ensures r.Ok? ==> made == 1 + BackQueries(rows, userId, starting, {starting.id})
    {
      var root := starting;
      var visited := {root.id};
      made := 1;
      ghost var back := WalkBack(rows, userId, root, visited);
      ghost var all := made + BackQueries(rows, userId, root, visited);
      while root.correctsId != ""
        invariant WalkingBack(fails, rows, userId, root, visited, made, back, all)
        decreases Ids(rows) - visited
      {
        BackQuery(fails, rows, userId, root, visited, made, back, all);
        var parent := GetExpenseByID(root.correctsId, userId, fails(made));
        made := made + 1;
        if parent.Err? {
          return Err(parent.error), made;
        }
        if parent.value.None? {
          break;
        }
        if parent.value.value.id in visited {
          break;
        }
        visited := visited + {parent.value.value.id};
        root := parent.value.value;
      }
      r := Ok((root, visited));
    }

    /** The second loop: down the links, with the visited set the first loop left. */
    method FindCorrections(root: Expense, userId: string, visited0: set<string>, made0: nat, fails: nat -> bool)
      returns (r: Result<seq<Expense>, LedgerError>)
      requires Answered(fails, made0)
      ensures r == if Answered(fails, made0 + ForwardQueries(rows, userId, root.id, visited0))
                   then Prefixed([root], WalkForward(rows, userId, root.id, visited0)) else Err(Storage)
    {
      var visited := visited0;
      var made: nat := made0;
      var chain := [root];
      var currentId := root.id;
      ghost var full := Prefixed(chain, WalkForward(rows, userId, currentId, visited));
      ghost var all := made + ForwardQueries(rows, userId, currentId, visited);
      while true
        invariant WalkingForward(fails, rows, userId, currentId, visited, chain, made, full, all)
        decreases Ids(rows) - visited
      {
        ForwardQuery(fails, rows, userId, currentId, visited, chain, made, full, all);
        if fails(made) {
          return Err(Storage);
        }
        made := made + 1;
        var at := FindCorrection(rows, currentId, userId);
        if at == -1 {
          break;
        }
        var next := MapRow(rows[at]);
        if next.Err? {
          return Err(next.error);
        }
        if next.value.id in visited {
          break;
        }
        visited := visited + {next.value.id};
        chain := chain + [next.value];
        currentId := next.value.id;
      }
      r := Ok(chain);
    }

    /**
     * Backwards to the original, then forwards, with one visited set for both walks.
     * The k-th query may fail, and only the first so many are made.
     */
    method GetCorrectionHistory(id: string, userId: string, fails: nat -> bool)
      returns (r: Result<Option<seq<Expense>>, LedgerError>)
      ensures r == if Answered(fails, Queries(rows, id, userId)) then CorrectionHistory(rows, id, userId)
                   else Err(Storage)
    {
      var starting := GetExpenseByID(id, userId, fails(0));
      if starting.Err? {
        return Err(starting.error);
      }
      if starting.value.None? {
        return Ok(None);
      }
      var original, made := FindOriginal(starting.value.value, userId, fails);
      if original.Err? {
        HistoryStops(fails, rows, id, userId, starting.value.value, original.error);
        return Err(original.error);
      }
      var (root, visited) := original.value;
      HistoryGoesOn(rows, id, userId, starting.value.value, root, visited);
      var chain := FindCorrections(root, userId, visited, made, fails);
      r := Whole(chain);
    }

    /** One keyset page; an unreadable row, the overflow row included, fails the page. */
    method GetExpensesByUserAfter(userId: string, cursor: Cursor, size: int) returns (r: Result<Page, LedgerError>)
      requires size < MAX_INT32
      ensures r == PageAfter(rows, userId, cursor, size)
    {
      var pageSize := size;
      if pageSize < 1 {
        pageSize := DEFAULT_PAGE_SIZE;
      }
      var result := Limited(SelectAfter(rows, userId, cursor), pageSize + 1);

      var page: seq<Expense> := [];
      for i := 0 to |result|
        invariant page == result[..i] && AllComplete(page)
      {
        var expense := MapRow(result[i]);
        if expense.Err? {
          assert !AllComplete(result);
          return Err(expense.error);
        }
        page := page + [expense.value];
      }
      assert page == result;
      assert AllComplete(result);

      var hasMore := |page| > pageSize;
      if hasMore {
        page := page[..pageSize];
      }
      var next := cursor;
      if |page| > 0 {
        var last := page[|page| - 1];
        next := Cursor(last.createdAt, last.id);
      }
      r := Ok(Page(page, next, hasMore));
    }
  }
}
