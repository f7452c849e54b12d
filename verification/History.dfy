/**
 * Correction history: the two walks of the repository as written, and what they
 * return compared with the chain the documentation promises.
 */
module History {
  import opened Outcomes
  import opened Ledger
  import opened LedgerInvariants
  import opened Lineage

  function Ids(t: Table): set<string> {
    set i | 0 <= i < |t| :: t[i].id
  }

  /** SELECT by id, then map the row. */
  function Read(t: Table, id: string, userId: string): Result<Option<Expense>, LedgerError> {
    match SelectById(t, id, userId)
    case None => Ok(None)
    case Some(row) => if Complete(row.money) then Ok(Some(row)) else Err(SnapshotIntegrity)
  }

  /** Position of the first row of this user that corrects `id`, or -1. */
  function FindCorrection(t: Table, id: string, userId: string): (i: int)
    ensures -1 <= i < |t|
    ensures 0 <= i ==> t[i].correctsId == id && t[i].userId == userId
    ensures forall k :: 0 <= k < (if i == -1 then |t| else i) ==> !(t[k].correctsId == id && t[k].userId == userId)
  {
    if |t| == 0 then -1
    else
      var i := FindCorrection(t[..|t| - 1], id, userId);
      assert forall k :: 0 <= k < |t| - 1 ==> t[k] == t[..|t| - 1][k];
      if 0 <= i then i
      else if t[|t| - 1].correctsId == id && t[|t| - 1].userId == userId then |t| - 1 else -1
  }

  function ReadCorrection(t: Table, id: string, userId: string): Result<Option<Expense>, LedgerError> {
    var i := FindCorrection(t, id, userId);
    if i == -1 then Ok(None) else if Complete(t[i].money) then Ok(Some(t[i])) else Err(SnapshotIntegrity)
  }

  /** Backwards over corrects_id, stopping at a visited or missing row. */
  function WalkBack(t: Table, userId: string, row: Expense, visited: set<string>)
    : Result<(Expense, set<string>), LedgerError>
    decreases Ids(t) - visited
  {
    if row.correctsId == "" then Ok((row, visited))
    else
      match Read(t, row.correctsId, userId)
      case Err(e) => Err(e)
      case Ok(None) => Ok((row, visited))
      case Ok(Some(parent)) =>
        if parent.id in visited then Ok((row, visited))
        else WalkBack(t, userId, parent, visited + {parent.id})
  }

  /** Forwards to the row that corrects the current one, with the same visited set. */
  function WalkForward(t: Table, userId: string, currentId: string, visited: set<string>)
    : Result<seq<Expense>, LedgerError>
    decreases Ids(t) - visited
  {
    match ReadCorrection(t, currentId, userId)
    case Err(e) => Err(e)
    case Ok(None) => Ok([])
    case Ok(Some(next)) =>
      if next.id in visited then Ok([])
      else match WalkForward(t, userId, next.id, visited + {next.id})
        case Err(e) => Err(e)
        case Ok(rest) => Ok([next] + rest)
  }

  function Prefixed(chain: seq<Expense>, rest: Result<seq<Expense>, LedgerError>): Result<seq<Expense>, LedgerError> {
    match rest
    case Err(e) => Err(e)
    case Ok(s) => Ok(chain + s)
  }

  /** None when the expense does not exist for this user. */
  function CorrectionHistory(t: Table, id: string, userId: string): Result<Option<seq<Expense>>, LedgerError> {
    match Read(t, id, userId)
    case Err(e) => Err(e)
    case Ok(None) => Ok(None)
    case Ok(Some(starting)) =>
      match WalkBack(t, userId, starting, {starting.id})
      case Err(e) => Err(e)
      case Ok((root, visited)) =>
        match Prefixed([root], WalkForward(t, userId, root.id, visited))
        case Err(e) => Err(e)
        case Ok(chain) => Ok(Some(chain))
  }

  /** SELECTs the backward walk issues when each is answered. */
  function BackQueries(t: Table, userId: string, row: Expense, visited: set<string>): nat
    decreases Ids(t) - visited
  {
    if row.correctsId == "" then 0
    else
      match Read(t, row.correctsId, userId)
      case Err(_) => 1
      case Ok(None) => 1
      case Ok(Some(parent)) =>
        if parent.id in visited then 1 else 1 + BackQueries(t, userId, parent, visited + {parent.id})
  }

  function ForwardQueries(t: Table, userId: string, currentId: string, visited: set<string>): nat
    decreases Ids(t) - visited
  {
    match ReadCorrection(t, currentId, userId)
    case Err(_) => 1
    case Ok(None) => 1
    case Ok(Some(next)) =>
      if next.id in visited then 1 else 1 + ForwardQueries(t, userId, next.id, visited + {next.id})
  }

  /** SELECTs a history issues when each is answered. */
  function Queries(t: Table, id: string, userId: string): nat {
    match Read(t, id, userId)
    case Err(_) => 1
    case Ok(None) => 1
    case Ok(Some(starting)) =>
      1 + BackQueries(t, userId, starting, {starting.id})
      + match WalkBack(t, userId, starting, {starting.id})
        case Err(_) => 0
        case Ok((root, visited)) => ForwardQueries(t, userId, root.id, visited)
  }

  /** An answered SELECT that finds nothing new ends the forward walk behind the chain gathered so far. */
  lemma ForwardEnds(t: Table, userId: string, currentId: string, visited: set<string>, chain: seq<Expense>)
    ensures ForwardQueries(t, userId, currentId, visited) >= 1
    ensures var next := ReadCorrection(t, currentId, userId);
      next.Err? || next.value.None? || next.value.value.id in visited ==>
        && ForwardQueries(t, userId, currentId, visited) == 1
        && Prefixed(chain, WalkForward(t, userId, currentId, visited))
           == if next.Err? then Err(next.error) else Ok(chain)
  {
    assert chain + [] == chain;
  }

  lemma ForwardContinues(t: Table, userId: string, currentId: string, visited: set<string>,
                         chain: seq<Expense>, next: Expense)
    requires ReadCorrection(t, currentId, userId) == Ok(Some(next)) && next.id !in visited
    ensures Ids(t) - (visited + {next.id}) < Ids(t) - visited
    ensures Prefixed(chain, WalkForward(t, userId, currentId, visited))
         == Prefixed(chain + [next], WalkForward(t, userId, next.id, visited + {next.id}))
    ensures ForwardQueries(t, userId, currentId, visited)
         == 1 + ForwardQueries(t, userId, next.id, visited + {next.id})
  {
    var rest := WalkForward(t, userId, next.id, visited + {next.id});
    if rest.Ok? {
      assert chain + ([next] + rest.value) == (chain + [next]) + rest.value;
    }
  }

  // ---------------------------------------------------------------- on any table

  ghost predicate DistinctRows(s: seq<Expense>) {
    forall i, j :: 0 <= i < j < |s| ==> s[i].id != s[j].id
  }

  ghost predicate Chained(s: seq<Expense>) {
    forall i :: 0 <= i < |s| - 1 ==> s[i + 1].correctsId == s[i].id
  }

  lemma {:induction false} BackVisits(t: Table, userId: string, row: Expense, visited: set<string>)
    requires row.id in visited && WalkBack(t, userId, row, visited).Ok?
    ensures WalkBack(t, userId, row, visited).value.0.id in WalkBack(t, userId, row, visited).value.1
    ensures row.userId == userId ==> WalkBack(t, userId, row, visited).value.0.userId == userId
    decreases Ids(t) - visited
  {
    if row.correctsId != "" {
      var r := Read(t, row.correctsId, userId);
      if r.Ok? && r.value.Some? && r.value.value.id !in visited {
        BackVisits(t, userId, r.value.value, visited + {r.value.value.id});
      }
    }
  }

  lemma {:induction false} ForwardIsDistinct(t: Table, userId: string, currentId: string, visited: set<string>)
    requires WalkForward(t, userId, currentId, visited).Ok?
    ensures var s := WalkForward(t, userId, currentId, visited).value;
      && DistinctRows(s) && Chained(s) && (|s| > 0 ==> s[0].correctsId == currentId)
      && forall i :: 0 <= i < |s| ==> s[i].id !in visited && s[i] in t && s[i].userId == userId
    decreases Ids(t) - visited
  {
    var r := ReadCorrection(t, currentId, userId);
    if r.value.Some? && r.value.value.id !in visited {
      var next := r.value.value;
      ForwardIsDistinct(t, userId, next.id, visited + {next.id});
    }
  }

  /** On any table, cyclic or not: distinct rows, each correcting the one before, from the root the walk reached. */
  lemma HistoryIsAChain(t: Table, id: string, userId: string)
    requires CorrectionHistory(t, id, userId).Ok? && CorrectionHistory(t, id, userId).value.Some?
    ensures var chain := CorrectionHistory(t, id, userId).value.value;
      var starting := Read(t, id, userId).value.value;
      && |chain| > 0 && DistinctRows(chain) && Chained(chain)
      && WalkBack(t, userId, starting, {starting.id}).Ok?
      && chain[0] == WalkBack(t, userId, starting, {starting.id}).value.0
      && forall i :: 0 <= i < |chain| ==> chain[i].userId == userId
  {
    var starting := Read(t, id, userId).value.value;
    BackVisits(t, userId, starting, {starting.id});
    var (root, visited) := WalkBack(t, userId, starting, {starting.id}).value;
    ForwardIsDistinct(t, userId, root.id, visited);
  }

  // ---------------------------------------------------------------- on a sound ledger

  /** The rows at or after position lo that descend from original r, oldest first. */
  function Descendants(t: Table, r: nat, lo: nat): seq<Expense>
    requires lo <= |t|
    decreases |t| - lo
  {
    if lo == |t| then []
    else if Root(t, lo) == r then [t[lo]] + Descendants(t, r, lo + 1)
    else Descendants(t, r, lo + 1)
  }

  /** The full correction chain of a row: every row that shares its original. */
  function FullChain(t: Table, j: nat): seq<Expense>
    requires j < |t|
  {
    Descendants(t, Root(t, j), 0)
  }

  ghost predicate Legible(s: seq<Expense>) {
    forall i :: 0 <= i < |s| ==> Complete(s[i].money)
  }

  /** These rows, unless one of them cannot be read. */
  ghost function Told(s: seq<Expense>): Result<seq<Expense>, LedgerError> {
    if Legible(s) then Ok(s) else Err(SnapshotIntegrity)
  }

  ghost function Answer(chain: seq<Expense>): Result<Option<seq<Expense>>, LedgerError> {
    if Legible(chain) then Ok(Some(chain)) else Err(SnapshotIntegrity)
  }

  lemma ToldPrepends(row: Expense, rest: seq<Expense>)
    ensures Complete(row.money) ==> Told([row] + rest) == Prefixed([row], Told(rest))
    ensures !Complete(row.money) ==> Told([row] + rest) == Err(SnapshotIntegrity)
  {
    var all := [row] + rest;
    assert all[0] == row;
    assert forall i :: 0 <= i < |rest| ==> all[i + 1] == rest[i];
  }

  lemma {:induction false} NoDescendantsBetween(t: Table, r: nat, lo: nat, hi: nat)
    requires lo <= hi <= |t| && forall k :: lo <= k < hi ==> Root(t, k) != r
    ensures Descendants(t, r, lo) == Descendants(t, r, hi)
    decreases hi - lo
  {
    if lo < hi {
      NoDescendantsBetween(t, r, lo + 1, hi);
    }
  }

  function Mapped(row: Expense): Result<Option<Expense>, LedgerError> {
    if Complete(row.money) then Ok(Some(row)) else Err(SnapshotIntegrity)
  }

  /** Reading a row's parent on a sound ledger finds it. */
  lemma ReadParent(t: Table, j: nat)
    requires Sound(t) && Named(t) && j < |t| && t[j].correctsId != ""
    ensures HasParent(t, j) && Read(t, t[j].correctsId, t[j].userId) == Mapped(t[Parent(t, j)])
    ensures t[Parent(t, j)].userId == t[j].userId
  {
    assert LinkedAt(t, j);
  }

  /** The row read as the correction of row c is its only child, if it has one. */
  lemma ReadChild(t: Table, c: nat) returns (d: int)
    requires Sound(t) && Named(t) && c < |t|
    ensures d == -1 || (c < d < |t| && HasParent(t, d) && Parent(t, d) == c && t[d].userId == t[c].userId)
    ensures ReadCorrection(t, t[c].id, t[c].userId) == if d == -1 then Ok(None) else Mapped(t[d])
    ensures forall k :: 0 <= k < |t| && HasParent(t, k) && Parent(t, k) == c ==> k == d
  {
    d := FindCorrection(t, t[c].id, t[c].userId);
    assert Find(t, t[c].id) == c;
    if d != -1 {
      assert LinkedAt(t, d);
    }
    forall k | 0 <= k < |t| && HasParent(t, k) && Parent(t, k) == c ensures k == d {
      assert LinkedAt(t, k);
      assert t[k].correctsId == t[c].id;
    }
  }

  /** Between a row and its child no other row of the same original is found. */
  lemma NextOnPath(t: Table, c: nat, d: int, k: nat)
    requires Sound(t) && c < k < |t| && (d == -1 || d < |t|)
    requires forall m :: 0 <= m < |t| && HasParent(t, m) && Parent(t, m) == c ==> m == d
    requires Root(t, k) == Root(t, c)
    ensures 0 <= d <= k
  {
    SameRootIsOnePath(t, c, k);
    var m := ChildOnPath(t, c, k);
  }

  ghost predicate UpTo(t: Table, visited: set<string>, c: nat) {
    forall k :: c < k < |t| ==> t[k].id !in visited
  }

  lemma GapIsForeign(t: Table, c: nat, d: int)
    requires Sound(t) && c < |t| && (d == -1 || c < d < |t|)
    requires forall m :: 0 <= m < |t| && HasParent(t, m) && Parent(t, m) == c ==> m == d
    ensures Descendants(t, Root(t, c), c + 1) == Descendants(t, Root(t, c), if d == -1 then |t| else d)
  {
    var hi := if d == -1 then |t| else d;
    forall k | c + 1 <= k < hi ensures Root(t, k) != Root(t, c) {
      if Root(t, k) == Root(t, c) {
        NextOnPath(t, c, d, k);
      }
    }
    NoDescendantsBetween(t, Root(t, c), c + 1, hi);
  }

  lemma NextDescendant(t: Table, c: nat, d: nat)
    requires c < d < |t| && HasParent(t, d) && Parent(t, d) == c
    ensures Root(t, d) == Root(t, c)
    ensures Descendants(t, Root(t, c), d) == [t[d]] + Descendants(t, Root(t, d), d + 1)
  {
  }

  /** From a row whose later relatives are unvisited, the forward walk returns exactly those relatives. */
  lemma {:induction false} ForwardFindsDescendants(t: Table, c: nat, visited: set<string>)
    requires Sound(t) && Named(t) && c < |t| && UpTo(t, visited, c)
    ensures WalkForward(t, t[c].userId, t[c].id, visited) == Told(Descendants(t, Root(t, c), c + 1))
    decreases |t| - c
  {
    var d := ReadChild(t, c);
    GapIsForeign(t, c, d);
    if d != -1 {
      NextDescendant(t, c, d);
      ToldPrepends(t[d], Descendants(t, Root(t, d), d + 1));
      ForwardFindsDescendants(t, d, visited + {t[d].id});
    }
  }

  lemma ChainStartsAtRoot(t: Table, r: nat)
    requires r < |t| && Root(t, r) == r
    ensures Descendants(t, r, 0) == [t[r]] + Descendants(t, r, r + 1)
  {
    NoDescendantsBetween(t, r, 0, r);
  }

  lemma ReadSelf(t: Table, j: nat)
    requires DistinctIds(t) && j < |t|
    ensures Read(t, t[j].id, t[j].userId) == Mapped(t[j])
  {
    assert !(Find(t, t[j].id) < j) && !(j < Find(t, t[j].id));
  }

  /** Asked for an original, the history is its full chain in order. */
  lemma HistoryOfAnOriginal(t: Table, j: nat)
    requires Sound(t) && Named(t) && j < |t| && t[j].correctsId == ""
    ensures CorrectionHistory(t, t[j].id, t[j].userId) == Answer(FullChain(t, j))
  {
    ReadSelf(t, j);
    forall k | j < k < |t| ensures t[k].id !in {t[j].id} {}
    ForwardFindsDescendants(t, j, {t[j].id});
    ChainStartsAtRoot(t, j);
    ToldPrepends(t[j], Descendants(t, j, j + 1));
  }

  /** Every row above row j on its path can be read. */
  predicate LegibleAbove(t: Table, j: nat)
    requires j < |t|
    decreases j
  {
    HasParent(t, j) ==> Complete(t[Parent(t, j)].money) && LegibleAbove(t, Parent(t, j))
  }

  lemma {:induction false} AncestorIsLegible(t: Table, i: nat, j: nat)
    requires i < |t| && j < |t| && Ancestor(t, i, j) && Complete(t[j].money) && LegibleAbove(t, j)
    ensures Complete(t[i].money)
    decreases j
  {
    if i != j {
      AncestorIsLegible(t, i, Parent(t, j));
    }
  }

  /** The backward walk ends at the original and has visited every row on the way, unless one cannot be read. */
  lemma {:induction false} BackReachesOriginal(t: Table, j: nat, visited: set<string>) returns (seen: set<string>)
    requires Sound(t) && Named(t) && j < |t| && t[j].id in visited
    requires forall k :: 0 <= k < j ==> t[k].id !in visited
    ensures WalkBack(t, t[j].userId, t[j], visited)
         == if LegibleAbove(t, j) then Ok((t[Root(t, j)], seen)) else Err(SnapshotIntegrity)
    ensures LegibleAbove(t, j) ==> forall i :: 0 <= i < |t| && Ancestor(t, i, j) ==> t[i].id in seen
    ensures visited <= seen
    decreases j
  {
    seen := visited;
    if t[j].correctsId != "" {
      ReadParent(t, j);
      var p := Parent(t, j);
      if Complete(t[p].money) {
        seen := BackReachesOriginal(t, p, visited + {t[p].id});
      }
    }
  }

  lemma BlockedForward(t: Table, r: nat, c: nat, visited: set<string>)
    requires Sound(t) && Named(t) && r < |t| && c < |t|
    requires HasParent(t, c) && Parent(t, c) == r && Complete(t[c].money) && t[c].id in visited
    ensures WalkForward(t, t[r].userId, t[r].id, visited) == Ok([])
  {
    var d := ReadChild(t, r);
  }

  /** The backward walk from a correction leaves the original with nowhere unvisited to go. */
  lemma BackBlocksForward(t: Table, j: nat) returns (seen: set<string>)
    requires Sound(t) && Named(t) && j < |t| && t[j].correctsId != ""
    requires Complete(t[j].money) && LegibleAbove(t, j)
    ensures WalkBack(t, t[j].userId, t[j], {t[j].id}) == Ok((t[Root(t, j)], seen))
    ensures WalkForward(t, t[j].userId, t[Root(t, j)].id, seen) == Ok([])
  {
    forall k | 0 <= k < j ensures t[k].id !in {t[j].id} {}
    seen := BackReachesOriginal(t, j, {t[j].id});
    var r := Root(t, j);
    RootIsOriginal(t, j);
    var c := ChildOnPath(t, r, j);
    ChildIsAncestor(t, r, j, c);
    AncestorIsLegible(t, c, j);
    BlockedForward(t, r, c, seen);
  }

  /** Asked for a correction, the history is the original alone: both walks share one visited set. */
  lemma HistoryOfACorrection(t: Table, j: nat)
    requires Sound(t) && Named(t) && j < |t| && t[j].correctsId != ""
    ensures CorrectionHistory(t, t[j].id, t[j].userId)
         == if Complete(t[j].money) && LegibleAbove(t, j) then Ok(Some([t[Root(t, j)]])) else Err(SnapshotIntegrity)
  {
    ReadSelf(t, j);
    if Complete(t[j].money) {
      if LegibleAbove(t, j) {
        var seen := BackBlocksForward(t, j);
        assert [t[Root(t, j)]] + [] == [t[Root(t, j)]];
      } else {
        forall k | 0 <= k < j ensures t[k].id !in {t[j].id} {}
        var seen := BackReachesOriginal(t, j, {t[j].id});
      }
    }
  }

  lemma {:induction false} ChildIsAncestor(t: Table, i: nat, j: nat, c: nat)
    requires Sound(t) && i < |t| && j < |t| && c < |t| && Ancestor(t, i, j) && i != j
    requires HasParent(t, c) && Parent(t, c) == i
    ensures Ancestor(t, c, j)
    decreases j
  {
    if Parent(t, j) == i {
    } else {
      ChildIsAncestor(t, i, Parent(t, j), c);
    }
  }

  /**
   * The documented promise, the full chain of an expense, is kept if and only if
   * the expense asked for is an original whose chain can be read.
   */
  lemma FullChainIffOriginal(t: Table, j: nat)
    requires Sound(t) && Named(t) && j < |t|
    ensures CorrectionHistory(t, t[j].id, t[j].userId) == Ok(Some(FullChain(t, j)))
       <==> t[j].correctsId == "" && Legible(FullChain(t, j))
  {
    if t[j].correctsId == "" {
      HistoryOfAnOriginal(t, j);
    } else {
      HistoryOfACorrection(t, j);
      RootIsOriginal(t, j);
      var r := Root(t, j);
      ChainStartsAtRoot(t, r);
      RowIsInChain(t, r, r + 1, j);
    }
  }

  /** So it is on every ledger that requests can bring about. */
  lemma FullChainIffOriginalInEveryRun(log: Log, j: nat)
    requires RealSources(log) && j < |Serve([], log)|
    ensures var t := Serve([], log);
      CorrectionHistory(t, t[j].id, t[j].userId) == Ok(Some(FullChain(t, j)))
      <==> t[j].correctsId == "" && Legible(FullChain(t, j))
  {
    RunKeepsLinks([], log);
    RunStaysNamedAndStamped([], log);
    FullChainIffOriginal(Serve([], log), j);
  }

  /** Finance answers, the amount is in the currency of the period, and the database does its part. */
  predicate PricedAtPar(env: Env, d: Details) {
    && ValidDetails(d) && env.period == Some(d.currency) && d.currency != "" && d.currency in env.catalog
    && env.timestamp != "" && env.newId != ""
    && !env.readFails && env.update.Acknowledged? && env.insert.Acknowledged?
  }

  lemma CreatedAtPar(env: Env, userId: string, req: CreateRequest) returns (row: Expense)
    requires WellFormedCreate(req) && PricedAtPar(env, req.details)
    ensures CreateExpense([], env, userId, req) == ([row], Ok(row))
    ensures row.id == env.newId && row.userId == userId && row.correctsId == "" && row.status.Active?
    ensures Complete(row.money) && row.year == req.year && row.month == req.month
  {
    row := CreateExpense([], env, userId, req).1.value;
    assert [] + [row] == [row];
  }

  lemma CorrectedAtPar(row: Expense, env: Env, d: Details) returns (correction: Expense)
    requires PricedAtPar(env, d) && row.id != "" && row.id != env.newId
    requires row.status.Active? && Complete(row.money) && row.year == env.year && row.month == env.month
    ensures CorrectExpense([row], env, row.userId, row.id, d)
         == ([row.(status := Corrected), correction], Ok(correction))
    ensures correction.id == env.newId && correction.userId == row.userId && correction.correctsId == row.id
    ensures Complete(correction.money)
  {
    assert [row][0].id == row.id;
    assert Find([row], row.id) == 0;
    correction := CorrectExpense([row], env, row.userId, row.id, d).1.value;
    assert Flipped([row], row.id) == [row.(status := Corrected)];
    assert [row.(status := Corrected)] + [correction] == [row.(status := Corrected), correction];
  }

  lemma PairOfRows(t: Table)
    requires |t| == 2 && t[0].id != "" && t[0].id != t[1].id && t[0].correctsId == "" && t[1].correctsId == t[0].id
    ensures FullChain(t, 1) == t && HasParent(t, 1) && Parent(t, 1) == 0
  {
    assert Find(t, t[0].id) == 0;
    assert Descendants(t, 0, 2) == [];
    assert Descendants(t, 0, 1) == [t[1]] + [];
    assert Descendants(t, 0, 0) == [t[0]] + Descendants(t, 0, 1);
  }

  /**
   * An expense created and corrected once has a chain of two rows; asked for the
   * correction that the caller has just been given, the history is the first alone.
   */
  lemma CorrectedOnceIsCutShort(first: Env, second: Env, userId: string, req: CreateRequest, d: Details)
    requires WellFormedCreate(req) && PricedAtPar(first, req.details) && PricedAtPar(second, d)
    requires first.newId != second.newId && (second.year, second.month) == (req.year, req.month)
    ensures var t := Serve([], [(first, Create(userId, req)), (second, Correct(userId, first.newId, d))]);
      && |t| == 2 && t[1].id == second.newId && t[1].correctsId == t[0].id && FullChain(t, 1) == t
      && CorrectionHistory(t, second.newId, userId) == Ok(Some([t[0]]))
  {
    var log := [(first, Create(userId, req)), (second, Correct(userId, first.newId, d))];
    var row := CreatedAtPar(first, userId, req);
    var correction := CorrectedAtPar(row, second, d);
    var t := [row.(status := Corrected), correction];
    assert Serve([], log) == t by {
      assert log[1..] == [log[1]] && log[1..][1..] == [];
      assert Serve([row], log[1..]) == Serve(t, []);
    }
    RunKeepsLinks([], log);
    RunStaysNamedAndStamped([], log);
    PairOfRows(t);
    HistoryOfACorrection(t, 1);
  }

  /** One dollar cent, corrected to two. */
  lemma TwoCentsAreCutShort()
    ensures var req := CENT.(details := CENT.details.(currency := "USD"));
      var log := [(MARKET, Create("u1", req)),
                  (MARKET.(newId := "e2"), Correct("u1", "e1", req.details.(amount := 2)))];
      |Serve([], log)| == 2 && CorrectionHistory(Serve([], log), "e2", "u1") == Ok(Some([Serve([], log)[0]]))
  {
    CentIsWellFormed();
    var req := CENT.(details := CENT.details.(currency := "USD"));
    CorrectedOnceIsCutShort(MARKET, MARKET.(newId := "e2"), "u1", req, req.details.(amount := 2));
  }

  lemma {:induction false} RowIsInChain(t: Table, r: nat, lo: nat, j: nat)
    requires lo <= j < |t| && Root(t, j) == r
    ensures t[j] in Descendants(t, r, lo) && |Descendants(t, r, lo)| > 0
    decreases j - lo
  {
    var rest := Descendants(t, r, lo + 1);
    if lo < j {
      RowIsInChain(t, r, lo + 1, j);
      InAfter([t[lo]], rest, t[j]);
    } else {
      assert ([t[j]] + rest)[0] == t[j];
    }
  }

  lemma InAfter(front: seq<Expense>, rest: seq<Expense>, row: Expense)
    requires row in rest
    ensures row in front + rest
  {
  }

  /** The history as documented: the forward walk starts with a visited set of its own. */
  function DocumentedHistory(t: Table, id: string, userId: string): Result<Option<seq<Expense>>, LedgerError> {
    match Read(t, id, userId)
    case Err(e) => Err(e)
    case Ok(None) => Ok(None)
    case Ok(Some(starting)) =>
      match WalkBack(t, userId, starting, {starting.id})
      case Err(e) => Err(e)
      case Ok((root, _)) =>
        match Prefixed([root], WalkForward(t, userId, root.id, {root.id}))
        case Err(e) => Err(e)
        case Ok(chain) => Ok(Some(chain))
  }

  /** A legible chain is legible from each of its rows up. */
  lemma {:induction false} ChainIsLegibleAbove(t: Table, j: nat)
    requires Sound(t) && j < |t| && Legible(FullChain(t, j))
    ensures Complete(t[j].money) && LegibleAbove(t, j)
    decreases j
  {
    RowIsInChain(t, Root(t, j), 0, j);
    if HasParent(t, j) {
      ChainIsLegibleAbove(t, Parent(t, j));
    }
  }

  /** With visited sets of their own, the two walks return the full chain from every row of it. */
  lemma SeparateVisitedSetsSuffice(t: Table, j: nat)
    requires Sound(t) && Named(t) && j < |t|
    ensures DocumentedHistory(t, t[j].id, t[j].userId) == Answer(FullChain(t, j))
  {
    ReadSelf(t, j);
    if Legible(FullChain(t, j)) {
      ChainIsLegibleAbove(t, j);
    }
    if Complete(t[j].money) {
      forall k | 0 <= k < j ensures t[k].id !in {t[j].id} {}
      var seen := BackReachesOriginal(t, j, {t[j].id});
      var r := Root(t, j);
      RootIsOriginal(t, j);
      if LegibleAbove(t, j) {
        forall k | r < k < |t| ensures t[k].id !in {t[r].id} {}
        ForwardFindsDescendants(t, r, {t[r].id});
        ChainStartsAtRoot(t, r);
        AncestorIsLegible(t, r, j);
        ToldPrepends(t[r], Descendants(t, r, r + 1));
      }
    }
  }
}
