/**
 * One page of the export walk: rows of a user past a (created_at, id) cursor,
 * in that order, with an overflow row that tells whether more remain.
 */
module Keyset {
  import opened Outcomes
  import opened Ordering
  import opened Ledger
  import opened LedgerInvariants

  datatype Cursor = Cursor(createdAt: string, id: string)

  const START := Cursor("", "")

  datatype Page = Page(rows: seq<Expense>, next: Cursor, hasMore: bool)

  const DEFAULT_PAGE_SIZE := 100
  const MAX_INT32 := 0x7fff_ffff

  function Key(row: Expense): (string, string) { (row.createdAt, row.id) }

  /** An empty created_at in the cursor drops the seek predicate altogether. */
  predicate Past(row: Expense, cursor: Cursor) {
    cursor.createdAt == "" || PairLess((cursor.createdAt, cursor.id), Key(row))
  }

  predicate Selected(row: Expense, userId: string, cursor: Cursor) {
    row.userId == userId && Past(row, cursor)
  }

  /** ORDER BY created_at ASC, id ASC, one row at a time. */
  function Placed(s: seq<Expense>, row: Expense): seq<Expense> {
    if |s| == 0 then [row]
    else if PairLess(Key(s[|s| - 1]), Key(row)) then s + [row]
    else Placed(s[..|s| - 1], row) + [s[|s| - 1]]
  }

  /** SELECT … WHERE user_id = … AND past the cursor ORDER BY created_at, id. */
  function SelectAfter(t: Table, userId: string, cursor: Cursor): seq<Expense> {
    if |t| == 0 then []
    else
      var rest := SelectAfter(t[..|t| - 1], userId, cursor);
      if Selected(t[|t| - 1], userId, cursor) then Placed(rest, t[|t| - 1]) else rest
  }

  function Limited(s: seq<Expense>, limit: nat): seq<Expense> {
    if |s| <= limit then s else s[..limit]
  }

  ghost predicate AllComplete(s: seq<Expense>) {
    forall i :: 0 <= i < |s| ==> Complete(s[i].money)
  }

  function PageOf(fetched: seq<Expense>, cursor: Cursor, pageSize: nat): Page {
    var rows := Limited(fetched, pageSize);
    Page(rows,
         if |rows| == 0 then cursor else Cursor(rows[|rows| - 1].createdAt, rows[|rows| - 1].id),
         pageSize < |fetched|)
  }

  function EffectivePageSize(pageSize: int): (n: nat)
    ensures n >= 1
  {
    if pageSize < 1 then DEFAULT_PAGE_SIZE else pageSize
  }

  ghost function PageAfter(t: Table, userId: string, cursor: Cursor, pageSize: int): Result<Page, LedgerError> {
    var n := EffectivePageSize(pageSize);
    var fetched := Limited(SelectAfter(t, userId, cursor), n + 1);
    if AllComplete(fetched) then Ok(PageOf(fetched, cursor, n)) else Err(SnapshotIntegrity)
  }

  // ---------------------------------------------------------------- the order is total and strict

  ghost predicate Increasing(s: seq<Expense>) {
    forall i, j :: 0 <= i < j < |s| ==> PairLess(Key(s[i]), Key(s[j]))
  }

  lemma {:induction false} PlacedContains(s: seq<Expense>, row: Expense, e: Expense)
    ensures e in Placed(s, row) <==> e in s || e == row
  {
    if |s| > 0 {
      assert s == s[..|s| - 1] + [s[|s| - 1]];
      if !PairLess(Key(s[|s| - 1]), Key(row)) {
        PlacedContains(s[..|s| - 1], row, e);
      }
    }
  }

  lemma {:induction false} SelectContains(t: Table, userId: string, cursor: Cursor, e: Expense)
    ensures e in SelectAfter(t, userId, cursor) <==> e in t && Selected(e, userId, cursor)
  {
    if |t| > 0 {
      assert t == t[..|t| - 1] + [t[|t| - 1]];
      SelectContains(t[..|t| - 1], userId, cursor, e);
      PlacedContains(SelectAfter(t[..|t| - 1], userId, cursor), t[|t| - 1], e);
    }
  }

  lemma {:induction false} PlacedIncreasing(s: seq<Expense>, row: Expense)
    requires Increasing(s) && forall i :: 0 <= i < |s| ==> Key(s[i]) != Key(row)
    ensures Increasing(Placed(s, row))
  {
    if |s| > 0 {
      var last := s[|s| - 1];
      if PairLess(Key(last), Key(row)) {
        forall i | 0 <= i < |s| ensures PairLess(Key(s[i]), Key(row)) {
          if i < |s| - 1 {
            PairLessTransitive(Key(s[i]), Key(last), Key(row));
          }
        }
      } else {
        PairLessTotal(Key(last), Key(row));
        var front := s[..|s| - 1];
        PlacedIncreasing(front, row);
        forall e | e in Placed(front, row) ensures PairLess(Key(e), Key(last)) {
          PlacedContains(front, row, e);
          if e in front {
            var i :| 0 <= i < |front| && front[i] == e;
            assert s[i] == e;
          }
        }
      }
    }
  }

  lemma {:induction false} SelectIncreasing(t: Table, userId: string, cursor: Cursor)
    requires DistinctIds(t)
    ensures Increasing(SelectAfter(t, userId, cursor))
  {
    if |t| > 0 {
      var front, row := t[..|t| - 1], t[|t| - 1];
      SelectIncreasing(front, userId, cursor);
      var s := SelectAfter(front, userId, cursor);
      forall i | 0 <= i < |s| ensures Key(s[i]) != Key(row) {
        SelectContains(front, userId, cursor, s[i]);
        var k :| 0 <= k < |front| && front[k] == s[i];
        assert t[k].id != t[|t| - 1].id;
      }
      PlacedIncreasing(s, row);
    }
  }

  // ---------------------------------------------------------------- what a page promises

  lemma PageRowsAreFirst(t: Table, userId: string, cursor: Cursor, pageSize: int)
    requires DistinctIds(t) && PageAfter(t, userId, cursor, pageSize).Ok?
    ensures var rows := PageAfter(t, userId, cursor, pageSize).value.rows;
      && rows <= SelectAfter(t, userId, cursor) && Increasing(rows)
      && forall r :: r in rows ==> r in t && Selected(r, userId, cursor)
  {
    var all, rows := SelectAfter(t, userId, cursor), PageAfter(t, userId, cursor, pageSize).value.rows;
    SelectIncreasing(t, userId, cursor);
    assert rows == all[..|rows|];
    forall r | r in rows ensures r in t && Selected(r, userId, cursor) {
      SelectContains(t, userId, cursor, r);
    }
  }

  /** A page is refused exactly when one of the rows it reads, the overflow row included, cannot be read back. */
  lemma PageIsRefusedIff(t: Table, userId: string, cursor: Cursor, pageSize: int)
    ensures PageAfter(t, userId, cursor, pageSize).Err? <==>
      exists k :: 0 <= k < |SelectAfter(t, userId, cursor)| && k <= EffectivePageSize(pageSize)
                  && !Complete(SelectAfter(t, userId, cursor)[k].money)
  {
    var n, all := EffectivePageSize(pageSize), SelectAfter(t, userId, cursor);
    assert forall k :: 0 <= k < |Limited(all, n + 1)| ==> Limited(all, n + 1)[k] == all[k];
  }

  lemma SkipsNothing(t: Table, userId: string, cursor: Cursor, pageSize: int, e: Expense)
    requires DistinctIds(t) && PageAfter(t, userId, cursor, pageSize).Ok?
    requires e in t && Selected(e, userId, cursor) && e !in PageAfter(t, userId, cursor, pageSize).value.rows
    ensures var page := PageAfter(t, userId, cursor, pageSize).value; page.hasMore && Past(e, page.next)
  {
    SelectContains(t, userId, cursor, e);
    SelectIncreasing(t, userId, cursor);
  }

  lemma OverflowRow(t: Table, userId: string, cursor: Cursor, pageSize: int) returns (e: Expense)
    requires DistinctIds(t) && PageAfter(t, userId, cursor, pageSize).Ok?
    requires PageAfter(t, userId, cursor, pageSize).value.hasMore
    ensures e in t && Selected(e, userId, cursor) && e !in PageAfter(t, userId, cursor, pageSize).value.rows
  {
    SelectIncreasing(t, userId, cursor);
    var n, all := EffectivePageSize(pageSize), SelectAfter(t, userId, cursor);
    e := all[n];
    SelectContains(t, userId, cursor, e);
    PairLessIrreflexive(Key(e));
    assert forall i :: 0 <= i < n ==> all[i] != e;
  }

  /**
   * A page holds rows of this user past the cursor in strictly increasing order,
   * and no such row is skipped: one that is not on the page lies past `next`, and
   * there is one if and only if `hasMore`.
   */
  lemma PageIsExact(t: Table, userId: string, cursor: Cursor, pageSize: int)
    requires DistinctIds(t) && Stamped(t) && PageAfter(t, userId, cursor, pageSize).Ok?
    ensures var page := PageAfter(t, userId, cursor, pageSize).value;
      && Increasing(page.rows) && |page.rows| <= EffectivePageSize(pageSize)
      && (forall i :: 0 <= i < |page.rows| ==> page.rows[i] in t && Selected(page.rows[i], userId, cursor))
      && (|page.rows| > 0 ==> (page.next.createdAt, page.next.id) == Key(page.rows[|page.rows| - 1]))
      && (|page.rows| == 0 ==> page.next == cursor)
      && (page.hasMore ==> |page.rows| == EffectivePageSize(pageSize))
      && (forall e :: e in t && Selected(e, userId, cursor) && e !in page.rows ==> page.hasMore && Past(e, page.next))
      && (page.hasMore <==> exists e :: e in t && Selected(e, userId, cursor) && e !in page.rows)
  {
    var page := PageAfter(t, userId, cursor, pageSize).value;
    PageRowsAreFirst(t, userId, cursor, pageSize);
    forall e | e in t && Selected(e, userId, cursor) && e !in page.rows
      ensures page.hasMore && Past(e, page.next)
    {
      SkipsNothing(t, userId, cursor, pageSize, e);
    }
    if page.hasMore {
      var e := OverflowRow(t, userId, cursor, pageSize);
    }
  }

  /** No row of a page lies past the last one of it. */
  lemma NotPastTheLast(rows: seq<Expense>, i: nat)
    requires Increasing(rows) && i < |rows|
    ensures !PairLess(Key(rows[|rows| - 1]), Key(rows[i]))
  {
    PairLessIrreflexive(Key(rows[i]));
    if i < |rows| - 1 {
      PairLessAsymmetric(Key(rows[i]), Key(rows[|rows| - 1]));
    }
  }

  lemma BehindIffStamped(t: Table, userId: string, last: Expense, row: Expense)
    requires row in t && row.userId == userId && !PairLess(Key(last), Key(row))
    ensures row in SelectAfter(t, userId, Cursor(last.createdAt, last.id)) <==> last.createdAt == ""
  {
    SelectContains(t, userId, Cursor(last.createdAt, last.id), row);
  }

  lemma RowIsBehindIff(t: Table, userId: string, cursor: Cursor, pageSize: int, i: nat)
    requires DistinctIds(t) && PageAfter(t, userId, cursor, pageSize).Ok?
    requires i < |PageAfter(t, userId, cursor, pageSize).value.rows|
    ensures var page := PageAfter(t, userId, cursor, pageSize).value;
      page.rows[i] in SelectAfter(t, userId, page.next) <==> page.next.createdAt == ""
  {
    var rows := PageAfter(t, userId, cursor, pageSize).value.rows;
    PageRowsAreFirst(t, userId, cursor, pageSize);
    assert rows[i] in rows;
    NotPastTheLast(rows, i);
    BehindIffStamped(t, userId, rows[|rows| - 1], rows[i]);
  }

  /** From a cursor without created_at the walk is at its start, if there is anything to walk. */
  lemma StartsAgain(t: Table, userId: string, next: Cursor, pageSize: int)
    requires next.createdAt == "" && |SelectAfter(t, userId, next)| > 0
    ensures PageAfter(t, userId, next, pageSize) == PageAfter(t, userId, START, pageSize)
  {
    SameSelection(t, userId, next, START);
  }

  /**
   * The next cursor leaves every row of the page behind exactly when the last of
   * them is stamped; if its created_at is empty, the next page is the very first one.
   */
  lemma WalkAdvancesIffStamped(t: Table, userId: string, cursor: Cursor, pageSize: int)
    requires DistinctIds(t) && PageAfter(t, userId, cursor, pageSize).Ok?
    requires |PageAfter(t, userId, cursor, pageSize).value.rows| > 0
    ensures var page := PageAfter(t, userId, cursor, pageSize).value;
      && (page.next.createdAt != "" <==> forall r :: r in page.rows ==> r !in SelectAfter(t, userId, page.next))
      && (page.next.createdAt == "" ==>
            PageAfter(t, userId, page.next, pageSize) == PageAfter(t, userId, START, pageSize))
  {
    var page := PageAfter(t, userId, cursor, pageSize).value;
    forall i | 0 <= i < |page.rows|
      ensures page.rows[i] in SelectAfter(t, userId, page.next) <==> page.next.createdAt == ""
    {
      RowIsBehindIff(t, userId, cursor, pageSize, i);
    }
    assert page.rows[0] in page.rows;
    if page.next.createdAt == "" {
      StartsAgain(t, userId, page.next, pageSize);
    }
  }

  lemma {:induction false} SameSelection(t: Table, userId: string, c: Cursor, d: Cursor)
    requires c.createdAt == "" && d.createdAt == ""
    ensures SelectAfter(t, userId, c) == SelectAfter(t, userId, d)
  {
    if |t| > 0 {
      SameSelection(t[..|t| - 1], userId, c, d);
    }
  }
}
