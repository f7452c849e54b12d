/**
 * Ranked expense suggestions: active rows are grouped by name in a map, scored
 * by frequency and recency, sorted, and paged in memory. The order of the rows
 * and the order in which the map is walked must not show in the result.
 */
module Suggestions {
  import opened Ordering
  import opened Outcomes

  datatype Input = Input(id: string, name: string, amount: int, currency: string, expenseType: string, tagId: string,
                         createdAt: string, isProRata: bool, proRataGroup: string)

  datatype Group = Group(latest: Input, plain: nat, proRataGroups: set<string>)

  datatype Suggestion = Suggestion(name: string, amount: int, currency: string, expenseType: string, tagId: string,
                                   frequency: nat, lastUsedAt: string, bucket: string, score: int)

  /** The instant, in nanoseconds, that an RFC 3339 text denotes, if it is one; and the service's clock. */
  datatype Clock = Clock(now: int, instant: string -> Option<int>)

  const DAY: int := 24 * 60 * 60 * 1_000_000_000

  function RecencyBucket(createdAt: string, clock: Clock): (string, int) {
    match clock.instant(createdAt)
    case None => ("older", 1)
    case Some(used) =>
      if used / DAY == clock.now / DAY then ("today", 8)
      else if clock.now - used <= 7 * DAY then ("last_7_days", 4)
      else if clock.now - used <= 30 * DAY then ("last_30_days", 2)
      else ("older", 1)
  }

  // ---------------------------------------------------------------- one group

  predicate Newer(candidate: Input, current: Input) {
    PairLess((current.createdAt, current.id), (candidate.createdAt, candidate.id))
  }

  predicate Grouped(row: Input) { row.isProRata && row.proRataGroup != "" }

  function Counted(group: Option<Group>, row: Input): Group {
    var seen := if group.None? then Group(row, 0, {}) else group.value;
    var latest := if Newer(row, seen.latest) then row else seen.latest;
    if Grouped(row) then Group(latest, seen.plain, seen.proRataGroups + {row.proRataGroup})
    else Group(latest, seen.plain + 1, seen.proRataGroups)
  }

  /** The group of this name after these rows, in this order. */
  function Tally(rows: seq<Input>, name: string): (group: Option<Group>)
    ensures group.Some? <==> exists i :: 0 <= i < |rows| && rows[i].name == name
  {
    if |rows| == 0 then None
    else
      var last := rows[|rows| - 1];
      var before := Tally(rows[..|rows| - 1], name);
      if last.name == name then
        assert rows[|rows| - 1].name == name;
        Some(Counted(before, last))
      else before
  }

  function Frequency(group: Group): nat { group.plain + |group.proRataGroups| }

  function SuggestionOf(name: string, group: Group, clock: Clock): Suggestion {
    var (bucket, weight) := RecencyBucket(group.latest.createdAt, clock);
    Suggestion(name, group.latest.amount, group.latest.currency, group.latest.expenseType, group.latest.tagId,
               Frequency(group), group.latest.createdAt, bucket, Frequency(group) * weight)
  }

  // ---------------------------------------------------------------- the order

  predicate Before(left: Suggestion, right: Suggestion) {
    if left.score != right.score then left.score > right.score
    else if left.lastUsedAt != right.lastUsedAt then Less(right.lastUsedAt, left.lastUsedAt)
    else Less(left.name, right.name)
  }

  ghost predicate Ranked(list: seq<Suggestion>) {
    forall i, j :: 0 <= i < j < |list| ==> Before(list[i], list[j])
  }

  /** The comparison is a strict order, and total between different names. */
  lemma BeforeIsStrictOrder(a: Suggestion, b: Suggestion, c: Suggestion)
    ensures !Before(a, a)
    ensures Before(a, b) && Before(b, c) ==> Before(a, c)
    ensures a.name != b.name ==> Before(a, b) || Before(b, a)
    ensures !(Before(a, b) && Before(b, a))
  {
    LessIrreflexive(a.name);
    LessIrreflexive(a.lastUsedAt);
    LessTotal(a.name, b.name);
    LessTotal(a.lastUsedAt, b.lastUsedAt);
    if Before(a, b) && Before(b, c) && a.score == b.score == c.score {
      BeforeAtOneScore(a, b, c);
    }
    if Before(a, b) && Before(b, a) {
      BeforeAtOneScore(a, b, a);
    }
  }

  lemma BeforeAtOneScore(a: Suggestion, b: Suggestion, c: Suggestion)
    requires a.score == b.score == c.score && Before(a, b) && Before(b, c)
    ensures Before(a, c)
  {
    if a.lastUsedAt == b.lastUsedAt == c.lastUsedAt {
      LessTransitive(a.name, b.name, c.name);
    } else if a.lastUsedAt != b.lastUsedAt && b.lastUsedAt != c.lastUsedAt {
      LessTransitive(c.lastUsedAt, b.lastUsedAt, a.lastUsedAt);
      LessIrreflexive(a.lastUsedAt);
    }
  }

  /** Higher scores come first; at one score the later use; and at one time the name that is less. */
  lemma RankedIsBestFirst(list: seq<Suggestion>, i: nat, j: nat)
    requires Ranked(list) && i < j < |list|
    ensures list[i].score >= list[j].score
    ensures list[i].score == list[j].score ==>
              list[i].lastUsedAt == list[j].lastUsedAt || Less(list[j].lastUsedAt, list[i].lastUsedAt)
    ensures list[i].score == list[j].score && list[i].lastUsedAt == list[j].lastUsedAt ==>
              Less(list[i].name, list[j].name)
  {
    assert Before(list[i], list[j]);
  }

  lemma {:induction false} RankedIsUnique(one: seq<Suggestion>, other: seq<Suggestion>)
    requires Ranked(one) && Ranked(other)
    requires forall s :: s in one <==> s in other
    ensures one == other
  {
    EmptyTogether(one, other);
    if |one| > 0 {
      HeadsAgree(one, other);
      forall s | s in one[1..] ensures s in other[1..] { TailKeeps(one, other, s); }
      forall s | s in other[1..] ensures s in one[1..] { TailKeeps(other, one, s); }
      RankedIsUnique(one[1..], other[1..]);
      assert one == [one[0]] + one[1..] && other == [other[0]] + other[1..];
    }
  }

  lemma EmptyTogether(one: seq<Suggestion>, other: seq<Suggestion>)
    requires forall s :: s in one <==> s in other
    ensures |one| == 0 <==> |other| == 0
  {
    if |one| > 0 { assert one[0] in other; }
    if |other| > 0 { assert other[0] in one; }
  }

  lemma HeadsAgree(one: seq<Suggestion>, other: seq<Suggestion>)
    requires Ranked(one) && Ranked(other) && |one| > 0 && |other| > 0
    requires forall s :: s in one <==> s in other
    ensures one[0] == other[0]
  {
    assert one[0] in other && other[0] in one;
    BeforeIsStrictOrder(one[0], other[0], one[0]);
  }

  lemma TailKeeps(one: seq<Suggestion>, other: seq<Suggestion>, s: Suggestion)
    requires Ranked(one) && |one| > 0 && |other| > 0 && one[0] == other[0] && s in one[1..] && s in other
    ensures s in other[1..]
  {
    var i :| 0 <= i < |one| - 1 && one[1..][i] == s;
    assert Before(one[0], one[i + 1]);
    BeforeIsStrictOrder(s, s, s);
  }

  // ---------------------------------------------------------------- aggregation

  /** The list is the ranking of exactly one suggestion for each name that occurs. */
  ghost predicate IsRanking(rows: seq<Input>, clock: Clock, list: seq<Suggestion>) {
    && Ranked(list)
    && forall s :: s in list <==> Suggests(rows, clock, s)
  }

  ghost predicate Suggests(rows: seq<Input>, clock: Clock, s: Suggestion) {
    Tally(rows, s.name).Some? && s == SuggestionOf(s.name, Tally(rows, s.name).value, clock)
  }

  /** The map of groups is what the rows add up to. */
  ghost predicate Tallied(rows: seq<Input>, groups: map<string, Group>) {
    forall name :: if name in groups then Tally(rows, name) == Some(groups[name]) else Tally(rows, name).None?
  }

  method AggregateExpenseSuggestions(rows: seq<Input>, clock: Clock) returns (list: seq<Suggestion>)
    ensures IsRanking(rows, clock, list)
  {
    var groups: map<string, Group> := map[];
    for i := 0 to |rows|
      invariant Tallied(rows[..i], groups)
    {
      var row := rows[i];
      assert rows[..i + 1][..i] == rows[..i];
      groups := groups[row.name := Counted(if row.name in groups then Some(groups[row.name]) else None, row)];
    }
    assert rows[..|rows|] == rows;
    list := [];
    var names := groups.Keys;
    while names != {}
      invariant names <= groups.Keys
      invariant forall s :: s in list <==> Suggests(rows, clock, s) && s.name !in names
      invariant forall i, j :: 0 <= i < j < |list| ==> list[i].name != list[j].name
      decreases |names|
    {
      var name :| name in names;
      var s := SuggestionOf(name, groups[name], clock);
      assert forall i :: 0 <= i < |list| ==> list[i] in list;
      names := names - {name};
      list := list + [s];
    }
    var ranked := SortByRank(list);
    SameElements(ranked, list);
    list := ranked;
  }

  /** The library's insertion sort under this comparison. */
  method SortByRank(list: seq<Suggestion>) returns (ranked: seq<Suggestion>)
    requires forall i, j :: 0 <= i < j < |list| ==> list[i].name != list[j].name
    ensures Ranked(ranked)
    ensures multiset(ranked) == multiset(list)
  {
    ranked := [];
    for i := 0 to |list|
      invariant Ranked(ranked)
      invariant multiset(ranked) == multiset(list[..i])
    {
      var j := |ranked|;
      while j > 0 && Before(list[i], ranked[j - 1])
        invariant 0 <= j <= |ranked|
        invariant forall k :: j <= k < |ranked| ==> Before(list[i], ranked[k])
      {
        j := j - 1;
      }
      NewName(list, i, ranked);
      RankedWith(ranked, list[i], j);
      PlacedElements(ranked, list[i], j);
      assert list[..i + 1] == list[..i] + [list[i]];
      ranked := Placed(ranked, list[i], j);
    }
    assert list[..|list|] == list;
  }

  function Placed(ranked: seq<Suggestion>, s: Suggestion, j: nat): seq<Suggestion>
    requires j <= |ranked|
  {
    ranked[..j] + [s] + ranked[j..]
  }

  lemma PlacedElements(ranked: seq<Suggestion>, s: Suggestion, j: nat)
    requires j <= |ranked|
    ensures multiset(Placed(ranked, s, j)) == multiset(ranked) + multiset{s}
  {
    assert ranked == ranked[..j] + ranked[j..];
  }

  lemma NewName(list: seq<Suggestion>, i: nat, ranked: seq<Suggestion>)
    requires i < |list| && multiset(ranked) == multiset(list[..i])
    requires forall i, j :: 0 <= i < j < |list| ==> list[i].name != list[j].name
    ensures forall k :: 0 <= k < |ranked| ==> ranked[k].name != list[i].name
  {
    forall k | 0 <= k < |ranked| ensures ranked[k].name != list[i].name {
      assert ranked[k] in multiset(list[..i]);
      var m :| 0 <= m < i && list[..i][m] == ranked[k];
      assert list[m].name != list[i].name;
    }
  }

  lemma SameElements(one: seq<Suggestion>, other: seq<Suggestion>)
    requires multiset(one) == multiset(other)
    ensures forall s :: s in one <==> s in other
  {
    forall s ensures s in one <==> s in other {
      assert s in one <==> s in multiset(one);
      assert s in other <==> s in multiset(other);
    }
  }

  lemma RankedWith(ranked: seq<Suggestion>, s: Suggestion, j: nat)
    requires Ranked(ranked) && j <= |ranked|
    requires forall k :: 0 <= k < |ranked| ==> ranked[k].name != s.name
    requires j > 0 ==> !Before(s, ranked[j - 1])
    requires forall k :: j <= k < |ranked| ==> Before(s, ranked[k])
    ensures Ranked(Placed(ranked, s, j))
  {
    forall k | 0 <= k < j ensures Before(ranked[k], s) {
      BeforeIsStrictOrder(s, ranked[j - 1], s);
      BeforeIsStrictOrder(ranked[k], ranked[j - 1], s);
    }
  }

  // ---------------------------------------------------------------- what a group means

  ghost predicate DistinctIds(rows: seq<Input>) {
    forall i, j :: 0 <= i < j < |rows| ==> rows[i].id != rows[j].id
  }

  ghost function PlainRows(rows: seq<Input>, name: string): set<Input> {
    set r | r in rows && r.name == name && (!r.isProRata || r.proRataGroup == "")
  }

  ghost function GroupsOf(rows: seq<Input>, name: string): set<string> {
    set r | r in rows && r.name == name && r.isProRata && r.proRataGroup != "" :: r.proRataGroup
  }

  ghost predicate IsLatest(rows: seq<Input>, name: string, row: Input) {
    && row in rows && row.name == name
    && forall r :: r in rows && r.name == name ==>
         r == row || PairLess((r.createdAt, r.id), (row.createdAt, row.id))
  }

  /** What the group of a name must hold after these rows. */
  ghost predicate Means(rows: seq<Input>, name: string, tally: Option<Group>) {
    match tally
    case None => PlainRows(rows, name) == {} && GroupsOf(rows, name) == {}
    case Some(group) =>
      && IsLatest(rows, name, group.latest)
      && group.plain == |PlainRows(rows, name)|
      && group.proRataGroups == GroupsOf(rows, name)
  }

  /**
   * A group is the newest row of its name, the number of its rows outside any
   * pro-rata group, and the pro-rata groups of the others.
   */
  lemma {:induction false} TallyMeaning(rows: seq<Input>, name: string)
    requires DistinctIds(rows)
    ensures Means(rows, name, Tally(rows, name))
  {
    if |rows| > 0 {
      TallyMeaning(rows[..|rows| - 1], name);
      if rows[|rows| - 1].name == name {
        NextOfName(rows, name);
      } else {
        NextOfAnotherName(rows, name);
      }
    }
  }

  lemma NextOfAnotherName(rows: seq<Input>, name: string)
    requires |rows| > 0 && rows[|rows| - 1].name != name
    requires Means(rows[..|rows| - 1], name, Tally(rows[..|rows| - 1], name))
    ensures Means(rows, name, Tally(rows, name))
  {
    var n := |rows| - 1;
    assert rows == rows[..n] + [rows[n]];
    assert PlainRows(rows, name) == PlainRows(rows[..n], name);
    assert GroupsOf(rows, name) == GroupsOf(rows[..n], name);
  }

  lemma NextOfName(rows: seq<Input>, name: string)
    requires DistinctIds(rows) && |rows| > 0 && rows[|rows| - 1].name == name
    requires Means(rows[..|rows| - 1], name, Tally(rows[..|rows| - 1], name))
    ensures Means(rows, name, Tally(rows, name))
  {
    TallyLatest(rows, name);
    if Grouped(rows[|rows| - 1]) {
      GroupedCounts(rows, name);
    } else {
      PlainCounts(rows, name);
    }
  }

  lemma GroupedCounts(rows: seq<Input>, name: string)
    requires |rows| > 0 && rows[|rows| - 1].name == name && Grouped(rows[|rows| - 1])
    ensures var n := |rows| - 1;
            && PlainRows(rows, name) == PlainRows(rows[..n], name)
            && GroupsOf(rows, name) == GroupsOf(rows[..n], name) + {rows[n].proRataGroup}
  {
    var n := |rows| - 1;
    assert rows == rows[..n] + [rows[n]];
    assert PlainRows(rows, name) == PlainRows(rows[..n], name);
  }

  lemma PlainCounts(rows: seq<Input>, name: string)
    requires DistinctIds(rows) && |rows| > 0 && rows[|rows| - 1].name == name && !Grouped(rows[|rows| - 1])
    ensures var n := |rows| - 1;
            && |PlainRows(rows, name)| == |PlainRows(rows[..n], name)| + 1
            && GroupsOf(rows, name) == GroupsOf(rows[..n], name)
  {
    var n := |rows| - 1;
    var last := rows[n];
    assert rows == rows[..n] + [last];
    assert PlainRows(rows, name) == PlainRows(rows[..n], name) + {last};
    assert last !in rows[..n];
  }

  lemma TallyLatest(rows: seq<Input>, name: string)
    requires DistinctIds(rows) && |rows| > 0 && rows[|rows| - 1].name == name
    requires var before := Tally(rows[..|rows| - 1], name);
             before.Some? ==> IsLatest(rows[..|rows| - 1], name, before.value.latest)
    ensures IsLatest(rows, name, Tally(rows, name).value.latest)
  {
    var n := |rows| - 1;
    var last := rows[n];
    var before := Tally(rows[..n], name);
    assert rows == rows[..n] + [last];
    PairLessIrreflexive((last.createdAt, last.id));
    if before.Some? {
      var was := before.value.latest;
      assert last.id != was.id;
      PairLessTotal((was.createdAt, was.id), (last.createdAt, last.id));
      forall r | r in rows && r.name == name
        ensures r == Tally(rows, name).value.latest || Newer(Tally(rows, name).value.latest, r)
      {
        if r != last && r != was && Newer(last, was) {
          PairLessTransitive((r.createdAt, r.id), (was.createdAt, was.id), (last.createdAt, last.id));
        }
      }
    }
  }

  /** The same rows in another order give the same group. */
  lemma TallyIgnoresOrder(one: seq<Input>, other: seq<Input>, name: string)
    requires DistinctIds(one) && DistinctIds(other)
    requires forall r :: r in one <==> r in other
    ensures Tally(one, name) == Tally(other, name)
  {
    TallyMeaning(one, name);
    TallyMeaning(other, name);
    assert PlainRows(one, name) == PlainRows(other, name);
    assert GroupsOf(one, name) == GroupsOf(other, name);
    var a, b := Tally(one, name), Tally(other, name);
    if a.Some? {
      assert a.value.latest in other;
      assert b.Some?;
    }
    if b.Some? {
      assert b.value.latest in one;
      if a.value.latest != b.value.latest {
        var x, y := a.value.latest, b.value.latest;
        PairLessAsymmetric((x.createdAt, x.id), (y.createdAt, y.id));
      }
    }
  }

  /**
   * Whatever the order of the rows and of the walk over the map, the ranking is
   * one and the same list.
   */
  lemma RankingIgnoresOrder(one: seq<Input>, other: seq<Input>, clock: Clock,
                            list: seq<Suggestion>, list': seq<Suggestion>)
    requires DistinctIds(one) && DistinctIds(other)
    requires forall r :: r in one <==> r in other
    requires IsRanking(one, clock, list) && IsRanking(other, clock, list')
    ensures list == list'
  {
    forall name ensures Tally(one, name) == Tally(other, name) {
      TallyIgnoresOrder(one, other, name);
    }
    assert forall s :: Suggests(one, clock, s) <==> Suggests(other, clock, s);
    RankedIsUnique(list, list');
  }

  /** The instants of these limits: the clock's own day, a week ago and thirty days ago, in nanoseconds. */
  lemma RecencyLimits(createdAt: string, clock: Clock)
    ensures var weight := RecencyBucket(createdAt, clock).1;
      match clock.instant(createdAt)
      case None => weight == 1
      case Some(used) =>
        && (weight == 8 <==> used / 86_400_000_000_000 == clock.now / 86_400_000_000_000)
        && (weight >= 4 <==> weight == 8 || clock.now - 604_800_000_000_000 <= used)
        && (weight >= 2 <==> weight >= 4 || clock.now - 2_592_000_000_000_000 <= used)
        && weight in {1, 2, 4, 8}
    ensures var (bucket, weight) := RecencyBucket(createdAt, clock);
      && (bucket == "today" <==> weight == 8) && (bucket == "last_7_days" <==> weight == 4)
      && (bucket == "last_30_days" <==> weight == 2) && (bucket == "older" <==> weight == 1)
  {
  }

  /** Of two uses that are not in the future, the later one never weighs less. */
  lemma RecencyIsMonotone(older: string, newer: string, clock: Clock)
    requires clock.instant(older).Some? && clock.instant(newer).Some?
    requires clock.instant(older).value <= clock.instant(newer).value <= clock.now
    ensures RecencyBucket(older, clock).1 <= RecencyBucket(newer, clock).1
  {
    RecencyLimits(older, clock);
    RecencyLimits(newer, clock);
    DaysAreMonotone(clock.instant(older).value, clock.instant(newer).value);
    DaysAreMonotone(clock.instant(newer).value, clock.now);
  }

  lemma DaysAreMonotone(a: int, b: int)
    requires a <= b
    ensures a / DAY <= b / DAY
  {
  }

  lemma NewestIsOne(rows: seq<Input>, name: string, a: Input, b: Input)
    requires IsLatest(rows, name, a) && IsLatest(rows, name, b)
    ensures a == b
  {
    if a != b {
      PairLessAsymmetric((a.createdAt, a.id), (b.createdAt, b.id));
    }
  }

  /**
   * A suggestion tells its name's newest row, how often the name was used, each
   * pro-rata group counting once, and the two multiplied by the weight of the use.
   */
  lemma SuggestionTellsTheNewest(rows: seq<Input>, clock: Clock, s: Suggestion, row: Input)
    requires DistinctIds(rows) && Suggests(rows, clock, s) && IsLatest(rows, s.name, row)
    ensures s.amount == row.amount && s.currency == row.currency
    ensures s.expenseType == row.expenseType && s.tagId == row.tagId && s.lastUsedAt == row.createdAt
    ensures s.frequency == |PlainRows(rows, s.name)| + |GroupsOf(rows, s.name)|
    ensures (s.bucket, s.score) == (RecencyBucket(row.createdAt, clock).0,
                                    s.frequency * RecencyBucket(row.createdAt, clock).1)
  {
    TallyMeaning(rows, s.name);
    NewestIsOne(rows, s.name, Tally(rows, s.name).value.latest, row);
  }

  /** No group counts more than its rows, so a score of at most 1000 rows stays far below 32 bits. */
  lemma {:induction false} FrequencyFits(rows: seq<Input>, name: string)
    ensures Tally(rows, name).Some? ==> 1 <= Frequency(Tally(rows, name).value) <= |rows|
  {
    if |rows| > 0 {
      FrequencyFits(rows[..|rows| - 1], name);
    }
  }

  // ---------------------------------------------------------------- paging

  const TWO_31: int := 0x8000_0000

  /** Conversion to a signed 32-bit integer. */
  function Wrap32(x: int): int { (x + TWO_31) % (2 * TWO_31) - TWO_31 }

  newtype int32 = x: int | -TWO_31 <= x < TWO_31

  datatype Paged = Invalid | Paged(data: seq<Suggestion>, total: nat, hasMore: bool) | Panicked

  predicate ValidRequest(page: int32, pageSize: int32) {
    page >= 1 && 1 <= pageSize <= 100
  }

  function Start(page: int32, pageSize: int32): int { Wrap32((page as int - 1) * pageSize as int) }

  function Min(a: int, b: int): int { if a < b then a else b }

  /** The page that the code cuts: slicing at a negative offset panics. */
  function Cut(list: seq<Suggestion>, start: int, size: int): Paged
    requires size >= 1
  {
    if start >= |list| then Paged([], |list|, false)
    else if start < 0 then Panicked
    else
      var end := Min(start + size, |list|);
      Paged(list[start..end], |list|, end < |list|)
  }

  /** The offset is computed in 32 bits. */
  function PageOf(list: seq<Suggestion>, page: int32, pageSize: int32): Paged
    requires ValidRequest(page, pageSize)
  {
    Cut(list, Start(page, pageSize), pageSize as int)
  }

  method GetExpenseSuggestions(rows: seq<Input>, clock: Clock, page: int32, pageSize: int32) returns (result: Paged)
    ensures if ValidRequest(page, pageSize)
            then exists list :: IsRanking(rows, clock, list) && result == PageOf(list, page, pageSize)
            else result == Invalid
    ensures result == Invalid <==> page < 1 || pageSize < 1 || 100 < pageSize
  {
    if page < 1 || pageSize < 1 || pageSize > 100 {
      return Invalid;
    }
    var suggestions := AggregateExpenseSuggestions(rows, clock);
    var start := Wrap32((page as int - 1) * pageSize as int);
    if start >= |suggestions| {
      return Paged([], |suggestions|, false);
    }
    var end := start + pageSize as int;
    if end > |suggestions| {
      end := |suggestions|;
    }
    if start < 0 {
      return Panicked;
    }
    return Paged(suggestions[start..end], |suggestions|, end < |suggestions|);
  }

  function CutWindow(list: seq<Suggestion>, from: int, size: int): Paged
    requires 0 <= from && size >= 1
  {
    Paged(list[Min(from, |list|)..Min(from + size, |list|)], |list|, from + size < |list|)
  }

  /** The page a caller asks for: rows (page-1)*pageSize up to page*pageSize of the list. */
  function Window(list: seq<Suggestion>, page: int32, pageSize: int32): Paged
    requires ValidRequest(page, pageSize)
  {
    WindowInOrder(page, pageSize);
    CutWindow(list, (page as int - 1) * pageSize as int, pageSize as int)
  }

  lemma WindowInOrder(page: int32, pageSize: int32)
    requires ValidRequest(page, pageSize)
    ensures 0 <= (page as int - 1) * pageSize as int
    ensures (page as int - 1) * pageSize as int + pageSize as int == page as int * pageSize as int
  {
  }

  lemma WrapKeepsSmall(x: int)
    requires 0 <= x < TWO_31
    ensures Wrap32(x) == x
  {
  }

  /** Cutting elsewhere agrees with cutting at the offset only beyond the end. */
  lemma CutIsWindowIff(list: seq<Suggestion>, from: int, start: int, size: int)
    requires 0 <= from && 1 <= size && |list| < TWO_31 && (from < TWO_31 ==> start == from)
    ensures Cut(list, start, size) == CutWindow(list, from, size) <==> from < TWO_31 || start >= |list|
  {
    if from >= TWO_31 && 0 <= start < |list| {
      assert |list[start..Min(start + size, |list|)]| > 0;
    }
  }

  /**
   * A page is the one asked for exactly when its offset fits 32 bits or wraps
   * round to one past the end of the list.
   */
  lemma PageIsWindowIff(list: seq<Suggestion>, page: int32, pageSize: int32)
    requires ValidRequest(page, pageSize) && |list| < TWO_31
    ensures PageOf(list, page, pageSize) == Window(list, page, pageSize) <==>
            (page as int - 1) * pageSize as int < TWO_31 || Start(page, pageSize) >= |list|
  {
    WindowInOrder(page, pageSize);
    var from := (page as int - 1) * pageSize as int;
    if from < TWO_31 {
      WrapKeepsSmall(from);
    }
    CutIsWindowIff(list, from, Start(page, pageSize), pageSize as int);
  }

  /** Page 42949674 of 100 starts at offset 4 and shows rows of the first page again. */
  lemma FarPageWrapsRound(list: seq<Suggestion>)
    requires 4 < |list| < TWO_31
    ensures PageOf(list, 42949674, 100) == Paged(list[4..Min(104, |list|)], |list|, 104 < |list|)
    ensures PageOf(list, 42949674, 100) != Window(list, 42949674, 100)
  {
    assert Start(42949674, 100) == 4;
    PageIsWindowIff(list, 42949674, 100);
  }

  /** A valid request panics exactly when its offset, reduced to 32 bits, has the sign bit set. */
  lemma PagePanicsIff(list: seq<Suggestion>, page: int32, pageSize: int32)
    requires ValidRequest(page, pageSize)
    ensures PageOf(list, page, pageSize) == Panicked
       <==> (page as int - 1) * pageSize as int % (2 * TWO_31) >= TWO_31
  {
    WrapIsNegativeIff((page as int - 1) * pageSize as int);
  }

  lemma WrapIsNegativeIff(x: int)
    ensures Wrap32(x) < 0 <==> x % (2 * TWO_31) >= TWO_31
  {
    var q, r := x / (2 * TWO_31), x % (2 * TWO_31);
    assert x == q * (2 * TWO_31) + r;
    if r < TWO_31 {
      assert (x + TWO_31) % (2 * TWO_31) == r + TWO_31;
    } else {
      assert (x + TWO_31) % (2 * TWO_31) == r - TWO_31;
    }
  }

  /** Page 21474838 of 100 panics, whatever the list. */
  lemma FarPagePanics(list: seq<Suggestion>)
    ensures PageOf(list, 21474838, 100) == Panicked
  {
    assert 21474837 * 100 == 2147483700;
    PagePanicsIff(list, 21474838, 100);
  }

  /** The data of pages 1 to n, one after the other. */
  function Pages(list: seq<Suggestion>, n: nat, pageSize: int32): seq<Suggestion>
    requires n < TWO_31 && 1 <= pageSize <= 100
  {
    if n == 0 then []
    else
      var page := PageOf(list, n as int32, pageSize);
      Pages(list, n - 1, pageSize) + if page.Paged? then page.data else []
  }

  /** The part of the list that n pages cover. */
  function Covered(list: seq<Suggestion>, n: nat, pageSize: int32): seq<Suggestion>
    requires 1 <= pageSize <= 100
  {
    list[..Min(n * pageSize as int, |list|)]
  }

  lemma NextPage(list: seq<Suggestion>, page: int32, pageSize: int32)
    requires ValidRequest(page, pageSize) && |list| < TWO_31
    requires (page as int - 1) * pageSize as int < TWO_31
    ensures PageOf(list, page, pageSize).Paged?
    ensures Covered(list, page as int - 1, pageSize) + PageOf(list, page, pageSize).data
         == Covered(list, page as int, pageSize)
    ensures PageOf(list, page, pageSize).hasMore <==> Covered(list, page as int, pageSize) != list
  {
    WindowInOrder(page, pageSize);
    PageIsWindowIff(list, page, pageSize);
    var from := Min((page as int - 1) * pageSize as int, |list|);
    var to := Min(page as int * pageSize as int, |list|);
    assert list[..from] + list[from..to] == list[..to];
    if to < |list| {
      assert |list[..to]| < |list|;
    }
  }

  /**
   * Successive pages join up to the whole list, with nothing repeated or
   * skipped, and say that there is more until there is not.
   */
  lemma {:induction false} PagesJoinUp(list: seq<Suggestion>, n: nat, pageSize: int32)
    requires 0 < n < TWO_31 && 1 <= pageSize <= 100 && |list| < TWO_31 && (n - 1) * pageSize as int < TWO_31
    ensures Pages(list, n, pageSize) == Covered(list, n, pageSize)
    ensures PageOf(list, n as int32, pageSize).Paged?
    ensures PageOf(list, n as int32, pageSize).hasMore <==> Pages(list, n, pageSize) != list
  {
    NextPage(list, n as int32, pageSize);
    if n == 1 {
      assert Pages(list, 0, pageSize) == [] == Covered(list, 0, pageSize);
    } else {
      WindowInOrder((n - 1) as int32, pageSize);
      PagesJoinUp(list, n - 1, pageSize);
    }
  }
}
