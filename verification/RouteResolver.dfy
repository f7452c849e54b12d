/**
 * The gateway's route resolver: a linear scan over the registry that keeps the
 * most specific matching pattern, compared with the segment-by-segment search of
 * a routing tree that prefers static, then parameter, then catch-all segments
 * and backtracks.
 */
module RouteResolver {
  import opened Outcomes

  datatype Level = Public | Authenticated | Personal | Admin | Deny

  datatype Route = Route(id: string, service: string, verb: string, path: string, access: Level)

  type Path = seq<string>

  /** strings.Split(s, "/"): at least one segment, possibly empty. */
  function Split(s: string): (segments: Path)
    ensures |segments| > 0
  {
    if |s| == 0 then [""]
    else
      var rest := Split(s[1..]);
      if s[0] == '/' then [""] + rest else [[s[0]] + rest[0]] + rest[1..]
  }

  /** strings.Join(segments, "/"). */
  function Joined(segments: Path): string
    requires |segments| > 0
  {
    if |segments| == 1 then segments[0] else segments[0] + "/" + Joined(segments[1..])
  }

  lemma SlashPrepends(rest: Path)
    requires |rest| > 0
    ensures Joined([""] + rest) == "/" + Joined(rest)
  {
    assert ([""] + rest)[1..] == rest;
    assert "" + "/" == "/";
  }

  lemma CharPrepends(c: char, rest: Path)
    requires |rest| > 0
    ensures Joined([[c] + rest[0]] + rest[1..]) == [c] + Joined(rest)
  {
    var longer := [[c] + rest[0]] + rest[1..];
    assert longer[0] == [c] + rest[0] && longer[1..] == rest[1..];
    if |rest| > 1 {
      Grows(c, rest[0], Joined(rest[1..]));
    }
  }

  lemma Grows(c: char, a: string, b: string)
    ensures [c] + a + "/" + b == [c] + (a + "/" + b)
  {
  }

  /** The segments hold no slash, and joined with slashes they are the text again. */
  lemma {:induction false} SplitIsExact(s: string)
    ensures Joined(Split(s)) == s && forall i :: 0 <= i < |Split(s)| ==> '/' !in Split(s)[i]
  {
    if |s| > 0 {
      SplitIsExact(s[1..]);
      SlashPrepends(Split(s[1..]));
      CharPrepends(s[0], Split(s[1..]));
      assert s == [s[0]] + s[1..];
    }
  }

  predicate IsCatchAll(segment: string) { |segment| > 0 && segment[0] == '*' }

  predicate IsParam(segment: string) { |segment| > 0 && segment[0] == ':' }

  function Class(segment: string): nat {
    if IsCatchAll(segment) then 0 else if IsParam(segment) then 1 else 2
  }

  // ---------------------------------------------------------------- matching and ranking

  /** Segments i, i+1, … of the pattern match those of the path. */
  predicate MatchFrom(p: Path, q: Path, i: nat)
    requires i <= |p|
    decreases |p| - i
  {
    if i == |p| then |q| == |p|
    else if IsCatchAll(p[i]) then |q| > i
    else i < |q| && (if IsParam(p[i]) then q[i] != "" else p[i] == q[i]) && MatchFrom(p, q, i + 1)
  }

  predicate Matches(p: Path, q: Path) { MatchFrom(p, q, 0) }

  /** From segment i on, the first difference of classes decides, and then the length. */
  predicate MoreFrom(a: Path, b: Path, i: nat)
    requires i <= |a| && i <= |b|
    decreases |a| - i
  {
    if i == |a| || i == |b| then |a| > |b|
    else if Class(a[i]) != Class(b[i]) then Class(a[i]) > Class(b[i])
    else MoreFrom(a, b, i + 1)
  }

  predicate More(a: Path, b: Path) { MoreFrom(a, b, 0) }

  method MatchPattern(pattern: string, path: string) returns (ok: bool)
    ensures ok == Matches(Split(pattern), Split(path))
  {
    var p, q := Split(pattern), Split(path);
    for i := 0 to |p|
      invariant MatchFrom(p, q, i) == Matches(p, q)
    {
      if IsCatchAll(p[i]) {
        return |q| > i;
      }
      if i >= |q| {
        return false;
      }
      if IsParam(p[i]) {
        if q[i] == "" {
          return false;
        }
      } else if p[i] != q[i] {
        return false;
      }
    }
    ok := |q| == |p|;
  }

  method MoreSpecific(a: string, b: string) returns (more: bool)
    ensures more == More(Split(a), Split(b))
  {
    var p, q := Split(a), Split(b);
    var shared := if |p| < |q| then |p| else |q|;
    for i := 0 to shared
      invariant MoreFrom(p, q, i) == More(p, q)
    {
      if Class(p[i]) != Class(q[i]) {
        return Class(p[i]) > Class(q[i]);
      }
    }
    more := |p| > |q|;
  }

  // ---------------------------------------------------------------- the scan

  /** Route i answers this request, or would. */
  predicate Answers(registry: seq<Route>, verb: string, q: Path, i: nat)
    requires i < |registry|
  {
    registry[i].verb == verb && Matches(Split(registry[i].path), q)
  }

  /** The best of the first n routes: the most specific, and the first among equals. */
  function Scan(registry: seq<Route>, verb: string, q: Path, n: nat): (best: Option<nat>)
    requires n <= |registry|
    ensures best.Some? ==> best.value < n && Answers(registry, verb, q, best.value)
  {
    if n == 0 then None
    else
      var best := Scan(registry, verb, q, n - 1);
      if !Answers(registry, verb, q, n - 1) then best
      else if best.None? || More(Split(registry[n - 1].path), Split(registry[best.value].path)) then Some(n - 1)
      else best
  }

  function LevelOf(registry: seq<Route>, best: Option<nat>): Level
    requires best.Some? ==> best.value < |registry|
  {
    if best.None? then Deny else registry[best.value].access
  }

  function Resolved(registry: seq<Route>, verb: string, path: string): Level {
    LevelOf(registry, Scan(registry, verb, Split(path), |registry|))
  }

  method Resolve(registry: seq<Route>, verb: string, path: string) returns (level: Level)
    ensures level == Resolved(registry, verb, path)
    ensures Decided(registry, verb, Split(path), level)
  {
    var best: Option<nat> := None;
    for i := 0 to |registry|
      invariant best == Scan(registry, verb, Split(path), i)
    {
      var matched := MatchPattern(registry[i].path, path);
      if registry[i].verb != verb || !matched {
        continue;
      }
      if best.None? {
        best := Some(i);
      } else {
        var more := MoreSpecific(registry[i].path, registry[best.value].path);
        if more {
          best := Some(i);
        }
      }
    }
    level := if best.None? then Deny else registry[best.value].access;
    ResolvedIsUnbeatenOrDeny(registry, verb, path);
  }

  // ---------------------------------------------------------------- the order on patterns

  ghost predicate SameShape(a: Path, b: Path, d: nat) {
    |a| == |b| && forall i :: d <= i < |a| ==> Class(a[i]) == Class(b[i])
  }

  lemma {:induction false} MoreTotal(a: Path, b: Path, d: nat)
    requires d <= |a| && d <= |b|
    ensures MoreFrom(a, b, d) || MoreFrom(b, a, d) || SameShape(a, b, d)
    ensures SameShape(a, b, d) ==> !MoreFrom(a, b, d) && !MoreFrom(b, a, d)
    ensures !(MoreFrom(a, b, d) && MoreFrom(b, a, d))
    decreases |a| - d
  {
    if d < |a| && d < |b| && Class(a[d]) == Class(b[d]) {
      MoreTotal(a, b, d + 1);
    }
  }

  lemma {:induction false} MoreTransitive(a: Path, b: Path, c: Path, d: nat)
    requires d <= |a| && d <= |b| && d <= |c|
    requires MoreFrom(a, b, d) && MoreFrom(b, c, d)
    ensures MoreFrom(a, c, d)
    decreases |a| - d
  {
    if d < |a| && d < |b| && d < |c| && Class(a[d]) == Class(b[d]) == Class(c[d]) {
      MoreTransitive(a, b, c, d + 1);
    }
  }

  lemma {:induction false} MoreUpToShape(a: Path, b: Path, c: Path, d: nat)
    requires d <= |a| && d <= |b| && d <= |c|
    requires MoreFrom(a, b, d) && SameShape(b, c, d)
    ensures MoreFrom(a, c, d)
    decreases |a| - d
  {
    if d < |a| && d < |b| && Class(a[d]) == Class(b[d]) {
      MoreUpToShape(a, b, c, d + 1);
    }
  }

  /** A catch-all may only end a pattern, as the router demands. */
  predicate WellFormed(p: Path) {
    forall i :: 0 <= i < |p| - 1 ==> !IsCatchAll(p[i])
  }

  /** Two patterns that match one path and agree in class as far as both go are equally long: length never decides. */
  lemma LengthNeverDecides(a: Path, b: Path, q: Path)
    requires WellFormed(a) && WellFormed(b) && Matches(a, q) && Matches(b, q)
    requires forall i :: 0 <= i < |a| && i < |b| ==> Class(a[i]) == Class(b[i])
    ensures |a| == |b|
  {
    MatchLength(a, q, 0);
    MatchLength(b, q, 0);
  }

  lemma {:induction false} MatchLength(p: Path, q: Path, d: nat)
    requires WellFormed(p) && d <= |p| && MatchFrom(p, q, d)
    ensures if d < |p| && IsCatchAll(p[|p| - 1]) then |p| <= |q| else |p| == |q|
    decreases |p| - d
  {
    if d < |p| && !IsCatchAll(p[d]) {
      MatchLength(p, q, d + 1);
    }
  }

  lemma {:induction false} RenamingKeepsMatchFrom(p: Path, i: nat, mark: char, a: string, b: string, q: Path, d: nat)
    requires d <= |p| && i < |p| && (mark == ':' || mark == '*')
    ensures MatchFrom(p[i := [mark] + a], q, d) <==> MatchFrom(p[i := [mark] + b], q, d)
    decreases |p| - d
  {
    if d < |p| {
      RenamingKeepsMatchFrom(p, i, mark, a, b, q, d + 1);
    }
  }

  /** What a parameter or a catch-all is called does not matter, and neither matches less than any other. */
  lemma NamesDoNotMatter(p: Path, i: nat, mark: char, a: string, b: string, q: Path)
    requires i < |p| && (mark == ':' || mark == '*')
    ensures Matches(p[i := [mark] + a], q) <==> Matches(p[i := [mark] + b], q)
    ensures Class([mark] + a) == Class([mark] + b)
  {
    RenamingKeepsMatchFrom(p, i, mark, a, b, q, 0);
  }

  // ---------------------------------------------------------------- the tree search

  /** The candidates whose segment d has this class and, if static, this text. */
  function Branch(pats: seq<Path>, cands: seq<nat>, d: nat, rank: nat, text: string): (r: seq<nat>)
    requires forall k :: 0 <= k < |cands| ==> cands[k] < |pats|
    ensures forall k :: 0 <= k < |r| ==> r[k] < |pats| && r[k] in cands
    ensures forall c :: c in r <==> c in cands && OnBranch(pats, c, d, rank, text)
  {
    if |cands| == 0 then []
    else (if OnBranch(pats, cands[0], d, rank, text) then [cands[0]] else [])
         + Branch(pats, cands[1..], d, rank, text)
  }

  predicate OnBranch(pats: seq<Path>, c: nat, d: nat, rank: nat, text: string) {
    c < |pats| && d < |pats[c]| && Class(pats[c][d]) == rank && (rank == 2 ==> pats[c][d] == text)
  }

  function Ending(pats: seq<Path>, cands: seq<nat>, d: nat): (r: seq<nat>)
    requires forall k :: 0 <= k < |cands| ==> cands[k] < |pats|
    ensures forall c :: c in r <==> c in cands && c < |pats| && |pats[c]| == d
  {
    if |cands| == 0 then []
    else (if |pats[cands[0]]| == d then [cands[0]] else []) + Ending(pats, cands[1..], d)
  }

  function FirstOf(s: seq<nat>): Option<nat> { if |s| == 0 then None else Some(s[0]) }

  /**
   * Descend one path segment at a time: the static child first, then the
   * parameter child, then the catch-all; come back when a child leads nowhere.
   */
  function Search(pats: seq<Path>, cands: seq<nat>, q: Path, d: nat): Option<nat>
    requires d <= |q| && forall k :: 0 <= k < |cands| ==> cands[k] < |pats|
    decreases |q| - d
  {
    if d == |q| then FirstOf(Ending(pats, cands, d))
    else match Search(pats, Branch(pats, cands, d, 2, q[d]), q, d + 1)
      case Some(k) => Some(k)
      case None =>
        match if q[d] == "" then None else Search(pats, Branch(pats, cands, d, 1, ""), q, d + 1)
        case Some(k) => Some(k)
        case None => FirstOf(Branch(pats, cands, d, 0, ""))
  }

  ghost predicate Ascending(s: seq<nat>) {
    forall i, j :: 0 <= i < j < |s| ==> s[i] < s[j]
  }

  lemma {:induction false} BranchAscending(pats: seq<Path>, cands: seq<nat>, d: nat, rank: nat, text: string)
    requires Ascending(cands) && forall k :: 0 <= k < |cands| ==> cands[k] < |pats|
    ensures Ascending(Branch(pats, cands, d, rank, text))
  {
    if |cands| > 0 {
      BranchAscending(pats, cands[1..], d, rank, text);
      var rest := Branch(pats, cands[1..], d, rank, text);
      forall k | 0 <= k < |rest| ensures cands[0] < rest[k] {
        assert rest[k] in cands[1..];
      }
    }
  }

  lemma {:induction false} EndingAscending(pats: seq<Path>, cands: seq<nat>, d: nat)
    requires Ascending(cands) && forall k :: 0 <= k < |cands| ==> cands[k] < |pats|
    ensures Ascending(Ending(pats, cands, d))
  {
    if |cands| > 0 {
      EndingAscending(pats, cands[1..], d);
      var rest := Ending(pats, cands[1..], d);
      forall k | 0 <= k < |rest| ensures cands[0] < rest[k] {
        assert rest[k] in rest && rest[k] in cands[1..];
      }
    }
  }

  /** Candidate k is at least as good as c: more specific from d on, or of the same shape and registered no later. */
  ghost predicate Beats(pats: seq<Path>, k: nat, c: nat, d: nat)
    requires k < |pats| && c < |pats|
  {
    && d <= |pats[k]| && d <= |pats[c]|
    && (MoreFrom(pats[k], pats[c], d) || (SameShape(pats[k], pats[c], d) && k <= c))
  }

  ghost predicate Candidates(pats: seq<Path>, cands: seq<nat>, d: nat) {
    Ascending(cands) && forall k :: 0 <= k < |cands| ==>
      cands[k] < |pats| && d <= |pats[cands[k]]| && WellFormed(pats[cands[k]])
  }

  ghost predicate IsBest(pats: seq<Path>, cands: seq<nat>, q: Path, d: nat, k: nat) {
    && k in cands && k < |pats| && d <= |pats[k]| && MatchFrom(pats[k], q, d)
    && forall c :: c in cands && c < |pats| && d <= |pats[c]| && MatchFrom(pats[c], q, d) ==> Beats(pats, k, c, d)
  }

  ghost predicate FindsBest(pats: seq<Path>, cands: seq<nat>, q: Path, d: nat, found: Option<nat>) {
    match found
    case Some(k) => IsBest(pats, cands, q, d, k)
    case None => forall c :: c in cands && c < |pats| && d <= |pats[c]| ==> !MatchFrom(pats[c], q, d)
  }

  lemma SearchAtEnd(pats: seq<Path>, cands: seq<nat>, q: Path)
    requires Candidates(pats, cands, |q|)
    ensures FindsBest(pats, cands, q, |q|, Search(pats, cands, q, |q|))
  {
    var d := |q|;
    var ends := Ending(pats, cands, d);
    EndingAscending(pats, cands, d);
    forall c | c in cands && MatchFrom(pats[c], q, d) ensures c in ends {
      assert |pats[c]| == d;
    }
    if |ends| > 0 {
      var k := ends[0];
      assert k in ends;
      forall c | c in cands && c < |pats| && d <= |pats[c]| && MatchFrom(pats[c], q, d) ensures Beats(pats, k, c, d) {
        var j :| 0 <= j < |ends| && ends[j] == c;
        assert k <= c;
      }
    }
  }

  lemma BranchCandidates(pats: seq<Path>, cands: seq<nat>, d: nat, rank: nat, text: string)
    requires Candidates(pats, cands, d)
    ensures Candidates(pats, Branch(pats, cands, d, rank, text), d + 1)
  {
    BranchAscending(pats, cands, d, rank, text);
    var r := Branch(pats, cands, d, rank, text);
    forall k | 0 <= k < |r| ensures r[k] < |pats| && d + 1 <= |pats[r[k]]| && WellFormed(pats[r[k]]) {
      assert r[k] in r;
    }
  }

  /** Candidates that match from d on have, at d, a class of at most this. */
  ghost predicate AtMost(pats: seq<Path>, cands: seq<nat>, q: Path, d: nat, rank: nat) {
    forall c :: c in cands && c < |pats| && d < |pats[c]| && MatchFrom(pats[c], q, d) ==> Class(pats[c][d]) <= rank
  }

  /** The best of the highest branch that leads somewhere is the best of all. */
  lemma BranchWins(pats: seq<Path>, cands: seq<nat>, q: Path, d: nat, rank: nat, text: string, k: nat)
    requires Candidates(pats, cands, d) && d < |q|
    requires if rank == 2 then text == q[d] else rank == 1 && q[d] != ""
    requires AtMost(pats, cands, q, d, rank)
    requires IsBest(pats, Branch(pats, cands, d, rank, text), q, d + 1, k)
    ensures IsBest(pats, cands, q, d, k)
  {
  }

  /** A branch that leads nowhere rules out its class. */
  lemma BranchFails(pats: seq<Path>, cands: seq<nat>, q: Path, d: nat, rank: nat, text: string)
    requires Candidates(pats, cands, d) && d < |q| && 1 <= rank <= 2
    requires rank == 2 ==> text == q[d]
    requires AtMost(pats, cands, q, d, rank)
    requires FindsBest(pats, Branch(pats, cands, d, rank, text), q, d + 1, None)
    ensures AtMost(pats, cands, q, d, rank - 1)
  {
  }

  /** A pattern that matches from d on continues on one of the three branches. */
  lemma MatchBranches(p: Path, q: Path, d: nat)
    requires d < |q| && d <= |p| && WellFormed(p) && MatchFrom(p, q, d)
    ensures d < |p|
    ensures Class(p[d]) == 2 ==> p[d] == q[d] && MatchFrom(p, q, d + 1)
    ensures Class(p[d]) == 1 ==> q[d] != "" && MatchFrom(p, q, d + 1)
    ensures Class(p[d]) == 0 ==> d == |p| - 1
  {
  }

  lemma CatchAllTie(pats: seq<Path>, cands: seq<nat>, d: nat, k: nat, c: nat)
    requires Candidates(pats, cands, d) && k in cands && c in cands && k <= c
    requires OnBranch(pats, k, d, 0, "") && OnBranch(pats, c, d, 0, "")
    ensures Beats(pats, k, c, d)
    ensures |pats[k]| == |pats[c]| == d + 1
  {
  }

  lemma ParamsNeedText(pats: seq<Path>, cands: seq<nat>, q: Path, d: nat)
    requires Candidates(pats, cands, d) && d < |q| && q[d] == "" && AtMost(pats, cands, q, d, 1)
    ensures AtMost(pats, cands, q, d, 0)
  {
  }

  lemma CatchAllWins(pats: seq<Path>, cands: seq<nat>, q: Path, d: nat)
    requires Candidates(pats, cands, d) && d < |q| && AtMost(pats, cands, q, d, 0)
    ensures FindsBest(pats, cands, q, d, FirstOf(Branch(pats, cands, d, 0, "")))
  {
    var tails := Branch(pats, cands, d, 0, "");
    BranchAscending(pats, cands, d, 0, "");
    forall c | c in cands && c < |pats| && d <= |pats[c]| && MatchFrom(pats[c], q, d) ensures c in tails {
      MatchBranches(pats[c], q, d);
      assert OnBranch(pats, c, d, 0, "");
    }
    if |tails| > 0 {
      var k := tails[0];
      assert k in tails;
      forall c | c in tails ensures Beats(pats, k, c, d) {
        CatchAllTie(pats, cands, d, k, c);
      }
    }
  }

  /** What the search does once the static child has led nowhere. */
  function Fallback(pats: seq<Path>, cands: seq<nat>, q: Path, d: nat, param: Option<nat>): Option<nat>
    requires d < |q| && forall k :: 0 <= k < |cands| ==> cands[k] < |pats|
  {
    if param.Some? then param else FirstOf(Branch(pats, cands, d, 0, ""))
  }

  lemma FallbackFindsBest(pats: seq<Path>, cands: seq<nat>, q: Path, d: nat, param: Option<nat>)
    requires d < |q| && Candidates(pats, cands, d) && AtMost(pats, cands, q, d, 1)
    requires if q[d] == "" then param.None? else FindsBest(pats, Branch(pats, cands, d, 1, ""), q, d + 1, param)
    ensures FindsBest(pats, cands, q, d, Fallback(pats, cands, q, d, param))
  {
    if param.Some? {
      BranchWins(pats, cands, q, d, 1, "", param.value);
    } else {
      if q[d] == "" {
        ParamsNeedText(pats, cands, q, d);
      } else {
        BranchFails(pats, cands, q, d, 1, "");
      }
      CatchAllWins(pats, cands, q, d);
    }
  }

  lemma SearchUnfolds(pats: seq<Path>, cands: seq<nat>, q: Path, d: nat)
    requires d < |q| && forall k :: 0 <= k < |cands| ==> cands[k] < |pats|
    ensures var literal := Search(pats, Branch(pats, cands, d, 2, q[d]), q, d + 1);
      var param := if q[d] == "" then None else Search(pats, Branch(pats, cands, d, 1, ""), q, d + 1);
      Search(pats, cands, q, d) == if literal.Some? then literal else Fallback(pats, cands, q, d, param)
  {
  }

  /** The static child's best, if it has one, and else what the search falls back on. */
  lemma ChildrenFindBest(pats: seq<Path>, cands: seq<nat>, q: Path, d: nat, literal: Option<nat>, param: Option<nat>)
    requires d < |q| && Candidates(pats, cands, d)
    requires FindsBest(pats, Branch(pats, cands, d, 2, q[d]), q, d + 1, literal)
    requires if q[d] == "" then param.None? else FindsBest(pats, Branch(pats, cands, d, 1, ""), q, d + 1, param)
    ensures FindsBest(pats, cands, q, d, if literal.Some? then literal else Fallback(pats, cands, q, d, param))
  {
    if literal.Some? {
      BranchWins(pats, cands, q, d, 2, q[d], literal.value);
    } else {
      BranchFails(pats, cands, q, d, 2, q[d]);
      FallbackFindsBest(pats, cands, q, d, param);
    }
  }

  /** The search with backtracking finds the best candidate, and finds none exactly when none matches. */
  lemma {:induction false} SearchFindsBest(pats: seq<Path>, cands: seq<nat>, q: Path, d: nat)
    requires d <= |q| && Candidates(pats, cands, d)
    ensures FindsBest(pats, cands, q, d, Search(pats, cands, q, d))
    decreases |q| - d, 1
  {
    if d == |q| {
      SearchAtEnd(pats, cands, q);
    } else {
      var literal := ChildFindsBest(pats, cands, q, d, 2, q[d]);
      var param := None;
      if q[d] != "" {
        param := ChildFindsBest(pats, cands, q, d, 1, "");
      }
      SearchUnfolds(pats, cands, q, d);
      ChildrenFindBest(pats, cands, q, d, literal, param);
    }
  }

  lemma {:induction false} ChildFindsBest(pats: seq<Path>, cands: seq<nat>, q: Path, d: nat, rank: nat, text: string)
    returns (found: Option<nat>)
    requires d < |q| && Candidates(pats, cands, d)
    ensures found == Search(pats, Branch(pats, cands, d, rank, text), q, d + 1)
    ensures FindsBest(pats, Branch(pats, cands, d, rank, text), q, d + 1, found)
    decreases |q| - d, 0
  {
    BranchCandidates(pats, cands, d, rank, text);
    SearchFindsBest(pats, Branch(pats, cands, d, rank, text), q, d + 1);
    found := Search(pats, Branch(pats, cands, d, rank, text), q, d + 1);
  }

  // ---------------------------------------------------------------- the scan finds the same route

  function Patterns(registry: seq<Route>): (pats: seq<Path>)
    ensures |pats| == |registry| && forall i :: 0 <= i < |pats| ==> pats[i] == Split(registry[i].path)
  {
    seq(|registry|, i requires 0 <= i < |registry| => Split(registry[i].path))
  }

  /** The routes of this verb among the first n, in registry order. */
  function OfVerb(registry: seq<Route>, verb: string, n: nat): (cands: seq<nat>)
    requires n <= |registry|
    ensures forall c :: c in cands <==> 0 <= c < n && registry[c].verb == verb
    ensures forall k :: 0 <= k < |cands| ==> cands[k] < n
  {
    if n == 0 then []
    else OfVerb(registry, verb, n - 1) + if registry[n - 1].verb == verb then [n - 1] else []
  }

  lemma {:induction false} OfVerbAscending(registry: seq<Route>, verb: string, n: nat)
    requires n <= |registry|
    ensures Ascending(OfVerb(registry, verb, n))
  {
    if n > 0 {
      OfVerbAscending(registry, verb, n - 1);
    }
  }

  ghost predicate RouterAccepts(registry: seq<Route>) {
    forall i :: 0 <= i < |registry| ==> WellFormed(Split(registry[i].path))
  }

  /** Route k is the one among the first n that the scan must keep. */
  ghost predicate Keeps(registry: seq<Route>, verb: string, q: Path, n: nat, best: Option<nat>)
    requires n <= |registry|
  {
    match best
    case Some(k) => k < n && Answers(registry, verb, q, k)
                    && forall c :: 0 <= c < n && Answers(registry, verb, q, c) ==> Beats(Patterns(registry), k, c, 0)
    case None => forall c :: 0 <= c < n ==> !Answers(registry, verb, q, c)
  }

  lemma BeatsTransitive(pats: seq<Path>, a: nat, b: nat, c: nat)
    requires a < |pats| && b < |pats| && c < |pats|
    requires MoreFrom(pats[a], pats[b], 0) && Beats(pats, b, c, 0)
    ensures Beats(pats, a, c, 0)
  {
    if MoreFrom(pats[b], pats[c], 0) {
      MoreTransitive(pats[a], pats[b], pats[c], 0);
    } else {
      MoreUpToShape(pats[a], pats[b], pats[c], 0);
    }
  }

  /** The linear scan keeps the most specific matching route, the earliest among equals. */
  lemma {:induction false} ScanKeepsBest(registry: seq<Route>, verb: string, q: Path, n: nat)
    requires n <= |registry|
    ensures Keeps(registry, verb, q, n, Scan(registry, verb, q, n))
  {
    if n > 0 {
      ScanKeepsBest(registry, verb, q, n - 1);
      var pats := Patterns(registry);
      var best := Scan(registry, verb, q, n - 1);
      if Answers(registry, verb, q, n - 1) && best.Some? {
        MoreTotal(pats[n - 1], pats[best.value], 0);
        if More(pats[n - 1], pats[best.value]) {
          forall c | 0 <= c < n && Answers(registry, verb, q, c) ensures Beats(pats, n - 1, c, 0) {
            if c < n - 1 {
              BeatsTransitive(pats, n - 1, best.value, c);
            }
          }
        }
      }
    }
  }

  ghost predicate Unmatched(registry: seq<Route>, verb: string, q: Path) {
    forall i :: 0 <= i < |registry| ==> !Answers(registry, verb, q, i)
  }

  /** Route k matches, and no matching route beats it. */
  ghost predicate Unbeaten(registry: seq<Route>, verb: string, q: Path, k: nat) {
    && k < |registry| && Answers(registry, verb, q, k)
    && forall c :: 0 <= c < |registry| && Answers(registry, verb, q, c) && c != k ==>
         !Beats(Patterns(registry), c, k, 0)
  }

  /** Denied if nothing matches; otherwise the access of a route, the only one, that no other beats. */
  ghost predicate Decided(registry: seq<Route>, verb: string, q: Path, level: Level) {
    if Unmatched(registry, verb, q) then level == Deny
    else exists k: nat :: Unbeaten(registry, verb, q, k) && level == registry[k].access
  }

  /** A request that no route of its verb matches is denied; any other gets the level of a route that none beats. */
  lemma ResolvedIsUnbeatenOrDeny(registry: seq<Route>, verb: string, path: string)
    ensures Decided(registry, verb, Split(path), Resolved(registry, verb, path))
  {
    var q := Split(path);
    ScanKeepsBest(registry, verb, q, |registry|);
    var best := Scan(registry, verb, q, |registry|);
    if best.Some? {
      forall c | 0 <= c < |registry| && Answers(registry, verb, q, c) && c != best.value
        ensures !Beats(Patterns(registry), c, best.value, 0)
      {
        if Beats(Patterns(registry), c, best.value, 0) {
          BestIsOne(Patterns(registry), c, best.value);
        }
      }
      assert Unbeaten(registry, verb, q, best.value);
    }
  }

  /** There is only one such route, so the decision is unique. */
  lemma DecisionIsUnique(registry: seq<Route>, verb: string, q: Path, one: Level, other: Level)
    requires Decided(registry, verb, q, one) && Decided(registry, verb, q, other)
    ensures one == other
  {
    if !Unmatched(registry, verb, q) {
      var a: nat :| Unbeaten(registry, verb, q, a) && one == registry[a].access;
      var b: nat :| Unbeaten(registry, verb, q, b) && other == registry[b].access;
      MoreTotal(Split(registry[a].path), Split(registry[b].path), 0);
    }
  }

  lemma BestIsOne(pats: seq<Path>, a: nat, b: nat)
    requires a < |pats| && b < |pats| && Beats(pats, a, b, 0) && Beats(pats, b, a, 0)
    ensures a == b
  {
    MoreTotal(pats[a], pats[b], 0);
  }

  /**
   * The scan and the tree search choose the same route for every registry whose
   * catch-alls come last, every verb and every path; and a request that no
   * route matches is denied.
   */
  lemma ScanIsTreeSearch(registry: seq<Route>, verb: string, path: string)
    requires RouterAccepts(registry)
    ensures var found := Search(Patterns(registry), OfVerb(registry, verb, |registry|), Split(path), 0);
            && Scan(registry, verb, Split(path), |registry|) == found
            && (found.Some? ==> found.value < |registry|)
            && Resolved(registry, verb, path) == LevelOf(registry, found)
  {
    var pats, cands, q := Patterns(registry), OfVerb(registry, verb, |registry|), Split(path);
    OfVerbAscending(registry, verb, |registry|);
    SearchFindsBest(pats, cands, q, 0);
    ScanKeepsBest(registry, verb, q, |registry|);
    var scanned, found := Scan(registry, verb, q, |registry|), Search(pats, cands, q, 0);
    assert forall c :: 0 <= c < |registry| ==>
      (Answers(registry, verb, q, c) <==> c in cands && MatchFrom(pats[c], q, 0));
    if scanned.Some? && found.Some? {
      assert Answers(registry, verb, q, found.value);
      BestIsOne(pats, scanned.value, found.value);
    }
  }

  // ---------------------------------------------------------------- registry order

  /** Equal up to the names of parameters and catch-alls. */
  ghost predicate SamePattern(a: Path, b: Path) {
    |a| == |b| && forall i :: 0 <= i < |a| ==> Class(a[i]) == Class(b[i]) && (Class(a[i]) == 2 ==> a[i] == b[i])
  }

  /** No two routes of one verb have the same pattern, as the router demands. */
  ghost predicate Unambiguous(registry: seq<Route>) {
    forall i, j ::
      (&& 0 <= i < |registry| && 0 <= j < |registry| && registry[i].verb == registry[j].verb
       && SamePattern(Split(registry[i].path), Split(registry[j].path)))
      ==> registry[i] == registry[j]
  }

  /** Two patterns of one shape that match one path are the same pattern. */
  lemma {:induction false} SameShapeIsSamePattern(a: Path, b: Path, q: Path, d: nat)
    requires d <= |a| && SameShape(a, b, 0) && MatchFrom(a, q, d) && MatchFrom(b, q, d) && WellFormed(a)
    requires forall i :: 0 <= i < d ==> Class(a[i]) == 2 ==> a[i] == b[i]
    ensures SamePattern(a, b)
    decreases |a| - d
  {
    if d < |a| && !IsCatchAll(a[d]) {
      assert Class(a[d]) == Class(b[d]);
      SameShapeIsSamePattern(a, b, q, d + 1);
    }
  }

  /** The order in which routes are registered never matters. */
  lemma ResolveIgnoresOrder(one: seq<Route>, other: seq<Route>, verb: string, path: string)
    requires RouterAccepts(one) && Unambiguous(one)
    requires forall r :: r in one <==> r in other
    ensures Resolved(one, verb, path) == Resolved(other, verb, path)
  {
    var q := Split(path);
    ScanKeepsBest(one, verb, q, |one|);
    ScanKeepsBest(other, verb, q, |other|);
    var a, b := Scan(one, verb, q, |one|), Scan(other, verb, q, |other|);
    if a.Some? {
      assert one[a.value] in other;
      var a' :| 0 <= a' < |other| && other[a'] == one[a.value];
      assert Answers(other, verb, q, a');
    }
    if b.Some? {
      assert other[b.value] in one;
      var b' :| 0 <= b' < |one| && one[b'] == other[b.value];
      assert Answers(one, verb, q, b');
      var a' :| 0 <= a' < |other| && other[a'] == one[a.value];
      assert Answers(other, verb, q, a');
      assert Beats(Patterns(one), a.value, b', 0) && Beats(Patterns(other), b.value, a', 0);
      var p, p' := Split(one[a.value].path), Split(one[b'].path);
      MoreTotal(p, p', 0);
      SameShapeIsSamePattern(p, p', q, 0);
    }
  }
}
