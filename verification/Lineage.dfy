/**
 * The shape of correction links: in a sound ledger they form disjoint finite
 * paths, one per original row, and only the end of a path can be active.
 */
module Lineage {
  import opened Ledger
  import opened LedgerInvariants

  predicate HasParent(t: Table, j: nat)
    requires j < |t|
  {
    t[j].correctsId != "" && 0 <= Parent(t, j) < j
  }

  /** The original row a row descends from. */
  function Root(t: Table, j: nat): (r: nat)
    requires j < |t|
    ensures r <= j
  {
    if HasParent(t, j) then Root(t, Parent(t, j)) else j
  }

  /** Row i is row j or one of the rows j corrects, directly or not. */
  predicate Ancestor(t: Table, i: nat, j: nat)
    requires i < |t| && j < |t|
    decreases j
  {
    i == j || (HasParent(t, j) && Ancestor(t, i, Parent(t, j)))
  }

  /** A proper ancestor has been corrected by some row on the way down. */
  lemma {:induction false} ChildOnPath(t: Table, i: nat, j: nat) returns (c: nat)
    requires i < |t| && j < |t| && i != j && Ancestor(t, i, j)
    ensures i < c <= j && HasParent(t, c) && Parent(t, c) == i
    decreases j
  {
    if Parent(t, j) == i {
      c := j;
    } else {
      c := ChildOnPath(t, i, Parent(t, j));
    }
  }

  /** Everything above the end of a path has been corrected. */
  lemma AncestorIsCorrected(t: Table, i: nat, j: nat)
    requires Sound(t) && i < |t| && j < |t| && i != j && Ancestor(t, i, j)
    ensures !t[i].status.Active?
  {
    var c := ChildOnPath(t, i, j);
    assert LinkedAt(t, c);
  }

  lemma {:induction false} RootIsOriginal(t: Table, j: nat)
    requires Sound(t) && j < |t|
    ensures t[Root(t, j)].correctsId == "" && Ancestor(t, Root(t, j), j) && SamePeriod(t[Root(t, j)], t[j])
    decreases j
  {
    assert LinkedAt(t, j);
    if HasParent(t, j) {
      RootIsOriginal(t, Parent(t, j));
    }
  }

  /** Two rows with the same original lie on one path. */
  lemma {:induction false} SameRootIsOnePath(t: Table, i: nat, j: nat)
    requires Sound(t) && i <= j < |t| && Root(t, i) == Root(t, j)
    ensures Ancestor(t, i, j)
    decreases i + j
  {
    if i < j {
      var p := Parent(t, j);
      assert HasParent(t, j);
      if i < p {
        SameRootIsOnePath(t, i, p);
      } else if p < i {
        SameRootIsOnePath(t, p, i);
        var c := ChildOnPath(t, p, i);
      }
    }
  }

  /** Of all the rows that descend from one original, at most one is active, and it is the last. */
  lemma OneActiveRowPerOriginal(t: Table, i: nat, j: nat)
    requires Sound(t) && i < |t| && j < |t|
    requires Root(t, i) == Root(t, j) && t[i].status.Active?
    ensures j <= i && Ancestor(t, j, i)
    ensures t[j].status.Active? ==> j == i
  {
    if i < j {
      SameRootIsOnePath(t, i, j);
      AncestorIsCorrected(t, i, j);
    } else {
      SameRootIsOnePath(t, j, i);
      if j != i {
        AncestorIsCorrected(t, j, i);
      }
    }
  }

  /** After any run, the rows of one original still hold at most one active row. */
  lemma RunKeepsOneActiveRowPerOriginal(log: Log, i: nat, j: nat)
    requires i < |Serve([], log)| && j < |Serve([], log)|
    requires Root(Serve([], log), i) == Root(Serve([], log), j)
    requires Serve([], log)[i].status.Active? && Serve([], log)[j].status.Active?
    ensures i == j
  {
    RunKeepsLinks([], log);
    OneActiveRowPerOriginal(Serve([], log), i, j);
  }
}
