/**
 * The right to erasure on the ledger: what is gone of a user's rows once they
 * are erased, what is kept of them, and that it stays so.
 */
module Erasure {
  import opened Outcomes
  import opened Ledger
  import opened LedgerInvariants

  /** Nothing personal is left in the row, and no amount. */
  predicate Blank(row: Expense) {
    && row.userId == "DELETED" && row.name == "REDACTED" && row.status.Redacted?
    && row.expenseType == "" && row.tagId == "" && row.expenseDate == ""
    && row.money.transactionAmount == 0 && row.money.transactionCurrency == ""
    && row.money.reportingAmount == 0 && row.money.reportingCurrency == ""
    && row.money.rate == "" && row.money.source == "" && row.money.timestamp == "" && row.money.expiresAt == ""
  }

  /** The two rows differ at most in what is personal: name, details, status and money. */
  predicate SameFrame(a: Expense, b: Expense) {
    && (a.id, a.correctsId, a.year, a.month) == (b.id, b.correctsId, b.year, b.month)
    && (a.proRata, a.createdAt, a.idempotencyKey) == (b.proRata, b.createdAt, b.idempotencyKey)
  }

  /** The request erases something: it names a user, and its write is applied. */
  predicate Applies(env: Env, userId: string) { userId != "" && !env.update.Rejected? }

  /** Every former row of the user is blank and keeps its frame, no row is theirs any more, and no other row changes. */
  lemma ErasureLeavesNothing(t: Table, env: Env, userId: string)
    requires Applies(env, userId)
    ensures var t' := Handle(t, env, Anonymize(userId));
      && |t'| == |t|
      && (forall i :: 0 <= i < |t| && t[i].userId == userId ==> Blank(t'[i]) && SameFrame(t'[i], t[i]))
      && (forall i :: 0 <= i < |t| && t[i].userId != userId ==> t'[i] == t[i])
      && (userId != "DELETED" ==> forall i :: 0 <= i < |t| ==> t'[i].userId != userId)
  {
  }

  /** A request that names nobody, or whose write is rejected, changes nothing. */
  lemma RefusedErasureChangesNothing(t: Table, env: Env, userId: string)
    requires !Applies(env, userId)
    ensures Handle(t, env, Anonymize(userId)) == t
  {
  }

  lemma BlankRowsAgree(a: Expense, b: Expense)
    requires Blank(a) && Blank(b) && SameFrame(a, b)
    ensures a == b
  {
  }

  /** The ledgers are alike but for what is personal in the rows of this user. */
  ghost predicate AlikeBut(t: Table, u: Table, userId: string) {
    && |t| == |u|
    && forall i :: 0 <= i < |t| ==>
         t[i] == u[i] || (t[i].userId == u[i].userId == userId && SameFrame(t[i], u[i]))
  }

  /** Whatever the personal data was, the ledger after the erasure is the same: nothing of it can be read off. */
  lemma ErasureForgets(t: Table, u: Table, env: Env, userId: string)
    requires Applies(env, userId) && AlikeBut(t, u, userId)
    ensures Handle(t, env, Anonymize(userId)) == Handle(u, env, Anonymize(userId))
  {
    ErasureLeavesNothing(t, env, userId);
    ErasureLeavesNothing(u, env, userId);
    var t', u' := Handle(t, env, Anonymize(userId)), Handle(u, env, Anonymize(userId));
    forall i | 0 <= i < |t| ensures t'[i] == u'[i] {
      if t[i].userId == userId {
        BlankRowsAgree(t'[i], u'[i]);
      }
    }
  }

  /** Erasing again changes nothing. */
  lemma ErasureRepeats(t: Table, env: Env, again: Env, userId: string)
    requires Applies(env, userId)
    ensures var t' := Handle(t, env, Anonymize(userId)); Handle(t', again, Anonymize(userId)) == t'
  {
    var t' := Handle(t, env, Anonymize(userId));
    ErasureLeavesNothing(t, env, userId);
    if Applies(again, userId) {
      var t'' := Handle(t', again, Anonymize(userId));
      ErasureLeavesNothing(t', again, userId);
      forall i | 0 <= i < |t'| ensures t''[i] == t'[i] {
        if t'[i].userId == userId {
          BlankRowsAgree(t''[i], t'[i]);
        }
      }
    }
  }

  /** No request changes a blank row. */
  lemma BlankStays(t: Table, env: Env, req: Request, i: nat)
    requires Sound(t) && i < |t| && Blank(t[i])
    ensures i < |Handle(t, env, req)| && Handle(t, env, req)[i] == t[i]
  {
    if Erases(req, t[i].userId) {
      if Applies(env, req.userId) {
        ErasureLeavesNothing(t, env, req.userId);
        BlankRowsAgree(Handle(t, env, req)[i], t[i]);
      }
    } else {
      RequestChangesOnlyItsRow(t, env, req, i);
    }
  }

  /** A row once erased stays exactly as the erasure left it, over every later run. */
  lemma {:induction false} ErasedForEver(t: Table, log: Log, i: nat)
    requires Sound(t) && i < |t| && Blank(t[i])
    ensures i < |Serve(t, log)| && Serve(t, log)[i] == t[i]
    decreases |log|
  {
    if |log| > 0 {
      RequestKeepsLinks(t, log[0].0, log[0].1);
      BlankStays(t, log[0].0, log[0].1, i);
      ErasedForEver(Handle(t, log[0].0, log[0].1), log[1..], i);
    }
  }
}
