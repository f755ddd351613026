/**
 * Who did what under concurrency: a transaction that is answered Ok was begun by the user
 * for whom its operation is reserved.
 */
module Authority {
  import opened Wrappers
  import opened Ledger
  import opened LedgerInvariants
  import opened LedgerRuns
  import opened LedgerAnswers
  import opened LedgerHistory
  import opened Transactions
  import opened Serializability
  import LedgerCreate

  /** Debts are decided and paid by their debtors, resent by owners, payments decided by receivers. */
  predicate Authorized(t: Tables, op: Op) {
    if op.OpAccept? || op.OpRejectDebt? then op.debt in t.debts && t.debts[op.debt].debtor == op.user
    else if op.OpReview? then op.debt in t.debts && OwnsGroupOf(t, op.debt, op.user)
    else if IsMark(op) then
      && op.debt in t.debts && t.debts[op.debt].debtor == op.user && op.id in t.payments
      && t.payments[op.id].debt == op.debt && t.payments[op.id].paidBy == op.user
      && t.payments[op.id].amount == op.amount
    else if IsReview(op) then
      && op.payment in t.payments && t.payments[op.payment].receivedBy == op.user
      && t.payments[op.payment].debt in t.debts && t.debts[t.payments[op.payment].debt].creditor == op.user
    else true
  }

  lemma GroupsStay(t: Tables, op: Op, now: Time)
    requires Possible(t, op)
    ensures var t' := Step(t, op, now).0;
            && t'.members == t.members
            && forall e :: e in t.expenses ==> e in t'.expenses && t'.expenses[e] == t.expenses[e]
  {
    if op.OpCreate? {
      LedgerCreate.CreateExtends(
        t, op.expense, op.group, op.createdBy, op.payer, op.total, op.entries, op.debtIds, now);
    } else if (op.OpBulkMark? || op.OpStaleBulkMark?) && Step(t, op, now).1 == Ok {
      Ledger.AllocateLength(t, op.rows, op.amount);
      InsertPartsMoves(t, Allocate(t, op.rows, op.amount), op.user, op.receiver, op.ids);
    }
  }

  lemma DebtTermsStay(t: Tables, op: Op, now: Time, d: Id)
    requires Consistent(t) && Possible(t, op) && d in t.debts
    ensures var t' := Step(t, op, now).0; d in t'.debts && SameTerms(t.debts[d], t'.debts[d])
  {
    StepDebtCause(t, op, now, d);
  }

  lemma PaymentTermsStay(t: Tables, op: Op, now: Time, p: Id)
    requires Consistent(t) && Possible(t, op) && p in t.payments
    ensures var t' := Step(t, op, now).0;
            && p in t'.payments && t'.payments[p].debt == t.payments[p].debt
            && t'.payments[p].amount == t.payments[p].amount
            && t'.payments[p].paidBy == t.payments[p].paidBy && t'.payments[p].receivedBy == t.payments[p].receivedBy
  {
    StepPaymentCause(t, op, now, p);
  }

  /** What is done stays done by the right user, whatever happens next. */
  lemma AuthorizedStays(t: Tables, next: Op, now: Time, op: Op)
    requires Consistent(t) && Possible(t, next) && Authorized(t, op)
    ensures Authorized(Step(t, next, now).0, op)
  {
    GroupsStay(t, next, now);
    if IsReview(op) {
      PaymentTermsStay(t, next, now, op.payment);
      DebtTermsStay(t, next, now, t.payments[op.payment].debt);
    } else if IsMark(op) {
      PaymentTermsStay(t, next, now, op.id);
      DebtTermsStay(t, next, now, op.debt);
    } else if IsUpdate(op) {
      DebtTermsStay(t, next, now, op.debt);
    }
  }

  lemma ReviewIsAuthorized(t: Tables, op: Op, now: Time)
    requires Consistent(t) && IsReview(op) && Step(t, op, now).1 == Ok
    ensures Authorized(t, op)
  {
    if op.OpConfirm? {
      ConfirmAnswer(t, op.payment, op.user, now);
    } else {
      RejectPaymentAnswer(t, op.payment, op.user, now);
    }
    assert PaymentOk(t, op.payment);
  }

  lemma UpdateIsAuthorized(t: Tables, op: Op, now: Time)
    requires IsUpdate(op) && Step(t, op, now).1 == Ok
    ensures Authorized(t, op)
  {
    if op.OpAccept? {
      AcceptAnswer(t, op.debt, op.user, now);
    } else if op.OpRejectDebt? {
      RejectDebtAnswer(t, op.debt, op.user, now);
    } else {
      ReviewAnswer(t, op.debt, op.user, op.adjusted, now);
    }
  }

  lemma OkIsAuthorized(t: Tables, op: Op, now: Time)
    requires Consistent(t) && Possible(t, op) && Step(t, op, now).1 == Ok
    ensures Authorized(Step(t, op, now).0, op)
  {
    if IsReview(op) {
      ReviewIsAuthorized(t, op, now);
      AuthorizedStays(t, op, now, op);
    } else if IsUpdate(op) {
      UpdateIsAuthorized(t, op, now);
      AuthorizedStays(t, op, now, op);
    } else if op.OpMark? {
      MarkEffect(t, Paid(t.payments, op.debt, PendingConfirmation), op.debt, op.user, op.amount, op.id);
    } else if op.OpStaleMark? {
      MarkEffect(t, op.pendingSeen, op.debt, op.user, op.amount, op.id);
    }
  }

  lemma {:induction false} AuthorizedInLog(base: Tables, log: seq<Answer>, t: Tables, i: nat)
    requires Consistent(base) && Replays(base, log, t) && i < |log| && log[i].outcome == Ok
    ensures Authorized(t, log[i].op)
    decreases |log|
  {
    var init, last := log[..|log| - 1], log[|log| - 1];
    var t0 :| Replays(base, init, t0) && Possible(t0, last.op) && Step(t0, last.op, last.now) == (t, last.outcome);
    ReplayIsRun(base, init, t0);
    RunKeepsConsistent(base, Events(init));
    if i == |log| - 1 {
      OkIsAuthorized(t0, last.op, last.now);
    } else {
      AuthorizedInLog(base, init, t0, i);
      AuthorizedStays(t0, last.op, last.now, log[i].op);
    }
  }

  /**
   * Every transaction answered Ok, in any interleaving, was begun by the right user: a
   * review of a payment by its receiver, a mark or a decision by the debtor, a resending by
   * an owner of the group.
   */
  lemma AnsweredByRight(base: Tables, actions: seq<Action>, x: TxId)
    requires Consistent(base)
    requires var txs := Exec(Start(base), actions).txs; x in txs && txs[x].pc.Closed? && txs[x].pc.outcome == Ok
    ensures var s := Exec(Start(base), actions); Authorized(s.t, s.txs[x].op)
  {
    var s := Exec(Start(base), actions);
    Serializable(base, actions);
    AuthorizedInLog(base, s.log, s.t, s.txs[x].pc.entry.value);
  }
}
