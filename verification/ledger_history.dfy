/**
 * Who did what: over every run, each change of a row has one cause, an operation of the
 * user it is reserved for, and what a debt asks for is what was last asked.
 */
module LedgerHistory {
  import opened Wrappers
  import opened Ledger
  import opened LedgerInvariants
  import opened LedgerRuns
  import opened LedgerAnswers
  import LedgerBulk
  import LedgerCreate

  // ---------------------------------------------------------------- causes of one step

  function AmountAsked(d: Debt, adjusted: Option<int>): int {
    if adjusted.Some? then adjusted.value else d.original
  }

  /** The debtor accepted or rejected debt d. */
  predicate DecidedByDebtor(t: Tables, t': Tables, op: Op, d: Id)
    requires d in t.debts && d in t'.debts
  {
    var (x, y) := (t.debts[d], t'.debts[d]);
    && (op.OpAccept? || op.OpRejectDebt?) && op.debt == d && op.user == x.debtor
    && x.status == DebtStatus.Pending && y.status == (if op.OpAccept? then Accepted else Rejected)
    && SameAmounts(x, y)
  }

  /** An owner of the group resent debt d, with a new amount or with the old one. */
  predicate ResentByOwner(t: Tables, t': Tables, op: Op, d: Id)
    requires d in t.debts && d in t'.debts
  {
    var (x, y) := (t.debts[d], t'.debts[d]);
    && op.OpReview? && op.debt == d && OwnsGroupOf(t, d, op.user)
    && x.status == Rejected && y.status == DebtStatus.Pending
    && y.original == y.remaining == AmountAsked(x, op.adjusted)
  }

  /** The creditor confirmed a payment of debt d. */
  predicate PaidToCreditor(t: Tables, t': Tables, op: Op, d: Id)
    requires d in t.debts && d in t'.debts
  {
    var (x, y) := (t.debts[d], t'.debts[d]);
    && op.OpConfirm? && op.payment in t.payments && t.payments[op.payment].debt == d
    && op.user == x.creditor && y.original == x.original
    && y.remaining == x.remaining - t.payments[op.payment].amount
  }

  /** What made debt d change: its debtor, an owner of its group, or its creditor. */
  predicate DebtCause(t: Tables, t': Tables, op: Op, d: Id)
    requires d in t.debts && d in t'.debts
  {
    && SameTerms(t.debts[d], t'.debts[d])
    && (DecidedByDebtor(t, t', op, d) || ResentByOwner(t, t', op, d) || PaidToCreditor(t, t', op, d))
  }

  /** What decided payment p: its receiver, the creditor of its debt. */
  predicate PaymentCause(t: Tables, t': Tables, op: Op, p: Id)
    requires p in t.payments && p in t'.payments
  {
    var (x, y) := (t.payments[p], t'.payments[p]);
    && (op.OpConfirm? || op.OpRejectPayment?) && op.payment == p
    && op.user == x.receivedBy && x.debt in t.debts && x.receivedBy == t.debts[x.debt].creditor
    && x.status == PendingConfirmation && y.status == (if op.OpConfirm? then Confirmed else Refused)
    && y.debt == x.debt && y.paidBy == x.paidBy && y.receivedBy == x.receivedBy && y.amount == x.amount
  }

  /** Payment p was created by the debtor of its debt, who asked for it. */
  predicate NewPaymentCause(t: Tables, t': Tables, op: Op, p: Id)
    requires p in t'.payments
  {
    var x := t'.payments[p];
    && x.status == PendingConfirmation && x.debt in t.debts
    && x.paidBy == t.debts[x.debt].debtor && x.receivedBy == t.debts[x.debt].creditor
    && (|| (&& (op.OpMark? || op.OpStaleMark?)
            && op.user == x.paidBy && op.id == p && op.debt == x.debt && op.amount == x.amount)
        || (&& (op.OpBulkMark? || op.OpStaleBulkMark?) && op.user == x.paidBy && op.receiver == x.receivedBy
            && x.debt in op.rows && p in op.ids && 0 < x.amount <= t.debts[x.debt].remaining))
  }

  /** Debt d belongs to a new expense: one of its entries, owed to the payer. */
  predicate NewDebtCause(t: Tables, t': Tables, op: Op, d: Id)
    requires d in t'.debts
  {
    var x := t'.debts[d];
    && op.OpCreate? && x.expense == op.expense && x.creditor == op.payer && x.status == DebtStatus.Pending
    && exists i :: 0 <= i < |op.entries| && Bears(op.entries[i], x)
  }

  predicate Bears(e: Entry, d: Debt) { !e.samePayerText && d.debtor == e.user && d.original == d.remaining == e.share }

  lemma {:induction false} DebtRowsBear(expense: Id, payer: Id, entries: seq<Entry>, ids: seq<Id>, now: Time,
                                        r: (Id, Debt))
    requires |entries| <= |ids| && r in LedgerCreate.DebtRows(expense, payer, entries, ids, now)
    ensures r.1.expense == expense && r.1.creditor == payer && r.1.status == DebtStatus.Pending
    ensures exists i :: 0 <= i < |entries| && Bears(entries[i], r.1)
    decreases |entries|
  {
    if r in LedgerCreate.DebtRows(expense, payer, entries[1..], ids[1..], now) {
      DebtRowsBear(expense, payer, entries[1..], ids[1..], now, r);
      var i :| 0 <= i < |entries[1..]| && Bears(entries[1..][i], r.1);
      assert Bears(entries[i + 1], r.1);
    } else {
      assert Bears(entries[0], r.1);
    }
  }

  lemma BulkDebtsStay(t: Tables, op: Op, now: Time)
    requires (op.OpBulkMark? || op.OpStaleBulkMark?) && Possible(t, op)
    ensures Step(t, op, now).0.debts == t.debts
    ensures var t' := Step(t, op, now).0;
            forall p :: p in t.payments ==> p in t'.payments && t'.payments[p] == t.payments[p]
  {
    if Step(t, op, now).1 == Ok {
      Ledger.AllocateLength(t, op.rows, op.amount);
      InsertPartsMoves(t, Allocate(t, op.rows, op.amount), op.user, op.receiver, op.ids);
    }
  }

  lemma DebtorCause(t: Tables, op: Op, now: Time, d: Id)
    requires (op.OpAccept? || op.OpRejectDebt?) && d in t.debts
    ensures var (t', r) := Step(t, op, now);
            d in t'.debts && (t'.debts[d] == t.debts[d] || (r == Ok && DebtCause(t, t', op, d)))
  {
    if op.OpAccept? {
      AcceptAnswer(t, op.debt, op.user, now);
    } else {
      RejectDebtAnswer(t, op.debt, op.user, now);
    }
  }

  lemma OwnerCause(t: Tables, op: Op, now: Time, d: Id)
    requires op.OpReview? && d in t.debts
    ensures var (t', r) := Step(t, op, now);
            d in t'.debts && (t'.debts[d] == t.debts[d] || (r == Ok && DebtCause(t, t', op, d)))
  {
    ReviewAnswer(t, op.debt, op.user, op.adjusted, now);
  }

  predicate LeavesDebts(op: Op) {
    op.OpMark? || op.OpStaleMark? || op.OpBulkMark? || op.OpStaleBulkMark? || op.OpRejectPayment?
  }

  lemma DebtsStay(t: Tables, op: Op, now: Time)
    requires Possible(t, op) && LeavesDebts(op)
    ensures Step(t, op, now).0.debts == t.debts
  {
    if op.OpBulkMark? || op.OpStaleBulkMark? {
      BulkDebtsStay(t, op, now);
    }
  }

  lemma StepDebtCause(t: Tables, op: Op, now: Time, d: Id)
    requires Consistent(t) && Possible(t, op) && d in t.debts
    ensures var (t', r) := Step(t, op, now);
            d in t'.debts && (t'.debts[d] == t.debts[d] || (r == Ok && DebtCause(t, t', op, d)))
  {
    if op.OpCreate? {
      LedgerCreate.CreateExtends(
        t, op.expense, op.group, op.createdBy, op.payer, op.total, op.entries, op.debtIds, now);
    } else if LeavesDebts(op) {
      DebtsStay(t, op, now);
    } else if op.OpReview? {
      OwnerCause(t, op, now, d);
    } else if op.OpConfirm? {
      ConfirmCause(t, op.payment, op.user, now, d);
    } else {
      DebtorCause(t, op, now, d);
    }
  }

  lemma ConfirmCause(t: Tables, payment: Id, user: Id, now: Time, d: Id)
    requires Consistent(t) && d in t.debts
    ensures var (t', r) := Confirm(t, payment, user, now);
            && d in t'.debts
            && (t'.debts[d] == t.debts[d] || (r == Ok && DebtCause(t, t', OpConfirm(payment, user), d)))
  {
    ConfirmAnswer(t, payment, user, now);
    if Confirm(t, payment, user, now).1 == Ok {
      ConfirmEffect(t, payment, user, now);
      assert PaymentOk(t, payment);
    }
  }

  predicate LeavesPayments(op: Op) { !op.OpConfirm? && !op.OpRejectPayment? }

  lemma PaymentsStay(t: Tables, op: Op, now: Time, p: Id)
    requires Possible(t, op) && LeavesPayments(op) && p in t.payments
    ensures p in Step(t, op, now).0.payments && Step(t, op, now).0.payments[p] == t.payments[p]
  {
    if op.OpCreate? {
      LedgerCreate.CreateExtends(
        t, op.expense, op.group, op.createdBy, op.payer, op.total, op.entries, op.debtIds, now);
    } else if op.OpBulkMark? || op.OpStaleBulkMark? {
      BulkDebtsStay(t, op, now);
    }
  }

  lemma ConfirmedCause(t: Tables, payment: Id, user: Id, now: Time, p: Id)
    requires Consistent(t) && p in t.payments
    ensures var (t', r) := Confirm(t, payment, user, now);
            && p in t'.payments
            && (t'.payments[p] == t.payments[p] || (r == Ok && PaymentCause(t, t', OpConfirm(payment, user), p)))
  {
    assert PaymentOk(t, p);
    ConfirmAnswer(t, payment, user, now);
    if Confirm(t, payment, user, now).1 == Ok {
      ConfirmEffect(t, payment, user, now);
    }
  }

  lemma RefusedCause(t: Tables, payment: Id, user: Id, now: Time, p: Id)
    requires Consistent(t) && p in t.payments
    ensures var (t', r) := RejectPayment(t, payment, user, now);
            && p in t'.payments
            && (t'.payments[p] == t.payments[p] || (r == Ok && PaymentCause(t, t', OpRejectPayment(payment, user), p)))
  {
    assert PaymentOk(t, p);
    RejectPaymentAnswer(t, payment, user, now);
    if RejectPayment(t, payment, user, now).1 == Ok {
      RejectPaymentEffect(t, payment, user, now);
    }
  }

  lemma StepPaymentCause(t: Tables, op: Op, now: Time, p: Id)
    requires Consistent(t) && Possible(t, op) && p in t.payments
    ensures var (t', r) := Step(t, op, now);
            p in t'.payments && (t'.payments[p] == t.payments[p] || (r == Ok && PaymentCause(t, t', op, p)))
  {
    if op.OpConfirm? {
      ConfirmedCause(t, op.payment, op.user, now, p);
    } else if op.OpRejectPayment? {
      RefusedCause(t, op.payment, op.user, now, p);
    } else {
      PaymentsStay(t, op, now, p);
    }
  }

  lemma {:induction false} InsertPartsSource(t: Tables, parts: seq<Part>, user: Id, receiver: Id, ids: seq<Id>, p: Id)
    requires |parts| <= |ids| && InsertParts(t, parts, user, receiver, ids).Some?
    requires p in InsertParts(t, parts, user, receiver, ids).value.payments && p !in t.payments
    ensures p in ids
    ensures var x := InsertParts(t, parts, user, receiver, ids).value.payments[p];
            && x.status == PendingConfirmation && x.paidBy == user && x.receivedBy == receiver
            && Part(x.debt, x.amount) in parts
    decreases |parts|
  {
    if parts == [] {
    } else {
      var t1 := t.(payments := t.payments[ids[0] := NewPayment(parts[0].debt, user, receiver, parts[0].amount)]);
      if p == ids[0] {
        InsertPartsMoves(t1, parts[1..], user, receiver, ids[1..]);
        assert parts[0] in parts;
      } else {
        InsertPartsSource(t1, parts[1..], user, receiver, ids[1..], p);
      }
    }
  }

  lemma BulkParts(t: Tables, op: Op, now: Time)
    requires (op.OpBulkMark? || op.OpStaleBulkMark?) && Possible(t, op) && Step(t, op, now).1 == Ok
    ensures LedgerBulk.Known(t, op.rows) && |Allocate(t, op.rows, op.amount)| <= |op.ids|
    ensures var parts := Allocate(t, op.rows, op.amount);
            && InsertParts(t, parts, op.user, op.receiver, op.ids) == Some(Step(t, op, now).0)
            && LedgerBulk.Markable(t, parts, op.user, op.receiver)
            && forall i :: 0 <= i < |parts| ==> parts[i].debt in op.rows
  {
    Ledger.AllocateLength(t, op.rows, op.amount);
    LedgerBulk.BulkWithinTotal(t, op.rows, op.user, op.receiver, op.amount, op.ids);
    LedgerBulk.RowsMarkable(t, op.rows, op.user, op.receiver, op.amount);
  }

  lemma BulkPaymentCause(t: Tables, op: Op, now: Time, p: Id)
    requires (op.OpBulkMark? || op.OpStaleBulkMark?) && Possible(t, op) && Step(t, op, now).1 == Ok
    requires p in Step(t, op, now).0.payments && p !in t.payments
    ensures NewPaymentCause(t, Step(t, op, now).0, op, p)
  {
    var parts := Allocate(t, op.rows, op.amount);
    BulkParts(t, op, now);
    InsertPartsSource(t, parts, op.user, op.receiver, op.ids, p);
    var x := Step(t, op, now).0.payments[p];
    var i :| 0 <= i < |parts| && parts[i] == Part(x.debt, x.amount);
  }

  lemma MarkPaymentCause(t: Tables, op: Op, now: Time, p: Id)
    requires (op.OpMark? || op.OpStaleMark?) && p in Step(t, op, now).0.payments && p !in t.payments
    ensures Step(t, op, now).1 == Ok && NewPaymentCause(t, Step(t, op, now).0, op, p)
  {
    var seen := if op.OpMark? then Paid(t.payments, op.debt, PendingConfirmation) else op.pendingSeen;
    if MarkSeeing(t, seen, op.debt, op.user, op.amount, op.id).1 == Ok {
      MarkEffect(t, seen, op.debt, op.user, op.amount, op.id);
    }
  }

  lemma StepNewPayment(t: Tables, op: Op, now: Time, p: Id)
    requires Possible(t, op) && p in Step(t, op, now).0.payments && p !in t.payments
    ensures Step(t, op, now).1 == Ok && NewPaymentCause(t, Step(t, op, now).0, op, p)
  {
    if op.OpBulkMark? || op.OpStaleBulkMark? {
      BulkPaymentCause(t, op, now, p);
    } else if op.OpMark? || op.OpStaleMark? {
      MarkPaymentCause(t, op, now, p);
    } else {
      NoNewPayment(t, op, now, p);
    }
  }

  lemma NoNewPayment(t: Tables, op: Op, now: Time, p: Id)
    requires Possible(t, op) && !op.OpBulkMark? && !op.OpStaleBulkMark? && !op.OpMark? && !op.OpStaleMark?
    ensures p in Step(t, op, now).0.payments ==> p in t.payments
  {
    if op.OpCreate? {
      LedgerCreate.CreateExtends(
        t, op.expense, op.group, op.createdBy, op.payer, op.total, op.entries, op.debtIds, now);
    }
  }

  lemma StepNewDebt(t: Tables, op: Op, now: Time, d: Id)
    requires Possible(t, op) && d in Step(t, op, now).0.debts && d !in t.debts
    ensures Step(t, op, now).1 == Ok && NewDebtCause(t, Step(t, op, now).0, op, d)
  {
    if op.OpCreate? {
      LedgerCreate.CreatedAnswer(
        t, op.expense, op.group, op.createdBy, op.payer, op.total, op.entries, op.debtIds, now);
      DebtRowsBear(op.expense, op.payer, op.entries, op.debtIds, now, (d, Step(t, op, now).0.debts[d]));
    } else if op.OpBulkMark? || op.OpStaleBulkMark? {
      BulkDebtsStay(t, op, now);
    }
  }

  // ---------------------------------------------------------------- causes over runs

  /** The tables after the first k operations of a run. */
  ghost function At(t: Tables, run: seq<Event>, k: nat): Tables
    requires Legal(t, run) && k <= |run|
  {
    LegalPrefix(t, run, k);
    After(t, run[..k])
  }

  lemma AtNext(t: Tables, run: seq<Event>, k: nat)
    requires Consistent(t) && Legal(t, run) && k < |run|
    ensures Consistent(At(t, run, k)) && Possible(At(t, run, k), run[k].op)
    ensures At(t, run, k + 1) == Step(At(t, run, k), run[k].op, run[k].now).0
  {
    LegalPrefix(t, run, k);
    RunKeepsConsistent(t, run[..k]);
  }

  /** Over every run, a debt changes only by an operation of the user it is reserved for. */
  lemma DebtsChangeByRight(t: Tables, run: seq<Event>, k: nat, d: Id)
    requires Consistent(t) && Legal(t, run) && k < |run| && d in At(t, run, k).debts
    ensures d in At(t, run, k + 1).debts
    ensures At(t, run, k + 1).debts[d] != At(t, run, k).debts[d] ==>
              DebtCause(At(t, run, k), At(t, run, k + 1), run[k].op, d)
  {
    AtNext(t, run, k);
    StepDebtCause(At(t, run, k), run[k].op, run[k].now, d);
  }

  /** Over every run, a payment is confirmed or refused only by its receiver. */
  lemma PaymentsDecidedByReceiver(t: Tables, run: seq<Event>, k: nat, p: Id)
    requires Consistent(t) && Legal(t, run) && k < |run| && p in At(t, run, k).payments
    ensures p in At(t, run, k + 1).payments
    ensures At(t, run, k + 1).payments[p] != At(t, run, k).payments[p] ==>
              PaymentCause(At(t, run, k), At(t, run, k + 1), run[k].op, p)
  {
    AtNext(t, run, k);
    StepPaymentCause(At(t, run, k), run[k].op, run[k].now, p);
  }

  /** Over every run, new payments are what debtors asked for, and new debts are entries of new expenses. */
  lemma RowsAppearByRight(t: Tables, run: seq<Event>, k: nat)
    requires Consistent(t) && Legal(t, run) && k < |run|
    ensures forall p :: p in At(t, run, k + 1).payments && p !in At(t, run, k).payments ==>
              NewPaymentCause(At(t, run, k), At(t, run, k + 1), run[k].op, p)
    ensures forall d :: d in At(t, run, k + 1).debts && d !in At(t, run, k).debts ==>
              NewDebtCause(At(t, run, k), At(t, run, k + 1), run[k].op, d)
  {
    AtNext(t, run, k);
    var (a, b) := (At(t, run, k), At(t, run, k + 1));
    forall p | p in b.payments && p !in a.payments ensures NewPaymentCause(a, b, run[k].op, p) {
      StepNewPayment(a, run[k].op, run[k].now, p);
    }
    forall d | d in b.debts && d !in a.debts ensures NewDebtCause(a, b, run[k].op, d) {
      StepNewDebt(a, run[k].op, run[k].now, d);
    }
  }

  // ---------------------------------------------------------------- the amount last asked

  /** What was last asked of debt d: `asked` at first, then each adjustment of a successful review. */
  ghost function LastAsked(t: Tables, run: seq<Event>, d: Id, asked: int): int
    requires Legal(t, run)
    decreases |run|
  {
    if run == [] then asked
    else
      var (op, (t1, r)) := (run[0].op, Step(t, run[0].op, run[0].now));
      LastAsked(t1, run[1..], d,
                if op.OpReview? && op.debt == d && op.adjusted.Some? && r == Ok then op.adjusted.value else asked)
  }

  /** Over every run, a debt is about the amount last asked, and that is what is paid off. */
  lemma {:induction false} OriginalIsLastAsked(t: Tables, run: seq<Event>, d: Id)
    requires Consistent(t) && Legal(t, run) && d in t.debts
    ensures d in After(t, run).debts
    ensures After(t, run).debts[d].original == LastAsked(t, run, d, t.debts[d].original)
    decreases |run|
  {
    if run == [] {
    } else {
      StepKeepsConsistent(t, run[0].op, run[0].now);
      AskedStep(t, run[0].op, run[0].now, d);
      OriginalIsLastAsked(Step(t, run[0].op, run[0].now).0, run[1..], d);
    }
  }

  lemma AskedStep(t: Tables, op: Op, now: Time, d: Id)
    requires Consistent(t) && Possible(t, op) && d in t.debts
    ensures var (t', r) := Step(t, op, now);
            && d in t'.debts
            && t'.debts[d].original ==
               if op.OpReview? && op.debt == d && op.adjusted.Some? && r == Ok then op.adjusted.value
               else t.debts[d].original
  {
    if op.OpReview? {
      ReviewAnswer(t, op.debt, op.user, op.adjusted, now);
    } else {
      StepDebtCause(t, op, now, d);
    }
  }
}
