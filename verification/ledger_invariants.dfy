/**
 * What every operation keeps. `Consistent` needs no assumption about what the
 * sub-selects of the marking queries saw, so several pending payments per debt are
 * allowed. `SinglePending` is kept when they saw the current payments.
 */
module LedgerInvariants {
  import opened Wrappers
  import opened Sums
  import opened Ledger

  // ---------------------------------------------------------------- the invariants

  /** Status, amounts and timestamps of one debt agree. */
  predicate StatusAgrees(d: Debt) {
    && (d.status == Settled <==> d.remaining == 0)
    && (d.status == PartiallySettled <==> 0 < d.remaining < d.original)
    && (d.acceptedAt.Some? <==> d.status == Accepted || d.status == PartiallySettled || d.status == Settled)
    && (d.rejectedAt.Some? <==> d.status == Rejected)
    && (d.settledAt.Some? <==> d.status == Settled)
  }

  predicate Unpaid(t: Tables, debt: Id) {
    forall p :: p in t.payments ==> t.payments[p].debt != debt
  }

  ghost predicate DebtOk(t: Tables, id: Id)
    requires id in t.debts
  {
    var d := t.debts[id];
    && 0 <= d.remaining <= d.original && 0 < d.original <= MAX_AMOUNT
    && d.debtor != d.creditor && d.expense in t.expenses
    && StatusAgrees(d)
    && d.remaining + Paid(t.payments, id, Confirmed) == d.original
    && (d.status == Pending || d.status == Rejected ==> Unpaid(t, id))
  }

  predicate PaymentOk(t: Tables, id: Id)
    requires id in t.payments
  {
    var p := t.payments[id];
    && p.debt in t.debts && p.paidBy == t.debts[p.debt].debtor && p.receivedBy == t.debts[p.debt].creditor
    && 0 < p.amount <= MAX_AMOUNT
    && (p.confirmedAt.Some? <==> p.status == Confirmed)
    && (p.rejectedAt.Some? <==> p.status == Refused)
  }

  ghost predicate Consistent(t: Tables) {
    && (forall d :: d in t.debts ==> DebtOk(t, d))
    && (forall p :: p in t.payments ==> PaymentOk(t, p))
    && (forall key :: key in t.participants ==> key.0 in t.expenses)
  }

  predicate PendingOk(t: Tables, id: Id)
    requires id in t.payments
  {
    var p := t.payments[id];
    p.status == PendingConfirmation ==>
      && p.debt in t.debts && t.debts[p.debt].Active() && p.amount <= t.debts[p.debt].remaining
      && forall q :: q in t.payments && t.payments[q].debt == p.debt && t.payments[q].status == PendingConfirmation ==>
           q == id
  }

  /** At most one pending payment per debt; it fits a debt that can still be paid. */
  predicate SinglePending(t: Tables) {
    forall p :: p in t.payments ==> PendingOk(t, p)
  }

  // ---------------------------------------------------------------- sums of payments

  lemma PaidUpdate(payments: map<Id, Payment>, id: Id, p: Payment, debt: Id, status: PaymentStatus)
    ensures Paid(payments[id := p], debt, status) ==
            Paid(payments, debt, status) + Share(p, debt, status)
            - (if id in payments then Share(payments[id], debt, status) else 0)
  {
    var f, g := ShareOf(payments, debt, status), ShareOf(payments[id := p], debt, status);
    if id in payments {
      assert payments[id := p].Keys == payments.Keys;
      SumChange(payments.Keys, id, f, g);
    } else {
      assert payments[id := p].Keys == payments.Keys + {id};
      SumInsert(payments.Keys, id, g);
      SumCongruence(payments.Keys, f, g);
    }
  }

  lemma PaidBounds(t: Tables, debt: Id, status: PaymentStatus)
    requires forall p :: p in t.payments ==> t.payments[p].amount > 0
    ensures Paid(t.payments, debt, status) >= 0
    ensures Paid(t.payments, debt, status) == 0 <==>
            forall p :: p in t.payments ==> !(t.payments[p].debt == debt && t.payments[p].status == status)
  {
    var f := ShareOf(t.payments, debt, status);
    SumBounds(t.payments.Keys, f);
    forall p | p in t.payments
      ensures f(p) == 0 <==> !(t.payments[p].debt == debt && t.payments[p].status == status) {
    }
  }

  /** With positive payments, "the pending sum is 0" and "no pending row" are the same. */
  lemma PendingSumZero(t: Tables, debt: Id)
    requires Consistent(t)
    ensures Paid(t.payments, debt, PendingConfirmation) >= 0
    ensures Paid(t.payments, debt, PendingConfirmation) == 0 <==> !HasPending(t, debt)
  {
    forall p | p in t.payments ensures t.payments[p].amount > 0 {
      assert PaymentOk(t, p);
    }
    PaidBounds(t, debt, PendingConfirmation);
  }

  // ---------------------------------------------------------------- one row at a time

  /** Replacing a debt row and leaving its payments alone. */
  lemma KeepUpdateDebt(t: Tables, id: Id, d: Debt)
    requires Consistent(t) && id in t.debts
    requires d.debtor == t.debts[id].debtor && d.creditor == t.debts[id].creditor
    requires DebtOk(t.(debts := t.debts[id := d]), id)
    ensures Consistent(t.(debts := t.debts[id := d]))
  {
    var t' := t.(debts := t.debts[id := d]);
    forall x | x in t'.debts && x != id ensures DebtOk(t', x) {
      OtherDebtOk(t, id, d, x);
    }
    forall p | p in t'.payments ensures PaymentOk(t', p) {
      assert PaymentOk(t, p);
    }
  }

  lemma OtherDebtOk(t: Tables, id: Id, d: Debt, x: Id)
    requires x in t.debts && DebtOk(t, x) && x != id
    ensures DebtOk(t.(debts := t.debts[id := d]), x)
  {
  }

  lemma DebtOkAfterInsert(t: Tables, id: Id, p: Payment, x: Id)
    requires x in t.debts && DebtOk(t, x) && id !in t.payments && p.status != Confirmed
    requires p.debt in t.debts && t.debts[p.debt].Active()
    ensures DebtOk(t.(payments := t.payments[id := p]), x)
  {
    PaidUpdate(t.payments, id, p, x, Confirmed);
  }

  lemma PaymentOkAfterInsert(t: Tables, id: Id, p: Payment, q: Id)
    requires q in t.payments && q != id && PaymentOk(t, q)
    ensures PaymentOk(t.(payments := t.payments[id := p]), q)
  {
  }

  lemma InsertedPaymentOk(t: Tables, id: Id, p: Payment)
    requires CanInsertPayment(t, id, p)
    requires p == NewPayment(p.debt, t.debts[p.debt].debtor, t.debts[p.debt].creditor, p.amount)
    ensures PaymentOk(t.(payments := t.payments[id := p]), id)
  {
  }

  lemma DebtsOkAfterInsert(t: Tables, t': Tables, id: Id, p: Payment)
    requires (forall d :: d in t.debts ==> DebtOk(t, d)) && t' == t.(payments := t.payments[id := p])
    requires id !in t.payments && p.status != Confirmed && p.debt in t.debts && t.debts[p.debt].Active()
    ensures forall d :: d in t'.debts ==> DebtOk(t', d)
  {
    forall d | d in t'.debts ensures DebtOk(t', d) {
      DebtOkAfterInsert(t, id, p, d);
    }
  }

  lemma PaymentsOkAfterInsert(t: Tables, t': Tables, id: Id, p: Payment)
    requires (forall q :: q in t.payments ==> PaymentOk(t, q)) && t' == t.(payments := t.payments[id := p])
    requires CanInsertPayment(t, id, p)
    requires p == NewPayment(p.debt, t.debts[p.debt].debtor, t.debts[p.debt].creditor, p.amount)
    ensures forall q :: q in t'.payments ==> PaymentOk(t', q)
  {
    forall q | q in t'.payments ensures PaymentOk(t', q) {
      if q == id {
        InsertedPaymentOk(t, id, p);
      } else {
        PaymentOkAfterInsert(t, id, p, q);
      }
    }
  }

  /** A new pending payment on a debt that has been accepted. */
  lemma KeepInsertPayment(t: Tables, id: Id, p: Payment)
    requires Consistent(t) && CanInsertPayment(t, id, p)
    requires p == NewPayment(p.debt, t.debts[p.debt].debtor, t.debts[p.debt].creditor, p.amount)
    requires t.debts[p.debt].Active()
    ensures Consistent(t.(payments := t.payments[id := p]))
  {
    var t' := t.(payments := t.payments[id := p]);
    DebtsOkAfterInsert(t, t', id, p);
    PaymentsOkAfterInsert(t, t', id, p);
  }

  lemma KeepSingleInsert(t: Tables, id: Id, p: Payment)
    requires SinglePending(t) && CanInsertPayment(t, id, p)
    requires t.debts[p.debt].Active() && p.amount <= t.debts[p.debt].remaining
    requires !HasPending(t, p.debt)
    ensures SinglePending(t.(payments := t.payments[id := p]))
  {
    var t' := t.(payments := t.payments[id := p]);
    forall q | q in t'.payments ensures PendingOk(t', q) {
      if q != id {
        assert PendingOk(t, q);
      }
    }
  }

  lemma NewDebtOk(t: Tables, id: Id, d: Debt, now: Time)
    requires CanInsertDebt(t, id, d) && Unpaid(t, id)
    requires d == NewDebt(d.expense, d.debtor, d.creditor, d.original, now)
    ensures DebtOk(t.(debts := t.debts[id := d]), id)
  {
    SumBounds(t.payments.Keys, ShareOf(t.payments, id, Confirmed));
    assert StatusAgrees(d);
  }

  /** A new debt: nothing can refer to it yet. */
  lemma KeepInsertDebt(t: Tables, id: Id, d: Debt, now: Time)
    requires Consistent(t) && CanInsertDebt(t, id, d)
    requires d == NewDebt(d.expense, d.debtor, d.creditor, d.original, now)
    ensures Consistent(t.(debts := t.debts[id := d]))
  {
    var t' := t.(debts := t.debts[id := d]);
    assert Unpaid(t, id) by {
      forall p | p in t.payments ensures t.payments[p].debt != id {
        assert PaymentOk(t, p);
      }
    }
    NewDebtOk(t, id, d, now);
    forall x | x in t'.debts && x != id ensures DebtOk(t', x) {
      assert DebtOk(t, x);
    }
    forall p | p in t'.payments ensures PaymentOk(t', p) {
      assert PaymentOk(t, p);
    }
  }

  lemma KeepSingleDebts(t: Tables, t': Tables)
    requires SinglePending(t) && t'.payments == t.payments
    requires forall d :: d in t.debts && t.debts[d].Active() ==> d in t'.debts && t'.debts[d] == t.debts[d]
    ensures SinglePending(t')
  {
    forall p | p in t'.payments ensures PendingOk(t', p) {
      assert PendingOk(t, p);
    }
  }

  // ---------------------------------------------------------------- one operation at a time

  lemma KeepAccept(t: Tables, id: Id, user: Id, now: Time)
    requires Consistent(t)
    ensures Consistent(Accept(t, id, user, now).0)
  {
    if Accept(t, id, user, now).1 == Ok {
      var t' := Accept(t, id, user, now).0;
      assert DebtOk(t, id);
      assert DebtOk(t', id);
      KeepUpdateDebt(t, id, t'.debts[id]);
    }
  }

  lemma KeepRejectDebt(t: Tables, id: Id, user: Id, now: Time)
    requires Consistent(t)
    ensures Consistent(RejectDebt(t, id, user, now).0)
  {
    if RejectDebt(t, id, user, now).1 == Ok {
      var t' := RejectDebt(t, id, user, now).0;
      assert DebtOk(t, id);
      assert DebtOk(t', id);
      KeepUpdateDebt(t, id, t'.debts[id]);
    }
  }

  /** Resending resets both amounts, which is safe because a rejected debt has no payments. */
  lemma KeepReview(t: Tables, id: Id, user: Id, amount: Option<int>, now: Time)
    requires Consistent(t)
    ensures Consistent(ReviewRejected(t, id, user, amount, now).0)
  {
    if ReviewRejected(t, id, user, amount, now).1 == Ok {
      assert DebtOk(t, id);
      ResentOk(t, id, Resent(t.debts[id], amount, now), amount, now);
      KeepUpdateDebt(t, id, Resent(t.debts[id], amount, now));
    }
  }

  lemma ResentOk(t: Tables, id: Id, d: Debt, amount: Option<int>, now: Time)
    requires id in t.debts && DebtOk(t, id) && t.debts[id].status == Rejected
    requires d == Resent(t.debts[id], amount, now) && AmountAllowed(amount)
    ensures DebtOk(t.(debts := t.debts[id := d]), id)
  {
    SumBounds(t.payments.Keys, ShareOf(t.payments, id, Confirmed));
    assert StatusAgrees(d);
  }

  /** Accepting, rejecting and resending apply to debts that have no pending payment. */
  lemma KeepDebtOpsSingle(t: Tables, id: Id, user: Id, amount: Option<int>, now: Time)
    requires SinglePending(t)
    ensures SinglePending(Accept(t, id, user, now).0)
    ensures SinglePending(RejectDebt(t, id, user, now).0)
    ensures SinglePending(ReviewRejected(t, id, user, amount, now).0)
  {
    KeepSingleDebts(t, Accept(t, id, user, now).0);
    KeepSingleDebts(t, RejectDebt(t, id, user, now).0);
    KeepSingleDebts(t, ReviewRejected(t, id, user, amount, now).0);
  }

  lemma KeepMark(t: Tables, seen: nat, debt: Id, user: Id, amount: int, id: Id)
    requires Consistent(t)
    ensures Consistent(MarkSeeing(t, seen, debt, user, amount, id).0)
  {
    if MarkSeeing(t, seen, debt, user, amount, id).1 == Ok {
      KeepInsertPayment(t, id, NewPayment(debt, user, t.debts[debt].creditor, amount));
    }
  }

  /** The pending sum that Mark sees need only be positive when there is a pending payment. */
  lemma KeepMarkSingle(t: Tables, seen: nat, debt: Id, user: Id, amount: int, id: Id)
    requires SinglePending(t) && (HasPending(t, debt) ==> seen > 0)
    ensures SinglePending(MarkSeeing(t, seen, debt, user, amount, id).0)
  {
    if MarkSeeing(t, seen, debt, user, amount, id).1 == Ok {
      KeepSingleInsert(t, id, NewPayment(debt, user, t.debts[debt].creditor, amount));
    }
  }

  /** A mark that goes through keeps pending payments single exactly when there was none. */
  lemma MarkKeepsSingleIff(t: Tables, seen: nat, debt: Id, user: Id, amount: int, id: Id)
    requires SinglePending(t) && MarkSeeing(t, seen, debt, user, amount, id).1 == Ok
    ensures SinglePending(MarkSeeing(t, seen, debt, user, amount, id).0) <==> !HasPending(t, debt)
  {
    var t' := MarkSeeing(t, seen, debt, user, amount, id).0;
    if HasPending(t, debt) {
      var q :| q in t.payments && t.payments[q].debt == debt && t.payments[q].status == PendingConfirmation;
      assert t'.payments[q] == t.payments[q] && q != id && !PendingOk(t', id);
    } else {
      KeepSingleInsert(t, id, NewPayment(debt, user, t.debts[debt].creditor, amount));
    }
  }

  /** Only the row of one payment, and perhaps that of its debt, differs. */
  predicate OnlyDecided(t: Tables, t': Tables, id: Id) {
    && id in t.payments && t.payments[id].debt in t.debts
    && t'.expenses == t.expenses && t'.participants == t.participants
    && t'.debts.Keys == t.debts.Keys && t'.payments.Keys == t.payments.Keys
    && t'.payments[id].debt == t.payments[id].debt
    && (forall q :: q in t.payments && q != id ==> t'.payments[q] == t.payments[q])
    && (forall d :: d in t.debts && d != t.payments[id].debt ==> t'.debts[d] == t.debts[d])
    && t'.debts[t.payments[id].debt].debtor == t.debts[t.payments[id].debt].debtor
    && t'.debts[t.payments[id].debt].creditor == t.debts[t.payments[id].debt].creditor
  }

  lemma PaidAfterDecision(t: Tables, t': Tables, id: Id, debt: Id, status: PaymentStatus)
    requires OnlyDecided(t, t', id)
    ensures Paid(t'.payments, debt, status) ==
            Paid(t.payments, debt, status) + Share(t'.payments[id], debt, status) - Share(t.payments[id], debt, status)
  {
    assert t'.payments == t.payments[id := t'.payments[id]];
    PaidUpdate(t.payments, id, t'.payments[id], debt, status);
  }

  lemma DebtOkElsewhere(t: Tables, t': Tables, id: Id, x: Id)
    requires OnlyDecided(t, t', id) && x in t.debts && x != t.payments[id].debt && DebtOk(t, x)
    ensures DebtOk(t', x)
  {
    PaidAfterDecision(t, t', id, x, Confirmed);
    assert t'.debts[x] == t.debts[x];
    assert Unpaid(t, x) ==> Unpaid(t', x);
  }

  lemma PaymentOkElsewhere(t: Tables, t': Tables, id: Id, q: Id)
    requires OnlyDecided(t, t', id) && q in t.payments && q != id && PaymentOk(t, q)
    ensures PaymentOk(t', q)
  {
    assert t.payments[q].debt != t.payments[id].debt ==> t'.debts[t.payments[q].debt] == t.debts[t.payments[q].debt];
  }

  /** Deciding a payment touches the account of its own debt only. */
  lemma KeepDecided(t: Tables, t': Tables, id: Id)
    requires Consistent(t) && OnlyDecided(t, t', id)
    requires PaymentOk(t', id) && DebtOk(t', t.payments[id].debt)
    ensures Consistent(t')
  {
    forall x | x in t'.debts && x != t.payments[id].debt ensures DebtOk(t', x) {
      DebtOkElsewhere(t, t', id, x);
    }
    forall q | q in t'.payments && q != id ensures PaymentOk(t', q) {
      PaymentOkElsewhere(t, t', id, q);
    }
  }

  lemma ReducedAgrees(d: Debt, amount: int, now: Time)
    requires StatusAgrees(d) && d.Active() && d.remaining <= d.original && 0 < amount <= d.remaining
    ensures StatusAgrees(Reduced(d, amount, now))
  {
  }

  lemma ConfirmDecides(t: Tables, id: Id, user: Id, now: Time)
    requires Confirm(t, id, user, now).1 == Ok && PaymentOk(t, id)
    ensures OnlyDecided(t, Confirm(t, id, user, now).0, id)
    ensures PaymentOk(Confirm(t, id, user, now).0, id)
  {
    var t', debt := Confirm(t, id, user, now).0, t.payments[id].debt;
    assert t'.debts == t.debts[debt := Reduced(t.debts[debt], t.payments[id].amount, now)];
  }

  lemma ConfirmReduces(t: Tables, id: Id, user: Id, now: Time)
    requires Confirm(t, id, user, now).1 == Ok && PaymentOk(t, id) && DebtOk(t, t.payments[id].debt)
    requires OnlyDecided(t, Confirm(t, id, user, now).0, id)
    ensures DebtOk(Confirm(t, id, user, now).0, t.payments[id].debt)
  {
    var t', debt := Confirm(t, id, user, now).0, t.payments[id].debt;
    PaidAfterDecision(t, t', id, debt, Confirmed);
    ReducedAgrees(t.debts[debt], t.payments[id].amount, now);
  }

  lemma ConfirmRows(t: Tables, id: Id, user: Id, now: Time)
    requires Confirm(t, id, user, now).1 == Ok && PaymentOk(t, id) && DebtOk(t, t.payments[id].debt)
    ensures var t' := Confirm(t, id, user, now).0;
            OnlyDecided(t, t', id) && PaymentOk(t', id) && DebtOk(t', t.payments[id].debt)
  {
    ConfirmDecides(t, id, user, now);
    ConfirmReduces(t, id, user, now);
  }

  lemma KeepConfirm(t: Tables, id: Id, user: Id, now: Time)
    requires Consistent(t)
    ensures Consistent(Confirm(t, id, user, now).0)
  {
    if Confirm(t, id, user, now).1 == Ok {
      ConfirmRows(t, id, user, now);
      KeepDecided(t, Confirm(t, id, user, now).0, id);
    }
  }

  lemma RejectPaymentDecides(t: Tables, id: Id, user: Id, now: Time)
    requires RejectPayment(t, id, user, now).1 == Ok && PaymentOk(t, id)
    ensures OnlyDecided(t, RejectPayment(t, id, user, now).0, id)
    ensures PaymentOk(RejectPayment(t, id, user, now).0, id)
  {
  }

  lemma RejectPaymentKeepsDebt(t: Tables, id: Id, user: Id, now: Time)
    requires RejectPayment(t, id, user, now).1 == Ok && PaymentOk(t, id) && DebtOk(t, t.payments[id].debt)
    requires OnlyDecided(t, RejectPayment(t, id, user, now).0, id)
    ensures DebtOk(RejectPayment(t, id, user, now).0, t.payments[id].debt)
  {
    PaidAfterDecision(t, RejectPayment(t, id, user, now).0, id, t.payments[id].debt, Confirmed);
  }

  lemma KeepRejectPayment(t: Tables, id: Id, user: Id, now: Time)
    requires Consistent(t)
    ensures Consistent(RejectPayment(t, id, user, now).0)
  {
    if RejectPayment(t, id, user, now).1 == Ok {
      assert PaymentOk(t, id) && DebtOk(t, t.payments[id].debt);
      RejectPaymentDecides(t, id, user, now);
      RejectPaymentKeepsDebt(t, id, user, now);
      KeepDecided(t, RejectPayment(t, id, user, now).0, id);
    }
  }

  /** Once the only pending payment of a debt is decided, the debt row may change as well. */
  lemma KeepSingleDecided(t: Tables, t': Tables, id: Id)
    requires SinglePending(t) && OnlyDecided(t, t', id)
    requires t.payments[id].status == PendingConfirmation && t'.payments[id].status != PendingConfirmation
    ensures SinglePending(t')
  {
    assert PendingOk(t, id);
    forall q | q in t'.payments ensures PendingOk(t', q) {
      assert PendingOk(t, q);
    }
  }

  lemma KeepReviewedSingle(t: Tables, id: Id, user: Id, now: Time)
    requires SinglePending(t)
    ensures SinglePending(Confirm(t, id, user, now).0)
    ensures SinglePending(RejectPayment(t, id, user, now).0)
  {
    if Confirm(t, id, user, now).1 == Ok {
      KeepSingleDecided(t, Confirm(t, id, user, now).0, id);
    }
    if RejectPayment(t, id, user, now).1 == Ok {
      KeepSingleDecided(t, RejectPayment(t, id, user, now).0, id);
    }
  }
}
