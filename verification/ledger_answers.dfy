/**
 * What each operation of the ledger answers in every case, and what it leaves behind, in
 * terms of the rows it finds.
 */
module LedgerAnswers {
  import opened Wrappers
  import opened Ledger
  import opened LedgerInvariants
  import LedgerBulk
  import LedgerCreate

  // ---------------------------------------------------------------- frames

  /** Debt id is the only row that differs, and its parties, expense and creation stay. */
  predicate OnlyDebt(t: Tables, t': Tables, id: Id) {
    && t'.members == t.members && t'.expenses == t.expenses && t'.participants == t.participants
    && t'.payments == t.payments && t'.debts.Keys == t.debts.Keys && id in t.debts
    && (forall d :: d in t.debts && d != id ==> t'.debts[d] == t.debts[d])
    && SameTerms(t.debts[id], t'.debts[id])
  }

  predicate SameTerms(x: Debt, y: Debt) {
    y.expense == x.expense && y.debtor == x.debtor && y.creditor == x.creditor && y.createdAt == x.createdAt
  }

  predicate SameAmounts(x: Debt, y: Debt) { y.original == x.original && y.remaining == x.remaining }

  /** Payment id is new, and nothing else differs. */
  predicate OnlyNewPayment(t: Tables, t': Tables, id: Id) {
    && t'.members == t.members && t'.expenses == t.expenses && t'.participants == t.participants && t'.debts == t.debts
    && id !in t.payments && t'.payments.Keys == t.payments.Keys + {id}
    && (forall p :: p in t.payments ==> t'.payments[p] == t.payments[p])
  }

  /** Payment id is the only payment that differs, and its terms stay. */
  predicate OnlyPayment(t: Tables, t': Tables, id: Id) {
    && t'.members == t.members && t'.expenses == t.expenses && t'.participants == t.participants
    && t'.payments.Keys == t.payments.Keys && id in t.payments
    && (forall p :: p in t.payments && p != id ==> t'.payments[p] == t.payments[p])
    && var (x, y) := (t.payments[id], t'.payments[id]);
       y.debt == x.debt && y.paidBy == x.paidBy && y.receivedBy == x.receivedBy && y.amount == x.amount
  }

  /** The user is an owner of the group of the debt's expense. */
  predicate OwnsGroupOf(t: Tables, debt: Id, user: Id)
    requires debt in t.debts
  {
    var e := t.debts[debt].expense;
    e in t.expenses && (t.expenses[e].group, user) in t.members && t.members[(t.expenses[e].group, user)] == Owner
  }

  // ---------------------------------------------------------------- debts

  /** Why an operation of the debtor on a pending debt is refused. */
  predicate DebtorAnswer(t: Tables, id: Id, user: Id, r: Outcome) {
    && (r == Ok <==> id in t.debts && t.debts[id].debtor == user && t.debts[id].status == DebtStatus.Pending)
    && (r == Err(NotFound) <==> id !in t.debts)
    && (r == Err(Forbidden) <==> id in t.debts && t.debts[id].debtor != user)
    && (r == Err(InvalidState) <==>
         id in t.debts && t.debts[id].debtor == user && t.debts[id].status != DebtStatus.Pending)
  }

  lemma AcceptAnswer(t: Tables, id: Id, user: Id, now: Time)
    ensures var (t', r) := Accept(t, id, user, now);
            && DebtorAnswer(t, id, user, r)
            && (r != Ok ==> t' == t)
            && (r == Ok ==>
                 && OnlyDebt(t, t', id) && SameAmounts(t.debts[id], t'.debts[id])
                 && var (x, y) := (t.debts[id], t'.debts[id]);
                    && y.status == Accepted && y.acceptedAt == Some(now) && y.updatedAt == now
                    && y.rejectedAt == x.rejectedAt && y.settledAt == x.settledAt)
  {
  }

  lemma RejectDebtAnswer(t: Tables, id: Id, user: Id, now: Time)
    ensures var (t', r) := RejectDebt(t, id, user, now);
            && DebtorAnswer(t, id, user, r)
            && (r != Ok ==> t' == t)
            && (r == Ok ==>
                 && OnlyDebt(t, t', id) && SameAmounts(t.debts[id], t'.debts[id])
                 && var (x, y) := (t.debts[id], t'.debts[id]);
                    && y.status == Rejected && y.rejectedAt == Some(now) && y.updatedAt == now
                    && y.acceptedAt == x.acceptedAt && y.settledAt == x.settledAt)
  {
  }

  /** A resent debt asks for the owner's amount, or for what it asked for before. */
  lemma ReviewAnswer(t: Tables, id: Id, user: Id, amount: Option<int>, now: Time)
    ensures var (t', r) := ReviewRejected(t, id, user, amount, now);
            && (r == Err(NotFound) <==> id !in t.debts)
            && (r == Err(Forbidden) <==> id in t.debts && !OwnsGroupOf(t, id, user))
            && (r == Err(InvalidState) <==>
                 id in t.debts && OwnsGroupOf(t, id, user) && t.debts[id].status != Rejected)
            && (r == Err(Database) <==>
                 && id in t.debts && OwnsGroupOf(t, id, user) && t.debts[id].status == Rejected
                 && amount.Some? && !(0 < amount.value <= MAX_AMOUNT))
            && (r == Ok <==>
                 && id in t.debts && OwnsGroupOf(t, id, user) && t.debts[id].status == Rejected
                 && (amount.Some? ==> 0 < amount.value <= MAX_AMOUNT))
            && (r != Ok ==> t' == t)
            && (r == Ok ==>
                 && OnlyDebt(t, t', id)
                 && var (x, y) := (t.debts[id], t'.debts[id]);
                    && (amount == None ==> y.original == y.remaining == x.original)
                    && (amount.Some? ==> y.original == y.remaining == amount.value)
                    && y.status == DebtStatus.Pending && y.updatedAt == now
                    && y.acceptedAt == None && y.rejectedAt == None && y.settledAt == None)
  {
  }

  // ---------------------------------------------------------------- payments

  predicate Payer(t: Tables, debt: Id, user: Id) { debt in t.debts && t.debts[debt].debtor == user }

  predicate CanBePaid(t: Tables, debt: Id) {
    debt in t.debts && (t.debts[debt].status == Accepted || t.debts[debt].status == PartiallySettled)
  }

  /**
   * Each answer of a mark that sees a pending sum, in a consistent ledger. The errors are
   * listed in the order in which they take precedence.
   */
  lemma MarkAnswer(t: Tables, seen: nat, debt: Id, user: Id, amount: int, id: Id)
    requires Consistent(t) && seen <= MAX_AMOUNT
    ensures var (t', r) := MarkSeeing(t, seen, debt, user, amount, id);
            && (r == Err(NotFound) <==> debt !in t.debts)
            && (r == Err(Forbidden) <==> debt in t.debts && t.debts[debt].debtor != user)
            && (r == Err(InvalidDebtState) <==> Payer(t, debt, user) && !CanBePaid(t, debt))
            && (r == Err(PendingPaymentExists) <==> Payer(t, debt, user) && CanBePaid(t, debt) && seen > 0)
            && (r == Err(AmountExceedsRemaining) <==>
                 Payer(t, debt, user) && CanBePaid(t, debt) && seen == 0 && amount > t.debts[debt].remaining)
            && (r == Err(Database) <==>
                 && Payer(t, debt, user) && CanBePaid(t, debt) && seen == 0 && amount <= t.debts[debt].remaining
                 && (amount <= 0 || id in t.payments))
            && (r == Ok <==>
                 && Payer(t, debt, user) && CanBePaid(t, debt) && seen == 0
                 && 0 < amount <= t.debts[debt].remaining && id !in t.payments)
            && (r != Ok ==> t' == t)
  {
    assert debt in t.debts ==> DebtOk(t, debt);
  }

  /** A mark leaves one new pending payment of its amount, from the debtor to the creditor. */
  lemma MarkEffect(t: Tables, seen: int, debt: Id, user: Id, amount: int, id: Id)
    requires MarkSeeing(t, seen, debt, user, amount, id).1 == Ok
    ensures var t' := MarkSeeing(t, seen, debt, user, amount, id).0;
            && OnlyNewPayment(t, t', id) && debt in t.debts
            && var p := t'.payments[id];
               && p.debt == debt && p.amount == amount && p.status == PendingConfirmation
               && p.paidBy == user == t.debts[debt].debtor && p.receivedBy == t.debts[debt].creditor
               && p.confirmedAt == None && p.rejectedAt == None
  {
  }

  /** A pending sum that does not fit bigint fails whatever else holds, but for a missing debt. */
  lemma MarkOverflow(t: Tables, seen: nat, debt: Id, user: Id, amount: int, id: Id)
    requires seen > MAX_AMOUNT
    ensures MarkSeeing(t, seen, debt, user, amount, id) ==
            (t, Err(if debt in t.debts then Database else NotFound))
  {
  }

  predicate Receiver(t: Tables, payment: Id, user: Id) {
    payment in t.payments && t.payments[payment].receivedBy == user
  }

  predicate IsPending(t: Tables, payment: Id) {
    payment in t.payments && t.payments[payment].status == PendingConfirmation
  }

  /**
   * Each answer of a confirmation: only the receiver can confirm, only a pending payment,
   * only on a debt that can be paid, and only up to what remains.
   */
  lemma ConfirmAnswer(t: Tables, id: Id, user: Id, now: Time)
    requires Consistent(t)
    ensures var (t', r) := Confirm(t, id, user, now);
            && (r == Err(NotFound) <==> id !in t.payments)
            && (r == Err(Forbidden) <==> id in t.payments && t.payments[id].receivedBy != user)
            && (r == Err(InvalidPaymentState) <==> Receiver(t, id, user) && !IsPending(t, id))
            && (r == Err(InvalidDebtState) <==>
                 Receiver(t, id, user) && IsPending(t, id) && !CanBePaid(t, t.payments[id].debt))
            && (r == Err(AmountExceedsRemaining) <==>
                 && Receiver(t, id, user) && IsPending(t, id) && CanBePaid(t, t.payments[id].debt)
                 && t.payments[id].amount > t.debts[t.payments[id].debt].remaining)
            && (r == Ok <==>
                 && Receiver(t, id, user) && IsPending(t, id) && CanBePaid(t, t.payments[id].debt)
                 && t.payments[id].amount <= t.debts[t.payments[id].debt].remaining)
            && (r != Ok ==> t' == t)
  {
    assert id in t.payments ==> PaymentOk(t, id);
  }

  /** A confirmation takes its amount off its debt, and off no other. */
  lemma ConfirmEffect(t: Tables, id: Id, user: Id, now: Time)
    requires Confirm(t, id, user, now).1 == Ok
    ensures var t' := Confirm(t, id, user, now).0;
            && OnlyPayment(t, t', id) && t.payments[id].debt in t.debts
            && t'.payments[id].status == Confirmed && t'.payments[id].confirmedAt == Some(now)
            && t'.payments[id].rejectedAt == t.payments[id].rejectedAt
            && OnlyDebt(t.(payments := map[]), t'.(payments := map[]), t.payments[id].debt)
            && var (debt, amount) := (t.payments[id].debt, t.payments[id].amount);
               var (x, y) := (t.debts[debt], t'.debts[debt]);
               && y.original == x.original && y.remaining == x.remaining - amount && y.updatedAt == now
               && y.acceptedAt == x.acceptedAt && y.rejectedAt == x.rejectedAt
               && (x.remaining == amount ==> y.status == Settled && y.settledAt == Some(now))
               && (x.remaining != amount ==> y.status == PartiallySettled && y.settledAt == x.settledAt)
  {
  }

  lemma RejectPaymentAnswer(t: Tables, id: Id, user: Id, now: Time)
    requires Consistent(t)
    ensures var (t', r) := RejectPayment(t, id, user, now);
            && (r == Err(NotFound) <==> id !in t.payments)
            && (r == Err(Forbidden) <==> id in t.payments && t.payments[id].receivedBy != user)
            && (r == Err(InvalidPaymentState) <==> Receiver(t, id, user) && !IsPending(t, id))
            && (r == Ok <==> Receiver(t, id, user) && IsPending(t, id))
            && (r != Ok ==> t' == t)
  {
    assert id in t.payments ==> PaymentOk(t, id);
  }

  /** A refusal changes the payment and no debt. */
  lemma RejectPaymentEffect(t: Tables, id: Id, user: Id, now: Time)
    requires RejectPayment(t, id, user, now).1 == Ok
    ensures var t' := RejectPayment(t, id, user, now).0;
            && OnlyPayment(t, t', id) && t'.debts == t.debts
            && t'.payments[id].status == Refused && t'.payments[id].rejectedAt == Some(now)
            && t'.payments[id].confirmedAt == t.payments[id].confirmedAt
  {
  }

  // ---------------------------------------------------------------- bulk payments

  /** The bulk query returns the unsettled debts from the user to the receiver without a pending payment. */
  lemma BulkEligible(t: Tables, rows: seq<Id>, user: Id, receiver: Id)
    requires BulkRows(t, rows, user, receiver)
    ensures forall d :: d in rows <==>
              && d in t.debts && t.debts[d].debtor == user && t.debts[d].creditor == receiver
              && t.debts[d].status in {Accepted, PartiallySettled} && t.debts[d].remaining > 0
              && forall p :: p in t.payments && t.payments[p].debt == d ==>
                   t.payments[p].status in {Confirmed, Refused}
    ensures forall i, j :: 0 <= i < j < |rows| ==> rows[i] != rows[j]
  {
  }

  /** Debts that were touched longest ago come first; then the older ones; then by id. */
  lemma BulkOrder(t: Tables, rows: seq<Id>, user: Id, receiver: Id, i: nat, j: nat)
    requires PayableRows(t, rows, user, receiver) && i < j < |rows|
    ensures rows[i] in t.debts && rows[j] in t.debts
    ensures var (x, y) := (t.debts[rows[i]], t.debts[rows[j]]);
            && x.updatedAt <= y.updatedAt
            && (x.updatedAt == y.updatedAt ==> x.createdAt <= y.createdAt)
            && (x.updatedAt == y.updatedAt && x.createdAt == y.createdAt ==> rows[i] < rows[j])
  {
  }

  /** An eligible debt that was touched before one that is paid is paid in full. */
  lemma OldestPaidFirst(t: Tables, rows: seq<Id>, user: Id, receiver: Id, amount: nat, older: Id, j: nat)
    requires BulkRows(t, rows, user, receiver) && amount <= TotalAvailable(t, rows)
    requires j < |Allocate(t, rows, amount)| && older in t.debts && Allocate(t, rows, amount)[j].debt in t.debts
    requires Payable(t, older, user, receiver) && !HasPending(t, older)
    requires t.debts[older].updatedAt < t.debts[Allocate(t, rows, amount)[j].debt].updatedAt
    ensures exists i: nat :: i < j && Allocate(t, rows, amount)[i] == Part(older, t.debts[older].remaining)
  {
    var parts := Allocate(t, rows, amount);
    assert LedgerBulk.Owing(t, rows);
    LedgerBulk.AllocateIsGreedy(t, rows, amount);
    assert older in rows;
    var i: nat :| i < |rows| && rows[i] == older;
    if j < i {
      BulkOrder(t, rows, user, receiver, j, i);
    }
    assert i != j;
    assert parts[i] == Part(older, t.debts[older].remaining);
  }

  /** The wrapped sum is the one int64 value that is congruent to the true one. */
  lemma WrapIsCongruent(x: int)
    ensures -MAX_AMOUNT - 1 <= Wrap64(x) <= MAX_AMOUNT
    ensures exists k :: x == Wrap64(x) + k * 0x1_0000_0000_0000_0000
  {
    var k := (x + 0x8000_0000_0000_0000) / 0x1_0000_0000_0000_0000;
    assert x == Wrap64(x) + k * 0x1_0000_0000_0000_0000;
  }

  // ---------------------------------------------------------------- expense creation

  predicate InGroup(t: Tables, group: Id, user: Id) { (group, user) in t.members }

  predicate AllInGroup(t: Tables, group: Id, entries: seq<Entry>) {
    forall i :: 0 <= i < |entries| ==> InGroup(t, group, entries[i].user)
  }

  /** Each answer of an expense creation. */
  lemma CreateAnswer(t: Tables, id: Id, group: Id, createdBy: Id, payer: Id, total: int,
                     entries: seq<Entry>, ids: seq<Id>, now: Time)
    requires |entries| <= |ids| && Consistent(t) && LedgerCreate.PayerTextsAgree(entries, payer)
    ensures var (t', r) := CreateExpense(t, id, group, createdBy, payer, total, entries, ids, now);
            && (r == Err(Forbidden) <==> !InGroup(t, group, createdBy))
            && (r == Err(PayerNotMember) <==> InGroup(t, group, createdBy) && !InGroup(t, group, payer))
            && (r == Err(ParticipantNotMember) <==>
                 InGroup(t, group, createdBy) && InGroup(t, group, payer) && !AllInGroup(t, group, entries))
            && (r == Ok <==>
                 && InGroup(t, group, createdBy) && InGroup(t, group, payer) && AllInGroup(t, group, entries)
                 && id !in t.expenses && 0 < total <= MAX_AMOUNT && LedgerCreate.Insertable(t, id, payer, entries, ids))
            && (r.Err? ==> r.error in {Forbidden, PayerNotMember, ParticipantNotMember, Database} && t' == t)
  {
    LedgerCreate.CreateCommitsIff(t, id, group, createdBy, payer, total, entries, ids, now);
    EntriesInGroup(t, group, entries);
  }

  lemma EntriesInGroup(t: Tables, group: Id, entries: seq<Entry>)
    ensures AllInGroup(t, group, entries) <==> forall e :: e in entries ==> IsMember(t, group, e.user)
  {
    if forall e :: e in entries ==> IsMember(t, group, e.user) {
      forall i | 0 <= i < |entries| ensures InGroup(t, group, entries[i].user) {
        assert entries[i] in entries;
      }
    }
  }
}
