/**
 * The tables behind expenses, debts and payments, and what each operation of the
 * expense, debt and payment repositories does to them when it runs alone.
 */
module Ledger {
  import opened Wrappers
  import Sums

  /** Opaque row identifiers; only equality and the ORDER BY of one query look at them. */
  type Id = nat
  type Time = int

  const MAX_AMOUNT: int := 0x7FFF_FFFF_FFFF_FFFF

  datatype DebtStatus = Pending | Accepted | Rejected | PartiallySettled | Settled

  datatype PaymentStatus = PendingConfirmation | Confirmed | Refused

  datatype Role = Owner | Member

  datatype Expense = Expense(group: Id, total: int, paidBy: Id)

  datatype Debt = Debt(
    expense: Id, debtor: Id, creditor: Id,
    original: int, remaining: int, status: DebtStatus,
    acceptedAt: Option<Time>, rejectedAt: Option<Time>, settledAt: Option<Time>,
    createdAt: Time, updatedAt: Time)
  {
    /** The statuses in which a debt can be paid and counts on the dashboard. */
    predicate Active() { status == Accepted || status == PartiallySettled }
  }

  datatype Payment = Payment(
    debt: Id, paidBy: Id, receivedBy: Id, amount: int, status: PaymentStatus,
    confirmedAt: Option<Time>, rejectedAt: Option<Time>)

  datatype Error =
    | NotFound | Forbidden | InvalidState | InvalidDebtState | InvalidPaymentState
    | PendingPaymentExists | AmountExceedsRemaining
    | PayerNotMember | ParticipantNotMember
    | Database

  datatype Outcome = Ok | Err(error: Error)

  /** Members are keyed by (group, user), participants by (expense, user). */
  datatype Tables = Tables(
    members: map<(Id, Id), Role>,
    expenses: map<Id, Expense>,
    participants: map<(Id, Id), int>,
    debts: map<Id, Debt>,
    payments: map<Id, Payment>)

  // ---------------------------------------------------------------- queries

  function Share(p: Payment, debt: Id, status: PaymentStatus): int {
    if p.debt == debt && p.status == status then p.amount else 0
  }

  function ShareOf(payments: map<Id, Payment>, debt: Id, status: PaymentStatus): Id -> int {
    p => if p in payments then Share(payments[p], debt, status) else 0
  }

  /** SUM(amount_minor) over the payments of a debt that have the given status. */
  ghost function Paid(payments: map<Id, Payment>, debt: Id, status: PaymentStatus): int {
    Sums.Sum(payments.Keys, ShareOf(payments, debt, status))
  }

  predicate HasPending(t: Tables, debt: Id) {
    exists p :: p in t.payments && t.payments[p].debt == debt && t.payments[p].status == PendingConfirmation
  }

  predicate IsMember(t: Tables, group: Id, user: Id) { (group, user) in t.members }

  /** The user owns the group that the expense belongs to. */
  predicate IsOwner(t: Tables, expense: Id, user: Id) {
    && expense in t.expenses
    && (t.expenses[expense].group, user) in t.members
    && t.members[(t.expenses[expense].group, user)] == Owner
  }

  // ---------------------------------------------------------------- debt operations

  function Accept(t: Tables, id: Id, user: Id, now: Time): (Tables, Outcome) {
    if id in t.debts && t.debts[id].debtor == user && t.debts[id].status == Pending then
      (t.(debts := t.debts[id := t.debts[id].(status := Accepted, acceptedAt := Some(now), updatedAt := now)]), Ok)
    else
      (t, Err(ClassifyTransition(t, id, user)))
  }

  function RejectDebt(t: Tables, id: Id, user: Id, now: Time): (Tables, Outcome) {
    if id in t.debts && t.debts[id].debtor == user && t.debts[id].status == Pending then
      (t.(debts := t.debts[id := t.debts[id].(status := Rejected, rejectedAt := Some(now), updatedAt := now)]), Ok)
    else
      (t, Err(ClassifyTransition(t, id, user)))
  }

  /** Why a conditional update of a debt by its debtor touched no row. */
  function ClassifyTransition(t: Tables, id: Id, user: Id): Error {
    if id !in t.debts then NotFound
    else if t.debts[id].debtor != user then Forbidden
    else InvalidState
  }

  /** What resending leaves in the row; `amount` is the owner's adjustment, if any. */
  function Resent(d: Debt, amount: Option<int>, now: Time): Debt {
    var value := if amount.Some? then amount.value else d.original;
    d.(original := value, remaining := value, status := Pending,
       acceptedAt := None, rejectedAt := None, settledAt := None, updatedAt := now)
  }

  predicate ReviewHits(t: Tables, id: Id, user: Id) {
    id in t.debts && t.debts[id].status == Rejected && IsOwner(t, t.debts[id].expense, user)
  }

  function ReviewRejected(t: Tables, id: Id, user: Id, amount: Option<int>, now: Time): (Tables, Outcome) {
    if !ReviewHits(t, id, user) then (t, Err(ClassifyReview(t, id, user)))
    else if !AmountAllowed(amount) then (t, Err(Database))
    else (t.(debts := t.debts[id := Resent(t.debts[id], amount, now)]), Ok)
  }

  /** The column is a positive bigint. */
  predicate AmountAllowed(amount: Option<int>) {
    amount.Some? ==> 0 < amount.value <= MAX_AMOUNT
  }

  function ClassifyReview(t: Tables, id: Id, user: Id): Error {
    if id !in t.debts then NotFound
    else if !IsOwner(t, t.debts[id].expense, user) then Forbidden
    else InvalidState
  }

  // ---------------------------------------------------------------- payment operations

  function NewPayment(debt: Id, paidBy: Id, receivedBy: Id, amount: int): Payment {
    Payment(debt, paidBy, receivedBy, amount, PendingConfirmation, None, None)
  }

  /** INSERT INTO payments: primary key, foreign key and CHECK constraints. */
  predicate CanInsertPayment(t: Tables, id: Id, p: Payment) {
    && id !in t.payments && p.debt in t.debts
    && p.paidBy != p.receivedBy && 0 < p.amount <= MAX_AMOUNT
  }

  /**
   * Mark, with the sum of pending payments that its locking query reports passed in:
   * the true sum if the sub-select is evaluated under the lock, possibly an older one
   * otherwise. A sum outside bigint makes the query itself fail.
   */
  function MarkSeeing(t: Tables, pendingSeen: int, debt: Id, user: Id, amount: int, id: Id): (Tables, Outcome) {
    if debt !in t.debts then (t, Err(NotFound))
    else if pendingSeen > MAX_AMOUNT then (t, Err(Database))
    else
      var d := t.debts[debt];
      if d.debtor != user then (t, Err(Forbidden))
      else if !d.Active() then (t, Err(InvalidDebtState))
      else if pendingSeen > 0 then (t, Err(PendingPaymentExists))
      else if amount > d.remaining - pendingSeen then (t, Err(AmountExceedsRemaining))
      else
        var p := NewPayment(debt, user, d.creditor, amount);
        if !CanInsertPayment(t, id, p) then (t, Err(Database))
        else (t.(payments := t.payments[id := p]), Ok)
  }

  ghost function Mark(t: Tables, debt: Id, user: Id, amount: int, id: Id): (Tables, Outcome) {
    MarkSeeing(t, Paid(t.payments, debt, PendingConfirmation), debt, user, amount, id)
  }

  /** The debt after a confirmed payment of `amount`. */
  function Reduced(d: Debt, amount: int, now: Time): Debt {
    d.(remaining := d.remaining - amount,
       status := if d.remaining - amount == 0 then Settled else PartiallySettled,
       settledAt := if d.remaining - amount == 0 then Some(now) else d.settledAt,
       updatedAt := now)
  }

  function Confirm(t: Tables, id: Id, user: Id, now: Time): (Tables, Outcome) {
    if id !in t.payments || t.payments[id].debt !in t.debts then (t, Err(NotFound))
    else
      var p := t.payments[id];
      var d := t.debts[p.debt];
      if p.receivedBy != user then (t, Err(Forbidden))
      else if p.status != PendingConfirmation then (t, Err(InvalidPaymentState))
      else if !d.Active() then (t, Err(InvalidDebtState))
      else if p.amount > d.remaining then (t, Err(AmountExceedsRemaining))
      else (t.(debts := t.debts[p.debt := Reduced(d, p.amount, now)],
               payments := t.payments[id := p.(status := Confirmed, confirmedAt := Some(now))]), Ok)
  }

  function RejectPayment(t: Tables, id: Id, user: Id, now: Time): (Tables, Outcome) {
    if id !in t.payments || t.payments[id].debt !in t.debts then (t, Err(NotFound))
    else
      var p := t.payments[id];
      if p.receivedBy != user then (t, Err(Forbidden))
      else if p.status != PendingConfirmation then (t, Err(InvalidPaymentState))
      else (t.(payments := t.payments[id := p.(status := Refused, rejectedAt := Some(now))]), Ok)
  }

  // ---------------------------------------------------------------- bulk payment

  /** int64 addition in Go wraps around. */
  function Wrap64(x: int): int {
    (x + 0x8000_0000_0000_0000) % 0x1_0000_0000_0000_0000 - 0x8000_0000_0000_0000
  }

  function TotalAvailable(t: Tables, rows: seq<Id>): int
    requires forall d :: d in rows ==> d in t.debts
  {
    if rows == [] then 0
    else TotalAvailable(t, rows[..|rows| - 1]) + t.debts[rows[|rows| - 1]].remaining
  }

  /** One payment to be created: of `amount`, on `debt`. */
  datatype Part = Part(debt: Id, amount: int)

  /** Greedy allocation of `amount` over the rows in list order. */
  function Allocate(t: Tables, rows: seq<Id>, amount: int): seq<Part>
    requires forall d :: d in rows ==> d in t.debts
  {
    if rows == [] || amount == 0 then []
    else
      var available := t.debts[rows[0]].remaining;
      var part := if available > amount then amount else available;
      [Part(rows[0], part)] + Allocate(t, rows[1..], amount - part)
  }

  /** The inserts of a bulk payment, in order; the first that fails undoes them all. */
  function InsertParts(t: Tables, parts: seq<Part>, user: Id, receiver: Id, ids: seq<Id>): Option<Tables>
    requires |parts| <= |ids|
    decreases |parts|
  {
    if parts == [] then Some(t)
    else
      var p := NewPayment(parts[0].debt, user, receiver, parts[0].amount);
      if !CanInsertPayment(t, ids[0], p) then None
      else InsertParts(t.(payments := t.payments[ids[0] := p]), parts[1..], user, receiver, ids[1..])
  }

  /** The bulk payment for the rows that its locking query returned. */
  function BulkMarkRows(t: Tables, rows: seq<Id>, user: Id, receiver: Id, amount: int, ids: seq<Id>): (Tables, Outcome)
    requires forall d :: d in rows ==> d in t.debts
    requires |rows| <= |ids|
  {
    if rows == [] then (t, Err(NotFound))
    else if amount > Wrap64(TotalAvailable(t, rows)) then (t, Err(AmountExceedsRemaining))
    else
      AllocateLength(t, rows, amount);
      match InsertParts(t, Allocate(t, rows, amount), user, receiver, ids)
      case None => (t, Err(Database))
      case Some(t') => (t', Ok)
  }

  lemma {:induction false} AllocateLength(t: Tables, rows: seq<Id>, amount: int)
    requires forall d :: d in rows ==> d in t.debts
    ensures |Allocate(t, rows, amount)| <= |rows|
  {
    if rows == [] || amount == 0 {
    } else {
      var available := t.debts[rows[0]].remaining;
      AllocateLength(t, rows[1..], amount - if available > amount then amount else available);
    }
  }

  /** The WHERE clause of the bulk query without its NOT EXISTS. */
  predicate Payable(t: Tables, d: Id, user: Id, receiver: Id) {
    && d in t.debts && t.debts[d].debtor == user && t.debts[d].creditor == receiver
    && t.debts[d].Active() && t.debts[d].remaining > 0
  }

  /** ORDER BY updated_at, created_at, id. */
  predicate Before(t: Tables, d: Id, e: Id)
    requires d in t.debts && e in t.debts
  {
    var (x, y) := (t.debts[d], t.debts[e]);
    || x.updatedAt < y.updatedAt
    || (x.updatedAt == y.updatedAt && x.createdAt < y.createdAt)
    || (x.updatedAt == y.updatedAt && x.createdAt == y.createdAt && d < e)
  }

  /** `rows` are distinct payable debts in query order, perhaps not all of them. */
  ghost predicate PayableRows(t: Tables, rows: seq<Id>, user: Id, receiver: Id) {
    && (forall d :: d in rows ==> Payable(t, d, user, receiver))
    && (forall i, j :: 0 <= i < j < |rows| ==>
         && Payable(t, rows[i], user, receiver) && Payable(t, rows[j], user, receiver)
         && Before(t, rows[i], rows[j]))
  }

  /** `rows` is what the bulk query returns when its sub-select sees the current payments. */
  ghost predicate BulkRows(t: Tables, rows: seq<Id>, user: Id, receiver: Id) {
    && PayableRows(t, rows, user, receiver)
    && (forall d :: d in rows <==> Payable(t, d, user, receiver) && !HasPending(t, d))
  }

  // ---------------------------------------------------------------- expense creation

  /**
   * One participant of a new expense: the user the text stands for, the share, and
   * whether the participant text is literally the payer text.
   */
  datatype Entry = Entry(user: Id, share: int, samePayerText: bool)

  predicate DebtExists(t: Tables, expense: Id, debtor: Id, creditor: Id) {
    exists d :: d in t.debts
                && t.debts[d].expense == expense && t.debts[d].debtor == debtor && t.debts[d].creditor == creditor
  }

  function NewDebt(expense: Id, debtor: Id, creditor: Id, amount: int, now: Time): Debt {
    Debt(expense, debtor, creditor, amount, amount, Pending, None, None, None, now, now)
  }

  /** INSERT INTO expense_participants. */
  predicate CanInsertParticipant(t: Tables, expense: Id, user: Id, share: int) {
    expense in t.expenses && (expense, user) !in t.participants && 0 < share <= MAX_AMOUNT
  }

  /** INSERT INTO debts. */
  predicate CanInsertDebt(t: Tables, id: Id, d: Debt) {
    && id !in t.debts && d.expense in t.expenses
    && !DebtExists(t, d.expense, d.debtor, d.creditor)
    && d.debtor != d.creditor && 0 < d.original <= MAX_AMOUNT
  }

  /** The participant and debt inserts, in order; the first that fails undoes them all. */
  function InsertEntries(t: Tables, expense: Id, payer: Id, entries: seq<Entry>, ids: seq<Id>,
                         now: Time): Option<Tables>
    requires |entries| <= |ids|
    decreases |entries|
  {
    if entries == [] then Some(t)
    else
      var e := entries[0];
      if !CanInsertParticipant(t, expense, e.user, e.share) then None
      else
        var t1 := t.(participants := t.participants[(expense, e.user) := e.share]);
        if e.samePayerText then InsertEntries(t1, expense, payer, entries[1..], ids[1..], now)
        else
          var d := NewDebt(expense, e.user, payer, e.share, now);
          if !CanInsertDebt(t1, ids[0], d) then None
          else InsertEntries(t1.(debts := t1.debts[ids[0] := d]), expense, payer, entries[1..], ids[1..], now)
  }

  predicate CanInsertExpense(t: Tables, id: Id, total: int) {
    id !in t.expenses && 0 < total <= MAX_AMOUNT
  }

  function CreateExpense(t: Tables, id: Id, group: Id, createdBy: Id, payer: Id, total: int,
                         entries: seq<Entry>, ids: seq<Id>, now: Time): (Tables, Outcome)
    requires |entries| <= |ids|
  {
    if !IsMember(t, group, createdBy) then (t, Err(Forbidden))
    else if !IsMember(t, group, payer) then (t, Err(PayerNotMember))
    else if exists e :: e in entries && !IsMember(t, group, e.user) then (t, Err(ParticipantNotMember))
    else if !CanInsertExpense(t, id, total) then (t, Err(Database))
    else
      match InsertEntries(t.(expenses := t.expenses[id := Expense(group, total, payer)]), id, payer, entries, ids, now)
      case None => (t, Err(Database))
      case Some(t') => (t', Ok)
  }

  // ---------------------------------------------------------------- operations as values

  /**
   * StaleMark and StaleBulkMark are the two marking operations with what their
   * sub-selects saw as a further argument; the plain ones see the current payments.
   */
  datatype Op =
    | OpCreate(expense: Id, group: Id, createdBy: Id, payer: Id, total: int, entries: seq<Entry>, debtIds: seq<Id>)
    | OpAccept(debt: Id, user: Id)
    | OpRejectDebt(debt: Id, user: Id)
    | OpReview(debt: Id, user: Id, adjusted: Option<int>)
    | OpMark(debt: Id, user: Id, amount: int, id: Id)
    | OpStaleMark(debt: Id, user: Id, amount: int, id: Id, pendingSeen: nat)
    | OpBulkMark(user: Id, receiver: Id, amount: int, ids: seq<Id>, rows: seq<Id>)
    | OpStaleBulkMark(user: Id, receiver: Id, amount: int, ids: seq<Id>, rows: seq<Id>)
    | OpConfirm(payment: Id, user: Id)
    | OpRejectPayment(payment: Id, user: Id)
  {
    /** The sub-selects of the operation see the payments as they are. */
    predicate Exact() { !OpStaleMark? && !OpStaleBulkMark? }
  }

  /** The operation can happen in t: a bulk query returns rows that its clauses admit. */
  ghost predicate Possible(t: Tables, op: Op) {
    match op
    case OpCreate(_, _, _, _, _, entries, ids) => |entries| <= |ids|
    case OpBulkMark(user, receiver, _, ids, rows) => BulkRows(t, rows, user, receiver) && |rows| <= |ids|
    case OpStaleBulkMark(user, receiver, _, ids, rows) => PayableRows(t, rows, user, receiver) && |rows| <= |ids|
    case _ => true
  }

  ghost function Step(t: Tables, op: Op, now: Time): (Tables, Outcome)
    requires Possible(t, op)
  {
    match op
    case OpCreate(expense, group, createdBy, payer, total, entries, ids) =>
      CreateExpense(t, expense, group, createdBy, payer, total, entries, ids, now)
    case OpAccept(debt, user) => Accept(t, debt, user, now)
    case OpRejectDebt(debt, user) => RejectDebt(t, debt, user, now)
    case OpReview(debt, user, adjusted) => ReviewRejected(t, debt, user, adjusted, now)
    case OpMark(debt, user, amount, id) => Mark(t, debt, user, amount, id)
    case OpStaleMark(debt, user, amount, id, seen) => MarkSeeing(t, seen, debt, user, amount, id)
    case OpBulkMark(user, receiver, amount, ids, rows) => BulkMarkRows(t, rows, user, receiver, amount, ids)
    case OpStaleBulkMark(user, receiver, amount, ids, rows) => BulkMarkRows(t, rows, user, receiver, amount, ids)
    case OpConfirm(payment, user) => Confirm(t, payment, user, now)
    case OpRejectPayment(payment, user) => RejectPayment(t, payment, user, now)
  }
}
