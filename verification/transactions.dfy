/**
 * Concurrent transactions. Each operation on one debt is split into its statements:
 * lock and read, check, write, commit. Row locks are held until the transaction closes,
 * writes are private until commit, and a transaction may fail at any point.
 *
 * A locking query sees the rows it locks as they are once it holds the locks. The pending
 * sum of its sub-select may be older: OpStaleMark carries the sum it sees, OpMark sees the
 * current one. Payments in bulk and expense creations take part as single instants in
 * which no debt they pay is locked.
 */
module Transactions {
  import opened Wrappers
  import opened Ledger

  type TxId = nat

  // ---------------------------------------------------------------- what one transaction sees

  /** The locked debt row, the locked payment row, the pending sum, and group ownership. */
  datatype View = View(debt: Debt, payment: Option<Payment>, pending: int, owner: bool)

  predicate IsReview(op: Op) { op.OpConfirm? || op.OpRejectPayment? }

  /** Operations that are a single conditional UPDATE of the debt row. */
  predicate IsUpdate(op: Op) { op.OpAccept? || op.OpRejectDebt? || op.OpReview? }

  predicate IsMark(op: Op) { op.OpMark? || op.OpStaleMark? }

  /** Bulk payments and expense creations, which happen in one instant here. */
  predicate IsInstant(op: Op) { op.OpBulkMark? || op.OpStaleBulkMark? || op.OpCreate? }

  predicate IsSingle(op: Op) { IsReview(op) || IsUpdate(op) || IsMark(op) }

  /** The debt row that the operation locks, if its rows exist. */
  function Target(t: Tables, op: Op): Option<Id>
    requires IsSingle(op)
  {
    if IsReview(op) then
      if op.payment in t.payments && t.payments[op.payment].debt in t.debts
      then Some(t.payments[op.payment].debt) else None
    else
      if op.debt in t.debts then Some(op.debt) else None
  }

  ghost function Read(t: Tables, op: Op, d: Id): View
    requires IsSingle(op) && Target(t, op) == Some(d)
  {
    View(t.debts[d],
         if IsReview(op) then Some(t.payments[op.payment]) else None,
         if op.OpStaleMark? then op.pendingSeen else Paid(t.payments, d, PendingConfirmation),
         IsOwner(t, t.debts[d].expense, op.user))
  }

  /** The WHERE clause of a conditional update, on the row read. Other operations have none. */
  predicate Hit(v: View, op: Op)
    requires IsSingle(op)
  {
    if op.OpReview? then v.debt.status == Rejected && v.owner
    else IsUpdate(op) ==> v.debt.debtor == op.user && v.debt.status == Pending
  }

  /** The guards, on what was read: the first that fails. */
  function Check(v: View, op: Op): Option<Error>
    requires IsSingle(op) && (IsReview(op) ==> v.payment.Some?)
  {
    if IsMark(op) then
      if v.pending > MAX_AMOUNT then Some(Database)
      else if v.debt.debtor != op.user then Some(Forbidden)
      else if !v.debt.Active() then Some(InvalidDebtState)
      else if v.pending > 0 then Some(PendingPaymentExists)
      else if op.amount > v.debt.remaining - v.pending then Some(AmountExceedsRemaining)
      else None
    else if IsReview(op) then
      if v.payment.value.receivedBy != op.user then Some(Forbidden)
      else if v.payment.value.status != PendingConfirmation then Some(InvalidPaymentState)
      else if op.OpRejectPayment? then None
      else if !v.debt.Active() then Some(InvalidDebtState)
      else if v.payment.value.amount > v.debt.remaining then Some(AmountExceedsRemaining)
      else None
    else if op.OpReview? && !AmountAllowed(op.adjusted) then Some(Database)
    else None
  }

  /** Rows written but not yet committed. */
  datatype Buffer = Buffer(debts: map<Id, Debt>, payments: map<Id, Payment>)

  function Apply(t: Tables, b: Buffer): Tables {
    t.(debts := t.debts + b.debts, payments := t.payments + b.payments)
  }

  /** The payment row that Mark inserts; its CHECK constraints do not depend on other rows. */
  function Marked(v: View, op: Op): Payment
    requires IsMark(op)
  {
    NewPayment(op.debt, op.user, v.debt.creditor, op.amount)
  }

  predicate PaymentChecks(p: Payment) { p.paidBy != p.receivedBy && 0 < p.amount <= MAX_AMOUNT }

  /** Everything the statements of the operation write when all of them find their row. */
  function Writes(v: View, d: Id, op: Op, now: Time): Buffer
    requires IsSingle(op) && (IsReview(op) ==> v.payment.Some?)
  {
    if IsMark(op) then Buffer(map[], map[op.id := Marked(v, op)])
    else if op.OpConfirm? then
      Buffer(map[d := Reduced(v.debt, v.payment.value.amount, now)],
             map[op.payment := Reviewed(v.payment.value, Confirmed, now)])
    else if op.OpRejectPayment? then Buffer(map[], map[op.payment := Reviewed(v.payment.value, Refused, now)])
    else Buffer(map[d := Updated(v.debt, op, now)], map[])
  }

  /** The payment row after its review. */
  function Reviewed(p: Payment, status: PaymentStatus, now: Time): Payment {
    if status == Confirmed then p.(status := Confirmed, confirmedAt := Some(now))
    else p.(status := Refused, rejectedAt := Some(now))
  }

  /** The debt row after a conditional update. */
  function Updated(d: Debt, op: Op, now: Time): Debt
    requires IsUpdate(op)
  {
    if op.OpAccept? then d.(status := Accepted, acceptedAt := Some(now), updatedAt := now)
    else if op.OpRejectDebt? then d.(status := Rejected, rejectedAt := Some(now), updatedAt := now)
    else Resent(d, op.adjusted, now)
  }

  /** Why a conditional update found no row, looked up by a later query. */
  function Classify(t: Tables, op: Op): Error
    requires IsUpdate(op)
  {
    if op.OpReview? then ClassifyReview(t, op.debt, op.user) else ClassifyTransition(t, op.debt, op.user)
  }

  // ---------------------------------------------------------------- the system

  datatype Pc =
    | Begun
    | PaymentHeld
    | Holding(debt: Id, view: View)
    | Passed(debt: Id, view: View)
    | DebtWritten(debt: Id, view: View, row: Debt)
    | Written(debt: Id, view: View, buffer: Buffer)
    | Missed(at: nat)
    | Closed(outcome: Outcome, entry: Option<nat>)

  datatype Tx = Tx(op: Op, now: Time, pc: Pc)

  /** An operation and its answer, in the order in which they took effect. */
  datatype Answer = Answer(op: Op, now: Time, outcome: Outcome)

  datatype Sys = Sys(t: Tables, txs: map<TxId, Tx>, log: seq<Answer>)

  function HeldDebt(tx: Tx): Option<Id> {
    match tx.pc
    case Holding(d, _) => Some(d)
    case Passed(d, _) => Some(d)
    case DebtWritten(d, _, _) => Some(d)
    case Written(d, _, _) => Some(d)
    case _ => None
  }

  function HeldPayment(tx: Tx): Option<Id> {
    if IsReview(tx.op) && (tx.pc.PaymentHeld? || HeldDebt(tx).Some?) then Some(tx.op.payment) else None
  }

  predicate DebtFree(s: Sys, d: Id) { forall x :: x in s.txs ==> HeldDebt(s.txs[x]) != Some(d) }

  predicate PaymentFree(s: Sys, p: Id) { forall x :: x in s.txs ==> HeldPayment(s.txs[x]) != Some(p) }

  function Put(s: Sys, x: TxId, pc: Pc): Sys
    requires x in s.txs
  {
    s.(txs := s.txs[x := s.txs[x].(pc := pc)])
  }

  /** Rollback or commit with an answer: the locks go, the operation is logged. */
  function Close(s: Sys, x: TxId, outcome: Outcome): Sys
    requires x in s.txs
  {
    Put(s.(log := s.log + [Answer(s.txs[x].op, s.txs[x].now, outcome)]), x, Closed(outcome, Some(|s.log|)))
  }

  /** The debts that an instantaneous operation may pay. */
  function Touched(op: Op): set<Id> {
    if op.OpBulkMark? || op.OpStaleBulkMark? then set d | d in op.rows else {}
  }

  datatype Action =
    | Begin(tx: TxId, op: Op, now: Time)
    | LockPayment(tx: TxId)
    | LockDebt(tx: TxId)
    | Miss(tx: TxId)
    | LookUp(tx: TxId)
    | Guard(tx: TxId)
    | Write(tx: TxId)
    | Commit(tx: TxId)
    | Fail(tx: TxId)
    | Instant(op: Op, now: Time)

  /** What one action does; an action that is not enabled does nothing. */
  ghost function Next(s: Sys, a: Action): Sys {
    match a
    case Begin(x, op, now) => NextBegin(s, x, op, now)
    case LockPayment(x) => if x in s.txs then NextLockPayment(s, x) else s
    case LockDebt(x) => if x in s.txs then NextLockDebt(s, x) else s
    case Miss(x) => if x in s.txs then NextMiss(s, x) else s
    case LookUp(x) => if x in s.txs then NextLookUp(s, x) else s
    case Guard(x) => if x in s.txs then NextGuard(s, x) else s
    case Write(x) => if x in s.txs then NextWrite(s, x) else s
    case Commit(x) => if x in s.txs then NextCommit(s, x) else s
    case Fail(x) => if x in s.txs then NextFail(s, x) else s
    case Instant(op, now) => NextInstant(s, op, now)
  }

  function NextBegin(s: Sys, x: TxId, op: Op, now: Time): Sys {
    if x in s.txs || !IsSingle(op) then s else s.(txs := s.txs[x := Tx(op, now, Begun)])
  }

  /** SELECT ... FOR UPDATE OF p, d: the payment row first. */
  function NextLockPayment(s: Sys, x: TxId): Sys
    requires x in s.txs
  {
    var op := s.txs[x].op;
    if !IsReview(op) || s.txs[x].pc != Begun then s
    else if Target(s.t, op) == None then Close(s, x, Err(NotFound))
    else if PaymentFree(s, op.payment) then Put(s, x, PaymentHeld)
    else s
  }

  /** The debt row: after the payment row for a review, at once for the others. */
  ghost function NextLockDebt(s: Sys, x: TxId): Sys
    requires x in s.txs
  {
    var op := s.txs[x].op;
    if !IsSingle(op) || s.txs[x].pc != (if IsReview(op) then PaymentHeld else Begun) then s
    else match Target(s.t, op)
      case None => if IsMark(op) then Close(s, x, Err(NotFound)) else s
      case Some(d) =>
        if DebtFree(s, d) && Hit(Read(s.t, op, d), op) then Put(s, x, Holding(d, Read(s.t, op, d))) else s
  }

  /** A conditional update that finds no row locks nothing. */
  ghost function NextMiss(s: Sys, x: TxId): Sys
    requires x in s.txs
  {
    var (op, now) := (s.txs[x].op, s.txs[x].now);
    if !IsUpdate(op) || s.txs[x].pc != Begun || (Target(s.t, op).Some? && Hit(Read(s.t, op, op.debt), op)) then s
    else Put(s.(log := s.log + [Answer(op, now, Err(Classify(s.t, op)))]), x, Missed(|s.log|))
  }

  /** The query that finds out why the update missed. */
  function NextLookUp(s: Sys, x: TxId): Sys
    requires x in s.txs
  {
    var tx := s.txs[x];
    if !IsUpdate(tx.op) || !tx.pc.Missed? then s else Put(s, x, Closed(Err(Classify(s.t, tx.op)), Some(tx.pc.at)))
  }

  function NextGuard(s: Sys, x: TxId): Sys
    requires x in s.txs
  {
    var (op, pc) := (s.txs[x].op, s.txs[x].pc);
    if !pc.Holding? || !IsSingle(op) || (IsReview(op) && pc.view.payment.None?) then s
    else match Check(pc.view, op)
      case Some(e) => Close(s, x, Err(e))
      case None => Put(s, x, Passed(pc.debt, pc.view))
  }

  /** One INSERT or UPDATE. An UPDATE that finds no row, or a failing constraint, aborts. */
  function NextWrite(s: Sys, x: TxId): Sys
    requires x in s.txs
  {
    var (op, now, pc) := (s.txs[x].op, s.txs[x].now, s.txs[x].pc);
    if !pc.Passed? && !pc.DebtWritten? then s
    else
      var (d, v) := (pc.debt, pc.view);
      if IsMark(op) then
        if !CanInsertPayment(s.t, op.id, Marked(v, op)) then Close(s, x, Err(Database))
        else Put(s, x, Written(d, v, Buffer(map[], map[op.id := Marked(v, op)])))
      else if IsUpdate(op) then Put(s, x, Written(d, v, Buffer(map[d := Updated(v.debt, op, now)], map[])))
      else if !IsReview(op) || v.payment.None? then s
      else if op.OpConfirm? && pc.Passed? then
        if v.debt.Active() && v.debt.remaining >= v.payment.value.amount then
          Put(s, x, DebtWritten(d, v, Reduced(v.debt, v.payment.value.amount, now)))
        else Close(s, x, Err(Database))
      else if v.payment.value.status != PendingConfirmation then Close(s, x, Err(Database))
      else if op.OpRejectPayment? then
        Put(s, x, Written(d, v, Buffer(map[], map[op.payment := Reviewed(v.payment.value, Refused, now)])))
      else
        Put(s, x, Written(d, v, Buffer(map[d := pc.row], map[op.payment := Reviewed(v.payment.value, Confirmed, now)])))
  }

  /** The primary key of an inserted payment is checked against what is committed by then. */
  function NextCommit(s: Sys, x: TxId): Sys
    requires x in s.txs
  {
    var tx := s.txs[x];
    if !tx.pc.Written? then s
    else if IsMark(tx.op) && tx.op.id in s.t.payments then Close(s, x, Err(Database))
    else Close(s.(t := Apply(s.t, tx.pc.buffer)), x, Ok)
  }

  /** A lost connection or any other failure of the database: rollback. */
  function NextFail(s: Sys, x: TxId): Sys
    requires x in s.txs
  {
    if s.txs[x].pc.Closed? then s else Put(s, x, Closed(Err(Database), None))
  }

  ghost predicate CanHappen(s: Sys, op: Op) {
    IsInstant(op) && Possible(s.t, op) && forall d :: d in Touched(op) ==> DebtFree(s, d)
  }

  ghost function NextInstant(s: Sys, op: Op, now: Time): Sys {
    if !CanHappen(s, op) then s
    else
      var (t', outcome) := Step(s.t, op, now);
      s.(t := t', log := s.log + [Answer(op, now, outcome)])
  }

  function Start(t: Tables): Sys { Sys(t, map[], []) }

  ghost function Exec(s: Sys, actions: seq<Action>): Sys
    decreases |actions|
  {
    if actions == [] then s else Exec(Next(s, actions[0]), actions[1..])
  }

  // ---------------------------------------------------------------- what an action can do

  /** The log entry of a transaction that has taken effect. */
  function EntryOf(tx: Tx): Option<nat> {
    match tx.pc
    case Missed(at) => Some(at)
    case Closed(_, entry) => entry
    case _ => None
  }

  /** How many statements a transaction still has before it, at most. */
  function Rank(pc: Pc): nat {
    match pc
    case Begun => 6
    case PaymentHeld => 5
    case Holding(_, _) => 4
    case Passed(_, _) => 3
    case DebtWritten(_, _, _) => 2
    case Written(_, _, _) => 1
    case Missed(_) => 1
    case Closed(_, _) => 0
  }

  /** The step from tx to pc logs nothing. */
  predicate StepsUnlogged(tx: Tx, pc: Pc) {
    && (EntryOf(tx.(pc := pc)) == EntryOf(tx) || EntryOf(tx.(pc := pc)) == None)
    && (pc.Closed? ==> pc.outcome == Err(Database) || (pc.outcome.Err? && pc.entry.Some?))
  }

  /** The step from tx to pc logs its answer at the given index. */
  predicate StepsLogged(tx: Tx, pc: Pc, at: nat, outcome: Outcome) {
    pc == Closed(outcome, Some(at)) || (pc == Missed(at) && outcome.Err?)
  }

  /** Transaction x, and no other, moves on; it is not closed, and its answer is logged or not. */
  predicate Advances(s: Sys, s': Sys, x: TxId) {
    && x in s.txs && x in s'.txs
    && var (tx, pc) := (s.txs[x], s'.txs[x].pc);
       && !tx.pc.Closed? && Rank(pc) < Rank(tx.pc)
       && s'.txs == s.txs[x := tx.(pc := pc)]
       && (|| (s'.log == s.log && s'.t == s.t && StepsUnlogged(tx, pc))
           || (&& |s'.log| == |s.log| + 1
               && var last := s'.log[|s.log|];
                  s'.log == s.log + [Answer(tx.op, tx.now, last.outcome)]
                  && StepsLogged(tx, pc, |s.log|, last.outcome)))
  }

  /** A new transaction begins. */
  predicate Begins(s: Sys, s': Sys, x: TxId) {
    && x !in s.txs && x in s'.txs && s'.txs[x].pc == Begun && IsSingle(s'.txs[x].op)
    && s' == s.(txs := s.txs[x := s'.txs[x]])
  }

  /** An operation happens as a whole. */
  predicate Happens(s: Sys, s': Sys) {
    s'.txs == s.txs && |s'.log| == |s.log| + 1 && s.log <= s'.log && IsInstant(s'.log[|s.log|].op)
  }

  lemma LockingAdvances(s: Sys, x: TxId)
    requires x in s.txs
    ensures NextLockPayment(s, x) == s || Advances(s, NextLockPayment(s, x), x)
    ensures NextLockDebt(s, x) == s || Advances(s, NextLockDebt(s, x), x)
  {
  }

  lemma MissingAdvances(s: Sys, x: TxId)
    requires x in s.txs
    ensures NextMiss(s, x) == s || Advances(s, NextMiss(s, x), x)
    ensures NextLookUp(s, x) == s || Advances(s, NextLookUp(s, x), x)
    ensures NextFail(s, x) == s || Advances(s, NextFail(s, x), x)
  {
  }

  lemma WritingAdvances(s: Sys, x: TxId)
    requires x in s.txs
    ensures NextGuard(s, x) == s || Advances(s, NextGuard(s, x), x)
    ensures NextWrite(s, x) == s || Advances(s, NextWrite(s, x), x)
  {
  }

  lemma CommitAdvances(s: Sys, x: TxId)
    requires x in s.txs
    ensures NextCommit(s, x) == s || Advances(s, NextCommit(s, x), x)
  {
  }

  /** Every action begins a transaction, lets one move on, or is an operation as a whole. */
  lemma NextShape(s: Sys, a: Action)
    ensures var s' := Next(s, a);
            || s' == s
            || (a.Begin? && s'.txs == s.txs[a.tx := Tx(a.op, a.now, Begun)] && Begins(s, s', a.tx))
            || (a.Instant? && Happens(s, s'))
            || (!a.Begin? && !a.Instant? && Advances(s, s', a.tx))
  {
    match a
    case Begin(x, op, now) =>
    case Instant(op, now) =>
    case LockPayment(x) => if x in s.txs { LockingAdvances(s, x); }
    case LockDebt(x) => if x in s.txs { LockingAdvances(s, x); }
    case Miss(x) => if x in s.txs { MissingAdvances(s, x); }
    case LookUp(x) => if x in s.txs { MissingAdvances(s, x); }
    case Guard(x) => if x in s.txs { WritingAdvances(s, x); }
    case Write(x) => if x in s.txs { WritingAdvances(s, x); }
    case Commit(x) => if x in s.txs { CommitAdvances(s, x); }
    case Fail(x) => if x in s.txs { MissingAdvances(s, x); }
  }
}
