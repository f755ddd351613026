/**
 * Every interleaving of concurrent transactions is a serial run of the atomic operations
 * of the ledger, so what holds after every run holds at every moment.
 */
module Serializability {
  import opened Wrappers
  import opened Ledger
  import opened LedgerInvariants
  import LedgerBulk
  import LedgerCreate
  import opened LedgerRuns
  import opened Transactions

  // ---------------------------------------------------------------- invariant

  /** Running the logged operations one after the other from base gives t and the logged answers. */
  ghost predicate Replays(base: Tables, log: seq<Answer>, t: Tables)
    decreases |log|
  {
    if log == [] then t == base
    else
      var last := log[|log| - 1];
      exists t0 ::
        Replays(base, log[..|log| - 1], t0) && Possible(t0, last.op)
        && Step(t0, last.op, last.now) == (t, last.outcome)
  }

  ghost predicate ViewOk(t: Tables, op: Op, d: Id, v: View) {
    IsSingle(op) && Target(t, op) == Some(d) && v == Read(t, op, d) && Hit(v, op)
  }

  predicate Logged(log: seq<Answer>, at: nat, tx: Tx) {
    at < |log| && log[at].op == tx.op && log[at].now == tx.now
  }

  /** The answer of a closed transaction is the logged one, but for a debt that appeared meanwhile. */
  predicate Answered(log: seq<Answer>, at: nat, tx: Tx, outcome: Outcome) {
    && Logged(log, at, tx)
    && (log[at].outcome == outcome || (IsUpdate(tx.op) && log[at].outcome == Err(NotFound) && outcome.Err?))
  }

  ghost predicate TxOk(t: Tables, log: seq<Answer>, tx: Tx) {
    match tx.pc
    case Begun => IsSingle(tx.op)
    case PaymentHeld => IsReview(tx.op) && Target(t, tx.op).Some?
    case Holding(d, v) => ViewOk(t, tx.op, d, v)
    case Passed(d, v) => ViewOk(t, tx.op, d, v) && Check(v, tx.op) == None
    case DebtWritten(d, v, row) =>
      && tx.op.OpConfirm? && ViewOk(t, tx.op, d, v) && Check(v, tx.op) == None
      && row == Reduced(v.debt, v.payment.value.amount, tx.now)
    case Written(d, v, b) =>
      && ViewOk(t, tx.op, d, v) && Check(v, tx.op) == None && b == Writes(v, d, tx.op, tx.now)
      && (IsMark(tx.op) ==> PaymentChecks(Marked(v, tx.op)))
    case Missed(at) =>
      && IsUpdate(tx.op) && Logged(log, at, tx) && log[at].outcome.Err?
      && (log[at].outcome != Err(NotFound) ==> tx.op.debt in t.debts && log[at].outcome == Err(Classify(t, tx.op)))
    case Closed(outcome, at) => at.Some? ==> Answered(log, at.value, tx, outcome)
  }

  predicate Exclusive(txs: map<TxId, Tx>) {
    forall x, y :: x in txs && y in txs && x != y ==>
      && (HeldDebt(txs[x]).Some? ==> HeldDebt(txs[y]) != HeldDebt(txs[x]))
      && (HeldPayment(txs[x]).Some? ==> HeldPayment(txs[y]) != HeldPayment(txs[x]))
  }

  /** A transaction that has taken effect has a log entry of its own; a closed one without is an error. */
  predicate OwnEntries(s: Sys) {
    && (forall x :: x in s.txs && s.txs[x].pc.Closed? && s.txs[x].pc.entry == None ==>
         s.txs[x].pc.outcome == Err(Database))
    && (forall x :: x in s.txs && EntryOf(s.txs[x]).Some? ==> EntryOf(s.txs[x]).value < |s.log|)
    && (forall x, y :: x in s.txs && y in s.txs && x != y && EntryOf(s.txs[x]).Some? ==>
         EntryOf(s.txs[y]) != EntryOf(s.txs[x]))
  }

  /** A success that is logged for an operation on one debt is the answer of some transaction. */
  predicate EffectsOwned(s: Sys) {
    forall i: nat :: i < |s.log| && IsSingle(s.log[i].op) && s.log[i].outcome == Ok ==>
      exists x :: x in s.txs && s.txs[x].pc == Closed(Ok, Some(i))
  }

  ghost predicate Inv(base: Tables, s: Sys) {
    && Replays(base, s.log, s.t)
    && Exclusive(s.txs)
    && (forall x :: x in s.txs ==> TxOk(s.t, s.log, s.txs[x]))
    && Consistent(s.t)
  }

  // ---------------------------------------------------------------- one transaction runs the atomic step

  lemma CheckedStep(t: Tables, op: Op, now: Time, d: Id)
    requires IsSingle(op) && Target(t, op) == Some(d) && Hit(Read(t, op, d), op)
    requires Check(Read(t, op, d), op).Some?
    ensures Step(t, op, now) == (t, Err(Check(Read(t, op, d), op).value))
  {
  }

  /** What the statements of a transaction write is what the atomic operation does. */
  lemma WrittenStep(t: Tables, op: Op, now: Time, d: Id)
    requires IsSingle(op) && Target(t, op) == Some(d) && Hit(Read(t, op, d), op)
    requires Check(Read(t, op, d), op) == None
    requires IsMark(op) ==> PaymentChecks(Marked(Read(t, op, d), op)) && op.id !in t.payments
    ensures Step(t, op, now) == (Apply(t, Writes(Read(t, op, d), d, op, now)), Ok)
  {
    var b := Writes(Read(t, op, d), d, op, now);
    if IsUpdate(op) {
      assert t.payments + b.payments == t.payments && t.debts + b.debts == t.debts[d := b.debts[d]];
    } else {
      var id := if IsMark(op) then op.id else op.payment;
      assert t.payments + b.payments == t.payments[id := b.payments[id]];
      assert t.debts + b.debts == if op.OpConfirm? then t.debts[d := b.debts[d]] else t.debts;
    }
  }

  lemma MissedStep(t: Tables, op: Op, now: Time)
    requires IsUpdate(op)
    requires Target(t, op).Some? ==> !Hit(Read(t, op, op.debt), op)
    ensures Step(t, op, now) == (t, Err(Classify(t, op)))
  {
  }

  lemma AbsentStep(t: Tables, op: Op, now: Time)
    requires IsReview(op) || IsMark(op)
    requires Target(t, op) == None
    ensures Step(t, op, now) == (t, Err(NotFound))
  {
  }

  lemma UninsertableStep(t: Tables, op: Op, now: Time, d: Id)
    requires IsMark(op) && Target(t, op) == Some(d) && Check(Read(t, op, d), op) == None
    requires !CanInsertPayment(t, op.id, Marked(Read(t, op, d), op))
    ensures Step(t, op, now) == (t, Err(Database))
  {
  }

  // ---------------------------------------------------------------- frames

  /** Between t and t' only the debts in `changed`, and payments of those, differ. */
  ghost predicate Frame(t: Tables, t': Tables, changed: set<Id>) {
    && t'.members == t.members
    && (forall e :: e in t.expenses ==> e in t'.expenses && t'.expenses[e] == t.expenses[e])
    && (forall d :: d in t.debts ==>
         d in t'.debts && t'.debts[d].debtor == t.debts[d].debtor && t'.debts[d].expense == t.debts[d].expense)
    && (forall d :: d in t.debts && d !in changed ==> t'.debts[d] == t.debts[d])
    && (forall p :: p in t.payments ==> p in t'.payments && t'.payments[p].debt == t.payments[p].debt)
    && (forall p :: p in t.payments && t.payments[p].debt !in changed ==> t'.payments[p] == t.payments[p])
    && (forall d :: d !in changed ==>
         Paid(t'.payments, d, PendingConfirmation) == Paid(t.payments, d, PendingConfirmation))
  }

  lemma OwnerStays(t: Tables, t': Tables, changed: set<Id>, expense: Id, user: Id)
    requires Frame(t, t', changed) && expense in t.expenses
    ensures IsOwner(t', expense, user) == IsOwner(t, expense, user)
  {
  }

  /** A transaction that holds none of the changed debts does not notice the change. */
  lemma FrameTx(t: Tables, t': Tables, changed: set<Id>, log: seq<Answer>, log': seq<Answer>, tx: Tx)
    requires Frame(t, t', changed) && TxOk(t, log, tx) && log <= log'
    requires HeldDebt(tx).Some? ==> HeldDebt(tx).value !in changed
    requires forall d :: d in t.debts ==> t.debts[d].expense in t.expenses
    ensures TxOk(t', log', tx)
  {
    match tx.pc
    case Missed(at) => FrameMissed(t, t', changed, log, log', tx);
    case Holding(d, v) => FrameView(t, t', changed, tx.op, d, v);
    case Passed(d, v) => FrameView(t, t', changed, tx.op, d, v);
    case DebtWritten(d, v, _) => FrameView(t, t', changed, tx.op, d, v);
    case Written(d, v, _) => FrameView(t, t', changed, tx.op, d, v);
    case _ =>
  }

  lemma FrameView(t: Tables, t': Tables, changed: set<Id>, op: Op, d: Id, v: View)
    requires Frame(t, t', changed) && ViewOk(t, op, d, v) && d !in changed
    requires t.debts[d].expense in t.expenses
    ensures ViewOk(t', op, d, v)
  {
    OwnerStays(t, t', changed, t.debts[d].expense, op.user);
  }

  lemma FrameMissed(t: Tables, t': Tables, changed: set<Id>, log: seq<Answer>, log': seq<Answer>, tx: Tx)
    requires Frame(t, t', changed) && TxOk(t, log, tx) && log <= log' && tx.pc.Missed?
    requires forall d :: d in t.debts ==> t.debts[d].expense in t.expenses
    ensures TxOk(t', log', tx)
  {
    if tx.op.debt in t.debts {
      OwnerStays(t, t', changed, t.debts[tx.op.debt].expense, tx.op.user);
    }
  }

  /** What a buffer may hold: the locked debt row, and a payment row of that debt. */
  predicate Confined(t: Tables, b: Buffer, d: Id) {
    && d in t.debts
    && (forall x :: x in b.debts ==>
         x == d && b.debts[x].debtor == t.debts[d].debtor && b.debts[x].expense == t.debts[d].expense)
    && (forall p :: p in b.payments ==> b.payments[p].debt == d && (p in t.payments ==> t.payments[p].debt == d))
    && (forall p, q :: p in b.payments && q in b.payments ==> p == q)
  }

  lemma WritesConfined(t: Tables, op: Op, now: Time, d: Id, v: View)
    requires ViewOk(t, op, d, v)
    requires IsMark(op) ==> op.id !in t.payments
    ensures Confined(t, Writes(v, d, op, now), d)
  {
  }

  lemma ConfinedPaid(t: Tables, b: Buffer, d: Id, x: Id)
    requires Confined(t, b, d) && x != d
    ensures Paid(Apply(t, b).payments, x, PendingConfirmation) == Paid(t.payments, x, PendingConfirmation)
  {
    if id :| id in b.payments {
      assert t.payments + b.payments == t.payments[id := b.payments[id]];
      PaidUpdate(t.payments, id, b.payments[id], x, PendingConfirmation);
    } else {
      assert t.payments + b.payments == t.payments;
    }
  }

  /** Committing changes the locked debt and its payments only. */
  lemma CommitFrame(t: Tables, b: Buffer, d: Id)
    requires Confined(t, b, d)
    ensures Frame(t, Apply(t, b), {d})
  {
    forall x | x != d
      ensures Paid(Apply(t, b).payments, x, PendingConfirmation) == Paid(t.payments, x, PendingConfirmation) {
      ConfinedPaid(t, b, d, x);
    }
  }

  lemma {:induction false} InsertPartsPaid(t: Tables, parts: seq<Part>, user: Id, receiver: Id, ids: seq<Id>, d: Id)
    requires |parts| <= |ids| && InsertParts(t, parts, user, receiver, ids).Some?
    requires forall i :: 0 <= i < |parts| ==> parts[i].debt != d
    ensures Paid(InsertParts(t, parts, user, receiver, ids).value.payments, d, PendingConfirmation) ==
            Paid(t.payments, d, PendingConfirmation)
    decreases |parts|
  {
    if parts == [] {
    } else {
      var p := NewPayment(parts[0].debt, user, receiver, parts[0].amount);
      PaidUpdate(t.payments, ids[0], p, d, PendingConfirmation);
      InsertPartsPaid(t.(payments := t.payments[ids[0] := p]), parts[1..], user, receiver, ids[1..], d);
    }
  }

  lemma {:induction false} AllocateDebts(t: Tables, rows: seq<Id>, amount: int, i: nat)
    requires LedgerBulk.Known(t, rows) && i < |Allocate(t, rows, amount)|
    ensures Allocate(t, rows, amount)[i].debt in rows
  {
    if i == 0 {
    } else {
      var available := t.debts[rows[0]].remaining;
      AllocateDebts(t, rows[1..], amount - (if available > amount then amount else available), i - 1);
    }
  }

  lemma BulkFrame(t: Tables, op: Op, now: Time)
    requires (op.OpBulkMark? || op.OpStaleBulkMark?) && Possible(t, op)
    ensures Frame(t, Step(t, op, now).0, Touched(op))
  {
    if Step(t, op, now).1 == Ok {
      AllocateLength(t, op.rows, op.amount);
      var parts := Allocate(t, op.rows, op.amount);
      InsertPartsMoves(t, parts, op.user, op.receiver, op.ids);
      forall d | d !in Touched(op)
        ensures Paid(Step(t, op, now).0.payments, d, PendingConfirmation) == Paid(t.payments, d, PendingConfirmation) {
        forall i | 0 <= i < |parts| ensures parts[i].debt != d {
          AllocateDebts(t, op.rows, op.amount, i);
        }
        InsertPartsPaid(t, parts, op.user, op.receiver, op.ids, d);
      }
    }
  }

  lemma CreateFrame(t: Tables, op: Op, now: Time)
    requires op.OpCreate? && Possible(t, op)
    ensures Frame(t, Step(t, op, now).0, {})
  {
    LedgerCreate.CreateExtends(t, op.expense, op.group, op.createdBy, op.payer, op.total, op.entries, op.debtIds, now);
  }

  // ---------------------------------------------------------------- every action keeps the invariant

  lemma ExpensesKnown(t: Tables)
    requires Consistent(t)
    ensures forall d :: d in t.debts ==> t.debts[d].expense in t.expenses
  {
    forall d | d in t.debts ensures t.debts[d].expense in t.expenses {
      assert DebtOk(t, d);
    }
  }

  lemma ReplaysOneMore(base: Tables, log: seq<Answer>, t: Tables, op: Op, now: Time)
    requires Replays(base, log, t) && Possible(t, op)
    ensures Replays(base, log + [Answer(op, now, Step(t, op, now).1)], Step(t, op, now).0)
  {
    var last := Answer(op, now, Step(t, op, now).1);
    var log' := log + [last];
    assert log'[..|log'| - 1] == log && log'[|log'| - 1] == last;
    assert Replays(base, log'[..|log'| - 1], t);
  }

  /** A change of the tables and the log that no lock holder notices. */
  lemma KeepOthers(s: Sys, t': Tables, log': seq<Answer>, changed: set<Id>, x: TxId)
    requires Consistent(s.t) && x in s.txs && Frame(s.t, t', changed) && s.log <= log'
    requires forall y :: y in s.txs && y != x && HeldDebt(s.txs[y]).Some? ==> HeldDebt(s.txs[y]).value !in changed
    requires forall y :: y in s.txs ==> TxOk(s.t, s.log, s.txs[y])
    ensures forall y :: y in s.txs && y != x ==> TxOk(t', log', s.txs[y])
  {
    ExpensesKnown(s.t);
    forall y | y in s.txs && y != x ensures TxOk(t', log', s.txs[y]) {
      FrameTx(s.t, t', changed, s.log, log', s.txs[y]);
    }
  }

  /** A transaction moves on and takes at most locks that are free. */
  lemma KeepPut(base: Tables, s: Sys, x: TxId, pc: Pc)
    requires Inv(base, s) && x in s.txs && TxOk(s.t, s.log, s.txs[x].(pc := pc))
    requires var h := HeldDebt(s.txs[x].(pc := pc)); h.Some? ==> h == HeldDebt(s.txs[x]) || DebtFree(s, h.value)
    requires var h := HeldPayment(s.txs[x].(pc := pc)); h.Some? ==>
             h == HeldPayment(s.txs[x]) || PaymentFree(s, h.value)
    ensures Inv(base, Put(s, x, pc))
  {
  }

  lemma ClosedOk(t: Tables, log: seq<Answer>, tx: Tx, outcome: Outcome)
    ensures TxOk(t, log + [Answer(tx.op, tx.now, outcome)], tx.(pc := Closed(outcome, Some(|log|))))
  {
    assert (log + [Answer(tx.op, tx.now, outcome)])[|log|] == Answer(tx.op, tx.now, outcome);
  }

  lemma LoggedStep(base: Tables, s: Sys, op: Op, now: Time, t': Tables, outcome: Outcome)
    requires Replays(base, s.log, s.t) && Consistent(s.t) && IsSingle(op) && Step(s.t, op, now) == (t', outcome)
    ensures Replays(base, s.log + [Answer(op, now, outcome)], t') && Consistent(t')
  {
    ReplaysOneMore(base, s.log, s.t, op, now);
    StepKeepsConsistent(s.t, op, now);
  }

  /** A transaction takes effect and closes; it changes only debts that no other one holds. */
  lemma KeepEffect(base: Tables, s: Sys, x: TxId, t': Tables, outcome: Outcome, changed: set<Id>)
    requires Inv(base, s) && x in s.txs && IsSingle(s.txs[x].op)
    requires Step(s.t, s.txs[x].op, s.txs[x].now) == (t', outcome) && Frame(s.t, t', changed)
    requires forall y :: y in s.txs && y != x && HeldDebt(s.txs[y]).Some? ==> HeldDebt(s.txs[y]).value !in changed
    ensures Inv(base, Close(s.(t := t'), x, outcome))
  {
    var tx := s.txs[x];
    var log' := s.log + [Answer(tx.op, tx.now, outcome)];
    LoggedStep(base, s, tx.op, tx.now, t', outcome);
    KeepOthers(s, t', log', changed, x);
    ClosedOk(t', s.log, tx, outcome);
    ExclusiveIdle(s, x, Closed(outcome, Some(|s.log|)));
    MovedInv(base, s, x, t', log', Closed(outcome, Some(|s.log|)));
  }

  lemma ExclusiveIdle(s: Sys, x: TxId, pc: Pc)
    requires Exclusive(s.txs) && x in s.txs && (pc.Closed? || pc.Missed?)
    ensures Exclusive(s.txs[x := s.txs[x].(pc := pc)])
  {
  }

  /** One transaction moves on, the tables and the log with it. */
  lemma MovedInv(base: Tables, s: Sys, x: TxId, t': Tables, log': seq<Answer>, pc: Pc)
    requires x in s.txs && Replays(base, log', t') && Consistent(t')
    requires Exclusive(s.txs[x := s.txs[x].(pc := pc)])
    requires TxOk(t', log', s.txs[x].(pc := pc))
    requires forall y :: y in s.txs && y != x ==> TxOk(t', log', s.txs[y])
    ensures Inv(base, Put(s.(t := t', log := log'), x, pc))
  {
  }

  /** A transaction gives up its locks without having changed anything; its answer is logged. */
  lemma KeepAnswer(base: Tables, s: Sys, x: TxId, outcome: Outcome)
    requires Inv(base, s) && x in s.txs && IsSingle(s.txs[x].op)
    requires Step(s.t, s.txs[x].op, s.txs[x].now) == (s.t, outcome)
    ensures Inv(base, Close(s, x, outcome))
  {
    KeepEffect(base, s, x, s.t, outcome, {});
    assert s.(t := s.t) == s;
  }

  lemma MissedOk(t: Tables, log: seq<Answer>, tx: Tx, at: nat)
    requires IsUpdate(tx.op) && Logged(log, at, tx) && log[at].outcome == Err(Classify(t, tx.op))
    ensures TxOk(t, log, tx.(pc := Missed(at)))
  {
  }

  lemma KeepMissed(base: Tables, s: Sys, x: TxId, error: Error)
    requires Inv(base, s) && x in s.txs && IsUpdate(s.txs[x].op) && error == Classify(s.t, s.txs[x].op)
    requires Step(s.t, s.txs[x].op, s.txs[x].now) == (s.t, Err(error))
    ensures Inv(base, Put(s.(log := s.log + [Answer(s.txs[x].op, s.txs[x].now, Err(error))]), x, Missed(|s.log|)))
  {
    var tx := s.txs[x];
    var log' := s.log + [Answer(tx.op, tx.now, Err(error))];
    ReplaysOneMore(base, s.log, s.t, tx.op, tx.now);
    KeepOthers(s, s.t, log', {}, x);
    ExclusiveIdle(s, x, Missed(|s.log|));
    assert log'[|s.log|] == Answer(tx.op, tx.now, Err(error));
    MissedOk(s.t, log', tx, |s.log|);
    MovedInv(base, s, x, s.t, log', Missed(|s.log|));
  }

  lemma KeepLockPayment(base: Tables, s: Sys, x: TxId)
    requires Inv(base, s) && x in s.txs
    ensures Inv(base, NextLockPayment(s, x))
  {
    var op := s.txs[x].op;
    if IsReview(op) && s.txs[x].pc == Begun {
      if Target(s.t, op) == None {
        AbsentStep(s.t, op, s.txs[x].now);
        KeepAnswer(base, s, x, Err(NotFound));
      } else if PaymentFree(s, op.payment) {
        KeepPut(base, s, x, PaymentHeld);
      }
    }
  }

  lemma KeepLockDebt(base: Tables, s: Sys, x: TxId)
    requires Inv(base, s) && x in s.txs
    ensures Inv(base, NextLockDebt(s, x))
  {
    var op := s.txs[x].op;
    if IsSingle(op) && s.txs[x].pc == (if IsReview(op) then PaymentHeld else Begun) {
      match Target(s.t, op)
      case None =>
        if IsMark(op) {
          AbsentStep(s.t, op, s.txs[x].now);
          KeepAnswer(base, s, x, Err(NotFound));
        }
      case Some(d) =>
        if DebtFree(s, d) && Hit(Read(s.t, op, d), op) {
          KeepPut(base, s, x, Holding(d, Read(s.t, op, d)));
        }
    }
  }

  lemma KeepMiss(base: Tables, s: Sys, x: TxId)
    requires Inv(base, s) && x in s.txs
    ensures Inv(base, NextMiss(s, x))
  {
    var op := s.txs[x].op;
    if IsUpdate(op) && s.txs[x].pc == Begun && !(Target(s.t, op).Some? && Hit(Read(s.t, op, op.debt), op)) {
      MissedStep(s.t, op, s.txs[x].now);
      KeepMissed(base, s, x, Classify(s.t, op));
    }
  }

  lemma KeepLookUp(base: Tables, s: Sys, x: TxId)
    requires Inv(base, s) && x in s.txs
    ensures Inv(base, NextLookUp(s, x))
  {
    if IsUpdate(s.txs[x].op) && s.txs[x].pc.Missed? {
      assert TxOk(s.t, s.log, s.txs[x]);
      KeepPut(base, s, x, Closed(Err(Classify(s.t, s.txs[x].op)), Some(s.txs[x].pc.at)));
    }
  }

  lemma KeepGuard(base: Tables, s: Sys, x: TxId)
    requires Inv(base, s) && x in s.txs
    ensures Inv(base, NextGuard(s, x))
  {
    var tx := s.txs[x];
    if tx.pc.Holding? {
      assert TxOk(s.t, s.log, tx);
      match Check(tx.pc.view, tx.op)
      case Some(e) =>
        CheckedStep(s.t, tx.op, tx.now, tx.pc.debt);
        KeepAnswer(base, s, x, Err(e));
      case None => KeepPut(base, s, x, Passed(tx.pc.debt, tx.pc.view));
    }
  }

  /** After the guards, a write finds its row; only the insert of a payment can still fail. */
  lemma WriteShape(s: Sys, x: TxId)
    requires x in s.txs && TxOk(s.t, s.log, s.txs[x]) && (s.txs[x].pc.Passed? || s.txs[x].pc.DebtWritten?)
    ensures var tx := s.txs[x]; var d, v := tx.pc.debt, tx.pc.view;
            NextWrite(s, x) ==
              if IsMark(tx.op) && !CanInsertPayment(s.t, tx.op.id, Marked(v, tx.op)) then Close(s, x, Err(Database))
              else if tx.op.OpConfirm? && tx.pc.Passed? then
                Put(s, x, DebtWritten(d, v, Reduced(v.debt, v.payment.value.amount, tx.now)))
              else Put(s, x, Written(d, v, Writes(v, d, tx.op, tx.now)))
  {
  }

  lemma KeepWrite(base: Tables, s: Sys, x: TxId)
    requires Inv(base, s) && x in s.txs
    ensures Inv(base, NextWrite(s, x))
  {
    var tx := s.txs[x];
    if tx.pc.Passed? || tx.pc.DebtWritten? {
      assert TxOk(s.t, s.log, tx);
      WriteShape(s, x);
      var (d, v) := (tx.pc.debt, tx.pc.view);
      if IsMark(tx.op) && !CanInsertPayment(s.t, tx.op.id, Marked(v, tx.op)) {
        UninsertableStep(s.t, tx.op, tx.now, d);
        KeepAnswer(base, s, x, Err(Database));
      } else if tx.op.OpConfirm? && tx.pc.Passed? {
        KeepPut(base, s, x, DebtWritten(d, v, Reduced(v.debt, v.payment.value.amount, tx.now)));
      } else {
        KeepPut(base, s, x, Written(d, v, Writes(v, d, tx.op, tx.now)));
      }
    }
  }

  lemma KeepCommit(base: Tables, s: Sys, x: TxId)
    requires Inv(base, s) && x in s.txs
    ensures Inv(base, NextCommit(s, x))
  {
    var tx := s.txs[x];
    if tx.pc.Written? {
      assert TxOk(s.t, s.log, tx);
      var (d, v) := (tx.pc.debt, tx.pc.view);
      if IsMark(tx.op) && tx.op.id in s.t.payments {
        UninsertableStep(s.t, tx.op, tx.now, d);
        KeepAnswer(base, s, x, Err(Database));
      } else {
        WrittenStep(s.t, tx.op, tx.now, d);
        WritesConfined(s.t, tx.op, tx.now, d, v);
        CommitFrame(s.t, tx.pc.buffer, d);
        KeepEffect(base, s, x, Apply(s.t, tx.pc.buffer), Ok, {d});
      }
    }
  }

  lemma KeepFail(base: Tables, s: Sys, x: TxId)
    requires Inv(base, s) && x in s.txs
    ensures Inv(base, NextFail(s, x))
  {
    if !s.txs[x].pc.Closed? {
      KeepPut(base, s, x, Closed(Err(Database), None));
    }
  }

  lemma InstantFrame(t: Tables, op: Op, now: Time)
    requires IsInstant(op) && Possible(t, op)
    ensures Frame(t, Step(t, op, now).0, Touched(op))
  {
    if !op.OpCreate? {
      BulkFrame(t, op, now);
    } else {
      CreateFrame(t, op, now);
    }
  }

  lemma KeepInstant(base: Tables, s: Sys, op: Op, now: Time)
    requires Inv(base, s)
    ensures Inv(base, NextInstant(s, op, now))
  {
    if CanHappen(s, op) {
      var (t', outcome) := Step(s.t, op, now);
      InstantFrame(s.t, op, now);
      ReplaysOneMore(base, s.log, s.t, op, now);
      StepKeepsConsistent(s.t, op, now);
      ExpensesKnown(s.t);
      forall y | y in s.txs ensures TxOk(t', s.log + [Answer(op, now, outcome)], s.txs[y]) {
        FrameTx(s.t, t', Touched(op), s.log, s.log + [Answer(op, now, outcome)], s.txs[y]);
      }
    }
  }

  lemma KeepBegin(base: Tables, s: Sys, x: TxId, op: Op, now: Time)
    requires Inv(base, s)
    ensures Inv(base, NextBegin(s, x, op, now))
  {
  }

  lemma NextKeeps(base: Tables, s: Sys, a: Action)
    requires Inv(base, s)
    ensures Inv(base, Next(s, a))
  {
    match a
    case Begin(x, op, now) => KeepBegin(base, s, x, op, now);
    case LockPayment(x) => if x in s.txs { KeepLockPayment(base, s, x); }
    case LockDebt(x) => if x in s.txs { KeepLockDebt(base, s, x); }
    case Miss(x) => if x in s.txs { KeepMiss(base, s, x); }
    case LookUp(x) => if x in s.txs { KeepLookUp(base, s, x); }
    case Guard(x) => if x in s.txs { KeepGuard(base, s, x); }
    case Write(x) => if x in s.txs { KeepWrite(base, s, x); }
    case Commit(x) => if x in s.txs { KeepCommit(base, s, x); }
    case Fail(x) => if x in s.txs { KeepFail(base, s, x); }
    case Instant(op, now) => KeepInstant(base, s, op, now);
  }

  lemma {:induction false} ExecKeeps(base: Tables, s: Sys, actions: seq<Action>)
    requires Inv(base, s)
    ensures Inv(base, Exec(s, actions))
    decreases |actions|
  {
    if actions == [] {
    } else {
      NextKeeps(base, s, actions[0]);
      ExecKeeps(base, Next(s, actions[0]), actions[1..]);
    }
  }

  lemma AdvanceKeepsOwned(s: Sys, s': Sys, x: TxId)
    requires OwnEntries(s) && EffectsOwned(s) && Advances(s, s', x)
    ensures OwnEntries(s') && EffectsOwned(s')
  {
    forall i: nat | i < |s'.log| && IsSingle(s'.log[i].op) && s'.log[i].outcome == Ok
      ensures exists y :: y in s'.txs && s'.txs[y].pc == Closed(Ok, Some(i))
    {
      if i < |s.log| {
        var y :| y in s.txs && s.txs[y].pc == Closed(Ok, Some(i));
        assert s'.txs[y] == s.txs[y];
      } else {
        assert s'.txs[x].pc == Closed(Ok, Some(i));
      }
    }
  }

  lemma OtherKeepsOwned(s: Sys, s': Sys, x: TxId)
    requires OwnEntries(s) && EffectsOwned(s) && (Begins(s, s', x) || Happens(s, s'))
    ensures OwnEntries(s') && EffectsOwned(s')
  {
    forall i: nat | i < |s'.log| && IsSingle(s'.log[i].op) && s'.log[i].outcome == Ok
      ensures exists y :: y in s'.txs && s'.txs[y].pc == Closed(Ok, Some(i))
    {
      var y :| y in s.txs && s.txs[y].pc == Closed(Ok, Some(i));
      assert s'.txs[y] == s.txs[y];
    }
  }

  lemma NextKeepsOwned(s: Sys, a: Action)
    requires OwnEntries(s) && EffectsOwned(s)
    ensures OwnEntries(Next(s, a)) && EffectsOwned(Next(s, a))
  {
    NextShape(s, a);
    if Next(s, a) == s {
    } else if a.Begin? {
      OtherKeepsOwned(s, Next(s, a), a.tx);
    } else if a.Instant? {
      OtherKeepsOwned(s, Next(s, a), 0);
    } else {
      AdvanceKeepsOwned(s, Next(s, a), a.tx);
    }
  }

  lemma {:induction false} ExecKeepsOwned(s: Sys, actions: seq<Action>)
    requires OwnEntries(s) && EffectsOwned(s)
    ensures OwnEntries(Exec(s, actions)) && EffectsOwned(Exec(s, actions))
    decreases |actions|
  {
    if actions == [] {
    } else {
      NextKeepsOwned(s, actions[0]);
      ExecKeepsOwned(Next(s, actions[0]), actions[1..]);
    }
  }

  // ---------------------------------------------------------------- main results

  /**
   * Every interleaving is a serial run: replaying the logged operations one at a time from
   * the initial tables gives the committed tables, and every transaction that has been
   * answered with more than a failure of the database has an entry of its own with its
   * operation and its answer.
   */
  lemma Serializable(base: Tables, actions: seq<Action>)
    requires Consistent(base)
    ensures var s := Exec(Start(base), actions);
            && Replays(base, s.log, s.t)
            && Consistent(s.t)
            && OwnEntries(s)
            && EffectsOwned(s)
            && (forall x :: x in s.txs && s.txs[x].pc.Closed? && s.txs[x].pc.entry.Some? ==>
                 Answered(s.log, s.txs[x].pc.entry.value, s.txs[x], s.txs[x].pc.outcome))
  {
    ExecKeeps(base, Start(base), actions);
    ExecKeepsOwned(Start(base), actions);
    var s := Exec(Start(base), actions);
    forall x | x in s.txs && s.txs[x].pc.Closed? && s.txs[x].pc.entry.Some?
      ensures Answered(s.log, s.txs[x].pc.entry.value, s.txs[x], s.txs[x].pc.outcome) {
      assert TxOk(s.t, s.log, s.txs[x]);
    }
  }

  function Events(log: seq<Answer>): (run: seq<Event>)
    ensures |run| == |log|
  {
    seq(|log|, i requires 0 <= i < |log| => Event(log[i].op, log[i].now))
  }

  /** A replayed log is a run of the ledger. */
  lemma {:induction false} ReplayIsRun(base: Tables, log: seq<Answer>, t: Tables)
    requires Replays(base, log, t)
    ensures Legal(base, Events(log)) && After(base, Events(log)) == t
    decreases |log|
  {
    if log == [] {
    } else {
      var init, last := log[..|log| - 1], log[|log| - 1];
      var t0 :| Replays(base, init, t0) && Possible(t0, last.op)
                && Step(t0, last.op, last.now) == (t, last.outcome);
      ReplayIsRun(base, init, t0);
      RunOneMore(base, Events(init), Event(last.op, last.now));
      assert Events(log) == Events(init) + [Event(last.op, last.now)];
    }
  }

  /** Every committed state of an interleaving is where the run of its log leads. */
  lemma ReachedByRun(base: Tables, actions: seq<Action>)
    requires Consistent(base)
    ensures var s := Exec(Start(base), actions);
            Legal(base, Events(s.log)) && After(base, Events(s.log)) == s.t
  {
    Serializable(base, actions);
    ReplayIsRun(base, Exec(Start(base), actions).log, Exec(Start(base), actions).t);
  }

  /**
   * Money is conserved at every moment of every interleaving, whatever the sub-selects of
   * the marking queries saw.
   */
  lemma ConcurrentConservation(base: Tables, actions: seq<Action>, debt: Id)
    requires Consistent(base) && debt in Exec(Start(base), actions).t.debts
    ensures var t := Exec(Start(base), actions).t; var d := t.debts[debt];
            && d.remaining + Paid(t.payments, debt, Confirmed) == d.original
            && 0 <= d.remaining <= d.original
            && StatusAgrees(d)
  {
    var s := Exec(Start(base), actions);
    ReachedByRun(base, actions);
    Conservation(base, Events(s.log), debt);
  }

  predicate ExactAction(a: Action) {
    a.Begin? || a.Instant? ==> a.op.Exact()
  }

  predicate ExactSys(s: Sys) {
    (forall x :: x in s.txs ==> s.txs[x].op.Exact()) && (forall i :: 0 <= i < |s.log| ==> s.log[i].op.Exact())
  }

  /** An action starts one operation or goes on with one; it logs at most that one. */
  lemma NextKeepsExact(s: Sys, a: Action)
    requires ExactSys(s) && ExactAction(a)
    ensures ExactSys(Next(s, a))
  {
  }

  lemma {:induction false} ExecKeepsExact(s: Sys, actions: seq<Action>)
    requires ExactSys(s) && forall i :: 0 <= i < |actions| ==> ExactAction(actions[i])
    ensures ExactSys(Exec(s, actions))
    decreases |actions|
  {
    if actions == [] {
    } else {
      NextKeepsExact(s, actions[0]);
      ExecKeepsExact(Next(s, actions[0]), actions[1..]);
    }
  }

  predicate AllExactActions(actions: seq<Action>) {
    forall i :: 0 <= i < |actions| ==> ExactAction(actions[i])
  }

  lemma ExactRun(base: Tables, actions: seq<Action>)
    requires AllExactActions(actions)
    ensures AllExact(Events(Exec(Start(base), actions).log))
  {
    ExecKeepsExact(Start(base), actions);
  }

  lemma SinglePendingReached(base: Tables, actions: seq<Action>)
    requires Consistent(base) && SinglePending(base) && AllExactActions(actions)
    ensures Consistent(Exec(Start(base), actions).t) && SinglePending(Exec(Start(base), actions).t)
  {
    var run := Events(Exec(Start(base), actions).log);
    ReachedByRun(base, actions);
    ExactRun(base, actions);
    RunKeepsConsistent(base, run);
    RunKeepsSingle(base, run);
  }

  /**
   * When sub-selects see the payments as they are under the lock, every pending payment can
   * at every moment be confirmed by its receiver and is the only one of its debt.
   */
  lemma ConcurrentNoStuckPayment(base: Tables, actions: seq<Action>, id: Id, now: Time)
    requires Consistent(base) && SinglePending(base) && AllExactActions(actions)
    requires var t := Exec(Start(base), actions).t; id in t.payments && t.payments[id].status == PendingConfirmation
    ensures var t := Exec(Start(base), actions).t;
            Confirm(t, id, t.payments[id].receivedBy, now).1 == Ok && PendingOk(t, id)
  {
    SinglePendingReached(base, actions);
    PendingIsConfirmable(Exec(Start(base), actions).t, id, now);
  }

  lemma {:induction false} ReviewedInLog(base: Tables, log: seq<Answer>, t: Tables, i: nat, payment: Id)
    requires Consistent(base) && Replays(base, log, t) && i < |log|
    requires Reviews(log[i].op, payment) && log[i].outcome == Ok
    ensures Consistent(t) && Decided(t, payment)
    decreases |log|
  {
    var init, last := log[..|log| - 1], log[|log| - 1];
    var t0 :| Replays(base, init, t0) && Possible(t0, last.op) && Step(t0, last.op, last.now) == (t, last.outcome);
    ReplayIsRun(base, init, t0);
    RunKeepsConsistent(base, Events(init));
    StepKeepsConsistent(t0, last.op, last.now);
    if i == |log| - 1 {
      ReviewDecides(t0, Event(last.op, last.now), payment);
    } else {
      ReviewedInLog(base, init, t0, i, payment);
      StepMoves(t0, last.op, last.now);
      assert PaymentMoves(t0.payments[payment], t.payments[payment]);
    }
  }

  lemma {:induction false} ReviewedTwice(base: Tables, log: seq<Answer>, t: Tables, i: nat, j: nat, payment: Id)
    requires Consistent(base) && Replays(base, log, t) && i < j < |log|
    requires Reviews(log[i].op, payment) && log[i].outcome == Ok && Reviews(log[j].op, payment)
    ensures log[j].outcome != Ok
    decreases |log|
  {
    var init, last := log[..|log| - 1], log[|log| - 1];
    var t0 :| Replays(base, init, t0) && Possible(t0, last.op) && Step(t0, last.op, last.now) == (t, last.outcome);
    if j == |log| - 1 {
      ReviewedInLog(base, init, t0, i, payment);
      assert PaymentOk(t0, payment);
      DecidedRefuses(t0, Event(last.op, last.now), payment);
    } else {
      ReviewedTwice(base, init, t0, i, j, payment);
    }
  }

  /** At most one successful review of a payment is logged. */
  lemma OneReviewLogged(base: Tables, log: seq<Answer>, t: Tables, i: nat, j: nat, payment: Id)
    requires Consistent(base) && Replays(base, log, t) && i < |log| && j < |log|
    requires Reviews(log[i].op, payment) && Reviews(log[j].op, payment)
    requires log[i].outcome == Ok && log[j].outcome == Ok
    ensures i == j
  {
    if i < j {
      ReviewedTwice(base, log, t, i, j, payment);
    } else if j < i {
      ReviewedTwice(base, log, t, j, i, payment);
    }
  }

  /** Of all the transactions that confirm or refuse one payment, at most one is answered Ok. */
  lemma OneReviewCommits(base: Tables, actions: seq<Action>, x: TxId, y: TxId, payment: Id)
    requires Consistent(base)
    requires var txs := Exec(Start(base), actions).txs;
             && x in txs && Reviews(txs[x].op, payment) && txs[x].pc.Closed? && txs[x].pc.outcome == Ok
             && y in txs && Reviews(txs[y].op, payment) && txs[y].pc.Closed? && txs[y].pc.outcome == Ok
    ensures x == y
  {
    var s := Exec(Start(base), actions);
    Serializable(base, actions);
    var i, j := s.txs[x].pc.entry.value, s.txs[y].pc.entry.value;
    OneReviewLogged(base, s.log, s.t, i, j, payment);
  }
}
