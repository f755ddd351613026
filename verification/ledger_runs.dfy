/**
 * Whole runs: any number of operations, one after the other, with any arguments.
 */
module LedgerRuns {
  import opened Wrappers
  import opened Sums
  import opened Ledger
  import opened LedgerInvariants
  import LedgerBulk
  import LedgerCreate

  datatype Event = Event(op: Op, now: Time)

  ghost predicate Legal(t: Tables, run: seq<Event>)
    decreases |run|
  {
    run == [] || (Possible(t, run[0].op) && Legal(Step(t, run[0].op, run[0].now).0, run[1..]))
  }

  ghost function After(t: Tables, run: seq<Event>): Tables
    requires Legal(t, run)
    decreases |run|
  {
    if run == [] then t else After(Step(t, run[0].op, run[0].now).0, run[1..])
  }

  predicate AllExact(run: seq<Event>) {
    forall i :: 0 <= i < |run| ==> run[i].op.Exact()
  }

  lemma {:induction false} RunOneMore(t: Tables, run: seq<Event>, e: Event)
    requires Legal(t, run) && Possible(After(t, run), e.op)
    ensures Legal(t, run + [e]) && After(t, run + [e]) == Step(After(t, run), e.op, e.now).0
    decreases |run|
  {
    if run == [] {
      assert (run + [e])[1..] == [];
    } else {
      RunOneMore(Step(t, run[0].op, run[0].now).0, run[1..], e);
      assert (run + [e])[1..] == run[1..] + [e];
    }
  }

  lemma {:induction false} LegalPrefix(t: Tables, run: seq<Event>, k: nat)
    requires Legal(t, run) && k <= |run|
    ensures Legal(t, run[..k])
    ensures k < |run| ==> Possible(After(t, run[..k]), run[k].op) && Legal(t, run[..k + 1])
    ensures k < |run| ==> After(t, run[..k + 1]) == Step(After(t, run[..k]), run[k].op, run[k].now).0
    decreases |run|
  {
    if k == 0 {
      assert run[..0] == [];
      if run != [] {
        assert run[..1] == [run[0]] && [run[0]][1..] == [];
      }
    } else {
      LegalPrefix(Step(t, run[0].op, run[0].now).0, run[1..], k - 1);
      assert run[..k][1..] == run[1..][..k - 1];
      if k < |run| {
        assert run[..k + 1][1..] == run[1..][..k];
      }
    }
  }

  // ---------------------------------------------------------------- invariants

  lemma StepKeepsConsistent(t: Tables, op: Op, now: Time)
    requires Consistent(t) && Possible(t, op)
    ensures Consistent(Step(t, op, now).0)
  {
    match op
    case OpCreate(e, g, c, p, total, entries, ids) => LedgerCreate.KeepCreate(t, e, g, c, p, total, entries, ids, now);
    case OpAccept(d, u) => KeepAccept(t, d, u, now);
    case OpRejectDebt(d, u) => KeepRejectDebt(t, d, u, now);
    case OpReview(d, u, a) => KeepReview(t, d, u, a, now);
    case OpMark(d, u, a, id) =>
      PendingSumZero(t, d);
      KeepMark(t, Paid(t.payments, d, PendingConfirmation), d, u, a, id);
    case OpStaleMark(d, u, a, id, seen) => KeepMark(t, seen, d, u, a, id);
    case OpBulkMark(u, r, a, ids, rows) => LedgerBulk.KeepBulk(t, rows, u, r, a, ids);
    case OpStaleBulkMark(u, r, a, ids, rows) => LedgerBulk.KeepBulk(t, rows, u, r, a, ids);
    case OpConfirm(p, u) => KeepConfirm(t, p, u, now);
    case OpRejectPayment(p, u) => KeepRejectPayment(t, p, u, now);
  }

  lemma StepKeepsSingle(t: Tables, op: Op, now: Time)
    requires Consistent(t) && SinglePending(t) && Possible(t, op) && op.Exact()
    ensures SinglePending(Step(t, op, now).0)
  {
    match op
    case OpCreate(e, g, c, p, total, entries, ids) =>
      LedgerCreate.CreateExtends(t, e, g, c, p, total, entries, ids, now);
      KeepSingleDebts(t, Step(t, op, now).0);
    case OpAccept(d, u) => KeepDebtOpsSingle(t, d, u, None, now);
    case OpRejectDebt(d, u) => KeepDebtOpsSingle(t, d, u, None, now);
    case OpReview(d, u, a) => KeepDebtOpsSingle(t, d, u, a, now);
    case OpMark(d, u, a, id) =>
      PendingSumZero(t, d);
      KeepMarkSingle(t, Paid(t.payments, d, PendingConfirmation), d, u, a, id);
    case OpBulkMark(u, r, a, ids, rows) =>
      if BulkMarkRows(t, rows, u, r, a, ids).1 == Ok {
        LedgerBulk.BulkIsMarks(t, rows, u, r, a, ids);
      }
    case OpConfirm(p, u) => KeepReviewedSingle(t, p, u, now);
    case OpRejectPayment(p, u) => KeepReviewedSingle(t, p, u, now);
  }

  lemma {:induction false} RunKeepsConsistent(t: Tables, run: seq<Event>)
    requires Consistent(t) && Legal(t, run)
    ensures Consistent(After(t, run))
    decreases |run|
  {
    if run == [] {
    } else {
      StepKeepsConsistent(t, run[0].op, run[0].now);
      RunKeepsConsistent(Step(t, run[0].op, run[0].now).0, run[1..]);
    }
  }

  lemma {:induction false} RunKeepsSingle(t: Tables, run: seq<Event>)
    requires Consistent(t) && SinglePending(t) && Legal(t, run) && AllExact(run)
    ensures SinglePending(After(t, run))
    decreases |run|
  {
    if run == [] {
    } else {
      StepKeepsConsistent(t, run[0].op, run[0].now);
      StepKeepsSingle(t, run[0].op, run[0].now);
      assert forall i :: 0 <= i < |run[1..]| ==> run[1..][i] == run[i + 1];
      RunKeepsSingle(Step(t, run[0].op, run[0].now).0, run[1..]);
    }
  }

  /** Groups have members, and nothing has happened yet. */
  predicate FreshTables(t: Tables) {
    t.expenses == map[] && t.participants == map[] && t.debts == map[] && t.payments == map[]
  }

  lemma FreshTablesOk(t: Tables)
    requires FreshTables(t)
    ensures Consistent(t) && SinglePending(t)
  {
  }

  // ---------------------------------------------------------------- conservation

  /**
   * Money is conserved over every run, even when the marking queries saw old payments and
   * several payments of one debt are pending at once.
   */
  lemma Conservation(t: Tables, run: seq<Event>, debt: Id)
    requires Consistent(t) && Legal(t, run) && debt in After(t, run).debts
    ensures var d := After(t, run).debts[debt];
            && d.remaining + Paid(After(t, run).payments, debt, Confirmed) == d.original
            && 0 <= d.remaining <= d.original
            && StatusAgrees(d)
            && (d.status == Pending || d.status == Rejected ==> Unpaid(After(t, run), debt))
  {
    RunKeepsConsistent(t, run);
    assert DebtOk(After(t, run), debt);
  }

  // ---------------------------------------------------------------- no stuck payment

  lemma PendingIsConfirmable(t: Tables, id: Id, now: Time)
    requires Consistent(t) && SinglePending(t) && id in t.payments && t.payments[id].status == PendingConfirmation
    ensures var p := t.payments[id];
            && Confirm(t, id, p.receivedBy, now).1 == Ok
            && RejectPayment(t, id, p.receivedBy, now).1 == Ok
            && p.debt in t.debts && p.receivedBy == t.debts[p.debt].creditor
            && PendingOk(t, id)
  {
    assert PaymentOk(t, id) && PendingOk(t, id);
  }

  /**
   * After a run whose marking queries saw the current payments, every pending payment can
   * be confirmed, and refused, by its receiver.
   */
  lemma NoStuckPayment(t: Tables, run: seq<Event>, id: Id, now: Time)
    requires Consistent(t) && SinglePending(t) && Legal(t, run) && AllExact(run)
    requires id in After(t, run).payments && After(t, run).payments[id].status == PendingConfirmation
    ensures var t' := After(t, run); var p := t'.payments[id];
            && Confirm(t', id, p.receivedBy, now).1 == Ok
            && RejectPayment(t', id, p.receivedBy, now).1 == Ok
            && p.debt in t'.debts && p.receivedBy == t'.debts[p.debt].creditor
            && PendingOk(t', id)
  {
    RunKeepsConsistent(t, run);
    RunKeepsSingle(t, run);
    PendingIsConfirmable(After(t, run), id, now);
  }

  /**
   * From fresh tables on, money is conserved over every run, and over every run with
   * current sub-selects every pending payment can be confirmed by its receiver.
   */
  lemma FromFreshTables(t: Tables, run: seq<Event>)
    requires FreshTables(t) && Legal(t, run)
    ensures var t' := After(t, run);
            && (forall d :: d in t'.debts ==>
                 t'.debts[d].remaining + Paid(t'.payments, d, Confirmed) == t'.debts[d].original)
            && (AllExact(run) ==> forall p, now :: p in t'.payments && t'.payments[p].status == PendingConfirmation ==>
                 Confirm(t', p, t'.payments[p].receivedBy, now).1 == Ok)
  {
    var t' := After(t, run);
    FreshTablesOk(t);
    forall d | d in t'.debts
      ensures t'.debts[d].remaining + Paid(t'.payments, d, Confirmed) == t'.debts[d].original {
      Conservation(t, run, d);
    }
    if AllExact(run) {
      forall p, now | p in t'.payments && t'.payments[p].status == PendingConfirmation
        ensures Confirm(t', p, t'.payments[p].receivedBy, now).1 == Ok {
        NoStuckPayment(t, run, p, now);
      }
    }
  }

  // ---------------------------------------------------------------- history of one row

  /** What one operation can do to a debt row. */
  predicate DebtMoves(x: Debt, y: Debt) {
    && y.expense == x.expense && y.debtor == x.debtor && y.creditor == x.creditor && y.createdAt == x.createdAt
    && (|| y == x
        || (x.status == Pending && (y.status == Accepted || y.status == Rejected)
            && y.original == x.original && y.remaining == x.remaining)
        || (x.status == Rejected && y.status == Pending && y.original == y.remaining > 0)
        || (x.Active() && (y.status == PartiallySettled || y.status == Settled)
            && y.original == x.original && y.remaining < x.remaining && y.acceptedAt == x.acceptedAt))
  }

  /** What one operation can do to a payment row. */
  predicate PaymentMoves(x: Payment, y: Payment) {
    && y.debt == x.debt && y.paidBy == x.paidBy && y.receivedBy == x.receivedBy && y.amount == x.amount
    && (y == x || (x.status == PendingConfirmation && (y.status == Confirmed || y.status == Refused)))
  }

  predicate Moves(t: Tables, t': Tables) {
    && (forall d :: d in t.debts ==> d in t'.debts && DebtMoves(t.debts[d], t'.debts[d]))
    && (forall p :: p in t.payments ==> p in t'.payments && PaymentMoves(t.payments[p], t'.payments[p]))
  }

  lemma {:induction false} InsertPartsMoves(t: Tables, parts: seq<Part>, user: Id, receiver: Id, ids: seq<Id>)
    requires |parts| <= |ids| && InsertParts(t, parts, user, receiver, ids).Some?
    ensures var t' := InsertParts(t, parts, user, receiver, ids).value;
            && t' == t.(payments := t'.payments)
            && (forall p :: p in t.payments ==> p in t'.payments && t'.payments[p] == t.payments[p])
            && (forall p :: p in t'.payments && p !in t.payments ==>
                 t'.payments[p].status == PendingConfirmation
                 && exists i :: 0 <= i < |parts| && parts[i].debt == t'.payments[p].debt)
    decreases |parts|
  {
    if parts == [] {
    } else {
      var p := NewPayment(parts[0].debt, user, receiver, parts[0].amount);
      var t1 := t.(payments := t.payments[ids[0] := p]);
      InsertPartsMoves(t1, parts[1..], user, receiver, ids[1..]);
      var t' := InsertParts(t, parts, user, receiver, ids).value;
      forall q | q in t'.payments && q !in t.payments
        ensures t'.payments[q].status == PendingConfirmation
        ensures exists i :: 0 <= i < |parts| && parts[i].debt == t'.payments[q].debt
      {
        if q == ids[0] {
          assert parts[0].debt == t'.payments[q].debt;
        } else {
          var i :| 0 <= i < |parts[1..]| && parts[1..][i].debt == t'.payments[q].debt;
          assert parts[i + 1].debt == t'.payments[q].debt;
        }
      }
    }
  }

  lemma BulkMoves(t: Tables, rows: seq<Id>, user: Id, receiver: Id, amount: int, ids: seq<Id>)
    requires LedgerBulk.Known(t, rows) && |rows| <= |ids|
    ensures Moves(t, BulkMarkRows(t, rows, user, receiver, amount, ids).0)
  {
    if BulkMarkRows(t, rows, user, receiver, amount, ids).1 == Ok {
      AllocateLength(t, rows, amount);
      InsertPartsMoves(t, Allocate(t, rows, amount), user, receiver, ids);
    }
  }

  lemma ConfirmMoves(t: Tables, id: Id, user: Id, now: Time)
    requires id in t.payments ==> PaymentOk(t, id)
    ensures Moves(t, Confirm(t, id, user, now).0)
  {
  }

  lemma RejectPaymentMoves(t: Tables, id: Id, user: Id, now: Time)
    ensures Moves(t, RejectPayment(t, id, user, now).0)
  {
  }

  lemma ReplaceDebtMoves(t: Tables, id: Id, d: Debt)
    requires id in t.debts && DebtMoves(t.debts[id], d)
    ensures Moves(t, t.(debts := t.debts[id := d]))
  {
  }

  lemma DecideDebtMoves(t: Tables, id: Id, user: Id, now: Time)
    ensures Moves(t, Accept(t, id, user, now).0)
    ensures Moves(t, RejectDebt(t, id, user, now).0)
  {
    if id in t.debts && t.debts[id].status == Pending {
      var d := t.debts[id];
      ReplaceDebtMoves(t, id, d.(status := Accepted, acceptedAt := Some(now), updatedAt := now));
      ReplaceDebtMoves(t, id, d.(status := Rejected, rejectedAt := Some(now), updatedAt := now));
    }
  }

  lemma ReviewDebtMoves(t: Tables, id: Id, user: Id, amount: Option<int>, now: Time)
    requires id in t.debts ==> t.debts[id].original > 0
    ensures Moves(t, ReviewRejected(t, id, user, amount, now).0)
  {
    if ReviewHits(t, id, user) && AmountAllowed(amount) {
      ReplaceDebtMoves(t, id, Resent(t.debts[id], amount, now));
    }
  }

  lemma MarkMoves(t: Tables, seen: int, debt: Id, user: Id, amount: int, id: Id)
    ensures Moves(t, MarkSeeing(t, seen, debt, user, amount, id).0)
  {
  }

  lemma DebtOpsMove(t: Tables, op: Op, now: Time)
    requires Consistent(t) && (op.OpAccept? || op.OpRejectDebt? || op.OpReview?)
    ensures Moves(t, Step(t, op, now).0)
  {
    if op.OpReview? {
      assert op.debt in t.debts ==> DebtOk(t, op.debt);
      ReviewDebtMoves(t, op.debt, op.user, op.adjusted, now);
    } else {
      DecideDebtMoves(t, op.debt, op.user, now);
    }
  }

  lemma StepMoves(t: Tables, op: Op, now: Time)
    requires Consistent(t) && Possible(t, op)
    ensures Moves(t, Step(t, op, now).0)
  {
    match op
    case OpCreate(e, g, c, p, total, entries, ids) =>
      LedgerCreate.CreateExtends(t, e, g, c, p, total, entries, ids, now);
    case OpAccept(_, _) => DebtOpsMove(t, op, now);
    case OpRejectDebt(_, _) => DebtOpsMove(t, op, now);
    case OpReview(_, _, _) => DebtOpsMove(t, op, now);
    case OpMark(d, u, a, id) => MarkMoves(t, Paid(t.payments, d, PendingConfirmation), d, u, a, id);
    case OpStaleMark(d, u, a, id, seen) => MarkMoves(t, seen, d, u, a, id);
    case OpBulkMark(u, r, a, ids, rows) => BulkMoves(t, rows, u, r, a, ids);
    case OpStaleBulkMark(u, r, a, ids, rows) => BulkMoves(t, rows, u, r, a, ids);
    case OpConfirm(p, u) => ConfirmMoves(t, p, u, now);
    case OpRejectPayment(p, u) => RejectPaymentMoves(t, p, u, now);
  }

  /** Once accepted, a debt keeps its amount and parties and only ever goes down. */
  predicate DebtDescends(x: Debt, y: Debt) {
    && y.debtor == x.debtor && y.creditor == x.creditor && y.expense == x.expense
    && (x.Active() || x.status == Settled ==>
         (y.Active() || y.status == Settled) && y.original == x.original && y.remaining <= x.remaining)
    && (x.status == Settled ==> y == x)
  }

  predicate PaymentFinal(x: Payment, y: Payment) {
    && y.debt == x.debt && y.paidBy == x.paidBy && y.receivedBy == x.receivedBy && y.amount == x.amount
    && (x.status != PendingConfirmation ==> y == x)
  }

  lemma {:induction false} DebtHistory(t: Tables, run: seq<Event>, d: Id)
    requires Consistent(t) && Legal(t, run) && d in t.debts
    ensures d in After(t, run).debts && DebtDescends(t.debts[d], After(t, run).debts[d])
    decreases |run|
  {
    if run == [] {
    } else {
      var t1 := Step(t, run[0].op, run[0].now).0;
      StepMoves(t, run[0].op, run[0].now);
      StepKeepsConsistent(t, run[0].op, run[0].now);
      DebtHistory(t1, run[1..], d);
      DescendsFurther(t.debts[d], t1.debts[d], After(t, run).debts[d]);
    }
  }

  lemma DescendsFurther(x: Debt, y: Debt, z: Debt)
    requires DebtMoves(x, y) && DebtDescends(y, z)
    ensures DebtDescends(x, z)
  {
  }

  lemma {:induction false} PaymentHistory(t: Tables, run: seq<Event>, p: Id)
    requires Consistent(t) && Legal(t, run) && p in t.payments
    ensures p in After(t, run).payments && PaymentFinal(t.payments[p], After(t, run).payments[p])
    decreases |run|
  {
    if run == [] {
    } else {
      var t1 := Step(t, run[0].op, run[0].now).0;
      StepMoves(t, run[0].op, run[0].now);
      StepKeepsConsistent(t, run[0].op, run[0].now);
      PaymentHistory(t1, run[1..], p);
      assert PaymentMoves(t.payments[p], t1.payments[p]);
    }
  }

  /**
   * Over every run: no row disappears, an accepted debt never becomes pending again, its
   * remaining amount never grows, a settled debt and a decided payment never change.
   */
  lemma HistoryIsMonotone(t: Tables, run: seq<Event>)
    requires Consistent(t) && Legal(t, run)
    ensures forall d :: d in t.debts ==> d in After(t, run).debts && DebtDescends(t.debts[d], After(t, run).debts[d])
    ensures forall p :: p in t.payments ==>
            p in After(t, run).payments && PaymentFinal(t.payments[p], After(t, run).payments[p])
  {
    forall d | d in t.debts ensures d in After(t, run).debts && DebtDescends(t.debts[d], After(t, run).debts[d]) {
      DebtHistory(t, run, d);
    }
    forall p | p in t.payments
      ensures p in After(t, run).payments && PaymentFinal(t.payments[p], After(t, run).payments[p]) {
      PaymentHistory(t, run, p);
    }
  }

  /** The transitions of docs/implementation.md, and staying where one is. */
  predicate AllowedTransition(x: DebtStatus, y: DebtStatus) {
    || x == y
    || (x == DebtStatus.Pending && (y == Accepted || y == Rejected))
    || (x == Rejected && y == DebtStatus.Pending)
    || (x == Accepted && (y == PartiallySettled || y == Settled))
    || (x == PartiallySettled && y == Settled)
  }

  lemma NewDebtsArePending(t: Tables, op: Op, now: Time, d: Id)
    requires Possible(t, op)
    ensures d !in t.debts && d in Step(t, op, now).0.debts ==> Step(t, op, now).0.debts[d].status == DebtStatus.Pending
  {
    if op.OpCreate? {
      LedgerCreate.CreateExtends(t, op.expense, op.group, op.createdBy, op.payer, op.total,
                                 op.entries, op.debtIds, now);
    } else if (op.OpBulkMark? || op.OpStaleBulkMark?) && Step(t, op, now).1 == Ok {
      AllocateLength(t, op.rows, op.amount);
      InsertPartsMoves(t, Allocate(t, op.rows, op.amount), op.user, op.receiver, op.ids);
    }
  }

  /** From t to t', debt d starts as pending, or moves by an allowed transition, or stays. */
  predicate StatusMoves(t: Tables, t': Tables, d: Id) {
    && (d in t.debts ==> d in t'.debts && AllowedTransition(t.debts[d].status, t'.debts[d].status))
    && (d !in t.debts && d in t'.debts ==> t'.debts[d].status == DebtStatus.Pending)
  }

  lemma StepTransition(t: Tables, op: Op, now: Time, d: Id)
    requires Consistent(t) && Possible(t, op)
    ensures StatusMoves(t, Step(t, op, now).0, d)
  {
    StepMoves(t, op, now);
    NewDebtsArePending(t, op, now, d);
    assert d in t.debts ==> DebtMoves(t.debts[d], Step(t, op, now).0.debts[d]);
  }

  /** At every step of every run, the status of a debt makes an allowed transition or none. */
  lemma TransitionsAllowed(t: Tables, run: seq<Event>, k: nat, d: Id)
    requires Consistent(t) && Legal(t, run) && k < |run|
    ensures Legal(t, run[..k]) && Legal(t, run[..k + 1])
    ensures StatusMoves(After(t, run[..k]), After(t, run[..k + 1]), d)
  {
    LegalPrefix(t, run, k);
    RunKeepsConsistent(t, run[..k]);
    StepTransition(After(t, run[..k]), run[k].op, run[k].now, d);
  }

  /** A payment that is pending on a settled debt can never be confirmed by anyone. */
  lemma SettledForGood(t: Tables, run: seq<Event>, payment: Id, user: Id, now: Time)
    requires Consistent(t) && Legal(t, run) && payment in t.payments
    requires t.payments[payment].debt in t.debts && t.debts[t.payments[payment].debt].status == Settled
    ensures payment in After(t, run).payments && Confirm(After(t, run), payment, user, now).1.Err?
  {
    DebtHistory(t, run, t.payments[payment].debt);
    PaymentHistory(t, run, payment);
  }

  predicate Reviews(op: Op, payment: Id) {
    (op.OpConfirm? || op.OpRejectPayment?) && op.payment == payment
  }

  predicate Decided(t: Tables, payment: Id) {
    payment in t.payments && t.payments[payment].status != PendingConfirmation
  }

  lemma ReviewDecides(t: Tables, e: Event, payment: Id)
    requires Reviews(e.op, payment) && Step(t, e.op, e.now).1 == Ok
    ensures Decided(Step(t, e.op, e.now).0, payment)
  {
  }

  lemma DecidedRefuses(t: Tables, e: Event, payment: Id)
    requires Reviews(e.op, payment) && Decided(t, payment) && t.payments[payment].debt in t.debts
    ensures Step(t, e.op, e.now).0 == t
    ensures Step(t, e.op, e.now).1 ==
            Err(if t.payments[payment].receivedBy != e.op.user then Forbidden else InvalidPaymentState)
  {
  }

  /** A payment is confirmed or refused at most once in a run. */
  lemma ReviewedOnce(t: Tables, first: Event, between: seq<Event>, second: Event, payment: Id)
    requires Consistent(t) && Possible(t, first.op) && Reviews(first.op, payment) && Reviews(second.op, payment)
    requires Step(t, first.op, first.now).1 == Ok
    requires Legal(Step(t, first.op, first.now).0, between)
    ensures var t' := After(Step(t, first.op, first.now).0, between);
            payment in t'.payments
            && Step(t', second.op, second.now) ==
               (t', Err(if t'.payments[payment].receivedBy != second.op.user then Forbidden else InvalidPaymentState))
  {
    var t1 := Step(t, first.op, first.now).0;
    ReviewDecides(t, first, payment);
    StepKeepsConsistent(t, first.op, first.now);
    DecidedStays(t1, between, payment);
    DecidedRefuses(After(t1, between), second, payment);
  }

  lemma DecidedStays(t: Tables, run: seq<Event>, payment: Id)
    requires Consistent(t) && Legal(t, run) && Decided(t, payment)
    ensures var t' := After(t, run);
            Decided(t', payment) && t'.payments[payment] == t.payments[payment] && t'.payments[payment].debt in t'.debts
  {
    PaymentHistory(t, run, payment);
    RunKeepsConsistent(t, run);
    assert PaymentOk(After(t, run), payment);
  }

  // ---------------------------------------------------------------- number of confirmations

  function ConfirmedOne(payments: map<Id, Payment>, debt: Id): Id -> int {
    p => if p in payments && payments[p].debt == debt && payments[p].status == Confirmed then 1 else 0
  }

  /** A debt is paid off by at most `original` confirmed payments. */
  lemma ConfirmationsBounded(t: Tables, run: seq<Event>, debt: Id)
    requires Consistent(t) && Legal(t, run) && debt in After(t, run).debts
    ensures var t' := After(t, run);
            Sum(t'.payments.Keys, ConfirmedOne(t'.payments, debt)) <= t'.debts[debt].original - t'.debts[debt].remaining
  {
    RunKeepsConsistent(t, run);
    var t' := After(t, run);
    assert DebtOk(t', debt);
    forall p | p in t'.payments
      ensures ConfirmedOne(t'.payments, debt)(p) <= ShareOf(t'.payments, debt, Confirmed)(p) {
      assert PaymentOk(t', p);
    }
    SumMonotone(t'.payments.Keys, ConfirmedOne(t'.payments, debt), ShareOf(t'.payments, debt, Confirmed));
  }

  // ---------------------------------------------------------------- several pending payments

  function Restrict(s: set<Id>, f: Id -> int): Id -> int {
    x => if x in s then f(x) else 0
  }

  lemma SumOfMore(s: set<Id>, s': set<Id>, f: Id -> int)
    requires s <= s' && forall x :: x in s' ==> f(x) >= 0
    ensures Sum(s, f) <= Sum(s', f)
  {
    SumExtend(s, s', f, Restrict(s, f));
    SumMonotone(s', Restrict(s, f), f);
  }

  /** Summands that do not shrink, and two that start at zero. */
  lemma SumOfTwoMore(s: set<Id>, f: Id -> int, g: Id -> int, p: Id, q: Id)
    requires p in s && q in s && p != q && f(p) == 0 && f(q) == 0
    requires forall x :: x in s ==> f(x) <= g(x)
    ensures Sum(s, f) + g(p) + g(q) <= Sum(s, g)
  {
    SumRemove(s, p, f);
    SumRemove(s, p, g);
    SumRemove(s - {p}, q, f);
    SumRemove(s - {p}, q, g);
    SumMonotone(s - {p} - {q}, f, g);
  }

  lemma ConfirmedGrows(t: Tables, t': Tables, debt: Id, p: Id, q: Id)
    requires p in t.payments && q in t.payments && p != q && t.payments[p].debt == debt == t.payments[q].debt
    requires t.payments[p].status == PendingConfirmation == t.payments[q].status
    requires forall x :: x in t.payments ==> x in t'.payments && PaymentFinal(t.payments[x], t'.payments[x])
    requires forall x :: x in t'.payments ==> t'.payments[x].amount > 0
    requires t'.payments[p].status == Confirmed == t'.payments[q].status
    ensures Paid(t.payments, debt, Confirmed) + t.payments[p].amount + t.payments[q].amount <=
            Paid(t'.payments, debt, Confirmed)
  {
    var f, g := ShareOf(t.payments, debt, Confirmed), ShareOf(t'.payments, debt, Confirmed);
    forall x | x in t.payments ensures f(x) <= g(x) {
      assert PaymentFinal(t.payments[x], t'.payments[x]);
    }
    SumOfTwoMore(t.payments.Keys, f, g, p, q);
    SumOfMore(t.payments.Keys, t'.payments.Keys, g);
  }

  lemma PaymentsPositive(t: Tables)
    requires Consistent(t)
    ensures forall x :: x in t.payments ==> t.payments[x].amount > 0
  {
    forall x | x in t.payments ensures t.payments[x].amount > 0 {
      assert PaymentOk(t, x);
    }
  }

  /** The account of a debt that has a payment, at both ends of a run. */
  lemma PaidDebtAccount(t: Tables, run: seq<Event>, p: Id)
    requires Consistent(t) && Legal(t, run) && p in t.payments
    ensures var debt := t.payments[p].debt;
            && debt in t.debts && debt in After(t, run).debts
            && t.debts[debt].remaining + Paid(t.payments, debt, Confirmed) == t.debts[debt].original
            && Paid(After(t, run).payments, debt, Confirmed) <= t.debts[debt].original
  {
    var debt := t.payments[p].debt;
    assert PaymentOk(t, p) && DebtOk(t, debt);
    DebtHistory(t, run, debt);
    Conservation(t, run, debt);
  }

  /**
   * Two pending payments that together exceed what remains of their debt: whatever happens
   * next, they are never both confirmed.
   */
  lemma OverbookedNotBoth(t: Tables, run: seq<Event>, p: Id, q: Id)
    requires Consistent(t) && Legal(t, run) && p in t.payments && q in t.payments && p != q
    requires t.payments[p].debt == t.payments[q].debt && t.payments[p].debt in t.debts
    requires t.payments[p].status == PendingConfirmation == t.payments[q].status
    requires t.payments[p].amount + t.payments[q].amount > t.debts[t.payments[p].debt].remaining
    ensures p in After(t, run).payments && q in After(t, run).payments
    ensures !(After(t, run).payments[p].status == Confirmed && After(t, run).payments[q].status == Confirmed)
  {
    var t' := After(t, run);
    PaidDebtAccount(t, run, p);
    HistoryIsMonotone(t, run);
    if t'.payments[p].status == Confirmed && t'.payments[q].status == Confirmed {
      RunKeepsConsistent(t, run);
      PaymentsPositive(t');
      ConfirmedGrows(t, t', t.payments[p].debt, p, q);
    }
  }
}
