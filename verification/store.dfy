/**
 * The repositories as they run: one object holding the tables, one method per SQL
 * statement, and one method per repository operation that begins a transaction, runs its
 * statements, and commits or rolls back. Each operation is proved to do to the tables,
 * and to answer, what the function of the same name in module Ledger says.
 */
module Store {
  import opened Wrappers
  import Sums
  import opened Ledger
  import LedgerBulk
  import LedgerRuns
  import opened LedgerCreate

  class Repository {
    var members: map<(Id, Id), Role>
    var expenses: map<Id, Expense>
    var participants: map<(Id, Id), int>
    var debts: map<Id, Debt>
    var payments: map<Id, Payment>

    constructor (t: Tables)
      ensures State() == t
    {
      members, expenses, participants, debts, payments := t.members, t.expenses, t.participants, t.debts, t.payments;
    }

    function State(): Tables
      reads this
    {
      Tables(members, expenses, participants, debts, payments)
    }

    /** Back to the tables as they were when the transaction began. */
    method Rollback(begun: Tables)
      modifies this
      ensures State() == begun
    {
      members, expenses, participants := begun.members, begun.expenses, begun.participants;
      debts, payments := begun.debts, begun.payments;
    }

    // -------------------------------------------------------------- statements on debts

    /** UPDATE debts SET status = 'accepted'. */
    method AcceptDebt(id: Id, user: Id, now: Time) returns (hit: bool)
      modifies this`debts
      ensures hit <==> id in old(debts) && old(debts)[id].debtor == user && old(debts)[id].status == Pending
      ensures !hit ==> debts == old(debts)
      ensures hit ==>
                debts == old(debts)[id :=
                           old(debts)[id].(status := Accepted, acceptedAt := Some(now), updatedAt := now)]
    {
      hit := id in debts && debts[id].debtor == user && debts[id].status == Pending;
      if hit {
        debts := debts[id := debts[id].(status := Accepted, acceptedAt := Some(now), updatedAt := now)];
      }
    }

    /** UPDATE debts SET status = 'rejected'. */
    method RejectPendingDebt(id: Id, user: Id, now: Time) returns (hit: bool)
      modifies this`debts
      ensures hit <==> id in old(debts) && old(debts)[id].debtor == user && old(debts)[id].status == Pending
      ensures !hit ==> debts == old(debts)
      ensures hit ==>
                debts == old(debts)[id :=
                           old(debts)[id].(status := Rejected, rejectedAt := Some(now), updatedAt := now)]
    {
      hit := id in debts && debts[id].debtor == user && debts[id].status == Pending;
      if hit {
        debts := debts[id := debts[id].(status := Rejected, rejectedAt := Some(now), updatedAt := now)];
      }
    }

    /** UPDATE debts ... FROM expenses: None when the new amount violates a CHECK. */
    method ReviewRejectedDebt(id: Id, user: Id, adjusted: Option<int>, now: Time) returns (hit: Option<bool>)
      modifies this`debts
      ensures hit == if !ReviewHits(old(State()), id, user) then Some(false)
                     else if AmountAllowed(adjusted) then Some(true) else None
      ensures hit != Some(true) ==> debts == old(debts)
      ensures hit == Some(true) ==> debts == old(debts)[id := Resent(old(debts)[id], adjusted, now)]
      ensures hit == Some(true) ==>
                debts[id].original == debts[id].remaining ==
                if adjusted == None then old(debts)[id].original else adjusted.value
    {
      if !ReviewHits(State(), id, user) {
        return Some(false);
      }
      var amount := if adjusted.Some? then adjusted.value else debts[id].original;
      if adjusted.Some? && !(0 < amount <= MAX_AMOUNT) {
        return None;
      }
      debts := debts[id := debts[id].(original := amount, remaining := amount, status := Pending,
                                      acceptedAt := None, rejectedAt := None, settledAt := None, updatedAt := now)];
      return Some(true);
    }

    /** UPDATE debts SET remaining_amount_minor = remaining_amount_minor - amount. */
    method ApplyConfirmedPaymentToDebt(id: Id, amount: int, now: Time) returns (hit: bool)
      modifies this`debts
      ensures hit <==> id in old(debts) && old(debts)[id].Active() && old(debts)[id].remaining >= amount
      ensures !hit ==> debts == old(debts)
      ensures hit ==> debts == old(debts)[id := Reduced(old(debts)[id], amount, now)]
    {
      hit := id in debts && debts[id].Active() && debts[id].remaining >= amount;
      if hit {
        var left := debts[id].remaining - amount;
        debts := debts[id := debts[id].(
          remaining := left,
          status := if left == 0 then Settled else PartiallySettled,
          settledAt := if left == 0 then Some(now) else debts[id].settledAt,
          updatedAt := now)];
      }
    }

    // -------------------------------------------------------------- statements on payments

    /** INSERT INTO payments. */
    method CreatePayment(id: Id, p: Payment) returns (inserted: bool)
      modifies this`payments
      ensures inserted <==> CanInsertPayment(old(State()), id, p)
      ensures payments == if inserted then old(payments)[id := p] else old(payments)
    {
      inserted := CanInsertPayment(State(), id, p);
      if inserted {
        payments := payments[id := p];
      }
    }

    /** UPDATE payments SET status = 'confirmed' or 'rejected' WHERE it is still pending. */
    method DecidePayment(id: Id, status: PaymentStatus, now: Time) returns (hit: bool)
      requires status != PendingConfirmation
      modifies this`payments
      ensures hit <==> id in old(payments) && old(payments)[id].status == PendingConfirmation
      ensures !hit ==> payments == old(payments)
      ensures hit ==> payments == old(payments)[id :=
                        if status == Confirmed then old(payments)[id].(status := Confirmed, confirmedAt := Some(now))
                        else old(payments)[id].(status := Refused, rejectedAt := Some(now))]
    {
      hit := id in payments && payments[id].status == PendingConfirmation;
      if hit {
        payments := payments[id :=
          if status == Confirmed then payments[id].(status := Confirmed, confirmedAt := Some(now))
          else payments[id].(status := Refused, rejectedAt := Some(now))];
      }
    }

    /** SELECT COALESCE(SUM(amount_minor), 0) over the pending payments of a debt. */
    method PendingAmount(debt: Id) returns (sum: int)
      ensures sum == Paid(payments, debt, PendingConfirmation)
    {
      sum := 0;
      var todo := payments.Keys;
      while todo != {}
        invariant todo <= payments.Keys
        invariant sum + Sums.Sum(todo, ShareOf(payments, debt, PendingConfirmation)) ==
                  Paid(payments, debt, PendingConfirmation)
        decreases todo
      {
        var p :| p in todo;
        Sums.SumRemove(todo, p, ShareOf(payments, debt, PendingConfirmation));
        if payments[p].debt == debt && payments[p].status == PendingConfirmation {
          sum := sum + payments[p].amount;
        }
        todo := todo - {p};
      }
    }

    /** The locking query of BulkMark: eligible debts, oldest update first. */
    method ListBulkPaymentDebts(user: Id, receiver: Id) returns (rows: seq<Id>)
      ensures BulkRows(State(), rows, user, receiver)
    {
      var t := State();
      var eligible := set d | d in debts && Payable(t, d, user, receiver) && !HasPending(t, d);
      rows := [];
      var todo := eligible;
      while todo != {}
        invariant todo <= eligible
        invariant forall d :: d in rows <==> d in eligible && d !in todo
        invariant PayableRows(t, rows, user, receiver)
        invariant forall i, d :: 0 <= i < |rows| && d in todo ==> rows[i] in t.debts && Before(t, rows[i], d)
        decreases todo
      {
        ghost var first := FirstExists(t, todo);
        var d :| d in todo && First(t, todo, d);
        assert First(t, todo, d);
        forall e | e in todo && e != d ensures e in t.debts && Before(t, d, e) {
        }
        rows := rows + [d];
        todo := todo - {d};
      }
    }

    // -------------------------------------------------------------- debt operations

    method Accept(id: Id, user: Id, now: Time) returns (outcome: Outcome)
      modifies this
      ensures (State(), outcome) == Ledger.Accept(old(State()), id, user, now)
    {
      var hit := AcceptDebt(id, user, now);
      if hit {
        return Ok;
      }
      return Err(ClassifyTransition(State(), id, user));
    }

    method RejectDebt(id: Id, user: Id, now: Time) returns (outcome: Outcome)
      modifies this
      ensures (State(), outcome) == Ledger.RejectDebt(old(State()), id, user, now)
    {
      var hit := RejectPendingDebt(id, user, now);
      if hit {
        return Ok;
      }
      return Err(ClassifyTransition(State(), id, user));
    }

    method ReviewRejected(id: Id, user: Id, adjusted: Option<int>, now: Time) returns (outcome: Outcome)
      modifies this
      ensures (State(), outcome) == Ledger.ReviewRejected(old(State()), id, user, adjusted, now)
      ensures outcome == Ok ==>
                && id in old(debts) && id in debts
                && debts[id].original == debts[id].remaining ==
                   if adjusted == None then old(debts)[id].original else adjusted.value
    {
      var hit := ReviewRejectedDebt(id, user, adjusted, now);
      match hit
      case None => return Err(Database);
      case Some(true) => return Ok;
      case Some(false) => return Err(ClassifyReview(State(), id, user));
    }

    // -------------------------------------------------------------- payment operations

    method Mark(debt: Id, user: Id, amount: int, id: Id) returns (outcome: Outcome)
      modifies this
      ensures (State(), outcome) == Ledger.Mark(old(State()), debt, user, amount, id)
    {
      var begun := State();
      if debt !in debts {
        return Err(NotFound);
      }
      var row := debts[debt];
      var pending := PendingAmount(debt);
      if pending > MAX_AMOUNT {
        return Err(Database);
      }
      if row.debtor != user {
        return Err(Forbidden);
      }
      if !row.Active() {
        return Err(InvalidDebtState);
      }
      if pending > 0 {
        return Err(PendingPaymentExists);
      }
      if amount > row.remaining - pending {
        return Err(AmountExceedsRemaining);
      }
      var inserted := CreatePayment(id, NewPayment(debt, user, row.creditor, amount));
      if !inserted {
        Rollback(begun);
        return Err(Database);
      }
      return Ok;
    }

    method Confirm(id: Id, user: Id, now: Time) returns (outcome: Outcome)
      modifies this
      ensures (State(), outcome) == Ledger.Confirm(old(State()), id, user, now)
      ensures outcome == Ok ==>
                && id in old(payments) && old(payments)[id].receivedBy == user
                && old(payments)[id].status == PendingConfirmation && id in payments
                && payments[id].status == Confirmed
    {
      if id !in payments || payments[id].debt !in debts {
        return Err(NotFound);
      }
      var payment, debt := payments[id], debts[payments[id].debt];
      if payment.receivedBy != user {
        return Err(Forbidden);
      }
      if payment.status != PendingConfirmation {
        return Err(InvalidPaymentState);
      }
      if !debt.Active() {
        return Err(InvalidDebtState);
      }
      if payment.amount > debt.remaining {
        return Err(AmountExceedsRemaining);
      }
      // After the guards neither UPDATE can miss its row.
      var applied := ApplyConfirmedPaymentToDebt(payment.debt, payment.amount, now);
      assert applied;
      var confirmed := DecidePayment(id, Confirmed, now);
      assert confirmed;
      return Ok;
    }

    method RejectPayment(id: Id, user: Id, now: Time) returns (outcome: Outcome)
      modifies this
      ensures (State(), outcome) == Ledger.RejectPayment(old(State()), id, user, now)
      ensures outcome == Ok ==>
                && id in old(payments) && old(payments)[id].receivedBy == user
                && old(payments)[id].status == PendingConfirmation && id in payments
                && payments[id].status == Refused
    {
      if id !in payments || payments[id].debt !in debts {
        return Err(NotFound);
      }
      if payments[id].receivedBy != user {
        return Err(Forbidden);
      }
      if payments[id].status != PendingConfirmation {
        return Err(InvalidPaymentState);
      }
      var rejected := DecidePayment(id, Refused, now);
      assert rejected;
      return Ok;
    }

    /** The total in int64, wrapping as Go does. */
    method TotalAvailable64(rows: seq<Id>) returns (total: int)
      requires LedgerBulk.Known(State(), rows)
      ensures total == Wrap64(TotalAvailable(State(), rows))
    {
      total := 0;
      for i := 0 to |rows|
        invariant LedgerBulk.Known(State(), rows[..i])
        invariant total == Wrap64(TotalAvailable(State(), rows[..i]))
      {
        assert rows[..i + 1][..i] == rows[..i];
        LedgerBulk.WrapAdd(TotalAvailable(State(), rows[..i]), debts[rows[i]].remaining);
        total := Wrap64(total + debts[rows[i]].remaining);
      }
      assert rows[..|rows|] == rows;
    }

    /** The allocation loop of BulkMark over its locked rows. */
    method CreateParts(rows: seq<Id>, user: Id, receiver: Id, amount: int, ids: seq<Id>)
      returns (ok: bool, created: seq<Payment>)
      requires LedgerBulk.Known(State(), rows) && |rows| <= |ids|
      modifies this`payments
      ensures |Allocate(old(State()), rows, amount)| <= |ids|
      ensures ok ==>
                InsertParts(old(State()), Allocate(old(State()), rows, amount), user, receiver, ids) == Some(State())
      ensures ok ==> created == PaymentsOf(Allocate(old(State()), rows, amount), user, receiver)
      ensures !ok ==> InsertParts(old(State()), Allocate(old(State()), rows, amount), user, receiver, ids) == None
    {
      ghost var begun := State();
      AllocateLength(begun, rows, amount);
      ghost var parts := Allocate(begun, rows, amount);
      ghost var goal := (InsertParts(begun, parts, user, receiver, ids), PaymentsOf(parts, user, receiver));
      created := [];
      var remaining := amount;
      var i := 0;
      while i < |rows| && remaining != 0
        invariant 0 <= i <= |rows|
        invariant Underway(begun, State(), rows, i, remaining, user, receiver, ids, created, goal)
      {
        var part := debts[rows[i]].remaining;
        if part > remaining {
          part := remaining;
        }
        PartStep(begun, State(), rows, i, remaining, user, receiver, ids, created, goal);
        var payment := NewPayment(rows[i], user, receiver, part);
        var inserted := CreatePayment(ids[i], payment);
        if !inserted {
          return false, [];
        }
        created := created + [payment];
        remaining := remaining - part;
        i := i + 1;
      }
      return true, created;
    }

    /**
     * BulkMark: lock and list the eligible debts, compare with the wrapping total, create
     * one payment per debt until the amount is used up. `newId` supplies the payment ids.
     */
    method BulkMark(user: Id, receiver: Id, amount: int, newId: nat -> Id)
      returns (outcome: Outcome, rows: seq<Id>, created: seq<Payment>)
      modifies this
      ensures BulkRows(old(State()), rows, user, receiver)
      ensures (State(), outcome) == BulkMarkRows(old(State()), rows, user, receiver, amount, Supply(newId, |rows|))
      ensures created == if outcome == Ok then PaymentsOf(Allocate(old(State()), rows, amount), user, receiver) else []
    {
      var begun := State();
      rows := ListBulkPaymentDebts(user, receiver);
      if |rows| == 0 {
        return Err(NotFound), rows, [];
      }
      var totalAvailable := TotalAvailable64(rows);
      if amount > totalAvailable {
        return Err(AmountExceedsRemaining), rows, [];
      }
      var ok, made := CreateParts(rows, user, receiver, amount, Supply(newId, |rows|));
      if !ok {
        Rollback(begun);
        return Err(Database), rows, [];
      }
      return Ok, rows, made;
    }

    // -------------------------------------------------------------- expense creation

    /** INSERT INTO expense_participants. */
    method CreateExpenseParticipant(expense: Id, user: Id, share: int) returns (inserted: bool)
      modifies this`participants
      ensures inserted <==> CanInsertParticipant(old(State()), expense, user, share)
      ensures participants == if inserted then old(participants)[(expense, user) := share] else old(participants)
    {
      inserted := CanInsertParticipant(State(), expense, user, share);
      if inserted {
        participants := participants[(expense, user) := share];
      }
    }

    /** INSERT INTO debts. */
    method CreateDebt(id: Id, d: Debt) returns (inserted: bool)
      modifies this`debts
      ensures inserted <==> CanInsertDebt(old(State()), id, d)
      ensures debts == if inserted then old(debts)[id := d] else old(debts)
    {
      inserted := CanInsertDebt(State(), id, d);
      if inserted {
        debts := debts[id := d];
      }
    }

    method CreateExpense(id: Id, group: Id, createdBy: Id, payer: Id, total: int,
                         entries: seq<Entry>, ids: seq<Id>, now: Time)
      returns (outcome: Outcome, created: seq<(Id, int)>, owed: seq<(Id, Debt)>)
      requires |entries| <= |ids|
      modifies this
      ensures (State(), outcome) ==
              Ledger.CreateExpense(old(State()), id, group, createdBy, payer, total, entries, ids, now)
      ensures created == if outcome == Ok then ParticipantRows(entries) else []
      ensures owed == if outcome == Ok then DebtRows(id, payer, entries, ids, now) else []
    {
      var begun := State();
      if !IsMember(State(), group, createdBy) {
        return Err(Forbidden), [], [];
      }
      if !IsMember(State(), group, payer) {
        return Err(PayerNotMember), [], [];
      }
      for i := 0 to |entries|
        invariant State() == begun
        invariant forall k :: 0 <= k < i ==> IsMember(begun, group, entries[k].user)
      {
        if !IsMember(State(), group, entries[i].user) {
          assert entries[i] in entries;
          return Err(ParticipantNotMember), [], [];
        }
      }
      if !CanInsertExpense(State(), id, total) {
        return Err(Database), [], [];
      }
      expenses := expenses[id := Expense(group, total, payer)];
      var ok;
      ok, created, owed := CreateEntries(id, payer, entries, ids, now);
      if !ok {
        Rollback(begun);
        return Err(Database), [], [];
      }
      return Ok, created, owed;
    }

    /** The loop over the participants: a row for each, and a debt unless it is the payer's text. */
    method CreateEntries(id: Id, payer: Id, entries: seq<Entry>, ids: seq<Id>, now: Time)
      returns (ok: bool, created: seq<(Id, int)>, owed: seq<(Id, Debt)>)
      requires |entries| <= |ids|
      modifies this`participants, this`debts
      ensures ok ==> InsertEntries(old(State()), id, payer, entries, ids, now) == Some(State())
      ensures ok ==> created == ParticipantRows(entries) && owed == DebtRows(id, payer, entries, ids, now)
      ensures !ok ==> InsertEntries(old(State()), id, payer, entries, ids, now) == None
    {
      ghost var begun := State();
      ghost var goal := (InsertEntries(begun, id, payer, entries, ids, now), ParticipantRows(entries),
                         DebtRows(id, payer, entries, ids, now));
      created, owed := [], [];
      for i := 0 to |entries|
        invariant Inserting(State(), id, payer, entries, ids, now, i, created, owed, goal)
      {
        EntryStep(State(), id, payer, entries, ids, now, i, created, owed, goal);
        var e := entries[i];
        var joined := CreateExpenseParticipant(id, e.user, e.share);
        if !joined {
          return false, created, owed;
        }
        created := created + [(e.user, e.share)];
        if !e.samePayerText {
          var debt := NewDebt(id, e.user, payer, e.share, now);
          var inserted := CreateDebt(ids[i], debt);
          if !inserted {
            return false, created, owed;
          }
          owed := owed + [(ids[i], debt)];
        }
      }
      return true, created, owed;
    }
  }

  /** Inserting the entries from the i-th on completes the inserts and the rows to answer. */
  predicate Inserting(t: Tables, expense: Id, payer: Id, entries: seq<Entry>, ids: seq<Id>, now: Time, i: nat,
                      created: seq<(Id, int)>, owed: seq<(Id, Debt)>,
                      goal: (Option<Tables>, seq<(Id, int)>, seq<(Id, Debt)>)) {
    && i <= |entries| <= |ids|
    && InsertEntries(t, expense, payer, entries[i..], ids[i..], now) == goal.0
    && created + ParticipantRows(entries[i..]) == goal.1
    && owed + DebtRows(expense, payer, entries[i..], ids[i..], now) == goal.2
  }

  /** One turn of the loop takes the first entry off what is left to insert. */
  lemma EntryStep(t: Tables, expense: Id, payer: Id, entries: seq<Entry>, ids: seq<Id>, now: Time, i: nat,
                  created: seq<(Id, int)>, owed: seq<(Id, Debt)>,
                  goal: (Option<Tables>, seq<(Id, int)>, seq<(Id, Debt)>))
    requires Inserting(t, expense, payer, entries, ids, now, i, created, owed, goal) && i < |entries|
    ensures var e := entries[i];
            var (debt, created') := (NewDebt(expense, e.user, payer, e.share, now), created + [(e.user, e.share)]);
            if !CanInsertParticipant(t, expense, e.user, e.share) then goal.0 == None
            else
              var t1 := t.(participants := t.participants[(expense, e.user) := e.share]);
              if e.samePayerText then Inserting(t1, expense, payer, entries, ids, now, i + 1, created', owed, goal)
              else if !CanInsertDebt(t1, ids[i], debt) then goal.0 == None
              else Inserting(t1.(debts := t1.debts[ids[i] := debt]), expense, payer, entries, ids, now, i + 1,
                             created', owed + [(ids[i], debt)], goal)
  {
    var (rest, left) := (entries[i..], ids[i..]);
    assert rest[0] == entries[i] && rest[1..] == entries[i + 1..] && left[0] == ids[i] && left[1..] == ids[i + 1..];
    ParticipantRowsFront(rest);
    DebtRowsFront(expense, payer, rest, left, now);
  }

  lemma ParticipantRowsFront(entries: seq<Entry>)
    requires entries != []
    ensures ParticipantRows(entries) == [(entries[0].user, entries[0].share)] + ParticipantRows(entries[1..])
  {
  }

  lemma DebtRowsFront(expense: Id, payer: Id, entries: seq<Entry>, ids: seq<Id>, now: Time)
    requires entries != [] && |entries| <= |ids|
    ensures var debt := NewDebt(expense, entries[0].user, payer, entries[0].share, now);
            DebtRows(expense, payer, entries, ids, now) ==
            (if entries[0].samePayerText then [] else [(ids[0], debt)])
            + DebtRows(expense, payer, entries[1..], ids[1..], now)
  {
  }

  function Supply(newId: nat -> Id, n: nat): (ids: seq<Id>)
    ensures |ids| == n
  {
    seq(n, i requires 0 <= i < n => newId(i))
  }

  function PaymentsOf(parts: seq<Part>, user: Id, receiver: Id): (ps: seq<Payment>)
    ensures |ps| == |parts|
  {
    if parts == [] then []
    else [NewPayment(parts[0].debt, user, receiver, parts[0].amount)] + PaymentsOf(parts[1..], user, receiver)
  }

  /** The i-th payment that a bulk payment answers with is the row it added under the i-th id, for the i-th part. */
  lemma {:induction false} CreatedIsInserted(t: Tables, parts: seq<Part>, user: Id, receiver: Id, ids: seq<Id>, i: nat)
    requires |parts| <= |ids| && InsertParts(t, parts, user, receiver, ids).Some? && i < |parts|
    ensures var (t', created) := (InsertParts(t, parts, user, receiver, ids).value, PaymentsOf(parts, user, receiver));
            && ids[i] !in t.payments && ids[i] in t'.payments && t'.payments[ids[i]] == created[i]
            && created[i] == Payment(parts[i].debt, user, receiver, parts[i].amount, PendingConfirmation, None, None)
    decreases |parts|
  {
    var t1 := t.(payments := t.payments[ids[0] := NewPayment(parts[0].debt, user, receiver, parts[0].amount)]);
    if i == 0 {
      LedgerRuns.InsertPartsMoves(t1, parts[1..], user, receiver, ids[1..]);
    } else {
      CreatedIsInserted(t1, parts[1..], user, receiver, ids[1..], i - 1);
    }
  }

  /** It adds no other row. */
  lemma {:induction false} OnlyPartsInserted(t: Tables, parts: seq<Part>, user: Id, receiver: Id, ids: seq<Id>)
    requires |parts| <= |ids| && InsertParts(t, parts, user, receiver, ids).Some?
    ensures InsertParts(t, parts, user, receiver, ids).value.payments.Keys ==
            t.payments.Keys + set i | 0 <= i < |parts| :: ids[i]
    decreases |parts|
  {
    if parts == [] {
    } else {
      var t1 := t.(payments := t.payments[ids[0] := NewPayment(parts[0].debt, user, receiver, parts[0].amount)]);
      OnlyPartsInserted(t1, parts[1..], user, receiver, ids[1..]);
      assert forall i :: 0 < i < |parts| ==> ids[i] == ids[1..][i - 1];
      assert (set i | 0 <= i < |parts| :: ids[i]) == {ids[0]} + set i | 0 <= i < |parts[1..]| :: ids[1..][i];
    }
  }

  /** Inserting what is left to allocate from row i on completes the bulk payment. */
  ghost predicate Underway(begun: Tables, t: Tables, rows: seq<Id>, i: nat, remaining: int, user: Id, receiver: Id,
                           ids: seq<Id>, created: seq<Payment>, goal: (Option<Tables>, seq<Payment>)) {
    && LedgerBulk.Known(begun, rows) && i <= |rows| <= |ids| && t == begun.(payments := t.payments)
    && var rest := Allocate(begun, rows[i..], remaining);
       && |rest| <= |ids[i..]| && InsertParts(t, rest, user, receiver, ids[i..]) == goal.0
       && created + PaymentsOf(rest, user, receiver) == goal.1
  }

  /** One turn of the allocation loop takes the first part off what is left to insert. */
  lemma PartStep(begun: Tables, t: Tables, rows: seq<Id>, i: nat, remaining: int, user: Id, receiver: Id, ids: seq<Id>,
                 created: seq<Payment>, goal: (Option<Tables>, seq<Payment>))
    requires Underway(begun, t, rows, i, remaining, user, receiver, ids, created, goal)
    requires i < |rows| && remaining != 0
    ensures var available := begun.debts[rows[i]].remaining;
            var part := if available > remaining then remaining else available;
            var p := NewPayment(rows[i], user, receiver, part);
            if CanInsertPayment(t, ids[i], p)
            then Underway(begun, t.(payments := t.payments[ids[i] := p]), rows, i + 1, remaining - part,
                          user, receiver, ids, created + [p], goal)
            else goal.0 == None
  {
    var available := begun.debts[rows[i]].remaining;
    var part := if available > remaining then remaining else available;
    var parts, rest := Allocate(begun, rows[i..], remaining), Allocate(begun, rows[i + 1..], remaining - part);
    assert rows[i..][1..] == rows[i + 1..] && ids[i..][1..] == ids[i + 1..] && ids[i..][0] == ids[i];
    assert parts == [Part(rows[i], part)] + rest && parts[1..] == rest;
    var p := NewPayment(rows[i], user, receiver, part);
    assert created + ([p] + PaymentsOf(rest, user, receiver)) == created + [p] + PaymentsOf(rest, user, receiver);
  }

  lemma BeforeTransitive(t: Tables, a: Id, b: Id, c: Id)
    requires a in t.debts && b in t.debts && c in t.debts && Before(t, a, b) && Before(t, b, c)
    ensures Before(t, a, c)
  {
  }

  predicate First(t: Tables, todo: set<Id>, d: Id) {
    d in todo && forall e :: e in todo ==> e in t.debts && d in t.debts && (e == d || Before(t, d, e))
  }

  /** The query order has a first element. */
  lemma {:induction false} FirstExists(t: Tables, todo: set<Id>) returns (d: Id)
    requires todo != {} && forall d :: d in todo ==> d in t.debts
    ensures First(t, todo, d)
    decreases todo
  {
    d :| d in todo;
    var others := todo - {d};
    assert todo == others + {d};
    if others != {} {
      var o := FirstExists(t, others);
      if Before(t, d, o) {
        forall e | e in todo && e != d && e != o ensures Before(t, d, e) {
          assert e in others;
          BeforeTransitive(t, d, o, e);
        }
      } else {
        forall e | e in todo ensures e == o || Before(t, o, e) {
          assert e == d || e in others;
        }
        d := o;
      }
    }
  }

  /** The bulk query has one answer: the order leaves no choice. */
  lemma {:induction false} BulkRowsUnique(t: Tables, a: seq<Id>, b: seq<Id>, user: Id, receiver: Id)
    requires BulkRows(t, a, user, receiver) && BulkRows(t, b, user, receiver)
    ensures a == b
  {
    SortedUnique(t, a, b);
  }

  predicate Sorted(t: Tables, rows: seq<Id>) {
    && (forall d :: d in rows ==> d in t.debts)
    && (forall i, j :: 0 <= i < j < |rows| ==> rows[i] in t.debts && rows[j] in t.debts && Before(t, rows[i], rows[j]))
  }

  lemma {:induction false} SortedUnique(t: Tables, a: seq<Id>, b: seq<Id>)
    requires Sorted(t, a) && Sorted(t, b) && (forall d :: d in a <==> d in b)
    ensures a == b
    decreases |a|
  {
    assert b != [] ==> b[0] in b;
    if a != [] {
      assert a[0] in b;
      assert b[0] in a;
      assert a[0] == b[0];
      forall d ensures d in a[1..] <==> d in b[1..] {
        assert d in a <==> d == a[0] || d in a[1..];
        assert d in b <==> d == b[0] || d in b[1..];
        assert a[0] !in a[1..] && b[0] !in b[1..];
      }
      SortedUnique(t, a[1..], b[1..]);
    }
  }
}
