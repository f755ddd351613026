/**
 * Two runs from fresh tables that show what the code does not promise: a bulk payment that
 * is refused although the debts cover it, and a payment that nobody can ever confirm.
 */
module LedgerExamples {
  import opened Wrappers
  import opened Ledger
  import opened LedgerRuns

  /** A group of two: user 1, and user 2 who owns it and pays. */
  function Group(): Tables {
    Tables(map[(0, 1) := Member, (0, 2) := Owner], map[], map[], map[], map[])
  }

  /** An expense of user 2 that user 1 bears alone; it and its debt have the given id. */
  function Spend(id: Id, total: int): Event {
    Event(OpCreate(id, 0, 2, 2, total, [Entry(1, total, false)], [id]), 0)
  }

  function Agree(id: Id): Event { Event(OpAccept(id, 1), 0) }

  /** The debt after it was accepted. */
  function Agreed(id: Id, total: int): Debt {
    NewDebt(id, 1, 2, total, 0).(status := Accepted, acceptedAt := Some(0))
  }

  /** The tables with one more expense and its accepted debt. */
  function With(t: Tables, id: Id, total: int): Tables {
    Tables(t.members, t.expenses[id := Expense(0, total, 2)], t.participants[(id, 1) := total],
           t.debts[id := Agreed(id, total)], t.payments)
  }

  predicate IdIsNew(t: Tables, id: Id) {
    && id !in t.expenses && id !in t.debts && (id, 1) !in t.participants
    && forall d :: d in t.debts ==> t.debts[d].expense != id
  }

  /** The tables after the expense was created and before its debt is accepted. */
  function Spent(t: Tables, id: Id, total: int): Tables {
    With(t, id, total).(debts := t.debts[id := NewDebt(id, 1, 2, total, 0)])
  }

  lemma SpendStep(t: Tables, id: Id, total: int)
    requires t.members == Group().members && 0 < total <= MAX_AMOUNT && IdIsNew(t, id)
    ensures Step(t, Spend(id, total).op, 0) == (Spent(t, id, total), Ok)
  {
    var t1 := t.(expenses := t.expenses[id := Expense(0, total, 2)]);
    var e := [Entry(1, total, false)];
    assert e[1..] == [] && [id][1..] == [];
    assert InsertEntries(t1, id, 2, e, [id], 0) == Some(Spent(t, id, total));
  }

  lemma AgreeStep(t: Tables, id: Id, total: int)
    ensures Step(Spent(t, id, total), Agree(id).op, 0) == (With(t, id, total), Ok)
  {
    assert Spent(t, id, total).debts[id := Agreed(id, total)] == With(t, id, total).debts;
  }

  lemma SpendAndAgree(t: Tables, run: seq<Event>, id: Id, total: int)
    requires Legal(t, run) && After(t, run).members == Group().members && 0 < total <= MAX_AMOUNT
    requires IdIsNew(After(t, run), id)
    ensures Legal(t, run + [Spend(id, total)] + [Agree(id)])
    ensures After(t, run + [Spend(id, total)] + [Agree(id)]) == With(After(t, run), id, total)
  {
    RunOneMore(t, run, Spend(id, total));
    RunOneMore(t, run + [Spend(id, total)], Agree(id));
    SpendStep(After(t, run), id, total);
    AgreeStep(After(t, run), id, total);
  }

  // ---------------------------------------------------------------- the int64 total

  function TwoLargeDebts(): seq<Event> {
    [] + [Spend(0, MAX_AMOUNT)] + [Agree(0)] + [Spend(1, MAX_AMOUNT)] + [Agree(1)]
  }

  lemma TwoLargeDebtsTotal(t: Tables)
    requires t == With(With(Group(), 0, MAX_AMOUNT), 1, MAX_AMOUNT)
    ensures BulkRows(t, [0, 1], 1, 2) && TotalAvailable(t, [0, 1]) == 2 * MAX_AMOUNT
  {
    assert [0, 1][..1] == [0] && [0][..0] == [];
    assert TotalAvailable(t, [0, 1][..1]) == MAX_AMOUNT;
  }

  /** Two accepted debts near the int64 limit: a payment of one minor unit is refused. */
  lemma BulkRefusesPayable()
    ensures FreshTables(Group()) && Legal(Group(), TwoLargeDebts())
    ensures var t := After(Group(), TwoLargeDebts());
            && BulkRows(t, [0, 1], 1, 2) && TotalAvailable(t, [0, 1]) == 2 * MAX_AMOUNT
            && BulkMarkRows(t, [0, 1], 1, 2, 1, [10, 11]) == (t, Err(AmountExceedsRemaining))
  {
    SpendAndAgree(Group(), [], 0, MAX_AMOUNT);
    SpendAndAgree(Group(), [] + [Spend(0, MAX_AMOUNT)] + [Agree(0)], 1, MAX_AMOUNT);
    TwoLargeDebtsTotal(After(Group(), TwoLargeDebts()));
  }

  // ---------------------------------------------------------------- stale sub-selects

  /** An accepted debt of 10, two full marks that both see no pending payment, one confirmed. */
  function StaleRun(): seq<Event> {
    [] + [Spend(0, 10)] + [Agree(0)] + [Event(OpStaleMark(0, 1, 10, 10, 0), 1)]
    + [Event(OpStaleMark(0, 1, 10, 11, 0), 1)] + [Event(OpConfirm(10, 2), 2)]
  }

  /** The debt is settled, and a second full payment is pending on it. */
  predicate Overpaid(t: Tables) {
    && t.debts.Keys == {0} && t.debts[0].status == Settled
    && t.payments.Keys == {10, 11} && t.payments[11].status == PendingConfirmation && t.payments[11].debt == 0
  }

  lemma StaleSteps(t: Tables)
    requires t == With(Group(), 0, 10)
    ensures var t1 := MarkSeeing(t, 0, 0, 1, 10, 10).0;
            var t2 := MarkSeeing(t1, 0, 0, 1, 10, 11).0;
            Overpaid(Confirm(t2, 10, 2, 2).0)
  {
  }

  lemma StaleRunSettles()
    ensures Legal(Group(), StaleRun()) && Overpaid(After(Group(), StaleRun()))
  {
    var run := [] + [Spend(0, 10)] + [Agree(0)];
    var first, second := Event(OpStaleMark(0, 1, 10, 10, 0), 1), Event(OpStaleMark(0, 1, 10, 11, 0), 1);
    SpendAndAgree(Group(), [], 0, 10);
    StaleSteps(After(Group(), run));
    RunOneMore(Group(), run, first);
    RunOneMore(Group(), run + [first], second);
    RunOneMore(Group(), run + [first] + [second], Event(OpConfirm(10, 2), 2));
  }

  /**
   * Without fresh sub-selects a payment can be left pending that nobody can ever confirm:
   * not in the state reached, and not after anything that happens later.
   */
  lemma StaleMarksGetStuck()
    ensures FreshTables(Group()) && Legal(Group(), StaleRun())
    ensures var t := After(Group(), StaleRun());
            && 11 in t.payments && t.payments[11].status == PendingConfirmation
            && forall later, user, now :: Legal(t, later) ==> Confirm(After(t, later), 11, user, now).1.Err?
  {
    StaleRunSettles();
    FreshTablesOk(Group());
    RunKeepsConsistent(Group(), StaleRun());
    var t := After(Group(), StaleRun());
    forall later, user, now | Legal(t, later) ensures Confirm(After(t, later), 11, user, now).1.Err? {
      SettledForGood(t, later, 11, user, now);
    }
  }
}
