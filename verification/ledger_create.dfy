/**
 * What a committed expense leaves in the tables, and exactly when its inserts go through.
 */
module LedgerCreate {
  import opened Wrappers
  import opened Sums
  import opened Ledger
  import opened LedgerInvariants

  // ---------------------------------------------------------------- the rows of one expense

  function ShareAt(t: Tables, expense: Id): ((Id, Id)) -> int {
    key => if key in t.participants && key.0 == expense then t.participants[key] else 0
  }

  /** SUM(share_amount_minor) over the participants of an expense. */
  ghost function ShareSum(t: Tables, expense: Id): int {
    Sum(t.participants.Keys, ShareAt(t, expense))
  }

  function DebtAt(t: Tables, expense: Id): Id -> int {
    d => if d in t.debts && t.debts[d].expense == expense then t.debts[d].original else 0
  }

  /** SUM(original_amount_minor) over the debts of an expense. */
  ghost function DebtSum(t: Tables, expense: Id): int {
    Sum(t.debts.Keys, DebtAt(t, expense))
  }

  function PayerShare(t: Tables, expense: Id, payer: Id): int {
    if (expense, payer) in t.participants then t.participants[(expense, payer)] else 0
  }

  /** A debt of a fresh expense: what its debtor's share says, owed to the payer. */
  predicate FreshDebt(t: Tables, d: Id, expense: Id, payer: Id)
    requires d in t.debts
  {
    var x := t.debts[d];
    && x.creditor == payer && x.debtor != payer && x.status == Pending
    && (expense, x.debtor) in t.participants
    && x.original == x.remaining == t.participants[(expense, x.debtor)]
  }

  /** Payer's share and debts add up to the shares; debtors are distinct and never the payer. */
  ghost predicate Balanced(t: Tables, expense: Id, payer: Id) {
    && (forall d :: d in t.debts && t.debts[d].expense == expense ==> FreshDebt(t, d, expense, payer))
    && (forall d, e ::
         (d in t.debts && e in t.debts && t.debts[d].expense == expense && t.debts[e].expense == expense
          && t.debts[d].debtor == t.debts[e].debtor) ==> d == e)
    && ShareSum(t, expense) == PayerShare(t, expense, payer) + DebtSum(t, expense)
  }

  function EntryTotal(entries: seq<Entry>): int {
    if entries == [] then 0 else entries[0].share + EntryTotal(entries[1..])
  }

  /** A text equal to the payer's text stands for the payer. */
  predicate PayerTextsAgree(entries: seq<Entry>, payer: Id) {
    forall i :: 0 <= i < |entries| && entries[i].samePayerText ==> entries[i].user == payer
  }

  // ---------------------------------------------------------------- inserting one row

  function WithParticipant(t: Tables, expense: Id, user: Id, share: int): Tables {
    t.(participants := t.participants[(expense, user) := share])
  }

  function WithDebt(t: Tables, id: Id, d: Debt): Tables {
    t.(debts := t.debts[id := d])
  }

  lemma InsertParticipantSums(t: Tables, expense: Id, user: Id, share: int)
    requires (expense, user) !in t.participants
    ensures ShareSum(WithParticipant(t, expense, user, share), expense) == ShareSum(t, expense) + share
    ensures DebtSum(WithParticipant(t, expense, user, share), expense) == DebtSum(t, expense)
  {
    var t', key := WithParticipant(t, expense, user, share), (expense, user);
    assert t'.participants.Keys == t.participants.Keys + {key};
    SumInsert(t.participants.Keys, key, ShareAt(t', expense));
    SumCongruence(t.participants.Keys, ShareAt(t, expense), ShareAt(t', expense));
    SumCongruence(t.debts.Keys, DebtAt(t, expense), DebtAt(t', expense));
  }

  lemma InsertDebtSums(t: Tables, id: Id, d: Debt)
    requires id !in t.debts
    ensures ShareSum(WithDebt(t, id, d), d.expense) == ShareSum(t, d.expense)
    ensures DebtSum(WithDebt(t, id, d), d.expense) == DebtSum(t, d.expense) + d.original
  {
    var t' := WithDebt(t, id, d);
    assert t'.debts.Keys == t.debts.Keys + {id};
    SumInsert(t.debts.Keys, id, DebtAt(t', d.expense));
    SumCongruence(t.debts.Keys, DebtAt(t, d.expense), DebtAt(t', d.expense));
    SumCongruence(t.participants.Keys, ShareAt(t, d.expense), ShareAt(t', d.expense));
  }

  lemma BalancedPayer(t: Tables, expense: Id, payer: Id, share: int)
    requires Balanced(t, expense, payer) && (expense, payer) !in t.participants
    ensures Balanced(WithParticipant(t, expense, payer, share), expense, payer)
  {
    var t' := WithParticipant(t, expense, payer, share);
    InsertParticipantSums(t, expense, payer, share);
    forall d | d in t'.debts && t'.debts[d].expense == expense ensures FreshDebt(t', d, expense, payer) {
      assert FreshDebt(t, d, expense, payer);
    }
  }

  lemma FreshDebtStays(t: Tables, expense: Id, payer: Id, user: Id, share: int, id: Id, debt: Debt, d: Id)
    requires d in t.debts && FreshDebt(t, d, expense, payer) && (expense, user) !in t.participants && id !in t.debts
    ensures var t' := WithDebt(WithParticipant(t, expense, user, share), id, debt);
            FreshDebt(t', d, expense, payer) && t'.debts[d].debtor != user
  {
  }

  lemma BalancedDebtorSums(t: Tables, expense: Id, payer: Id, user: Id, share: int, id: Id, now: Time)
    requires (expense, user) !in t.participants && id !in t.debts && user != payer
    requires ShareSum(t, expense) == PayerShare(t, expense, payer) + DebtSum(t, expense)
    ensures var t' := WithDebt(WithParticipant(t, expense, user, share), id, NewDebt(expense, user, payer, share, now));
            ShareSum(t', expense) == PayerShare(t', expense, payer) + DebtSum(t', expense)
  {
    InsertParticipantSums(t, expense, user, share);
    InsertDebtSums(WithParticipant(t, expense, user, share), id, NewDebt(expense, user, payer, share, now));
  }

  lemma BalancedDebtor(t: Tables, expense: Id, payer: Id, user: Id, share: int, id: Id, now: Time)
    requires Balanced(t, expense, payer) && (expense, user) !in t.participants && id !in t.debts && user != payer
    ensures var debt := NewDebt(expense, user, payer, share, now);
            Balanced(WithDebt(WithParticipant(t, expense, user, share), id, debt), expense, payer)
  {
    var debt := NewDebt(expense, user, payer, share, now);
    var t' := WithDebt(WithParticipant(t, expense, user, share), id, debt);
    BalancedDebtorSums(t, expense, payer, user, share, id, now);
    forall d | d in t'.debts && t'.debts[d].expense == expense
      ensures FreshDebt(t', d, expense, payer) && (d != id ==> t'.debts[d].debtor != user) {
      if d != id {
        FreshDebtStays(t, expense, payer, user, share, id, debt, d);
      }
    }
  }

  // ---------------------------------------------------------------- all inserts

  /** Every constraint that the inserts of these entries meet. */
  predicate Insertable(t: Tables, expense: Id, payer: Id, entries: seq<Entry>, ids: seq<Id>)
    requires |entries| <= |ids|
  {
    && (forall i :: 0 <= i < |entries| ==>
         0 < entries[i].share <= MAX_AMOUNT && (expense, entries[i].user) !in t.participants)
    && (forall i, j :: 0 <= i < j < |entries| ==> entries[i].user != entries[j].user)
    && (forall i :: 0 <= i < |entries| && !entries[i].samePayerText ==> entries[i].user != payer && ids[i] !in t.debts)
    && (forall i, j :: 0 <= i < j < |entries| && !entries[i].samePayerText && !entries[j].samePayerText ==>
         ids[i] != ids[j])
  }

  /** The tables after the rows of the first entry, if its constraints are met. */
  function InsertFirst(t: Tables, expense: Id, payer: Id, e: Entry, id: Id, now: Time): Option<Tables> {
    if !CanInsertParticipant(t, expense, e.user, e.share) then None
    else
      var t1 := WithParticipant(t, expense, e.user, e.share);
      if e.samePayerText then Some(t1)
      else
        var d := NewDebt(expense, e.user, payer, e.share, now);
        if !CanInsertDebt(t1, id, d) then None else Some(WithDebt(t1, id, d))
  }

  lemma InsertEntriesFront(t: Tables, expense: Id, payer: Id, entries: seq<Entry>, ids: seq<Id>, now: Time)
    requires |entries| <= |ids| && entries != []
    ensures InsertEntries(t, expense, payer, entries, ids, now) ==
            match InsertFirst(t, expense, payer, entries[0], ids[0], now)
            case None => None
            case Some(t1) => InsertEntries(t1, expense, payer, entries[1..], ids[1..], now)
  {
  }

  lemma InsertFirstKeeps(t: Tables, expense: Id, payer: Id, e: Entry, id: Id, now: Time)
    requires Consistent(t) && InsertFirst(t, expense, payer, e, id, now).Some?
    ensures Consistent(InsertFirst(t, expense, payer, e, id, now).value)
  {
    var t1 := WithParticipant(t, expense, e.user, e.share);
    assert Consistent(t1) by {
      forall x | x in t1.debts ensures DebtOk(t1, x) {
        assert DebtOk(t, x);
      }
      forall p | p in t1.payments ensures PaymentOk(t1, p) {
        assert PaymentOk(t, p);
      }
    }
    if !e.samePayerText {
      KeepInsertDebt(t1, id, NewDebt(expense, e.user, payer, e.share, now), now);
    }
  }

  lemma InsertFirstBalanced(t: Tables, expense: Id, payer: Id, e: Entry, id: Id, now: Time)
    requires Balanced(t, expense, payer) && InsertFirst(t, expense, payer, e, id, now).Some?
    requires e.samePayerText ==> e.user == payer
    ensures var t' := InsertFirst(t, expense, payer, e, id, now).value;
            Balanced(t', expense, payer) && ShareSum(t', expense) == ShareSum(t, expense) + e.share
  {
    InsertParticipantSums(t, expense, e.user, e.share);
    if e.samePayerText {
      BalancedPayer(t, expense, payer, e.share);
    } else {
      BalancedDebtor(t, expense, payer, e.user, e.share, id, now);
      InsertDebtSums(WithParticipant(t, expense, e.user, e.share), id, NewDebt(expense, e.user, payer, e.share, now));
    }
  }

  /** Rows that exist stay as they are, payments and other tables are not touched. */
  predicate Extends(t: Tables, t': Tables) {
    && t'.payments == t.payments && t'.members == t.members && t.expenses.Keys <= t'.expenses.Keys
    && (forall e :: e in t.expenses ==> t'.expenses[e] == t.expenses[e])
    && (forall key :: key in t.participants ==> key in t'.participants && t'.participants[key] == t.participants[key])
    && (forall d :: d in t.debts ==> d in t'.debts && t'.debts[d] == t.debts[d])
    && (forall d :: d in t'.debts && d !in t.debts ==> t'.debts[d].status == Pending)
  }

  lemma ExtendsTransitive(t: Tables, t1: Tables, t2: Tables)
    requires Extends(t, t1) && Extends(t1, t2)
    ensures Extends(t, t2)
  {
  }

  lemma InsertFirstFrame(t: Tables, expense: Id, payer: Id, e: Entry, id: Id, now: Time)
    requires InsertFirst(t, expense, payer, e, id, now).Some?
    ensures var t1 := InsertFirst(t, expense, payer, e, id, now).value;
            && Extends(t, t1) && t1.expenses == t.expenses
            && t1.participants.Keys == t.participants.Keys + {(expense, e.user)}
            && t1.debts.Keys == t.debts.Keys + (if e.samePayerText then {} else {id})
  {
  }

  lemma {:induction false} InsertEntriesKeeps(t: Tables, expense: Id, payer: Id, entries: seq<Entry>, ids: seq<Id>,
                                              now: Time)
    requires |entries| <= |ids| && Consistent(t) && InsertEntries(t, expense, payer, entries, ids, now).Some?
    ensures Consistent(InsertEntries(t, expense, payer, entries, ids, now).value)
    decreases |entries|
  {
    if entries == [] {
    } else {
      InsertEntriesFront(t, expense, payer, entries, ids, now);
      InsertFirstKeeps(t, expense, payer, entries[0], ids[0], now);
      InsertEntriesKeeps(InsertFirst(t, expense, payer, entries[0], ids[0], now).value,
                         expense, payer, entries[1..], ids[1..], now);
    }
  }

  lemma {:induction false} InsertEntriesExtends(t: Tables, expense: Id, payer: Id, entries: seq<Entry>, ids: seq<Id>,
                                                now: Time)
    requires |entries| <= |ids| && InsertEntries(t, expense, payer, entries, ids, now).Some?
    ensures Extends(t, InsertEntries(t, expense, payer, entries, ids, now).value)
    decreases |entries|
  {
    if entries == [] {
    } else {
      var t' := InsertEntries(t, expense, payer, entries, ids, now).value;
      InsertEntriesFront(t, expense, payer, entries, ids, now);
      InsertFirstFrame(t, expense, payer, entries[0], ids[0], now);
      var t1 := InsertFirst(t, expense, payer, entries[0], ids[0], now).value;
      InsertEntriesExtends(t1, expense, payer, entries[1..], ids[1..], now);
      ExtendsTransitive(t, t1, t');
    }
  }

  lemma {:induction false} InsertEntriesBalanced(t: Tables, expense: Id, payer: Id, entries: seq<Entry>, ids: seq<Id>,
                                                 now: Time)
    requires |entries| <= |ids| && Balanced(t, expense, payer) && PayerTextsAgree(entries, payer)
    requires InsertEntries(t, expense, payer, entries, ids, now).Some?
    ensures var t' := InsertEntries(t, expense, payer, entries, ids, now).value;
            Balanced(t', expense, payer) && ShareSum(t', expense) == ShareSum(t, expense) + EntryTotal(entries)
    decreases |entries|
  {
    if entries == [] {
    } else {
      InsertEntriesFront(t, expense, payer, entries, ids, now);
      InsertFirstBalanced(t, expense, payer, entries[0], ids[0], now);
      InsertEntriesBalanced(InsertFirst(t, expense, payer, entries[0], ids[0], now).value,
                            expense, payer, entries[1..], ids[1..], now);
    }
  }

  lemma InsertFirstIff(t: Tables, expense: Id, payer: Id, e: Entry, id: Id, now: Time)
    requires expense in t.expenses && Balanced(t, expense, payer)
    ensures InsertFirst(t, expense, payer, e, id, now).Some? <==> Insertable(t, expense, payer, [e], [id])
  {
    if (expense, e.user) !in t.participants {
      var t1 := WithParticipant(t, expense, e.user, e.share);
      assert !DebtExists(t1, expense, e.user, payer) by {
        forall d | d in t.debts && t.debts[d].expense == expense ensures t.debts[d].debtor != e.user {
          assert FreshDebt(t, d, expense, payer);
        }
      }
    }
    assert [e][0] == e && [id][0] == id;
  }

  lemma InsertableFront(t: Tables, expense: Id, payer: Id, entries: seq<Entry>, ids: seq<Id>, t1: Tables)
    requires |entries| <= |ids| && entries != []
    requires t1.participants.Keys == t.participants.Keys + {(expense, entries[0].user)}
    requires t1.debts.Keys == t.debts.Keys + (if entries[0].samePayerText then {} else {ids[0]})
    ensures Insertable(t, expense, payer, entries, ids) <==>
            && Insertable(t, expense, payer, [entries[0]], [ids[0]])
            && Insertable(t1, expense, payer, entries[1..], ids[1..])
  {
    var e, rest, tail := entries[0], entries[1..], ids[1..];
    assert [e][0] == e && [ids[0]][0] == ids[0];
    assert forall i :: 1 <= i < |entries| ==> entries[i] == rest[i - 1] && ids[i] == tail[i - 1];
    assert forall i :: 0 <= i < |rest| ==> rest[i] == entries[i + 1] && tail[i] == ids[i + 1];
  }

  /** The inserts go through exactly when the constraints are met. */
  lemma {:induction false} InsertEntriesIff(t: Tables, expense: Id, payer: Id, entries: seq<Entry>, ids: seq<Id>,
                                            now: Time)
    requires |entries| <= |ids| && expense in t.expenses
    requires Balanced(t, expense, payer) && PayerTextsAgree(entries, payer)
    ensures InsertEntries(t, expense, payer, entries, ids, now).Some? <==> Insertable(t, expense, payer, entries, ids)
    decreases |entries|
  {
    if entries == [] {
    } else {
      InsertEntriesFront(t, expense, payer, entries, ids, now);
      InsertFirstIff(t, expense, payer, entries[0], ids[0], now);
      InsertableHead(t, expense, payer, entries, ids);
      if InsertFirst(t, expense, payer, entries[0], ids[0], now).Some? {
        InsertEntriesIffStep(t, expense, payer, entries, ids, now);
      }
    }
  }

  lemma {:induction false} InsertEntriesIffStep(t: Tables, expense: Id, payer: Id, entries: seq<Entry>, ids: seq<Id>,
                                                now: Time)
    requires |entries| <= |ids| && expense in t.expenses
    requires Balanced(t, expense, payer) && PayerTextsAgree(entries, payer)
    requires entries != [] && InsertFirst(t, expense, payer, entries[0], ids[0], now).Some?
    requires Insertable(t, expense, payer, [entries[0]], [ids[0]])
    ensures var t1 := InsertFirst(t, expense, payer, entries[0], ids[0], now).value;
            InsertEntries(t1, expense, payer, entries[1..], ids[1..], now).Some? <==>
              Insertable(t, expense, payer, entries, ids)
    decreases |entries|, 0
  {
    var t1 := InsertFirst(t, expense, payer, entries[0], ids[0], now).value;
    InsertFirstFrame(t, expense, payer, entries[0], ids[0], now);
    InsertFirstBalanced(t, expense, payer, entries[0], ids[0], now);
    InsertableFront(t, expense, payer, entries, ids, t1);
    InsertEntriesIff(t1, expense, payer, entries[1..], ids[1..], now);
  }

  lemma InsertableHead(t: Tables, expense: Id, payer: Id, entries: seq<Entry>, ids: seq<Id>)
    requires |entries| <= |ids| && entries != []
    ensures Insertable(t, expense, payer, entries, ids) ==> Insertable(t, expense, payer, [entries[0]], [ids[0]])
  {
    assert [entries[0]][0] == entries[0] && [ids[0]][0] == ids[0];
  }

  // ---------------------------------------------------------------- the whole transaction

  lemma UnusedExpense(t: Tables, id: Id)
    requires Consistent(t) && id !in t.expenses
    ensures forall d :: d in t.debts ==> t.debts[d].expense != id
    ensures forall key :: key in t.participants ==> key.0 != id
  {
    forall d | d in t.debts ensures t.debts[d].expense != id {
      assert DebtOk(t, d);
    }
  }

  lemma UnusedSums(t: Tables, id: Id)
    requires forall d :: d in t.debts ==> t.debts[d].expense != id
    requires forall key :: key in t.participants ==> key.0 != id
    ensures ShareSum(t, id) == 0 && DebtSum(t, id) == 0
  {
    SumBounds(t.participants.Keys, ShareAt(t, id));
    SumBounds(t.debts.Keys, DebtAt(t, id));
  }

  lemma FreshExpenseBalanced(t: Tables, id: Id, e: Expense, payer: Id)
    requires Consistent(t) && id !in t.expenses
    ensures var t1 := t.(expenses := t.expenses[id := e]); Balanced(t1, id, payer) && ShareSum(t1, id) == 0
    ensures forall key :: key in t.participants ==> key.0 != id
  {
    UnusedExpense(t, id);
    UnusedSums(t.(expenses := t.expenses[id := e]), id);
  }

  lemma InsertExpenseKeeps(t: Tables, id: Id, e: Expense)
    requires Consistent(t) && id !in t.expenses
    ensures var t1 := t.(expenses := t.expenses[id := e]); Consistent(t1) && Extends(t, t1)
  {
    var t1 := t.(expenses := t.expenses[id := e]);
    forall x | x in t1.debts ensures DebtOk(t1, x) {
      assert DebtOk(t, x);
    }
    forall p | p in t1.payments ensures PaymentOk(t1, p) {
      assert PaymentOk(t, p);
    }
  }

  lemma KeepCreate(t: Tables, id: Id, group: Id, createdBy: Id, payer: Id, total: int,
                   entries: seq<Entry>, ids: seq<Id>, now: Time)
    requires |entries| <= |ids| && Consistent(t)
    ensures Consistent(CreateExpense(t, id, group, createdBy, payer, total, entries, ids, now).0)
  {
    if CreateExpense(t, id, group, createdBy, payer, total, entries, ids, now).1 == Ok {
      InsertExpenseKeeps(t, id, Expense(group, total, payer));
      InsertEntriesKeeps(t.(expenses := t.expenses[id := Expense(group, total, payer)]), id, payer, entries, ids, now);
    }
  }

  /** Creating an expense adds rows; every debt and payment that exists stays as it is. */
  lemma CreateExtends(t: Tables, id: Id, group: Id, createdBy: Id, payer: Id, total: int,
                      entries: seq<Entry>, ids: seq<Id>, now: Time)
    requires |entries| <= |ids|
    ensures Extends(t, CreateExpense(t, id, group, createdBy, payer, total, entries, ids, now).0)
  {
    if CreateExpense(t, id, group, createdBy, payer, total, entries, ids, now).1 == Ok {
      var t1 := t.(expenses := t.expenses[id := Expense(group, total, payer)]);
      InsertEntriesExtends(t1, id, payer, entries, ids, now);
      ExtendsTransitive(t, t1, InsertEntries(t1, id, payer, entries, ids, now).value);
    }
  }

  /**
   * A committed expense: the shares of its participants add up to those asked for, and
   * the payer's share together with the debts is the same amount.
   */
  lemma CreatedBalanced(t: Tables, id: Id, group: Id, createdBy: Id, payer: Id, total: int,
                        entries: seq<Entry>, ids: seq<Id>, now: Time)
    requires |entries| <= |ids| && Consistent(t) && PayerTextsAgree(entries, payer)
    requires CreateExpense(t, id, group, createdBy, payer, total, entries, ids, now).1 == Ok
    ensures var t' := CreateExpense(t, id, group, createdBy, payer, total, entries, ids, now).0;
            && Balanced(t', id, payer) && ShareSum(t', id) == EntryTotal(entries)
            && PayerShare(t', id, payer) + DebtSum(t', id) == EntryTotal(entries)
  {
    FreshExpenseBalanced(t, id, Expense(group, total, payer), payer);
    InsertEntriesBalanced(t.(expenses := t.expenses[id := Expense(group, total, payer)]), id, payer, entries, ids, now);
  }

  /** The rows of each entry: its participant, and its debt unless it is spelled like the payer. */
  predicate RowsOf(t: Tables, expense: Id, payer: Id, e: Entry, id: Id, now: Time) {
    && (expense, e.user) in t.participants && t.participants[(expense, e.user)] == e.share
    && (!e.samePayerText ==>
         && id in t.debts
         && t.debts[id] == Debt(expense, e.user, payer, e.share, e.share, Pending, None, None, None, now, now))
  }

  lemma RowsStay(t: Tables, t': Tables, expense: Id, payer: Id, e: Entry, id: Id, now: Time)
    requires RowsOf(t, expense, payer, e, id, now) && Extends(t, t')
    ensures RowsOf(t', expense, payer, e, id, now)
  {
  }

  lemma {:induction false} InsertEntriesRows(t: Tables, expense: Id, payer: Id, entries: seq<Entry>, ids: seq<Id>,
                                             now: Time, i: nat)
    requires |entries| <= |ids| && InsertEntries(t, expense, payer, entries, ids, now).Some? && i < |entries|
    ensures RowsOf(InsertEntries(t, expense, payer, entries, ids, now).value, expense, payer, entries[i], ids[i], now)
    decreases |entries|
  {
    InsertEntriesFront(t, expense, payer, entries, ids, now);
    var t1 := InsertFirst(t, expense, payer, entries[0], ids[0], now).value;
    if i == 0 {
      InsertEntriesExtends(t1, expense, payer, entries[1..], ids[1..], now);
      RowsStay(t1, InsertEntries(t, expense, payer, entries, ids, now).value, expense, payer, entries[0], ids[0], now);
    } else {
      InsertEntriesRows(t1, expense, payer, entries[1..], ids[1..], now, i - 1);
    }
  }

  /** A committed expense has the rows of every entry. */
  lemma CreatedRows(t: Tables, id: Id, group: Id, createdBy: Id, payer: Id, total: int,
                    entries: seq<Entry>, ids: seq<Id>, now: Time, i: nat)
    requires |entries| <= |ids| && i < |entries|
    requires CreateExpense(t, id, group, createdBy, payer, total, entries, ids, now).1 == Ok
    ensures RowsOf(CreateExpense(t, id, group, createdBy, payer, total, entries, ids, now).0, id, payer,
              entries[i], ids[i], now)
  {
    InsertEntriesRows(t.(expenses := t.expenses[id := Expense(group, total, payer)]), id, payer, entries, ids, now, i);
  }

  // ---------------------------------------------------------------- the rows that are answered

  /** The participant rows of the entries, in order: users and shares. */
  function ParticipantRows(entries: seq<Entry>): (rows: seq<(Id, int)>)
    ensures |rows| == |entries|
  {
    if entries == [] then [] else [(entries[0].user, entries[0].share)] + ParticipantRows(entries[1..])
  }

  /** The debt rows of the entries, in order, with their ids. */
  function DebtRows(expense: Id, payer: Id, entries: seq<Entry>, ids: seq<Id>, now: Time): seq<(Id, Debt)>
    requires |entries| <= |ids|
    decreases |entries|
  {
    if entries == [] then []
    else
      var row := (ids[0], NewDebt(expense, entries[0].user, payer, entries[0].share, now));
      (if entries[0].samePayerText then [] else [row]) + DebtRows(expense, payer, entries[1..], ids[1..], now)
  }

  /** From t to t' exactly these debts are new. */
  predicate NewDebts(t: Tables, t': Tables, rows: seq<(Id, Debt)>) {
    && (forall d :: d in t'.debts && d !in t.debts ==> (d, t'.debts[d]) in rows)
    && (forall r :: r in rows ==> r.0 in t'.debts && t'.debts[r.0] == r.1 && r.0 !in t.debts)
  }

  /** From t to t' exactly these participants of the expense are new. */
  predicate NewParticipants(t: Tables, t': Tables, expense: Id, rows: seq<(Id, int)>) {
    && (forall key :: key in t'.participants && key !in t.participants ==>
         key.0 == expense && (key.1, t'.participants[key]) in rows)
    && (forall r :: r in rows ==>
         && (expense, r.0) in t'.participants && t'.participants[(expense, r.0)] == r.1
         && (expense, r.0) !in t.participants)
  }

  lemma {:induction false} InsertEntriesDebts(t: Tables, expense: Id, payer: Id, entries: seq<Entry>, ids: seq<Id>,
                                              now: Time)
    requires |entries| <= |ids| && InsertEntries(t, expense, payer, entries, ids, now).Some?
    ensures NewDebts(t, InsertEntries(t, expense, payer, entries, ids, now).value,
              DebtRows(expense, payer, entries, ids, now))
    decreases |entries|
  {
    if entries == [] {
    } else {
      InsertEntriesFront(t, expense, payer, entries, ids, now);
      InsertFirstFrame(t, expense, payer, entries[0], ids[0], now);
      var t1 := InsertFirst(t, expense, payer, entries[0], ids[0], now).value;
      InsertEntriesDebts(t1, expense, payer, entries[1..], ids[1..], now);
      InsertEntriesExtends(t1, expense, payer, entries[1..], ids[1..], now);
    }
  }

  lemma {:induction false} InsertEntriesParticipants(t: Tables, expense: Id, payer: Id, entries: seq<Entry>,
                                                     ids: seq<Id>, now: Time)
    requires |entries| <= |ids| && InsertEntries(t, expense, payer, entries, ids, now).Some?
    ensures NewParticipants(t, InsertEntries(t, expense, payer, entries, ids, now).value, expense,
              ParticipantRows(entries))
    decreases |entries|
  {
    if entries == [] {
    } else {
      InsertEntriesFront(t, expense, payer, entries, ids, now);
      InsertFirstFrame(t, expense, payer, entries[0], ids[0], now);
      var t1 := InsertFirst(t, expense, payer, entries[0], ids[0], now).value;
      InsertEntriesParticipants(t1, expense, payer, entries[1..], ids[1..], now);
      InsertEntriesExtends(t1, expense, payer, entries[1..], ids[1..], now);
    }
  }

  /** A committed expense adds exactly the rows that are answered. */
  lemma CreatedAnswer(t: Tables, id: Id, group: Id, createdBy: Id, payer: Id, total: int,
                      entries: seq<Entry>, ids: seq<Id>, now: Time)
    requires |entries| <= |ids|
    requires CreateExpense(t, id, group, createdBy, payer, total, entries, ids, now).1 == Ok
    ensures var t' := CreateExpense(t, id, group, createdBy, payer, total, entries, ids, now).0;
            && t'.expenses == t.expenses[id := Expense(group, total, payer)]
            && NewParticipants(t, t', id, ParticipantRows(entries))
            && NewDebts(t, t', DebtRows(id, payer, entries, ids, now))
  {
    var t1 := t.(expenses := t.expenses[id := Expense(group, total, payer)]);
    InsertEntriesDebts(t1, id, payer, entries, ids, now);
    InsertEntriesParticipants(t1, id, payer, entries, ids, now);
    InsertEntriesExpenses(t1, id, payer, entries, ids, now);
  }

  lemma {:induction false} InsertEntriesExpenses(t: Tables, expense: Id, payer: Id, entries: seq<Entry>, ids: seq<Id>,
                                                 now: Time)
    requires |entries| <= |ids| && InsertEntries(t, expense, payer, entries, ids, now).Some?
    ensures InsertEntries(t, expense, payer, entries, ids, now).value.expenses == t.expenses
    decreases |entries|
  {
    if entries == [] {
    } else {
      InsertEntriesFront(t, expense, payer, entries, ids, now);
      InsertFirstFrame(t, expense, payer, entries[0], ids[0], now);
      InsertEntriesExpenses(InsertFirst(t, expense, payer, entries[0], ids[0], now).value,
                            expense, payer, entries[1..], ids[1..], now);
    }
  }

  lemma SameInsertable(t: Tables, t1: Tables, expense: Id, payer: Id, entries: seq<Entry>, ids: seq<Id>)
    requires |entries| <= |ids| && t1.participants == t.participants && t1.debts == t.debts
    ensures Insertable(t1, expense, payer, entries, ids) <==> Insertable(t, expense, payer, entries, ids)
  {
  }

  /**
   * When an expense commits: all three membership checks, a fresh id and a legal total,
   * positive shares, distinct users, and nobody spelled unlike the payer who is the payer.
   */
  lemma CreateCommitsIff(t: Tables, id: Id, group: Id, createdBy: Id, payer: Id, total: int,
                         entries: seq<Entry>, ids: seq<Id>, now: Time)
    requires |entries| <= |ids| && Consistent(t) && PayerTextsAgree(entries, payer)
    ensures CreateExpense(t, id, group, createdBy, payer, total, entries, ids, now).1 == Ok <==>
            && IsMember(t, group, createdBy) && IsMember(t, group, payer)
            && (forall e :: e in entries ==> IsMember(t, group, e.user))
            && CanInsertExpense(t, id, total) && Insertable(t, id, payer, entries, ids)
    ensures CreateExpense(t, id, group, createdBy, payer, total, entries, ids, now).1 != Ok ==>
            CreateExpense(t, id, group, createdBy, payer, total, entries, ids, now).0 == t
  {
    if CanInsertExpense(t, id, total) {
      var t1 := t.(expenses := t.expenses[id := Expense(group, total, payer)]);
      FreshExpenseBalanced(t, id, Expense(group, total, payer), payer);
      InsertEntriesIff(t1, id, payer, entries, ids, now);
      SameInsertable(t, t1, id, payer, entries, ids);
    }
  }
}
