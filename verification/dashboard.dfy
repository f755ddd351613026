/**
 * The dashboard aggregates: totals per user, balances per person, and how they follow
 * the ledger. All of them read the debts only.
 */
module Dashboard {
  import opened Wrappers
  import opened Sums
  import opened Ledger
  import LedgerInvariants
  import LedgerBulk
  import LedgerCreate
  import opened LedgerRuns

  type Debts = map<Id, Debt>

  // ---------------------------------------------------------------- totals of a user

  function OweAt(debts: Debts, user: Id): Id -> int {
    (d: Id) => if d in debts && debts[d].Active() && debts[d].debtor == user then debts[d].remaining else 0
  }

  function GetAt(debts: Debts, user: Id): Id -> int {
    (d: Id) => if d in debts && debts[d].Active() && debts[d].creditor == user then debts[d].remaining else 0
  }

  function OweOne(debts: Debts, user: Id): Id -> int {
    (d: Id) => if d in debts && debts[d].Active() && debts[d].debtor == user then 1 else 0
  }

  function GetOne(debts: Debts, user: Id): Id -> int {
    (d: Id) => if d in debts && debts[d].Active() && debts[d].creditor == user then 1 else 0
  }

  function ActiveAt(debts: Debts): Id -> int {
    (d: Id) => if d in debts && debts[d].Active() then debts[d].remaining else 0
  }

  ghost function YouOwe(debts: Debts, user: Id): int { Sum(debts.Keys, OweAt(debts, user)) }
  ghost function YouGet(debts: Debts, user: Id): int { Sum(debts.Keys, GetAt(debts, user)) }
  ghost function YouOweCount(debts: Debts, user: Id): int { Sum(debts.Keys, OweOne(debts, user)) }
  ghost function YouGetCount(debts: Debts, user: Id): int { Sum(debts.Keys, GetOne(debts, user)) }
  ghost function ActiveTotal(debts: Debts): int { Sum(debts.Keys, ActiveAt(debts)) }

  /** Every party of an active debt is among the users. */
  predicate Covers(users: set<Id>, debts: Debts) {
    forall d :: d in debts && debts[d].Active() ==> debts[d].debtor in users && debts[d].creditor in users
  }

  function DebtorOf(debts: Debts): Id -> Id { (d: Id) => if d in debts then debts[d].debtor else 0 }
  function CreditorOf(debts: Debts): Id -> Id { (d: Id) => if d in debts then debts[d].creditor else 0 }

  ghost function OweOf(debts: Debts): Id -> int { (user: Id) => YouOwe(debts, user) }
  ghost function GetOf(debts: Debts): Id -> int { (user: Id) => YouGet(debts, user) }

  /** Over all users, what is owed and what is due are both the active total. */
  lemma OweIsGet(debts: Debts, users: set<Id>)
    requires Covers(users, debts)
    ensures Sum(users, OweOf(debts)) == ActiveTotal(debts) == Sum(users, GetOf(debts))
  {
    SumGroups(debts.Keys, users, DebtorOf(debts), ActiveAt(debts), (u: Id) => OweAt(debts, u), OweOf(debts));
    SumGroups(debts.Keys, users, CreditorOf(debts), ActiveAt(debts), (u: Id) => GetAt(debts, u), GetOf(debts));
  }

  // ---------------------------------------------------------------- one operation

  /** The debt that an operation on one debt or payment concerns. */
  function DebtOf(t: Tables, op: Op): Option<Id> {
    match op
    case OpAccept(d, _) => Some(d)
    case OpConfirm(p, _) => if p in t.payments then Some(t.payments[p].debt) else None
    case _ => None
  }

  /** By how much a successful operation changes the active total. */
  ghost function Moved(t: Tables, op: Op, now: Time): int
    requires Possible(t, op)
  {
    if Step(t, op, now).1 != Ok then 0
    else match op
      case OpAccept(d, _) => t.debts[d].remaining
      case OpConfirm(p, _) => -t.payments[p].amount
      case _ => 0
  }

  function Counted(d: Debt): int { if d.Active() then d.remaining else 0 }

  /** The three totals after one debt row is replaced. */
  lemma ReplaceDebt(debts: Debts, id: Id, d: Debt, user: Id)
    requires id in debts && d.debtor == debts[id].debtor && d.creditor == debts[id].creditor
    ensures var change := Counted(d) - Counted(debts[id]);
            && YouOwe(debts[id := d], user) == YouOwe(debts, user) + (if d.debtor == user then change else 0)
            && YouGet(debts[id := d], user) == YouGet(debts, user) + (if d.creditor == user then change else 0)
            && ActiveTotal(debts[id := d]) == ActiveTotal(debts) + change
  {
    assert debts[id := d].Keys == debts.Keys;
    SumChange(debts.Keys, id, OweAt(debts, user), OweAt(debts[id := d], user));
    SumChange(debts.Keys, id, GetAt(debts, user), GetAt(debts[id := d], user));
    SumChange(debts.Keys, id, ActiveAt(debts), ActiveAt(debts[id := d]));
  }

  lemma ExtendTotals(debts: Debts, debts': Debts, user: Id)
    requires forall d :: d in debts ==> d in debts' && debts'[d] == debts[d]
    requires forall d :: d in debts' && d !in debts ==> debts'[d].status == Pending
    ensures YouOwe(debts', user) == YouOwe(debts, user) && YouGet(debts', user) == YouGet(debts, user)
    ensures ActiveTotal(debts') == ActiveTotal(debts)
  {
    SumExtend(debts.Keys, debts'.Keys, OweAt(debts, user), OweAt(debts', user));
    SumExtend(debts.Keys, debts'.Keys, GetAt(debts, user), GetAt(debts', user));
    SumExtend(debts.Keys, debts'.Keys, ActiveAt(debts), ActiveAt(debts'));
  }

  /**
   * One operation: accepting raises and confirming lowers the totals of exactly one debtor
   * and one creditor, by the same amount. Nothing else changes any total.
   */
  ghost predicate TotalsMove(t: Tables, op: Op, now: Time, user: Id)
    requires Possible(t, op)
  {
    var (debts, debts', moved, id) := (t.debts, Step(t, op, now).0.debts, Moved(t, op, now), DebtOf(t, op));
    && (moved != 0 ==> id.Some? && id.value in debts)
    && YouOwe(debts', user) ==
       YouOwe(debts, user) + (if moved != 0 && debts[id.value].debtor == user then moved else 0)
    && YouGet(debts', user) ==
       YouGet(debts, user) + (if moved != 0 && debts[id.value].creditor == user then moved else 0)
    && ActiveTotal(debts') == ActiveTotal(debts) + moved
  }

  /** An operation that replaces one debt row moves the totals of its two parties. */
  lemma ReplaceMoves(t: Tables, op: Op, now: Time, id: Id, d: Debt, who: Id)
    requires Possible(t, op) && id in t.debts && Step(t, op, now).0.debts == t.debts[id := d]
    requires d.debtor == t.debts[id].debtor && d.creditor == t.debts[id].creditor
    requires Moved(t, op, now) == Counted(d) - Counted(t.debts[id])
    requires Moved(t, op, now) != 0 ==> DebtOf(t, op) == Some(id)
    ensures TotalsMove(t, op, now, who)
  {
    ReplaceDebt(t.debts, id, d, who);
  }

  lemma SameDebtsMove(t: Tables, op: Op, now: Time, who: Id)
    requires Possible(t, op) && Step(t, op, now).0.debts == t.debts && Moved(t, op, now) == 0
    ensures TotalsMove(t, op, now, who)
  {
  }

  lemma AcceptMoves(t: Tables, id: Id, user: Id, now: Time, who: Id)
    ensures TotalsMove(t, OpAccept(id, user), now, who)
  {
    if Accept(t, id, user, now).1 == Ok {
      ReplaceMoves(t, OpAccept(id, user), now, id, Accept(t, id, user, now).0.debts[id], who);
    } else {
      SameDebtsMove(t, OpAccept(id, user), now, who);
    }
  }

  lemma CountedReduced(d: Debt, amount: int, now: Time)
    requires d.Active()
    ensures Counted(Reduced(d, amount, now)) == Counted(d) - amount
  {
  }

  lemma ConfirmMovesTotals(t: Tables, id: Id, user: Id, now: Time, who: Id)
    ensures TotalsMove(t, OpConfirm(id, user), now, who)
  {
    if Confirm(t, id, user, now).1 == Ok {
      var debt, amount := t.payments[id].debt, t.payments[id].amount;
      CountedReduced(t.debts[debt], amount, now);
      ReplaceMoves(t, OpConfirm(id, user), now, debt, Reduced(t.debts[debt], amount, now), who);
    } else {
      SameDebtsMove(t, OpConfirm(id, user), now, who);
    }
  }

  lemma RejectMoves(t: Tables, id: Id, user: Id, now: Time, who: Id)
    ensures TotalsMove(t, OpRejectDebt(id, user), now, who)
  {
    if RejectDebt(t, id, user, now).1 == Ok {
      ReplaceMoves(t, OpRejectDebt(id, user), now, id, RejectDebt(t, id, user, now).0.debts[id], who);
    } else {
      SameDebtsMove(t, OpRejectDebt(id, user), now, who);
    }
  }

  lemma ReviewMoves(t: Tables, id: Id, user: Id, amount: Option<int>, now: Time, who: Id)
    ensures TotalsMove(t, OpReview(id, user, amount), now, who)
  {
    if ReviewRejected(t, id, user, amount, now).1 == Ok {
      ReplaceMoves(t, OpReview(id, user, amount), now, id, Resent(t.debts[id], amount, now), who);
    } else {
      SameDebtsMove(t, OpReview(id, user, amount), now, who);
    }
  }

  lemma CreateMoves(t: Tables, op: Op, now: Time, who: Id)
    requires op.OpCreate? && Possible(t, op)
    ensures TotalsMove(t, op, now, who)
  {
    LedgerCreate.CreateExtends(t, op.expense, op.group, op.createdBy, op.payer, op.total, op.entries, op.debtIds, now);
    ExtendTotals(t.debts, Step(t, op, now).0.debts, who);
  }

  lemma BulkKeepsDebts(t: Tables, rows: seq<Id>, user: Id, receiver: Id, amount: int, ids: seq<Id>)
    requires LedgerBulk.Known(t, rows) && |rows| <= |ids|
    ensures BulkMarkRows(t, rows, user, receiver, amount, ids).0.debts == t.debts
  {
    if BulkMarkRows(t, rows, user, receiver, amount, ids).1 == Ok {
      AllocateLength(t, rows, amount);
      InsertPartsMoves(t, Allocate(t, rows, amount), user, receiver, ids);
    }
  }

  lemma StepMovesTotals(t: Tables, op: Op, now: Time, who: Id)
    requires Possible(t, op)
    ensures TotalsMove(t, op, now, who)
  {
    match op
    case OpCreate(_, _, _, _, _, _, _) => CreateMoves(t, op, now, who);
    case OpAccept(d, u) => AcceptMoves(t, d, u, now, who);
    case OpRejectDebt(d, u) => RejectMoves(t, d, u, now, who);
    case OpReview(d, u, a) => ReviewMoves(t, d, u, a, now, who);
    case OpBulkMark(u, r, a, ids, rows) =>
      BulkKeepsDebts(t, rows, u, r, a, ids);
      SameDebtsMove(t, op, now, who);
    case OpStaleBulkMark(u, r, a, ids, rows) =>
      BulkKeepsDebts(t, rows, u, r, a, ids);
      SameDebtsMove(t, op, now, who);
    case OpConfirm(p, u) => ConfirmMovesTotals(t, p, u, now, who);
    case _ => SameDebtsMove(t, op, now, who);
  }

  // ---------------------------------------------------------------- whole runs

  /** Total of the amounts accepted during the run. */
  ghost function AcceptedDuring(t: Tables, run: seq<Event>): int
    requires Legal(t, run)
    decreases |run|
  {
    if run == [] then 0
    else
      (if run[0].op.OpAccept? then Moved(t, run[0].op, run[0].now) else 0)
      + AcceptedDuring(Step(t, run[0].op, run[0].now).0, run[1..])
  }

  /** Total of the payments confirmed during the run. */
  ghost function ConfirmedDuring(t: Tables, run: seq<Event>): int
    requires Legal(t, run)
    decreases |run|
  {
    if run == [] then 0
    else
      (if run[0].op.OpConfirm? then -Moved(t, run[0].op, run[0].now) else 0)
      + ConfirmedDuring(Step(t, run[0].op, run[0].now).0, run[1..])
  }

  lemma {:induction false} ActiveOverRun(t: Tables, run: seq<Event>)
    requires Legal(t, run)
    ensures ActiveTotal(After(t, run).debts) ==
            ActiveTotal(t.debts) + AcceptedDuring(t, run) - ConfirmedDuring(t, run)
    decreases |run|
  {
    if run == [] {
    } else {
      StepMovesTotals(t, run[0].op, run[0].now, 0);
      ActiveOverRun(Step(t, run[0].op, run[0].now).0, run[1..]);
    }
  }

  /**
   * Starting from no debts: at the end of any run the users owe together what they are
   * owed together, which is what was accepted less what was confirmed.
   */
  lemma DashboardOverRun(t: Tables, run: seq<Event>, users: set<Id>)
    requires t.debts == map[] && Legal(t, run) && Covers(users, After(t, run).debts)
    ensures var debts := After(t, run).debts;
            && Sum(users, OweOf(debts)) == AcceptedDuring(t, run) - ConfirmedDuring(t, run)
            && Sum(users, GetOf(debts)) == AcceptedDuring(t, run) - ConfirmedDuring(t, run)
  {
    ActiveOverRun(t, run);
    OweIsGet(After(t, run).debts, users);
  }

  // ---------------------------------------------------------------- balances per person

  /** The WHERE clause of the person query. */
  predicate Listed(d: Debt, user: Id) {
    (d.debtor == user || d.creditor == user) && d.Active() && d.remaining > 0
  }

  /** CASE WHEN the user is the debtor: an 'owed' row, otherwise a 'receivable' row. */
  predicate Owed(d: Debt, user: Id) { d.debtor == user }

  function Other(d: Debt, user: Id): Id {
    if d.debtor == user then d.creditor else d.debtor
  }

  function RowOf(debts: Debts, user: Id): Id -> Id {
    (d: Id) => if d in debts then Other(debts[d], user) else 0
  }

  /** The other users of the rows of one balance type. */
  function Rows(debts: Debts, user: Id, owed: bool): set<Id> {
    set d | d in debts && Listed(debts[d], user) && Owed(debts[d], user) == owed :: Other(debts[d], user)
  }

  function RowAmountAt(debts: Debts, user: Id, owed: bool, other: Id): Id -> int {
    (d: Id) => if d in debts && Listed(debts[d], user) && Owed(debts[d], user) == owed && Other(debts[d], user) == other
         then debts[d].remaining else 0
  }

  function RowOne(debts: Debts, user: Id, owed: bool, other: Id): Id -> int {
    (d: Id) => if d in debts && Listed(debts[d], user) && Owed(debts[d], user) == owed && Other(debts[d], user) == other
         then 1 else 0
  }

  ghost function RowAmount(debts: Debts, user: Id, owed: bool, other: Id): int {
    Sum(debts.Keys, RowAmountAt(debts, user, owed, other))
  }

  ghost function RowCount(debts: Debts, user: Id, owed: bool, other: Id): int {
    Sum(debts.Keys, RowOne(debts, user, owed, other))
  }

  ghost function RowAmounts(debts: Debts, user: Id, owed: bool): Id -> int {
    (o: Id) => RowAmount(debts, user, owed, o)
  }

  ghost function RowCounts(debts: Debts, user: Id, owed: bool): Id -> int {
    (o: Id) => RowCount(debts, user, owed, o)
  }

  function TypeAmountAt(debts: Debts, user: Id, owed: bool): Id -> int {
    (d: Id) => if d in debts && Listed(debts[d], user) && Owed(debts[d], user) == owed then debts[d].remaining else 0
  }

  function TypeOne(debts: Debts, user: Id, owed: bool): Id -> int {
    (d: Id) => if d in debts && Listed(debts[d], user) && Owed(debts[d], user) == owed then 1 else 0
  }

  /** The rows of one type partition the listed debts of that type. */
  lemma AmountsPartition(debts: Debts, user: Id, owed: bool)
    ensures Sum(Rows(debts, user, owed), RowAmounts(debts, user, owed)) ==
            Sum(debts.Keys, TypeAmountAt(debts, user, owed))
  {
    SumGroups(debts.Keys, Rows(debts, user, owed), RowOf(debts, user), TypeAmountAt(debts, user, owed),
              (o: Id) => RowAmountAt(debts, user, owed, o), RowAmounts(debts, user, owed));
  }

  lemma CountsPartition(debts: Debts, user: Id, owed: bool)
    ensures Sum(Rows(debts, user, owed), RowCounts(debts, user, owed)) == Sum(debts.Keys, TypeOne(debts, user, owed))
  {
    SumGroups(debts.Keys, Rows(debts, user, owed), RowOf(debts, user), TypeOne(debts, user, owed),
              (o: Id) => RowOne(debts, user, owed, o), RowCounts(debts, user, owed));
  }

  predicate NoneSettledActive(debts: Debts) {
    forall d :: d in debts ==> debts[d].debtor != debts[d].creditor && (debts[d].Active() ==> debts[d].remaining > 0)
  }

  lemma OwedRows(debts: Debts, user: Id)
    requires NoneSettledActive(debts)
    ensures Sum(Rows(debts, user, true), RowAmounts(debts, user, true)) == YouOwe(debts, user)
    ensures Sum(Rows(debts, user, true), RowCounts(debts, user, true)) == YouOweCount(debts, user)
  {
    AmountsPartition(debts, user, true);
    CountsPartition(debts, user, true);
    SumCongruence(debts.Keys, TypeAmountAt(debts, user, true), OweAt(debts, user));
    SumCongruence(debts.Keys, TypeOne(debts, user, true), OweOne(debts, user));
  }

  lemma ReceivableRows(debts: Debts, user: Id)
    requires NoneSettledActive(debts)
    ensures Sum(Rows(debts, user, false), RowAmounts(debts, user, false)) == YouGet(debts, user)
    ensures Sum(Rows(debts, user, false), RowCounts(debts, user, false)) == YouGetCount(debts, user)
  {
    AmountsPartition(debts, user, false);
    CountsPartition(debts, user, false);
    SumCongruence(debts.Keys, TypeAmountAt(debts, user, false), GetAt(debts, user));
    SumCongruence(debts.Keys, TypeOne(debts, user, false), GetOne(debts, user));
  }

  /**
   * For every user after every run the 'owed' rows add up to you_owe and the 'receivable'
   * rows to you_get, in amount and in number of debts.
   */
  lemma PersonBalances(t: Tables, run: seq<Event>, user: Id)
    requires LedgerInvariants.Consistent(t) && Legal(t, run)
    ensures var debts := After(t, run).debts;
            && Sum(Rows(debts, user, true), RowAmounts(debts, user, true)) == YouOwe(debts, user)
            && Sum(Rows(debts, user, true), RowCounts(debts, user, true)) == YouOweCount(debts, user)
            && Sum(Rows(debts, user, false), RowAmounts(debts, user, false)) == YouGet(debts, user)
            && Sum(Rows(debts, user, false), RowCounts(debts, user, false)) == YouGetCount(debts, user)
  {
    RunKeepsConsistent(t, run);
    var debts := After(t, run).debts;
    forall d | d in debts
      ensures debts[d].debtor != debts[d].creditor && (debts[d].Active() ==> debts[d].remaining > 0)
    {
      assert LedgerInvariants.DebtOk(After(t, run), d);
    }
    OwedRows(debts, user);
    ReceivableRows(debts, user);
  }

  function PaidOffOne(debts: Debts, user: Id): Id -> int {
    (d: Id) => OweOne(debts, user)(d) - TypeOne(debts, user, true)(d)
  }

  /**
   * Only the person query filters on the remaining amount: the two 'owed' counts agree iff
   * no active debt of the user has been paid off.
   */
  lemma OwedCountsAgreeIff(debts: Debts, user: Id)
    requires forall d :: d in debts ==> debts[d].remaining >= 0
    ensures Sum(Rows(debts, user, true), RowCounts(debts, user, true)) == YouOweCount(debts, user) <==>
            forall d :: d in debts && debts[d].Active() && debts[d].debtor == user ==> debts[d].remaining != 0
  {
    CountsPartition(debts, user, true);
    SumPlus(debts.Keys, TypeOne(debts, user, true), PaidOffOne(debts, user), OweOne(debts, user));
    SumBounds(debts.Keys, PaidOffOne(debts, user));
    forall d | d in debts
      ensures PaidOffOne(debts, user)(d) == 0 <==>
              !(debts[d].Active() && debts[d].debtor == user && debts[d].remaining == 0) {
    }
  }

  // ---------------------------------------------------------------- who the rows are about

  /** The unsettled debts from one user to another. */
  function DebtsBetween(debts: Debts, debtor: Id, creditor: Id): set<Id> {
    set d | d in debts
            && debts[d].debtor == debtor && debts[d].creditor == creditor
            && debts[d].status in {Accepted, PartiallySettled} && debts[d].remaining > 0
  }

  ghost function AmountBetween(debts: Debts, debtor: Id, creditor: Id): int {
    Sum(DebtsBetween(debts, debtor, creditor), (d: Id) => if d in debts then debts[d].remaining else 0)
  }

  /** A sum of what lies in a set, as the sum over all debts of what is counted there. */
  lemma CountedSums(debts: Debts, ids: set<Id>, amount: Id -> int, one: Id -> int)
    requires ids <= debts.Keys
    requires forall d :: d in debts ==> amount(d) == if d in ids then debts[d].remaining else 0
    requires forall d :: d in debts ==> one(d) == if d in ids then 1 else 0
    ensures Sum(debts.Keys, amount) == Sum(ids, (d: Id) => if d in debts then debts[d].remaining else 0)
    ensures Sum(debts.Keys, one) == |ids|
  {
    SumExtend(ids, debts.Keys, (d: Id) => if d in debts then debts[d].remaining else 0, amount);
    SumExtend(ids, debts.Keys, one, one);
    SumOnes(ids, one);
  }

  /** What the user owes another one is what is unsettled from the user to the other one. */
  lemma OwedRow(debts: Debts, user: Id, other: Id)
    ensures RowAmount(debts, user, true, other) == AmountBetween(debts, user, other)
    ensures RowCount(debts, user, true, other) == |DebtsBetween(debts, user, other)|
    ensures other in Rows(debts, user, true) <==> DebtsBetween(debts, user, other) != {}
  {
    var ids := DebtsBetween(debts, user, other);
    CountedSums(debts, ids, RowAmountAt(debts, user, true, other), RowOne(debts, user, true, other));
    if d :| d in debts && Listed(debts[d], user) && Owed(debts[d], user) && Other(debts[d], user) == other {
      assert d in ids;
    }
  }

  /** What another one owes the user is what is unsettled from the other one to the user. */
  lemma ReceivableRow(debts: Debts, user: Id, other: Id)
    requires user != other
    ensures RowAmount(debts, user, false, other) == AmountBetween(debts, other, user)
    ensures RowCount(debts, user, false, other) == |DebtsBetween(debts, other, user)|
    ensures other in Rows(debts, user, false) <==> DebtsBetween(debts, other, user) != {}
  {
    var ids := DebtsBetween(debts, other, user);
    CountedSums(debts, ids, RowAmountAt(debts, user, false, other), RowOne(debts, user, false, other));
    if d :| d in debts && Listed(debts[d], user) && !Owed(debts[d], user) && Other(debts[d], user) == other {
      assert d in ids;
    }
  }

  /**
   * After any run two users see one balance: the 'owed' row of one is the 'receivable' row
   * of the other, with the amount and number of the debts between them. Nobody is listed
   * with a balance to themselves.
   */
  lemma BalancesMirror(t: Tables, run: seq<Event>, user: Id, other: Id)
    requires LedgerInvariants.Consistent(t) && Legal(t, run)
    ensures var debts := After(t, run).debts;
            && (other in Rows(debts, user, true) <==> user in Rows(debts, other, false))
            && RowAmount(debts, user, true, other) == RowAmount(debts, other, false, user)
                                                  == AmountBetween(debts, user, other)
            && RowCount(debts, user, true, other) == RowCount(debts, other, false, user)
                                                  == |DebtsBetween(debts, user, other)|
            && user !in Rows(debts, user, true) && user !in Rows(debts, user, false)
  {
    RunKeepsConsistent(t, run);
    var debts := After(t, run).debts;
    forall d | d in debts ensures debts[d].debtor != debts[d].creditor {
      assert LedgerInvariants.DebtOk(After(t, run), d);
    }
    OwedRow(debts, user, other);
    if user != other {
      ReceivableRow(debts, other, user);
    } else {
      NoSelfRow(debts, user);
    }
  }

  lemma NoSelfRow(debts: Debts, user: Id)
    requires forall d :: d in debts ==> debts[d].debtor != debts[d].creditor
    ensures RowAmount(debts, user, false, user) == 0 == AmountBetween(debts, user, user)
    ensures RowCount(debts, user, false, user) == 0 && DebtsBetween(debts, user, user) == {}
  {
    CountedSums(debts, {}, RowAmountAt(debts, user, false, user), RowOne(debts, user, false, user));
  }

  // ---------------------------------------------------------------- the bigint casts

  /** SUM over bigint is numeric; the cast back fails when the sum does not fit. */
  function Bigint(sum: int): Result<int, Error> {
    if sum > MAX_AMOUNT then Failure(Database) else Success(sum)
  }

  /** A row of the person query fits bigint whenever the total of its type does. */
  lemma RowsFit(debts: Debts, user: Id, other: Id, owed: bool)
    requires forall d :: d in debts ==> debts[d].remaining >= 0
    requires Bigint(if owed then YouOwe(debts, user) else YouGet(debts, user)).Success?
    ensures Bigint(RowAmount(debts, user, owed, other)) == Success(RowAmount(debts, user, owed, other))
  {
    var total := if owed then OweAt(debts, user) else GetAt(debts, user);
    SumMonotone(debts.Keys, RowAmountAt(debts, user, owed, other), total);
  }
}
