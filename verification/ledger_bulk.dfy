/**
 * Bulk payments: the allocation is the greedy one, the unguarded int64 total never
 * lets too much through, and a successful bulk payment is a sequence of single marks.
 */
module LedgerBulk {
  import opened Wrappers
  import opened Ledger
  import opened LedgerInvariants

  predicate Known(t: Tables, rows: seq<Id>) { forall d :: d in rows ==> d in t.debts }

  predicate Owing(t: Tables, rows: seq<Id>) {
    forall d :: d in rows ==> d in t.debts && 0 < t.debts[d].remaining
  }

  lemma {:induction false} AvailableFront(t: Tables, rows: seq<Id>)
    requires Known(t, rows) && rows != []
    ensures TotalAvailable(t, rows) == t.debts[rows[0]].remaining + TotalAvailable(t, rows[1..])
  {
    var n := |rows| - 1;
    if n == 0 {
    } else {
      AvailableFront(t, rows[..n]);
      assert rows[..n][1..] == rows[1..][..n - 1];
    }
  }

  lemma {:induction false} AvailablePositive(t: Tables, rows: seq<Id>)
    requires Owing(t, rows)
    ensures TotalAvailable(t, rows) >= 0
    ensures rows != [] ==> TotalAvailable(t, rows) > 0
  {
    if rows == [] {
    } else {
      AvailablePositive(t, rows[..|rows| - 1]);
    }
  }

  // ---------------------------------------------------------------- allocation

  function SumParts(parts: seq<Part>): int {
    if parts == [] then 0 else parts[0].amount + SumParts(parts[1..])
  }

  /**
   * `parts` pays `amount` over a prefix of the rows: every part is positive and within
   * its debt, and every part but the last pays its debt completely.
   */
  predicate Greedy(t: Tables, rows: seq<Id>, amount: int, parts: seq<Part>)
    requires Known(t, rows)
  {
    && |parts| <= |rows|
    && (forall i :: 0 <= i < |parts| ==>
         parts[i].debt == rows[i] && 0 < parts[i].amount <= t.debts[rows[i]].remaining)
    && (forall i :: 0 <= i < |parts| - 1 ==> parts[i].amount == t.debts[rows[i]].remaining)
    && SumParts(parts) == amount
  }

  lemma GreedyFront(t: Tables, rows: seq<Id>, amount: int, part: Part, rest: seq<Part>)
    requires Known(t, rows) && rows != [] && Greedy(t, rows[1..], amount - part.amount, rest)
    requires part.debt == rows[0] && 0 < part.amount <= t.debts[rows[0]].remaining
    requires rest != [] ==> part.amount == t.debts[rows[0]].remaining
    ensures Greedy(t, rows, amount, [part] + rest)
  {
    var parts := [part] + rest;
    assert parts[1..] == rest;
    forall i | 0 < i < |parts| ensures parts[i] == rest[i - 1] && rows[i] == rows[1..][i - 1] {
    }
  }

  lemma {:induction false} AllocateIsGreedy(t: Tables, rows: seq<Id>, amount: nat)
    requires Owing(t, rows) && amount <= TotalAvailable(t, rows)
    ensures Greedy(t, rows, amount, Allocate(t, rows, amount))
    ensures amount > 0 ==> Allocate(t, rows, amount) != []
  {
    if rows == [] || amount == 0 {
    } else {
      var available := t.debts[rows[0]].remaining;
      var part := if available > amount then amount else available;
      AvailableFront(t, rows);
      AvailablePositive(t, rows[1..]);
      AllocateIsGreedy(t, rows[1..], amount - part);
      assert part != available ==> Allocate(t, rows[1..], amount - part) == [];
      GreedyFront(t, rows, amount, Part(rows[0], part), Allocate(t, rows[1..], amount - part));
    }
  }

  lemma {:induction false} SumPartsPositive(parts: seq<Part>)
    requires forall i :: 0 <= i < |parts| ==> parts[i].amount > 0
    ensures SumParts(parts) >= 0 && (parts != [] ==> SumParts(parts) > 0)
  {
    if parts == [] {
    } else {
      SumPartsPositive(parts[1..]);
    }
  }

  /** The greedy allocation is the only one of its kind. */
  lemma {:induction false} GreedyUnique(t: Tables, rows: seq<Id>, amount: int, parts: seq<Part>)
    requires Owing(t, rows) && Greedy(t, rows, amount, parts)
    ensures parts == Allocate(t, rows, amount)
  {
    SumPartsPositive(parts);
    if parts != [] {
      var rest := parts[1..];
      SumPartsPositive(rest);
      assert parts == [parts[0]] + rest;
      forall i | 0 <= i < |rest|
        ensures rest[i].debt == rows[1..][i] && 0 < rest[i].amount <= t.debts[rows[1..][i]].remaining
        ensures i < |rest| - 1 ==> rest[i].amount == t.debts[rows[1..][i]].remaining
      {
        assert rest[i] == parts[i + 1] && rows[1..][i] == rows[i + 1];
      }
      GreedyUnique(t, rows[1..], amount - parts[0].amount, rest);
      assert parts[0] == Part(rows[0], parts[0].amount);
    }
  }

  /** No shorter prefix of the rows could have paid the amount. */
  lemma {:induction false} GreedyShortest(t: Tables, rows: seq<Id>, amount: int, parts: seq<Part>, k: nat)
    requires Owing(t, rows) && Greedy(t, rows, amount, parts) && k < |parts|
    ensures TotalAvailable(t, rows[..k]) < amount
    decreases k
  {
    var rest := parts[1..];
    SumPartsPositive(parts);
    if k == 0 {
    } else {
      forall i | 0 <= i < |rest|
        ensures rest[i].debt == rows[1..][i] && 0 < rest[i].amount <= t.debts[rows[1..][i]].remaining
        ensures i < |rest| - 1 ==> rest[i].amount == t.debts[rows[1..][i]].remaining
      {
        assert rest[i] == parts[i + 1] && rows[1..][i] == rows[i + 1];
      }
      GreedyShortest(t, rows[1..], amount - parts[0].amount, rest, k - 1);
      AvailableFront(t, rows[..k]);
      assert rows[..k][1..] == rows[1..][..k - 1];
    }
  }

  // ---------------------------------------------------------------- the wrapping total

  lemma WrapBelow(sum: nat)
    ensures -MAX_AMOUNT - 1 <= Wrap64(sum) <= MAX_AMOUNT
    ensures Wrap64(sum) <= sum
    ensures sum <= MAX_AMOUNT ==> Wrap64(sum) == sum
  {
  }

  lemma WrapAdd(x: int, y: int)
    ensures Wrap64(Wrap64(x) + y) == Wrap64(x + y)
  {
    var k := (x + 0x8000_0000_0000_0000) / 0x1_0000_0000_0000_0000;
    assert Wrap64(x) == x - k * 0x1_0000_0000_0000_0000;
  }

  predicate GuardPasses(sum: int, amount: int) { amount <= Wrap64(sum) }

  /**
   * A wrapped total never lets more than the true total through. It decides every int64
   * amount correctly iff the true total fits, or happens to wrap to the largest int64.
   */
  lemma BulkGuardExact(sum: nat)
    ensures forall amount :: GuardPasses(sum, amount) ==> amount <= sum
    ensures (forall amount :: 0 < amount <= MAX_AMOUNT ==> (GuardPasses(sum, amount) <==> amount <= sum)) <==>
            sum <= MAX_AMOUNT || sum % 0x1_0000_0000_0000_0000 == MAX_AMOUNT
  {
    WrapBelow(sum);
    WrapsToMax(sum);
    if sum > MAX_AMOUNT && Wrap64(sum) != MAX_AMOUNT {
      assert !GuardPasses(sum, MAX_AMOUNT);
    }
  }

  lemma WrapsToMax(sum: nat)
    ensures Wrap64(sum) == MAX_AMOUNT <==> sum % 0x1_0000_0000_0000_0000 == MAX_AMOUNT
  {
  }

  // ---------------------------------------------------------------- refinement by single marks

  /** Marking the parts one by one, in order, succeeds each time and leads from t to t'. */
  ghost predicate MarksLead(t: Tables, parts: seq<Part>, user: Id, ids: seq<Id>, t': Tables)
    requires |parts| <= |ids|
    decreases |parts|
  {
    if parts == [] then t' == t
    else
      var (t1, outcome) := Mark(t, parts[0].debt, user, parts[0].amount, ids[0]);
      outcome == Ok && MarksLead(t1, parts[1..], user, ids[1..], t')
  }

  /** Each part could be marked: its debt is active, owed by user to receiver, and covers it. */
  predicate Markable(t: Tables, parts: seq<Part>, user: Id, receiver: Id) {
    forall i :: 0 <= i < |parts| ==>
      && parts[i].debt in t.debts && t.debts[parts[i].debt].debtor == user
      && t.debts[parts[i].debt].creditor == receiver && t.debts[parts[i].debt].Active()
      && 0 < parts[i].amount <= t.debts[parts[i].debt].remaining
  }

  predicate DistinctDebts(parts: seq<Part>) {
    forall i, j :: 0 <= i < j < |parts| ==> parts[i].debt != parts[j].debt
  }

  predicate NonePending(t: Tables, parts: seq<Part>) {
    forall i :: 0 <= i < |parts| ==> !HasPending(t, parts[i].debt)
  }

  lemma FirstMark(t: Tables, part: Part, user: Id, receiver: Id, id: Id)
    requires Markable(t, [part], user, receiver)
    requires CanInsertPayment(t, id, NewPayment(part.debt, user, receiver, part.amount))
    ensures MarkSeeing(t, 0, part.debt, user, part.amount, id) ==
            (t.(payments := t.payments[id := NewPayment(part.debt, user, receiver, part.amount)]), Ok)
  {
    assert [part][0] == part;
  }

  lemma RestMarkable(t: Tables, parts: seq<Part>, user: Id, receiver: Id, t1: Tables)
    requires Markable(t, parts, user, receiver) && parts != [] && t1.debts == t.debts
    ensures Markable(t1, parts[1..], user, receiver) && Markable(t, [parts[0]], user, receiver)
  {
  }

  /** The inserts of a bulk payment keep the invariants, whatever the NOT EXISTS saw. */
  lemma {:induction false} InsertPartsKeeps(t: Tables, parts: seq<Part>, user: Id, receiver: Id, ids: seq<Id>)
    requires Consistent(t) && |parts| <= |ids| && Markable(t, parts, user, receiver)
    ensures InsertParts(t, parts, user, receiver, ids).Some? ==>
              Consistent(InsertParts(t, parts, user, receiver, ids).value)
    decreases |parts|
  {
    if parts != [] && CanInsertPayment(t, ids[0], NewPayment(parts[0].debt, user, receiver, parts[0].amount)) {
      var t1 := t.(payments := t.payments[ids[0] := NewPayment(parts[0].debt, user, receiver, parts[0].amount)]);
      RestMarkable(t, parts, user, receiver, t1);
      FirstMark(t, parts[0], user, receiver, ids[0]);
      KeepMark(t, 0, parts[0].debt, user, parts[0].amount, ids[0]);
      InsertPartsKeeps(t1, parts[1..], user, receiver, ids[1..]);
    }
  }

  lemma RestNonePending(t: Tables, parts: seq<Part>, id: Id, p: Payment)
    requires parts != [] && DistinctDebts(parts) && NonePending(t, parts)
    requires p.debt == parts[0].debt && id !in t.payments
    ensures NonePending(t.(payments := t.payments[id := p]), parts[1..])
  {
    var t1 := t.(payments := t.payments[id := p]);
    forall i | 0 <= i < |parts[1..]| ensures !HasPending(t1, parts[1..][i].debt) {
      assert parts[1..][i] == parts[i + 1] && !HasPending(t, parts[i + 1].debt);
    }
  }

  lemma FirstMarkExact(t: Tables, part: Part, user: Id, receiver: Id, id: Id)
    requires Consistent(t) && Markable(t, [part], user, receiver) && !HasPending(t, part.debt)
    requires CanInsertPayment(t, id, NewPayment(part.debt, user, receiver, part.amount))
    ensures var t1 := t.(payments := t.payments[id := NewPayment(part.debt, user, receiver, part.amount)]);
            && Mark(t, part.debt, user, part.amount, id) == (t1, Ok)
            && Consistent(t1) && (SinglePending(t) ==> SinglePending(t1))
  {
    FirstMark(t, part, user, receiver, id);
    PendingSumZero(t, part.debt);
    KeepMark(t, 0, part.debt, user, part.amount, id);
    if SinglePending(t) {
      KeepMarkSingle(t, 0, part.debt, user, part.amount, id);
    }
  }

  /** When no debt of the parts has a pending payment, the inserts are the single marks. */
  lemma {:induction false} InsertPartsAreMarks(t: Tables, parts: seq<Part>, user: Id, receiver: Id, ids: seq<Id>)
    requires Consistent(t) && |parts| <= |ids| && Markable(t, parts, user, receiver)
    requires DistinctDebts(parts) && NonePending(t, parts)
    requires InsertParts(t, parts, user, receiver, ids).Some?
    ensures MarksLead(t, parts, user, ids, InsertParts(t, parts, user, receiver, ids).value)
    ensures SinglePending(t) ==> SinglePending(InsertParts(t, parts, user, receiver, ids).value)
    decreases |parts|
  {
    if parts == [] {
    } else {
      var p := NewPayment(parts[0].debt, user, receiver, parts[0].amount);
      var t1 := t.(payments := t.payments[ids[0] := p]);
      RestMarkable(t, parts, user, receiver, t1);
      FirstMarkExact(t, parts[0], user, receiver, ids[0]);
      RestNonePending(t, parts, ids[0], p);
      RestDistinct(parts);
      InsertPartsAreMarks(t1, parts[1..], user, receiver, ids[1..]);
    }
  }

  lemma RestDistinct(parts: seq<Part>)
    requires DistinctDebts(parts) && parts != []
    ensures DistinctDebts(parts[1..])
  {
  }

  lemma RowsMarkable(t: Tables, rows: seq<Id>, user: Id, receiver: Id, amount: int)
    requires PayableRows(t, rows, user, receiver) && 0 <= amount <= TotalAvailable(t, rows)
    ensures Markable(t, Allocate(t, rows, amount), user, receiver)
    ensures DistinctDebts(Allocate(t, rows, amount))
    ensures forall i :: 0 <= i < |Allocate(t, rows, amount)| ==> Allocate(t, rows, amount)[i].debt in rows
  {
    assert Owing(t, rows);
    AllocateIsGreedy(t, rows, amount);
    var parts := Allocate(t, rows, amount);
    forall i | 0 <= i < |parts| ensures parts[i].debt == rows[i] && Payable(t, rows[i], user, receiver) {
      assert rows[i] in rows;
    }
    forall i, j | 0 <= i < j < |parts| ensures parts[i].debt != parts[j].debt {
      assert Before(t, rows[i], rows[j]);
    }
  }

  /** A part that is not positive fails the CHECK on payments, so a bulk payment pays at least zero. */
  lemma NegativeBulkFails(t: Tables, rows: seq<Id>, user: Id, receiver: Id, amount: int, ids: seq<Id>)
    requires Owing(t, rows) && |rows| <= |ids| && amount < 0
    ensures BulkMarkRows(t, rows, user, receiver, amount, ids).1 != Ok
  {
    if rows != [] {
      AllocateLength(t, rows, amount);
      assert Allocate(t, rows, amount)[0] == Part(rows[0], amount);
    }
  }

  lemma BulkWithinTotal(t: Tables, rows: seq<Id>, user: Id, receiver: Id, amount: int, ids: seq<Id>)
    requires PayableRows(t, rows, user, receiver) && |rows| <= |ids|
    requires BulkMarkRows(t, rows, user, receiver, amount, ids).1 == Ok
    ensures Owing(t, rows) && 0 <= amount <= TotalAvailable(t, rows)
  {
    assert Owing(t, rows);
    AvailablePositive(t, rows);
    WrapBelow(TotalAvailable(t, rows));
    if amount < 0 {
      NegativeBulkFails(t, rows, user, receiver, amount, ids);
    }
  }

  /** The payment ids that n inserts would use are new and differ. */
  predicate NewIds(t: Tables, ids: seq<Id>, n: nat)
    requires n <= |ids|
  {
    && (forall i :: 0 <= i < n ==> ids[i] !in t.payments)
    && (forall i, j :: 0 <= i < j < n ==> ids[i] != ids[j])
  }

  lemma NewIdsFront(t: Tables, ids: seq<Id>, n: nat, p: Payment)
    requires 0 < n <= |ids|
    ensures NewIds(t, ids, n) <==>
            ids[0] !in t.payments && NewIds(t.(payments := t.payments[ids[0] := p]), ids[1..], n - 1)
  {
    var t1, rest := t.(payments := t.payments[ids[0] := p]), ids[1..];
    if ids[0] !in t.payments && NewIds(t1, rest, n - 1) {
      forall i | 0 <= i < n ensures ids[i] !in t.payments && (i > 0 ==> ids[i] != ids[0]) {
        assert i > 0 ==> ids[i] == rest[i - 1];
      }
      forall i, j | 0 <= i < j < n ensures ids[i] != ids[j] {
        assert i > 0 ==> ids[i] == rest[i - 1] && ids[j] == rest[j - 1];
      }
    }
    if NewIds(t, ids, n) {
      assert forall i :: 0 <= i < n - 1 ==> rest[i] == ids[i + 1];
    }
  }

  /** The inserts of payable parts go through exactly when their ids are new and differ. */
  lemma {:induction false} InsertPartsIff(t: Tables, parts: seq<Part>, user: Id, receiver: Id, ids: seq<Id>)
    requires |parts| <= |ids| && Markable(t, parts, user, receiver) && user != receiver
    requires forall i :: 0 <= i < |parts| ==> parts[i].amount <= MAX_AMOUNT
    ensures InsertParts(t, parts, user, receiver, ids).Some? <==> NewIds(t, ids, |parts|)
    decreases |parts|
  {
    if parts == [] {
    } else {
      var p := NewPayment(parts[0].debt, user, receiver, parts[0].amount);
      var t1 := t.(payments := t.payments[ids[0] := p]);
      NewIdsFront(t, ids, |parts|, p);
      RestMarkable(t, parts, user, receiver, t1);
      InsertPartsIff(t1, parts[1..], user, receiver, ids[1..]);
    }
  }

  lemma RowsWithinLimit(t: Tables, rows: seq<Id>, user: Id, receiver: Id)
    requires Consistent(t) && PayableRows(t, rows, user, receiver)
    ensures rows != [] ==> user != receiver
    ensures forall d :: d in rows ==> d in t.debts && t.debts[d].remaining <= MAX_AMOUNT
  {
    forall d | d in rows ensures t.debts[d].remaining <= MAX_AMOUNT && user != receiver {
      assert DebtOk(t, d);
    }
    if rows != [] {
      assert rows[0] in rows;
    }
  }

  lemma PartsIff(t: Tables, rows: seq<Id>, user: Id, receiver: Id, amount: nat, ids: seq<Id>)
    requires Consistent(t) && PayableRows(t, rows, user, receiver) && |rows| <= |ids| && rows != []
    requires amount <= TotalAvailable(t, rows)
    ensures |Allocate(t, rows, amount)| <= |ids|
    ensures InsertParts(t, Allocate(t, rows, amount), user, receiver, ids).Some? <==>
            NewIds(t, ids, |Allocate(t, rows, amount)|)
  {
    var parts := Allocate(t, rows, amount);
    RowsWithinLimit(t, rows, user, receiver);
    RowsMarkable(t, rows, user, receiver, amount);
    AllocateLength(t, rows, amount);
    forall i | 0 <= i < |parts| ensures parts[i].amount <= MAX_AMOUNT {
      assert parts[i].debt in rows;
    }
    InsertPartsIff(t, parts, user, receiver, ids);
  }

  /**
   * What a bulk payment answers: it goes through exactly for an amount between zero and the
   * wrapped total of at least one debt, given new ids for its payments.
   */
  lemma BulkOutcome(t: Tables, rows: seq<Id>, user: Id, receiver: Id, amount: int, ids: seq<Id>)
    requires Consistent(t) && PayableRows(t, rows, user, receiver) && |rows| <= |ids|
    ensures Known(t, rows) && |Allocate(t, rows, amount)| <= |ids|
    ensures BulkMarkRows(t, rows, user, receiver, amount, ids).1 ==
            if rows == [] then Err(NotFound)
            else if amount > Wrap64(TotalAvailable(t, rows)) then Err(AmountExceedsRemaining)
            else if 0 <= amount && NewIds(t, ids, |Allocate(t, rows, amount)|) then Ok
            else Err(Database)
  {
    assert Owing(t, rows);
    AllocateLength(t, rows, amount);
    if rows == [] || amount > Wrap64(TotalAvailable(t, rows)) {
    } else if amount < 0 {
      NegativeBulkFails(t, rows, user, receiver, amount, ids);
    } else {
      AvailablePositive(t, rows);
      WrapBelow(TotalAvailable(t, rows));
      PartsIff(t, rows, user, receiver, amount, ids);
    }
  }

  lemma KeepBulk(t: Tables, rows: seq<Id>, user: Id, receiver: Id, amount: int, ids: seq<Id>)
    requires Consistent(t) && PayableRows(t, rows, user, receiver) && |rows| <= |ids|
    ensures Consistent(BulkMarkRows(t, rows, user, receiver, amount, ids).0)
  {
    if BulkMarkRows(t, rows, user, receiver, amount, ids).1 == Ok {
      BulkWithinTotal(t, rows, user, receiver, amount, ids);
      RowsMarkable(t, rows, user, receiver, amount);
      AllocateLength(t, rows, amount);
      InsertPartsKeeps(t, Allocate(t, rows, amount), user, receiver, ids);
    }
  }

  /**
   * A successful bulk payment allocates exactly its amount greedily over the rows and ends
   * where marking each allocated debt with its part, one after the other, ends.
   */
  lemma BulkIsMarks(t: Tables, rows: seq<Id>, user: Id, receiver: Id, amount: int, ids: seq<Id>)
    requires Consistent(t) && BulkRows(t, rows, user, receiver) && |rows| <= |ids|
    requires BulkMarkRows(t, rows, user, receiver, amount, ids).1 == Ok
    ensures Known(t, rows) && amount >= 0 && Greedy(t, rows, amount, Allocate(t, rows, amount))
    ensures |Allocate(t, rows, amount)| <= |ids|
    ensures MarksLead(t, Allocate(t, rows, amount), user, ids, BulkMarkRows(t, rows, user, receiver, amount, ids).0)
    ensures SinglePending(t) ==> SinglePending(BulkMarkRows(t, rows, user, receiver, amount, ids).0)
  {
    BulkWithinTotal(t, rows, user, receiver, amount, ids);
    RowsMarkable(t, rows, user, receiver, amount);
    AllocateLength(t, rows, amount);
    AllocateIsGreedy(t, rows, amount);
    InsertPartsAreMarks(t, Allocate(t, rows, amount), user, receiver, ids);
  }
}
