/**
 * What locking does not do to concurrent transactions: no state is a deadlock, every
 * schedule comes to an end, and the serial order respects the order of requests.
 */
module Progress {
  import opened Wrappers
  import Sums
  import opened Ledger
  import LedgerInvariants
  import opened Transactions
  import opened Serializability

  /** A statement of a transaction that has begun. */
  predicate IsStatement(a: Action) { !a.Begin? && !a.Fail? && !a.Instant? }

  predicate AllClosed(s: Sys) { forall x :: x in s.txs ==> s.txs[x].pc.Closed? }

  // ---------------------------------------------------------------- no deadlock

  ghost predicate AllOk(s: Sys) { forall x :: x in s.txs ==> TxOk(s.t, s.log, s.txs[x]) }

  /** A transaction that has its debt row never waits. */
  lemma HolderAdvances(s: Sys, x: TxId) returns (a: Action)
    requires x in s.txs && TxOk(s.t, s.log, s.txs[x])
    requires HeldDebt(s.txs[x]).Some? || s.txs[x].pc.Missed?
    ensures IsStatement(a) && a.tx == x && Next(s, a) != s
  {
    var pc := s.txs[x].pc;
    a := if pc.Holding? then Guard(x)
         else if pc.Written? then Commit(x)
         else if pc.Missed? then LookUp(x)
         else Write(x);
    if pc.Passed? || pc.DebtWritten? {
      WriteShape(s, x);
    }
    assert Next(s, a).txs[x].pc != pc;
  }

  /** One that waits for a debt row waits for a transaction that does not wait. */
  lemma DebtWaiterAdvances(s: Sys, x: TxId) returns (a: Action)
    requires x in s.txs && AllOk(s)
    requires s.txs[x].pc == (if IsReview(s.txs[x].op) then PaymentHeld else Begun)
    ensures IsStatement(a) && Next(s, a) != s
  {
    assert TxOk(s.t, s.log, s.txs[x]);
    var op := s.txs[x].op;
    if IsUpdate(op) && !(Target(s.t, op).Some? && Hit(Read(s.t, op, op.debt), op)) {
      a := Miss(x);
      assert Next(s, a).txs[x].pc.Missed?;
    } else if Target(s.t, op) == None || DebtFree(s, Target(s.t, op).value) {
      a := LockDebt(x);
      assert Next(s, a).txs[x].pc != s.txs[x].pc;
    } else {
      var y :| y in s.txs && HeldDebt(s.txs[y]) == Target(s.t, op);
      a := HolderAdvances(s, y);
    }
  }

  /** In every state with an open transaction, some statement can run. */
  lemma NoDeadlock(s: Sys, x: TxId) returns (a: Action)
    requires AllOk(s) && x in s.txs && !s.txs[x].pc.Closed?
    ensures IsStatement(a) && Next(s, a) != s
  {
    var tx := s.txs[x];
    assert TxOk(s.t, s.log, tx);
    if HeldDebt(tx).Some? || tx.pc.Missed? {
      a := HolderAdvances(s, x);
    } else if tx.pc.PaymentHeld? || !IsReview(tx.op) {
      a := DebtWaiterAdvances(s, x);
    } else if Target(s.t, tx.op) == None || PaymentFree(s, tx.op.payment) {
      a := LockPayment(x);
      assert Next(s, a).txs[x].pc != tx.pc;
    } else {
      a := PaymentHolderAdvances(s, tx.op.payment);
    }
  }

  lemma PaymentHolderAdvances(s: Sys, payment: Id) returns (a: Action)
    requires AllOk(s) && !PaymentFree(s, payment)
    ensures IsStatement(a) && Next(s, a) != s
  {
    var y :| y in s.txs && HeldPayment(s.txs[y]) == Some(payment);
    assert TxOk(s.t, s.log, s.txs[y]);
    if s.txs[y].pc.PaymentHeld? {
      a := DebtWaiterAdvances(s, y);
    } else {
      a := HolderAdvances(s, y);
    }
  }

  // ---------------------------------------------------------------- every schedule ends

  function RankAt(txs: map<TxId, Tx>): TxId -> int {
    (x: TxId) => if x in txs then Rank(txs[x].pc) else 0
  }

  /** How many statements all transactions together still have before them, at most. */
  ghost function Work(s: Sys): nat {
    Sums.SumBounds(s.txs.Keys, RankAt(s.txs));
    Sums.Sum(s.txs.Keys, RankAt(s.txs))
  }

  lemma StatementWorks(s: Sys, a: Action)
    requires (IsStatement(a) || a.Fail?) && Next(s, a) != s
    ensures Work(Next(s, a)) < Work(s)
  {
    var s' := Next(s, a);
    NextShape(s, a);
    assert s'.txs.Keys == s.txs.Keys;
    Sums.SumChange(s.txs.Keys, a.tx, RankAt(s.txs), RankAt(s'.txs));
  }

  /** No action of the schedule begins anything, and each of them changes the state. */
  ghost predicate Busy(s: Sys, actions: seq<Action>)
    decreases |actions|
  {
    actions == []
    || (&& (IsStatement(actions[0]) || actions[0].Fail?)
        && Next(s, actions[0]) != s && Busy(Next(s, actions[0]), actions[1..]))
  }

  /** However statements and failures are scheduled, they run out. */
  lemma {:induction false} SchedulesEnd(s: Sys, actions: seq<Action>)
    requires Busy(s, actions)
    ensures |actions| + Work(Exec(s, actions)) <= Work(s)
    decreases |actions|
  {
    if actions == [] {
    } else {
      StatementWorks(s, actions[0]);
      SchedulesEnd(Next(s, actions[0]), actions[1..]);
    }
  }

  /** The schedule consists of statements, and brings every open transaction to an answer. */
  ghost predicate Finishes(s: Sys, actions: seq<Action>) {
    && Busy(s, actions) && AllClosed(Exec(s, actions))
    && forall i :: 0 <= i < |actions| ==> IsStatement(actions[i])
  }

  lemma OneMoreFinishes(s: Sys, a: Action, rest: seq<Action>)
    requires IsStatement(a) && Next(s, a) != s && Finishes(Next(s, a), rest)
    ensures Finishes(s, [a] + rest)
  {
    assert ([a] + rest)[1..] == rest;
  }

  /** From every reachable state the open transactions can all be brought to an answer. */
  lemma {:induction false} CanFinish(base: Tables, s: Sys) returns (actions: seq<Action>)
    requires Inv(base, s)
    ensures Finishes(s, actions)
    decreases Work(s)
  {
    if AllClosed(s) {
      actions := [];
    } else {
      var a := SomeStatement(base, s);
      var rest := CanFinish(base, Next(s, a));
      OneMoreFinishes(s, a, rest);
      actions := [a] + rest;
    }
  }

  lemma SomeStatement(base: Tables, s: Sys) returns (a: Action)
    requires Inv(base, s) && !AllClosed(s)
    ensures IsStatement(a) && Next(s, a) != s && Inv(base, Next(s, a)) && Work(Next(s, a)) < Work(s)
  {
    var x :| x in s.txs && !s.txs[x].pc.Closed?;
    assert AllOk(s);
    a := NoDeadlock(s, x);
    StatementWorks(s, a);
    NextKeeps(base, s, a);
  }

  /** At any moment of any interleaving: some statement can run, and all can be finished. */
  lemma NeverStuck(base: Tables, actions: seq<Action>) returns (more: seq<Action>)
    requires LedgerInvariants.Consistent(base)
    ensures var s := Exec(Start(base), actions);
            && Finishes(s, more)
            && (!AllClosed(s) ==> exists a :: IsStatement(a) && Next(s, a) != s)
  {
    var s := Exec(Start(base), actions);
    ExecKeeps(base, Start(base), actions);
    more := CanFinish(base, s);
    if !AllClosed(s) {
      var a := SomeStatement(base, s);
    }
  }

  // ---------------------------------------------------------------- real-time order

  /** s comes after s0: closed transactions stay, and new ones take effect after the old log. */
  predicate Follows(s0: Sys, s: Sys) {
    && s0.log <= s.log
    && (forall x :: x in s0.txs ==> x in s.txs)
    && (forall x :: x in s0.txs && s0.txs[x].pc.Closed? ==> s.txs[x] == s0.txs[x])
    && (forall y :: y in s.txs && y !in s0.txs && EntryOf(s.txs[y]).Some? ==> |s0.log| <= EntryOf(s.txs[y]).value)
  }

  lemma NextFollows(s0: Sys, s: Sys, a: Action)
    requires Follows(s0, s)
    ensures Follows(s0, Next(s, a))
  {
    NextShape(s, a);
  }

  lemma {:induction false} ExecFollows(s0: Sys, s: Sys, actions: seq<Action>)
    requires Follows(s0, s)
    ensures Follows(s0, Exec(s, actions))
    decreases |actions|
  {
    if actions == [] {
    } else {
      NextFollows(s0, s, actions[0]);
      ExecFollows(s0, Next(s, actions[0]), actions[1..]);
    }
  }

  /**
   * The serial order is the order of the requests where they do not overlap: a transaction
   * that has its answer before another begins comes before it in the log, and keeps it.
   */
  lemma RealTimeOrder(base: Tables, before: seq<Action>, after: seq<Action>, x: TxId, y: TxId)
    requires LedgerInvariants.Consistent(base)
    requires var s0 := Exec(Start(base), before); var s := Exec(s0, after);
             && x in s0.txs && s0.txs[x].pc.Closed? && EntryOf(s0.txs[x]).Some?
             && y !in s0.txs && y in s.txs && EntryOf(s.txs[y]).Some?
    ensures var s0 := Exec(Start(base), before); var s := Exec(s0, after);
            && x in s.txs && s.txs[x] == s0.txs[x]
            && EntryOf(s.txs[x]).value < EntryOf(s.txs[y]).value
  {
    var s0 := Exec(Start(base), before);
    Serializable(base, before);
    ExecFollows(s0, s0, after);
  }

  // ---------------------------------------------------------------- a transaction on its own

  /** The state in which transaction 0 is the only one, at pc, and nothing is committed or logged. */
  function Solo(t: Tables, op: Op, now: Time, pc: Pc): Sys {
    Sys(t, map[0 := Tx(op, now, pc)], [])
  }

  /** Transaction 0 is the only one, and it has been answered. */
  function Done(t: Tables, op: Op, now: Time, outcome: Outcome): Sys {
    Sys(t, map[0 := Tx(op, now, Closed(outcome, Some(0)))], [Answer(op, now, outcome)])
  }

  /** Effect and answer are those of the atomic step. */
  ghost predicate DoneAs(t: Tables, op: Op, now: Time, s: Sys)
    requires Possible(t, op)
  {
    s == Done(Step(t, op, now).0, op, now, Step(t, op, now).1)
  }

  predicate AllOfZero(actions: seq<Action>) {
    forall i :: 0 <= i < |actions| ==> IsStatement(actions[i]) && actions[i].tx == 0
  }

  lemma DoneIsIdle(t: Tables, op: Op, now: Time, outcome: Outcome, a: Action)
    requires IsStatement(a) && a.tx == 0
    ensures Next(Done(t, op, now, outcome), a) == Done(t, op, now, outcome)
  {
  }

  /** A closed transaction does nothing any more. */
  lemma {:induction false} DoneStays(t: Tables, op: Op, now: Time, outcome: Outcome, actions: seq<Action>)
    requires AllOfZero(actions)
    ensures Exec(Done(t, op, now, outcome), actions) == Done(t, op, now, outcome)
    decreases |actions|
  {
    if actions == [] {
    } else {
      DoneIsIdle(t, op, now, outcome, actions[0]);
      DoneStays(t, op, now, outcome, actions[1..]);
    }
  }

  lemma ExecOne(s: Sys, a: Action, rest: seq<Action>, s1: Sys)
    requires Next(s, a) == s1
    ensures Exec(s, [a] + rest) == Exec(s1, rest)
  {
    assert ([a] + rest)[1..] == rest;
  }

  /** The transaction holds debt d with what it has read, and its update has hit. */
  ghost predicate Reads(t: Tables, op: Op, d: Id, v: View) {
    IsSingle(op) && Target(t, op) == Some(d) && v == Read(t, op, d) && Hit(v, op)
  }

  lemma GuardSolo(t: Tables, op: Op, now: Time, d: Id, v: View)
    requires Reads(t, op, d, v)
    ensures Next(Solo(t, op, now, Holding(d, v)), Guard(0)) ==
            match Check(v, op)
            case None => Solo(t, op, now, Passed(d, v))
            case Some(e) => Done(t, op, now, Err(e))
  {
  }

  /** The state after the first write, and after both. */
  function AfterWrite(t: Tables, op: Op, now: Time, d: Id, v: View): Pc
    requires IsSingle(op) && (IsReview(op) ==> v.payment.Some?)
  {
    if op.OpConfirm? then DebtWritten(d, v, Reduced(v.debt, v.payment.value.amount, now))
    else Written(d, v, Writes(v, d, op, now))
  }

  lemma FirstWrite(t: Tables, op: Op, now: Time, d: Id, v: View)
    requires Reads(t, op, d, v) && Check(v, op) == None
    ensures Next(Solo(t, op, now, Passed(d, v)), Write(0)) ==
            if IsMark(op) && !CanInsertPayment(t, op.id, Marked(v, op)) then Done(t, op, now, Err(Database))
            else Solo(t, op, now, AfterWrite(t, op, now, d, v))
  {
    WriteShape(Solo(t, op, now, Passed(d, v)), 0);
  }

  lemma SecondWrite(t: Tables, op: Op, now: Time, d: Id, v: View)
    requires Reads(t, op, d, v) && Check(v, op) == None
    ensures Next(Solo(t, op, now, AfterWrite(t, op, now, d, v)), Write(0)) ==
            Solo(t, op, now, Written(d, v, Writes(v, d, op, now)))
  {
    if op.OpConfirm? {
      WriteShape(Solo(t, op, now, AfterWrite(t, op, now, d, v)), 0);
    }
  }

  lemma CommitSolo(t: Tables, op: Op, now: Time, d: Id, v: View, b: Buffer)
    requires IsMark(op) ==> op.id !in t.payments
    ensures Next(Solo(t, op, now, Written(d, v, b)), Commit(0)) == Done(Apply(t, b), op, now, Ok)
  {
  }

  lemma SoloWrites(t: Tables, op: Op, now: Time, d: Id, v: View)
    requires Possible(t, op) && Reads(t, op, d, v) && Check(v, op) == None
    ensures DoneAs(t, op, now, Exec(Solo(t, op, now, Passed(d, v)), [Write(0)] + ([Write(0)] + ([Commit(0)] + []))))
  {
    FirstWrite(t, op, now, d, v);
    if IsMark(op) && !CanInsertPayment(t, op.id, Marked(v, op)) {
      UninsertableStep(t, op, now, d);
      var rest := [Write(0)] + ([Commit(0)] + []);
      ExecOne(Solo(t, op, now, Passed(d, v)), Write(0), rest, Done(t, op, now, Err(Database)));
      DoneStays(t, op, now, Err(Database), rest);
    } else {
      WrittenStep(t, op, now, d);
      SoloCommits(t, op, now, d, v);
    }
  }

  lemma SoloCommits(t: Tables, op: Op, now: Time, d: Id, v: View)
    requires Reads(t, op, d, v) && Check(v, op) == None
    requires IsMark(op) ==> CanInsertPayment(t, op.id, Marked(v, op))
    ensures Exec(Solo(t, op, now, Passed(d, v)), [Write(0)] + ([Write(0)] + ([Commit(0)] + []))) ==
            Done(Apply(t, Writes(v, d, op, now)), op, now, Ok)
  {
    var s1 := Solo(t, op, now, AfterWrite(t, op, now, d, v));
    var s2 := Solo(t, op, now, Written(d, v, Writes(v, d, op, now)));
    var s3 := Done(Apply(t, Writes(v, d, op, now)), op, now, Ok);
    FirstWrite(t, op, now, d, v);
    SecondWrite(t, op, now, d, v);
    CommitSolo(t, op, now, d, v, Writes(v, d, op, now));
    ExecOne(Solo(t, op, now, Passed(d, v)), Write(0), [Write(0)] + ([Commit(0)] + []), s1);
    ExecOne(s1, Write(0), [Commit(0)] + [], s2);
    ExecOne(s2, Commit(0), [], s3);
  }

  function WritesAndCommit(): seq<Action> { [Write(0)] + ([Write(0)] + ([Commit(0)] + [])) }

  lemma SoloHolds(t: Tables, op: Op, now: Time, d: Id, v: View)
    requires Possible(t, op) && Reads(t, op, d, v)
    ensures DoneAs(t, op, now, Exec(Solo(t, op, now, Holding(d, v)), [Guard(0)] + WritesAndCommit()))
  {
    GuardSolo(t, op, now, d, v);
    match Check(v, op)
    case None =>
      ExecOne(Solo(t, op, now, Holding(d, v)), Guard(0), WritesAndCommit(), Solo(t, op, now, Passed(d, v)));
      SoloWrites(t, op, now, d, v);
    case Some(e) =>
      CheckedStep(t, op, now, d);
      ExecOne(Solo(t, op, now, Holding(d, v)), Guard(0), WritesAndCommit(), Done(t, op, now, Err(e)));
      DoneStays(t, op, now, Err(e), WritesAndCommit());
  }

  lemma LockPaymentSolo(t: Tables, op: Op, now: Time)
    requires IsSingle(op)
    ensures Next(Solo(t, op, now, Begun), LockPayment(0)) ==
            if !IsReview(op) then Solo(t, op, now, Begun)
            else if Target(t, op) == None then Done(t, op, now, Err(NotFound))
            else Solo(t, op, now, PaymentHeld)
  {
  }

  lemma LockDebtSolo(t: Tables, op: Op, now: Time, d: Id, v: View)
    requires Reads(t, op, d, v)
    ensures Next(Solo(t, op, now, if IsReview(op) then PaymentHeld else Begun), LockDebt(0)) ==
            Solo(t, op, now, Holding(d, v))
  {
  }

  lemma LockNothingSolo(t: Tables, op: Op, now: Time)
    requires IsMark(op) && Target(t, op) == None
    ensures Next(Solo(t, op, now, Begun), LockDebt(0)) == Done(t, op, now, Err(NotFound))
  {
  }

  function GuardWritesAndCommit(): seq<Action> { [Guard(0)] + WritesAndCommit() }

  lemma SoloAbsentReview(t: Tables, op: Op, now: Time, rest: seq<Action>)
    requires IsReview(op) && Possible(t, op) && Target(t, op) == None && AllOfZero(rest)
    ensures DoneAs(t, op, now, Exec(Solo(t, op, now, Begun), [LockPayment(0)] + rest))
  {
    AbsentStep(t, op, now);
    LockPaymentSolo(t, op, now);
    ExecOne(Solo(t, op, now, Begun), LockPayment(0), rest, Done(t, op, now, Err(NotFound)));
    DoneStays(t, op, now, Err(NotFound), rest);
  }

  lemma SoloAbsentMark(t: Tables, op: Op, now: Time, rest: seq<Action>)
    requires IsMark(op) && Possible(t, op) && Target(t, op) == None && AllOfZero(rest)
    ensures DoneAs(t, op, now, Exec(Solo(t, op, now, Begun), [LockPayment(0)] + ([LockDebt(0)] + rest)))
  {
    var s := Solo(t, op, now, Begun);
    AbsentStep(t, op, now);
    LockPaymentSolo(t, op, now);
    LockNothingSolo(t, op, now);
    ExecOne(s, LockPayment(0), [LockDebt(0)] + rest, s);
    ExecOne(s, LockDebt(0), rest, Done(t, op, now, Err(NotFound)));
    DoneStays(t, op, now, Err(NotFound), rest);
  }

  lemma SoloAbsent(t: Tables, op: Op, now: Time)
    requires (IsReview(op) || IsMark(op)) && Possible(t, op) && Target(t, op) == None
    ensures DoneAs(t, op, now, Exec(Solo(t, op, now, Begun), Locks()))
  {
    if IsReview(op) {
      SoloAbsentReview(t, op, now, [LockDebt(0)] + GuardWritesAndCommit());
    } else {
      SoloAbsentMark(t, op, now, GuardWritesAndCommit());
    }
  }

  lemma SoloLocks(t: Tables, op: Op, now: Time, d: Id, v: View)
    requires Possible(t, op) && Reads(t, op, d, v)
    ensures DoneAs(t, op, now, Exec(Solo(t, op, now, Begun), Locks()))
  {
    var s1 := Solo(t, op, now, if IsReview(op) then PaymentHeld else Begun);
    LockPaymentSolo(t, op, now);
    LockDebtSolo(t, op, now, d, v);
    ExecOne(Solo(t, op, now, Begun), LockPayment(0), [LockDebt(0)] + GuardWritesAndCommit(), s1);
    ExecOne(s1, LockDebt(0), GuardWritesAndCommit(), Solo(t, op, now, Holding(d, v)));
    SoloHolds(t, op, now, d, v);
  }

  /** Whether a conditional update finds its row. */
  ghost predicate Misses(t: Tables, op: Op) {
    IsUpdate(op) && !(Target(t, op).Some? && Hit(Read(t, op, op.debt), op))
  }

  lemma MissSolo(t: Tables, op: Op, now: Time)
    requires IsSingle(op)
    ensures var s1 := Next(Solo(t, op, now, Begun), Miss(0));
            && (!Misses(t, op) ==> s1 == Solo(t, op, now, Begun) && Next(s1, LookUp(0)) == s1)
            && (Misses(t, op) ==> Next(s1, LookUp(0)) == Done(t, op, now, Err(Classify(t, op))))
  {
  }

  function Locks(): seq<Action> { [LockPayment(0)] + ([LockDebt(0)] + GuardWritesAndCommit()) }

  /** One schedule for all operations; a statement that does not apply does nothing. */
  function AllStatements(): seq<Action> {
    [Miss(0)] + ([LookUp(0)] + Locks())
  }

  lemma SoloMissed(t: Tables, op: Op, now: Time)
    requires IsSingle(op) && Possible(t, op) && Misses(t, op)
    ensures DoneAs(t, op, now, Exec(Solo(t, op, now, Begun), [Miss(0)] + ([LookUp(0)] + Locks())))
  {
    var s := Solo(t, op, now, Begun);
    var s1 := Next(s, Miss(0));
    MissSolo(t, op, now);
    MissedStep(t, op, now);
    ExecOne(s, Miss(0), [LookUp(0)] + Locks(), s1);
    ExecOne(s1, LookUp(0), Locks(), Done(t, op, now, Err(Classify(t, op))));
    DoneStays(t, op, now, Err(Classify(t, op)), Locks());
  }

  lemma SoloLocked(t: Tables, op: Op, now: Time)
    requires IsSingle(op) && Possible(t, op) && !Misses(t, op)
    ensures DoneAs(t, op, now, Exec(Solo(t, op, now, Begun), Locks()))
  {
    if Target(t, op) == None {
      SoloAbsent(t, op, now);
    } else {
      SoloLocks(t, op, now, Target(t, op).value, Read(t, op, Target(t, op).value));
    }
  }

  lemma SoloRuns(t: Tables, op: Op, now: Time)
    requires IsSingle(op) && Possible(t, op)
    ensures DoneAs(t, op, now, Exec(Solo(t, op, now, Begun), AllStatements()))
  {
    if Misses(t, op) {
      SoloMissed(t, op, now);
    } else {
      var s := Solo(t, op, now, Begun);
      MissSolo(t, op, now);
      ExecOne(s, Miss(0), [LookUp(0)] + Locks(), s);
      ExecOne(s, LookUp(0), Locks(), s);
      SoloLocked(t, op, now);
    }
  }

  /**
   * A transaction that runs on its own does what the atomic operation does and answers
   * what it answers, so every serial run of operations on one debt is an interleaving.
   */
  lemma AloneIsAtomic(t: Tables, op: Op, now: Time)
    requires IsSingle(op) && Possible(t, op)
    ensures DoneAs(t, op, now, Exec(Start(t), [Begin(0, op, now)] + AllStatements()))
  {
    ExecOne(Start(t), Begin(0, op, now), AllStatements(), Solo(t, op, now, Begun));
    SoloRuns(t, op, now);
  }
}
