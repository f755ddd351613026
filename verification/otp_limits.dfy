/**
 * What the limits on one-time passwords add up to over whole runs: codes per interval,
 * superseded codes, single use, and wrong guesses per interval.
 */
module OtpLimits {
  import opened Wrappers
  import opened Sums
  import opened Otp

  // ---------------------------------------------------------------- codes per interval

  /** The verifications created from a to b, both included. */
  function CreatedIn(rows: Rows, email: string, purpose: string, a: Time, b: Time): set<nat> {
    set i: nat | i < |rows| && rows[i].For(email, purpose) && a <= rows[i].createdAt <= b
  }

  lemma SubsetSize<T>(s: set<T>, t: set<T>)
    requires s <= t
    ensures |s| <= |t|
  {
    assert t == s + (t - s);
  }

  lemma InsertSize<T>(s: set<T>, x: T)
    ensures |s + {x}| <= |s| + 1
  {
    if x in s {
      assert s + {x} == s;
    }
  }

  predicate CreatesIn(c: Config, rows: Rows, e: Event, email: string, purpose: string, a: Time, b: Time) {
    Step(c, rows, e).1.Created? && e.op.email == email && e.op.purpose == purpose && a <= e.now <= b
  }

  lemma CreatedStep(c: Config, rows: Rows, e: Event, email: string, purpose: string, a: Time, b: Time)
    ensures CreatedIn(Step(c, rows, e).0, email, purpose, a, b) ==
            if CreatesIn(c, rows, e, email, purpose, a, b) then CreatedIn(rows, email, purpose, a, b) + {|rows|}
            else CreatedIn(rows, email, purpose, a, b)
  {
    StepFrame(c, rows, e);
  }

  /** A code is added to those of an interval of one window only while there is room. */
  lemma RoomForOneMore(c: Config, rows: Rows, e: Event, email: string, purpose: string, a: Time)
    requires CreatesIn(c, rows, e, email, purpose, a, a + c.window)
    ensures |CreatedIn(rows, email, purpose, a, a + c.window)| < c.perWindow
  {
    SubsetSize(CreatedIn(rows, email, purpose, a, a + c.window), Recent(rows, email, purpose, e.now - c.window));
  }

  /** At most `perWindow` codes per purpose are created in any interval as long as the window. */
  lemma {:induction false} CreationLimit(c: Config, run: seq<Event>, email: string, purpose: string, a: Time)
    requires Legal(c, run)
    ensures |CreatedIn(After(c, run), email, purpose, a, a + c.window)| <= Bound(c.perWindow)
  {
    if run == [] {
      assert CreatedIn([], email, purpose, a, a + c.window) == {};
    } else {
      var rows, e := After(c, run[..|run| - 1]), run[|run| - 1];
      CreationLimit(c, run[..|run| - 1], email, purpose, a);
      CreatedStep(c, rows, e, email, purpose, a, a + c.window);
      if CreatesIn(c, rows, e, email, purpose, a, a + c.window) {
        RoomForOneMore(c, rows, e, email, purpose, a);
        InsertSize(CreatedIn(rows, email, purpose, a, a + c.window), |rows|);
      }
    }
  }

  // ---------------------------------------------------------------- when a code is created

  /** A code for this purpose that is not used up was created at this very instant. */
  predicate CreatedJustNow(rows: Rows, email: string, purpose: string, now: Time) {
    exists i :: 0 <= i < |rows| && rows[i].For(email, purpose) && rows[i].verifiedAt.None? && rows[i].createdAt == now
  }

  lemma BlockedIff(c: Config, rows: Rows, email: string, purpose: string, now: Time)
    requires TableOk(c, rows, now)
    ensures ExpiryBlocked(rows, email, purpose, now) <==> CreatedJustNow(rows, email, purpose, now)
  {
    forall i | 0 <= i < |rows|
      ensures rows[i].createdAt <= now && rows[i].createdAt < rows[i].expiresAt {
      assert RowOk(c, rows[i], now);
    }
    if i :| 0 <= i < |rows| && rows[i].For(email, purpose) && rows[i].verifiedAt.None? && rows[i].createdAt == now {
      assert Outstanding(rows[i], email, purpose, now);
    }
  }

  /**
   * What the last call of a run answers when it asks for a code: one is created exactly
   * when there is room in the window and none was created at the same instant.
   */
  lemma CreateOutcome(c: Config, run: seq<Event>)
    requires Legal(c, run) && run != [] && run[|run| - 1].op.OpCreate?
    ensures var rows, e := After(c, run[..|run| - 1]), run[|run| - 1];
            var (email, purpose) := (e.op.email, e.op.purpose);
            Step(c, rows, e).1 ==
              if !KnownPurpose(purpose) then Failed(InvalidPurpose)
              else if |CreatedIn(rows, email, purpose, e.now - c.window, e.now)| >= c.perWindow then Failed(RateLimited)
              else if c.expiry <= 0 || CreatedJustNow(rows, email, purpose, e.now) then Failed(Database)
              else Created(|rows|)
  {
    var rows, e := After(c, run[..|run| - 1]), run[|run| - 1];
    BeforeLast(c, run);
    BlockedIff(c, rows, e.op.email, e.op.purpose, e.now);
    RecentAreCreated(c, rows, e.op.email, e.op.purpose, e.now);
  }

  lemma RecentAreCreated(c: Config, rows: Rows, email: string, purpose: string, now: Time)
    requires TableOk(c, rows, now)
    ensures Recent(rows, email, purpose, now - c.window) == CreatedIn(rows, email, purpose, now - c.window, now)
  {
    forall i | 0 <= i < |rows| ensures rows[i].createdAt <= now {
      assert RowOk(c, rows[i], now);
    }
  }

  /** Two requests for a code at one instant. */
  function TwoAtOnce(email: string, purpose: string): seq<Event> {
    [Event(OpCreate(email, purpose, None, "first"), 0), Event(OpCreate(email, purpose, None, "second"), 0)]
  }

  lemma FirstIsCreated(c: Config, e: Event)
    requires e.op.OpCreate? && KnownPurpose(e.op.purpose) && c.perWindow > 0 && c.expiry > 0
    ensures Legal(c, [e]) && Step(c, [], e).1 == Created(0)
    ensures After(c, [e]) == [NewRow(c, e.op.email, e.op.purpose, e.op.user, e.op.hash, e.now)]
  {
    assert [e][..0] == [];
    assert Recent([], e.op.email, e.op.purpose, e.now - c.window) == {};
  }

  /** However many codes the window has room for, the second request fails in the database. */
  lemma SecondAtOnceFails(c: Config, email: string, purpose: string)
    requires KnownPurpose(purpose) && c.perWindow >= 2 && c.expiry > 0
    ensures Legal(c, TwoAtOnce(email, purpose))
    ensures AnswerAt(c, TwoAtOnce(email, purpose), 0) == Created(0)
    ensures AnswerAt(c, TwoAtOnce(email, purpose), 1) == Failed(Database)
  {
    var run := TwoAtOnce(email, purpose);
    assert run[..0] == [] && run[..1] == [run[0]];
    FirstIsCreated(c, run[0]);
    var rows := After(c, run[..1]);
    SubsetSize(CreatedIn(rows, email, purpose, 0 - c.window, 0), {0});
    CreateOutcome(c, run);
    assert rows[0].For(email, purpose) && CreatedJustNow(rows, email, purpose, 0);
  }

  // ---------------------------------------------------------------- superseded codes

  /** The last call of a run compared its guess with row i, rightly or wrongly. */
  predicate ComparedAtEnd(c: Config, run: seq<Event>, i: nat)
    requires run != []
  {
    var rows, e := After(c, run[..|run| - 1]), run[|run| - 1];
    Wrong(c, rows, e) == Some(i) || Step(c, rows, e).1 == Verified(i)
  }

  /**
   * Strictly after the creation of a code, no code created before it for the same purpose
   * is even compared, let alone accepted, whatever has become of the newer one.
   */
  lemma SupersededForGood(c: Config, run: seq<Event>, i: nat, j: nat)
    requires Legal(c, run) && run != [] && ComparedAtEnd(c, run, i)
    requires i < j < |After(c, run[..|run| - 1])|
    ensures var rows := After(c, run[..|run| - 1]);
            rows[j].For(rows[i].email, rows[i].purpose) ==> run[|run| - 1].now <= rows[j].createdAt
  {
    var rows, e := After(c, run[..|run| - 1]), run[|run| - 1];
    BeforeLast(c, run);
    Compared(c, rows, e, i);
    assert Superseded(rows[i], rows[j]);
  }

  // ---------------------------------------------------------------- single use

  /** The answer to the call at index k. */
  function AnswerAt(c: Config, run: seq<Event>, k: nat): Answer
    requires k < |run|
  {
    Step(c, After(c, run[..k]), run[k]).1
  }

  lemma LegalPrefix(c: Config, run: seq<Event>, k: nat)
    requires Legal(c, run) && k <= |run|
    ensures Legal(c, run[..k])
    decreases |run|
  {
    if k < |run| {
      LegalPrefix(c, run[..|run| - 1], k);
      assert run[..|run| - 1][..k] == run[..k];
    } else {
      assert run[..k] == run;
    }
  }

  lemma {:induction false} StaysVerified(c: Config, run: seq<Event>, k: nat, id: nat)
    requires Legal(c, run) && k < |run| && AnswerAt(c, run, k) == Verified(id)
    ensures id < |After(c, run)| && After(c, run)[id].verifiedAt.Some?
    decreases |run|
  {
    var init, e := run[..|run| - 1], run[|run| - 1];
    var rows := After(c, init);
    if k == |run| - 1 {
      Compared(c, rows, e, id);
    } else {
      assert init[..k] == run[..k];
      StaysVerified(c, init, k, id);
      StepFrame(c, rows, e);
      if Step(c, rows, e).1 == Verified(id) {
        Compared(c, rows, e, id);
      }
    }
  }

  /** A code is accepted at most once in a run. */
  lemma VerifiedOnce(c: Config, run: seq<Event>, k: nat, m: nat, id: nat)
    requires Legal(c, run) && k < m < |run| && AnswerAt(c, run, k) == Verified(id)
    ensures AnswerAt(c, run, m) != Verified(id)
  {
    LegalPrefix(c, run, m);
    LegalPrefix(c, run, m + 1);
    assert run[..m][..k] == run[..k] && run[..m + 1][..m] == run[..m];
    StaysVerified(c, run[..m], k, id);
    if AnswerAt(c, run, m) == Verified(id) {
      Compared(c, After(c, run[..m]), run[m], id);
      assert false;
    }
  }

  // ---------------------------------------------------------------- wrong guesses

  predicate WrongAtEnd(c: Config, run: seq<Event>, email: string, purpose: string, a: Time, b: Time)
    requires run != []
  {
    var rows, e := After(c, run[..|run| - 1]), run[|run| - 1];
    e.op.email == email && e.op.purpose == purpose && a <= e.now <= b && Wrong(c, rows, e).Some?
  }

  /** How many wrong guesses for a purpose were compared from a to b, both included. */
  function WrongIn(c: Config, run: seq<Event>, email: string, purpose: string, a: Time, b: Time): nat {
    if run == [] then 0
    else WrongIn(c, run[..|run| - 1], email, purpose, a, b) + if WrongAtEnd(c, run, email, purpose, a, b) then 1 else 0
  }

  /** The verifications they were compared with. */
  function GuessedIn(c: Config, run: seq<Event>, email: string, purpose: string, a: Time, b: Time): set<nat> {
    if run == [] then {}
    else
      GuessedIn(c, run[..|run| - 1], email, purpose, a, b)
      + if WrongAtEnd(c, run, email, purpose, a, b)
        then {Wrong(c, After(c, run[..|run| - 1]), run[|run| - 1]).value} else {}
  }

  function AttemptsOf(rows: Rows): nat -> int {
    (i: nat) => if i < |rows| then rows[i].attempts else 0
  }

  lemma AttemptsLimit(c: Config, run: seq<Event>, i: nat)
    requires Legal(c, run)
    ensures 0 <= AttemptsOf(After(c, run))(i) <= Bound(c.maxAttempts)
  {
    if run != [] {
      RunKeeps(c, run);
      assert i < |After(c, run)| ==> RowOk(c, After(c, run)[i], run[|run| - 1].now);
    }
  }

  /** How often a wrong guess was compared with row i. */
  function WrongOn(c: Config, run: seq<Event>, i: nat): nat {
    if run == [] then 0
    else
      WrongOn(c, run[..|run| - 1], i)
      + if Wrong(c, After(c, run[..|run| - 1]), run[|run| - 1]) == Some(i) then 1 else 0
  }

  /** The counter of a code is exactly the number of wrong guesses compared with it. */
  lemma {:induction false} WrongPerCode(c: Config, run: seq<Event>, i: nat)
    requires Legal(c, run)
    ensures WrongOn(c, run, i) == AttemptsOf(After(c, run))(i)
    ensures WrongOn(c, run, i) <= Bound(c.maxAttempts)
  {
    if run == [] {
    } else {
      var init, e := run[..|run| - 1], run[|run| - 1];
      WrongPerCode(c, init, i);
      StepFrame(c, After(c, init), e);
    }
    AttemptsLimit(c, run, i);
  }

  lemma {:induction false} SumLimit(s: set<nat>, f: nat -> int, m: nat)
    requires forall i :: i in s ==> f(i) <= m
    ensures Sum(s, f) <= |s| * m
    decreases s
  {
    if s == {} {
    } else {
      SumLimit(s - {Pick(s)}, f, m);
      assert |s - {Pick(s)}| == |s| - 1;
      assert |s| * m == (|s| - 1) * m + m;
    }
  }

  /** The counters of the rows guessed at account for every wrong guess. */
  lemma {:induction false} WrongAreAttempts(c: Config, run: seq<Event>, email: string, purpose: string, a: Time,
                                            b: Time)
    requires Legal(c, run)
    ensures WrongIn(c, run, email, purpose, a, b) <=
            Sum(GuessedIn(c, run, email, purpose, a, b), AttemptsOf(After(c, run)))
  {
    if run == [] {
    } else {
      var init, e := run[..|run| - 1], run[|run| - 1];
      var rows, rows', guessed := After(c, init), After(c, run), GuessedIn(c, init, email, purpose, a, b);
      WrongAreAttempts(c, init, email, purpose, a, b);
      AttemptsGrow(c, init, e, guessed);
      if WrongAtEnd(c, run, email, purpose, a, b) {
        OneMoreAttempt(c, init, e, guessed);
      } else {
        assert guessed + {} == guessed;
      }
    }
  }

  lemma AttemptsGrow(c: Config, init: seq<Event>, e: Event, s: set<nat>)
    requires Legal(c, init)
    ensures Sum(s, AttemptsOf(After(c, init))) <= Sum(s, AttemptsOf(Step(c, After(c, init), e).0))
  {
    var rows := After(c, init);
    var rows' := Step(c, rows, e).0;
    StepFrame(c, rows, e);
    forall i | i in s ensures AttemptsOf(rows)(i) <= AttemptsOf(rows')(i) {
    }
    SumMonotone(s, AttemptsOf(rows), AttemptsOf(rows'));
  }

  lemma OneMoreAttempt(c: Config, init: seq<Event>, e: Event, s: set<nat>)
    requires Legal(c, init) && Wrong(c, After(c, init), e).Some?
    ensures var rows := After(c, init);
            Sum(s, AttemptsOf(rows)) + 1 <= Sum(s + {Wrong(c, rows, e).value}, AttemptsOf(Step(c, rows, e).0))
  {
    var rows := After(c, init);
    var rows', i := Step(c, rows, e).0, Wrong(c, rows, e).value;
    StepFrame(c, rows, e);
    AttemptsLimit(c, init, i);
    SumRemove(s + {i}, i, AttemptsOf(rows'));
    assert s + {i} - {i} == s - {i};
    AttemptsGrow(c, init, e, s - {i});
    if i in s {
      SumRemove(s, i, AttemptsOf(rows));
    } else {
      assert s - {i} == s;
    }
  }

  /** Row i was created by b, and no later row for its purpose before a. */
  predicate NewestBefore(rows: Rows, email: string, purpose: string, i: nat, a: Time, b: Time) {
    && i < |rows| && rows[i].For(email, purpose) && rows[i].createdAt <= b
    && forall j :: i < j < |rows| && rows[j].For(email, purpose) ==> a <= rows[j].createdAt
  }

  /** Only codes created since a, and the newest created before, are guessed at from a on. */
  lemma {:induction false} GuessedAreNew(c: Config, run: seq<Event>, email: string, purpose: string, a: Time, b: Time,
                                         i: nat)
    requires Legal(c, run) && i in GuessedIn(c, run, email, purpose, a, b)
    ensures NewestBefore(After(c, run), email, purpose, i, a, b)
    ensures a <= run[|run| - 1].now
  {
    var init, e := run[..|run| - 1], run[|run| - 1];
    var rows := After(c, init);
    if i in GuessedIn(c, init, email, purpose, a, b) {
      GuessedAreNew(c, init, email, purpose, a, b, i);
    } else {
      BeforeLast(c, run);
      Compared(c, rows, e, i);
      GuessedNow(c, rows, e, i);
    }
    StaysNewest(c, rows, e, email, purpose, i, a, b);
  }

  lemma StaysNewest(c: Config, rows: Rows, e: Event, email: string, purpose: string, i: nat, a: Time, b: Time)
    requires NewestBefore(rows, email, purpose, i, a, b) && a <= e.now
    ensures NewestBefore(Step(c, rows, e).0, email, purpose, i, a, b)
  {
    StepFrame(c, rows, e);
  }

  lemma GuessedNow(c: Config, rows: Rows, e: Event, i: nat)
    requires TableOk(c, rows, e.now) && i < |rows| && rows[i].verifiedAt.None? && e.now <= rows[i].expiresAt
    ensures rows[i].createdAt <= e.now
    ensures forall j :: i < j < |rows| && rows[j].For(rows[i].email, rows[i].purpose) ==> e.now <= rows[j].createdAt
  {
    assert RowOk(c, rows[i], e.now);
    forall j | i < j < |rows| && rows[j].For(rows[i].email, rows[i].purpose) ensures e.now <= rows[j].createdAt {
      assert Superseded(rows[i], rows[j]);
    }
  }

  /** So at most one row more is guessed at than are created in the interval. */
  lemma GuessedLimit(c: Config, run: seq<Event>, email: string, purpose: string, a: Time, b: Time)
    requires Legal(c, run)
    ensures |GuessedIn(c, run, email, purpose, a, b)| <= |CreatedIn(After(c, run), email, purpose, a, b)| + 1
  {
    var rows := After(c, run);
    var guessed, created := GuessedIn(c, run, email, purpose, a, b), CreatedIn(rows, email, purpose, a, b);
    forall i | i in guessed ensures NewestBefore(rows, email, purpose, i, a, b) {
      GuessedAreNew(c, run, email, purpose, a, b, i);
    }
    var older := guessed - created;
    if x :| x in older {
      forall y | y in older ensures y == x {
        assert NewestBefore(rows, email, purpose, x, a, b) && NewestBefore(rows, email, purpose, y, a, b);
      }
      SubsetSize(older, {x});
    }
    SubsetSize(guessed, created + older);
  }

  lemma TimesMonotone(x: nat, y: nat, m: nat)
    requires x <= y
    ensures x * m <= y * m
  {
  }

  /**
   * In any interval as long as the window, at most (perWindow + 1) * maxAttempts wrong
   * guesses for one purpose are compared.
   */
  lemma GuessLimit(c: Config, run: seq<Event>, email: string, purpose: string, a: Time)
    requires Legal(c, run)
    ensures WrongIn(c, run, email, purpose, a, a + c.window) <= (Bound(c.perWindow) + 1) * Bound(c.maxAttempts)
  {
    var b := a + c.window;
    var guessed := GuessedIn(c, run, email, purpose, a, b);
    WrongAreAttempts(c, run, email, purpose, a, b);
    GuessedLimit(c, run, email, purpose, a, b);
    CreationLimit(c, run, email, purpose, a);
    forall i | i in guessed ensures AttemptsOf(After(c, run))(i) <= Bound(c.maxAttempts) {
      AttemptsLimit(c, run, i);
    }
    SumLimit(guessed, AttemptsOf(After(c, run)), Bound(c.maxAttempts));
    TimesMonotone(|guessed|, Bound(c.perWindow) + 1, Bound(c.maxAttempts));
  }
}
