/**
 * What a guess at a one-time password is answered in every case, and the promise that a
 * code is accepted at the first right guess as long as it is good.
 */
module OtpAnswers {
  import opened Wrappers
  import opened Otp
  import opened OtpLimits

  // ---------------------------------------------------------------- one answer

  /** No other code for this purpose that is not used up was created later than row i. */
  predicate IsLatestUnused(rows: Rows, email: string, purpose: string, i: nat) {
    && i < |rows| && rows[i].email == email && rows[i].purpose == purpose && rows[i].verifiedAt == None
    && forall j ::
         0 <= j < |rows| && rows[j].email == email && rows[j].purpose == purpose && rows[j].verifiedAt == None ==>
         rows[j].createdAt <= rows[i].createdAt
  }

  predicate NoneUnused(rows: Rows, email: string, purpose: string) {
    forall j :: 0 <= j < |rows| && rows[j].email == email && rows[j].purpose == purpose ==> rows[j].verifiedAt != None
  }

  /** A look-up has exactly one result. */
  lemma PickIsLatest(c: Config, run: seq<Event>, email: string, purpose: string, pick: Option<nat>)
    requires Legal(c, run) && Found(After(c, run), email, purpose, pick)
    ensures pick == None <==> NoneUnused(After(c, run), email, purpose)
    ensures forall i: nat :: pick == Some(i) <==> IsLatestUnused(After(c, run), email, purpose, i)
  {
    var rows := After(c, run);
    forall i: nat | IsLatestUnused(rows, email, purpose, i) ensures pick == Some(i) {
      assert Newest(rows, email, purpose, i);
      NewestIsUnique(c, run, email, purpose, i, pick.value);
    }
    if pick.Some? {
      assert Newest(rows, email, purpose, pick.value);
    }
  }

  /** The answer to a guess at row i, with w wrong guesses before it. */
  function GuessAnswer(c: Config, r: Row, i: nat, w: nat, user: Option<string>, guess: string, now: Time): Answer {
    if user.Some? && r.user != user then Failed(NotFound)
    else if r.expiresAt < now then Failed(Expired)
    else if c.maxAttempts <= w then Failed(TooManyAttempts)
    else if c.compare(r.hash, guess) then Verified(i)
    else if c.maxAttempts <= w + 1 then Failed(TooManyAttempts)
    else Failed(Invalid)
  }

  /**
   * The answer to the last call of every legal run that checks a code: the latest unused
   * row for the purpose decides, with the number of wrong guesses compared with it so far.
   */
  lemma VerifyOutcome(c: Config, run: seq<Event>)
    requires Legal(c, run) && run != [] && run[|run| - 1].op.OpVerify?
    ensures var init, e := run[..|run| - 1], run[|run| - 1];
            var rows := After(c, init);
            var (op, r) := (e.op, Step(c, rows, e).1);
            && (!KnownPurpose(op.purpose) ==> r == Failed(InvalidPurpose))
            && (KnownPurpose(op.purpose) && NoneUnused(rows, op.email, op.purpose) ==> r == Failed(NotFound))
            && (forall i: nat :: KnownPurpose(op.purpose) && IsLatestUnused(rows, op.email, op.purpose, i) ==>
                 r == GuessAnswer(c, rows[i], i, WrongOn(c, init, i), op.user, op.guess, e.now))
            && (|| NoneUnused(rows, op.email, op.purpose)
                || exists i: nat :: IsLatestUnused(rows, op.email, op.purpose, i))
  {
    var init, e := run[..|run| - 1], run[|run| - 1];
    PickIsLatest(c, init, e.op.email, e.op.purpose, e.op.pick);
    if e.op.pick.Some? {
      assert IsLatestUnused(After(c, init), e.op.email, e.op.purpose, e.op.pick.value);
      WrongPerCode(c, init, e.op.pick.value);
    }
  }

  /** When exactly a guess is accepted, and with which code. */
  lemma AcceptedIff(c: Config, run: seq<Event>, i: nat)
    requires Legal(c, run) && run != [] && run[|run| - 1].op.OpVerify?
    ensures var init, e := run[..|run| - 1], run[|run| - 1];
            var (rows, op) := (After(c, init), e.op);
            Step(c, rows, e).1 == Verified(i) <==>
            && KnownPurpose(op.purpose) && IsLatestUnused(rows, op.email, op.purpose, i)
            && (op.user.Some? ==> rows[i].user == op.user) && e.now <= rows[i].expiresAt
            && WrongOn(c, init, i) < c.maxAttempts && c.compare(rows[i].hash, op.guess)
  {
    var init, e := run[..|run| - 1], run[|run| - 1];
    PickIsLatest(c, init, e.op.email, e.op.purpose, e.op.pick);
    WrongPerCode(c, init, i);
    AcceptedByPick(c, After(c, init), e, i);
  }

  /** When exactly a guess is counted as wrong, and against which code. */
  lemma WrongIff(c: Config, run: seq<Event>, i: nat)
    requires Legal(c, run) && run != [] && run[|run| - 1].op.OpVerify?
    ensures var init, e := run[..|run| - 1], run[|run| - 1];
            var (rows, op) := (After(c, init), e.op);
            WrongOn(c, run, i) == WrongOn(c, init, i) + 1 <==>
            && KnownPurpose(op.purpose) && IsLatestUnused(rows, op.email, op.purpose, i)
            && (op.user.Some? ==> rows[i].user == op.user) && e.now <= rows[i].expiresAt
            && WrongOn(c, init, i) < c.maxAttempts && !c.compare(rows[i].hash, op.guess)
  {
    var init, e := run[..|run| - 1], run[|run| - 1];
    PickIsLatest(c, init, e.op.email, e.op.purpose, e.op.pick);
    WrongPerCode(c, init, i);
    WrongByPick(c, After(c, init), e, i);
  }

  lemma WrongByPick(c: Config, rows: Rows, e: Event, i: nat)
    requires e.op.OpVerify?
    ensures Wrong(c, rows, e) == Some(i) <==>
            && KnownPurpose(e.op.purpose) && e.op.pick == Some(i) && i < |rows|
            && (e.op.user.Some? ==> rows[i].user == e.op.user) && e.now <= rows[i].expiresAt
            && rows[i].attempts < c.maxAttempts && !c.compare(rows[i].hash, e.op.guess)
  {
  }

  lemma AcceptedByPick(c: Config, rows: Rows, e: Event, i: nat)
    requires e.op.OpVerify?
    ensures Step(c, rows, e).1 == Verified(i) <==>
            && KnownPurpose(e.op.purpose) && e.op.pick == Some(i) && i < |rows|
            && (e.op.user.Some? ==> rows[i].user == e.op.user) && e.now <= rows[i].expiresAt
            && rows[i].attempts < c.maxAttempts && c.compare(rows[i].hash, e.op.guess)
  {
  }

  /** A check touches at most the row it compares with, and there only the counter or the use. */
  lemma VerifyEffect(c: Config, rows: Rows, e: Event)
    requires e.op.OpVerify?
    ensures var (rows', r) := Step(c, rows, e);
            && |rows'| == |rows|
            && (forall i: nat :: i < |rows| && Wrong(c, rows, e) != Some(i) && r != Verified(i) ==> rows'[i] == rows[i])
            && (forall i: nat :: i < |rows| ==>
                 && rows'[i].user == rows[i].user
                 && rows'[i].email == rows[i].email && rows'[i].purpose == rows[i].purpose
                 && rows'[i].hash == rows[i].hash && rows'[i].expiresAt == rows[i].expiresAt
                 && rows'[i].createdAt == rows[i].createdAt
                 && rows'[i].verifiedAt == (if r == Verified(i) then Some(e.now) else rows[i].verifiedAt))
  {
  }

  /** A request for a code touches only codes for its own purpose, unless it fails. */
  lemma CreateEffect(c: Config, rows: Rows, e: Event)
    requires e.op.OpCreate? && c.expiry > 0
    ensures var (rows', r) := Step(c, rows, e);
            && (r.Created? ==>
                 && r.id == |rows| && |rows'| == |rows| + 1
                 && rows'[|rows|] ==
                    Row(e.op.user, e.op.email, e.op.purpose, e.op.hash, e.now + c.expiry, None, 0, e.now)
                 && forall i :: 0 <= i < |rows| ==>
                      rows'[i] == rows[i]
                      || (&& rows[i].email == e.op.email && rows[i].purpose == e.op.purpose
                          && rows[i].verifiedAt == None && e.now < rows[i].expiresAt
                          && rows'[i] == rows[i].(expiresAt := e.now)))
            && (!r.Created? ==> rows' == rows)
  {
  }

  // ---------------------------------------------------------------- the life of one code

  /** The call at index k created code id. */
  predicate CreatedAs(c: Config, run: seq<Event>, k: nat, id: nat) {
    k < |run| && run[k].op.OpCreate? && AnswerAt(c, run, k) == Created(id)
  }

  /** No code for the purpose of the one created at k is created after it. */
  predicate NotSuperseded(c: Config, run: seq<Event>, k: nat)
    requires k < |run| && run[k].op.OpCreate?
  {
    forall m: nat :: k < m < |run| && run[m].op.OpCreate? && AnswerAt(c, run, m).Created? ==>
      run[m].op.email != run[k].op.email || run[m].op.purpose != run[k].op.purpose
  }

  predicate EverAccepted(c: Config, run: seq<Event>, id: nat) {
    exists m: nat :: m < |run| && AnswerAt(c, run, m) == Verified(id)
  }

  /** The row of the code created by e, as long as it is not superseded. */
  predicate RowOf(c: Config, rows: Rows, e: Event, id: nat, used: bool)
    requires e.op.OpCreate?
  {
    && id < |rows|
    && rows[id].user == e.op.user && rows[id].email == e.op.email && rows[id].purpose == e.op.purpose
    && rows[id].hash == e.op.hash && rows[id].createdAt == e.now && rows[id].expiresAt == e.now + c.expiry
    && (rows[id].verifiedAt != None <==> used)
    && forall j :: id < j < |rows| ==> rows[j].email != e.op.email || rows[j].purpose != e.op.purpose
  }

  lemma SameAnswers(c: Config, run: seq<Event>, n: nat, m: nat)
    requires m < n <= |run|
    ensures AnswerAt(c, run[..n], m) == AnswerAt(c, run, m)
  {
    assert run[..n][..m] == run[..m];
  }

  lemma RowStep(c: Config, rows: Rows, next: Event, e: Event, id: nat, used: bool)
    requires e.op.OpCreate? && c.expiry > 0 && RowOf(c, rows, e, id, used)
    requires next.op.OpCreate? && Step(c, rows, next).1.Created? ==>
               next.op.email != e.op.email || next.op.purpose != e.op.purpose
    ensures var (rows', r) := Step(c, rows, next); RowOf(c, rows', e, id, used || r == Verified(id))
  {
    if next.op.OpCreate? {
      CreateEffect(c, rows, next);
    } else {
      VerifyEffect(c, rows, next);
    }
  }

  lemma AcceptedOneMore(c: Config, run: seq<Event>, id: nat)
    requires run != []
    ensures EverAccepted(c, run, id) <==>
            EverAccepted(c, run[..|run| - 1], id) || AnswerAt(c, run, |run| - 1) == Verified(id)
  {
    var n := |run| - 1;
    forall m: nat | m < n ensures AnswerAt(c, run[..n], m) == AnswerAt(c, run, m) {
      SameAnswers(c, run, n, m);
    }
    if EverAccepted(c, run[..n], id) {
      var m: nat :| m < n && AnswerAt(c, run[..n], m) == Verified(id);
      assert AnswerAt(c, run, m) == Verified(id);
    }
  }

  lemma NotYetCreated(c: Config, run: seq<Event>, k: nat, id: nat)
    requires Legal(c, run) && k == |run| - 1 && CreatedAs(c, run, k, id)
    ensures id == |After(c, run[..k])| && !EverAccepted(c, run[..k], id)
  {
    LegalPrefix(c, run, k);
    CreateIsLast(c, After(c, run[..k]), run[k]);
    if EverAccepted(c, run[..k], id) {
      var m: nat :| m < k && AnswerAt(c, run[..k], m) == Verified(id);
      StaysVerified(c, run[..k], m, id);
    }
  }

  lemma CreateIsLast(c: Config, rows: Rows, e: Event)
    ensures e.op.OpCreate? && Step(c, rows, e).1.Created? ==> Step(c, rows, e).1 == Created(|rows|) && c.expiry > 0
  {
  }

  lemma {:induction false} RowHistory(c: Config, run: seq<Event>, k: nat, id: nat)
    requires Legal(c, run) && CreatedAs(c, run, k, id) && NotSuperseded(c, run, k)
    ensures c.expiry > 0 && RowOf(c, After(c, run), run[k], id, EverAccepted(c, run, id))
    decreases |run|
  {
    var n := |run| - 1;
    var init, rows := run[..n], After(c, run[..n]);
    AcceptedOneMore(c, run, id);
    CreateIsLast(c, After(c, run[..k]), run[k]);
    if k == n {
      NotYetCreated(c, run, k, id);
      CreateEffect(c, rows, run[k]);
    } else {
      SameAnswers(c, run, n, k);
      forall m: nat | k < m < n ensures AnswerAt(c, init, m) == AnswerAt(c, run, m) {
        SameAnswers(c, run, n, m);
      }
      RowHistory(c, init, k, id);
      RowStep(c, rows, run[n], run[k], id, EverAccepted(c, init, id));
    }
  }

  /**
   * End to end: a code that has not been superseded or used is accepted by the next right
   * guess for its purpose exactly when that comes in time, from the right user, and after
   * fewer than maxAttempts wrong ones.
   */
  lemma RightGuessAccepted(c: Config, run: seq<Event>, k: nat, id: nat, e: Event)
    requires Legal(c, run + [e]) && CreatedAs(c, run, k, id) && NotSuperseded(c, run, k) && !EverAccepted(c, run, id)
    requires e.op.OpVerify? && e.op.email == run[k].op.email && e.op.purpose == run[k].op.purpose
    ensures Step(c, After(c, run), e).1 == Verified(id) <==>
            && c.compare(run[k].op.hash, e.op.guess)
            && (e.op.user.Some? ==> e.op.user == run[k].op.user)
            && e.now <= run[k].now + c.expiry && WrongOn(c, run, id) < c.maxAttempts
  {
    var whole := run + [e];
    assert whole[..|whole| - 1] == run;
    LegalPrefix(c, run, k);
    RowHistory(c, run, k, id);
    CreatedPurpose(c, After(c, run[..k]), run[k]);
    LatestWhenNotSuperseded(c, run, k, id);
    AcceptedIff(c, whole, id);
  }

  lemma CreatedPurpose(c: Config, rows: Rows, e: Event)
    ensures e.op.OpCreate? && Step(c, rows, e).1.Created? ==> KnownPurpose(e.op.purpose)
  {
  }

  lemma LatestWhenNotSuperseded(c: Config, run: seq<Event>, k: nat, id: nat)
    requires Legal(c, run) && CreatedAs(c, run, k, id) && RowOf(c, After(c, run), run[k], id, false)
    ensures IsLatestUnused(After(c, run), run[k].op.email, run[k].op.purpose, id)
  {
    var rows := After(c, run);
    RunKeeps(c, run);
    forall j | 0 <= j < id ensures rows[j].createdAt <= rows[id].createdAt {
      assert Superseded(rows[j], rows[id]);
    }
  }
}
