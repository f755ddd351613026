/**
 * One-time passwords: what creating and checking a code does to the table of
 * verifications, and what limits hold over every run of calls on one clock that does not
 * go back. Each call happens at one instant, for the service and the database alike.
 */
module Otp {
  import opened Wrappers

  type Time = int

  datatype Row = Row(
    user: Option<string>, email: string, purpose: string, hash: string,
    expiresAt: Time, verifiedAt: Option<Time>, attempts: int, createdAt: Time)
  {
    predicate For(email: string, purpose: string) { this.email == email && this.purpose == purpose }
  }

  /** The table in order of creation; a row is identified by its index. */
  type Rows = seq<Row>

  datatype Config = Config(
    compare: (string, string) -> bool, maxAttempts: int, perWindow: int, window: Time, expiry: Time)

  datatype Error = InvalidPurpose | RateLimited | NotFound | Expired | TooManyAttempts | Invalid | Database

  datatype Answer = Created(id: nat) | Verified(id: nat) | Failed(error: Error)

  // ---------------------------------------------------------------- operations

  predicate KnownPurpose(purpose: string) { purpose == "signup" || purpose == "password_reset" }

  /** SELECT COUNT(*) counts these rows. */
  function Recent(rows: Rows, email: string, purpose: string, since: Time): set<nat> {
    set i: nat | i < |rows| && rows[i].For(email, purpose) && rows[i].createdAt >= since
  }

  predicate Outstanding(r: Row, email: string, purpose: string, now: Time) {
    r.For(email, purpose) && r.verifiedAt.None? && r.expiresAt > now
  }

  /** The new expiry of some row would not lie after its creation, which a CHECK demands. */
  predicate ExpiryBlocked(rows: Rows, email: string, purpose: string, now: Time) {
    exists i :: 0 <= i < |rows| && Outstanding(rows[i], email, purpose, now) && now <= rows[i].createdAt
  }

  function ExpireOld(rows: Rows, email: string, purpose: string, now: Time): Rows {
    seq(|rows|, i requires 0 <= i < |rows| =>
      if Outstanding(rows[i], email, purpose, now) then rows[i].(expiresAt := now) else rows[i])
  }

  function NewRow(c: Config, email: string, purpose: string, user: Option<string>, hash: string, now: Time): Row {
    Row(user, email, purpose, hash, now + c.expiry, None, 0, now)
  }

  function Create(c: Config, rows: Rows, email: string, purpose: string, user: Option<string>, hash: string,
                  now: Time): (Rows, Answer) {
    if !KnownPurpose(purpose) then (rows, Failed(InvalidPurpose))
    else if |Recent(rows, email, purpose, now - c.window)| >= c.perWindow then (rows, Failed(RateLimited))
    else if ExpiryBlocked(rows, email, purpose, now) then (rows, Failed(Database))
    else if c.expiry <= 0 then (ExpireOld(rows, email, purpose, now), Failed(Database))
    else (ExpireOld(rows, email, purpose, now) + [NewRow(c, email, purpose, user, hash, now)], Created(|rows|))
  }

  /** What ORDER BY created_at DESC LIMIT 1 may return among the unverified rows. */
  predicate Newest(rows: Rows, email: string, purpose: string, i: nat) {
    && i < |rows| && rows[i].For(email, purpose) && rows[i].verifiedAt.None?
    && forall j :: 0 <= j < |rows| && rows[j].For(email, purpose) && rows[j].verifiedAt.None? ==>
         rows[j].createdAt <= rows[i].createdAt
  }

  predicate Found(rows: Rows, email: string, purpose: string, pick: Option<nat>) {
    match pick
    case Some(i) => Newest(rows, email, purpose, i)
    case None => forall j :: 0 <= j < |rows| && rows[j].For(email, purpose) ==> rows[j].verifiedAt.Some?
  }

  function Check(c: Config, rows: Rows, i: nat, guess: string, now: Time): (Rows, Answer)
    requires i < |rows|
  {
    var v := rows[i];
    if now > v.expiresAt then (rows, Failed(Expired))
    else if v.attempts >= c.maxAttempts then (rows, Failed(TooManyAttempts))
    else if !c.compare(v.hash, guess) then
      (rows[i := v.(attempts := v.attempts + 1)],
       Failed(if v.attempts + 1 >= c.maxAttempts then TooManyAttempts else Invalid))
    else (rows[i := v.(verifiedAt := Some(now))], Verified(i))
  }

  /** The user of the call, if it names one, must be the user of the row. */
  predicate UserAgrees(r: Row, user: Option<string>) { user.Some? ==> r.user == user }

  /** VerifyOTP, and VerifyOTPForUser when a user is given; `pick` is the row found. */
  function Verify(c: Config, rows: Rows, email: string, purpose: string, user: Option<string>,
                  pick: Option<nat>, guess: string, now: Time): (Rows, Answer) {
    if !KnownPurpose(purpose) then (rows, Failed(InvalidPurpose))
    else if pick.None? || pick.value >= |rows| then (rows, Failed(NotFound))
    else if !UserAgrees(rows[pick.value], user) then (rows, Failed(NotFound))
    else Check(c, rows, pick.value, guess, now)
  }

  // ---------------------------------------------------------------- runs

  datatype Op =
    | OpCreate(email: string, purpose: string, user: Option<string>, hash: string)
    | OpVerify(email: string, purpose: string, user: Option<string>, pick: Option<nat>, guess: string)

  datatype Event = Event(op: Op, now: Time)

  function Step(c: Config, rows: Rows, e: Event): (Rows, Answer) {
    match e.op
    case OpCreate(email, purpose, user, hash) => Create(c, rows, email, purpose, user, hash, e.now)
    case OpVerify(email, purpose, user, pick, guess) => Verify(c, rows, email, purpose, user, pick, guess, e.now)
  }

  function After(c: Config, run: seq<Event>): Rows {
    if run == [] then [] else Step(c, After(c, run[..|run| - 1]), run[|run| - 1]).0
  }

  /** The clock does not go back and every look-up finds a row that its query may return. */
  predicate Legal(c: Config, run: seq<Event>) {
    if run == [] then true
    else
      var init, e := run[..|run| - 1], run[|run| - 1];
      && Legal(c, init)
      && (init != [] ==> init[|init| - 1].now <= e.now)
      && (e.op.OpVerify? ==> Found(After(c, init), e.op.email, e.op.purpose, e.op.pick))
  }

  // ---------------------------------------------------------------- what every step keeps

  function Bound(n: int): nat { if n < 0 then 0 else n }

  /** Nothing was created after `now`, and codes expire after their creation. */
  predicate RowOk(c: Config, r: Row, now: Time) {
    r.createdAt < r.expiresAt && r.createdAt <= now && 0 <= r.attempts <= Bound(c.maxAttempts)
  }

  /** When y was created after x for the same purpose, x was used up or expired then. */
  predicate Superseded(x: Row, y: Row) {
    && x.createdAt <= y.createdAt
    && (y.For(x.email, x.purpose) && x.verifiedAt.None? ==> x.expiresAt <= y.createdAt)
  }

  predicate TableOk(c: Config, rows: Rows, now: Time) {
    && (forall i :: 0 <= i < |rows| ==> RowOk(c, rows[i], now))
    && (forall i, j :: 0 <= i < j < |rows| ==> Superseded(rows[i], rows[j]))
  }

  /** The verification whose wrong guess a call counts. */
  function Wrong(c: Config, rows: Rows, e: Event): Option<nat> {
    match e.op
    case OpCreate(_, _, _, _) => None
    case OpVerify(email, purpose, user, pick, guess) =>
      if KnownPurpose(purpose) && pick.Some? && pick.value < |rows| && UserAgrees(rows[pick.value], user)
         && e.now <= rows[pick.value].expiresAt && rows[pick.value].attempts < c.maxAttempts
         && !c.compare(rows[pick.value].hash, guess)
      then pick else None
  }

  /** No row disappears or changes who it is for; wrong guesses are what is counted. */
  lemma StepFrame(c: Config, rows: Rows, e: Event)
    ensures var (rows', answer) := Step(c, rows, e);
            && |rows'| == |rows| + (if answer.Created? then 1 else 0)
            && (forall i :: 0 <= i < |rows| ==>
                 && rows'[i].For(rows[i].email, rows[i].purpose) && rows'[i].createdAt == rows[i].createdAt
                 && rows'[i].attempts == rows[i].attempts + (if Wrong(c, rows, e) == Some(i) then 1 else 0)
                 && (rows[i].verifiedAt.Some? && answer != Verified(i) ==> rows'[i].verifiedAt == rows[i].verifiedAt))
            && (answer.Created? ==> rows'[|rows|].createdAt == e.now && rows'[|rows|].attempts == 0
                                    && e.op.OpCreate? && rows'[|rows|].For(e.op.email, e.op.purpose))
  {
  }

  /** A check that gets as far as comparing found an unverified row for its purpose in time. */
  lemma Compared(c: Config, rows: Rows, e: Event, i: nat)
    requires e.op.OpVerify? ==> Found(rows, e.op.email, e.op.purpose, e.op.pick)
    requires Wrong(c, rows, e) == Some(i) || Step(c, rows, e).1 == Verified(i)
    ensures e.op.OpVerify? && i < |rows| && rows[i].For(e.op.email, e.op.purpose)
    ensures rows[i].verifiedAt.None? && e.now <= rows[i].expiresAt && rows[i].attempts < c.maxAttempts
    ensures Step(c, rows, e).1 == Verified(i) ==> Step(c, rows, e).0 == rows[i := rows[i].(verifiedAt := Some(e.now))]
  {
  }

  lemma CreateKeeps(c: Config, rows: Rows, e: Event)
    requires TableOk(c, rows, e.now) && e.op.OpCreate?
    ensures TableOk(c, Step(c, rows, e).0, e.now)
  {
    var rows' := Step(c, rows, e).0;
    forall i, j | 0 <= i < j < |rows'| ensures Superseded(rows'[i], rows'[j]) {
      if j < |rows| {
        assert Superseded(rows[i], rows[j]) && RowOk(c, rows[j], e.now);
      } else {
        assert RowOk(c, rows[i], e.now);
      }
    }
    forall i | 0 <= i < |rows'| ensures RowOk(c, rows'[i], e.now) {
      if i < |rows| {
        assert RowOk(c, rows[i], e.now);
      }
    }
  }

  lemma VerifyKeeps(c: Config, rows: Rows, e: Event)
    requires TableOk(c, rows, e.now) && e.op.OpVerify?
    ensures TableOk(c, Step(c, rows, e).0, e.now)
  {
    var rows' := Step(c, rows, e).0;
    forall i, j | 0 <= i < j < |rows'| ensures Superseded(rows'[i], rows'[j]) {
      assert Superseded(rows[i], rows[j]);
    }
    forall i | 0 <= i < |rows'| ensures RowOk(c, rows'[i], e.now) {
      assert RowOk(c, rows[i], e.now);
    }
  }

  lemma LaterOk(c: Config, rows: Rows, now: Time, later: Time)
    requires TableOk(c, rows, now) && now <= later
    ensures TableOk(c, rows, later)
  {
    forall i | 0 <= i < |rows| ensures RowOk(c, rows[i], later) {
      assert RowOk(c, rows[i], now);
    }
  }

  /** The table as the last call of a run finds it, at the time of that call. */
  lemma {:induction false} BeforeLast(c: Config, run: seq<Event>)
    requires Legal(c, run) && run != []
    ensures TableOk(c, After(c, run[..|run| - 1]), run[|run| - 1].now)
    decreases |run|, 0
  {
    var init := run[..|run| - 1];
    if init != [] {
      RunKeeps(c, init);
      LaterOk(c, After(c, init), init[|init| - 1].now, run[|run| - 1].now);
    }
  }

  lemma {:induction false} RunKeeps(c: Config, run: seq<Event>)
    requires Legal(c, run) && run != []
    ensures TableOk(c, After(c, run), run[|run| - 1].now)
    decreases |run|, 1
  {
    BeforeLast(c, run);
    var rows, e := After(c, run[..|run| - 1]), run[|run| - 1];
    if e.op.OpCreate? {
      CreateKeeps(c, rows, e);
    } else {
      VerifyKeeps(c, rows, e);
    }
  }

  /** Creation times of unverified codes differ, so a look-up never has a choice. */
  lemma NewestIsUnique(c: Config, run: seq<Event>, email: string, purpose: string, i: nat, j: nat)
    requires Legal(c, run) && Newest(After(c, run), email, purpose, i) && Newest(After(c, run), email, purpose, j)
    ensures i == j
  {
    if run != [] {
      RunKeeps(c, run);
      var rows, now := After(c, run), run[|run| - 1].now;
      assert RowOk(c, rows[i], now) && RowOk(c, rows[j], now);
      assert i < j ==> Superseded(rows[i], rows[j]);
      assert j < i ==> Superseded(rows[j], rows[i]);
    }
  }
}
