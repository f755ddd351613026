/**
 * Sessions and their refresh tokens: what each operation does to the table, and what
 * rotation gives over every run whose clock does not go back and whose new tokens have
 * hashes never seen before.
 */
module Sessions {
  import opened Wrappers
  import opened Text

  type Id = nat
  type Time = int

  datatype Session = Session(
    user: Id, hash: string, createdAt: Time, expiresAt: Time,
    revokedAt: Option<Time>, lastUsedAt: Option<Time>)
  {
    predicate Active(now: Time) { revokedAt.None? && expiresAt > now }
  }

  type Table = map<Id, Session>

  /** How ids are read, how tokens are hashed, and how long a session lasts. */
  datatype Config = Config(parse: string -> Option<Id>, hash: string -> string, ttl: int)

  datatype Error = InvalidSession | InvalidRefreshToken | Database

  datatype Answer = Granted(session: Id) | Done | Denied(error: Error)

  // ---------------------------------------------------------------- operations

  /** The UNIQUE constraint on the token hash. */
  predicate UniqueHashes(s: Table) {
    forall x, y :: x in s && y in s && s[x].hash == s[y].hash ==> x == y
  }

  predicate HashTaken(s: Table, hash: string, ignoring: set<Id>) {
    exists x :: x in s && x !in ignoring && s[x].hash == hash
  }

  function NewSession(user: Id, hash: string, now: Time, ttl: int): Session {
    Session(user, hash, now, now + ttl, None, None)
  }

  function Create(c: Config, s: Table, user: string, token: string, id: Id, now: Time): (Table, Answer) {
    if TrimSpace(user) == "" then (s, Denied(InvalidSession))
    else match c.parse(user)
      case None => (s, Denied(InvalidSession))
      case Some(u) =>
        if id in s || HashTaken(s, c.hash(token), {}) || c.ttl <= 0 then (s, Denied(Database))
        else (s[id := NewSession(u, c.hash(token), now, c.ttl)], Granted(id))
  }

  /** The WHERE clause of the rotation. */
  predicate Accepts(s: Table, id: Id, hash: string, now: Time) {
    id in s && s[id].hash == hash && s[id].Active(now)
  }

  ghost function Refresh(c: Config, s: Table, presented: string, token: string, now: Time): (Table, Answer) {
    if TrimSpace(presented) == "" then (s, Denied(InvalidRefreshToken))
    else if id :| Accepts(s, id, c.hash(TrimSpace(presented)), now) then
      if HashTaken(s, c.hash(token), {id}) then (s, Denied(Database))
      else (s[id := s[id].(hash := c.hash(token), lastUsedAt := Some(now))], Granted(id))
    else (s, Denied(InvalidRefreshToken))
  }

  function Revoked(x: Session, now: Time): Session {
    if x.revokedAt.None? then x.(revokedAt := Some(now)) else x
  }

  function Revoke(c: Config, s: Table, id: string, now: Time): (Table, Answer) {
    if TrimSpace(id) == "" || c.parse(id) == None then (s, Denied(InvalidSession))
    else
      var x := c.parse(id).value;
      (if x in s then s[x := Revoked(s[x], now)] else s, Done)
  }

  function RevokeAllForUser(c: Config, s: Table, user: string, now: Time): (Table, Answer) {
    if TrimSpace(user) == "" || c.parse(user) == None then (s, Denied(InvalidSession))
    else (map x | x in s :: if s[x].user == c.parse(user).value then Revoked(s[x], now) else s[x], Done)
  }

  function ValidateAccessSession(c: Config, s: Table, id: string, now: Time): Answer {
    if TrimSpace(id) == "" || c.parse(id) == None then Denied(InvalidSession)
    else
      var x := c.parse(id).value;
      if x in s && s[x].Active(now) then Done else Denied(InvalidSession)
  }

  // ---------------------------------------------------------------- runs

  datatype Op =
    | OpCreate(user: string, token: string, id: Id)
    | OpRefresh(presented: string, token: string)
    | OpRevoke(session: string)
    | OpRevokeAll(user: string)
    | OpValidate(session: string)
  {
    /** A new token is generated. */
    predicate Issues() { OpCreate? || OpRefresh? }
  }

  datatype Event = Event(op: Op, now: Time)

  ghost function Step(c: Config, s: Table, e: Event): (Table, Answer) {
    match e.op
    case OpCreate(user, token, id) => Create(c, s, user, token, id, e.now)
    case OpRefresh(presented, token) => Refresh(c, s, presented, token, e.now)
    case OpRevoke(id) => Revoke(c, s, id, e.now)
    case OpRevokeAll(user) => RevokeAllForUser(c, s, user, e.now)
    case OpValidate(id) => (s, ValidateAccessSession(c, s, id, e.now))
  }

  ghost function After(c: Config, run: seq<Event>): Table {
    if run == [] then map[] else Step(c, After(c, run[..|run| - 1]), run[|run| - 1]).0
  }

  /** The answer to the event at index i. */
  ghost function AnswerAt(c: Config, run: seq<Event>, i: nat): Answer
    requires i < |run|
  {
    Step(c, After(c, run[..i]), run[i]).1
  }

  predicate Monotone(run: seq<Event>) {
    forall i, j :: 0 <= i < j < |run| ==> run[i].now <= run[j].now
  }

  /** Generated tokens have pairwise different hashes. */
  predicate FreshTokens(c: Config, run: seq<Event>) {
    forall i, j :: 0 <= i < j < |run| && run[i].op.Issues() && run[j].op.Issues() ==>
      c.hash(run[i].op.token) != c.hash(run[j].op.token)
  }

  /** The event at index i handed out a token for this session. */
  ghost predicate IssuedAt(c: Config, run: seq<Event>, i: nat, id: Id) {
    i < |run| && run[i].op.Issues() && AnswerAt(c, run, i) == Granted(id)
  }

  /** Where the last token of a session was handed out. */
  ghost function LastIssue(c: Config, run: seq<Event>, id: Id): Option<nat> {
    if run == [] then None
    else if IssuedAt(c, run, |run| - 1, id) then Some(|run| - 1)
    else LastIssue(c, run[..|run| - 1], id)
  }

  lemma IssuedInPrefix(c: Config, run: seq<Event>, n: nat, i: nat, id: Id)
    requires i < n <= |run|
    ensures IssuedAt(c, run[..n], i, id) == IssuedAt(c, run, i, id)
  {
    assert run[..n][..i] == run[..i];
  }

  lemma {:induction false} LastIssueIsIssue(c: Config, run: seq<Event>, id: Id)
    ensures LastIssue(c, run, id).Some? ==> IssuedAt(c, run, LastIssue(c, run, id).value, id)
  {
    if run == [] {
    } else if !IssuedAt(c, run, |run| - 1, id) {
      var n := |run| - 1;
      LastIssueIsIssue(c, run[..n], id);
      var last := LastIssue(c, run[..n], id);
      if last.Some? {
        assert IssuedAt(c, run[..n], last.value, id) && last.value < n;
        IssuedInPrefix(c, run, n, last.value, id);
      }
    }
  }

  lemma {:induction false} LastIssueIsLast(c: Config, run: seq<Event>, id: Id, i: nat)
    ensures var last := LastIssue(c, run, id);
            && (last.Some? ==> IssuedAt(c, run, last.value, id))
            && (IssuedAt(c, run, i, id) ==> last.Some? && i <= last.value)
  {
    LastIssueIsIssue(c, run, id);
    if run == [] {
    } else if i < |run| - 1 {
      LastIssueIsLast(c, run[..|run| - 1], id, i);
      IssuedInPrefix(c, run, |run| - 1, i, id);
    }
  }

  ghost predicate RowOk(c: Config, run: seq<Event>, s: Table, id: Id) {
    match LastIssue(c, run, id)
    case None => id !in s
    case Some(k) => k < |run| && run[k].op.Issues() && id in s && s[id].hash == c.hash(run[k].op.token)
  }

  /** Handing out a token is the only way into the table and the only change of a hash. */
  lemma StepRow(c: Config, s: Table, e: Event, id: Id)
    ensures var (s', answer) := Step(c, s, e);
            if e.op.Issues() && answer == Granted(id) then id in s' && s'[id].hash == c.hash(e.op.token)
            else (id in s' <==> id in s) && (id in s ==> s'[id].hash == s[id].hash)
  {
  }

  /** A session's row holds the hash of the last token handed out for it. */
  lemma {:induction false} RowsOk(c: Config, run: seq<Event>, id: Id)
    ensures RowOk(c, run, After(c, run), id)
  {
    if run == [] {
    } else {
      var init := run[..|run| - 1];
      RowsOk(c, init, id);
      StepRow(c, After(c, init), run[|run| - 1], id);
    }
  }

  /** Only the session that a token was handed out for can hold its hash. */
  lemma HashOwner(c: Config, run: seq<Event>, i: nat, id: Id, x: Id)
    requires FreshTokens(c, run) && IssuedAt(c, run, i, id)
    requires x in After(c, run) && After(c, run)[x].hash == c.hash(run[i].op.token)
    ensures x == id && LastIssue(c, run, id) == Some(i)
  {
    RowsOk(c, run, x);
    LastIssueIsLast(c, run, x, 0);
    var k := LastIssue(c, run, x).value;
    assert k == i;
  }

  lemma HashesUnique(c: Config, run: seq<Event>)
    requires FreshTokens(c, run)
    ensures UniqueHashes(After(c, run))
  {
    var s := After(c, run);
    forall x, y | x in s && y in s && s[x].hash == s[y].hash ensures x == y {
      RowsOk(c, run, x);
      LastIssueIsLast(c, run, x, 0);
      HashOwner(c, run, LastIssue(c, run, x).value, x, y);
    }
  }

  lemma FreshPrefix(c: Config, run: seq<Event>, n: nat)
    requires n <= |run| && FreshTokens(c, run)
    ensures FreshTokens(c, run[..n])
  {
  }

  /** What a granted refresh says about the table it found. */
  lemma GrantedRefresh(c: Config, s: Table, presented: string, token: string, now: Time, id: Id)
    requires Refresh(c, s, presented, token, now).1 == Granted(id)
    ensures Accepts(s, id, c.hash(TrimSpace(presented)), now)
  {
  }

  /** Each token is accepted at most once in a run. */
  lemma AcceptedOnce(c: Config, run: seq<Event>, i: nat, j: nat)
    requires FreshTokens(c, run) && i < j < |run| && run[i].op.OpRefresh? && run[j].op.OpRefresh?
    requires c.hash(TrimSpace(run[i].op.presented)) == c.hash(TrimSpace(run[j].op.presented))
    requires AnswerAt(c, run, i).Granted?
    ensures AnswerAt(c, run, j).Denied?
  {
    var id := AnswerAt(c, run, i).session;
    var before, later := run[..i], run[..j];
    GrantedRefresh(c, After(c, before), run[i].op.presented, run[i].op.token, run[i].now, id);
    RowsOk(c, before, id);
    LastIssueIsLast(c, before, id, 0);
    var k := LastIssue(c, before, id).value;
    IssuedInPrefix(c, run, i, k, id);
    IssuedInPrefix(c, run, j, k, id);
    IssuedInPrefix(c, run, j, i, id);
    LastIssueIsLast(c, later, id, i);
    FreshPrefix(c, run, j);
    if AnswerAt(c, run, j).Granted? {
      var x := AnswerAt(c, run, j).session;
      GrantedRefresh(c, After(c, later), run[j].op.presented, run[j].op.token, run[j].now, x);
      HashOwner(c, later, k, id, x);
    }
  }

  /**
   * A session that is neither revoked nor expired is refreshed by exactly the token that
   * was last handed out for it.
   */
  lemma AcceptsLastToken(c: Config, run: seq<Event>, id: Id, e: Event)
    requires FreshTokens(c, run + [e]) && e.op.OpRefresh?
    requires id in After(c, run) && After(c, run)[id].Active(e.now)
    ensures LastIssue(c, run, id).Some?
    ensures var k := LastIssue(c, run, id).value;
            && k < |run| && run[k].op.Issues()
            && (Step(c, After(c, run), e).1 == Granted(id) <==>
                TrimSpace(e.op.presented) != "" && c.hash(TrimSpace(e.op.presented)) == c.hash(run[k].op.token))
  {
    assert (run + [e])[..|run|] == run;
    FreshPrefix(c, run + [e], |run|);
    RowsOk(c, run, id);
    HashesUnique(c, run);
    NextHashFree(c, run, e);
    OnlyRowAccepts(c, After(c, run), e.op.presented, e.op.token, e.now, id);
  }

  lemma NextHashFree(c: Config, run: seq<Event>, e: Event)
    requires FreshTokens(c, run + [e]) && e.op.Issues()
    ensures !HashTaken(After(c, run), c.hash(e.op.token), {})
  {
    var s := After(c, run);
    forall x | x in s ensures s[x].hash != c.hash(e.op.token) {
      RowsOk(c, run, x);
      var k := LastIssue(c, run, x).value;
      assert (run + [e])[k] == run[k] && (run + [e])[|run|] == e;
    }
  }

  lemma OnlyRowAccepts(c: Config, s: Table, presented: string, token: string, now: Time, id: Id)
    requires UniqueHashes(s) && !HashTaken(s, c.hash(token), {}) && id in s && s[id].Active(now)
    ensures Refresh(c, s, presented, token, now).1 == Granted(id) <==>
            TrimSpace(presented) != "" && s[id].hash == c.hash(TrimSpace(presented))
  {
    var h := c.hash(TrimSpace(presented));
    if s[id].hash == h {
      assert Accepts(s, id, h, now) && forall x :: Accepts(s, x, h, now) ==> x == id;
    }
  }

  // ---------------------------------------------------------------- dead sessions

  predicate Dead(s: Table, id: Id, now: Time) { id in s && !s[id].Active(now) }

  /** Revoking a session, alone or with all others of its user, leaves it dead at once. */
  lemma RevokedIsDead(c: Config, s: Table, e: Event, id: Id)
    requires id in s && Step(c, s, e).1 == Done
    requires || (e.op.OpRevoke? && c.parse(e.op.session) == Some(id))
             || (e.op.OpRevokeAll? && c.parse(e.op.user) == Some(s[id].user))
    ensures Dead(Step(c, s, e).0, id, e.now)
  {
  }

  lemma DeadStep(c: Config, s: Table, e: Event, id: Id, now: Time)
    requires Dead(s, id, now) && now <= e.now
    ensures Dead(Step(c, s, e).0, id, e.now)
  {
  }

  lemma {:induction false} DeadStaysDead(c: Config, run: seq<Event>, n: nat, id: Id, now: Time)
    requires Monotone(run) && n <= |run| && Dead(After(c, run[..n]), id, now)
    requires forall i :: n <= i < |run| ==> now <= run[i].now
    ensures Dead(After(c, run), id, if n < |run| then run[|run| - 1].now else now)
  {
    if n == |run| {
      assert run[..n] == run;
    } else {
      var init := run[..|run| - 1];
      assert init[..n] == run[..n];
      DeadStaysDead(c, init, n, id, now);
      DeadStep(c, After(c, init), run[|run| - 1], id, if n < |init| then init[|init| - 1].now else now);
    }
  }

  lemma {:induction false} DeadRefuses(c: Config, run: seq<Event>, id: Id, e: Event, i: nat)
    requires FreshTokens(c, run) && Dead(After(c, run), id, e.now)
    ensures e.op.OpRefresh? && IssuedAt(c, run, i, id)
            && c.hash(TrimSpace(e.op.presented)) == c.hash(run[i].op.token) ==>
            Step(c, After(c, run), e).1 == Denied(InvalidRefreshToken)
    ensures e.op.OpRefresh? ==> Step(c, After(c, run), e).1 != Granted(id)
    ensures e.op.OpValidate? && c.parse(e.op.session) == Some(id) ==>
            Step(c, After(c, run), e).1 == Denied(InvalidSession)
  {
    var s := After(c, run);
    if e.op.OpRefresh? && IssuedAt(c, run, i, id) && c.hash(TrimSpace(e.op.presented)) == c.hash(run[i].op.token) {
      forall x | x in s && s[x].hash == c.hash(run[i].op.token) ensures x == id {
        HashOwner(c, run, i, id, x);
      }
    }
  }

  /**
   * Once a session has been revoked or has expired, nothing that happens later makes its id
   * or any token ever handed out for it acceptable again.
   */
  lemma DeadForGood(c: Config, run: seq<Event>, n: nat, id: Id, now: Time, j: nat, i: nat)
    requires Monotone(run) && FreshTokens(c, run) && n <= j < |run| && i < j
    requires Dead(After(c, run[..n]), id, now) && now <= run[j].now
    requires n < |run| ==> now <= run[n].now
    ensures run[j].op.OpValidate? && c.parse(run[j].op.session) == Some(id) ==>
            AnswerAt(c, run, j) == Denied(InvalidSession)
    ensures run[j].op.OpRefresh? ==> AnswerAt(c, run, j) != Granted(id)
    ensures run[j].op.OpRefresh? && IssuedAt(c, run, i, id)
            && c.hash(TrimSpace(run[j].op.presented)) == c.hash(run[i].op.token) ==>
            AnswerAt(c, run, j) == Denied(InvalidRefreshToken)
  {
    var before := run[..j];
    assert before[..n] == run[..n];
    DeadStaysDead(c, before, n, id, now);
    FreshPrefix(c, run, j);
    IssuedInPrefix(c, run, j, i, id);
    DeadRefuses(c, before, id, run[j], i);
  }
}
