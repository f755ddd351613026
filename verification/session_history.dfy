/**
 * Sessions told from what happened to them: which are live after any run, and what every
 * operation answers in terms of that.
 */
module SessionHistory {
  import opened Wrappers
  import opened Text
  import opened Sessions

  // ---------------------------------------------------------------- what happened to a session

  /** The event at index k created session id. */
  ghost predicate CreatedAt(c: Config, run: seq<Event>, k: nat, id: Id) {
    k < |run| && run[k].op.OpCreate? && AnswerAt(c, run, k) == Granted(id)
  }

  /** The operation revokes session id of the user, by its own id or by that of the user. */
  predicate Ends(c: Config, op: Op, id: Id, user: Option<Id>) {
    || (op.OpRevoke? && TrimSpace(op.session) != "" && c.parse(op.session) == Some(id))
    || (op.OpRevokeAll? && TrimSpace(op.user) != "" && c.parse(op.user).Some? && c.parse(op.user) == user)
  }

  predicate EndedSince(c: Config, run: seq<Event>, k: nat, id: Id)
    requires k < |run| && run[k].op.OpCreate?
  {
    exists m :: k < m < |run| && Ends(c, run[m].op, id, c.parse(run[k].op.user))
  }

  /** Session id was created at k, has not been revoked since, and its time is not over. */
  ghost predicate LiveSince(c: Config, run: seq<Event>, k: nat, id: Id, now: Time) {
    CreatedAt(c, run, k, id) && !EndedSince(c, run, k, id) && now < run[k].now + c.ttl
  }

  ghost predicate Live(c: Config, run: seq<Event>, id: Id, now: Time) {
    exists k: nat :: LiveSince(c, run, k, id, now)
  }

  // ---------------------------------------------------------------- the row tells the same

  /** The row of a session created by e. */
  predicate RowTells(c: Config, s: Table, e: Event, id: Id, ended: bool)
    requires e.op.OpCreate?
  {
    && id in s && c.parse(e.op.user) == Some(s[id].user)
    && s[id].createdAt == e.now && s[id].expiresAt == e.now + c.ttl
    && (s[id].revokedAt != None <==> ended)
  }

  lemma CreateTells(c: Config, s: Table, e: Event, id: Id)
    requires e.op.OpCreate? && Step(c, s, e).1 == Granted(id)
    ensures id !in s && RowTells(c, Step(c, s, e).0, e, id, false)
  {
  }

  lemma StepTells(c: Config, s: Table, next: Event, e: Event, id: Id, ended: bool)
    requires e.op.OpCreate? && RowTells(c, s, e, id, ended)
    ensures RowTells(c, Step(c, s, next).0, e, id, ended || Ends(c, next.op, id, c.parse(e.op.user)))
    ensures Step(c, s, next).1 != Granted(id) || !next.op.OpCreate?
  {
  }

  lemma EndedOneMore(c: Config, run: seq<Event>, k: nat, id: Id)
    requires k < |run| - 1 && run[k].op.OpCreate?
    ensures EndedSince(c, run, k, id) <==>
            EndedSince(c, run[..|run| - 1], k, id) || Ends(c, run[|run| - 1].op, id, c.parse(run[k].op.user))
  {
    var init := run[..|run| - 1];
    if EndedSince(c, init, k, id) {
      var m :| k < m < |init| && Ends(c, init[m].op, id, c.parse(init[k].op.user));
      assert Ends(c, run[m].op, id, c.parse(run[k].op.user));
    }
    if EndedSince(c, run, k, id) {
      var m :| k < m < |run| && Ends(c, run[m].op, id, c.parse(run[k].op.user));
      assert m < |init| ==> Ends(c, init[m].op, id, c.parse(init[k].op.user));
    }
  }

  lemma CreatedInPrefix(c: Config, run: seq<Event>, n: nat, k: nat, id: Id)
    requires k < n <= |run|
    ensures CreatedAt(c, run[..n], k, id) == CreatedAt(c, run, k, id)
  {
    assert run[..n][..k] == run[..k];
  }

  /** After any run, the row of a session tells when it was created and whether it was revoked. */
  lemma {:induction false} RowTellsHistory(c: Config, run: seq<Event>, k: nat, id: Id)
    requires CreatedAt(c, run, k, id)
    ensures RowTells(c, After(c, run), run[k], id, EndedSince(c, run, k, id))
    decreases |run|
  {
    var n := |run| - 1;
    if k == n {
      CreateTells(c, After(c, run[..k]), run[k], id);
    } else {
      CreatedInPrefix(c, run, n, k, id);
      RowTellsHistory(c, run[..n], k, id);
      EndedOneMore(c, run, k, id);
      StepTells(c, After(c, run[..n]), run[n], run[k], id, EndedSince(c, run[..n], k, id));
    }
  }

  lemma OnlyCreationAdds(c: Config, s: Table, e: Event, id: Id)
    ensures id in Step(c, s, e).0 <==> id in s || (e.op.OpCreate? && Step(c, s, e).1 == Granted(id))
  {
  }

  /** The table holds exactly the sessions that were created. */
  lemma {:induction false} InTableIff(c: Config, run: seq<Event>, id: Id)
    ensures id in After(c, run) <==> exists k: nat :: CreatedAt(c, run, k, id)
  {
    if run == [] {
    } else {
      var n := |run| - 1;
      InTableIff(c, run[..n], id);
      OnlyCreationAdds(c, After(c, run[..n]), run[n], id);
      forall k: nat | k < n ensures CreatedAt(c, run[..n], k, id) == CreatedAt(c, run, k, id) {
        CreatedInPrefix(c, run, n, k, id);
      }
      if k: nat :| CreatedAt(c, run[..n], k, id) {
        assert CreatedAt(c, run, k, id);
      }
      if id in After(c, run) && id !in After(c, run[..n]) {
        assert CreatedAt(c, run, n, id);
      }
    }
  }

  /** The table and the history agree on which sessions are active. */
  lemma ActiveIffLive(c: Config, run: seq<Event>, id: Id, now: Time)
    ensures id in After(c, run) && After(c, run)[id].Active(now) <==> Live(c, run, id, now)
  {
    InTableIff(c, run, id);
    forall k: nat | CreatedAt(c, run, k, id)
      ensures LiveSince(c, run, k, id, now) <==> After(c, run)[id].Active(now) {
      RowTellsHistory(c, run, k, id);
    }
    if id in After(c, run) {
      var k: nat :| CreatedAt(c, run, k, id);
      assert LiveSince(c, run, k, id, now) <==> After(c, run)[id].Active(now);
    }
  }

  // ---------------------------------------------------------------- answers

  /**
   * An access session is valid exactly if it was created, has been revoked neither by its
   * own id nor with all others of its user, and its time is not over. Refreshes do not matter.
   */
  lemma ValidateOutcome(c: Config, run: seq<Event>, e: Event)
    requires e.op.OpValidate?
    ensures Step(c, After(c, run), e).0 == After(c, run)
    ensures Step(c, After(c, run), e).1 == Done <==>
            && TrimSpace(e.op.session) != "" && c.parse(e.op.session).Some?
            && Live(c, run, c.parse(e.op.session).value, e.now)
    ensures Step(c, After(c, run), e).1 != Done ==> Step(c, After(c, run), e).1 == Denied(InvalidSession)
  {
    if c.parse(e.op.session).Some? {
      ActiveIffLive(c, run, c.parse(e.op.session).value, e.now);
    }
  }

  /** A new session is refused exactly for a bad user, a used id or a lifetime that is not positive. */
  lemma CreateOutcome(c: Config, run: seq<Event>, e: Event)
    requires FreshTokens(c, run + [e]) && e.op.OpCreate?
    ensures var r := Step(c, After(c, run), e).1;
            && (r == Denied(InvalidSession) <==> TrimSpace(e.op.user) == "" || c.parse(e.op.user) == None)
            && (r == Granted(e.op.id) <==>
                 && TrimSpace(e.op.user) != "" && c.parse(e.op.user).Some? && c.ttl > 0
                 && forall k: nat :: !CreatedAt(c, run, k, e.op.id))
            && r in {Denied(InvalidSession), Denied(Database), Granted(e.op.id)}
  {
    InTableIff(c, run, e.op.id);
    NextHashFree(c, run, e);
  }

  /** The token last handed out for a session. */
  ghost predicate HasLastToken(c: Config, run: seq<Event>, id: Id, hash: string) {
    var last := LastIssue(c, run, id);
    last.Some? && last.value < |run| && run[last.value].op.Issues() && hash == c.hash(run[last.value].op.token)
  }

  lemma LastTokenIsHash(c: Config, run: seq<Event>, id: Id, hash: string)
    requires id in After(c, run)
    ensures HasLastToken(c, run, id, hash) <==> After(c, run)[id].hash == hash
  {
    RowsOk(c, run, id);
  }

  /**
   * A refresh is granted for a session exactly if the session is live and the presented
   * token is the last one handed out for it; every other one is refused as invalid.
   */
  lemma RefreshOutcome(c: Config, run: seq<Event>, e: Event)
    requires FreshTokens(c, run + [e]) && e.op.OpRefresh?
    ensures var r := Step(c, After(c, run), e).1;
            && (forall id :: r == Granted(id) <==>
                 && TrimSpace(e.op.presented) != "" && Live(c, run, id, e.now)
                 && HasLastToken(c, run, id, c.hash(TrimSpace(e.op.presented))))
            && (r.Granted? || r == Denied(InvalidRefreshToken))
  {
    assert (run + [e])[..|run|] == run;
    FreshPrefix(c, run + [e], |run|);
    HashesUnique(c, run);
    NextHashFree(c, run, e);
    forall id ensures Live(c, run, id, e.now) && HasLastToken(c, run, id, c.hash(TrimSpace(e.op.presented))) <==>
                      Accepts(After(c, run), id, c.hash(TrimSpace(e.op.presented)), e.now) {
      ActiveIffLive(c, run, id, e.now);
      if id in After(c, run) {
        LastTokenIsHash(c, run, id, c.hash(TrimSpace(e.op.presented)));
      }
    }
    GrantedIff(c, After(c, run), e);
  }

  lemma GrantedIff(c: Config, s: Table, e: Event)
    requires e.op.OpRefresh? && UniqueHashes(s) && !HashTaken(s, c.hash(e.op.token), {})
    ensures var r := Step(c, s, e).1;
            && (forall id :: r == Granted(id) <==>
                 TrimSpace(e.op.presented) != "" && Accepts(s, id, c.hash(TrimSpace(e.op.presented)), e.now))
            && (r.Granted? || r == Denied(InvalidRefreshToken))
  {
  }

  /** Revoking succeeds for every id that can be read, whether or not there is such a session. */
  lemma RevokeOutcome(c: Config, s: Table, e: Event)
    requires e.op.OpRevoke? || e.op.OpRevokeAll?
    ensures var text := if e.op.OpRevoke? then e.op.session else e.op.user;
            Step(c, s, e).1 == if TrimSpace(text) == "" || c.parse(text) == None then Denied(InvalidSession) else Done
  {
  }
}
