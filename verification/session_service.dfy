/**
 * The session service as it runs: one object holding the table, proved to do and answer
 * what the functions of module Sessions say.
 */
module SessionService {
  import opened Wrappers
  import Text
  import opened Sessions

  class Service {
    const config: Config
    var sessions: Table

    constructor (config: Config)
      ensures this.config == config && sessions == map[] && Valid()
    {
      this.config := config;
      sessions := map[];
    }

    predicate Valid()
      reads this
    {
      UniqueHashes(sessions)
    }

    /** UPDATE auth_sessions SET refresh_token_hash: the row, or None for a violated constraint. */
    method RotateRefreshToken(previous: string, next: string, now: Time) returns (row: Result<Option<Id>, Error>)
      requires Valid()
      modifies this
      ensures Valid()
      ensures row == Success(None) <==> forall id :: !Accepts(old(sessions), id, previous, now)
      ensures row.Success? && row.value.Some? ==>
                (var id := row.value.value;
                 && Accepts(old(sessions), id, previous, now) && !HashTaken(old(sessions), next, {id})
                 && sessions == old(sessions)[id := old(sessions)[id].(hash := next, lastUsedAt := Some(now))])
      ensures row.Failure? ==>
                (row.error == Database
                 && exists id :: Accepts(old(sessions), id, previous, now) && HashTaken(old(sessions), next, {id}))
      ensures row == Success(None) || row.Failure? ==> sessions == old(sessions)
    {
      var hits := set id | id in sessions && Accepts(sessions, id, previous, now);
      if hits == {} {
        assert forall id :: Accepts(sessions, id, previous, now) ==> id in hits;
        return Success(None);
      }
      var id :| id in hits;
      if HashTaken(sessions, next, {id}) {
        return Failure(Database);
      }
      sessions := sessions[id := sessions[id].(hash := next, lastUsedAt := Some(now))];
      return Success(Some(id));
    }

    method Create(user: string, token: string, id: Id, now: Time) returns (answer: Answer)
      requires Valid()
      modifies this
      ensures Valid()
      ensures (sessions, answer) == Sessions.Create(config, old(sessions), user, token, id, now)
    {
      if Text.TrimSpace(user) == "" {
        return Denied(InvalidSession);
      }
      var u := config.parse(user);
      if u.None? {
        return Denied(InvalidSession);
      }
      var expiresAt := now + config.ttl;
      if id in sessions || HashTaken(sessions, config.hash(token), {}) || expiresAt <= now {
        return Denied(Database);
      }
      sessions := sessions[id := Session(u.value, config.hash(token), now, expiresAt, None, None)];
      return Granted(id);
    }

    method Refresh(presented: string, token: string, now: Time) returns (answer: Answer)
      requires Valid()
      modifies this
      ensures Valid()
      ensures (sessions, answer) == Sessions.Refresh(config, old(sessions), presented, token, now)
    {
      var trimmed := Text.TrimSpace(presented);
      if trimmed == "" {
        return Denied(InvalidRefreshToken);
      }
      var row := RotateRefreshToken(config.hash(trimmed), config.hash(token), now);
      match row
      case Failure(error) => return Denied(error);
      case Success(None) => return Denied(InvalidRefreshToken);
      case Success(Some(id)) => return Granted(id);
    }

    method Revoke(id: string, now: Time) returns (answer: Answer)
      requires Valid()
      modifies this
      ensures Valid()
      ensures (sessions, answer) == Sessions.Revoke(config, old(sessions), id, now)
    {
      if Text.TrimSpace(id) == "" {
        return Denied(InvalidSession);
      }
      var x := config.parse(id);
      if x.None? {
        return Denied(InvalidSession);
      }
      if x.value in sessions && sessions[x.value].revokedAt.None? {
        sessions := sessions[x.value := sessions[x.value].(revokedAt := Some(now))];
      }
      assert sessions == Sessions.Revoke(config, old(sessions), id, now).0;
      return Done;
    }

    method RevokeAllForUser(user: string, now: Time) returns (answer: Answer)
      requires Valid()
      modifies this
      ensures Valid()
      ensures (sessions, answer) == Sessions.RevokeAllForUser(config, old(sessions), user, now)
    {
      if Text.TrimSpace(user) == "" {
        return Denied(InvalidSession);
      }
      var u := config.parse(user);
      if u.None? {
        return Denied(InvalidSession);
      }
      var todo := sessions.Keys;
      while todo != {}
        invariant todo <= sessions.Keys == old(sessions).Keys
        invariant forall x :: x in sessions ==>
                    sessions[x] == if x !in todo && old(sessions)[x].user == u.value
                                   then Revoked(old(sessions)[x], now) else old(sessions)[x]
        decreases todo
      {
        var x :| x in todo;
        if sessions[x].user == u.value && sessions[x].revokedAt.None? {
          sessions := sessions[x := sessions[x].(revokedAt := Some(now))];
        }
        todo := todo - {x};
      }
      assert sessions == Sessions.RevokeAllForUser(config, old(sessions), user, now).0;
      return Done;
    }

    method ValidateAccessSession(id: string, now: Time) returns (answer: Answer)
      ensures answer == Sessions.ValidateAccessSession(config, sessions, id, now)
      ensures answer == Done <==>
                && Text.TrimSpace(id) != "" && config.parse(id).Some?
                && var x := config.parse(id).value;
                   x in sessions && sessions[x].revokedAt == None && now < sessions[x].expiresAt
      ensures answer != Done ==> answer == Denied(InvalidSession)
    {
      if Text.TrimSpace(id) == "" {
        return Denied(InvalidSession);
      }
      var x := config.parse(id);
      if x.None? || x.value !in sessions {
        return Denied(InvalidSession);
      }
      if sessions[x.value].revokedAt.Some? || sessions[x.value].expiresAt <= now {
        return Denied(InvalidSession);
      }
      return Done;
    }
  }
}
