/**
 * The one-time password service and its store as they run, proved to do and answer what
 * the functions of module Otp say.
 */
module OtpService {
  import opened Wrappers
  import opened Otp

  class Repository {
    var rows: Rows

    constructor ()
      ensures rows == []
    {
      rows := [];
    }

    /** INSERT INTO email_verifications. */
    method Create(row: Row) returns (id: Option<nat>)
      modifies this
      ensures id == if row.expiresAt > row.createdAt && KnownPurpose(row.purpose) then Some(|old(rows)|) else None
      ensures rows == if id.Some? then old(rows) + [row] else old(rows)
    {
      if row.expiresAt <= row.createdAt || !KnownPurpose(row.purpose) {
        return None;
      }
      id := Some(|rows|);
      rows := rows + [row];
    }

    method GetActiveByEmailAndPurpose(email: string, purpose: string) returns (found: Option<nat>)
      ensures Found(rows, email, purpose, found)
    {
      found := None;
      for i := 0 to |rows|
        invariant Found(rows[..i], email, purpose, found)
      {
        var hit := rows[i].For(email, purpose) && rows[i].verifiedAt.None?;
        if hit && (found.None? || rows[i].createdAt >= rows[found.value].createdAt) {
          found := Some(i);
        }
      }
      assert rows[..|rows|] == rows;
    }

    method CountRecentRequests(email: string, purpose: string, windowStart: Time) returns (count: nat)
      ensures count == |Recent(rows, email, purpose, windowStart)|
    {
      count := 0;
      assert Recent(rows[..0], email, purpose, windowStart) == {};
      for i := 0 to |rows|
        invariant count == |Recent(rows[..i], email, purpose, windowStart)|
      {
        RecentStep(rows, i, email, purpose, windowStart);
        if rows[i].For(email, purpose) && rows[i].createdAt >= windowStart {
          count := count + 1;
        }
      }
      assert rows[..|rows|] == rows;
    }

    /** One UPDATE: all outstanding rows, or none when the CHECK on the expiry fails. */
    method ExpireOldVerifications(email: string, purpose: string, now: Time) returns (ok: bool)
      modifies this
      ensures ok <==> !ExpiryBlocked(old(rows), email, purpose, now)
      ensures rows == if ok then ExpireOld(old(rows), email, purpose, now) else old(rows)
    {
      var updated: Rows := [];
      for i := 0 to |rows|
        invariant |updated| == i
        invariant forall k :: 0 <= k < i && Outstanding(rows[k], email, purpose, now) ==>
                    rows[k].createdAt < now && updated[k] == rows[k].(expiresAt := now)
        invariant forall k :: 0 <= k < i && !Outstanding(rows[k], email, purpose, now) ==> updated[k] == rows[k]
      {
        if !Outstanding(rows[i], email, purpose, now) {
          updated := updated + [rows[i]];
        } else if now <= rows[i].createdAt {
          return false;
        } else {
          updated := updated + [rows[i].(expiresAt := now)];
        }
      }
      rows := updated;
      return true;
    }

    method IncrementAttempt(id: nat) returns (attempts: int)
      requires id < |rows|
      modifies this
      ensures attempts == old(rows)[id].attempts + 1
      ensures rows == old(rows)[id := old(rows)[id].(attempts := attempts)]
    {
      attempts := rows[id].attempts + 1;
      rows := rows[id := rows[id].(attempts := attempts)];
    }

    method MarkVerified(id: nat, now: Time)
      requires id < |rows|
      modifies this
      ensures rows == old(rows)[id := old(rows)[id].(verifiedAt := Some(now))]
    {
      rows := rows[id := rows[id].(verifiedAt := Some(now))];
    }
  }

  lemma RecentStep(rows: Rows, i: nat, email: string, purpose: string, since: Time)
    requires i < |rows|
    ensures |Recent(rows[..i + 1], email, purpose, since)| ==
            |Recent(rows[..i], email, purpose, since)|
            + if rows[i].For(email, purpose) && rows[i].createdAt >= since then 1 else 0
  {
    assert Recent(rows[..i + 1], email, purpose, since) ==
           Recent(rows[..i], email, purpose, since)
           + if rows[i].For(email, purpose) && rows[i].createdAt >= since then {i} else {};
  }

  class Service {
    const store: Repository
    const config: Config

    constructor (store: Repository, config: Config)
      ensures this.store == store && this.config == config
    {
      this.store, this.config := store, config;
    }

    /** The code of row i is still good, and this is it. */
    predicate Takes(rows: Rows, i: nat, guess: string, now: Time) {
      && i < |rows| && now <= rows[i].expiresAt && rows[i].attempts < config.maxAttempts
      && config.compare(rows[i].hash, guess)
    }

    /** `hash` is the hash of the generated code. */
    method CreateVerification(email: string, purpose: string, user: Option<string>, hash: string, now: Time)
      returns (answer: Answer)
      modifies store
      ensures (store.rows, answer) == Otp.Create(config, old(store.rows), email, purpose, user, hash, now)
    {
      if purpose != "signup" && purpose != "password_reset" {
        return Failed(InvalidPurpose);
      }
      var requestCount := store.CountRecentRequests(email, purpose, now - config.window);
      if requestCount >= config.perWindow {
        return Failed(RateLimited);
      }
      var ok := store.ExpireOldVerifications(email, purpose, now);
      if !ok {
        return Failed(Database);
      }
      var id := store.Create(Row(user, email, purpose, hash, now + config.expiry, None, 0, now));
      if id.None? {
        return Failed(Database);
      }
      return Created(id.value);
    }

    method VerifyOTP(email: string, purpose: string, guess: string, now: Time)
      returns (answer: Answer, ghost pick: Option<nat>)
      modifies store
      ensures KnownPurpose(purpose) ==> Found(old(store.rows), email, purpose, pick)
      ensures (store.rows, answer) == Verify(config, old(store.rows), email, purpose, None, pick, guess, now)
      ensures answer.Verified? <==> pick.Some? && Takes(old(store.rows), pick.value, guess, now)
    {
      pick := None;
      if purpose != "signup" && purpose != "password_reset" {
        return Failed(InvalidPurpose), pick;
      }
      var found := store.GetActiveByEmailAndPurpose(email, purpose);
      pick := found;
      if found.None? {
        return Failed(NotFound), pick;
      }
      answer := Check(found.value, guess, now);
    }

    method VerifyOTPForUser(email: string, purpose: string, guess: string, user: string, now: Time)
      returns (answer: Answer, ghost pick: Option<nat>)
      modifies store
      ensures KnownPurpose(purpose) ==> Found(old(store.rows), email, purpose, pick)
      ensures (store.rows, answer) == Verify(config, old(store.rows), email, purpose, Some(user), pick, guess, now)
      ensures answer.Verified? <==>
                && pick.Some? && Takes(old(store.rows), pick.value, guess, now)
                && old(store.rows)[pick.value].user == Some(user)
    {
      pick := None;
      if purpose != "signup" && purpose != "password_reset" {
        return Failed(InvalidPurpose), pick;
      }
      var found := store.GetActiveByEmailAndPurpose(email, purpose);
      pick := found;
      if found.None? {
        return Failed(NotFound), pick;
      }
      if store.rows[found.value].user.None? || store.rows[found.value].user.value != user {
        return Failed(NotFound), pick;
      }
      answer := Check(found.value, guess, now);
    }

    method Check(id: nat, guess: string, now: Time) returns (answer: Answer)
      requires id < |store.rows|
      modifies store
      ensures (store.rows, answer) == Otp.Check(config, old(store.rows), id, guess, now)
      ensures answer == Verified(id) <==> Takes(old(store.rows), id, guess, now)
    {
      var verification := store.rows[id];
      if now > verification.expiresAt {
        return Failed(Expired);
      }
      if verification.attempts >= config.maxAttempts {
        return Failed(TooManyAttempts);
      }
      if !config.compare(verification.hash, guess) {
        var attempts := store.IncrementAttempt(id);
        if attempts >= config.maxAttempts {
          return Failed(TooManyAttempts);
        }
        return Failed(Invalid);
      }
      store.MarkVerified(id, now);
      return Verified(id);
    }
  }
}
