/**
 The service itself: methods that update the session and user tables step by step,
 each proved to perform exactly one transition of the model and to keep its invariant.
 */
module AuthService {
  import opened Basics
  import opened AuthModel
  import opened AuthInvariant

  class AuthService {
    var users: Users
    var sessions: Sessions
    var nextUuid: nat
    /** The latest time any call was made. */
    ghost var clock: Time
    const refreshTokenTtl: int

    constructor (users: Users, refreshTokenTtl: int, ghost now: Time)
      requires UniqueEmails(users)
      ensures Valid() && clock == now && View() == State(users, map[], 0)
      ensures this.refreshTokenTtl == refreshTokenTtl
    {
      this.users, sessions, nextUuid := users, map[], 0;
      this.refreshTokenTtl := refreshTokenTtl;
      clock := now;
      new;
      EmptyTableOk(users, now);
    }

    ghost function View(): State
      reads this
    {
      State(users, sessions, nextUuid)
    }

    ghost predicate Valid()
      reads this
    {
      Inv(View(), clock) && UniqueEmails(users)
    }

    method FindUser(email: string, tenant: string) returns (r: Option<UserId>)
      requires Valid()
      ensures r == FindActiveByEmail(users, email, tenant)
    {
      if id :| id in users && MatchesEmail(users[id], email, tenant) {
        r := Some(id);
        SameUser(users, email, tenant, id);
      } else {
        r := None;
      }
    }

    method FindSession(hash: TokenHash, tenant: string) returns (r: Option<SessionId>)
      requires UniqueHashes(sessions)
      ensures r == FindByRefreshTokenHash(sessions, hash, tenant)
    {
      if id :| id in sessions && MatchesHash(sessions[id], hash, tenant) {
        r := Some(id);
      } else {
        r := None;
      }
    }

    method RecordFailedAttempt(user: UserId, now: Time)
      requires user in users
      modifies this`users
      ensures users == old(users)[user := FailedAttempt(old(users)[user], now)]
    {
      var row := users[user];
      var willLock := row.failedLoginAttempts + 1 >= MAX_FAILED_LOGIN_ATTEMPTS;
      row := row.(failedLoginAttempts := row.failedLoginAttempts + 1);
      if willLock {
        row := row.(lockedUntil := Some(now + ACCOUNT_LOCKOUT_DURATION_MS));
      }
      users := users[user := row];
    }

    /** Makes room for one more session by revoking the oldest active one, when the limit is reached. */
    method EnforceConcurrentSessionLimit(user: UserId, now: Time) returns (oldest: SessionId)
      modifies this`sessions
      ensures sessions == Evict(old(sessions), user, now, oldest)
      ensures |ActiveIds(old(sessions), user, now)| >= MAX_CONCURRENT_SESSIONS
          ==> IsOldestActive(old(sessions), user, now, oldest)
    {
      oldest := 0;
      var active := ActiveIds(sessions, user, now);
      if |active| < MAX_CONCURRENT_SESSIONS {
        return;
      }
      OldestExists(sessions, user, now, active);
      oldest :| oldest in active && forall other :: other in active ==> sessions[oldest].issuedAt <= sessions[other].issuedAt;
      sessions := sessions[oldest := sessions[oldest].(revokedAt := Some(now))];
    }

    method Login(email: string, tenant: string, passwordMatches: bool, now: Time)
      returns (reply: Reply, ghost oldest: SessionId)
      requires Valid() && clock <= now
      modifies this
      ensures (View(), reply) == LoginStep(old(View()), now, email, tenant, passwordMatches, oldest, refreshTokenTtl)
      ensures TruthfulOldest(old(View()), Event(now, Call.Login(email, tenant, passwordMatches, oldest)))
      ensures Valid() && clock == now
    {
      ghost var before, since := View(), clock;
      oldest := 0;
      var found := FindUser(email, tenant);
      if found.None? || users[found.value].passwordHash.None? {
        reply := Unauthorized;
        oldest := AnyTruthfulOldest(before, now, email, tenant, passwordMatches);
      } else if Locked(users[found.value], now) {
        reply := Unauthorized;
        oldest := AnyTruthfulOldest(before, now, email, tenant, passwordMatches);
      } else if !passwordMatches {
        RecordFailedAttempt(found.value, now);
        reply := Unauthorized;
      } else {
        var user := users[found.value];
        users := users[found.value := user.(failedLoginAttempts := 0, lockedUntil := None)];
        var evicted := EnforceConcurrentSessionLimit(found.value, now);
        oldest := evicted;
        var token := SignRefreshToken(user.email, nextUuid, now, refreshTokenTtl);
        sessions := sessions[nextUuid + 1 := NewSession(tenant, found.value, token, now)];
        nextUuid := nextUuid + 2;
        reply := Issued(token);
      }
      ghost var e := Event(now, Call.Login(email, tenant, passwordMatches, oldest));
      StepKeepsInv(before, e, since, refreshTokenTtl);
      LoginKeepsEmails(before, e, refreshTokenTtl);
      clock := now;
    }

    method Refresh(t: Token, tenant: string, now: Time) returns (reply: Reply)
      requires Valid() && clock <= now
      modifies this
      ensures (View(), reply) == RefreshStep(old(View()), now, t, tenant, refreshTokenTtl)
      ensures Valid() && clock == now
    {
      ghost var before, since := View(), clock;
      StepKeepsInv(before, Event(now, Call.Refresh(t, tenant)), since, refreshTokenTtl);
      clock := now;
      if !Verifies(t, now) {
        return Unauthorized;
      }
      var found := FindSession(HashToken(t), tenant);
      if found.None? {
        return Unauthorized;
      }
      var session := sessions[found.value];
      if session.revokedAt.Some? {
        sessions := RevokeAllActive(sessions, session.userId, now);
        return Unauthorized;
      }
      if session.expiresAt <= now {
        return Unauthorized;
      }
      var token := SignRefreshToken(t.email, nextUuid, now, refreshTokenTtl);
      var newId := nextUuid + 1;
      sessions := sessions[newId := NewSession(tenant, session.userId, token, now)];
      sessions := sessions[found.value := session.(revokedAt := Some(now), replacedBy := Some(newId), lastUsedAt := Some(now))];
      nextUuid := nextUuid + 2;
      reply := Issued(token);
    }

    method Logout(presented: Option<Token>, tenant: string, now: Time)
      requires Valid() && clock <= now
      modifies this
      ensures View() == LogoutStep(old(View()), now, presented, tenant)
      ensures Valid() && clock == now
    {
      ghost var before, since := View(), clock;
      StepKeepsInv(before, Event(now, Call.Logout(presented, tenant)), since, refreshTokenTtl);
      clock := now;
      if presented.None? || !Verifies(presented.value, now) {
        return;
      }
      var found := FindSession(HashToken(presented.value), tenant);
      if found.Some? && sessions[found.value].revokedAt.None? {
        sessions := sessions[found.value := sessions[found.value].(revokedAt := Some(now))];
      }
    }

    method RevokeSession(id: SessionId, email: string, tenant: string, now: Time) returns (reply: Reply)
      requires Valid() && clock <= now
      modifies this
      ensures (View(), reply) == RevokeSessionStep(old(View()), now, id, email, tenant)
      ensures Valid() && clock == now
    {
      ghost var before, since := View(), clock;
      StepKeepsInv(before, Event(now, Call.RevokeSession(id, email, tenant)), since, refreshTokenTtl);
      var caller := FindUser(email, tenant);
      clock := now;
      if caller.None? {
        return Unauthorized;
      }
      if id !in sessions || sessions[id].userId != caller.value || sessions[id].tenantId != tenant
         || !Active(sessions[id], now)
      {
        return NotFound;
      }
      sessions := sessions[id := sessions[id].(revokedAt := Some(now))];
      reply := Done;
    }

    /** The scheduled clean-up job's one query. */
    method DeleteExpiredSessions(now: Time)
      requires Valid() && clock <= now
      modifies this
      ensures View() == old(View()).(sessions := DeleteExpired(old(sessions), now))
      ensures Valid() && clock == now
    {
      StepKeepsInv(View(), Event(now, CleanUp), clock, refreshTokenTtl);
      sessions := DeleteExpired(sessions, now);
      clock := now;
    }
  }

  lemma SameUser(users: Users, email: string, tenant: string, id: UserId)
    requires UniqueEmails(users) && id in users && MatchesEmail(users[id], email, tenant)
    ensures FindActiveByEmail(users, email, tenant) == Some(id)
  {
    var other := FindActiveByEmail(users, email, tenant).value;
    assert MatchesEmail(users[id], users[other].email, users[other].tenantId);
  }

  /** A login only moves the counters of one account, so the email index still holds. */
  lemma LoginKeepsEmails(s: State, e: Event, ttl: int)
    requires UniqueEmails(s.users) && e.call.Login?
    ensures UniqueEmails(Step(s, e, ttl).0.users)
  {
    LoginShape(s, e, ttl);
    var after := Step(s, e, ttl).0.users;
    assert after.Keys == s.users.Keys;
    assert forall id | id in after ::
      after[id].email == s.users[id].email && after[id].tenantId == s.users[id].tenantId
      && after[id].deleted == s.users[id].deleted;
  }

  lemma {:induction false} OldestExists(sessions: Sessions, user: UserId, now: Time, among: set<SessionId>)
    requires among != {} && among <= ActiveIds(sessions, user, now)
    ensures exists id :: id in among && forall other :: other in among ==> sessions[id].issuedAt <= sessions[other].issuedAt
  {
    var x :| x in among;
    if among != {x} {
      OldestExists(sessions, user, now, among - {x});
      var y :| y in among - {x} && forall other :: other in among - {x} ==> sessions[y].issuedAt <= sessions[other].issuedAt;
      var least := if sessions[x].issuedAt <= sessions[y].issuedAt then x else y;
      assert forall other :: other in among ==> other == x || other in among - {x};
      assert least in among && forall other :: other in among ==> sessions[least].issuedAt <= sessions[other].issuedAt;
    }
  }

  /** Some answer to "which active session is oldest?" is truthful, even when nobody asks. */
  lemma AnyTruthfulOldest(s: State, now: Time, email: string, tenant: string, matches: bool) returns (oldest: SessionId)
    ensures TruthfulOldest(s, Event(now, Call.Login(email, tenant, matches, oldest)))
  {
    oldest := 0;
    var found := FindActiveByEmail(s.users, email, tenant);
    if found.Some? && |ActiveIds(s.sessions, found.value, now)| >= MAX_CONCURRENT_SESSIONS {
      var active := ActiveIds(s.sessions, found.value, now);
      OldestExists(s.sessions, found.value, now, active);
      oldest :| oldest in active && forall other :: other in active ==> s.sessions[oldest].issuedAt <= s.sessions[other].issuedAt;
    }
  }
}
