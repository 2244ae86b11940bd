/** What each call of the auth service answers and leaves behind, told over the rows themselves. */
module AuthOutcomes {
  import opened Basics
  import opened AuthModel
  import opened AuthInvariant

  // ---- login ----

  /** A live account of the tenant with this email in any case, that has a password and is not locked. */
  predicate MayTry(u: User, email: string, tenant: string, now: Time) {
    u.tenantId == tenant && SameIgnoringCase(u.email, email) && !u.deleted
    && u.passwordHash.Some? && (u.lockedUntil.None? || u.lockedUntil.value <= now)
  }

  ghost predicate NobodyMayTry(users: Users, email: string, tenant: string, now: Time) {
    forall id :: id in users ==> !MayTry(users[id], email, tenant, now)
  }

  lemma TheAccountFound(users: Users, email: string, tenant: string, id: UserId)
    requires UniqueEmails(users) && id in users
    ensures users[id].tenantId == tenant && SameIgnoringCase(users[id].email, email) && !users[id].deleted
       <==> FindActiveByEmail(users, email, tenant) == Some(id)
  {
    LowerDecidesSameIgnoringCase(users[id].email, email);
    var found := FindActiveByEmail(users, email, tenant);
    if MatchesEmail(users[id], email, tenant) {
      assert MatchesEmail(users[id], users[found.value].email, users[found.value].tenantId);
    }
  }

  /**
   A login succeeds if and only if an account may try and the password matches. A wrong password
   counts one failure against that account, and from the fifth on locks it for fifteen minutes;
   every other refusal, a locked account's included, changes nothing.
   */
  lemma LoginOutcome(s: State, now: Time, email: string, tenant: string, passwordMatches: bool, oldest: SessionId, ttl: int)
    requires UniqueEmails(s.users)
    ensures var (after, reply) := LoginStep(s, now, email, tenant, passwordMatches, oldest, ttl);
            (reply.Issued? <==> passwordMatches && !NobodyMayTry(s.users, email, tenant, now))
            && (NobodyMayTry(s.users, email, tenant, now) ==> (after, reply) == (s, Unauthorized))
            && (forall id :: id in s.users && MayTry(s.users[id], email, tenant, now) && !passwordMatches ==>
                  var failures := s.users[id].failedLoginAttempts + 1;
                  reply == Unauthorized
                  && after == s.(users := s.users[id := s.users[id].(
                       failedLoginAttempts := failures,
                       lockedUntil := if failures >= 5 then Some(now + 900_000) else s.users[id].lockedUntil)]))
  {
    forall id | id in s.users && MayTry(s.users[id], email, tenant, now)
      ensures FindActiveByEmail(s.users, email, tenant) == Some(id)
    {
      TheAccountFound(s.users, email, tenant, id);
    }
    var found := FindActiveByEmail(s.users, email, tenant);
    if found.Some? { TheAccountFound(s.users, email, tenant, found.value); }
  }

  // ---- refresh ----

  /** The row is the session of this token in this tenant. */
  predicate SessionOf(row: Session, t: Token, tenant: string) {
    row.refreshTokenHash == Sha256(t) && row.tenantId == tenant
  }

  /** The token's session in the tenant is revoked while its owner still has an open one. */
  ghost predicate RevokedWhileOthersOpen(sessions: Sessions, t: Token, tenant: string) {
    exists id, other ::
      id in sessions && SessionOf(sessions[id], t, tenant) && sessions[id].revokedAt.Some?
      && other in sessions && sessions[other].userId == sessions[id].userId && sessions[other].revokedAt.None?
  }

  lemma TheSessionFound(s: State, t: Token, tenant: string, id: SessionId)
    requires TableOk(s) && id in s.sessions
    ensures SessionOf(s.sessions[id], t, tenant)
       <==> FindByRefreshTokenHash(s.sessions, HashToken(t), tenant) == Some(id)
  {
  }

  lemma RevokingChanges(s: State, user: UserId, now: Time)
    ensures s.(sessions := RevokeAllActive(s.sessions, user, now)) != s
       <==> exists other :: other in s.sessions && s.sessions[other].userId == user && s.sessions[other].revokedAt.None?
  {
    var after := RevokeAllActive(s.sessions, user, now);
    if other :| other in s.sessions && s.sessions[other].userId == user && s.sessions[other].revokedAt.None? {
      assert after[other] != s.sessions[other];
    } else {
      assert after == s.sessions;
    }
  }

  /**
   A refresh that issues no token answers Unauthorized, and changes the table if and only if the token
   verifies and its session was revoked while its owner still had an open one: a token that has
   expired, is foreign or is unknown in the tenant never does.
   */
  lemma RefusedRefreshOutcome(s: State, now: Time, t: Token, tenant: string, ttl: int)
    requires TableOk(s) && !RefreshStep(s, now, t, tenant, ttl).1.Issued?
    ensures RefreshStep(s, now, t, tenant, ttl).1 == Unauthorized
    ensures RefreshStep(s, now, t, tenant, ttl).0 != s
       <==> t.key == RefreshSecret && now / 1000 < t.exp && RevokedWhileOthersOpen(s.sessions, t, tenant)
  {
    forall id | id in s.sessions && SessionOf(s.sessions[id], t, tenant)
      ensures FindByRefreshTokenHash(s.sessions, HashToken(t), tenant) == Some(id)
    {
      TheSessionFound(s, t, tenant, id);
    }
    var found := FindByRefreshTokenHash(s.sessions, HashToken(t), tenant);
    if found.Some? {
      TheSessionFound(s, t, tenant, found.value);
      RevokingChanges(s, s.sessions[found.value].userId, now);
    }
  }

  // ---- clean-up ----

  /** Clean-up leaves exactly the rows that have not expired, their links to rows that are still there, and all else. */
  lemma CleanUpOutcome(s: State, now: Time)
    requires LinksOk(s.sessions)
    ensures var after := DeleteExpired(s.sessions, now);
            (forall id :: id in after <==> id in s.sessions && now <= s.sessions[id].expiresAt)
            && (forall id :: id in after ==>
                  var link := s.sessions[id].replacedBy;
                  after[id] == s.sessions[id].(replacedBy := if link.Some? && link.value in after then link else None))
  {
    forall id | id in s.sessions && s.sessions[id].replacedBy.Some? ensures s.sessions[id].replacedBy.value in s.sessions {
      assert LinkOk(s.sessions, id);
    }
  }

  /** No refresh is ever answered otherwise because of a clean-up before it. */
  lemma CleanUpChangesNoReply(s: State, now: Time, later: Time, t: Token, tenant: string, ttl: int)
    requires TableOk(s) && now <= later
    ensures RefreshStep(s.(sessions := DeleteExpired(s.sessions, now)), later, t, tenant, ttl).1
         == RefreshStep(s, later, t, tenant, ttl).1
  {
    var after := s.(sessions := DeleteExpired(s.sessions, now));
    CleanUpKeepsTable(s, now);
    var found := FindByRefreshTokenHash(s.sessions, HashToken(t), tenant);
    if found.Some? && Verifies(t, later) {
      assert found.value in after.sessions;
      TheSessionFound(after, t, tenant, found.value);
    }
  }
}
