/** How each call moves the number of a user's active sessions, exactly. */
module SessionCounts {
  import opened Basics
  import opened AuthModel
  import opened AuthInvariant

  function ActiveCount(s: State, user: UserId, now: Time): nat {
    |ActiveIds(s.sessions, user, now)|
  }

  lemma InsertCounts(kept: Sessions, newId: SessionId, row: Session, now: Time)
    requires newId !in kept && Active(row, now)
    ensures |ActiveIds(kept[newId := row], row.userId, now)| == |ActiveIds(kept, row.userId, now)| + 1
  {
    assert ActiveIds(kept[newId := row], row.userId, now) == ActiveIds(kept, row.userId, now) + {newId};
  }

  lemma EvictCounts(sessions: Sessions, user: UserId, now: Time, oldest: SessionId)
    requires |ActiveIds(sessions, user, now)| <= MAX_CONCURRENT_SESSIONS
    requires |ActiveIds(sessions, user, now)| >= MAX_CONCURRENT_SESSIONS ==> oldest in ActiveIds(sessions, user, now)
    ensures |ActiveIds(Evict(sessions, user, now, oldest), user, now)|
         == if |ActiveIds(sessions, user, now)| < MAX_CONCURRENT_SESSIONS then |ActiveIds(sessions, user, now)|
            else MAX_CONCURRENT_SESSIONS - 1
  {
    var after := Evict(sessions, user, now, oldest);
    if |ActiveIds(sessions, user, now)| >= MAX_CONCURRENT_SESSIONS {
      assert ActiveIds(after, user, now) == ActiveIds(sessions, user, now) - {oldest};
    }
  }

  /** The row a login at the limit closes, if it closes one: the oldest active session of that user. */
  ghost predicate OnlyOldestEvicted(s: State, after: State, user: UserId, now: Time, oldest: SessionId) {
    forall id | id in s.sessions :: id in after.sessions &&
      after.sessions[id] ==
        if ActiveCount(s, user, now) >= 5 && id == oldest
        then Revoked(s.sessions[id], now) else s.sessions[id]
  }

  /**
   A successful login clears the counters of one account, opens one session for the token it
   returns, closes the oldest active session exactly when the limit is reached, and touches nothing else.
   */
  lemma LoginOpensOneSession(s: State, e: Event, ttl: int) returns (user: UserId)
    requires Inv(s, e.now) && e.call.Login? && TruthfulOldest(s, e) && ttl >= 1 && Step(s, e, ttl).1.Issued?
    ensures var (after, reply) := Step(s, e, ttl);
            user in s.users && MatchesEmail(s.users[user], e.call.email, e.call.tenant)
            && after.users == s.users[user := s.users[user].(failedLoginAttempts := 0, lockedUntil := None)]
            && after.sessions.Keys == s.sessions.Keys + {s.nextUuid + 1} && s.nextUuid + 1 !in s.sessions
            && after.sessions[s.nextUuid + 1]
               == Session(e.call.tenant, user, Sha256(reply.token), e.now, reply.token.exp * 1000, None, None, None)
            && reply.token.email == s.users[user].email && Active(after.sessions[s.nextUuid + 1], e.now)
            && OnlyOldestEvicted(s, after, user, e.now, e.call.oldest)
            && (ActiveCount(s, user, e.now) >= MAX_CONCURRENT_SESSIONS ==> IsOldestActive(s.sessions, user, e.now, e.call.oldest))
            && ActiveCount(after, user, e.now)
               == if ActiveCount(s, user, e.now) < MAX_CONCURRENT_SESSIONS then ActiveCount(s, user, e.now) + 1
                  else MAX_CONCURRENT_SESSIONS
  {
    user := FindActiveByEmail(s.users, e.call.email, e.call.tenant).value;
    assert |ActiveIds(s.sessions, user, e.now)| >= MAX_CONCURRENT_SESSIONS
      ==> IsOldestActive(s.sessions, user, e.now, e.call.oldest);
    var kept := Evict(s.sessions, user, e.now, e.call.oldest);
    EvictCounts(s.sessions, user, e.now, e.call.oldest);
    assert s.nextUuid + 1 !in s.sessions && kept.Keys == s.sessions.Keys;
    InsertCounts(kept, s.nextUuid + 1, NewSession(e.call.tenant, user, Step(s, e, ttl).1.token, e.now), e.now);
  }

  /** One active row closes as another, of the same user, opens. */
  lemma SwapCounts(sessions: Sessions, prior: SessionId, newId: SessionId, row: Session, closed: Session, user: UserId, now: Time)
    requires prior in sessions && newId !in sessions && Active(sessions[prior], now) && Active(row, now)
    requires row.userId == sessions[prior].userId && closed.revokedAt.Some?
    ensures |ActiveIds(sessions[newId := row][prior := closed], user, now)| == |ActiveIds(sessions, user, now)|
  {
    var after := sessions[newId := row][prior := closed];
    if user == row.userId {
      assert ActiveIds(after, user, now) == ActiveIds(sessions, user, now) - {prior} + {newId};
    } else {
      assert ActiveIds(after, user, now) == ActiveIds(sessions, user, now);
    }
  }

  /** A successful refresh leaves every user's number of active sessions as it was. */
  lemma RefreshIsCountNeutral(s: State, e: Event, ttl: int, user: UserId)
    requires TableOk(s) && e.call.Refresh? && ttl >= 1 && Step(s, e, ttl).1.Issued?
    ensures ActiveCount(Step(s, e, ttl).0, user, e.now) == ActiveCount(s, user, e.now)
  {
    var t, tenant := Step(s, e, ttl).1.token, e.call.refreshTenant;
    var prior := FindByRefreshTokenHash(s.sessions, HashToken(e.call.token), tenant).value;
    assert Step(s, e, ttl).0 == Rotate(s, prior, tenant, t, e.now);
    assert s.nextUuid + 1 !in s.sessions;
    SwapCounts(s.sessions, prior, s.nextUuid + 1, NewSession(tenant, s.sessions[prior].userId, t, e.now),
               Rotated(s.sessions[prior], e.now, s.nextUuid + 1), user, e.now);
  }

  /** Every other call, like passing time, only ever lowers the number. */
  lemma OtherCallsOnlyLower(s: State, e: Event, ttl: int, user: UserId, later: Time)
    requires !Step(s, e, ttl).1.Issued? && e.now <= later
    ensures ActiveIds(Step(s, e, ttl).0.sessions, user, later) <= ActiveIds(s.sessions, user, e.now)
    ensures ActiveCount(Step(s, e, ttl).0, user, later) <= ActiveCount(s, user, e.now)
  {
    SmallerSet(ActiveIds(Step(s, e, ttl).0.sessions, user, later), ActiveIds(s.sessions, user, e.now));
  }

  /** A caller can close exactly the active sessions that are the caller's own, in the caller's tenant. */
  lemma RevokeSessionIff(s: State, now: Time, id: SessionId, email: string, tenant: string)
    ensures var (after, reply) := RevokeSessionStep(s, now, id, email, tenant);
            var caller := FindActiveByEmail(s.users, email, tenant);
            (reply == Done <==> caller.Some? && id in ActiveIds(s.sessions, caller.value, now) && s.sessions[id].tenantId == tenant)
            && (reply == Done ==> after.sessions == s.sessions[id := Revoked(s.sessions[id], now)])
            && (reply != Done ==> after == s)
            && forall other :: other in s.sessions && caller != Some(s.sessions[other].userId) ==>
                 other in after.sessions && after.sessions[other] == s.sessions[other]
  {
  }

  /**
   A logout closes the open session of a token that verifies, in its tenant, and touches nothing else;
   without a token, or with one that does not verify, it leaves everything as it was.
   */
  lemma LogoutClosesItsSession(s: State, now: Time, presented: Option<Token>, tenant: string)
    requires TableOk(s)
    ensures var after := LogoutStep(s, now, presented, tenant);
            after.users == s.users && after.nextUuid == s.nextUuid && after.sessions.Keys == s.sessions.Keys
            && (forall id :: id in s.sessions ==>
                  after.sessions[id]
                  == if presented == Some(s.sessions[id].refreshTokenHash.preimage) && now / 1000 < presented.value.exp
                        && s.sessions[id].tenantId == tenant && s.sessions[id].revokedAt.None?
                     then s.sessions[id].(revokedAt := Some(now)) else s.sessions[id])
            && (presented.None? || presented.value.key != RefreshSecret || presented.value.exp <= now / 1000 ==> after == s)
  {
    if presented.Some? {
      var t := presented.value;
      var found := FindByRefreshTokenHash(s.sessions, HashToken(t), tenant);
      forall id | id in s.sessions && MatchesHash(s.sessions[id], HashToken(t), tenant) ensures Some(id) == found {}
    }
  }
}
