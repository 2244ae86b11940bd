/** What every call keeps true of the session table, and therefore every run. */
module AuthInvariant {
  import opened Basics
  import opened AuthModel

  /** Every row was created by this service: its token is a refresh token, its expiry the token's own. */
  ghost predicate RowsFromTokens(s: State) {
    forall id :: id in s.sessions ==>
      var t := s.sessions[id].refreshTokenHash.preimage;
      id < s.nextUuid && t.jti < s.nextUuid && t.key == RefreshSecret
      && s.sessions[id].expiresAt == DecodeExpiry(t)
  }

  /** The unique index on `refresh_token_hash`. */
  ghost predicate UniqueHashes(sessions: Sessions) {
    forall a, b | a in sessions && b in sessions ::
      sessions[a].refreshTokenHash == sessions[b].refreshTokenHash ==> a == b
  }

  /** The unique index on (tenant, lower-cased email) over users that are not soft-deleted. */
  ghost predicate UniqueEmails(users: Users) {
    forall a, b | a in users && b in users && !users[a].deleted ::
      MatchesEmail(users[b], users[a].email, users[a].tenantId) ==> a == b
  }

  /** The foreign key to the owner, in the owner's own tenant. */
  ghost predicate OwnersExist(s: State) {
    forall id :: id in s.sessions ==>
      s.sessions[id].userId in s.users
      && s.users[s.sessions[id].userId].tenantId == s.sessions[id].tenantId
  }

  /** A link leads from a revoked row to a later row of the same user and tenant. */
  ghost predicate LinkOk(sessions: Sessions, id: SessionId)
    requires id in sessions
  {
    sessions[id].replacedBy.Some? ==>
      var next := sessions[id].replacedBy.value;
      sessions[id].revokedAt.Some?
      && id < next && next in sessions
      && sessions[next].userId == sessions[id].userId
      && sessions[next].tenantId == sessions[id].tenantId
  }

  ghost predicate LinksOk(sessions: Sessions) {
    forall id {:trigger LinkOk(sessions, id)} :: id in sessions ==> LinkOk(sessions, id)
  }

  /** No row is the successor of two rows. */
  ghost predicate LinksInjective(sessions: Sessions) {
    forall a, b | a in sessions && b in sessions && sessions[a].replacedBy.Some? ::
      sessions[a].replacedBy == sessions[b].replacedBy ==> a == b
  }

  ghost predicate WithinLimit(sessions: Sessions, now: Time) {
    forall user :: |ActiveIds(sessions, user, now)| <= MAX_CONCURRENT_SESSIONS
  }

  ghost predicate TableOk(s: State) {
    RowsFromTokens(s) && UniqueHashes(s.sessions) && OwnersExist(s)
    && LinksOk(s.sessions) && LinksInjective(s.sessions)
  }

  ghost predicate Inv(s: State, now: Time) {
    TableOk(s) && WithinLimit(s.sessions, now)
  }

  // ---- the two shapes of update ----

  /** `after` is `before` with some open rows revoked, nothing else changed. */
  ghost predicate OnlyRevokes(before: Sessions, after: Sessions) {
    after.Keys == before.Keys &&
    forall id :: id in before ==>
      after[id] == before[id] ||
      (before[id].revokedAt.None? && after[id].revokedAt.Some?
       && after[id] == before[id].(revokedAt := after[id].revokedAt))
  }

  lemma RevokesKeepLinks(before: Sessions, after: Sessions)
    requires LinksOk(before) && LinksInjective(before) && OnlyRevokes(before, after)
    ensures LinksOk(after) && LinksInjective(after)
  {
    forall id | id in after ensures LinkOk(after, id) { assert LinkOk(before, id); }
    forall id | id in after ensures after[id].replacedBy == before[id].replacedBy {}
  }

  lemma RevokesKeepTable(s: State, after: Sessions)
    requires TableOk(s) && OnlyRevokes(s.sessions, after)
    ensures TableOk(s.(sessions := after))
  {
    RevokesKeepLinks(s.sessions, after);
    forall id | id in after
      ensures after[id].refreshTokenHash == s.sessions[id].refreshTokenHash
           && after[id].userId == s.sessions[id].userId
           && after[id].tenantId == s.sessions[id].tenantId
           && after[id].expiresAt == s.sessions[id].expiresAt {}
  }

  /** Revocations and passing time only shrink the set of active sessions. */
  lemma RevokesKeepLimit(before: Sessions, after: Sessions, now: Time, later: Time)
    requires WithinLimit(before, now) && OnlyRevokes(before, after) && now <= later
    ensures WithinLimit(after, later)
  {
    forall user ensures |ActiveIds(after, user, later)| <= MAX_CONCURRENT_SESSIONS {
      assert ActiveIds(after, user, later) <= ActiveIds(before, user, now);
      SmallerSet(ActiveIds(after, user, later), ActiveIds(before, user, now));
    }
  }

  lemma RevokesKeepInv(s: State, after: Sessions, now: Time, later: Time)
    requires Inv(s, now) && OnlyRevokes(s.sessions, after) && now <= later
    ensures Inv(s.(sessions := after), later)
  {
    RevokesKeepTable(s, after);
    RevokesKeepLimit(s.sessions, after, now, later);
  }

  // ---- login ----

  /** Inserting one row under a new id for a new token keeps the table well formed. */
  lemma InsertKeepsTable(s: State, users: Users, kept: Sessions, owner: UserId, t: Token, now: Time)
    requires TableOk(s.(sessions := kept))
    requires owner in users && users.Keys == s.users.Keys
    requires forall u :: u in users ==> users[u].tenantId == s.users[u].tenantId
    requires t.jti == s.nextUuid && t.key == RefreshSecret
    ensures TableOk(State(users, kept[s.nextUuid + 1 := NewSession(users[owner].tenantId, owner, t, now)], s.nextUuid + 2))
  {
    var after := kept[s.nextUuid + 1 := NewSession(users[owner].tenantId, owner, t, now)];
    forall id | id in after ensures LinkOk(after, id) {
      if id in kept { assert LinkOk(kept, id); }
    }
  }

  lemma EvictOnlyRevokes(sessions: Sessions, user: UserId, now: Time, oldest: SessionId)
    requires |ActiveIds(sessions, user, now)| >= MAX_CONCURRENT_SESSIONS ==> oldest in ActiveIds(sessions, user, now)
    ensures OnlyRevokes(sessions, Evict(sessions, user, now, oldest))
    ensures WithinLimit(sessions, now) ==>
              |ActiveIds(Evict(sessions, user, now, oldest), user, now)| < MAX_CONCURRENT_SESSIONS
  {
    var after := Evict(sessions, user, now, oldest);
    if |ActiveIds(sessions, user, now)| >= MAX_CONCURRENT_SESSIONS {
      assert ActiveIds(after, user, now) == ActiveIds(sessions, user, now) - {oldest};
    }
  }

  lemma InsertKeepsLimit(kept: Sessions, now: Time, newId: SessionId, row: Session)
    requires WithinLimit(kept, now) && newId !in kept
    requires |ActiveIds(kept, row.userId, now)| < MAX_CONCURRENT_SESSIONS
    ensures WithinLimit(kept[newId := row], now)
  {
    var after := kept[newId := row];
    forall user ensures |ActiveIds(after, user, now)| <= MAX_CONCURRENT_SESSIONS {
      if user == row.userId {
        assert ActiveIds(after, user, now) <= ActiveIds(kept, user, now) + {newId};
        SmallerSet(ActiveIds(after, user, now), ActiveIds(kept, user, now) + {newId});
      } else {
        assert ActiveIds(after, user, now) == ActiveIds(kept, user, now);
      }
    }
  }

  lemma LimitLater(sessions: Sessions, now: Time, later: Time)
    requires WithinLimit(sessions, now) && now <= later
    ensures WithinLimit(sessions, later)
  {
    RevokesKeepLimit(sessions, sessions, now, later);
  }

  /** A failed attempt touches only the counters of one account. */
  lemma CountersKeepInv(s: State, user: UserId, row: User, now: Time)
    requires Inv(s, now) && user in s.users && row.tenantId == s.users[user].tenantId
    ensures Inv(s.(users := s.users[user := row]), now)
  {
  }

  lemma IssueKeepsTable(s: State, user: UserId, oldest: SessionId, t: Token, now: Time)
    requires TableOk(s) && user in s.users
    requires TableOk(s.(sessions := Evict(s.sessions, user, now, oldest)))
    requires t.jti == s.nextUuid && t.key == RefreshSecret
    ensures TableOk(Issue(s, user, s.users[user].tenantId, oldest, t, now))
  {
    InsertKeepsTable(s, s.users[user := SuccessfulLogin(s.users[user])], Evict(s.sessions, user, now, oldest), user, t, now);
  }

  lemma IssueKeepsLimit(s: State, user: UserId, oldest: SessionId, t: Token, now: Time)
    requires WithinLimit(s.sessions, now) && user in s.users && s.nextUuid + 1 !in s.sessions
    requires |ActiveIds(s.sessions, user, now)| >= MAX_CONCURRENT_SESSIONS ==> oldest in ActiveIds(s.sessions, user, now)
    ensures WithinLimit(Issue(s, user, s.users[user].tenantId, oldest, t, now).sessions, now)
  {
    EvictOnlyRevokes(s.sessions, user, now, oldest);
    var kept := Evict(s.sessions, user, now, oldest);
    RevokesKeepLimit(s.sessions, kept, now, now);
    InsertKeepsLimit(kept, now, s.nextUuid + 1, NewSession(s.users[user].tenantId, user, t, now));
  }

  lemma IssueKeepsInv(s: State, user: UserId, oldest: SessionId, t: Token, now: Time)
    requires Inv(s, now) && user in s.users
    requires |ActiveIds(s.sessions, user, now)| >= MAX_CONCURRENT_SESSIONS ==> oldest in ActiveIds(s.sessions, user, now)
    requires t.jti == s.nextUuid && t.key == RefreshSecret
    ensures Inv(Issue(s, user, s.users[user].tenantId, oldest, t, now), now)
  {
    EvictOnlyRevokes(s.sessions, user, now, oldest);
    RevokesKeepTable(s, Evict(s.sessions, user, now, oldest));
    IssueKeepsTable(s, user, oldest, t, now);
    IssueKeepsLimit(s, user, oldest, t, now);
  }

  lemma InvLater(s: State, now: Time, later: Time)
    requires Inv(s, now) && now <= later
    ensures Inv(s, later)
  {
    LimitLater(s.sessions, now, later);
  }

  /** The three ways a login can change the database. */
  lemma LoginShape(s: State, e: Event, ttl: int)
    requires e.call.Login?
    ensures var after := Step(s, e, ttl).0;
            after == s ||
            exists id :: id in s.users && FindActiveByEmail(s.users, e.call.email, e.call.tenant) == Some(id) &&
              (after == s.(users := s.users[id := FailedAttempt(s.users[id], e.now)]) ||
               after == Issue(s, id, e.call.tenant, e.call.oldest, SignRefreshToken(s.users[id].email, s.nextUuid, e.now, ttl), e.now))
  {
    var found := FindActiveByEmail(s.users, e.call.email, e.call.tenant);
    if found.Some? {
      assert found.value in s.users;
    }
  }

  lemma LoginKeepsInv(s: State, e: Event, now: Time, ttl: int)
    requires Inv(s, now) && now <= e.now && e.call.Login? && TruthfulOldest(s, e)
    ensures Inv(Step(s, e, ttl).0, e.now)
  {
    InvLater(s, now, e.now);
    LoginShape(s, e, ttl);
    var after := Step(s, e, ttl).0;
    if after != s {
      var id :| id in s.users && FindActiveByEmail(s.users, e.call.email, e.call.tenant) == Some(id) &&
              (after == s.(users := s.users[id := FailedAttempt(s.users[id], e.now)]) ||
               after == Issue(s, id, e.call.tenant, e.call.oldest, SignRefreshToken(s.users[id].email, s.nextUuid, e.now, ttl), e.now));
      if after == s.(users := s.users[id := FailedAttempt(s.users[id], e.now)]) {
        CountersKeepInv(s, id, FailedAttempt(s.users[id], e.now), e.now);
      } else if e.call.passwordMatches {
        assert |ActiveIds(s.sessions, id, e.now)| >= MAX_CONCURRENT_SESSIONS
          ==> IsOldestActive(s.sessions, id, e.now, e.call.oldest);
        IssueKeepsInv(s, id, e.call.oldest, SignRefreshToken(s.users[id].email, s.nextUuid, e.now, ttl), e.now);
      }
    }
  }

  // ---- refresh ----

  lemma RotateKeepsLinks(sessions: Sessions, prior: SessionId, newId: SessionId, row: Session, now: Time)
    requires LinksOk(sessions) && LinksInjective(sessions)
    requires prior in sessions && sessions[prior].revokedAt.None?
    requires forall id :: id in sessions ==> id < newId
    requires row.replacedBy.None? && row.userId == sessions[prior].userId && row.tenantId == sessions[prior].tenantId
    ensures var after := sessions[newId := row][prior := Rotated(sessions[prior], now, newId)];
            LinksOk(after) && LinksInjective(after)
  {
    var after := sessions[newId := row][prior := Rotated(sessions[prior], now, newId)];
    forall id | id in after ensures LinkOk(after, id) {
      if id in sessions { assert LinkOk(sessions, id); }
    }
    forall a, b | a in after && b in after && after[a].replacedBy.Some? && after[a].replacedBy == after[b].replacedBy
      ensures a == b
    {
      if a in sessions { assert LinkOk(sessions, a); }
      if b in sessions { assert LinkOk(sessions, b); }
    }
  }

  /** Rotation links an open row to the row just created, which has no predecessor yet. */
  lemma RotateKeepsTable(s: State, prior: SessionId, t: Token, now: Time)
    requires TableOk(s) && prior in s.sessions && s.sessions[prior].revokedAt.None?
    requires t.jti == s.nextUuid && t.key == RefreshSecret
    ensures TableOk(Rotate(s, prior, s.sessions[prior].tenantId, t, now))
  {
    RotateKeepsLinks(s.sessions, prior, s.nextUuid + 1, NewSession(s.sessions[prior].tenantId, s.sessions[prior].userId, t, now), now);
    assert s.sessions[prior].userId in s.users;
  }

  /** Rotation is count-neutral: one active row closes as one opens. */
  lemma RotateKeepsLimit(sessions: Sessions, now: Time, prior: SessionId, newId: SessionId, row: Session, closed: Session)
    requires WithinLimit(sessions, now)
    requires prior in sessions && newId !in sessions && Active(sessions[prior], now)
    requires row.userId == sessions[prior].userId && closed.revokedAt.Some?
    ensures WithinLimit(sessions[newId := row][prior := closed], now)
  {
    var after := sessions[newId := row][prior := closed];
    forall user ensures |ActiveIds(after, user, now)| <= MAX_CONCURRENT_SESSIONS {
      if user == row.userId {
        var room := ActiveIds(sessions, user, now) - {prior};
        assert |room| == |ActiveIds(sessions, user, now)| - 1;
        assert ActiveIds(after, user, now) <= room + {newId};
        SmallerSet(ActiveIds(after, user, now), room + {newId});
      } else {
        assert ActiveIds(after, user, now) <= ActiveIds(sessions, user, now);
        SmallerSet(ActiveIds(after, user, now), ActiveIds(sessions, user, now));
      }
    }
  }

  lemma RotateKeepsInv(s: State, prior: SessionId, t: Token, now: Time)
    requires Inv(s, now) && prior in s.sessions && Active(s.sessions[prior], now)
    requires t.jti == s.nextUuid && t.key == RefreshSecret
    ensures Inv(Rotate(s, prior, s.sessions[prior].tenantId, t, now), now)
  {
    assert s.nextUuid + 1 !in s.sessions;
    RotateKeepsLimit(s.sessions, now, prior, s.nextUuid + 1,
                     NewSession(s.sessions[prior].tenantId, s.sessions[prior].userId, t, now),
                     Rotated(s.sessions[prior], now, s.nextUuid + 1));
    RotateKeepsTable(s, prior, t, now);
  }

  /** The three ways a refresh can change the database. */
  lemma RefreshShape(s: State, e: Event, ttl: int)
    requires e.call.Refresh?
    ensures var after := Step(s, e, ttl).0;
            after == s ||
            exists id :: id in s.sessions
              && FindByRefreshTokenHash(s.sessions, HashToken(e.call.token), e.call.refreshTenant) == Some(id) &&
              (after == s.(sessions := RevokeAllActive(s.sessions, s.sessions[id].userId, e.now)) ||
               (Active(s.sessions[id], e.now) &&
                after == Rotate(s, id, e.call.refreshTenant, SignRefreshToken(e.call.token.email, s.nextUuid, e.now, ttl), e.now)))
  {
    var found := FindByRefreshTokenHash(s.sessions, HashToken(e.call.token), e.call.refreshTenant);
    if found.Some? {
      assert found.value in s.sessions;
    }
  }

  lemma RevokeAllOnlyRevokes(sessions: Sessions, user: UserId, now: Time)
    ensures OnlyRevokes(sessions, RevokeAllActive(sessions, user, now))
  {
  }

  lemma ReuseKeepsInv(s: State, user: UserId, now: Time)
    requires Inv(s, now)
    ensures Inv(s.(sessions := RevokeAllActive(s.sessions, user, now)), now)
  {
    RevokeAllOnlyRevokes(s.sessions, user, now);
    RevokesKeepInv(s, RevokeAllActive(s.sessions, user, now), now, now);
  }

  lemma RefreshKeepsInv(s: State, e: Event, now: Time, ttl: int)
    requires Inv(s, now) && now <= e.now && e.call.Refresh?
    ensures Inv(Step(s, e, ttl).0, e.now)
  {
    InvLater(s, now, e.now);
    RefreshShape(s, e, ttl);
    var after := Step(s, e, ttl).0;
    if after != s {
      var id := FindByRefreshTokenHash(s.sessions, HashToken(e.call.token), e.call.refreshTenant).value;
      ReuseKeepsInv(s, s.sessions[id].userId, e.now);
      if Active(s.sessions[id], e.now) {
        RotateKeepsInv(s, id, SignRefreshToken(e.call.token.email, s.nextUuid, e.now, ttl), e.now);
      }
    }
  }

  // ---- clean-up ----

  lemma CleanUpKeepsLinks(sessions: Sessions, later: Time)
    requires LinksOk(sessions)
    ensures LinksOk(DeleteExpired(sessions, later))
  {
    var after := DeleteExpired(sessions, later);
    forall id | id in after ensures LinkOk(after, id) {
      assert LinkOk(sessions, id);
    }
  }

  lemma CleanUpKeepsInjective(sessions: Sessions, later: Time)
    requires LinksInjective(sessions)
    ensures LinksInjective(DeleteExpired(sessions, later))
  {
    var after := DeleteExpired(sessions, later);
    forall a, b | a in after && b in after && after[a].replacedBy.Some? && after[a].replacedBy == after[b].replacedBy
      ensures a == b
    {
      assert sessions[a].replacedBy == sessions[b].replacedBy;
    }
  }

  lemma CleanUpKeepsTable(s: State, later: Time)
    requires TableOk(s)
    ensures TableOk(s.(sessions := DeleteExpired(s.sessions, later)))
  {
    CleanUpKeepsLinks(s.sessions, later);
    CleanUpKeepsInjective(s.sessions, later);
  }

  lemma CleanUpKeepsLimit(sessions: Sessions, later: Time)
    requires WithinLimit(sessions, later)
    ensures WithinLimit(DeleteExpired(sessions, later), later)
  {
    var after := DeleteExpired(sessions, later);
    forall user ensures |ActiveIds(after, user, later)| <= MAX_CONCURRENT_SESSIONS {
      assert ActiveIds(after, user, later) <= ActiveIds(sessions, user, later);
      SmallerSet(ActiveIds(after, user, later), ActiveIds(sessions, user, later));
    }
  }

  // ---- every call, every run ----

  lemma CleanUpKeepsInv(s: State, now: Time)
    requires Inv(s, now)
    ensures Inv(s.(sessions := DeleteExpired(s.sessions, now)), now)
  {
    CleanUpKeepsTable(s, now);
    CleanUpKeepsLimit(s.sessions, now);
  }

  lemma ClosingKeepsInv(s: State, e: Event, now: Time, ttl: int)
    requires Inv(s, now) && now <= e.now && (e.call.Logout? || e.call.RevokeSession?)
    ensures Inv(Step(s, e, ttl).0, e.now)
  {
    var after := Step(s, e, ttl).0;
    assert after == s.(sessions := after.sessions);
    assert OnlyRevokes(s.sessions, after.sessions);
    RevokesKeepInv(s, after.sessions, now, e.now);
  }

  lemma StepKeepsInv(s: State, e: Event, now: Time, ttl: int)
    requires Inv(s, now) && now <= e.now && TruthfulOldest(s, e)
    ensures Inv(Step(s, e, ttl).0, e.now)
  {
    if e.call.Login? {
      LoginKeepsInv(s, e, now, ttl);
    } else if e.call.Refresh? {
      RefreshKeepsInv(s, e, now, ttl);
    } else if e.call.CleanUp? {
      InvLater(s, now, e.now);
      CleanUpKeepsInv(s, e.now);
    } else {
      ClosingKeepsInv(s, e, now, ttl);
    }
  }

  lemma {:induction false} RunKeepsInv(s: State, now: Time, es: seq<Event>, ttl: int)
    requires Inv(s, now) && WellTimed(s, now, es, ttl)
    ensures Inv(Run(s, es, ttl), LastTime(now, es))
    decreases |es|
  {
    if es != [] {
      StepKeepsInv(s, es[0], now, ttl);
      RunKeepsInv(Step(s, es[0], ttl).0, es[0].now, es[1..], ttl);
    }
  }

  lemma EmptyTableOk(users: Users, now: Time)
    ensures Inv(State(users, map[], 0), now)
  {
    var none: Sessions := map[];
    forall u ensures |ActiveIds(none, u, now)| <= MAX_CONCURRENT_SESSIONS {
      assert ActiveIds(none, u, now) == {};
    }
  }

  /** In every run from an empty session table, no user ever holds more than five active sessions. */
  lemma NeverOverTheSessionLimit(users: Users, now: Time, es: seq<Event>, ttl: int, user: UserId, later: Time)
    requires WellTimed(State(users, map[], 0), now, es, ttl)
    requires LastTime(now, es) <= later
    ensures |ActiveIds(Run(State(users, map[], 0), es, ttl).sessions, user, later)| <= 5
  {
    var start := State(users, map[], 0);
    EmptyTableOk(users, now);
    RunKeepsInv(start, now, es, ttl);
    LimitLater(Run(start, es, ttl).sessions, LastTime(now, es), later);
  }
}
