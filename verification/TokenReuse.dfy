/** Revocation is permanent, and replaying a rotated token ends every session of its owner. */
module TokenReuse {
  import opened Basics
  import opened AuthModel
  import opened AuthInvariant

  // ---- how rows change over time ----

  /** Identity of a row never changes; once revoked it is frozen, save that its link may be nulled. */
  ghost predicate RowEvolves(a: Session, b: Session) {
    a.tenantId == b.tenantId && a.userId == b.userId && a.refreshTokenHash == b.refreshTokenHash
    && a.issuedAt == b.issuedAt && a.expiresAt == b.expiresAt
    && (a.revokedAt.Some? ==>
          b.revokedAt == a.revokedAt && b.lastUsedAt == a.lastUsedAt
          && (b.replacedBy == a.replacedBy || b.replacedBy.None?))
  }

  /** Every surviving row evolved, and every other row is new, for a token signed since. */
  ghost predicate Evolves(before: State, after: State) {
    before.nextUuid <= after.nextUuid &&
    forall id :: id in after.sessions ==>
      if id < before.nextUuid
      then id in before.sessions && RowEvolves(before.sessions[id], after.sessions[id])
      else after.sessions[id].refreshTokenHash.preimage.jti >= before.nextUuid
  }

  lemma EvolvesTransitively(a: State, b: State, c: State)
    requires Evolves(a, b) && Evolves(b, c)
    ensures Evolves(a, c)
  {
  }

  lemma LoginEvolves(s: State, e: Event, ttl: int)
    requires RowsFromTokens(s) && e.call.Login? && TruthfulOldest(s, e)
    ensures Evolves(s, Step(s, e, ttl).0)
  {
    LoginShape(s, e, ttl);
    var found := FindActiveByEmail(s.users, e.call.email, e.call.tenant);
    if found.Some? && e.call.passwordMatches {
      assert |ActiveIds(s.sessions, found.value, e.now)| >= MAX_CONCURRENT_SESSIONS
        ==> IsOldestActive(s.sessions, found.value, e.now, e.call.oldest);
      EvictOnlyRevokes(s.sessions, found.value, e.now, e.call.oldest);
    }
  }

  lemma RefreshEvolves(s: State, e: Event, ttl: int)
    requires RowsFromTokens(s) && e.call.Refresh?
    ensures Evolves(s, Step(s, e, ttl).0)
  {
    RefreshShape(s, e, ttl);
  }

  lemma StepEvolves(s: State, e: Event, ttl: int)
    requires RowsFromTokens(s) && TruthfulOldest(s, e)
    ensures Evolves(s, Step(s, e, ttl).0)
  {
    if e.call.Login? {
      LoginEvolves(s, e, ttl);
    } else if e.call.Refresh? {
      RefreshEvolves(s, e, ttl);
    }
  }

  lemma {:induction false} RunEvolves(s: State, now: Time, es: seq<Event>, ttl: int)
    requires Inv(s, now) && WellTimed(s, now, es, ttl)
    ensures Evolves(s, Run(s, es, ttl))
    decreases |es|
  {
    if es != [] {
      var next := Step(s, es[0], ttl).0;
      StepEvolves(s, es[0], ttl);
      StepKeepsInv(s, es[0], now, ttl);
      RunEvolves(next, es[0].now, es[1..], ttl);
      EvolvesTransitively(s, next, Run(s, es, ttl));
    }
  }

  // ---- when a refresh succeeds ----

  ghost predicate HasOpenSession(s: State, t: Token, tenant: string) {
    exists id :: id in s.sessions && MatchesHash(s.sessions[id], HashToken(t), tenant) && s.sessions[id].revokedAt.None?
  }

  /**
   A refresh succeeds exactly when the token verifies and its session in this tenant is open.
   The further test of the row's own expiry never decides: a token that verifies has not expired.
   */
  lemma RefreshSucceedsIff(s: State, now: Time, t: Token, tenant: string, ttl: int)
    requires TableOk(s)
    ensures RefreshStep(s, now, t, tenant, ttl).1.Issued?
       <==> Verifies(t, now) && HasOpenSession(s, t, tenant)
  {
    var found := FindByRefreshTokenHash(s.sessions, HashToken(t), tenant);
    if found.Some? {
      forall id | id in s.sessions && MatchesHash(s.sessions[id], HashToken(t), tenant) ensures id == found.value {}
    }
  }

  /**
   Round trip: the token a login or refresh returns is accepted in that tenant for exactly its lifetime,
   counted in seconds from the second it was signed in.
   */
  lemma IssuedTokenIsAccepted(s: State, e: Event, now: Time, later: Time, ttl: int)
    requires Inv(s, now) && now <= e.now <= later && TruthfulOldest(s, e)
    requires e.call.Login? || e.call.Refresh?
    requires Step(s, e, ttl).1.Issued?
    ensures var tenant := if e.call.Login? then e.call.tenant else e.call.refreshTenant;
            RefreshStep(Step(s, e, ttl).0, later, Step(s, e, ttl).1.token, tenant, ttl).1.Issued?
            <==> later / 1000 < e.now / 1000 + ttl
  {
    var (after, reply) := Step(s, e, ttl);
    var tenant := if e.call.Login? then e.call.tenant else e.call.refreshTenant;
    StepKeepsInv(s, e, now, ttl);
    assert s.nextUuid + 1 in after.sessions
        && MatchesHash(after.sessions[s.nextUuid + 1], HashToken(reply.token), tenant)
        && after.sessions[s.nextUuid + 1].revokedAt.None?;
    RefreshSucceedsIff(after, later, reply.token, tenant, ttl);
  }

  // ---- permanence ----

  /** Rotated, logged out, evicted or revoked: a token whose session is revoked never works again, in any tenant. */
  lemma RevokedForever(s: State, now: Time, es: seq<Event>, id: SessionId, later: Time, tenant: string, ttl: int)
    requires Inv(s, now) && WellTimed(s, now, es, ttl)
    requires id in s.sessions && s.sessions[id].revokedAt.Some?
    ensures RefreshStep(Run(s, es, ttl), later, s.sessions[id].refreshTokenHash.preimage, tenant, ttl).1 == Unauthorized
  {
    var end, t := Run(s, es, ttl), s.sessions[id].refreshTokenHash.preimage;
    RunEvolves(s, now, es, ttl);
    RunKeepsInv(s, now, es, ttl);
    RefreshSucceedsIff(end, later, t, tenant, ttl);
    if j :| j in end.sessions && MatchesHash(end.sessions[j], HashToken(t), tenant) && end.sessions[j].revokedAt.None? {
      assert false;
    }
  }

  /** A refresh closes the session it was given, with a link to the one it opened. */
  lemma RefreshRotates(s: State, now: Time, t: Token, tenant: string, ttl: int) returns (prior: SessionId)
    requires TableOk(s) && RefreshStep(s, now, t, tenant, ttl).1.Issued?
    ensures var (after, reply) := RefreshStep(s, now, t, tenant, ttl);
            prior in s.sessions && prior in after.sessions && MatchesHash(s.sessions[prior], HashToken(t), tenant)
            && after.sessions[prior]
               == s.sessions[prior].(revokedAt := Some(now), replacedBy := Some(s.nextUuid + 1), lastUsedAt := Some(now))
            && s.nextUuid + 1 in after.sessions
            && MatchesHash(after.sessions[s.nextUuid + 1], HashToken(reply.token), tenant)
            && after.sessions[s.nextUuid + 1]
               == Session(tenant, s.sessions[prior].userId, Sha256(reply.token), now, reply.token.exp * 1000, None, None, None)
            && reply.token.email == t.email && reply.token != t && after.users == s.users
            && after.sessions.Keys == s.sessions.Keys + {s.nextUuid + 1} && s.nextUuid + 1 !in s.sessions
            && after.nextUuid > s.nextUuid + 1
            && (forall id :: id in s.sessions && id != prior ==> id in after.sessions && after.sessions[id] == s.sessions[id])
  {
    prior := FindByRefreshTokenHash(s.sessions, HashToken(t), tenant).value;
    assert s.sessions[prior].refreshTokenHash.preimage.jti < s.nextUuid;
  }

  // ---- the response to reuse ----

  /** A verified token whose session in this tenant has been revoked: the theft signal. */
  ghost predicate ReuseDetected(s: State, now: Time, t: Token, tenant: string) {
    var found := FindByRefreshTokenHash(s.sessions, HashToken(t), tenant);
    Verifies(t, now) && found.Some? && s.sessions[found.value].revokedAt.Some?
  }

  ghost function Victim(s: State, t: Token, tenant: string): UserId
    requires FindByRefreshTokenHash(s.sessions, HashToken(t), tenant).Some?
  {
    s.sessions[FindByRefreshTokenHash(s.sessions, HashToken(t), tenant).value].userId
  }

  ghost predicate AllRevoked(sessions: Sessions, user: UserId) {
    forall id :: id in sessions && sessions[id].userId == user ==> sessions[id].revokedAt.Some?
  }

  /** The caller sees an ordinary failure; the victim's open sessions, and no others, are revoked at this moment. */
  lemma ReuseRevokesTheFamily(s: State, now: Time, t: Token, tenant: string, ttl: int)
    requires ReuseDetected(s, now, t, tenant)
    ensures var (after, reply) := RefreshStep(s, now, t, tenant, ttl);
            reply == Unauthorized && AllRevoked(after.sessions, Victim(s, t, tenant))
            && after.users == s.users && after.nextUuid == s.nextUuid && after.sessions.Keys == s.sessions.Keys
            && (forall id :: id in s.sessions ==>
                  after.sessions[id]
                  == if s.sessions[id].userId == Victim(s, t, tenant) && s.sessions[id].revokedAt.None?
                     then s.sessions[id].(revokedAt := Some(now)) else s.sessions[id])
  {
  }

  /**
   After the reuse response no refresh token issued before it ever works for the victim again,
   whatever calls follow: a later success with an old token is another user's.
   */
  lemma ReuseKillsOldTokens(s: State, now: Time, t: Token, tenant: string, es: seq<Event>, ttl: int,
                            later: Time, oldToken: Token, laterTenant: string)
    requires Inv(s, now) && ReuseDetected(s, now, t, tenant)
    requires var after := RefreshStep(s, now, t, tenant, ttl).0;
             WellTimed(after, now, es, ttl)
             && oldToken.jti < s.nextUuid
             && RefreshStep(Run(after, es, ttl), later, oldToken, laterTenant, ttl).1.Issued?
    ensures var end := Run(RefreshStep(s, now, t, tenant, ttl).0, es, ttl);
            FindByRefreshTokenHash(end.sessions, HashToken(oldToken), laterTenant).Some?
            && Victim(end, oldToken, laterTenant) != Victim(s, t, tenant)
  {
    var after := RefreshStep(s, now, t, tenant, ttl).0;
    var end := Run(after, es, ttl);
    ReuseRevokesTheFamily(s, now, t, tenant, ttl);
    RefreshKeepsInv(s, Event(now, Refresh(t, tenant)), now, ttl);
    RunEvolves(after, now, es, ttl);
  }

  /** The login in `e`, if any, issues no token to `user`. */
  ghost predicate NoLoginBy(s: State, e: Event, user: UserId, ttl: int) {
    e.call.Login? && Step(s, e, ttl).1.Issued? ==>
      FindActiveByEmail(s.users, e.call.email, e.call.tenant) != Some(user)
  }

  ghost predicate NoLoginsBy(s: State, es: seq<Event>, user: UserId, ttl: int)
    decreases |es|
  {
    es == [] || (NoLoginBy(s, es[0], user, ttl) && NoLoginsBy(Step(s, es[0], ttl).0, es[1..], user, ttl))
  }

  lemma StepKeepsAllRevoked(s: State, e: Event, user: UserId, ttl: int)
    requires AllRevoked(s.sessions, user) && NoLoginBy(s, e, user, ttl)
    ensures AllRevoked(Step(s, e, ttl).0.sessions, user)
  {
    match e.call
    case Login(_, _, _, _) => LoginShape(s, e, ttl);
    case Refresh(_, _) => RefreshShape(s, e, ttl);
    case _ =>
  }

  lemma {:induction false} RunKeepsAllRevoked(s: State, es: seq<Event>, user: UserId, ttl: int)
    requires AllRevoked(s.sessions, user) && NoLoginsBy(s, es, user, ttl)
    ensures AllRevoked(Run(s, es, ttl).sessions, user)
    decreases |es|
  {
    if es != [] {
      StepKeepsAllRevoked(s, es[0], user, ttl);
      RunKeepsAllRevoked(Step(s, es[0], ttl).0, es[1..], user, ttl);
    }
  }

  /** Until the victim logs in again, no token at all, old or new, refreshes one of the victim's sessions. */
  lemma OnlyLoginRevives(s: State, now: Time, t: Token, tenant: string, es: seq<Event>, ttl: int,
                         later: Time, any: Token, laterTenant: string)
    requires ReuseDetected(s, now, t, tenant)
    requires NoLoginsBy(RefreshStep(s, now, t, tenant, ttl).0, es, Victim(s, t, tenant), ttl)
    requires var end := Run(RefreshStep(s, now, t, tenant, ttl).0, es, ttl);
             FindByRefreshTokenHash(end.sessions, HashToken(any), laterTenant).Some?
             && Victim(end, any, laterTenant) == Victim(s, t, tenant)
    ensures RefreshStep(Run(RefreshStep(s, now, t, tenant, ttl).0, es, ttl), later, any, laterTenant, ttl).1 == Unauthorized
  {
    ReuseRevokesTheFamily(s, now, t, tenant, ttl);
    RunKeepsAllRevoked(RefreshStep(s, now, t, tenant, ttl).0, es, Victim(s, t, tenant), ttl);
  }

  // ---- clean-up does not blind the detector ----

  ghost predicate HasRow(s: State, t: Token, tenant: string) {
    exists id :: id in s.sessions && MatchesHash(s.sessions[id], HashToken(t), tenant)
      && s.sessions[id].expiresAt == DecodeExpiry(t)
  }

  lemma StepKeepsRow(s: State, e: Event, t: Token, tenant: string, later: Time, ttl: int)
    requires RowsFromTokens(s) && HasRow(s, t, tenant) && Verifies(t, later) && e.now <= later
    ensures HasRow(Step(s, e, ttl).0, t, tenant)
  {
    var id :| id in s.sessions && MatchesHash(s.sessions[id], HashToken(t), tenant)
      && s.sessions[id].expiresAt == DecodeExpiry(t);
    match e.call {
      case Login(_, _, _, _) => LoginShape(s, e, ttl);
      case Refresh(_, _) => RefreshShape(s, e, ttl);
      case _ =>
    }
    var after := Step(s, e, ttl).0;
    assert id in after.sessions && MatchesHash(after.sessions[id], HashToken(t), tenant)
      && after.sessions[id].expiresAt == DecodeExpiry(t);
  }

  /**
   While an issued token still verifies, its row is still there: deleting expired rows never
   turns a replayed token into an unknown one.
   */
  lemma {:induction false} RowOutlivesToken(s: State, now: Time, es: seq<Event>, t: Token, tenant: string, later: Time, ttl: int)
    requires Inv(s, now) && WellTimed(s, now, es, ttl) && LastTime(now, es) <= later
    requires HasRow(s, t, tenant) && Verifies(t, later)
    ensures HasRow(Run(s, es, ttl), t, tenant)
    decreases |es|
  {
    if es != [] {
      TimesBounded(s, now, es, ttl);
      StepKeepsRow(s, es[0], t, tenant, later, ttl);
      StepKeepsInv(s, es[0], now, ttl);
      RowOutlivesToken(Step(s, es[0], ttl).0, es[0].now, es[1..], t, tenant, later, ttl);
    }
  }

  lemma {:induction false} TimesBounded(s: State, now: Time, es: seq<Event>, ttl: int)
    requires WellTimed(s, now, es, ttl) && es != []
    ensures es[0].now <= LastTime(now, es)
    ensures LastTime(es[0].now, es[1..]) == LastTime(now, es)
    decreases |es|
  {
    if |es| > 1 {
      TimesBounded(Step(s, es[0], ttl).0, es[0].now, es[1..], ttl);
    }
  }

  /**
   Completeness of detection: once a session is revoked, presenting its token in its tenant while
   the token still verifies triggers the response, however many calls and clean-ups lie between.
   */
  lemma ReplayIsAlwaysDetected(s: State, now: Time, es: seq<Event>, id: SessionId, later: Time, ttl: int)
    requires Inv(s, now) && WellTimed(s, now, es, ttl) && LastTime(now, es) <= later
    requires id in s.sessions && s.sessions[id].revokedAt.Some?
    requires Verifies(s.sessions[id].refreshTokenHash.preimage, later)
    ensures ReuseDetected(Run(s, es, ttl), later, s.sessions[id].refreshTokenHash.preimage, s.sessions[id].tenantId)
  {
    var t, tenant := s.sessions[id].refreshTokenHash.preimage, s.sessions[id].tenantId;
    RowOutlivesToken(s, now, es, t, tenant, later, ttl);
    RunEvolves(s, now, es, ttl);
    var end := Run(s, es, ttl);
    var found := FindByRefreshTokenHash(end.sessions, HashToken(t), tenant).value;
    assert s.sessions[found].refreshTokenHash == s.sessions[id].refreshTokenHash;
    assert found == id;
  }
}
