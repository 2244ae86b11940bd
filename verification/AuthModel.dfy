/**
 The tables behind authentication, the queries the two repositories run over them,
 and one atomic transition per service call. Times are milliseconds, `exp` claims
 are whole seconds. A UUID is a counter value: all that is used of it is that it is new.
 */
module AuthModel {
  import opened Basics

  const MAX_FAILED_LOGIN_ATTEMPTS := 5
  const ACCOUNT_LOCKOUT_DURATION_MS := 15 * 60 * 1000
  const MAX_CONCURRENT_SESSIONS := 5

  type Time = int
  type UserId = nat
  type SessionId = nat

  /** Who signed a presented token: an access token is signed with another secret. */
  datatype SigningKey = RefreshSecret | AccessSecret | Foreign

  datatype Token = Token(email: string, jti: nat, exp: int, key: SigningKey)

  /** SHA-256, taken to be injective: the digest determines the token. */
  datatype TokenHash = Sha256(preimage: Token)

  datatype User = User(
    tenantId: string,
    email: string,
    passwordHash: Option<string>,
    failedLoginAttempts: int,
    lockedUntil: Option<Time>,
    deleted: bool)

  datatype Session = Session(
    tenantId: string,
    userId: UserId,
    refreshTokenHash: TokenHash,
    issuedAt: Time,
    expiresAt: Time,
    lastUsedAt: Option<Time>,
    revokedAt: Option<Time>,
    replacedBy: Option<SessionId>)

  type Sessions = map<SessionId, Session>
  type Users = map<UserId, User>

  datatype State = State(users: Users, sessions: Sessions, nextUuid: nat)

  /**
   One service call. `passwordMatches` is what the Argon2 comparison answers if it is
   made, `oldest` the row the database returns if it is asked for the oldest active one.
   */
  datatype Call =
    | Login(email: string, tenant: string, passwordMatches: bool, oldest: SessionId)
    | Refresh(token: Token, refreshTenant: string)
    | Logout(presented: Option<Token>, logoutTenant: string)
    | RevokeSession(sessionId: SessionId, callerEmail: string, callerTenant: string)
    | CleanUp

  datatype Reply = Unauthorized | NotFound | Issued(token: Token) | Done

  datatype Event = Event(now: Time, call: Call)

  // ---- tokens ----

  function Seconds(now: Time): int { now / 1000 }

  function HashToken(t: Token): TokenHash { Sha256(t) }

  function SignRefreshToken(email: string, jti: nat, now: Time, ttl: int): Token {
    Token(email, jti, Seconds(now) + ttl, RefreshSecret)
  }

  /** Right secret, and the current second is before `exp` (RFC 7519, section 4.1.4). */
  predicate Verifies(t: Token, now: Time) {
    t.key == RefreshSecret && Seconds(now) < t.exp
  }

  function DecodeExpiry(t: Token): Time { t.exp * 1000 }

  // ---- repository queries ----

  predicate Active(s: Session, now: Time) {
    s.revokedAt.None? && s.expiresAt > now
  }

  predicate MatchesEmail(u: User, email: string, tenant: string) {
    Lower(u.email) == Lower(email) && u.tenantId == tenant && !u.deleted
  }

  ghost function FindActiveByEmail(users: Users, email: string, tenant: string): (r: Option<UserId>)
    ensures r.Some? ==> r.value in users && MatchesEmail(users[r.value], email, tenant)
    ensures r.None? ==> forall id :: id in users ==> !MatchesEmail(users[id], email, tenant)
  {
    if exists id :: id in users && MatchesEmail(users[id], email, tenant)
    then var id :| id in users && MatchesEmail(users[id], email, tenant); Some(id)
    else None
  }

  predicate MatchesHash(s: Session, hash: TokenHash, tenant: string) {
    s.refreshTokenHash == hash && s.tenantId == tenant
  }

  ghost function FindByRefreshTokenHash(sessions: Sessions, hash: TokenHash, tenant: string): (r: Option<SessionId>)
    ensures r.Some? ==> r.value in sessions && MatchesHash(sessions[r.value], hash, tenant)
    ensures r.None? ==> forall id :: id in sessions ==> !MatchesHash(sessions[id], hash, tenant)
  {
    if exists id :: id in sessions && MatchesHash(sessions[id], hash, tenant)
    then var id :| id in sessions && MatchesHash(sessions[id], hash, tenant); Some(id)
    else None
  }

  function ActiveIds(sessions: Sessions, user: UserId, now: Time): set<SessionId> {
    set id | id in sessions && sessions[id].userId == user && Active(sessions[id], now)
  }

  predicate IsOldestActive(sessions: Sessions, user: UserId, now: Time, id: SessionId) {
    id in ActiveIds(sessions, user, now) &&
    forall other :: other in ActiveIds(sessions, user, now) ==>
      sessions[id].issuedAt <= sessions[other].issuedAt
  }

  // ---- repository writes ----

  function Revoked(s: Session, now: Time): Session {
    s.(revokedAt := Some(now))
  }

  function Rotated(s: Session, now: Time, successor: SessionId): Session {
    s.(revokedAt := Some(now), replacedBy := Some(successor), lastUsedAt := Some(now))
  }

  function RevokeAllActive(sessions: Sessions, user: UserId, now: Time): Sessions {
    map id | id in sessions ::
      if sessions[id].userId == user && sessions[id].revokedAt.None?
      then Revoked(sessions[id], now) else sessions[id]
  }

  /** Hard-deletes expired rows; a link to a deleted row becomes null (`onDelete: SetNull`). */
  function DeleteExpired(sessions: Sessions, now: Time): Sessions {
    map id | id in sessions && sessions[id].expiresAt >= now ::
      var link := sessions[id].replacedBy;
      if link.Some? && link.value in sessions && sessions[link.value].expiresAt < now
      then sessions[id].(replacedBy := None) else sessions[id]
  }

  function NewSession(tenant: string, user: UserId, t: Token, now: Time): Session {
    Session(tenant, user, HashToken(t), now, DecodeExpiry(t), None, None, None)
  }

  function FailedAttempt(u: User, now: Time): User {
    u.(failedLoginAttempts := u.failedLoginAttempts + 1,
       lockedUntil := if u.failedLoginAttempts + 1 >= MAX_FAILED_LOGIN_ATTEMPTS
                      then Some(now + ACCOUNT_LOCKOUT_DURATION_MS) else u.lockedUntil)
  }

  function SuccessfulLogin(u: User): User {
    u.(failedLoginAttempts := 0, lockedUntil := None)
  }

  predicate Locked(u: User, now: Time) {
    u.lockedUntil.Some? && u.lockedUntil.value > now
  }

  function Evict(sessions: Sessions, user: UserId, now: Time, oldest: SessionId): Sessions {
    if |ActiveIds(sessions, user, now)| < MAX_CONCURRENT_SESSIONS || oldest !in sessions then sessions
    else sessions[oldest := Revoked(sessions[oldest], now)]
  }

  // ---- one transition per service call ----

  /** A successful login: clear the counters, make room, record the new session. */
  function Issue(s: State, user: UserId, tenant: string, oldest: SessionId, t: Token, now: Time): State
    requires user in s.users
  {
    State(s.users[user := SuccessfulLogin(s.users[user])],
          Evict(s.sessions, user, now, oldest)[s.nextUuid + 1 := NewSession(tenant, user, t, now)],
          s.nextUuid + 2)
  }

  /** A successful refresh: record the successor, then close the presented session with a link to it. */
  function Rotate(s: State, prior: SessionId, tenant: string, t: Token, now: Time): State
    requires prior in s.sessions
  {
    var row := NewSession(tenant, s.sessions[prior].userId, t, now);
    State(s.users,
          s.sessions[s.nextUuid + 1 := row][prior := Rotated(s.sessions[prior], now, s.nextUuid + 1)],
          s.nextUuid + 2)
  }

  ghost function LoginStep(s: State, now: Time, email: string, tenant: string,
                           passwordMatches: bool, oldest: SessionId, ttl: int): (State, Reply)
  {
    var found := FindActiveByEmail(s.users, email, tenant);
    if found.None? || s.users[found.value].passwordHash.None? then (s, Unauthorized)
    else
      var id := found.value;
      var user := s.users[id];
      if Locked(user, now) then (s, Unauthorized)
      else if !passwordMatches then
        (s.(users := s.users[id := FailedAttempt(user, now)]), Unauthorized)
      else
        var token := SignRefreshToken(user.email, s.nextUuid, now, ttl);
        (Issue(s, id, tenant, oldest, token, now), Issued(token))
  }

  ghost function RefreshStep(s: State, now: Time, t: Token, tenant: string, ttl: int): (State, Reply) {
    if !Verifies(t, now) then (s, Unauthorized)
    else
      var found := FindByRefreshTokenHash(s.sessions, HashToken(t), tenant);
      if found.None? then (s, Unauthorized)
      else
        var prior := s.sessions[found.value];
        if prior.revokedAt.Some? then
          (s.(sessions := RevokeAllActive(s.sessions, prior.userId, now)), Unauthorized)
        else if prior.expiresAt <= now then (s, Unauthorized)
        else
          var token := SignRefreshToken(t.email, s.nextUuid, now, ttl);
          (Rotate(s, found.value, tenant, token, now), Issued(token))
  }

  ghost function LogoutStep(s: State, now: Time, presented: Option<Token>, tenant: string): State {
    if presented.None? || !Verifies(presented.value, now) then s
    else
      var found := FindByRefreshTokenHash(s.sessions, HashToken(presented.value), tenant);
      if found.None? || s.sessions[found.value].revokedAt.Some? then s
      else s.(sessions := s.sessions[found.value := Revoked(s.sessions[found.value], now)])
  }

  ghost function RevokeSessionStep(s: State, now: Time, id: SessionId, email: string, tenant: string): (State, Reply) {
    var caller := FindActiveByEmail(s.users, email, tenant);
    if caller.None? then (s, Unauthorized)
    else if id in s.sessions && s.sessions[id].userId == caller.value && s.sessions[id].tenantId == tenant
            && Active(s.sessions[id], now)
    then (s.(sessions := s.sessions[id := Revoked(s.sessions[id], now)]), Done)
    else (s, NotFound)
  }

  ghost function Step(s: State, e: Event, ttl: int): (State, Reply) {
    match e.call
    case Login(email, tenant, matches, oldest) => LoginStep(s, e.now, email, tenant, matches, oldest, ttl)
    case Refresh(t, tenant) => RefreshStep(s, e.now, t, tenant, ttl)
    case Logout(t, tenant) => (LogoutStep(s, e.now, t, tenant), Done)
    case RevokeSession(id, email, tenant) => RevokeSessionStep(s, e.now, id, email, tenant)
    case CleanUp => (s.(sessions := DeleteExpired(s.sessions, e.now)), Done)
  }

  /** The database answers "oldest active session" truthfully when a login asks for it. */
  ghost predicate TruthfulOldest(s: State, e: Event) {
    e.call.Login? && e.call.passwordMatches ==>
      forall user {:trigger ActiveIds(s.sessions, user, e.now)} ::
        FindActiveByEmail(s.users, e.call.email, e.call.tenant) == Some(user)
        && |ActiveIds(s.sessions, user, e.now)| >= MAX_CONCURRENT_SESSIONS
        ==> IsOldestActive(s.sessions, user, e.now, e.call.oldest)
  }

  /** The state after a whole run of calls. */
  ghost function Run(s: State, es: seq<Event>, ttl: int): State
    decreases |es|
  {
    if es == [] then s else Run(Step(s, es[0], ttl).0, es[1..], ttl)
  }

  /** Clock never steps back, and every answer about the oldest session is truthful. */
  ghost predicate WellTimed(s: State, now: Time, es: seq<Event>, ttl: int)
    decreases |es|
  {
    es == [] ||
    (now <= es[0].now && TruthfulOldest(s, es[0])
     && WellTimed(Step(s, es[0], ttl).0, es[0].now, es[1..], ttl))
  }

  /** The clock reading of the last call of a run. */
  function LastTime(now: Time, es: seq<Event>): Time {
    if es == [] then now else es[|es| - 1].now
  }
}
