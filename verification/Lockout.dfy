/** How many password guesses an account lockout lets through. */
module Lockout {
  import opened Basics
  import opened AuthModel
  import opened AuthInvariant
  import opened AuthOutcomes
  import opened TokenReuse

  /** The call reaches the password comparison for `user`. */
  ghost predicate Compares(s: State, e: Event, user: UserId) {
    e.call.Login? && FindActiveByEmail(s.users, e.call.email, e.call.tenant) == Some(user)
    && s.users[user].passwordHash.Some? && !Locked(s.users[user], e.now)
  }

  ghost function Comparisons(s: State, es: seq<Event>, user: UserId, ttl: int): nat
    decreases |es|
  {
    if es == [] then 0
    else (if Compares(s, es[0], user) then 1 else 0) + Comparisons(Step(s, es[0], ttl).0, es[1..], user, ttl)
  }

  /**
   The account after `count` failed comparisons since `start`, the last of them by `now`:
   from the fifth on, each has pushed the lock one more lockout duration into the future.
   */
  ghost predicate After(u: User, start: Time, now: Time, count: nat) {
    if count < MAX_FAILED_LOGIN_ATTEMPTS
    then u.failedLoginAttempts == count && !Locked(u, start)
    else u.failedLoginAttempts >= MAX_FAILED_LOGIN_ATTEMPTS && u.lockedUntil.Some?
         && start + (count - MAX_FAILED_LOGIN_ATTEMPTS + 1) * ACCOUNT_LOCKOUT_DURATION_MS <= u.lockedUntil.value
         && u.lockedUntil.value <= now + ACCOUNT_LOCKOUT_DURATION_MS
  }

  lemma StepCounts(s: State, e: Event, user: UserId, start: Time, now: Time, count: nat, ttl: int)
    requires user in s.users && After(s.users[user], start, now, count)
    requires start <= now <= e.now && NoLoginBy(s, e, user, ttl)
    ensures var after := Step(s, e, ttl).0;
            user in after.users &&
            After(after.users[user], start, e.now, count + if Compares(s, e, user) then 1 else 0)
  {
    var found := if e.call.Login? then FindActiveByEmail(s.users, e.call.email, e.call.tenant) else None;
    if found == Some(user) && Compares(s, e, user) {
      assert Step(s, e, ttl).0.users[user] == FailedAttempt(s.users[user], e.now);
    }
  }

  /** What a run is after its first call. */
  lemma AfterFirstCall(s: State, now: Time, es: seq<Event>, user: UserId, ttl: int)
    requires es != [] && WellTimed(s, now, es, ttl) && NoLoginsBy(s, es, user, ttl)
    ensures var next, rest := Step(s, es[0], ttl).0, es[1..];
            Run(s, es, ttl) == Run(next, rest, ttl) && LastTime(now, es) == LastTime(es[0].now, rest)
            && Comparisons(s, es, user, ttl) == (if Compares(s, es[0], user) then 1 else 0) + Comparisons(next, rest, user, ttl)
            && WellTimed(next, es[0].now, rest, ttl) && NoLoginsBy(next, rest, user, ttl)
    ensures now <= es[0].now && NoLoginBy(s, es[0], user, ttl)
  {
  }

  lemma {:induction false} RunCounts(s: State, es: seq<Event>, user: UserId, start: Time, now: Time, count: nat, ttl: int)
    requires user in s.users && After(s.users[user], start, now, count)
    requires start <= now && WellTimed(s, now, es, ttl) && NoLoginsBy(s, es, user, ttl)
    ensures var end := Run(s, es, ttl);
            user in end.users &&
            After(end.users[user], start, LastTime(now, es), count + Comparisons(s, es, user, ttl))
    decreases |es|
  {
    if es != [] {
      var n := count + if Compares(s, es[0], user) then 1 else 0;
      AfterFirstCall(s, now, es, user, ttl);
      StepCounts(s, es[0], user, start, now, count, ttl);
      RunCounts(Step(s, es[0], ttl).0, es[1..], user, start, es[0].now, n, ttl);
    }
  }

  lemma {:induction false} RunMovesForward(s: State, now: Time, es: seq<Event>, ttl: int)
    requires WellTimed(s, now, es, ttl)
    ensures now <= LastTime(now, es)
  {
    if es != [] { TimesBounded(s, now, es, ttl); }
  }

  lemma AfterIsBounded(u: User, start: Time, now: Time, count: nat)
    requires After(u, start, now, count) && start <= now
    ensures count <= MAX_FAILED_LOGIN_ATTEMPTS + (now - start) / ACCOUNT_LOCKOUT_DURATION_MS
  {
  }

  /**
   Whatever else happens in a run, with no successful login an account that starts unlocked and
   without failures is compared against at most five passwords, plus one per whole lockout duration.
   */
  lemma GuessesAreBounded(s: State, now: Time, es: seq<Event>, user: UserId, ttl: int)
    requires user in s.users && s.users[user].failedLoginAttempts == 0 && !Locked(s.users[user], now)
    requires WellTimed(s, now, es, ttl) && NoLoginsBy(s, es, user, ttl)
    ensures Comparisons(s, es, user, ttl)
         <= MAX_FAILED_LOGIN_ATTEMPTS + (LastTime(now, es) - now) / ACCOUNT_LOCKOUT_DURATION_MS
  {
    RunCounts(s, es, user, now, now, 0, ttl);
    RunMovesForward(s, now, es, ttl);
    AfterIsBounded(Run(s, es, ttl).users[user], now, LastTime(now, es), Comparisons(s, es, user, ttl));
  }

  // ---- the bound is exact ----

  ghost predicate OnlyMatch(users: Users, user: UserId) {
    user in users && !users[user].deleted
    && forall other :: other in users && MatchesEmail(users[other], users[user].email, users[user].tenantId) ==> other == user
  }

  function Guess(u: User, now: Time): Event {
    Event(now, Login(u.email, u.tenantId, false, 0))
  }

  /** Waits among the next `guesses`, when `failures` have gone before: one before each guess after the fifth failure. */
  function Waits(failures: nat, guesses: nat): nat
    decreases guesses
  {
    if guesses <= 1 then 0
    else (if failures + 1 >= MAX_FAILED_LOGIN_ATTEMPTS then 1 else 0) + Waits(failures + 1, guesses - 1)
  }

  lemma {:induction false} WaitsOnceLocked(failures: nat, guesses: nat)
    requires failures >= MAX_FAILED_LOGIN_ATTEMPTS - 1 && guesses >= 1
    ensures Waits(failures, guesses) == guesses - 1
    decreases guesses
  {
    if guesses > 1 { WaitsOnceLocked(failures + 1, guesses - 1); }
  }

  lemma {:induction false} PatientGuesses(s: State, now: Time, user: UserId, guesses: nat, ttl: int) returns (es: seq<Event>)
    requires OnlyMatch(s.users, user) && s.users[user].passwordHash.Some? && !Locked(s.users[user], now)
    requires s.users[user].failedLoginAttempts >= 0 && guesses >= 1
    ensures es != [] && es[0].now == now && NoLoginsBy(s, es, user, ttl) && WellTimed(s, now, es, ttl)
    ensures Comparisons(s, es, user, ttl) == guesses
    ensures LastTime(now, es) == now + Waits(s.users[user].failedLoginAttempts, guesses) * ACCOUNT_LOCKOUT_DURATION_MS
    decreases guesses
  {
    var e := Guess(s.users[user], now);
    var after := Step(s, e, ttl).0;
    if guesses == 1 {
      es := [e];
      assert NoLoginsBy(after, es[1..], user, ttl);
      assert Comparisons(after, es[1..], user, ttl) == 0;
    } else {
      var next := if s.users[user].failedLoginAttempts + 1 >= MAX_FAILED_LOGIN_ATTEMPTS
                  then now + ACCOUNT_LOCKOUT_DURATION_MS else now;
      var rest := PatientGuesses(after, next, user, guesses - 1, ttl);
      es := [e] + rest;
      assert es[1..] == rest;
    }
  }

  /** The bound is reached: for every `k`, some run of `k` lockout durations makes `5 + k` comparisons. */
  lemma GuessBoundIsReached(s: State, now: Time, user: UserId, k: nat, ttl: int) returns (es: seq<Event>)
    requires OnlyMatch(s.users, user) && s.users[user].passwordHash.Some?
    requires s.users[user].failedLoginAttempts == 0 && !Locked(s.users[user], now)
    ensures WellTimed(s, now, es, ttl) && NoLoginsBy(s, es, user, ttl)
    ensures LastTime(now, es) - now == k * ACCOUNT_LOCKOUT_DURATION_MS
    ensures Comparisons(s, es, user, ttl)
         == MAX_FAILED_LOGIN_ATTEMPTS + (LastTime(now, es) - now) / ACCOUNT_LOCKOUT_DURATION_MS
  {
    es := PatientGuesses(s, now, user, MAX_FAILED_LOGIN_ATTEMPTS + k, ttl);
    WaitsOnceLocked(4, k + 1);
    assert Waits(3, k + 2) == k;
    assert Waits(2, k + 3) == k;
    assert Waits(1, k + 4) == k;
    assert Waits(0, k + 5) == k;
  }

  // ---- and the owner is not locked out for longer ----

  /** All of an account but its counters. */
  ghost predicate SameAccounts(before: Users, after: Users) {
    after.Keys == before.Keys
    && forall id :: id in before ==>
         after[id] == before[id].(failedLoginAttempts := after[id].failedLoginAttempts, lockedUntil := after[id].lockedUntil)
  }

  lemma {:induction false} RunKeepsAccounts(s: State, es: seq<Event>, ttl: int)
    ensures SameAccounts(s.users, Run(s, es, ttl).users)
    decreases |es|
  {
    if es != [] {
      if es[0].call.Login? { LoginShape(s, es[0], ttl); }
      RunKeepsAccounts(Step(s, es[0], ttl).0, es[1..], ttl);
    }
  }

  lemma SameAccountsStayUnique(before: Users, after: Users)
    requires UniqueEmails(before) && SameAccounts(before, after)
    ensures UniqueEmails(after)
  {
    forall a, b | a in after && b in after && !after[a].deleted && MatchesEmail(after[b], after[a].email, after[a].tenantId)
      ensures a == b
    {
      assert MatchesEmail(before[b], before[a].email, before[a].tenantId);
    }
  }

  /**
   However many wrong guesses a run made: from fifteen minutes after its last call on, the owner's
   right password is accepted.
   */
  lemma OwnerGetsIn(s: State, now: Time, es: seq<Event>, user: UserId, later: Time, oldest: SessionId, ttl: int)
    requires UniqueEmails(s.users) && user in s.users && !s.users[user].deleted && s.users[user].passwordHash.Some?
    requires s.users[user].failedLoginAttempts == 0 && !Locked(s.users[user], now)
    requires WellTimed(s, now, es, ttl) && NoLoginsBy(s, es, user, ttl)
    requires LastTime(now, es) + 15 * 60 * 1000 <= later
    ensures LoginStep(Run(s, es, ttl), later, s.users[user].email, s.users[user].tenantId, true, oldest, ttl).1.Issued?
  {
    var end := Run(s, es, ttl);
    RunCounts(s, es, user, now, now, 0, ttl);
    RunMovesForward(s, now, es, ttl);
    RunKeepsAccounts(s, es, ttl);
    SameAccountsStayUnique(s.users, end.users);
    assert MayTry(end.users[user], s.users[user].email, s.users[user].tenantId, later);
    LoginOutcome(end, later, s.users[user].email, s.users[user].tenantId, true, oldest, ttl);
  }
}
