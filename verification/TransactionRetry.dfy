/** Retrying a whole transaction on transient failure. */
module TransactionRetry {
  import opened PrismaErrors
  import opened RetryPolicy
  import opened Basics

  /**
   One attempt: it returns from a commit, or throws. A transaction that throws has normally
   committed nothing; when the acknowledgement of its commit is lost it has, and `tookEffect`
   holds the state it left.
   */
  datatype Outcome<T, Db> = Returned(value: T, committed: Db) | Threw(error: Js, tookEffect: Option<Db>)

  datatype Result<T> = Ok(value: T) | Err(error: Js)

  datatype Metric = Retried | SucceededAfterRetry | Exhausted | TimedOut

  /** The error of attempt `n` ends the loop. */
  predicate Terminal(error: Js, policy: RetryPolicy, n: nat) {
    IsStatementTimeoutError(error) || !IsRetryableTransactionError(error) || !HasAttemptsRemaining(policy, n)
  }

  function Left<T, Db>(outcome: Outcome<T, Db>, db: Db): Db {
    match outcome
    case Returned(_, committed) => committed
    case Threw(_, Some(committed)) => committed
    case Threw(_, None) => db
  }

  /** The database that attempt `n`, counted from 1, finds. */
  function Before<T, Db>(attempt: (nat, Db) -> Outcome<T, Db>, db: Db, n: nat): Db
    requires n >= 1
    decreases n, 0
  {
    if n == 1 then db else Left(Attempt(attempt, db, n - 1), Before(attempt, db, n - 1))
  }

  function Attempt<T, Db>(attempt: (nat, Db) -> Outcome<T, Db>, db: Db, n: nat): Outcome<T, Db>
    requires n >= 1
    decreases n, 1
  {
    attempt(n, Before(attempt, db, n))
  }

  /** Attempt `n` failed in a way that is retried. */
  predicate Retries<T, Db>(attempt: (nat, Db) -> Outcome<T, Db>, db: Db, policy: RetryPolicy, n: nat)
    requires n >= 1
  {
    Attempt(attempt, db, n).Threw? && !Terminal(Attempt(attempt, db, n).error, policy, n)
  }

  function Repeat(m: Metric, n: nat): (r: seq<Metric>)
    ensures |r| == n && forall i :: 0 <= i < n ==> r[i] == m
  {
    if n == 0 then [] else Repeat(m, n - 1) + [m]
  }

  /** What is recorded after the retries, by how the last attempt ended. */
  function LastMetric<T, Db>(last: Outcome<T, Db>, n: nat): seq<Metric> {
    if last.Returned? then (if n > 1 then [SucceededAfterRetry] else [])
    else if IsStatementTimeoutError(last.error) then [TimedOut]
    else if !IsRetryableTransactionError(last.error) then []
    else [Exhausted]
  }

  /** What the caller is told by how the last attempt ended. */
  function Report<T, Db>(last: Outcome<T, Db>): Result<T> {
    if last.Returned? then Ok(last.value) else Err(last.error)
  }

  /**
   The loop stops at the first attempt that does not retry, reports how that one ended, and leaves
   the database as that one left it. Each retry is recorded and waited for once.
   */
  method WithTransactionRetry<T, Db>(attempt: (nat, Db) -> Outcome<T, Db>, db: Db, policy: RetryPolicy)
    returns (result: Result<T>, after: Db, attempts: nat, metrics: seq<Metric>, waits: seq<int>)
    ensures 1 <= attempts <= Max(1, policy.maxAttempts)
    ensures forall n :: 1 <= n < attempts ==> Retries(attempt, db, policy, n)
    ensures !Retries(attempt, db, policy, attempts)
    ensures result == Report(Attempt(attempt, db, attempts)) && after == Before(attempt, db, attempts + 1)
    ensures metrics == Repeat(Retried, attempts - 1) + LastMetric(Attempt(attempt, db, attempts), attempts)
    ensures waits == Delays(policy, attempts)
  {
    attempts, metrics, waits, after := 1, [], [], db;
    while true
      invariant 1 <= attempts <= Max(1, policy.maxAttempts)
      invariant forall n :: 1 <= n < attempts ==> Retries(attempt, db, policy, n)
      invariant metrics == Repeat(Retried, attempts - 1) && waits == Delays(policy, attempts)
      invariant after == Before(attempt, db, attempts)
      decreases policy.maxAttempts - attempts
    {
      var outcome := attempt(attempts, after);
      after := Left(outcome, after);
      match outcome
      case Returned(value, _) =>
        if attempts > 1 {
          metrics := metrics + [SucceededAfterRetry];
        }
        return Ok(value), after, attempts, metrics, waits;
      case Threw(error, _) =>
        if IsStatementTimeoutError(error) {
          return Err(error), after, attempts, metrics + [TimedOut], waits;
        }
        if !IsRetryableTransactionError(error) {
          return Err(error), after, attempts, metrics, waits;
        }
        if !HasAttemptsRemaining(policy, attempts) {
          return Err(error), after, attempts, metrics + [Exhausted], waits;
        }
        metrics := metrics + [Retried];
        waits := waits + [DelayBeforeNextAttemptMs(policy, attempts)];
        attempts := attempts + 1;
    }
  }

  /** The stopping attempt is unique, so the outcome above is the only one the contract allows. */
  lemma StoppingAttemptUnique<T, Db>(attempt: (nat, Db) -> Outcome<T, Db>, db: Db, policy: RetryPolicy, a: nat, b: nat)
    requires a >= 1 && b >= 1
    requires !Retries(attempt, db, policy, a) && forall n :: 1 <= n < a ==> Retries(attempt, db, policy, n)
    requires !Retries(attempt, db, policy, b) && forall n :: 1 <= n < b ==> Retries(attempt, db, policy, n)
    ensures a == b
  {
  }

  /** An attempt is repeated exactly when it threw a transient error that is no statement timeout, with attempts left. */
  lemma RetriesIff<T, Db>(attempt: (nat, Db) -> Outcome<T, Db>, db: Db, policy: RetryPolicy, n: nat)
    requires n >= 1
    ensures Retries(attempt, db, policy, n)
       <==> Attempt(attempt, db, n).Threw? && n < policy.maxAttempts
            && IsRetryableTransactionError(Attempt(attempt, db, n).error) && !IsStatementTimeoutError(Attempt(attempt, db, n).error)
  {
  }

  /**
   What is recorded last tells how the loop ended: a success that took retries, a statement timeout, or
   transient failures in all of the attempts the policy allows; of a first success or any other error, nothing.
   */
  lemma LastMetricTells<T, Db>(attempt: (nat, Db) -> Outcome<T, Db>, db: Db, policy: RetryPolicy, attempts: nat)
    requires 1 <= attempts <= Max(1, policy.maxAttempts)
    requires !Retries(attempt, db, policy, attempts) && forall n :: 1 <= n < attempts ==> Retries(attempt, db, policy, n)
    ensures var last := Attempt(attempt, db, attempts);
            var metric := LastMetric(last, attempts);
            |metric| <= 1
            && (metric == [SucceededAfterRetry] <==> last.Returned? && attempts > 1)
            && (metric == [TimedOut] <==> last.Threw? && IsStatementTimeoutError(last.error))
            && (metric == [Exhausted]
                <==> attempts == Max(1, policy.maxAttempts)
                     && last.Threw? && IsRetryableTransactionError(last.error) && !IsStatementTimeoutError(last.error))
            && metric != [Retried]
  {
    RetriesIff(attempt, db, policy, attempts);
  }

  // ---- how often the database was changed ----

  predicate ThrewAfterCommit<T, Db>(attempt: (nat, Db) -> Outcome<T, Db>, db: Db, n: nat)
    requires n >= 1
  {
    Attempt(attempt, db, n).Threw? && Attempt(attempt, db, n).tookEffect.Some?
  }

  /** How many of the first `n` attempts took effect. */
  function Effects<T, Db>(attempt: (nat, Db) -> Outcome<T, Db>, db: Db, n: nat): nat {
    if n == 0 then 0
    else
      Effects(attempt, db, n - 1)
      + if Attempt(attempt, db, n).Returned? || ThrewAfterCommit(attempt, db, n) then 1 else 0
  }

  ghost predicate NoneThrewAfterCommit<T, Db>(attempt: (nat, Db) -> Outcome<T, Db>, db: Db, n: nat) {
    forall k {:trigger ThrewAfterCommit(attempt, db, k)} :: 1 <= k <= n ==> !ThrewAfterCommit(attempt, db, k)
  }

  lemma {:induction false} EffectsOfThrows<T, Db>(attempt: (nat, Db) -> Outcome<T, Db>, db: Db, policy: RetryPolicy, n: nat)
    requires forall k {:trigger Retries(attempt, db, policy, k)} :: 1 <= k <= n ==> Retries(attempt, db, policy, k)
    ensures Effects(attempt, db, n) == 0 <==> NoneThrewAfterCommit(attempt, db, n)
    ensures Effects(attempt, db, n) == 0 ==> Before(attempt, db, n + 1) == db
  {
    if n > 0 {
      EffectsOfThrows(attempt, db, policy, n - 1);
      assert Retries(attempt, db, policy, n);
    }
  }

  /**
   The exact condition: the report is true (one attempt took effect if it is a success, none if it
   is an error) if and only if no attempt threw after its commit had taken effect.
   */
  lemma ReportTrueIff<T, Db>(attempt: (nat, Db) -> Outcome<T, Db>, db: Db, policy: RetryPolicy, attempts: nat)
    requires attempts >= 1 && forall n :: 1 <= n < attempts ==> Retries(attempt, db, policy, n)
    ensures Effects(attempt, db, attempts) == (if Attempt(attempt, db, attempts).Returned? then 1 else 0)
       <==> NoneThrewAfterCommit(attempt, db, attempts)
  {
    EffectsOfThrows(attempt, db, policy, attempts - 1);
  }

  /**
   Refines one atomic transaction whenever a throwing attempt commits nothing: a success leaves
   what its one committed attempt made of the original database, an error leaves that database.
   */
  lemma OneAtomicTransaction<T, Db>(attempt: (nat, Db) -> Outcome<T, Db>, db: Db, policy: RetryPolicy, attempts: nat)
    requires attempts >= 1 && forall n :: 1 <= n < attempts ==> Retries(attempt, db, policy, n)
    requires forall n, before :: attempt(n, before).Threw? ==> attempt(n, before).tookEffect.None?
    ensures Attempt(attempt, db, attempts) == attempt(attempts, db)
    ensures Before(attempt, db, attempts + 1) == match attempt(attempts, db)
                                                 case Returned(_, committed) => committed
                                                 case Threw(_, _) => db
  {
    EffectsOfThrows(attempt, db, policy, attempts - 1);
    forall n | 1 <= n < attempts ensures !ThrewAfterCommit(attempt, db, n) {}
  }

  /** A connection reset while the first commit is acknowledged: one success, two changes. */
  lemma ResetChangesTwice(policy: RetryPolicy)
    requires policy.maxAttempts >= 2
    ensures var reset := Object(map["code" := Str("ECONNRESET")]);
            var attempt := (n: nat, count: int) =>
              if n == 1 then Threw(reset, Some(count + 1)) else Returned((), count + 1);
            Retries(attempt, 0, policy, 1) && !Retries(attempt, 0, policy, 2)
            && Report(Attempt(attempt, 0, 2)) == Ok(()) && Before(attempt, 0, 3) == 2 && Effects(attempt, 0, 2) == 2
  {
    var reset := Object(map["code" := Str("ECONNRESET")]);
    var attempt := (n: nat, count: int) =>
      if n == 1 then Threw(reset, Some(count + 1)) else Returned((), count + 1);
    assert Before(attempt, 0, 2) == 1;
    assert Effects(attempt, 0, 1) == 1;
  }

  /** A request never waits longer than 60 ms in all for the default database policy. */
  lemma DatabaseRetriesAreQuick(attempts: nat)
    requires 1 <= attempts <= Max(1, DB_TRANSACTION_RETRY_POLICY.maxAttempts)
    ensures Sum(Delays(DB_TRANSACTION_RETRY_POLICY, attempts)) <= 60
  {
    TotalDelayBound(DB_TRANSACTION_RETRY_POLICY, attempts);
    Pow2Monotone(attempts - 1, 2);
    assert Pow2(2) == 4;
  }
}
