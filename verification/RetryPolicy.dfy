/** Exponential backoff with a cap. */
module RetryPolicy {

  datatype RetryPolicy = RetryPolicy(maxAttempts: int, baseDelayMs: nat, maxDelayMs: nat)

  const DEFAULT_RETRY_POLICY := RetryPolicy(3, 1000, 30_000)
  const DB_TRANSACTION_RETRY_POLICY := RetryPolicy(3, 20, 200)

  function Pow2(n: nat): nat {
    if n == 0 then 1 else 2 * Pow2(n - 1)
  }

  function Min(a: int, b: int): int { if a <= b then a else b }

  function Max(a: int, b: int): int { if a >= b then a else b }

  /** The wait after attempt `attempt` (counted from 1) has failed. */
  function DelayBeforeNextAttemptMs(policy: RetryPolicy, attempt: nat): int
    requires attempt >= 1
  {
    Min(policy.baseDelayMs * Pow2(attempt - 1), policy.maxDelayMs)
  }

  predicate HasAttemptsRemaining(policy: RetryPolicy, attempt: nat) {
    attempt < policy.maxAttempts
  }

  /** The waits of a caller that needed `attempts` attempts. */
  function Delays(policy: RetryPolicy, attempts: nat): (ds: seq<int>)
    ensures |ds| == if attempts == 0 then 0 else attempts - 1
    ensures forall i :: 0 <= i < |ds| ==> ds[i] == DelayBeforeNextAttemptMs(policy, i + 1)
  {
    if attempts <= 1 then [] else Delays(policy, attempts - 1) + [DelayBeforeNextAttemptMs(policy, attempts - 1)]
  }

  function Sum(s: seq<int>): int {
    if s == [] then 0 else Sum(s[..|s| - 1]) + s[|s| - 1]
  }

  lemma {:induction false} Pow2Monotone(m: nat, n: nat)
    requires m <= n
    ensures Pow2(m) <= Pow2(n)
  {
    if m < n { Pow2Monotone(m, n - 1); }
  }

  /** The first wait is the base, each further one twice the one before it, and the cap cuts what exceeds it. */
  lemma WaitsDouble(policy: RetryPolicy, attempt: nat)
    requires attempt >= 1
    ensures DelayBeforeNextAttemptMs(policy, 1) == if policy.baseDelayMs <= policy.maxDelayMs then policy.baseDelayMs else policy.maxDelayMs
    ensures var doubled := 2 * DelayBeforeNextAttemptMs(policy, attempt);
            DelayBeforeNextAttemptMs(policy, attempt + 1) == if doubled <= policy.maxDelayMs then doubled else policy.maxDelayMs
  {
    var p := Pow2(attempt - 1);
    assert Pow2(attempt) == 2 * p;
    assert policy.baseDelayMs * (2 * p) == 2 * (policy.baseDelayMs * p);
    assert policy.baseDelayMs * p >= 0;
  }

  /** The waits of the two policies: 20 and 40 milliseconds, one and two seconds. */
  lemma WaitsOfThreeAttempts()
    ensures Delays(DB_TRANSACTION_RETRY_POLICY, 3) == [20, 40]
    ensures Delays(DEFAULT_RETRY_POLICY, 3) == [1000, 2000]
  {
    assert Pow2(1) == 2;
    assert |Delays(DB_TRANSACTION_RETRY_POLICY, 3)| == 2 && |Delays(DEFAULT_RETRY_POLICY, 3)| == 2;
  }

  /** Later waits are never shorter, and none exceeds the cap. */
  lemma DelaysNeverShrink(policy: RetryPolicy, earlier: nat, later: nat)
    requires 1 <= earlier <= later
    ensures DelayBeforeNextAttemptMs(policy, earlier) <= DelayBeforeNextAttemptMs(policy, later) <= policy.maxDelayMs
  {
    Pow2Monotone(earlier - 1, later - 1);
    assert policy.baseDelayMs * Pow2(earlier - 1) <= policy.baseDelayMs * Pow2(later - 1);
  }

  lemma GeometricStep(base: int, p: int)
    ensures base * (p - 1) + base * p == base * (2 * p - 1)
  {
  }

  /** One more wait adds the doubled base to one bound and the cap to the other. */
  lemma AddWait(base: int, cap: int, p: int, k: int, total: int, wait: int)
    requires total <= base * (p - 1) && total <= (k - 1) * cap
    requires wait <= base * p && wait <= cap
    ensures total + wait <= base * (2 * p - 1) && total + wait <= k * cap
  {
    GeometricStep(base, p);
  }

  lemma DelaysStep(policy: RetryPolicy, attempts: nat)
    requires attempts > 1
    ensures Sum(Delays(policy, attempts))
         == Sum(Delays(policy, attempts - 1)) + DelayBeforeNextAttemptMs(policy, attempts - 1)
  {
    var ds := Delays(policy, attempts);
    assert ds[..|ds| - 1] == Delays(policy, attempts - 1);
  }

  /** All the waiting of `attempts` attempts: within the geometric sum, and within the cap times the waits. */
  lemma {:induction false} TotalDelayBound(policy: RetryPolicy, attempts: nat)
    requires attempts >= 1
    ensures Sum(Delays(policy, attempts)) <= policy.baseDelayMs * (Pow2(attempts - 1) - 1)
    ensures Sum(Delays(policy, attempts)) <= (attempts - 1) * policy.maxDelayMs
    decreases attempts
  {
    if attempts > 1 {
      var before, wait := Sum(Delays(policy, attempts - 1)), DelayBeforeNextAttemptMs(policy, attempts - 1);
      var p: int, k: int := Pow2(attempts - 2), attempts - 1;
      assert before <= policy.baseDelayMs * (p - 1) && before <= (k - 1) * policy.maxDelayMs by {
        TotalDelayBound(policy, attempts - 1);
      }
      DelaysStep(policy, attempts);
      AddWait(policy.baseDelayMs, policy.maxDelayMs, p, k, before, wait);
      assert Pow2(attempts - 1) == 2 * p;
    }
  }

  lemma AddUncappedWait(base: int, p: int, total: int, wait: int)
    requires total == base * (p - 1) && wait == base * p
    ensures total + wait == base * (2 * p - 1)
  {
    GeometricStep(base, p);
  }

  /** The geometric bound is exact for as long as the cap cuts no wait short. */
  lemma {:induction false} TotalDelayUncapped(policy: RetryPolicy, attempts: nat)
    requires attempts >= 1
    requires forall k: nat :: 1 <= k < attempts ==> DelayBeforeNextAttemptMs(policy, k) == policy.baseDelayMs * Pow2(k - 1)
    ensures Sum(Delays(policy, attempts)) == policy.baseDelayMs * (Pow2(attempts - 1) - 1)
    decreases attempts
  {
    if attempts > 1 {
      TotalDelayUncapped(policy, attempts - 1);
      DelaysStep(policy, attempts);
      AddUncappedWait(policy.baseDelayMs, Pow2(attempts - 2), Sum(Delays(policy, attempts - 1)),
                      DelayBeforeNextAttemptMs(policy, attempts - 1));
    }
  }
}
