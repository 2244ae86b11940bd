/** Running a job with retries, and the dead-letter store behind it. */
module Jobs {
  import opened Basics
  import opened RetryPolicy

  datatype JobContext = JobContext(jobId: string, attempt: nat, scheduledAt: int)
  datatype DeadLetterEntry = DeadLetterEntry(jobName: string, context: JobContext, error: string, failedAt: int)
  datatype JobResult = Succeeded(attempts: nat) | DeadLetter(attempts: nat, error: string)

  /** Process-local entries, with the gauge that monitoring reads. */
  class InMemoryDeadLetterStore {
    var entries: seq<DeadLetterEntry>
    var gauge: int

    constructor ()
      ensures Valid() && entries == []
    {
      entries, gauge := [], 0;
    }

    /** The gauge shows the store's length. */
    predicate Valid()
      reads this
    {
      gauge == |entries|
    }

    method Record(entry: DeadLetterEntry)
      modifies this
      ensures Valid() && entries == old(entries) + [entry]
    {
      entries := entries + [entry];
      gauge := |entries|;
    }

    method List() returns (copy: seq<DeadLetterEntry>)
      ensures copy == entries
    {
      copy := entries;
    }

    method Clear()
      modifies this
      ensures Valid() && entries == []
    {
      entries := [];
      gauge := |entries|;
    }
  }

  /** Every attempt before `attempts` failed. */
  predicate AllFailed(execute: nat -> Option<string>, attempts: nat) {
    forall n :: 1 <= n <= attempts ==> execute(n).Some?
  }

  class JobRunner {
    const deadLetters: InMemoryDeadLetterStore

    constructor (deadLetters: InMemoryDeadLetterStore)
      ensures this.deadLetters == deadLetters
    {
      this.deadLetters := deadLetters;
    }

    /** `execute(n)` is the error of attempt `n`, if it fails; `clock(n)` the time it has failed by. */
    method Run(jobName: string, jobId: string, scheduledAt: int, execute: nat -> Option<string>, clock: nat -> int,
               policy: RetryPolicy)
      returns (result: JobResult, waits: seq<int>)
      requires deadLetters.Valid()
      modifies deadLetters
      ensures deadLetters.Valid()
      ensures 1 <= result.attempts <= Max(1, policy.maxAttempts)
      ensures AllFailed(execute, result.attempts - 1)
      ensures result.Succeeded? ==> execute(result.attempts).None? && deadLetters.entries == old(deadLetters.entries)
      ensures result.DeadLetter? ==>
                result.attempts == Max(1, policy.maxAttempts) && execute(result.attempts) == Some(result.error)
                && deadLetters.entries == old(deadLetters.entries)
                   + [DeadLetterEntry(jobName, JobContext(jobId, result.attempts, scheduledAt), result.error, clock(result.attempts))]
      ensures waits == Delays(policy, result.attempts)
    {
      var attempt := 1;
      waits := [];
      while true
        invariant 1 <= attempt <= Max(1, policy.maxAttempts)
        invariant AllFailed(execute, attempt - 1) && waits == Delays(policy, attempt)
        invariant deadLetters.Valid() && deadLetters.entries == old(deadLetters.entries)
        decreases policy.maxAttempts - attempt
      {
        var context := JobContext(jobId, attempt, scheduledAt);
        match execute(attempt)
        case None =>
          return Succeeded(attempt), waits;
        case Some(message) =>
          if !HasAttemptsRemaining(policy, attempt) {
            deadLetters.Record(DeadLetterEntry(jobName, context, message, clock(attempt)));
            return DeadLetter(attempt, message), waits;
          }
          waits := waits + [DelayBeforeNextAttemptMs(policy, attempt)];
          attempt := attempt + 1;
      }
    }
  }
}
