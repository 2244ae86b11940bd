/** What a failed attempt turns into, told by its error alone, and whether its request can still succeed. */
module FailedAttempts {
  import opened Basics
  import opened PrismaClient
  import opened TenantTransactions
  import opened TenantInvariant
  import opened CommitOnce
  import PrismaErrors

  /** The steps in which an attempt of a request fails. */
  predicate Fails(step: Step) {
    step.Abort? || step.CannotBegin? || step.CommitLost?
  }

  /** Worth another attempt after this one, counted from 1: transient, no statement timeout, and one of three is left. */
  predicate WorthAnother(error: Js, attempt: nat) {
    PrismaErrors.IsRetryableTransactionError(error) && !PrismaErrors.IsStatementTimeoutError(error) && attempt < 3
  }

  // ---- one failed attempt ----

  /**
   A failed attempt makes its request wait for the next one if and only if its error is worth it,
   and ends the request otherwise. If it failed before its commit nothing else has happened, except
   that the connection of an aborted transaction is free again.
   */
  lemma FailedAttemptBecomes(s: State, step: Step)
    requires Inv(s) && Enabled(s, step) && Fails(step)
    ensures step.r < |s.requests|
    ensures var was := s.requests[step.r];
            Next(s, step).requests
            == s.requests[step.r := if PrismaErrors.IsRetryableTransactionError(step.error)
                                       && !PrismaErrors.IsStatementTimeoutError(step.error) && was.attempt < 3
                                    then Running(was.request, Waiting, was.attempt + 1)
                                    else Running(was.request, Done(false), was.attempt)]
    ensures !step.CommitLost? ==>
              Next(s, step).rows == s.rows && Next(s, step).commits == s.commits && Next(s, step).log == s.log
    ensures step.CannotBegin? ==> Next(s, step).connections == s.connections
    ensures step.Abort? ==>
              Next(s, step).connections
              == s.connections[ConnOf(s, step.r) := Connection(s.deployment.opener, None, None)]
  {
    if step.Abort? { assert ConnectionOk(s, ConnOf(s, step.r)) && RequestOk(s, step.r); }
  }

  // ---- every run: failure is reported exactly when the last error was not worth another attempt ----

  /** The error that an attempt of a request fails with in this step, if one does. */
  function ErrorOf(step: Step, r: nat): seq<Js> {
    if Fails(step) && step.r == r then [step.error] else []
  }

  /** The errors that attempts of a request failed with, in order. */
  function Errors(steps: seq<Step>, r: nat): seq<Js> {
    if steps == [] then [] else ErrorOf(steps[0], r) + Errors(steps[1..], r)
  }

  lemma Regroup(errors: seq<Js>, steps: seq<Step>, r: nat)
    requires steps != []
    ensures errors + Errors(steps, r) == errors + ErrorOf(steps[0], r) + Errors(steps[1..], r)
  {
    assert errors + (ErrorOf(steps[0], r) + Errors(steps[1..], r)) == errors + ErrorOf(steps[0], r) + Errors(steps[1..], r);
  }

  /** Where a request stands after attempts that failed with these errors. */
  ghost predicate After(running: Running, errors: seq<Js>) {
    (forall i :: 0 <= i < |errors| - 1 ==> WorthAnother(errors[i], i + 1))
    && (running.phase == Done(false) <==> errors != [] && !WorthAnother(errors[|errors| - 1], |errors|))
    && running.attempt == |errors| + if running.phase == Done(false) then 0 else 1
  }

  /** A request that is not known yet has not failed yet. */
  ghost predicate Stands(s: State, r: nat, errors: seq<Js>) {
    if r < |s.requests| then Transactional(s.requests[r].request) ==> After(s.requests[r], errors) else errors == []
  }

  lemma FailureCounted(s: State, step: Step, errors: seq<Js>)
    requires Inv(s) && Enabled(s, step) && Fails(step) && step.r < |s.requests| && After(s.requests[step.r], errors)
    ensures After(Next(s, step).requests[step.r], errors + [step.error])
  {
    FailedAttemptBecomes(s, step);
    var longer := errors + [step.error];
    forall i | 0 <= i < |longer| - 1 ensures WorthAnother(longer[i], i + 1) {
      assert longer[i] == errors[i];
    }
  }

  /** A step that is no failure of the request leaves it where it stood. */
  lemma OtherwiseStands(s: State, step: Step, r: nat, errors: seq<Js>)
    requires Inv(s) && Enabled(s, step) && r < |s.requests| && Transactional(s.requests[r].request)
    requires After(s.requests[r], errors) && !(Fails(step) && step.r == r)
    ensures r < |Next(s, step).requests| && After(Next(s, step).requests[r], errors)
  {
    if step.Submit? || step.r != r { OthersUntouched(s, step, r); }
  }

  lemma StandsKept(s: State, step: Step, r: nat, errors: seq<Js>)
    requires Inv(s) && Enabled(s, step) && Stands(s, r, errors)
    ensures Stands(Next(s, step), r, errors + ErrorOf(step, r))
  {
    assert errors + [] == errors;
    if r < |s.requests| {
      SameRequests(s, step, r);
      if Transactional(s.requests[r].request) {
        if Fails(step) && step.r == r { FailureCounted(s, step, errors); } else { OtherwiseStands(s, step, r, errors); }
      }
    }
  }

  lemma {:induction false} StandsThroughout(s: State, steps: seq<Step>, end: State, r: nat, errors: seq<Js>)
    requires Inv(s) && Runs(s, steps, end) && Stands(s, r, errors)
    ensures Stands(end, r, errors + Errors(steps, r))
    decreases |steps|
  {
    if steps == [] {
      assert errors + [] == errors;
    } else {
      Regroup(errors, steps, r);
      StepKeepsInv(s, steps[0]);
      StandsKept(s, steps[0], r, errors);
      StandsThroughout(Next(s, steps[0]), steps[1..], end, r, errors + ErrorOf(steps[0], r));
    }
  }

  /**
   In every run: each error of a request but the last was worth another attempt, the request reports
   failure if and only if the last was not, and it is in the attempt after those that failed.
   */
  lemma FailureReportedIff(s: State, steps: seq<Step>, end: State, r: nat)
    requires Deployed(s) && Runs(s, steps, end) && r < |end.requests| && Transactional(end.requests[r].request)
    ensures var errors := Errors(steps, r);
            (end.requests[r].phase == Done(false) <==> errors != [] && !WorthAnother(errors[|errors| - 1], |errors|))
            && (forall i :: 0 <= i < |errors| - 1 ==> WorthAnother(errors[i], i + 1))
            && end.requests[r].attempt == |errors| + if end.requests[r].phase == Done(false) then 0 else 1
  {
    StandsThroughout(s, steps, end, r, []);
    assert [] + Errors(steps, r) == Errors(steps, r);
  }

  // ---- whether the request can still succeed ----

  ghost predicate CanSucceed(s: State, r: nat) {
    exists steps, end :: Runs(s, steps, end) && Succeeded(end, r)
  }

  lemma {:induction false} FailedForGood(s: State, steps: seq<Step>, end: State, r: nat)
    requires Inv(s) && Runs(s, steps, end) && r < |s.requests| && s.requests[r].phase == Done(false)
    ensures r < |end.requests| && end.requests[r].phase == Done(false)
    decreases |steps|
  {
    if steps != [] {
      StepKeepsInv(s, steps[0]);
      FailedForGood(Next(s, steps[0]), steps[1..], end, r);
    }
  }

  lemma DoneCannotSucceed(s: State, r: nat)
    requires Inv(s) && r < |s.requests| && s.requests[r].phase == Done(false)
    ensures !CanSucceed(s, r)
  {
    forall steps, end | Runs(s, steps, end) ensures !Succeeded(end, r) {
      FailedForGood(s, steps, end, r);
    }
  }

  /**
   After an abort the request can still succeed if and only if the error is worth another attempt;
   provided that its program, run again by itself over the table, completes.
   */
  lemma AbortedCanSucceedIff(s: State, r: nat, error: Js, seen: seq<Answer>)
    requires Inv(s) && Enabled(s, Abort(r, error))
    requires Alone(s.deployment, s.requests[r].request, s.rows, seen) && Decide(s.requests[r].request, seen).Finish?
    ensures CanSucceed(Next(s, Abort(r, error)), r)
       <==> PrismaErrors.IsRetryableTransactionError(error) && !PrismaErrors.IsStatementTimeoutError(error)
            && s.requests[r].attempt < 3
  {
    var after := Next(s, Abort(r, error));
    assert RequestOk(s, r);
    FailedAttemptBecomes(s, Abort(r, error));
    StepKeepsInv(s, Abort(r, error));
    if WorthAnother(error, s.requests[r].attempt) {
      var steps, end := CommitsFromWaiting(after, r, ConnOf(s, r), seen);
    } else {
      DoneCannotSucceed(after, r);
    }
  }

  /** The same of an attempt whose transaction could not be opened, given a connection that is free afterwards. */
  lemma RefusedCanSucceedIff(s: State, r: nat, c: nat, error: Js, seen: seq<Answer>)
    requires Inv(s) && Enabled(s, CannotBegin(r, error)) && Enabled(s, Begin(r, c))
    requires Alone(s.deployment, s.requests[r].request, s.rows, seen) && Decide(s.requests[r].request, seen).Finish?
    ensures CanSucceed(Next(s, CannotBegin(r, error)), r)
       <==> PrismaErrors.IsRetryableTransactionError(error) && !PrismaErrors.IsStatementTimeoutError(error)
            && s.requests[r].attempt < 3
  {
    var after := Next(s, CannotBegin(r, error));
    FailedAttemptBecomes(s, CannotBegin(r, error));
    StepKeepsInv(s, CannotBegin(r, error));
    if WorthAnother(error, s.requests[r].attempt) {
      var steps, end := CommitsFromWaiting(after, r, c, seen);
    } else {
      DoneCannotSucceed(after, r);
    }
  }

  // ---- a deadlock counts once ----

  /** What the driver adapter throws for SQLSTATE 40P01. */
  const DEADLOCK := PrismaErrors.Object(map["name" := PrismaErrors.Str("DriverAdapterError"),
                                            "cause" := PrismaErrors.Object(map["code" := PrismaErrors.Str("40P01")])])

  lemma DeadlockIsWorthAnother(attempt: nat)
    ensures WorthAnother(DEADLOCK, attempt) <==> attempt < 3
  {
    var cause := PrismaErrors.Field(DEADLOCK, "cause");
    assert PrismaErrors.ExtractDriverAdapterErrorCause(DEADLOCK) == Some(cause);
    assert PrismaErrors.Field(cause, "code") == PrismaErrors.Str("40P01");
  }

  /** The transaction of a request that has just begun its first attempt is aborted by a deadlock. */
  lemma DeadlockedAndWaiting(s: State, r: nat, c: nat) returns (steps: seq<Step>, end: State)
    requires Inv(s) && Enabled(s, Begin(r, c)) && s.requests[r].attempt == 1
    ensures Runs(s, steps, end) && Inv(end) && Enabled(end, Begin(r, c)) && end.deployment == s.deployment
    ensures end.requests == s.requests[r := Running(s.requests[r].request, Waiting, 2)]
    ensures end.rows == s.rows && end.commits == s.commits
  {
    var begun := Next(s, Begin(r, c));
    StepKeepsInv(s, Begin(r, c));
    DeadlockIsWorthAnother(1);
    FailedAttemptBecomes(begun, Abort(r, DEADLOCK));
    StepKeepsInv(begun, Abort(r, DEADLOCK));
    assert Runs(s, [], s);
    Follow(s, [], s, Begin(r, c));
    Follow(s, [] + [Begin(r, c)], begun, Abort(r, DEADLOCK));
    steps, end := [] + [Begin(r, c)] + [Abort(r, DEADLOCK)], Next(begun, Abort(r, DEADLOCK));
  }

  /** A counter whose first attempt deadlocks is tried again: the request succeeds once and has counted once. */
  lemma DeadlockCountsOnce(s: State, row: RowKey, c: nat) returns (steps: seq<Step>, end: State)
    requires Deployed(s) && c < |s.connections| && s.connections[c].client == s.deployment.opener
    requires row.tenant != "" && HasPlain(s.deployment.opener, row.model)
    ensures Runs(s, steps, end) && |end.requests| == 1
    ensures end.requests[0] == Running(Increment(row.tenant, row), Done(true), 2)
    ensures CommitsOf(end.commits, 0) == 1 && end.rows == map[row := 1]
  {
    var request := Increment(row.tenant, row);
    var submitted := Next(s, Submit(request));
    StepKeepsInv(s, Submit(request));
    var first, waiting := DeadlockedAndWaiting(submitted, 0, c);
    var second, last := IncrementAgain(waiting, row, c);
    RunsAppend(submitted, first, waiting, second, last);
    SubmitFirst(s, request, first + second, last);
    steps, end := [Submit(request)] + (first + second), last;
  }
}
