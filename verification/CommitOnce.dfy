/** How often a request commits, when the acknowledgement of a commit may be lost. */
module CommitOnce {
  import opened Basics
  import opened PrismaClient
  import opened TenantTransactions
  import opened TenantInvariant
  import PrismaErrors

  // ---- what one step does to the count ----

  lemma OneCommitAtMost(s: State, step: Step, r: nat)
    requires Inv(s) && Enabled(s, step)
    ensures CommitsOf(Next(s, step).commits, r)
         == CommitsOf(s.commits, r) + if (step.CommitTxn? || step.CommitLost?) && step.r == r then 1 else 0
  {
    if step.Direct? {
      DirectWritesNothing(s, step.r, step.c);
    } else if step.CommitTxn? || step.CommitLost? {
      CommitsOfAppend(s.commits, Commit(step.r, TxnOf(s, step.r).seen, TxnOf(s, step.r).writes), r);
    }
  }

  lemma {:induction false} OnlyKnownRequestsCommit(s: State, n: nat, r: nat)
    requires CommitsOk(s) && n <= |s.commits| && r >= |s.requests|
    ensures CommitsOf(s.commits[..n], r) == 0
  {
    if n > 0 {
      OnlyKnownRequestsCommit(s, n - 1, r);
      assert CommitOk(s, n - 1);
      assert s.commits[..n][..n - 1] == s.commits[..n - 1];
    }
  }

  lemma UnknownNeverCommitted(s: State, r: nat)
    requires CommitsOk(s)
    ensures r >= |s.requests| ==> CommitsOf(s.commits, r) == 0
  {
    assert s.commits[..|s.commits|] == s.commits;
    if r >= |s.requests| { OnlyKnownRequestsCommit(s, |s.commits|, r); }
  }

  // ---- the report is truthful exactly when no acknowledgement is lost ----

  ghost predicate Succeeded(s: State, r: nat) {
    r < |s.requests| && s.requests[r].phase == Done(true) && Transactional(s.requests[r].request)
  }

  /** One commit if the request reports success, none as long as it does not. */
  ghost predicate Truthful(s: State, r: nat) {
    CommitsOf(s.commits, r) == if Succeeded(s, r) then 1 else 0
  }

  /** Every lost acknowledgement leaves one commit too many. */
  ghost predicate Overcommitted(s: State, r: nat) {
    CommitsOf(s.commits, r) > if Succeeded(s, r) then 1 else 0
  }

  ghost predicate LosesAnAcknowledgement(steps: seq<Step>, r: nat) {
    exists i :: 0 <= i < |steps| && steps[i].CommitLost? && steps[i].r == r
  }

  lemma TruthfulKept(s: State, step: Step, r: nat)
    requires Inv(s) && Enabled(s, step) && Truthful(s, r)
    ensures if step.CommitLost? && step.r == r then Overcommitted(Next(s, step), r) else Truthful(Next(s, step), r)
  {
    OneCommitAtMost(s, step, r);
    if r < |s.requests| { assert RequestOk(s, r); }
  }

  lemma OvercommittedKept(s: State, step: Step, r: nat)
    requires Inv(s) && Enabled(s, step) && Overcommitted(s, r)
    ensures Overcommitted(Next(s, step), r)
  {
    OneCommitAtMost(s, step, r);
    UnknownNeverCommitted(s, r);
    if r < |s.requests| { assert RequestOk(s, r); }
  }

  lemma {:induction false} OvercommittedForever(s: State, steps: seq<Step>, end: State, r: nat)
    requires Inv(s) && Runs(s, steps, end) && Overcommitted(s, r)
    ensures Overcommitted(end, r)
    decreases |steps|
  {
    if steps != [] {
      StepKeepsInv(s, steps[0]);
      OvercommittedKept(s, steps[0], r);
      OvercommittedForever(Next(s, steps[0]), steps[1..], end, r);
    }
  }

  lemma {:induction false} TruthfulUntilLost(s: State, steps: seq<Step>, end: State, r: nat)
    requires Inv(s) && Runs(s, steps, end) && Truthful(s, r)
    ensures if LosesAnAcknowledgement(steps, r) then Overcommitted(end, r) else Truthful(end, r)
    decreases |steps|
  {
    if steps != [] {
      var next := Next(s, steps[0]);
      StepKeepsInv(s, steps[0]);
      TruthfulKept(s, steps[0], r);
      if steps[0].CommitLost? && steps[0].r == r {
        OvercommittedForever(next, steps[1..], end, r);
      } else {
        TruthfulUntilLost(next, steps[1..], end, r);
      }
    }
  }

  /**
   Whatever aborts, retries and interleavings there were: a request has committed exactly once if
   it reports success and not at all if it does not, if and only if no acknowledgement of a commit
   of it was lost.
   */
  lemma ReportTruthfulIff(s: State, steps: seq<Step>, end: State, r: nat)
    requires Deployed(s) && Runs(s, steps, end)
    ensures Truthful(end, r) <==> !LosesAnAcknowledgement(steps, r)
  {
    TruthfulUntilLost(s, steps, end, r);
  }

  /** If a throwing attempt commits nothing, a request commits exactly once or not at all, within three attempts. */
  lemma CommitsExactlyOnce(s: State, steps: seq<Step>, end: State, r: nat)
    requires Deployed(s) && Runs(s, steps, end) && r < |end.requests|
    requires forall i :: 0 <= i < |steps| ==> !steps[i].CommitLost?
    ensures CommitsOf(end.commits, r) == if Succeeded(end, r) then 1 else 0
    ensures 1 <= end.requests[r].attempt <= 3
  {
    ReportTruthfulIff(s, steps, end, r);
    ReachableInv(s, steps, end);
    assert RequestOk(end, r);
  }

  // ---- a commit is repeated exactly when its lost acknowledgement is retried ----

  /** Some attempt of `r` took effect and reported an error that the retry loop tries again after. */
  ghost predicate RetriesAfterCommit(s: State, steps: seq<Step>, r: nat)
    decreases |steps|
  {
    steps != [] && Enabled(s, steps[0])
    && ((steps[0].CommitLost? && steps[0].r == r && !GivesUp(s.requests[r], steps[0].error))
        || RetriesAfterCommit(Next(s, steps[0]), steps[1..], r))
  }

  /** At most one commit, and none before the request is done. */
  ghost predicate OnceAndThenDone(s: State, r: nat) {
    CommitsOf(s.commits, r) <= 1 && (CommitsOf(s.commits, r) == 1 ==> r < |s.requests| && s.requests[r].phase.Done?)
  }

  lemma OnceKept(s: State, step: Step, r: nat)
    requires Inv(s) && Enabled(s, step) && OnceAndThenDone(s, r)
    requires step.CommitLost? && step.r == r ==> GivesUp(s.requests[r], step.error)
    ensures OnceAndThenDone(Next(s, step), r)
  {
    OneCommitAtMost(s, step, r);
    if r < |s.requests| { assert RequestOk(s, r); }
  }

  lemma {:induction false} OnceUnlessRetried(s: State, steps: seq<Step>, end: State, r: nat)
    requires Inv(s) && Runs(s, steps, end) && OnceAndThenDone(s, r) && !RetriesAfterCommit(s, steps, r)
    ensures OnceAndThenDone(end, r)
    decreases |steps|
  {
    if steps != [] {
      StepKeepsInv(s, steps[0]);
      OnceKept(s, steps[0], r);
      OnceUnlessRetried(Next(s, steps[0]), steps[1..], end, r);
    }
  }

  /** A request commits at most once in any run in which no attempt that took effect was retried. */
  lemma AtMostOnceUnlessRetried(s: State, steps: seq<Step>, end: State, r: nat)
    requires Deployed(s) && Runs(s, steps, end) && !RetriesAfterCommit(s, steps, r)
    ensures CommitsOf(end.commits, r) <= 1
  {
    OnceUnlessRetried(s, steps, end, r);
  }

  // ---- and if it is retried, it commits again ----

  /** The answers of a request that runs alone over these rows, each operation admitted and run in place. */
  ghost predicate Alone(d: Deployment, r: Request, rows: Rows, seen: seq<Answer>) {
    seen == [] ||
    (var front := seen[..|seen| - 1];
     Alone(d, r, rows, front) && Decide(r, front).Do?
     && (var op := Decide(r, front).op;
         RunsInPlace(d, r, op) && (op.Put? ==> Admits(TenantOf(r), op.row))
         && seen[|seen| - 1] == Observed(rows + Effect(r, front), TenantOf(r), op)))
  }

  /** The request is in its transaction and has done what `seen` answers. */
  ghost predicate InTheMiddle(s: State, r: nat, seen: seq<Answer>) {
    Ready(s, r) && TxnOf(s, r).seen == seen
  }

  /** What such a run does at its `n`-th operation. */
  lemma {:induction false} AloneAt(d: Deployment, r: Request, rows: Rows, seen: seq<Answer>, n: nat)
    requires Alone(d, r, rows, seen) && n < |seen|
    ensures var front := seen[..n];
            Decide(r, front).Do? && RunsInPlace(d, r, Decide(r, front).op)
            && (Decide(r, front).op.Put? ==> Admits(TenantOf(r), Decide(r, front).op.row))
            && seen[n] == Observed(rows + Effect(r, front), TenantOf(r), Decide(r, front).op)
    decreases |seen|
  {
    if n < |seen| - 1 {
      AloneAt(d, r, rows, seen[..|seen| - 1], n);
      assert seen[..|seen| - 1][..n] == seen[..n];
    }
  }

  lemma NextAloneEnabled(s: State, r: nat, seen: seq<Answer>, n: nat)
    requires Inv(s) && n < |seen| && InTheMiddle(s, r, seen[..n])
    requires Alone(s.deployment, s.requests[r].request, s.rows, seen)
    ensures Enabled(s, Execute(r))
    ensures Observed(s.rows + TxnOf(s, r).writes, Setting(s.connections[ConnOf(s, r)]), Chosen(s, r).op) == seen[n]
  {
    assert RequestOk(s, r) && ConnectionOk(s, ConnOf(s, r));
    AloneAt(s.deployment, s.requests[r].request, s.rows, seen, n);
  }

  /** Only the request's own transaction has moved on. */
  ghost predicate SameButInside(s: State, after: State) {
    after.rows == s.rows && after.commits == s.commits && after.deployment == s.deployment && after.requests == s.requests
  }

  /** From the middle of its program a request that runs alone gets to the end of it. */
  lemma {:induction false} RunsToTheEnd(s: State, r: nat, seen: seq<Answer>, n: nat) returns (steps: seq<Step>, end: State)
    requires Inv(s) && n <= |seen| && InTheMiddle(s, r, seen[..n])
    requires Alone(s.deployment, s.requests[r].request, s.rows, seen)
    ensures Runs(s, steps, end) && Inv(end) && InTheMiddle(end, r, seen) && SameButInside(s, end)
    decreases |seen| - n
  {
    if n == |seen| {
      assert seen[..n] == seen;
      steps, end := [], s;
    } else {
      NextAloneEnabled(s, r, seen, n);
      StepKeepsInv(s, Execute(r));
      var rest, last := RunsToTheEnd(Next(s, Execute(r)), r, seen, n + 1);
      steps, end := [Execute(r)] + rest, last;
      assert steps[1..] == rest;
    }
  }

  /** Begun and with its tenant set, nothing else has moved. */
  lemma Opens(s: State, r: nat, c: nat)
    requires Inv(s) && Enabled(s, Begin(r, c))
    ensures Inv(Next(s, Begin(r, c))) && Enabled(Next(s, Begin(r, c)), SetTenant(r))
    ensures var open := Next(Next(s, Begin(r, c)), SetTenant(r));
            Inv(open) && InTheMiddle(open, r, []) && open.rows == s.rows && open.commits == s.commits
            && open.deployment == s.deployment
            && open.requests == s.requests[r := s.requests[r].(phase := Open(c, true, None))]
  {
    StepKeepsInv(s, Begin(r, c));
    StepKeepsInv(Next(s, Begin(r, c)), SetTenant(r));
  }

  /** A waiting request that finds a free connection and runs alone comes to the point of its commit. */
  lemma ReachesItsCommit(s: State, r: nat, c: nat, seen: seq<Answer>) returns (steps: seq<Step>, end: State)
    requires Inv(s) && Enabled(s, Begin(r, c))
    requires Alone(s.deployment, s.requests[r].request, s.rows, seen) && Decide(s.requests[r].request, seen).Finish?
    ensures Runs(s, steps, end) && Inv(end) && InTheMiddle(end, r, seen) && Chosen(end, r).Finish?
    ensures end.rows == s.rows && end.commits == s.commits && end.deployment == s.deployment
    ensures end.requests == s.requests[r := s.requests[r].(phase := Open(c, true, None))]
  {
    var begun := Next(s, Begin(r, c));
    Opens(s, r, c);
    var open := Next(begun, SetTenant(r));
    assert seen[..0] == [];
    var rest, last := RunsToTheEnd(open, r, seen, 0);
    steps, end := [Begin(r, c), SetTenant(r)] + rest, last;
    assert steps[1..] == [SetTenant(r)] + rest && steps[1..][1..] == rest;
    assert Runs(begun, steps[1..], end);
  }

  lemma Follow(s: State, steps: seq<Step>, middle: State, last: Step)
    requires Runs(s, steps, middle) && Enabled(middle, last)
    ensures Runs(s, steps + [last], Next(middle, last))
  {
    var end := Next(middle, last);
    assert Runs(end, [], end);
    assert Runs(middle, [last], end);
    RunsAppend(s, steps, middle, [last], end);
  }

  lemma SubmitFirst(s: State, request: Request, steps: seq<Step>, end: State)
    requires Enabled(s, Submit(request)) && Runs(Next(s, Submit(request)), steps, end)
    ensures Runs(s, [Submit(request)] + steps, end)
  {
    assert ([Submit(request)] + steps)[1..] == steps;
  }

  lemma CommitsFromWaiting(s: State, r: nat, c: nat, seen: seq<Answer>) returns (steps: seq<Step>, end: State)
    requires Inv(s) && Enabled(s, Begin(r, c))
    requires Alone(s.deployment, s.requests[r].request, s.rows, seen) && Decide(s.requests[r].request, seen).Finish?
    ensures Runs(s, steps, end) && Succeeded(end, r)
    ensures CommitsOf(end.commits, r) == CommitsOf(s.commits, r) + 1
  {
    var before, ready := ReachesItsCommit(s, r, c, seen);
    assert RequestOk(ready, r);
    OneCommitAtMost(ready, CommitTxn(r), r);
    Follow(s, before, ready, CommitTxn(r));
    steps, end := before + [CommitTxn(r)], Next(ready, CommitTxn(r));
  }

  lemma {:induction false} DoneNeverCommitsAgain(s: State, steps: seq<Step>, end: State, r: nat)
    requires Inv(s) && Runs(s, steps, end) && r < |s.requests| && s.requests[r].phase.Done?
    ensures CommitsOf(end.commits, r) == CommitsOf(s.commits, r)
    decreases |steps|
  {
    if steps != [] {
      StepKeepsInv(s, steps[0]);
      OneCommitAtMost(s, steps[0], r);
      DoneNeverCommitsAgain(Next(s, steps[0]), steps[1..], end, r);
    }
  }

  ghost predicate CanCommitAgain(s: State, r: nat) {
    exists steps, end :: Runs(s, steps, end) && CommitsOf(end.commits, r) > CommitsOf(s.commits, r)
  }

  /**
   The exact condition: after a commit whose acknowledgement was lost, the request can commit
   again if and only if the error that was reported instead is one the loop retries with attempts
   left; provided that its program, run again over the table it has just changed, completes.
   */
  lemma LostCommitRepeatsIff(s: State, r: nat, error: Js, again: seq<Answer>)
    requires Inv(s) && Enabled(s, CommitLost(r, error))
    requires Alone(s.deployment, s.requests[r].request, Next(s, CommitLost(r, error)).rows, again)
    requires Decide(s.requests[r].request, again).Finish?
    ensures CanCommitAgain(Next(s, CommitLost(r, error)), r) <==> !GivesUp(s.requests[r], error)
  {
    var after := Next(s, CommitLost(r, error));
    var c := ConnOf(s, r);
    StepKeepsInv(s, CommitLost(r, error));
    assert RequestOk(s, r) && ConnectionOk(s, c);
    if GivesUp(s.requests[r], error) {
      forall steps, end | Runs(after, steps, end) ensures CommitsOf(end.commits, r) == CommitsOf(after.commits, r) {
        DoneNeverCommitsAgain(after, steps, end, r);
      }
    } else {
      var steps, end := CommitsFromWaiting(after, r, c, again);
    }
  }

  /** For a model call the proviso always holds: the call that went through once goes through again. */
  lemma LostModelCallRepeatsIff(s: State, r: nat, error: Js)
    requires Inv(s) && Enabled(s, CommitLost(r, error)) && s.requests[r].request.ModelCall?
    ensures CanCommitAgain(Next(s, CommitLost(r, error)), r) <==> !GivesUp(s.requests[r], error)
  {
    var request := s.requests[r].request;
    var rows := Next(s, CommitLost(r, error)).rows;
    assert RequestOk(s, r);
    FirstRan(s.deployment, request, TxnOf(s, r).seen);
    var again := [Observed(rows, TenantOf(request), request.op)];
    assert again[..0] == [] && rows + Effect(request, []) == rows;
    ModelCallWasAdmitted(s, r);
    LostCommitRepeatsIff(s, r, error, again);
  }

  lemma ModelCallWasAdmitted(s: State, r: nat)
    requires Inv(s) && IsOpen(s, r) && s.requests[r].request.ModelCall? && TxnOf(s, r).seen != []
    ensures s.requests[r].request.op.Put? ==> Admits(TenantOf(s.requests[r].request), s.requests[r].request.op.row)
  {
    assert RequestOk(s, r);
  }

  // ---- a lost connection that counts twice ----

  const CONNECTION_RESET := PrismaErrors.Object(map["code" := PrismaErrors.Str("ECONNRESET")])

  /** Read a counter, then write one more: a callback that is not safe to repeat. */
  function Increment(tenant: string, row: RowKey): Request {
    Interactive(Some(tenant), (seen: seq<Answer>) =>
      if seen == [] then Do(Get(row))
      else if |seen| == 1 then Do(Put(row, if seen[0].Some? then seen[0].value + 1 else 1))
      else Finish)
  }

  /** What the program answers when it runs alone. */
  lemma IncrementAlone(d: Deployment, row: RowKey, rows: Rows) returns (seen: seq<Answer>)
    requires row.tenant != "" && HasPlain(d.opener, row.model)
    ensures var r := Increment(row.tenant, row);
            Alone(d, r, rows, seen) && Decide(r, seen).Finish?
            && Effect(r, seen) == map[row := 1 + if row in rows then rows[row] else 0]
  {
    var r := Increment(row.tenant, row);
    var read := [Lookup(rows, row)];
    seen := read + [None];
    assert read[..0] == [] && seen[..1] == read;
    assert rows + Effect(r, []) == rows;
    assert Alone(d, r, rows, []) && Decide(r, []) == Do(Get(row));
    assert read[0] == Observed(rows, TenantOf(r), Get(row));
    assert Alone(d, r, rows, read) && Decide(r, read).Do?;
    assert Effect(r, read) == map[];
  }

  /** One attempt of it, up to the point of its commit. */
  lemma IncrementAttempt(s: State, row: RowKey, c: nat) returns (steps: seq<Step>, end: State)
    requires Inv(s) && Enabled(s, Begin(0, c)) && row.tenant != "" && HasPlain(s.deployment.opener, row.model)
    requires s.requests[0].request == Increment(row.tenant, row)
    ensures Runs(s, steps, end) && Inv(end) && Ready(end, 0) && Chosen(end, 0).Finish?
    ensures end.rows == s.rows && end.commits == s.commits && end.deployment == s.deployment
    ensures end.requests == s.requests[0 := s.requests[0].(phase := Open(c, true, None))]
    ensures TxnOf(end, 0).writes == map[row := 1 + if row in s.rows then s.rows[row] else 0]
  {
    var seen := IncrementAlone(s.deployment, row, s.rows);
    steps, end := ReachesItsCommit(s, 0, c, seen);
    assert RequestOk(end, 0);
  }

  /** A reset connection on the first attempt is tried again. */
  lemma ResetIsRetried(running: Running)
    requires running.attempt == 1
    ensures AfterFailure(running, CONNECTION_RESET) == running.(phase := Waiting, attempt := 2)
  {
  }

  /** The acknowledgement of a commit is lost: it has taken effect, and the request waits to be tried again. */
  lemma LostAndWaiting(s: State, r: nat)
    requires Inv(s) && Enabled(s, CommitLost(r, CONNECTION_RESET)) && s.requests[r].attempt == 1
    ensures var after := Next(s, CommitLost(r, CONNECTION_RESET));
            Inv(after) && after.deployment == s.deployment && after.rows == s.rows + TxnOf(s, r).writes
            && after.requests == s.requests[r := s.requests[r].(phase := Waiting, attempt := 2)]
            && CommitsOf(after.commits, r) == CommitsOf(s.commits, r) + 1
            && Enabled(after, Begin(r, ConnOf(s, r)))
  {
    var step := CommitLost(r, CONNECTION_RESET);
    ResetIsRetried(s.requests[r]);
    assert RequestOk(s, r) && ConnectionOk(s, ConnOf(s, r));
    StepKeepsInv(s, step);
    OneCommitAtMost(s, step, r);
  }

  /** The first attempt takes effect, its acknowledgement is lost, and the request waits to be tried again. */
  lemma IncrementLost(s: State, row: RowKey, c: nat) returns (steps: seq<Step>, end: State)
    requires Inv(s) && Enabled(s, Begin(0, c)) && row.tenant != "" && HasPlain(s.deployment.opener, row.model)
    requires s.requests[0] == Running(Increment(row.tenant, row), Waiting, 1) && s.rows == map[] && s.commits == []
    ensures Runs(s, steps, end) && Inv(end) && Enabled(end, Begin(0, c)) && end.deployment == s.deployment
    ensures end.requests == s.requests[0 := Running(Increment(row.tenant, row), Waiting, 2)]
    ensures end.rows == map[row := 1] && CommitsOf(end.commits, 0) == 1
  {
    var lost := CommitLost(0, CONNECTION_RESET);
    var first, ready := IncrementAttempt(s, row, c);
    LostAndWaiting(ready, 0);
    Follow(s, first, ready, lost);
    steps, end := first + [lost], Next(ready, lost);
  }

  /** A second attempt commits on top of the first. */
  lemma IncrementAgain(s: State, row: RowKey, c: nat) returns (steps: seq<Step>, end: State)
    requires Inv(s) && Enabled(s, Begin(0, c)) && row.tenant != "" && HasPlain(s.deployment.opener, row.model)
    requires s.requests[0].request == Increment(row.tenant, row)
    ensures Runs(s, steps, end) && |end.requests| == |s.requests|
    ensures end.requests[0] == s.requests[0].(phase := Done(true))
    ensures CommitsOf(end.commits, 0) == CommitsOf(s.commits, 0) + 1
    ensures end.rows == s.rows[row := 1 + if row in s.rows then s.rows[row] else 0]
  {
    var second, ready := IncrementAttempt(s, row, c);
    OneCommitAtMost(ready, CommitTxn(0), 0);
    Follow(s, second, ready, CommitTxn(0));
    steps, end := second + [CommitTxn(0)], Next(ready, CommitTxn(0));
  }

  /** Both attempts, from where the request waits for the first. */
  lemma IncrementTwice(s: State, row: RowKey, c: nat) returns (steps: seq<Step>, end: State)
    requires Inv(s) && Enabled(s, Begin(0, c)) && row.tenant != "" && HasPlain(s.deployment.opener, row.model)
    requires s.requests == [Running(Increment(row.tenant, row), Waiting, 1)] && s.rows == map[] && s.commits == []
    ensures Runs(s, steps, end) && |end.requests| == 1
    ensures end.requests[0] == Running(Increment(row.tenant, row), Done(true), 2)
    ensures CommitsOf(end.commits, 0) == 2 && end.rows == map[row := 2]
  {
    var first, waiting := IncrementLost(s, row, c);
    var second, last := IncrementAgain(waiting, row, c);
    RunsAppend(s, first, waiting, second, last);
    steps, end := first + second, last;
  }

  /** A connection reset while a commit is acknowledged: the request succeeds once and has counted twice. */
  lemma ResetCountsTwice(s: State, row: RowKey, c: nat) returns (steps: seq<Step>, end: State)
    requires Deployed(s) && c < |s.connections| && s.connections[c].client == s.deployment.opener
    requires row.tenant != "" && HasPlain(s.deployment.opener, row.model)
    ensures Runs(s, steps, end) && |end.requests| == 1 && end.requests[0].request == Increment(row.tenant, row)
    ensures end.requests[0].phase == Done(true) && CommitsOf(end.commits, 0) == 2 && end.rows == map[row := 2]
  {
    var request := Increment(row.tenant, row);
    StepKeepsInv(s, Submit(request));
    var rest, last := IncrementTwice(Next(s, Submit(request)), row, c);
    SubmitFirst(s, request, rest, last);
    steps, end := [Submit(request)] + rest, last;
  }
}
