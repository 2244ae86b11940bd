/** What every step of the tenant transactions keeps, for a tenant that is set per transaction. */
module TenantInvariant {
  import opened Basics
  import opened TenantTransactions
  import RetryPolicy

  // ---- what a program has done, given what it has seen ----

  /** What the operations of a request write when they are answered so. */
  ghost function Effect(r: Request, seen: seq<Answer>): Rows {
    if seen == [] then map[]
    else
      var front := seen[..|seen| - 1];
      if Decide(r, front).Do? then Written(Effect(r, front), Decide(r, front).op) else Effect(r, front)
  }

  /** Each answer is to an operation that the transaction's own client ran. */
  ghost predicate Trace(d: Deployment, r: Request, seen: seq<Answer>) {
    seen == [] ||
    (var front := seen[..|seen| - 1];
     Trace(d, r, front) && Decide(r, front).Do? && RunsInPlace(d, r, Decide(r, front).op))
  }

  ghost predicate OwnRows(writes: Rows, tenant: Option<string>) {
    forall row :: row in writes ==> Admits(tenant, row)
  }

  lemma {:induction false} FirstRan(d: Deployment, r: Request, seen: seq<Answer>)
    requires Trace(d, r, seen) && seen != []
    ensures Decide(r, []).Do? && RunsInPlace(d, r, Decide(r, []).op)
    decreases |seen|
  {
    if |seen| > 1 {
      FirstRan(d, r, seen[..|seen| - 1]);
    } else {
      assert seen[..0] == [];
    }
  }

  // ---- the invariant ----

  /** No connection ever keeps a setting of its own, and a transaction belongs to the request that is in it. */
  ghost predicate ConnectionOk(s: State, c: nat)
    requires c < |s.connections|
  {
    var conn := s.connections[c];
    conn.session.None? &&
    (conn.txn.Some? ==>
      conn.client == s.deployment.opener && conn.txn.value.session.None? && conn.txn.value.owner < |s.requests|
      && s.requests[conn.txn.value.owner].phase.Open? && s.requests[conn.txn.value.owner].phase.conn == c)
  }

  /** A transaction runs under its own request's tenant once set and none before, and has done what its program says. */
  ghost predicate TxnOk(d: Deployment, running: Running, txn: Txn, r: nat)
    requires running.phase.Open?
  {
    txn.owner == r
    && txn.local == (if running.phase.tenantSet then TenantOf(running.request) else None)
    && (!running.phase.tenantSet ==> txn.seen == [])
    && Trace(d, running.request, txn.seen)
    && txn.writes == Effect(running.request, txn.seen)
    && OwnRows(txn.writes, TenantOf(running.request))
  }

  /** What a request waits for is a call that its opener's patched delegate made. */
  ghost predicate ChildOk(s: State, child: nat) {
    child < |s.requests| && s.requests[child].request.ModelCall?
    && Nests(s.deployment, s.requests[child].request, s.requests[child].request.op)
  }

  /** A request in a transaction has one to itself. */
  ghost predicate RequestOk(s: State, r: nat)
    requires r < |s.requests|
  {
    var running := s.requests[r];
    1 <= running.attempt <= RetryPolicy.DB_TRANSACTION_RETRY_POLICY.maxAttempts
    && (running.phase.Open? ==>
          Transactional(running.request) && IsOpen(s, r) && TxnOk(s.deployment, running, TxnOf(s, r), r)
          && (running.phase.child.Some? ==> ChildOk(s, running.phase.child.value)))
  }

  ghost predicate ExecutedOk(s: State, e: Executed) {
    e.request < |s.requests|
    && e.setting == TenantOf(s.requests[e.request].request)
    && e.inTransaction == Transactional(s.requests[e.request].request)
    && (e.seen.Some? ==> Admits(e.setting, e.op.row))
    && (e.op.Put? && e.inTransaction ==> Admits(e.setting, e.op.row))
  }

  /** A commit is all the writes of one request whose program had finished. */
  ghost predicate CommitOk(s: State, k: nat)
    requires k < |s.commits|
  {
    var commit := s.commits[k];
    commit.request < |s.requests|
    && Transactional(s.requests[commit.request].request)
    && Trace(s.deployment, s.requests[commit.request].request, commit.seen)
    && Decide(s.requests[commit.request].request, commit.seen).Finish?
    && commit.writes == Effect(s.requests[commit.request].request, commit.seen)
    && OwnRows(commit.writes, TenantOf(s.requests[commit.request].request))
  }

  /** A transactional request that reports success has been committed. */
  ghost predicate DoneOk(s: State, r: nat)
    requires r < |s.requests|
  {
    s.requests[r].phase == Done(true) && Transactional(s.requests[r].request) ==>
      exists k :: 0 <= k < |s.commits| && s.commits[k].request == r
  }

  ghost predicate ConnectionsOk(s: State) {
    forall c {:trigger ConnectionOk(s, c)} :: 0 <= c < |s.connections| ==> ConnectionOk(s, c)
  }

  ghost predicate RequestsOk(s: State) {
    forall r {:trigger RequestOk(s, r)} :: 0 <= r < |s.requests| ==> RequestOk(s, r)
  }

  ghost predicate LogOk(s: State) {
    forall i :: 0 <= i < |s.log| ==> ExecutedOk(s, s.log[i])
  }

  /** The table after a sequence of commits. */
  ghost function Replay(commits: seq<Commit>): Rows {
    if commits == [] then map[] else Replay(commits[..|commits| - 1]) + commits[|commits| - 1].writes
  }

  ghost predicate CommitsOk(s: State) {
    s.rows == Replay(s.commits)
    && forall k {:trigger CommitOk(s, k)} :: 0 <= k < |s.commits| ==> CommitOk(s, k)
  }

  ghost predicate SuccessesOk(s: State) {
    forall r {:trigger DoneOk(s, r)} :: 0 <= r < |s.requests| ==> DoneOk(s, r)
  }

  ghost predicate Inv(s: State) {
    s.deployment.isLocal && ConnectionsOk(s) && RequestsOk(s) && LogOk(s) && CommitsOk(s) && SuccessesOk(s)
  }

  // ---- nested calls never come back ----

  /** A call that its opener would only make again never succeeds. */
  lemma NestedCallNeverSucceeds(s: State, child: nat)
    requires CommitsOk(s) && SuccessesOk(s) && ChildOk(s, child)
    ensures s.requests[child].phase != Done(true)
  {
    assert DoneOk(s, child);
    if k :| 0 <= k < |s.commits| && s.commits[k].request == child {
      assert CommitOk(s, k);
      FirstRan(s.deployment, s.requests[child].request, s.commits[k].seen);
    }
  }

  lemma NobodyResumes(s: State, r: nat, answer: Answer)
    requires Inv(s)
    ensures !Enabled(s, Resume(r, answer))
  {
    if IsOpen(s, r) && s.requests[r].phase.child.Some? {
      assert RequestOk(s, r);
      NestedCallNeverSucceeds(s, s.requests[r].phase.child.value);
    }
  }

  // ---- every step keeps it ----

  lemma SameRequests(s: State, step: Step, r: nat)
    requires Enabled(s, step) && r < |s.requests|
    ensures r < |Next(s, step).requests| && Next(s, step).requests[r].request == s.requests[r].request
  {
  }

  lemma ConnectionsKept(s: State, step: Step)
    requires Inv(s) && Enabled(s, step)
    ensures ConnectionsOk(Next(s, step))
  {
    var after := Next(s, step);
    forall c | 0 <= c < |after.connections| ensures ConnectionOk(after, c) {
      assert ConnectionOk(s, c);
      if !step.Submit? && step.r < |s.requests| { assert RequestOk(s, step.r); }
      if step.Resume? { NobodyResumes(s, step.r, step.answer); }
    }
  }

  lemma ExecutorKept(s: State, r: nat)
    requires Inv(s) && Enabled(s, Execute(r))
    ensures RequestOk(Next(s, Execute(r)), r)
  {
    assert RequestOk(s, r) && ConnectionOk(s, ConnOf(s, r));
    var answer := Observed(s.rows + TxnOf(s, r).writes, Setting(s.connections[ConnOf(s, r)]), Chosen(s, r).op);
  }

  /** A step leaves every other request, and the transaction it is in, as they were. */
  lemma OthersUntouched(s: State, step: Step, r: nat)
    requires Inv(s) && Enabled(s, step) && r < |s.requests| && (step.Submit? || step.r != r)
    ensures r < |Next(s, step).requests| && Next(s, step).requests[r] == s.requests[r]
    ensures IsOpen(s, r) ==> IsOpen(Next(s, step), r) && TxnOf(Next(s, step), r) == TxnOf(s, r)
  {
    assert RequestOk(s, r);
    if IsOpen(s, r) { assert ConnectionOk(s, ConnOf(s, r)); }
    if !step.Submit? && step.r < |s.requests| { assert RequestOk(s, step.r); }
  }

  lemma OthersKept(s: State, step: Step, r: nat)
    requires Inv(s) && Enabled(s, step) && r < |s.requests|
    requires step.Submit? || step.r != r
    ensures RequestOk(Next(s, step), r)
  {
    OthersUntouched(s, step, r);
    assert RequestOk(s, r);
  }

  lemma RequestKept(s: State, step: Step, r: nat)
    requires Inv(s) && Enabled(s, step) && r < |s.requests|
    ensures RequestOk(Next(s, step), r)
  {
    if step.Submit? || step.r != r {
      OthersKept(s, step, r);
    } else if step.Execute? {
      ExecutorKept(s, r);
    } else if step.Resume? {
      NobodyResumes(s, r, step.answer);
    } else {
      assert RequestOk(s, r);
      if IsOpen(s, r) { assert ConnectionOk(s, ConnOf(s, r)); }
    }
  }

  lemma RequestsKept(s: State, step: Step)
    requires Inv(s) && Enabled(s, step)
    ensures RequestsOk(Next(s, step))
  {
    var after := Next(s, step);
    forall r | 0 <= r < |after.requests| ensures RequestOk(after, r) {
      if r < |s.requests| { RequestKept(s, step, r); }
    }
  }

  lemma LogKept(s: State, step: Step)
    requires Inv(s) && Enabled(s, step)
    ensures LogOk(Next(s, step))
  {
    var after := Next(s, step);
    forall i | 0 <= i < |after.log| ensures ExecutedOk(after, after.log[i]) {
      if i < |s.log| {
        assert ExecutedOk(s, s.log[i]);
        SameRequests(s, step, s.log[i].request);
      } else {
        var r := step.r;
        assert RequestOk(s, r);
        if step.Direct? { assert ConnectionOk(s, step.c); } else { assert ConnectionOk(s, ConnOf(s, r)); }
      }
    }
  }

  /** What a commit says of its request stays true when nothing but the phase of a request changes. */
  lemma OldCommitKept(s: State, after: State, k: nat)
    requires CommitsOk(s) && k < |s.commits| <= |after.commits| && after.commits[k] == s.commits[k]
    requires after.deployment == s.deployment && SameRequestsIn(s, after)
    ensures CommitOk(after, k)
  {
    assert CommitOk(s, k);
  }

  ghost predicate SameRequestsIn(s: State, after: State) {
    |s.requests| <= |after.requests|
    && forall r {:trigger after.requests[r]} :: 0 <= r < |s.requests| ==> after.requests[r].request == s.requests[r].request
  }

  lemma NewCommitOk(s: State, step: Step)
    requires Inv(s) && Enabled(s, step) && (step.CommitTxn? || step.CommitLost?)
    ensures |Next(s, step).commits| == |s.commits| + 1 && CommitOk(Next(s, step), |s.commits|)
  {
    assert RequestOk(s, step.r);
  }

  /** Without a tenant row-level security admits no write: the unwrapped path fails closed. */
  lemma DirectWritesNothing(s: State, r: nat, c: nat)
    requires ConnectionsOk(s) && Enabled(s, Direct(r, c))
    ensures Next(s, Direct(r, c)).rows == s.rows && Next(s, Direct(r, c)).commits == s.commits
    ensures Next(s, Direct(r, c)).log[|s.log|].seen.None?
    ensures Next(s, Direct(r, c)).requests[r].phase == Done(s.requests[r].request.op.Get?)
  {
    assert ConnectionOk(s, c);
  }

  lemma OnlyCommitsAreRecorded(s: State, step: Step)
    requires ConnectionsOk(s) && Enabled(s, step)
    ensures s.commits <= Next(s, step).commits
    ensures |Next(s, step).commits| == |s.commits| + if step.CommitTxn? || step.CommitLost? then 1 else 0
  {
    if step.Direct? { DirectWritesNothing(s, step.r, step.c); }
  }

  lemma OldCommitsKept(s: State, after: State)
    requires CommitsOk(s) && s.commits <= after.commits
    requires after.deployment == s.deployment && SameRequestsIn(s, after)
    ensures forall k {:trigger CommitOk(after, k)} :: 0 <= k < |s.commits| ==> CommitOk(after, k)
  {
    forall k | 0 <= k < |s.commits| ensures CommitOk(after, k) {
      OldCommitKept(s, after, k);
    }
  }

  lemma CommitsKept(s: State, step: Step)
    requires Inv(s) && Enabled(s, step)
    ensures CommitsOk(Next(s, step))
  {
    OnlyCommitsAreRecorded(s, step);
    OldCommitsKept(s, Next(s, step));
    if step.CommitTxn? || step.CommitLost? { NewCommitOk(s, step); }
  }

  lemma SuccessesKept(s: State, step: Step)
    requires Inv(s) && Enabled(s, step)
    ensures SuccessesOk(Next(s, step))
  {
    var after := Next(s, step);
    forall r | 0 <= r < |after.requests| ensures DoneOk(after, r) {
      if r < |s.requests| {
        assert DoneOk(s, r);
        if step.CommitTxn? && step.r == r {
          assert after.commits[|s.commits|].request == r;
        } else if k :| 0 <= k < |s.commits| && s.commits[k].request == r {
          assert after.commits[k].request == r;
        }
      }
    }
  }

  lemma StepKeepsInv(s: State, step: Step)
    requires Inv(s) && Enabled(s, step)
    ensures Inv(Next(s, step))
  {
    SuccessesKept(s, step);
    ConnectionsKept(s, step);
    RequestsKept(s, step);
    LogKept(s, step);
    CommitsKept(s, step);
  }

  lemma {:induction false} RunKeepsInv(s: State, steps: seq<Step>, end: State)
    requires Inv(s) && Runs(s, steps, end)
    ensures Inv(end)
    decreases |steps|
  {
    if steps != [] {
      StepKeepsInv(s, steps[0]);
      RunKeepsInv(Next(s, steps[0]), steps[1..], end);
    }
  }

  lemma ReachableInv(s: State, steps: seq<Step>, end: State)
    requires Deployed(s) && Runs(s, steps, end)
    ensures Inv(end)
  {
    RunKeepsInv(s, steps, end);
  }
}
