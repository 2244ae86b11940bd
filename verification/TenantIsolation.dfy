/** What tenants may rely on in every run: their own setting, their own rows, whole requests. */
module TenantIsolation {
  import opened Basics
  import opened TenantTransactions
  import opened TenantInvariant

  /**
   Under every interleaving, every operation of a request ran under exactly that request's tenant, an
   empty id being none, and inside a transaction unless it is a model call without one.
   */
  lemma EveryOperationRunsAsItsTenant(s: State, steps: seq<Step>, end: State, i: nat)
    requires Deployed(s) && Runs(s, steps, end) && i < |end.log|
    ensures var e := end.log[i];
            e.request < |end.requests|
            && e.setting == TenantOf(end.requests[e.request].request)
            && (var context := end.requests[e.request].request.context;
                e.setting == if context == Some("") then None else context)
            && (e.inTransaction <==> e.setting.Some? || end.requests[e.request].request.Interactive?)
            && (e.seen.Some? ==> Some(e.op.row.tenant) == TenantOf(end.requests[e.request].request))
  {
    ReachableInv(s, steps, end);
    assert ExecutedOk(end, end.log[i]);
  }

  /** Row-level security lets a request's next operation through exactly when it is on its own tenant's row. */
  lemma OwnOperationsAreAdmitted(s: State, steps: seq<Step>, end: State, r: nat)
    requires Deployed(s) && Runs(s, steps, end) && Ready(end, r) && Chosen(end, r).Do?
    ensures var op := Chosen(end, r).op;
            var own := TenantOf(end.requests[r].request) == Some(op.row.tenant);
            (Admits(Setting(end.connections[ConnOf(end, r)]), op.row) <==> own)
            && (Enabled(end, Execute(r)) <==> RunsInPlace(end.deployment, end.requests[r].request, op) && (op.Get? || own))
  {
    ReachableInv(s, steps, end);
    assert RequestOk(end, r) && ConnectionOk(end, ConnOf(end, r));
  }

  /** A transaction carries no setting until its request's tenant is set, and then exactly that one. */
  lemma TransactionsCarryTheirTenant(s: State, steps: seq<Step>, end: State, r: nat)
    requires Deployed(s) && Runs(s, steps, end) && IsOpen(end, r)
    ensures TxnOf(end, r).owner == r
    ensures Setting(end.connections[ConnOf(end, r)])
         == if end.requests[r].phase.tenantSet then TenantOf(end.requests[r].request) else None
  {
    ReachableInv(s, steps, end);
    assert RequestOk(end, r) && ConnectionOk(end, ConnOf(end, r));
  }

  /** A request is in a transaction on exactly one connection, and no two share one. */
  lemma OneConnectionEach(s: State, steps: seq<Step>, end: State, r: nat, c: nat)
    requires Deployed(s) && Runs(s, steps, end) && r < |end.requests| && c < |end.connections|
    ensures (end.requests[r].phase.Open? && end.requests[r].phase.conn == c)
       <==> (end.connections[c].txn.Some? && end.connections[c].txn.value.owner == r)
  {
    ReachableInv(s, steps, end);
    assert RequestOk(end, r) && ConnectionOk(end, c);
  }

  // ---- what reaches the table ----

  ghost predicate IsOf(s: State, commit: Commit, tenant: string) {
    commit.request < |s.requests| && TenantOf(s.requests[commit.request].request) == Some(tenant)
  }

  ghost function CommitsOfTenant(s: State, commits: seq<Commit>, tenant: string): seq<Commit> {
    if commits == [] then []
    else
      var last := commits[|commits| - 1];
      CommitsOfTenant(s, commits[..|commits| - 1], tenant) + if IsOf(s, last, tenant) then [last] else []
  }

  /** A commit writes only rows of its own tenant. */
  ghost predicate StaysAtHome(s: State, commit: Commit) {
    forall row :: row in commit.writes ==> IsOf(s, commit, row.tenant)
  }

  /** A commit of another tenant leaves the row as it was; one of its own makes of it the same everywhere. */
  lemma {:induction false} OnlyOwnCommitsMatter(s: State, commits: seq<Commit>, row: RowKey)
    requires forall k :: 0 <= k < |commits| ==> StaysAtHome(s, commits[k])
    ensures Lookup(Replay(commits), row) == Lookup(Replay(CommitsOfTenant(s, commits, row.tenant)), row)
    decreases |commits|
  {
    if commits != [] {
      var front, last := commits[..|commits| - 1], commits[|commits| - 1];
      var mine := CommitsOfTenant(s, front, row.tenant);
      OnlyOwnCommitsMatter(s, front, row);
      if IsOf(s, last, row.tenant) {
      } else {
        assert CommitsOfTenant(s, commits, row.tenant) == mine;
      }
    }
  }

  lemma CommitStaysAtHome(s: State, k: nat)
    requires CommitsOk(s) && k < |s.commits|
    ensures StaysAtHome(s, s.commits[k])
  {
    assert CommitOk(s, k);
    forall row | row in s.commits[k].writes ensures IsOf(s, s.commits[k], row.tenant) {
      assert Admits(TenantOf(s.requests[s.commits[k].request].request), row);
    }
  }

  /** A tenant's rows are what that tenant's own committed requests made them, as if no other tenant existed. */
  lemma TenantsAreIsolated(s: State, steps: seq<Step>, end: State, row: RowKey)
    requires Deployed(s) && Runs(s, steps, end)
    ensures Lookup(end.rows, row) == Lookup(Replay(CommitsOfTenant(end, end.commits, row.tenant)), row)
  {
    ReachableInv(s, steps, end);
    forall k | 0 <= k < |end.commits| ensures StaysAtHome(end, end.commits[k]) { CommitStaysAtHome(end, k); }
    OnlyOwnCommitsMatter(end, end.commits, row);
  }

  /**
   The table is the serial effect of the commits, each of which is all the writes of one request
   that ran to the end of its program, whatever that program read on the way.
   */
  lemma WholeRequestsCommit(s: State, steps: seq<Step>, end: State, k: nat)
    requires Deployed(s) && Runs(s, steps, end) && k < |end.commits|
    ensures end.rows == Replay(end.commits)
    ensures end.commits[k].request < |end.requests|
    ensures var request := end.requests[end.commits[k].request].request;
            Trace(end.deployment, request, end.commits[k].seen)
            && Decide(request, end.commits[k].seen).Finish?
            && end.commits[k].writes == Effect(request, end.commits[k].seen)
  {
    ReachableInv(s, steps, end);
    assert CommitOk(end, k);
  }
}
