/** Which client the hook can open its transactions on: the recursion of a patched one, run by run. */
module ClientRecursion {
  import opened Basics
  import opened PrismaClient
  import opened TenantTransactions
  import opened TenantInvariant
  import opened CommitOnce

  /** The machine and the count of levels agree: what runs in place is what opens exactly one level. */
  lemma RunsInPlaceIffOneLevel(d: Deployment, r: Request, op: Op, available: nat)
    requires HasWrapped(d.service, op.row.model) && TenantOf(r).Some? && available >= 1
    ensures RunsInPlace(d, r, op) <==> Call(d.service, d.opener, op.row.model, available) == Ran(1)
    ensures Nests(d, r, op) <==> Call(d.service, d.opener, op.row.model, available) == PoolExhausted
  {
    if HasWrapped(d.opener, op.row.model) {
      WrappedOpenerExhaustsAnyPool(d.service, d.opener, op.row.model, available);
    }
  }

  // ---- a plain opener ----

  /** If the opener is nowhere patched, no call ever waits for another: one transaction a request. */
  lemma PlainOpenerNeverNests(s: State, steps: seq<Step>, end: State, r: nat)
    requires Deployed(s) && Runs(s, steps, end) && r < |end.requests|
    requires forall model :: !HasWrapped(end.deployment.opener, model)
    ensures end.requests[r].phase.Open? ==> end.requests[r].phase.child.None?
    ensures !Enabled(end, Nest(r))
  {
    ReachableInv(s, steps, end);
    assert RequestOk(end, r);
  }

  // ---- a patched opener ----

  /** What has committed for a tenant was run by plain delegates of the opener only. */
  lemma {:induction false} TraceIsPlain(d: Deployment, r: Request, seen: seq<Answer>, n: nat)
    requires Trace(d, r, seen) && TenantOf(r).Some? && n < |seen|
    ensures Decide(r, seen[..n]).Do? && HasPlain(d.opener, Decide(r, seen[..n]).op.row.model)
    decreases |seen|
  {
    if n < |seen| - 1 {
      TraceIsPlain(d, r, seen[..|seen| - 1], n);
      assert seen[..|seen| - 1][..n] == seen[..n];
    }
  }

  lemma SuccessIsPlain(s: State, steps: seq<Step>, end: State, r: nat)
    requires Deployed(s) && Runs(s, steps, end) && Succeeded(end, r)
    requires end.requests[r].request.ModelCall? && TenantOf(end.requests[r].request).Some?
    ensures HasPlain(end.deployment.opener, end.requests[r].request.op.row.model)
  {
    ReachableInv(s, steps, end);
    assert DoneOk(end, r);
    var k :| 0 <= k < |end.commits| && end.commits[k].request == r;
    assert CommitOk(end, k);
    var seen := end.commits[k].seen;
    TraceIsPlain(end.deployment, end.requests[r].request, seen, 0);
    assert seen[..0] == [];
  }

  /** A deployment with one idle connection of the opener's pool. */
  ghost predicate Idle(s: State) {
    Deployed(s) && |s.connections| >= 1 && s.connections[0].client == s.deployment.opener
  }

  ghost predicate CanSucceed(s: State, request: Request) {
    exists steps, end :: Runs(s, steps, end) && |end.requests| >= 1
                         && end.requests[0].request == request && Succeeded(end, 0)
  }

  lemma ServedOnPlain(s: State, tenant: string, op: Op)
    requires Idle(s) && HasWrapped(s.deployment.service, op.row.model)
    requires tenant != "" && op.row.tenant == tenant && HasPlain(s.deployment.opener, op.row.model)
    ensures CanSucceed(s, ModelCall(Some(tenant), op))
  {
    var request := ModelCall(Some(tenant), op);
    var submitted := Next(s, Submit(request));
    StepKeepsInv(s, Submit(request));
    var seen := [Observed(s.rows, Some(tenant), op)];
    assert seen[..0] == [] && s.rows + Effect(request, []) == s.rows;
    assert Alone(s.deployment, request, s.rows, []);
    var rest, last := CommitsFromWaiting(submitted, 0, 0, seen);
    var steps := [Submit(request)] + rest;
    assert steps[1..] == rest;
    assert Runs(s, steps, last);
    SameRequest(submitted, rest, last, 0);
  }

  lemma {:induction false} SameRequest(s: State, steps: seq<Step>, end: State, r: nat)
    requires Runs(s, steps, end) && r < |s.requests|
    ensures r < |end.requests| && end.requests[r].request == s.requests[r].request
    decreases |steps|
  {
    if steps != [] {
      SameRequests(s, steps[0], r);
      SameRequest(Next(s, steps[0]), steps[1..], end, r);
    }
  }

  lemma {:induction false} SameDeployment(s: State, steps: seq<Step>, end: State)
    requires Runs(s, steps, end)
    ensures end.deployment == s.deployment
    decreases |steps|
  {
    if steps != [] { SameDeployment(Next(s, steps[0]), steps[1..], end); }
  }

  /** A model call on a tenant's own row can ever be served if and only if the opener's delegate is plain. */
  lemma ServedIffPlain(s: State, tenant: string, op: Op)
    requires Idle(s) && HasWrapped(s.deployment.service, op.row.model)
    requires tenant != "" && op.row.tenant == tenant
    ensures CanSucceed(s, ModelCall(Some(tenant), op)) <==> HasPlain(s.deployment.opener, op.row.model)
  {
    if HasPlain(s.deployment.opener, op.row.model) {
      ServedOnPlain(s, tenant, op);
    } else if CanSucceed(s, ModelCall(Some(tenant), op)) {
      var steps, end :| Runs(s, steps, end) && |end.requests| >= 1
                        && end.requests[0].request == ModelCall(Some(tenant), op) && Succeeded(end, 0);
      SuccessIsPlain(s, steps, end, 0);
      SameDeployment(s, steps, end);
    }
  }

  // ---- the recursion ----

  /** The first `k` connections are held by the first `k` requests, each but the last waiting for the next. */
  ghost predicate Nested(s: State, tenant: string, op: Op, k: nat) {
    k <= |s.connections| && |s.requests| == k + 1
    && (forall r :: 0 <= r <= k ==> s.requests[r].request == ModelCall(Some(tenant), op))
    && (forall r :: 0 <= r < k ==> s.requests[r].phase == Open(r, true, Some(r + 1)) && s.connections[r].txn.Some?
                                   && s.connections[r].txn.value.owner == r)
    && s.requests[k].phase == Waiting
    && (forall c :: k <= c < |s.connections| ==> s.connections[c].txn.None? && s.connections[c].client == s.deployment.opener)
  }

  ghost predicate NoneSubmits(steps: seq<Step>) {
    forall i :: 0 <= i < |steps| ==> !steps[i].Submit?
  }

  lemma DeeperState(s: State, tenant: string, op: Op, k: nat)
    requires Nested(s, tenant, op, k) && k < |s.connections|
    requires tenant != "" && HasWrapped(s.deployment.opener, op.row.model)
    ensures Enabled(s, Begin(k, k)) && Enabled(Next(s, Begin(k, k)), SetTenant(k))
    ensures var set1 := Next(Next(s, Begin(k, k)), SetTenant(k));
            Enabled(set1, Nest(k)) && Nested(Next(set1, Nest(k)), tenant, op, k + 1)
            && Next(set1, Nest(k)).deployment == s.deployment && |Next(set1, Nest(k)).connections| == |s.connections|
  {
  }

  lemma OneLevelDeeper(s: State, tenant: string, op: Op, k: nat) returns (steps: seq<Step>, end: State)
    requires Nested(s, tenant, op, k) && k < |s.connections|
    requires tenant != "" && HasWrapped(s.deployment.opener, op.row.model)
    ensures Runs(s, steps, end) && Nested(end, tenant, op, k + 1)
    ensures end.deployment == s.deployment && |end.connections| == |s.connections| && NoneSubmits(steps)
  {
    var s1 := Next(s, Begin(k, k));
    var s2 := Next(s1, SetTenant(k));
    DeeperState(s, tenant, op, k);
    end := Next(s2, Nest(k));
    steps := [Begin(k, k), SetTenant(k), Nest(k)];
    assert Runs(end, [], end);
    assert Runs(s2, [Nest(k)], end);
    assert Runs(s1, [SetTenant(k), Nest(k)], end);
  }

  lemma {:induction false} NestsThrough(s: State, tenant: string, op: Op, k: nat) returns (steps: seq<Step>, end: State)
    requires Nested(s, tenant, op, k)
    requires tenant != "" && HasWrapped(s.deployment.opener, op.row.model)
    ensures Runs(s, steps, end) && Nested(end, tenant, op, |end.connections|) && |end.connections| == |s.connections|
    ensures NoneSubmits(steps)
    decreases |s.connections| - k
  {
    if k == |s.connections| {
      steps, end := [], s;
    } else {
      var first, middle := OneLevelDeeper(s, tenant, op, k);
      var rest, last := NestsThrough(middle, tenant, op, k + 1);
      RunsAppend(s, first, middle, rest, last);
      steps, end := first + rest, last;
    }
  }

  /**
   The recursion: on a patched opener a single model call can take every connection of the pool,
   whatever its size, each transaction waiting for the next and the last call for a connection.
   */
  lemma OneCallTakesThePool(s: State, tenant: string, op: Op) returns (steps: seq<Step>, end: State)
    requires Deployed(s) && forall c :: 0 <= c < |s.connections| ==> s.connections[c].client == s.deployment.opener
    requires tenant != "" && HasWrapped(s.deployment.service, op.row.model) && HasWrapped(s.deployment.opener, op.row.model)
    ensures Runs(s, [Submit(ModelCall(Some(tenant), op))] + steps, end) && |end.connections| == |s.connections|
    ensures NoneSubmits(steps)
    ensures forall c :: 0 <= c < |end.connections| ==> end.connections[c].txn.Some? && end.connections[c].txn.value.owner == c
    ensures Nested(end, tenant, op, |end.connections|)
  {
    var submit := Submit(ModelCall(Some(tenant), op));
    var rest, last := NestsThrough(Next(s, submit), tenant, op, 0);
    steps, end := rest, last;
    assert ([submit] + steps)[1..] == steps;
  }
}
