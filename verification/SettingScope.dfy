/** Why the tenant is set for the transaction only: what a connection's next user finds. */
module SettingScope {
  import opened Basics
  import opened PrismaClient
  import opened TenantTransactions
  import opened TenantInvariant

  /** No idle connection carries a setting to its next user. */
  ghost predicate NothingLeaks(s: State) {
    forall c :: 0 <= c < |s.connections| && s.connections[c].txn.None? ==> Setting(s.connections[c]).None?
  }

  lemma NothingLeaksWhenLocal(s: State, steps: seq<Step>, end: State)
    requires Deployed(s) && Runs(s, steps, end)
    ensures NothingLeaks(end)
  {
    ReachableInv(s, steps, end);
    forall c | 0 <= c < |end.connections| && end.connections[c].txn.None? ensures Setting(end.connections[c]).None? {
      assert ConnectionOk(end, c);
    }
  }

  // ---- with a session-wide setting ----

  ghost predicate Tenanted(s: State, r: nat, tenant: string, model: string) {
    r < |s.requests| && s.requests[r].phase.Waiting? && tenant != ""
    && s.requests[r].request.ModelCall? && s.requests[r].request.context == Some(tenant)
    && s.requests[r].request.op == Get(RowKey(tenant, model, ""))
  }

  /** One read of `tenant` on an idle connection leaves that connection with the tenant's setting. */
  lemma SessionSettingStays(s: State, r: nat, c: nat, tenant: string, model: string) returns (steps: seq<Step>, end: State)
    requires Tenanted(s, r, tenant, model) && Enabled(s, Begin(r, c)) && !s.deployment.isLocal
    requires HasPlain(s.deployment.opener, model)
    ensures Runs(s, steps, end) && end.deployment == s.deployment && |end.connections| == |s.connections|
    ensures end.connections[c] == s.connections[c].(session := Some(tenant))
  {
    var s1 := Next(s, Begin(r, c));
    var s2 := Next(s1, SetTenant(r));
    var s3 := Next(s2, Execute(r));
    end := Next(s3, CommitTxn(r));
    steps := [Begin(r, c), SetTenant(r), Execute(r), CommitTxn(r)];
    assert Runs(end, [], end);
    assert Runs(s3, [CommitTxn(r)], end);
    assert Runs(s2, [Execute(r), CommitTxn(r)], end);
    assert Runs(s1, [SetTenant(r), Execute(r), CommitTxn(r)], end);
  }

  /** A deployment of one model on a raw opener with one idle connection. */
  function Small(model: string, isLocal: bool): State {
    var raw := Generated({model});
    var self := Client(Patched(raw.properties, Extend(raw.properties)));
    State(Deployment(self, raw, isLocal), [Connection(raw, None, None)], [], map[], [], [])
  }

  /** The leak: after one tenant's read the connection answers whoever comes next as that tenant. */
  lemma SessionSettingLeaks(tenant: string, model: string) returns (steps: seq<Step>, end: State)
    requires tenant != "" && !IsClientMethod(model) && model != "rawTxClient"
    ensures Initial(Small(model, false)) && Runs(Small(model, false), steps, end)
    ensures |end.connections| == 1 && end.connections[0].txn.None? && Setting(end.connections[0]) == Some(tenant)
  {
    var s := Small(model, false);
    var submit := Submit(ModelCall(Some(tenant), Get(RowKey(tenant, model, ""))));
    var submitted := Next(s, submit);
    var rest, last := SessionSettingStays(submitted, 0, 0, tenant, model);
    steps, end := [submit] + rest, last;
    assert steps[1..] == rest;
  }

  /** Whoever begins on such a connection without a tenant of their own may read that tenant's rows. */
  lemma LeakedSettingIsUsed(s: State, r: nat, c: nat, tenant: string, row: RowKey)
    requires Enabled(s, Begin(r, c)) && s.connections[c].session == Some(tenant) && row.tenant == tenant
    requires TenantOf(s.requests[r].request).None? && Decide(s.requests[r].request, []) == Do(Get(row))
    requires HasPlain(s.deployment.opener, row.model)
    ensures Enabled(Next(s, Begin(r, c)), SetTenant(r))
    ensures var set1 := Next(Next(s, Begin(r, c)), SetTenant(r));
            Enabled(set1, Execute(r)) && |Next(set1, Execute(r)).log| == |s.log| + 1
            && Next(set1, Execute(r)).log[|s.log|].seen == Lookup(s.rows, row)
  {
    assert s.rows + map[] == s.rows;
  }

  ghost predicate LeaksNothing(s: State, steps: seq<Step>, end: State) {
    Initial(s) && Runs(s, steps, end) ==> NothingLeaks(end)
  }

  /** No run of a deployment leaves a setting behind if and only if `set_config` sets it for the transaction only. */
  lemma NothingLeaksIffLocal(isLocal: bool)
    ensures (forall s: State, steps: seq<Step>, end: State :: s.deployment.isLocal == isLocal ==> LeaksNothing(s, steps, end)) <==> isLocal
  {
    if isLocal {
      forall s: State, steps, end | s.deployment.isLocal && Initial(s) && Runs(s, steps, end) ensures NothingLeaks(end) {
        NothingLeaksWhenLocal(s, steps, end);
      }
    } else {
      var steps, end := SessionSettingLeaks("t", "user");
      assert !LeaksNothing(Small("user", false), steps, end);
    }
  }
}
