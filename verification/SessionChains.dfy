/** The rotation links form disjoint, acyclic chains whose only open session is the tail. */
module SessionChains {
  import opened Basics
  import opened AuthModel
  import opened AuthInvariant

  /** Rows at or after `id`: what a walk along the links still has ahead of it. */
  ghost function Ahead(sessions: Sessions, id: SessionId): set<SessionId> {
    set later | later in sessions && id <= later
  }

  lemma LinkLeadsAhead(sessions: Sessions, id: SessionId)
    requires LinksOk(sessions) && id in sessions && sessions[id].replacedBy.Some?
    ensures sessions[id].replacedBy.value in sessions
    ensures Ahead(sessions, sessions[id].replacedBy.value) < Ahead(sessions, id)
  {
    assert LinkOk(sessions, id);
    assert id in Ahead(sessions, id);
  }

  /** The sessions reached from `id` by following rotation links, oldest first. */
  ghost function Chain(sessions: Sessions, id: SessionId): seq<SessionId>
    requires LinksOk(sessions) && id in sessions
    decreases Ahead(sessions, id)
  {
    if sessions[id].replacedBy.None? then [id]
    else
      LinkLeadsAhead(sessions, id);
      [id] + Chain(sessions, sessions[id].replacedBy.value)
  }

  ghost predicate SameOwner(sessions: Sessions, a: SessionId, b: SessionId)
    requires a in sessions
  {
    b in sessions && sessions[b].userId == sessions[a].userId && sessions[b].tenantId == sessions[a].tenantId
  }

  /** A chain's first session: nothing was rotated into it. */
  ghost predicate IsRoot(sessions: Sessions, id: SessionId) {
    id in sessions && forall p :: p in sessions ==> sessions[p].replacedBy != Some(id)
  }

  /** Chains are acyclic, stay with one user in one tenant, and are closed everywhere but at the tail. */
  lemma {:induction false} ChainShape(sessions: Sessions, id: SessionId)
    requires LinksOk(sessions) && id in sessions
    ensures var c := Chain(sessions, id);
            |c| > 0 && c[0] == id
            && (forall i :: 0 <= i < |c| ==> SameOwner(sessions, id, c[i]))
            && (forall i, j :: 0 <= i < j < |c| ==> c[i] < c[j])
            && (forall i :: 0 <= i < |c| - 1 ==>
                  sessions[c[i]].replacedBy == Some(c[i + 1]) && sessions[c[i]].revokedAt.Some?)
            && sessions[c[|c| - 1]].replacedBy.None?
    decreases Ahead(sessions, id)
  {
    if sessions[id].replacedBy.Some? {
      var next := sessions[id].replacedBy.value;
      assert LinkOk(sessions, id);
      LinkLeadsAhead(sessions, id);
      ChainShape(sessions, next);
      var c, rest := Chain(sessions, id), Chain(sessions, next);
      assert c == [id] + rest;
      forall i | 0 <= i < |c| - 1
        ensures sessions[c[i]].replacedBy == Some(c[i + 1]) && sessions[c[i]].revokedAt.Some?
      {
        if i > 0 { assert c[i] == rest[i - 1] && c[i + 1] == rest[i]; }
      }
    }
  }

  /** Every session lies on the chain of some root. */
  lemma {:induction false} RootExists(sessions: Sessions, id: SessionId) returns (root: SessionId)
    requires LinksOk(sessions) && id in sessions
    ensures IsRoot(sessions, root) && id in Chain(sessions, root)
    decreases id
  {
    if p :| p in sessions && sessions[p].replacedBy == Some(id) {
      assert LinkOk(sessions, p);
      root := RootExists(sessions, p);
      ChainContainsSuccessor(sessions, root, p);
    } else {
      root := id;
      ChainShape(sessions, id);
    }
  }

  lemma {:induction false} ChainContainsSuccessor(sessions: Sessions, start: SessionId, id: SessionId)
    requires LinksOk(sessions) && start in sessions && id in Chain(sessions, start)
    requires id in sessions && sessions[id].replacedBy.Some?
    ensures sessions[id].replacedBy.value in Chain(sessions, start)
  {
    ChainShape(sessions, start);
    var c := Chain(sessions, start);
    var i :| 0 <= i < |c| && c[i] == id;
    assert i < |c| - 1;
    assert c[i + 1] in c;
  }

  /** Walking back along equal links: two chains that meet at `i` and `j` meet all the way to a root. */
  lemma {:induction false} ChainsMeetAtRoot(sessions: Sessions, a: SessionId, b: SessionId, i: nat, j: nat)
    requires LinksOk(sessions) && LinksInjective(sessions)
    requires IsRoot(sessions, a) && IsRoot(sessions, b)
    requires i < |Chain(sessions, a)| && j < |Chain(sessions, b)|
    requires Chain(sessions, a)[i] == Chain(sessions, b)[j]
    ensures a == b
    decreases i
  {
    ChainShape(sessions, a);
    ChainShape(sessions, b);
    var ca, cb := Chain(sessions, a), Chain(sessions, b);
    assert i > 0 ==> sessions[ca[i - 1]].replacedBy == Some(ca[i]);
    assert j > 0 ==> sessions[cb[j - 1]].replacedBy == Some(cb[j]);
    if i > 0 && j > 0 {
      ChainsMeetAtRoot(sessions, a, b, i - 1, j - 1);
    }
  }

  ghost predicate OnOneChain(sessions: Sessions, id: SessionId)
    requires LinksOk(sessions)
  {
    exists root :: IsRoot(sessions, root) && id in Chain(sessions, root)
      && forall other :: IsRoot(sessions, other) && id in Chain(sessions, other) ==> other == root
  }

  /** The chains of distinct roots are disjoint and cover the table. */
  lemma ChainsPartitionSessions(sessions: Sessions, id: SessionId)
    requires LinksOk(sessions) && LinksInjective(sessions) && id in sessions
    ensures OnOneChain(sessions, id)
  {
    var root := RootExists(sessions, id);
    var chain := Chain(sessions, root);
    var j :| 0 <= j < |chain| && chain[j] == id;
    forall other | IsRoot(sessions, other) && id in Chain(sessions, other) ensures other == root {
      var i :| 0 <= i < |Chain(sessions, other)| && Chain(sessions, other)[i] == id;
      ChainsMeetAtRoot(sessions, other, root, i, j);
    }
  }

  /** Of the sessions on one chain, an open one can only be the last. */
  lemma OpenSessionIsTail(sessions: Sessions, root: SessionId, id: SessionId)
    requires LinksOk(sessions) && root in sessions && id in Chain(sessions, root)
    requires id in sessions && sessions[id].revokedAt.None?
    ensures id == Chain(sessions, root)[|Chain(sessions, root)| - 1]
  {
    ChainShape(sessions, root);
    var c := Chain(sessions, root);
    var i :| 0 <= i < |c| && c[i] == id;
  }

  /** In every run, at any moment: each session is on exactly one chain, and open sessions are tails. */
  lemma RotationChainsInEveryRun(users: Users, now: Time, es: seq<Event>, ttl: int, id: SessionId)
    requires WellTimed(State(users, map[], 0), now, es, ttl)
    requires id in Run(State(users, map[], 0), es, ttl).sessions
    ensures var sessions := Run(State(users, map[], 0), es, ttl).sessions;
            LinksOk(sessions) && OnOneChain(sessions, id)
            && (sessions[id].revokedAt.None? ==>
                  forall root :: root in sessions && id in Chain(sessions, root) ==>
                    id == Chain(sessions, root)[|Chain(sessions, root)| - 1])
  {
    EmptyTableOk(users, now);
    RunKeepsInv(State(users, map[], 0), now, es, ttl);
    var sessions := Run(State(users, map[], 0), es, ttl).sessions;
    ChainsPartitionSessions(sessions, id);
    if sessions[id].revokedAt.None? {
      forall root | root in sessions && id in Chain(sessions, root)
        ensures id == Chain(sessions, root)[|Chain(sessions, root)| - 1]
      {
        OpenSessionIsTail(sessions, root, id);
      }
    }
  }
}
