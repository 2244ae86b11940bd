/**
 How long a revoked role can still be honoured: what the guards decide with cached roles while the
 directory behind the cache changes, calls interleave and store operations fail.
 */
module RevokedRoles {
  import opened Basics
  import opened CacheKeys
  import opened Directory
  import opened Authorization
  import ReadThrough

  /** The directory at every moment. */
  type History = int -> Source

  /** The uncached lookup of a key at a moment. */
  function Lookups(history: History): ReadThrough.Source<CacheValue> {
    (t: int, key: string) => if Decode(key).Some? then Answer(history(t), Decode(key).value) else OverviewValue("")
  }

  lemma LowerTwice(s: string)
    ensures Lower(Lower(s)) == Lower(s)
  {
  }

  /** Looking up a question's key answers the question. */
  lemma LookupAnswers(history: History, t: int, q: Question)
    requires WellFormed(q)
    ensures Lookups(history)(t, Key(q)) == Answer(history(t), q)
  {
    KeysUniquelyDecodable(q);
    if q.RolesOf? { LowerTwice(q.email); }
    SameKeySameAnswer(history(t), Canonical(q), q);
  }

  // ---- every use of the key has the one lifetime ----

  ghost predicate OneLifetime(steps: seq<ReadThrough.Step>, key: string, ttl: int) {
    forall i :: 0 <= i < |steps| && steps[i].Begin? && steps[i].key == key ==> steps[i].ttlMs == ttl
  }

  ghost predicate CallLifetime<V>(c: ReadThrough.Call<V>, key: string, ttl: int) {
    c.key == key ==>
      match c
      case Begun(_, t, _) => t == ttl
      case Missed(_, t, _) => t == ttl
      case Loaded(_, t, _, _, _) => t == ttl
      case Hit(_, _, _, e) => e.ttl == ttl
      case Returned(_, _, _, _, _) => true
  }

  ghost predicate LifetimeOk<V>(s: ReadThrough.State<V>, key: string, ttl: int) {
    (key in s.store ==> s.store[key].ttl == ttl)
    && forall i :: 0 <= i < |s.calls| ==> CallLifetime(s.calls[i], key, ttl)
  }

  lemma {:induction false} LifetimeInRun<V>(s: ReadThrough.State<V>, steps: seq<ReadThrough.Step>, source: ReadThrough.Source<V>,
                                            end: ReadThrough.State<V>, key: string, ttl: int)
    requires ReadThrough.Runs(s, steps, source, end) && LifetimeOk(s, key, ttl) && OneLifetime(steps, key, ttl)
    ensures LifetimeOk(end, key, ttl)
    decreases |steps|
  {
    if steps != [] {
      LifetimeInRun(ReadThrough.Next(s, steps[0], source), steps[1..], source, end, key, ttl);
    }
  }

  // ---- how old the roles of a request are ----

  /** From load to store no call for this key takes longer than `inFlight`. */
  ghost predicate StoredWithin<V>(s: ReadThrough.State<V>, key: string, inFlight: nat) {
    forall i :: 0 <= i < |s.calls| && s.calls[i].Returned? && s.calls[i].key == key ==> s.calls[i].at - s.calls[i].loadedAt <= inFlight
  }

  /** A run of the role cache from an empty store over a changing directory. */
  ghost predicate RoleRun(history: History, start: int, steps: seq<ReadThrough.Step>, end: ReadThrough.State<CacheValue>,
                          tenant: string, email: string, inFlight: nat) {
    ':' !in tenant
    && ReadThrough.Runs(ReadThrough.State(start, map[], []), steps, Lookups(history), end)
    && OneLifetime(steps, Key(RolesOf(tenant, email)), ROLE_CACHE_TTL_MS)
    && StoredWithin(end, Key(RolesOf(tenant, email)), inFlight)
  }

  /** The call resolved this user's roles, to these, at this moment. */
  ghost predicate Resolved(end: ReadThrough.State<CacheValue>, i: nat, tenant: string, email: string, roles: seq<Role>, at: int) {
    i < |end.calls| && (end.calls[i].Hit? || end.calls[i].Returned?) && end.calls[i].key == Key(RolesOf(tenant, email))
    && end.calls[i].value == RolesValue(roles) && end.calls[i].at == at
  }

  /** Resolved roles are what the directory held at one moment, within a lifetime and one load of now. */
  lemma RolesAreRecent(history: History, start: int, steps: seq<ReadThrough.Step>, end: ReadThrough.State<CacheValue>,
                       tenant: string, email: string, inFlight: nat, i: nat, roles: seq<Role>, at: int) returns (loadedAt: int)
    requires RoleRun(history, start, steps, end, tenant, email, inFlight) && Resolved(end, i, tenant, email, roles, at)
    ensures roles == FindRolesForUser(history(loadedAt), email, tenant)
    ensures at - ROLE_CACHE_TTL_MS - inFlight < loadedAt <= at
  {
    var key := Key(RolesOf(tenant, email));
    LifetimeInRun(ReadThrough.State(start, map[], []), steps, Lookups(history), end, key, ROLE_CACHE_TTL_MS);
    ReadThrough.ReturnedValuesAreFresh(start, steps, Lookups(history), end, i);
    assert CallLifetime(end.calls[i], key, ROLE_CACHE_TTL_MS);
    loadedAt := if end.calls[i].Hit? then end.calls[i].entry.loadedAt else end.calls[i].loadedAt;
    LookupAnswers(history, loadedAt, RolesOf(tenant, email));
  }

  // ---- what the guards decide with them ----

  /** ANY of the required roles. */
  predicate RolesAllow(required: seq<string>, roles: seq<Role>) {
    required == [] || exists key :: key in required && key in RoleKeys(roles)
  }

  /** ALL of the required permissions, with the grants looked up when they are asked for. */
  predicate PermissionsAllow(required: seq<string>, roles: seq<Role>, src: Source, tenant: string) {
    var keys := if roles == [] then [] else Dedup(PermissionKeys(FindPermissionsForRoles(src, RoleIds(roles), tenant)));
    forall key :: key in required ==> key in keys
  }

  /** With up-to-date roles these are the decisions of the two guards. */
  lemma FreshDecisions(required: seq<string>, src: Source, email: string, tenant: string)
    ensures var roles := FindRolesForUser(src, email, tenant);
            (RolesAllow(required, roles) <==> required == [] || HoldsRole(src, email, tenant, required))
            && (PermissionsAllow(required, roles, src, tenant)
                <==> forall key :: key in required ==> HasPermission(src, email, tenant, key))
  {
    var roles := FindRolesForUser(src, email, tenant);
    RoleKeyHeld(roles, required);
    PermissionKeysAreUnionOfGrants(src, email, tenant);
    if roles == [] { NoRolesNoPermissions(src, email, tenant); }
  }

  // ---- revocation ----

  /**
   A lifetime and one load after a revocation no request is let in by the roles guard any more: if
   from `revoked` on the user holds none of the required roles, no roles resolved from then on suffice.
   */
  lemma RolesGuardForgets(history: History, start: int, steps: seq<ReadThrough.Step>, end: ReadThrough.State<CacheValue>,
                          tenant: string, email: string, inFlight: nat, i: nat, roles: seq<Role>, at: int,
                          required: seq<string>, revoked: int)
    requires RoleRun(history, start, steps, end, tenant, email, inFlight) && Resolved(end, i, tenant, email, roles, at)
    requires required != [] && forall t :: t >= revoked ==> !HoldsRole(history(t), email, tenant, required)
    requires at >= revoked + ROLE_CACHE_TTL_MS + inFlight - 1
    ensures !RolesAllow(required, roles)
  {
    var loadedAt := RolesAreRecent(history, start, steps, end, tenant, email, inFlight, i, roles, at);
    assert !HoldsRole(history(loadedAt), email, tenant, required);
    FreshDecisions(required, history(loadedAt), email, tenant);
  }

  /** None of these roles is granted a permission with this key. */
  ghost predicate NotGranted(src: Source, roles: seq<Role>, tenant: string, key: string) {
    forall r, p :: r in roles && p in src.permissions && p.key == key ==> Grant(r.id, p.id, tenant) !in src.grants
  }

  /** Behind every permission key is a role that is granted it. */
  lemma GranterOf(src: Source, roles: seq<Role>, tenant: string, key: string) returns (r: Role, p: Permission)
    requires key in PermissionKeys(FindPermissionsForRoles(src, RoleIds(roles), tenant))
    ensures r in roles && p in src.permissions && p.key == key && Grant(r.id, p.id, tenant) in src.grants
  {
    var found := FindPermissionsForRoles(src, RoleIds(roles), tenant);
    var j :| 0 <= j < |found| && found[j].key == key;
    p := found[j];
    assert p in found && Granted(src, RoleIds(roles), tenant, p);
    var g :| g in src.grants && g.permissionId == p.id && g.tenantId == tenant && g.roleId in RoleIds(roles);
    var k :| 0 <= k < |roles| && RoleIds(roles)[k] == g.roleId;
    r := roles[k];
    assert Grant(r.id, p.id, tenant) == g;
  }

  lemma NotGrantedIsDenied(src: Source, roles: seq<Role>, tenant: string, required: seq<string>, key: string)
    requires key in required && NotGranted(src, roles, tenant, key)
    ensures !PermissionsAllow(required, roles, src, tenant)
  {
    if key in PermissionKeys(FindPermissionsForRoles(src, RoleIds(roles), tenant)) {
      var r, p := GranterOf(src, roles, tenant, key);
    }
  }

  /**
   The same of the permissions guard, which reads the grants at the moment `asked`: if from `revoked`
   on no role the user still holds is granted a required permission, the request is refused.
   */
  lemma PermissionsGuardForgets(history: History, start: int, steps: seq<ReadThrough.Step>, end: ReadThrough.State<CacheValue>,
                                tenant: string, email: string, inFlight: nat, i: nat, roles: seq<Role>, at: int,
                                required: seq<string>, key: string, asked: int, revoked: int)
    requires RoleRun(history, start, steps, end, tenant, email, inFlight) && Resolved(end, i, tenant, email, roles, at)
    requires key in required && asked >= at
    requires forall t, u {:trigger history(t), history(u)} :: t >= revoked && u >= revoked ==>
               NotGranted(history(u), FindRolesForUser(history(t), email, tenant), tenant, key)
    requires at >= revoked + ROLE_CACHE_TTL_MS + inFlight - 1
    ensures !PermissionsAllow(required, roles, history(asked), tenant)
  {
    var loadedAt := RolesAreRecent(history, start, steps, end, tenant, email, inFlight, i, roles, at);
    assert NotGranted(history(asked), FindRolesForUser(history(loadedAt), email, tenant), tenant, key);
    NotGrantedIsDenied(history(asked), roles, tenant, required, key);
  }

  // ---- the bound is exact ----

  lemma Then<V>(s: ReadThrough.State<V>, step: ReadThrough.Step, source: ReadThrough.Source<V>,
                steps: seq<ReadThrough.Step>, end: ReadThrough.State<V>)
    requires ReadThrough.Enabled(s, step) && ReadThrough.Runs(ReadThrough.Next(s, step, source), steps, source, end)
    ensures ReadThrough.Runs(s, [step] + steps, source, end)
  {
    assert ([step] + steps)[1..] == steps;
  }

  /** One entry, stored `inFlight` after it was loaded. */
  function OneEntry<V>(start: int, value: V, key: string, ttl: nat, inFlight: nat): ReadThrough.State<V> {
    var now := start + inFlight;
    ReadThrough.State(now, map[key := ReadThrough.Stored(value, now + ttl, 0, start, now, ttl)],
                      [ReadThrough.Returned(key, value, start, start, now)])
  }

  /** A first call loads at once and stores late. */
  lemma StoredLate<V>(start: int, source: ReadThrough.Source<V>, key: string, ttl: nat, inFlight: nat,
                      rest: seq<ReadThrough.Step>, end: ReadThrough.State<V>) returns (steps: seq<ReadThrough.Step>)
    requires ReadThrough.Runs(OneEntry(start, source(start, key), key, ttl, inFlight), rest, source, end)
    ensures ReadThrough.Runs(ReadThrough.State(start, map[], []), steps, source, end)
    ensures steps == [ReadThrough.Begin(key, ttl), ReadThrough.Get(0, false), ReadThrough.Load(0),
                      ReadThrough.Tick(inFlight), ReadThrough.Set(0, true)] + rest
  {
    var s0: ReadThrough.State<V> := ReadThrough.State(start, map[], []);
    var s1 := ReadThrough.Next(s0, ReadThrough.Begin(key, ttl), source);
    var s2 := ReadThrough.Next(s1, ReadThrough.Get(0, false), source);
    var s3 := ReadThrough.Next(s2, ReadThrough.Load(0), source);
    var s4 := ReadThrough.Next(s3, ReadThrough.Tick(inFlight), source);
    assert ReadThrough.Next(s4, ReadThrough.Set(0, true), source) == OneEntry(start, source(start, key), key, ttl, inFlight);
    Then(s4, ReadThrough.Set(0, true), source, rest, end);
    var r4 := [ReadThrough.Set(0, true)] + rest;
    Then(s3, ReadThrough.Tick(inFlight), source, r4, end);
    var r3 := [ReadThrough.Tick(inFlight)] + r4;
    Then(s2, ReadThrough.Load(0), source, r3, end);
    var r2 := [ReadThrough.Load(0)] + r3;
    Then(s1, ReadThrough.Get(0, false), source, r2, end);
    var r1 := [ReadThrough.Get(0, false)] + r2;
    Then(s0, ReadThrough.Begin(key, ttl), source, r1, end);
    steps := [ReadThrough.Begin(key, ttl)] + r1;
  }

  /** A second call is served from the store in the last moment of the entry's life. */
  lemma ServedAtTheLast<V>(s: ReadThrough.State<V>, source: ReadThrough.Source<V>, key: string, ttl: nat)
    returns (steps: seq<ReadThrough.Step>, end: ReadThrough.State<V>)
    requires ttl >= 1 && |s.calls| == 1 && key in s.store && s.store[key].expiresAt == s.now + ttl
    ensures ReadThrough.Runs(s, steps, source, end)
    ensures steps == [ReadThrough.Tick(ttl - 1), ReadThrough.Begin(key, ttl), ReadThrough.Get(1, false)]
    ensures end == ReadThrough.State(s.now + ttl - 1, s.store,
                                     s.calls + [ReadThrough.Hit(key, s.store[key].value, s.now + ttl - 1, s.store[key])])
  {
    var s1 := ReadThrough.Next(s, ReadThrough.Tick(ttl - 1), source);
    var s2 := ReadThrough.Next(s1, ReadThrough.Begin(key, ttl), source);
    end := ReadThrough.Next(s2, ReadThrough.Get(1, false), source);
    Then(s2, ReadThrough.Get(1, false), source, [], end);
    Then(s1, ReadThrough.Begin(key, ttl), source, [ReadThrough.Get(1, false)] + [], end);
    Then(s, ReadThrough.Tick(ttl - 1), source, [ReadThrough.Begin(key, ttl)] + ([ReadThrough.Get(1, false)] + []), end);
    steps := [ReadThrough.Tick(ttl - 1), ReadThrough.Begin(key, ttl), ReadThrough.Get(1, false)];
    assert steps == [ReadThrough.Tick(ttl - 1)] + ([ReadThrough.Begin(key, ttl)] + ([ReadThrough.Get(1, false)] + []));
  }

  /** Stored late by the first call, served at the last moment to the second. */
  lemma LateAndLast<V>(start: int, source: ReadThrough.Source<V>, key: string, ttl: nat, inFlight: nat)
    returns (steps: seq<ReadThrough.Step>, end: ReadThrough.State<V>)
    requires ttl >= 1
    ensures ReadThrough.Runs(ReadThrough.State(start, map[], []), steps, source, end)
    ensures OneLifetime(steps, key, ttl) && StoredWithin(end, key, inFlight)
    ensures |end.calls| == 2 && end.calls[1].Hit? && end.calls[1].key == key
    ensures end.calls[1].value == source(start, key) && end.calls[1].at == start + inFlight + ttl - 1
  {
    var stored := OneEntry(start, source(start, key), key, ttl, inFlight);
    var rest, last := ServedAtTheLast(stored, source, key, ttl);
    steps := StoredLate(start, source, key, ttl, inFlight, rest, last);
    end := last;
  }

  /** One moment earlier the revoked role can still be honoured: for every load time some run does. */
  lemma HonouredUntilThen(before: Source, after: Source, revoked: int, tenant: string, email: string, inFlight: nat)
    returns (steps: seq<ReadThrough.Step>, end: ReadThrough.State<CacheValue>)
    requires ':' !in tenant
    ensures var history := (t: int) => if t < revoked then before else after;
            RoleRun(history, revoked - 1, steps, end, tenant, email, inFlight)
            && Resolved(end, 1, tenant, email, FindRolesForUser(before, email, tenant), revoked + ROLE_CACHE_TTL_MS + inFlight - 2)
  {
    var history := (t: int) => if t < revoked then before else after;
    LookupAnswers(history, revoked - 1, RolesOf(tenant, email));
    steps, end := LateAndLast(revoked - 1, Lookups(history), Key(RolesOf(tenant, email)), ROLE_CACHE_TTL_MS, inFlight);
  }
}
