/** Role and permission resolution through two cache levels, and the guards that decide with it. */
module Authorization {
  import opened Basics
  import opened CacheKeys
  import opened Directory
  import opened CacheService
  import opened InMemoryCache

  const ROLE_CACHE_TTL_MS := 60_000

  function RoleKeys(roles: seq<Role>): seq<string> {
    seq(|roles|, i requires 0 <= i < |roles| => roles[i].key)
  }

  function RoleIds(roles: seq<Role>): seq<nat> {
    seq(|roles|, i requires 0 <= i < |roles| => roles[i].id)
  }

  function PermissionKeys(permissions: seq<Permission>): seq<string> {
    seq(|permissions|, i requires 0 <= i < |permissions| => permissions[i].key)
  }

  /** Uncached: the role keys of a user in a tenant. */
  function UncachedRoleKeys(src: Source, email: string, tenant: string): seq<string> {
    RoleKeys(FindRolesForUser(src, email, tenant))
  }

  /** Uncached: the permission keys of a user in a tenant, each once. */
  function UncachedPermissionKeys(src: Source, email: string, tenant: string): seq<string> {
    Dedup(PermissionKeys(FindPermissionsForRoles(src, RoleIds(FindRolesForUser(src, email, tenant)), tenant)))
  }

  /** Some role of the user grants, in this tenant, a permission with this key. */
  ghost predicate HasPermission(src: Source, email: string, tenant: string, key: string) {
    exists r, p :: r in FindRolesForUser(src, email, tenant) && p in src.permissions && p.key == key
      && Grant(r.id, p.id, tenant) in src.grants
  }

  /** The keys are the duplicate-free union of what the user's roles grant. */
  lemma PermissionKeysAreUnionOfGrants(src: Source, email: string, tenant: string)
    ensures forall key :: key in UncachedPermissionKeys(src, email, tenant) <==> HasPermission(src, email, tenant, key)
    ensures var keys := UncachedPermissionKeys(src, email, tenant);
            forall i, j :: 0 <= i < j < |keys| ==> keys[i] != keys[j]
  {
    var roles := FindRolesForUser(src, email, tenant);
    var ids := RoleIds(roles);
    var found := FindPermissionsForRoles(src, ids, tenant);
    forall key ensures key in UncachedPermissionKeys(src, email, tenant) <==> HasPermission(src, email, tenant, key) {
      if key in PermissionKeys(found) {
        var i :| 0 <= i < |found| && found[i].key == key;
        KeyFromGrant(src, email, tenant, found[i]);
      }
      if HasPermission(src, email, tenant, key) {
        var r, p :| r in roles && p in src.permissions && p.key == key && Grant(r.id, p.id, tenant) in src.grants;
        GrantGivesKey(src, email, tenant, r, p);
      }
    }
  }

  lemma KeyFromGrant(src: Source, email: string, tenant: string, p: Permission)
    requires p in FindPermissionsForRoles(src, RoleIds(FindRolesForUser(src, email, tenant)), tenant)
    ensures HasPermission(src, email, tenant, p.key)
  {
    var roles := FindRolesForUser(src, email, tenant);
    var g :| g in src.grants && g.permissionId == p.id && g.tenantId == tenant && g.roleId in RoleIds(roles);
    var i :| 0 <= i < |roles| && RoleIds(roles)[i] == g.roleId;
    assert roles[i] in roles && Grant(roles[i].id, p.id, tenant) == g;
  }

  lemma GrantGivesKey(src: Source, email: string, tenant: string, r: Role, p: Permission)
    requires r in FindRolesForUser(src, email, tenant) && p in src.permissions && Grant(r.id, p.id, tenant) in src.grants
    ensures p.key in UncachedPermissionKeys(src, email, tenant)
  {
    var roles := FindRolesForUser(src, email, tenant);
    var i :| 0 <= i < |roles| && roles[i] == r;
    assert RoleIds(roles)[i] == r.id;
    assert Granted(src, RoleIds(roles), tenant, p);
    var found := FindPermissionsForRoles(src, RoleIds(roles), tenant);
    assert p in found;
    var j :| 0 <= j < |found| && found[j] == p;
    assert PermissionKeys(found)[j] == p.key;
  }

  /** Over the rows: some live role of the tenant, given to a live user of it with this email, grants the key in the tenant. */
  ghost predicate GrantedByRows(src: Source, email: string, tenant: string, key: string) {
    exists r, p :: LiveRole(src, r, tenant) && GivenRole(src, email, tenant, r.id)
      && p in src.permissions && p.key == key && Grant(r.id, p.id, tenant) in src.grants
  }

  lemma PermissionHeldIff(src: Source, email: string, tenant: string, key: string)
    ensures key in UncachedPermissionKeys(src, email, tenant) <==> GrantedByRows(src, email, tenant, key)
  {
    PermissionKeysAreUnionOfGrants(src, email, tenant);
    forall r ensures r in FindRolesForUser(src, email, tenant) <==> LiveRole(src, r, tenant) && GivenRole(src, email, tenant, r.id) {
      RoleHeldIff(src, email, tenant, r);
    }
  }

  /** A user without roles has no permissions: the early return skips a query that would find nothing. */
  lemma NoRolesNoPermissions(src: Source, email: string, tenant: string)
    requires FindRolesForUser(src, email, tenant) == []
    ensures UncachedPermissionKeys(src, email, tenant) == []
  {
    NoRolesNothingGranted(src, tenant, src.permissions);
    assert RoleIds([]) == [] && PermissionKeys([]) == [];
  }

  lemma {:induction false} NoRolesNothingGranted(src: Source, tenant: string, rows: seq<Permission>)
    ensures PermissionsAmong(src, [], tenant, rows) == []
  {
    if rows != [] { NoRolesNothingGranted(src, tenant, rows[1..]); }
  }

  /** The per-request cache: fields the service fills in the object its caller owns. */
  class AuthorizationCache {
    var roles: Option<seq<Role>>
    var permissionKeys: Option<seq<string>>

    constructor ()
      ensures roles == None && permissionKeys == None
    {
      roles, permissionKeys := None, None;
    }

    /** What is filled in is what the source answers for this request's user and tenant. */
    ghost predicate HoldsFor(src: Source, email: string, tenant: string)
      reads this
    {
      (roles.Some? ==> roles.value == FindRolesForUser(src, email, tenant))
      && (permissionKeys.Some? ==> permissionKeys.value == UncachedPermissionKeys(src, email, tenant))
    }
  }

  /** The part of a request the guards read: its authenticated user, its tenant, its own cache. */
  class Request {
    const email: string
    const tenantId: string
    var authorizationCache: AuthorizationCache?

    constructor (email: string, tenantId: string)
      ensures this.email == email && this.tenantId == tenantId && authorizationCache == null
    {
      this.email, this.tenantId := email, tenantId;
      authorizationCache := null;
    }

    ghost predicate Valid(src: Source)
      reads this, authorizationCache
    {
      ':' !in tenantId && (authorizationCache != null ==> authorizationCache.HoldsFor(src, email, tenantId))
    }
  }

  class AuthorizationService {
    const source: Source
    const cache: CacheService

    constructor (source: Source, cache: CacheService)
      ensures this.source == source && this.cache == cache
    {
      this.source, this.cache := source, cache;
    }

    /** The shared cache tells the truth about the service's source. */
    ghost predicate Valid()
      reads this, cache, cache.store
    {
      Truthful(cache.store.server, source)
    }

    method LoadRoles(email: string, tenant: string, own: AuthorizationCache, now: int, reading: Fault, writing: Fault)
      returns (roles: seq<Role>)
      requires Valid() && ':' !in tenant && own.HoldsFor(source, email, tenant)
      modifies own`roles, cache, cache.store
      ensures Valid() && own.HoldsFor(source, email, tenant)
      ensures roles == FindRolesForUser(source, email, tenant) && own.roles == Some(roles)
      ensures old(own.roles).Some? ==> cache.store.server == old(cache.store.server)
      ensures old(own.roles).None? && old(Key(RolesOf(tenant, email)) !in cache.store.server) && writing == Fine ==>
                forall later :: Read(cache.store.server, Key(RolesOf(tenant, email)), later)
                                == if later < now + 60_000 then Some(RolesValue(roles)) else None
    {
      if own.roles.None? {
        var src := source;
        var value := cache.GetOrLoad(src, RolesOf(tenant, email), ROLE_CACHE_TTL_MS,
                                     () => RolesValue(FindRolesForUser(src, email, tenant)), now, reading, writing);
        own.roles := Some(value.roles);
      }
      roles := own.roles.value;
    }

    method ResolveRoleKeys(email: string, tenant: string, own: AuthorizationCache, now: int, reading: Fault, writing: Fault)
      returns (keys: seq<string>)
      requires Valid() && ':' !in tenant && own.HoldsFor(source, email, tenant)
      modifies own`roles, cache, cache.store
      ensures Valid() && own.HoldsFor(source, email, tenant)
      ensures keys == UncachedRoleKeys(source, email, tenant)
    {
      var roles := LoadRoles(email, tenant, own, now, reading, writing);
      keys := RoleKeys(roles);
    }

    method ResolvePermissionKeys(email: string, tenant: string, own: AuthorizationCache, now: int, reading: Fault, writing: Fault)
      returns (keys: seq<string>)
      requires Valid() && ':' !in tenant && own.HoldsFor(source, email, tenant)
      modifies own, cache, cache.store
      ensures Valid() && own.HoldsFor(source, email, tenant)
      ensures keys == UncachedPermissionKeys(source, email, tenant) && own.permissionKeys == Some(keys)
    {
      if own.permissionKeys.Some? {
        return own.permissionKeys.value;
      }
      var roles := LoadRoles(email, tenant, own, now, reading, writing);
      if roles == [] {
        NoRolesNoPermissions(source, email, tenant);
        own.permissionKeys := Some([]);
        return [];
      }
      var permissions := FindPermissionsForRoles(source, RoleIds(roles), tenant);
      keys := Dedup(PermissionKeys(permissions));
      own.permissionKeys := Some(keys);
    }
  }

  /** ALL of the required permissions; allowed exactly when every one is granted by the source. */
  method PermissionsGuardCanActivate(required: seq<string>, request: Request, service: AuthorizationService,
                                     now: int, reading: Fault, writing: Fault)
    returns (allowed: bool)
    requires service.Valid() && request.Valid(service.source)
    modifies request, request.authorizationCache, service.cache, service.cache.store
    ensures service.Valid() && request.Valid(service.source)
    ensures allowed <==> forall key :: key in required ==> HasPermission(service.source, request.email, request.tenantId, key)
  {
    if required == [] {
      return true;
    }
    if request.authorizationCache == null {
      request.authorizationCache := new AuthorizationCache();
    }
    var keys := service.ResolvePermissionKeys(request.email, request.tenantId, request.authorizationCache, now, reading, writing);
    PermissionKeysAreUnionOfGrants(service.source, request.email, request.tenantId);
    allowed := forall key | key in required :: key in keys;
  }

  /** ANY of the required roles; no requirement at all is allowed. */
  method RolesGuardCanActivate(required: seq<string>, request: Request, service: AuthorizationService,
                               now: int, reading: Fault, writing: Fault)
    returns (allowed: bool)
    requires service.Valid() && request.Valid(service.source)
    modifies request, request.authorizationCache, service.cache, service.cache.store
    ensures service.Valid() && request.Valid(service.source)
    ensures allowed <==> (required == [] || HoldsRole(service.source, request.email, request.tenantId, required))
  {
    if required == [] {
      return true;
    }
    if request.authorizationCache == null {
      request.authorizationCache := new AuthorizationCache();
    }
    var keys := service.ResolveRoleKeys(request.email, request.tenantId, request.authorizationCache, now, reading, writing);
    allowed := exists role | role in required :: role in keys;
    RoleKeyHeld(FindRolesForUser(service.source, request.email, request.tenantId), required);
  }

  /** Some role of the user in the tenant is among the required ones. */
  ghost predicate HoldsRole(src: Source, email: string, tenant: string, required: seq<string>) {
    exists r :: r in FindRolesForUser(src, email, tenant) && r.key in required
  }

  lemma RoleKeyHeld(roles: seq<Role>, required: seq<string>)
    ensures (exists k :: k in required && k in RoleKeys(roles)) <==> exists r :: r in roles && r.key in required
  {
    if k :| k in required && k in RoleKeys(roles) {
      var i :| 0 <= i < |roles| && RoleKeys(roles)[i] == k;
      assert roles[i] in roles;
    }
    if r :| r in roles && r.key in required {
      var i :| 0 <= i < |roles| && roles[i] == r;
      assert RoleKeys(roles)[i] == r.key;
    }
  }
}
