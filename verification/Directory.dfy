/** The rows behind authorization and tenant resolution, and the uncached lookups over them. */
module Directory {
  import opened Basics
  import opened CacheKeys

  datatype Role = Role(id: nat, key: string)
  datatype RoleRow = RoleRow(role: Role, tenantId: string, deleted: bool)
  datatype UserRow = UserRow(id: nat, email: string, tenantId: string, deleted: bool)
  datatype Permission = Permission(id: nat, key: string)
  datatype Grant = Grant(roleId: nat, permissionId: nat, tenantId: string)
  datatype Tenant = Tenant(id: string, name: string, slug: string)
  datatype TenantRow = TenantRow(tenant: Tenant, active: bool, deleted: bool)

  datatype Source = Source(
    users: seq<UserRow>, roles: seq<RoleRow>, userRoles: set<(nat, nat)>,
    permissions: seq<Permission>, grants: set<Grant>,
    tenants: seq<TenantRow>,
    dashboard: (string, Option<string>, Option<string>) -> string)

  /** Some user of the tenant with this email, in any case, holds the role. */
  predicate Holds(src: Source, email: string, tenant: string, r: RoleRow) {
    r.tenantId == tenant && !r.deleted &&
    exists i :: 0 <= i < |src.users| && SameIgnoringCase(src.users[i].email, email)
      && src.users[i].tenantId == tenant && !src.users[i].deleted && (src.users[i].id, r.role.id) in src.userRoles
  }

  function FindRolesForUser(src: Source, email: string, tenant: string): seq<Role> {
    RolesAmong(src, email, tenant, src.roles)
  }

  function RolesAmong(src: Source, email: string, tenant: string, rows: seq<RoleRow>): seq<Role> {
    if rows == [] then []
    else (if Holds(src, email, tenant, rows[0]) then [rows[0].role] else []) + RolesAmong(src, email, tenant, rows[1..])
  }

  lemma {:induction false} RoleAmongIff(src: Source, email: string, tenant: string, rows: seq<RoleRow>, r: Role)
    ensures r in RolesAmong(src, email, tenant, rows)
       <==> exists i :: 0 <= i < |rows| && rows[i].role == r && Holds(src, email, tenant, rows[i])
    decreases |rows|
  {
    if rows != [] {
      RoleAmongIff(src, email, tenant, rows[1..], r);
      assert forall i :: 0 <= i < |rows| ==> i == 0 || rows[i] == rows[1..][i - 1];
      assert forall i :: 0 <= i < |rows| - 1 ==> rows[1..][i] == rows[i + 1];
    }
  }

  /** The role row is a live one of the tenant. */
  ghost predicate LiveRole(src: Source, r: Role, tenant: string) {
    exists i :: 0 <= i < |src.roles| && src.roles[i] == RoleRow(r, tenant, false)
  }

  /** A live user of the tenant with this email, in any case, has been given the role with this id. */
  ghost predicate GivenRole(src: Source, email: string, tenant: string, roleId: nat) {
    exists i :: 0 <= i < |src.users| && Lower(src.users[i].email) == Lower(email)
      && src.users[i].tenantId == tenant && !src.users[i].deleted && (src.users[i].id, roleId) in src.userRoles
  }

  /** A user holds exactly the live roles of the tenant that a live user row of the tenant with this email was given. */
  lemma RoleHeldIff(src: Source, email: string, tenant: string, r: Role)
    ensures r in FindRolesForUser(src, email, tenant) <==> LiveRole(src, r, tenant) && GivenRole(src, email, tenant, r.id)
  {
    RoleAmongIff(src, email, tenant, src.roles, r);
    forall i | 0 <= i < |src.users| ensures Lower(src.users[i].email) == Lower(email) <==> SameIgnoringCase(src.users[i].email, email) {
      LowerDecidesSameIgnoringCase(src.users[i].email, email);
    }
  }

  /** A permission granted in the tenant to one of the roles. */
  predicate Granted(src: Source, roleIds: seq<nat>, tenant: string, p: Permission) {
    exists g :: g in src.grants && g.permissionId == p.id && g.tenantId == tenant && g.roleId in roleIds
  }

  function FindPermissionsForRoles(src: Source, roleIds: seq<nat>, tenant: string): seq<Permission> {
    PermissionsAmong(src, roleIds, tenant, src.permissions)
  }

  function PermissionsAmong(src: Source, roleIds: seq<nat>, tenant: string, rows: seq<Permission>): (r: seq<Permission>)
    ensures forall p :: p in r <==> p in rows && Granted(src, roleIds, tenant, p)
  {
    if rows == [] then []
    else
      (if Granted(src, roleIds, tenant, rows[0]) then [rows[0]] else []) + PermissionsAmong(src, roleIds, tenant, rows[1..])
  }

  predicate LiveSlug(t: TenantRow, slug: string) { t.tenant.slug == slug && t.active && !t.deleted }

  predicate LiveId(t: TenantRow, id: string) { t.tenant.id == id && t.active && !t.deleted }

  function FindActiveBySlug(tenants: seq<TenantRow>, slug: string): Option<Tenant> {
    if tenants == [] then None
    else if LiveSlug(tenants[0], slug) then Some(tenants[0].tenant)
    else FindActiveBySlug(tenants[1..], slug)
  }

  function FindActiveById(tenants: seq<TenantRow>, id: string): Option<Tenant> {
    if tenants == [] then None
    else if LiveId(tenants[0], id) then Some(tenants[0].tenant)
    else FindActiveById(tenants[1..], id)
  }

  ghost predicate HasLiveSlug(tenants: seq<TenantRow>, slug: string) {
    exists i :: 0 <= i < |tenants| && tenants[i].tenant.slug == slug && tenants[i].active && !tenants[i].deleted
  }

  ghost predicate HasLiveId(tenants: seq<TenantRow>, id: string) {
    exists i :: 0 <= i < |tenants| && tenants[i].tenant.id == id && tenants[i].active && !tenants[i].deleted
  }

  /** A lookup by slug finds a tenant exactly when some row with it is live. */
  lemma {:induction false} SlugFoundIff(tenants: seq<TenantRow>, slug: string)
    ensures FindActiveBySlug(tenants, slug).Some? <==> HasLiveSlug(tenants, slug)
  {
    if tenants != [] {
      SlugFoundIff(tenants[1..], slug);
      assert forall i :: 0 <= i < |tenants| ==> i == 0 || tenants[i] == tenants[1..][i - 1];
      assert forall i :: 0 <= i < |tenants| - 1 ==> tenants[1..][i] == tenants[i + 1];
    }
  }

  /** So does a lookup by id. */
  lemma {:induction false} IdFoundIff(tenants: seq<TenantRow>, id: string)
    ensures FindActiveById(tenants, id).Some? <==> HasLiveId(tenants, id)
  {
    if tenants != [] {
      IdFoundIff(tenants[1..], id);
      assert forall i :: 0 <= i < |tenants| ==> i == 0 || tenants[i] == tenants[1..][i - 1];
      assert forall i :: 0 <= i < |tenants| - 1 ==> tenants[1..][i] == tenants[i + 1];
    }
  }

  /** What is cached: the three kinds of answer share one store. */
  datatype CacheValue = RolesValue(roles: seq<Role>) | TenantValue(tenant: Option<Tenant>) | OverviewValue(overview: string)

  /** The uncached answer to a question. */
  function Answer(src: Source, q: Question): CacheValue {
    match q
    case RolesOf(tenant, email) => RolesValue(FindRolesForUser(src, email, tenant))
    case TenantBySlug(slug) => TenantValue(FindActiveBySlug(src.tenants, slug))
    case TenantById(id) => TenantValue(FindActiveById(src.tenants, id))
    case DashboardOf(tenant, from, to) => OverviewValue(src.dashboard(tenant, from, to))
  }

  lemma {:induction false} RolesIgnoreCase(src: Source, a: string, b: string, tenant: string, rows: seq<RoleRow>)
    requires Lower(a) == Lower(b)
    ensures RolesAmong(src, a, tenant, rows) == RolesAmong(src, b, tenant, rows)
    decreases |rows|
  {
    if rows != [] {
      RolesIgnoreCase(src, a, b, tenant, rows[1..]);
    }
  }

  /** Questions that share a key have the same uncached answer. */
  lemma SameKeySameAnswer(src: Source, p: Question, q: Question)
    requires WellFormed(p) && WellFormed(q) && Key(p) == Key(q)
    ensures Answer(src, p) == Answer(src, q)
  {
    KeysNeverCollide(p, q);
    if p.RolesOf? {
      assert q.RolesOf?;
      RolesIgnoreCase(src, p.email, q.email, p.tenantId, src.roles);
    }
  }
}
