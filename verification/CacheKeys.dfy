/** The keys that share one cache, and why no two questions ever share a key. */
module CacheKeys {
  import opened Basics

  /** A cached question. Dashboard bounds are the ISO texts of its dates. */
  datatype Question =
    | RolesOf(tenantId: string, email: string)
    | TenantBySlug(slug: string)
    | TenantById(id: string)
    | DashboardOf(dashboardTenant: string, from: Option<string>, to: Option<string>)

  const ROLES := "role-keys:"
  const SLUG := "tenant-resolve:slug:"
  const ID := "tenant-resolve:id:"
  const DASHBOARD := "dashboard-overview:"

  function Bound(date: Option<string>): string {
    if date.Some? then date.value else "none"
  }

  function Key(q: Question): string {
    match q
    case RolesOf(tenant, email) => ROLES + (tenant + ":" + Lower(email))
    case TenantBySlug(slug) => SLUG + slug
    case TenantById(id) => ID + id
    case DashboardOf(tenant, from, to) => DASHBOARD + (tenant + ":" + (Bound(from) + ":" + Bound(to)))
  }

  /** `toISOString()`: starts with a digit or a sign, and its one `Z` is its last character. */
  predicate IsIso(s: string) {
    s != "" && s[0] != 'n' && s[|s| - 1] == 'Z' && 'Z' !in s[..|s| - 1]
  }

  predicate IsoIfGiven(date: Option<string>) { date.Some? ==> IsIso(date.value) }

  /** Tenant ids are UUIDs: no colon. Nothing is asked of slugs, header ids or emails. */
  predicate WellFormed(q: Question) {
    match q
    case RolesOf(tenant, _) => ':' !in tenant
    case DashboardOf(tenant, from, to) => ':' !in tenant && IsoIfGiven(from) && IsoIfGiven(to)
    case _ => true
  }

  /** The question with its email in lower case: all that the key records of it. */
  function Canonical(q: Question): Question {
    match q
    case RolesOf(tenant, email) => RolesOf(tenant, Lower(email))
    case _ => q
  }

  // ---- reading a key back ----

  function TakeBound(s: string): (r: (Option<string>, string))
  {
    if s != "" && s[0] == 'n' then (None, if |s| >= 4 then s[4..] else "")
    else
      var z := IndexOf(s, 'Z');
      if z < |s| then (Some(s[..z + 1]), s[z + 1..]) else (None, s)
  }

  function Decode(key: string): Option<Question> {
    if ROLES <= key then
      var rest := key[|ROLES|..];
      var i := IndexOf(rest, ':');
      if i < |rest| then Some(RolesOf(rest[..i], rest[i + 1..])) else None
    else if SLUG <= key then Some(TenantBySlug(key[|SLUG|..]))
    else if ID <= key then Some(TenantById(key[|ID|..]))
    else if DASHBOARD <= key then
      var rest := key[|DASHBOARD|..];
      var i := IndexOf(rest, ':');
      if i == |rest| then None
      else
        var (from, rest') := TakeBound(rest[i + 1..]);
        if rest' == "" then None
        else Some(DashboardOf(rest[..i], from, TakeBound(rest'[1..]).0))
    else None
  }

  lemma TakeBoundReads(date: Option<string>, tail: string)
    requires IsoIfGiven(date)
    ensures TakeBound(Bound(date) + tail) == (date, tail)
  {
    var s := Bound(date) + tail;
    match date
    case None =>
      assert s[4..] == tail;
    case Some(iso) =>
      var body := iso[..|iso| - 1];
      assert iso == body + ['Z'];
      assert s == body + ['Z'] + tail;
      IndexAfter(body, 'Z', tail);
      assert s[..|iso|] == iso && s[|iso|..] == tail;
      assert s[0] == iso[0];
  }

  lemma SplitAtColon(tenant: string, rest: string)
    requires ':' !in tenant
    ensures var s := tenant + ":" + rest;
            var i := IndexOf(s, ':');
            i == |tenant| && s[..i] == tenant && s[i + 1..] == rest
  {
    IndexAfter(tenant, ':', rest);
  }

  /** The four literal prefixes exclude one another. */
  lemma PrefixesExclude(a: string, b: string, key: string, i: nat)
    requires i < |a| && i < |b| && a[i] != b[i] && a <= key
    ensures !(b <= key)
  {
    assert key[i] == a[i];
    assert |b| <= |key| ==> key[..|b|][i] == key[i];
  }

  lemma RangeReads(from: Option<string>, to: Option<string>)
    requires IsoIfGiven(from) && IsoIfGiven(to)
    ensures TakeBound(Bound(from) + ":" + Bound(to)) == (from, ":" + Bound(to))
    ensures TakeBound((":" + Bound(to))[1..]) == (to, "")
  {
    var tail := Bound(to);
    assert (Bound(from) + ":") + tail == Bound(from) + (":" + tail);
    TakeBoundReads(from, ":" + tail);
    assert (":" + tail)[1..] == tail + "";
    TakeBoundReads(to, "");
  }

  lemma DashboardPrefixAlone(rest: string)
    ensures var key := DASHBOARD + rest;
            DASHBOARD <= key && !(ROLES <= key) && !(SLUG <= key) && !(ID <= key) && key[|DASHBOARD|..] == rest
  {
    var key := DASHBOARD + rest;
    PrefixesExclude(DASHBOARD, ROLES, key, 0);
    PrefixesExclude(DASHBOARD, SLUG, key, 0);
    PrefixesExclude(DASHBOARD, ID, key, 0);
  }

  lemma RoundTripDashboard(tenant: string, from: Option<string>, to: Option<string>)
    requires ':' !in tenant && IsoIfGiven(from) && IsoIfGiven(to)
    ensures Decode(Key(DashboardOf(tenant, from, to))) == Some(DashboardOf(tenant, from, to))
  {
    var range := Bound(from) + ":" + Bound(to);
    DashboardPrefixAlone(tenant + ":" + range);
    SplitAtColon(tenant, range);
    RangeReads(from, to);
  }

  /** Every key can be read back to the question it was built from, up to the case of the email. */
  lemma KeysUniquelyDecodable(q: Question)
    requires WellFormed(q)
    ensures Decode(Key(q)) == Some(Canonical(q))
  {
    match q
    case RolesOf(tenant, email) =>
      assert Key(q)[|ROLES|..] == tenant + ":" + Lower(email);
      SplitAtColon(tenant, Lower(email));
    case TenantBySlug(slug) =>
      PrefixesExclude(SLUG, ROLES, Key(q), 0);
    case TenantById(id) =>
      PrefixesExclude(ID, ROLES, Key(q), 0);
      PrefixesExclude(ID, SLUG, Key(q), 15);
    case DashboardOf(tenant, from, to) =>
      RoundTripDashboard(tenant, from, to);
  }

  /** Keys collide only for the same question: never across kinds, tenants, ranges, ids or accounts. */
  lemma KeysNeverCollide(p: Question, q: Question)
    requires WellFormed(p) && WellFormed(q) && Key(p) == Key(q)
    ensures Canonical(p) == Canonical(q)
  {
    KeysUniquelyDecodable(p);
    KeysUniquelyDecodable(q);
  }

  /** Colon-free tenant ids are needed: with a colon two tenants would share a key. */
  lemma ColonInTenantCollides()
    ensures Key(RolesOf("a:b", "c")) == Key(RolesOf("a", "b:c"))
    ensures Canonical(RolesOf("a:b", "c")) != Canonical(RolesOf("a", "b:c"))
  {
    assert Lower("c") == "c";
    assert Lower("b:c") == "b:c";
    assert "a:b" + ":" + "c" == "a" + ":" + "b:c";
  }
}
