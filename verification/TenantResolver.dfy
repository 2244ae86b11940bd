/** Which tenant a request belongs to: hostname, then header, then the development default. */
module TenantResolver {
  import opened Basics
  import opened CacheKeys
  import opened Directory
  import opened CacheService
  import opened InMemoryCache

  const TENANT_RESOLVE_CACHE_TTL_MS := 60_000

  datatype Via = Hostname | Header | Default
  datatype ResolvedTenant = ResolvedTenant(tenant: Tenant, source: Via)

  /** A header as the framework delivers it. */
  datatype HeaderValue = Absent | One(text: string) | Many(texts: seq<string>)

  // ---- reading the request ----

  /** `s.split(c)`. */
  function Split(s: string, c: char): (parts: seq<string>)
    ensures |parts| >= 1
    decreases |s|
  {
    var i := IndexOf(s, c);
    if i == |s| then [s] else [s[..i]] + Split(s[i + 1..], c)
  }

  function Join(parts: seq<string>, c: char): string
    requires |parts| >= 1
  {
    if |parts| == 1 then parts[0] else parts[0] + [c] + Join(parts[1..], c)
  }

  lemma JoinFirst(first: string, rest: seq<string>, c: char)
    requires |rest| >= 1
    ensures Join([first] + rest, c) == first + [c] + Join(rest, c)
  {
    assert ([first] + rest)[1..] == rest;
  }

  /** The parts are those texts without the separator that it joins to the whole. */
  lemma {:induction false} SplitJoins(s: string, c: char)
    ensures Join(Split(s, c), c) == s
    ensures forall i :: 0 <= i < |Split(s, c)| ==> c !in Split(s, c)[i]
    decreases |s|
  {
    var i := IndexOf(s, c);
    if i < |s| {
      var rest := s[i + 1..];
      SplitJoins(rest, c);
      JoinFirst(s[..i], Split(rest, c), c);
      assert s == s[..i] + [c] + rest;
    }
  }

  /** `/^\d{1,3}(\.\d{1,3}){3}$/` on the dot-separated parts. */
  predicate IsIpv4(labels: seq<string>) {
    |labels| == 4 && forall i :: 0 <= i < 4 ==>
      1 <= |labels[i]| <= 3 && forall j :: 0 <= j < |labels[i]| ==> IsDigit(labels[i][j])
  }

  function ExtractHostnameSlugCandidate(hostname: Option<string>): Option<string> {
    if hostname.None? || hostname.value == "" then None
    else
      var labels := Split(Lower(hostname.value), '.');
      if IsIpv4(labels) || |labels| < 3 then None else Some(labels[0])
  }

  lemma LabelsAfterFirst(first: string, rest: string)
    requires '.' !in first
    ensures Split(first + "." + rest, '.') == [first] + Split(rest, '.')
    ensures |Split(rest, '.')| >= 2 <==> '.' in rest
  {
    var name := first + "." + rest;
    IndexAfter(first, '.', rest);
    assert name[..|first|] == first && name[|first| + 1..] == rest;
    var i := IndexOf(rest, '.');
    if i < |rest| { assert rest[i] == '.'; }
  }

  /** Where a name is a label, a dot and a rest, the candidate is that label or nothing. */
  lemma CandidateOfParts(hostname: string, first: string, rest: string)
    requires Lower(hostname) == first + "." + rest && '.' !in first
    ensures ExtractHostnameSlugCandidate(Some(hostname))
         == if '.' !in rest || IsIpv4(Split(Lower(hostname), '.')) then None else Some(first)
  {
    LabelsAfterFirst(first, rest);
  }

  /** Every name has no dot at all, or is cut by its first one. */
  lemma CutAtFirstDot(name: string) returns (first: string, rest: string)
    ensures '.' !in first && ('.' in name ==> name == first + "." + rest)
  {
    var i := IndexOf(name, '.');
    first, rest := name[..i], if i < |name| then name[i + 1..] else "";
  }

  /**
   A candidate is exactly what stands before the first dot of a name with two dots or more that is
   no IPv4 address; every other hostname gives none.
   */
  lemma CandidateIsLeftmostLabel(hostname: string, candidate: string)
    ensures ExtractHostnameSlugCandidate(Some(hostname)) == Some(candidate)
       <==> '.' !in candidate && !IsIpv4(Split(Lower(hostname), '.'))
            && exists rest {:trigger candidate + "." + rest} :: Lower(hostname) == candidate + "." + rest && '.' in rest
  {
    var name := Lower(hostname);
    var first, rest := CutAtFirstDot(name);
    if '.' in name {
      CandidateOfParts(hostname, first, rest);
    } else {
      assert Split(name, '.') == [name];
    }
    forall other | '.' !in candidate && name == candidate + "." + other && '.' in other
      ensures !IsIpv4(Split(name, '.')) ==> ExtractHostnameSlugCandidate(Some(hostname)) == Some(candidate)
    {
      CandidateOfParts(hostname, candidate, other);
    }
  }

  /** One to three digits. */
  predicate IsOctet(s: string) {
    1 <= |s| <= 3 && forall i :: 0 <= i < |s| ==> '0' <= s[i] <= '9'
  }

  ghost predicate DotFree(parts: seq<string>) {
    forall i :: 0 <= i < |parts| ==> '.' !in parts[i]
  }

  /** Joining is undone by splitting. */
  lemma {:induction false} JoinSplits(parts: seq<string>)
    requires |parts| >= 1 && DotFree(parts)
    ensures Split(Join(parts, '.'), '.') == parts
  {
    if |parts| > 1 {
      JoinSplits(parts[1..]);
      LabelsAfterFirst(parts[0], Join(parts[1..], '.'));
      assert parts == [parts[0]] + parts[1..];
    }
  }

  /** A name counts as an address exactly when it is four groups of one to three digits with dots between them. */
  lemma Ipv4Iff(name: string)
    ensures IsIpv4(Split(name, '.'))
       <==> exists parts :: |parts| == 4 && name == Join(parts, '.') && forall i :: 0 <= i < 4 ==> IsOctet(parts[i])
  {
    SplitJoins(name, '.');
    if IsIpv4(Split(name, '.')) {
      assert forall i :: 0 <= i < 4 ==> IsOctet(Split(name, '.')[i]);
    }
    if parts :| |parts| == 4 && name == Join(parts, '.') && forall i :: 0 <= i < 4 ==> IsOctet(parts[i]) {
      assert DotFree(parts);
      JoinSplits(parts);
    }
  }

  predicate IsSpace(c: char) { c == ' ' || 9 <= c as int <= 13 }

  function TrimStart(s: string): string {
    if s != "" && IsSpace(s[0]) then TrimStart(s[1..]) else s
  }

  function TrimEnd(s: string): string {
    if s != "" && IsSpace(s[|s| - 1]) then TrimEnd(s[..|s| - 1]) else s
  }

  function FirstHeader(value: HeaderValue): Option<string> {
    var first := match value
                 case Absent => None
                 case One(text) => Some(text)
                 case Many(texts) => if texts == [] then None else Some(texts[0]);
    if first.Some? && TrimEnd(TrimStart(first.value)) != "" then Some(TrimEnd(TrimStart(first.value))) else None
  }

  predicate AllSpace(s: string) {
    forall i :: 0 <= i < |s| ==> IsSpace(s[i])
  }

  /** Neither end is a space. */
  predicate Trimmed(s: string) {
    s != "" ==> !IsSpace(s[0]) && !IsSpace(s[|s| - 1])
  }

  lemma {:induction false} TrimStartAfter(lead: string, s: string)
    requires AllSpace(lead) && (s != "" ==> !IsSpace(s[0]))
    ensures TrimStart(lead + s) == s
  {
    if lead == "" {
      assert lead + s == s;
    } else {
      assert (lead + s)[1..] == lead[1..] + s;
      TrimStartAfter(lead[1..], s);
    }
  }

  lemma {:induction false} TrimEndBefore(s: string, trail: string)
    requires AllSpace(trail) && (s != "" ==> !IsSpace(s[|s| - 1]))
    ensures TrimEnd(s + trail) == s
    decreases |trail|
  {
    if trail == "" {
      assert s + trail == s;
    } else {
      assert (s + trail)[..|s + trail| - 1] == s + trail[..|trail| - 1];
      TrimEndBefore(s, trail[..|trail| - 1]);
    }
  }

  lemma {:induction false} CutStart(s: string) returns (lead: string)
    ensures s == lead + TrimStart(s) && AllSpace(lead) && (TrimStart(s) != "" ==> !IsSpace(TrimStart(s)[0]))
  {
    lead := "";
    if s != "" && IsSpace(s[0]) {
      var rest := CutStart(s[1..]);
      lead := [s[0]] + rest;
      assert s == [s[0]] + s[1..];
    }
  }

  lemma {:induction false} CutEnd(s: string) returns (trail: string)
    ensures s == TrimEnd(s) + trail && AllSpace(trail) && (TrimEnd(s) != "" ==> !IsSpace(TrimEnd(s)[|TrimEnd(s)| - 1]))
    ensures TrimEnd(s) != "" ==> TrimEnd(s)[0] == s[0]
    decreases |s|
  {
    trail := "";
    if s != "" && IsSpace(s[|s| - 1]) {
      var rest := CutEnd(s[..|s| - 1]);
      trail := rest + [s[|s| - 1]];
      assert s == s[..|s| - 1] + [s[|s| - 1]];
    }
  }

  /** The text is this core with nothing but space before and after it. */
  ghost predicate Around(text: string, lead: string, core: string, trail: string) {
    AllSpace(lead) && AllSpace(trail) && text == lead + core + trail
  }

  lemma TrimmedOf(text: string, lead: string, core: string, trail: string)
    requires Around(text, lead, core, trail) && Trimmed(core) && core != ""
    ensures TrimEnd(TrimStart(text)) == core
  {
    assert lead + core + trail == lead + (core + trail);
    TrimStartAfter(lead, core + trail);
    TrimEndBefore(core, trail);
  }

  lemma CutAround(text: string) returns (lead: string, trail: string)
    ensures Around(text, lead, TrimEnd(TrimStart(text)), trail) && Trimmed(TrimEnd(TrimStart(text)))
  {
    lead := CutStart(text);
    trail := CutEnd(TrimStart(text));
    assert lead + (TrimEnd(TrimStart(text)) + trail) == lead + TrimEnd(TrimStart(text)) + trail;
  }

  /** Trimming gives a core that is not empty exactly when that is what stands between the space at both ends. */
  lemma TrimIff(text: string, core: string)
    requires core != ""
    ensures TrimEnd(TrimStart(text)) == core <==> Trimmed(core) && exists lead, trail :: Around(text, lead, core, trail)
  {
    var lead, trail := CutAround(text);
    forall a, b | Around(text, a, core, b) && Trimmed(core) ensures TrimEnd(TrimStart(text)) == core {
      TrimmedOf(text, a, core, b);
    }
  }

  /** A header gives exactly its text without the space around it, if anything is left; the first of several texts counts. */
  lemma HeaderIsTrimmed(text: string, others: seq<string>, id: string)
    ensures FirstHeader(One(text)) == Some(id)
       <==> id != "" && Trimmed(id) && exists lead, trail :: Around(text, lead, id, trail)
    ensures FirstHeader(Many([text] + others)) == FirstHeader(One(text))
    ensures FirstHeader(Absent).None? && FirstHeader(Many([])).None?
  {
    if id != "" { TrimIff(text, id); }
  }

  // ---- resolution ----

  function Via1(tenant: Option<Tenant>, via: Via): Option<ResolvedTenant> {
    if tenant.Some? then Some(ResolvedTenant(tenant.value, via)) else None
  }

  function OrElse(first: Option<ResolvedTenant>, second: Option<ResolvedTenant>): Option<ResolvedTenant> {
    if first.Some? then first else second
  }

  /** First match without any cache: each candidate looked up directly. */
  function UncachedResolve(src: Source, hostname: Option<string>, header: HeaderValue, development: bool, defaultId: string): Option<ResolvedTenant> {
    var slug, id := ExtractHostnameSlugCandidate(hostname), FirstHeader(header);
    OrElse(if slug.Some? && slug.value != "" then Via1(FindActiveBySlug(src.tenants, slug.value), Hostname) else None,
    OrElse(if id.Some? then Via1(FindActiveById(src.tenants, id.value), Header) else None,
           if development then Via1(FindActiveById(src.tenants, defaultId), Default) else None))
  }

  /** A resolved tenant is always live, and never the development default outside development. */
  lemma ResolvedTenantIsLive(src: Source, hostname: Option<string>, header: HeaderValue, development: bool, defaultId: string)
    ensures var r := UncachedResolve(src, hostname, header, development, defaultId);
            r.Some? ==>
              (exists i :: 0 <= i < |src.tenants| && src.tenants[i].tenant == r.value.tenant
                           && src.tenants[i].active && !src.tenants[i].deleted)
              && (r.value.source == Hostname ==> ExtractHostnameSlugCandidate(hostname) == Some(r.value.tenant.slug))
              && (r.value.source == Header ==> FirstHeader(header) == Some(r.value.tenant.id))
              && (r.value.source == Default ==> development && r.value.tenant.id == defaultId)
  {
    var slug, id := ExtractHostnameSlugCandidate(hostname), FirstHeader(header);
    if slug.Some? { SlugLookupIsLive(src.tenants, slug.value); }
    if id.Some? { IdLookupIsLive(src.tenants, id.value); }
    IdLookupIsLive(src.tenants, defaultId);
  }

  /** The hostname names a live tenant. */
  ghost predicate HostnameNames(src: Source, hostname: Option<string>) {
    var slug := ExtractHostnameSlugCandidate(hostname);
    slug.Some? && slug.value != "" && HasLiveSlug(src.tenants, slug.value)
  }

  /** The header names a live tenant. */
  ghost predicate HeaderNames(src: Source, header: HeaderValue) {
    FirstHeader(header).Some? && HasLiveId(src.tenants, FirstHeader(header).value)
  }

  /**
   First match wins: the hostname if it names a live tenant, otherwise the header if that does, otherwise
   in development the default if it is live, otherwise nothing.
   */
  lemma FirstMatchWins(src: Source, hostname: Option<string>, header: HeaderValue, development: bool, defaultId: string)
    ensures var r := UncachedResolve(src, hostname, header, development, defaultId);
            var default := development && HasLiveId(src.tenants, defaultId);
            (r.Some? && r.value.source == Hostname <==> HostnameNames(src, hostname))
            && (r.Some? && r.value.source == Header <==> !HostnameNames(src, hostname) && HeaderNames(src, header))
            && (r.Some? && r.value.source == Default
                <==> !HostnameNames(src, hostname) && !HeaderNames(src, header) && default)
            && (r.None? <==> !HostnameNames(src, hostname) && !HeaderNames(src, header) && !default)
  {
    var slug, id := ExtractHostnameSlugCandidate(hostname), FirstHeader(header);
    if slug.Some? { SlugFoundIff(src.tenants, slug.value); }
    if id.Some? { IdFoundIff(src.tenants, id.value); }
    IdFoundIff(src.tenants, defaultId);
  }

  ghost predicate LiveAmong(tenants: seq<TenantRow>, t: Tenant) {
    exists i :: 0 <= i < |tenants| && tenants[i].tenant == t && tenants[i].active && !tenants[i].deleted
  }

  lemma {:induction false} SlugLookupIsLive(tenants: seq<TenantRow>, slug: string)
    ensures var r := FindActiveBySlug(tenants, slug);
            r.Some? ==> r.value.slug == slug && LiveAmong(tenants, r.value)
  {
    if tenants != [] {
      SlugLookupIsLive(tenants[1..], slug);
      var r := FindActiveBySlug(tenants[1..], slug);
      if r.Some? {
        var i :| 0 <= i < |tenants[1..]| && tenants[1..][i].tenant == r.value && tenants[1..][i].active && !tenants[1..][i].deleted;
        assert tenants[i + 1].tenant == r.value;
      }
    }
  }

  lemma {:induction false} IdLookupIsLive(tenants: seq<TenantRow>, id: string)
    ensures var r := FindActiveById(tenants, id);
            r.Some? ==> r.value.id == id && LiveAmong(tenants, r.value)
  {
    if tenants != [] {
      IdLookupIsLive(tenants[1..], id);
      var r := FindActiveById(tenants[1..], id);
      if r.Some? {
        var i :| 0 <= i < |tenants[1..]| && tenants[1..][i].tenant == r.value && tenants[1..][i].active && !tenants[1..][i].deleted;
        assert tenants[i + 1].tenant == r.value;
      }
    }
  }

  /** When a lookup happens, and how its cache read and cache write go. */
  datatype Conditions = Conditions(now: int, reading: Fault, writing: Fault)

  class TenantResolver {
    const source: Source
    const cache: CacheService
    const development: bool
    const defaultId: string

    constructor (source: Source, cache: CacheService, development: bool, defaultId: string)
      ensures this.source == source && this.cache == cache && this.development == development && this.defaultId == defaultId
    {
      this.source, this.cache, this.development, this.defaultId := source, cache, development, defaultId;
    }

    ghost predicate Valid()
      reads this, cache, cache.store
    {
      Truthful(cache.store.server, source)
    }

    method BySlug(slug: string, at: Conditions) returns (t: Option<Tenant>)
      requires Valid()
      modifies cache, cache.store
      ensures Valid() && t == FindActiveBySlug(source.tenants, slug)
      ensures old(Key(TenantBySlug(slug)) !in cache.store.server) && at.writing == Fine ==>
                forall later :: Read(cache.store.server, Key(TenantBySlug(slug)), later)
                                == if later < at.now + 60_000 then Some(TenantValue(t)) else None
    {
      var src := source;
      var value := cache.GetOrLoad(src, TenantBySlug(slug), TENANT_RESOLVE_CACHE_TTL_MS,
                                   () => TenantValue(FindActiveBySlug(src.tenants, slug)), at.now, at.reading, at.writing);
      t := value.tenant;
    }

    method ById(id: string, at: Conditions) returns (t: Option<Tenant>)
      requires Valid()
      modifies cache, cache.store
      ensures Valid() && t == FindActiveById(source.tenants, id)
      ensures old(Key(TenantById(id)) !in cache.store.server) && at.writing == Fine ==>
                forall later :: Read(cache.store.server, Key(TenantById(id)), later)
                                == if later < at.now + 60_000 then Some(TenantValue(t)) else None
    {
      var src := source;
      var value := cache.GetOrLoad(src, TenantById(id), TENANT_RESOLVE_CACHE_TTL_MS,
                                   () => TenantValue(FindActiveById(src.tenants, id)), at.now, at.reading, at.writing);
      t := value.tenant;
    }

    /**
     The cached resolution, an absent tenant cached like any other answer, is the uncached one,
     whatever the cache does at each of the up to three lookups.
     */
    method Resolve(hostname: Option<string>, header: HeaderValue, first: Conditions, second: Conditions, third: Conditions)
      returns (r: Option<ResolvedTenant>)
      requires Valid()
      modifies cache, cache.store
      ensures Valid() && r == UncachedResolve(source, hostname, header, development, defaultId)
    {
      var candidate := ExtractHostnameSlugCandidate(hostname);
      if candidate.Some? && candidate.value != "" {
        var tenant := BySlug(candidate.value, first);
        if tenant.Some? {
          return Some(ResolvedTenant(tenant.value, Hostname));
        }
      }
      var headerTenantId := FirstHeader(header);
      if headerTenantId.Some? {
        var tenant := ById(headerTenantId.value, second);
        if tenant.Some? {
          return Some(ResolvedTenant(tenant.value, Header));
        }
      }
      if development {
        var tenant := ById(defaultId, third);
        if tenant.Some? {
          return Some(ResolvedTenant(tenant.value, Default));
        }
      }
      r := None;
    }
  }
}
