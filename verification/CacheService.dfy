/** The Redis-backed store, whose failures become misses and no-ops, and the read-through over it. */
module CacheService {
  import opened Basics
  import opened InMemoryCache
  import opened CacheKeys
  import opened Directory
  import opened GlobPattern

  /** How one remote operation goes: done, lost before it took effect, or done with the answer lost. */
  datatype Fault = Fine | Lost | Late

  // ---- what a remote operation does to the server, and what it never does ----

  /** `SET key value PX ttl`; the server refuses a lifetime that is not positive. */
  function Stored(server: Store<CacheValue>, key: string, value: CacheValue, ttlMs: int, now: int, fault: Fault): Store<CacheValue> {
    if fault == Lost || ttlMs <= 0 then server else server[key := CacheEntry(value, now + ttlMs)]
  }

  function Dropped(server: Store<CacheValue>, key: string, fault: Fault): Store<CacheValue> {
    if fault == Lost then server else server - {key}
  }

  /** Deletes the keys that a scan brought up and the pattern matches. */
  function ScanDropped(server: Store<CacheValue>, pattern: string, batches: seq<seq<string>>, fault: Fault): Store<CacheValue> {
    if fault == Lost then server
    else map key | key in server && !(InSome(batches, key) && Matches(pattern, key)) :: server[key]
  }

  predicate InSome(batches: seq<seq<string>>, key: string) {
    exists i :: 0 <= i < |batches| && key in batches[i]
  }

  /** Whatever an entry claims is what the source would answer. */
  ghost predicate Truthful(store: Store<CacheValue>, src: Source) {
    forall q: Question {:trigger Key(q)} :: WellFormed(q) && Key(q) in store ==> store[Key(q)].value == Answer(src, q)
  }

  lemma SetKeepsTruthful(store: Store<CacheValue>, src: Source, q: Question, expiresAt: int)
    requires Truthful(store, src) && WellFormed(q)
    ensures Truthful(store[Key(q) := CacheEntry(Answer(src, q), expiresAt)], src)
  {
    var after := store[Key(q) := CacheEntry(Answer(src, q), expiresAt)];
    forall p: Question | WellFormed(p) && Key(p) in after ensures after[Key(p)].value == Answer(src, p) {
      if Key(p) == Key(q) { SameKeySameAnswer(src, p, q); }
    }
  }

  /** Entries are only lost, never changed. */
  ghost predicate OnlyForgets(before: Store<CacheValue>, after: Store<CacheValue>) {
    forall key :: key in after ==> key in before && after[key] == before[key]
  }

  /** Losing entries never makes a store lie. */
  lemma LosingKeepsTruthful(before: Store<CacheValue>, after: Store<CacheValue>, src: Source)
    requires Truthful(before, src) && OnlyForgets(before, after)
    ensures Truthful(after, src)
  {
  }

  /** What the store puts in front of every key it uses on the server; elsewhere here it is left off. */
  const KEY_PREFIX := "cache:"

  /** With it or without it, the same keys match. */
  lemma KeyPrefixDoesNotMatter(prefix: string, key: string)
    ensures Matches(KEY_PREFIX + (prefix + "*"), KEY_PREFIX + key) <==> Matches(prefix + "*", key)
  {
    CommonFrontDoesNotMatter(KEY_PREFIX, prefix + "*", key);
  }

  /** For a literal prefix a complete scan deletes what the in-memory store would. */
  lemma ScanDropsThePrefix(server: Store<CacheValue>, prefix: string, batches: seq<seq<string>>, fault: Fault)
    requires Literal(prefix) && fault != Lost
    requires forall key :: key in server && prefix <= key ==> InSome(batches, key)
    ensures ScanDropped(server, prefix + "*", batches, fault) == WithoutPrefix(server, prefix)
  {
    forall key ensures Matches(prefix + "*", key) <==> prefix <= key { LiteralPrefixMatches(prefix, key); }
  }

  /** An incomplete or failing one never deletes anything else. */
  lemma ScanDropsNothingElse(server: Store<CacheValue>, prefix: string, batches: seq<seq<string>>, fault: Fault, key: string)
    requires Literal(prefix) && key in server && !(prefix <= key)
    ensures key in ScanDropped(server, prefix + "*", batches, fault)
  {
    LiteralPrefixMatches(prefix, key);
  }

  // ---- any sequence of requests and invalidations, each operation failing as it likes ----

  datatype Use =
    | Fill(q: Question, ttlMs: int, now: int, fault: Fault)
    | Forget(key: string, fault: Fault)
    | ForgetPrefix(prefix: string, batches: seq<seq<string>>, fault: Fault)

  /** The server after one use over the source: a filled key holds what was loaded. */
  function Used(server: Store<CacheValue>, src: Source, use: Use): Store<CacheValue> {
    match use
    case Fill(q, ttlMs, now, fault) => Stored(server, Key(q), Answer(src, q), ttlMs, now, fault)
    case Forget(key, fault) => Dropped(server, key, fault)
    case ForgetPrefix(prefix, batches, fault) => ScanDropped(server, prefix + "*", batches, fault)
  }

  function UsedAll(server: Store<CacheValue>, src: Source, uses: seq<Use>): Store<CacheValue>
    decreases |uses|
  {
    if uses == [] then server else UsedAll(Used(server, src, uses[0]), src, uses[1..])
  }

  ghost predicate Asked(uses: seq<Use>) {
    forall i :: 0 <= i < |uses| && uses[i].Fill? ==> WellFormed(uses[i].q)
  }

  lemma UseKeepsTruthful(server: Store<CacheValue>, src: Source, use: Use)
    requires Truthful(server, src) && (use.Fill? ==> WellFormed(use.q))
    ensures Truthful(Used(server, src, use), src)
  {
    if use.Fill? {
      SetKeepsTruthful(server, src, use.q, use.now + use.ttlMs);
    } else {
      LosingKeepsTruthful(server, Used(server, src, use), src);
    }
  }

  /** After any uses with any faults a read answers nothing, or exactly what the source would. */
  lemma {:induction false} FaultsNeverLie(server: Store<CacheValue>, src: Source, uses: seq<Use>, q: Question, now: int)
    requires Truthful(server, src) && Asked(uses) && WellFormed(q)
    ensures Truthful(UsedAll(server, src, uses), src)
    ensures var r := Read(UsedAll(server, src, uses), Key(q), now);
            r.Some? ==> r.value == Answer(src, q)
    decreases |uses|
  {
    if uses != [] {
      UseKeepsTruthful(server, src, uses[0]);
      FaultsNeverLie(Used(server, src, uses[0]), src, uses[1..], q, now);
    }
  }

  // ---- how long a filled key answers ----

  /** The use leaves this key alone: it is about other keys, or it was lost, or the server refused it. */
  ghost predicate LeavesAlone(use: Use, key: string) {
    match use
    case Fill(q, ttlMs, _, fault) => Key(q) != key || ttlMs <= 0 || fault == Lost
    case Forget(k, fault) => k != key || fault == Lost
    case ForgetPrefix(prefix, _, fault) => fault == Lost || (Literal(prefix) && !(prefix <= key))
  }

  ghost predicate AllLeaveAlone(uses: seq<Use>, key: string) {
    forall i :: 0 <= i < |uses| ==> LeavesAlone(uses[i], key)
  }

  lemma UseLeavesAlone(server: Store<CacheValue>, src: Source, use: Use, key: string)
    requires LeavesAlone(use, key)
    ensures key in Used(server, src, use) <==> key in server
    ensures key in server ==> Used(server, src, use)[key] == server[key]
  {
    if use.ForgetPrefix? && use.fault != Lost { LiteralPrefixMatches(use.prefix, key); }
  }

  lemma {:induction false} UsesLeaveAlone(server: Store<CacheValue>, src: Source, uses: seq<Use>, key: string)
    requires AllLeaveAlone(uses, key)
    ensures key in UsedAll(server, src, uses) <==> key in server
    ensures key in server ==> UsedAll(server, src, uses)[key] == server[key]
    decreases |uses|
  {
    if uses != [] {
      assert LeavesAlone(uses[0], key);
      UseLeavesAlone(server, src, uses[0], key);
      UsesLeaveAlone(Used(server, src, uses[0]), src, uses[1..], key);
    }
  }

  /**
   A fill that reaches the server answers exactly until its lifetime is over, and one that does not
   changes nothing, whatever uses of other keys follow.
   */
  lemma FilledForItsLifetime(server: Store<CacheValue>, src: Source, q: Question, ttlMs: int, at: int, fault: Fault,
                             uses: seq<Use>, now: int)
    requires AllLeaveAlone(uses, Key(q))
    ensures var end := UsedAll(Used(server, src, Fill(q, ttlMs, at, fault)), src, uses);
            Read(end, Key(q), now)
            == if fault == Lost || ttlMs <= 0 then Read(server, Key(q), now)
               else if now < at + ttlMs then Some(Answer(src, q)) else None
  {
    UsesLeaveAlone(Used(server, src, Fill(q, ttlMs, at, fault)), src, uses, Key(q));
  }

  /** A deleted key answers nothing more, until it is filled again; a deletion that was lost changes nothing. */
  lemma ForgottenUntilFilled(server: Store<CacheValue>, src: Source, key: string, fault: Fault, uses: seq<Use>, now: int)
    requires AllLeaveAlone(uses, key)
    ensures Read(UsedAll(Used(server, src, Forget(key, fault)), src, uses), key, now)
         == if fault == Lost then Read(server, key, now) else None
  {
    UsesLeaveAlone(Used(server, src, Forget(key, fault)), src, uses, key);
  }

  // ---- the store ----

  class RedisCacheStore {
    /** What the server holds; it expires entries by itself. */
    var server: Store<CacheValue>

    constructor ()
      ensures server == map[]
    {
      server := map[];
    }

    /** An answer is an entry that is still alive; a failure is a miss. */
    method Get(key: string, now: int, fault: Fault) returns (r: Option<CacheValue>)
      ensures r.Some? ==> key in server && now < server[key].expiresAt && r.value == server[key].value
      ensures r.None? ==> fault != Fine || key !in server || server[key].expiresAt <= now
      ensures r.Some? ==> fault == Fine
      ensures forall src, q :: Truthful(server, src) && WellFormed(q) && Key(q) == key && r.Some? ==> r.value == Answer(src, q)
    {
      if fault != Fine {
        return None;
      }
      r := Read(server, key, now);
    }

    method Set(key: string, value: CacheValue, ttlMs: int, now: int, fault: Fault)
      modifies this
      ensures server == Stored(old(server), key, value, ttlMs, now, fault)
    {
      if fault != Lost && ttlMs > 0 {
        server := server[key := CacheEntry(value, now + ttlMs)];
      }
    }

    method Delete(key: string, fault: Fault)
      modifies this
      ensures server == Dropped(old(server), key, fault)
      ensures forall src :: Truthful(old(server), src) ==> Truthful(server, src)
    {
      if fault != Lost {
        server := server - {key};
      }
    }

    /** Collects the matching keys of each batch until the cursor comes back to the start. */
    method ScanKeys(pattern: string, batches: seq<seq<string>>) returns (keys: seq<string>)
      ensures forall key :: key in keys <==> InSome(batches, key) && Matches(pattern, key)
    {
      keys := [];
      for i := 0 to |batches|
        invariant forall key :: key in keys <==> InSome(batches[..i], key) && Matches(pattern, key)
      {
        var page := Matching(pattern, batches[i]);
        keys := keys + page;
      }
      assert batches[..|batches|] == batches;
    }

    /** Deletes what the scan brought up; a failure deletes nothing. */
    method DeleteByPrefix(prefix: string, batches: seq<seq<string>>, fault: Fault)
      modifies this
      ensures server == ScanDropped(old(server), prefix + "*", batches, fault)
      ensures Literal(prefix) ==> forall key :: key in old(server) && !(prefix <= key) ==> key in server
      ensures forall src :: Truthful(old(server), src) ==> Truthful(server, src)
    {
      var keys := ScanKeys(prefix + "*", batches);
      if fault != Lost {
        server := map key | key in server && key !in keys :: server[key];
      }
      ghost var before := old(server);
      forall key | Literal(prefix) && key in before && !(prefix <= key) ensures key in server {
        ScanDropsNothingElse(before, prefix, batches, fault, key);
      }
    }
  }

  /** What the server returns of one batch. */
  function Matching(pattern: string, batch: seq<string>): (r: seq<string>)
    ensures forall key :: key in r <==> key in batch && Matches(pattern, key)
  {
    if batch == [] then []
    else Matching(pattern, batch[..|batch| - 1]) + if Matches(pattern, batch[|batch| - 1]) then [batch[|batch| - 1]] else []
  }

  class CacheService {
    const store: RedisCacheStore
    var hits: nat
    var misses: nat

    constructor (store: RedisCacheStore)
      ensures this.store == store && hits == 0 && misses == 0
    {
      this.store := store;
      hits, misses := 0, 0;
    }

    /**
     The cached value if the store answers with one, otherwise what `load` returns, which is then
     stored. Over a source that does not change the two are the same value.
     */
    method GetOrLoad(ghost src: Source, q: Question, ttlMs: int, load: () -> CacheValue, now: int, reading: Fault, writing: Fault)
      returns (value: CacheValue)
      requires WellFormed(q) && load() == Answer(src, q)
      requires Truthful(store.server, src)
      modifies this, store
      ensures value == Answer(src, q)
      ensures Truthful(store.server, src)
      ensures var served := reading == Fine && Read(old(store.server), Key(q), now).Some?;
              if served then store.server == old(store.server) && hits == old(hits) + 1 && misses == old(misses)
              else misses == old(misses) + 1 && hits == old(hits)
                   && store.server == Stored(old(store.server), Key(q), value, ttlMs, now, writing)
    {
      var cached := store.Get(Key(q), now, reading);
      if cached.Some? {
        hits := hits + 1;
        return cached.value;
      }
      misses := misses + 1;
      value := load();
      SetKeepsTruthful(store.server, src, q, now + ttlMs);
      store.Set(Key(q), value, ttlMs, now, writing);
    }
  }
}
