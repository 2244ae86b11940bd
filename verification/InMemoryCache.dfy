/** The in-memory TTL store: a map expired lazily on read, against a history of what was asked of it. */
module InMemoryCache {
  import opened Basics

  datatype CacheEntry<V> = CacheEntry(value: V, expiresAt: int)

  type Store<V> = map<string, CacheEntry<V>>

  /** What a read of `key` answers at `now`. */
  function Read<V>(store: Store<V>, key: string, now: int): Option<V> {
    if key in store && store[key].expiresAt > now then Some(store[key].value) else None
  }

  function WithoutPrefix<V>(store: Store<V>, prefix: string): Store<V> {
    map key | key in store && !(prefix <= key) :: store[key]
  }

  class InMemoryCacheStore<V> {
    var store: Store<V>

    constructor ()
      ensures store == map[]
    {
      store := map[];
    }

    /** An entry found expired is deleted on the way out. */
    method Get(key: string, now: int) returns (r: Option<V>)
      modifies this
      ensures r == Read(old(store), key, now)
      ensures store == Apply(old(store), Timed(now, Op.Get(key)))
    {
      if key !in store {
        return None;
      }
      if store[key].expiresAt <= now {
        store := store - {key};
        return None;
      }
      r := Some(store[key].value);
    }

    method Set(key: string, value: V, ttlMs: int, now: int)
      modifies this
      ensures store == Apply(old(store), Timed(now, Op.Set(key, value, ttlMs)))
    {
      store := store[key := CacheEntry(value, now + ttlMs)];
    }

    method Delete(key: string, ghost now: int)
      modifies this
      ensures store == Apply(old(store), Timed(now, Op.Delete(key)))
    {
      store := store - {key};
    }

    /** Visits every key, deleting while it goes. */
    method DeleteByPrefix(prefix: string, ghost now: int)
      modifies this
      ensures store == Apply(old(store), Timed(now, Op.DeleteByPrefix(prefix)))
    {
      var remaining := store.Keys;
      while remaining != {}
        invariant remaining <= store.Keys <= old(store).Keys
        invariant forall key :: key in store ==> store[key] == old(store)[key]
        invariant forall key :: key in old(store) && key !in remaining ==> (key in store <==> !(prefix <= key))
        decreases remaining
      {
        var key :| key in remaining;
        remaining := remaining - {key};
        if prefix <= key {
          store := store - {key};
        }
      }
    }

    method Clear(ghost now: int)
      modifies this
      ensures store == Apply(old(store), Timed(now, Op.Clear))
    {
      store := map[];
    }

    method Size() returns (n: nat)
      ensures n == |store|
    {
      n := |store|;
    }
  }

  // ---- histories ----

  datatype Op<V> = Get(key: string) | Set(key: string, value: V, ttlMs: int) | Delete(key: string) | DeleteByPrefix(prefix: string) | Clear

  datatype Timed<V> = Timed(now: int, op: Op<V>)

  function Apply<V>(store: Store<V>, t: Timed<V>): Store<V> {
    match t.op
    case Get(key) => if key in store && store[key].expiresAt <= t.now then store - {key} else store
    case Set(key, value, ttlMs) => store[key := CacheEntry(value, t.now + ttlMs)]
    case Delete(key) => store - {key}
    case DeleteByPrefix(prefix) => WithoutPrefix(store, prefix)
    case Clear => map[]
  }

  function StoreAfter<V>(history: seq<Timed<V>>): Store<V> {
    if history == [] then map[] else Apply(StoreAfter(history[..|history| - 1]), history[|history| - 1])
  }

  /** The entry that the last `set` of `key` wrote, unless something deleted it since. Reads do not matter. */
  function Latest<V>(history: seq<Timed<V>>, key: string): Option<CacheEntry<V>> {
    if history == [] then None
    else
      var earlier, last := history[..|history| - 1], history[|history| - 1];
      match last.op
      case Set(k, value, ttlMs) => if k == key then Some(CacheEntry(value, last.now + ttlMs)) else Latest(earlier, key)
      case Delete(k) => if k == key then None else Latest(earlier, key)
      case DeleteByPrefix(prefix) => if prefix <= key then None else Latest(earlier, key)
      case Clear => None
      case Get(_) => Latest(earlier, key)
  }

  /** The specification of a read: the latest surviving `set`, exactly while `now < setTime + ttl`. */
  function Visible<V>(history: seq<Timed<V>>, key: string, now: int): Option<V> {
    var e := Latest(history, key);
    if e.Some? && now < e.value.expiresAt then Some(e.value.value) else None
  }

  predicate InOrder<V>(history: seq<Timed<V>>) {
    forall i, j :: 0 <= i < j < |history| ==> history[i].now <= history[j].now
  }

  function LastTime<V>(history: seq<Timed<V>>, before: int): int {
    if history == [] then before else history[|history| - 1].now
  }

  /** The map holds the latest entry of each key, or nothing if it has already expired. */
  lemma {:induction false} StoreHoldsLatest<V>(history: seq<Timed<V>>, key: string)
    requires InOrder(history)
    ensures var e := Latest(history, key);
            if key in StoreAfter(history) then e == Some(StoreAfter(history)[key])
            else e.None? || (history != [] && e.value.expiresAt <= history[|history| - 1].now)
    decreases |history|
  {
    if history != [] {
      var earlier := history[..|history| - 1];
      StoreHoldsLatest(earlier, key);
      assert earlier != [] ==> earlier[|earlier| - 1] == history[|history| - 2];
    }
  }

  /** Lazy expiry cannot be observed: every read, after any history, answers as the specification does. */
  lemma ReadsMatchHistory<V>(history: seq<Timed<V>>, key: string, now: int)
    requires InOrder(history) && LastTime(history, now) <= now
    ensures Read(StoreAfter(history), key, now) == Visible(history, key, now)
  {
    StoreHoldsLatest(history, key);
  }

  /** Prefix deletion removes precisely the matching keys, to every later reader. */
  lemma PrefixDeletionIsPrecise<V>(history: seq<Timed<V>>, prefix: string, at: int, key: string, now: int)
    requires InOrder(history + [Timed(at, Op.DeleteByPrefix(prefix))]) && LastTime(history, at) <= at <= now
    ensures Read(StoreAfter(history + [Timed(at, Op.DeleteByPrefix(prefix))]), key, now)
         == if prefix <= key then None else Visible(history, key, now)
  {
    var longer := history + [Timed(at, Op.DeleteByPrefix(prefix))];
    assert longer[..|history|] == history;
    ReadsMatchHistory(longer, key, now);
  }

  /** The size counts at least every key that still reads as present. */
  lemma SizeCoversVisible<V>(history: seq<Timed<V>>, now: int, keys: set<string>)
    requires InOrder(history) && LastTime(history, now) <= now
    requires forall key :: key in keys ==> Visible(history, key, now).Some?
    ensures keys <= StoreAfter(history).Keys && |keys| <= |StoreAfter(history)|
  {
    forall key | key in keys ensures key in StoreAfter(history) {
      ReadsMatchHistory(history, key, now);
    }
    SmallerSet(keys, StoreAfter(history).Keys);
  }

  /** The order of times is needed: after a read in the future, a clock set back finds the entry gone. */
  lemma ClockSetBackForgets(key: string)
    ensures var history := [Timed(0, Op.Set(key, true, 10)), Timed(20, Op.Get(key))];
            Read(StoreAfter(history), key, 5).None? && Visible(history, key, 5) == Some(true)
  {
    var h1 := [Timed(0, Op.Set(key, true, 10))];
    var h2 := h1 + [Timed(20, Op.Get(key))];
    assert h2[..1] == h1 && h1[..0] == [];
    assert StoreAfter(h1) == map[key := CacheEntry(true, 10)];
    assert StoreAfter(h2) == map[key := CacheEntry(true, 10)] - {key};
    assert Latest(h1, key) == Some(CacheEntry(true, 10));
    assert h2 == [Timed(0, Op.Set(key, true, 10)), Timed(20, Op.Get(key))];
  }
}
