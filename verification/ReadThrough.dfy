/**
 Many `getOrLoad` calls interleaved over one shared store whose operations may fail. Each call
 reads, loads on a miss, stores and returns; between its steps time passes, other calls run,
 the source changes and entries are lost.
 */
module ReadThrough {

  /** What the uncached lookup of a key answers at a time. */
  type Source<V> = (int, string) -> V

  /** A stored value with the call that stored it, and when it was loaded and stored. */
  datatype Stored<V> = Stored(value: V, expiresAt: int, writer: nat, loadedAt: int, storedAt: int, ttl: int)

  datatype Call<V> =
    | Begun(key: string, ttl: int, begunAt: int)
    | Missed(key: string, ttl: int, begunAt: int)
    | Loaded(key: string, ttl: int, begunAt: int, value: V, loadedAt: int)
    | Hit(key: string, value: V, at: int, entry: Stored<V>)
    | Returned(key: string, value: V, begunAt: int, loadedAt: int, at: int)

  datatype State<V> = State(now: int, store: map<string, Stored<V>>, calls: seq<Call<V>>)

  datatype Step =
    | Tick(elapsed: nat)
    | Begin(key: string, ttlMs: int)
    | Get(id: nat, fails: bool)
    | Load(id: nat)
    | Set(id: nat, applied: bool)
    | Lose(keys: set<string>)

  /** An entry the store would still answer with. */
  predicate Fresh<V>(s: State<V>, key: string) {
    key in s.store && s.now < s.store[key].expiresAt
  }

  predicate Enabled<V>(s: State<V>, step: Step) {
    match step
    case Get(id, _) => id < |s.calls| && s.calls[id].Begun?
    case Load(id) => id < |s.calls| && s.calls[id].Missed?
    case Set(id, _) => id < |s.calls| && s.calls[id].Loaded?
    case _ => true
  }

  /** A failing read is a miss; a failing write may or may not have reached the store, and the value is returned anyway. */
  function Next<V>(s: State<V>, step: Step, source: Source<V>): State<V>
    requires Enabled(s, step)
  {
    match step
    case Tick(elapsed) => s.(now := s.now + elapsed)
    case Begin(key, ttl) => s.(calls := s.calls + [Begun(key, ttl, s.now)])
    case Get(id, fails) =>
      var c := s.calls[id];
      if !fails && Fresh(s, c.key)
      then s.(calls := s.calls[id := Hit(c.key, s.store[c.key].value, s.now, s.store[c.key])])
      else s.(calls := s.calls[id := Missed(c.key, c.ttl, c.begunAt)])
    case Load(id) =>
      var c := s.calls[id];
      s.(calls := s.calls[id := Loaded(c.key, c.ttl, c.begunAt, source(s.now, c.key), s.now)])
    case Set(id, applied) =>
      var c := s.calls[id];
      var done := s.(calls := s.calls[id := Returned(c.key, c.value, c.begunAt, c.loadedAt, s.now)]);
      if applied
      then done.(store := s.store[c.key := Stored(c.value, s.now + c.ttl, id, c.loadedAt, s.now, c.ttl)])
      else done
    case Lose(keys) => s.(store := s.store - keys)
  }

  /** The entry is what a finished call loaded for this very key, stored at most a lifetime before it expires. */
  ghost predicate EntryOk<V>(s: State<V>, key: string, e: Stored<V>, source: Source<V>) {
    e.value == source(e.loadedAt, key) && e.loadedAt <= e.storedAt <= s.now && e.expiresAt == e.storedAt + e.ttl
    && e.writer < |s.calls| && s.calls[e.writer].Returned? && s.calls[e.writer].key == key
    && s.calls[e.writer].value == e.value && s.calls[e.writer].loadedAt == e.loadedAt && s.calls[e.writer].at == e.storedAt
  }

  ghost predicate CallOk<V>(s: State<V>, c: Call<V>, source: Source<V>) {
    match c
    case Begun(_, _, begunAt) => begunAt <= s.now
    case Missed(_, _, begunAt) => begunAt <= s.now
    case Loaded(key, _, begunAt, value, loadedAt) => begunAt <= loadedAt <= s.now && value == source(loadedAt, key)
    case Hit(key, value, at, e) => EntryOk(s, key, e, source) && value == e.value && e.storedAt <= at < e.storedAt + e.ttl && at <= s.now
    case Returned(key, value, begunAt, loadedAt, at) => begunAt <= loadedAt <= at <= s.now && value == source(loadedAt, key)
  }

  ghost predicate Inv<V>(s: State<V>, source: Source<V>) {
    (forall key :: key in s.store ==> EntryOk(s, key, s.store[key], source))
    && (forall i :: 0 <= i < |s.calls| ==> CallOk(s, s.calls[i], source))
  }

  /** A finished call stays finished as it was. */
  lemma EntryStaysOk<V>(s: State<V>, step: Step, source: Source<V>, key: string, e: Stored<V>)
    requires Enabled(s, step) && EntryOk(s, key, e, source)
    ensures EntryOk(Next(s, step, source), key, e, source)
  {
  }

  lemma CallStaysOk<V>(s: State<V>, step: Step, source: Source<V>, c: Call<V>)
    requires Enabled(s, step) && CallOk(s, c, source)
    ensures CallOk(Next(s, step, source), c, source)
  {
    if c.Hit? { EntryStaysOk(s, step, source, c.key, c.entry); }
  }

  lemma NextKeepsInv<V>(s: State<V>, step: Step, source: Source<V>)
    requires Inv(s, source) && Enabled(s, step)
    ensures Inv(Next(s, step, source), source)
  {
    var after := Next(s, step, source);
    forall key | key in after.store ensures EntryOk(after, key, after.store[key], source) {
      if key in s.store && after.store[key] == s.store[key] {
        EntryStaysOk(s, step, source, key, s.store[key]);
      }
    }
    forall i | 0 <= i < |after.calls| ensures CallOk(after, after.calls[i], source) {
      if i < |s.calls| {
        CallStaysOk(s, step, source, s.calls[i]);
        if after.calls[i].Hit? && !s.calls[i].Hit? {
          EntryStaysOk(s, step, source, after.calls[i].key, after.calls[i].entry);
        }
      }
    }
  }

  /** A run: each step enabled where it is taken. */
  ghost predicate Runs<V>(s: State<V>, steps: seq<Step>, source: Source<V>, end: State<V>)
    decreases |steps|
  {
    if steps == [] then end == s
    else Enabled(s, steps[0]) && Runs(Next(s, steps[0], source), steps[1..], source, end)
  }

  lemma {:induction false} RunKeepsInv<V>(s: State<V>, steps: seq<Step>, source: Source<V>, end: State<V>)
    requires Inv(s, source) && Runs(s, steps, source, end)
    ensures Inv(end, source)
    decreases |steps|
  {
    if steps != [] {
      NextKeepsInv(s, steps[0], source);
      RunKeepsInv(Next(s, steps[0], source), steps[1..], source, end);
    }
  }

  /**
   Bounded staleness. In every interleaving from an empty store, a value returned on a hit was loaded
   for that key by another finished call and stored less than its lifetime before; a value returned on
   a miss was loaded by the call itself. Either way it is what the source answered at its load time.
   */
  lemma ReturnedValuesAreFresh<V>(start: int, steps: seq<Step>, source: Source<V>, end: State<V>, i: nat)
    requires Runs(State(start, map[], []), steps, source, end) && i < |end.calls|
    ensures match end.calls[i]
            case Hit(key, value, at, e) =>
              value == source(e.loadedAt, key)
              && e.loadedAt <= e.storedAt <= at < e.storedAt + e.ttl
              && at - e.loadedAt < e.ttl + (e.storedAt - e.loadedAt)
              && e.writer < |end.calls| && end.calls[e.writer].Returned? && end.calls[e.writer].key == key
              && end.calls[e.writer].value == value && end.calls[e.writer].loadedAt == e.loadedAt && end.calls[e.writer].at == e.storedAt
            case Returned(key, value, begunAt, loadedAt, at) =>
              value == source(loadedAt, key) && begunAt <= loadedAt <= at
            case _ => true
  {
    RunKeepsInv(State(start, map[], []), steps, source, end);
    assert CallOk(end, end.calls[i], source);
  }
}
