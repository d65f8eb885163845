/** The cache manager: a dictionary and an ordered key list updated in step, plus counters. */
module CacheManager {
  import opened Common
  import opened Ordering
  import opened CacheModel
  import opened CacheRuns

  function NotIn(keys: seq<Key>): Key -> bool {
    (k: Key) => k !in keys
  }

  function Without(st: State, keys: seq<Key>): State {
    st.(order := Filter(st.order, NotIn(keys)),
        entries := (map k | k in st.entries && k !in keys :: st.entries[k]),
        access := Filter(st.access, NotIn(keys)))
  }

  lemma {:induction false} FilterSame(s: seq<Key>, p: Key -> bool, q: Key -> bool)
    requires forall x :: x in s ==> (p(x) <==> q(x))
    ensures Filter(s, p) == Filter(s, q)
  {
    if s != [] { FilterSame(s[1..], p, q); }
  }

  lemma {:induction false} FilterDrop(s: seq<Key>, keys: seq<Key>, key: Key)
    ensures Filter(Filter(s, NotIn(keys)), Other(key)) == Filter(s, NotIn(keys + [key]))
  {
    if s != [] { FilterDrop(s[1..], keys, key); }
  }

  lemma WithoutSnoc(st: State, keys: seq<Key>, key: Key)
    ensures DropKey(Without(st, keys), key) == Without(st, keys + [key])
  {
    hide Filter;
    FilterDrop(st.order, keys, key);
    FilterDrop(st.access, keys, key);
    assert DropKey(Without(st, keys), key).entries == Without(st, keys + [key]).entries;
  }

  lemma WithoutNone(st: State)
    ensures Without(st, []) == st
  {
    FilterAll(st.order, NotIn([]));
    FilterAll(st.access, NotIn([]));
  }

  lemma WithoutExpired(st: State, now: real)
    requires InStep(st)
    ensures Without(st, Filter(st.order, (k: Key) => !Fresh(st.entries, now)(k))) == CleanupExpired(st, now)
  {
    hide NoRepeat;
    var expired := Filter(st.order, (k: Key) => !Fresh(st.entries, now)(k));
    FilterSame(st.order, NotIn(expired), Fresh(st.entries, now));
    FilterSame(st.access, NotIn(expired), Fresh(st.entries, now));
  }

  lemma WithoutPrefixed(st: State, prefix: string)
    requires InStep(st)
    ensures Without(st, Filter(st.order, HasPrefix(prefix))) == InvalidatePattern(st, prefix)
  {
    hide NoRepeat;
    var gone := Filter(st.order, HasPrefix(prefix));
    FilterSame(st.order, NotIn(gone), LacksPrefix(prefix));
    FilterSame(st.access, NotIn(gone), LacksPrefix(prefix));
  }

  lemma OpenNever(cfg: CacheConfig, st: State, clock: real)
    requires Structured(cfg, st, clock)
    ensures !st.circuitOpen && InStep(st) && |st.order| <= cfg.maxSize
  {
  }

  lemma CleanupKeepsCircuit(st: State, now: real)
    ensures CleanupExpired(st, now).circuitOpen == st.circuitOpen
  {
  }

  class EnhancedCacheManager {
    const cfg: CacheConfig
    var cache: map<Key, Entry>
    var cacheOrder: seq<Key>
    var accessOrder: seq<Key>
    var frequency: map<Key, nat>
    var hits: nat
    var misses: nat
    var evictions: nat
    var sets: nat
    var circuitOpen: bool
    var failureCount: nat
    var lastFailureTime: real

    ghost function Value(): State
      reads this
    {
      State(cacheOrder, cache, accessOrder, frequency, hits, misses, evictions, sets, circuitOpen, failureCount)
    }

    /** The structural invariant, with all accesses at or before the clock. */
    ghost predicate Valid(clock: real)
      reads this
    {
      cfg.maxSize >= 1 && Structured(cfg, Value(), clock)
    }

    constructor (cfg: CacheConfig)
      ensures this.cfg == cfg && Value() == EMPTY
    {
      this.cfg := cfg;
      cache, cacheOrder, accessOrder, frequency := map[], [], [], map[];
      hits, misses, evictions, sets := 0, 0, 0, 0;
      circuitOpen, failureCount, lastFailureTime := false, 0, 0.0;
    }

    /** Five failures in a row open the circuit; a success more than 60 seconds after the last failure closes it. */
    method UpdateCircuitBreaker(success: bool, now: real)
      modifies this`circuitOpen, this`failureCount, this`lastFailureTime
      ensures failureCount == if success then 0 else old(failureCount) + 1
      ensures circuitOpen == if success then old(circuitOpen) && now - old(lastFailureTime) <= 60.0
                             else old(circuitOpen) || old(failureCount) + 1 >= 5
      ensures lastFailureTime == if success then old(lastFailureTime) else now
    {
      if success {
        failureCount := 0;
        if circuitOpen && now - lastFailureTime > 60.0 {
          circuitOpen := false;
        }
      } else {
        failureCount := failureCount + 1;
        lastFailureTime := now;
        if failureCount >= 5 {
          circuitOpen := true;
        }
      }
    }

    method Remove(key: Key)
      modifies this`cache, this`cacheOrder, this`accessOrder
      ensures Value() == DropKey(old(Value()), key)
    {
      cache := cache - {key};
      cacheOrder := Filter(cacheOrder, Other(key));
      accessOrder := Filter(accessOrder, Other(key));
    }

    method RemoveEach(keys: seq<Key>)
      modifies this`cache, this`cacheOrder, this`accessOrder
      ensures Value() == Without(old(Value()), keys)
    {
      hide DropKey, Without;
      ghost var before := Value();
      WithoutNone(before);
      assert keys[..0] == [];
      for i := 0 to |keys|
        invariant Value() == Without(before, keys[..i])
      {
        Remove(keys[i]);
        WithoutSnoc(before, keys[..i], keys[i]);
        assert keys[..i + 1] == keys[..i] + [keys[i]];
      }
      assert keys[..|keys|] == keys;
    }

    method RemoveExpired(now: real)
      requires InStep(Value())
      modifies this`cache, this`cacheOrder, this`accessOrder
      ensures Value() == CleanupExpired(old(Value()), now)
    {
      WithoutExpired(Value(), now);
      var entries := cache;
      var expired := Filter(cacheOrder, (k: Key) => !Fresh(entries, now)(k));
      RemoveEach(expired);
    }

    method EvictOne()
      requires InStep(Value()) && cacheOrder != []
      modifies this
      ensures Value() == Evict(cfg, old(Value()))
    {
      hide Filter, NoRepeat;
      ghost var before := Value();
      NonEmptyAccess(before);
      var key;
      match cfg.policy {
        case LRU => key := accessOrder[0];
        case LFU => key := LeastFrequent(cacheOrder, cache);
        case FIFO => key := cacheOrder[0];
      }
      Remove(key);
      if cfg.metrics {
        evictions := evictions + 1;
      }
    }

    method RecordMiss()
      modifies this`misses
      ensures Value() == old(Value()).(misses := Bump(cfg, old(misses)))
    {
      if cfg.metrics { misses := misses + 1; }
    }

    method RecordHit(key: Key, now: real)
      requires key in cache && !circuitOpen
      modifies this
      ensures Value() == Touch(cfg, old(Value()), key, now)
    {
      hide Filter, MoveToEnd;
      var e := cache[key];
      cache := cache[key := e.(accessCount := e.accessCount + 1, lastAccess := now)];
      frequency := frequency[key := (if key in frequency then frequency[key] else 0) + 1];
      if cfg.policy == LRU {
        accessOrder := MoveToEnd(accessOrder, key);
      }
      if cfg.metrics { hits := hits + 1; }
      UpdateCircuitBreaker(true, now);
    }

    method Lookup(key: Key, version: int, t0: real, t1: real, t2: real, ghost clock: real) returns (r: PyValue)
      requires Valid(clock) && clock <= t0 <= t1 <= t2
      modifies this
      ensures Valid(t2)
      ensures Value() == Get(cfg, old(Value()), key, version, t0, t1, t2).0
      ensures r == Get(cfg, old(Value()), key, version, t0, t1, t2).1
      ensures cfg.metrics ==> hits + misses == old(hits) + old(misses) + 1
    {
      hide Filter, Structured, CleanupExpired, DropKey, Touch;
      ghost var before := Value();
      GetStructured(cfg, before, key, version, t0, t1, t2, clock);
      OpenNever(cfg, before, clock);
      CleanupKeepsCircuit(before, t0);
      RemoveExpired(t0);
      if key !in cache {
        RecordMiss();
        return PyNone;
      }
      var e := cache[key];
      if e.version != version && version != 0 {
        RecordMiss();
        return PyNone;
      }
      if cfg.baseTtl.None? || e.expiry > t1 {
        RecordHit(key, t2);
        return e.value;
      }
      Remove(key);
      RecordMiss();
      r := PyNone;
    }

    method WriteEntry(key: Key, e: Entry, now: real)
      requires !circuitOpen
      modifies this
      ensures Value() == Write(cfg, old(Value()), key, e)
    {
      hide Filter, MoveToEnd, AppendAbsent;
      cacheOrder := AppendAbsent(cacheOrder, key);
      cache := cache[key := e];
      accessOrder := AppendAbsent(accessOrder, key);
      frequency := frequency[key := (if key in frequency then frequency[key] else 0) + 1];
      if cfg.policy == LRU {
        accessOrder := MoveToEnd(accessOrder, key);
      }
      if cfg.metrics { sets := sets + 1; }
      UpdateCircuitBreaker(true, now);
    }

    /** TinyLFU-style admission: a full cache compares with the front of the access list. */
    method Admitted(key: Key) returns (admitted: bool)
      requires cfg.maxSize >= 1 && InStep(Value()) && !circuitOpen
      ensures admitted == Admits(cfg, Value(), key)
    {
      hide NoRepeat;
      if |cacheOrder| < cfg.maxSize {
        return true;
      }
      NonEmptyAccess(Value());
      var newFreq := if key in frequency then frequency[key] else 0;
      admitted := newFreq > cache[accessOrder[0]].accessCount;
    }

    method Put(key: Key, value: PyValue, ttl: Option<real>, version: int, volatility: real,
               t0: real, t1: real, t2: real, ghost clock: real)
      requires Valid(clock) && clock <= t0 <= t1 <= t2 && (ttl.None? ==> volatility != -1.0)
      modifies this
      ensures Valid(t2)
      ensures Value() == Set(cfg, old(Value()), key, value, ttl, version, volatility, t0, t1, t2)
    {
      hide Filter, NoRepeat, Structured, Victim, Write, Admits, EffectiveTtl, CleanupExpired, Evict;
      ghost var before := Value();
      OpenNever(cfg, before, clock);
      SetStructured(cfg, before, SetOp(key, value, ttl, version, volatility, t0, t1, t2), clock);
      var admitted := Admitted(key);
      if !admitted {
        return;
      }
      CleanupInStep(before, t0);
      RemoveExpired(t0);
      if |cacheOrder| >= cfg.maxSize {
        EvictOne();
      }
      assert Value() == MakeRoom(cfg, before, t0);
      MakeRoomFacts(cfg, before, t0);
      WriteEntry(key, Entry(value, t1 + EffectiveTtl(cfg, ttl, volatility), version, 1, t2), t2);
    }

    method Discard(key: Key, ghost clock: real)
      requires Valid(clock)
      modifies this
      ensures Valid(clock) && Value() == Invalidate(old(Value()), key)
      ensures cache == old(cache) - {key} && frequency == old(frequency)
    {
      DropStructured(cfg, Value(), key, clock);
      if key in cache {
        Remove(key);
      }
    }

    method DiscardPattern(prefix: string, ghost clock: real)
      requires Valid(clock)
      modifies this
      ensures Valid(clock) && Value() == InvalidatePattern(old(Value()), prefix)
      ensures forall k :: k in cache <==> k in old(cache) && !(|prefix| <= |k| && k[..|prefix|] == prefix)
      ensures (forall k :: k in cache ==> cache[k] == old(cache)[k]) && frequency == old(frequency)
    {
      PatternStructured(cfg, Value(), prefix, clock);
      WithoutPrefixed(Value(), prefix);
      RemoveEach(Filter(cacheOrder, HasPrefix(prefix)));
    }
  }
}
