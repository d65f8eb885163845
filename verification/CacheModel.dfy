/** The bounded cache's operations as functions of its whole state. */
module CacheModel {
  import opened Common
  import opened Ordering

  type Key = string

  /** Any Python value; None is the one a caller cannot tell from a miss. */
  datatype PyValue = PyNone | PyObject(id: int)

  datatype Policy = LRU | LFU | FIFO

  datatype CacheConfig = CacheConfig(maxSize: int, baseTtl: Option<real>, policy: Policy, metrics: bool)

  datatype Entry = Entry(value: PyValue, expiry: real, version: int, accessCount: nat, lastAccess: real)

  /** order is the insertion order of the entries; access is the separate ordered key list. */
  datatype State = State(
    order: seq<Key>, entries: map<Key, Entry>, access: seq<Key>, frequency: map<Key, nat>,
    hits: nat, misses: nat, evictions: nat, sets: nat, circuitOpen: bool, failures: nat)

  const EMPTY := State([], map[], [], map[], 0, 0, 0, 0, false, 0)

  function Other(key: Key): Key -> bool {
    (k: Key) => k != key
  }

  function Fresh(entries: map<Key, Entry>, now: real): Key -> bool {
    (k: Key) => k in entries && !(entries[k].expiry < now)
  }

  function AppendAbsent(keys: seq<Key>, key: Key): seq<Key> {
    if key in keys then keys else keys + [key]
  }

  function MoveToEnd(keys: seq<Key>, key: Key): seq<Key> {
    Filter(keys, Other(key)) + [key]
  }

  function DropKey(st: State, key: Key): State {
    st.(order := Filter(st.order, Other(key)), entries := st.entries - {key}, access := Filter(st.access, Other(key)))
  }

  function CleanupExpired(st: State, now: real): State {
    var fresh' := Fresh(st.entries, now);
    st.(order := Filter(st.order, fresh'),
        entries := (map k | k in st.entries && fresh'(k) :: st.entries[k]),
        access := Filter(st.access, fresh'))
  }

  function FrequencyOf(st: State, key: Key): nat {
    if key in st.frequency then st.frequency[key] else 0
  }

  /** A full cache admits a key only if it is more frequent than the front of the access list was accessed. */
  predicate ShouldAdmit(cfg: CacheConfig, st: State, key: Key)
    requires |st.order| < cfg.maxSize || (st.access != [] && st.access[0] in st.entries)
  {
    |st.order| < cfg.maxSize || FrequencyOf(st, key) > st.entries[st.access[0]].accessCount
  }

  /** First key with the smallest access count. */
  function LeastFrequent(keys: seq<Key>, entries: map<Key, Entry>): (k: Key)
    requires keys != [] && forall x :: x in keys ==> x in entries
    ensures k in keys
    ensures forall x :: x in keys ==> entries[k].accessCount <= entries[x].accessCount
    decreases |keys|
  {
    if |keys| == 1 then keys[0]
    else
      var best := LeastFrequent(keys[..|keys| - 1], entries);
      var last := keys[|keys| - 1];
      assert keys == keys[..|keys| - 1] + [last];
      if entries[last].accessCount < entries[best].accessCount then last else best
  }

  /** The two key lists and the entries hold the same keys, each once. */
  ghost predicate InStep(st: State) {
    && NoRepeat(st.order) && NoRepeat(st.access)
    && (forall k :: k in st.order <==> k in st.entries)
    && (forall k :: k in st.access <==> k in st.entries)
  }

  ghost predicate NoRepeat(keys: seq<Key>) {
    forall i, j :: 0 <= i < j < |keys| ==> keys[i] != keys[j]
  }

  function Victim(cfg: CacheConfig, st: State): Key
    requires InStep(st) && st.order != []
  {
    NonEmptyAccess(st);
    match cfg.policy
    case LRU => st.access[0]
    case LFU => LeastFrequent(st.order, st.entries)
    case FIFO => st.order[0]
  }

  lemma NonEmptyAccess(st: State)
    requires InStep(st) && st.order != []
    ensures st.access != [] && st.access[0] in st.entries
  {
    assert st.order[0] in st.order;
    assert st.order[0] in st.access;
    assert st.access[0] in st.access;
  }

  function Bump(cfg: CacheConfig, n: nat): nat {
    if cfg.metrics then n + 1 else n
  }

  function Evict(cfg: CacheConfig, st: State): State
    requires InStep(st) && st.order != []
  {
    DropKey(st, Victim(cfg, st)).(evictions := Bump(cfg, st.evictions))
  }

  function Touch(cfg: CacheConfig, st: State, key: Key, now: real): State
    requires key in st.entries
  {
    var e := st.entries[key];
    st.(entries := st.entries[key := e.(accessCount := e.accessCount + 1, lastAccess := now)],
        frequency := st.frequency[key := FrequencyOf(st, key) + 1],
        access := if cfg.policy == LRU then MoveToEnd(st.access, key) else st.access,
        hits := Bump(cfg, st.hits), failures := 0)
  }

  /** Three clock readings: cleanup, expiry check, access time. */
  function Get(cfg: CacheConfig, st: State, key: Key, version: int, t0: real, t1: real, t2: real): (State, PyValue) {
    if st.circuitOpen then (st, PyNone)
    else
      var s := CleanupExpired(st, t0);
      if key !in s.entries then (s.(misses := Bump(cfg, s.misses)), PyNone)
      else
        var e := s.entries[key];
        if e.version != version && version != 0 then (s.(misses := Bump(cfg, s.misses)), PyNone)
        else if cfg.baseTtl.None? || e.expiry > t1 then (Touch(cfg, s, key, t2), e.value)
        else (DropKey(s, key).(misses := Bump(cfg, s.misses)), PyNone)
  }

  /** A missing or zero base TTL means 300 seconds to the TTL manager. */
  function BaseTtl(cfg: CacheConfig): real {
    if cfg.baseTtl.None? || cfg.baseTtl.value == 0.0 then 300.0 else cfg.baseTtl.value
  }

  function EffectiveTtl(cfg: CacheConfig, ttl: Option<real>, volatility: real): real
    requires ttl.None? ==> volatility != -1.0
  {
    if ttl.Some? then ttl.value else BaseTtl(cfg) * (1.0 / (1.0 + volatility))
  }

  function Write(cfg: CacheConfig, st: State, key: Key, e: Entry): State {
    var access := AppendAbsent(st.access, key);
    st.(order := AppendAbsent(st.order, key),
        entries := st.entries[key := e],
        access := if cfg.policy == LRU then MoveToEnd(access, key) else access,
        frequency := st.frequency[key := FrequencyOf(st, key) + 1],
        sets := Bump(cfg, st.sets), failures := 0)
  }

  /** Whether a set goes through: decided before expired entries are cleaned up. */
  predicate Admits(cfg: CacheConfig, st: State, key: Key)
    requires cfg.maxSize >= 1 && InStep(st)
  {
    if st.circuitOpen then false
    else if |st.order| >= cfg.maxSize then
      NonEmptyAccess(st);
      ShouldAdmit(cfg, st, key)
    else true
  }

  /** The state just before the entry is written. */
  function MakeRoom(cfg: CacheConfig, st: State, t0: real): State
    requires cfg.maxSize >= 1 && InStep(st)
  {
    CleanupInStep(st, t0);
    var s := CleanupExpired(st, t0);
    if |s.order| >= cfg.maxSize then Evict(cfg, s) else s
  }

  function Set(cfg: CacheConfig, st: State, key: Key, value: PyValue, ttl: Option<real>, version: int,
               volatility: real, t0: real, t1: real, t2: real): State
    requires cfg.maxSize >= 1 && InStep(st)
    requires ttl.None? ==> volatility != -1.0
  {
    if !Admits(cfg, st, key) then st
    else
      var e := Entry(value, t1 + EffectiveTtl(cfg, ttl, volatility), version, 1, t2);
      Write(cfg, MakeRoom(cfg, st, t0), key, e)
  }

  function Invalidate(st: State, key: Key): State {
    if key in st.entries then DropKey(st, key) else st
  }

  function HasPrefix(prefix: string): Key -> bool {
    (k: Key) => prefix <= k
  }

  function LacksPrefix(prefix: string): Key -> bool {
    (k: Key) => !(prefix <= k)
  }

  function InvalidatePattern(st: State, prefix: string): State {
    st.(order := Filter(st.order, LacksPrefix(prefix)),
        entries := (map k | k in st.entries && !(prefix <= k) :: st.entries[k]),
        access := Filter(st.access, LacksPrefix(prefix)))
  }

  // ---------------------------------------------------------------------------
  // Key lists under removal and appending
  // ---------------------------------------------------------------------------

  lemma {:induction false} FilterNoRepeat(keys: seq<Key>, keep: Key -> bool)
    requires NoRepeat(keys)
    ensures NoRepeat(Filter(keys, keep))
  {
    if keys != [] {
      FilterNoRepeat(keys[1..], keep);
      assert keys[0] !in keys[1..];
    }
  }

  lemma SnocNoRepeat(keys: seq<Key>, key: Key)
    requires NoRepeat(keys) && key !in keys
    ensures NoRepeat(keys + [key])
  {
    forall i, j | 0 <= i < j < |keys| + 1 ensures (keys + [key])[i] != (keys + [key])[j] {
      assert keys[i] in keys;
    }
  }

  lemma MoveToEndFacts(keys: seq<Key>, key: Key)
    requires NoRepeat(keys)
    ensures NoRepeat(MoveToEnd(keys, key))
    ensures forall k :: k in MoveToEnd(keys, key) <==> k in keys || k == key
  {
    FilterNoRepeat(keys, Other(key));
    SnocNoRepeat(Filter(keys, Other(key)), key);
  }

  lemma {:induction false} FilterLength(keys: seq<Key>, key: Key)
    requires NoRepeat(keys) && key in keys
    ensures |Filter(keys, Other(key))| == |keys| - 1
  {
    if keys[0] == key {
      assert key !in keys[1..];
      FilterAll(keys[1..], Other(key));
    } else {
      assert keys == [keys[0]] + keys[1..];
      FilterLength(keys[1..], key);
    }
  }

  lemma DropInStep(st: State, key: Key)
    requires InStep(st)
    ensures InStep(DropKey(st, key))
    ensures key in st.entries ==> |DropKey(st, key).order| == |st.order| - 1
  {
    FilterNoRepeat(st.order, Other(key));
    FilterNoRepeat(st.access, Other(key));
    if key in st.entries { FilterLength(st.order, key); }
  }

  lemma CleanupInStep(st: State, now: real)
    requires InStep(st)
    ensures InStep(CleanupExpired(st, now))
    ensures |CleanupExpired(st, now).order| <= |st.order|
  {
    FilterNoRepeat(st.order, Fresh(st.entries, now));
    FilterNoRepeat(st.access, Fresh(st.entries, now));
  }

  lemma PatternInStep(st: State, prefix: string)
    requires InStep(st)
    ensures InStep(InvalidatePattern(st, prefix))
  {
    FilterNoRepeat(st.order, LacksPrefix(prefix));
    FilterNoRepeat(st.access, LacksPrefix(prefix));
  }

  lemma VictimCached(cfg: CacheConfig, st: State)
    requires InStep(st) && st.order != []
    ensures Victim(cfg, st) in st.entries
  {
    NonEmptyAccess(st);
    assert st.order[0] in st.order;
  }

  /** s is st with some entries gone and nothing else changed but key lists and evictions. */
  ghost predicate Shrunk(st: State, s: State) {
    && (forall k :: k in s.entries ==> k in st.entries && s.entries[k] == st.entries[k])
    && s.frequency == st.frequency && s.circuitOpen == st.circuitOpen && s.failures == st.failures
    && s.hits == st.hits && s.misses == st.misses && s.sets == st.sets
  }

  lemma EvictFacts(cfg: CacheConfig, st: State)
    requires InStep(st) && st.order != []
    ensures InStep(Evict(cfg, st)) && Shrunk(st, Evict(cfg, st)) && |Evict(cfg, st).order| == |st.order| - 1
  {
    hide Victim, Filter, NoRepeat;
    VictimCached(cfg, st);
    DropInStep(st, Victim(cfg, st));
  }

  lemma MakeRoomFacts(cfg: CacheConfig, st: State, t0: real)
    requires cfg.maxSize >= 1 && InStep(st) && |st.order| <= cfg.maxSize
    ensures var s := MakeRoom(cfg, st, t0);
      InStep(s) && Shrunk(st, s) && |s.order| < cfg.maxSize
  {
    hide Victim, Filter, InStep, Evict;
    CleanupInStep(st, t0);
    var s := CleanupExpired(st, t0);
    assert Shrunk(st, s);
    if |s.order| >= cfg.maxSize {
      EvictFacts(cfg, s);
    }
  }

  lemma WriteInStep(cfg: CacheConfig, st: State, key: Key, e: Entry)
    requires InStep(st)
    ensures InStep(Write(cfg, st, key, e))
    ensures |Write(cfg, st, key, e).order| == |st.order| + (if key in st.entries then 0 else 1)
  {
    var access := AppendAbsent(st.access, key);
    MoveToEndFacts(access, key);
  }

  lemma TouchInStep(cfg: CacheConfig, st: State, key: Key, now: real)
    requires InStep(st) && key in st.entries
    ensures InStep(Touch(cfg, st, key, now))
  {
    MoveToEndFacts(st.access, key);
  }
}
