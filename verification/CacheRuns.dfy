/** What every sequence of cache operations keeps, and what a get can return. */
module CacheRuns {
  import opened Common
  import opened Ordering
  import opened CacheModel

  datatype Op =
    | GetOp(key: Key, version: int, t0: real, t1: real, t2: real)
    | SetOp(key: Key, value: PyValue, ttl: Option<real>, version: int, volatility: real, t0: real, t1: real, t2: real)
    | InvalidateOp(key: Key)
    | PatternOp(prefix: string)

  /** The clock never runs backwards inside an operation, and a default TTL is never divided by zero. */
  predicate WellFormedOp(op: Op, clock: real) {
    match op
    case GetOp(_, _, t0, t1, t2) => clock <= t0 <= t1 <= t2
    case SetOp(_, _, ttl, _, volatility, t0, t1, t2) =>
      clock <= t0 <= t1 <= t2 && (ttl.None? ==> volatility != -1.0)
    case _ => true
  }

  function ClockAfter(op: Op, clock: real): real {
    match op
    case GetOp(_, _, _, _, t2) => t2
    case SetOp(_, _, _, _, _, _, _, t2) => t2
    case _ => clock
  }

  function Clock(ops: seq<Op>, start: real): real {
    if ops == [] then start else ClockAfter(ops[|ops| - 1], Clock(ops[..|ops| - 1], start))
  }

  predicate WellTimed(ops: seq<Op>, start: real) {
    ops == [] || (WellTimed(ops[..|ops| - 1], start) && WellFormedOp(ops[|ops| - 1], Clock(ops[..|ops| - 1], start)))
  }

  ghost predicate AccessedInOrder(st: State) {
    forall i, j :: 0 <= i < j < |st.access| && st.access[i] in st.entries && st.access[j] in st.entries ==>
      st.entries[st.access[i]].lastAccess <= st.entries[st.access[j]].lastAccess
  }

  /** The structure of the cache, kept by every operation. */
  ghost predicate Structured(cfg: CacheConfig, st: State, clock: real) {
    && InStep(st) && |st.order| <= cfg.maxSize
    && (forall k :: k in st.entries ==> 1 <= st.entries[k].accessCount <= FrequencyOf(st, k))
    && (forall k :: k in st.entries ==> st.entries[k].lastAccess <= clock)
    && !st.circuitOpen && st.failures == 0
    && (cfg.policy == LRU ==> AccessedInOrder(st))
    && (cfg.policy != LRU ==> st.order == st.access)
  }

  function Apply(cfg: CacheConfig, st: State, op: Op): State
    requires cfg.maxSize >= 1 && InStep(st)
    requires op.SetOp? && op.ttl.None? ==> op.volatility != -1.0
  {
    match op
    case GetOp(key, version, t0, t1, t2) => Get(cfg, st, key, version, t0, t1, t2).0
    case SetOp(key, value, ttl, version, volatility, t0, t1, t2) =>
      Set(cfg, st, key, value, ttl, version, volatility, t0, t1, t2)
    case InvalidateOp(key) => Invalidate(st, key)
    case PatternOp(prefix) => InvalidatePattern(st, prefix)
  }

  // ---------------------------------------------------------------------------
  // Access order
  // ---------------------------------------------------------------------------

  lemma {:induction false} FilterIndices(keys: seq<Key>, keep: Key -> bool, i: nat, j: nat) returns (a: nat, b: nat)
    requires i < j < |Filter(keys, keep)|
    ensures a < b < |keys| && keys[a] == Filter(keys, keep)[i] && keys[b] == Filter(keys, keep)[j]
  {
    var rest := Filter(keys[1..], keep);
    if keep(keys[0]) {
      if i == 0 {
        assert rest[j - 1] in keys[1..];
        var c :| 0 <= c < |keys[1..]| && keys[1..][c] == rest[j - 1];
        a, b := 0, c + 1;
      } else {
        a, b := FilterIndices(keys[1..], keep, i - 1, j - 1);
        a, b := a + 1, b + 1;
      }
    } else {
      a, b := FilterIndices(keys[1..], keep, i, j);
      a, b := a + 1, b + 1;
    }
  }

  /** Dropping keys from the access list keeps the rest in order. */
  lemma FilteredAccess(st: State, s: State, keep: Key -> bool)
    requires AccessedInOrder(st) && s.access == Filter(st.access, keep)
    requires forall k :: k in s.entries ==> k in st.entries && s.entries[k] == st.entries[k]
    ensures AccessedInOrder(s)
  {
    forall i, j | 0 <= i < j < |s.access| && s.access[i] in s.entries && s.access[j] in s.entries
      ensures s.entries[s.access[i]].lastAccess <= s.entries[s.access[j]].lastAccess
    {
      var a, b := FilterIndices(st.access, keep, i, j);
    }
  }

  /** Writing the newest entry and moving its key to the end keeps the list in access order. */
  lemma MovedAccess(st: State, s: State, key: Key, now: real, e: Entry)
    requires InStep(st) && AccessedInOrder(st)
    requires forall k :: k in st.entries ==> st.entries[k].lastAccess <= now
    requires e.lastAccess == now && s.entries == st.entries[key := e]
    requires s.access == Filter(st.access, Other(key)) + [key]
    ensures AccessedInOrder(s)
  {
    var kept := Filter(st.access, Other(key));
    forall i, j | 0 <= i < j < |s.access| ensures s.entries[s.access[i]].lastAccess <= s.entries[s.access[j]].lastAccess {
      assert s.access[i] in kept;
      if j < |kept| {
        var a, b := FilterIndices(st.access, Other(key), i, j);
        assert s.access[j] in kept;
      }
    }
  }

  lemma {:induction false} FilterAppended(keys: seq<Key>, key: Key)
    ensures Filter(AppendAbsent(keys, key), Other(key)) == Filter(keys, Other(key))
  {
    FilterConcat(keys, [key], Other(key));
    assert [key][1..] == [];
  }

  // ---------------------------------------------------------------------------
  // Every operation keeps the structure
  // ---------------------------------------------------------------------------

  lemma DropStructured(cfg: CacheConfig, st: State, key: Key, clock: real)
    requires Structured(cfg, st, clock)
    ensures Structured(cfg, DropKey(st, key), clock)
  {
    hide Filter, AccessedInOrder;
    DropInStep(st, key);
    if key !in st.entries { DropAbsent(st, key); }
    if cfg.policy == LRU { FilteredAccess(st, DropKey(st, key), Other(key)); }
  }

  lemma DropAbsent(st: State, key: Key)
    requires InStep(st) && key !in st.entries
    ensures DropKey(st, key) == st
  {
    hide NoRepeat;
    assert key !in st.order && key !in st.access;
    FilterAll(st.order, Other(key));
    FilterAll(st.access, Other(key));
    assert st.entries - {key} == st.entries;
  }

  lemma CleanupStructured(cfg: CacheConfig, st: State, now: real, clock: real)
    requires Structured(cfg, st, clock)
    ensures Structured(cfg, CleanupExpired(st, now), clock)
  {
    hide Filter, AccessedInOrder;
    CleanupInStep(st, now);
    if cfg.policy == LRU { FilteredAccess(st, CleanupExpired(st, now), Fresh(st.entries, now)); }
  }

  lemma {:induction false} FilterShrinks(keys: seq<Key>, keep: Key -> bool)
    ensures |Filter(keys, keep)| <= |keys|
  {
  }

  lemma PatternStructured(cfg: CacheConfig, st: State, prefix: string, clock: real)
    requires Structured(cfg, st, clock)
    ensures Structured(cfg, InvalidatePattern(st, prefix), clock)
  {
    hide Filter, AccessedInOrder;
    PatternInStep(st, prefix);
    FilterShrinks(st.order, LacksPrefix(prefix));
    if cfg.policy == LRU { FilteredAccess(st, InvalidatePattern(st, prefix), LacksPrefix(prefix)); }
  }

  lemma TouchStructured(cfg: CacheConfig, st: State, key: Key, clock: real, now: real)
    requires Structured(cfg, st, clock) && key in st.entries && clock <= now
    ensures Structured(cfg, Touch(cfg, st, key, now), now)
  {
    hide Filter, AccessedInOrder;
    TouchInStep(cfg, st, key, now);
    var e := st.entries[key];
    if cfg.policy == LRU {
      MovedAccess(st, Touch(cfg, st, key, now), key, now, e.(accessCount := e.accessCount + 1, lastAccess := now));
    }
  }

  lemma WriteStructured(cfg: CacheConfig, st: State, key: Key, clock: real, e: Entry)
    requires Structured(cfg, st, clock) && |st.order| < cfg.maxSize
    requires clock <= e.lastAccess && e.accessCount == 1
    ensures Structured(cfg, Write(cfg, st, key, e), e.lastAccess)
  {
    hide Filter, AccessedInOrder;
    WriteInStep(cfg, st, key, e);
    if cfg.policy == LRU {
      FilterAppended(st.access, key);
      MovedAccess(st, Write(cfg, st, key, e), key, e.lastAccess, e);
    }
  }

  lemma MakeRoomStructured(cfg: CacheConfig, st: State, t0: real, clock: real)
    requires cfg.maxSize >= 1 && Structured(cfg, st, clock)
    ensures Structured(cfg, MakeRoom(cfg, st, t0), clock) && |MakeRoom(cfg, st, t0).order| < cfg.maxSize
  {
    hide Filter, AccessedInOrder, Victim;
    MakeRoomFacts(cfg, st, t0);
    CleanupStructured(cfg, st, t0, clock);
    var s := CleanupExpired(st, t0);
    if |s.order| >= cfg.maxSize {
      DropStructured(cfg, s, Victim(cfg, s), clock);
      EvictIsDrop(cfg, s, clock);
    }
  }

  lemma EvictIsDrop(cfg: CacheConfig, st: State, clock: real)
    requires InStep(st) && st.order != [] && Structured(cfg, DropKey(st, Victim(cfg, st)), clock)
    ensures Structured(cfg, Evict(cfg, st), clock)
  {
    hide Filter, Victim, NoRepeat;
  }

  /** Every operation keeps the structure; a get counts exactly one hit or miss and nothing opens the circuit. */
  lemma StepStructured(cfg: CacheConfig, st: State, op: Op, clock: real)
    requires cfg.maxSize >= 1 && Structured(cfg, st, clock) && WellFormedOp(op, clock)
    ensures Structured(cfg, Apply(cfg, st, op), ClockAfter(op, clock))
    ensures op.GetOp? && cfg.metrics ==>
      Apply(cfg, st, op).hits + Apply(cfg, st, op).misses == st.hits + st.misses + 1
    ensures !op.GetOp? ==> Apply(cfg, st, op).hits == st.hits && Apply(cfg, st, op).misses == st.misses
  {
    hide Filter, InStep, AccessedInOrder, MakeRoom, Write, Victim;
    match op
    case GetOp(key, version, t0, t1, t2) =>
      GetStructured(cfg, st, key, version, t0, t1, t2, clock);
    case SetOp(key, value, ttl, version, volatility, t0, t1, t2) =>
      SetStructured(cfg, st, op, clock);
    case InvalidateOp(key) =>
      DropStructured(cfg, st, key, clock);
    case PatternOp(prefix) =>
      PatternStructured(cfg, st, prefix, clock);
  }

  lemma LaterClock(cfg: CacheConfig, st: State, clock: real, later: real)
    requires Structured(cfg, st, clock) && clock <= later
    ensures Structured(cfg, st, later)
    ensures Structured(cfg, st.(misses := Bump(cfg, st.misses)), later)
  {
    hide NoRepeat;
  }

  lemma GetStructured(cfg: CacheConfig, st: State, key: Key, version: int, t0: real, t1: real, t2: real, clock: real)
    requires Structured(cfg, st, clock) && clock <= t0 <= t1 <= t2
    ensures var (next, _) := Get(cfg, st, key, version, t0, t1, t2);
      && Structured(cfg, next, t2)
      && (cfg.metrics ==> next.hits + next.misses == st.hits + st.misses + 1)
  {
    hide Filter, InStep, AccessedInOrder;
    CleanupStructured(cfg, st, t0, clock);
    var s := CleanupExpired(st, t0);
    LaterClock(cfg, s, clock, t2);
    if key in s.entries {
      TouchStructured(cfg, s, key, clock, t2);
      DropStructured(cfg, s, key, clock);
      LaterClock(cfg, DropKey(s, key), clock, t2);
    }
  }

  lemma SetStructured(cfg: CacheConfig, st: State, op: Op, clock: real)
    requires cfg.maxSize >= 1 && Structured(cfg, st, clock) && op.SetOp? && WellFormedOp(op, clock)
    ensures var next := Set(cfg, st, op.key, op.value, op.ttl, op.version, op.volatility, op.t0, op.t1, op.t2);
      Structured(cfg, next, op.t2) && next.hits == st.hits && next.misses == st.misses
  {
    hide Filter, AccessedInOrder, Victim, NoRepeat, MakeRoom, MoveToEnd, AppendAbsent;
    LaterClock(cfg, st, clock, op.t2);
    if Admits(cfg, st, op.key) {
      MakeRoomStructured(cfg, st, op.t0, clock);
      MakeRoomFacts(cfg, st, op.t0);
      var e := Entry(op.value, op.t1 + EffectiveTtl(cfg, op.ttl, op.volatility), op.version, 1, op.t2);
      WriteStructured(cfg, MakeRoom(cfg, st, op.t0), op.key, clock, e);
    }
  }

  /** The state after a whole run. */
  function Run(cfg: CacheConfig, ops: seq<Op>, start: real): (st: State)
    requires cfg.maxSize >= 1 && WellTimed(ops, start)
    ensures Structured(cfg, st, Clock(ops, start))
    decreases |ops|
  {
    if ops == [] then EMPTY
    else
      var before := Run(cfg, ops[..|ops| - 1], start);
      StepStructured(cfg, before, ops[|ops| - 1], Clock(ops[..|ops| - 1], start));
      Apply(cfg, before, ops[|ops| - 1])
  }

  function Gets(ops: seq<Op>): nat {
    if ops == [] then 0 else Gets(ops[..|ops| - 1]) + if ops[|ops| - 1].GetOp? then 1 else 0
  }

  /** Over every run: same keys in both containers, bounded size, and hits + misses = gets. */
  lemma {:induction false} RunStructure(cfg: CacheConfig, ops: seq<Op>, start: real)
    requires cfg.maxSize >= 1 && WellTimed(ops, start)
    ensures var st := Run(cfg, ops, start);
      && InStep(st) && |st.order| <= cfg.maxSize && !st.circuitOpen
      && (forall k :: k in st.entries ==> 1 <= st.entries[k].accessCount <= FrequencyOf(st, k))
      && (cfg.policy == LRU ==> AccessedInOrder(st))
      && (cfg.policy != LRU ==> st.order == st.access)
      && (cfg.metrics ==> st.hits + st.misses == Gets(ops))
    decreases |ops|
  {
    hide Apply, NoRepeat;
    if ops != [] {
      var init := ops[..|ops| - 1];
      RunStructure(cfg, init, start);
      StepStructured(cfg, Run(cfg, init, start), ops[|ops| - 1], Clock(init, start));
    }
  }

  /** The LRU victim has the oldest access of all cached keys, the LFU one the fewest accesses; the FIFO one is listed first. */
  lemma VictimIsRight(cfg: CacheConfig, st: State, clock: real)
    requires Structured(cfg, st, clock) && st.order != []
    ensures Victim(cfg, st) in st.entries
    ensures cfg.policy == LRU ==>
      forall k :: k in st.entries ==> st.entries[Victim(cfg, st)].lastAccess <= st.entries[k].lastAccess
    ensures cfg.policy == LFU ==>
      forall k :: k in st.entries ==> st.entries[Victim(cfg, st)].accessCount <= st.entries[k].accessCount
    ensures cfg.policy == FIFO ==>
      forall k :: k in st.entries && k != Victim(cfg, st) ==> k in st.order[1..]
  {
    VictimCached(cfg, st);
    NonEmptyAccess(st);
    assert st.order == [st.order[0]] + st.order[1..];
    if cfg.policy == LRU {
      forall k | k in st.entries ensures st.entries[st.access[0]].lastAccess <= st.entries[k].lastAccess {
        assert k in st.access;
        var i :| 0 <= i < |st.access| && st.access[i] == k;
      }
    }
  }

  // ---------------------------------------------------------------------------
  // What a get can return
  // ---------------------------------------------------------------------------

  ghost predicate AdmittedAt(cfg: CacheConfig, ops: seq<Op>, start: real, m: nat, key: Key)
    requires cfg.maxSize >= 1 && WellTimed(ops, start)
  {
    && m < |ops| && ops[m].SetOp? && ops[m].key == key
    && WellTimed(ops[..m], start)
    && Admits(cfg, Run(cfg, ops[..m], start), key)
  }

  /** m is the last admitted set of key, and key has been cached ever since. */
  ghost predicate Source(cfg: CacheConfig, ops: seq<Op>, start: real, key: Key, m: nat)
    requires cfg.maxSize >= 1 && WellTimed(ops, start)
  {
    && AdmittedAt(cfg, ops, start, m, key)
    && (forall j :: m < j < |ops| ==> !AdmittedAt(cfg, ops, start, j, key))
    && (forall j :: m < j <= |ops| ==> WellTimed(ops[..j], start) && key in Run(cfg, ops[..j], start).entries)
  }

  ghost predicate SourceOf(cfg: CacheConfig, ops: seq<Op>, start: real, key: Key, m: nat, value: PyValue, version: int)
    requires cfg.maxSize >= 1 && WellTimed(ops, start)
  {
    Source(cfg, ops, start, key, m) && ops[m].value == value && ops[m].version == version
  }

  /** One operation changes a cached value only by an admitted set of that key. */
  lemma StepKeepsValue(cfg: CacheConfig, st: State, op: Op, clock: real, key: Key)
    requires cfg.maxSize >= 1 && Structured(cfg, st, clock) && WellFormedOp(op, clock)
    requires key in Apply(cfg, st, op).entries
    ensures op.SetOp? && op.key == key && Admits(cfg, st, key) ==>
      Apply(cfg, st, op).entries[key].value == op.value && Apply(cfg, st, op).entries[key].version == op.version
    ensures !(op.SetOp? && op.key == key && Admits(cfg, st, key)) ==>
      && key in st.entries
      && Apply(cfg, st, op).entries[key].value == st.entries[key].value
      && Apply(cfg, st, op).entries[key].version == st.entries[key].version
  {
    hide Filter, AccessedInOrder, Victim, NoRepeat, MakeRoom, ShouldAdmit;
    if op.SetOp? && Admits(cfg, st, op.key) {
      MakeRoomFacts(cfg, st, op.t0);
    }
  }

  lemma TimedPrefix(ops: seq<Op>, op: Op, start: real)
    requires WellTimed(ops + [op], start)
    ensures WellTimed(ops, start) && WellFormedOp(op, Clock(ops, start))
    ensures Clock(ops + [op], start) == ClockAfter(op, Clock(ops, start))
  {
    assert (ops + [op])[..|ops|] == ops;
  }

  lemma RunSnoc(cfg: CacheConfig, ops: seq<Op>, op: Op, start: real)
    requires cfg.maxSize >= 1 && WellTimed(ops + [op], start)
    ensures WellTimed(ops, start)
    ensures Run(cfg, ops + [op], start) == Apply(cfg, Run(cfg, ops, start), op)
  {
    hide Apply, Structured;
    assert (ops + [op])[..|ops|] == ops;
  }

  lemma SourceExtends(cfg: CacheConfig, ops: seq<Op>, op: Op, start: real, key: Key, m: nat)
    requires cfg.maxSize >= 1 && WellTimed(ops + [op], start) && WellTimed(ops, start)
    requires Source(cfg, ops, start, key, m)
    requires key in Run(cfg, ops + [op], start).entries
    requires !(op.SetOp? && op.key == key && Admits(cfg, Run(cfg, ops, start), key))
    ensures Source(cfg, ops + [op], start, key, m)
  {
    hide Run, Admits, WellTimed;
    var all := ops + [op];
    assert all[..m] == ops[..m];
    assert all[..|ops|] == ops && all[..|all|] == all;
    forall j | m < j < |all| ensures !AdmittedAt(cfg, all, start, j, key) {
      if j < |ops| {
        assert all[..j] == ops[..j];
        assert !AdmittedAt(cfg, ops, start, j, key);
      }
    }
    forall j | m < j <= |all| ensures WellTimed(all[..j], start) && key in Run(cfg, all[..j], start).entries {
      if j <= |ops| { assert all[..j] == ops[..j]; }
    }
  }

  /** Every cached entry holds the value of the last admitted set of its key since it last left the cache. */
  lemma {:induction false} EntryComesFromSource(cfg: CacheConfig, ops: seq<Op>, start: real, key: Key)
    requires cfg.maxSize >= 1 && WellTimed(ops, start)
    requires key in Run(cfg, ops, start).entries
    ensures exists m: nat :: SourceOf(cfg, ops, start, key, m, Run(cfg, ops, start).entries[key].value,
                                      Run(cfg, ops, start).entries[key].version)
    decreases |ops|
  {
    hide Apply, Admits, Structured;
    if ops != [] {
      var init, op := ops[..|ops| - 1], ops[|ops| - 1];
      assert ops == init + [op];
      TimedPrefix(init, op, start);
      RunSnoc(cfg, init, op, start);
      var before := Run(cfg, init, start);
      StepKeepsValue(cfg, before, op, Clock(init, start), key);
      var now := Run(cfg, ops, start).entries[key];
      StructuredInStep(cfg, before, Clock(init, start));
      if op.SetOp? && op.key == key && Admits(cfg, before, key) {
        assert ops[..|ops|] == ops;
        assert SourceOf(cfg, ops, start, key, |init|, now.value, now.version);
      } else {
        EntryComesFromSource(cfg, init, start, key);
        var m: nat :| SourceOf(cfg, init, start, key, m, before.entries[key].value, before.entries[key].version);
        SourceExtends(cfg, init, op, start, key, m);
        assert SourceOf(cfg, ops, start, key, m, now.value, now.version);
      }
    }
  }

  lemma StructuredInStep(cfg: CacheConfig, st: State, clock: real)
    requires Structured(cfg, st, clock)
    ensures InStep(st)
  {
  }

  /** A get returns None, or the value of the last admitted set of the key since it last left the cache. */
  lemma GetReturnsSource(cfg: CacheConfig, ops: seq<Op>, start: real, key: Key, version: int,
                         t0: real, t1: real, t2: real)
    requires cfg.maxSize >= 1 && WellTimed(ops, start)
    ensures var v := Get(cfg, Run(cfg, ops, start), key, version, t0, t1, t2).1;
      v != PyNone ==>
        && key in Run(cfg, ops, start).entries
        && (version == 0 || Run(cfg, ops, start).entries[key].version == version)
        && exists m: nat :: SourceOf(cfg, ops, start, key, m, v, Run(cfg, ops, start).entries[key].version)
  {
    hide Run, Filter;
    if key in Run(cfg, ops, start).entries { EntryComesFromSource(cfg, ops, start, key); }
  }

  /**
   * A set is readable at once exactly when it was admitted (or the same value was already there): a full
   * cache that refuses an overwrite keeps answering with the old value.
   */
  lemma SetThenGet(cfg: CacheConfig, st: State, op: Op, clock: real)
    requires cfg.maxSize >= 1 && Structured(cfg, st, clock) && op.SetOp? && WellFormedOp(op, clock)
    requires EffectiveTtl(cfg, op.ttl, op.volatility) > op.t2 - op.t1
    requires op.value != PyNone
    ensures var next := Apply(cfg, st, op);
      Get(cfg, next, op.key, 0, op.t2, op.t2, op.t2).1 == op.value <==>
        Admits(cfg, st, op.key) || Get(cfg, st, op.key, 0, op.t2, op.t2, op.t2).1 == op.value
  {
    hide Filter, AccessedInOrder, Victim, NoRepeat, MakeRoom, ShouldAdmit;
    if Admits(cfg, st, op.key) { MakeRoomFacts(cfg, st, op.t0); }
  }

  lemma TimedTwice(a: Op, b: Op, start: real)
    requires WellFormedOp(a, start) && WellFormedOp(b, ClockAfter(a, start))
    ensures WellTimed([a], start) && WellTimed([a, b], start)
    ensures [a, b] == [a] + [b] && [a] == [] + [a]
  {
    assert [a, b][..1] == [a] && [a][..0] == [];
    assert Clock([a], start) == ClockAfter(a, start);
  }

  lemma FirstSet(cfg: CacheConfig, op: Op)
    requires cfg.maxSize >= 1 && op.SetOp? && op.ttl.None? && op.volatility == 0.0
    ensures Apply(cfg, EMPTY, op)
         == State([op.key], map[op.key := Entry(op.value, op.t1 + BaseTtl(cfg), op.version, 1, op.t2)], [op.key],
                  map[op.key := 1], 0, 0, 0, Bump(cfg, 0), false, 0)
  {
    assert CleanupExpired(EMPTY, op.t0) == EMPTY;
    assert MakeRoom(cfg, EMPTY, op.t0) == EMPTY;
    assert Filter([op.key], Other(op.key)) == [] by { assert [op.key][1..] == []; }
    assert BaseTtl(cfg) * (1.0 / (1.0 + 0.0)) == BaseTtl(cfg);
  }

  /** With one slot, a second set of the same key is refused and a get still returns the first value. */
  lemma OverwriteCanBeRefused()
    ensures var cfg := CacheConfig(1, None, LRU, true);
      var first := SetOp("k", PyObject(1), None, 0, 0.0, 0.0, 0.0, 0.0);
      var second := SetOp("k", PyObject(2), None, 0, 0.0, 1.0, 1.0, 1.0);
      && WellTimed([first, second], 0.0)
      && Get(cfg, Run(cfg, [first, second], 0.0), "k", 0, 2.0, 2.0, 2.0).1 == PyObject(1)
  {
    hide Apply;
    var cfg := CacheConfig(1, None, LRU, true);
    var first := SetOp("k", PyObject(1), None, 0, 0.0, 0.0, 0.0, 0.0);
    var second := SetOp("k", PyObject(2), None, 0, 0.0, 1.0, 1.0, 1.0);
    TimedTwice(first, second, 0.0);
    RunSnoc(cfg, [], first, 0.0);
    RunSnoc(cfg, [first], second, 0.0);
    FirstSet(cfg, first);
    RefusedSet(cfg, Run(cfg, [first], 0.0), second);
  }

  lemma RefusedSet(cfg: CacheConfig, st: State, op: Op)
    requires cfg.maxSize >= 1 && InStep(st) && op.SetOp? && op.volatility == 0.0
    requires !Admits(cfg, st, op.key)
    ensures Apply(cfg, st, op) == st
  {
  }

  // ---------------------------------------------------------------------------
  // What a set costs
  // ---------------------------------------------------------------------------

  /** The keys after a set: admission first, then expiry, then one victim if the cache is still full, then the key. */
  lemma SetKeys(cfg: CacheConfig, st: State, key: Key, value: PyValue, ttl: Option<real>, version: int,
                volatility: real, t0: real, t1: real, t2: real)
    requires cfg.maxSize >= 1 && InStep(st) && |st.order| <= cfg.maxSize && (ttl.None? ==> volatility != -1.0)
    ensures InStep(CleanupExpired(st, t0)) && |CleanupExpired(st, t0).order| <= cfg.maxSize
    ensures var s, next := CleanupExpired(st, t0), Set(cfg, st, key, value, ttl, version, volatility, t0, t1, t2);
      if !Admits(cfg, st, key) then next == st
      else if |s.order| >= cfg.maxSize then next.entries.Keys == s.entries.Keys - {Victim(cfg, s)} + {key}
      else next.entries.Keys == s.entries.Keys + {key}
  {
    hide Filter, InStep, Victim, Admits;
    CleanupInStep(st, t0);
  }

  /**
   * Overwriting a key the cache holds costs another, unexpired entry exactly when the set is admitted into a
   * cache that is full of unexpired entries and the policy's victim is not the key itself; the victim is then
   * gone and the cache one short of full.
   */
  lemma OverwriteCost(cfg: CacheConfig, st: State, key: Key, value: PyValue, ttl: Option<real>, version: int,
                      volatility: real, t0: real, t1: real, t2: real)
    requires cfg.maxSize >= 1 && InStep(st) && |st.order| <= cfg.maxSize && (ttl.None? ==> volatility != -1.0)
    requires key in CleanupExpired(st, t0).entries
    ensures InStep(CleanupExpired(st, t0)) && CleanupExpired(st, t0).order != []
    ensures var s, next := CleanupExpired(st, t0), Set(cfg, st, key, value, ttl, version, volatility, t0, t1, t2);
      var costs := Admits(cfg, st, key) && |s.order| >= cfg.maxSize && Victim(cfg, s) != key;
      && ((exists k :: k in s.entries && k !in next.entries) <==> costs)
      && (costs ==> next.entries.Keys == s.entries.Keys - {Victim(cfg, s)} && |next.order| == cfg.maxSize - 1)
  {
    hide Filter, Victim, Admits, NoRepeat, Write;
    var s := CleanupExpired(st, t0);
    SetKeys(cfg, st, key, value, ttl, version, volatility, t0, t1, t2);
    assert key in s.order;
    VictimCached(cfg, s);
    if Admits(cfg, st, key) && |s.order| >= cfg.maxSize && Victim(cfg, s) != key {
      var e := Entry(value, t1 + EffectiveTtl(cfg, ttl, volatility), version, 1, t2);
      EvictFacts(cfg, s);
      EvictKeeps(cfg, s, key);
      WriteInStep(cfg, Evict(cfg, s), key, e);
      assert Victim(cfg, s) in s.entries;
    }
  }

  lemma EvictKeeps(cfg: CacheConfig, st: State, key: Key)
    requires InStep(st) && st.order != [] && key in st.entries && Victim(cfg, st) != key
    ensures key in Evict(cfg, st).entries
  {
    hide Victim, Filter;
  }

  /** In a full cache a key that was never counted is refused, whatever the clock and the policy. */
  lemma UncountedIsRefused(cfg: CacheConfig, st: State, key: Key, clock: real)
    requires cfg.maxSize >= 1 && Structured(cfg, st, clock) && |st.order| >= cfg.maxSize && key !in st.frequency
    ensures !Admits(cfg, st, key)
  {
    hide Filter, AccessedInOrder;
    NonEmptyAccess(st);
  }
}
