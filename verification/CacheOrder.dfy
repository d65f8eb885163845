/**
 * What eviction and admission go by, read off the operations of a run: which one brought a key into the cache,
 * which one used it last, and how many used it.
 */
module CacheOrder {
  import opened Common
  import opened Ordering
  import opened CacheModel
  import opened CacheRuns

  // ---------------------------------------------------------------------------
  // What one operation does to its key
  // ---------------------------------------------------------------------------

  /** The get is answered from the cache: unexpired at both readings, and of the version asked for. */
  ghost predicate Hit(cfg: CacheConfig, st: State, key: Key, version: int, t0: real, t1: real) {
    && !st.circuitOpen && key in st.entries
    && st.entries[key].expiry >= t0
    && (version == 0 || st.entries[key].version == version)
    && (cfg.baseTtl.Some? ==> st.entries[key].expiry > t1)
  }

  /** The operation is a hit on the key, or an admitted set of it. */
  ghost predicate UsesKey(cfg: CacheConfig, st: State, op: Op, key: Key)
    requires cfg.maxSize >= 1 && InStep(st)
  {
    match op
    case GetOp(k, version, t0, t1, _) => k == key && Hit(cfg, st, k, version, t0, t1)
    case SetOp(k, _, _, _, _, _, _, _) => k == key && Admits(cfg, st, k)
    case _ => false
  }

  /**
   * The operation brings the key into the cache: an admitted set of a key that is not there once the expired
   * entries and the victim are gone. An overwrite of an entry that stays brings nothing in.
   */
  ghost predicate BringsIn(cfg: CacheConfig, st: State, op: Op, key: Key)
    requires cfg.maxSize >= 1 && InStep(st)
  {
    op.SetOp? && op.key == key && Admits(cfg, st, key) && key !in MakeRoom(cfg, st, op.t0).entries
  }

  /** What a cleanup leaves: exactly the entries that expire now or later, untouched. */
  lemma CleanupMeaning(st: State, now: real)
    ensures var s := CleanupExpired(st, now);
      && (forall k :: k in s.entries <==> k in st.entries && st.entries[k].expiry >= now)
      && (forall k :: k in s.entries ==> s.entries[k] == st.entries[k])
      && s == st.(order := s.order, entries := s.entries, access := s.access)
  {
  }

  /** A hit returns the value and counts once for the entry and once for the key; anything else returns None. */
  lemma GetMeaning(cfg: CacheConfig, st: State, key: Key, version: int, t0: real, t1: real, t2: real)
    ensures var (next, v) := Get(cfg, st, key, version, t0, t1, t2);
      if Hit(cfg, st, key, version, t0, t1) then
        && v == st.entries[key].value
        && key in next.entries
        && next.entries[key] == st.entries[key].(accessCount := st.entries[key].accessCount + 1, lastAccess := t2)
        && next.frequency == st.frequency[key := FrequencyOf(st, key) + 1]
        && (forall k :: k in next.entries && k != key ==> k in st.entries && next.entries[k] == st.entries[k])
      else
        && v == PyNone && next.frequency == st.frequency
        && (forall k :: k in next.entries ==> k in st.entries && next.entries[k] == st.entries[k])
  {
    hide Filter;
  }

  /** What a get leaves: a closed circuit drops what had expired, and the key itself if it expires before it is served. */
  lemma GetKeys(cfg: CacheConfig, st: State, key: Key, version: int, t0: real, t1: real, t2: real, k: Key)
    requires !st.circuitOpen
    ensures k in Get(cfg, st, key, version, t0, t1, t2).0.entries <==>
      && k in st.entries && st.entries[k].expiry >= t0
      && !(k == key && cfg.baseTtl.Some? && st.entries[k].expiry <= t1 && (version == 0 || st.entries[k].version == version))
  {
    hide Filter;
  }

  /** An admitted set writes the entry with one access; its life is the TTL given, or the base TTL over 1 + volatility. */
  lemma SetMeaning(cfg: CacheConfig, st: State, op: Op)
    requires cfg.maxSize >= 1 && InStep(st) && |st.order| <= cfg.maxSize && op.SetOp?
    requires op.ttl.None? ==> op.volatility != -1.0
    ensures st.circuitOpen ==> Apply(cfg, st, op) == st
    ensures var next := Apply(cfg, st, op);
      if Admits(cfg, st, op.key) then
        && op.key in next.entries
        && (forall k :: k in next.entries && k != op.key ==> k in st.entries && next.entries[k] == st.entries[k])
        && next.frequency == st.frequency[op.key := FrequencyOf(st, op.key) + 1]
        && var e := next.entries[op.key];
           && e == Entry(op.value, e.expiry, op.version, 1, op.t2)
           && (op.ttl.Some? ==> e.expiry == op.t1 + op.ttl.value)
           && (op.ttl.None? ==>
                 (e.expiry - op.t1) * (1.0 + op.volatility)
                   == if cfg.baseTtl in {None, Some(0.0)} then 300.0 else cfg.baseTtl.value)
      else
        next == st
  {
    hide Filter, InStep, MakeRoom, EffectiveTtl;
    if Admits(cfg, st, op.key) {
      MakeRoomFacts(cfg, st, op.t0);
      Life(cfg, op.ttl, op.volatility, op.t1);
    }
  }

  /** How long an entry written at t lives. */
  lemma Life(cfg: CacheConfig, ttl: Option<real>, volatility: real, t: real)
    requires ttl.None? ==> volatility != -1.0
    ensures var expiry := t + EffectiveTtl(cfg, ttl, volatility);
      && (ttl.Some? ==> expiry == t + ttl.value)
      && (ttl.None? ==>
            (expiry - t) * (1.0 + volatility) == if cfg.baseTtl in {None, Some(0.0)} then 300.0 else cfg.baseTtl.value)
  {
    if ttl.None? { AdaptedTtl(BaseTtl(cfg), volatility); }
  }

  lemma AdaptedTtl(base: real, volatility: real)
    requires volatility != -1.0
    ensures base * (1.0 / (1.0 + volatility)) * (1.0 + volatility) == base
  {
    assert 1.0 / (1.0 + volatility) * (1.0 + volatility) == 1.0;
  }

  // ---------------------------------------------------------------------------
  // Stamps: for each key the index of an operation
  // ---------------------------------------------------------------------------

  type Stamps = map<Key, nat>

  /** The keys are stamped, with increasing indices below n. */
  ghost predicate Ascending(keys: seq<Key>, stamps: Stamps, n: nat) {
    && (forall i :: 0 <= i < |keys| ==> keys[i] in stamps && stamps[keys[i]] < n)
    && (forall i, j :: 0 <= i < j < |keys| ==> stamps[keys[i]] < stamps[keys[j]])
  }

  lemma LaterAscending(keys: seq<Key>, stamps: Stamps, n: nat)
    requires Ascending(keys, stamps, n)
    ensures Ascending(keys, stamps, n + 1)
  {
  }

  lemma FilterAscending(keys: seq<Key>, stamps: Stamps, n: nat, keep: Key -> bool)
    requires Ascending(keys, stamps, n)
    ensures Ascending(Filter(keys, keep), stamps, n)
  {
    var kept := Filter(keys, keep);
    forall i | 0 <= i < |kept| ensures kept[i] in stamps && stamps[kept[i]] < n {
      assert kept[i] in kept;
    }
    forall i, j | 0 <= i < j < |kept| ensures stamps[kept[i]] < stamps[kept[j]] {
      var a, b := FilterIndices(keys, keep, i, j);
    }
  }

  lemma AppendAscending(keys: seq<Key>, stamps: Stamps, n: nat, key: Key)
    requires Ascending(keys, stamps, n) && key !in keys
    ensures Ascending(keys + [key], stamps[key := n], n + 1)
  {
  }

  lemma MoveAscending(keys: seq<Key>, stamps: Stamps, n: nat, key: Key)
    requires Ascending(keys, stamps, n)
    ensures Ascending(MoveToEnd(keys, key), stamps[key := n], n + 1)
    ensures Ascending(MoveToEnd(AppendAbsent(keys, key), key), stamps[key := n], n + 1)
  {
    FilterAscending(keys, stamps, n, Other(key));
    FilterAppended(keys, key);
    AppendAscending(Filter(keys, Other(key)), stamps, n, key);
  }

  lemma LeastStamp(keys: seq<Key>, stamps: Stamps, n: nat, k: Key)
    requires Ascending(keys, stamps, n) && k in keys
    ensures keys[0] in stamps && k in stamps
    ensures k == keys[0] || stamps[keys[0]] < stamps[k]
  {
    var i :| 0 <= i < |keys| && keys[i] == k;
  }

  // ---------------------------------------------------------------------------
  // Every operation keeps the insertion order by entry and, under LRU, the access list by use
  // ---------------------------------------------------------------------------

  lemma RoomOrder(cfg: CacheConfig, st: State, t0: real, entered: Stamps, used: Stamps, n: nat)
    requires cfg.maxSize >= 1 && InStep(st)
    requires Ascending(st.order, entered, n) && (cfg.policy == LRU ==> Ascending(st.access, used, n))
    ensures Ascending(MakeRoom(cfg, st, t0).order, entered, n)
    ensures cfg.policy == LRU ==> Ascending(MakeRoom(cfg, st, t0).access, used, n)
  {
    hide Filter, NoRepeat, Victim, Ascending;
    CleanupInStep(st, t0);
    var s := CleanupExpired(st, t0);
    FilterAscending(st.order, entered, n, Fresh(st.entries, t0));
    if cfg.policy == LRU { FilterAscending(st.access, used, n, Fresh(st.entries, t0)); }
    if |s.order| >= cfg.maxSize {
      FilterAscending(s.order, entered, n, Other(Victim(cfg, s)));
      if cfg.policy == LRU { FilterAscending(s.access, used, n, Other(Victim(cfg, s))); }
    }
  }

  lemma SetOrder(cfg: CacheConfig, st: State, op: Op, entered: Stamps, used: Stamps, n: nat)
    requires cfg.maxSize >= 1 && InStep(st) && |st.order| <= cfg.maxSize
    requires op.SetOp? && Admits(cfg, st, op.key) && (op.ttl.None? ==> op.volatility != -1.0)
    requires Ascending(st.order, entered, n) && (cfg.policy == LRU ==> Ascending(st.access, used, n))
    ensures var next := Apply(cfg, st, op);
      && Ascending(next.order, if BringsIn(cfg, st, op, op.key) then entered[op.key := n] else entered, n + 1)
      && (cfg.policy == LRU ==> Ascending(next.access, used[op.key := n], n + 1))
  {
    hide Filter, NoRepeat, Admits, MakeRoom, Ascending, MoveToEnd;
    var room := MakeRoom(cfg, st, op.t0);
    MakeRoomFacts(cfg, st, op.t0);
    RoomOrder(cfg, st, op.t0, entered, used, n);
    LaterAscending(room.order, entered, n);
    if op.key !in room.order { AppendAscending(room.order, entered, n, op.key); }
    if cfg.policy == LRU { MoveAscending(room.access, used, n, op.key); }
  }

  lemma GetOrder(cfg: CacheConfig, st: State, op: Op, entered: Stamps, used: Stamps, n: nat)
    requires cfg.maxSize >= 1 && InStep(st) && op.GetOp?
    requires Ascending(st.order, entered, n) && (cfg.policy == LRU ==> Ascending(st.access, used, n))
    ensures var next := Apply(cfg, st, op);
      && Ascending(next.order, entered, n + 1)
      && (cfg.policy == LRU ==>
            Ascending(next.access, if UsesKey(cfg, st, op, op.key) then used[op.key := n] else used, n + 1))
  {
    hide Filter, NoRepeat, Ascending, MoveToEnd;
    var s := CleanupExpired(st, op.t0);
    LaterAscending(st.order, entered, n);
    FilterAscending(st.order, entered, n + 1, Fresh(st.entries, op.t0));
    FilterAscending(s.order, entered, n + 1, Other(op.key));
    if cfg.policy == LRU {
      FilterAscending(st.access, used, n, Fresh(st.entries, op.t0));
      LaterAscending(st.access, used, n);
      LaterAscending(s.access, used, n);
      FilterAscending(s.access, used, n + 1, Other(op.key));
      MoveAscending(s.access, used, n, op.key);
    }
  }

  lemma DropOrder(cfg: CacheConfig, st: State, op: Op, entered: Stamps, used: Stamps, n: nat)
    requires cfg.maxSize >= 1 && InStep(st) && (op.InvalidateOp? || op.PatternOp?)
    requires Ascending(st.order, entered, n) && (cfg.policy == LRU ==> Ascending(st.access, used, n))
    ensures var next := Apply(cfg, st, op);
      && Ascending(next.order, entered, n + 1)
      && (cfg.policy == LRU ==> Ascending(next.access, used, n + 1))
  {
    hide Filter, NoRepeat, Ascending;
    var keep := if op.InvalidateOp? then Other(op.key) else LacksPrefix(op.prefix);
    LaterAscending(st.order, entered, n);
    FilterAscending(st.order, entered, n + 1, keep);
    if cfg.policy == LRU {
      LaterAscending(st.access, used, n);
      FilterAscending(st.access, used, n + 1, keep);
    }
  }

  // ---------------------------------------------------------------------------
  // Over runs
  // ---------------------------------------------------------------------------

  /** For each key, the operation by which it last came into the cache. */
  ghost function Entered(cfg: CacheConfig, ops: seq<Op>, start: real): (stamps: Stamps)
    requires cfg.maxSize >= 1 && WellTimed(ops, start)
    decreases |ops|
  {
    if ops == [] then map[]
    else
      var n := |ops| - 1;
      var before := Entered(cfg, ops[..n], start);
      if ops[n].SetOp? && BringsIn(cfg, Run(cfg, ops[..n], start), ops[n], ops[n].key) then before[ops[n].key := n]
      else before
  }

  /** For each key, the operation that last used it: a hit or an admitted set. */
  ghost function Used(cfg: CacheConfig, ops: seq<Op>, start: real): (stamps: Stamps)
    requires cfg.maxSize >= 1 && WellTimed(ops, start)
    decreases |ops|
  {
    if ops == [] then map[]
    else
      var n := |ops| - 1;
      var before := Used(cfg, ops[..n], start);
      if (ops[n].SetOp? || ops[n].GetOp?) && UsesKey(cfg, Run(cfg, ops[..n], start), ops[n], ops[n].key)
      then before[ops[n].key := n]
      else before
  }

  /** The insertion order is by entry and, under LRU, the access list by last use. */
  lemma {:induction false} KeysInOrder(cfg: CacheConfig, ops: seq<Op>, start: real)
    requires cfg.maxSize >= 1 && WellTimed(ops, start)
    ensures Ascending(Run(cfg, ops, start).order, Entered(cfg, ops, start), |ops|)
    ensures cfg.policy == LRU ==> Ascending(Run(cfg, ops, start).access, Used(cfg, ops, start), |ops|)
    decreases |ops|
  {
    if ops != [] {
      hide Apply, Ascending, BringsIn, UsesKey, Admits;
      var n := |ops| - 1;
      var init, op := ops[..n], ops[n];
      KeysInOrder(cfg, init, start);
      var st, entered, used := Run(cfg, init, start), Entered(cfg, init, start), Used(cfg, init, start);
      StepOrder(cfg, st, op, Clock(init, start), entered, used, n);
    }
  }

  lemma StepOrder(cfg: CacheConfig, st: State, op: Op, clock: real, entered: Stamps, used: Stamps, n: nat)
    requires cfg.maxSize >= 1 && Structured(cfg, st, clock) && WellFormedOp(op, clock)
    requires Ascending(st.order, entered, n) && (cfg.policy == LRU ==> Ascending(st.access, used, n))
    ensures var next := Apply(cfg, st, op);
      && Ascending(next.order,
                   if op.SetOp? && BringsIn(cfg, st, op, op.key) then entered[op.key := n] else entered, n + 1)
      && (cfg.policy == LRU ==>
            Ascending(next.access,
                      if (op.SetOp? || op.GetOp?) && UsesKey(cfg, st, op, op.key) then used[op.key := n] else used, n + 1))
  {
    hide Ascending, Admits, MakeRoom, AccessedInOrder, NoRepeat, Hit, Get;
    match op
    case GetOp(_, _, _, _, _) => GetOrder(cfg, st, op, entered, used, n);
    case SetOp(_, _, _, _, _, _, _, _) =>
      if Admits(cfg, st, op.key) {
        SetOrder(cfg, st, op, entered, used, n);
      } else {
        LaterAscending(st.order, entered, n);
        if cfg.policy == LRU { LaterAscending(st.access, used, n); }
      }
    case _ => DropOrder(cfg, st, op, entered, used, n);
  }

  /** Operation m brings the key in, and none after it does. */
  ghost predicate LastBroughtIn(cfg: CacheConfig, ops: seq<Op>, start: real, key: Key, m: nat)
    requires cfg.maxSize >= 1 && WellTimed(ops, start)
  {
    && m < |ops| && WellTimed(ops[..m], start) && BringsIn(cfg, Run(cfg, ops[..m], start), ops[m], key)
    && forall j :: m < j < |ops| && WellTimed(ops[..j], start) ==> !BringsIn(cfg, Run(cfg, ops[..j], start), ops[j], key)
  }

  /** Operation m uses the key, and none after it does. */
  ghost predicate LastUsed(cfg: CacheConfig, ops: seq<Op>, start: real, key: Key, m: nat)
    requires cfg.maxSize >= 1 && WellTimed(ops, start)
  {
    && m < |ops| && WellTimed(ops[..m], start) && UsesKey(cfg, Run(cfg, ops[..m], start), ops[m], key)
    && forall j :: m < j < |ops| && WellTimed(ops[..j], start) ==> !UsesKey(cfg, Run(cfg, ops[..j], start), ops[j], key)
  }

  lemma LastBroughtInStep(cfg: CacheConfig, ops: seq<Op>, start: real, key: Key, m: nat)
    requires cfg.maxSize >= 1 && WellTimed(ops, start) && ops != []
    ensures var n := |ops| - 1;
      LastBroughtIn(cfg, ops, start, key, m) <==>
        if BringsIn(cfg, Run(cfg, ops[..n], start), ops[n], key) then m == n
        else LastBroughtIn(cfg, ops[..n], start, key, m)
  {
    hide BringsIn, Run, Structured, WellFormedOp, Clock;
    var n := |ops| - 1;
    var init := ops[..n];
    assert forall j :: 0 <= j <= n ==> init[..j] == ops[..j];
  }

  lemma {:induction false} EnteredIs(cfg: CacheConfig, ops: seq<Op>, start: real, key: Key, m: nat)
    requires cfg.maxSize >= 1 && WellTimed(ops, start)
    ensures LastBroughtIn(cfg, ops, start, key, m) <==> key in Entered(cfg, ops, start) && Entered(cfg, ops, start)[key] == m
    ensures key in Entered(cfg, ops, start) ==> Entered(cfg, ops, start)[key] < |ops|
    decreases |ops|
  {
    hide BringsIn, Run, NoRepeat, AccessedInOrder, WellFormedOp, Clock;
    if ops != [] {
      var n := |ops| - 1;
      LastBroughtInStep(cfg, ops, start, key, m);
      BringsItsKey(cfg, Run(cfg, ops[..n], start), ops[n], key);
      EnteredIs(cfg, ops[..n], start, key, m);
      hide LastBroughtIn;
    }
  }

  lemma BringsItsKey(cfg: CacheConfig, st: State, op: Op, key: Key)
    requires cfg.maxSize >= 1 && InStep(st)
    ensures BringsIn(cfg, st, op, key) ==> op.SetOp? && op.key == key
    ensures UsesKey(cfg, st, op, key) ==> (op.SetOp? || op.GetOp?) && op.key == key
  {
    hide Admits, MakeRoom, Hit;
  }

  lemma LastUsedStep(cfg: CacheConfig, ops: seq<Op>, start: real, key: Key, m: nat)
    requires cfg.maxSize >= 1 && WellTimed(ops, start) && ops != []
    ensures var n := |ops| - 1;
      LastUsed(cfg, ops, start, key, m) <==>
        if UsesKey(cfg, Run(cfg, ops[..n], start), ops[n], key) then m == n
        else LastUsed(cfg, ops[..n], start, key, m)
  {
    hide UsesKey, Run, Structured, WellFormedOp, Clock;
    var n := |ops| - 1;
    var init := ops[..n];
    assert forall j :: 0 <= j <= n ==> init[..j] == ops[..j];
  }

  lemma {:induction false} UsedIs(cfg: CacheConfig, ops: seq<Op>, start: real, key: Key, m: nat)
    requires cfg.maxSize >= 1 && WellTimed(ops, start)
    ensures LastUsed(cfg, ops, start, key, m) <==> key in Used(cfg, ops, start) && Used(cfg, ops, start)[key] == m
    ensures key in Used(cfg, ops, start) ==> Used(cfg, ops, start)[key] < |ops|
    decreases |ops|
  {
    hide UsesKey, Run, NoRepeat, AccessedInOrder, WellFormedOp, Clock;
    if ops != [] {
      var n := |ops| - 1;
      LastUsedStep(cfg, ops, start, key, m);
      BringsItsKey(cfg, Run(cfg, ops[..n], start), ops[n], key);
      UsedIs(cfg, ops[..n], start, key, m);
      hide LastUsed;
    }
  }

  /** How many operations used the key. */
  ghost function Uses(cfg: CacheConfig, ops: seq<Op>, start: real, key: Key): nat
    requires cfg.maxSize >= 1 && WellTimed(ops, start)
    decreases |ops|
  {
    if ops == [] then 0
    else
      var init := ops[..|ops| - 1];
      Uses(cfg, init, start, key) + if UsesKey(cfg, Run(cfg, init, start), ops[|ops| - 1], key) then 1 else 0
  }

  /** How many used it from its last admitted set on, that one included. */
  ghost function UsesSinceSet(cfg: CacheConfig, ops: seq<Op>, start: real, key: Key): nat
    requires cfg.maxSize >= 1 && WellTimed(ops, start)
    decreases |ops|
  {
    if ops == [] then 0
    else
      var init, op := ops[..|ops| - 1], ops[|ops| - 1];
      if !UsesKey(cfg, Run(cfg, init, start), op, key) then UsesSinceSet(cfg, init, start, key)
      else if op.SetOp? then 1
      else UsesSinceSet(cfg, init, start, key) + 1
  }

  /** The two counters the policy compares are numbers of operations of the run. */
  lemma {:induction false} CountersCountUses(cfg: CacheConfig, ops: seq<Op>, start: real, key: Key)
    requires cfg.maxSize >= 1 && WellTimed(ops, start)
    ensures FrequencyOf(Run(cfg, ops, start), key) == Uses(cfg, ops, start, key)
    ensures key in Run(cfg, ops, start).entries ==>
      Run(cfg, ops, start).entries[key].accessCount == UsesSinceSet(cfg, ops, start, key)
    decreases |ops|
  {
    if ops != [] {
      hide Apply, Admits, Hit;
      var init, op := ops[..|ops| - 1], ops[|ops| - 1];
      CountersCountUses(cfg, init, start, key);
      StepCounters(cfg, Run(cfg, init, start), op, Clock(init, start), key);
    }
  }

  lemma StepCounters(cfg: CacheConfig, st: State, op: Op, clock: real, key: Key)
    requires cfg.maxSize >= 1 && Structured(cfg, st, clock) && WellFormedOp(op, clock)
    ensures var next := Apply(cfg, st, op);
      && FrequencyOf(next, key) == FrequencyOf(st, key) + (if UsesKey(cfg, st, op, key) then 1 else 0)
      && (key in next.entries ==>
            if UsesKey(cfg, st, op, key) && op.SetOp? then next.entries[key].accessCount == 1
            else
              && key in st.entries
              && next.entries[key].accessCount
                   == st.entries[key].accessCount + if UsesKey(cfg, st, op, key) then 1 else 0)
  {
    hide Filter, Admits, AccessedInOrder, NoRepeat, Get, Set;
    match op
    case GetOp(k, version, t0, t1, t2) => GetMeaning(cfg, st, k, version, t0, t1, t2);
    case SetOp(_, _, _, _, _, _, _, _) => SetMeaning(cfg, st, op);
    case _ =>
  }

  // ---------------------------------------------------------------------------
  // Which entry a set costs, and which sets are admitted
  // ---------------------------------------------------------------------------

  /** An unexpired entry that is gone after the set. */
  ghost predicate Loses(cfg: CacheConfig, st: State, op: Op, lost: Key)
    requires cfg.maxSize >= 1 && InStep(st) && op.SetOp? && (op.ttl.None? ==> op.volatility != -1.0)
  {
    lost in st.entries && st.entries[lost].expiry >= op.t0 && lost !in Apply(cfg, st, op).entries
  }

  lemma LostIsVictim(cfg: CacheConfig, st: State, op: Op, lost: Key)
    requires cfg.maxSize >= 1 && InStep(st) && |st.order| <= cfg.maxSize
    requires op.SetOp? && (op.ttl.None? ==> op.volatility != -1.0) && Loses(cfg, st, op, lost)
    ensures InStep(CleanupExpired(st, op.t0)) && CleanupExpired(st, op.t0).order != []
    ensures lost == Victim(cfg, CleanupExpired(st, op.t0)) && lost in CleanupExpired(st, op.t0).entries
  {
    hide Filter, Victim, Admits, NoRepeat, Set;
    CleanupInStep(st, op.t0);
    CleanupMeaning(st, op.t0);
    var s := CleanupExpired(st, op.t0);
    assert lost in s.order;
    SetKeys(cfg, st, op.key, op.value, op.ttl, op.version, op.volatility, op.t0, op.t1, op.t2);
  }

  /** Of the keys with the smallest count the first is chosen. */
  lemma {:induction false} LeastFrequentFirst(keys: seq<Key>, entries: map<Key, Entry>) returns (i: nat)
    requires keys != [] && forall x :: x in keys ==> x in entries
    ensures i < |keys| && keys[i] == LeastFrequent(keys, entries)
    ensures forall j :: 0 <= j < |keys| ==> entries[keys[i]].accessCount <= entries[keys[j]].accessCount
    ensures forall j :: 0 <= j < i ==> entries[keys[i]].accessCount < entries[keys[j]].accessCount
    decreases |keys|
  {
    var m := |keys| - 1;
    if m == 0 {
      i := 0;
    } else {
      var init, last := keys[..m], keys[m];
      i := LeastFrequentFirst(init, entries);
      assert forall j :: 0 <= j < m ==> keys[j] == init[j];
      if entries[last].accessCount < entries[keys[i]].accessCount { i := m; }
    }
  }

  lemma LfuOrder(keys: seq<Key>, entries: map<Key, Entry>, stamps: Stamps, n: nat, other: Key)
    requires other in keys && (forall x :: x in keys ==> x in entries) && Ascending(keys, stamps, n)
    ensures var best := LeastFrequent(keys, entries);
      && best in stamps && other in stamps
      && (entries[best].accessCount < entries[other].accessCount
          || (entries[best].accessCount == entries[other].accessCount && stamps[best] <= stamps[other]))
      && (stamps[best] == stamps[other] ==> best == other)
  {
    hide LeastFrequent;
    var i := LeastFrequentFirst(keys, entries);
    var j :| 0 <= j < |keys| && keys[j] == other;
  }

  /**
   * Over every run, an unexpired entry that a set loses is the right one. FIFO: it came into the cache before
   * all the other unexpired entries, overwrites of an entry in place not counting. LRU: it was used last before
   * all others were. LFU: it was used fewest times since it was set and, of those, came in first.
   */
  lemma EvictedIsRight(cfg: CacheConfig, ops: seq<Op>, op: Op, start: real, lost: Key, other: Key)
    requires cfg.maxSize >= 1 && WellTimed(ops, start) && WellFormedOp(op, Clock(ops, start)) && op.SetOp?
    requires Loses(cfg, Run(cfg, ops, start), op, lost) && other != lost
    requires other in Run(cfg, ops, start).entries && Run(cfg, ops, start).entries[other].expiry >= op.t0
    ensures var entered, used := Entered(cfg, ops, start), Used(cfg, ops, start);
      && lost in entered && other in entered
      && (cfg.policy == FIFO ==> entered[lost] < entered[other])
      && (cfg.policy == LRU ==> lost in used && other in used && used[lost] < used[other])
      && (cfg.policy == LFU ==>
            var a, b := UsesSinceSet(cfg, ops, start, lost), UsesSinceSet(cfg, ops, start, other);
            a < b || (a == b && entered[lost] < entered[other]))
  {
    hide Filter, Admits, NoRepeat, AccessedInOrder, Apply, Ascending, Run, Entered, Used, UsesSinceSet, CleanupExpired,
         LeastFrequent;
    var st, entered, used := Run(cfg, ops, start), Entered(cfg, ops, start), Used(cfg, ops, start);
    KeysInOrder(cfg, ops, start);
    LostIsVictim(cfg, st, op, lost);
    CleanupMeaning(st, op.t0);
    var s := CleanupExpired(st, op.t0);
    CleanupOrder(st, op.t0, entered, used, |ops|, cfg.policy);
    assert other in s.order && lost in s.order && other in s.access;
    OrderedStamps(s.order, entered, |ops|, lost);
    OrderedStamps(s.order, entered, |ops|, other);
    match cfg.policy
    case FIFO => LeastStamp(s.order, entered, |ops|, other);
    case LRU => LeastStamp(s.access, used, |ops|, other);
    case LFU =>
      CountersCountUses(cfg, ops, start, lost);
      CountersCountUses(cfg, ops, start, other);
      LfuOrder(s.order, s.entries, entered, |ops|, other);
  }

  lemma OrderedStamps(keys: seq<Key>, stamps: Stamps, n: nat, k: Key)
    requires Ascending(keys, stamps, n) && k in keys
    ensures k in stamps && stamps[k] < n
  {
  }

  lemma CleanupOrder(st: State, now: real, entered: Stamps, used: Stamps, n: nat, policy: Policy)
    requires Ascending(st.order, entered, n) && (policy == LRU ==> Ascending(st.access, used, n))
    ensures Ascending(CleanupExpired(st, now).order, entered, n)
    ensures policy == LRU ==> Ascending(CleanupExpired(st, now).access, used, n)
  {
    hide Ascending;
    FilterAscending(st.order, entered, n, Fresh(st.entries, now));
    if policy == LRU { FilterAscending(st.access, used, n, Fresh(st.entries, now)); }
  }

  /**
   * Over every run, a set finds the cache open unless it is full; then it must have been used more often than
   * one entry since that was set: under LRU the entry whose last use is earliest, otherwise the one that came
   * in first, whichever the policy would evict.
   */
  lemma AdmittedIff(cfg: CacheConfig, ops: seq<Op>, start: real, key: Key)
    requires cfg.maxSize >= 1 && WellTimed(ops, start)
    ensures var st := Run(cfg, ops, start);
      && (|st.order| < cfg.maxSize ==> Admits(cfg, st, key))
      && (|st.order| >= cfg.maxSize ==>
            exists front :: Oldest(cfg, ops, start, front)
              && (Admits(cfg, st, key) <==> Uses(cfg, ops, start, key) > UsesSinceSet(cfg, ops, start, front)))
  {
    hide Filter, NoRepeat, AccessedInOrder, Ascending, Run, Entered, Used, UsesSinceSet, Uses;
    var st, entered, used := Run(cfg, ops, start), Entered(cfg, ops, start), Used(cfg, ops, start);
    if |st.order| >= cfg.maxSize {
      NonEmptyAccess(st);
      KeysInOrder(cfg, ops, start);
      var front := st.access[0];
      CountersCountUses(cfg, ops, start, key);
      CountersCountUses(cfg, ops, start, front);
      forall k | k in st.entries
        ensures cfg.policy == LRU ==> front in used && k in used && used[front] <= used[k]
        ensures cfg.policy != LRU ==> front in entered && k in entered && entered[front] <= entered[k]
      {
        assert k in st.access && k in st.order;
        if cfg.policy == LRU {
          LeastStamp(st.access, used, |ops|, k);
        } else {
          LeastStamp(st.order, entered, |ops|, k);
        }
      }
      assert Oldest(cfg, ops, start, front);
    }
  }

  /** Under LRU the cached key whose last use is earliest; otherwise the one that came into the cache first. */
  ghost predicate Oldest(cfg: CacheConfig, ops: seq<Op>, start: real, front: Key)
    requires cfg.maxSize >= 1 && WellTimed(ops, start)
  {
    var st, entered, used := Run(cfg, ops, start), Entered(cfg, ops, start), Used(cfg, ops, start);
    && front in st.entries
    && forall k :: k in st.entries ==>
         if cfg.policy == LRU then front in used && k in used && used[front] <= used[k]
         else front in entered && k in entered && entered[front] <= entered[k]
  }
}
