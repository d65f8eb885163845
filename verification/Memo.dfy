/** The caching decorator: a cached pure function, when it is transparent and when its cache freezes. */
module Memo {
  import opened Common
  import opened Ordering
  import opened CacheModel
  import opened CacheRuns
  import opened CacheManager

  /** A call's arguments, opaque to the cache. */
  type Args = int

  /** The decorated function, its key, and whether its result passes validation. */
  datatype Decorated = Decorated(f: Args -> PyValue, key: Args -> Key, valid: PyValue -> bool)

  datatype Outcome = Returned(value: PyValue) | InvalidResult

  /** What calling the function without any cache gives. */
  function Plain(d: Decorated, a: Args): Outcome {
    if d.valid(d.f(a)) then Returned(d.f(a)) else InvalidResult
  }

  /** One call, with the clock readings of its get and of its set. */
  datatype Call = Call(args: Args, g0: real, g1: real, g2: real, s0: real, s1: real, s2: real)

  predicate CallTimed(c: Call, clock: real) {
    clock <= c.g0 <= c.g1 <= c.g2 <= c.s0 <= c.s1 <= c.s2
  }

  function CallClock(calls: seq<Call>, start: real): real {
    if calls == [] then start else calls[|calls| - 1].s2
  }

  predicate CallsTimed(calls: seq<Call>, start: real) {
    calls == [] || (CallsTimed(calls[..|calls| - 1], start)
                    && CallTimed(calls[|calls| - 1], CallClock(calls[..|calls| - 1], start)))
  }

  /** The wrapper: look up, else compute, validate and store. */
  function Invoke(cfg: CacheConfig, d: Decorated, st: State, c: Call): (State, Outcome)
    requires cfg.maxSize >= 1 && Structured(cfg, st, c.g0) && CallTimed(c, c.g0)
  {
    var key := d.key(c.args);
    GetStructured(cfg, st, key, 0, c.g0, c.g1, c.g2, c.g0);
    var (looked, cached) := Get(cfg, st, key, 0, c.g0, c.g1, c.g2);
    if cached != PyNone then (looked, Returned(cached))
    else
      var v := d.f(c.args);
      if !d.valid(v) then (looked, InvalidResult)
      else (Set(cfg, looked, key, v, None, 0, 0.0, c.s0, c.s1, c.s2), Returned(v))
  }

  lemma InvokeStructured(cfg: CacheConfig, d: Decorated, st: State, c: Call, clock: real)
    requires cfg.maxSize >= 1 && Structured(cfg, st, clock) && CallTimed(c, clock)
    ensures Structured(cfg, st, c.g0)
    ensures Structured(cfg, Invoke(cfg, d, st, c).0, c.s2)
  {
    hide Filter, InStep, AccessedInOrder;
    LaterClock(cfg, st, clock, c.g0);
    var key := d.key(c.args);
    GetStructured(cfg, st, key, 0, c.g0, c.g1, c.g2, c.g0);
    var looked := Get(cfg, st, key, 0, c.g0, c.g1, c.g2).0;
    LaterClock(cfg, looked, c.g2, c.s2);
    SetStructured(cfg, looked, SetOp(key, d.f(c.args), None, 0, 0.0, c.s0, c.s1, c.s2), c.g2);
  }

  function RunCalls(cfg: CacheConfig, d: Decorated, calls: seq<Call>, start: real): (st: State)
    requires cfg.maxSize >= 1 && CallsTimed(calls, start)
    ensures Structured(cfg, st, CallClock(calls, start))
    decreases |calls|
  {
    if calls == [] then EMPTY
    else
      var init := calls[..|calls| - 1];
      var before := RunCalls(cfg, d, init, start);
      InvokeStructured(cfg, d, before, calls[|calls| - 1], CallClock(init, start));
      Invoke(cfg, d, before, calls[|calls| - 1]).0
  }

  /** The outcome of the last call of a non-empty sequence. */
  function LastOutcome(cfg: CacheConfig, d: Decorated, calls: seq<Call>, start: real): Outcome
    requires cfg.maxSize >= 1 && CallsTimed(calls, start) && calls != []
  {
    var init := calls[..|calls| - 1];
    InvokeStructured(cfg, d, RunCalls(cfg, d, init, start), calls[|calls| - 1], CallClock(init, start));
    Invoke(cfg, d, RunCalls(cfg, d, init, start), calls[|calls| - 1]).1
  }

  // ---------------------------------------------------------------------------
  // Transparency
  // ---------------------------------------------------------------------------

  /** Results that can be served from the cache. */
  predicate Servable(d: Decorated, v: PyValue) {
    v != PyNone && d.valid(v)
  }

  /** Arguments that share a key share every servable result. */
  ghost predicate KeySound(d: Decorated) {
    forall a: Args, b: Args :: d.key(a) == d.key(b) && Servable(d, d.f(a)) ==> d.f(b) == d.f(a)
  }

  /** Every cached value is the validated result of some arguments with that key. */
  ghost predicate Honest(d: Decorated, st: State) {
    forall k :: k in st.entries ==> exists a: Args :: d.key(a) == k && d.f(a) == st.entries[k].value && d.valid(d.f(a))
  }

  lemma GetHonest(cfg: CacheConfig, d: Decorated, st: State, key: Key, t0: real, t1: real, t2: real)
    requires Honest(d, st)
    ensures Honest(d, Get(cfg, st, key, 0, t0, t1, t2).0)
    ensures Get(cfg, st, key, 0, t0, t1, t2).1 != PyNone ==>
      key in st.entries && st.entries[key].value == Get(cfg, st, key, 0, t0, t1, t2).1
  {
    hide Filter;
    var next := Get(cfg, st, key, 0, t0, t1, t2).0;
    assert forall k :: k in next.entries ==> k in st.entries && next.entries[k].value == st.entries[k].value;
  }

  lemma SetHonest(cfg: CacheConfig, d: Decorated, st: State, a: Args, clock: real, t0: real, t1: real, t2: real)
    requires cfg.maxSize >= 1 && Structured(cfg, st, clock) && Honest(d, st) && d.valid(d.f(a))
    ensures Honest(d, Set(cfg, st, d.key(a), d.f(a), None, 0, 0.0, t0, t1, t2))
  {
    hide Filter, NoRepeat, AccessedInOrder, MakeRoom, ShouldAdmit;
    if Admits(cfg, st, d.key(a)) {
      MakeRoomFacts(cfg, st, t0);
      var room := MakeRoom(cfg, st, t0);
      var next := Set(cfg, st, d.key(a), d.f(a), None, 0, 0.0, t0, t1, t2);
      forall k | k in next.entries
        ensures exists x: Args :: d.key(x) == k && d.f(x) == next.entries[k].value && d.valid(d.f(x))
      {
        if k == d.key(a) {
          assert d.f(a) == next.entries[k].value;
        } else {
          assert k in room.entries && k in st.entries && next.entries[k] == st.entries[k];
        }
      }
    }
  }

  lemma InvokeHonest(cfg: CacheConfig, d: Decorated, st: State, c: Call)
    requires cfg.maxSize >= 1 && Structured(cfg, st, c.g0) && CallTimed(c, c.g0) && Honest(d, st)
    ensures Honest(d, Invoke(cfg, d, st, c).0)
    ensures KeySound(d) ==> Invoke(cfg, d, st, c).1 == Plain(d, c.args)
  {
    hide Filter, InStep, AccessedInOrder, Get, Set;
    var key := d.key(c.args);
    GetStructured(cfg, st, key, 0, c.g0, c.g1, c.g2, c.g0);
    GetHonest(cfg, d, st, key, c.g0, c.g1, c.g2);
    var (looked, cached) := Get(cfg, st, key, 0, c.g0, c.g1, c.g2);
    if cached != PyNone {
      var a: Args :| d.key(a) == key && d.f(a) == cached && d.valid(d.f(a));
      assert Servable(d, d.f(a));
    } else if d.valid(d.f(c.args)) {
      SetHonest(cfg, d, looked, c.args, c.g2, c.s0, c.s1, c.s2);
    }
  }

  lemma {:induction false} RunHonest(cfg: CacheConfig, d: Decorated, calls: seq<Call>, start: real)
    requires cfg.maxSize >= 1 && CallsTimed(calls, start)
    ensures Honest(d, RunCalls(cfg, d, calls, start))
    decreases |calls|
  {
    hide Invoke, Structured;
    if calls != [] {
      var init := calls[..|calls| - 1];
      RunHonest(cfg, d, init, start);
      InvokeStructured(cfg, d, RunCalls(cfg, d, init, start), calls[|calls| - 1], CallClock(init, start));
      InvokeHonest(cfg, d, RunCalls(cfg, d, init, start), calls[|calls| - 1]);
    }
  }

  /** With a sound key, every call of every sequence returns what the function returns. */
  lemma SoundKeyIsTransparent(cfg: CacheConfig, d: Decorated, calls: seq<Call>, start: real)
    requires cfg.maxSize >= 1 && CallsTimed(calls, start) && calls != [] && KeySound(d)
    ensures LastOutcome(cfg, d, calls, start) == Plain(d, calls[|calls| - 1].args)
  {
    hide Invoke, Structured;
    var init := calls[..|calls| - 1];
    RunHonest(cfg, d, init, start);
    InvokeStructured(cfg, d, RunCalls(cfg, d, init, start), calls[|calls| - 1], CallClock(init, start));
    InvokeHonest(cfg, d, RunCalls(cfg, d, init, start), calls[|calls| - 1]);
  }

  function CallAt(a: Args, t: real): Call {
    Call(a, t, t, t, t, t, t)
  }

  lemma TwoCallsTimed(a: Args, b: Args, t: real)
    ensures CallsTimed([CallAt(a, t), CallAt(b, t)], t)
    ensures [CallAt(a, t), CallAt(b, t)][..1] == [CallAt(a, t)]
    ensures CallsTimed([CallAt(a, t)], t) && [CallAt(a, t)][..0] == []
  {
    var calls := [CallAt(a, t), CallAt(b, t)];
    assert calls[..1] == [CallAt(a, t)];
    assert [CallAt(a, t)][..0] == [];
    assert CallsTimed([], t);
  }

  lemma FirstCallCaches(cfg: CacheConfig, d: Decorated, a: Args, t: real)
    requires cfg.maxSize >= 1 && Servable(d, d.f(a))
    ensures Structured(cfg, EMPTY, t)
    ensures var st := Invoke(cfg, d, EMPTY, CallAt(a, t)).0;
      st.entries == map[d.key(a) := Entry(d.f(a), t + BaseTtl(cfg), 0, 1, t)] && !st.circuitOpen
  {
    var key := d.key(a);
    assert CleanupExpired(EMPTY, t) == EMPTY;
    var looked := Get(cfg, EMPTY, key, 0, t, t, t).0;
    assert CleanupExpired(looked, t) == looked;
    assert MakeRoom(cfg, looked, t) == looked;
    assert BaseTtl(cfg) * (1.0 / (1.0 + 0.0)) == BaseTtl(cfg);
  }

  // ---------------------------------------------------------------------------
  // A negative TTL caches nothing
  // ---------------------------------------------------------------------------

  /** Every entry is past its expiry. */
  ghost predicate Cold(st: State, now: real) {
    forall k :: k in st.entries ==> st.entries[k].expiry < now
  }

  lemma ColdGet(cfg: CacheConfig, st: State, key: Key, t0: real, t1: real, t2: real)
    requires Cold(st, t0)
    ensures Get(cfg, st, key, 0, t0, t1, t2).1 == PyNone
    ensures !st.circuitOpen ==> Get(cfg, st, key, 0, t0, t1, t2).0.entries == map[]
  {
    hide Filter;
    assert CleanupExpired(st, t0).entries == map[];
  }

  lemma ColdSet(cfg: CacheConfig, st: State, key: Key, v: PyValue, clock: real, t0: real, t1: real, t2: real)
    requires cfg.maxSize >= 1 && Structured(cfg, st, clock) && st.entries == map[] && BaseTtl(cfg) < 0.0 && t1 <= t2
    ensures Cold(Set(cfg, st, key, v, None, 0, 0.0, t0, t1, t2), t2)
  {
    hide Filter, NoRepeat, AccessedInOrder, MakeRoom, ShouldAdmit;
    assert BaseTtl(cfg) * (1.0 / (1.0 + 0.0)) == BaseTtl(cfg);
    if Admits(cfg, st, key) { MakeRoomFacts(cfg, st, t0); }
  }

  lemma ColdInvoke(cfg: CacheConfig, d: Decorated, st: State, c: Call)
    requires cfg.maxSize >= 1 && Structured(cfg, st, c.g0) && CallTimed(c, c.g0)
    requires Cold(st, c.g0) && BaseTtl(cfg) < 0.0
    ensures Cold(Invoke(cfg, d, st, c).0, c.s2)
    ensures Invoke(cfg, d, st, c).1 == Plain(d, c.args)
  {
    hide Filter, InStep, AccessedInOrder, Get, Set;
    var key := d.key(c.args);
    GetStructured(cfg, st, key, 0, c.g0, c.g1, c.g2, c.g0);
    ColdGet(cfg, st, key, c.g0, c.g1, c.g2);
    var looked := Get(cfg, st, key, 0, c.g0, c.g1, c.g2).0;
    if d.valid(d.f(c.args)) {
      ColdSet(cfg, looked, key, d.f(c.args), c.g2, c.s0, c.s1, c.s2);
    }
  }

  lemma {:induction false} ColdRun(cfg: CacheConfig, d: Decorated, calls: seq<Call>, start: real)
    requires cfg.maxSize >= 1 && CallsTimed(calls, start) && BaseTtl(cfg) < 0.0
    ensures Cold(RunCalls(cfg, d, calls, start), CallClock(calls, start))
    decreases |calls|
  {
    hide Invoke, Structured;
    if calls != [] {
      var init, last := calls[..|calls| - 1], calls[|calls| - 1];
      ColdRun(cfg, d, init, start);
      InvokeStructured(cfg, d, RunCalls(cfg, d, init, start), last, CallClock(init, start));
      ColdInvoke(cfg, d, RunCalls(cfg, d, init, start), last);
    }
  }

  /** With a negative TTL every call computes afresh, whatever the key. */
  lemma NegativeTtlIsTransparent(cfg: CacheConfig, d: Decorated, calls: seq<Call>, start: real)
    requires cfg.maxSize >= 1 && CallsTimed(calls, start) && calls != [] && BaseTtl(cfg) < 0.0
    ensures LastOutcome(cfg, d, calls, start) == Plain(d, calls[|calls| - 1].args)
  {
    hide Invoke, Structured;
    var init, last := calls[..|calls| - 1], calls[|calls| - 1];
    ColdRun(cfg, d, init, start);
    InvokeStructured(cfg, d, RunCalls(cfg, d, init, start), last, CallClock(init, start));
    ColdInvoke(cfg, d, RunCalls(cfg, d, init, start), last);
  }

  // ---------------------------------------------------------------------------
  // When caching shows
  // ---------------------------------------------------------------------------

  /** Two arguments with one key: unless the TTL is negative, the second call is answered with the first one's result. */
  lemma CollisionAnswersWrong(cfg: CacheConfig, d: Decorated, a: Args, b: Args, t: real)
    requires cfg.maxSize >= 1 && d.key(a) == d.key(b) && Servable(d, d.f(a))
    ensures CallsTimed([CallAt(a, t), CallAt(b, t)], t)
    ensures LastOutcome(cfg, d, [CallAt(a, t), CallAt(b, t)], t)
         == if BaseTtl(cfg) < 0.0 then Plain(d, b) else Returned(d.f(a))
  {
    hide Invoke, Structured;
    TwoCallsTimed(a, b, t);
    FirstCallCaches(cfg, d, a, t);
    var calls := [CallAt(a, t), CallAt(b, t)];
    if BaseTtl(cfg) < 0.0 {
      NegativeTtlIsTransparent(cfg, d, calls, t);
      return;
    }
    var one := RunCalls(cfg, d, [CallAt(a, t)], t);
    assert RunCalls(cfg, d, [], t) == EMPTY;
    assert one == Invoke(cfg, d, EMPTY, CallAt(a, t)).0;
    InvokeServes(cfg, d, one, b, t);
  }

  lemma InvokeServes(cfg: CacheConfig, d: Decorated, st: State, b: Args, t: real)
    requires cfg.maxSize >= 1 && Structured(cfg, st, t)
    requires !st.circuitOpen && d.key(b) in st.entries
    requires var e := st.entries[d.key(b)]; e.expiry > t && e.version == 0 && e.value != PyNone
    ensures Invoke(cfg, d, st, CallAt(b, t)).1 == Returned(st.entries[d.key(b)].value)
  {
    hide Structured, Get, Set;
    ServesFresh(cfg, st, d.key(b), t);
  }

  lemma ServesFresh(cfg: CacheConfig, st: State, key: Key, t: real)
    requires !st.circuitOpen && key in st.entries && st.entries[key].expiry > t && st.entries[key].version == 0
    ensures Get(cfg, st, key, 0, t, t, t).1 == st.entries[key].value
  {
    hide Filter;
  }

  /** The decorated function agrees with the plain one on every timed sequence of calls. */
  ghost predicate Transparent(cfg: CacheConfig, d: Decorated)
    requires cfg.maxSize >= 1
  {
    forall calls: seq<Call>, start: real :: CallsTimed(calls, start) && calls != [] ==>
      LastOutcome(cfg, d, calls, start) == Plain(d, calls[|calls| - 1].args)
  }

  /** Caching is invisible through any evictions and expiries exactly when the key is sound or the TTL negative. */
  lemma TransparentIffKeySound(cfg: CacheConfig, d: Decorated)
    requires cfg.maxSize >= 1
    ensures Transparent(cfg, d) <==> KeySound(d) || BaseTtl(cfg) < 0.0
  {
    hide LastOutcome, CallsTimed;
    if KeySound(d) {
      forall calls: seq<Call>, start: real | CallsTimed(calls, start) && calls != []
        ensures LastOutcome(cfg, d, calls, start) == Plain(d, calls[|calls| - 1].args)
      {
        SoundKeyIsTransparent(cfg, d, calls, start);
      }
    }
    if BaseTtl(cfg) < 0.0 {
      forall calls: seq<Call>, start: real | CallsTimed(calls, start) && calls != []
        ensures LastOutcome(cfg, d, calls, start) == Plain(d, calls[|calls| - 1].args)
      {
        NegativeTtlIsTransparent(cfg, d, calls, start);
      }
    } else if Transparent(cfg, d) {
      forall a: Args, b: Args | d.key(a) == d.key(b) && Servable(d, d.f(a)) ensures d.f(b) == d.f(a) {
        CollisionAnswersWrong(cfg, d, a, b, 0.0);
        var calls := [CallAt(a, 0.0), CallAt(b, 0.0)];
        assert LastOutcome(cfg, d, calls, 0.0) == Plain(d, b);
      }
    }
  }

  // ---------------------------------------------------------------------------
  // A warm cache admits nobody
  // ---------------------------------------------------------------------------

  /** Nothing has left the cache: every key ever counted is cached, and no entry expires before the deadline. */
  ghost predicate Warm(st: State, deadline: real) {
    && (forall k :: k in st.frequency ==> k in st.entries)
    && (forall k :: k in st.entries ==> st.entries[k].expiry >= deadline && st.entries[k].value != PyNone && st.entries[k].version == 0)
    && st.evictions == 0
  }

  lemma WarmCleanup(st: State, now: real, deadline: real)
    requires InStep(st) && Warm(st, deadline) && now < deadline
    ensures CleanupExpired(st, now) == st
  {
    hide NoRepeat, Filter;
    var fresh' := Fresh(st.entries, now);
    assert forall k :: k in st.entries ==> fresh'(k);
    FilterAll(st.order, fresh');
    FilterAll(st.access, fresh');
    assert (map k | k in st.entries && fresh'(k) :: st.entries[k]) == st.entries;
  }

  lemma WarmGet(cfg: CacheConfig, st: State, key: Key, clock: real, t0: real, t1: real, t2: real, deadline: real)
    requires Structured(cfg, st, clock) && Warm(st, deadline) && t0 <= t1 <= t2 < deadline
    ensures var (next, v) := Get(cfg, st, key, 0, t0, t1, t2);
      && Warm(next, deadline) && next.entries.Keys == st.entries.Keys && next.order == st.order
      && (key in st.entries <==> v != PyNone)
      && (key in st.entries ==> v == st.entries[key].value)
  {
    hide Filter, NoRepeat, AccessedInOrder;
    WarmCleanup(st, t0, deadline);
  }

  lemma WarmSetRefused(cfg: CacheConfig, st: State, key: Key, v: PyValue, clock: real, t0: real, t1: real, t2: real,
                       deadline: real)
    requires cfg.maxSize >= 1 && Structured(cfg, st, clock) && Warm(st, deadline)
    requires key !in st.entries && |st.order| >= cfg.maxSize
    ensures Set(cfg, st, key, v, None, 0, 0.0, t0, t1, t2) == st
  {
    hide Filter, NoRepeat, AccessedInOrder, MakeRoom, Write;
    NonEmptyAccess(st);
    assert FrequencyOf(st, key) == 0;
    assert st.entries[st.access[0]].accessCount >= 1;
  }

  lemma WarmSetAdmitted(cfg: CacheConfig, st: State, key: Key, v: PyValue, clock: real, t0: real, t1: real, t2: real,
                        deadline: real)
    requires cfg.maxSize >= 1 && Structured(cfg, st, clock) && Warm(st, deadline) && v != PyNone
    requires t0 < deadline && deadline <= t1 + BaseTtl(cfg) && |st.order| < cfg.maxSize
    ensures var next := Set(cfg, st, key, v, None, 0, 0.0, t0, t1, t2);
      Warm(next, deadline) && next.entries.Keys == st.entries.Keys + {key}
  {
    hide Filter, NoRepeat, AccessedInOrder, CleanupExpired, Evict, MoveToEnd, AppendAbsent;
    WarmCleanup(st, t0, deadline);
    assert BaseTtl(cfg) * (1.0 / (1.0 + 0.0)) == BaseTtl(cfg);
  }

  lemma WarmSet(cfg: CacheConfig, st: State, key: Key, v: PyValue, clock: real, t0: real, t1: real, t2: real,
                start: real)
    requires cfg.maxSize >= 1 && Structured(cfg, st, clock) && Warm(st, start + BaseTtl(cfg))
    requires start <= t0 <= t1 <= t2 < start + BaseTtl(cfg)
    requires key !in st.entries && v != PyNone
    ensures var next := Set(cfg, st, key, v, None, 0, 0.0, t0, t1, t2);
      && Warm(next, start + BaseTtl(cfg))
      && (|st.order| >= cfg.maxSize ==> next == st)
      && (|st.order| < cfg.maxSize ==> next.entries.Keys == st.entries.Keys + {key})
  {
    hide Filter, NoRepeat, AccessedInOrder, Set;
    if |st.order| >= cfg.maxSize {
      WarmSetRefused(cfg, st, key, v, clock, t0, t1, t2, start + BaseTtl(cfg));
    } else {
      WarmSetAdmitted(cfg, st, key, v, clock, t0, t1, t2, start + BaseTtl(cfg));
    }
  }

  ghost predicate Early(calls: seq<Call>, deadline: real) {
    forall i :: 0 <= i < |calls| ==> calls[i].s2 < deadline
  }

  lemma WarmInvoke(cfg: CacheConfig, d: Decorated, st: State, c: Call, start: real)
    requires cfg.maxSize >= 1 && Structured(cfg, st, c.g0) && CallTimed(c, c.g0)
    requires Warm(st, start + BaseTtl(cfg)) && start <= c.g0 && c.s2 < start + BaseTtl(cfg)
    requires d.f(c.args) != PyNone
    ensures var next := Invoke(cfg, d, st, c).0;
      && Warm(next, start + BaseTtl(cfg))
      && st.entries.Keys <= next.entries.Keys
      && (|st.order| >= cfg.maxSize ==> next.entries.Keys == st.entries.Keys)
  {
    hide Filter, InStep, AccessedInOrder, Get, Set;
    var key := d.key(c.args);
    GetStructured(cfg, st, key, 0, c.g0, c.g1, c.g2, c.g0);
    WarmGet(cfg, st, key, c.g0, c.g0, c.g1, c.g2, start + BaseTtl(cfg));
    if key !in st.entries && d.valid(d.f(c.args)) {
      var looked := Get(cfg, st, key, 0, c.g0, c.g1, c.g2).0;
      WarmSet(cfg, looked, key, d.f(c.args), c.g2, c.s0, c.s1, c.s2, start);
    }
  }

  lemma {:induction false} WarmRun(cfg: CacheConfig, d: Decorated, calls: seq<Call>, start: real)
    requires cfg.maxSize >= 1 && CallsTimed(calls, start) && Early(calls, start + BaseTtl(cfg))
    requires forall a :: d.f(a) != PyNone
    ensures Warm(RunCalls(cfg, d, calls, start), start + BaseTtl(cfg))
    ensures start <= CallClock(calls, start)
    decreases |calls|
  {
    hide Invoke, Structured;
    if calls != [] {
      var init, last := calls[..|calls| - 1], calls[|calls| - 1];
      assert forall i :: 0 <= i < |init| ==> init[i] == calls[i];
      WarmRun(cfg, d, init, start);
      InvokeStructured(cfg, d, RunCalls(cfg, d, init, start), last, CallClock(init, start));
      WarmInvoke(cfg, d, RunCalls(cfg, d, init, start), last, start);
    }
  }

  /**
   * Within one base TTL of the first call, a decorated function that never returns None never evicts, and
   * once its cache is full the cached keys are fixed: admission asks a new key for more accesses than it
   * can have, so the eviction policy is never reached.
   */
  lemma {:induction false} WarmCacheIsFrozen(cfg: CacheConfig, d: Decorated, before: seq<Call>, after: seq<Call>, start: real)
    requires cfg.maxSize >= 1 && CallsTimed(before + after, start) && Early(before + after, start + BaseTtl(cfg))
    requires forall a :: d.f(a) != PyNone
    ensures CallsTimed(before, start)
    ensures RunCalls(cfg, d, before + after, start).evictions == 0
    ensures RunCalls(cfg, d, before, start).entries.Keys <= RunCalls(cfg, d, before + after, start).entries.Keys
    ensures |RunCalls(cfg, d, before, start).order| >= cfg.maxSize ==>
      RunCalls(cfg, d, before + after, start).entries.Keys == RunCalls(cfg, d, before, start).entries.Keys
    decreases |after|
  {
    hide Invoke;
    WarmRun(cfg, d, before + after, start);
    if after == [] {
      assert before + after == before;
    } else {
      var init, last := after[..|after| - 1], after[|after| - 1];
      var all := before + after;
      assert all[..|all| - 1] == before + init;
      assert forall i :: 0 <= i < |before + init| ==> (before + init)[i] == all[i];
      WarmCacheIsFrozen(cfg, d, before, init, start);
      var st := RunCalls(cfg, d, before + init, start);
      WarmRun(cfg, d, before + init, start);
      InvokeStructured(cfg, d, st, last, CallClock(before + init, start));
      WarmInvoke(cfg, d, st, last, start);
      if |RunCalls(cfg, d, before, start).order| >= cfg.maxSize {
        SameKeysSameLength(RunCalls(cfg, d, before, start), st);
      }
    }
  }

  lemma SameKeysSameLength(a: State, b: State)
    requires InStep(a) && InStep(b) && a.entries.Keys == b.entries.Keys
    ensures |a.order| == |b.order|
  {
    KeysLength(a.order, a.entries.Keys);
    KeysLength(b.order, b.entries.Keys);
  }

  lemma {:induction false} KeysLength(keys: seq<Key>, s: set<Key>)
    requires NoRepeat(keys) && forall k :: k in keys <==> k in s
    ensures |keys| == |s|
  {
    if keys == [] {
      assert s == {};
    } else {
      assert keys[0] !in keys[1..];
      KeysLength(keys[1..], s - {keys[0]});
    }
  }

  // ---------------------------------------------------------------------------
  // The wrapper itself
  // ---------------------------------------------------------------------------

  class Wrapper {
    const d: Decorated
    const cache: EnhancedCacheManager

    constructor (d: Decorated, maxSize: int, ttl: Option<real>, metrics: bool)
      requires maxSize >= 1
      ensures this.d == d && fresh(cache) && cache.Value() == EMPTY
      ensures cache.cfg == CacheConfig(maxSize, ttl, LRU, metrics)
    {
      this.d := d;
      cache := new EnhancedCacheManager(CacheConfig(maxSize, ttl, LRU, metrics));
    }

    method CallThrough(c: Call, ghost clock: real) returns (r: Outcome)
      requires cache.Valid(clock) && CallTimed(c, clock)
      modifies cache
      ensures cache.Valid(c.s2)
      ensures Structured(cache.cfg, old(cache.Value()), c.g0)
      ensures cache.Value() == Invoke(cache.cfg, d, old(cache.Value()), c).0
      ensures r == Invoke(cache.cfg, d, old(cache.Value()), c).1
      ensures KeySound(d) && Honest(d, old(cache.Value())) ==> r == Plain(d, c.args) && Honest(d, cache.Value())
    {
      hide Structured, Get, Set;
      ghost var before := cache.Value();
      InvokeStructured(cache.cfg, d, before, c, clock);
      if Honest(d, before) { InvokeHonest(cache.cfg, d, before, c); }
      var key := d.key(c.args);
      var cached := cache.Lookup(key, 0, c.g0, c.g1, c.g2, clock);
      if cached != PyNone {
        LaterClock(cache.cfg, cache.Value(), c.g2, c.s2);
        return Returned(cached);
      }
      var v := d.f(c.args);
      if !d.valid(v) {
        LaterClock(cache.cfg, cache.Value(), c.g2, c.s2);
        return InvalidResult;
      }
      cache.Put(key, v, None, 0, 0.0, c.s0, c.s1, c.s2, c.g2);
      r := Returned(v);
    }
  }
}
