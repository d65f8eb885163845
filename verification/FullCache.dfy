/** When the decorator's cache, full of unexpired entries, changes its keys. */
module FullCache {
  import opened Common
  import opened Ordering
  import opened CacheModel
  import opened CacheRuns
  import opened Memo

  ghost predicate LiveUntil(st: State, until: real) {
    forall k :: k in st.entries ==> st.entries[k].expiry > until
  }

  lemma LiveCleanup(st: State, now: real, until: real)
    requires InStep(st) && LiveUntil(st, until) && now <= until
    ensures CleanupExpired(st, now) == st
  {
    hide NoRepeat, Filter;
    var fresh' := Fresh(st.entries, now);
    assert forall k :: k in st.entries ==> fresh'(k);
    FilterAll(st.order, fresh');
    FilterAll(st.access, fresh');
    assert (map k | k in st.entries && fresh'(k) :: st.entries[k]) == st.entries;
  }

  /** A get on live entries: a hit touches the entry, a miss leaves everything but its counter. */
  lemma LiveGet(cfg: CacheConfig, st: State, key: Key, t0: real, t1: real, t2: real, until: real)
    requires Structured(cfg, st, t0) && LiveUntil(st, until) && t0 <= t1 <= t2 <= until
    ensures Get(cfg, st, key, 0, t0, t1, t2)
         == if key in st.entries then (Touch(cfg, st, key, t2), st.entries[key].value)
            else (st.(misses := Bump(cfg, st.misses)), PyNone)
  {
    hide Filter, NoRepeat, AccessedInOrder;
    LiveCleanup(st, t0, until);
  }

  /** The state after the look-up that opens a call. */
  function Looked(cfg: CacheConfig, st: State, key: Key, now: real): State {
    if key in st.entries then Touch(cfg, st, key, now) else st.(misses := Bump(cfg, st.misses))
  }

  lemma LookedFacts(cfg: CacheConfig, st: State, key: Key, now: real, until: real)
    requires Structured(cfg, st, now) && LiveUntil(st, until)
    ensures var looked := Looked(cfg, st, key, now);
      && Structured(cfg, looked, now) && LiveUntil(looked, until)
      && looked.order == st.order && looked.entries.Keys == st.entries.Keys
  {
    hide Filter, NoRepeat, AccessedInOrder, InStep;
    if key in st.entries { TouchStructured(cfg, st, key, now, now); } else { LaterClock(cfg, st, now, now); }
  }

  /**
   * One call on a cache full of entries that outlive the call. A key that is not cached displaces one exactly
   * when its result is valid and it was counted more often than the entry at the front of the access list was
   * accessed. A cached value changes no keys. A cached None looks like a miss after counting as a hit, so it is
   * computed and set again, which costs another entry exactly when that set is admitted and the policy's
   * victim is not the key itself.
   */
  lemma FullCacheChangesIff(cfg: CacheConfig, d: Decorated, st: State, c: Call)
    requires cfg.maxSize >= 1 && Structured(cfg, st, c.g0) && CallTimed(c, c.g0)
    requires |st.order| >= cfg.maxSize && LiveUntil(st, c.s2)
    ensures st.access != [] && st.access[0] in st.entries
    ensures var key, next := d.key(c.args), Invoke(cfg, d, st, c).0;
      key !in st.entries ==>
        (next.entries.Keys != st.entries.Keys <==>
           d.valid(d.f(c.args)) && FrequencyOf(st, key) > st.entries[st.access[0]].accessCount)
    ensures var key, next := d.key(c.args), Invoke(cfg, d, st, c).0;
      key in st.entries && st.entries[key].value != PyNone ==> next.entries.Keys == st.entries.Keys
    ensures var key, next := d.key(c.args), Invoke(cfg, d, st, c).0;
      key in st.entries && st.entries[key].value == PyNone ==>
        var touched := Touch(cfg, st, key, c.g2);
        && InStep(touched) && touched.order != []
        && (next.entries.Keys != st.entries.Keys <==>
              d.valid(d.f(c.args)) && Admits(cfg, touched, key) && Victim(cfg, touched) != key)
  {
    hide Filter, NoRepeat, AccessedInOrder, Get, Set, Victim, Touch;
    NonEmptyAccess(st);
    var key, looked := d.key(c.args), Looked(cfg, st, d.key(c.args), c.g2);
    LaterClock(cfg, st, c.g0, c.g2);
    LiveGet(cfg, st, key, c.g0, c.g1, c.g2, c.s2);
    LookedFacts(cfg, st, key, c.g2, c.s2);
    LiveCleanup(looked, c.s0, c.s2);
    SetKeys(cfg, looked, key, d.f(c.args), None, 0, 0.0, c.s0, c.s1, c.s2);
    VictimCached(cfg, looked);
  }

  /** What an admitted miss writes while nothing expires. */
  lemma AdmittedMiss(cfg: CacheConfig, d: Decorated, st: State, c: Call)
    requires cfg.maxSize >= 1 && Structured(cfg, st, c.g0) && CallTimed(c, c.g0) && LiveUntil(st, c.s2)
    requires d.key(c.args) !in st.entries && d.valid(d.f(c.args))
    requires var looked := st.(misses := Bump(cfg, st.misses)); InStep(looked) && Admits(cfg, looked, d.key(c.args))
    ensures |st.order| >= cfg.maxSize ==> st.order != []
    ensures var looked := st.(misses := Bump(cfg, st.misses));
      Invoke(cfg, d, st, c).0
        == Write(cfg, if |st.order| >= cfg.maxSize then Evict(cfg, looked) else looked, d.key(c.args),
                 Entry(d.f(c.args), c.s1 + BaseTtl(cfg), 0, 1, c.s2))
  {
    hide Filter, NoRepeat, AccessedInOrder, Get, Victim, Evict, Write, CleanupExpired, Admits;
    var key, looked := d.key(c.args), st.(misses := Bump(cfg, st.misses));
    LaterClock(cfg, st, c.g0, c.g0);
    LiveGet(cfg, st, key, c.g0, c.g1, c.g2, c.s2);
    LiveCleanup(looked, c.s0, c.s2);
    assert BaseTtl(cfg) * (1.0 / (1.0 + 0.0)) == BaseTtl(cfg);
  }

  /** A cached value is served, and its entry touched, while nothing expires. */
  lemma LiveHit(cfg: CacheConfig, d: Decorated, st: State, c: Call)
    requires cfg.maxSize >= 1 && Structured(cfg, st, c.g0) && CallTimed(c, c.g0) && LiveUntil(st, c.s2)
    requires d.key(c.args) in st.entries && st.entries[d.key(c.args)].value != PyNone
    ensures Invoke(cfg, d, st, c).0 == Touch(cfg, st, d.key(c.args), c.g2)
  {
    hide Structured, Get, Set, Touch;
    LiveGet(cfg, st, d.key(c.args), c.g0, c.g1, c.g2, c.s2);
  }

  /** The state once everything cached has expired. */
  function Emptied(st: State): State {
    st.(order := [], entries := map[], access := [])
  }

  lemma {:induction false} FilterNone(keys: seq<Key>, keep: Key -> bool)
    requires forall k :: k in keys ==> !keep(k)
    ensures Filter(keys, keep) == []
  {
    if keys != [] { FilterNone(keys[1..], keep); }
  }

  lemma ColdCleanup(st: State, now: real)
    requires InStep(st) && Cold(st, now)
    ensures CleanupExpired(st, now) == Emptied(st)
  {
    hide NoRepeat, Filter;
    FilterNone(st.order, Fresh(st.entries, now));
    FilterNone(st.access, Fresh(st.entries, now));
    assert (map k | k in st.entries && Fresh(st.entries, now)(k) :: st.entries[k]) == map[];
  }

  /** A call after everything has expired empties the cache and writes its result. */
  lemma MissAfterExpiry(cfg: CacheConfig, d: Decorated, st: State, c: Call)
    requires cfg.maxSize >= 1 && Structured(cfg, st, c.g0) && CallTimed(c, c.g0) && Cold(st, c.g0)
    requires d.valid(d.f(c.args))
    ensures Invoke(cfg, d, st, c).0
         == Write(cfg, Emptied(st).(misses := Bump(cfg, st.misses)), d.key(c.args),
                  Entry(d.f(c.args), c.s1 + BaseTtl(cfg), 0, 1, c.s2))
  {
    hide Filter, Write, CleanupExpired, ShouldAdmit;
    var key, looked := d.key(c.args), Emptied(st).(misses := Bump(cfg, st.misses));
    ColdCleanup(st, c.g0);
    assert Get(cfg, st, key, 0, c.g0, c.g1, c.g2) == (looked, PyNone);
    ColdCleanup(looked, c.s0);
    assert BaseTtl(cfg) * (1.0 / (1.0 + 0.0)) == BaseTtl(cfg);
  }

  // ---------------------------------------------------------------------------
  // Concrete runs
  // ---------------------------------------------------------------------------

  /** Arguments 0 and 1 under keys "a" and "b"; argument 2, under "c", gives None. */
  const TOY := Decorated(
    (a: Args) => if a == 2 then PyNone else PyObject(a),
    (a: Args) => if a == 0 then "a" else if a == 1 then "b" else "c",
    (v: PyValue) => true)

  const ONE := CacheConfig(1, None, LRU, true)
  const TWO := CacheConfig(2, None, LRU, true)

  lemma RunCallsSnoc(cfg: CacheConfig, d: Decorated, calls: seq<Call>, c: Call, start: real)
    requires cfg.maxSize >= 1 && CallsTimed(calls, start) && CallTimed(c, CallClock(calls, start))
    ensures CallsTimed(calls + [c], start) && CallClock(calls + [c], start) == c.s2
    ensures Structured(cfg, RunCalls(cfg, d, calls, start), c.g0)
    ensures RunCalls(cfg, d, calls + [c], start) == Invoke(cfg, d, RunCalls(cfg, d, calls, start), c).0
  {
    hide Invoke;
    assert (calls + [c])[..|calls|] == calls;
    InvokeStructured(cfg, d, RunCalls(cfg, d, calls, start), c, CallClock(calls, start));
  }

  lemma FilterOne(key: Key, keep: Key -> bool)
    ensures Filter([key], keep) == if keep(key) then [key] else []
  {
    assert [key][1..] == [];
  }

  lemma FirstWrite(cfg: CacheConfig, st: State, key: Key, e: Entry)
    requires st.order == [] && st.access == [] && st.entries == map[]
    ensures Write(cfg, st, key, e)
         == st.(order := [key], entries := map[key := e], access := [key],
                frequency := st.frequency[key := FrequencyOf(st, key) + 1], sets := Bump(cfg, st.sets), failures := 0)
  {
    hide Filter;
    FilterOne(key, Other(key));
    assert [] + [key] == [key];
    assert AppendAbsent([], key) == [key];
    assert MoveToEnd([key], key) == [key];
  }

  // A one-slot cache: "a" is called twice, expires, gives way to "b", and then takes its place back.

  const CALLED := [] + [CallAt(0, 0.0)]
  const RECALLED := CALLED + [CallAt(0, 1.0)]
  const REPLACED := RECALLED + [CallAt(1, 301.0)]
  const RETURNED := REPLACED + [CallAt(0, 302.0)]

  lemma NothingCalled()
    ensures CallsTimed([], 0.0) && CallClock([], 0.0) == 0.0
    ensures forall cfg: CacheConfig, d :: cfg.maxSize >= 1 ==> RunCalls(cfg, d, [], 0.0) == EMPTY
  {
  }

  lemma AfterCalled()
    ensures CallsTimed(CALLED, 0.0) && CallClock(CALLED, 0.0) == 0.0
    ensures RunCalls(ONE, TOY, CALLED, 0.0)
         == State(["a"], map["a" := Entry(PyObject(0), 300.0, 0, 1, 0.0)], ["a"], map["a" := 1], 0, 1, 0, 1, false, 0)
  {
    hide RunCalls, CallsTimed, Invoke, Filter, Write, AccessedInOrder;
    NothingCalled();
    RunCallsSnoc(ONE, TOY, [], CallAt(0, 0.0), 0.0);
    AdmittedMiss(ONE, TOY, EMPTY, CallAt(0, 0.0));
    FirstWrite(ONE, EMPTY.(misses := 1), "a", Entry(PyObject(0), 300.0, 0, 1, 0.0));
  }

  lemma AfterRecalled()
    ensures CallsTimed(RECALLED, 0.0) && CallClock(RECALLED, 0.0) == 1.0
    ensures RunCalls(ONE, TOY, RECALLED, 0.0)
         == State(["a"], map["a" := Entry(PyObject(0), 300.0, 0, 2, 1.0)], ["a"], map["a" := 2], 1, 1, 0, 1, false, 0)
  {
    hide RunCalls, CallsTimed, Invoke, Filter, AccessedInOrder, InStep;
    AfterCalled();
    RunCallsSnoc(ONE, TOY, CALLED, CallAt(0, 1.0), 0.0);
    LiveHit(ONE, TOY, RunCalls(ONE, TOY, CALLED, 0.0), CallAt(0, 1.0));
    FilterOne("a", Other("a"));
  }

  lemma AfterReplaced()
    ensures CallsTimed(REPLACED, 0.0) && CallClock(REPLACED, 0.0) == 301.0
    ensures RunCalls(ONE, TOY, REPLACED, 0.0)
         == State(["b"], map["b" := Entry(PyObject(1), 601.0, 0, 1, 301.0)], ["b"], map["a" := 2, "b" := 1], 1, 2, 0, 2, false, 0)
  {
    hide RunCalls, CallsTimed, Invoke, Filter, Write, AccessedInOrder, InStep;
    AfterRecalled();
    RunCallsSnoc(ONE, TOY, RECALLED, CallAt(1, 301.0), 0.0);
    var st := RunCalls(ONE, TOY, RECALLED, 0.0);
    MissAfterExpiry(ONE, TOY, st, CallAt(1, 301.0));
    FirstWrite(ONE, Emptied(st).(misses := 2), "b", Entry(PyObject(1), 601.0, 0, 1, 301.0));
  }

  /** The fourth call evicts "b" 299 seconds before it expires: "a" was counted twice before it left. */
  lemma ReturningKeyEvicts()
    ensures CallsTimed(REPLACED, 0.0) && CallsTimed(RETURNED, 0.0)
    ensures RunCalls(ONE, TOY, REPLACED, 0.0).entries.Keys == {"b"}
    ensures RunCalls(ONE, TOY, REPLACED, 0.0).entries["b"].expiry == 601.0
    ensures RunCalls(ONE, TOY, RETURNED, 0.0).entries.Keys == {"a"}
    ensures RunCalls(ONE, TOY, RETURNED, 0.0).evictions == 1
  {
    hide RunCalls, CallsTimed, Invoke, Victim, Filter, AccessedInOrder;
    AfterReplaced();
    RunCallsSnoc(ONE, TOY, REPLACED, CallAt(0, 302.0), 0.0);
    var st := RunCalls(ONE, TOY, REPLACED, 0.0);
    AdmittedMiss(ONE, TOY, st, CallAt(0, 302.0));
    VictimCached(ONE, st.(misses := 3));
  }

  // A two-slot cache: a second call of a function that gives None evicts another function value.

  const FILLED := CALLED + [CallAt(2, 1.0)]
  const ASKED_AGAIN := FILLED + [CallAt(2, 2.0)]

  lemma AfterCalledInTwo()
    ensures CallsTimed(CALLED, 0.0) && CallClock(CALLED, 0.0) == 0.0
    ensures RunCalls(TWO, TOY, CALLED, 0.0)
         == State(["a"], map["a" := Entry(PyObject(0), 300.0, 0, 1, 0.0)], ["a"], map["a" := 1], 0, 1, 0, 1, false, 0)
  {
    hide RunCalls, CallsTimed, Invoke, Filter, Write, AccessedInOrder;
    NothingCalled();
    RunCallsSnoc(TWO, TOY, [], CallAt(0, 0.0), 0.0);
    AdmittedMiss(TWO, TOY, EMPTY, CallAt(0, 0.0));
    FirstWrite(TWO, EMPTY.(misses := 1), "a", Entry(PyObject(0), 300.0, 0, 1, 0.0));
  }

  lemma AfterFilled()
    ensures CallsTimed(FILLED, 0.0) && CallClock(FILLED, 0.0) == 1.0
    ensures var st := RunCalls(TWO, TOY, FILLED, 0.0);
      && st.entries == map["a" := Entry(PyObject(0), 300.0, 0, 1, 0.0), "c" := Entry(PyNone, 301.0, 0, 1, 1.0)]
      && st.order == ["a", "c"] == st.access && st.frequency == map["a" := 1, "c" := 1] && st.evictions == 0
  {
    hide RunCalls, CallsTimed, Invoke, AccessedInOrder;
    AfterCalledInTwo();
    RunCallsSnoc(TWO, TOY, CALLED, CallAt(2, 1.0), 0.0);
    AdmittedMiss(TWO, TOY, RunCalls(TWO, TOY, CALLED, 0.0), CallAt(2, 1.0));
    assert Filter(["a", "c"], Other("c")) == ["a"] by {
      assert ["a", "c"][1..] == ["c"];
      FilterOne("c", Other("c"));
    }
  }

  /** Within one TTL and without a third key, the second call for "c" evicts "a". */
  lemma CachedNoneEvicts()
    ensures CallsTimed(FILLED, 0.0) && CallsTimed(ASKED_AGAIN, 0.0)
    ensures RunCalls(TWO, TOY, FILLED, 0.0).entries.Keys == {"a", "c"}
    ensures RunCalls(TWO, TOY, ASKED_AGAIN, 0.0).entries.Keys == {"c"}
  {
    hide RunCalls, CallsTimed, CleanupExpired, Victim, Get, Set, Invoke;
    AfterFilled();
    RunCallsSnoc(TWO, TOY, FILLED, CallAt(2, 2.0), 0.0);
    var st := RunCalls(TWO, TOY, FILLED, 0.0);
    CachedNoneStep(st);
  }

  lemma CachedNoneStep(st: State)
    requires Structured(TWO, st, 2.0) && CallTimed(CallAt(2, 2.0), 2.0)
    requires st.entries == map["a" := Entry(PyObject(0), 300.0, 0, 1, 0.0), "c" := Entry(PyNone, 301.0, 0, 1, 1.0)]
    requires st.order == ["a", "c"] == st.access && st.frequency == map["a" := 1, "c" := 1]
    ensures Invoke(TWO, TOY, st, CallAt(2, 2.0)).0.entries.Keys == {"c"}
  {
    hide CleanupExpired, Get, Set, Filter, AccessedInOrder;
    var touched := Touch(TWO, st, "c", 2.0);
    LiveGet(TWO, st, "c", 2.0, 2.0, 2.0, 299.0);
    LookedFacts(TWO, st, "c", 2.0, 299.0);
    LiveCleanup(touched, 2.0, 299.0);
    FrontOfTouched(st);
    SetKeys(TWO, touched, "c", PyNone, None, 0, 0.0, 2.0, 2.0, 2.0);
  }

  lemma FrontOfTouched(st: State)
    requires "c" in st.entries && st.access == ["a", "c"]
    ensures Touch(TWO, st, "c", 2.0).access == ["a", "c"]
  {
    assert ["a", "c"][1..] == ["c"];
    FilterOne("c", Other("c"));
  }
}
