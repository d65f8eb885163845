/** A concrete run of a FIFO cache: a returning key is admitted and the key that entered first gives way. */
module CacheWitness {
  import opened Common
  import opened Ordering
  import opened CacheModel
  import opened CacheRuns
  import opened CacheOrder
  import FullCache

  const CFG := CacheConfig(2, None, FIFO, true)

  function SetAt(key: Key, id: int): Op {
    SetOp(key, PyObject(id), None, 0, 0.0, 0.0, 0.0, 0.0)
  }

  function GetAt(key: Key): Op {
    GetOp(key, 0, 0.0, 0.0, 0.0)
  }

  function Held(id: int, count: nat): Entry {
    Entry(PyObject(id), 300.0, 0, count, 0.0)
  }

  const FIRST := [] + [SetAt("c", 3)]
  const READ := FIRST + [GetAt("c")]
  const DROPPED := READ + [InvalidateOp("c")]
  const ONE := DROPPED + [SetAt("a", 1)]
  const FULL := ONE + [SetAt("b", 2)]
  const RETURNED := FULL + [SetAt("c", 4)]

  lemma After(ops: seq<Op>, op: Op)
    requires WellTimed(ops, 0.0) && Clock(ops, 0.0) == 0.0 && WellFormedOp(op, 0.0) && ClockAfter(op, 0.0) == 0.0
    ensures WellTimed(ops + [op], 0.0) && Clock(ops + [op], 0.0) == 0.0
    ensures Structured(CFG, Run(CFG, ops, 0.0), 0.0)
    ensures Run(CFG, ops + [op], 0.0) == Apply(CFG, Run(CFG, ops, 0.0), op)
  {
    hide Run, Apply, Structured;
    assert (ops + [op])[..|ops|] == ops;
    RunSnoc(CFG, ops, op, 0.0);
  }

  /** A set into a cache with room and nothing expired. */
  lemma SetWithRoom(st: State, key: Key, id: int)
    requires Structured(CFG, st, 0.0) && FullCache.LiveUntil(st, 0.0) && |st.order| < 2 && key !in st.entries
    ensures var next := Apply(CFG, st, SetAt(key, id));
      && next.order == st.order + [key] && next.access == st.access + [key]
      && next.entries == st.entries[key := Held(id, 1)]
      && next.frequency == st.frequency[key := FrequencyOf(st, key) + 1]
  {
    hide Filter, CleanupExpired;
    FullCache.LiveCleanup(st, 0.0, 0.0);
  }

  lemma AfterDropped()
    ensures WellTimed(DROPPED, 0.0) && Clock(DROPPED, 0.0) == 0.0
    ensures var st := Run(CFG, DROPPED, 0.0);
      st.order == [] == st.access && st.entries == map[] && st.frequency == map["c" := 2]
  {
    hide Run, Filter, AccessedInOrder, Apply;
    assert WellTimed([], 0.0) && Clock([], 0.0) == 0.0 && Run(CFG, [], 0.0) == EMPTY by { Nothing(); }
    After([], SetAt("c", 3));
    SetWithRoom(EMPTY, "c", 3);
    After(FIRST, GetAt("c"));
    var st := Run(CFG, FIRST, 0.0);
    assert st.order == ["c"] == st.access && st.entries == map["c" := Held(3, 1)] && st.frequency == map["c" := 1];
    ReadAgain(st);
    After(READ, InvalidateOp("c"));
    Dropped(Run(CFG, READ, 0.0));
  }

  lemma Nothing()
    ensures WellTimed([], 0.0) && Clock([], 0.0) == 0.0 && Run(CFG, [], 0.0) == EMPTY
  {
  }

  lemma ReadAgain(st: State)
    requires Structured(CFG, st, 0.0)
    requires st.order == ["c"] == st.access && st.entries == map["c" := Held(3, 1)] && st.frequency == map["c" := 1]
    ensures var next := Apply(CFG, st, GetAt("c"));
      next.order == ["c"] == next.access && next.entries == map["c" := Held(3, 2)] && next.frequency == map["c" := 2]
  {
    hide Filter, CleanupExpired;
    FullCache.LiveCleanup(st, 0.0, 0.0);
  }

  lemma Dropped(st: State)
    requires InStep(st)
    requires st.order == ["c"] == st.access && st.entries == map["c" := Held(3, 2)] && st.frequency == map["c" := 2]
    ensures var next := Apply(CFG, st, InvalidateOp("c"));
      next.order == [] == next.access && next.entries == map[] && next.frequency == map["c" := 2]
  {
    FullCache.FilterOne("c", Other("c"));
    hide Filter;
    assert st.entries - {"c"} == map[];
  }

  lemma AfterOne()
    ensures WellTimed(ONE, 0.0) && Clock(ONE, 0.0) == 0.0
    ensures var st := Run(CFG, ONE, 0.0);
      && st.order == ["a"] == st.access && st.entries == map["a" := Held(1, 1)]
      && st.frequency == map["c" := 2, "a" := 1]
  {
    hide Run, Filter, AccessedInOrder, Apply;
    AfterDropped();
    After(DROPPED, SetAt("a", 1));
    SetWithRoom(Run(CFG, DROPPED, 0.0), "a", 1);
  }

  lemma AfterFull()
    ensures WellTimed(FULL, 0.0) && Clock(FULL, 0.0) == 0.0
    ensures var st := Run(CFG, FULL, 0.0);
      && st.order == ["a", "b"] == st.access && st.entries == map["a" := Held(1, 1), "b" := Held(2, 1)]
      && st.frequency == map["c" := 2, "a" := 1, "b" := 1]
  {
    hide Run, Filter, AccessedInOrder, Apply;
    AfterOne();
    After(ONE, SetAt("b", 2));
    SetWithRoom(Run(CFG, ONE, 0.0), "b", 2);
  }

  /** "c", counted twice before it left, is admitted; "a" entered before "b", so "a" goes and "b" is still served. */
  lemma FirstInGoesFirst()
    ensures WellTimed(RETURNED, 0.0)
    ensures var st := Run(CFG, RETURNED, 0.0);
      && st.entries.Keys == {"b", "c"}
      && Get(CFG, st, "b", 0, 0.0, 0.0, 0.0).1 == PyObject(2)
  {
    hide Run, Filter, AccessedInOrder, Apply, CleanupExpired, Victim, Get;
    AfterFull();
    After(FULL, SetAt("c", 4));
    var st := Run(CFG, FULL, 0.0);
    ReturnEvicts(st);
    GetMeaning(CFG, Run(CFG, RETURNED, 0.0), "b", 0, 0.0, 0.0, 0.0);
    After(RETURNED, GetAt("b"));
  }

  lemma ReturnEvicts(st: State)
    requires Structured(CFG, st, 0.0)
    requires st.order == ["a", "b"] == st.access && st.entries == map["a" := Held(1, 1), "b" := Held(2, 1)]
    requires st.frequency == map["c" := 2, "a" := 1, "b" := 1]
    ensures var next := Apply(CFG, st, SetAt("c", 4));
      next.entries.Keys == {"b", "c"} && next.entries["b"] == Held(2, 1) && !next.circuitOpen
  {
    hide Filter, CleanupExpired, AccessedInOrder, Set;
    FullCache.LiveCleanup(st, 0.0, 0.0);
    SetKeys(CFG, st, "c", PyObject(4), None, 0, 0.0, 0.0, 0.0, 0.0);
    SetMeaning(CFG, st, SetAt("c", 4));
    StepStructured(CFG, st, SetAt("c", 4), 0.0);
  }
}
