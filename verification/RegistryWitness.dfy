/** Concrete runs that meet what the registry results assume and reach the cases they single out. */
module RegistryWitness {
  import opened Common
  import opened Ordering
  import opened HashRefs
  import opened RunIndex
  import opened ContentStore
  import opened Retention
  import opened RegistryModel
  import opened RegistryLedger
  import opened RegistryOrphans

  const ONES: string := seq(64, _ => '1')
  const TWOS: string := seq(64, _ => '2')

  /** Texts are their own canonical bytes; "a" has one digest and everything else the other. */
  const TOY := Hashing(
    (j: Json) => if j.Str? then Some(j.text) else None,
    (bytes: string) => Some(Str(bytes)),
    (bytes: string) => if bytes == "a" then ONES else TWOS,
    (bytes: string) => if bytes == "a" then ONES else TWOS)

  const KNOWN := {"a", "b"}

  lemma ToyIsSound()
    ensures TOY.Sound(KNOWN)
  {
    assert ONES[0] != TWOS[0];
    assert HexDigest(ONES) && HexDigest(TWOS);
  }

  /** One run whose only role is bound twice before it completes. */
  const BEGUN := [] + [Begin("r", map[], "0")]
  const BOUND := BEGUN + [Register("r", "role", Str("a"), "1")]
  const BOUND_AGAIN := BOUND + [Register("r", "role", Str("b"), "2")]
  const REBOUND := BOUND_AGAIN + [Finalize("r", Complete, "3")]

  lemma ReboundIsCovered()
    ensures CoversAll(TOY, KNOWN, REBOUND)
  {
  }

  lemma LedgerOfNothing()
    ensures LedgerRun(TOY, []) == map[] && Run(TOY, []) == EMPTY
  {
  }

  lemma LedgerOfBegun()
    ensures LedgerRun(TOY, BEGUN) == map["r" := Entry(Registering, "0", map[], map[])]
  {
    hide LedgerRun, Run;
    LedgerOfNothing();
    RunOfSnoc(TOY, [], Begin("r", map[], "0"));
  }

  lemma LedgerOfBound()
    ensures LedgerRun(TOY, BOUND) == map["r" := Entry(Registering, "0", map[], map["role" := Str("a")])]
  {
    hide LedgerRun, Run, Apply;
    LedgerOfBegun();
    RunOfSnoc(TOY, BEGUN, Register("r", "role", Str("a"), "1"));
  }

  lemma LedgerOfBoundAgain()
    ensures LedgerRun(TOY, BOUND_AGAIN) == map["r" := Entry(Registering, "0", map[], map["role" := Str("b")])]
  {
    hide LedgerRun, Run, Apply;
    LedgerOfBound();
    RunOfSnoc(TOY, BOUND, Register("r", "role", Str("b"), "2"));
    assert map["role" := Str("a")]["role" := Str("b")] == map["role" := Str("b")];
  }

  lemma LedgerOfRebound()
    ensures LedgerRun(TOY, REBOUND) == map["r" := Entry(Complete, "0", map[], map["role" := Str("b")])]
  {
    hide LedgerRun, Run, Apply;
    LedgerOfBoundAgain();
    RunOfSnoc(TOY, BOUND_AGAIN, Finalize("r", Complete, "3"));
  }

  /** The assumptions of the run theorems hold of a run that resolves to the second of its two payloads. */
  lemma SoundRunResolves()
    ensures TOY.Sound(KNOWN) && CoversAll(TOY, KNOWN, REBOUND)
    ensures Resolve(TOY, Run(TOY, REBOUND), "r", "role", (j: Json) => Some(j)) == Ok(Str("b"))
  {
    hide LedgerRun, Run, Resolve;
    ToyIsSound();
    ReboundIsCovered();
    LedgerOfRebound();
    ResolveReadsLedger(TOY, KNOWN, REBOUND, "r", "role", (j: Json) => Some(j));
  }

  /** A completed run "a" with one artifact, and a run "b" still registering. */
  const FIRST := [] + [Begin("a", map[], "0")]
  const STORED := FIRST + [Register("a", "role", Str("a"), "1")]
  const COMPLETED := STORED + [Finalize("a", Complete, "2")]
  const HALFWAY := COMPLETED + [Begin("b", map[], "3")]

  lemma StoreOfFirst()
    ensures Run(TOY, FIRST) == Store(map["a" := NewRun("a", "0", map[])], Cas(map[], map[]))
  {
    hide LedgerRun, Run;
    LedgerOfNothing();
    RunOfSnoc(TOY, [], Begin("a", map[], "0"));
  }

  lemma StoreOfStored()
    ensures Run(TOY, STORED).runs
         == map["a" := RunRecord("a", Registering, "0", "1", [Bound("role", JsonRefs(TOY, "a"))], map[])]
    ensures Run(TOY, STORED).cas.blobs == map[ONES := "a"]
  {
    hide LedgerRun, Run, Show;
    StoreOfFirst();
    RunOfSnoc(TOY, FIRST, Register("a", "role", Str("a"), "1"));
    var refs := JsonRefs(TOY, "a");
    assert PutJson(TOY, Cas(map[], map[]), Str("a")).1 == Ok(refs);
    assert BindRole([], "role", refs) == [Bound("role", refs)];
  }

  lemma StoreOfHalfway()
    ensures Run(TOY, HALFWAY).runs
         == map["a" := RunRecord("a", Complete, "0", "2", [Bound("role", JsonRefs(TOY, "a"))], map[]),
                "b" := NewRun("b", "3", map[])]
    ensures Run(TOY, HALFWAY).cas.blobs == map[ONES := "a"]
  {
    hide LedgerRun, Run, Show;
    StoreOfStored();
    RunOfSnoc(TOY, STORED, Finalize("a", Complete, "2"));
    RunOfSnoc(TOY, COMPLETED, Begin("b", map[], "3"));
  }

  /** Of two planned runs the smaller id comes first. */
  lemma PlanOfHalfway()
    ensures var hs := HeadersOf(Run(TOY, HALFWAY).runs);
      && Retained(hs, 0, {}) == {}
      && Planned(hs, 0, {}) == ["a", "b"]
  {
    hide Run, SortedListing, Ranking;
    StoreOfHalfway();
    var hs := HeadersOf(Run(TOY, HALFWAY).runs);
    assert hs.Keys == {"a", "b"};
    assert PinnedIds(hs, {}) == {} && NewestIds(hs, 0) == {};
    assert hs.Keys - {} == {"a", "b"};
    PlannedFacts(hs, 0, {});
    TwoInOrder(Planned(hs, 0, {}));
  }

  lemma TwoInOrder(ids: seq<string>)
    requires Sorted(ids, ById()) && multiset(ids) == multiset({"a", "b"})
    ensures ids == ["a", "b"]
  {
    assert multiset({"a", "b"}) == multiset{"a", "b"};
    assert |ids| == |multiset(ids)| == 2;
    assert ids[0] in multiset(ids) && ids[1] in multiset(ids);
    assert ids == [ids[0], ids[1]];
    assert !StrLeq("b", "a");
    assert ById()(ids[0], ids[1]);
    DuplicateCounts(ids, 0, 1);
  }

  /** After the completed run "a" of time 0, a run "Z" of time 3: later in time and smaller in character order. */
  const LATER := COMPLETED + [Begin("Z", map[], "3")]
  const LATER_STORED := LATER + [Register("Z", "role", Str("b"), "4")]
  const BOTH := LATER_STORED + [Finalize("Z", Complete, "5")]

  lemma StoreOfCompleted()
    ensures Run(TOY, COMPLETED).runs
         == map["a" := RunRecord("a", Complete, "0", "2", [Bound("role", JsonRefs(TOY, "a"))], map[])]
    ensures Run(TOY, COMPLETED).cas == Run(TOY, STORED).cas
  {
    hide LedgerRun, Run, Show;
    StoreOfStored();
    RunOfSnoc(TOY, STORED, Finalize("a", Complete, "2"));
  }

  lemma AliasesOfStored()
    ensures Run(TOY, STORED).cas.aliases == map[Show(TOY.AttestRef("a")) := Show(TOY.CasRef("a"))]
  {
    hide LedgerRun, Run, Show;
    StoreOfFirst();
    RunOfSnoc(TOY, FIRST, Register("a", "role", Str("a"), "1"));
  }

  lemma StoreOfLater()
    ensures Run(TOY, LATER).runs
         == map["a" := RunRecord("a", Complete, "0", "2", [Bound("role", JsonRefs(TOY, "a"))], map[]),
                "Z" := NewRun("Z", "3", map[])]
    ensures Run(TOY, LATER).cas == Cas(map[ONES := "a"], map[Show(TOY.AttestRef("a")) := Show(TOY.CasRef("a"))])
  {
    hide LedgerRun, Run, Show;
    StoreOfCompleted();
    StoreOfStored();
    AliasesOfStored();
    RunOfSnoc(TOY, COMPLETED, Begin("Z", map[], "3"));
  }

  lemma PutLater()
    ensures var (cas, r) := PutJson(TOY, Run(TOY, LATER).cas, Str("b"));
      r == Ok(JsonRefs(TOY, "b")) && cas.blobs == map[ONES := "a", TWOS := "b"]
  {
    hide Run, Show;
    StoreOfLater();
    ToyIsSound();
    if Show(TOY.AttestRef("a")) == Show(TOY.AttestRef("b")) { AttestShowInjective(TOY, KNOWN, "a", "b"); }
    assert ONES[0] != TWOS[0];
  }

  lemma BindLater(runs: Runs, refs: StoredRefs)
    requires "Z" in runs && runs["Z"] == NewRun("Z", "3", map[])
    ensures AddArtifact(runs, "Z", "role", refs, "4")
         == Ok(runs["Z" := RunRecord("Z", Registering, "3", "4", [Bound("role", refs)], map[])])
  {
    assert BindRole([], "role", refs) == [Bound("role", refs)];
  }

  lemma StoreOfLaterStored()
    ensures Run(TOY, LATER_STORED).runs
         == map["a" := RunRecord("a", Complete, "0", "2", [Bound("role", JsonRefs(TOY, "a"))], map[]),
                "Z" := RunRecord("Z", Registering, "3", "4", [Bound("role", JsonRefs(TOY, "b"))], map[])]
    ensures Run(TOY, LATER_STORED).cas.blobs == map[ONES := "a", TWOS := "b"]
  {
    hide LedgerRun, Run, Show, PutJson, JsonRefs, AddArtifact;
    StoreOfLater();
    PutLater();
    BindLater(Run(TOY, LATER).runs, JsonRefs(TOY, "b"));
    RunOfSnoc(TOY, LATER, Register("Z", "role", Str("b"), "4"));
  }

  lemma StoreOfBoth()
    ensures Run(TOY, BOTH).runs
         == map["a" := RunRecord("a", Complete, "0", "2", [Bound("role", JsonRefs(TOY, "a"))], map[]),
                "Z" := RunRecord("Z", Complete, "3", "5", [Bound("role", JsonRefs(TOY, "b"))], map[])]
    ensures Run(TOY, BOTH).cas.blobs == map[ONES := "a", TWOS := "b"]
  {
    hide LedgerRun, Run, Show;
    StoreOfLaterStored();
    RunOfSnoc(TOY, LATER_STORED, Finalize("Z", Complete, "5"));
  }

  /** Of the two the later one is retained. */
  lemma PlanOfBoth()
    ensures var hs := HeadersOf(Run(TOY, BOTH).runs);
      && Retained(hs, 1, {}) == {"Z"}
      && Planned(hs, 1, {}) == ["a"]
  {
    hide Run, Retained, Planned;
    StoreOfBoth();
    var hs := HeadersOf(Run(TOY, BOTH).runs);
    assert hs.Keys == {"a", "Z"};
    NotBelow("3", "0");
    LaterOfTwo(hs, "a", "Z");
  }

  lemma LaterOfTwo(hs: Headers, a: string, b: string)
    requires a != b && hs.Keys == {a, b} && !hs[a].pinned && !hs[b].pinned
    requires hs[a].createdAt != hs[b].createdAt && !Below(hs[b].createdAt, hs[a].createdAt)
    ensures Retained(hs, 1, {}) == {b} && Planned(hs, 1, {}) == [a]
  {
    hide Retained, Planned, NewestIds, Below;
    PlanPartition(hs, 1, {});
    assert |hs| == |hs.Keys| == 2;
    var newest := NewestIds(hs, 1);
    if a in newest && b in newest { SubsetCount({a, b}, newest); }
    assert newest != {};
    assert newest == {b};
    PlannedFacts(hs, 1, {});
    OnlyOne(Planned(hs, 1, {}), a);
  }

  lemma NotBelow(a: string, b: string)
    requires |a| == |b| == 1 && a[0] > b[0]
    ensures !Below(a, b)
  {
  }

  lemma SubsetCount(s: set<string>, t: set<string>)
    requires s <= t
    ensures |s| <= |t|
  {
    if s != {} {
      var x :| x in s;
      SubsetCount(s - {x}, t - {x});
    }
  }

  lemma OnlyOne(s: seq<string>, x: string)
    requires forall y :: y in s <==> y == x
    requires forall i, j :: 0 <= i < j < |s| ==> s[i] != s[j]
    ensures s == [x]
  {
    assert x in s;
    forall i | 0 <= i < |s| ensures s[i] == x { assert s[i] in s; }
    assert s[0] == s[|s| - 1];
  }

  lemma RefsOfBoth()
    ensures var runs := Run(TOY, BOTH).runs;
      CasFor(runs, {"a"}) == {TOY.CasRef("a")} && CasFor(runs, {"Z"}) == {TOY.CasRef("b")}
  {
    hide Run;
    StoreOfBoth();
    var runs := Run(TOY, BOTH).runs;
    assert runs["a"].artifacts[0].cas == TOY.CasRef("a") && runs["Z"].artifacts[0].cas == TOY.CasRef("b");
  }

  /** A cleanup with one planned run whose one reference no retained run shares. */
  lemma CleanupOfOne(s: Store, id: string, kept: set<string>, ref: HashRef)
    requires id in s.runs && s.runs[id].status != Registering
    requires Planned(HeadersOf(s.runs), 1, {}) == [id] && Retained(HeadersOf(s.runs), 1, {}) == kept
    requires CasFor(s.runs, {id}) == {ref} && ref !in CasFor(s.runs, kept)
    ensures var (next, r) := Cleanup(s, 1, true, {});
      && r.Ok? && r.value.planned == r.value.deleted == [id] && r.value.retained == kept
      && next.runs == s.runs - {id} && next.cas.blobs == s.cas.blobs - {ref.digest}
  {
    hide Planned, Retained, CasFor;
    assert [id][1..] == [] && [id][..1] == [id];
    assert DeletedCount(HeadersOf(s.runs), [id]) == 1;
    assert Members([id]) == {id};
    assert PlannedCas(s.runs, 1, {}) == {ref};
    assert Digests({ref}) == {ref.digest};
  }

  /** A cleanup that keeps one run keeps the later one with its blob, and deletes the other with its blob. */
  lemma CleanupKeepsTheLater()
    ensures var (next, r) := Cleanup(Run(TOY, BOTH), 1, true, {});
      && r.Ok? && r.value.planned == r.value.deleted == ["a"] && r.value.retained == {"Z"}
      && next.runs.Keys == {"Z"} && next.cas.blobs == map[TWOS := "b"]
  {
    hide Run, Planned, Retained, CasFor, Cleanup, HeadersOf;
    StoreOfBoth();
    PlanOfBoth();
    RefsOfBoth();
    assert ONES[0] != TWOS[0];
    CleanupOfOne(Run(TOY, BOTH), "a", {"Z"}, TOY.CasRef("a"));
  }

  /** A cleanup that keeps nothing stops at "b" after deleting "a", and the blob of "a" is left an orphan. */
  lemma CleanupStopsHalfway()
    ensures var s := Run(TOY, HALFWAY);
      var (next, r) := Cleanup(s, 0, true, {});
      && Aborts(HeadersOf(s.runs), 0, {}) && r == Err(BadState)
      && next.runs.Keys == {"b"} && Orphan(next, ONES)
  {
    hide Run, Planned, Retained, Cleanup, Orphan;
    StoreOfHalfway();
    PlanOfHalfway();
    var s := Run(TOY, HALFWAY);
    var hs := HeadersOf(s.runs);
    assert hs["a"].status == Complete && hs["b"].status == Registering;
    assert ["a", "b"][1..] == ["b"];
    assert DeletedCount(hs, ["a", "b"]) == 1;
    assert ["a", "b"][..1] == ["a"] && Members(["a"]) == {"a"};
    AbortedCleanup(s, 0, {});
    AbortedCleanupOrphans(s, 0, {}, ONES);
    assert s.runs.Keys - {"a"} == {"b"};
  }
}
