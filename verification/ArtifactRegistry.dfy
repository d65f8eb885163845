/** The registry façade: allocation, typed materialisation and garbage collection. */
module ArtifactRegistryService {
  import opened Common
  import opened HashRefs
  import opened Ordering
  import opened RunIndex
  import opened ContentStore
  import opened Retention
  import opened RegistryModel
  import opened RegistryLedger
  import opened RunRegistryStore

  /** The members of a set, in no particular order. */
  method ListMembers<T(==, !new)>(s: set<T>) returns (listed: seq<T>)
    ensures multiset(listed) == multiset(s)
  {
    listed := [];
    var rest := s;
    while rest != {}
      invariant rest <= s
      invariant multiset(listed) == multiset(s) - multiset(rest)
      decreases |rest|
    {
      var x :| x in rest;
      listed := listed + [x];
      rest := rest - {x};
    }
  }

  /** All runs, newest first. */
  method RankRuns(hs: Headers) returns (ranking: seq<Key>)
    ensures ranking == Ranking(hs)
  {
    var keys := ListMembers(KeysOf(hs));
    ranking := Sort(keys, NewestFirst());
    NewestFirstIsOrder();
    SortSorted(keys, NewestFirst());
    SortedListingUnique(KeysOf(hs), ranking, NewestFirst());
  }

  method SortIds(ids: set<string>) returns (sorted: seq<string>)
    ensures sorted == SortedListing(ids, ById())
  {
    var listed := ListMembers(ids);
    sorted := Sort(listed, ById());
    ByIdIsOrder();
    SortSorted(listed, ById());
    SortedListingUnique(ids, sorted, ById());
  }

  lemma DeletedCountIs(hs: Headers, planned: seq<string>, n: nat)
    requires n <= |planned|
    requires forall i :: 0 <= i < n ==> planned[i] in hs && hs[planned[i]].status != Registering
    requires n < |planned| ==> planned[n] in hs && hs[planned[n]].status == Registering
    ensures DeletedCount(hs, planned) == n
  {
  }

  /** The bytes a registration stores. */
  function Stored(h: Hashing, role: string, payload: Json): set<string> {
    if role != "" && h.canon(payload).Some? then {h.canon(payload).value} else {}
  }

  lemma RefinesGrows(h: Hashing, known: set<string>, more: set<string>, l: Ledger, s: Store)
    requires Refines(h, known, l, s) && known <= more
    ensures Refines(h, more, l, s)
  {
    hide Consistent, RunMatches;
    KnownGrows(h, known, more, s.cas);
  }

  class ArtifactRegistry {
    const cas: LocalCAS
    const runs: RunRegistry
    /** What a reader may rely on: per run and role the last accepted payload. */
    ghost var ledger: Ledger
    /** Every byte string stored so far. */
    ghost var known: set<string>

    ghost function State(): Store
      reads this, cas, runs
    {
      Store(runs.OnDisk(), cas.Value())
    }

    ghost predicate Valid()
      reads this, cas, runs
    {
      cas.hashing.Sound(known) && Refines(cas.hashing, known, ledger, State())
    }

    constructor (hashing: Hashing)
      ensures Valid() && ledger == map[] && known == {} && State() == EMPTY
      ensures fresh(cas) && fresh(runs) && cas.hashing == hashing
    {
      cas := new LocalCAS(hashing);
      runs := new RunRegistry(None);
      ledger, known := map[], {};
    }

    method BeginRun(runId: string, metadata: map<string, Json>, now: string)
      requires Valid()
      modifies this, runs
      ensures Valid() && known == old(known)
      ensures State() == Apply(cas.hashing, old(State()), Begin(runId, metadata, now))
      ensures ledger == LedgerApply(cas.hashing, old(ledger), Begin(runId, metadata, now))
    {
      hide Refines, DecodeIndex, EncodeIndex;
      ghost var op := Begin(runId, metadata, now);
      ghost var before := State();
      StepRefines(cas.hashing, known, ledger, before, op);
      ledger := LedgerApply(cas.hashing, ledger, op);
      runs.BeginRun(runId, metadata, now);
      ReachableIsStorable(cas.hashing, known, ledger, Apply(cas.hashing, before, op));
    }

    /**
     * Store the payload first, then bind it; a refused binding leaves the blob behind. Asked of the caller:
     * the digests of the bytes stored collide with none stored before.
     */
    method RegisterPayload(runId: string, role: string, payload: Json, now: string)
      returns (r: Result<StoredRefs, Violation>)
      requires Valid() && cas.hashing.Sound(known + Stored(cas.hashing, role, payload))
      modifies this, cas, runs
      ensures Valid() && known == old(known) + Stored(cas.hashing, role, payload)
      ensures State() == Apply(cas.hashing, old(State()), Register(runId, role, payload, now))
      ensures ledger == LedgerApply(cas.hashing, old(ledger), Register(runId, role, payload, now))
      ensures r == RegistryModel.RegisterPayload(cas.hashing, old(State()), runId, role, payload, now).1
      ensures r.Ok? <==> LedgerAccepts(cas.hashing, old(ledger), runId, role, payload)
      ensures r.Ok? ==> GetBytes(cas.Value(), r.value.cas).Ok?
    {
      hide Refines, DecodeIndex, EncodeIndex, Holds, Consistent;
      ghost var op := Register(runId, role, payload, now);
      ghost var before := State();
      known := known + Stored(cas.hashing, role, payload);
      RefinesGrows(cas.hashing, old(known), known, ledger, before);
      RegisterRefines(cas.hashing, known, ledger, before, runId, role, payload, now);
      StepRefines(cas.hashing, known, ledger, before, op);
      ReachableIsStorable(cas.hashing, known, LedgerApply(cas.hashing, ledger, op), Apply(cas.hashing, before, op));
      RefinedConsistent(cas.hashing, known, ledger, before);
      ledger := LedgerApply(cas.hashing, ledger, op);
      if role == "" {
        return Err(EmptyRole);
      }
      PutKeepsConsistent(cas.hashing, known, before.cas, payload);
      var put := cas.Put(payload);
      if put.Err? {
        return Err(put.error);
      }
      HeldIsFound(cas.hashing, known, cas.Value(), cas.hashing.canon(payload).value);
      var bound := runs.Bind(runId, role, put.value, now);
      if bound.Err? {
        return Err(bound.error);
      }
      r := Ok(put.value);
    }

    method FinishRun(runId: string, status: Status, now: string) returns (r: Result<(), Violation>)
      requires Valid()
      modifies this, runs
      ensures Valid() && known == old(known)
      ensures State() == Apply(cas.hashing, old(State()), Finalize(runId, status, now))
      ensures ledger == LedgerApply(cas.hashing, old(ledger), Finalize(runId, status, now))
      ensures r.Ok? <==> status != Registering && runId in old(ledger) && old(ledger)[runId].status == Registering
    {
      hide DecodeIndex, EncodeIndex, ArtifactsMatch, Consistent;
      ghost var op := Finalize(runId, status, now);
      ghost var before := State();
      StepRefines(cas.hashing, known, ledger, before, op);
      ReachableIsStorable(cas.hashing, known, LedgerApply(cas.hashing, ledger, op), Apply(cas.hashing, before, op));
      assert runId in ledger ==> RunMatches(cas.hashing, before.cas, runId, ledger[runId], before.runs[runId]);
      ledger := LedgerApply(cas.hashing, ledger, op);
      r := runs.Finish(runId, status, now);
    }

    /** Only completed runs resolve; the bytes are verified, the alias checked, the schema validated. */
    method ResolveRole<T>(runId: string, role: string, validate: Json -> Option<T>) returns (r: Result<T, Violation>)
      requires Valid()
      modifies runs
      ensures Valid() && State() == old(State()) && ledger == old(ledger) && known == old(known)
      ensures r == LedgerResolve(ledger, runId, role, validate)
    {
      hide DecodeIndex, Refines, ResolveArtifact;
      ResolveAgrees(cas.hashing, known, ledger, State(), runId, role, validate);
      var record := runs.GetRun(runId, false, false);
      if record.None? {
        var visible := runs.GetRun(runId, true, true);
        return if visible.Some? then Err(BadState) else Err(MissingRun);
      }
      var arts := record.value.artifacts;
      var i := FindRole(arts, role);
      if i == |arts| {
        return Err(MissingRole);
      }
      r := ResolveArtifact(cas.hashing, Cas(cas.blobs, cas.attestToCas), arts[i], validate);
    }

    /** Retain pinned and newest runs, delete the others, then the blobs only they referred to. */
    method Cleanup(keep: int, apply: bool, pinnedDir: set<string>) returns (r: Result<Report, Violation>)
      requires Valid()
      modifies this, cas, runs
      ensures Valid() && known == old(known)
      ensures State() == Apply(cas.hashing, old(State()), Clean(keep, apply, pinnedDir))
      ensures ledger == LedgerApply(cas.hashing, old(ledger), Clean(keep, apply, pinnedDir))
      ensures r == RegistryModel.Cleanup(old(State()), keep, apply, pinnedDir).1
    {
      hide DecodeIndex, EncodeIndex, Refines, Ranking, SortedListing, DeletedCount, CasFor;
      ghost var op := Clean(keep, apply, pinnedDir);
      ghost var before := State();
      StepRefines(cas.hashing, known, ledger, before, op);
      ghost var ledger0 := ledger;
      ledger := LedgerApply(cas.hashing, ledger, op);
      if keep < 0 {
        return Err(NegativeKeep);
      }
      runs.Load();
      var all := runs.runs;
      var hs := HeadersOf(all);
      var ranking := RankRuns(hs);
      var retained := PinnedIds(hs, pinnedDir) + IdsIn(ranking[..Min(keep, |ranking|)]);
      var planned := SortIds(hs.Keys - retained);
      var retainedCas := CasFor(all, retained);
      var plannedCas := CasFor(all, Members(planned)) - retainedCas;
      if !apply {
        return Ok(Report(planned, [], retained, plannedCas, {}, retainedCas));
      }
      var deletion := DeleteRuns(planned, hs, ledger0, all, keep, pinnedDir);
      if deletion.Err? {
        return Err(deletion.error);
      }
      assert planned[..|planned|] == planned;
      CasRefsShaped(cas.hashing, known, ledger0, before, Members(planned), plannedCas);
      var deletedCas := DeleteBlobs(plannedCas);
      r := Ok(Report(planned, planned, retained, plannedCas, deletedCas, retainedCas));
    }

    /** Delete run after run; stops with the error of the first one still registering. */
    method DeleteRuns(planned: seq<string>, hs: Headers, ghost ledger0: Ledger, all: Runs, keep: nat,
                      pinnedDir: set<string>)
      returns (r: Result<(), Violation>)
      requires cas.hashing.Sound(known) && Refines(cas.hashing, known, ledger0, State())
      requires all == runs.OnDisk() && hs == HeadersOf(all) && planned == Planned(hs, keep, pinnedDir)
      modifies runs
      ensures runs.OnDisk() == all - Members(planned[..DeletedCount(hs, planned)])
      ensures r == if DeletedCount(hs, planned) < |planned| then Err(BadState) else Ok(())
    {
      hide DecodeIndex, EncodeIndex, Refines, Planned, DeletedCount, Retained, Members;
      PlannedFacts(hs, keep, pinnedDir);
      MembersOfNone(planned);
      assert all - {} == all;
      for i := 0 to |planned|
        invariant forall k :: 0 <= k < i ==> planned[k] in hs && hs[planned[k]].status != Registering
        invariant runs.OnDisk() == all - Members(planned[..i])
      {
        assert planned[i] in planned;
        MembersGrow(planned, i);
        r := runs.Delete(planned[i]);
        if r.Err? {
          DeletedCountIs(hs, planned, i);
          return;
        }
        assert runs.runs == all - Members(planned[..i + 1]);
        SubsetStorable(cas.hashing, known, ledger0, old(State()), Members(planned[..i + 1]));
      }
      DeletedCountIs(hs, planned, |planned|);
      r := Ok(());
    }

    /** Delete blob after blob, noting which existed. */
    method DeleteBlobs(refs: set<HashRef>) returns (existed: set<HashRef>)
      requires forall r :: r in refs ==> CasShaped(r)
      modifies cas
      ensures cas.blobs == old(cas.blobs) - Digests(refs)
      ensures cas.attestToCas == old(cas.attestToCas)
      ensures existed == set r | r in refs && r.digest in old(cas.blobs)
    {
      existed := {};
      var rest := refs;
      while rest != {}
        invariant rest <= refs
        invariant forall d :: d in cas.blobs <==> d in old(cas.blobs) && forall r :: r in refs - rest ==> r.digest != d
        invariant forall d :: d in cas.blobs ==> cas.blobs[d] == old(cas.blobs)[d]
        invariant cas.attestToCas == old(cas.attestToCas)
        invariant existed == set r | r in refs - rest && r.digest in old(cas.blobs)
        decreases |rest|
      {
        var ref :| ref in rest;
        forall other | other in refs - rest ensures other.digest != ref.digest {
          ShapedByDigest(other, ref);
        }
        var deleted := cas.Delete(ref);
        if deleted.Ok? && deleted.value {
          existed := existed + {ref};
        }
        rest := rest - {ref};
      }
    }
  }

  lemma ShapedByDigest(a: HashRef, b: HashRef)
    requires CasShaped(a) && CasShaped(b) && a != b
    ensures a.digest != b.digest
  {
  }

  lemma RefinedConsistent(h: Hashing, known: set<string>, l: Ledger, s: Store)
    requires Refines(h, known, l, s)
    ensures Consistent(h, known, s.cas)
  {
  }

  /** Dropping runs keeps the rest storable. */
  lemma SubsetStorable(h: Hashing, known: set<string>, l: Ledger, s: Store, gone: set<string>)
    requires h.Sound(known) && Refines(h, known, l, s)
    ensures DecodeIndex(EncodeIndex(s.runs - gone)) == s.runs - gone
  {
    hide DecodeIndex, EncodeIndex, ArtifactsMatch, Consistent;
    assert Refines(h, known, l - gone, s.(runs := s.runs - gone)) by {
      forall id | id in l - gone ensures RunMatches(h, s.cas, id, l[id], s.runs[id]) {}
    }
    ReachableIsStorable(h, known, l - gone, s.(runs := s.runs - gone));
  }

  lemma CasRefsShaped(h: Hashing, known: set<string>, l: Ledger, s: Store, ids: set<string>, refs: set<HashRef>)
    requires Refines(h, known, l, s) && refs <= CasFor(s.runs, ids)
    ensures forall r :: r in refs ==> CasShaped(r)
  {
    hide Holds, Consistent;
    forall r | r in refs ensures CasShaped(r) {
      var id, i :| id in s.runs && 0 <= i < |s.runs[id].artifacts| && s.runs[id].artifacts[i].cas == r;
      assert RunMatches(h, s.cas, id, l[id], s.runs[id]);
      assert ArtifactHolds(h, s.cas, s.runs[id].artifacts[i], l[id].payloads[s.runs[id].artifacts[i].role]);
    }
  }

  lemma MembersOfNone(planned: seq<string>)
    ensures Members(planned[..0]) == {}
  {
  }

  lemma MembersGrow(planned: seq<string>, i: nat)
    requires i < |planned|
    requires forall j, k :: 0 <= j < k < |planned| ==> planned[j] != planned[k]
    ensures Members(planned[..i + 1]) == Members(planned[..i]) + {planned[i]}
    ensures planned[i] !in Members(planned[..i])
  {
  }
}
