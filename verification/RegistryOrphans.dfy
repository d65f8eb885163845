/** Blobs that no run refers to: how they arise, and the one thing that ends their being so. */
module RegistryOrphans {
  import opened Common
  import opened HashRefs
  import opened RunIndex
  import opened ContentStore
  import opened Retention
  import opened RegistryModel
  import opened RegistryLedger

  ghost predicate Referenced(runs: Runs, digest: string) {
    ReferencedBy(runs, runs.Keys, digest)
  }

  /** A stored blob that no artifact of any run refers to. */
  ghost predicate Orphan(s: Store, digest: string) {
    digest in s.cas.blobs && !Referenced(s.runs, digest)
  }

  /** The operation registers, successfully, a payload stored under this digest. */
  ghost predicate Adopts(h: Hashing, s: Store, op: Op, digest: string) {
    && op.Register?
    && RegisterPayload(h, s, op.id, op.role, op.payload, op.now).1.Ok?
    && RegisterPayload(h, s, op.id, op.role, op.payload, op.now).1.value.cas.digest == digest
  }

  lemma BindRefers(runs: Runs, id: string, role: string, refs: StoredRefs, now: string, digest: string)
    requires AddArtifact(runs, id, role, refs, now).Ok?
    ensures refs.cas.digest == digest ==> Referenced(AddArtifact(runs, id, role, refs, now).value, digest)
    ensures refs.cas.digest != digest && !Referenced(runs, digest) ==>
              !Referenced(AddArtifact(runs, id, role, refs, now).value, digest)
  {
    var next := AddArtifact(runs, id, role, refs, now).value;
    var arts, at := runs[id].artifacts, FindRole(runs[id].artifacts, role);
    assert next[id].artifacts[at] == Bound(role, refs);
    if refs.cas.digest != digest && !Referenced(runs, digest) {
      forall k, i | k in next && 0 <= i < |next[k].artifacts| ensures next[k].artifacts[i].cas.digest != digest {
        if !(k == id && i == at) { assert next[k].artifacts[i] == runs[k].artifacts[i]; }
      }
    }
  }

  /** No cleanup collects an orphan. */
  lemma CleanupLeavesOrphan(s: Store, keep: int, apply: bool, pinnedDir: set<string>, d: string)
    requires Orphan(s, d)
    ensures Orphan(Cleanup(s, keep, apply, pinnedDir).0, d)
  {
    hide Planned, Retained, DeletedCount;
  }

  /** Of all operations, exactly an accepted registration of the same bytes ends an orphan's being one. */
  lemma OrphanUnlessAdopted(h: Hashing, s: Store, op: Op, d: string)
    requires Orphan(s, d)
    ensures Orphan(Apply(h, s, op), d) <==> !Adopts(h, s, op, d)
  {
    hide Cleanup, BindRole;
    match op
    case Begin(id, metadata, now) =>
    case Register(id, role, payload, now) => RegisterAndOrphan(h, s, id, role, payload, now, d);
    case Finalize(id, status, now) =>
    case Clean(keep, apply, pinnedDir) => CleanupLeavesOrphan(s, keep, apply, pinnedDir, d);
  }

  lemma RegisterAndOrphan(h: Hashing, s: Store, id: string, role: string, payload: Json, now: string, d: string)
    requires Orphan(s, d)
    ensures var (next, r) := RegisterPayload(h, s, id, role, payload, now);
      Orphan(next, d) <==> !(r.Ok? && r.value.cas.digest == d)
  {
    hide AddArtifact, Referenced;
    var r := RegisterPayload(h, s, id, role, payload, now).1;
    if r.Ok? { BindRefers(s.runs, id, role, r.value, now, d); }
  }

  /** Through any later operations an orphan stays stored and unreferenced until its bytes are registered again. */
  lemma {:induction false} OrphansStay(h: Hashing, s: Store, ops: seq<Op>, d: string)
    requires Orphan(s, d)
    requires forall i :: 0 <= i < |ops| ==> !Adopts(h, After(h, s, ops[..i]), ops[i], d)
    ensures Orphan(After(h, s, ops), d)
    decreases |ops|
  {
    hide Orphan, Adopts, Apply;
    if ops != [] {
      var init := ops[..|ops| - 1];
      assert forall i :: 0 <= i < |init| ==> init[..i] == ops[..i];
      OrphansStay(h, s, init, d);
      OrphanUnlessAdopted(h, After(h, s, init), ops[|ops| - 1], d);
    }
  }

  // ---------------------------------------------------------------------------
  // How orphans arise
  // ---------------------------------------------------------------------------

  /** Some artifact other than number i of run id has this digest. */
  ghost predicate ReferencedElsewhere(runs: Runs, id: string, i: nat, digest: string) {
    exists k, j :: k in runs && 0 <= j < |runs[k].artifacts| && !(k == id && j == i)
      && runs[k].artifacts[j].cas.digest == digest
  }

  /** A refused registration still stores its bytes: they are an orphan exactly when nothing referred to them. */
  lemma RefusedPayloadIsOrphan(h: Hashing, s: Store, id: string, role: string, payload: Json, now: string)
    requires role != "" && h.canon(payload).Some?
    requires RegisterPayload(h, s, id, role, payload, now).1.Err?
    ensures var d := h.casDigest(h.canon(payload).value);
      Orphan(RegisterPayload(h, s, id, role, payload, now).0, d) <==> !Referenced(s.runs, d)
  {
    hide AddArtifact, Referenced, Show;
  }

  lemma AcceptedRegistration(h: Hashing, s: Store, id: string, role: string, payload: Json, now: string)
    requires RegisterPayload(h, s, id, role, payload, now).1.Ok?
    ensures var (next, r) := RegisterPayload(h, s, id, role, payload, now);
      && id in s.runs && h.canon(payload).Some?
      && r.value.cas.digest == h.casDigest(h.canon(payload).value)
      && AddArtifact(s.runs, id, role, r.value, now) == Ok(next.runs)
      && s.cas.blobs.Keys <= next.cas.blobs.Keys
  {
    hide Show, BindRole;
  }

  lemma ReboundReferences(runs: Runs, id: string, role: string, refs: StoredRefs, now: string, i: nat, d: string)
    requires AddArtifact(runs, id, role, refs, now).Ok?
    requires i == FindRole(runs[id].artifacts, role) < |runs[id].artifacts|
    ensures Referenced(AddArtifact(runs, id, role, refs, now).value, d)
      <==> refs.cas.digest == d || ReferencedElsewhere(runs, id, i, d)
  {
    var next := AddArtifact(runs, id, role, refs, now).value;
    assert next[id].artifacts[i] == Bound(role, refs);
    assert forall k, j :: k in runs && 0 <= j < |runs[k].artifacts| && !(k == id && j == i) ==>
      next[k].artifacts[j] == runs[k].artifacts[j];
    if ReferencedElsewhere(runs, id, i, d) {
      var k, j :| k in runs && 0 <= j < |runs[k].artifacts| && !(k == id && j == i) && runs[k].artifacts[j].cas.digest == d;
      assert next[k].artifacts[j].cas.digest == d;
    }
    if Referenced(next, d) && refs.cas.digest != d {
      var k, j :| k in next && 0 <= j < |next[k].artifacts| && next[k].artifacts[j].cas.digest == d;
      assert runs[k].artifacts[j].cas.digest == d;
    }
  }

  /** Rebinding a role orphans the old bytes exactly when they are different ones and nothing else refers to them. */
  lemma ReboundPayloadIsOrphan(h: Hashing, s: Store, id: string, role: string, payload: Json, now: string)
    requires RegisterPayload(h, s, id, role, payload, now).1.Ok?
    requires id in s.runs && FindRole(s.runs[id].artifacts, role) < |s.runs[id].artifacts|
    requires s.runs[id].artifacts[FindRole(s.runs[id].artifacts, role)].cas.digest in s.cas.blobs
    ensures h.canon(payload).Some?
    ensures var i := FindRole(s.runs[id].artifacts, role);
      var was := s.runs[id].artifacts[i].cas.digest;
      Orphan(RegisterPayload(h, s, id, role, payload, now).0, was) <==>
        h.casDigest(h.canon(payload).value) != was && !ReferencedElsewhere(s.runs, id, i, was)
  {
    hide RegisterPayload, AddArtifact, Referenced, ReferencedElsewhere;
    AcceptedRegistration(h, s, id, role, payload, now);
    var i := FindRole(s.runs[id].artifacts, role);
    var r := RegisterPayload(h, s, id, role, payload, now).1;
    ReboundReferences(s.runs, id, role, r.value, now, i, s.runs[id].artifacts[i].cas.digest);
  }

  /** An aborted cleanup orphans every stored blob to which only the runs it deleted referred. */
  lemma AbortedCleanupOrphans(s: Store, keep: nat, pinnedDir: set<string>, d: string)
    requires Aborts(HeadersOf(s.runs), keep, pinnedDir) && d in s.cas.blobs
    ensures var planned := Planned(HeadersOf(s.runs), keep, pinnedDir);
      var deleted := Members(planned[..DeletedCount(HeadersOf(s.runs), planned)]);
      Orphan(Cleanup(s, keep, true, pinnedDir).0, d) <==> !ReferencedBy(s.runs, s.runs.Keys - deleted, d)
  {
    hide Retained, PlannedCas, CasFor, DeletedCount;
    AbortedCleanup(s, keep, pinnedDir);
    var planned := Planned(HeadersOf(s.runs), keep, pinnedDir);
    var deleted := Members(planned[..DeletedCount(HeadersOf(s.runs), planned)]);
    hide Planned, Cleanup, Members;
    assert (s.runs - deleted).Keys == s.runs.Keys - deleted;
  }
}
