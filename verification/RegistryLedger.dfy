/**
 * The registry refines a plain ledger: per run and role, the last payload accepted. Hashing, aliases,
 * in-place rebinding and garbage collection are invisible to a reader.
 */
module RegistryLedger {
  import opened Common
  import opened HashRefs
  import opened RunIndex
  import opened ContentStore
  import opened Retention
  import opened RegistryModel

  datatype Entry = Entry(
    status: Status, createdAt: string, metadata: map<string, Json>, payloads: map<string, Json>)

  type Ledger = map<string, Entry>

  function LedgerHeader(e: Entry): Header {
    Header(e.createdAt, e.status, Obj(e.metadata).Get("pinned").Truthy())
  }

  function LedgerHeaders(l: Ledger): Headers {
    map id | id in l :: LedgerHeader(l[id])
  }

  predicate LedgerAccepts(h: Hashing, l: Ledger, id: string, role: string, payload: Json) {
    role != "" && h.canon(payload).Some? && id in l && l[id].status == Registering
  }

  /** The canonical bytes the operation stores, if any, are known. */
  ghost predicate Covers(h: Hashing, known: set<string>, op: Op) {
    op.Register? && op.role != "" && h.canon(op.payload).Some? ==> h.canon(op.payload).value in known
  }

  ghost predicate CoversAll(h: Hashing, known: set<string>, ops: seq<Op>) {
    forall i :: 0 <= i < |ops| ==> Covers(h, known, ops[i])
  }

  lemma CoversSnoc(h: Hashing, known: set<string>, ops: seq<Op>, op: Op)
    requires CoversAll(h, known, ops + [op])
    ensures CoversAll(h, known, ops) && Covers(h, known, op)
  {
    hide Covers;
    var all := ops + [op];
    assert all[|ops|] == op;
    assert forall i :: 0 <= i < |ops| ==> all[i] == ops[i];
  }

  ghost function LedgerApply(h: Hashing, l: Ledger, op: Op): Ledger {
    match op
    case Begin(id, metadata, now) => l[id := Entry(Registering, now, metadata, map[])]
    case Register(id, role, payload, now) =>
      if LedgerAccepts(h, l, id, role, payload) then
        l[id := l[id].(payloads := l[id].payloads[role := payload])]
      else l
    case Finalize(id, status, now) =>
      if status != Registering && id in l && l[id].status == Registering then l[id := l[id].(status := status)] else l
    case Clean(keep, apply, pinnedDir) =>
      if keep < 0 || !apply then l
      else
        var planned := Planned(LedgerHeaders(l), keep, pinnedDir);
        l - Members(planned[..DeletedCount(LedgerHeaders(l), planned)])
  }

  ghost function LedgerRun(h: Hashing, ops: seq<Op>): Ledger
    decreases |ops|
  {
    if ops == [] then map[] else LedgerApply(h, LedgerRun(h, ops[..|ops| - 1]), ops[|ops| - 1])
  }

  function LedgerResolve<T>(l: Ledger, id: string, role: string, validate: Json -> Option<T>): Result<T, Violation> {
    if id !in l then Err(MissingRun)
    else if l[id].status != Complete then Err(BadState)
    else if role !in l[id].payloads then Err(MissingRole)
    else
      match validate(l[id].payloads[role])
      case None => Err(ArtifactSchema)
      case Some(product) => Ok(product)
  }

  // ---------------------------------------------------------------------------
  // The refinement relation
  // ---------------------------------------------------------------------------

  ghost predicate ArtifactHolds(h: Hashing, cas: Cas, a: RunArtifact, payload: Json) {
    && h.canon(payload).Some?
    && a == Bound(a.role, JsonRefs(h, h.canon(payload).value))
    && Holds(h, cas, h.canon(payload).value)
  }

  ghost predicate RolesDistinct(arts: seq<RunArtifact>) {
    forall i, j :: 0 <= i < j < |arts| ==> arts[i].role != arts[j].role
  }

  ghost predicate ArtifactsMatch(h: Hashing, cas: Cas, payloads: map<string, Json>, arts: seq<RunArtifact>) {
    && RolesDistinct(arts)
    && (forall i :: 0 <= i < |arts| ==>
          arts[i].role in payloads && ArtifactHolds(h, cas, arts[i], payloads[arts[i].role]))
    && (forall role :: role in payloads ==> role != "" && FindRole(arts, role) < |arts|)
  }

  ghost predicate RunMatches(h: Hashing, cas: Cas, id: string, e: Entry, r: RunRecord) {
    && r.runId == id && r.status == e.status && r.createdAt == e.createdAt && r.metadata == e.metadata
    && ArtifactsMatch(h, cas, e.payloads, r.artifacts)
  }

  ghost predicate Refines(h: Hashing, known: set<string>, l: Ledger, s: Store) {
    && l.Keys == s.runs.Keys
    && Consistent(h, known, s.cas)
    && forall id :: id in l ==> RunMatches(h, s.cas, id, l[id], s.runs[id])
  }

  lemma HeadersAgree(h: Hashing, known: set<string>, l: Ledger, s: Store)
    requires Refines(h, known, l, s)
    ensures HeadersOf(s.runs) == LedgerHeaders(l)
  {
    hide ArtifactsMatch, Consistent;
    assert forall id :: id in l ==> RunMatches(h, s.cas, id, l[id], s.runs[id]);
  }

  /** Artifacts stay matched when the store only grows. */
  lemma MatchMonotone(h: Hashing, c: Cas, d: Cas, payloads: map<string, Json>, arts: seq<RunArtifact>)
    requires ArtifactsMatch(h, c, payloads, arts)
    requires forall b :: Holds(h, c, b) ==> Holds(h, d, b)
    ensures ArtifactsMatch(h, d, payloads, arts)
  {
    hide Holds;
  }

  lemma FindRoleUnique(arts: seq<RunArtifact>, role: string, i: nat)
    requires RolesDistinct(arts) && i < |arts| && arts[i].role == role
    ensures FindRole(arts, role) == i
  {
  }

  lemma BindKeepsMatch(h: Hashing, c: Cas, payloads: map<string, Json>, arts: seq<RunArtifact>,
                       role: string, payload: Json)
    requires ArtifactsMatch(h, c, payloads, arts) && role != ""
    requires h.canon(payload).Some? && Holds(h, c, h.canon(payload).value)
    ensures ArtifactsMatch(h, c, payloads[role := payload],
                           BindRole(arts, role, JsonRefs(h, h.canon(payload).value)))
  {
    hide Holds;
    var refs := JsonRefs(h, h.canon(payload).value);
    var next := BindRole(arts, role, refs);
    var at := FindRole(arts, role);
    assert next[at] == Bound(role, refs);
    assert forall k :: 0 <= k < |next| && k != at ==> next[k] == arts[k] && arts[k].role != role;
    assert RolesDistinct(next);
    forall r | r in payloads[role := payload] ensures FindRole(next, r) < |next| {
      var i := if r == role then at else FindRole(arts, r);
      FindRoleUnique(next, r, i);
    }
  }

  lemma RegisterRefines(h: Hashing, known: set<string>, l: Ledger, s: Store, id: string, role: string, payload: Json, now: string)
    requires h.Sound(known) && Refines(h, known, l, s) && Covers(h, known, Register(id, role, payload, now))
    ensures var (next, r) := RegisterPayload(h, s, id, role, payload, now);
      && Refines(h, known, LedgerApply(h, l, Register(id, role, payload, now)), next)
      && (r.Ok? <==> LedgerAccepts(h, l, id, role, payload))
  {
    hide Holds, Consistent, BindRole, ArtifactsMatch, PutJson, JsonRefs;
    if role != "" {
      PutKeepsConsistent(h, known, s.cas, payload);
      var cas := PutJson(h, s.cas, payload).0;
      forall k | k in l ensures RunMatches(h, cas, k, l[k], s.runs[k]) {
        MatchMonotone(h, s.cas, cas, l[k].payloads, s.runs[k].artifacts);
      }
      if LedgerAccepts(h, l, id, role, payload) {
        BindKeepsMatch(h, cas, l[id].payloads, s.runs[id].artifacts, role, payload);
      }
    }
  }

  // ---------------------------------------------------------------------------
  // Cleanup
  // ---------------------------------------------------------------------------

  lemma DeletedMembers(hs: Headers, keep: nat, pinnedDir: set<string>)
    ensures var planned := Planned(hs, keep, pinnedDir);
      && Members(planned) == hs.Keys - Retained(hs, keep, pinnedDir)
      && Members(planned[..DeletedCount(hs, planned)]) <= Members(planned)
  {
    PlannedFacts(hs, keep, pinnedDir);
  }

  /** A blob the cleanup removes is held by no artifact that survives a completed pass. */
  lemma RetainedBlobsStay(h: Hashing, known: set<string>, l: Ledger, s: Store, keep: nat, pinnedDir: set<string>, id: string, i: nat)
    requires Refines(h, known, l, s) && id in Retained(HeadersOf(s.runs), keep, pinnedDir) && id in s.runs
    requires i < |s.runs[id].artifacts|
    ensures s.runs[id].artifacts[i].cas.digest !in Digests(PlannedCas(s.runs, keep, pinnedDir))
  {
    hide Holds, Retained, Planned, Consistent;
    var hs := HeadersOf(s.runs);
    var a := s.runs[id].artifacts[i];
    assert RunMatches(h, s.cas, id, l[id], s.runs[id]);
    assert a.cas in CasFor(s.runs, Retained(hs, keep, pinnedDir));
    forall r | r in PlannedCas(s.runs, keep, pinnedDir) ensures r.digest != a.cas.digest {
      var other, j :| other in s.runs && 0 <= j < |s.runs[other].artifacts| && s.runs[other].artifacts[j].cas == r;
      assert RunMatches(h, s.cas, other, l[other], s.runs[other]);
      assert ArtifactHolds(h, s.cas, s.runs[other].artifacts[j], l[other].payloads[s.runs[other].artifacts[j].role]);
      assert ArtifactHolds(h, s.cas, a, l[id].payloads[a.role]);
    }
  }

  lemma HoldsAfterRemoval(h: Hashing, c: Cas, gone: set<string>, bytes: string)
    requires Holds(h, c, bytes) && h.casDigest(bytes) !in gone
    ensures Holds(h, c.(blobs := c.blobs - gone), bytes)
  {
  }

  lemma SurvivorMatches(h: Hashing, known: set<string>, l: Ledger, s: Store, keep: nat, pinnedDir: set<string>, id: string)
    requires Refines(h, known, l, s) && id in s.runs && id in Retained(HeadersOf(s.runs), keep, pinnedDir)
    ensures var gone := Digests(PlannedCas(s.runs, keep, pinnedDir));
      RunMatches(h, s.cas.(blobs := s.cas.blobs - gone), id, l[id], s.runs[id])
  {
    hide Holds, Retained, Planned, PlannedCas, Consistent, Digests;
    var gone := Digests(PlannedCas(s.runs, keep, pinnedDir));
    var cas := s.cas.(blobs := s.cas.blobs - gone);
    assert RunMatches(h, s.cas, id, l[id], s.runs[id]);
    var arts := s.runs[id].artifacts;
    forall i | 0 <= i < |arts| ensures ArtifactHolds(h, cas, arts[i], l[id].payloads[arts[i].role]) {
      RetainedBlobsStay(h, known, l, s, keep, pinnedDir, id, i);
      HoldsAfterRemoval(h, s.cas, gone, h.canon(l[id].payloads[arts[i].role]).value);
    }
  }

  lemma CleanupRefines(h: Hashing, known: set<string>, l: Ledger, s: Store, keep: int, apply: bool, pinnedDir: set<string>)
    requires h.Sound(known) && Refines(h, known, l, s)
    ensures Refines(h, known, LedgerApply(h, l, Clean(keep, apply, pinnedDir)), Cleanup(s, keep, apply, pinnedDir).0)
  {
    hide ArtifactsMatch, Retained, Planned, PlannedCas, CasFor, DeletedCount, Digests;
    if keep >= 0 && apply {
      HeadersAgree(h, known, l, s);
      var hs := HeadersOf(s.runs);
      DeletedMembers(hs, keep, pinnedDir);
      var next := Cleanup(s, keep, apply, pinnedDir).0;
      var planned := Planned(hs, keep, pinnedDir);
      if DeletedCount(hs, planned) == |planned| {
        assert planned[..|planned|] == planned;
        forall id | id in next.runs ensures RunMatches(h, next.cas, id, l[id], s.runs[id]) {
          SurvivorMatches(h, known, l, s, keep, pinnedDir, id);
        }
      }
    }
  }

  // ---------------------------------------------------------------------------
  // Main results
  // ---------------------------------------------------------------------------

  /** Every operation, including an aborted cleanup, keeps the registry in step with the ledger. */
  lemma StepRefines(h: Hashing, known: set<string>, l: Ledger, s: Store, op: Op)
    requires h.Sound(known) && Refines(h, known, l, s) && Covers(h, known, op)
    ensures Refines(h, known, LedgerApply(h, l, op), Apply(h, s, op))
  {
    hide Consistent, Holds, Cleanup, RegisterPayload;
    match op
    case Begin(id, metadata, now) =>
      assert ArtifactsMatch(h, s.cas, map[], []);
    case Register(id, role, payload, now) =>
      RegisterRefines(h, known, l, s, id, role, payload, now);
    case Finalize(id, status, now) =>
      FinalizeRefines(h, known, l, s, id, status, now);
    case Clean(keep, apply, pinnedDir) =>
      CleanupRefines(h, known, l, s, keep, apply, pinnedDir);
  }

  lemma FinalizeRefines(h: Hashing, known: set<string>, l: Ledger, s: Store, id: string, status: Status, now: string)
    requires Refines(h, known, l, s)
    ensures Refines(h, known, LedgerApply(h, l, Finalize(id, status, now)), Apply(h, s, Finalize(id, status, now)))
  {
    hide ArtifactsMatch, Consistent;
    assert id in l ==> RunMatches(h, s.cas, id, l[id], s.runs[id]);
  }

  lemma {:induction false} RunRefines(h: Hashing, known: set<string>, ops: seq<Op>)
    requires h.Sound(known) && CoversAll(h, known, ops)
    ensures Refines(h, known, LedgerRun(h, ops), Run(h, ops))
    decreases |ops|
  {
    hide Apply, LedgerApply;
    if ops != [] {
      var init := ops[..|ops| - 1];
      RunRefines(h, known, init);
      StepRefines(h, known, LedgerRun(h, init), Run(h, init), ops[|ops| - 1]);
    }
  }

  /** A reader of a refined store sees exactly the ledger, errors included. */
  lemma ResolveAgrees<T>(h: Hashing, known: set<string>, l: Ledger, s: Store, id: string, role: string, validate: Json -> Option<T>)
    requires h.Sound(known) && Refines(h, known, l, s)
    ensures Resolve(h, s, id, role, validate) == LedgerResolve(l, id, role, validate)
  {
    hide Holds, Verifies, GetBytes, ResolveAttest;
    if id in l {
      assert RunMatches(h, s.cas, id, l[id], s.runs[id]);
      var arts := s.runs[id].artifacts;
      var i := FindRole(arts, role);
      if i < |arts| {
        HeldIsKnown(h, known, s.cas, h.canon(l[id].payloads[role]).value);
        HeldIsFound(h, known, s.cas, h.canon(l[id].payloads[role]).value);
      }
    }
  }

  /** After any operations, resolving gives what the ledger holds: the last payload accepted for the role. */
  lemma ResolveReadsLedger<T>(h: Hashing, known: set<string>, ops: seq<Op>, id: string, role: string, validate: Json -> Option<T>)
    requires h.Sound(known) && CoversAll(h, known, ops)
    ensures Resolve(h, Run(h, ops), id, role, validate) == LedgerResolve(LedgerRun(h, ops), id, role, validate)
  {
    RunRefines(h, known, ops);
    ResolveAgrees(h, known, LedgerRun(h, ops), Run(h, ops), id, role, validate);
  }

  /** Registration m of the sequence is accepted by the registry itself. */
  ghost predicate AcceptedAt(h: Hashing, ops: seq<Op>, m: nat) {
    && m < |ops| && ops[m].Register?
    && RegisterPayload(h, Run(h, ops[..m]), ops[m].id, ops[m].role, ops[m].payload, ops[m].now).1.Ok?
  }

  /** m is the last accepted registration of this role, with the run alive ever since. */
  ghost predicate LastAccepted(h: Hashing, ops: seq<Op>, id: string, role: string, m: nat) {
    && AcceptedAt(h, ops, m) && ops[m].id == id && ops[m].role == role
    && (forall j :: m < j < |ops| ==> !(ops[j].Begin? && ops[j].id == id))
    && (forall j :: m < j < |ops| && AcceptedAt(h, ops, j) ==> !(ops[j].id == id && ops[j].role == role))
    && (forall j :: m < j <= |ops| ==> id in Run(h, ops[..j]).runs)
  }

  ghost predicate LastPut(h: Hashing, ops: seq<Op>, id: string, role: string, payload: Json, m: nat) {
    LastAccepted(h, ops, id, role, m) && ops[m].payload == payload
  }

  lemma AcceptedPrefix(h: Hashing, ops: seq<Op>, op: Op, j: nat)
    requires j < |ops|
    ensures AcceptedAt(h, ops + [op], j) <==> AcceptedAt(h, ops, j)
  {
    hide RegisterPayload, Run;
    assert (ops + [op])[..j] == ops[..j];
  }

  lemma LastAcceptedExtends(h: Hashing, ops: seq<Op>, op: Op, id: string, role: string, m: nat)
    requires LastAccepted(h, ops, id, role, m)
    requires id in Run(h, ops + [op]).runs
    requires !(op.Begin? && op.id == id)
    requires AcceptedAt(h, ops + [op], |ops|) ==> !(op.id == id && op.role == role)
    ensures LastAccepted(h, ops + [op], id, role, m)
  {
    hide RegisterPayload, Run;
    var all := ops + [op];
    AcceptedPrefix(h, ops, op, m);
    forall j | m < j < |all| && AcceptedAt(h, all, j) ensures !(all[j].id == id && all[j].role == role) {
      if j < |ops| { AcceptedPrefix(h, ops, op, j); }
    }
    forall j | m < j <= |all| ensures id in Run(h, all[..j]).runs {
      if j <= |ops| { assert all[..j] == ops[..j]; } else { assert all[..j] == all; }
    }
  }

  /** An operation that is not an accepted registration of this role leaves its payload alone, or drops the run. */
  lemma OtherOpKeepsPayload(h: Hashing, l: Ledger, op: Op, id: string, role: string)
    requires id in LedgerApply(h, l, op) && role in LedgerApply(h, l, op)[id].payloads
    requires !(op.Register? && op.id == id && op.role == role && LedgerAccepts(h, l, id, role, op.payload))
    ensures id in l && role in l[id].payloads
    ensures l[id].payloads[role] == LedgerApply(h, l, op)[id].payloads[role]
    ensures !(op.Begin? && op.id == id)
  {
    hide Planned, DeletedCount, LedgerHeaders;
  }

  lemma RunOfSnoc(h: Hashing, ops: seq<Op>, op: Op)
    ensures Run(h, ops + [op]) == Apply(h, Run(h, ops), op)
    ensures LedgerRun(h, ops + [op]) == LedgerApply(h, LedgerRun(h, ops), op)
  {
    hide Apply, LedgerApply;
    assert (ops + [op])[..|ops|] == ops;
  }

  lemma LastAcceptedStep(h: Hashing, known: set<string>, ops: seq<Op>, op: Op, id: string, role: string)
    requires h.Sound(known) && CoversAll(h, known, ops + [op])
    requires id in LedgerRun(h, ops + [op]) && role in LedgerRun(h, ops + [op])[id].payloads
    requires id in LedgerRun(h, ops) && role in LedgerRun(h, ops)[id].payloads ==>
      exists m: nat :: LastPut(h, ops, id, role, LedgerRun(h, ops)[id].payloads[role], m)
    ensures exists m: nat :: LastPut(h, ops + [op], id, role, LedgerRun(h, ops + [op])[id].payloads[role], m)
  {
    hide RegisterPayload, Run, LedgerRun, Apply, Refines, LedgerAccepts;
    var all, l := ops + [op], LedgerRun(h, ops);
    RunOfSnoc(h, ops, op);
    CoversSnoc(h, known, ops, op);
    RunRefines(h, known, ops);
    RunRefines(h, known, all);
    RefinedKeys(h, known, LedgerRun(h, all), Run(h, all));
    assert all[..|ops|] == ops && all[..|all|] == all;
    if op.Register? { RegisterRefines(h, known, l, Run(h, ops), op.id, op.role, op.payload, op.now); }
    if op.Register? && op.id == id && op.role == role && LedgerAccepts(h, l, id, role, op.payload) {
      assert LastPut(h, all, id, role, op.payload, |ops|);
    } else {
      OtherOpKeepsPayload(h, l, op, id, role);
      var m: nat :| LastPut(h, ops, id, role, l[id].payloads[role], m);
      LastAcceptedExtends(h, ops, op, id, role, m);
      assert LastPut(h, all, id, role, l[id].payloads[role], m);
    }
  }

  lemma RefinedKeys(h: Hashing, known: set<string>, l: Ledger, s: Store)
    requires Refines(h, known, l, s)
    ensures l.Keys == s.runs.Keys
  {
  }

  /** Whatever payload the ledger holds for a role was put there by the last accepted registration. */
  lemma {:induction false} LedgerHoldsLastAccepted(h: Hashing, known: set<string>, ops: seq<Op>, id: string, role: string)
    requires h.Sound(known) && CoversAll(h, known, ops)
    requires id in LedgerRun(h, ops) && role in LedgerRun(h, ops)[id].payloads
    ensures exists m: nat :: LastPut(h, ops, id, role, LedgerRun(h, ops)[id].payloads[role], m)
    decreases |ops|
  {
    hide LastPut, LedgerApply;
    var init, op := ops[..|ops| - 1], ops[|ops| - 1];
    assert ops == init + [op];
    if id in LedgerRun(h, init) && role in LedgerRun(h, init)[id].payloads {
      LedgerHoldsLastAccepted(h, known, init, id, role);
    }
    LastAcceptedStep(h, known, init, op, id, role);
  }

  /** An operation that is no accepted registration of this role and no new run keeps the payload of a run it keeps. */
  lemma KeptPayload(h: Hashing, l: Ledger, op: Op, id: string, role: string)
    requires id in l && role in l[id].payloads && id in LedgerApply(h, l, op)
    requires !(op.Begin? && op.id == id)
    requires !(op.Register? && op.id == id && op.role == role && LedgerAccepts(h, l, id, role, op.payload))
    ensures role in LedgerApply(h, l, op)[id].payloads
    ensures LedgerApply(h, l, op)[id].payloads[role] == l[id].payloads[role]
  {
    hide Planned, DeletedCount, LedgerHeaders;
  }

  lemma LastAcceptedShrinks(h: Hashing, ops: seq<Op>, op: Op, id: string, role: string, m: nat)
    requires LastAccepted(h, ops + [op], id, role, m) && m < |ops|
    ensures LastAccepted(h, ops, id, role, m)
    ensures id in Run(h, ops).runs && id in Run(h, ops + [op]).runs
    ensures !(op.Begin? && op.id == id)
    ensures AcceptedAt(h, ops + [op], |ops|) ==> !(op.id == id && op.role == role)
  {
    hide RegisterPayload, Run;
    var all := ops + [op];
    AcceptedPrefix(h, ops, op, m);
    assert all[|ops|] == op && all[..|ops|] == ops && all[..|all|] == all;
    forall j | m < j < |ops| ensures !(ops[j].Begin? && ops[j].id == id) { assert all[j] == ops[j]; }
    forall j | m < j < |ops| && AcceptedAt(h, ops, j) ensures !(ops[j].id == id && ops[j].role == role) {
      AcceptedPrefix(h, ops, op, j);
      assert all[j] == ops[j];
    }
    forall j | m < j <= |ops| ensures id in Run(h, ops[..j]).runs { assert all[..j] == ops[..j]; }
  }

  /** The payload of the last accepted registration is what the ledger holds. */
  lemma {:induction false} LastPutIsHeld(h: Hashing, known: set<string>, ops: seq<Op>, id: string, role: string,
                                         payload: Json, m: nat)
    requires h.Sound(known) && CoversAll(h, known, ops) && LastPut(h, ops, id, role, payload, m)
    ensures id in LedgerRun(h, ops) && role in LedgerRun(h, ops)[id].payloads
    ensures LedgerRun(h, ops)[id].payloads[role] == payload
    decreases |ops|
  {
    hide RegisterPayload, Run, LedgerRun, Apply, Refines, LedgerAccepts;
    var init, op := ops[..|ops| - 1], ops[|ops| - 1];
    assert ops == init + [op];
    var l := LedgerRun(h, init);
    CoversSnoc(h, known, init, op);
    RunOfSnoc(h, init, op);
    RunRefines(h, known, init);
    RunRefines(h, known, ops);
    RefinedKeys(h, known, LedgerRun(h, ops), Run(h, ops));
    if op.Register? { RegisterRefines(h, known, l, Run(h, init), op.id, op.role, op.payload, op.now); }
    if m == |init| {
      AcceptedOpIsHeld(h, l, op);
    } else {
      LastAcceptedShrinks(h, init, op, id, role, m);
      LastPutIsHeld(h, known, init, id, role, payload, m);
      KeptPayload(h, l, op, id, role);
    }
  }

  lemma AcceptedOpIsHeld(h: Hashing, l: Ledger, op: Op)
    requires op.Register? && LedgerAccepts(h, l, op.id, op.role, op.payload)
    ensures op.id in LedgerApply(h, l, op) && op.role in LedgerApply(h, l, op)[op.id].payloads
    ensures LedgerApply(h, l, op)[op.id].payloads[op.role] == op.payload
  {
  }

  /**
   * What resolving returns after any operations, in full: a run that is gone or not COMPLETE is an error; a
   * completed run answers each role with the validated payload of the last registration accepted for it,
   * through rebinding, other runs' registrations and any number of cleanups, and only a role for which none
   * was accepted is missing.
   */
  lemma ResolveReturnsLastRegistered<T>(h: Hashing, known: set<string>, ops: seq<Op>, id: string, role: string,
                                        validate: Json -> Option<T>)
    requires h.Sound(known) && CoversAll(h, known, ops)
    ensures var s, r := Run(h, ops), Resolve(h, Run(h, ops), id, role, validate);
      if id !in s.runs then r == Err(MissingRun)
      else if s.runs[id].status != Complete then r == Err(BadState)
      else
        && (forall payload, m: nat :: LastPut(h, ops, id, role, payload, m) ==>
              r == match validate(payload) case Some(product) => Ok(product) case None => Err(ArtifactSchema))
        && ((exists payload, m: nat :: LastPut(h, ops, id, role, payload, m)) <==> r != Err(MissingRole))
  {
    hide LedgerRun, Run, ResolveArtifact, LastPut, Refines, Resolve;
    ResolveReadsLedger(h, known, ops, id, role, validate);
    RunRefines(h, known, ops);
    SameStatus(h, known, LedgerRun(h, ops), Run(h, ops), id);
    if id in Run(h, ops).runs {
      forall payload, m: nat | LastPut(h, ops, id, role, payload, m)
        ensures role in LedgerRun(h, ops)[id].payloads && LedgerRun(h, ops)[id].payloads[role] == payload
      {
        LastPutIsHeld(h, known, ops, id, role, payload, m);
      }
      if role in LedgerRun(h, ops)[id].payloads { LedgerHoldsLastAccepted(h, known, ops, id, role); }
    }
  }

  lemma SameStatus(h: Hashing, known: set<string>, l: Ledger, s: Store, id: string)
    requires Refines(h, known, l, s)
    ensures id in l <==> id in s.runs
    ensures id in l ==> l[id].status == s.runs[id].status
  {
    hide ArtifactsMatch, Consistent;
    if id in l { assert RunMatches(h, s.cas, id, l[id], s.runs[id]); }
  }

  /** At every point each run has at most one artifact per role and every artifact's blob is in the store. */
  lemma GcSafety(h: Hashing, known: set<string>, ops: seq<Op>, id: string)
    requires h.Sound(known) && CoversAll(h, known, ops) && id in Run(h, ops).runs
    ensures var s := Run(h, ops);
      var arts := s.runs[id].artifacts;
      && RolesDistinct(arts)
      && forall i :: 0 <= i < |arts| ==>
           CasShaped(arts[i].cas) && Verifies(h, s.cas, arts[i].cas) && CheckAttest(s.cas, arts[i]) == Ok(())
  {
    hide Holds, Verifies, ResolveAttest, Run, LedgerRun;
    RunRefines(h, known, ops);
    var s, l := Run(h, ops), LedgerRun(h, ops);
    assert RunMatches(h, s.cas, id, l[id], s.runs[id]);
    var arts := s.runs[id].artifacts;
    forall i | 0 <= i < |arts|
      ensures CasShaped(arts[i].cas) && Verifies(h, s.cas, arts[i].cas) && CheckAttest(s.cas, arts[i]) == Ok(())
    {
      assert ArtifactHolds(h, s.cas, arts[i], l[id].payloads[arts[i].role]);
      HeldIsKnown(h, known, s.cas, h.canon(l[id].payloads[arts[i].role]).value);
      HeldIsFound(h, known, s.cas, h.canon(l[id].payloads[arts[i].role]).value);
    }
  }

  /** Once finalized, a record is deleted whole or left untouched by everything but a colliding run id. */
  lemma FinalizedNeverChanges(h: Hashing, s: Store, op: Op, id: string)
    requires id in s.runs && s.runs[id].status != Registering
    requires !(op.Begin? && op.id == id)
    ensures id in Apply(h, s, op).runs ==> Apply(h, s, op).runs[id] == s.runs[id]
    ensures id !in Apply(h, s, op).runs ==> op.Clean? && op.apply && op.keep >= 0
  {
    hide PutJson, BindRole, Planned, Retained, DeletedCount, PlannedCas, CasFor;
  }

  /** Once a run is gone only a new run of the same id brings it back. */
  lemma GoneStaysGone(h: Hashing, s: Store, op: Op, id: string)
    requires id !in s.runs && !(op.Begin? && op.id == id)
    ensures id !in Apply(h, s, op).runs
  {
    hide PutJson, BindRole, Planned, Retained, DeletedCount, PlannedCas, CasFor;
  }

  /** Through any later operations that begin no run of its id, a finalized record is as it was or gone for good. */
  lemma {:induction false} FinalizedForever(h: Hashing, s: Store, ops: seq<Op>, id: string, n: nat)
    requires id in s.runs && s.runs[id].status != Registering && n <= |ops|
    requires forall i :: 0 <= i < |ops| ==> !(ops[i].Begin? && ops[i].id == id)
    ensures id in After(h, s, ops).runs ==> After(h, s, ops).runs[id] == s.runs[id]
    ensures id !in After(h, s, ops[..n]).runs ==> id !in After(h, s, ops).runs
    decreases |ops|
  {
    hide Apply;
    if n == |ops| { assert ops[..n] == ops; }
    if ops != [] {
      var init, op := ops[..|ops| - 1], ops[|ops| - 1];
      FinalizedForever(h, s, init, id, if n < |ops| then n else 0);
      if n < |ops| { assert init[..n] == ops[..n]; }
      var before := After(h, s, init);
      if id in before.runs { FinalizedNeverChanges(h, before, op, id); } else { GoneStaysGone(h, before, op, id); }
    }
  }

  /** Every record of a reachable store survives the index round trip. */
  lemma ReachableIsStorable(h: Hashing, known: set<string>, l: Ledger, s: Store)
    requires h.Sound(known) && Refines(h, known, l, s)
    ensures DecodeIndex(EncodeIndex(s.runs)) == s.runs
  {
    hide Holds, Consistent, WellFormed, EncodeIndex, DecodeIndex;
    ReloadIsIdentity(s.runs);
    forall id | id in s.runs ensures s.runs[id].runId == id && Storable(s.runs[id]) {
      assert RunMatches(h, s.cas, id, l[id], s.runs[id]);
      var arts := s.runs[id].artifacts;
      forall i | 0 <= i < |arts| ensures StorableArtifact(arts[i]) {
        assert ArtifactHolds(h, s.cas, arts[i], l[id].payloads[arts[i].role]);
        HeldIsKnown(h, known, s.cas, h.canon(l[id].payloads[arts[i].role]).value);
      }
    }
  }

  // ---------------------------------------------------------------------------
  // Completed cleanups
  // ---------------------------------------------------------------------------

  /** Some artifact of some run among ids has this digest. */
  ghost predicate ReferencedBy(runs: Runs, ids: set<string>, digest: string) {
    exists id, i :: id in ids && id in runs && 0 <= i < |runs[id].artifacts| && runs[id].artifacts[i].cas.digest == digest
  }

  /** Dry run and applied run report the same plan; the applied one deletes all of it. */
  lemma CompletedReport(s: Store, keep: nat, pinnedDir: set<string>)
    requires !Aborts(HeadersOf(s.runs), keep, pinnedDir)
    ensures var (next, r) := Cleanup(s, keep, true, pinnedDir);
      && r.Ok?
      && Cleanup(s, keep, false, pinnedDir) == (s, Ok(r.value.(deleted := [], deletedCas := {})))
      && r.value.deleted == r.value.planned == Planned(HeadersOf(s.runs), keep, pinnedDir)
  {
    hide Planned, Retained, PlannedCas, CasFor, DeletedCount;
  }

  /** A completed cleanup leaves exactly the retained runs, each as it was. */
  lemma CompletedRuns(s: Store, keep: nat, pinnedDir: set<string>)
    requires !Aborts(HeadersOf(s.runs), keep, pinnedDir)
    ensures Cleanup(s, keep, true, pinnedDir).0.runs
         == map id | id in s.runs && id in Retained(HeadersOf(s.runs), keep, pinnedDir) :: s.runs[id]
  {
    hide Planned, Retained, PlannedCas, CasFor, DeletedCount;
    var hs := HeadersOf(s.runs);
    DeletedMembers(hs, keep, pinnedDir);
    var planned := Planned(hs, keep, pinnedDir);
    assert planned[..|planned|] == planned;
  }

  lemma NothingPlanned(s: Store, keep: nat, pinnedDir: set<string>)
    requires Planned(HeadersOf(s.runs), keep, pinnedDir) == []
    ensures Cleanup(s, keep, true, pinnedDir).0 == s
    ensures Cleanup(s, keep, true, pinnedDir).1.Ok?
    ensures Cleanup(s, keep, true, pinnedDir).1.value.planned == []
    ensures Cleanup(s, keep, true, pinnedDir).1.value.plannedCas == {}
  {
    hide Planned, Retained;
    assert Members([]) == {} && CasFor(s.runs, {}) == {} && Digests({}) == {};
    assert PlannedCas(s.runs, keep, pinnedDir) == {};
    assert s.cas.blobs - {} == s.cas.blobs && s.runs - {} == s.runs;
  }

  /** With the same pins, a second cleanup after a completed one plans no run and no blob, and changes nothing. */
  lemma SecondCleanup(s: Store, keep: nat, pinnedDir: set<string>)
    requires !Aborts(HeadersOf(s.runs), keep, pinnedDir)
    ensures var next := Cleanup(s, keep, true, pinnedDir).0;
      && Cleanup(next, keep, true, pinnedDir).0 == next
      && Cleanup(next, keep, true, pinnedDir).1.Ok?
      && Cleanup(next, keep, true, pinnedDir).1.value.planned == []
      && Cleanup(next, keep, true, pinnedDir).1.value.plannedCas == {}
  {
    hide Planned, Retained, Cleanup;
    var hs := HeadersOf(s.runs);
    var next := Cleanup(s, keep, true, pinnedDir).0;
    CompletedRuns(s, keep, pinnedDir);
    CleanupIsFixpoint(hs, keep, pinnedDir);
    assert HeadersOf(next.runs) == Restrict(hs, Retained(hs, keep, pinnedDir));
    NothingPlanned(next, keep, pinnedDir);
  }

  /** A completed cleanup removes exactly the blobs a planned run refers to and no retained run does. */
  lemma RemovedBlobs(h: Hashing, known: set<string>, l: Ledger, s: Store, keep: nat, pinnedDir: set<string>)
    requires Refines(h, known, l, s) && !Aborts(HeadersOf(s.runs), keep, pinnedDir)
    ensures var hs := HeadersOf(s.runs);
      var planned, retained := Members(Planned(hs, keep, pinnedDir)), Retained(hs, keep, pinnedDir);
      var next := Cleanup(s, keep, true, pinnedDir).0;
      forall d :: d in next.cas.blobs <==>
        d in s.cas.blobs && !(ReferencedBy(s.runs, planned, d) && !ReferencedBy(s.runs, retained, d))
  {
    hide Planned, Retained, DeletedCount, Holds, PlannedCas;
    var hs := HeadersOf(s.runs);
    var planned, retained := Members(Planned(hs, keep, pinnedDir)), Retained(hs, keep, pinnedDir);
    var next := Cleanup(s, keep, true, pinnedDir).0;
    forall d ensures d in next.cas.blobs <==>
      d in s.cas.blobs && !(ReferencedBy(s.runs, planned, d) && !ReferencedBy(s.runs, retained, d))
    {
      RemovedDigest(h, known, l, s, keep, pinnedDir, d);
    }
  }

  lemma RemovedDigest(h: Hashing, known: set<string>, l: Ledger, s: Store, keep: nat, pinnedDir: set<string>, d: string)
    requires Refines(h, known, l, s)
    ensures var hs := HeadersOf(s.runs);
      var planned, retained := Members(Planned(hs, keep, pinnedDir)), Retained(hs, keep, pinnedDir);
      d in Digests(PlannedCas(s.runs, keep, pinnedDir)) <==>
        ReferencedBy(s.runs, planned, d) && !ReferencedBy(s.runs, retained, d)
  {
    hide Planned, Retained, Holds, ArtifactsMatch, Consistent;
    var hs := HeadersOf(s.runs);
    var planned, retained := Members(Planned(hs, keep, pinnedDir)), Retained(hs, keep, pinnedDir);
    if ReferencedBy(s.runs, retained, d) {
      var id, i :| id in retained && id in s.runs && 0 <= i < |s.runs[id].artifacts|
        && s.runs[id].artifacts[i].cas.digest == d;
      RetainedBlobsStay(h, known, l, s, keep, pinnedDir, id, i);
    } else if ReferencedBy(s.runs, planned, d) {
      var id, i :| id in planned && id in s.runs && 0 <= i < |s.runs[id].artifacts|
        && s.runs[id].artifacts[i].cas.digest == d;
      var ref := s.runs[id].artifacts[i].cas;
      assert ref in CasFor(s.runs, planned);
      assert ref !in CasFor(s.runs, retained);
      assert ref in PlannedCas(s.runs, keep, pinnedDir);
    }
  }

  /** A pass stopped by a registering run: the runs before it are gone, it stays, and no blob is touched. */
  lemma AbortedCleanup(s: Store, keep: nat, pinnedDir: set<string>)
    requires Aborts(HeadersOf(s.runs), keep, pinnedDir)
    ensures var planned := Planned(HeadersOf(s.runs), keep, pinnedDir);
      var n := DeletedCount(HeadersOf(s.runs), planned);
      var (next, r) := Cleanup(s, keep, true, pinnedDir);
      && r == Err(BadState)
      && next.cas == s.cas
      && next.runs == s.runs - Members(planned[..n])
      && planned[n] in next.runs && next.runs[planned[n]].status == Registering
  {
    hide Planned, Retained, PlannedCas, CasFor;
    PlannedFacts(HeadersOf(s.runs), keep, pinnedDir);
  }
}
