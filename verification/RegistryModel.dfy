/** The registry's operations as functions of its whole state: run index plus content store. */
module RegistryModel {
  import opened Common
  import opened HashRefs
  import opened RunIndex
  import opened ContentStore
  import opened Retention

  datatype Store = Store(runs: map<string, RunRecord>, cas: Cas)

  type Runs = map<string, RunRecord>

  function NewRun(id: string, now: string, metadata: map<string, Json>): RunRecord {
    RunRecord(id, Registering, now, now, [], metadata)
  }

  /** Position of the first artifact with this role, or the length. */
  function FindRole(arts: seq<RunArtifact>, role: string): (i: nat)
    ensures i <= |arts|
    ensures i < |arts| ==> arts[i].role == role
    ensures forall k :: 0 <= k < i ==> arts[k].role != role
  {
    if arts == [] || arts[0].role == role then 0 else 1 + FindRole(arts[1..], role)
  }

  function Bound(role: string, refs: StoredRefs): RunArtifact {
    RunArtifact(role, refs.cas, refs.attest, refs.mediaType, refs.size)
  }

  /** Update in place when the role exists, append otherwise. */
  function BindRole(arts: seq<RunArtifact>, role: string, refs: StoredRefs): seq<RunArtifact> {
    var i := FindRole(arts, role);
    if i < |arts| then arts[i := Bound(role, refs)] else arts + [Bound(role, refs)]
  }

  function AddArtifact(runs: Runs, id: string, role: string, refs: StoredRefs, now: string): Result<Runs, Violation> {
    if id !in runs then Err(MissingRun)
    else if runs[id].status != Registering then Err(BadState)
    else Ok(runs[id := runs[id].(artifacts := BindRole(runs[id].artifacts, role, refs), updatedAt := now)])
  }

  function FinalizeRun(runs: Runs, id: string, status: Status, now: string): Result<Runs, Violation> {
    if status == Registering then Err(BadState)
    else if id !in runs then Err(MissingRun)
    else if runs[id].status != Registering then Err(BadState)
    else Ok(runs[id := runs[id].(status := status, updatedAt := now)])
  }

  function DeleteRun(runs: Runs, id: string): Result<Runs, Violation> {
    if id !in runs then Err(MissingRun)
    else if runs[id].status == Registering then Err(BadState)
    else Ok(runs - {id})
  }

  function RegisterPayload(h: Hashing, s: Store, id: string, role: string, payload: Json, now: string)
    : (Store, Result<StoredRefs, Violation>)
  {
    if role == "" then (s, Err(EmptyRole))
    else
      var (cas, put) := PutJson(h, s.cas, payload);
      match put
      case Err(v) => (s.(cas := cas), Err(v))
      case Ok(refs) =>
        match AddArtifact(s.runs, id, role, refs, now)
        case Err(v) => (s.(cas := cas), Err(v))
        case Ok(runs) => (Store(runs, cas), Ok(refs))
  }

  function Resolve<T>(h: Hashing, s: Store, id: string, role: string, validate: Json -> Option<T>): Result<T, Violation> {
    if id !in s.runs then Err(MissingRun)
    else if s.runs[id].status != Complete then Err(BadState)
    else
      var arts := s.runs[id].artifacts;
      var i := FindRole(arts, role);
      if i == |arts| then Err(MissingRole)
      else ResolveArtifact(h, s.cas, arts[i], validate)
  }

  function ResolveArtifact<T>(h: Hashing, cas: Cas, a: RunArtifact, validate: Json -> Option<T>): Result<T, Violation> {
    if !CasShaped(a.cas) then Err(RefShape)
    else if !Verifies(h, cas, a.cas) then Err(Integrity)
    else
      match CheckAttest(cas, a)
      case Err(v) => Err(v)
      case Ok(_) =>
        match GetBytes(cas, a.cas)
        case Err(v) => Err(v)
        case Ok(bytes) =>
          match h.parse(bytes)
          case None => Err(ArtifactSchema)
          case Some(raw) =>
            match validate(raw)
            case None => Err(ArtifactSchema)
            case Some(product) => Ok(product)
  }

  function CheckAttest(cas: Cas, a: RunArtifact): Result<(), Violation> {
    if a.attest.None? then Ok(())
    else
      match ResolveAttest(cas, a.attest.value)
      case Err(v) => Err(v)
      case Ok(found) => if found == Some(a.cas) then Ok(()) else Err(AttestMismatch)
  }

  /** What a reader checks, on any store: the blob is there and has its digest, and an attestation leads to it. */
  ghost predicate Intact(h: Hashing, cas: Cas, a: RunArtifact) {
    && a.cas.domain == "cas.v1" && a.cas.algo == "b3-256"
    && a.cas.digest in cas.blobs && h.casDigest(cas.blobs[a.cas.digest]) == a.cas.digest
    && (a.attest.Some? ==>
          && a.attest.value.domain == "attest.v1" && a.attest.value.algo == "jcs-sha256"
          && Show(a.attest.value) in cas.aliases && cas.aliases[Show(a.attest.value)] == Show(a.cas) && WellFormed(a.cas))
  }

  /** Number i is the first artifact with this role. */
  ghost predicate FirstWithRole(arts: seq<RunArtifact>, role: string, i: nat) {
    i < |arts| && arts[i].role == role && forall k :: 0 <= k < i ==> arts[k].role != role
  }

  /**
   * Resolving on any store, a tampered one included, answers exactly when the run is COMPLETE, its first artifact
   * of the role is intact, and the stored bytes parse and validate; the answer is what they validate to.
   */
  lemma ResolveMeaning<T(!new)>(h: Hashing, s: Store, id: string, role: string, validate: Json -> Option<T>, product: T)
    ensures Resolve(h, s, id, role, validate) == Ok(product) <==>
      && id in s.runs && s.runs[id].status == Complete
      && exists i: nat :: FirstWithRole(s.runs[id].artifacts, role, i) && Intact(h, s.cas, s.runs[id].artifacts[i])
           && var raw := h.parse(s.cas.blobs[s.runs[id].artifacts[i].cas.digest]);
              raw.Some? && validate(raw.value) == Some(product)
  {
    hide Intact, ResolveArtifact;
    if id in s.runs && s.runs[id].status == Complete {
      var arts := s.runs[id].artifacts;
      var at := FindRole(arts, role);
      if at < |arts| {
        ResolvedArtifactMeaning(h, s.cas, arts[at], validate, product);
        assert FirstWithRole(arts, role, at);
      }
      forall i: nat | FirstWithRole(arts, role, i) ensures i == at {}
    }
  }

  lemma ResolvedArtifactMeaning<T(!new)>(h: Hashing, cas: Cas, a: RunArtifact, validate: Json -> Option<T>, product: T)
    ensures ResolveArtifact(h, cas, a, validate) == Ok(product) <==>
      Intact(h, cas, a) && h.parse(cas.blobs[a.cas.digest]).Some?
      && validate(h.parse(cas.blobs[a.cas.digest]).value) == Some(product)
  {
    hide Show, Parse, WellFormed;
    if a.attest.Some? && Show(a.attest.value) in cas.aliases {
      ParseIffShow(cas.aliases[Show(a.attest.value)], a.cas);
    }
  }

  /** Runs change only while registering: what each transition refuses, and what an accepted one changes. */
  lemma TransitionMeaning(runs: Runs, id: string, role: string, refs: StoredRefs, status: Status, now: string)
    ensures var bound, finished, deleted := AddArtifact(runs, id, role, refs, now), FinalizeRun(runs, id, status, now), DeleteRun(runs, id);
      && (bound == Err(MissingRun) <==> id !in runs)
      && (bound == Err(BadState) <==> id in runs && runs[id].status != Registering)
      && (finished == Err(MissingRun) <==> status != Registering && id !in runs)
      && (finished == Err(BadState) <==> status == Registering || (id in runs && runs[id].status != Registering))
      && (deleted == Err(MissingRun) <==> id !in runs)
      && (deleted == Err(BadState) <==> id in runs && runs[id].status == Registering)
      && (bound.Ok? ==>
            && bound.value.Keys == runs.Keys && (forall k :: k in runs && k != id ==> bound.value[k] == runs[k])
            && bound.value[id].(artifacts := runs[id].artifacts, updatedAt := runs[id].updatedAt) == runs[id]
            && bound.value[id].updatedAt == now)
      && (finished.Ok? ==> finished.value == runs[id := runs[id].(status := status, updatedAt := now)])
      && (deleted.Ok? ==> deleted.value.Keys == runs.Keys - {id} && forall k :: k in deleted.value ==> deleted.value[k] == runs[k])
      && (bound.Err? ==> bound.error in {MissingRun, BadState})
      && (finished.Err? ==> finished.error in {MissingRun, BadState})
      && (deleted.Err? ==> deleted.error in {MissingRun, BadState})
  {
    hide BindRole;
  }

  /** Binding replaces the first artifact of the role, or appends one. */
  lemma BindMeaning(arts: seq<RunArtifact>, role: string, refs: StoredRefs)
    ensures var next := BindRole(arts, role, refs);
      var added := RunArtifact(role, refs.cas, refs.attest, refs.mediaType, refs.size);
      if exists i: nat :: FirstWithRole(arts, role, i) then
        exists i: nat :: FirstWithRole(arts, role, i) && next == arts[i := added]
      else
        next == arts + [added]
  {
    var at := FindRole(arts, role);
    assert at < |arts| ==> FirstWithRole(arts, role, at);
  }

  // ---------------------------------------------------------------------------
  // Cleanup
  // ---------------------------------------------------------------------------

  function HeaderOf(r: RunRecord): Header {
    Header(r.createdAt, r.status, Obj(r.metadata).Get("pinned").Truthy())
  }

  function HeadersOf(runs: Runs): Headers {
    map id | id in runs :: HeaderOf(runs[id])
  }

  /** References of the artifacts of the given runs. */
  function CasFor(runs: Runs, ids: set<string>): set<HashRef> {
    set id, i | id in ids && id in runs && 0 <= i < |runs[id].artifacts| :: runs[id].artifacts[i].cas
  }

  function Digests(refs: set<HashRef>): set<string> {
    set r | r in refs :: r.digest
  }

  datatype Report = Report(
    planned: seq<string>, deleted: seq<string>, retained: set<string>,
    plannedCas: set<HashRef>, deletedCas: set<HashRef>, retainedCas: set<HashRef>)

  function Members(s: seq<string>): set<string> {
    set x | x in s
  }

  ghost function PlannedCas(runs: Runs, keep: nat, pinnedDir: set<string>): set<HashRef> {
    var hs := HeadersOf(runs);
    CasFor(runs, Members(Planned(hs, keep, pinnedDir))) - CasFor(runs, Retained(hs, keep, pinnedDir))
  }

  /** A pass that meets a registering run stops there: earlier runs are gone, no blob is. */
  ghost function Cleanup(s: Store, keep: int, apply: bool, pinnedDir: set<string>): (Store, Result<Report, Violation>) {
    if keep < 0 then (s, Err(NegativeKeep))
    else
      var hs := HeadersOf(s.runs);
      var planned, retained := Planned(hs, keep, pinnedDir), Retained(hs, keep, pinnedDir);
      var retainedCas, plannedCas := CasFor(s.runs, retained), PlannedCas(s.runs, keep, pinnedDir);
      if !apply then (s, Ok(Report(planned, [], retained, plannedCas, {}, retainedCas)))
      else
        var n := DeletedCount(hs, planned);
        var left := s.runs - Members(planned[..n]);
        if n < |planned| then (s.(runs := left), Err(BadState))
        else
          (Store(left, s.cas.(blobs := s.cas.blobs - Digests(plannedCas))),
           Ok(Report(planned, planned, retained, plannedCas,
                     (set r | r in plannedCas && r.digest in s.cas.blobs), retainedCas)))
  }

  /** Some artifact of some run among ids has this reference. */
  ghost predicate RefersTo(runs: Runs, ids: set<string>, ref: HashRef) {
    exists id, i :: id in ids && id in runs && 0 <= i < |runs[id].artifacts| && runs[id].artifacts[i].cas == ref
  }

  /**
   * The report, reference by reference: planned are those of planned runs and of no retained run, deleted those of
   * them whose blob was there. Only a negative number to keep and a planned run still registering are errors.
   */
  lemma ReportMeaning(s: Store, keep: int, apply: bool, pinnedDir: set<string>)
    ensures var (next, r) := Cleanup(s, keep, apply, pinnedDir);
      && (r == Err(NegativeKeep) <==> keep < 0)
      && (r.Err? ==> r.error in {NegativeKeep, BadState})
      && (r.Err? && keep < 0 ==> next == s)
      && (r == Err(BadState) ==> apply && Aborts(HeadersOf(s.runs), keep, pinnedDir))
      && (r.Ok? ==> var report, hs := r.value, HeadersOf(s.runs);
            var planned := Planned(hs, keep, pinnedDir);
            && report.planned == planned && report.retained == Retained(hs, keep, pinnedDir)
            && report.deleted == (if apply then planned else [])
            && (forall ref :: ref in report.retainedCas <==> RefersTo(s.runs, report.retained, ref))
            && (forall ref :: ref in report.plannedCas <==>
                  RefersTo(s.runs, Members(planned), ref) && !RefersTo(s.runs, report.retained, ref))
            && (forall ref :: ref in report.deletedCas <==> apply && ref in report.plannedCas && ref.digest in s.cas.blobs))
  {
    hide Planned, Retained, DeletedCount, CasFor, Members;
    if keep >= 0 {
      var hs := HeadersOf(s.runs);
      CasForMeaning(s.runs, Retained(hs, keep, pinnedDir));
      CasForMeaning(s.runs, Members(Planned(hs, keep, pinnedDir)));
    }
  }

  lemma CasForMeaning(runs: Runs, ids: set<string>)
    ensures forall ref :: ref in CasFor(runs, ids) <==> RefersTo(runs, ids, ref)
  {
  }

  /** A run counts as pinned in the plan exactly when its metadata has a true "pinned". */
  lemma HeaderMeaning(runs: Runs, id: string)
    requires id in runs
    ensures var header := HeadersOf(runs)[id];
      && header.createdAt == runs[id].createdAt && header.status == runs[id].status
      && (header.pinned <==>
            && "pinned" in runs[id].metadata
            && runs[id].metadata["pinned"] !in {Null, Bool(false), Num(0), Str(""), Arr([]), Obj(map[])})
  {
    TruthyIff(Obj(runs[id].metadata).Get("pinned"));
  }

  // ---------------------------------------------------------------------------
  // Operations and runs
  // ---------------------------------------------------------------------------

  datatype Op =
    | Begin(id: string, metadata: map<string, Json>, now: string)
    | Register(id: string, role: string, payload: Json, now: string)
    | Finalize(id: string, status: Status, now: string)
    | Clean(keep: int, apply: bool, pinnedDir: set<string>)

  ghost function Apply(h: Hashing, s: Store, op: Op): Store {
    match op
    case Begin(id, metadata, now) => s.(runs := s.runs[id := NewRun(id, now, metadata)])
    case Register(id, role, payload, now) => RegisterPayload(h, s, id, role, payload, now).0
    case Finalize(id, status, now) =>
      (match FinalizeRun(s.runs, id, status, now)
       case Err(_) => s
       case Ok(runs) => s.(runs := runs))
    case Clean(keep, apply, pinnedDir) => Cleanup(s, keep, apply, pinnedDir).0
  }

  const EMPTY := Store(map[], Cas(map[], map[]))

  ghost function Run(h: Hashing, ops: seq<Op>): Store
    decreases |ops|
  {
    if ops == [] then EMPTY else Apply(h, Run(h, ops[..|ops| - 1]), ops[|ops| - 1])
  }

  /** The store after further operations. */
  ghost function After(h: Hashing, s: Store, ops: seq<Op>): Store
    decreases |ops|
  {
    if ops == [] then s else Apply(h, After(h, s, ops[..|ops| - 1]), ops[|ops| - 1])
  }
}
