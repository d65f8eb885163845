/** Run records and the persisted JSON index they are reloaded from before every operation. */
module RunIndex {
  import opened Common
  import opened HashRefs

  datatype Json =
    | Null
    | Bool(flag: bool)
    | Num(number: int)
    | Str(text: string)
    | Arr(items: seq<Json>)
    | Obj(fields: map<string, Json>)
  {
    /** Python truthiness. */
    predicate Truthy() {
      match this
      case Null => false
      case Bool(b) => b
      case Num(n) => n != 0
      case Str(s) => s != ""
      case Arr(items) => items != []
      case Obj(fields) => fields != map[]
    }

    /** dict.get(key), with null for a missing key. */
    function Get(key: string): Json {
      if Obj? && key in fields then fields[key] else Null
    }
  }

  datatype Status = Registering | Complete | Failed

  function StatusName(s: Status): string {
    match s
    case Registering => "REGISTERING"
    case Complete => "COMPLETE"
    case Failed => "FAILED"
  }

  function StatusOf(name: string): Option<Status> {
    if name == "REGISTERING" then Some(Registering)
    else if name == "COMPLETE" then Some(Complete)
    else if name == "FAILED" then Some(Failed)
    else None
  }

  datatype RunArtifact = RunArtifact(
    role: string, cas: HashRef, attest: Option<HashRef>, mediaType: Option<string>, size: int)

  datatype RunRecord = RunRecord(
    runId: string, status: Status, createdAt: string, updatedAt: string,
    artifacts: seq<RunArtifact>, metadata: map<string, Json>)

  // ---------------------------------------------------------------------------
  // Encoding
  // ---------------------------------------------------------------------------

  function EncodeArtifact(a: RunArtifact): Json {
    Obj(map[
      "role" := Str(a.role),
      "cas" := Str(Show(a.cas)),
      "attest" := (if a.attest.Some? then Str(Show(a.attest.value)) else Null),
      "media_type" := (if a.mediaType.Some? then Str(a.mediaType.value) else Null),
      "size" := Num(a.size)])
  }

  function EncodeArtifacts(arts: seq<RunArtifact>): (r: seq<Json>)
    ensures |r| == |arts|
  {
    seq(|arts|, i requires 0 <= i < |arts| => EncodeArtifact(arts[i]))
  }

  function EncodeRun(r: RunRecord): Json {
    Obj(map[
      "status" := Str(StatusName(r.status)),
      "created_at" := Str(r.createdAt),
      "updated_at" := Str(r.updatedAt),
      "metadata" := Obj(r.metadata),
      "artifacts" := Arr(EncodeArtifacts(r.artifacts))])
  }

  function EncodeIndex(runs: map<string, RunRecord>): Json {
    Obj(map id | id in runs :: EncodeRun(runs[id]))
  }

  // ---------------------------------------------------------------------------
  // Decoding: a malformed artifact is dropped, a malformed run is skipped.
  // ---------------------------------------------------------------------------

  function TextOf(j: Json): string {
    if j.Str? then j.text else ""
  }

  function DecodeArtifact(j: Json): Option<RunArtifact> {
    if !j.Obj? then None
    else if TextOf(j.Get("role")) == "" || !j.Get("cas").Str? then None
    else
      match Parse(j.Get("cas").text)
      case None => None
      case Some(cas) =>
        var attest := if j.Get("attest").Str? then Parse(j.Get("attest").text) else None;
        var media := if j.Get("media_type").Str? then Some(j.Get("media_type").text) else None;
        var size := if j.Get("size").Num? then j.Get("size").number else 0;
        Some(RunArtifact(TextOf(j.Get("role")), cas, attest, media, size))
  }

  function DecodeArtifacts(items: seq<Json>): (r: seq<RunArtifact>)
    ensures |r| <= |items|
  {
    if items == [] then []
    else
      var rest := DecodeArtifacts(items[1..]);
      match DecodeArtifact(items[0])
      case None => rest
      case Some(a) => [a] + rest
  }

  function DecodeRun(runId: string, j: Json): Option<RunRecord> {
    if !j.Obj? || !j.Get("status").Str? then None
    else
      match StatusOf(j.Get("status").text)
      case None => None
      case Some(status) =>
        var metadata := if j.Get("metadata").Obj? then j.Get("metadata").fields else map[];
        var artifacts := if j.Get("artifacts").Arr? then DecodeArtifacts(j.Get("artifacts").items) else [];
        Some(RunRecord(runId, status, TextOf(j.Get("created_at")), TextOf(j.Get("updated_at")),
                       artifacts, metadata))
  }

  function DecodeIndex(j: Json): map<string, RunRecord> {
    if j.Obj?
    then map id | id in j.fields && DecodeRun(id, j.fields[id]).Some? :: DecodeRun(id, j.fields[id]).value
    else map[]
  }

  /** A stored run is read exactly when it is an object with a known status; other fields fall back to nothing. */
  lemma DecodeRunIff(id: string, j: Json)
    ensures DecodeRun(id, j).Some?
      <==> j.Obj? && "status" in j.fields && j.fields["status"] in {Str("REGISTERING"), Str("COMPLETE"), Str("FAILED")}
    ensures DecodeRun(id, j).Some? ==> var r := DecodeRun(id, j).value;
      && r.runId == id
      && j.fields["status"]
           == Str(match r.status case Registering => "REGISTERING" case Complete => "COMPLETE" case Failed => "FAILED")
      && (forall t :: j.Get("created_at") == Str(t) ==> r.createdAt == t)
      && (forall t :: j.Get("updated_at") == Str(t) ==> r.updatedAt == t)
      && (!j.Get("artifacts").Arr? ==> r.artifacts == [])
      && (!j.Get("metadata").Obj? ==> r.metadata == map[])
  {
  }

  /** A stored artifact is read exactly when it has a role and a reference that parses. */
  lemma DecodeArtifactIff(j: Json)
    ensures DecodeArtifact(j).Some? <==>
      exists role, cas :: role != "" && WellFormed(cas) && j.Get("role") == Str(role) && j.Get("cas") == Str(Show(cas))
    ensures DecodeArtifact(j).Some? ==> var a := DecodeArtifact(j).value;
      && j.Get("role") == Str(a.role) && j.Get("cas") == Str(Show(a.cas)) && WellFormed(a.cas)
  {
    hide Parse, Show, WellFormed;
    if DecodeArtifact(j).Some? {
      var a := DecodeArtifact(j).value;
      ParseIffShow(j.Get("cas").text, a.cas);
    }
    if role, cas :| role != "" && WellFormed(cas) && j.Get("role") == Str(role) && j.Get("cas") == Str(Show(cas)) {
      ParseIffShow(Show(cas), cas);
    }
  }

  /** Values that count as true: everything but null, false, zero and the empty string, list and object. */
  lemma TruthyIff(j: Json)
    ensures j.Truthy() <==> j !in {Null, Bool(false), Num(0), Str(""), Arr([]), Obj(map[])}
  {
  }

  // ---------------------------------------------------------------------------
  // When reloading is the identity
  // ---------------------------------------------------------------------------

  predicate StorableArtifact(a: RunArtifact) {
    && a.role != ""
    && WellFormed(a.cas)
    && (a.attest.Some? ==> WellFormed(a.attest.value))
  }

  predicate Storable(r: RunRecord) {
    forall i :: 0 <= i < |r.artifacts| ==> StorableArtifact(r.artifacts[i])
  }

  lemma ArtifactRoundTrip(a: RunArtifact)
    ensures DecodeArtifact(EncodeArtifact(a)) == Some(a) <==> StorableArtifact(a)
  {
    hide Parse, Show, WellFormed;
    ParseIffShow(Show(a.cas), a.cas);
    if a.attest.Some? { ParseIffShow(Show(a.attest.value), a.attest.value); }
  }

  lemma {:induction false} ArtifactsRoundTrip(arts: seq<RunArtifact>)
    ensures DecodeArtifacts(EncodeArtifacts(arts)) == arts
      <==> forall i :: 0 <= i < |arts| ==> StorableArtifact(arts[i])
    ensures |DecodeArtifacts(EncodeArtifacts(arts))| <= |arts|
  {
    hide EncodeArtifact, DecodeArtifact, StorableArtifact;
    if arts != [] {
      var codes := EncodeArtifacts(arts);
      assert codes[1..] == EncodeArtifacts(arts[1..]);
      ArtifactsRoundTrip(arts[1..]);
      ArtifactRoundTrip(arts[0]);
      var rest := DecodeArtifacts(codes[1..]);
      assert (forall i :: 0 <= i < |arts| ==> StorableArtifact(arts[i]))
        <==> StorableArtifact(arts[0]) && forall i :: 0 <= i < |arts[1..]| ==> StorableArtifact(arts[1..][i]) by {
        assert forall i :: 0 < i < |arts| ==> arts[i] == arts[1..][i - 1];
      }
      match DecodeArtifact(codes[0]) {
        case None => assert |DecodeArtifacts(codes)| < |arts|;
        case Some(a) =>
          assert DecodeArtifacts(codes) == [a] + rest;
          assert arts == [arts[0]] + arts[1..];
          assert [a] + rest == arts <==> a == arts[0] && rest == arts[1..] by {
            if [a] + rest == arts { assert ([a] + rest)[1..] == rest; }
          }
      }
    }
  }

  /** A record survives a round trip exactly when every artifact has a role and well-formed hashes. */
  lemma RunRoundTrip(r: RunRecord)
    ensures DecodeRun(r.runId, EncodeRun(r)) == Some(r) <==> Storable(r)
    ensures DecodeRun(r.runId, EncodeRun(r)).Some?
  {
    hide EncodeArtifacts, DecodeArtifacts, StorableArtifact;
    ArtifactsRoundTrip(r.artifacts);
  }

  /** Reloading the index gives back the runs exactly when every record is stored under its own id and storable. */
  lemma ReloadIsIdentity(runs: map<string, RunRecord>)
    ensures DecodeIndex(EncodeIndex(runs)).Keys == runs.Keys
    ensures DecodeIndex(EncodeIndex(runs)) == runs
      <==> forall id :: id in runs ==> runs[id].runId == id && Storable(runs[id])
  {
    hide EncodeRun, DecodeRun, Storable;
    var back := DecodeIndex(EncodeIndex(runs));
    forall id | id in runs
      ensures id in back && back[id] == DecodeRun(id, EncodeRun(runs[id])).value
      ensures back[id] == runs[id] <==> runs[id].runId == id && Storable(runs[id])
    {
      EntryRoundTrip(id, runs[id]);
    }
  }

  lemma EntryRoundTrip(id: string, r: RunRecord)
    ensures DecodeRun(id, EncodeRun(r)).Some?
    ensures DecodeRun(id, EncodeRun(r)) == Some(r) <==> r.runId == id && Storable(r)
  {
    hide EncodeArtifacts, DecodeArtifacts;
    RunRoundTrip(r.(runId := id));
  }
}
