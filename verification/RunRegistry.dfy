/** The run state machine over its persisted index: every operation reloads, mutates and flushes. */
module RunRegistryStore {
  import opened Common
  import opened RunIndex
  import opened ContentStore
  import opened RegistryModel

  class RunRegistry {
    var runs: Runs
    /** The index file's JSON, or nothing when it is missing or unreadable. */
    var index: Option<Json>

    ghost function OnDisk(): Runs
      reads this
    {
      if index.None? then map[] else DecodeIndex(index.value)
    }

    constructor (index: Option<Json>)
      ensures this.index == index && runs == OnDisk()
    {
      this.index := index;
      runs := map[];
      new;
      Load();
    }

    /** Rebuild the in-memory runs from the file, skipping malformed entries. */
    method Load()
      modifies this`runs
      ensures runs == OnDisk()
    {
      runs := map[];
      if index.None? || !index.value.Obj? {
        return;
      }
      var fields := index.value.fields;
      var rest := fields.Keys;
      var loaded: Runs := map[];
      while rest != {}
        invariant rest <= fields.Keys
        invariant forall id :: id in loaded <==> id in fields && id !in rest && DecodeRun(id, fields[id]).Some?
        invariant forall id :: id in loaded ==> loaded[id] == DecodeRun(id, fields[id]).value
        decreases |rest|
      {
        var id :| id in rest;
        var decoded := DecodeRun(id, fields[id]);
        if decoded.Some? {
          loaded := loaded[id := decoded.value];
        }
        rest := rest - {id};
      }
      runs := loaded;
    }

    method Flush()
      modifies this`index
      ensures index == Some(EncodeIndex(runs))
    {
      index := Some(EncodeIndex(runs));
    }

    method BeginRun(runId: string, metadata: map<string, Json>, now: string)
      modifies this
      ensures runs == old(OnDisk())[runId := NewRun(runId, now, metadata)]
      ensures index == Some(EncodeIndex(runs))
    {
      Load();
      runs := runs[runId := NewRun(runId, now, metadata)];
      Flush();
    }

    /** Bind a role; the scan updates the first artifact with that role or appends one. */
    method Bind(runId: string, role: string, refs: StoredRefs, now: string) returns (r: Result<(), Violation>)
      modifies this
      ensures match AddArtifact(old(OnDisk()), runId, role, refs, now)
        case Ok(next) => r == Ok(()) && runs == next && index == Some(EncodeIndex(next))
        case Err(v) => r == Err(v) && runs == old(OnDisk()) && index == old(index)
    {
      Load();
      if runId !in runs {
        return Err(MissingRun);
      }
      var record := runs[runId];
      if record.status != Registering {
        return Err(BadState);
      }
      var arts := record.artifacts;
      var i := 0;
      while i < |arts| && arts[i].role != role
        invariant 0 <= i <= |arts|
        invariant forall k :: 0 <= k < i ==> arts[k].role != role
      {
        i := i + 1;
      }
      FindRoleIs(arts, role, i);
      if i < |arts| {
        arts := arts[i := Bound(role, refs)];
      } else {
        arts := arts + [Bound(role, refs)];
      }
      runs := runs[runId := record.(artifacts := arts, updatedAt := now)];
      Flush();
      r := Ok(());
    }

    method Finish(runId: string, status: Status, now: string) returns (r: Result<(), Violation>)
      modifies this
      ensures match FinalizeRun(old(OnDisk()), runId, status, now)
        case Ok(next) => r == Ok(()) && runs == next && index == Some(EncodeIndex(next))
        case Err(v) => r == Err(v) && runs == old(OnDisk()) && index == old(index)
    {
      Load();
      if status == Registering {
        return Err(BadState);
      }
      if runId !in runs {
        return Err(MissingRun);
      }
      if runs[runId].status != Registering {
        return Err(BadState);
      }
      runs := runs[runId := runs[runId].(status := status, updatedAt := now)];
      Flush();
      r := Ok(());
    }

    /** Complete runs are visible; the flags admit the other states. */
    method GetRun(runId: string, includeIncomplete: bool, includeFailed: bool) returns (r: Option<RunRecord>)
      modifies this`runs
      ensures runs == OnDisk()
      ensures r.Some? <==>
        && runId in runs
        && (runs[runId].status == Registering ==> includeIncomplete)
        && (runs[runId].status == Failed ==> includeFailed)
      ensures r.Some? ==> r.value == runs[runId]
    {
      Load();
      if runId !in runs {
        return None;
      }
      var record := runs[runId];
      if record.status == Complete {
        return Some(record);
      }
      if record.status == Registering && includeIncomplete {
        return Some(record);
      }
      if record.status == Failed && includeFailed {
        return Some(record);
      }
      r := None;
    }

    method Delete(runId: string) returns (r: Result<(), Violation>)
      modifies this
      ensures match DeleteRun(old(OnDisk()), runId)
        case Ok(next) => r == Ok(()) && runs == next && index == Some(EncodeIndex(next))
        case Err(v) => r == Err(v) && runs == old(OnDisk()) && index == old(index)
    {
      Load();
      if runId !in runs {
        return Err(MissingRun);
      }
      if runs[runId].status == Registering {
        return Err(BadState);
      }
      runs := runs - {runId};
      Flush();
      r := Ok(());
    }
  }

  lemma FindRoleIs(arts: seq<RunArtifact>, role: string, i: nat)
    requires i <= |arts| && forall k :: 0 <= k < i ==> arts[k].role != role
    requires i < |arts| ==> arts[i].role == role
    ensures FindRole(arts, role) == i
  {
  }

  /**
   * A registering run accepts any binding, and the binding survives the next reload exactly when it can be
   * stored; with an empty role, in particular, it is accepted and then lost.
   */
  lemma BindingSurvivesIff(runs: Runs, id: string, role: string, refs: StoredRefs, now: string)
    requires id in runs && runs[id].status == Registering
    requires DecodeIndex(EncodeIndex(runs)) == runs
    ensures var next := AddArtifact(runs, id, role, refs, now);
      && next.Ok?
      && DecodeIndex(EncodeIndex(next.value)).Keys == next.value.Keys
      && (DecodeIndex(EncodeIndex(next.value)) == next.value <==> StorableArtifact(Bound(role, refs)))
      && (role == "" ==> DecodeIndex(EncodeIndex(next.value)) != next.value)
  {
    hide DecodeIndex, EncodeIndex;
    var next := AddArtifact(runs, id, role, refs, now).value;
    ReloadIsIdentity(runs);
    ReloadIsIdentity(next);
    var arts, at := runs[id].artifacts, FindRole(runs[id].artifacts, role);
    var bound := next[id].artifacts;
    assert bound[at] == Bound(role, refs);
    assert forall i :: 0 <= i < |bound| && i != at ==> bound[i] == arts[i];
    assert Storable(next[id]) <==> StorableArtifact(Bound(role, refs));
  }
}
