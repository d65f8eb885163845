/** Replay records of tasks. */
module TaskRecord {
  import opened Common
  import opened SignalSurface
  import opened TaskBuilder

  /** The values a record holds. */
  datatype Field =
    | Null
    | Str(text: string)
    | Num(number: int)
    | Strs(texts: seq<string>)
    | Flags(flags: seq<bool>)
    | Reals(reals: seq<real>)
    | Surface(kind: string, maxSignals: int, contractVersion: string)

  /** The record's keys, one name each. */
  datatype Key =
    | TaskIdKey | TaskIdHmacKeyVersionKey | RegimeIdKey | RegimeClassKey | RegimeEmbeddingKey
    | SupportSetKey | QuerySetKey | HorizonKey | SignalIdsKey | SignalMaskKey
    | SignalSetVersionKey | SignalSurfaceKey | SignalIdsHashKey | PitBoundaryKey | T0Key
    | T1Key | ActiveKKey

  type Record = map<Key, Field>

  function ToRecord(t: Task): Record {
    map[
      TaskIdKey := Str(t.taskId),
      TaskIdHmacKeyVersionKey := Str("mln01.v1.empty_key"),
      RegimeIdKey := Str(t.regimeId),
      RegimeClassKey := Str(t.regimeClass),
      RegimeEmbeddingKey := if t.embedding.None? then Null else Reals(t.embedding.value),
      SupportSetKey := Strs(t.support),
      QuerySetKey := Strs(t.query),
      HorizonKey := Num(t.horizon),
      SignalIdsKey := Strs(t.ids),
      SignalMaskKey := Flags(t.mask),
      SignalSetVersionKey := Str(t.version),
      SignalSurfaceKey := Surface("fixed_slot_masked", MAX_SIGNALS, "mln04.dynamic_k.v1"),
      SignalIdsHashKey := Str(t.surfaceHash),
      PitBoundaryKey := Str(t.pitBoundary),
      T0Key := Str(t.t0),
      T1Key := Str(t.t1),
      ActiveKKey := Num(t.activeK)
    ]
  }

  predicate HasText(r: Record, key: Key) {
    key in r && r[key].Str?
  }

  predicate HasTexts(r: Record, key: Key) {
    key in r && r[key].Strs?
  }

  predicate HasNumber(r: Record, key: Key) {
    key in r && r[key].Num?
  }

  /** None when the embedding is of another kind; a missing embedding and a null one are both no embedding. */
  function Embedding(r: Record): Option<Option<seq<real>>> {
    if RegimeEmbeddingKey !in r || r[RegimeEmbeddingKey] == Null then Some(None)
    else if r[RegimeEmbeddingKey].Reals? then Some(Some(r[RegimeEmbeddingKey].reals))
    else None
  }

  function FromRecord(r: Record): Result<Task, BuildError> {
    if !HasTexts(r, SignalIdsKey) || SignalMaskKey !in r || !r[SignalMaskKey].Flags? then Err(NotAList)
    else
      var ids, mask := r[SignalIdsKey].texts, r[SignalMaskKey].flags;
      if |ids| != MAX_SIGNALS || |mask| != MAX_SIGNALS then Err(NotFixedSlots)
      else if !HasNumber(r, ActiveKKey) then Err(MissingField)
      else
        var fault := Fault(ids, mask, r[ActiveKKey].number);
        if fault.Some? then Err(BadSurface(fault.value))
        else if Embedding(r).None? || !HasText(r, RegimeIdKey) then Err(MissingField)
        else if RegimeId(r[RegimeIdKey].text).Err? then Err(RegimeId(r[RegimeIdKey].text).error)
        else if !HasText(r, RegimeClassKey) then Err(MissingField)
        else if RegimeClass(r[RegimeClassKey].text).Err? then Err(RegimeClass(r[RegimeClassKey].text).error)
        else if !(HasText(r, TaskIdKey) && HasTexts(r, SupportSetKey) && HasTexts(r, QuerySetKey)
          && HasNumber(r, HorizonKey) && HasText(r, SignalSetVersionKey))
        then Err(MissingField)
        else if Version(Some(r[SignalSetVersionKey].text)).Err? then Err(BlankVersion)
        else if !(HasText(r, SignalIdsHashKey) && HasText(r, PitBoundaryKey) && HasText(r, T0Key) && HasText(r, T1Key))
        then Err(MissingField)
        else Ok(Task(
          r[TaskIdKey].text, RegimeId(r[RegimeIdKey].text).value, RegimeClass(r[RegimeClassKey].text).value,
          Embedding(r).value, r[SupportSetKey].texts, r[QuerySetKey].texts, r[HorizonKey].number, ids, mask,
          Version(Some(r[SignalSetVersionKey].text)).value, r[SignalIdsHashKey].text, r[PitBoundaryKey].text,
          r[T0Key].text, r[T1Key].text, r[ActiveKKey].number))
  }

  /** The two lists of the surface are there. */
  ghost predicate ListsThere(r: Record) {
    SignalIdsKey in r && r[SignalIdsKey].Strs? && SignalMaskKey in r && r[SignalMaskKey].Flags?
  }

  /** Every field replay reads is there with its type; the embedding may be null or missing. */
  ghost predicate FieldsThere(r: Record) {
    && ListsThere(r)
    && (forall k :: k in {TaskIdKey, RegimeIdKey, RegimeClassKey, SignalSetVersionKey} ==> k in r && r[k].Str?)
    && (forall k :: k in {SignalIdsHashKey, PitBoundaryKey, T0Key, T1Key} ==> k in r && r[k].Str?)
    && (forall k :: k in {SupportSetKey, QuerySetKey} ==> k in r && r[k].Strs?)
    && (forall k :: k in {HorizonKey, ActiveKKey} ==> k in r && r[k].Num?)
    && (RegimeEmbeddingKey in r ==> r[RegimeEmbeddingKey].Null? || r[RegimeEmbeddingKey].Reals?)
  }

  /** Replay accepts exactly the records with all fields, sound names and a sound surface. */
  lemma ReplayAcceptsIff(r: Record)
    ensures FromRecord(r).Ok? <==>
      && FieldsThere(r)
      && WellFormed(r[SignalIdsKey].texts, r[SignalMaskKey].flags, r[ActiveKKey].number)
      && RegimeId(r[RegimeIdKey].text).Ok? && RegimeClass(r[RegimeClassKey].text).Ok?
      && Version(Some(r[SignalSetVersionKey].text)).Ok?
    ensures FromRecord(r) == Err(NotAList) <==> !ListsThere(r)
    ensures FromRecord(r) == Err(NotFixedSlots) <==>
      ListsThere(r) && !(|r[SignalIdsKey].texts| == 64 == |r[SignalMaskKey].flags|)
  {
    hide Fault, WellFormed, RegimeId, RegimeClass, Version;
    NameErrors();
    if ListsThere(r) && HasNumber(r, ActiveKKey) {
      AcceptsIff(r[SignalIdsKey].texts, r[SignalMaskKey].flags, r[ActiveKKey].number);
    }
  }

  lemma NameErrors()
    ensures forall text :: RegimeId(text).Err? ==> RegimeId(text).error in {BlankRegimeId, LongRegimeId}
    ensures forall text :: RegimeClass(text).Err? ==> RegimeClass(text).error == UnknownRegimeClass
  {
    hide Strip;
  }

  /** What replay demands of a task: a sound surface, and identity fields already in the form the validators return. */
  ghost predicate Replayable(t: Task) {
    && WellFormed(t.ids, t.mask, t.activeK)
    && RegimeId(t.regimeId) == Ok(t.regimeId)
    && RegimeClass(t.regimeClass) == Ok(t.regimeClass)
    && Version(Some(t.version)) == Ok(t.version)
  }

  /** The identity fields and the surface are stored under their keys. */
  ghost predicate StoresIdentity(r: Record, t: Task) {
    && r.Keys >= {TaskIdKey, RegimeIdKey, RegimeClassKey, SignalIdsKey, SignalMaskKey, SignalSetVersionKey,
                  SignalIdsHashKey, ActiveKKey}
    && r[TaskIdKey] == Str(t.taskId) && r[RegimeIdKey] == Str(t.regimeId) && r[RegimeClassKey] == Str(t.regimeClass)
    && r[SignalIdsKey] == Strs(t.ids) && r[SignalMaskKey] == Flags(t.mask)
    && r[SignalSetVersionKey] == Str(t.version) && r[SignalIdsHashKey] == Str(t.surfaceHash)
    && r[ActiveKKey] == Num(t.activeK)
  }

  /** So are the embedding and the temporal layout. */
  ghost predicate StoresLayout(r: Record, t: Task) {
    && r.Keys >= {SupportSetKey, QuerySetKey, HorizonKey, PitBoundaryKey, T0Key, T1Key}
    && Embedding(r) == Some(t.embedding)
    && r[SupportSetKey] == Strs(t.support) && r[QuerySetKey] == Strs(t.query) && r[HorizonKey] == Num(t.horizon)
    && r[PitBoundaryKey] == Str(t.pitBoundary) && r[T0Key] == Str(t.t0) && r[T1Key] == Str(t.t1)
  }

  /** Every record carries the version of the id's key and the description of the surface. */
  lemma RecordConstants(t: Task)
    ensures ToRecord(t).Keys >= {TaskIdHmacKeyVersionKey, SignalSurfaceKey}
    ensures ToRecord(t)[TaskIdHmacKeyVersionKey] == Str("mln01.v1.empty_key")
    ensures ToRecord(t)[SignalSurfaceKey] == Surface("fixed_slot_masked", 64, "mln04.dynamic_k.v1")
  {
  }

  lemma RecordStoresIdentity(t: Task)
    ensures StoresIdentity(ToRecord(t), t)
  {
  }

  lemma RecordStoresLayout(t: Task)
    ensures StoresLayout(ToRecord(t), t)
  {
  }

  /** A record replays to what was recorded exactly when that is replayable. */
  lemma RoundTripIff(t: Task)
    ensures FromRecord(ToRecord(t)) == Ok(t) <==> Replayable(t)
  {
    hide Fault, WellFormed, RegimeId, RegimeClass, Version, ToRecord;
    AcceptsIff(t.ids, t.mask, t.activeK);
    RecordStoresIdentity(t);
    RecordStoresLayout(t);
    VersionError(Some(t.version));
  }

  lemma VersionError(v: Option<string>)
    ensures Version(v).Err? ==> Version(v).error == BlankVersion
  {
  }

  /** Every task the builder returns is replayable, so its record always replays to it. */
  lemma BuiltTaskRoundTrips(env: Env, i: Input)
    requires Build(env, i).Ok?
    ensures FromRecord(ToRecord(Build(env, i).value)) == Ok(Build(env, i).value)
  {
    hide Fault, WellFormed, EarlierChecks, FinalChecks, Printed, ToRecord, FromRecord, Strip, ActiveCount;
    var t := Build(env, i).value;
    IdentityIff(i);
    ActiveCountIs(i.mask);
    StripTwice(i.regimeId);
    StripTwice(i.regimeClass);
    StripTwice(i.version.value);
    RoundTripIff(t);
  }

  /** Replay neither reads the recorded key version nor recomputes the id: it returns whatever id is recorded. */
  lemma ReplayTrustsTheId(r: Record, version: Field, id: string)
    ensures FromRecord(r[TaskIdHmacKeyVersionKey := version]) == FromRecord(r)
    ensures FromRecord(r).Ok? ==>
      FromRecord(r[TaskIdKey := Str(id)]) == Ok(FromRecord(r).value.(taskId := id))
  {
    hide Fault, RegimeId, RegimeClass, Version;
  }

  /** Any task that replay returns replays again to itself. */
  lemma ReplayIsIdempotent(r: Record)
    requires FromRecord(r).Ok?
    ensures FromRecord(ToRecord(FromRecord(r).value)) == FromRecord(r)
  {
    hide Fault, WellFormed, ToRecord, Strip, ActiveCount;
    var t := FromRecord(r).value;
    AcceptsIff(t.ids, t.mask, t.activeK);
    StripTwice(r[RegimeIdKey].text);
    StripTwice(r[RegimeClassKey].text);
    StripTwice(r[SignalSetVersionKey].text);
    RoundTripIff(t);
  }
}
