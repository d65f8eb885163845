/** Canonical construction of regime-episode tasks and their replay records. */
module TaskBuilder {
  import opened Common
  import opened SignalSurface

  const REGIME_CLASSES := {"bull", "bear", "sideways", "high_vol", "crisis"}
  const MAX_REGIME_ID := 512

  /** Wall-clock nanoseconds, with the offset of their zone if they have one; or text still to be parsed. */
  datatype RawTs = Naive(wall: int) | Aware(wall: int, offset: int) | Text(text: string)

  /** Parsing and printing of instants, and the two digests. */
  datatype Env = Env(
    parse: string -> Option<int>,
    iso: int -> string,
    surface: (seq<string>, seq<bool>) -> string,
    mac: string -> string)

  datatype Input = Input(
    regimeId: string, regimeClass: string, embedding: Option<seq<real>>,
    support: seq<RawTs>, query: seq<RawTs>, horizon: int,
    ids: seq<string>, mask: seq<bool>, version: Option<string>,
    t0: string, t1: string, purge: int, embargo: int, pitBoundary: Option<string>)

  datatype Task = Task(
    taskId: string, regimeId: string, regimeClass: string, embedding: Option<seq<real>>,
    support: seq<string>, query: seq<string>, horizon: int,
    ids: seq<string>, mask: seq<bool>, version: string, surfaceHash: string,
    pitBoundary: string, t0: string, t1: string, activeK: int)

  datatype BuildError =
    | BadHorizon | MaskLengthMismatch | NotFixedSlots
    | BlankRegimeId | LongRegimeId | UnknownRegimeClass | BlankVersion
    | NothingActive | BadSurface(fault: SurfaceFault)
    | BadTimestamp | EmptySet | Overlap | BoundaryMismatch | GapTooSmall | LateStart | EarlyEnd
    | SupportPastBoundary | QueryNotAfterBoundary | BlankSurfaceHash
    | MissingField | NotAList

  // ---------------------------------------------------------------------------
  // Identity fields
  // ---------------------------------------------------------------------------

  function RegimeId(raw: string): Result<string, BuildError> {
    var rid := Strip(raw);
    if rid == "" then Err(BlankRegimeId)
    else if |rid| > MAX_REGIME_ID then Err(LongRegimeId)
    else Ok(rid)
  }

  function RegimeClass(raw: string): Result<string, BuildError> {
    if Strip(raw) in REGIME_CLASSES then Ok(Strip(raw)) else Err(UnknownRegimeClass)
  }

  function Version(raw: Option<string>): Result<string, BuildError> {
    if raw == None || Strip(raw.value) == "" then Err(BlankVersion) else Ok(Strip(raw.value))
  }

  /** The first complaint about everything but the timestamps, in the order the builder looks. */
  function IdentityFault(i: Input): Option<BuildError> {
    if i.horizon < 1 then Some(BadHorizon)
    else if |i.ids| != |i.mask| then Some(MaskLengthMismatch)
    else if |i.ids| != MAX_SIGNALS || |i.mask| != MAX_SIGNALS then Some(NotFixedSlots)
    else if RegimeId(i.regimeId).Err? then Some(RegimeId(i.regimeId).error)
    else if RegimeClass(i.regimeClass).Err? then Some(RegimeClass(i.regimeClass).error)
    else if Version(i.version).Err? then Some(Version(i.version).error)
    else if ActiveCount(i.mask) < 1 then Some(NothingActive)
    else match Fault(i.ids, i.mask, ActiveCount(i.mask))
      case Some(fault) => Some(BadSurface(fault))
      case None => None
  }

  /** Sound identity fields and a sound surface with an active slot. */
  ghost predicate IdentityOk(i: Input) {
    && i.horizon >= 1
    && Visible(i.regimeId) && |Strip(i.regimeId)| <= 512
    && Strip(i.regimeClass) in {"bull", "bear", "sideways", "high_vol", "crisis"}
    && i.version.Some? && Visible(i.version.value)
    && (exists s :: 0 <= s < |i.mask| && i.mask[s])
    && WellFormed(i.ids, i.mask, |set s | 0 <= s < |i.mask| && i.mask[s]|)
  }

  lemma {:induction false} SomeActive(mask: seq<bool>)
    ensures ActiveCount(mask) >= 1 <==> exists s :: 0 <= s < |mask| && mask[s]
  {
    if mask != [] {
      var init := mask[..|mask| - 1];
      SomeActive(init);
      assert forall s :: 0 <= s < |init| ==> init[s] == mask[s];
      if s :| 0 <= s < |mask| && mask[s] {
        if s < |init| { assert init[s]; }
      }
    }
  }

  lemma IdentityIff(i: Input)
    ensures IdentityFault(i) == None <==> IdentityOk(i)
  {
    hide Fault, ActiveCount, Strip, WellFormed, Visible;
    AcceptsIff(i.ids, i.mask, ActiveCount(i.mask));
    ActiveCountIs(i.mask);
    SomeActive(i.mask);
    BlankIff(i.regimeId);
    if i.version.Some? { BlankIff(i.version.value); }
  }

  /** Which complaint comes first. */
  lemma IdentityFaultOrder(i: Input)
    ensures var fault := IdentityFault(i);
      var shaped := i.horizon >= 1 && |i.ids| == 64 == |i.mask|;
      var named := shaped && Visible(i.regimeId) && |Strip(i.regimeId)| <= 512;
      var classed := named && Strip(i.regimeClass) in {"bull", "bear", "sideways", "high_vol", "crisis"};
      var versioned := classed && i.version.Some? && Visible(i.version.value);
      && (fault == Some(BadHorizon) <==> i.horizon < 1)
      && (fault == Some(MaskLengthMismatch) <==> i.horizon >= 1 && |i.ids| != |i.mask|)
      && (fault == Some(NotFixedSlots) <==> i.horizon >= 1 && |i.ids| == |i.mask| != 64)
      && (fault == Some(BlankRegimeId) <==> shaped && !Visible(i.regimeId))
      && (fault == Some(LongRegimeId) <==> shaped && |Strip(i.regimeId)| > 512)
      && (fault == Some(UnknownRegimeClass) <==> named && !classed)
      && (fault == Some(BlankVersion) <==> classed && !versioned)
      && (fault == Some(NothingActive) <==> versioned && forall s :: 0 <= s < 64 ==> !i.mask[s])
      && (fault.Some? && fault.value.BadSurface? ==> versioned)
  {
    hide Fault, ActiveCount, Strip, Visible;
    SomeActive(i.mask);
    BlankIff(i.regimeId);
    if i.version.Some? { BlankIff(i.version.value); }
  }

  // ---------------------------------------------------------------------------
  // Instants
  // ---------------------------------------------------------------------------

  /** Nanoseconds UTC: a naive wall clock is read as UTC, an aware one is converted. */
  function Normalize(env: Env, ts: RawTs): Option<int> {
    match ts
    case Naive(wall) => Some(wall)
    case Aware(wall, offset) => Some(wall - offset)
    case Text(text) => env.parse(text)
  }

  /** A wall clock and the wall clock of another zone at the same moment name the same instant. */
  lemma ZonesAgree(env: Env, wall: int, offset: int)
    ensures Normalize(env, Aware(wall + offset, offset)) == Normalize(env, Naive(wall)) == Some(wall)
  {
  }

  predicate Parses(env: Env, raw: seq<RawTs>) {
    forall x :: x in raw ==> Normalize(env, x).Some?
  }

  /** The distinct instants; None when some text is not a timestamp. */
  function Instants(env: Env, raw: seq<RawTs>): Option<set<int>> {
    if Parses(env, raw) then Some(set x | x in raw :: Normalize(env, x).value) else None
  }

  lemma EmptyOrNot(s: set<int>)
    ensures (forall x :: x !in s) ==> s == {}
  {
    if forall x :: x !in s { assert s == {}; }
  }

  lemma {:induction false} HasLeast(s: set<int>) returns (m: int)
    requires s != {}
    ensures m in s
    ensures forall x :: x in s ==> m <= x
    decreases |s|
  {
    EmptyOrNot(s);
    var x :| x in s;
    if s == {x} {
      m := x;
    } else {
      var rest := s - {x};
      assert s == rest + {x};
      assert rest != {};
      m := HasLeast(rest);
      if x < m { m := x; }
    }
  }

  function Least(s: set<int>): (m: int)
    requires s != {}
    ensures m in s && forall x :: x in s ==> m <= x
  {
    assert exists m :: m in s && forall x :: x in s ==> m <= x by { var m := HasLeast(s); }
    var m :| m in s && forall x :: x in s ==> m <= x;
    m
  }

  /** The elements in ascending order. */
  function Ascending(s: set<int>): (r: seq<int>)
    ensures forall x :: x in r <==> x in s
    ensures forall i, j :: 0 <= i < j < |r| ==> r[i] < r[j]
    decreases |s|
  {
    if s == {} then [] else [Least(s)] + Ascending(s - {Least(s)})
  }

  function Greatest(s: set<int>): (m: int)
    requires s != {}
    ensures m in s && forall x :: x in s ==> x <= m
  {
    var r := Ascending(s);
    assert r != [] by {
      var x :| x in s;
      assert x in r;
    }
    assert r[|r| - 1] in r;
    assert forall x :: x in s ==> x <= r[|r| - 1] by {
      forall x | x in s ensures x <= r[|r| - 1] {
        assert x in r;
        var k :| 0 <= k < |r| && r[k] == x;
      }
    }
    r[|r| - 1]
  }

  function Printed(env: Env, instants: seq<int>): (r: seq<string>)
    ensures |r| == |instants| && forall k :: 0 <= k < |r| ==> r[k] == env.iso(instants[k])
  {
    seq(|instants|, k requires 0 <= k < |instants| => env.iso(instants[k]))
  }

  // ---------------------------------------------------------------------------
  // Geometry
  // ---------------------------------------------------------------------------

  datatype Geometry = Geometry(support: set<int>, query: set<int>, boundary: int, t0: int, t1: int)

  function BoundaryOf(env: Env, i: Input, maxSupport: int): Option<int> {
    match i.pitBoundary
    case None => Some(maxSupport)
    case Some(text) => env.parse(text)
  }

  /** Checks up to and including the two window bounds. */
  function EarlierChecks(env: Env, i: Input): Result<Geometry, BuildError> {
    var support, query := Instants(env, i.support), Instants(env, i.query);
    if support.None? || query.None? then Err(BadTimestamp)
    else
      var s, q := support.value, query.value;
      if s == {} || q == {} then Err(EmptySet)
      else if s * q != {} then Err(Overlap)
      else
        var boundary := BoundaryOf(env, i, Greatest(s));
        if boundary.None? then Err(BadTimestamp)
        else if boundary.value != Greatest(s) then Err(BoundaryMismatch)
        else if !(Greatest(s) + i.purge + i.embargo < Least(q)) then Err(GapTooSmall)
        else
          var t0, t1 := env.parse(i.t0), env.parse(i.t1);
          if t0.None? || t1.None? then Err(BadTimestamp)
          else if t0.value > Least(s) then Err(LateStart)
          else if t1.value < Greatest(q) then Err(EarlyEnd)
          else Ok(Geometry(s, q, boundary.value, t0.value, t1.value))
  }

  /** The per-timestamp checks that close the construction. */
  function FinalChecks(g: Geometry): Option<BuildError> {
    if exists s :: s in g.support && s > g.boundary then Some(SupportPastBoundary)
    else if exists q :: q in g.query && q <= g.boundary then Some(QueryNotAfterBoundary)
    else None
  }

  function TaskId(env: Env, regimeId: string, t0: string, t1: string, surfaceHash: string): string {
    env.mac(regimeId + t0 + t1 + surfaceHash)
  }

  function Build(env: Env, i: Input): Result<Task, BuildError> {
    match IdentityFault(i)
    case Some(fault) => Err(fault)
    case None =>
      match EarlierChecks(env, i)
      case Err(fault) => Err(fault)
      case Ok(g) =>
        var hash := env.surface(i.ids, i.mask);
        if FinalChecks(g).Some? then Err(FinalChecks(g).value)
        else if Blank(hash) then Err(BlankSurfaceHash)
        else
          var rid, t0, t1 := Strip(i.regimeId), env.iso(g.t0), env.iso(g.t1);
          Ok(Task(TaskId(env, rid, t0, t1, hash), rid, Strip(i.regimeClass), i.embedding,
            Printed(env, Ascending(g.support)), Printed(env, Ascending(g.query)), i.horizon,
            i.ids, i.mask, if i.version.Some? then Strip(i.version.value) else "", hash,
            env.iso(g.boundary), t0, t1, ActiveCount(i.mask)))
  }

  // ---------------------------------------------------------------------------
  // Order, duplicates and time zones do not matter
  // ---------------------------------------------------------------------------

  /** Both lists name the same instants, however ordered, repeated or written. */
  ghost predicate SameInstants(env: Env, a: seq<RawTs>, b: seq<RawTs>) {
    && (forall x :: x in a ==> exists y :: y in b && Normalize(env, x) == Normalize(env, y))
    && (forall y :: y in b ==> exists x :: x in a && Normalize(env, x) == Normalize(env, y))
  }

  lemma SameInstantsSameSet(env: Env, a: seq<RawTs>, b: seq<RawTs>)
    requires SameInstants(env, a, b)
    ensures Instants(env, a) == Instants(env, b)
  {
    if Parses(env, a) {
      assert Instants(env, a).value == Instants(env, b).value;
    }
  }

  lemma IdentityIgnoresTimestamps(i: Input, support: seq<RawTs>, query: seq<RawTs>)
    ensures IdentityFault(i.(support := support, query := query)) == IdentityFault(i)
  {
    hide Fault, ActiveCount, Strip;
  }

  /** Reordering, repeating or rewriting timestamps gives the same task or the same error. */
  lemma OrderAndRepeatsDoNotMatter(env: Env, i: Input, support: seq<RawTs>, query: seq<RawTs>)
    requires SameInstants(env, i.support, support) && SameInstants(env, i.query, query)
    ensures Build(env, i.(support := support, query := query)) == Build(env, i)
  {
    hide Instants, SameInstants, IdentityFault, FinalChecks, Fault, Least, Greatest;
    SameInstantsSameSet(env, i.support, support);
    SameInstantsSameSet(env, i.query, query);
    var j := i.(support := support, query := query);
    IdentityIgnoresTimestamps(i, support, query);
    assert BoundaryOf(env, j, 0) == BoundaryOf(env, i, 0);
    assert EarlierChecks(env, j) == EarlierChecks(env, i);
  }

  /** The naive timestamps as the clocks of a zone show them. */
  function InZone(raw: seq<RawTs>, offset: int): (r: seq<RawTs>)
    ensures |r| == |raw|
    ensures forall k :: 0 <= k < |raw| ==> r[k] == if raw[k].Naive? then Aware(raw[k].wall + offset, offset) else raw[k]
  {
    seq(|raw|, k requires 0 <= k < |raw| => if raw[k].Naive? then Aware(raw[k].wall + offset, offset) else raw[k])
  }

  lemma InZoneSame(env: Env, raw: seq<RawTs>, offset: int)
    ensures SameInstants(env, raw, InZone(raw, offset))
  {
    var moved := InZone(raw, offset);
    forall k | 0 <= k < |raw|
      ensures Normalize(env, raw[k]) == Normalize(env, moved[k]) && raw[k] in raw && moved[k] in moved
    {
      if raw[k].Naive? { ZonesAgree(env, raw[k].wall, offset); }
    }
  }

  /** Writing the timestamps in the clocks of other zones gives the same task or the same error. */
  lemma ZonesDoNotMatter(env: Env, i: Input, offset: int, other: int)
    ensures Build(env, i.(support := InZone(i.support, offset), query := InZone(i.query, other))) == Build(env, i)
  {
    hide Build, SameInstants;
    InZoneSame(env, i.support, offset);
    InZoneSame(env, i.query, other);
    OrderAndRepeatsDoNotMatter(env, i, InZone(i.support, offset), InZone(i.query, other));
  }

  // ---------------------------------------------------------------------------
  // What a successful construction guarantees
  // ---------------------------------------------------------------------------

  /** The temporal layout a task is for, over all instants named by the caller. */
  ghost predicate Laid(env: Env, i: Input, g: Geometry) {
    && Instants(env, i.support) == Some(g.support) && Instants(env, i.query) == Some(g.query)
    && g.boundary in g.support && g.query != {}
    && (i.pitBoundary.Some? ==> env.parse(i.pitBoundary.value) == Some(g.boundary))
    && env.parse(i.t0) == Some(g.t0) && env.parse(i.t1) == Some(g.t1)
    && (forall s :: s in g.support ==> g.t0 <= s <= g.boundary)
    && (forall q :: q in g.query ==> g.boundary < q <= g.t1 && g.boundary + i.purge + i.embargo < q)
  }

  /** The support set's last instant is the boundary named, if one is. */
  ghost predicate Bounded(env: Env, i: Input, s: set<int>) {
    i.pitBoundary.Some? ==>
      env.parse(i.pitBoundary.value).Some? && IsGreatest(s, env.parse(i.pitBoundary.value).value)
  }

  /** Every query instant is past every support instant by more than the two windows together. */
  ghost predicate Gapped(i: Input, s: set<int>, q: set<int>) {
    forall a, b :: a in s && b in q ==> a + i.purge + i.embargo < b
  }

  /** Which of the temporal complaints comes first, over the instants s and q named by the caller. */
  lemma EarlierChecksOrder(env: Env, i: Input)
    ensures var r := EarlierChecks(env, i);
      if Instants(env, i.support).None? || Instants(env, i.query).None? then r == Err(BadTimestamp)
      else
        var s, q := Instants(env, i.support).value, Instants(env, i.query).value;
        if s == {} || q == {} then r == Err(EmptySet)
        else if s * q != {} then r == Err(Overlap)
        else if i.pitBoundary.Some? && env.parse(i.pitBoundary.value).None? then r == Err(BadTimestamp)
        else if !Bounded(env, i, s) then r == Err(BoundaryMismatch)
        else if !Gapped(i, s, q) then r == Err(GapTooSmall)
        else if env.parse(i.t0).None? || env.parse(i.t1).None? then r == Err(BadTimestamp)
        else if exists a :: a in s && a < env.parse(i.t0).value then r == Err(LateStart)
        else if exists b :: b in q && b > env.parse(i.t1).value then r == Err(EarlyEnd)
        else r.Ok?
  {
    hide Instants, Least, Greatest;
  }

  ghost predicate IsGreatest(s: set<int>, m: int) {
    m in s && forall x :: x in s ==> x <= m
  }

  lemma EarlierChecksFacts(env: Env, i: Input)
    requires EarlierChecks(env, i).Ok?
    ensures var g := EarlierChecks(env, i).value;
      && Instants(env, i.support) == Some(g.support) && Instants(env, i.query) == Some(g.query)
      && g.support != {} && g.query != {} && g.support * g.query == {}
      && g.boundary == Greatest(g.support)
      && (i.pitBoundary.Some? ==> env.parse(i.pitBoundary.value) == Some(g.boundary))
      && g.boundary + i.purge + i.embargo < Least(g.query)
      && env.parse(i.t0) == Some(g.t0) && env.parse(i.t1) == Some(g.t1)
      && g.t0 <= Least(g.support) && Greatest(g.query) <= g.t1
  {
    hide Instants, Least, Greatest;
  }

  /** A support timestamp never lies past the boundary by the time it is checked for that. */
  lemma SupportCheckNeverFires(env: Env, i: Input)
    ensures Build(env, i) != Err(SupportPastBoundary)
  {
    hide Fault, Least, Greatest, Instants;
    if EarlierChecks(env, i).Ok? {
      EarlierChecksFacts(env, i);
    }
    hide EarlierChecks;
  }

  /** The query check fires exactly on inputs that pass all earlier checks with a query before the last support. */
  lemma QueryCheckFiresIff(env: Env, i: Input)
    ensures Build(env, i) == Err(QueryNotAfterBoundary) <==>
      && IdentityFault(i) == None && EarlierChecks(env, i).Ok?
      && (exists q :: q in EarlierChecks(env, i).value.query && q < Greatest(EarlierChecks(env, i).value.support))
    ensures i.purge + i.embargo >= 0 ==> Build(env, i) != Err(QueryNotAfterBoundary)
  {
    hide Fault, Least, Greatest, Instants, EarlierChecks;
    IdentityNamesNoGeometry(i);
    EarlierNamesNoFinal(env, i);
    if EarlierChecks(env, i).Ok? {
      var g := EarlierChecks(env, i).value;
      EarlierChecksFacts(env, i);
      assert g.boundary in g.support;
      forall q | q in g.query ensures q != g.boundary && q >= Least(g.query) {
        assert q !in g.support * g.query;
      }
    }
  }

  /** A surface with one active slot. */
  function OneSlot(name: string): (r: (seq<string>, seq<bool>)) {
    (seq(MAX_SIGNALS, k => if k == 0 then name else ""), seq(MAX_SIGNALS, k => k == 0))
  }

  lemma OneSlotSurface(name: string)
    requires |name| == 1 && !Space(name[0])
    ensures var (ids, mask) := OneSlot(name);
      WellFormed(ids, mask, |set s | 0 <= s < |mask| && mask[s]|) && mask[0]
  {
    var (ids, mask) := OneSlot(name);
    forall k | 0 <= k < 64 ensures SlotOk(ids, mask, k) {
      if k == 0 { assert !Space(ids[0][0]); }
    }
    assert (set s | 0 <= s < |mask| && mask[s]) == set s | 0 <= s < 64 && mask[s];
  }

  /** A bull regime "r" at version "v" on a one-slot surface is sound. */
  lemma OneSlotIdentity(i: Input, name: string)
    requires |name| == 1 && !Space(name[0]) && (i.ids, i.mask) == OneSlot(name)
    requires i.regimeId == "r" && i.regimeClass == "bull" && i.version == Some("v") && i.horizon >= 1
    ensures IdentityOk(i)
  {
    hide WellFormed, Space;
    OneSlotSurface(name);
    NoSpace();
    assert !Space(i.regimeId[0]) && !Space(i.version.value[0]);
  }

  lemma NoSpace()
    ensures !Space('r') && !Space('v') && Strip("r") == "r" && Strip("bull") == "bull"
  {
  }

  lemma OneInstant(env: Env, wall: int)
    ensures Instants(env, [Naive(wall)]) == Some({wall})
  {
    var raw := [Naive(wall)];
    assert raw[0] in raw && Normalize(env, raw[0]) == Some(wall);
    assert Parses(env, raw);
    assert Instants(env, raw).value == {wall};
  }

  /** Negative windows let a query at 5 follow a support at 10, and then the query check is the one that fires. */
  lemma NegativeWindowsReachTheQueryCheck(env: Env)
    requires env.parse("a") == Some(0) && env.parse("b") == Some(20)
    ensures Build(env, Input("r", "bull", None, [Naive(10)], [Naive(5)], 1, OneSlot("x").0, OneSlot("x").1,
        Some("v"), "a", "b", -6, 0, None)) == Err(QueryNotAfterBoundary)
  {
    hide Fault, ActiveCount, Build, IdentityOk, Strip;
    var (ids, mask) := OneSlot("x");
    var i := Input("r", "bull", None, [Naive(10)], [Naive(5)], 1, ids, mask, Some("v"), "a", "b", -6, 0, None);
    OneSlotIdentity(i, "x");
    IdentityIff(i);
    OneInstant(env, 10);
    OneInstant(env, 5);
    GreatestIs({10}, 10);
    GreatestIs({5}, 5);
    assert EarlierChecks(env, i) == Ok(Geometry({10}, {5}, 10, 0, 20));
    QueryCheckFiresIff(env, i);
    assert 5 in EarlierChecks(env, i).value.query;
  }

  lemma IdentityNamesNoGeometry(i: Input)
    ensures IdentityFault(i) != Some(QueryNotAfterBoundary)
  {
    hide Fault, ActiveCount, Strip;
  }

  lemma EarlierNamesNoFinal(env: Env, i: Input)
    ensures EarlierChecks(env, i) != Err(QueryNotAfterBoundary)
  {
    hide Least, Greatest, Instants;
  }

  /** The builder accepts exactly when the identity fields are sound and some layout fits. */
  lemma BuildAcceptsIff(env: Env, i: Input)
    requires !Blank(env.surface(i.ids, i.mask))
    ensures Build(env, i).Ok? <==> IdentityOk(i) && exists g :: Laid(env, i, g)
  {
    hide Fault, Least, Greatest, Instants, EarlierChecks, IdentityFault, IdentityOk, Blank, Laid;
    IdentityIff(i);
    if EarlierChecks(env, i).Ok? && FinalChecks(EarlierChecks(env, i).value) == None {
      CheckedIsLaid(env, i);
    }
    if g :| Laid(env, i, g) {
      LaidIsChecked(env, i, g);
    }
  }

  lemma CheckedIsLaid(env: Env, i: Input)
    requires EarlierChecks(env, i).Ok? && FinalChecks(EarlierChecks(env, i).value) == None
    ensures Laid(env, i, EarlierChecks(env, i).value)
  {
    hide Least, Greatest, Instants, EarlierChecks;
    EarlierChecksFacts(env, i);
  }

  lemma GreatestIs(s: set<int>, m: int)
    requires m in s && forall x :: x in s ==> x <= m
    ensures s != {} && Greatest(s) == m
  {
  }

  lemma LaidIsChecked(env: Env, i: Input, g: Geometry)
    requires Laid(env, i, g)
    ensures EarlierChecks(env, i) == Ok(g) && FinalChecks(g) == None
  {
    hide Least, Greatest, Instants;
    GreatestIs(g.support, g.boundary);
    assert g.support * g.query == {} by {
      forall x | x in g.support * g.query ensures false { }
    }
  }

  /**
   * In a built task all support is at or before the boundary, all query after it and past the gap, inside [t0, t1];
   * its other fields are the caller's, stripped where they are names.
   */
  lemma BuiltTaskIsLaidOut(env: Env, i: Input) returns (g: Geometry)
    requires Build(env, i).Ok?
    ensures Laid(env, i, g)
    ensures var t := Build(env, i).value;
      && t.support == Printed(env, Ascending(g.support)) && t.query == Printed(env, Ascending(g.query))
      && t.pitBoundary == env.iso(g.boundary) == t.support[|t.support| - 1]
      && t.t0 == env.iso(g.t0) && t.t1 == env.iso(g.t1)
      && t.horizon == i.horizon >= 1 && t.embedding == i.embedding && t.ids == i.ids && t.mask == i.mask
      && t.regimeId == Strip(i.regimeId) && t.regimeClass == Strip(i.regimeClass)
      && i.version.Some? && t.version == Strip(i.version.value)
      && t.surfaceHash == env.surface(i.ids, i.mask)
      && t.activeK == |set s | 0 <= s < |i.mask| && i.mask[s]|
      && t.taskId == env.mac(t.regimeId + t.t0 + t.t1 + t.surfaceHash)
  {
    IdentityIff(i);
    ActiveCountIs(i.mask);
    hide Fault, Least, Instants, EarlierChecks, IdentityFault, Strip, ActiveCount, Visible, WellFormed;
    g := EarlierChecks(env, i).value;
    CheckedIsLaid(env, i);
    GreatestIs(g.support, g.boundary);
    assert g.boundary in Ascending(g.support);
  }

  // ---------------------------------------------------------------------------
  // Task identity
  // ---------------------------------------------------------------------------

  /** What the id of a task with these bounds is the digest of. */
  function Message(env: Env, i: Input, t0: int, t1: int): string {
    Strip(i.regimeId) + env.iso(t0) + env.iso(t1) + env.surface(i.ids, i.mask)
  }

  /** Distinct instants among these print differently, and none prints as a proper tail of another. */
  ghost predicate PrintsApart(env: Env, instants: set<int>) {
    && (forall s, t :: s in instants && t in instants && env.iso(s) == env.iso(t) ==> s == t)
    && (forall s, t, p :: s in instants && t in instants && p + env.iso(s) == env.iso(t) ==> p == "")
  }

  /** The digests of these two inputs do not collide: surface digests of one length, and the ids' messages. */
  ghost predicate NoCollision(env: Env, i: Input, j: Input, i0: int, i1: int, j0: int, j1: int) {
    && |env.surface(i.ids, i.mask)| == |env.surface(j.ids, j.mask)|
    && (env.surface(i.ids, i.mask) == env.surface(j.ids, j.mask) ==> i.ids == j.ids && i.mask == j.mask)
    && (env.mac(Message(env, i, i0, i1)) == env.mac(Message(env, j, j0, j1)) ==>
          Message(env, i, i0, i1) == Message(env, j, j0, j1))
  }

  lemma SameLengthTails(a: string, x: string, b: string, y: string)
    requires a + x == b + y && |x| == |y|
    ensures a == b && x == y
  {
    assert |a| == |b|;
    assert a == (a + x)[..|a|] && b == (b + y)[..|b|];
    assert x == (a + x)[|a|..] && y == (b + y)[|b|..];
  }

  lemma LongerTail(a: string, x: string, b: string, y: string)
    requires a + x == b + y && |x| <= |y|
    ensures y == y[..|y| - |x|] + x
  {
    var p := y[..|y| - |x|];
    assert y == p + y[|y| - |x|..];
    assert a + x == (b + p) + y[|y| - |x|..];
    SameLengthTails(a, x, b + p, y[|y| - |x|..]);
  }

  lemma PrintedSameLength(env: Env, a: string, s: int, b: string, t: int)
    requires PrintsApart(env, {s, t}) && a + env.iso(s) == b + env.iso(t) && |env.iso(s)| <= |env.iso(t)|
    ensures |env.iso(s)| == |env.iso(t)|
  {
    var x, y := env.iso(s), env.iso(t);
    LongerTail(a, x, b, y);
    assert y[..|y| - |x|] == "";
  }

  /** A message ending in a printed instant splits in one way. */
  lemma PrintedTail(env: Env, a: string, s: int, b: string, t: int)
    requires PrintsApart(env, {s, t}) && a + env.iso(s) == b + env.iso(t)
    ensures a == b && s == t
  {
    if |env.iso(s)| <= |env.iso(t)| {
      PrintedSameLength(env, a, s, b, t);
    } else {
      assert {s, t} == {t, s};
      PrintedSameLength(env, b, t, a, s);
    }
    SameLengthTails(a, env.iso(s), b, env.iso(t));
  }

  lemma SameMessage(env: Env, i: Input, j: Input, i0: int, i1: int, j0: int, j1: int)
    requires PrintsApart(env, {i0, j0}) && PrintsApart(env, {i1, j1}) && NoCollision(env, i, j, i0, i1, j0, j1)
    ensures env.mac(Message(env, i, i0, i1)) == env.mac(Message(env, j, j0, j1)) <==>
      Strip(i.regimeId) == Strip(j.regimeId) && i0 == j0 && i1 == j1 && i.ids == j.ids && i.mask == j.mask
  {
    hide Strip, PrintsApart;
    var a, b := Strip(i.regimeId), Strip(j.regimeId);
    if env.mac(Message(env, i, i0, i1)) == env.mac(Message(env, j, j0, j1)) {
      SameLengthTails(a + env.iso(i0) + env.iso(i1), env.surface(i.ids, i.mask),
                      b + env.iso(j0) + env.iso(j1), env.surface(j.ids, j.mask));
      PrintedTail(env, a + env.iso(i0), i1, b + env.iso(j0), j1);
      PrintedTail(env, a, i0, b, j0);
    }
  }

  lemma BuiltTaskId(env: Env, i: Input) returns (t0: int, t1: int)
    requires Build(env, i).Ok?
    ensures env.parse(i.t0) == Some(t0) && env.parse(i.t1) == Some(t1)
    ensures Build(env, i).value.taskId == env.mac(Message(env, i, t0, t1))
  {
    hide Strip, Fault, Instants, IdentityFault, EarlierChecks, FinalChecks, Printed, ActiveCount;
    var g := EarlierChecks(env, i).value;
    EarlierChecksFacts(env, i);
    t0, t1 := g.t0, g.t1;
  }

  /**
   * Two built tasks whose digests do not collide share an id exactly when they agree on the stripped regime id,
   * the two window bounds and the signal surface: although the message has no separators, no two such
   * combinations run together.
   */
  lemma SameIdIff(env: Env, i: Input, j: Input, i0: int, i1: int, j0: int, j1: int)
    requires Build(env, i).Ok? && env.parse(i.t0) == Some(i0) && env.parse(i.t1) == Some(i1)
    requires Build(env, j).Ok? && env.parse(j.t0) == Some(j0) && env.parse(j.t1) == Some(j1)
    requires PrintsApart(env, {i0, j0}) && PrintsApart(env, {i1, j1}) && NoCollision(env, i, j, i0, i1, j0, j1)
    ensures Build(env, i).value.taskId == Build(env, j).value.taskId <==>
      && Strip(i.regimeId) == Strip(j.regimeId)
      && i0 == j0 && i1 == j1
      && i.ids == j.ids && i.mask == j.mask
  {
    hide Strip, PrintsApart, NoCollision, Build, Message;
    var a0, a1 := BuiltTaskId(env, i);
    var b0, b1 := BuiltTaskId(env, j);
    SameMessage(env, i, j, i0, i1, j0, j1);
  }

  // ---------------------------------------------------------------------------
  // A concrete environment
  // ---------------------------------------------------------------------------

  /** Two instants, digests that tell signal names "x" and "y" apart, and an id that is its message. */
  const TOY := Env(
    (text: string) => if text == "a" then Some(0) else if text == "b" then Some(20) else None,
    (t: int) => if t == 0 then "a" else "b",
    (ids: seq<string>, mask: seq<bool>) => if ids != [] && ids[0] == "x" then "x" else "y",
    (message: string) => message)

  function ToyInput(name: string): Input {
    Input("r", "bull", None, [Naive(5)], [Naive(10)], 1, OneSlot(name).0, OneSlot(name).1, Some("v"), "a", "b", 1, 1, None)
  }

  lemma ToyBuilds(name: string)
    requires name == "x" || name == "y"
    ensures Build(TOY, ToyInput(name)).Ok?
  {
    hide Fault, ActiveCount, Build, Instants, IdentityOk;
    var i := ToyInput(name);
    assert Strip("x") == "x" && Strip("y") == "y";
    hide Strip;
    OneSlotIdentity(i, name);
    OneInstant(TOY, 5);
    OneInstant(TOY, 10);
    assert Laid(TOY, i, Geometry({5}, {10}, 5, 0, 20));
    BuildAcceptsIff(TOY, i);
  }

  /** What SameIdIff asks is met by two tasks that differ in their signal and so in their ids. */
  lemma DistinctIdsExist()
    ensures var i, j := ToyInput("x"), ToyInput("y");
      && Build(TOY, i).Ok? && Build(TOY, j).Ok?
      && PrintsApart(TOY, {0, 0}) && PrintsApart(TOY, {20, 20}) && NoCollision(TOY, i, j, 0, 20, 0, 20)
      && Build(TOY, i).value.taskId != Build(TOY, j).value.taskId
  {
    hide Build, Strip;
    var i, j := ToyInput("x"), ToyInput("y");
    ToyBuilds("x");
    ToyBuilds("y");
    assert i.ids[0] == "x" && j.ids[0] == "y";
    forall p | p + "a" == "a" ensures p == "" { assert |p + "a"| == |p| + 1; }
    forall p | p + "b" == "b" ensures p == "" { assert |p + "b"| == |p| + 1; }
    SameIdIff(TOY, i, j, 0, 20, 0, 20);
  }
}
