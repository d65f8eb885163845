/** The stateful regime service over arrays: initialise, update, snapshot and restore. */
module BocpdService {
  import opened Common
  import opened RealSeq
  import opened Nig
  import opened RegimeConfig
  import opened Bocpd
  import opened BocpdRuns
  import opened RegimeLabels

  datatype SufficientStats = SufficientStats(
    mu: array<real>, kappa: array<real>, alpha: array<real>, beta: array<real>)
  {
    ghost predicate Aligned() {
      mu.Length == kappa.Length == alpha.Length == beta.Length
    }

    ghost function Arrays(): set<object> {
      {mu, kappa, alpha, beta}
    }

    ghost function Contents(): (seq<real>, seq<real>, seq<real>, seq<real>)
      reads mu, kappa, alpha, beta
    {
      (mu[..], kappa[..], alpha[..], beta[..])
    }

    ghost function Bins(): seq<Params>
      requires Aligned()
      reads mu, kappa, alpha, beta
    {
      Zip(mu[..], kappa[..], alpha[..], beta[..])
    }
  }

  ghost function StateOf(mass: array<real>, stats: SufficientStats): State
    requires stats.Aligned()
    reads mass, stats.Arrays()
  {
    State(mass[..], stats.Bins())
  }

  method FromSeq(s: seq<real>) returns (a: array<real>)
    ensures fresh(a) && a[..] == s
  {
    a := new real[|s|](i requires 0 <= i < |s| => s[i]);
  }

  method CopyStats(stats: SufficientStats) returns (r: SufficientStats)
    ensures fresh(r.Arrays()) && r.Contents() == stats.Contents()
    ensures stats.Aligned() ==> r.Aligned() && r.Bins() == stats.Bins()
  {
    var mu := FromSeq(stats.mu[..]);
    var kappa := FromSeq(stats.kappa[..]);
    var alpha := FromSeq(stats.alpha[..]);
    var beta := FromSeq(stats.beta[..]);
    r := SufficientStats(mu, kappa, alpha, beta);
  }

  // ---------------------------------------------------------------------------
  // One update over arrays
  // ---------------------------------------------------------------------------

  /** Bin 0 starts from the prior; every older bin is shifted by one and updated. */
  method ExtendStats(prior: Prior, stats: SufficientStats, x: real) returns (r: SufficientStats)
    requires stats.Aligned()
    requires prior.kappa0 + 1.0 != 0.0
    requires forall i :: 0 <= i < stats.kappa.Length ==> stats.kappa[i] + 1.0 != 0.0
    ensures r.Aligned() && fresh(r.Arrays())
    ensures r.Bins() == ExtendBins(prior, stats.Bins(), x)
  {
    hide UpdateObs;
    var n := stats.mu.Length;
    ghost var expected := ExtendBins(prior, stats.Bins(), x);
    var mu, kappa, alpha, beta := new real[n + 1], new real[n + 1], new real[n + 1], new real[n + 1];
    var first := UpdateObs(Start(prior), x);
    mu[0], kappa[0], alpha[0], beta[0] := first.mu, first.kappa, first.alpha, first.beta;
    for i := 0 to n
      invariant forall j :: 0 <= j <= i ==> Params(mu[j], kappa[j], alpha[j], beta[j]) == expected[j]
    {
      var next := UpdateObs(Params(stats.mu[i], stats.kappa[i], stats.alpha[i], stats.beta[i]), x);
      assert next == expected[i + 1];
      mu[i + 1], kappa[i + 1], alpha[i + 1], beta[i + 1] := next.mu, next.kappa, next.alpha, next.beta;
    }
    r := SufficientStats(mu, kappa, alpha, beta);
    assert r.Bins() == expected;
  }

  /** Fold the excess mass into the last bin and merge the truncated posteriors there. */
  method TruncateRunLengthMass(mass: array<real>, stats: SufficientStats, prior: Prior, limit: int)
    returns (newMass: array<real>, newStats: SufficientStats)
    requires stats.Aligned() && mass.Length == stats.mu.Length
    requires limit >= 1 && prior.kappa0 > 0.0
    ensures newStats.Aligned()
    ensures mass.Length <= limit ==> newMass == mass && newStats == stats
    ensures mass.Length > limit ==> fresh(newMass) && fresh(newStats.Arrays())
    ensures StateOf(newMass, newStats)
         == State(TruncateMass(mass[..], limit), TruncateBins(stats.Bins(), prior, limit))
  {
    hide FromSums, ToSums;
    if mass.Length <= limit {
      return mass, stats;
    }
    var cut := limit - 1;
    newMass := FromSeq(mass[..cut] + [Sum(mass[cut..])]);
    var merged := MergeTail(stats.mu[cut..], stats.kappa[cut..], stats.alpha[cut..], stats.beta[cut..], prior);
    var mu := FromSeq(stats.mu[..cut] + [merged.mu]);
    var kappa := FromSeq(stats.kappa[..cut] + [merged.kappa]);
    var alpha := FromSeq(stats.alpha[..cut] + [merged.alpha]);
    var beta := FromSeq(stats.beta[..cut] + [merged.beta]);
    newStats := SufficientStats(mu, kappa, alpha, beta);
    assert stats.Bins()[cut..] == Zip(stats.mu[cut..], stats.kappa[cut..], stats.alpha[cut..], stats.beta[cut..]);
    assert newStats.Bins() == stats.Bins()[..cut] + [merged];
  }

  method BocpdUpdate(x: real, mass: array<real>, stats: SufficientStats, cfg: Config, d: Density, prior: Prior)
    returns (newMass: array<real>, newStats: SufficientStats, changeProbability: real)
    requires stats.Aligned() && cfg.Valid() && PositiveDensity(d)
    requires Healthy(prior, StateOf(mass, stats))
    ensures newStats.Aligned() && fresh(newMass) && fresh(newStats.Arrays())
    ensures StateOf(newMass, newStats) == Step(cfg, d, prior, StateOf(mass, stats), x)
    ensures newMass.Length > 0 && Sum(newMass[..]) == 1.0
    ensures changeProbability == ChangeProbability(newMass[..])
  {
    hide Predictive, Times, UpdateObs, FromSums, Share;
    ghost var st := StateOf(mass, stats);
    assert forall i :: 0 <= i < mass.Length ==>
      st.bins[i] == Params(stats.mu[i], stats.kappa[i], stats.alpha[i], stats.beta[i]);
    var growth := new real[mass.Length];
    for i := 0 to mass.Length
      invariant forall j :: 0 <= j < i ==>
        growth[j] == Times(GrowthWeight(cfg, d, x, st.bins[j]), st.mass[j])
    {
      var p := Params(stats.mu[i], stats.kappa[i], stats.alpha[i], stats.beta[i]);
      growth[i] := Times(GrowthWeight(cfg, d, x, p), mass[i]);
    }
    var joint := [Times(ChangeWeight(cfg, d, prior, x), Sum(mass[..]))] + growth[..];
    assert joint == Joint(cfg, d, prior, st, x);
    JointPositive(cfg, d, prior, st, x);
    StepConservesMass(cfg, d, prior, st, x);
    var normalized := FromSeq(Normalize(joint));
    var extended := ExtendStats(prior, stats, x);
    newMass, newStats := TruncateRunLengthMass(normalized, extended, prior, cfg.maxRunLength);
    assert newMass[..] == Step(cfg, d, prior, st, x).mass;
    changeProbability := ChangeProbability(newMass[..]);
  }

  // ---------------------------------------------------------------------------
  // Labels of one update
  // ---------------------------------------------------------------------------

  datatype BocpdState = Stable | Transition | Cp
  datatype Boundary = ColdStart | ChangePoint | InTransition | IsStable

  datatype Label = Label(
    trend: Trend, vol: Vol, bocpd: BocpdState, severity: bool,
    changeProbability: real, transitionProbability: real, boundary: Boundary, coldStart: bool)

  function StateFromProbs(cp: real, transition: real, cfg: Config): BocpdState {
    if cp >= cfg.cpThreshold then Cp
    else if transition >= cfg.transitionThreshold then Transition
    else Stable
  }

  function BoundaryOf(cp: real, transition: real, cfg: Config, pit: int): Boundary {
    if pit < cfg.coldStartBurnIn then ColdStart
    else if cp >= cfg.cpThreshold then ChangePoint
    else if transition >= cfg.transitionThreshold then InTransition
    else IsStable
  }

  /** The record of one update; the labels are computed in this order and the first error escapes. */
  function MakeLabel(cfg: Config, log1p: real -> real, mass: seq<real>, pit: int,
                     rvHistory: seq<real>, returnsHistory: seq<real>): Result<Label, LabelError>
    requires cfg.Valid() && mass != [] && Sum(mass) != 0.0
  {
    var cp := ChangeProbability(mass);
    var transition := TransitionMass(mass, cfg.transitionMaxRl);
    var trend := ComputeTrend(cfg, log1p, returnsHistory, pit);
    match ComputeVol(cfg, rvHistory, pit)
    case Err(e) => Err(e)
    case Ok(vol) =>
      match ComputeSeverity(cfg, rvHistory, pit)
      case Err(e) => Err(e)
      case Ok(severity) =>
        Ok(Label(trend, vol, StateFromProbs(cp, transition, cfg), severity, cp, transition,
                 BoundaryOf(cp, transition, cfg, pit), pit < cfg.coldStartBurnIn))
  }

  /** What a label says of the masses, with the mass at 0 and the mass at run lengths 0..transition_max_rl as shares. */
  ghost predicate ReadsOff(l: Label, cfg: Config, mass: seq<real>, pit: int)
    requires cfg.Valid() && Sum(mass) != 0.0
  {
    var recent := mass[..Min(cfg.transitionMaxRl + 1, |mass|)];
    && mass != []
    && l.changeProbability == mass[0] / Sum(mass)
    && l.transitionProbability == Sum(recent) / Sum(mass)
    && (l.bocpd == Cp <==> mass[0] / Sum(mass) >= cfg.cpThreshold)
    && (l.bocpd == Transition <==>
          mass[0] / Sum(mass) < cfg.cpThreshold && Sum(recent) / Sum(mass) >= cfg.transitionThreshold)
    && (l.bocpd == Stable <==>
          mass[0] / Sum(mass) < cfg.cpThreshold && Sum(recent) / Sum(mass) < cfg.transitionThreshold)
    && l.coldStart == (pit < cfg.coldStartBurnIn)
    && (l.boundary == ColdStart <==> pit < cfg.coldStartBurnIn)
    && (l.boundary == ChangePoint <==> pit >= cfg.coldStartBurnIn && l.bocpd == Cp)
    && (l.boundary == InTransition <==> pit >= cfg.coldStartBurnIn && l.bocpd == Transition)
    && (l.boundary == IsStable <==> pit >= cfg.coldStartBurnIn && l.bocpd == Stable)
  }

  /** The label of masses: which state, which flag, and the three labels of the histories. */
  lemma LabelMeaning(cfg: Config, log1p: real -> real, mass: seq<real>, pit: int, rv: seq<real>, ret: seq<real>)
    requires cfg.Valid() && mass != [] && Sum(mass) != 0.0
    ensures var made := MakeLabel(cfg, log1p, mass, pit, rv, ret);
      && (made.Ok? ==>
            && ReadsOff(made.value, cfg, mass, pit)
            && made.value.trend == ComputeTrend(cfg, log1p, ret, pit)
            && ComputeVol(cfg, rv, pit) == Ok(made.value.vol)
            && ComputeSeverity(cfg, rv, pit) == Ok(made.value.severity))
      && (made.Err? ==>
            made.error == if ComputeVol(cfg, rv, pit).Err? then IndexError else DataPrecondition)
  {
    hide ComputeTrend, Percentile, Sum, ComputeVol, ComputeSeverity, ChangeProbability, TransitionMass, ReadsOff;
    VolErrs(cfg, rv, pit);
    SeverityCounts(cfg, rv, pit);
    var made := MakeLabel(cfg, log1p, mass, pit, rv, ret);
    if made.Ok? { SharesReadOff(made.value, cfg, mass, pit); }
  }

  lemma SharesReadOff(l: Label, cfg: Config, mass: seq<real>, pit: int)
    requires cfg.Valid() && mass != [] && Sum(mass) != 0.0
    requires l.changeProbability == ChangeProbability(mass)
    requires l.transitionProbability == TransitionMass(mass, cfg.transitionMaxRl)
    requires l.bocpd == StateFromProbs(l.changeProbability, l.transitionProbability, cfg)
    requires l.boundary == BoundaryOf(l.changeProbability, l.transitionProbability, cfg, pit)
    requires l.coldStart == (pit < cfg.coldStartBurnIn)
    ensures ReadsOff(l, cfg, mass, pit)
  {
    hide Sum;
    var hi := Min(cfg.transitionMaxRl, |mass| - 1);
    assert hi + 1 == Min(cfg.transitionMaxRl + 1, |mass|);
    assert l.changeProbability == mass[0] / Sum(mass);
    assert l.transitionProbability == Sum(mass[..hi + 1]) / Sum(mass);
    hide Share;
  }

  lemma VolErrs(cfg: Config, rv: seq<real>, pit: int)
    requires cfg.Valid()
    ensures ComputeVol(cfg, rv, pit).Err? ==> ComputeVol(cfg, rv, pit) == Err(IndexError)
  {
    hide Percentile;
  }

  /** A label never depends on history after the boundary; only which error a negative index gives can. */
  lemma LabelNoLookahead(cfg: Config, log1p: real -> real, mass: seq<real>, pit: int,
                         rv1: seq<real>, rv2: seq<real>, ret1: seq<real>, ret2: seq<real>)
    requires cfg.Valid() && mass != [] && Sum(mass) != 0.0
    requires UpTo(rv1, pit) == UpTo(rv2, pit) && UpTo(ret1, pit) == UpTo(ret2, pit)
    ensures var l1, l2 := MakeLabel(cfg, log1p, mass, pit, rv1, ret1), MakeLabel(cfg, log1p, mass, pit, rv2, ret2);
      (l1.Ok? || l2.Ok? || pit >= -1) ==> l1 == l2
  {
    hide ChangeProbability, TransitionMass, ComputeTrend, ComputeVol, ComputeSeverity, Sum, UpTo;
    NoLookahead(cfg, log1p, rv1, rv2, pit);
    NoLookahead(cfg, log1p, ret1, ret2, pit);
    BadBoundaryHasNoLabel(cfg, log1p, mass, pit, rv1, ret1);
    BadBoundaryHasNoLabel(cfg, log1p, mass, pit, rv2, ret2);
  }

  lemma BadBoundaryHasNoLabel(cfg: Config, log1p: real -> real, mass: seq<real>, pit: int,
                              rv: seq<real>, ret: seq<real>)
    requires cfg.Valid() && mass != [] && Sum(mass) != 0.0
    ensures MakeLabel(cfg, log1p, mass, pit, rv, ret).Err? <==> !(0 <= pit < |rv|)
  {
    hide ChangeProbability, TransitionMass, ComputeTrend, Percentile, Sum;
  }

  // ---------------------------------------------------------------------------
  // The service
  // ---------------------------------------------------------------------------

  /** The data-dependent prior estimated from the burn-in slice. */
  function EstimatePrior(cfg: Config, history: seq<real>): (prior: Prior)
    requires cfg.Valid() && history != []
    ensures Proper(Start(prior))
  {
    var burn := Min(|history|, Max(1, cfg.coldStartBurnIn));
    var slice := history[..burn];
    var mu0 := if cfg.priorMu0.Some? then cfg.priorMu0.value else Mean(slice);
    var beta0 :=
      if cfg.priorBeta0.Some? then cfg.priorBeta0.value
      else
        var b := Variance(slice) * (cfg.priorAlpha0 - 1.0);
        if b >= 0.00000001 then b else 0.00000001;
    Prior(mu0, cfg.priorKappa0, cfg.priorAlpha0, beta0)
  }

  /**
   * The prior read off the sums of the burn-in slice: what is configured as configured; otherwise the mean, and
   * alpha0 - 1 times the mean of squares less the square of the mean, but at least 1e-8.
   */
  lemma PriorIsEstimated(cfg: Config, history: seq<real>)
    requires cfg.Valid() && history != []
    ensures var n := Min(Max(1, cfg.coldStartBurnIn), |history|);
      var sum, sumSq := Sum(history[..n]), SumSquares(history[..n]);
      var spread := (sumSq / n as real - sum / n as real * (sum / n as real)) * (cfg.priorAlpha0 - 1.0);
      var prior := EstimatePrior(cfg, history);
      && prior.mu0 == (if cfg.priorMu0.Some? then cfg.priorMu0.value else sum / n as real)
      && prior.beta0 == (if cfg.priorBeta0.Some? then cfg.priorBeta0.value
                         else if spread < 0.00000001 then 0.00000001
                         else spread)
      && prior.kappa0 == cfg.priorKappa0
      && prior.alpha0 == cfg.priorAlpha0
  {
    hide Sum, SumSquares, Variance;
    var n := Min(Max(1, cfg.coldStartBurnIn), |history|);
    OnePassIsVariance(history[..n]);
  }

  datatype ServiceSnapshot = ServiceSnapshot(
    mass: array<real>, stats: SufficientStats, observationCount: nat, configHash: string, prior: Prior)

  datatype ServiceError = NotInitialized | EmptyHistory | HashMismatch | LabelFailed(cause: LabelError)

  /** One call's worth of input. */
  datatype Tick = Tick(logRv: real, pit: int, rvHistory: seq<real>, returnsHistory: seq<real>)

  function Values(ticks: seq<Tick>): (xs: seq<real>)
    ensures |xs| == |ticks|
    ensures forall i :: 0 <= i < |ticks| ==> xs[i] == ticks[i].logRv
  {
    seq(|ticks|, i requires 0 <= i < |ticks| => ticks[i].logRv)
  }

  class BOCPDRegimeService {
    const config: Config
    const density: Density
    const log1p: real -> real
    const contentHash: Config -> string
    var prior: Option<Prior>
    var mass: Option<array<real>>
    var stats: Option<SufficientStats>
    var obsCount: nat

    ghost function Arrays(): set<object>
      reads this
    {
      (if mass.Some? then {mass.value as object} else {}) + (if stats.Some? then stats.value.Arrays() else {})
    }

    ghost predicate Ready()
      reads this
    {
      prior.Some? && mass.Some? && stats.Some? && stats.value.Aligned()
    }

    ghost function CurrentState(): State
      requires Ready()
      reads this, Arrays()
    {
      StateOf(mass.value, stats.value)
    }

    ghost predicate Valid()
      reads this, Arrays()
    {
      && config.Valid() && PositiveDensity(density)
      && (prior.Some? <==> Ready())
      && (mass.Some? <==> Ready()) && (stats.Some? <==> Ready())
      && (Ready() ==> Reachable(prior.value, CurrentState()))
    }

    constructor (config: Config, density: Density, log1p: real -> real, contentHash: Config -> string)
      requires config.Valid() && PositiveDensity(density)
      ensures Valid() && !Ready() && obsCount == 0
      ensures this.config == config && this.density == density
      ensures this.log1p == log1p && this.contentHash == contentHash
    {
      this.config, this.density, this.log1p, this.contentHash := config, density, log1p, contentHash;
      prior, mass, stats, obsCount := None, None, None, 0;
    }

    /** Estimate the prior; the stream itself starts empty. */
    method Initialize(history: seq<real>) returns (r: Result<(), ServiceError>)
      requires Valid()
      modifies this
      ensures Valid()
      ensures history == [] ==> r == Err(EmptyHistory) && unchanged(this)
      ensures history != [] ==>
        && r == Ok(()) && Ready() && obsCount == 0
        && prior.value == EstimatePrior(config, history)
        && CurrentState() == Run(config, density, prior.value, [])
        && fresh(Arrays())
    {
      if history == [] {
        return Err(EmptyHistory);
      }
      var p := EstimatePrior(config, history);
      var m := FromSeq([1.0]);
      var mu := FromSeq([p.mu0]);
      var kappa := FromSeq([p.kappa0]);
      var alpha := FromSeq([p.alpha0]);
      var beta := FromSeq([p.beta0]);
      prior, mass, stats, obsCount := Some(p), Some(m), Some(SufficientStats(mu, kappa, alpha, beta)), 0;
      assert CurrentState() == Initial(p);
      RunIsContinue(config, density, p, []);
      r := Ok(());
    }

    /**
     * One observation. The filter state advances before the labels are computed, so a call whose
     * boundary index is out of range fails but still counts its observation.
     */
    method Update(t: Tick) returns (r: Result<Label, ServiceError>)
      requires Valid()
      modifies this
      ensures Valid() && prior == old(prior)
      ensures !old(Ready()) ==> r == Err(NotInitialized) && unchanged(this)
      ensures old(Ready()) ==>
        && Ready() && fresh(Arrays())
        && Healthy(prior.value, old(CurrentState()))
        && CurrentState() == Step(config, density, prior.value, old(CurrentState()), t.logRv)
        && obsCount == old(obsCount) + 1
        && CurrentState().mass != [] && Sum(CurrentState().mass) == 1.0
        && r == (match MakeLabel(config, log1p, CurrentState().mass, t.pit, t.rvHistory, t.returnsHistory)
                 case Ok(made) => Ok(made)
                 case Err(e) => Err(LabelFailed(e)))
        && (r.Ok? <==> 0 <= t.pit < |t.rvHistory|)
        && (r.Ok? ==> ReadsOff(r.value, config, CurrentState().mass, t.pit))
    {
      hide Step, MakeLabel, ReadsOff;
      if prior.None? || mass.None? || stats.None? {
        return Err(NotInitialized);
      }
      StepReachable(config, density, prior.value, CurrentState(), t.logRv);
      var m, s, cp := BocpdUpdate(t.logRv, mass.value, stats.value, config, density, prior.value);
      mass, stats, obsCount := Some(m), Some(s), obsCount + 1;
      LabelMeaning(config, log1p, m[..], t.pit, t.rvHistory, t.returnsHistory);
      BadBoundaryHasNoLabel(config, log1p, m[..], t.pit, t.rvHistory, t.returnsHistory);
      match MakeLabel(config, log1p, m[..], t.pit, t.rvHistory, t.returnsHistory) {
        case Ok(made) => r := Ok(made);
        case Err(e) => r := Err(LabelFailed(e));
      }
    }

    /** Feed a whole stream, as a caller does. */
    method Feed(ticks: seq<Tick>)
      requires Valid() && Ready()
      modifies this
      ensures Valid() && Ready() && prior == old(prior)
      ensures fresh(Arrays()) || ticks == []
      ensures CurrentState() == Continue(config, density, prior.value, old(CurrentState()), Values(ticks))
      ensures obsCount == old(obsCount) + |ticks|
    {
      hide Step, MakeLabel;
      ghost var st := CurrentState();
      ghost var xs := Values(ticks);
      assert xs[..0] == [];
      for i := 0 to |ticks|
        invariant Valid() && Ready() && prior == old(prior)
        invariant i > 0 ==> fresh(Arrays())
        invariant i == 0 ==> unchanged(this)
        invariant CurrentState() == Continue(config, density, prior.value, st, xs[..i])
        invariant obsCount == old(obsCount) + i
      {
        ghost var before := CurrentState();
        var _ := Update(ticks[i]);
        assert xs[..i + 1] == xs[..i] + [xs[i]];
        assert [xs[i]][1..] == [];
        ContinueSplit(config, density, prior.value, st, xs[..i], [xs[i]]);
      }
      assert xs[..|ticks|] == xs;
    }

    /** A copy of everything needed to go on. */
    method Snapshot() returns (r: Result<ServiceSnapshot, ServiceError>)
      requires Valid()
      ensures !Ready() ==> r == Err(NotInitialized)
      ensures Ready() ==> r.Ok? && var s := r.value;
        && s.stats.Aligned() && fresh(s.mass) && fresh(s.stats.Arrays())
        && StateOf(s.mass, s.stats) == CurrentState()
        && s.observationCount == obsCount
        && s.configHash == contentHash(config)
        && s.prior == prior.value
    {
      if prior.None? || mass.None? || stats.None? {
        return Err(NotInitialized);
      }
      var m := FromSeq(mass.value[..]);
      var s := CopyStats(stats.value);
      r := Ok(ServiceSnapshot(m, s, obsCount, contentHash(config), prior.value));
    }

    /** Restore; refused when the configuration's content hash differs. */
    static method FromSnapshot(snap: ServiceSnapshot, config: Config, density: Density,
                               log1p: real -> real, contentHash: Config -> string)
      returns (r: Result<BOCPDRegimeService, ServiceError>)
      requires config.Valid() && PositiveDensity(density)
      ensures snap.configHash != contentHash(config) ==> r == Err(HashMismatch)
      ensures snap.configHash == contentHash(config) ==> r.Ok? && var svc := r.value;
        && fresh(svc) && fresh(svc.Arrays())
        && svc.config == config && svc.density == density
        && svc.log1p == log1p && svc.contentHash == contentHash
        && svc.prior == Some(snap.prior) && svc.obsCount == snap.observationCount
        && svc.mass.Some? && svc.mass.value[..] == snap.mass[..]
        && svc.stats.Some? && svc.stats.value.Contents() == snap.stats.Contents()
        && (snap.stats.Aligned() ==> svc.Ready() && svc.CurrentState() == StateOf(snap.mass, snap.stats))
        && (snap.stats.Aligned() && Reachable(snap.prior, StateOf(snap.mass, snap.stats)) ==> svc.Valid())
    {
      if snap.configHash != contentHash(config) {
        return Err(HashMismatch);
      }
      var svc := new BOCPDRegimeService(config, density, log1p, contentHash);
      var m := FromSeq(snap.mass[..]);
      var s := CopyStats(snap.stats);
      svc.prior, svc.mass, svc.stats, svc.obsCount := Some(snap.prior), Some(m), Some(s), snap.observationCount;
      assert snap.stats.Aligned() ==> svc.CurrentState() == StateOf(snap.mass, snap.stats);
      r := Ok(svc);
    }
  }

  /** Snapshot a service and restore it under its own configuration. */
  method Branch(svc: BOCPDRegimeService) returns (resumed: BOCPDRegimeService, snap: ServiceSnapshot)
    requires svc.Valid() && svc.Ready()
    ensures fresh(resumed) && fresh(resumed.Arrays()) && resumed.Valid() && resumed.Ready()
    ensures resumed.config == svc.config && resumed.density == svc.density && resumed.prior == svc.prior
    ensures resumed.CurrentState() == svc.CurrentState() && resumed.obsCount == svc.obsCount
    ensures snap.stats.Aligned() && StateOf(snap.mass, snap.stats) == svc.CurrentState()
    ensures snap.observationCount == svc.obsCount
    ensures fresh(snap.mass) && fresh(snap.stats.Arrays())
  {
    hide Step, MakeLabel, Reachable, PositiveDensity;
    var taken := svc.Snapshot();
    snap := taken.value;
    var restored := BOCPDRegimeService.FromSnapshot(snap, svc.config, svc.density, svc.log1p, svc.contentHash);
    resumed := restored.value;
  }

  /** Two services in the same state stay in the same state when fed the same ticks. */
  method FeedBoth(a: BOCPDRegimeService, b: BOCPDRegimeService, ticks: seq<Tick>)
    requires a != b && a.Valid() && b.Valid() && a.Ready() && b.Ready()
    requires a.config == b.config && a.density == b.density && a.prior == b.prior
    requires a.CurrentState() == b.CurrentState() && a.obsCount == b.obsCount
    modifies a, b
    ensures a.Valid() && b.Valid() && a.Ready() && b.Ready()
    ensures a.prior == b.prior == old(a.prior)
    ensures a.CurrentState() == b.CurrentState()
         == Continue(a.config, a.density, a.prior.value, old(a.CurrentState()), Values(ticks))
    ensures a.obsCount == b.obsCount == old(a.obsCount) + |ticks|
  {
    hide Step, MakeLabel, Continue, Reachable, PositiveDensity;
    a.Feed(ticks);
    ghost var st := a.CurrentState();
    assert b.Valid() && b.Ready();
    label Second:
    b.Feed(ticks);
    assert unchanged@Second(a);
    assert a.Arrays() == old@Second(a.Arrays());
    assert a.CurrentState() == st;
  }

  /**
   * Snapshot, restore, and let both services go on with the same ticks: they end in the same state with
   * the same count, equal to never having stopped, and the snapshot still holds what it held.
   */
  method ResumeAgrees(svc: BOCPDRegimeService, before: seq<Tick>, after: seq<Tick>)
    returns (resumed: BOCPDRegimeService, snap: ServiceSnapshot)
    requires svc.Valid() && svc.Ready()
    modifies svc
    ensures svc.Valid() && svc.Ready() && resumed.Valid() && resumed.Ready() && resumed != svc
    ensures resumed.CurrentState() == svc.CurrentState()
    ensures resumed.obsCount == svc.obsCount == old(svc.obsCount) + |before| + |after|
    ensures resumed.prior == svc.prior == old(svc.prior)
    ensures svc.CurrentState()
         == Continue(svc.config, svc.density, svc.prior.value, old(svc.CurrentState()), Values(before) + Values(after))
    ensures snap.stats.Aligned()
    ensures StateOf(snap.mass, snap.stats)
         == Continue(svc.config, svc.density, svc.prior.value, old(svc.CurrentState()), Values(before))
    ensures snap.observationCount == old(svc.obsCount) + |before|
  {
    hide Step, MakeLabel, Continue, Reachable, PositiveDensity;
    svc.Feed(before);
    resumed, snap := Branch(svc);
    FeedBoth(svc, resumed, after);
    ContinueSplit(svc.config, svc.density, svc.prior.value, old(svc.CurrentState()), Values(before), Values(after));
  }

  /**
   * Snapshot a service and restore it under some configuration: accepted exactly when the content hashes
   * agree, hence, unless those two configurations collide, exactly under the service's own configuration,
   * and then the restored service is in the same state.
   */
  method RestoreUnder(svc: BOCPDRegimeService, config: Config) returns (r: Result<BOCPDRegimeService, ServiceError>)
    requires svc.Valid() && svc.Ready() && config.Valid()
    ensures r.Ok? <==> svc.contentHash(config) == svc.contentHash(svc.config)
    ensures r.Err? ==> r == Err(HashMismatch)
    ensures (svc.contentHash(config) == svc.contentHash(svc.config) ==> config == svc.config) ==>
      (r.Ok? <==> config == svc.config)
    ensures r.Ok? ==>
      && fresh(r.value) && r.value.Valid() && r.value.Ready() && r.value.config == config
      && r.value.prior == svc.prior && r.value.obsCount == svc.obsCount
      && r.value.CurrentState() == svc.CurrentState()
  {
    hide Reachable, PositiveDensity;
    var taken := svc.Snapshot();
    r := BOCPDRegimeService.FromSnapshot(taken.value, config, svc.density, svc.log1p, svc.contentHash);
  }
}
