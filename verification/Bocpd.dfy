/** One step of the change-point filter, in linear (not log) mass. */
module Bocpd {
  import opened Common
  import opened RealSeq
  import opened Nig
  import opened RegimeConfig

  /** Density of the observation model at a value, given degrees of freedom, location and squared scale. */
  type Density = (ObservationModel, real, real, real, real) -> real

  /** Mass and posterior parameters per run-length index; index 0 is "a change just happened". */
  datatype State = State(mass: seq<real>, bins: seq<Params>)

  predicate Proper(p: Params) {
    p.alpha > 0.0 && p.kappa > 0.0 && p.beta > 0.0
  }

  function SquaredScale(p: Params): real
    requires p.alpha != 0.0 && p.kappa != 0.0
  {
    p.beta * (p.kappa + 1.0) / (p.alpha * p.kappa)
  }

  /** The density behind its two guards; a guard yields mass zero (log mass minus infinity). */
  function Predictive(d: Density, model: ObservationModel, x: real, p: Params): real {
    if !Proper(p) then 0.0
    else if SquaredScale(p) <= 0.0 then 0.0
    else d(model, x, 2.0 * p.alpha, p.mu, SquaredScale(p))
  }

  ghost predicate PositiveDensity(d: Density) {
    forall m, x, df, loc, sq :: df > 0.0 && sq > 0.0 ==> d(m, x, df, loc, sq) > 0.0
  }

  /**
   * The posterior predictive of the conjugate model: 2 alpha degrees of freedom around mu, with squared scale
   * beta (kappa + 1) / (alpha kappa).
   */
  function Marginal(d: Density, model: ObservationModel, x: real, p: Params): real
    requires Proper(p)
  {
    d(model, x, 2.0 * p.alpha, p.mu, p.beta * (p.kappa + 1.0) / (p.alpha * p.kappa))
  }

  /** What a state must satisfy for one update to be defined. */
  ghost predicate Healthy(prior: Prior, st: State) {
    && Proper(Start(prior))
    && |st.mass| == |st.bins| >= 1
    && AllPositive(st.mass)
    && forall i :: 0 <= i < |st.bins| ==> Proper(st.bins[i])
  }

  function Initial(prior: Prior): State {
    State([1.0], [Start(prior)])
  }

  function GrowthWeight(cfg: Config, d: Density, x: real, p: Params): real {
    (1.0 - cfg.hazardRate) * Predictive(d, cfg.observationModel, x, p)
  }

  function ChangeWeight(cfg: Config, d: Density, prior: Prior, x: real): real {
    cfg.hazardRate * Predictive(d, cfg.observationModel, x, Start(prior))
  }

  /** Unnormalised masses after x: the changepoint branch, then every run grown by one. */
  function Joint(cfg: Config, d: Density, prior: Prior, st: State, x: real): (w: seq<real>)
    requires |st.mass| == |st.bins|
    ensures |w| == |st.mass| + 1
  {
    [Times(ChangeWeight(cfg, d, prior, x), Sum(st.mass))]
    + seq(|st.mass|, i requires 0 <= i < |st.mass| => Times(GrowthWeight(cfg, d, x, st.bins[i]), st.mass[i]))
  }

  function Normalize(w: seq<real>): (r: seq<real>)
    requires Sum(w) != 0.0
    ensures |r| == |w|
  {
    Scale(1.0 / Sum(w), w)
  }

  function ExtendBins(prior: Prior, bins: seq<Params>, x: real): (r: seq<Params>)
    requires prior.kappa0 + 1.0 != 0.0
    requires forall i :: 0 <= i < |bins| ==> bins[i].kappa + 1.0 != 0.0
    ensures |r| == |bins| + 1
    ensures r[0] == UpdateObs(Start(prior), x)
    ensures forall i :: 0 <= i < |bins| ==> r[i + 1] == UpdateObs(bins[i], x)
  {
    [UpdateObs(Start(prior), x)]
    + seq(|bins|, i requires 0 <= i < |bins| => UpdateObs(bins[i], x))
  }

  function TruncateMass(mass: seq<real>, limit: int): seq<real>
    requires limit >= 1
  {
    if |mass| <= limit then mass else mass[..limit - 1] + [Sum(mass[limit - 1..])]
  }

  function TruncateBins(bins: seq<Params>, prior: Prior, limit: int): seq<Params>
    requires limit >= 1 && prior.kappa0 > 0.0
  {
    if |bins| <= limit then bins
    else bins[..limit - 1] + [FromSums(Total(SumsOf(bins[limit - 1..], prior)), prior)]
  }

  function Step(cfg: Config, d: Density, prior: Prior, st: State, x: real): State
    requires cfg.Valid() && PositiveDensity(d) && Healthy(prior, st)
  {
    JointPositive(cfg, d, prior, st, x);
    State(TruncateMass(Normalize(Joint(cfg, d, prior, st, x)), cfg.maxRunLength),
          TruncateBins(ExtendBins(prior, st.bins, x), prior, cfg.maxRunLength))
  }

  function Share(part: real, whole: real): real
    requires whole != 0.0
  {
    part / whole
  }

  function ChangeProbability(mass: seq<real>): real
    requires mass != [] && Sum(mass) != 0.0
  {
    Share(mass[0], Sum(mass))
  }

  /** Mass on the indices 0..maxRl, both included. */
  function TransitionMass(mass: seq<real>, maxRl: int): real
    requires maxRl >= 0 && Sum(mass) != 0.0
  {
    var hi := Min(maxRl, |mass| - 1);
    if hi < 0 then 0.0 else Share(Sum(mass[..hi + 1]), Sum(mass))
  }

  // ---------------------------------------------------------------------------
  // The guards are never taken, and mass is conserved.
  // ---------------------------------------------------------------------------

  lemma GuardNotTaken(d: Density, model: ObservationModel, x: real, p: Params)
    requires Proper(p)
    ensures SquaredScale(p) > 0.0
    ensures Predictive(d, model, x, p) == Marginal(d, model, x, p)
    ensures PositiveDensity(d) ==> Marginal(d, model, x, p) > 0.0
  {
    assert p.beta * (p.kappa + 1.0) > 0.0 && p.alpha * p.kappa > 0.0;
  }

  lemma WeightsPositive(cfg: Config, d: Density, x: real, p: Params)
    requires cfg.Valid() && PositiveDensity(d) && Proper(p)
    ensures GrowthWeight(cfg, d, x, p) > 0.0
    ensures cfg.hazardRate * Predictive(d, cfg.observationModel, x, p) > 0.0
  {
    hide Predictive, SquaredScale, Marginal;
    GuardNotTaken(d, cfg.observationModel, x, p);
    var density := Predictive(d, cfg.observationModel, x, p);
    assert density > 0.0;
    TimesPositive(1.0 - cfg.hazardRate, density);
    TimesPositive(cfg.hazardRate, density);
  }

  lemma TimesPositive(a: real, b: real)
    requires a > 0.0 && b > 0.0
    ensures Times(a, b) > 0.0
  {
  }

  lemma JointPositive(cfg: Config, d: Density, prior: Prior, st: State, x: real)
    requires cfg.Valid() && PositiveDensity(d) && Healthy(prior, st)
    ensures AllPositive(Joint(cfg, d, prior, st, x))
    ensures Sum(Joint(cfg, d, prior, st, x)) > 0.0
  {
    hide Times, Predictive, GrowthWeight;
    var w := Joint(cfg, d, prior, st, x);
    SumNonNegative(st.mass);
    assert Sum(st.mass) >= st.mass[0] > 0.0;
    WeightsPositive(cfg, d, x, Start(prior));
    TimesPositive(ChangeWeight(cfg, d, prior, x), Sum(st.mass));
    forall i | 0 <= i < |w| ensures w[i] > 0.0 {
      if i > 0 {
        WeightsPositive(cfg, d, x, st.bins[i - 1]);
        TimesPositive(GrowthWeight(cfg, d, x, st.bins[i - 1]), st.mass[i - 1]);
      }
    }
    SumNonNegative(w);
    assert w[0] > 0.0;
  }

  lemma NormalizeSums(w: seq<real>)
    requires AllPositive(w) && w != []
    ensures Sum(w) > 0.0
    ensures AllPositive(Normalize(w)) && Sum(Normalize(w)) == 1.0
  {
    SumNonNegative(w);
    assert w[0] > 0.0;
    var c := 1.0 / Sum(w);
    assert c > 0.0;
    SumScale(c, w);
    assert c * Sum(w) == 1.0;
  }

  /** Truncation moves mass between bins and loses none. */
  lemma TruncateConserves(mass: seq<real>, limit: int)
    requires limit >= 1
    ensures Sum(TruncateMass(mass, limit)) == Sum(mass)
    ensures |TruncateMass(mass, limit)| == Min(|mass|, limit)
    ensures AllPositive(mass) ==> AllPositive(TruncateMass(mass, limit))
  {
    hide Sum;
    if |mass| > limit {
      var front, tail := mass[..limit - 1], mass[limit - 1..];
      assert mass == front + tail;
      SumConcat(front, tail);
      SumSnoc(front, Sum(tail));
      if AllPositive(mass) {
        SumNonNegative(tail);
        assert tail[0] > 0.0;
      }
    }
  }

  /** Indices below the last keep their mass; the last collects the mass of every index from there on. */
  lemma TruncateEntries(mass: seq<real>, limit: int)
    requires limit >= 1
    ensures |TruncateMass(mass, limit)| == Min(|mass|, limit)
    ensures forall r :: 0 <= r < Min(|mass|, limit) ==>
      TruncateMass(mass, limit)[r] == if r < limit - 1 then mass[r] else Sum(mass[r..])
  {
    hide Sum;
    if |mass| == limit {
      SumSingle(mass[limit - 1]);
      assert mass[limit - 1..] == [mass[limit - 1]];
    }
  }

  /** Every update leaves strictly positive masses that add up to one, one bin longer up to the limit. */
  lemma StepConservesMass(cfg: Config, d: Density, prior: Prior, st: State, x: real)
    requires cfg.Valid() && PositiveDensity(d) && Healthy(prior, st)
    ensures var next := Step(cfg, d, prior, st, x);
      && AllPositive(next.mass)
      && Sum(next.mass) == 1.0
      && |next.mass| == |next.bins| == Min(|st.mass| + 1, cfg.maxRunLength)
  {
    JointPositive(cfg, d, prior, st, x);
    var w := Joint(cfg, d, prior, st, x);
    NormalizeSums(w);
    TruncateConserves(Normalize(w), cfg.maxRunLength);
  }

  /** Each run length's likelihood of x, weighted by the run length's mass. */
  function Likelihoods(cfg: Config, d: Density, st: State, x: real): (ls: seq<real>)
    requires |st.mass| == |st.bins| && forall i :: 0 <= i < |st.bins| ==> Proper(st.bins[i])
    ensures |ls| == |st.mass|
    ensures forall i :: 0 <= i < |ls| ==> ls[i] == Marginal(d, cfg.observationModel, x, st.bins[i]) * st.mass[i]
  {
    seq(|st.mass|, i requires 0 <= i < |st.mass| => Marginal(d, cfg.observationModel, x, st.bins[i]) * st.mass[i])
  }

  lemma JointTotal(cfg: Config, d: Density, prior: Prior, st: State, x: real)
    requires Healthy(prior, st)
    ensures Joint(cfg, d, prior, st, x)[0]
         == cfg.hazardRate * Marginal(d, cfg.observationModel, x, Start(prior)) * Sum(st.mass)
    ensures Sum(Joint(cfg, d, prior, st, x))
         == cfg.hazardRate * Marginal(d, cfg.observationModel, x, Start(prior)) * Sum(st.mass)
            + (1.0 - cfg.hazardRate) * Sum(Likelihoods(cfg, d, st, x))
  {
    hide Predictive, SquaredScale, Sum, Marginal;
    var w, ls, stay := Joint(cfg, d, prior, st, x), Likelihoods(cfg, d, st, x), 1.0 - cfg.hazardRate;
    GuardNotTaken(d, cfg.observationModel, x, Start(prior));
    forall i | 0 <= i < |ls| ensures w[1..][i] == Scale(stay, ls)[i] {
      GuardNotTaken(d, cfg.observationModel, x, st.bins[i]);
      Reassociate(stay, Marginal(d, cfg.observationModel, x, st.bins[i]), st.mass[i]);
    }
    assert w[1..] == Scale(stay, ls);
    SumScale(stay, ls);
    SumConcat([w[0]], w[1..]);
    SumSingle(w[0]);
    assert w == [w[0]] + w[1..];
  }

  lemma Reassociate(a: real, b: real, c: real)
    ensures Times(a * b, c) == Times(a, b * c)
  {
  }

  /**
   * Bayes: the change probability's share of the evidence is that of "a change, and x drawn from the prior"
   * against "no change, and x drawn from each run's posterior"; a limit of one leaves only the change.
   */
  lemma ChangeProbabilityIsBayes(cfg: Config, d: Density, prior: Prior, st: State, x: real)
    requires cfg.Valid() && PositiveDensity(d) && Healthy(prior, st)
    ensures Sum(Step(cfg, d, prior, st, x).mass) == 1.0
    ensures var change := cfg.hazardRate * Marginal(d, cfg.observationModel, x, Start(prior)) * Sum(st.mass);
      var stay := (1.0 - cfg.hazardRate) * Sum(Likelihoods(cfg, d, st, x));
      && change + stay > 0.0
      && ChangeProbability(Step(cfg, d, prior, st, x).mass)
           == if cfg.maxRunLength == 1 then 1.0 else change / (change + stay)
  {
    hide Predictive, GrowthWeight, ChangeWeight, UpdateObs, FromSums, Times, Likelihoods, Marginal;
    JointTotal(cfg, d, prior, st, x);
    StepConservesMass(cfg, d, prior, st, x);
    JointPositive(cfg, d, prior, st, x);
    var w := Joint(cfg, d, prior, st, x);
    var next := Step(cfg, d, prior, st, x);
    ShareOfOne(next.mass[0]);
    if cfg.maxRunLength == 1 {
      assert next.mass == [next.mass[0]];
      SumSingle(next.mass[0]);
    } else {
      assert next.mass[0] == Normalize(w)[0];
      NormalizeShare(w, 0);
    }
  }

  lemma ShareOfOne(a: real)
    ensures Share(a, 1.0) == a
  {
  }

  lemma NormalizeShare(w: seq<real>, i: nat)
    requires Sum(w) != 0.0 && i < |w|
    ensures Normalize(w)[i] == Share(w[i], Sum(w))
  {
    DivUnique(w[i], Sum(w), 1.0 / Sum(w) * w[i]);
  }

  lemma ShareMonotone(a: real, b: real, c: real)
    requires a <= b && c > 0.0
    ensures Share(a, c) <= Share(b, c)
    ensures a > 0.0 ==> Share(a, c) > 0.0
    ensures Share(c, c) == 1.0
  {
    DivUnique(a, c, 1.0 / c * a);
    DivUnique(b, c, 1.0 / c * b);
    assert 1.0 / c > 0.0;
  }

  lemma PrefixSumMonotone(mass: seq<real>, lo: int, hi: int)
    requires AllNonNegative(mass) && 0 <= lo <= hi <= |mass|
    ensures Sum(mass[..lo]) <= Sum(mass[..hi]) <= Sum(mass)
  {
    hide Sum;
    assert mass[..hi] == mass[..lo] + mass[lo..hi];
    SumConcat(mass[..lo], mass[lo..hi]);
    SumNonNegative(mass[lo..hi]);
    assert mass == mass[..hi] + mass[hi..];
    SumConcat(mass[..hi], mass[hi..]);
    SumNonNegative(mass[hi..]);
  }

  lemma PrefixSums(mass: seq<real>, l: int, h: int)
    requires AllPositive(mass) && mass != [] && 1 <= l <= h <= |mass|
    ensures 0.0 < mass[0] == Sum(mass[..1]) <= Sum(mass[..l]) <= Sum(mass[..h]) <= Sum(mass)
    ensures h == |mass| ==> Sum(mass[..h]) == Sum(mass)
  {
    hide Sum;
    PrefixSumMonotone(mass, 1, l);
    PrefixSumMonotone(mass, l, h);
    assert mass[..1] == [mass[0]];
    SumSingle(mass[0]);
    assert mass[..|mass|] == mass;
  }

  lemma TransitionIs(mass: seq<real>, maxRl: nat)
    requires mass != [] && Sum(mass) != 0.0
    ensures TransitionMass(mass, maxRl) == Share(Sum(mass[..Min(maxRl, |mass| - 1) + 1]), Sum(mass))
  {
    hide Share, Sum;
  }

  /** The change probability is at most the transition mass, which is monotone and at most one. */
  lemma TransitionMassBounds(mass: seq<real>, lo: int, hi: int)
    requires AllPositive(mass) && mass != [] && 0 <= lo <= hi
    ensures Sum(mass) > 0.0
    ensures 0.0 < ChangeProbability(mass) <= TransitionMass(mass, lo) <= TransitionMass(mass, hi) <= 1.0
    ensures TransitionMass(mass, 0) == ChangeProbability(mass)
    ensures hi >= |mass| - 1 ==> TransitionMass(mass, hi) == 1.0
  {
    hide Share, Sum, TransitionMass;
    var l, h := Min(lo, |mass| - 1) + 1, Min(hi, |mass| - 1) + 1;
    PrefixSums(mass, l, h);
    TransitionIs(mass, lo);
    TransitionIs(mass, hi);
    TransitionIs(mass, 0);
    ShareMonotone(mass[0], Sum(mass[..l]), Sum(mass));
    ShareMonotone(Sum(mass[..l]), Sum(mass[..h]), Sum(mass));
    ShareMonotone(Sum(mass[..h]), Sum(mass), Sum(mass));
  }
}
