/** Whole runs of the filter: what every bin holds after any stream of observations. */
module BocpdRuns {
  import opened Common
  import opened RealSeq
  import opened Nig
  import opened RegimeConfig
  import opened Bocpd

  /** The observations behind each bin, newest hypothesis first. */
  function NextLists(limit: int, lists: seq<seq<real>>, x: real): seq<seq<real>>
    requires limit >= 1
  {
    TruncateLists(limit, [[x]] + Append(lists, x))
  }

  function Append(lists: seq<seq<real>>, x: real): (r: seq<seq<real>>)
    ensures |r| == |lists|
    ensures forall i :: 0 <= i < |lists| ==> r[i] == lists[i] + [x]
  {
    seq(|lists|, i requires 0 <= i < |lists| => lists[i] + [x])
  }

  function TruncateLists(limit: int, lists: seq<seq<real>>): seq<seq<real>>
    requires limit >= 1
  {
    if |lists| <= limit then lists else lists[..limit - 1] + [Flatten(lists[limit - 1..])]
  }

  function Lists(limit: int, xs: seq<real>): seq<seq<real>>
    requires limit >= 1
    decreases |xs|
  {
    if xs == [] then [[]]
    else NextLists(limit, Lists(limit, xs[..|xs| - 1]), xs[|xs| - 1])
  }

  /** Every bin is the posterior of its list and every mass is positive. */
  ghost predicate Tracks(prior: Prior, st: State, lists: seq<seq<real>>) {
    && Proper(Start(prior))
    && Represents(st.bins, lists, prior)
    && |st.mass| == |st.bins| >= 1
    && AllPositive(st.mass)
  }

  lemma PosteriorProper(prior: Prior, xs: seq<real>)
    requires Proper(Start(prior))
    ensures Proper(Posterior(prior, xs))
  {
  }

  lemma TracksIsHealthy(prior: Prior, st: State, lists: seq<seq<real>>)
    requires Tracks(prior, st, lists)
    ensures Healthy(prior, st)
  {
    forall i | 0 <= i < |st.bins| ensures Proper(st.bins[i]) {
      PosteriorProper(prior, lists[i]);
    }
  }

  lemma PosteriorSnoc(prior: Prior, xs: seq<real>, x: real)
    requires prior.kappa0 > 0.0
    ensures Posterior(prior, xs + [x]) == UpdateObs(Posterior(prior, xs), x)
  {
    assert (xs + [x])[..|xs|] == xs;
  }

  lemma PosteriorOfOne(prior: Prior, x: real)
    requires prior.kappa0 > 0.0
    ensures Posterior(prior, [x]) == UpdateObs(Start(prior), x)
  {
    assert [] + [x] == [x];
    PosteriorSnoc(prior, [], x);
  }

  lemma ExtendRepresents(prior: Prior, bins: seq<Params>, lists: seq<seq<real>>, x: real)
    requires Proper(Start(prior)) && Represents(bins, lists, prior)
    requires forall i :: 0 <= i < |bins| ==> bins[i].kappa + 1.0 != 0.0
    ensures Represents(ExtendBins(prior, bins, x), [[x]] + Append(lists, x), prior)
  {
    hide UpdateObs, Posterior;
    var bins', lists' := ExtendBins(prior, bins, x), [[x]] + Append(lists, x);
    forall i | 0 <= i < |bins'| ensures bins'[i] == Posterior(prior, lists'[i]) {
      if i == 0 {
        PosteriorOfOne(prior, x);
      } else {
        PosteriorSnoc(prior, lists[i - 1], x);
      }
    }
  }

  /** Truncation replaces the tail by the posterior of all the tail's observations. */
  lemma TruncateRepresents(prior: Prior, bins: seq<Params>, lists: seq<seq<real>>, limit: int)
    requires limit >= 1 && prior.kappa0 > 0.0 && Represents(bins, lists, prior)
    ensures Represents(TruncateBins(bins, prior, limit), TruncateLists(limit, lists), prior)
  {
    hide FromSums, UpdateObs, Posterior;
    if |bins| > limit {
      MergeIsExact(bins[limit - 1..], lists[limit - 1..], prior);
    }
  }

  lemma StepTracks(cfg: Config, d: Density, prior: Prior, st: State, lists: seq<seq<real>>, x: real)
    requires cfg.Valid() && PositiveDensity(d) && Tracks(prior, st, lists)
    ensures Healthy(prior, st)
    ensures Tracks(prior, Step(cfg, d, prior, st, x), NextLists(cfg.maxRunLength, lists, x))
  {
    hide FromSums, UpdateObs, Posterior, Predictive, Times;
    TracksIsHealthy(prior, st, lists);
    StepConservesMass(cfg, d, prior, st, x);
    ExtendRepresents(prior, st.bins, lists, x);
    TruncateRepresents(prior, ExtendBins(prior, st.bins, x), [[x]] + Append(lists, x), cfg.maxRunLength);
  }

  /** The state after a whole stream, oldest observation first. */
  function Run(cfg: Config, d: Density, prior: Prior, xs: seq<real>): (st: State)
    requires cfg.Valid() && PositiveDensity(d) && Proper(Start(prior))
    ensures Tracks(prior, st, Lists(cfg.maxRunLength, xs))
    decreases |xs|
  {
    if xs == [] then Initial(prior)
    else
      var before := Run(cfg, d, prior, xs[..|xs| - 1]);
      StepTracks(cfg, d, prior, before, Lists(cfg.maxRunLength, xs[..|xs| - 1]), xs[|xs| - 1]);
      Step(cfg, d, prior, before, xs[|xs| - 1])
  }

  lemma RunSnoc(cfg: Config, d: Density, prior: Prior, xs: seq<real>, x: real)
    requires cfg.Valid() && PositiveDensity(d) && Proper(Start(prior))
    ensures Healthy(prior, Run(cfg, d, prior, xs))
    ensures Run(cfg, d, prior, xs + [x]) == Step(cfg, d, prior, Run(cfg, d, prior, xs), x)
  {
    hide Step;
    TracksIsHealthy(prior, Run(cfg, d, prior, xs), Lists(cfg.maxRunLength, xs));
    assert (xs + [x])[..|xs|] == xs;
  }

  function Last(xs: seq<real>, n: nat): seq<real>
    requires n <= |xs|
  {
    xs[|xs| - n..]
  }

  lemma LastSnoc(xs: seq<real>, x: real, n: nat)
    requires n <= |xs|
    ensures Last(xs + [x], n + 1) == Last(xs, n) + [x]
  {
  }

  /** lists[i] is the window of the last min(i + 1, t) observations, below the truncated bin. */
  ghost predicate Windows(limit: int, lists: seq<seq<real>>, xs: seq<real>) {
    && |lists| == Min(|xs| + 1, limit)
    && forall i :: 0 <= i < |lists| && (i < limit - 1 || |xs| < limit) ==>
         lists[i] == Last(xs, Min(i + 1, |xs|))
  }

  lemma NextEntry(limit: int, lists: seq<seq<real>>, x: real, i: nat)
    requires limit >= 1
    requires i <= |lists| && (i < limit - 1 || |lists| < limit)
    ensures |NextLists(limit, lists, x)| == Min(|lists| + 1, limit)
    ensures NextLists(limit, lists, x)[i] == if i == 0 then [x] else lists[i - 1] + [x]
  {
    hide Flatten;
  }

  lemma WindowsStep(limit: int, lists: seq<seq<real>>, xs: seq<real>, x: real)
    requires limit >= 1 && Windows(limit, lists, xs)
    ensures Windows(limit, NextLists(limit, lists, x), xs + [x])
  {
    hide Flatten, NextLists, Last;
    NextLength(limit, lists, x);
    var next := NextLists(limit, lists, x);
    forall i | 0 <= i < |next| && (i < limit - 1 || |xs| + 1 < limit)
      ensures next[i] == Last(xs + [x], Min(i + 1, |xs| + 1))
    {
      NextEntry(limit, lists, x, i);
      if i == 0 {
        LastSnoc(xs, x, 0);
        LastNone(xs);
        assert [] + [x] == [x];
      } else {
        LastSnoc(xs, x, Min(i, |xs|));
      }
    }
  }

  lemma LastNone(xs: seq<real>)
    ensures Last(xs, 0) == []
  {
  }

  lemma NextLength(limit: int, lists: seq<seq<real>>, x: real)
    requires limit >= 1
    ensures |NextLists(limit, lists, x)| == Min(|lists| + 1, limit)
  {
  }

  /** Bins untouched by truncation hold exactly a window of the most recent observations. */
  lemma {:induction false} ListsWindow(limit: int, xs: seq<real>)
    requires limit >= 1
    ensures Windows(limit, Lists(limit, xs), xs)
    decreases |xs|
  {
    hide NextLists;
    if xs != [] {
      var init, x := xs[..|xs| - 1], xs[|xs| - 1];
      ListsWindow(limit, init);
      WindowsStep(limit, Lists(limit, init), init, x);
      assert xs == init + [x];
    }
  }

  /** Run-length window: every bin but a truncated last one is the posterior of a recent window. */
  lemma RunWindow(cfg: Config, d: Density, prior: Prior, xs: seq<real>)
    requires cfg.Valid() && PositiveDensity(d) && Proper(Start(prior))
    ensures var st := Run(cfg, d, prior, xs);
      && |st.mass| == |st.bins| == Min(|xs| + 1, cfg.maxRunLength)
      && forall i :: 0 <= i < |st.bins| && (i < cfg.maxRunLength - 1 || |xs| < cfg.maxRunLength) ==>
           st.bins[i] == Posterior(prior, Last(xs, Min(i + 1, |xs|)))
  {
    hide Posterior, Step;
    ListsWindow(cfg.maxRunLength, xs);
  }

  ghost predicate DrawnFrom(list: seq<real>, xs: seq<real>) {
    forall v :: v in list ==> v in xs
  }

  lemma {:induction false} FlattenDrawn(lists: seq<seq<real>>, xs: seq<real>)
    requires forall i :: 0 <= i < |lists| ==> DrawnFrom(lists[i], xs)
    ensures DrawnFrom(Flatten(lists), xs)
    decreases |lists|
  {
    if lists != [] { FlattenDrawn(lists[..|lists| - 1], xs); }
  }

  lemma {:induction false} ListsDrawn(limit: int, xs: seq<real>)
    requires limit >= 1
    ensures forall i :: 0 <= i < |Lists(limit, xs)| ==> DrawnFrom(Lists(limit, xs)[i], xs)
    decreases |xs|
  {
    if xs != [] {
      var init, x := xs[..|xs| - 1], xs[|xs| - 1];
      assert xs == init + [x];
      ListsDrawn(limit, init);
      var grown := [[x]] + Append(Lists(limit, init), x);
      assert forall i :: 0 <= i < |grown| ==> DrawnFrom(grown[i], xs);
      if |grown| > limit {
        FlattenDrawn(grown[limit - 1..], xs);
      }
    }
  }

  lemma FlattenPair(a: seq<real>, b: seq<real>)
    ensures Flatten([a, b]) == a + b
  {
    assert [a, b][..1] == [a];
    assert [a][..0] == [];
    assert Flatten([a]) == Flatten([]) + a == a;
  }

  lemma LastBinStep(limit: int, lists: seq<seq<real>>, x: real)
    requires limit >= 1 && |lists| == limit
    requires limit >= 2 ==> |lists[limit - 2]| == limit - 1
    ensures |NextLists(limit, lists, x)| == limit
    ensures |NextLists(limit, lists, x)[limit - 1]| == limit + |lists[limit - 1]| + 1
  {
    var grown := [[x]] + Append(lists, x);
    assert grown[limit - 1..] == [grown[limit - 1], grown[limit]];
    FlattenPair(grown[limit - 1], grown[limit]);
    assert |grown[limit - 1]| == limit;
  }

  /** How many observations the last bin weighs once truncation has started. */
  lemma {:induction false} LastBinCount(limit: int, xs: seq<real>)
    requires limit >= 1 && |xs| >= limit
    ensures |Lists(limit, xs)| == limit
    ensures |Lists(limit, xs)[limit - 1]| == 2 * limit + (|xs| - limit) * (limit + 1)
    decreases |xs|
  {
    hide NextLists;
    var init, x := xs[..|xs| - 1], xs[|xs| - 1];
    ListsWindow(limit, init);
    LastBinStep(limit, Lists(limit, init), x);
    if |xs| > limit {
      LastBinCount(limit, init);
      assert (|xs| - 1 - limit) * (limit + 1) + (limit + 1) == (|xs| - limit) * (limit + 1);
    }
  }

  /** Every stretch of limit consecutive observations, newest first. */
  function Stretches(limit: int, xs: seq<real>): seq<real>
    requires limit >= 1
    decreases |xs|
  {
    if |xs| < limit then [] else Last(xs, limit) + Stretches(limit, xs[..|xs| - 1])
  }

  /** What the truncated bin weighs: every stretch of limit consecutive observations, and the whole stream once more. */
  function Pool(limit: int, xs: seq<real>): seq<real>
    requires limit >= 1
  {
    Stretches(limit, xs) + xs
  }

  lemma LastListStep(limit: int, lists: seq<seq<real>>, xs: seq<real>, x: real)
    requires limit >= 1 && Windows(limit, lists, xs) && |xs| >= limit - 1
    ensures |lists| == limit && |NextLists(limit, lists, x)| == limit
    ensures NextLists(limit, lists, x)[limit - 1] == Last(xs + [x], limit) + (lists[limit - 1] + [x])
  {
    var grown := [[x]] + Append(lists, x);
    assert grown[limit - 1..] == [grown[limit - 1], grown[limit]];
    FlattenPair(grown[limit - 1], grown[limit]);
    if limit == 1 {
      assert Last(xs + [x], 1) == [x];
    } else {
      LastSnoc(xs, x, limit - 1);
    }
  }

  lemma PoolStep(limit: int, xs: seq<real>, x: real)
    requires limit >= 1 && |xs| >= limit - 1
    ensures Pool(limit, xs + [x]) == Last(xs + [x], limit) + (Pool(limit, xs) + [x])
  {
    assert (xs + [x])[..|xs|] == xs;
  }

  /** The pool in closed form, for every stream that has reached the last bin. */
  lemma {:induction false} LastListIsPool(limit: int, xs: seq<real>)
    requires limit >= 1 && |xs| >= limit - 1
    ensures |Lists(limit, xs)| == limit
    ensures Lists(limit, xs)[limit - 1] == Pool(limit, xs)
    decreases |xs|
  {
    hide NextLists, Pool;
    ListsWindow(limit, xs);
    if |xs| == limit - 1 {
      PoolOfFew(limit, xs);
    } else {
      var init, x := xs[..|xs| - 1], xs[|xs| - 1];
      assert xs == init + [x];
      ListsWindow(limit, init);
      LastListIsPool(limit, init);
      LastListStep(limit, Lists(limit, init), init, x);
      PoolStep(limit, init, x);
    }
  }

  lemma PoolOfFew(limit: int, xs: seq<real>)
    requires limit >= 1 && |xs| == limit - 1
    ensures Pool(limit, xs) == xs == Last(xs, |xs|)
  {
  }

  /** How many stretches of a stream of t observations contain number i, counted from the oldest. */
  function Covering(limit: int, t: nat, i: nat): nat
    requires limit >= 1
  {
    if t < limit then 0 else (if t - limit <= i < t then 1 else 0) + Covering(limit, t - 1, i)
  }

  lemma {:induction false} CoveringIs(limit: int, t: nat, i: nat)
    requires limit >= 1 && i < t && t >= limit
    ensures Covering(limit, t, i) == Min(t - Max(i, limit - 1), Min(limit, i + 1))
  {
    if t > limit && i < t - 1 {
      CoveringIs(limit, t - 1, i);
    } else if t > limit {
      CoveringNone(limit, t - 1, i);
    }
  }

  lemma {:induction false} CoveringNone(limit: int, t: nat, i: nat)
    requires limit >= 1 && i >= t
    ensures Covering(limit, t, i) == 0
  {
    if t >= limit { CoveringNone(limit, t - 1, i); }
  }

  ghost predicate Unrepeated(xs: seq<real>) {
    forall i, j :: 0 <= i < j < |xs| ==> xs[i] != xs[j]
  }

  lemma {:induction false} OnceInSlice(xs: seq<real>, lo: nat, hi: nat, i: nat)
    requires lo <= hi <= |xs| && i < |xs| && Unrepeated(xs)
    ensures multiset(xs[lo..hi])[xs[i]] == if lo <= i < hi then 1 else 0
    decreases hi
  {
    if lo < hi {
      OnceInSlice(xs, lo, hi - 1, i);
      assert xs[lo..hi] == xs[lo..hi - 1] + [xs[hi - 1]];
    }
  }

  lemma {:induction false} InStretches(limit: int, xs: seq<real>, t: nat, i: nat)
    requires limit >= 1 && t <= |xs| && i < |xs| && Unrepeated(xs)
    ensures multiset(Stretches(limit, xs[..t]))[xs[i]] == Covering(limit, t, i)
    decreases t
  {
    if t >= limit {
      InStretches(limit, xs, t - 1, i);
      OnceInSlice(xs, t - limit, t, i);
      assert xs[..t][..t - 1] == xs[..t - 1];
      assert Last(xs[..t], limit) == xs[t - limit..t];
    }
  }

  /**
   * How often each observation is weighed by the truncated bin of a stream of t observations, all different:
   * number i, from the oldest, counts once and once more for each stretch of limit that contains it.
   */
  lemma PoolMultiplicity(limit: int, xs: seq<real>, i: nat)
    requires limit >= 1 && |xs| >= limit && i < |xs| && Unrepeated(xs)
    ensures multiset(Pool(limit, xs))[xs[i]] == 1 + Min(|xs| - Max(i, limit - 1), Min(limit, i + 1))
  {
    assert xs[..|xs|] == xs && xs[0..|xs|] == xs;
    InStretches(limit, xs, |xs|, i);
    OnceInSlice(xs, 0, |xs|, i);
    CoveringIs(limit, |xs|, i);
  }

  lemma NoGuardTaken(d: Density, p: Params)
    requires Proper(p)
    ensures forall m, x :: Predictive(d, m, x, p) == Marginal(d, m, x, p)
  {
    hide Predictive, Marginal;
    forall m, x ensures Predictive(d, m, x, p) == Marginal(d, m, x, p) {
      GuardNotTaken(d, m, x, p);
    }
  }

  /**
   * In every reachable state each bin is the posterior of a finite list drawn from the stream, so no
   * parameter falls below the prior's and no predictive guard is ever taken.
   */
  lemma EveryBinIsAPosterior(cfg: Config, d: Density, prior: Prior, xs: seq<real>, i: nat)
    requires cfg.Valid() && PositiveDensity(d) && Proper(Start(prior))
    requires i < |Run(cfg, d, prior, xs).bins|
    ensures exists list :: DrawnFrom(list, xs) && Run(cfg, d, prior, xs).bins[i] == Posterior(prior, list)
    ensures var p := Run(cfg, d, prior, xs).bins[i];
      && p.kappa >= prior.kappa0 > 0.0 && p.alpha >= prior.alpha0 > 0.0 && p.beta >= prior.beta0
      && (forall m, x :: Predictive(d, m, x, p) == Marginal(d, m, x, p))
  {
    hide Step, Predictive, Marginal, UpdateObs, Posterior, Run, Lists, SquaredScale;
    var st := Run(cfg, d, prior, xs);
    var lists := Lists(cfg.maxRunLength, xs);
    ListsDrawn(cfg.maxRunLength, xs);
    assert DrawnFrom(lists[i], xs) && st.bins[i] == Posterior(prior, lists[i]);
    PosteriorProper(prior, lists[i]);
    NoGuardTaken(d, st.bins[i]);
  }

  lemma TimesGrows(a: nat, b: int)
    requires b >= 1
    ensures a * b >= a
  {
  }

  /**
   * Once the stream reaches the limit, the last bin has weighed observations repeatedly: the merge adds
   * overlapping windows, so kappa counts 2M + (t - M)(M + 1) observations out of a stream of t.
   */
  lemma LastBinOvercounts(cfg: Config, d: Density, prior: Prior, xs: seq<real>)
    requires cfg.Valid() && PositiveDensity(d) && Proper(Start(prior))
    requires |xs| >= cfg.maxRunLength
    ensures var m := cfg.maxRunLength;
      var st := Run(cfg, d, prior, xs);
      && |st.bins| == m
      && st.bins[m - 1].kappa == prior.kappa0 + (2 * m + (|xs| - m) * (m + 1)) as real
      && 2 * m + (|xs| - m) * (m + 1) > |xs|
  {
    hide Step, UpdateObs, Posterior, Run, Lists, PositiveDensity;
    var m := cfg.maxRunLength;
    LastBinCount(m, xs);
    var list := Lists(m, xs)[m - 1];
    assert Run(cfg, d, prior, xs).bins[m - 1] == Posterior(prior, list);
    TimesGrows(|xs| - m, m + 1);
  }

  /** The last bin weighs more observations than were seen exactly once the stream has reached max_run_length. */
  lemma OvercountsIff(cfg: Config, d: Density, prior: Prior, xs: seq<real>)
    requires cfg.Valid() && PositiveDensity(d) && Proper(Start(prior))
    ensures Run(cfg, d, prior, xs).bins != []
    ensures var bins := Run(cfg, d, prior, xs).bins;
      bins[|bins| - 1].kappa > prior.kappa0 + |xs| as real <==> |xs| >= cfg.maxRunLength
  {
    hide Run;
    RunWindow(cfg, d, prior, xs);
    if |xs| >= cfg.maxRunLength { LastBinOvercounts(cfg, d, prior, xs); }
  }

  /** The mass after any stream is a probability distribution over the run lengths. */
  lemma RunIsDistribution(cfg: Config, d: Density, prior: Prior, xs: seq<real>)
    requires cfg.Valid() && PositiveDensity(d) && Proper(Start(prior))
    ensures AllPositive(Run(cfg, d, prior, xs).mass) && Sum(Run(cfg, d, prior, xs).mass) == 1.0
  {
    if xs == [] {
      SumSingle(1.0);
    } else {
      hide Step;
      var before := Run(cfg, d, prior, xs[..|xs| - 1]);
      TracksIsHealthy(prior, before, Lists(cfg.maxRunLength, xs[..|xs| - 1]));
      StepConservesMass(cfg, d, prior, before, xs[|xs| - 1]);
    }
  }

  /** The density says the same whatever the parameters, so no observation tells run lengths apart. */
  ghost predicate Blind(d: Density) {
    forall m, x, df, loc, sq, df', loc', sq' :: d(m, x, df, loc, sq) == d(m, x, df', loc', sq')
  }

  lemma {:induction false} SumOfProducts(c: real, s: seq<real>, scaled: seq<real>)
    requires |s| == |scaled| && forall i :: 0 <= i < |s| ==> scaled[i] == c * s[i]
    ensures Sum(scaled) == c * Sum(s)
  {
    assert scaled == Scale(c, s);
    SumScale(c, s);
  }

  /** With nothing to learn from the data, the change probability is the hazard rate after every observation. */
  lemma BlindFilterReportsHazard(cfg: Config, d: Density, prior: Prior, xs: seq<real>)
    requires cfg.Valid() && PositiveDensity(d) && Blind(d) && Proper(Start(prior))
    requires xs != [] && cfg.maxRunLength >= 2
    ensures Sum(Run(cfg, d, prior, xs).mass) == 1.0
    ensures ChangeProbability(Run(cfg, d, prior, xs).mass) == cfg.hazardRate
  {
    hide Run, Step, Likelihoods;
    var init, x := xs[..|xs| - 1], xs[|xs| - 1];
    assert xs == init + [x];
    RunSnoc(cfg, d, prior, init, x);
    RunIsDistribution(cfg, d, prior, init);
    BlindStep(cfg, d, prior, Run(cfg, d, prior, init), x);
  }

  lemma BlindStep(cfg: Config, d: Density, prior: Prior, st: State, x: real)
    requires cfg.Valid() && PositiveDensity(d) && Blind(d) && Healthy(prior, st)
    requires Sum(st.mass) == 1.0 && cfg.maxRunLength >= 2
    ensures Sum(Step(cfg, d, prior, st, x).mass) == 1.0
    ensures ChangeProbability(Step(cfg, d, prior, st, x).mass) == cfg.hazardRate
  {
    hide Step, Likelihoods, ChangeProbability, Sum, Marginal;
    ChangeProbabilityIsBayes(cfg, d, prior, st, x);
    var density := Marginal(d, cfg.observationModel, x, Start(prior));
    forall i | 0 <= i < |st.bins| ensures Marginal(d, cfg.observationModel, x, st.bins[i]) == density {
      BlindMarginal(d, cfg.observationModel, x, st.bins[i], Start(prior));
    }
    GuardNotTaken(d, cfg.observationModel, x, Start(prior));
    SumOfProducts(density, st.mass, Likelihoods(cfg, d, st, x));
    HazardShare(cfg.hazardRate, density, Sum(Likelihoods(cfg, d, st, x)));
  }

  lemma BlindMarginal(d: Density, model: ObservationModel, x: real, p: Params, q: Params)
    requires Blind(d) && Proper(p) && Proper(q)
    ensures Marginal(d, model, x, p) == Marginal(d, model, x, q)
  {
  }

  lemma HazardShare(h: real, density: real, likelihood: real)
    requires density > 0.0 && likelihood == density * 1.0
    ensures h * density * 1.0 / (h * density * 1.0 + (1.0 - h) * likelihood) == h
  {
    assert h * density + (1.0 - h) * density == density;
    DivUnique(h * density, density, h);
  }

  // ---------------------------------------------------------------------------
  // Stopping and resuming.
  // ---------------------------------------------------------------------------

  /** A state some stream can produce from this prior, whatever the observations behind its bins. */
  ghost predicate Reachable(prior: Prior, st: State) {
    exists lists :: Tracks(prior, st, lists)
  }

  lemma StepReachable(cfg: Config, d: Density, prior: Prior, st: State, x: real)
    requires cfg.Valid() && PositiveDensity(d) && Reachable(prior, st)
    ensures Healthy(prior, st)
    ensures Reachable(prior, Step(cfg, d, prior, st, x))
  {
    hide Step;
    var lists :| Tracks(prior, st, lists);
    StepTracks(cfg, d, prior, st, lists, x);
  }

  /** Feeding a stream to a state already reached. */
  function Continue(cfg: Config, d: Density, prior: Prior, st: State, xs: seq<real>): (end: State)
    requires cfg.Valid() && PositiveDensity(d) && Reachable(prior, st)
    ensures Reachable(prior, end)
    decreases |xs|
  {
    if xs == [] then st
    else
      StepReachable(cfg, d, prior, st, xs[0]);
      Continue(cfg, d, prior, Step(cfg, d, prior, st, xs[0]), xs[1..])
  }

  /** Stopping after xs and going on with ys is the same as never stopping. */
  lemma {:induction false} ContinueSplit(cfg: Config, d: Density, prior: Prior, st: State,
                                         xs: seq<real>, ys: seq<real>)
    requires cfg.Valid() && PositiveDensity(d) && Reachable(prior, st)
    ensures Continue(cfg, d, prior, st, xs + ys)
         == Continue(cfg, d, prior, Continue(cfg, d, prior, st, xs), ys)
    decreases |xs|
  {
    hide Step;
    if xs == [] {
      assert xs + ys == ys;
    } else {
      StepReachable(cfg, d, prior, st, xs[0]);
      assert (xs + ys)[1..] == xs[1..] + ys;
      ContinueSplit(cfg, d, prior, Step(cfg, d, prior, st, xs[0]), xs[1..], ys);
    }
  }

  /** The run from the start, seen as a continuation of the initial state. */
  lemma {:induction false} RunIsContinue(cfg: Config, d: Density, prior: Prior, xs: seq<real>)
    requires cfg.Valid() && PositiveDensity(d) && Proper(Start(prior))
    ensures Tracks(prior, Initial(prior), [[]])
    ensures Run(cfg, d, prior, xs) == Continue(cfg, d, prior, Initial(prior), xs)
    decreases |xs|
  {
    hide Step;
    assert Run(cfg, d, prior, []) == Initial(prior);
    if xs != [] {
      var init, last := xs[..|xs| - 1], xs[|xs| - 1];
      RunIsContinue(cfg, d, prior, init);
      assert xs == init + [last];
      ContinueSplit(cfg, d, prior, Initial(prior), init, [last]);
      assert [last][1..] == [];
    }
  }
}
