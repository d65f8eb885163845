/**
 * The filter against the model it stands for: a sum over every way of cutting the stream into
 * segments. The recursion is linear in the stream, the enumeration exponential.
 */
module Segmentations {
  import opened Common
  import opened RealSeq
  import opened Nig
  import opened RegimeConfig
  import opened Bocpd
  import opened BocpdRuns

  /** cuts[j] says whether a new segment begins with observation j. */
  type Cuts = seq<bool>

  /** The observations from which a run of the given index, after the given past, predicts the next one. */
  type Memory = (seq<real>, nat) -> seq<real>

  /** A run remembers its own observations. */
  function Own(): Memory {
    (past: seq<real>, run: nat) => Last(past, Min(run + 1, |past|))
  }

  /**
   * What a run remembers under a truncation limit: its own observations, except that once the stream is long
   * enough all run indices from limit - 1 on share every stretch of limit observations and the whole stream.
   */
  function PooledList(limit: int, past: seq<real>, run: nat): seq<real>
    requires limit >= 1
  {
    if |past| < limit || run < limit - 1 then Last(past, Min(run + 1, |past|)) else Pool(limit, past)
  }

  function Pooled(limit: int): Memory
    requires limit >= 1
  {
    (past: seq<real>, run: nat) => PooledList(limit, past, run)
  }

  /** Run-length index after all observations: steps since the last cut, or the whole stream. */
  function RunIndex(cuts: Cuts): (i: nat)
    ensures i <= |cuts|
    decreases |cuts|
  {
    if cuts == [] || cuts[|cuts| - 1] then 0 else 1 + RunIndex(cuts[..|cuts| - 1])
  }

  /** Prior probability of the cuts times the likelihood of the stream given the cuts. */
  function Weight(cfg: Config, d: Density, prior: Prior, mem: Memory, xs: seq<real>, cuts: Cuts): real
    requires |xs| == |cuts| && Proper(Start(prior))
    decreases |xs|
  {
    if cuts == [] then 1.0
    else
      var n := |xs| - 1;
      Times(StepWeight(cfg, d, prior, mem, xs[..n], xs[n], cuts[n], RunIndex(cuts[..n])),
            Weight(cfg, d, prior, mem, xs[..n], cuts[..n]))
  }

  function StepWeight(cfg: Config, d: Density, prior: Prior, mem: Memory, past: seq<real>, x: real, cut: bool, run: nat): real
    requires Proper(Start(prior))
  {
    if cut then CutFactor(cfg, d, prior, x)
    else RunFactor(cfg, d, prior, mem(past, run), x)
  }

  /** A segment begins at the hazard rate, and its first observation is drawn from the prior. */
  function CutFactor(cfg: Config, d: Density, prior: Prior, x: real): real
    requires Proper(Start(prior))
  {
    cfg.hazardRate * Marginal(d, cfg.observationModel, x, Params(prior.mu0, prior.kappa0, prior.alpha0, prior.beta0))
  }

  /** A segment goes on otherwise, and x is drawn from the posterior of the observations remembered. */
  function RunFactor(cfg: Config, d: Density, prior: Prior, remembered: seq<real>, x: real): real
    requires Proper(Start(prior))
  {
    (1.0 - cfg.hazardRate) * Marginal(d, cfg.observationModel, x, Posterior(prior, remembered))
  }

  /** Every way of cutting a stream of n observations. */
  function AllCuts(n: nat): (all: seq<Cuts>)
    ensures forall c :: c in all ==> |c| == n
  {
    if n == 0 then [[]] else BothWays(AllCuts(n - 1))
  }

  function Mark(all: seq<Cuts>, cut: bool): (r: seq<Cuts>)
    ensures |r| == |all|
    ensures forall k :: 0 <= k < |all| ==> r[k] == all[k] + [cut]
  {
    seq(|all|, k requires 0 <= k < |all| => all[k] + [cut])
  }

  /** Each way of cutting, extended by a cut and without one. */
  function BothWays(all: seq<Cuts>): seq<Cuts> {
    Mark(all, true) + Mark(all, false)
  }

  ghost predicate Distinct(all: seq<Cuts>) {
    forall j, k :: 0 <= j < k < |all| ==> all[j] != all[k]
  }

  lemma MarkDistinct(all: seq<Cuts>, cut: bool)
    requires Distinct(all)
    ensures Distinct(Mark(all, cut))
  {
    var marked := Mark(all, cut);
    forall j, k | 0 <= j < k < |all| ensures marked[j] != marked[k] {
      assert marked[j][..|all[j]|] == all[j] && marked[k][..|all[k]|] == all[k];
    }
  }

  lemma MarkSplit(all: seq<Cuts>, j: nat, k: nat)
    requires j < |all| && k < |all|
    ensures Mark(all, true)[j] != Mark(all, false)[k]
  {
    var a, b := Mark(all, true)[j], Mark(all, false)[k];
    assert a[|a| - 1] && !b[|b| - 1];
  }

  lemma MarkMember(all: seq<Cuts>, c: Cuts, cut: bool)
    requires c in all
    ensures c + [cut] in Mark(all, cut)
  {
    var k :| 0 <= k < |all| && all[k] == c;
    assert Mark(all, cut)[k] == c + [cut];
  }

  lemma AllCutsStep(n: nat)
    ensures AllCuts(n + 1) == BothWays(AllCuts(n))
  {
  }

  lemma BothWaysListed(all: seq<Cuts>, c: Cuts)
    requires c != [] && c[..|c| - 1] in all
    ensures c in BothWays(all)
  {
    var n := |c| - 1;
    MarkMember(all, c[..n], c[n]);
    assert c == c[..n] + [c[n]];
    hide Mark;
  }

  lemma {:induction false} CutsListed(c: Cuts)
    ensures c in AllCuts(|c|)
    decreases |c|
  {
    hide BothWays, AllCuts;
    if c == [] {
      EmptyListed();
    } else {
      CutsListed(c[..|c| - 1]);
      BothWaysListed(AllCuts(|c| - 1), c);
      AllCutsStep(|c| - 1);
    }
  }

  lemma EmptyListed()
    ensures [] in AllCuts(0)
  {
  }

  lemma ConcatDistinct(a: seq<Cuts>, b: seq<Cuts>)
    requires Distinct(a) && Distinct(b)
    requires forall j, k :: 0 <= j < |a| && 0 <= k < |b| ==> a[j] != b[k]
    ensures Distinct(a + b)
  {
  }

  lemma BothWaysDistinct(all: seq<Cuts>)
    requires Distinct(all)
    ensures Distinct(BothWays(all))
  {
    hide Mark, Distinct;
    MarkDistinct(all, true);
    MarkDistinct(all, false);
    forall j, k | 0 <= j < |all| && 0 <= k < |all| ensures Mark(all, true)[j] != Mark(all, false)[k] {
      MarkSplit(all, j, k);
    }
    ConcatDistinct(Mark(all, true), Mark(all, false));
  }

  lemma {:induction false} CutsDistinct(n: nat)
    ensures Distinct(AllCuts(n))
  {
    hide Distinct, BothWays;
    if n == 0 {
      NothingToCut();
    } else {
      hide AllCuts;
      CutsDistinct(n - 1);
      BothWaysDistinct(AllCuts(n - 1));
      AllCutsStep(n - 1);
    }
  }

  lemma NothingToCut()
    ensures Distinct(AllCuts(0))
  {
  }

  /** The enumeration is complete and lists nothing twice. */
  lemma AllCutsComplete(n: nat)
    ensures forall c: Cuts :: |c| == n <==> c in AllCuts(n)
    ensures Distinct(AllCuts(n))
  {
    forall c: Cuts | |c| == n ensures c in AllCuts(n) { CutsListed(c); }
    CutsDistinct(n);
  }

  /** Total weight of the cuts that end in a given run length. */
  function WeightWhere(cfg: Config, d: Density, prior: Prior, mem: Memory, xs: seq<real>, all: seq<Cuts>, run: nat): real
    requires Proper(Start(prior)) && forall c :: c in all ==> |c| == |xs|
  {
    if all == [] then 0.0
    else (if RunIndex(all[0]) == run then Weight(cfg, d, prior, mem, xs, all[0]) else 0.0)
         + WeightWhere(cfg, d, prior, mem, xs, all[1..], run)
  }

  function WeightOfAll(cfg: Config, d: Density, prior: Prior, mem: Memory, xs: seq<real>, all: seq<Cuts>): real
    requires Proper(Start(prior)) && forall c :: c in all ==> |c| == |xs|
  {
    if all == [] then 0.0
    else Weight(cfg, d, prior, mem, xs, all[0]) + WeightOfAll(cfg, d, prior, mem, xs, all[1..])
  }

  /** The exact joint weight of the stream and each run length, by enumeration. */
  function ExactWeights(cfg: Config, d: Density, prior: Prior, mem: Memory, xs: seq<real>): (w: seq<real>)
    requires Proper(Start(prior))
    ensures |w| == |xs| + 1
  {
    seq(|xs| + 1, run requires 0 <= run < |xs| + 1 => WeightWhere(cfg, d, prior, mem, xs, AllCuts(|xs|), run))
  }

  // ---------------------------------------------------------------------------
  // How the enumeration grows by one observation.
  // ---------------------------------------------------------------------------

  lemma {:induction false} WhereConcat(cfg: Config, d: Density, prior: Prior, mem: Memory, xs: seq<real>,
                                       a: seq<Cuts>, b: seq<Cuts>, run: nat)
    requires Proper(Start(prior)) && forall c :: c in a + b ==> |c| == |xs|
    ensures forall c :: c in a ==> c in a + b
    ensures forall c :: c in b ==> c in a + b
    ensures WeightWhere(cfg, d, prior, mem, xs, a + b, run)
         == WeightWhere(cfg, d, prior, mem, xs, a, run) + WeightWhere(cfg, d, prior, mem, xs, b, run)
  {
    hide Weight;
    if a == [] {
      assert a + b == b;
    } else {
      assert (a + b)[1..] == a[1..] + b;
      WhereConcat(cfg, d, prior, mem, xs, a[1..], b, run);
    }
  }

  lemma WeightSnoc(cfg: Config, d: Density, prior: Prior, mem: Memory, xs: seq<real>, x: real, c: Cuts, cut: bool)
    requires Proper(Start(prior)) && |c| == |xs|
    ensures Weight(cfg, d, prior, mem, xs + [x], c + [cut])
         == Times(StepWeight(cfg, d, prior, mem, xs, x, cut, RunIndex(c)), Weight(cfg, d, prior, mem, xs, c))
    ensures RunIndex(c + [cut]) == if cut then 0 else RunIndex(c) + 1
  {
    hide StepWeight, Times;
    assert (xs + [x])[..|xs|] == xs && (c + [cut])[..|c|] == c;
  }

  lemma Distribute(a: real, b: real, c: real)
    ensures Times(a, b + c) == Times(a, b) + Times(a, c)
    ensures Times(a, 0.0) == 0.0
  {
  }

  lemma {:induction false} CutBranch(cfg: Config, d: Density, prior: Prior, mem: Memory, xs: seq<real>, x: real,
                                     all: seq<Cuts>, run: nat)
    requires Proper(Start(prior)) && forall c :: c in all ==> |c| == |xs|
    ensures WeightWhere(cfg, d, prior, mem, xs + [x], Mark(all, true), run)
         == if run == 0 then Times(CutFactor(cfg, d, prior, x), WeightOfAll(cfg, d, prior, mem, xs, all)) else 0.0
  {
    hide Weight, Times, CutFactor, RunFactor, RunIndex, Proper;
    Distribute(CutFactor(cfg, d, prior, x), 0.0, 0.0);
    if all != [] {
      assert Mark(all, true)[1..] == Mark(all[1..], true);
      CutBranch(cfg, d, prior, mem, xs, x, all[1..], run);
      WeightSnoc(cfg, d, prior, mem, xs, x, all[0], true);
      Distribute(CutFactor(cfg, d, prior, x), Weight(cfg, d, prior, mem, xs, all[0]),
                 WeightOfAll(cfg, d, prior, mem, xs, all[1..]));
    }
  }

  lemma {:induction false} GrowBranch(cfg: Config, d: Density, prior: Prior, mem: Memory, xs: seq<real>, x: real,
                                      all: seq<Cuts>, run: nat)
    requires Proper(Start(prior)) && forall c :: c in all ==> |c| == |xs|
    ensures WeightWhere(cfg, d, prior, mem, xs + [x], Mark(all, false), 0) == 0.0
    ensures WeightWhere(cfg, d, prior, mem, xs + [x], Mark(all, false), run + 1)
         == Times(StepWeight(cfg, d, prior, mem, xs, x, false, run), WeightWhere(cfg, d, prior, mem, xs, all, run))
  {
    hide Weight, Times, StepWeight, RunIndex, Proper;
    var g := StepWeight(cfg, d, prior, mem, xs, x, false, run);
    Distribute(g, 0.0, 0.0);
    if all != [] {
      assert Mark(all, false)[1..] == Mark(all[1..], false);
      GrowBranch(cfg, d, prior, mem, xs, x, all[1..], run);
      WeightSnoc(cfg, d, prior, mem, xs, x, all[0], false);
      Distribute(g, Weight(cfg, d, prior, mem, xs, all[0]), WeightWhere(cfg, d, prior, mem, xs, all[1..], run));
    }
  }

  function WhereRow(cfg: Config, d: Density, prior: Prior, mem: Memory, xs: seq<real>, all: seq<Cuts>): (row: seq<real>)
    requires Proper(Start(prior)) && forall c :: c in all ==> |c| == |xs|
    ensures |row| == |xs| + 1
    ensures forall run :: 0 <= run <= |xs| ==> row[run] == WeightWhere(cfg, d, prior, mem, xs, all, run)
  {
    seq(|xs| + 1, run requires 0 <= run < |xs| + 1 => WeightWhere(cfg, d, prior, mem, xs, all, run))
  }

  lemma {:induction false} SumOfBump(row: seq<real>, bumped: seq<real>, at: nat, v: real)
    requires |row| == |bumped| && at < |row|
    requires forall i :: 0 <= i < |row| ==> bumped[i] == row[i] + if i == at then v else 0.0
    ensures Sum(bumped) == Sum(row) + v
  {
    if at == 0 {
      assert bumped[1..] == row[1..];
    } else {
      SumOfBump(row[1..], bumped[1..], at - 1, v);
    }
  }

  lemma {:induction false} SumOfZeros(row: seq<real>)
    requires forall i :: 0 <= i < |row| ==> row[i] == 0.0
    ensures Sum(row) == 0.0
  {
    if row != [] { SumOfZeros(row[1..]); }
  }

  /** Grouping the cuts by run length loses none of them. */
  lemma {:induction false} RowSum(cfg: Config, d: Density, prior: Prior, mem: Memory, xs: seq<real>, all: seq<Cuts>)
    requires Proper(Start(prior)) && forall c :: c in all ==> |c| == |xs|
    ensures Sum(WhereRow(cfg, d, prior, mem, xs, all)) == WeightOfAll(cfg, d, prior, mem, xs, all)
  {
    hide Weight;
    if all == [] {
      SumOfZeros(WhereRow(cfg, d, prior, mem, xs, all));
    } else {
      RowSum(cfg, d, prior, mem, xs, all[1..]);
      SumOfBump(WhereRow(cfg, d, prior, mem, xs, all[1..]), WhereRow(cfg, d, prior, mem, xs, all),
                RunIndex(all[0]), Weight(cfg, d, prior, mem, xs, all[0]));
    }
  }

  /** Bin i is the posterior of what a run of index i remembers. */
  ghost predicate MemoryBins(prior: Prior, mem: Memory, bins: seq<Params>, xs: seq<real>)
    requires Proper(Start(prior))
  {
    && |bins| == |xs| + 1
    && forall i :: 0 <= i < |bins| ==> bins[i] == Posterior(prior, mem(xs, i))
  }

  lemma JointEntry(cfg: Config, d: Density, prior: Prior, st: State, x: real, i: nat)
    requires |st.mass| == |st.bins| && i <= |st.mass|
    ensures Joint(cfg, d, prior, st, x)[i]
         == if i == 0 then Times(ChangeWeight(cfg, d, prior, x), Sum(st.mass))
            else Times(GrowthWeight(cfg, d, x, st.bins[i - 1]), st.mass[i - 1])
  {
    hide Times, ChangeWeight, GrowthWeight, Sum;
  }

  /** The filter's weights carry the model's factors: the guards around the density are never taken. */
  lemma FactorsAgree(cfg: Config, d: Density, prior: Prior, remembered: seq<real>, x: real)
    requires Proper(Start(prior))
    ensures ChangeWeight(cfg, d, prior, x) == CutFactor(cfg, d, prior, x)
    ensures GrowthWeight(cfg, d, x, Posterior(prior, remembered)) == RunFactor(cfg, d, prior, remembered, x)
  {
    hide Predictive, SquaredScale, Posterior, Marginal;
    GuardNotTaken(d, cfg.observationModel, x, Start(prior));
    PosteriorProper(prior, remembered);
    GuardNotTaken(d, cfg.observationModel, x, Posterior(prior, remembered));
  }

  lemma ExactEntryIs(cfg: Config, d: Density, prior: Prior, mem: Memory, xs: seq<real>, run: nat)
    requires Proper(Start(prior)) && run <= |xs|
    ensures ExactWeights(cfg, d, prior, mem, xs)[run] == WeightWhere(cfg, d, prior, mem, xs, AllCuts(|xs|), run)
  {
    hide WeightWhere;
  }

  lemma CutsOfOneMore(cfg: Config, d: Density, prior: Prior, mem: Memory, xs: seq<real>, x: real, run: nat)
    requires Proper(Start(prior))
    ensures var all := AllCuts(|xs|);
      WeightWhere(cfg, d, prior, mem, xs + [x], AllCuts(|xs + [x]|), run)
        == WeightWhere(cfg, d, prior, mem, xs + [x], Mark(all, true), run)
           + WeightWhere(cfg, d, prior, mem, xs + [x], Mark(all, false), run)
  {
    hide WeightWhere;
    var all := AllCuts(|xs|);
    assert AllCuts(|xs + [x]|) == Mark(all, true) + Mark(all, false);
    WhereConcat(cfg, d, prior, mem, xs + [x], Mark(all, true), Mark(all, false), run);
  }

  lemma ExactEntry(cfg: Config, d: Density, prior: Prior, mem: Memory, bins: seq<Params>, xs: seq<real>, x: real, run: nat)
    requires Proper(Start(prior)) && MemoryBins(prior, mem, bins, xs) && run <= |xs| + 1
    ensures ExactWeights(cfg, d, prior, mem, xs + [x])[run]
         == Joint(cfg, d, prior, State(ExactWeights(cfg, d, prior, mem, xs), bins), x)[run]
  {
    hide Weight, Times, ChangeWeight, GrowthWeight, CutFactor, RunFactor, Posterior, WeightOfAll, WeightWhere, Sum,
         Joint, ExactWeights, AllCuts, Mark;
    ExactEntryIs(cfg, d, prior, mem, xs + [x], run);
    CutsOfOneMore(cfg, d, prior, mem, xs, x, run);
    JointEntry(cfg, d, prior, State(ExactWeights(cfg, d, prior, mem, xs), bins), x, run);
    CutBranch(cfg, d, prior, mem, xs, x, AllCuts(|xs|), run);
    FactorsAgree(cfg, d, prior, mem(xs, Max(run - 1, 0)), x);
    if run == 0 {
      GrowBranch(cfg, d, prior, mem, xs, x, AllCuts(|xs|), 0);
      ExactTotal(cfg, d, prior, mem, xs);
    } else {
      GrowBranch(cfg, d, prior, mem, xs, x, AllCuts(|xs|), run - 1);
      ExactEntryIs(cfg, d, prior, mem, xs, run - 1);
    }
  }

  /** One more observation turns the enumeration's weights into the filter's joint weights. */
  lemma ExactStep(cfg: Config, d: Density, prior: Prior, mem: Memory, bins: seq<Params>, xs: seq<real>, x: real)
    requires Proper(Start(prior)) && MemoryBins(prior, mem, bins, xs)
    ensures ExactWeights(cfg, d, prior, mem, xs + [x])
         == Joint(cfg, d, prior, State(ExactWeights(cfg, d, prior, mem, xs), bins), x)
  {
    hide Weight, Times, ChangeWeight, GrowthWeight, Posterior, WeightWhere;
    forall run: nat | run <= |xs| + 1
      ensures ExactWeights(cfg, d, prior, mem, xs + [x])[run]
           == Joint(cfg, d, prior, State(ExactWeights(cfg, d, prior, mem, xs), bins), x)[run]
    {
      ExactEntry(cfg, d, prior, mem, bins, xs, x, run);
    }
  }

  // ---------------------------------------------------------------------------
  // Scaling a state by a constant does not change the normalised result.
  // ---------------------------------------------------------------------------

  lemma TimesAssoc(a: real, b: real, c: real)
    ensures Times(a, Times(b, c)) == Times(b, Times(a, c))
  {
  }

  lemma JointScales(cfg: Config, d: Density, prior: Prior, w: seq<real>, bins: seq<Params>, x: real, c: real)
    requires |w| == |bins|
    ensures Joint(cfg, d, prior, State(Scale(c, w), bins), x)
         == Scale(c, Joint(cfg, d, prior, State(w, bins), x))
  {
    hide Times, ChangeWeight, GrowthWeight;
    var scaled := Joint(cfg, d, prior, State(Scale(c, w), bins), x);
    var plain := Joint(cfg, d, prior, State(w, bins), x);
    forall i | 0 <= i < |scaled| ensures scaled[i] == Scale(c, plain)[i] {
      if i == 0 {
        ScaledSum(c, w);
        TimesAssoc(ChangeWeight(cfg, d, prior, x), c, Sum(w));
      } else {
        TimesAssoc(GrowthWeight(cfg, d, x, bins[i - 1]), c, w[i - 1]);
      }
    }
  }

  lemma ScaledSum(c: real, w: seq<real>)
    ensures Sum(Scale(c, w)) == Times(c, Sum(w))
  {
    SumScale(c, w);
  }

  lemma NormalizeScaled(c: real, w: seq<real>)
    requires c > 0.0 && Sum(w) > 0.0
    ensures Sum(Scale(c, w)) != 0.0
    ensures Normalize(Scale(c, w)) == Normalize(w)
  {
    SumScale(c, w);
    var total := Sum(w);
    assert c * total > 0.0;
    forall i | 0 <= i < |w| ensures Normalize(Scale(c, w))[i] == Normalize(w)[i] {
      ScaleCancels(c, total, w[i]);
    }
  }

  lemma ScaleCancels(c: real, total: real, v: real)
    requires c > 0.0 && total > 0.0
    ensures c * total != 0.0
    ensures Times(1.0 / (c * total), Times(c, v)) == Times(1.0 / total, v)
  {
    assert 1.0 / (c * total) * c == 1.0 / total by {
      DivUnique(1.0, total, 1.0 / (c * total) * c);
    }
  }

  // ---------------------------------------------------------------------------
  // Folding the run lengths from the limit on into one.
  // ---------------------------------------------------------------------------

  lemma TruncateScales(c: real, w: seq<real>, limit: int)
    requires limit >= 1
    ensures TruncateMass(Scale(c, w), limit) == Scale(c, TruncateMass(w, limit))
  {
    if |w| > limit {
      hide Sum;
      ScaledSum(c, w[limit - 1..]);
      assert Scale(c, w)[limit - 1..] == Scale(c, w[limit - 1..]);
      var folded := TruncateMass(w, limit);
      assert forall i :: 0 <= i < limit ==> TruncateMass(Scale(c, w), limit)[i] == Times(c, folded[i]);
    }
  }

  /** Bins for every run length, those beyond the last bin sharing it. */
  function Spread(bins: seq<Params>, n: nat): (r: seq<Params>)
    requires bins != []
    ensures |r| == n
    ensures forall i :: 0 <= i < n ==> r[i] == bins[Min(i, |bins| - 1)]
  {
    seq(n, i requires 0 <= i < n => bins[Min(i, |bins| - 1)])
  }

  /** The joint weights of the last bin and of those folded into it. */
  lemma TailOfJoint(cfg: Config, d: Density, prior: Prior, st: State, x: real, from: nat, p: Params)
    requires |st.mass| == |st.bins| && from <= |st.mass|
    requires forall i :: from <= i < |st.bins| ==> st.bins[i] == p
    ensures Joint(cfg, d, prior, st, x)[from + 1..] == Scale(GrowthWeight(cfg, d, x, p), st.mass[from..])
    ensures Sum(Joint(cfg, d, prior, st, x)[from..])
         == Joint(cfg, d, prior, st, x)[from] + Times(GrowthWeight(cfg, d, x, p), Sum(st.mass[from..]))
  {
    hide GrowthWeight, ChangeWeight;
    var joint, g := Joint(cfg, d, prior, st, x), GrowthWeight(cfg, d, x, p);
    forall i | 0 <= i < |joint| - from - 1 ensures joint[from + 1..][i] == Scale(g, st.mass[from..])[i] {
      JointEntry(cfg, d, prior, st, x, from + 1 + i);
    }
    ScaledSum(g, st.mass[from..]);
    assert joint[from..][1..] == joint[from + 1..];
  }

  /** Folding before a step and folding after it come to the same. */
  lemma FoldCommutes(cfg: Config, d: Density, prior: Prior, mass: seq<real>, bins: seq<Params>, x: real, limit: int)
    requires limit >= 1 && mass != [] && |bins| == Min(|mass|, limit)
    ensures |TruncateMass(mass, limit)| == |bins|
    ensures TruncateMass(Joint(cfg, d, prior, State(TruncateMass(mass, limit), bins), x), limit)
         == TruncateMass(Joint(cfg, d, prior, State(mass, Spread(bins, |mass|)), x), limit)
  {
    hide GrowthWeight, ChangeWeight, Joint, Times;
    TruncateConserves(mass, limit);
    var small, full := State(TruncateMass(mass, limit), bins), State(mass, Spread(bins, |mass|));
    if |mass| <= limit {
      assert full.bins == bins;
    } else {
      FoldCommutesBeyond(cfg, d, prior, mass, bins, x, limit);
    }
  }

  lemma FoldCommutesBeyond(cfg: Config, d: Density, prior: Prior, mass: seq<real>, bins: seq<Params>, x: real, limit: int)
    requires 1 <= limit < |mass| && |bins| == limit
    ensures |TruncateMass(mass, limit)| == |bins|
    ensures TruncateMass(Joint(cfg, d, prior, State(TruncateMass(mass, limit), bins), x), limit)
         == TruncateMass(Joint(cfg, d, prior, State(mass, Spread(bins, |mass|)), x), limit)
  {
    hide GrowthWeight, ChangeWeight, Joint, Times, Sum;
    TruncateConserves(mass, limit);
    var small, full := State(TruncateMass(mass, limit), bins), State(mass, Spread(bins, |mass|));
    var a, b := Joint(cfg, d, prior, small, x), Joint(cfg, d, prior, full, x);
    forall i | 0 <= i < limit ensures a[i] == b[i] {
      JointEntry(cfg, d, prior, small, x, i);
      JointEntry(cfg, d, prior, full, x, i);
    }
    TailOfJoint(cfg, d, prior, small, x, limit - 1, bins[limit - 1]);
    TailOfJoint(cfg, d, prior, full, x, limit - 1, bins[limit - 1]);
    assert small.mass[limit - 1..] == [Sum(mass[limit - 1..])];
    SumSingle(Sum(mass[limit - 1..]));
    assert a[..limit - 1] == b[..limit - 1];
  }

  // ---------------------------------------------------------------------------
  // The filter is the enumeration.
  // ---------------------------------------------------------------------------

  /**
   * On every stream the filter's masses are exactly the posterior over run lengths of the model in which runs
   * remember what the bins pool: weight of the cuts ending in that run length over the weight of all cuts,
   * with the run lengths from the truncation limit on taken together.
   */
  lemma {:induction false} FilterIsExact(cfg: Config, d: Density, prior: Prior, xs: seq<real>)
    requires cfg.Valid() && PositiveDensity(d) && Proper(Start(prior))
    ensures var w := ExactWeights(cfg, d, prior, Pooled(cfg.maxRunLength), xs);
      && AllPositive(w) && Sum(w) > 0.0
      && Sum(w) == WeightOfAll(cfg, d, prior, Pooled(cfg.maxRunLength), xs, AllCuts(|xs|))
      && Run(cfg, d, prior, xs).mass == TruncateMass(Normalize(w), cfg.maxRunLength)
      && SharesOf(w, cfg.maxRunLength, Run(cfg, d, prior, xs).mass)
    decreases |xs|
  {
    hide *;
    StartKappa(cfg, prior);
    var mem := Pooled(cfg.maxRunLength);
    ExactTotal(cfg, d, prior, mem, xs);
    if xs == [] {
      ExactOfNothing(cfg, d, prior, mem);
    } else {
      var init, x := xs[..|xs| - 1], xs[|xs| - 1];
      assert xs == init + [x];
      FilterIsExact(cfg, d, prior, init);
      RunSnoc(cfg, d, prior, init, x);
      SpreadOfRun(cfg, d, prior, init);
      var st, w := Run(cfg, d, prior, init), ExactWeights(cfg, d, prior, mem, init);
      ExactStep(cfg, d, prior, mem, Spread(st.bins, |w|), init, x);
      FoldedStep(cfg, d, prior, st, w, x);
    }
    FoldedShares(ExactWeights(cfg, d, prior, mem, xs), cfg.maxRunLength);
  }

  /** mass[r] is run length r's share of the total weight; the last bin takes every run length from limit - 1 on. */
  ghost predicate SharesOf(w: seq<real>, limit: int, mass: seq<real>)
    requires limit >= 1
  {
    && |mass| == Min(|w|, limit)
    && forall r :: 0 <= r < |mass| ==> mass[r] * Sum(w) == if r < limit - 1 then w[r] else Sum(w[r..])
  }

  lemma FoldedShares(w: seq<real>, limit: int)
    requires limit >= 1 && Sum(w) > 0.0
    ensures SharesOf(w, limit, TruncateMass(Normalize(w), limit))
  {
    hide Sum, Times, Scale, TruncateMass;
    var c := 1.0 / Sum(w);
    Reciprocal(Sum(w));
    var mass := TruncateMass(Normalize(w), limit);
    TruncateScales(c, w, limit);
    TruncateEntries(w, limit);
    forall r | 0 <= r < |mass| ensures mass[r] * Sum(w) == if r < limit - 1 then w[r] else Sum(w[r..]) {
      Undo(c, Sum(w), TruncateMass(w, limit)[r]);
    }
  }

  lemma Reciprocal(a: real)
    requires a != 0.0
    ensures 1.0 / a * a == 1.0
  {
  }

  lemma Undo(c: real, total: real, v: real)
    requires c * total == 1.0
    ensures Times(c, v) * total == v
  {
    assert c * v * total == v * (c * total);
  }

  lemma StartKappa(cfg: Config, prior: Prior)
    requires cfg.Valid() && Proper(Start(prior))
    ensures prior.kappa0 > 0.0 && cfg.maxRunLength >= 1
  {
  }

  /** The bins of a run, spread over all run lengths, are the posteriors of the pooled memory. */
  lemma SpreadOfRun(cfg: Config, d: Density, prior: Prior, xs: seq<real>)
    requires cfg.Valid() && PositiveDensity(d) && Proper(Start(prior))
    ensures prior.kappa0 > 0.0
    ensures |Run(cfg, d, prior, xs).bins| == Min(|xs| + 1, cfg.maxRunLength)
    ensures Run(cfg, d, prior, xs).bins != []
    ensures MemoryBins(prior, Pooled(cfg.maxRunLength), Spread(Run(cfg, d, prior, xs).bins, |xs| + 1), xs)
  {
    hide Run, Posterior, Lists;
    var st, lists := Run(cfg, d, prior, xs), Lists(cfg.maxRunLength, xs);
    assert Represents(st.bins, lists, prior);
    ListsWindow(cfg.maxRunLength, xs);
    if |xs| >= cfg.maxRunLength { LastListIsPool(cfg.maxRunLength, xs); }
  }

  lemma FoldedStep(cfg: Config, d: Density, prior: Prior, st: State, w: seq<real>, x: real)
    requires cfg.Valid() && PositiveDensity(d) && Healthy(prior, st)
    requires AllPositive(w) && Sum(w) > 0.0 && |st.bins| == Min(|w|, cfg.maxRunLength)
    requires st.mass == TruncateMass(Normalize(w), cfg.maxRunLength)
    ensures var joint := Joint(cfg, d, prior, State(w, Spread(st.bins, |w|)), x);
      && AllPositive(joint) && Sum(joint) > 0.0
      && Step(cfg, d, prior, st, x).mass == TruncateMass(Normalize(joint), cfg.maxRunLength)
  {
    hide Times, Predictive, GrowthWeight, ChangeWeight, UpdateObs, FromSums, TruncateMass, Joint, Normalize, Sum;
    var m, bins := cfg.maxRunLength, Spread(st.bins, |w|);
    var unscaled, scaled := State(w, bins), State(Normalize(w), bins);
    JointPositive(cfg, d, prior, unscaled, x);
    NormalizedJoint(cfg, d, prior, w, bins, x);
    FoldCommutes(cfg, d, prior, Normalize(w), st.bins, x, m);
    JointPositive(cfg, d, prior, st, x);
    SameFold(Joint(cfg, d, prior, st, x), Joint(cfg, d, prior, scaled, x), m);
  }

  lemma NormalizedJoint(cfg: Config, d: Density, prior: Prior, w: seq<real>, bins: seq<Params>, x: real)
    requires |w| == |bins| && Sum(w) > 0.0
    requires Sum(Joint(cfg, d, prior, State(w, bins), x)) > 0.0
    ensures Sum(Joint(cfg, d, prior, State(Normalize(w), bins), x)) != 0.0
    ensures Normalize(Joint(cfg, d, prior, State(Normalize(w), bins), x)) == Normalize(Joint(cfg, d, prior, State(w, bins), x))
  {
    hide Joint, Sum;
    JointScales(cfg, d, prior, w, bins, x, 1.0 / Sum(w));
    ReciprocalPositive(Sum(w));
    NormalizeScaled(1.0 / Sum(w), Joint(cfg, d, prior, State(w, bins), x));
  }

  /** Weights that fold alike normalise and fold alike. */
  lemma SameFold(a: seq<real>, b: seq<real>, limit: int)
    requires limit >= 1 && Sum(a) != 0.0 && Sum(b) != 0.0
    requires TruncateMass(a, limit) == TruncateMass(b, limit)
    ensures TruncateMass(Normalize(a), limit) == TruncateMass(Normalize(b), limit)
  {
    hide TruncateMass, Sum;
    TruncateConserves(a, limit);
    TruncateConserves(b, limit);
    TruncateScales(1.0 / Sum(a), a, limit);
    TruncateScales(1.0 / Sum(b), b, limit);
  }

  lemma ExactTotal(cfg: Config, d: Density, prior: Prior, mem: Memory, xs: seq<real>)
    requires Proper(Start(prior))
    ensures Sum(ExactWeights(cfg, d, prior, mem, xs)) == WeightOfAll(cfg, d, prior, mem, xs, AllCuts(|xs|))
  {
    hide Weight;
    RowSum(cfg, d, prior, mem, xs, AllCuts(|xs|));
    assert ExactWeights(cfg, d, prior, mem, xs) == WhereRow(cfg, d, prior, mem, xs, AllCuts(|xs|));
  }

  lemma ExactOfNothing(cfg: Config, d: Density, prior: Prior, mem: Memory)
    requires cfg.Valid() && PositiveDensity(d) && Proper(Start(prior))
    ensures ExactWeights(cfg, d, prior, mem, []) == [1.0]
    ensures AllPositive([1.0]) && Sum([1.0]) == 1.0
    ensures Run(cfg, d, prior, []).mass == Normalize([1.0]) == TruncateMass(Normalize([1.0]), cfg.maxRunLength)
  {
    var all := AllCuts(0);
    assert all[0] == [] && all[1..] == [];
    assert WeightWhere(cfg, d, prior, mem, [], all, 0) == 1.0;
    SumSingle(1.0);
  }

  lemma ReciprocalPositive(a: real)
    requires a > 0.0
    ensures 1.0 / a > 0.0
  {
  }

  // ---------------------------------------------------------------------------
  // Up to the limit every pool is the run's own.
  // ---------------------------------------------------------------------------

  lemma PoolIsOwn(limit: int, past: seq<real>, run: nat)
    requires |past| < limit && run <= |past|
    ensures Pooled(limit)(past, run) == Own()(past, run)
  {
    hide Last;
  }

  lemma {:induction false} WeightIsOwn(cfg: Config, d: Density, prior: Prior, limit: int, xs: seq<real>, cuts: Cuts)
    requires Proper(Start(prior)) && |cuts| == |xs| <= limit && limit >= 1
    ensures Weight(cfg, d, prior, Pooled(limit), xs, cuts) == Weight(cfg, d, prior, Own(), xs, cuts)
    decreases |xs|
  {
    hide Pooled, Own, Times, Posterior;
    if cuts != [] {
      var n := |xs| - 1;
      WeightIsOwn(cfg, d, prior, limit, xs[..n], cuts[..n]);
      PoolIsOwn(limit, xs[..n], RunIndex(cuts[..n]));
    }
  }

  lemma {:induction false} WhereIsOwn(cfg: Config, d: Density, prior: Prior, limit: int, xs: seq<real>,
                                      all: seq<Cuts>, run: nat)
    requires Proper(Start(prior)) && |xs| <= limit && limit >= 1 && forall c :: c in all ==> |c| == |xs|
    ensures WeightWhere(cfg, d, prior, Pooled(limit), xs, all, run) == WeightWhere(cfg, d, prior, Own(), xs, all, run)
  {
    hide Pooled, Own, Weight;
    if all != [] {
      WeightIsOwn(cfg, d, prior, limit, xs, all[0]);
      WhereIsOwn(cfg, d, prior, limit, xs, all[1..], run);
    }
  }

  /** On streams of at most max_run_length observations the filter is the posterior of the untruncated model. */
  lemma FilterIsBayes(cfg: Config, d: Density, prior: Prior, xs: seq<real>)
    requires cfg.Valid() && PositiveDensity(d) && Proper(Start(prior))
    requires |xs| <= cfg.maxRunLength
    ensures var w := ExactWeights(cfg, d, prior, Own(), xs);
      && Sum(w) > 0.0
      && SharesOf(w, cfg.maxRunLength, Run(cfg, d, prior, xs).mass)
  {
    hide Pooled, Own, WeightWhere, Run, Normalize, AllCuts, SharesOf;
    FilterIsExact(cfg, d, prior, xs);
    forall run: nat | run <= |xs|
      ensures WeightWhere(cfg, d, prior, Pooled(cfg.maxRunLength), xs, AllCuts(|xs|), run)
           == WeightWhere(cfg, d, prior, Own(), xs, AllCuts(|xs|), run)
    {
      WhereIsOwn(cfg, d, prior, cfg.maxRunLength, xs, AllCuts(|xs|), run);
    }
    assert ExactWeights(cfg, d, prior, Pooled(cfg.maxRunLength), xs) == ExactWeights(cfg, d, prior, Own(), xs);
  }
}
