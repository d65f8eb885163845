/** Normal-inverse-gamma conjugate updates and the merge of several posteriors. */
module Nig {
  import opened RealSeq

  datatype Prior = Prior(mu0: real, kappa0: real, alpha0: real, beta0: real)

  datatype Params = Params(mu: real, kappa: real, alpha: real, beta: real)

  /** Sufficient statistics of a batch of observations. */
  datatype Sums = Sums(n: real, sumX: real, sumX2: real)

  function Start(prior: Prior): Params {
    Params(prior.mu0, prior.kappa0, prior.alpha0, prior.beta0)
  }

  function UpdateObs(p: Params, x: real): Params
    requires p.kappa + 1.0 != 0.0
  {
    var kappa := p.kappa + 1.0;
    Params(p.mu + (x - p.mu) / kappa, kappa, p.alpha + 0.5,
           p.beta + 0.5 * ((x - p.mu) * (x - p.mu)) * p.kappa / kappa)
  }

  function ToSums(p: Params, prior: Prior): Sums {
    var n := 2.0 * (p.alpha - prior.alpha0);
    if n <= 0.0 then Sums(0.0, 0.0, 0.0)
    else Sums(n, p.kappa * p.mu - prior.kappa0 * prior.mu0,
              2.0 * (p.beta - prior.beta0) - prior.kappa0 * (prior.mu0 * prior.mu0)
              + p.kappa * (p.mu * p.mu))
  }

  function FromSums(s: Sums, prior: Prior): Params
    requires prior.kappa0 + s.n != 0.0
  {
    var kappa := prior.kappa0 + s.n;
    var mu := (prior.kappa0 * prior.mu0 + s.sumX) / kappa;
    Params(mu, kappa, prior.alpha0 + s.n / 2.0,
           prior.beta0 + 0.5 * (s.sumX2 + prior.kappa0 * (prior.mu0 * prior.mu0) - kappa * (mu * mu)))
  }

  function AddSums(a: Sums, b: Sums): Sums {
    Sums(a.n + b.n, a.sumX + b.sumX, a.sumX2 + b.sumX2)
  }

  function SumsOf(bins: seq<Params>, prior: Prior): (ss: seq<Sums>)
    ensures |ss| == |bins|
    ensures forall i :: 0 <= i < |bins| ==> ss[i] == ToSums(bins[i], prior)
    ensures forall i :: 0 <= i < |ss| ==> ss[i].n >= 0.0
  {
    seq(|bins|, i requires 0 <= i < |bins| => ToSums(bins[i], prior))
  }

  function Total(ss: seq<Sums>): (s: Sums)
    ensures (forall i :: 0 <= i < |ss| ==> ss[i].n >= 0.0) ==> s.n >= 0.0
  {
    if ss == [] then Sums(0.0, 0.0, 0.0)
    else AddSums(Total(ss[..|ss| - 1]), ss[|ss| - 1])
  }

  /** The accumulator loop over the per-run-length parameters. */
  method MergeTail(mus: seq<real>, kappas: seq<real>, alphas: seq<real>, betas: seq<real>, prior: Prior)
    returns (merged: Params)
    requires |mus| == |kappas| == |alphas| == |betas|
    requires prior.kappa0 > 0.0
    ensures merged == FromSums(Total(SumsOf(Zip(mus, kappas, alphas, betas), prior)), prior)
  {
    var nTot, sxTot, sx2Tot := 0.0, 0.0, 0.0;
    ghost var ss := SumsOf(Zip(mus, kappas, alphas, betas), prior);
    for i := 0 to |mus|
      invariant Sums(nTot, sxTot, sx2Tot) == Total(ss[..i])
    {
      var s := ToSums(Params(mus[i], kappas[i], alphas[i], betas[i]), prior);
      nTot, sxTot, sx2Tot := nTot + s.n, sxTot + s.sumX, sx2Tot + s.sumX2;
      assert ss[..i + 1][..i] == ss[..i];
    }
    assert ss[..|mus|] == ss;
    merged := FromSums(Sums(nTot, sxTot, sx2Tot), prior);
  }

  function Zip(mus: seq<real>, kappas: seq<real>, alphas: seq<real>, betas: seq<real>): (bins: seq<Params>)
    requires |mus| == |kappas| == |alphas| == |betas|
    ensures |bins| == |mus|
    ensures forall i :: 0 <= i < |mus| ==> bins[i] == Params(mus[i], kappas[i], alphas[i], betas[i])
  {
    seq(|mus|, i requires 0 <= i < |mus| => Params(mus[i], kappas[i], alphas[i], betas[i]))
  }

  // ---------------------------------------------------------------------------
  // Reference: the posterior of a list, one observation at a time, oldest first.
  // ---------------------------------------------------------------------------

  function Posterior(prior: Prior, xs: seq<real>): (p: Params)
    requires prior.kappa0 > 0.0
    ensures p.kappa == prior.kappa0 + |xs| as real
    ensures p.alpha == prior.alpha0 + |xs| as real / 2.0
    ensures p.beta >= prior.beta0
    decreases |xs|
  {
    if xs == [] then Start(prior)
    else
      var before := Posterior(prior, xs[..|xs| - 1]);
      var x := xs[|xs| - 1];
      BetaGrows(before, x);
      UpdateObs(before, x)
  }

  function StatsOf(xs: seq<real>): Sums {
    Sums(|xs| as real, Sum(xs), SumSquares(xs))
  }

  lemma BetaGrows(p: Params, x: real)
    requires p.kappa > 0.0
    ensures UpdateObs(p, x).beta >= p.beta
  {
    var sq := (x - p.mu) * (x - p.mu);
    assert sq >= 0.0;
    assert 0.5 * sq * p.kappa >= 0.0;
    assert 0.5 * sq * p.kappa / (p.kappa + 1.0) >= 0.0;
  }

  /** The growth of beta in one conjugate step, with d = (x - m) / (k + 1). */
  lemma BetaStep(k: real, m: real, d: real, x: real)
    requires k > 0.0 && x == m + d * (k + 1.0)
    ensures (x - m) * (x - m) * k / (k + 1.0) == k * (m * m) + x * x - (k + 1.0) * ((m + d) * (m + d))
  {
    var k1 := k + 1.0;
    var e := k * (m * m) + x * x - k1 * ((m + d) * (m + d));
    assert x - m == d * k1;
    assert e == d * d * k1 * k;
    assert (x - m) * (x - m) * k == k1 * e by {
      assert (d * k1) * (d * k1) * k == k1 * (d * d * k1 * k);
    }
    DivUnique((x - m) * (x - m) * k, k1, e);
  }

  lemma MeanStep(k: real, m: real, d: real, x: real, a: real)
    requires k > 0.0 && x == m + d * (k + 1.0) && a == k * m
    ensures (a + x) / (k + 1.0) == m + d
  {
    DivUnique(a + x, k + 1.0, m + d);
  }

  function Grown(s: Sums, x: real): Sums {
    Sums(s.n + 1.0, s.sumX + x, s.sumX2 + x * x)
  }

  lemma BatchMean(prior: Prior, s: Sums, x: real)
    requires prior.kappa0 > 0.0 && s.n >= 0.0
    ensures var p := FromSums(s, prior);
      FromSums(Grown(s, x), prior).mu == p.mu + (x - p.mu) / (p.kappa + 1.0)
  {
    var p := FromSums(s, prior);
    MeanStep(p.kappa, p.mu, (x - p.mu) / (p.kappa + 1.0), x, prior.kappa0 * prior.mu0 + s.sumX);
  }

  lemma BatchBeta(prior: Prior, s: Sums, x: real)
    requires prior.kappa0 > 0.0 && s.n >= 0.0
    ensures var p := FromSums(s, prior);
      FromSums(Grown(s, x), prior).beta == p.beta + 0.5 * ((x - p.mu) * (x - p.mu)) * p.kappa / (p.kappa + 1.0)
  {
    var p, q := FromSums(s, prior), FromSums(Grown(s, x), prior);
    var d := (x - p.mu) / (p.kappa + 1.0);
    BatchMean(prior, s, x);
    BetaAlgebra(prior.beta0, s.sumX2, prior.kappa0 * (prior.mu0 * prior.mu0), p.kappa, p.mu, d, x);
    assert q.mu == p.mu + d;
    assert q.beta == prior.beta0
      + 0.5 * (s.sumX2 + x * x + prior.kappa0 * (prior.mu0 * prior.mu0) - (p.kappa + 1.0) * ((p.mu + d) * (p.mu + d)));
  }

  /** One update turns the batch posterior of xs into the batch posterior of xs + [x]. */
  lemma BatchStep(prior: Prior, s: Sums, x: real)
    requires prior.kappa0 > 0.0 && s.n >= 0.0
    ensures UpdateObs(FromSums(s, prior), x) == FromSums(Grown(s, x), prior)
  {
    BatchMean(prior, s, x);
    BatchBeta(prior, s, x);
    var p, q := FromSums(s, prior), FromSums(Grown(s, x), prior);
    assert q.kappa == p.kappa + 1.0 && q.alpha == p.alpha + 0.5;
    hide FromSums;
  }

  lemma BetaAlgebra(b0: real, s2: real, a: real, k: real, m: real, d: real, x: real)
    requires k > 0.0 && x == m + d * (k + 1.0)
    ensures b0 + 0.5 * (s2 + a - k * (m * m)) + 0.5 * ((x - m) * (x - m)) * k / (k + 1.0)
         == b0 + 0.5 * (s2 + x * x + a - (k + 1.0) * ((m + d) * (m + d)))
  {
    BetaStep(k, m, d, x);
    Halve((x - m) * (x - m), k, k + 1.0);
  }

  lemma Halve(a: real, k: real, c: real)
    requires c != 0.0
    ensures 0.5 * a * k / c == 0.5 * (a * k / c)
  {
    DivUnique(0.5 * a * k, c, 0.5 * (a * k / c));
  }

  lemma DivUnique(a: real, b: real, c: real)
    requires b != 0.0 && b * c == a
    ensures a / b == c
  {
  }

  lemma CountIsThere(xs: seq<real>)
    ensures StatsOf(xs).n >= 0.0
  {
  }

  lemma BatchOfNothing(prior: Prior)
    requires prior.kappa0 > 0.0
    ensures FromSums(StatsOf([]), prior) == Start(prior)
  {
    DivUnique(prior.kappa0 * prior.mu0, prior.kappa0, prior.mu0);
    assert FromSums(StatsOf([]), prior).mu == prior.mu0;
  }

  lemma StatsSnoc(xs: seq<real>, x: real)
    ensures StatsOf(xs + [x]) == Grown(StatsOf(xs), x)
  {
    hide Sum, SumSquares;
    SumSnoc(xs, x);
  }

  /** Sequential updating equals the batch formula, for every list of observations. */
  lemma {:induction false} SequentialEqualsBatch(prior: Prior, xs: seq<real>)
    requires prior.kappa0 > 0.0
    ensures Posterior(prior, xs) == FromSums(StatsOf(xs), prior)
    decreases |xs|
  {
    hide FromSums, UpdateObs, StatsOf, Grown;
    if xs == [] {
      BatchOfNothing(prior);
    } else {
      var init, x := xs[..|xs| - 1], xs[|xs| - 1];
      assert xs == init + [x];
      SequentialEqualsBatch(prior, init);
      StatsSnoc(init, x);
      CountIsThere(init);
      BatchStep(prior, StatsOf(init), x);
    }
  }

  /** Two weighted squares against the square at the weighted mean c. */
  lemma Parallel(k: real, mu: real, n: real, m: real, c: real)
    requires k > 0.0 && n > 0.0 && (k + n) * c == k * mu + n * m
    ensures n * (m * m) + k * (mu * mu) - (k + n) * (c * c) == k * n * ((m - mu) * (m - mu)) / (k + n)
  {
    var w := k + n;
    var left := n * (m * m) + k * (mu * mu) - w * (c * c);
    assert w * (w * (c * c)) == (k * mu + n * m) * (k * mu + n * m) by {
      assert w * (w * (c * c)) == (w * c) * (w * c);
    }
    assert w * left == w * (n * (m * m) + k * (mu * mu)) - (k * mu + n * m) * (k * mu + n * m);
    CrossTerms(k, mu, n, m);
    DivUnique(k * n * ((m - mu) * (m - mu)), w, left);
  }

  lemma CrossTerms(k: real, mu: real, n: real, m: real)
    ensures (k + n) * (n * (m * m) + k * (mu * mu)) - (k * mu + n * m) * (k * mu + n * m) == k * n * ((m - mu) * (m - mu))
  {
    assert (k + n) * (n * (m * m) + k * (mu * mu))
        == k * n * (m * m) + k * k * (mu * mu) + n * n * (m * m) + k * n * (mu * mu);
    assert (k * mu + n * m) * (k * mu + n * m) == k * k * (mu * mu) + 2.0 * (k * n * (mu * m)) + n * n * (m * m);
    assert (m - mu) * (m - mu) == m * m - 2.0 * (mu * m) + mu * mu;
  }

  /**
   * The posterior of n observations with mean m, as the textbook has it: n more pseudo-observations, half of them
   * in alpha, the prior mean and m weighed by kappa0 and n, and beta grown by half the spread around m and by
   * half the squared distance of m from the prior mean times kappa0 n / (kappa0 + n).
   */
  ghost predicate Textbook(prior: Prior, p: Params, n: real, m: real, spread: real)
    requires prior.kappa0 + n != 0.0
  {
    && p.kappa == prior.kappa0 + n
    && p.alpha == prior.alpha0 + n / 2.0
    && p.kappa * p.mu == prior.kappa0 * prior.mu0 + n * m
    && p.beta == prior.beta0 + 0.5 * spread
                 + 0.5 * (prior.kappa0 * n * ((m - prior.mu0) * (m - prior.mu0)) / (prior.kappa0 + n))
  }

  lemma PosteriorIsTextbook(prior: Prior, xs: seq<real>)
    requires prior.kappa0 > 0.0 && xs != []
    ensures Textbook(prior, Posterior(prior, xs), |xs| as real, Mean(xs), SumSquares(Deviations(xs, Mean(xs))))
  {
    hide Sum, SumSquares, Mean, Textbook, Posterior, FromSums;
    SequentialEqualsBatch(prior, xs);
    SpreadIs(xs);
    TextbookParams(prior, StatsOf(xs), Mean(xs), SumSquares(Deviations(xs, Mean(xs))));
  }

  lemma SpreadIs(xs: seq<real>)
    requires xs != []
    ensures Sum(xs) == |xs| as real * Mean(xs)
    ensures SumSquares(Deviations(xs, Mean(xs))) == SumSquares(xs) - |xs| as real * (Mean(xs) * Mean(xs))
  {
    hide Sum, SumSquares;
    var n, m := |xs| as real, Mean(xs);
    DeviationSquares(xs, m);
    assert m * Sum(xs) == n * (m * m);
  }

  lemma TextbookParams(prior: Prior, s: Sums, m: real, spread: real)
    requires prior.kappa0 > 0.0 && s.n > 0.0
    requires s.sumX == s.n * m && spread == s.sumX2 - s.n * (m * m)
    ensures Textbook(prior, FromSums(s, prior), s.n, m, spread)
  {
    var p := FromSums(s, prior);
    WeightedMean(prior.kappa0 * prior.mu0 + s.sumX, p.kappa);
    Parallel(prior.kappa0, prior.mu0, s.n, m, p.mu);
  }

  lemma WeightedMean(total: real, weight: real)
    requires weight != 0.0
    ensures weight * (total / weight) == total
  {
  }

  /** Recovering the sums from a batch posterior inverts the batch formula. */
  lemma RecoverSums(prior: Prior, s: Sums)
    requires prior.kappa0 > 0.0 && s.n > 0.0
    ensures ToSums(FromSums(s, prior), prior) == s
  {
    var p := FromSums(s, prior);
    assert p.kappa * p.mu == prior.kappa0 * prior.mu0 + s.sumX;
    var a, b := prior.kappa0 * (prior.mu0 * prior.mu0), p.kappa * (p.mu * p.mu);
    assert p.beta == prior.beta0 + 0.5 * (s.sumX2 + a - b);
    assert 2.0 * (p.alpha - prior.alpha0) == s.n;
    assert 2.0 * (p.beta - prior.beta0) - a + b == s.sumX2;
  }

  /** The statistics recovered from a posterior are those of its observations, and rebuild it. */
  lemma SumsRoundTrip(prior: Prior, xs: seq<real>)
    requires prior.kappa0 > 0.0
    ensures ToSums(Posterior(prior, xs), prior) == StatsOf(xs)
    ensures FromSums(ToSums(Posterior(prior, xs), prior), prior) == Posterior(prior, xs)
  {
    SequentialEqualsBatch(prior, xs);
    if xs != [] {
      RecoverSums(prior, StatsOf(xs));
    }
  }

  /** The posterior does not depend on the order of the observations. */
  lemma OrderIrrelevant(prior: Prior, xs: seq<real>, ys: seq<real>)
    requires prior.kappa0 > 0.0
    requires multiset(xs) == multiset(ys)
    ensures Posterior(prior, xs) == Posterior(prior, ys)
  {
    SequentialEqualsBatch(prior, xs);
    SequentialEqualsBatch(prior, ys);
    SumPermutation(xs, ys);
    assert |multiset(xs)| == |xs| && |multiset(ys)| == |ys|;
  }

  function Flatten(lists: seq<seq<real>>): seq<real> {
    if lists == [] then [] else Flatten(lists[..|lists| - 1]) + lists[|lists| - 1]
  }

  /** bins[i] is the posterior of lists[i], for every i. */
  ghost predicate Represents(bins: seq<Params>, lists: seq<seq<real>>, prior: Prior)
    requires prior.kappa0 > 0.0
  {
    |bins| == |lists| && forall i :: 0 <= i < |bins| ==> bins[i] == Posterior(prior, lists[i])
  }

  lemma SumsOfNothing()
    ensures StatsOf([]) == Sums(0.0, 0.0, 0.0)
  {
    assert Squares([]) == [];
  }

  lemma StatsConcat(a: seq<real>, b: seq<real>)
    ensures StatsOf(a + b) == AddSums(StatsOf(a), StatsOf(b))
  {
    hide Sum, SumSquares;
    SumConcat(a, b);
    SumSquaresConcat(a, b);
  }

  lemma {:induction false} TotalOfLists(ss: seq<Sums>, lists: seq<seq<real>>)
    requires |ss| == |lists| && forall i :: 0 <= i < |ss| ==> ss[i] == StatsOf(lists[i])
    ensures Total(ss) == StatsOf(Flatten(lists))
    decreases |ss|
  {
    if ss == [] {
      assert StatsOf([]) == Sums(0.0, 0.0, 0.0) by { SumsOfNothing(); }
    } else {
      hide StatsOf;
      var n := |ss| - 1;
      TotalOfLists(ss[..n], lists[..n]);
      StatsConcat(Flatten(lists[..n]), lists[n]);
    }
  }

  /** Merging posteriors gives exactly the posterior of all their observations together. */
  lemma MergeIsExact(bins: seq<Params>, lists: seq<seq<real>>, prior: Prior)
    requires prior.kappa0 > 0.0
    requires Represents(bins, lists, prior)
    ensures FromSums(Total(SumsOf(bins, prior)), prior) == Posterior(prior, Flatten(lists))
  {
    var ss := SumsOf(bins, prior);
    forall i | 0 <= i < |ss| ensures ss[i] == StatsOf(lists[i]) {
      SumsRoundTrip(prior, lists[i]);
    }
    TotalOfLists(ss, lists);
    SequentialEqualsBatch(prior, Flatten(lists));
  }
}
