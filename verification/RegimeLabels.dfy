/** Trend, volatility and severity labels from percentiles of past values. */
module RegimeLabels {
  import opened Common
  import opened RealSeq
  import opened RegimeConfig
  import opened Ordering

  datatype Trend = TrendHi | TrendLo | TrendFlat
  datatype Vol = VolHi | VolMed | VolLo
  datatype LabelError = IndexError | DataPrecondition

  predicate RealLeq(a: real, b: real) { a <= b }

  function Ascending(): (real, real) -> bool {
    (a: real, b: real) => RealLeq(a, b)
  }

  /** Position of percentile p in n sorted values, by linear interpolation. */
  function Position(n: nat, p: real): (h: real)
    requires n >= 1 && 0.0 <= p <= 100.0
    ensures 0.0 <= h <= (n - 1) as real
  {
    FractionBound((n - 1) as real, p / 100.0);
    Times((n - 1) as real, p / 100.0)
  }

  lemma FractionBound(n: real, f: real)
    requires n >= 0.0 && 0.0 <= f <= 1.0
    ensures 0.0 <= Times(n, f) <= n
  {
    assert n * (1.0 - f) >= 0.0;
  }

  function Ceiling(h: real): int {
    -((-h).Floor)
  }

  lemma FloorCeiling(h: real)
    ensures h.Floor as real <= h <= Ceiling(h) as real
    ensures Ceiling(h) <= h.Floor + 1
    ensures h.Floor as real == h <==> Ceiling(h) == h.Floor
  {
  }

  /** Value at a fractional position of a sorted sequence. */
  function Interpolate(s: seq<real>, h: real): real
    requires s != [] && 0.0 <= h <= (|s| - 1) as real
  {
    var lo := h.Floor;
    if lo == |s| - 1 then s[lo] else s[lo] + Times(h - lo as real, s[lo + 1] - s[lo])
  }

  function Percentile(values: seq<real>, p: real): real
    requires values != [] && 0.0 <= p <= 100.0
  {
    Interpolate(Sort(values, Ascending()), Position(|values|, p))
  }

  // Python's values[:k]: a negative k counts from the end.
  function Prefix(values: seq<real>, k: int): (r: seq<real>)
  {
    if k >= 0 then values[..Min(k, |values|)] else values[..Max(0, |values| + k)]
  }

  /** log1p is a parameter: only the comparison of the summed log return matters. */
  function ComputeTrend(cfg: Config, log1p: real -> real, rets: seq<real>, pit: int): Trend
    requires cfg.Valid()
  {
    var w := cfg.trendWindow;
    if pit < w - 1 then TrendFlat
    else if pit + 1 > |rets| then TrendFlat
    else
      var logReturn := Sum(Logs(log1p, rets[pit - w + 1..pit + 1]));
      if logReturn > cfg.trendFlatEpsilon then TrendHi
      else if logReturn < -cfg.trendFlatEpsilon then TrendLo
      else TrendFlat
  }

  function Logs(log1p: real -> real, rs: seq<real>): seq<real> {
    seq(|rs|, i requires 0 <= i < |rs| => log1p(rs[i]))
  }

  function ComputeVol(cfg: Config, history: seq<real>, pit: int): Result<Vol, LabelError>
    requires cfg.Valid()
  {
    var xs := Prefix(history, pit + 1);
    if xs == [] then Ok(VolMed)
    else
      var reference := if pit >= cfg.coldStartBurnIn then xs[Min(cfg.coldStartBurnIn, |xs|)..] else xs;
      if |reference| < 3 then Ok(VolMed)
      else if pit >= |xs| || |xs| + pit < 0 then Err(IndexError)
      else
        var v := if pit >= 0 then xs[pit] else xs[|xs| + pit];
        if v <= Percentile(reference, 100.0 / 3.0) then Ok(VolLo)
        else if v >= Percentile(reference, 200.0 / 3.0) then Ok(VolHi)
        else Ok(VolMed)
  }

  function ComputeSeverity(cfg: Config, history: seq<real>, pit: int): Result<bool, LabelError>
    requires cfg.Valid()
  {
    if pit < 0 then Err(DataPrecondition)
    else if pit >= |history| then Err(DataPrecondition)
    else if pit < cfg.coldStartBurnIn then Ok(false)
    else
      var past := history[cfg.coldStartBurnIn..pit];
      if |past| < 1 then Ok(false)
      else Ok(history[pit] >= Percentile(past, cfg.crisisPercentile))
  }

  // ---------------------------------------------------------------------------
  // Percentiles
  // ---------------------------------------------------------------------------

  lemma AscendingIsOrder()
    ensures TotalPreorder(Ascending()) && Antisymmetric(Ascending())
  {
  }

  ghost predicate NonDecreasing(s: seq<real>) {
    forall i, j :: 0 <= i <= j < |s| ==> s[i] <= s[j]
  }

  lemma SortedReals(values: seq<real>)
    ensures NonDecreasing(Sort(values, Ascending()))
  {
    AscendingIsOrder();
    SortSorted(values, Ascending());
    var s := Sort(values, Ascending());
    forall i, j | 0 <= i <= j < |s| ensures s[i] <= s[j] {
      if i < j { assert Ascending()(s[i], s[j]); }
    }
  }

  lemma InterpolateBetween(s: seq<real>, h: real)
    requires s != [] && 0.0 <= h <= (|s| - 1) as real && NonDecreasing(s)
    ensures Ceiling(h) < |s|
    ensures s[h.Floor] <= Interpolate(s, h) <= s[Ceiling(h)]
    ensures h.Floor as real == h ==> Interpolate(s, h) == s[h.Floor]
  {
    hide Times;
    FloorCeiling(h);
    var lo := h.Floor;
    if lo < |s| - 1 {
      assert s[lo] <= s[lo + 1];
      Blend(s[lo], s[lo + 1], h - lo as real, 1.0);
    }
  }

  lemma Blend(a: real, b: real, f: real, g: real)
    requires a <= b && 0.0 <= f <= g <= 1.0
    ensures a <= a + Times(f, b - a) <= a + Times(g, b - a) <= b
    ensures f == 0.0 ==> a + Times(f, b - a) == a
  {
    hide Times;
    TimesGrows(b - a, 0.0, f);
    TimesGrows(b - a, f, g);
    TimesGrows(b - a, g, 1.0);
  }

  lemma TimesGrows(c: real, f: real, g: real)
    requires c >= 0.0 && f <= g
    ensures Times(f, c) <= Times(g, c)
    ensures Times(0.0, c) == 0.0 && Times(1.0, c) == c
  {
    assert (g - f) * c >= 0.0;
  }

  lemma InterpolateMonotone(s: seq<real>, g: real, h: real)
    requires s != [] && 0.0 <= g <= h <= (|s| - 1) as real && NonDecreasing(s)
    ensures Interpolate(s, g) <= Interpolate(s, h)
  {
    hide Times;
    var lo := g.Floor;
    FloorCeiling(g);
    FloorCeiling(h);
    if h.Floor == lo {
      if lo < |s| - 1 {
        assert s[lo] <= s[lo + 1];
        Blend(s[lo], s[lo + 1], g - lo as real, h - lo as real);
      }
    } else {
      InterpolateBetween(s, g);
      InterpolateBetween(s, h);
      assert Ceiling(g) <= h.Floor;
    }
  }

  lemma PositionMonotone(n: nat, p: real, q: real)
    requires n >= 1 && 0.0 <= p <= q <= 100.0
    ensures Position(n, p) <= Position(n, q)
  {
    assert (n - 1) as real * (q / 100.0 - p / 100.0) >= 0.0;
  }

  /** A higher percentile is never lower. */
  lemma PercentileMonotone(values: seq<real>, p: real, q: real)
    requires values != [] && 0.0 <= p <= q <= 100.0
    ensures Percentile(values, p) <= Percentile(values, q)
  {
    hide Times, Interpolate;
    SortedReals(values);
    PositionMonotone(|values|, p, q);
    InterpolateMonotone(Sort(values, Ascending()), Position(|values|, p), Position(|values|, q));
  }

  /** The terciles are ordered, so a value below the lower one is never above the upper one. */
  lemma TercilesOrdered(values: seq<real>)
    requires values != []
    ensures Percentile(values, 100.0 / 3.0) <= Percentile(values, 200.0 / 3.0)
  {
    PercentileMonotone(values, 100.0 / 3.0, 200.0 / 3.0);
  }

  /** A percentile depends on the bag of values only. */
  lemma PercentileOrderFree(a: seq<real>, b: seq<real>, p: real)
    requires multiset(a) == multiset(b) && a != [] && b != [] && 0.0 <= p <= 100.0
    ensures Percentile(a, p) == Percentile(b, p)
  {
    AscendingIsOrder();
    SortSorted(a, Ascending());
    SortSorted(b, Ascending());
    SortedUnique(Sort(a, Ascending()), Sort(b, Ascending()), Ascending());
  }

  /**
   * The percentile in any ascending arrangement of the values: value k at p = 100 k / (n - 1), and on the
   * straight line between neighbours.
   */
  lemma PercentileIsLinear(values: seq<real>, s: seq<real>, k: nat, p: real)
    requires multiset(s) == multiset(values) && NonDecreasing(s) && k < |s| && 0.0 <= p <= 100.0
    requires k as real * 100.0 <= p * (|s| - 1) as real <= (k + 1) as real * 100.0
    ensures values != []
    ensures Percentile(values, p)
         == if k == |s| - 1 then s[k] else s[k] + (p * (|s| - 1) as real / 100.0 - k as real) * (s[k + 1] - s[k])
  {
    hide Position, Sort, NonDecreasing;
    assert |multiset(s)| == |s| && |multiset(values)| == |values|;
    OneSorted(values, s);
    PositionIs(|s|, p);
    InterpolateAt(s, k, Position(|s|, p));
  }

  lemma InterpolateAt(s: seq<real>, k: nat, h: real)
    requires k < |s| && 0.0 <= h <= (|s| - 1) as real && k as real <= h <= (k + 1) as real
    ensures Interpolate(s, h) == if k == |s| - 1 then s[k] else s[k] + (h - k as real) * (s[k + 1] - s[k])
  {
    if h.Floor != k {
      assert h == (k + 1) as real && h.Floor == k + 1;
    }
  }

  lemma OneSorted(values: seq<real>, s: seq<real>)
    requires multiset(s) == multiset(values) && NonDecreasing(s)
    ensures Sort(values, Ascending()) == s
  {
    AscendingIsOrder();
    SortSorted(values, Ascending());
    forall i, j | 0 <= i < j < |s| ensures Ascending()(s[i], s[j]) {
      assert s[i] <= s[j];
    }
    SortedUnique(Sort(values, Ascending()), s, Ascending());
  }

  lemma PositionIs(n: nat, p: real)
    requires n >= 1 && 0.0 <= p <= 100.0
    ensures Position(n, p) == p * (n - 1) as real / 100.0
  {
    var m := (n - 1) as real;
    assert m * (p / 100.0) * 100.0 == p * m;
  }

  function AtMost(v: real): real -> bool {
    (x: real) => x <= v
  }

  function Above(v: real): real -> bool {
    (x: real) => x > v
  }

  lemma CountSplit(s: seq<real>, v: real, k: nat)
    requires k <= |s|
    requires forall i :: 0 <= i < k ==> s[i] <= v
    ensures Count(s, AtMost(v)) >= k
    ensures (forall i :: k <= i < |s| ==> s[i] > v) ==> Count(s, AtMost(v)) == k
  {
    assert s == s[..k] + s[k..];
    CountConcat(s[..k], s[k..], AtMost(v));
    CountAll(s[..k], AtMost(v));
    if forall i :: k <= i < |s| ==> s[i] > v {
      CountAll(s[k..], Above(v));
      CountNot(s[k..], AtMost(v), Above(v));
    }
  }

  lemma CountFrom(s: seq<real>, v: real, k: nat)
    requires k <= |s|
    requires forall i :: k <= i < |s| ==> s[i] > v
    ensures Count(s, AtMost(v)) <= k
  {
    assert s == s[..k] + s[k..];
    CountConcat(s[..k], s[k..], AtMost(v));
    CountAll(s[k..], Above(v));
    CountNot(s[k..], AtMost(v), Above(v));
  }

  /** In sorted order s[k] <= v forces k + 1 values at most v, and s[k] > v allows at most k. */
  lemma CountAtMost(values: seq<real>, v: real, k: nat)
    requires k < |values|
    ensures var s := Sort(values, Ascending());
      && (s[k] <= v ==> Count(values, AtMost(v)) >= k + 1)
      && (s[k] > v ==> Count(values, AtMost(v)) <= k)
  {
    SortedReals(values);
    CountSort(values, Ascending(), AtMost(v));
    var s := Sort(values, Ascending());
    if s[k] <= v {
      CountSplit(s, v, k + 1);
    } else {
      CountFrom(s, v, k);
    }
  }

  /**
   * Severity is a counting statement. With n past values and h = (n - 1) p / 100, "current is at or above
   * the percentile" needs floor(h) + 1 past values at most current; below it, n - ceil(h) lie above current.
   * When h is whole the first count decides.
   */
  lemma ThresholdCounts(past: seq<real>, p: real, current: real)
    requires past != [] && 0.0 <= p <= 100.0
    ensures var h := Position(|past|, p);
      && (current >= Percentile(past, p) ==> Count(past, AtMost(current)) >= h.Floor + 1)
      && (current < Percentile(past, p) ==> Count(past, Above(current)) >= |past| - Ceiling(h))
      && (h.Floor as real == h ==>
            (current >= Percentile(past, p) <==> Count(past, AtMost(current)) >= h.Floor + 1))
  {
    hide Times, Interpolate, Count;
    var h := Position(|past|, p);
    SortedReals(past);
    FloorCeiling(h);
    InterpolateBetween(Sort(past, Ascending()), h);
    CountAtMost(past, current, h.Floor);
    CountAtMost(past, current, Ceiling(h));
    CountNot(past, AtMost(current), Above(current));
  }

  /** The severity flag as a count over the past values after burn-in. */
  lemma SeverityCounts(cfg: Config, history: seq<real>, pit: int)
    requires cfg.Valid()
    ensures ComputeSeverity(cfg, history, pit).Err? <==> !(0 <= pit < |history|)
    ensures ComputeSeverity(cfg, history, pit).Err? ==> ComputeSeverity(cfg, history, pit) == Err(DataPrecondition)
    ensures 0 <= pit < |history| && pit <= cfg.coldStartBurnIn ==> ComputeSeverity(cfg, history, pit) == Ok(false)
    ensures cfg.coldStartBurnIn < pit < |history| ==>
      var past := history[cfg.coldStartBurnIn..pit];
      var h := Position(|past|, cfg.crisisPercentile);
      && ComputeSeverity(cfg, history, pit) == Ok(history[pit] >= Percentile(past, cfg.crisisPercentile))
      && (ComputeSeverity(cfg, history, pit) == Ok(true) ==>
            Count(past, AtMost(history[pit])) >= h.Floor + 1)
      && (ComputeSeverity(cfg, history, pit) == Ok(false) ==>
            Count(past, Above(history[pit])) >= |past| - Ceiling(h))
  {
    if cfg.coldStartBurnIn < pit < |history| {
      ThresholdCounts(history[cfg.coldStartBurnIn..pit], cfg.crisisPercentile, history[pit]);
    }
  }

  /** The trend is the sign of the trailing window's log return outside the flat band, and flat without a window. */
  lemma TrendMeaning(cfg: Config, log1p: real -> real, rets: seq<real>, pit: int)
    requires cfg.Valid()
    ensures var w := cfg.trendWindow;
      var trend := ComputeTrend(cfg, log1p, rets, pit);
      if w - 1 <= pit < |rets| then
        var gain := Sum(seq(w, i requires 0 <= i < w => log1p(rets[pit + 1 - w + i])));
        && (trend == TrendHi <==> gain > cfg.trendFlatEpsilon)
        && (trend == TrendLo <==> gain < -cfg.trendFlatEpsilon)
      else
        trend == TrendFlat
  {
    var w := cfg.trendWindow;
    if w - 1 <= pit < |rets| {
      assert Logs(log1p, rets[pit - w + 1..pit + 1])
          == seq(w, i requires 0 <= i < w => log1p(rets[pit + 1 - w + i]));
    }
  }

  /**
   * For an index inside the history the label compares the value there with the terciles of the values from
   * the end of the burn-in to it, or of all up to it during the burn-in; fewer than three values are no basis.
   */
  lemma VolMeaning(cfg: Config, history: seq<real>, pit: nat)
    requires cfg.Valid() && pit < |history|
    ensures var first := if pit >= cfg.coldStartBurnIn then cfg.coldStartBurnIn else 0;
      var seen := history[first..pit + 1];
      var vol := ComputeVol(cfg, history, pit);
      if |seen| < 3 then
        vol == Ok(VolMed)
      else
        var lower, upper := Percentile(seen, 100.0 / 3.0), Percentile(seen, 200.0 / 3.0);
        && (vol == Ok(VolLo) <==> history[pit] <= lower)
        && (vol == Ok(VolMed) <==> lower < history[pit] < upper)
        && (vol == Ok(VolHi) <==> lower < history[pit] && upper <= history[pit])
  {
    hide Percentile;
    var cold := cfg.coldStartBurnIn;
    assert history[..pit + 1][pit] == history[pit];
    if pit >= cold {
      assert history[..pit + 1][cold..] == history[cold..pit + 1];
    } else {
      assert history[0..pit + 1] == history[..pit + 1];
    }
  }

  /**
   * Outside the history: past its end an error unless too little is left after the burn-in; at -1 medium; and
   * below -1 the index and the end of the slice are both counted back from the end, the latter one less.
   */
  lemma VolOutside(cfg: Config, history: seq<real>, pit: int)
    requires cfg.Valid() && !(0 <= pit < |history|)
    ensures pit == -1 ==> ComputeVol(cfg, history, pit) == Ok(VolMed)
    ensures pit >= 0 ==>
      var first := if pit >= cfg.coldStartBurnIn then cfg.coldStartBurnIn else 0;
      ComputeVol(cfg, history, pit) == if |history| - first < 3 then Ok(VolMed) else Err(IndexError)
    ensures pit < -1 ==>
      var n := |history| + pit + 1;
      var vol := ComputeVol(cfg, history, pit);
      if n < 3 then vol == Ok(VolMed)
      else if n + pit < 0 then vol == Err(IndexError)
      else
        var v := history[n + pit];
        var lower, upper := Percentile(history[..n], 100.0 / 3.0), Percentile(history[..n], 200.0 / 3.0);
        && (vol == Ok(VolLo) <==> v <= lower)
        && (vol == Ok(VolMed) <==> lower < v < upper)
        && (vol == Ok(VolHi) <==> lower < v && upper <= v)
  {
    hide Percentile;
  }

  lemma SliceOfPrefix(a: seq<real>, n: nat, i: nat, j: nat)
    requires i <= j <= n <= |a|
    ensures a[..n][i..j] == a[i..j]
  {
  }

  /** What lies at or before the boundary index. */
  function UpTo(values: seq<real>, pit: int): seq<real> {
    if pit < 0 then [] else values[..Min(pit + 1, |values|)]
  }

  /**
   * Histories that agree up to the boundary get the same trend and the same severity, for every boundary
   * index; the same volatility label unless the index is below -1; and every label for an index inside.
   */
  lemma NoLookahead(cfg: Config, log1p: real -> real, a: seq<real>, b: seq<real>, pit: int)
    requires cfg.Valid() && UpTo(a, pit) == UpTo(b, pit)
    ensures ComputeTrend(cfg, log1p, a, pit) == ComputeTrend(cfg, log1p, b, pit)
    ensures pit >= -1 ==> ComputeVol(cfg, a, pit) == ComputeVol(cfg, b, pit)
    ensures ComputeSeverity(cfg, a, pit) == ComputeSeverity(cfg, b, pit)
    ensures 0 <= pit < |a| ==> ComputeVol(cfg, a, pit).Ok? && ComputeSeverity(cfg, a, pit).Ok?
  {
    hide Percentile, Sum;
    if pit >= |a| || pit >= |b| {
      if pit >= 0 { SameWhenShort(a, b, pit); }
    } else if pit >= 0 {
      var common := a[..pit + 1];
      assert a[pit] == common[pit] == b[pit];
      var w, cold := cfg.trendWindow, cfg.coldStartBurnIn;
      if pit >= w - 1 {
        SliceOfPrefix(a, pit + 1, pit - w + 1, pit + 1);
        SliceOfPrefix(b, pit + 1, pit - w + 1, pit + 1);
      }
      if pit >= cold {
        SliceOfPrefix(a, pit + 1, cold, pit);
        SliceOfPrefix(b, pit + 1, cold, pit);
      }
    }
  }

  lemma SameWhenShort(a: seq<real>, b: seq<real>, pit: nat)
    requires UpTo(a, pit) == UpTo(b, pit) && (pit >= |a| || pit >= |b|)
    ensures a == b
  {
    assert |UpTo(a, pit)| == |UpTo(b, pit)|;
    assert a[..|a|] == a && b[..|b|] == b;
  }

  lemma ConstantPercentile(values: seq<real>, c: real, p: real)
    requires values != [] && 0.0 <= p <= 100.0 && forall i :: 0 <= i < |values| ==> values[i] == c
    ensures Percentile(values, p) == c
  {
    hide Interpolate;
    var s, h := Sort(values, Ascending()), Position(|values|, p);
    SortedReals(values);
    InterpolateBetween(s, h);
    SameBagSameMembers(s, values);
    assert s[h.Floor] in s && s[Ceiling(h)] in s;
  }

  /** Below -1 the slice of the history counts from its end, so a long enough history is read after all. */
  lemma NegativeIndexReadsHistory(cfg: Config, pit: int)
    requires cfg.Valid() && pit < -1
    ensures UpTo([], pit) == UpTo(seq(3 - 2 * pit, _ => 0.0), pit)
    ensures ComputeVol(cfg, [], pit) == Ok(VolMed)
    ensures ComputeVol(cfg, seq(3 - 2 * pit, _ => 0.0), pit) == Ok(VolLo)
  {
    hide Percentile;
    var xs := Prefix(seq(3 - 2 * pit, _ => 0.0), pit + 1);
    assert |xs| == 4 - pit;
    ConstantPercentile(xs, 0.0, 100.0 / 3.0);
  }

  /** The volatility label depends on nothing after the boundary exactly for boundary indices from -1 on. */
  lemma VolNoLookaheadIff(cfg: Config, pit: int)
    requires cfg.Valid()
    ensures (forall a, b :: UpTo(a, pit) == UpTo(b, pit) ==> ComputeVol(cfg, a, pit) == ComputeVol(cfg, b, pit))
      <==> pit >= -1
  {
    hide ComputeVol, UpTo;
    if pit >= -1 {
      forall a, b | UpTo(a, pit) == UpTo(b, pit) ensures ComputeVol(cfg, a, pit) == ComputeVol(cfg, b, pit) {
        NoLookahead(cfg, (x: real) => x, a, b, pit);
      }
    } else {
      NegativeIndexReadsHistory(cfg, pit);
    }
  }
}
