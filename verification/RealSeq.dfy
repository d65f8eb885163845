/** Sums and sums of squares of finite sequences of reals. */
module RealSeq {

  function Sum(s: seq<real>): real {
    if s == [] then 0.0 else s[0] + Sum(s[1..])
  }

  function Times(a: real, b: real): real {
    a * b
  }

  function Scale(c: real, s: seq<real>): (r: seq<real>)
    ensures |r| == |s|
    ensures forall i :: 0 <= i < |s| ==> r[i] == Times(c, s[i])
  {
    seq(|s|, i requires 0 <= i < |s| => Times(c, s[i]))
  }

  function Squares(s: seq<real>): (r: seq<real>)
    ensures |r| == |s|
    ensures forall i :: 0 <= i < |s| ==> r[i] == Times(s[i], s[i])
  {
    seq(|s|, i requires 0 <= i < |s| => Times(s[i], s[i]))
  }

  function SumSquares(s: seq<real>): real {
    Sum(Squares(s))
  }

  ghost predicate AllNonNegative(s: seq<real>) {
    forall i :: 0 <= i < |s| ==> s[i] >= 0.0
  }

  ghost predicate AllPositive(s: seq<real>) {
    forall i :: 0 <= i < |s| ==> s[i] > 0.0
  }

  lemma {:induction false} SumConcat(a: seq<real>, b: seq<real>)
    ensures Sum(a + b) == Sum(a) + Sum(b)
  {
    if a == [] {
      assert a + b == b;
    } else {
      SumConcat(a[1..], b);
      assert (a + b)[1..] == a[1..] + b;
    }
  }

  lemma SumSquaresConcat(a: seq<real>, b: seq<real>)
    ensures SumSquares(a + b) == SumSquares(a) + SumSquares(b)
  {
    SumConcat(Squares(a), Squares(b));
    assert Squares(a + b) == Squares(a) + Squares(b);
  }

  lemma SumSingle(x: real)
    ensures Sum([x]) == x
    ensures SumSquares([x]) == x * x
  {
    var sq := Squares([x]);
    assert sq == [Times(x, x)];
    assert sq[1..] == [] && [x][1..] == [];
  }

  lemma SumSnoc(s: seq<real>, x: real)
    ensures Sum(s + [x]) == Sum(s) + x
    ensures SumSquares(s + [x]) == SumSquares(s) + x * x
  {
    SumConcat(s, [x]);
    SumSquaresConcat(s, [x]);
    SumSingle(x);
  }

  lemma {:induction false} SumScale(c: real, s: seq<real>)
    ensures Sum(Scale(c, s)) == c * Sum(s)
  {
    if s != [] {
      SumScale(c, s[1..]);
      var scaled := Scale(c, s);
      assert scaled[1..] == Scale(c, s[1..]);
    }
  }

  lemma {:induction false} SumNonNegative(s: seq<real>)
    requires AllNonNegative(s)
    ensures Sum(s) >= 0.0
    ensures forall i :: 0 <= i < |s| ==> s[i] <= Sum(s)
  {
    if s != [] {
      SumNonNegative(s[1..]);
      forall i | 0 <= i < |s| ensures s[i] <= Sum(s) {
        if i > 0 { assert s[i] == s[1..][i - 1]; }
      }
    }
  }

  lemma SumSquaresNonNegative(s: seq<real>)
    ensures SumSquares(s) >= 0.0
  {
    SumNonNegative(Squares(s));
  }

  lemma BagWithout<T>(s: seq<T>, k: nat)
    requires k < |s|
    ensures multiset(s[..k] + s[k + 1..]) == multiset(s) - multiset{s[k]}
  {
    assert s == s[..k] + ([s[k]] + s[k + 1..]);
  }

  lemma SumWithout(s: seq<real>, k: nat)
    requires k < |s|
    ensures Sum(s) == s[k] + Sum(s[..k] + s[k + 1..])
  {
    var front, x, back := s[..k], s[k], s[k + 1..];
    assert s == (front + [x]) + back;
    SumConcat(front + [x], back);
    SumSnoc(front, x);
    SumConcat(front, back);
  }

  /** In two equal bags the first element of one is found in the other, leaving equal bags. */
  lemma Match<T>(a: seq<T>, b: seq<T>) returns (k: nat)
    requires multiset(a) == multiset(b) && a != []
    ensures k < |b| && b[k] == a[0]
    ensures multiset(a[1..]) == multiset(b[..k] + b[k + 1..])
  {
    assert a[0] in multiset(b);
    k :| 0 <= k < |b| && b[k] == a[0];
    assert multiset(a[1..]) == multiset(a) - multiset{a[0]} by {
      BagWithout(a, 0);
      assert a[..0] + a[1..] == a[1..];
    }
    BagWithout(b, k);
  }

  /** Both sums depend only on the bag of summands. */
  lemma {:induction false} SumPermutation(a: seq<real>, b: seq<real>)
    requires multiset(a) == multiset(b)
    ensures Sum(a) == Sum(b) && SumSquares(a) == SumSquares(b)
    decreases |a|
  {
    if a == [] {
      assert |multiset(b)| == |b|;
    } else {
      var k := Match(a, b);
      var rest := b[..k] + b[k + 1..];
      SumPermutation(a[1..], rest);
      SumWithout(b, k);
      SumWithout(Squares(b), k);
      assert Squares(b)[..k] + Squares(b)[k + 1..] == Squares(rest);
      assert Squares(a)[1..] == Squares(a[1..]);
    }
  }

  function Mean(xs: seq<real>): real
    requires xs != []
  {
    Sum(xs) / |xs| as real
  }

  function Deviations(xs: seq<real>, mean: real): (r: seq<real>)
    ensures |r| == |xs|
    ensures forall i :: 0 <= i < |xs| ==> r[i] == xs[i] - mean
  {
    seq(|xs|, i requires 0 <= i < |xs| => xs[i] - mean)
  }

  /** Mean squared deviation from the mean. */
  function Variance(rs: seq<real>): real
    requires rs != []
  {
    SumSquares(Deviations(rs, Mean(rs))) / |rs| as real
  }

  lemma SquareOfDifference(a: real, m: real)
    ensures Times(a - m, a - m) == Times(a, a) - 2.0 * m * a + m * m
  {
  }

  lemma {:induction false} DeviationSquares(rs: seq<real>, m: real)
    ensures SumSquares(Deviations(rs, m)) == SumSquares(rs) - 2.0 * m * Sum(rs) + |rs| as real * (m * m)
  {
    if rs == [] {
      assert Squares(Deviations(rs, m)) == [] && Squares(rs) == [];
    } else {
      var a, rest := rs[0], rs[1..];
      DeviationSquares(rest, m);
      SquareOfDifference(a, m);
      hide Times;
      assert Deviations(rs, m)[1..] == Deviations(rest, m);
      assert Squares(Deviations(rs, m))[1..] == Squares(Deviations(rest, m));
      assert Squares(rs)[1..] == Squares(rest);
      Expand(a, m, Sum(rest), |rest| as real);
    }
  }

  lemma Expand(a: real, m: real, s: real, n: real)
    ensures 2.0 * m * (a + s) == 2.0 * m * a + 2.0 * m * s
    ensures (n + 1.0) * (m * m) == n * (m * m) + m * m
  {
  }

  /** Mean of squares minus square of the mean, from the accumulated sums. */
  function OnePass(sumSq: real, sum: real, count: int): real
    requires count > 0
  {
    sumSq / count as real - sum / count as real * (sum / count as real)
  }

  /** The one-pass formula equals the textbook variance, so it is never negative. */
  lemma OnePassIsVariance(rs: seq<real>)
    requires rs != []
    ensures OnePass(SumSquares(rs), Sum(rs), |rs|) == Variance(rs)
    ensures Variance(rs) >= 0.0
  {
    hide Sum, SumSquares, OnePass;
    DeviationSquares(rs, Mean(rs));
    SumSquaresNonNegative(Deviations(rs, Mean(rs)));
    OnePassAlgebra(SumSquares(rs), SumSquares(Deviations(rs, Mean(rs))), |rs|, Mean(rs), Sum(rs));
    QuotientNonNegative(SumSquares(Deviations(rs, Mean(rs))), |rs| as real);
  }

  lemma OnePassAlgebra(q: real, d: real, count: int, m: real, s: real)
    requires count > 0 && m == s / count as real
    requires d == q - 2.0 * m * s + count as real * (m * m)
    ensures OnePass(q, s, count) == d / count as real
  {
    var n := count as real;
    assert s == n * m;
    assert d == q - n * (m * m) by { assert m * s == n * (m * m); }
    assert (q / n - m * m) * n == d;
  }

  lemma QuotientNonNegative(a: real, b: real)
    requires a >= 0.0 && b > 0.0
    ensures a / b >= 0.0
  {
  }
}
