/** Residual variance accumulated over row chunks, against the textbook definition. */
module ResidualVariance {
  import opened Common
  import opened RealSeq

  /** y - predict(x), row by row. */
  function Residuals<T>(predict: T -> real, xs: seq<T>, ys: seq<real>): (r: seq<real>)
    requires |xs| == |ys|
    ensures |r| == |xs|
    ensures forall i :: 0 <= i < |xs| ==> r[i] == ys[i] - predict(xs[i])
  {
    seq(|xs|, i requires 0 <= i < |xs| => ys[i] - predict(xs[i]))
  }

  lemma ChunkSums(all: seq<real>, start: nat, end: nat)
    requires start <= end <= |all|
    ensures Sum(all[..end]) == Sum(all[..start]) + Sum(all[start..end])
    ensures SumSquares(all[..end]) == SumSquares(all[..start]) + SumSquares(all[start..end])
  {
    hide Sum, SumSquares;
    assert all[..end] == all[..start] + all[start..end];
    SumConcat(all[..start], all[start..end]);
    SumSquaresConcat(all[..start], all[start..end]);
  }

  /**
   * The chunk loop. None stands for the fixed answer 1.0 when there are no rows; otherwise the value whose
   * square root is returned. The clamp at zero is part of the code and never bites.
   */
  method ResidualVarianceByChunks<T>(predict: T -> real, xs: seq<T>, ys: seq<real>, chunkRows: int)
    returns (r: Option<real>)
    requires |xs| == |ys| && chunkRows > 0
    ensures ys == [] ==> r == None
    ensures ys != [] ==> r == Some(Variance(Residuals(predict, xs, ys)))
  {
    if |ys| == 0 {
      return None;
    }
    ghost var all := Residuals(predict, xs, ys);
    var residualSum, residualSumSq, residualCount := 0.0, 0.0, 0;
    var start := 0;
    assert all[..0] == [];
    assert Squares([]) == [];
    while start < |ys|
      invariant 0 <= start
      invariant residualCount == Min(start, |ys|)
      invariant residualSum == Sum(all[..residualCount])
      invariant residualSumSq == SumSquares(all[..residualCount])
    {
      hide Sum, SumSquares;
      var end := Min(start + chunkRows, |ys|);
      var residuals := Residuals(predict, xs[start..end], ys[start..end]);
      assert residuals == all[start..end];
      ChunkSums(all, start, end);
      residualSum := residualSum + Sum(residuals);
      residualSumSq := residualSumSq + SumSquares(residuals);
      residualCount := residualCount + |residuals|;
      start := start + chunkRows;
    }
    assert all[..|ys|] == all;
    OnePassIsVariance(all);
    hide Variance, OnePass;
    var variance := OnePass(residualSumSq, residualSum, residualCount);
    r := Some(if variance > 0.0 then variance else 0.0);
  }
}
