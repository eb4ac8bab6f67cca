/** `GaussianCopula_Flow_Likelihood.corr_mat`: a batch of correlation values
    becomes a batch of 2×2 correlation matrices, which `forward` uses as the
    covariance of a bivariate normal. */
module GaussianCopulaFlow {
  import opened Primitives
  import opened CopulaLinks

  type Matrix = seq<seq<real>>

  /** A batch of `b` matrices of size 2×2. */
  ghost predicate IsBatch2x2(m: seq<Matrix>, b: nat) {
    |m| == b && forall k :: 0 <= k < b ==> |m[k]| == 2 && |m[k][0]| == 2 && |m[k][1]| == 2
  }

  /** `torch.stack([torch.stack([ones, X]), torch.stack([X, ones])])`: a
      2×2 grid of batch vectors. */
  function Stacked(x: seq<real>): (t: seq<seq<seq<real>>>)
    ensures |t| == 2 && |t[0]| == 2 && |t[1]| == 2
    ensures forall i, j :: 0 <= i < 2 && 0 <= j < 2 ==> |t[i][j]| == |x|
  {
    var ones := seq(|x|, _ => 1.0);
    [[ones, x], [x, ones]]
  }

  /** `einsum('ij...->...ij')`: moves the two leading axes behind the batch
      axis, so entry `[i][j][k]` becomes entry `[k][i][j]`. */
  function MoveBatchFirst(t: seq<seq<seq<real>>>, b: nat): (m: seq<Matrix>)
    requires |t| == 2 && |t[0]| == 2 && |t[1]| == 2
    requires forall i, j :: 0 <= i < 2 && 0 <= j < 2 ==> |t[i][j]| == b
    ensures IsBatch2x2(m, b)
    ensures forall k, i, j :: 0 <= k < b && 0 <= i < 2 && 0 <= j < 2 ==> m[k][i][j] == t[i][j][k]
  {
    seq(b, k requires 0 <= k < b => [[t[0][0][k], t[0][1][k]], [t[1][0][k], t[1][1][k]]])
  }

  /** The batch of correlation matrices: element `k` is `[[1, x_k], [x_k, 1]]`. */
  function CorrMat(x: seq<real>): (m: seq<Matrix>)
    ensures IsBatch2x2(m, |x|)
    ensures forall k :: 0 <= k < |x| ==> m[k] == [[1.0, x[k]], [x[k], 1.0]]
  {
    MoveBatchFirst(Stacked(x), |x|)
  }

  /** The determinant of a 2×2 matrix. */
  function Det(m: Matrix): real
    requires |m| == 2 && |m[0]| == 2 && |m[1]| == 2
  {
    m[0][0] * m[1][1] - m[0][1] * m[1][0]
  }

  /** `r * r < 1` for a correlation strictly inside (-1, 1). */
  lemma {:induction false} RhoSquaredBelowOne(r: real)
    requires -1.0 < r < 1.0
    ensures r * r < 1.0
  {
    if r >= 0.0 {
      assert r * r <= r * 1.0;
    } else {
      assert r * r <= (-r) * 1.0;
    }
  }

  /** Every matrix `corr_mat` builds from a correlation strictly inside
      (-1, 1) is symmetric with unit diagonal and positive determinant, so by
      Sylvester's criterion it is positive definite. */
  lemma CorrMatPositiveDefinite(x: seq<real>, k: nat)
    requires k < |x| && -1.0 < x[k] < 1.0
    ensures CorrMat(x)[k][0][1] == CorrMat(x)[k][1][0] == x[k]
    ensures CorrMat(x)[k][0][0] == CorrMat(x)[k][1][1] == 1.0
    ensures Det(CorrMat(x)[k]) > 0.0
  {
    var r := x[k];
    assert Det(CorrMat(x)[k]) == 1.0 - r * r;
    RhoSquaredBelowOne(r);
  }

  /** The link `2Φ(f) - 1` of the flow likelihood always gives `forward` a
      valid (positive definite) covariance. */
  lemma FlowCovarianceValid(p: Primitives, f: seq<real>, k: nat)
    requires p.Valid()
    requires k < |f|
    ensures Det(CorrMat(seq(|f|, i requires 0 <= i < |f| => NormalCdfLink(p, f[i])))[k]) > 0.0
  {
    var scale := seq(|f|, i requires 0 <= i < |f| => NormalCdfLink(p, f[i]));
    CorrMatPositiveDefinite(scale, k);
  }
}
