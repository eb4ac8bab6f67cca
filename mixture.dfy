/** `MixtureCopula_Likelihood.gplink_function` (the second definition of the
    class, which shadows the first): `2n - 1` latent values become `n` copula
    parameters, one per component likelihood, and `n` mixing weights built by a
    stick-breaking product of `n - 1` gates. One data point is modelled; the
    tensor code applies the same computation to every point and sample. */
module MixtureLikelihood {
  import opened Wrappers
  import opened Primitives
  import opened CopulaLinks
  import opened RealSeqs

  /** `lr_ratio`: the ratio of the mixing latents' learning rate to the
      parameter latents'. */
  const LrRatio: real := 0.5

  /** The failed row-count `assert`: `expected` rows were required. */
  datatype LinkError = RowCountMismatch(expected: int, actual: nat)

  /** The stacked `thetas` and `mix`, both in likelihood order. */
  datatype MixtureParams = MixtureParams(thetas: seq<real>, mix: seq<real>)

  /** `p0 = (n - j - 1) / (n - j)` for gate `j`; the loops only ever use
      `j <= n - 2`, which keeps it in [1/2, 1), so `Φ⁻¹(p0)` is finite. */
  function Offset(n: nat, j: nat): (p0: real)
    requires j + 2 <= n
    ensures 0.5 <= p0 < 1.0
  {
    (n - j - 1) as real / (n - j) as real
  }

  /** Gate `j`, the fraction of the remaining mass that stage `j` passes on:
      `Φ(lr_ratio * f[n + j] + Φ⁻¹(p0))`. */
  function Gate(p: Primitives, n: nat, j: nat, f: seq<real>): (g: real)
    requires p.Valid()
    requires j + 2 <= n && n + j < |f|
    ensures 0.0 < g < 1.0
  {
    p.phi(LrRatio * f[n + j] + p.phiInv(Offset(n, j)))
  }

  /** The `n - 1` gates of a latent vector with `2n - 1` rows. */
  function Gates(p: Primitives, n: nat, f: seq<real>): (gs: seq<real>)
    requires p.Valid()
    requires 1 <= n && |f| == 2 * n - 1
    ensures |gs| == n - 1
    ensures forall j :: 0 <= j < n - 1 ==> 0.0 < gs[j] < 1.0
  {
    seq(n - 1, j requires 0 <= j < n - 1 => Gate(p, n, j, f))
  }

  /** Stick-breaking weights from gates `g`: component `i < |g|` takes
      `g[0] * ... * g[i - 1] * (1 - g[i])`, the last takes the product of all
      gates. */
  function StickWeights(g: seq<real>): (w: seq<real>)
    ensures |w| == |g| + 1
    ensures |g| > 0 ==> w[0] == 1.0 - g[0]
    ensures w[|g|] == Prod(g)
  {
    seq(|g| + 1, i requires 0 <= i <= |g| => if i < |g| then Prod(g[..i]) * (1.0 - g[i]) else Prod(g))
  }

  /** Each likelihood's own link applied to its row of latents. */
  function Thetas(liks: seq<Family>, p: Primitives, f: seq<real>): (thetas: seq<real>)
    requires p.Valid()
    requires |liks| <= |f|
    ensures |thetas| == |liks|
    ensures forall i :: 0 <= i < |liks| ==> Lower(liks[i]) < thetas[i] < Upper(liks[i])
  {
    seq(|liks|, i requires 0 <= i < |liks| => Link(liks[i], p, f[i]))
  }

  /** What the mixture link returns: the parameters and weights, or the
      row-count failure. */
  function MixtureLink(liks: seq<Family>, p: Primitives, f: seq<real>): (r: Result<MixtureParams, LinkError>)
    requires p.Valid()
    ensures r.Success? <==> |f| == 2 * |liks| - 1
    ensures r.Success? ==> |r.value.thetas| == |r.value.mix| == |liks|
    ensures r.Success? ==> forall i :: 0 <= i < |liks| ==> r.value.thetas[i] == Link(liks[i], p, f[i])
  {
    if |f| != 2 * |liks| - 1 then Failure(RowCountMismatch(2 * |liks| - 1, |f|))
    else Success(MixtureParams(Thetas(liks, p, f), StickWeights(Gates(p, |liks|, f))))
  }

  /** The inner loop of `gplink_function`: the running product of the first
      `i` gates, the mass that reaches component `i`. */
  method PassedMass(p: Primitives, n: nat, f: seq<real>, i: nat) returns (prob: real)
    requires p.Valid()
    requires 1 <= n && |f| == 2 * n - 1 && i < n
    ensures prob == Prod(Gates(p, n, f)[..i])
  {
    ghost var gates := Gates(p, n, f);
    prob := 1.0;
    var j := 0;
    while j < i
      invariant 0 <= j <= i
      invariant prob == Prod(gates[..j])
    {
      var f0 := p.phiInv(Offset(n, j));
      var g := p.phi(LrRatio * f[j + n] + f0);
      GateAt(p, n, f, j);
      PrefixProdStep(gates, j, prob, g);
      prob := prob * g;
      j := j + 1;
    }
  }

  /** The loop of `gplink_function`: appends each likelihood's parameter, and
      builds each weight from a running product over the earlier gates. */
  method GpLink(liks: seq<Family>, p: Primitives, f: seq<real>) returns (r: Result<MixtureParams, LinkError>)
    requires p.Valid()
    ensures r == MixtureLink(liks, p, f)
  {
    var n := |liks|;
    if 2 * n - 1 != |f| {
      return Failure(RowCountMismatch(2 * n - 1, |f|));
    }
    ghost var gates := Gates(p, n, f);
    ghost var weights := StickWeights(gates);
    ghost var allThetas := Thetas(liks, p, f);
    var thetas: seq<real> := [];
    var mix: seq<real> := [];
    var i := 0;
    while i < n
      invariant 0 <= i <= n
      invariant thetas == allThetas[..i]
      invariant mix == weights[..i]
    {
      PrefixExtend(allThetas, i);
      thetas := thetas + [Link(liks[i], p, f[i])];
      var prob := PassedMass(p, n, f, i);
      if i != n - 1 {
        var f0 := p.phiInv(Offset(n, i));
        var stop := 1.0 - p.phi(LrRatio * f[i + n] + f0);
        GateAt(p, n, f, i);
        StopStep(gates, i, prob, stop);
        prob := prob * stop;
      } else {
        assert gates[..i] == gates;
        assert prob == weights[i];
      }
      PrefixExtend(weights, i);
      mix := mix + [prob];
      i := i + 1;
    }
    assert thetas == allThetas by {
      assert allThetas[..n] == allThetas;
    }
    assert mix == weights by {
      assert weights[..n] == weights;
    }
    return Success(MixtureParams(thetas, mix));
  }

  /** Gate `j` as the loops compute it. */
  lemma GateAt(p: Primitives, n: nat, f: seq<real>, j: nat)
    requires p.Valid()
    requires 1 <= n && |f| == 2 * n - 1 && j < n - 1
    ensures Gates(p, n, f)[j] == p.phi(LrRatio * f[j + n] + p.phiInv(Offset(n, j)))
  {
  }

  /** Extending a prefix by one gate multiplies its product by that gate. */
  lemma PrefixProdStep(g: seq<real>, j: nat, prob: real, gate: real)
    requires j < |g|
    requires prob == Prod(g[..j]) && gate == g[j]
    ensures prob * gate == Prod(g[..j + 1])
  {
    assert g[..j + 1][..j] == g[..j];
  }

  /** The weight of a component that stops at gate `i`. */
  lemma StopStep(g: seq<real>, i: nat, prob: real, stop: real)
    requires i < |g|
    requires prob == Prod(g[..i]) && stop == 1.0 - g[i]
    ensures prob * stop == StickWeights(g)[i]
  {
  }

  /** The stopped mass of the first `k` stages telescopes: it is one minus the
      mass that passes all `k` gates. */
  lemma {:induction false} StoppedMass(g: seq<real>, k: nat)
    requires k <= |g|
    ensures Sum(StickWeights(g)[..k]) == 1.0 - Prod(g[..k])
  {
    if k > 0 {
      var w := StickWeights(g);
      StoppedMass(g, k - 1);
      assert w[..k][..k - 1] == w[..k - 1];
      assert g[..k][..k - 1] == g[..k - 1];
    }
  }

  /** Stick-breaking weights sum to exactly one, whatever the gates. */
  lemma StickWeightsSumToOne(g: seq<real>)
    ensures Sum(StickWeights(g)) == 1.0
  {
    var w := StickWeights(g);
    StoppedMass(g, |g|);
    assert w[..|g|] == w[..|w| - 1];
    assert g[..|g|] == g;
  }

  /** With gates in [0, 1] every stick-breaking weight is in [0, 1]. */
  lemma StickWeightsInUnit(g: seq<real>)
    requires forall j :: 0 <= j < |g| ==> 0.0 <= g[j] <= 1.0
    ensures forall i :: 0 <= i <= |g| ==> 0.0 <= StickWeights(g)[i] <= 1.0
  {
    forall i | 0 <= i <= |g|
      ensures 0.0 <= StickWeights(g)[i] <= 1.0
    {
      ProdInUnit(g[..i]);
      if i < |g| {
        UnitProduct(Prod(g[..i]), 1.0 - g[i]);
      } else {
        assert g[..i] == g;
      }
    }
  }

  /** With gates in (0, 1) every stick-breaking weight is strictly positive. */
  lemma StickWeightsPositive(g: seq<real>)
    requires forall j :: 0 <= j < |g| ==> 0.0 < g[j] < 1.0
    ensures forall i :: 0 <= i <= |g| ==> 0.0 < StickWeights(g)[i]
  {
    forall i | 0 <= i <= |g|
      ensures 0.0 < StickWeights(g)[i]
    {
      StickWeightPositiveAt(g, i);
    }
  }

  lemma StickWeightPositiveAt(g: seq<real>, i: nat)
    requires forall j :: 0 <= j < |g| ==> 0.0 < g[j] < 1.0
    requires i <= |g|
    ensures 0.0 < StickWeights(g)[i]
  {
    ProdPositive(g[..i]);
    if i < |g| {
      PositiveProduct(Prod(g[..i]), 1.0 - g[i]);
    } else {
      assert g[..i] == g;
    }
  }

  /** The mixture link's weights form a probability vector with every entry
      strictly positive. */
  lemma MixtureWeightsSimplex(liks: seq<Family>, p: Primitives, f: seq<real>)
    requires p.Valid()
    requires |f| == 2 * |liks| - 1
    ensures Sum(MixtureLink(liks, p, f).value.mix) == 1.0
    ensures forall i :: 0 <= i < |liks| ==> 0.0 < MixtureLink(liks, p, f).value.mix[i] <= 1.0
  {
    var g := Gates(p, |liks|, f);
    StickWeightsSumToOne(g);
    StickWeightsInUnit(g);
    StickWeightsPositive(g);
  }

  /** `(m / n) * ((m - 1) / m) == (m - 1) / n`. */
  lemma ScaledRatio(m: real, n: real)
    requires m > 0.0 && n > 0.0
    ensures (m / n) * ((m - 1.0) / m) == (m - 1.0) / n
  {
    var a, b := m / n, (m - 1.0) / m;
    assert a * n == m;
    assert b * m == m - 1.0;
    calc {
      (a * b) * n;
      (a * n) * b;
      m * b;
      m - 1.0;
    }
  }

  /** Gates that sit exactly at their offsets pass `(n - i) / n` of the mass
      through the first `i` of them. */
  lemma {:induction false} PassedMassAtOffsets(n: nat, g: seq<real>, i: nat)
    requires 1 <= n && |g| == n - 1
    requires forall j :: 0 <= j < n - 1 ==> g[j] == Offset(n, j)
    requires i <= n - 1
    ensures Prod(g[..i]) == (n - i) as real / n as real
  {
    if i > 0 {
      PassedMassAtOffsets(n, g, i - 1);
      assert g[..i][..i - 1] == g[..i - 1];
      var m := (n - i + 1) as real;
      assert g[i - 1] == (m - 1.0) / m;
      assert Prod(g[..i]) == (m / n as real) * ((m - 1.0) / m);
      ScaledRatio(m, n as real);
    }
  }

  /** `(m / n) * (1 - (m - 1) / m) == 1 / n`. */
  lemma LastStop(m: real, n: real)
    requires m > 0.0 && n > 0.0
    ensures (m / n) * (1.0 - (m - 1.0) / m) == 1.0 / n
  {
    var a, b := m / n, (m - 1.0) / m;
    assert a * n == m;
    assert b * m == m - 1.0;
    calc {
      (a * (1.0 - b)) * n;
      (a * n) * (1.0 - b);
      m * (1.0 - b);
      m - m * b;
      1.0;
    }
  }

  /** Gates at their offsets give every component weight `1 / n`. */
  lemma StickWeightsAtOffsets(n: nat, g: seq<real>)
    requires 1 <= n && |g| == n - 1
    requires forall j :: 0 <= j < n - 1 ==> g[j] == Offset(n, j)
    ensures forall i :: 0 <= i < n ==> StickWeights(g)[i] == 1.0 / n as real
  {
    forall i | 0 <= i < n
      ensures StickWeights(g)[i] == 1.0 / n as real
    {
      PassedMassAtOffsets(n, g, i);
      if i < n - 1 {
        var m := (n - i) as real;
        assert g[i] == (m - 1.0) / m;
        LastStop(m, n as real);
      } else {
        assert g[..i] == g;
      }
    }
  }

  /** The offsets are calibrated: when every mixing latent is 0, every gate
      equals its offset and every component gets weight exactly `1 / n`. */
  lemma UniformAtZero(liks: seq<Family>, p: Primitives, f: seq<real>)
    requires p.Valid()
    requires |f| == 2 * |liks| - 1
    requires forall k :: |liks| <= k < |f| ==> f[k] == 0.0
    ensures forall i :: 0 <= i < |liks| ==> MixtureLink(liks, p, f).value.mix[i] == 1.0 / |liks| as real
  {
    var n := |liks|;
    var g := Gates(p, n, f);
    forall j | 0 <= j < n - 1
      ensures g[j] == Offset(n, j)
    {
      assert LrRatio * f[n + j] == 0.0;
    }
    StickWeightsAtOffsets(n, g);
  }
}
