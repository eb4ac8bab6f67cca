# CopulaGP link functions and importance pruning, in Dafny

This project models two pieces of CopulaGP, a library of bivariate copula
mixtures whose parameters are Gaussian-process (GP) functions of a covariate.

1. **Link functions** (`bvcopula/likelihoods.py`). Each copula likelihood maps
   an unconstrained GP latent value into its family's parameter range. The
   Gaussian, Student-T and Gaussian-flow likelihoods use `2Φ(f) - 1`. Frank
   uses `(σ(f) - 0.5)·29.8`, Clayton `σ(f)·9.9` and Gumbel `σ(f)·11.2 + 1`.
   The mixture likelihood (the second `MixtureCopula_Likelihood`, which shadows
   the first) takes `2n - 1` latent rows for `n` components. It returns each
   component's link of its own row, plus `n` mixing weights. The weights come
   from a stick-breaking product of `n - 1` gates
   `Φ(0.5·f[n + j] + Φ⁻¹((n - j - 1)/(n - j)))`. `corr_mat` turns a batch of
   correlations into 2×2 correlation matrices.
2. **Importance-based reduction** (`src/copulagp/select_copula/importance.py`).
   A component is significant when its mixing weight, averaged over the
   covariate grid, is above 0.10. `reduce_model` keeps the significant
   components in their original order.

Φ (standard normal CDF), Φ⁻¹ (its quantile) and σ (logistic sigmoid) come from
the tensor library. They are modelled as a value `Primitives` holding three
`real -> real` functions. Three predicates state the facts the proofs use:
`Valid()` (Φ and σ take values in (0, 1), and Φ(Φ⁻¹(p)) = p on (0, 1)),
`Monotone()` (strictly increasing) and `Symmetric()` (g(-x) = 1 - g(x)).
All of them hold of the exact real functions. All arithmetic is exact real
arithmetic.

Files: `primitives.dfy` (Φ, Φ⁻¹, σ), `links.dfy` (per-family links),
`mixture.dfy` (mixture link), `flow.dfy` (`corr_mat`), `importance.dfy`
(threshold and reduction), `real_seqs.dfy` (sums and products),
`wrappers.dfy` (`Result`).

Two facts about this version of the source shape the model:

- `MixtureCopula_Likelihood.gplink_function` (`bvcopula/likelihoods.py:189-234`)
  takes exactly `2n - 1` latent rows and has no theta-sharing map. The family
  links are the σ/Φ expressions at lines 63, 92, 105 and 119.
- `important_copulas` on a component with no grid points has a NaN mean in
  torch, and NaN compares false. The model flags such a component as not
  significant, rather than requiring non-empty rows.

## Model

| member | source | states |
|---|---|---|
| CopulaLinks.NormalCdfLink | bvcopula/likelihoods.py:57-63 | `2Φ(f) - 1` lies strictly in (-1, 1). This is also the Student-T link (lines 74-79) and the flow link (lines 140-151). |
| CopulaLinks.FrankLink | bvcopula/likelihoods.py:90-92 | `(σ(f) - 0.5)·29.8` lies strictly in (-14.9, 14.9). |
| CopulaLinks.ClaytonLink | bvcopula/likelihoods.py:103-106 | `σ(f)·9.9` lies strictly inside the commented range [0, 9.9]. |
| CopulaLinks.GumbelLink | bvcopula/likelihoods.py:117-120 | `σ(f)·11.2 + 1` lies strictly in (1, 12.2). |
| CopulaLinks.Link | bvcopula/likelihoods.py:48-120 | Each family's `gplink_function` maps into that family's open interval. |
| CopulaLinks.LinkIncreasing | bvcopula/likelihoods.py:57-120 | Every family's link is strictly increasing. |
| CopulaLinks.NormalCdfLinkOdd | bvcopula/likelihoods.py:57-63 | The Gaussian link is odd. |
| CopulaLinks.FrankLinkOdd | bvcopula/likelihoods.py:90-92 | The Frank link is odd and sends 0 to 0. |
| MixtureLikelihood.Offset | bvcopula/likelihoods.py:212-218 | The offset argument `p0` lies in [1/2, 1) for every gate index the loops use (j ≤ n - 2), so Φ⁻¹(p0) is finite. |
| MixtureLikelihood.Gate | bvcopula/likelihoods.py:212-219 | Each gate `Φ(0.5·f[n + j] + Φ⁻¹(p0))` lies strictly in (0, 1). |
| MixtureLikelihood.StickWeights | bvcopula/likelihoods.py:204-221 | `n - 1` gates give `n` weights. The first component takes `1 - g_0`, and the last keeps `∏ g_j`, the mass that passed every gate. `StickWeightsSumToOne`, `StickWeightsInUnit` and `StickWeightsPositive` are its partner lemmas. |
| MixtureLikelihood.Gates | bvcopula/likelihoods.py:212-215 | There are `n - 1` gates, one per mixing row, each strictly in (0, 1). |
| MixtureLikelihood.Thetas | bvcopula/likelihoods.py:202-203 | One parameter per likelihood, each in that likelihood's family range. |
| MixtureLikelihood.MixtureLink | bvcopula/likelihoods.py:189-234 | Succeeds exactly when there are `2n - 1` rows (the row-count assert). It then returns `n` thetas and `n` weights, with theta `i` being likelihood `i`'s link of row `i`. |
| MixtureLikelihood.PassedMass | bvcopula/likelihoods.py:204-215 | The inner `for j in range(i)` loop leaves the product of the first `i` gates in `prob`. |
| MixtureLikelihood.GpLink | bvcopula/likelihoods.py:189-234 | The imperative loop that appends to `thetas` and `mix` returns exactly `MixtureLink`, including the failure on a wrong row count. |
| MixtureLikelihood.StoppedMass | bvcopula/likelihoods.py:201-221 | The first `k` weights sum to one minus the product of the first `k` gates (the telescoping step). |
| MixtureLikelihood.StickWeightsSumToOne | bvcopula/likelihoods.py:212-221 | The weights `∏_{j<i} g_j·(1 - g_i)`, with the last being `∏ g_j`, sum to exactly 1 for any gates. |
| MixtureLikelihood.StickWeightsInUnit | bvcopula/likelihoods.py:212-221 | With every gate in [0, 1], every weight is in [0, 1]. |
| MixtureLikelihood.StickWeightsPositive | bvcopula/likelihoods.py:212-221 | With every gate in (0, 1), every weight is strictly positive. |
| MixtureLikelihood.MixtureWeightsSimplex | bvcopula/likelihoods.py:200-234 | The mixture link's weights are all in (0, 1] and sum to 1, for every latent input. |
| MixtureLikelihood.PassedMassAtOffsets | bvcopula/likelihoods.py:210-215 | When gates equal their offsets, the first `i` gates pass `(n - i)/n` of the mass. |
| MixtureLikelihood.StickWeightsAtOffsets | bvcopula/likelihoods.py:210-221 | When gates equal their offsets, every weight is exactly `1/n`. |
| MixtureLikelihood.UniformAtZero | bvcopula/likelihoods.py:210-221 | When all mixing latents are 0, every weight is exactly `1/n` (the calibration the comment on line 210 promises). |
| GaussianCopulaFlow.Stacked | bvcopula/likelihoods.py:159-160 | The nested `stack` gives a 2×2 grid of batch vectors. |
| GaussianCopulaFlow.MoveBatchFirst | bvcopula/likelihoods.py:161 | `einsum('ij...->...ij')` sends entry `[i][j][k]` to `[k][i][j]`. |
| GaussianCopulaFlow.CorrMat | bvcopula/likelihoods.py:153-162 | Element `k` of the batch is `[[1, x_k], [x_k, 1]]`. |
| GaussianCopulaFlow.CorrMatPositiveDefinite | bvcopula/likelihoods.py:153-162 | For a correlation in (-1, 1), each matrix is symmetric with unit diagonal and positive determinant. |
| GaussianCopulaFlow.FlowCovarianceValid | bvcopula/likelihoods.py:165-167 | The covariance argument `corr_mat(gplink_function(f))` that `forward` passes at lines 165 and 167 always has positive determinant. |
| Importance.Mean | src/copulagp/select_copula/importance.py:16 | `mixes.mean(dim=1)` for one component: the mean times the grid size is the component's weight total. |
| Importance.MeanOfWeights | src/copulagp/select_copula/importance.py:16 | The grid mean of weights in [0, 1] is again in [0, 1]. |
| Importance.AboveThreshold | src/copulagp/select_copula/importance.py:16 | A component is significant iff its grid mean is strictly above 0.10, i.e. its weight total exceeds 0.10 times the grid size. An empty row is never significant. |
| Importance.ImportantCopulas | src/copulagp/select_copula/importance.py:14-17 | The mask has one entry per component, true exactly when that component's grid mean exceeds 0.10. |
| Importance.ZeroWeightNotImportant | src/copulagp/select_copula/importance.py:16 | A component whose weight is 0 at every grid point is flagged false. |
| Importance.MaskIndices | src/copulagp/select_copula/importance.py:21 | `arange(len(which))[which]` holds exactly the true positions, strictly increasing, one per true entry. |
| Importance.Gather | src/copulagp/select_copula/importance.py:22 | `[bvcopulas[i] for i in idx]` has one element per index, the `k`-th being the component at `idx[k]`. |
| Importance.GatherIsFilter | src/copulagp/select_copula/importance.py:21-22 | The comprehension over the mask indices equals an independent recursive filter by the mask. |
| Importance.ReduceModel | src/copulagp/select_copula/importance.py:19-22 | Fails exactly when the two lengths differ. Otherwise it returns the mask-filtered component list. |
| Importance.FilterLength | src/copulagp/select_copula/importance.py:21-22 | The filtered list has one element per true mask entry. |
| Importance.ReduceSelects | src/copulagp/select_copula/importance.py:21-22 | The reduced model has one component per true entry. Its `k`-th element is the component at the `k`-th true position, so the original order is kept. |
| Importance.ReduceAllTrue | src/copulagp/select_copula/importance.py:19-22 | An all-true mask returns the list unchanged. |
| Importance.ReduceAllFalse | src/copulagp/select_copula/importance.py:19-22 | An all-false mask returns the empty list. |
| Importance.ReduceMembership | src/copulagp/select_copula/importance.py:19-22 | Every component with a true entry is kept, and everything kept comes from a true entry. |
| Importance.ZeroWeightDropped | src/copulagp/select_copula/importance.py:14-22 | A component with weight 0 at every grid point is not among the positions the reduced model keeps. |
| Importance.SomeComponentImportant | src/copulagp/select_copula/importance.py:16 | If the weights at every grid point sum to 1 and there are fewer than ten components, some component is significant. |
| Importance.GridMixes | src/copulagp/select_copula/importance.py:11 | The weight matrix `evaluate` returns has one row per component and one column per grid point. Column `k` is the weights of the bvcopula mixture link at the GP mean of grid point `k`, standing in for `model.gplink` (see Left out). |
| Importance.PruningKeepsAComponent | src/copulagp/select_copula/importance.py:11-17 | For fewer than ten components, whatever the GP values on the grid, at least one component survives pruning. |
| Importance.UniformRowNotAbove | src/copulagp/select_copula/importance.py:16 | A component whose weight is `1/n` at every grid point, with `n ≥ 10`, is not significant. |
| Importance.UniformManyComponentsAllPruned | src/copulagp/select_copula/importance.py:11-17 | With ten or more components and zero mixing latents, every weight is `1/n ≤ 0.10`, so every component is pruned. The bound of ten is tight in exact arithmetic. At exactly `n = 10` the mean equals the threshold, so the float32 comparison at line 16 can go either way. For `n ≥ 11` the mean is strictly below 0.10. |

## Left out

- The training driver `bvcopula/infer.py` (optimizer loop, ELBO, WAIC stopping rule, plotting, device cache handling) is not part of this model.
- The GP itself: `rsample`, `gp_model(test_x)` and `output.mean`. In `evaluate` the GP mean at the grid points is an input to `GridMixes`, and `important_copulas` takes the weight matrix as an input.
- `expected_log_prob` of both likelihood classes and every `forward`, except the flow covariance `corr_mat(gplink_function(f))` (lines 165, 167), which `FlowCovarianceValid` covers. The copula densities (`GaussianCopula`, `MixtureCopula`, …) and the flow's `MultivariateNormal`/`NormTransform` are not part of this model.
- The first `MixtureCopula_Likelihood` (lines 122-130) is shadowed by the second definition and is not modelled.
- Tensor batching: the mixture link is modelled for one data point. The code applies the same element-wise computation to every point and every sample.
- Rotation tags and the `particles` size. They do not enter any link function.
- Floating point: NaN self-equality asserts (lines 27-32, 232-233), saturation of σ and Φ at float endpoints, and the rounding of 0.10 and the link constants. The CUDA branches compute the same value as the CPU branches and are not modelled separately.
- Φ, Φ⁻¹ and σ are not defined. The model assumes only the properties in `Primitives`.
- Importance.GridMixes: `evaluate` (`importance.py:11`) calls `model.gplink(output.mean, normalized_thetas=False)`, a method of the copulagp model object. That method is not part of this model, and it may also apply a theta-sharing map (`bvcopula/infer.py:33`, `bvcopula/infer.py:127`). The mixture link of `bvcopula/likelihoods.py:189-234` stands in for it. `PruningKeepsAComponent` depends only on each grid column summing to 1, the hypothesis of `SomeComponentImportant`. `UniformManyComponentsAllPruned` depends on the offset calibration of lines 212-219.
- Importance.UniformManyComponentsAllPruned: the result is stated in exact arithmetic. At `n = 10` float32 rounding decides the comparison with 0.10.
