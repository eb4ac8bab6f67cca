/** `important_copulas` and `reduce_model`: a mixture component is significant
    when its mixing weight, averaged over a grid of covariate values, is above
    10%; the model is then reduced to its significant components, in their
    original order. The GP evaluation that produces the weights on the grid is
    not modelled: the weights are an input, `mixes[c][k]` being component
    `c`'s weight at grid point `k`. */
module Importance {
  import opened Wrappers
  import opened RealSeqs
  import opened Primitives
  import opened CopulaLinks
  import opened MixtureLikelihood

  /** The significance threshold on a component's mean weight. */
  const Threshold: real := 0.10

  /** `mixes.mean(dim=1)` for one component: the mean over the grid times
      the grid size is the total. */
  function Mean(row: seq<real>): (m: real)
    requires |row| > 0
    ensures m * |row| as real == Sum(row)
  {
    Sum(row) / |row| as real
  }

  /** The mean of weights in [0, 1] is again in [0, 1]. */
  lemma MeanOfWeights(row: seq<real>)
    requires |row| > 0
    requires forall k :: 0 <= k < |row| ==> 0.0 <= row[k] <= 1.0
    ensures 0.0 <= Mean(row) <= 1.0
  {
    var n := |row| as real;
    SumNonneg(row);
    SumAtMost(row, 1.0);
    DivAbove(Sum(row), n, 1.0);
  }

  /** Division by a positive count preserves a strict lower bound, both ways. */
  lemma DivAbove(s: real, n: real, t: real)
    requires n > 0.0
    ensures s / n > t <==> s > t * n
  {
    var q := s / n;
    assert q * n == s;
    if q > t {
      PositiveProduct(q - t, n);
    } else {
      NonnegProduct(t - q, n);
    }
  }

  /** `mixes.mean(dim=1) > 0.10` for one component. An empty row has a NaN
      mean, which compares false. */
  predicate AboveThreshold(row: seq<real>)
    ensures AboveThreshold(row) <==> |row| > 0 && Sum(row) > Threshold * |row| as real
  {
    if |row| == 0 then false
    else
      DivAbove(Sum(row), |row| as real, Threshold);
      Mean(row) > Threshold
  }

  /** The mask of significant components, one entry per component. */
  function ImportantCopulas(mixes: seq<seq<real>>): (which: seq<bool>)
    ensures |which| == |mixes|
    ensures forall c :: 0 <= c < |mixes| ==>
              (which[c] <==> |mixes[c]| > 0 && Sum(mixes[c]) > Threshold * |mixes[c]| as real)
  {
    seq(|mixes|, c requires 0 <= c < |mixes| => AboveThreshold(mixes[c]))
  }

  /** A component whose weight is 0 at every grid point is never significant. */
  lemma ZeroWeightNotImportant(mixes: seq<seq<real>>, c: nat)
    requires c < |mixes|
    requires forall k :: 0 <= k < |mixes[c]| ==> mixes[c][k] == 0.0
    ensures !ImportantCopulas(mixes)[c]
  {
    SumZeros(mixes[c]);
  }

  /** The failed length `assert` of `reduce_model`. */
  datatype ReduceError = LengthMismatch(components: nat, mask: nat)

  /** The number of true entries of a mask. */
  function Count(which: seq<bool>): nat
  {
    if |which| == 0 then 0
    else Count(which[..|which| - 1]) + (if which[|which| - 1] then 1 else 0)
  }

  /** `arange(0, len(which))[which]`: the positions of the true entries, in
      increasing order. */
  function MaskIndices(which: seq<bool>): (idx: seq<nat>)
    ensures |idx| == Count(which)
    ensures forall k :: 0 <= k < |idx| ==> idx[k] < |which| && which[idx[k]]
    ensures forall k, l :: 0 <= k < l < |idx| ==> idx[k] < idx[l]
    ensures forall i :: 0 <= i < |which| && which[i] ==> i in idx
  {
    if |which| == 0 then []
    else
      var m := |which| - 1;
      var prev := MaskIndices(which[..m]);
      assert forall i :: 0 <= i < m ==> which[..m][i] == which[i];
      prev + (if which[m] then [m] else [])
  }

  /** Reference definition: keep, in order, the components whose mask entry
      is true. */
  function Filter<T>(bvcopulas: seq<T>, which: seq<bool>): seq<T>
    requires |bvcopulas| == |which|
  {
    if |which| == 0 then []
    else
      var m := |which| - 1;
      Filter(bvcopulas[..m], which[..m]) + (if which[m] then [bvcopulas[m]] else [])
  }

  /** `[bvcopulas[i] for i in idx]`. */
  function Gather<T>(bvcopulas: seq<T>, idx: seq<nat>): (r: seq<T>)
    requires forall k :: 0 <= k < |idx| ==> idx[k] < |bvcopulas|
    ensures |r| == |idx|
    ensures forall k :: 0 <= k < |idx| ==> r[k] == bvcopulas[idx[k]]
  {
    seq(|idx|, k requires 0 <= k < |idx| => bvcopulas[idx[k]])
  }

  /** Gathering at the mask's indices is filtering by the mask. */
  lemma {:induction false} GatherIsFilter<T>(bvcopulas: seq<T>, which: seq<bool>)
    requires |bvcopulas| == |which|
    ensures Gather(bvcopulas, MaskIndices(which)) == Filter(bvcopulas, which)
  {
    if |which| > 0 {
      var m := |which| - 1;
      var bs, ws := bvcopulas[..m], which[..m];
      GatherIsFilter(bs, ws);
      var prev := MaskIndices(ws);
      assert Gather(bvcopulas, prev) == Gather(bs, prev);
      assert MaskIndices(which) == prev + (if which[m] then [m] else []);
    }
  }

  /** `reduce_model`: the components whose mask entry is true, in their
      original order; a length mismatch fails. */
  function ReduceModel<T>(bvcopulas: seq<T>, which: seq<bool>): (r: Result<seq<T>, ReduceError>)
    ensures r.Success? <==> |bvcopulas| == |which|
    ensures r.Success? ==> r.value == Filter(bvcopulas, which)
  {
    if |bvcopulas| != |which| then Failure(LengthMismatch(|bvcopulas|, |which|))
    else
      GatherIsFilter(bvcopulas, which);
      Success(Gather(bvcopulas, MaskIndices(which)))
  }

  /** Filtering keeps one component per true mask entry. */
  lemma {:induction false} FilterLength<T>(bvcopulas: seq<T>, which: seq<bool>)
    requires |bvcopulas| == |which|
    ensures |Filter(bvcopulas, which)| == Count(which)
  {
    if |which| > 0 {
      var m := |which| - 1;
      FilterLength(bvcopulas[..m], which[..m]);
    }
  }

  /** The reduced model has one component per true mask entry, and its
      `k`-th component is the one at the `k`-th true position. */
  lemma ReduceSelects<T>(bvcopulas: seq<T>, which: seq<bool>)
    requires |bvcopulas| == |which|
    ensures |ReduceModel(bvcopulas, which).value| == Count(which)
    ensures forall k :: 0 <= k < Count(which) ==>
              ReduceModel(bvcopulas, which).value[k] == bvcopulas[MaskIndices(which)[k]]
  {
    GatherIsFilter(bvcopulas, which);
  }

  /** An all-true mask keeps the model unchanged. */
  lemma {:induction false} ReduceAllTrue<T>(bvcopulas: seq<T>, which: seq<bool>)
    requires |bvcopulas| == |which|
    requires forall i :: 0 <= i < |which| ==> which[i]
    ensures ReduceModel(bvcopulas, which) == Success(bvcopulas)
  {
    if |which| > 0 {
      var m := |which| - 1;
      ReduceAllTrue(bvcopulas[..m], which[..m]);
      assert Filter(bvcopulas, which) == Filter(bvcopulas[..m], which[..m]) + [bvcopulas[m]];
      assert bvcopulas[..m] + [bvcopulas[m]] == bvcopulas;
    }
  }

  /** An all-false mask leaves no component. */
  lemma {:induction false} ReduceAllFalse<T>(bvcopulas: seq<T>, which: seq<bool>)
    requires |bvcopulas| == |which|
    requires forall i :: 0 <= i < |which| ==> !which[i]
    ensures ReduceModel(bvcopulas, which) == Success([])
  {
    if |which| > 0 {
      var m := |which| - 1;
      ReduceAllFalse(bvcopulas[..m], which[..m]);
    }
  }

  /** A component is in the reduced model if its mask entry is true, and
      everything in the reduced model comes from a true entry. */
  lemma ReduceMembership<T>(bvcopulas: seq<T>, which: seq<bool>)
    requires |bvcopulas| == |which|
    ensures forall i :: 0 <= i < |which| && which[i] ==> bvcopulas[i] in ReduceModel(bvcopulas, which).value
    ensures forall x :: x in ReduceModel(bvcopulas, which).value ==>
              exists i :: 0 <= i < |which| && which[i] && bvcopulas[i] == x
  {
    var r := ReduceModel(bvcopulas, which).value;
    var idx := MaskIndices(which);
    ReduceSelects(bvcopulas, which);
    forall i | 0 <= i < |which| && which[i]
      ensures bvcopulas[i] in r
    {
      var k :| 0 <= k < |idx| && idx[k] == i;
      assert r[k] == bvcopulas[i];
    }
    forall x | x in r
      ensures exists i :: 0 <= i < |which| && which[i] && bvcopulas[i] == x
    {
      var k :| 0 <= k < |r| && r[k] == x;
      assert which[idx[k]] && bvcopulas[idx[k]] == x;
    }
  }

  /** A component whose weight is 0 at every grid point is dropped: its
      position is not among those the reduced model is gathered from. */
  lemma ZeroWeightDropped<T>(bvcopulas: seq<T>, mixes: seq<seq<real>>, c: nat)
    requires |bvcopulas| == |mixes|
    requires c < |mixes|
    requires forall k :: 0 <= k < |mixes[c]| ==> mixes[c][k] == 0.0
    ensures ReduceModel(bvcopulas, ImportantCopulas(mixes)).Success?
    ensures c !in MaskIndices(ImportantCopulas(mixes))
  {
    ZeroWeightNotImportant(mixes, c);
  }

  /** A weight matrix whose `n` rows all have `grid` entries. */
  ghost predicate IsMatrix(mixes: seq<seq<real>>, grid: nat) {
    forall c :: 0 <= c < |mixes| ==> |mixes[c]| == grid
  }

  /** The weights of all components at grid point `k`. */
  function Column(mixes: seq<seq<real>>, k: nat): (col: seq<real>)
    requires forall c :: 0 <= c < |mixes| ==> k < |mixes[c]|
    ensures |col| == |mixes|
  {
    seq(|mixes|, c requires 0 <= c < |mixes| => mixes[c][k])
  }

  function RowTotals(mixes: seq<seq<real>>): (totals: seq<real>)
    ensures |totals| == |mixes|
  {
    seq(|mixes|, c requires 0 <= c < |mixes| => Sum(mixes[c]))
  }

  function ColumnTotals(mixes: seq<seq<real>>, grid: nat): (totals: seq<real>)
    requires IsMatrix(mixes, grid)
    ensures |totals| == grid
  {
    seq(grid, k requires 0 <= k < grid => Sum(Column(mixes, k)))
  }

  /** Summing a matrix by rows or by columns gives the same total. */
  lemma {:induction false} SumByRowsOrColumns(mixes: seq<seq<real>>, grid: nat)
    requires IsMatrix(mixes, grid)
    ensures Sum(RowTotals(mixes)) == Sum(ColumnTotals(mixes, grid))
  {
    if |mixes| == 0 {
      SumZeros(ColumnTotals(mixes, grid));
    } else {
      var n := |mixes| - 1;
      var init := mixes[..n];
      SumByRowsOrColumns(init, grid);
      assert RowTotals(mixes)[..n] == RowTotals(init);
      forall k | 0 <= k < grid
        ensures ColumnTotals(mixes, grid)[k] == ColumnTotals(init, grid)[k] + mixes[n][k]
      {
        assert Column(mixes, k)[..n] == Column(init, k);
      }
      SumPointwiseAdd(ColumnTotals(init, grid), mixes[n], ColumnTotals(mixes, grid));
    }
  }

  /** A sequence of ones sums to its length. */
  lemma {:induction false} SumOnes(s: seq<real>)
    requires forall i :: 0 <= i < |s| ==> s[i] == 1.0
    ensures Sum(s) == |s| as real
  {
    if |s| > 0 {
      SumOnes(s[..|s| - 1]);
    }
  }

  /** When the weights at every grid point sum to one (as the mixture link's
      weights do) and there are fewer than ten components, at least one
      component is significant, so the reduced model is never empty. */
  lemma SomeComponentImportant(mixes: seq<seq<real>>, grid: nat)
    requires 1 <= |mixes| < 10 && grid >= 1
    requires IsMatrix(mixes, grid)
    requires forall k :: 0 <= k < grid ==> Sum(Column(mixes, k)) == 1.0
    ensures exists c :: 0 <= c < |mixes| && ImportantCopulas(mixes)[c]
    ensures Count(ImportantCopulas(mixes)) > 0
  {
    var which := ImportantCopulas(mixes);
    var g := grid as real;
    SumByRowsOrColumns(mixes, grid);
    SumOnes(ColumnTotals(mixes, grid));
    if forall c :: 0 <= c < |mixes| ==> !which[c] {
      SumAtMost(RowTotals(mixes), Threshold * g);
      NonnegProduct((9 - |mixes|) as real, Threshold * g);
      assert false;
    }
    var c :| 0 <= c < |mixes| && which[c];
    var idx := MaskIndices(which);
    assert c in idx;
  }

  /** `evaluate`'s weights: component `c`'s mixture weight at grid point `k`,
      computed by the mixture link from the latent values at that point. */
  function GridMixes(liks: seq<Family>, p: Primitives, latents: seq<seq<real>>): (mixes: seq<seq<real>>)
    requires p.Valid()
    requires forall k :: 0 <= k < |latents| ==> |latents[k]| == 2 * |liks| - 1
    ensures |mixes| == |liks| && IsMatrix(mixes, |latents|)
  {
    seq(|liks|, c requires 0 <= c < |liks| =>
      seq(|latents|, k requires 0 <= k < |latents| => MixtureLink(liks, p, latents[k]).value.mix[c]))
  }

  /** For a mixture of fewer than ten components, whatever the GP's values
      on the grid, importance pruning keeps at least one component. */
  lemma PruningKeepsAComponent(liks: seq<Family>, p: Primitives, latents: seq<seq<real>>)
    requires p.Valid()
    requires 1 <= |liks| < 10 && |latents| >= 1
    requires forall k :: 0 <= k < |latents| ==> |latents[k]| == 2 * |liks| - 1
    ensures Count(ImportantCopulas(GridMixes(liks, p, latents))) > 0
  {
    var mixes := GridMixes(liks, p, latents);
    forall k | 0 <= k < |latents|
      ensures Sum(Column(mixes, k)) == 1.0
    {
      MixtureWeightsSimplex(liks, p, latents[k]);
      assert Column(mixes, k) == MixtureLink(liks, p, latents[k]).value.mix;
    }
    SomeComponentImportant(mixes, |latents|);
  }

  /** A component whose weight is `1 / n` at every grid point, with
      `n >= 10`, has mean at most 0.10 and is not significant. */
  lemma UniformRowNotAbove(row: seq<real>, n: nat)
    requires n >= 10
    requires forall k :: 0 <= k < |row| ==> row[k] == 1.0 / n as real
    ensures !AboveThreshold(row)
  {
    DivAbove(1.0, n as real, Threshold);
    SumAtMost(row, 1.0 / n as real);
    NonnegProduct(|row| as real, Threshold - 1.0 / n as real);
  }

  /** The bound of ten is tight: with ten or more components and every
      mixing latent 0 at every grid point, all weights are `1 / n <= 0.10`,
      which is not above the threshold, so every component is pruned. */
  lemma UniformManyComponentsAllPruned(liks: seq<Family>, p: Primitives, latents: seq<seq<real>>)
    requires p.Valid()
    requires |liks| >= 10
    requires forall k :: 0 <= k < |latents| ==> |latents[k]| == 2 * |liks| - 1
    requires forall k, j :: 0 <= k < |latents| && |liks| <= j < 2 * |liks| - 1 ==> latents[k][j] == 0.0
    ensures forall c :: 0 <= c < |liks| ==> !ImportantCopulas(GridMixes(liks, p, latents))[c]
  {
    var mixes := GridMixes(liks, p, latents);
    forall c, k | 0 <= c < |liks| && 0 <= k < |latents|
      ensures mixes[c][k] == 1.0 / |liks| as real
    {
      UniformAtZero(liks, p, latents[k]);
    }
    forall c | 0 <= c < |liks|
      ensures !ImportantCopulas(mixes)[c]
    {
      UniformRowNotAbove(mixes[c], |liks|);
    }
  }
}
