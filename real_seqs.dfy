/** Sums and products of sequences of reals, folded left to right as a
    running accumulator does, and the facts about them the model needs. */
module RealSeqs {

  function Sum(s: seq<real>): real
  {
    if |s| == 0 then 0.0 else Sum(s[..|s| - 1]) + s[|s| - 1]
  }

  function Prod(s: seq<real>): real
  {
    if |s| == 0 then 1.0 else Prod(s[..|s| - 1]) * s[|s| - 1]
  }

  lemma NonnegProduct(a: real, b: real)
    requires 0.0 <= a && 0.0 <= b
    ensures 0.0 <= a * b
  {
  }

  lemma PositiveProduct(a: real, b: real)
    requires 0.0 < a && 0.0 < b
    ensures 0.0 < a * b
  {
  }

  /** Scaling by a factor in [0, 1] does not increase a value in [0, 1]. */
  lemma UnitProduct(a: real, b: real)
    requires 0.0 <= a <= 1.0 && 0.0 <= b <= 1.0
    ensures 0.0 <= a * b <= a
  {
    NonnegProduct(a, b);
    NonnegProduct(a, 1.0 - b);
    assert a * (1.0 - b) == a - a * b;
  }

  /** A prefix one longer is the prefix followed by the next element. */
  lemma PrefixExtend(s: seq<real>, i: nat)
    requires i < |s|
    ensures s[..i + 1] == s[..i] + [s[i]]
  {
  }

  /** A product of factors in [0, 1] is in [0, 1]. */
  lemma {:induction false} ProdInUnit(s: seq<real>)
    requires forall i :: 0 <= i < |s| ==> 0.0 <= s[i] <= 1.0
    ensures 0.0 <= Prod(s) <= 1.0
  {
    if |s| > 0 {
      var init := s[..|s| - 1];
      ProdInUnit(init);
      UnitProduct(Prod(init), s[|s| - 1]);
    }
  }

  /** A product of factors in (0, 1) is in (0, 1]. */
  lemma {:induction false} ProdPositive(s: seq<real>)
    requires forall i :: 0 <= i < |s| ==> 0.0 < s[i] < 1.0
    ensures 0.0 < Prod(s) <= 1.0
  {
    if |s| > 0 {
      var init := s[..|s| - 1];
      ProdPositive(init);
      PositiveProduct(Prod(init), s[|s| - 1]);
      UnitProduct(Prod(init), s[|s| - 1]);
    }
  }

  /** The sum of a sequence of zeros is zero. */
  lemma {:induction false} SumZeros(s: seq<real>)
    requires forall i :: 0 <= i < |s| ==> s[i] == 0.0
    ensures Sum(s) == 0.0
  {
    if |s| > 0 {
      SumZeros(s[..|s| - 1]);
    }
  }

  /** A sum of non-negative terms is non-negative. */
  lemma {:induction false} SumNonneg(s: seq<real>)
    requires forall i :: 0 <= i < |s| ==> 0.0 <= s[i]
    ensures 0.0 <= Sum(s)
  {
    if |s| > 0 {
      SumNonneg(s[..|s| - 1]);
    }
  }

  /** A sum of terms each at most `bound` is at most `|s| * bound`. */
  lemma {:induction false} SumAtMost(s: seq<real>, bound: real)
    requires forall i :: 0 <= i < |s| ==> s[i] <= bound
    ensures Sum(s) <= |s| as real * bound
  {
    if |s| > 0 {
      SumAtMost(s[..|s| - 1], bound);
    }
  }

  /** Summing two sequences element by element sums their sums. */
  lemma {:induction false} SumPointwiseAdd(a: seq<real>, b: seq<real>, c: seq<real>)
    requires |a| == |b| == |c|
    requires forall i :: 0 <= i < |c| ==> c[i] == a[i] + b[i]
    ensures Sum(c) == Sum(a) + Sum(b)
  {
    if |c| > 0 {
      var m := |c| - 1;
      SumPointwiseAdd(a[..m], b[..m], c[..m]);
    }
  }
}
