/** The numeric primitives the link functions are built from: Φ, the standard
    normal CDF (`Normal(0,1).cdf`), its quantile Φ⁻¹ (`Normal(0,1).icdf`) and
    σ, the logistic sigmoid (`torch.sigmoid`). Their values come from the
    tensor library; the model uses only the properties stated here, all of
    which hold of the exact real functions. They are split into three
    predicates so that each proof carries only the facts it uses. */
module Primitives {

  datatype Primitives = Primitives(phi: real -> real, phiInv: real -> real, sigmoid: real -> real)
  {
    /** Φ and σ take values strictly inside (0, 1), and Φ⁻¹ inverts Φ on (0, 1). */
    ghost predicate Valid() {
      InOpenUnit(phi) && InOpenUnit(sigmoid) && IsQuantileOf(phiInv, phi)
    }

    /** Φ and σ are strictly increasing. */
    ghost predicate Monotone() {
      StrictlyIncreasing(phi) && StrictlyIncreasing(sigmoid)
    }

    /** Φ and σ are point-symmetric about (0, 1/2): g(-x) = 1 - g(x). */
    ghost predicate Symmetric() {
      PointSymmetric(phi) && PointSymmetric(sigmoid)
    }
  }

  ghost predicate InOpenUnit(g: real -> real) {
    forall x :: 0.0 < g(x) < 1.0
  }

  ghost predicate StrictlyIncreasing(g: real -> real) {
    forall x, y :: x < y ==> g(x) < g(y)
  }

  ghost predicate PointSymmetric(g: real -> real) {
    forall x, y :: x + y == 0.0 ==> g(x) + g(y) == 1.0
  }

  /** `q` is a right inverse of `g` on the open unit interval. */
  ghost predicate IsQuantileOf(q: real -> real, g: real -> real) {
    forall p :: 0.0 < p < 1.0 ==> g(q(p)) == p
  }
}
