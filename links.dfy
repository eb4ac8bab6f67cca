/** The per-family `gplink_function`s of the copula likelihoods: each maps an
    unconstrained GP latent value into its copula family's parameter range. */
module CopulaLinks {
  import opened Primitives

  /** The copula families whose likelihoods carry a link function. */
  datatype Family = Gaussian | StudentT | Frank | Clayton | Gumbel

  /** `2Φ(f) - 1`: the link of the Gaussian and Student-T likelihoods, and of
      the Gaussian flow likelihood. */
  function NormalCdfLink(p: Primitives, f: real): (theta: real)
    requires p.Valid()
    ensures -1.0 < theta < 1.0
  {
    2.0 * p.phi(f) - 1.0
  }

  /** `(σ(f) - 0.5) * 29.8`, centred on the independence parameter 0. */
  function FrankLink(p: Primitives, f: real): (theta: real)
    requires p.Valid()
    ensures -14.9 < theta < 14.9
  {
    (p.sigmoid(f) - 0.5) * 29.8
  }

  /** `σ(f) * 9.9`. */
  function ClaytonLink(p: Primitives, f: real): (theta: real)
    requires p.Valid()
    ensures 0.0 < theta < 9.9
  {
    p.sigmoid(f) * 9.9
  }

  /** `σ(f) * 11.2 + 1`. */
  function GumbelLink(p: Primitives, f: real): (theta: real)
    requires p.Valid()
    ensures 1.0 < theta < 12.2
  {
    p.sigmoid(f) * 11.2 + 1.0
  }

  /** Lower end of the open interval a family's link maps into. */
  function Lower(fam: Family): real {
    match fam
    case Gaussian | StudentT => -1.0
    case Frank => -14.9
    case Clayton => 0.0
    case Gumbel => 1.0
  }

  /** Upper end of the open interval a family's link maps into. */
  function Upper(fam: Family): real {
    match fam
    case Gaussian | StudentT => 1.0
    case Frank => 14.9
    case Clayton => 9.9
    case Gumbel => 12.2
  }

  /** The link of the likelihood of family `fam`. */
  function Link(fam: Family, p: Primitives, f: real): (theta: real)
    requires p.Valid()
    ensures Lower(fam) < theta < Upper(fam)
  {
    match fam
    case Gaussian | StudentT => NormalCdfLink(p, f)
    case Frank => FrankLink(p, f)
    case Clayton => ClaytonLink(p, f)
    case Gumbel => GumbelLink(p, f)
  }

  /** Every link is strictly increasing. */
  lemma LinkIncreasing(fam: Family, p: Primitives, x: real, y: real)
    requires p.Valid() && p.Monotone()
    requires x < y
    ensures Link(fam, p, x) < Link(fam, p, y)
  {
    assert p.phi(x) < p.phi(y) && p.sigmoid(x) < p.sigmoid(y);
  }

  /** The Gaussian link is odd: it sends -f to minus the image of f. */
  lemma NormalCdfLinkOdd(p: Primitives, f: real)
    requires p.Valid() && p.Symmetric()
    ensures NormalCdfLink(p, -f) == -NormalCdfLink(p, f)
  {
    assert p.phi(-f) + p.phi(f) == 1.0;
  }

  /** The Frank link is odd, so in particular it sends 0 to the independence
      parameter 0. */
  lemma FrankLinkOdd(p: Primitives, f: real)
    requires p.Valid() && p.Symmetric()
    ensures FrankLink(p, -f) == -FrankLink(p, f)
    ensures FrankLink(p, 0.0) == 0.0
  {
    assert p.sigmoid(-f) + p.sigmoid(f) == 1.0;
    assert p.sigmoid(0.0) + p.sigmoid(0.0) == 1.0;
  }
}
