/**
 * lognormal_dist: x > 0 whose logarithm is normal with mean mu and standard
 * deviation sigma (trng/lognormal_dist.hpp). The draw is the inverse cdf of an
 * open-interval uniform variate.
 */
module Lognormal {
  import opened Numerics
  import opened Engines

  /** param_type: mu and sigma, with no cached fields. */
  datatype Param = Param(mu: real, sigma: real)

  /** `param_type()`: mu = 0 and sigma = 1, a record every property below applies to. */
  function DefaultParam(): (P: Param)
    ensures P.sigma > 0.0
  {
    Param(0.0, 1.0)
  }

  /** `operator==` on param_type compares mu and sigma. */
  predicate ParamEq(P1: Param, P2: Param) {
    P1.mu == P2.mu && P1.sigma == P2.sigma
  }

  lemma ParamEqIsEquality(P1: Param, P2: Param)
    ensures ParamEq(P1, P2) <==> P1 == P2
  {
  }

  /** min() is 0. */
  function Min(): Float {
    Fin(0.0)
  }

  /** max() is +infinity. */
  function Max(): Float {
    PosInf
  }

  /** pdf: 0 for x <= 0, else the density 1/(x sigma sqrt(2 pi)) exp(-t^2/2), t = (ln x - mu)/sigma. */
  function Pdf(m: MathLib, P: Param, x: real): (r: real)
    requires P.sigma != 0.0
    ensures x <= 0.0 ==> r == 0.0
  {
    if x <= 0.0 then 0.0
    else
      var t := (m.Ln(x) - P.mu) / P.sigma;
      m.oneOverSqrt2Pi / (x * P.sigma) * m.Exp(-t * t / 2.0)
  }

  /** cdf: 0 for x <= 0, else erfc((mu - ln x)/(sigma sqrt 2))/2. */
  function Cdf(m: MathLib, P: Param, x: real): (r: real)
    requires P.sigma != 0.0
    ensures x <= 0.0 ==> r == 0.0
  {
    if x <= 0.0 then 0.0
    else m.Erfc(Mul(m.oneOverSqrt2, P.mu - m.Ln(x)) / P.sigma) / 2.0
  }

  /** icdf: NaN with EDOM outside [0, 1], 0 at 0, +infinity at 1, else exp(inv_Phi(x) sigma + mu). */
  function Icdf(m: MathLib, P: Param, x: real): (r: Outcome)
    ensures r.domainError <==> x < 0.0 || x > 1.0
    ensures r.domainError ==> r.value == NaN
    ensures x == 0.0 ==> r.value == Fin(0.0)
    ensures x == 1.0 ==> r.value == PosInf
    ensures 0.0 < x < 1.0 ==> r.value == Fin(m.Exp(Mul(m.InvPhi(x), P.sigma) + P.mu))
  {
    if x < 0.0 || x > 1.0 then Outcome(NaN, true)
    else if x == 0.0 then Outcome(Fin(0.0), false)
    else if x == 1.0 then Outcome(PosInf, false)
    else Outcome(Fin(m.Exp(Mul(m.InvPhi(x), P.sigma) + P.mu)), false)
  }

  /** `operator()`: `icdf(uniformoo(r))`, from one engine word. */
  function Sample(m: MathLib, P: Param, w: Word): Float {
    Icdf(m, P, UniformOo(w)).value
  }

  /**
   * A draw never takes the domain-error or boundary branches of icdf: it is always a
   * finite value inside (min(), max()).
   */
  lemma SampleInSupport(m: MathLib, P: Param, w: Word)
    requires m.ExpPositive()
    ensures !Icdf(m, P, UniformOo(w)).domainError
    ensures Sample(m, P, w).Fin? && Sample(m, P, w).v > Min().v
  {
  }

  /** icdf maps 0 to min() and 1 to max() without EDOM, and the cdf is 0 at min(). */
  lemma IcdfEndsAreBounds(m: MathLib, P: Param)
    requires P.sigma != 0.0
    ensures Icdf(m, P, 0.0) == Outcome(Min(), false)
    ensures Icdf(m, P, 1.0) == Outcome(Max(), false)
    ensures Cdf(m, P, Min().v) == 0.0
  {
  }

  /** The cdf written with erfc is Phi of the standardised logarithm. */
  lemma CdfIsPhi(m: MathLib, P: Param, x: real)
    requires P.sigma != 0.0 && x > 0.0
    ensures Cdf(m, P, x) == m.Phi((m.Ln(x) - P.mu) / P.sigma)
  {
    var a, c, s := m.Ln(x) - P.mu, m.oneOverSqrt2, P.sigma;
    assert -Mul(a / s, c) == Mul(c, P.mu - m.Ln(x)) / s by {
      var q := a / s;
      assert a == q * s;
      assert c * -a == -(q * c) * s;
    }
  }

  /** icdf undoes cdf on the support. */
  lemma IcdfOfCdf(m: MathLib, P: Param, x: real)
    requires P.sigma != 0.0 && x > 0.0
    requires m.LnExpInverse() && m.PhiInverse()
    ensures 0.0 < Cdf(m, P, x) < 1.0
    ensures Icdf(m, P, Cdf(m, P, x)).value == Fin(x)
  {
    var z := (m.Ln(x) - P.mu) / P.sigma;
    CdfIsPhi(m, P, x);
    assert m.InvPhi(m.Phi(z)) == z;
    assert Mul(z, P.sigma) + P.mu == m.Ln(x);
    assert m.Exp(m.Ln(x)) == x;
  }

  /** cdf undoes icdf on (0, 1). */
  lemma CdfOfIcdf(m: MathLib, P: Param, u: real)
    requires P.sigma != 0.0 && 0.0 < u < 1.0
    requires m.ExpPositive() && m.LnExpInverse() && m.PhiInverse()
    ensures Icdf(m, P, u).value.Fin?
    ensures Cdf(m, P, Icdf(m, P, u).value.v) == u
  {
    var y := Mul(m.InvPhi(u), P.sigma) + P.mu;
    var x := m.Exp(y);
    assert m.Ln(x) == y;
    assert (m.Ln(x) - P.mu) / P.sigma == m.InvPhi(u);
    CdfIsPhi(m, P, x);
  }

  /** With sigma > 0 the density is never negative. */
  lemma PdfNonNegative(m: MathLib, P: Param, x: real)
    requires P.sigma > 0.0 && m.oneOverSqrt2Pi > 0.0
    requires m.ExpPositive()
    ensures Pdf(m, P, x) >= 0.0
  {
    if x > 0.0 {
      var t := (m.Ln(x) - P.mu) / P.sigma;
      var c := m.oneOverSqrt2Pi / (x * P.sigma);
      assert x * P.sigma > 0.0;
      assert c > 0.0;
      assert m.Exp(-t * t / 2.0) > 0.0;
    }
  }

  /** With sigma > 0 the cdf never decreases. */
  lemma CdfNonDecreasing(m: MathLib, P: Param, x: real, y: real)
    requires P.sigma > 0.0 && m.oneOverSqrt2 > 0.0 && x <= y
    requires m.LnIncreasing() && m.ErfcDecreasing()
    ensures 0.0 <= Cdf(m, P, x) <= Cdf(m, P, y)
  {
    if x > 0.0 {
      assert m.Ln(x) <= m.Ln(y);
      ArgumentOrder(m.oneOverSqrt2, P.mu, m.Ln(x), m.Ln(y), P.sigma);
      var ax := Mul(m.oneOverSqrt2, P.mu - m.Ln(x)) / P.sigma;
      var ay := Mul(m.oneOverSqrt2, P.mu - m.Ln(y)) / P.sigma;
      assert m.Erfc(ay) >= m.Erfc(ax);
      assert m.Erfc(ax) >= 0.0;
    } else if y > 0.0 {
      var ay := Mul(m.oneOverSqrt2, P.mu - m.Ln(y)) / P.sigma;
      assert m.Erfc(ay) >= 0.0;
    }
  }

  /** A larger logarithm gives a smaller erfc argument. */
  lemma ArgumentOrder(c: real, mu: real, lx: real, ly: real, sigma: real)
    requires c > 0.0 && sigma > 0.0 && lx <= ly
    ensures Mul(c, mu - ly) / sigma <= Mul(c, mu - lx) / sigma
  {
    assert c * (mu - ly) <= c * (mu - lx) by {
      assert c * (mu - lx) - c * (mu - ly) == c * (ly - lx);
    }
  }

  /** A distribution object: its parameter record, replaced or updated in place. */
  class LognormalDist {
    var P: Param

    /** `lognormal_dist(mu, sigma)`: no check that sigma > 0. */
    constructor (mu: real, sigma: real)
      ensures P == Param(mu, sigma)
    {
      P := Param(mu, sigma);
    }

    /** `lognormal_dist(const param_type &)`. */
    constructor FromParam(p: Param)
      ensures P == p
    {
      P := p;
    }

    /** `reset()` has nothing to reset. */
    method Reset()
      ensures P == old(P)
    {
    }

    /** `param(P_new)`: replaces the whole record. */
    method SetParam(p: Param)
      modifies this
      ensures P == p
    {
      P := p;
    }

    /** `mu(mu_new)`: changes mu only. */
    method SetMu(muNew: real)
      modifies this
      ensures P.mu == muNew && P.sigma == old(P.sigma)
    {
      P := P.(mu := muNew);
    }

    /** `sigma(sigma_new)`: changes sigma only. */
    method SetSigma(sigmaNew: real)
      modifies this
      ensures P.sigma == sigmaNew && P.mu == old(P.mu)
    {
      P := P.(sigma := sigmaNew);
    }

    /** `operator==` on distributions: equality of the parameter records. */
    predicate Equals(other: LognormalDist)
      reads this, other
      ensures (Equals(other) <==> P == other.P)
    {
      ParamEq(P, other.P)
    }
  }
}
