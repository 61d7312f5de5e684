/**
 * powerlaw_dist: the Pareto distribution with exponent gamma on [theta, infinity)
 * (trng/powerlaw_dist.hpp). The draw inverts the cdf directly on a (0, 1] uniform
 * variate rather than calling icdf.
 *
 * Two of the source's definitions disagree with the distribution they implement.
 * Both are modelled as written (CdfAsWritten, IcdfAsWritten) together with a lemma
 * that exhibits the discrepancy, and corrected (Cdf, Icdf) with the properties the
 * corrected definitions have.
 */
module Powerlaw {
  import opened Numerics
  import opened Engines

  /** param_type: gamma and theta, with no cached fields. */
  datatype Param = Param(gamma: real, theta: real)

  /** `param_type()`: gamma = 1 and theta = 1, a record every property below applies to. */
  function DefaultParam(): (P: Param)
    ensures Proper(P)
  {
    Param(1.0, 1.0)
  }

  /** `operator==` on param_type compares gamma and theta. */
  predicate ParamEq(P1: Param, P2: Param) {
    P1.gamma == P2.gamma && P1.theta == P2.theta
  }

  lemma ParamEqIsEquality(P1: Param, P2: Param)
    ensures ParamEq(P1, P2) <==> P1 == P2
  {
  }

  /** min() is theta. */
  function Min(P: Param): Float {
    Fin(P.theta)
  }

  /** max() is +infinity. */
  function Max(): Float {
    PosInf
  }

  /** The parameters the distribution is meant for. */
  predicate Proper(P: Param) {
    P.gamma > 0.0 && P.theta > 0.0
  }

  /** The library facts about the order of pow the properties below use. */
  ghost predicate PowOrder(m: MathLib) {
    m.PowPositive() && m.PowDecreasingInBase()
  }

  /** `operator()`: `theta * pow(uniformoc(r), -1/gamma)`, from one engine word. */
  function Sample(m: MathLib, P: Param, w: Word): real
    requires P.gamma != 0.0
  {
    Mul(P.theta, m.Pow(UniformOc(w), -1.0 / P.gamma))
  }

  /** pow(u, e) >= 1 for u in (0, 1] and e < 0. */
  lemma PowAtLeastOne(m: MathLib, u: real, e: real)
    requires 0.0 < u <= 1.0 && e < 0.0
    requires PowOrder(m)
    ensures m.Pow(u, e) >= 1.0
    ensures u < 1.0 ==> m.Pow(u, e) > 1.0
  {
    assert m.Pow(1.0, e) == 1.0;
  }

  /** Every draw is at least min(). */
  lemma SampleAtLeastMin(m: MathLib, P: Param, w: Word)
    requires Proper(P) && PowOrder(m)
    ensures Min(P).v <= Sample(m, P, w)
  {
    var e := -1.0 / P.gamma;
    PowAtLeastOne(m, UniformOc(w), e);
    TimesAtLeastOne(P.theta, m.Pow(UniformOc(w), e));
  }

  lemma TimesAtLeastOne(t: real, a: real)
    requires t > 0.0 && a >= 1.0
    ensures t * a >= t
  {
    assert t * a - t == t * (a - 1.0);
  }

  /** pdf: 0 below theta, gamma/theta (x/theta)^(-gamma-1) from theta on. */
  function Pdf(m: MathLib, P: Param, x: real): (r: real)
    requires P.theta != 0.0
    ensures x < P.theta ==> r == 0.0
  {
    if x < P.theta then 0.0 else P.gamma / P.theta * m.Pow(x / P.theta, -P.gamma - 1.0)
  }

  /** The density is never negative. */
  lemma PdfNonNegative(m: MathLib, P: Param, x: real)
    requires Proper(P) && m.PowPositive()
    ensures Pdf(m, P, x) >= 0.0
  {
    if x >= P.theta {
      assert x / P.theta > 0.0;
      assert m.Pow(x / P.theta, -P.gamma - 1.0) > 0.0;
    }
  }

  // The cdf.

  /** cdf as the source writes it: 0 for x <= 0, else 1 - (x/theta)^(-gamma). */
  function CdfAsWritten(m: MathLib, P: Param, x: real): real
    requires P.theta != 0.0
  {
    if x <= 0.0 then 0.0 else 1.0 - m.Pow(x / P.theta, -P.gamma)
  }

  /** cdf as the distribution defines it: 0 below theta, 1 - (x/theta)^(-gamma) from theta on. */
  function Cdf(m: MathLib, P: Param, x: real): (r: real)
    requires P.theta != 0.0
    ensures x < P.theta ==> r == 0.0
  {
    if x < P.theta then 0.0 else 1.0 - m.Pow(x / P.theta, -P.gamma)
  }

  /** Between 0 and theta the as-written cdf is negative, where the cdf is 0. */
  lemma CdfAsWrittenNegative(m: MathLib, P: Param, x: real)
    requires Proper(P) && PowOrder(m)
    requires 0.0 < x < P.theta
    ensures CdfAsWritten(m, P, x) < 0.0
    ensures Cdf(m, P, x) == 0.0
  {
    QuotientBelowOne(x, P.theta);
    PowAtLeastOne(m, x / P.theta, -P.gamma);
  }

  /** The two agree everywhere else. */
  lemma CdfAsWrittenAgreesOutside(m: MathLib, P: Param, x: real)
    requires Proper(P)
    requires x <= 0.0 || x >= P.theta
    ensures CdfAsWritten(m, P, x) == Cdf(m, P, x)
  {
  }

  lemma QuotientBelowOne(x: real, t: real)
    requires 0.0 < x < t
    ensures 0.0 < x / t < 1.0
  {
    assert x / t < t / t;
    assert t / t == 1.0;
  }

  lemma QuotientAboveOne(x: real, t: real)
    requires 0.0 < t < x
    ensures x / t > 1.0
  {
  }

  /** The cdf lies in [0, 1) and never decreases. */
  lemma CdfShape(m: MathLib, P: Param, x: real, y: real)
    requires Proper(P) && PowOrder(m)
    ensures 0.0 <= Cdf(m, P, x) < 1.0
    ensures x <= y ==> Cdf(m, P, x) <= Cdf(m, P, y)
  {
    if x >= P.theta {
      PowAtMostOne(m, P, x);
    }
    if x <= y && y >= P.theta {
      PowAtMostOne(m, P, y);
      if x >= P.theta && x < y {
        QuotientMonotone(x, y, P.theta);
        assert m.Pow(x / P.theta, -P.gamma) > m.Pow(y / P.theta, -P.gamma);
      }
    }
  }

  /** 0 < (x/theta)^(-gamma) <= 1 from theta on, with equality only at theta. */
  lemma PowAtMostOne(m: MathLib, P: Param, x: real)
    requires Proper(P) && PowOrder(m) && x >= P.theta
    ensures 0.0 < m.Pow(x / P.theta, -P.gamma) <= 1.0
    ensures x > P.theta ==> m.Pow(x / P.theta, -P.gamma) < 1.0
  {
    assert m.Pow(1.0, -P.gamma) == 1.0;
    if x > P.theta {
      QuotientAboveOne(x, P.theta);
      assert m.Pow(x / P.theta, -P.gamma) < m.Pow(1.0, -P.gamma);
    } else {
      assert x / P.theta == 1.0;
    }
  }

  lemma QuotientMonotone(x: real, y: real, t: real)
    requires 0.0 < t <= x < y
    ensures 0.0 < x / t < y / t
  {
  }

  // The inverse cdf.

  /**
   * icdf as the source writes it: the domain guard rejects 0 and 1 as well, so the
   * branches for x == 0 and x == 1 after it are never taken.
   */
  function IcdfAsWritten(m: MathLib, P: Param, x: real): Outcome
    requires P.gamma != 0.0
  {
    if x <= 0.0 || x >= 1.0 then Outcome(NaN, true)
    else if x == 0.0 then Outcome(Fin(P.theta), false)
    else if x == 1.0 then Outcome(PosInf, false)
    else Outcome(Fin(Mul(P.theta, m.Pow(1.0 - x, -1.0 / P.gamma))), false)
  }

  /** icdf with the guard the later branches call for: theta at 0, +infinity at 1. */
  function Icdf(m: MathLib, P: Param, x: real): (r: Outcome)
    requires P.gamma != 0.0
    ensures r.domainError <==> x < 0.0 || x > 1.0
    ensures r.domainError ==> r.value == NaN
    ensures x == 0.0 ==> r.value == Fin(P.theta)
    ensures x == 1.0 ==> r.value == PosInf
  {
    if x < 0.0 || x > 1.0 then Outcome(NaN, true)
    else if x == 0.0 then Outcome(Fin(P.theta), false)
    else if x == 1.0 then Outcome(PosInf, false)
    else Outcome(Fin(Mul(P.theta, m.Pow(1.0 - x, -1.0 / P.gamma))), false)
  }

  /** The corrected icdf maps 0 to min() and 1 to max() without EDOM. */
  lemma IcdfEndsAreBounds(m: MathLib, P: Param)
    requires P.gamma != 0.0
    ensures Icdf(m, P, 0.0) == Outcome(Min(P), false)
    ensures Icdf(m, P, 1.0) == Outcome(Max(), false)
  {
  }

  /**
   * The as-written icdf reports a domain error at 0 and 1, which are inside its
   * domain, and agrees with the corrected one everywhere else.
   */
  lemma IcdfAsWrittenRejectsEnds(m: MathLib, P: Param, x: real)
    requires P.gamma != 0.0
    ensures IcdfAsWritten(m, P, 0.0) == Outcome(NaN, true) != Icdf(m, P, 0.0)
    ensures IcdfAsWritten(m, P, 1.0) == Outcome(NaN, true) != Icdf(m, P, 1.0)
    ensures x != 0.0 && x != 1.0 ==> IcdfAsWritten(m, P, x) == Icdf(m, P, x)
  {
  }

  /**
   * A draw is icdf(1 - u) of its own uniform variate u: at u = 1, the top engine
   * word, that is icdf(0) = theta = min().
   */
  lemma SampleIsIcdfOfComplement(m: MathLib, P: Param, w: Word)
    requires P.gamma != 0.0 && m.PowPositive()
    ensures Icdf(m, P, 1.0 - UniformOc(w)) == Outcome(Fin(Sample(m, P, w)), false)
  {
    var u := UniformOc(w);
    if u == 1.0 {
      assert m.Pow(1.0, -1.0 / P.gamma) == 1.0;
    } else {
      assert 1.0 - (1.0 - u) == u;
    }
  }

  /**
   * With the as-written guard a draw whose variate is 1 (inside uniformoc's interval
   * (0, 1]) has no icdf counterpart: icdf(1 - u) is NaN with EDOM, while the draw
   * itself is theta, the corrected icdf(0).
   */
  lemma SampleAsWrittenMismatch(m: MathLib, P: Param, w: Word)
    requires P.gamma != 0.0 && m.PowPositive() && UniformOc(w) == 1.0
    ensures IcdfAsWritten(m, P, 1.0 - UniformOc(w)) == Outcome(NaN, true)
    ensures Sample(m, P, w) == P.theta
    ensures Icdf(m, P, 1.0 - UniformOc(w)).value == Fin(Sample(m, P, w))
  {
    assert m.Pow(1.0, -1.0 / P.gamma) == 1.0;
  }

  /** (y^a)^b = y for a b = 1. */
  lemma PowInverse(m: MathLib, y: real, a: real, b: real)
    requires y > 0.0 && m.PowReciprocal() && a * b == 1.0
    ensures m.Pow(m.Pow(y, a), b) == y
  {
  }

  /** -g and -1/g are reciprocal. */
  lemma ExponentsReciprocal(g: real)
    requires g != 0.0
    ensures -g * (-1.0 / g) == 1.0 && (-1.0 / g) * -g == 1.0
  {
  }

  /** Dividing by t undoes multiplying by t. */
  lemma ScaleCancels(t: real, a: real)
    requires t != 0.0
    ensures t * (a / t) == a && t * a / t == a
  {
  }

  /** icdf at c in (0, 1) in terms of its complement a = 1 - c. */
  lemma IcdfInside(m: MathLib, P: Param, c: real, a: real)
    requires P.gamma != 0.0 && 0.0 < c < 1.0 && a == 1.0 - c
    ensures !Icdf(m, P, c).domainError
    ensures Icdf(m, P, c).value == Fin(Mul(P.theta, m.Pow(a, -1.0 / P.gamma)))
  {
  }

  /** icdf undoes the cdf from min() on. */
  lemma IcdfOfCdf(m: MathLib, P: Param, x: real)
    requires Proper(P) && PowOrder(m) && m.PowReciprocal() && x >= P.theta
    ensures 0.0 <= Cdf(m, P, x) < 1.0
    ensures !Icdf(m, P, Cdf(m, P, x)).domainError
    ensures Icdf(m, P, Cdf(m, P, x)).value == Fin(x)
  {
    PowAtMostOne(m, P, x);
    if x == P.theta {
      IcdfOfCdfAtMin(m, P);
    } else {
      QuotientPowInverse(m, P.theta, P.gamma, x);
      IcdfOfCdfAbove(m, P, x);
    }
  }

  /** At min() the cdf is 0 and icdf(0) is min(). */
  lemma IcdfOfCdfAtMin(m: MathLib, P: Param)
    requires Proper(P) && m.PowPositive()
    ensures Cdf(m, P, P.theta) == 0.0
    ensures Icdf(m, P, 0.0) == Outcome(Fin(P.theta), false)
  {
    ScaleCancels(P.theta, 1.0);
    assert m.Pow(1.0, -P.gamma) == 1.0;
  }

  /** Above min(), given the one pow fact the round trip uses. */
  lemma IcdfOfCdfAbove(m: MathLib, P: Param, x: real)
    requires Proper(P) && x > P.theta
    requires 0.0 < m.Pow(x / P.theta, -P.gamma) < 1.0
    requires m.Pow(m.Pow(x / P.theta, -P.gamma), -1.0 / P.gamma) == x / P.theta
    ensures !Icdf(m, P, Cdf(m, P, x)).domainError
    ensures Icdf(m, P, Cdf(m, P, x)).value == Fin(x)
  {
    var a := m.Pow(x / P.theta, -P.gamma);
    IcdfInside(m, P, 1.0 - a, a);
    ScaleBack(P.theta, x, m.Pow(a, -1.0 / P.gamma));
  }

  /** ((x/t)^(-g))^(-1/g) = x/t. */
  lemma QuotientPowInverse(m: MathLib, t: real, g: real, x: real)
    requires t > 0.0 && g != 0.0 && x > t && m.PowReciprocal()
    ensures m.Pow(m.Pow(x / t, -g), -1.0 / g) == x / t
  {
    QuotientAboveOne(x, t);
    ExponentsReciprocal(g);
    PowInverse(m, x / t, -g, -1.0 / g);
  }

  /** t (x/t) = x. */
  lemma ScaleBack(t: real, x: real, y: real)
    requires t != 0.0 && y == x / t
    ensures t * y == x
  {
  }

  /** The cdf undoes icdf on [0, 1). */
  lemma CdfOfIcdf(m: MathLib, P: Param, u: real)
    requires Proper(P) && PowOrder(m) && m.PowReciprocal() && 0.0 <= u < 1.0
    ensures Icdf(m, P, u).value.Fin? && Icdf(m, P, u).value.v >= P.theta
    ensures Cdf(m, P, Icdf(m, P, u).value.v) == u
  {
    if u == 0.0 {
      IcdfOfCdfAtMin(m, P);
    } else {
      PowAtLeastOne(m, 1.0 - u, -1.0 / P.gamma);
      ExponentsReciprocal(P.gamma);
      PowInverse(m, 1.0 - u, -1.0 / P.gamma, -P.gamma);
      CdfOfIcdfInside(m, P, u);
    }
  }

  /** Inside (0, 1), given the pow facts the round trip uses. */
  lemma CdfOfIcdfInside(m: MathLib, P: Param, u: real)
    requires Proper(P) && 0.0 < u < 1.0
    requires m.Pow(1.0 - u, -1.0 / P.gamma) > 1.0
    requires m.Pow(m.Pow(1.0 - u, -1.0 / P.gamma), -P.gamma) == 1.0 - u
    ensures Icdf(m, P, u).value.Fin? && Icdf(m, P, u).value.v >= P.theta
    ensures Cdf(m, P, Icdf(m, P, u).value.v) == u
  {
    var a := m.Pow(1.0 - u, -1.0 / P.gamma);
    IcdfInside(m, P, u, 1.0 - u);
    TimesAtLeastOne(P.theta, a);
    PowOfScaled(m, P.theta, a, -P.gamma);
  }

  /** The quotient (t a)/t inside pow is a. */
  lemma PowOfScaled(m: MathLib, t: real, a: real, e: real)
    requires t != 0.0
    ensures m.Pow(Mul(t, a) / t, e) == m.Pow(a, e)
  {
    assert t * a / t == a;
  }

  /** A distribution object: its parameter record, replaced or updated in place. */
  class PowerlawDist {
    var P: Param

    /** `powerlaw_dist(gamma, theta)`: no check that gamma and theta are positive. */
    constructor (gamma: real, theta: real)
      ensures P == Param(gamma, theta)
    {
      P := Param(gamma, theta);
    }

    /** `powerlaw_dist(const param_type &)`. */
    constructor FromParam(p: Param)
      ensures P == p
    {
      P := p;
    }

    /** `reset()` has nothing to reset. */
    method Reset()
      ensures P == old(P)
    {
    }

    /** `param(p_new)`: replaces the whole record. */
    method SetParam(p: Param)
      modifies this
      ensures P == p
    {
      P := p;
    }

    /** `gamma(gamma_new)`: changes gamma only. */
    method SetGamma(gammaNew: real)
      modifies this
      ensures P.gamma == gammaNew && P.theta == old(P.theta)
    {
      P := P.(gamma := gammaNew);
    }

    /** `theta(theta_new)`: changes theta only. */
    method SetTheta(thetaNew: real)
      modifies this
      ensures P.theta == thetaNew && P.gamma == old(P.gamma)
    {
      P := P.(theta := thetaNew);
    }

    /** `operator==` on distributions: equality of the parameter records. */
    predicate Equals(other: PowerlawDist)
      reads this, other
      ensures (Equals(other) <==> P == other.P)
    {
      ParamEq(P, other.P)
    }
  }
}
