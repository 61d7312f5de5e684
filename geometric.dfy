/**
 * geometric_dist: the number of failures before the first success of a Bernoulli
 * trial with success probability p, on {0, 1, 2, ...} (trng/geometric_dist.hpp).
 * The parameter record caches q = 1 - p and 1/ln(q) next to p.
 */
module Geometric {
  import opened Numerics
  import opened Engines
  import Text

  /** param_type: p with its two cached companions. */
  datatype Param = Param(p: real, q: real, oneOverLnQ: real)

  /** The cache invariant: q and 1/ln(q) are the values p determines. */
  ghost predicate Consistent(m: MathLib, P: Param) {
    && P.q == 1.0 - P.p
    && m.Ln(P.q) != 0.0
    && P.oneOverLnQ == 1.0 / m.Ln(P.q)
  }

  /** `param_type(p)`, which is also what the setter `p(p_new)` leaves behind. */
  function MakeParam(m: MathLib, p: real): (P: Param)
    requires m.Ln(1.0 - p) != 0.0
    ensures Consistent(m, P) && P.p == p
  {
    Param(p, 1.0 - p, 1.0 / m.Ln(1.0 - p))
  }

  /** `param_type()` has p = 0.5. */
  function DefaultParam(m: MathLib): (P: Param)
    requires m.Ln(0.5) != 0.0
    ensures Consistent(m, P) && P.p == 0.5
  {
    MakeParam(m, 0.5)
  }

  /** `operator==` on param_type compares p only. */
  predicate ParamEq(P1: Param, P2: Param) {
    P1.p == P2.p
  }

  /** Comparing p only is sound: the cached fields are functions of p. */
  lemma ParamEqIsEquality(m: MathLib, P1: Param, P2: Param)
    requires Consistent(m, P1) && Consistent(m, P2)
    ensures ParamEq(P1, P2) <==> P1 == P2
  {
  }

  function Min(P: Param): int {
    0
  }

  /** INT_MAX. */
  function Max(P: Param): int {
    Text.MaxInt
  }

  /** `operator()`: `static_cast<int>(ln(uniformoo(r)) * one_over_ln_q)`, from one engine word. */
  function Sample(m: MathLib, P: Param, w: Word): int {
    Trunc(m.Ln(UniformOo(w)) * P.oneOverLnQ)
  }

  /**
   * For 0 < p < 1 every draw lies in [min(), max()]: ln(u) and 1/ln(q) are both
   * negative, so the product is positive, and a product below 2^31 truncates to at
   * most INT_MAX. (`static_cast<int>` of a larger product, possible for tiny p, is
   * undefined behaviour and outside the model.)
   */
  lemma SampleInSupport(m: MathLib, P: Param, w: Word)
    requires Consistent(m, P) && 0.0 < P.p < 1.0
    requires m.LnNegativeOnUnit()
    requires m.Ln(UniformOo(w)) * P.oneOverLnQ < (Text.MaxInt + 1) as real
    ensures Min(P) <= Sample(m, P, w) <= Max(P)
  {
    var u := UniformOo(w);
    assert m.Ln(u) < 0.0;
    assert m.Ln(P.q) < 0.0;
    NegativeReciprocal(m.Ln(P.q));
    NegativeProduct(m.Ln(u), P.oneOverLnQ);
  }

  lemma NegativeReciprocal(x: real)
    requires x < 0.0
    ensures 1.0 / x < 0.0
  {
  }

  lemma NegativeProduct(x: real, y: real)
    requires x < 0.0 && y < 0.0
    ensures x * y > 0.0
  {
  }

  /** pdf(x) = p q^x on the support, 0 below it. */
  function Pdf(m: MathLib, P: Param, x: int): (r: real)
    ensures x < 0 ==> r == 0.0
  {
    if x < 0 then 0.0 else P.p * m.Pow(P.q, x as real)
  }

  /** cdf(x) = 1 - q^(x+1) on the support, 0 below it. */
  function Cdf(m: MathLib, P: Param, x: int): (r: real)
    ensures x < 0 ==> r == 0.0
  {
    if x < 0 then 0.0 else 1.0 - m.Pow(P.q, (x + 1) as real)
  }

  /** pdf(0) + ... + pdf(x). */
  function PdfSum(m: MathLib, P: Param, x: int): real
    decreases x
  {
    if x < 0 then 0.0 else PdfSum(m, P, x - 1) + Pdf(m, P, x)
  }

  /** Each step of the cdf adds the pdf at that point. */
  lemma CdfStep(m: MathLib, P: Param, x: int)
    requires Consistent(m, P) && 0.0 < P.p < 1.0
    requires m.PowNaturalExponent()
    ensures Cdf(m, P, x) == Cdf(m, P, x - 1) + Pdf(m, P, x)
  {
    if x >= 0 {
      var q := P.q;
      assert m.Pow(q, (x + 1) as real) == Power(q, x + 1);
      assert m.Pow(q, x as real) == Power(q, x);
      assert Power(q, x + 1) == Power(q, x) * q;
      if x == 0 {
        assert Cdf(m, P, x - 1) == 0.0;
        assert Power(q, 0) == 1.0;
      } else {
        assert Cdf(m, P, x - 1) == 1.0 - Power(q, x);
      }
      assert 1.0 - Power(q, x) * q == (1.0 - Power(q, x)) + P.p * Power(q, x);
    }
  }

  /** The cdf is the running sum of the pdf from 0. */
  lemma {:induction false} CdfIsPdfSum(m: MathLib, P: Param, x: int)
    requires Consistent(m, P) && 0.0 < P.p < 1.0
    requires m.PowNaturalExponent()
    ensures Cdf(m, P, x) == PdfSum(m, P, x)
    decreases x
  {
    if x >= 0 {
      CdfIsPdfSum(m, P, x - 1);
      CdfStep(m, P, x);
    }
  }

  /** The cdf stays below 1 and never decreases. */
  lemma CdfShape(m: MathLib, P: Param, x: int, y: int)
    requires Consistent(m, P) && 0.0 < P.p < 1.0
    requires m.PowNaturalExponent()
    ensures 0.0 <= Cdf(m, P, x) < 1.0
    ensures x <= y ==> Cdf(m, P, x) <= Cdf(m, P, y)
  {
    if x >= 0 {
      PowerBounds(P.q, x + 1);
      assert Cdf(m, P, x) == 1.0 - Power(P.q, x + 1);
    }
    if x <= y {
      CdfNonDecreasing(m, P, x, y);
    }
  }

  lemma {:induction false} CdfNonDecreasing(m: MathLib, P: Param, x: int, y: int)
    requires Consistent(m, P) && 0.0 < P.p < 1.0
    requires m.PowNaturalExponent()
    requires x <= y
    ensures Cdf(m, P, x) <= Cdf(m, P, y)
    decreases y - x
  {
    if x < y {
      CdfNonDecreasing(m, P, x, y - 1);
      CdfStep(m, P, y);
      if y >= 0 {
        PowerBounds(P.q, y);
        assert Pdf(m, P, y) == P.p * Power(P.q, y);
      }
    }
  }

  /** 0 < q^k <= 1 for 0 < q < 1. */
  lemma {:induction false} PowerBounds(q: real, k: nat)
    requires 0.0 < q < 1.0
    ensures 0.0 < Power(q, k) <= 1.0
  {
    if k > 0 {
      PowerBounds(q, k - 1);
      var r := Power(q, k - 1);
      assert r * q <= r * 1.0;
    }
  }

  /** A distribution object: its parameter record, replaced or updated in place. */
  class GeometricDist {
    var P: Param

    ghost predicate Valid(m: MathLib)
      reads this
    {
      Consistent(m, P)
    }

    /** `geometric_dist(p)`: no check that 0 < p < 1. */
    constructor (m: MathLib, p: real)
      requires m.Ln(1.0 - p) != 0.0
      ensures Valid(m) && P.p == p
    {
      P := MakeParam(m, p);
    }

    /** `geometric_dist(const param_type &)`. */
    constructor FromParam(m: MathLib, p: Param)
      requires Consistent(m, p)
      ensures Valid(m) && P == p
    {
      P := p;
    }

    /** `reset()` has nothing to reset. */
    method Reset()
      ensures P == old(P)
    {
    }

    /** `param(P_new)`: replaces the whole record. */
    method SetParam(m: MathLib, p: Param)
      requires Consistent(m, p)
      modifies this
      ensures Valid(m) && P == p
    {
      P := p;
    }

    /** `p(p_new)`: sets p and recomputes q and 1/ln(q) with it. */
    method SetP(m: MathLib, pNew: real)
      requires m.Ln(1.0 - pNew) != 0.0
      modifies this
      ensures Valid(m) && P.p == pNew
    {
      P := MakeParam(m, pNew);
    }

    /** `operator==` on distributions: equality of the parameter records. */
    predicate Equals(other: GeometricDist)
      reads this, other
    {
      ParamEq(P, other.P)
    }
  }
}
