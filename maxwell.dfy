/**
 * maxwell_dist: the Maxwell-Boltzmann distribution with scale theta on [0, infinity)
 * (trng/maxwell_dist.hpp). Its cdf has no closed-form inverse, so icdf runs a bounded
 * Newton iteration from a fixed starting point; a draw is icdf of an open-interval
 * uniform variate.
 *
 * The model takes float_t = double: digits = 53 and epsilon = 2^-52.
 */
module Maxwell {
  import opened Numerics
  import opened Engines

  /** param_type: theta alone. */
  datatype Param = Param(theta: real)

  /** `param_type()`: theta = 1, a record every property below applies to. */
  function DefaultParam(): (P: Param)
    ensures P.theta > 0.0
  {
    Param(1.0)
  }

  /** `operator==` on param_type compares theta. */
  predicate ParamEq(P1: Param, P2: Param) {
    P1.theta == P2.theta
  }

  lemma ParamEqIsEquality(P1: Param, P2: Param)
    ensures ParamEq(P1, P2) <==> P1 == P2
  {
  }

  /** min() is 0. */
  function Min(): Float {
    Fin(0.0)
  }

  /** max() is +infinity. */
  function Max(): Float {
    PosInf
  }

  /** numeric_limits<double>::digits: 53 bits of mantissa. */
  function Digits(): nat {
    53
  }

  /** numeric_limits<double>::epsilon(): 2^-52, the gap between 1 and the next double. */
  function Epsilon(): real {
    1.0 / 4503599627370496.0
  }

  /** The bound on the number of Newton steps: digits + 2. */
  function MaxSteps(): nat {
    Digits() + 2
  }

  /** pdf: sqrt(2/pi) x^2 exp(-x^2/(2 theta^2)) / theta^3. */
  function Pdf(m: MathLib, P: Param, x: real): real
    requires P.theta != 0.0
  {
    m.sqrt2OverPi * Mul(x, x) * m.Exp(-Mul(x, x) / (2.0 * P.theta * P.theta))
      / (P.theta * P.theta * P.theta)
  }

  /** cdf: erf(x/(theta sqrt 2)) - sqrt(2/pi) x exp(-x^2/(2 theta^2)) / theta. */
  function Cdf(m: MathLib, P: Param, x: real): real
    requires P.theta != 0.0
  {
    m.Erf(Mul(x, m.oneOverSqrt2) / P.theta)
      - m.sqrt2OverPi * x * m.Exp(-Mul(x, x) / (2.0 * P.theta * P.theta)) / P.theta
  }

  /** For theta > 0 the density is never negative. */
  lemma PdfNonNegative(m: MathLib, P: Param, x: real)
    requires P.theta > 0.0 && m.sqrt2OverPi > 0.0
    requires m.ExpPositive()
    ensures Pdf(m, P, x) >= 0.0
  {
    var x2, t := Mul(x, x), P.theta;
    SquareNonNegative(x);
    var e := m.Exp(-x2 / (2.0 * t * t));
    NonNegativeProduct(m.sqrt2OverPi, x2, e);
    CubePositive(t);
    var c := m.sqrt2OverPi * x2 * e;
    assert c / (t * t * t) >= 0.0;
  }

  lemma SquareNonNegative(t: real)
    ensures Mul(t, t) >= 0.0
  {
    if t < 0.0 {
      assert -t * -t >= 0.0;
    }
  }

  lemma CubePositive(t: real)
    requires t > 0.0
    ensures t * t * t > 0.0
  {
    assert t * t > 0.0;
  }

  lemma NonNegativeProduct(a: real, b: real, c: real)
    requires a >= 0.0 && b >= 0.0 && c >= 0.0
    ensures a * b * c >= 0.0
  {
    assert a * b >= 0.0;
  }

  /** The cdf starts at 0: cdf(0) = erf(0), which is 0. */
  lemma CdfAtZero(m: MathLib, P: Param)
    requires P.theta != 0.0 && m.Erf(0.0) == 0.0
    ensures Cdf(m, P, 0.0) == 0.0
  {
    assert Mul(0.0, m.oneOverSqrt2) / P.theta == 0.0;
  }

  // The Newton iteration of icdf.

  /** `y = 2 theta sqrt(2/pi)`, the starting point: the mean of the distribution. */
  function InitialGuess(m: MathLib, P: Param): Float {
    Fin(Mul(2.0 * P.theta, m.sqrt2OverPi))
  }

  /**
   * One step `y -= (cdf(y) - x) / pdf(y)` in double arithmetic: a zero pdf turns the
   * quotient into an infinity of the sign of the numerator (NaN for 0/0), and a
   * non-finite y makes cdf and pdf NaN (infinity times exp(-infinity) = 0).
   */
  function Step(m: MathLib, P: Param, x: real, y: Float): (r: Float)
    requires P.theta != 0.0
    ensures !y.Fin? ==> r == NaN
  {
    if !y.Fin? then NaN
    else
      var d, p := Cdf(m, P, y.v) - x, Pdf(m, P, y.v);
      if p != 0.0 then Fin(y.v - d / p)
      else if d > 0.0 then NegInf
      else if d < 0.0 then PosInf
      else NaN
  }

  /**
   * The early exit `abs(y / y_old - 1) < 4 epsilon`. A comparison involving NaN or an
   * infinity is false, and so is one after dividing by y_old = 0.
   */
  predicate Converged(yOld: Float, y: Float) {
    && yOld.Fin? && y.Fin? && yOld.v != 0.0
    && Abs(y.v / yOld.v - 1.0) < 4.0 * Epsilon()
  }

  /** At most `steps` Newton steps from y, stopping at the first that converges. */
  function Newton(m: MathLib, P: Param, x: real, y: Float, steps: nat): Float
    requires P.theta != 0.0
    decreases steps
  {
    if steps == 0 then y
    else
      var next := Step(m, P, x, y);
      if Converged(y, next) then next else Newton(m, P, x, next, steps - 1)
  }

  /** icdf: NaN with EDOM outside [0, 1], +infinity at 1, 0 at 0, else the Newton iteration. */
  function IcdfSpec(m: MathLib, P: Param, x: real): (r: Outcome)
    requires P.theta != 0.0
    ensures r.domainError <==> x < 0.0 || x > 1.0
    ensures r.domainError ==> r.value == NaN
    ensures x == 1.0 ==> r.value == PosInf
    ensures x == 0.0 ==> r.value == Fin(0.0)
  {
    if x < 0.0 || x > 1.0 then Outcome(NaN, true)
    else if x == 1.0 then Outcome(PosInf, false)
    else if x == 0.0 then Outcome(Fin(0.0), false)
    else Outcome(Newton(m, P, x, InitialGuess(m, P), MaxSteps()), false)
  }

  /** icdf maps 0 to min() and 1 to max() without EDOM. */
  lemma IcdfEndsAreBounds(m: MathLib, P: Param)
    requires P.theta != 0.0
    ensures IcdfSpec(m, P, 0.0) == Outcome(Min(), false)
    ensures IcdfSpec(m, P, 1.0) == Outcome(Max(), false)
  {
  }

  /** `icdf(x)`: the guards, then the bounded loop with its early exit. */
  method Icdf(m: MathLib, P: Param, x: real) returns (r: Outcome)
    requires P.theta != 0.0
    ensures r == IcdfSpec(m, P, x)
  {
    if x < 0.0 || x > 1.0 {
      return Outcome(NaN, true);
    }
    if x == 1.0 {
      return Outcome(PosInf, false);
    }
    if x == 0.0 {
      return Outcome(Fin(0.0), false);
    }
    var y := InitialGuess(m, P);
    var i := 0;
    while i < MaxSteps()
      invariant 0 <= i <= MaxSteps()
      invariant Newton(m, P, x, y, MaxSteps() - i) == Newton(m, P, x, InitialGuess(m, P), MaxSteps())
    {
      var yOld := y;
      y := Step(m, P, x, y);
      if Converged(yOld, y) {
        break;
      }
      i := i + 1;
    }
    return Outcome(y, false);
  }

  /** `operator()`: `icdf(uniformoo(r))`, from one engine word. */
  function Sample(m: MathLib, P: Param, w: Word): Float
    requires P.theta != 0.0
  {
    IcdfSpec(m, P, UniformOo(w)).value
  }

  /** A draw always goes through the Newton branch of icdf, never a guard. */
  lemma SampleIsNewton(m: MathLib, P: Param, w: Word)
    requires P.theta != 0.0
    ensures !IcdfSpec(m, P, UniformOo(w)).domainError
    ensures Sample(m, P, w) == Newton(m, P, UniformOo(w), InitialGuess(m, P), MaxSteps())
  {
  }

  /** Once a step has produced NaN or an infinity, the iteration ends in NaN (or there). */
  lemma {:induction false} NewtonNonFinite(m: MathLib, P: Param, x: real, y: Float, steps: nat)
    requires P.theta != 0.0 && !y.Fin?
    ensures Newton(m, P, x, y, steps) == (if steps == 0 then y else NaN)
    decreases steps
  {
    if steps > 0 {
      assert Step(m, P, x, y) == NaN;
      NewtonNonFinite(m, P, x, NaN, steps - 1);
    }
  }

  /** Where the pdf is nonzero, a Newton step leaves y in place exactly when y is a root. */
  lemma StepFixedIffRoot(m: MathLib, P: Param, x: real, y: real)
    requires P.theta != 0.0 && Pdf(m, P, y) != 0.0
    ensures Step(m, P, x, Fin(y)) == Fin(y) <==> Cdf(m, P, y) == x
  {
    var d, p := Cdf(m, P, y) - x, Pdf(m, P, y);
    QuotientZero(d, p);
  }

  lemma QuotientZero(d: real, p: real)
    requires p != 0.0
    ensures d / p == 0.0 <==> d == 0.0
  {
    if d / p == 0.0 {
      assert d == (d / p) * p;
    }
  }

  /** A nonzero root of cdf(y) = x with a nonzero pdf is returned as it is after one step. */
  lemma RootIsFixedPoint(m: MathLib, P: Param, x: real, y: real, steps: nat)
    requires P.theta != 0.0 && Pdf(m, P, y) != 0.0 && Cdf(m, P, y) == x
    requires y != 0.0 && steps >= 1
    ensures Newton(m, P, x, Fin(y), steps) == Fin(y)
  {
    StepFixedIffRoot(m, P, x, y);
    assert y / y == 1.0;
    assert Converged(Fin(y), Fin(y));
  }

  /** The exit test bounds the last step: |y - y_old| < 4 epsilon |y_old|. */
  lemma ConvergedMeansClose(yOld: Float, y: Float)
    requires Converged(yOld, y)
    ensures Abs(y.v - yOld.v) < 4.0 * Epsilon() * Abs(yOld.v)
  {
    RelativeBound(yOld.v, y.v, 4.0 * Epsilon());
  }

  /** |b/a - 1| < e gives |b - a| < e |a|. */
  lemma RelativeBound(a: real, b: real, e: real)
    requires a != 0.0 && Abs(b / a - 1.0) < e
    ensures Abs(b - a) < e * Abs(a)
  {
    var q := b / a - 1.0;
    assert a * (b / a) == b;
    assert b - a == a * q;
    AbsProduct(a, q);
    BoundTimesPositive(Abs(q), e, Abs(a));
  }

  lemma BoundTimesPositive(q: real, e: real, c: real)
    requires q < e && c > 0.0
    ensures c * q < e * c
  {
  }

  lemma AbsProduct(a: real, q: real)
    ensures Abs(a * q) == Abs(a) * Abs(q)
  {
  }

  /** A distribution object: its parameter record, replaced in place. */
  class MaxwellDist {
    var P: Param

    /** `maxwell_dist(theta)`: no check that theta > 0. */
    constructor (theta: real)
      ensures P == Param(theta)
    {
      P := Param(theta);
    }

    /** `maxwell_dist(const param_type &)`. */
    constructor FromParam(p: Param)
      ensures P == p
    {
      P := p;
    }

    /** `reset()` has nothing to reset. */
    method Reset()
      ensures P == old(P)
    {
    }

    /** `param(P_new)`: replaces the record. */
    method SetParam(p: Param)
      modifies this
      ensures P == p
    {
      P := p;
    }

    /** `operator==` on distributions: equality of the parameter records. */
    predicate Equals(other: MaxwellDist)
      reads this, other
      ensures (Equals(other) <==> P == other.P)
    {
      ParamEq(P, other.P)
    }
  }
}
