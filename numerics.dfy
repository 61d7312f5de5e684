/**
 * The floating-point side of the distributions, stated over exact reals.
 *
 * A double is a finite real or one of IEEE 754's special values; `static_cast<int>`
 * truncates toward zero; and the elementary functions of the math library
 * (ln, exp, pow, erf, erfc, inv_Phi) and its constants are parameters of the model,
 * gathered in one record. Every property that depends on one of them requires, by
 * name, exactly the facts about it that the proof uses; each of those facts is true
 * of the real-valued function.
 */
module Numerics {

  /** A double as the model sees it: a finite value or an IEEE special value. */
  datatype Float = NaN | PosInf | NegInf | Fin(v: real)

  /** What an inverse cdf returns: its value, and whether it set `errno` to EDOM. */
  datatype Outcome = Outcome(value: Float, domainError: bool)

  function Abs(x: real): (r: real)
    ensures r >= 0.0 && (r == x || r == -x)
  {
    if x < 0.0 then -x else x
  }

  /** `static_cast<int>` of a double: drops the fraction, rounding toward zero. */
  function Trunc(x: real): (r: int)
    ensures x >= 0.0 ==> 0 <= r && r as real <= x < r as real + 1.0
    ensures x < 0.0 ==> r <= 0 && r as real - 1.0 < x <= r as real
  {
    if x >= 0.0 then x.Floor else -((-x).Floor)
  }

  /** The part of the C math library the distributions call, with the constants they use. */
  datatype MathLib = MathLib(
    ln: real -> real,
    exp: real -> real,
    pow: (real, real) -> real,
    erf: real -> real,
    erfc: real -> real,
    invPhi: real -> real,
    oneOverSqrt2Pi: real,  // 1/sqrt(2*pi)
    oneOverSqrt2: real,    // 1/sqrt(2)
    sqrt2OverPi: real)     // sqrt(2/pi)
  {
    // The library calls, one function each, so that every mention of a call in a
    // contract or a proof is the same term.
    function Ln(x: real): real { ln(x) }
    function Exp(x: real): real { exp(x) }
    function Pow(y: real, e: real): real { pow(y, e) }
    function Erf(x: real): real { erf(x) }
    function Erfc(x: real): real { erfc(x) }
    function InvPhi(u: real): real { invPhi(u) }

    /** The standard normal cdf, written with erfc as the library writes it. */
    function Phi(z: real): real {
      Erfc(-Mul(z, oneOverSqrt2)) / 2.0
    }

    /** ln is negative strictly between 0 and 1. */
    ghost predicate LnNegativeOnUnit() {
      forall u :: 0.0 < u < 1.0 ==> Ln(u) < 0.0
    }

    /** ln never decreases on the positive reals. */
    ghost predicate LnIncreasing() {
      forall x, y :: 0.0 < x <= y ==> Ln(x) <= Ln(y)
    }

    /** erfc is never negative and never increases. */
    ghost predicate ErfcDecreasing() {
      && (forall a :: Erfc(a) >= 0.0)
      && (forall a, b :: a <= b ==> Erfc(a) >= Erfc(b))
    }

    /** exp is positive everywhere. */
    ghost predicate ExpPositive() {
      forall y :: Exp(y) > 0.0
    }

    /** ln and exp are inverse to each other. */
    ghost predicate LnExpInverse() {
      && (forall y :: Ln(Exp(y)) == y)
      && (forall x :: x > 0.0 ==> Exp(Ln(x)) == x)
    }

    /** inv_Phi is the inverse of Phi, and Phi maps the reals into (0,1). */
    ghost predicate PhiInverse() {
      && (forall z :: 0.0 < Phi(z) < 1.0 && InvPhi(Phi(z)) == z)
      && (forall u :: 0.0 < u < 1.0 ==> Phi(InvPhi(u)) == u)
    }

    /** pow with a positive base is positive, and 1 to any power is 1. */
    ghost predicate PowPositive() {
      && (forall y, e :: y > 0.0 ==> Pow(y, e) > 0.0)
      && (forall e :: Pow(1.0, e) == 1.0)
    }

    /** For a negative exponent, pow is strictly decreasing in its base. */
    ghost predicate PowDecreasingInBase() {
      forall y1, y2, e :: 0.0 < y1 < y2 && e < 0.0 ==> Pow(y1, e) > Pow(y2, e)
    }

    /** Raising a positive base to two reciprocal exponents in turn gives it back. */
    ghost predicate PowReciprocal() {
      forall y, a, b {:trigger Pow(Pow(y, a), b)} :: y > 0.0 && a * b == 1.0 ==> Pow(Pow(y, a), b) == y
    }

    /** At a natural exponent, pow is repeated multiplication. */
    ghost predicate PowNaturalExponent() {
      forall y, k :: y > 0.0 && k >= 0 ==> Pow(y, k as real) == Power(y, k)
    }
  }

  /**
   * x * y. A product that is the argument of a library call is written with Mul, so
   * that the call's argument is one term wherever it occurs; the solver does not
   * reliably identify two occurrences of a bare product of non-variable terms there.
   */
  function Mul(x: real, y: real): real {
    x * y
  }

  /** y multiplied by itself k times. */
  function Power(y: real, k: nat): real {
    if k == 0 then 1.0 else Power(y, k - 1) * y
  }
}
