/**
 * The value type of the dual numbers. The source is generic over a floating-point
 * `Value` (`f64` in practice); here a value is an exact `real`. The transcendental
 * primitives of the platform's float library are foreign code, so they are a
 * parameter (`RealLib`); `abs`, `signum` and `powi` are simple enough to define.
 */
module Reals {

  /** The float library's transcendental primitives, left uninterpreted. */
  datatype RealLib = RealLib(
    sinCos: real -> (real, real),
    exp: real -> real,
    ln: real -> real,
    powf: (real, real) -> real)

  /** `f64::signum`: 1 for positives and for +0.0, -1 for negatives (a real zero is +0.0). */
  function Signum(x: real): (r: real)
    ensures r == 1.0 || r == -1.0
    ensures x < 0.0 <==> r == -1.0
  {
    if x < 0.0 then -1.0 else 1.0
  }

  /** `f64::abs`. */
  function Abs(x: real): (r: real)
    ensures r >= 0.0
    ensures r == x || r == -x
  {
    if x < 0.0 then -x else x
  }

  /** Absolute value is the value scaled by its sign, which is why `abs` uses `signum` as its derivative. */
  lemma AbsIsSignumTimes(x: real)
    ensures Abs(x) == Signum(x) * x
  {
  }

  /** `f64::powi`: an integer power by repeated multiplication; negative exponents take the reciprocal. */
  function PowI(x: real, n: int): (r: real)
    requires x != 0.0 || n >= 0
    ensures x != 0.0 ==> r != 0.0
    decreases n < 0, if n < 0 then -n else n
  {
    if n == 0 then 1.0
    else if n > 0 then x * PowI(x, n - 1)
    else 1.0 / PowI(x, -n)
  }

  /** `x.powi(-2)`, the quotient rule's reciprocal denominator, is `1 / (x * x)`. */
  lemma PowIMinusTwo(x: real)
    requires x != 0.0
    ensures PowI(x, -2) == 1.0 / (x * x)
  {
    assert PowI(x, 2) == x * x by {
      assert PowI(x, 1) == x;
    }
  }

  /** `x * x`, the quotient rule's denominator: non-zero away from zero. */
  function Square(x: real): (r: real)
    ensures x != 0.0 ==> r != 0.0
  {
    assert PowI(x, 2) == x * x by {
      assert PowI(x, 1) == x;
    }
    x * x
  }

  /** Dividing by s is scaling by its reciprocal. */
  lemma DivIsMulReciprocal(x: real, s: real)
    requires s != 0.0
    ensures x / s == x * (1.0 / s)
  {
  }

  lemma DivThenMul(x: real, s: real)
    requires s != 0.0
    ensures x / s * s == x
  {
  }

  lemma MulThenDiv(x: real, s: real)
    requires s != 0.0
    ensures x * s / s == x
  {
  }
}
