/** Scalar storage: the derivative is a single value, and its arithmetic is plain real arithmetic. */
module Single {
  import opened Reals
  import opened Derivative
  import opened Solid
  import opened Fluid
  import opened Common

  /** The storage is the value type itself; its single direction is `()`. */
  function ScalarOps(): Ops<real, ()>
  {
    Ops((d: real) => true, 0.0,
        (a: real, b: real) => a + b, (a: real, b: real) => a - b,
        (a: real) => -a, (a: real, s: real) => a * s,
        (d: real, k: ()) => d)
  }

  lemma ScalarOpsLawful()
    ensures Lawful(ScalarOps())
  {
  }

  /** `into_variable`: the value with derivative one in the single direction. */
  function IntoVariable(v: real): (r: DualNumber<real>)
    ensures r.value == v
    ensures Wf(ScalarOps(), r) && Partial(ScalarOps(), r, ()) == 1.0
  {
    DualNumber(v, 1.0)
  }

  /** Derived `Default` is the parameter 0. */
  lemma DefaultIsParameterZero()
    ensures Default(0.0) == Parameter(ScalarOps(), 0.0)
  {
  }

  /**
   * The type's documentation example: with x0 = 1 (a parameter) and x = 3 (a
   * variable), (x - x0).powf(2) has value 4 and derivative 4, given a float
   * library for which 2^2 = 4 and 2^1 = 2.
   */
  lemma PowfExample(lib: RealLib)
    requires lib.powf(2.0, 2.0) == 4.0 && lib.powf(2.0, 1.0) == 2.0
    ensures var f := Powf(ScalarOps(), lib, Sub(ScalarOps(), IntoVariable(3.0), Parameter(ScalarOps(), 1.0)), 2.0);
      f.value == 4.0 && f.dual == 4.0
  {
    var d := Sub(ScalarOps(), IntoVariable(3.0), Parameter(ScalarOps(), 1.0));
    assert d == DualNumber(2.0, 1.0);
  }

  /**
   * Scalar Newton scenario: f(x) = (x - 1)^2 seeded at x = 0 has value 1 and
   * derivative -2 (the input of the Newton step x - f/f' = 0.5).
   */
  lemma QuadraticExample(lib: RealLib)
    requires lib.powf(-1.0, 2.0) == 1.0 && lib.powf(-1.0, 1.0) == -1.0
    ensures var f := Powf(ScalarOps(), lib, Sub(ScalarOps(), IntoVariable(0.0), Parameter(ScalarOps(), 1.0)), 2.0);
      f.value == 1.0 && f.dual == -2.0
  {
    var d := Sub(ScalarOps(), IntoVariable(0.0), Parameter(ScalarOps(), 1.0));
    assert d == DualNumber(-1.0, 1.0);
    var f := Powf(ScalarOps(), lib, d, 2.0);
    assert f.value == 1.0;
    assert f.dual == 1.0 * (lib.powf(-1.0, 1.0) * 2.0) == -2.0;
  }
}
