/**
 * The older scalar dual number (`single::DualNumber`): a (value, derivative) pair
 * with its own operators and elementary functions. Each one agrees with the
 * generic arithmetic run on scalar storage.
 */
module LegacySingle {
  import opened Reals
  import opened Solid
  import opened Fluid
  import Common
  import Single

  type Dual = DualNumber<real>

  lemma MulOnScalars(a: Dual, b: Dual)
    ensures Common.Mul(Single.ScalarOps(), a, b).dual == a.dual * b.value + b.dual * a.value
  {
    Single.ScalarOpsLawful();
    assert Partial(Single.ScalarOps(), Common.Mul(Single.ScalarOps(), a, b), ()) ==
      Partial(Single.ScalarOps(), a, ()) * b.value + Partial(Single.ScalarOps(), b, ()) * a.value;
  }

  lemma DivOnScalars(a: Dual, b: Dual)
    requires b.value != 0.0
    ensures Common.Div(Single.ScalarOps(), a, b).dual == (a.dual * b.value - b.dual * a.value) / (b.value * b.value)
  {
    Single.ScalarOpsLawful();
    assert Partial(Single.ScalarOps(), Common.Div(Single.ScalarOps(), a, b), ()) ==
      (Partial(Single.ScalarOps(), a, ()) * b.value - Partial(Single.ScalarOps(), b, ()) * a.value) / (b.value * b.value);
  }

  lemma ChainOnScalars(x: Dual, func: real --> (real, real), v: real, d: real)
    requires func.requires(x.value) && func(x.value) == (v, d)
    ensures Fluid.Chain(Single.ScalarOps(), x, func) == DualNumber(v, x.dual * d)
  {
    Single.ScalarOpsLawful();
    var r := Fluid.Chain(Single.ScalarOps(), x, func);
    assert Partial(Single.ScalarOps(), r, ()) == Partial(Single.ScalarOps(), x, ()) * d;
    SameDual(r, DualNumber(v, x.dual * d));
  }

  /** `var`: the value as the independent variable, derivative one. */
  function Var(v: real): (r: Dual)
    ensures r == Single.IntoVariable(v)
  {
    DualNumber(v, 1.0)
  }

  /** `par`: the value as a constant, derivative zero. */
  function Par(v: real): (r: Dual)
    ensures r == Common.Parameter(Single.ScalarOps(), v)
  {
    DualNumber(v, 0.0)
  }

  function Add(a: Dual, b: Dual): (r: Dual)
    ensures r == Common.Add(Single.ScalarOps(), a, b)
  {
    DualNumber(a.value + b.value, a.dual + b.dual)
  }

  function Sub(a: Dual, b: Dual): (r: Dual)
    ensures r == Common.Sub(Single.ScalarOps(), a, b)
  {
    DualNumber(a.value - b.value, a.dual - b.dual)
  }

  function Mul(a: Dual, b: Dual): (r: Dual)
    ensures r == Common.Mul(Single.ScalarOps(), a, b)
  {
    MulOnScalars(a, b);
    DualNumber(a.value * b.value, a.dual * b.value + b.dual * a.value)
  }

  /** Quotient rule with the square of the denominator written out (the float result at b = 0 is not modelled). */
  function Div(a: Dual, b: Dual): (r: Dual)
    requires b.value != 0.0
    ensures r == Common.Div(Single.ScalarOps(), a, b)
  {
    DivOnScalars(a, b);
    DualNumber(a.value / b.value, (a.dual * b.value - b.dual * a.value) / (b.value * b.value))
  }

  function Neg(a: Dual): (r: Dual)
    ensures r == Common.Neg(Single.ScalarOps(), a)
  {
    DualNumber(-a.value, -a.dual)
  }

  /** The function-derivative pair `custom` hands to the chain rule. */
  function Pair(func: real --> real, deriv: real --> real): real --> (real, real)
  {
    (y: real) requires func.requires(y) && deriv.requires(y) => (func(y), deriv(y))
  }

  /**
   * `custom(func, deriv)`: the value becomes func(x) and the derivative is scaled
   * by deriv(x). It is the generic chain rule on scalar storage.
   */
  function Custom(x: Dual, func: real --> real, deriv: real --> real): (r: Dual)
    requires func.requires(x.value) && deriv.requires(x.value)
    ensures r.value == func(x.value) && r.dual == x.dual * deriv(x.value)
  {
    Single.ScalarOpsLawful();
    var pair := Pair(func, deriv);
    assert pair.requires(x.value) && pair(x.value) == (func(x.value), deriv(x.value));
    ChainOnScalars(x, pair, func(x.value), deriv(x.value));
    Fluid.Chain(Single.ScalarOps(), x, pair)
  }

  /** The pair `chain_of` hands to the chain rule: f(x) and f'(x), already evaluated. */
  function Evaluated(v: real, d: real): real -> (real, real)
  {
    _ => (v, d)
  }

  /**
   * `chain_of(val, deriv)`: the value becomes `val` and the derivative is scaled by
   * `deriv`. It is the generic chain rule on scalar storage, with f(x) and f'(x) given.
   */
  function ChainOf(x: Dual, v: real, d: real): (r: Dual)
    ensures r.value == v && r.dual == d * x.dual
  {
    Single.ScalarOpsLawful();
    ChainOnScalars(x, Evaluated(v, d), v, d);
    Fluid.Chain(Single.ScalarOps(), x, Evaluated(v, d))
  }

  lemma SameDual(r1: Dual, r2: Dual)
    requires r1.value == r2.value && r1.dual == r2.dual
    ensures r1 == r2
  {
  }

  /** Two scalar dual numbers agree when their values and their one partial agree. */
  lemma SameScalar(r1: Dual, r2: Dual)
    requires r1.value == r2.value
    requires Partial(Single.ScalarOps(), r1, ()) == Partial(Single.ScalarOps(), r2, ())
    ensures r1 == r2
  {
  }

  function Powf(lib: RealLib, x: Dual, p: real): (r: Dual)
    ensures r == Fluid.Powf(Single.ScalarOps(), lib, x, p)
  {
    var r := Custom(x, (y: real) => lib.powf(y, p), (y: real) => lib.powf(y, p - 1.0) * p);
    Single.ScalarOpsLawful();
    SameScalar(r, Fluid.Powf(Single.ScalarOps(), lib, x, p));
    r
  }

  function Sin(lib: RealLib, x: Dual): (r: Dual)
    ensures r == Fluid.Sin(Single.ScalarOps(), lib, x)
  {
    var (sin, cos) := lib.sinCos(x.value);
    var r := ChainOf(x, sin, cos);
    Single.ScalarOpsLawful();
    SameScalar(r, Fluid.Sin(Single.ScalarOps(), lib, x));
    r
  }

  function Cos(lib: RealLib, x: Dual): (r: Dual)
    ensures r == Fluid.Cos(Single.ScalarOps(), lib, x)
  {
    var (sin, cos) := lib.sinCos(x.value);
    var r := ChainOf(x, cos, -sin);
    Single.ScalarOpsLawful();
    SameScalar(r, Fluid.Cos(Single.ScalarOps(), lib, x));
    r
  }

  /** `sin_cos`: one evaluation, and the pair is exactly (`sin`, `cos`). */
  function SinCos(lib: RealLib, x: Dual): (r: (Dual, Dual))
    ensures r == (Sin(lib, x), Cos(lib, x))
  {
    Single.ScalarOpsLawful();
    var (sin, cos) := lib.sinCos(x.value);
    (ChainOf(x, sin, cos), ChainOf(x, cos, -sin))
  }

  function Exp(lib: RealLib, x: Dual): (r: Dual)
    ensures r == Fluid.Exp(Single.ScalarOps(), lib, x)
  {
    var v := lib.exp(x.value);
    var r := ChainOf(x, v, v);
    Single.ScalarOpsLawful();
    SameScalar(r, Fluid.Exp(Single.ScalarOps(), lib, x));
    r
  }

  function Ln(lib: RealLib, x: Dual): (r: Dual)
    requires x.value != 0.0
    ensures r == Fluid.Ln(Single.ScalarOps(), lib, x)
  {
    var r := Custom(x, (y: real) => lib.ln(y), (y: real) requires y != 0.0 => 1.0 / y);
    Single.ScalarOpsLawful();
    SameScalar(r, Fluid.Ln(Single.ScalarOps(), lib, x));
    r
  }

  function Abs(x: Dual): (r: Dual)
    ensures r == Fluid.Abs(Single.ScalarOps(), x)
  {
    var r := Custom(x, (y: real) => Reals.Abs(y), (y: real) => Reals.Signum(y));
    Single.ScalarOpsLawful();
    SameScalar(r, Fluid.Abs(Single.ScalarOps(), x));
    r
  }

  function Signum(x: Dual): (r: Dual)
    ensures r == Fluid.Signum(Single.ScalarOps(), x)
  {
    var r := Custom(x, (y: real) => Reals.Signum(y), _ => 0.0);
    Single.ScalarOpsLawful();
    SameScalar(r, Fluid.Signum(Single.ScalarOps(), x));
    r
  }

  /** `DualNumber::eval`: apply a function on dual numbers. */
  function Apply(x: Dual, f: Dual -> Dual): Dual
  {
    f(x)
  }

  /** `Dualize::eval`: apply a function on dual numbers to the value seeded as the variable. */
  function DualizeEval(v: real, f: Dual -> Dual): Dual
  {
    Apply(Var(v), f)
  }

  /**
   * The composition example: squaring, then adding the parameter one, evaluated
   * from x gives (x^2 + 1, 2x) for every x.
   */
  lemma ComposeSquarePlusOne(x: real)
    ensures var square := (y: Dual) => Mul(y, y);
      var plusOne := (y: Dual) => Add(y, Par(1.0));
      Apply(DualizeEval(x, square), plusOne) == DualNumber(x * x + 1.0, 2.0 * x)
  {
  }
}
