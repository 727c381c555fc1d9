/**
 * The chain rule and the elementary functions built on it (the `Dual` trait's
 * default methods, repeated line for line by `Common<D>`). Each elementary function
 * is one `Chain` call: the new value is f(x), and every partial is scaled by f'(x).
 */
module Fluid {
  import opened Reals
  import opened Derivative
  import opened Solid

  /** The partial derivative that `x` holds for direction `k`. */
  function Partial<D, K>(o: Ops<D, K>, x: DualNumber<D>, k: K): real
  {
    o.at(x.dual, k)
  }

  /** `x`'s derivative storage has the shape its storage demands. */
  ghost predicate Wf<D, K>(o: Ops<D, K>, x: DualNumber<D>)
  {
    o.valid(x.dual)
  }

  /** `chain`: `func` returns (f(x), f'(x)) at the value; the derivative is scaled by f'(x). */
  function Chain<D(!new), K(!new)>(o: Ops<D, K>, x: DualNumber<D>, func: real --> (real, real)): (r: DualNumber<D>)
    requires func.requires(x.value)
    ensures r.value == func(x.value).0
    ensures Lawful(o) && Wf(o, x) ==>
      Wf(o, r) && forall k :: Partial(o, r, k) == Partial(o, x, k) * func(x.value).1
  {
    var (f, df) := func(x.value);
    DualNumber(f, o.scale(x.dual, df))
  }

  /** `powf(p)`: value x^p, derivative factor p * x^(p - 1). */
  function Powf<D(!new), K(!new)>(o: Ops<D, K>, lib: RealLib, x: DualNumber<D>, p: real): (r: DualNumber<D>)
    ensures r.value == lib.powf(x.value, p)
    ensures Lawful(o) && Wf(o, x) ==>
      Wf(o, r) && forall k :: Partial(o, r, k) == Partial(o, x, k) * (p * lib.powf(x.value, p - 1.0))
  {
    Chain(o, x, (y: real) => (lib.powf(y, p), lib.powf(y, p - 1.0) * p))
  }

  /**
   * `powi(n)`: value x^n, derivative factor n * x^(n - 1). Over the reals x^(n - 1)
   * exists only when x is non-zero or n >= 1 (the float version yields inf or NaN).
   */
  function Powi<D(!new), K(!new)>(o: Ops<D, K>, x: DualNumber<D>, n: int): (r: DualNumber<D>)
    requires x.value != 0.0 || n >= 1
    ensures r.value == PowI(x.value, n)
    ensures Lawful(o) && Wf(o, x) ==>
      Wf(o, r) && forall k :: Partial(o, r, k) == Partial(o, x, k) * ((n as real) * PowI(x.value, n - 1))
  {
    Chain(o, x, (y: real) requires y != 0.0 || n >= 1 => (PowI(y, n), PowI(y, n - 1) * (n as real)))
  }

  /** `sin`: one `sin_cos` evaluation; value sin x, derivative factor cos x. */
  function Sin<D(!new), K(!new)>(o: Ops<D, K>, lib: RealLib, x: DualNumber<D>): (r: DualNumber<D>)
    ensures r.value == lib.sinCos(x.value).0
    ensures Lawful(o) && Wf(o, x) ==>
      Wf(o, r) && forall k :: Partial(o, r, k) == Partial(o, x, k) * lib.sinCos(x.value).1
  {
    var (sin, cos) := lib.sinCos(x.value);
    Chain(o, x, _ => (sin, cos))
  }

  /** `cos`: one `sin_cos` evaluation; value cos x, derivative factor -sin x. */
  function Cos<D(!new), K(!new)>(o: Ops<D, K>, lib: RealLib, x: DualNumber<D>): (r: DualNumber<D>)
    ensures r.value == lib.sinCos(x.value).1
    ensures Lawful(o) && Wf(o, x) ==>
      Wf(o, r) && forall k :: Partial(o, r, k) == Partial(o, x, k) * -lib.sinCos(x.value).0
  {
    var (sin, cos) := lib.sinCos(x.value);
    Chain(o, x, _ => (cos, -sin))
  }

  /** `exp`: the derivative factor is the new value itself. */
  function Exp<D(!new), K(!new)>(o: Ops<D, K>, lib: RealLib, x: DualNumber<D>): (r: DualNumber<D>)
    ensures r.value == lib.exp(x.value)
    ensures Lawful(o) && Wf(o, x) ==>
      Wf(o, r) && forall k :: Partial(o, r, k) == Partial(o, x, k) * r.value
  {
    var e := lib.exp(x.value);
    Chain(o, x, _ => (e, e))
  }

  /** `ln`: derivative factor 1/x (`x.recip()`), which needs a non-zero value. */
  function Ln<D(!new), K(!new)>(o: Ops<D, K>, lib: RealLib, x: DualNumber<D>): (r: DualNumber<D>)
    requires x.value != 0.0
    ensures r.value == lib.ln(x.value)
    ensures Lawful(o) && Wf(o, x) ==>
      Wf(o, r) && forall k :: Partial(o, r, k) * x.value == Partial(o, x, k)
  {
    Chain(o, x, (y: real) requires y != 0.0 => (lib.ln(y), 1.0 / y))
  }

  /** `abs`: derivative factor `signum(x)` (so +1 at zero, as `f64::signum(0.0)` is 1). */
  function Abs<D(!new), K(!new)>(o: Ops<D, K>, x: DualNumber<D>): (r: DualNumber<D>)
    ensures r.value >= 0.0 && (r.value == x.value || r.value == -x.value)
    ensures Lawful(o) && Wf(o, x) ==>
      Wf(o, r) && forall k :: Partial(o, r, k) == (if x.value < 0.0 then -Partial(o, x, k) else Partial(o, x, k))
  {
    Chain(o, x, (y: real) => (Reals.Abs(y), Reals.Signum(y)))
  }

  /** `signum`: value the sign of x (1 at zero, as `f64::signum(+0.0)`), derivative factor zero. */
  function Signum<D(!new), K(!new)>(o: Ops<D, K>, x: DualNumber<D>): (r: DualNumber<D>)
    ensures r.value == Reals.Signum(x.value)
    ensures Lawful(o) && Wf(o, x) ==> Wf(o, r) && forall k :: Partial(o, r, k) == 0.0
  {
    Chain(o, x, (y: real) => (Reals.Signum(y), 0.0))
  }
}
