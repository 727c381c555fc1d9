/**
 * The older const-generic multivariate dual number (`multi::DualNumber<N>`): a value
 * and a gradient of exactly N partials, with N restricted to [SIZE_MIN, SIZE_MAX].
 * Its operators agree with the generic arithmetic on fixed-width array storage.
 */
module LegacyMulti {
  import opened Wrappers
  import opened Seqs
  import opened Solid
  import Common
  import Fluid
  import Reals
  import FixedArray

  /** `SIZE_MIN` and `SIZE_MAX`: the accepted range of the width N. */
  const SizeMin: nat := 2
  const SizeMax: nat := 64

  type Grad = seq<real>
  type Dual = DualNumber<Grad>

  /** `assert_size`: the width is accepted. */
  predicate SizeOk(n: nat)
  {
    SizeMin <= n <= SizeMax
  }

  /** `new(val, dual)`: panics unless the width is within [2, 64]. */
  function New(v: real, dual: Grad): (r: Result<Dual, string>)
    ensures r.Ok? <==> 2 <= |dual| <= 64
    ensures r.Ok? ==> r.value.value == v && r.value.dual == dual
  {
    if SizeOk(|dual|) then Ok(DualNumber(v, dual)) else Err("assert_size")
  }

  /** `zero()`: the parameter 0 of width n, through `new`, so it panics outside [2, 64]. */
  function Zero(n: nat): (r: Result<Dual, string>)
    ensures r.Ok? <==> 2 <= n <= 64
    ensures r.Ok? ==> r.value == Common.Parameter(FixedArray.ArrayOps(n), 0.0)
  {
    New(0.0, Zeros(n))
  }

  /** The size tests: widths 0, 1 and 65 panic; widths 2 and 3 construct. */
  lemma SizeTests()
    ensures Zero(0).Err? && Zero(1).Err? && Zero(SizeMin - 1).Err? && Zero(SizeMax + 1).Err?
    ensures Zero(2).Ok? && Zero(3).Ok?
  {
  }

  /** Gradient `add`: slot by slot over the N slots. */
  function GradAdd(a: Grad, b: Grad): (r: Grad)
    requires |a| == |b|
    ensures r == FixedArray.Add(a, b)
  {
    seq(|a|, index requires 0 <= index < |a| => a[index] + b[index])
  }

  /** Gradient `sub`: slot by slot; the same as adding the negation. */
  function GradSub(a: Grad, b: Grad): (r: Grad)
    requires |a| == |b|
    ensures r == FixedArray.Add(a, Seqs.Neg(b))
  {
    seq(|a|, index requires 0 <= index < |a| => a[index] - b[index])
  }

  /** Gradient `mul` by a value: every slot scaled. */
  function GradScale(g: Grad, s: real): (r: Grad)
    ensures r == Seqs.Scale(g, s)
  {
    seq(|g|, i requires 0 <= i < |g| => g[i] * s)
  }

  /** Gradient `div` by a value: every slot divided, the same as scaling by the reciprocal. */
  function GradDiv(g: Grad, s: real): (r: Grad)
    requires s != 0.0
    ensures r == Seqs.Scale(g, 1.0 / s)
  {
    var r := seq(|g|, i requires 0 <= i < |g| => g[i] / s);
    forall i | 0 <= i < |g|
      ensures r[i] == Seqs.Scale(g, 1.0 / s)[i]
    {
      Reals.DivIsMulReciprocal(g[i], s);
    }
    r
  }

  /** Gradient `neg`: every slot negated. */
  function GradNeg(g: Grad): (r: Grad)
    ensures r == Seqs.Neg(g)
  {
    seq(|g|, i requires 0 <= i < |g| => -g[i])
  }

  function Add(a: Dual, b: Dual): (r: Dual)
    requires |a.dual| == |b.dual|
    ensures r == Common.Add(FixedArray.ArrayOps(|a.dual|), a, b)
  {
    DualNumber(a.value + b.value, GradAdd(a.dual, b.dual))
  }

  function Sub(a: Dual, b: Dual): (r: Dual)
    requires |a.dual| == |b.dual|
    ensures r == Common.Sub(FixedArray.ArrayOps(|a.dual|), a, b)
  {
    DualNumber(a.value - b.value, GradSub(a.dual, b.dual))
  }

  function Mul(a: Dual, b: Dual): (r: Dual)
    requires |a.dual| == |b.dual|
    ensures r == Common.Mul(FixedArray.ArrayOps(|a.dual|), a, b)
  {
    FixedArray.MulOnArrays(a, b);
    DualNumber(a.value * b.value, GradAdd(GradScale(a.dual, b.value), GradScale(b.dual, a.value)))
  }

  /** The quotient rule with the gradient divided by the squared denominator. */
  function Div(a: Dual, b: Dual): (r: Dual)
    requires |a.dual| == |b.dual| && b.value != 0.0
    ensures r == Common.Div(FixedArray.ArrayOps(|a.dual|), a, b)
  {
    DivOnArrays(a, b);
    DualNumber(a.value / b.value, GradDiv(GradSub(GradScale(a.dual, b.value), GradScale(b.dual, a.value)), Reals.Square(b.value)))
  }

  function Neg(a: Dual): (r: Dual)
    ensures r == Common.Neg(FixedArray.ArrayOps(|a.dual|), a)
  {
    DualNumber(-a.value, GradNeg(a.dual))
  }

  lemma DivOnArrays(a: Dual, b: Dual)
    requires |a.dual| == |b.dual| && b.value != 0.0
    ensures DualNumber(a.value / b.value, GradDiv(GradSub(GradScale(a.dual, b.value), GradScale(b.dual, a.value)), Reals.Square(b.value)))
      == Common.Div(FixedArray.ArrayOps(|a.dual|), a, b)
  {
    var r := DualNumber(a.value / b.value, GradDiv(GradSub(GradScale(a.dual, b.value), GradScale(b.dual, a.value)), Reals.Square(b.value)));
    var n := |a.dual|;
    var o := FixedArray.ArrayOps(n);
    var q := Common.Div(o, a, b);
    FixedArray.ArrayOpsLawful(n);
    assert |q.dual| == n;
    forall k | 0 <= k < n
      ensures r.dual[k] == q.dual[k]
    {
      assert Fluid.Partial(o, q, k) == q.dual[k];
      assert Fluid.Partial(o, a, k) == a.dual[k] && Fluid.Partial(o, b, k) == b.dual[k];
      assert r.dual[k] == (a.dual[k] * b.value - b.dual[k] * a.value) / (b.value * b.value);
    }
    assert r.dual == q.dual;
  }

  /** A zero gradient of width n with slot i then set to one: the basis vector e_i. */
  function Unit(n: nat, i: nat): (g: Grad)
    requires i < n
    ensures g == Basis(n, i)
  {
    var g := Zeros(n)[i := 1.0];
    assert forall j :: 0 <= j < n ==> g[j] == Get(Basis(n, i), j);
    g
  }

  /**
   * `vars`: starting from N zero numbers, variable i gets value self[i] and a one in
   * slot i, so the gradients are the identity matrix; it panics outside [2, 64].
   */
  function Vars(xs: seq<real>): (r: Result<seq<Dual>, string>)
    ensures r.Ok? <==> 2 <= |xs| <= 64
    ensures r.Ok? ==> r.value == FixedArray.IntoVariables(xs)
  {
    if !SizeOk(|xs|) then Err("assert_size")
    else Ok(seq(|xs|, index requires 0 <= index < |xs| => DualNumber(xs[index], Unit(|xs|, index))))
  }

  /**
   * `pars`: every value becomes a parameter of gradient width nv, which is chosen
   * independently of how many values there are; it panics unless nv is within [2, 64].
   */
  function Pars(xs: seq<real>, nv: nat): (r: Result<seq<Dual>, string>)
    ensures r.Ok? <==> 2 <= nv <= 64
    ensures r.Ok? ==>
      |r.value| == |xs| && forall i :: 0 <= i < |xs| ==> r.value[i] == Common.Parameter(FixedArray.ArrayOps(nv), xs[i])
  {
    if !SizeOk(nv) then Err("assert_size")
    else Ok(seq(|xs|, index requires 0 <= index < |xs| => DualNumber(xs[index], Zeros(nv))))
  }

  /** `Dualize::eval`: apply a function of the N variables to the seeded values. */
  function DualizeEval(xs: seq<real>, f: seq<Dual> -> Dual): (r: Result<Dual, string>)
    ensures r.Ok? <==> 2 <= |xs| <= 64
    ensures r.Ok? ==> r.value == f(FixedArray.IntoVariables(xs))
  {
    match Vars(xs)
    case Ok(vars) => Ok(f(vars))
    case Err(e) => Err(e)
  }
}
