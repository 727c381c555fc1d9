/**
 * The older fixed-width storage `Array<N>` and its dual number `Common<Array<N>>`:
 * N partials, combined slot by slot. Its operations agree with the newer
 * fixed-width storage, its seeding is the identity, and its `differential`
 * collapses the gradient into the derivative along the all-ones direction.
 */
module LegacyArray {
  import opened Seqs
  import opened Solid
  import opened Fluid
  import Common
  import FixedArray
  import Forward
  import Gradients

  type Grad = seq<real>
  type Dual = DualNumber<Grad>

  /** `binary_operation`: copy the left operand, then fold each slot of the right operand into the slot of the same index. */
  method BinaryOperation(a: Grad, b: Grad, op: (real, real) -> real) returns (out: Grad)
    requires |a| == |b|
    ensures |out| == |a| && forall i :: 0 <= i < |a| ==> out[i] == op(a[i], b[i])
  {
    out := a;
    var i := 0;
    while i < |out|
      invariant 0 <= i <= |out| == |a|
      invariant forall j :: 0 <= j < i ==> out[j] == op(a[j], b[j])
      invariant forall j :: i <= j < |out| ==> out[j] == a[j]
    {
      out := out[i := op(out[i], b[i])];
      i := i + 1;
    }
  }

  function Plus(x: real, y: real): real { x + y }

  function Minus(x: real, y: real): real { x - y }

  /** `add`: `binary_operation` with `+=`; the same as the newer storage's sum. */
  method Add(a: Grad, b: Grad) returns (r: Grad)
    requires |a| == |b|
    ensures r == FixedArray.Add(a, b)
  {
    r := BinaryOperation(a, b, Plus);
  }

  /** `sub`: `binary_operation` with `-=`; the same as adding the negation. */
  method Sub(a: Grad, b: Grad) returns (r: Grad)
    requires |a| == |b|
    ensures r == FixedArray.Add(a, Seqs.Neg(b))
  {
    r := BinaryOperation(a, b, Minus);
  }

  /** `add_assign`: zip the receiver with the right operand and add in place; it agrees with `add`. */
  method AddAssign(self: Grad, rhs: Grad) returns (r: Grad)
    requires |self| == |rhs|
    ensures r == FixedArray.Add(self, rhs)
  {
    r := self;
    var i := 0;
    while i < |r|
      invariant 0 <= i <= |r| == |self|
      invariant forall j :: 0 <= j < i ==> r[j] == self[j] + rhs[j]
      invariant forall j :: i <= j < |r| ==> r[j] == self[j]
    {
      r := r[i := r[i] + rhs[i]];
      i := i + 1;
    }
  }

  /** `sub_assign`: zip the receiver with the right operand and subtract in place; it agrees with `sub`. */
  method SubAssign(self: Grad, rhs: Grad) returns (r: Grad)
    requires |self| == |rhs|
    ensures r == FixedArray.Add(self, Seqs.Neg(rhs))
  {
    r := self;
    var i := 0;
    while i < |r|
      invariant 0 <= i <= |r| == |self|
      invariant forall j :: 0 <= j < i ==> r[j] == self[j] - rhs[j]
      invariant forall j :: i <= j < |r| ==> r[j] == self[j]
    {
      r := r[i := r[i] - rhs[i]];
      i := i + 1;
    }
  }

  /** `div` by a value: every slot divided, so a scaling by a non-zero value is undone. */
  function Div(g: Grad, s: real): (r: Grad)
    requires s != 0.0
    ensures r == Seqs.Scale(g, 1.0 / s)
    ensures Seqs.Scale(r, s) == g
  {
    var r := seq(|g|, i requires 0 <= i < |g| => g[i] / s);
    forall i | 0 <= i < |g|
      ensures r[i] == Seqs.Scale(g, 1.0 / s)[i]
    {
      Reals.DivIsMulReciprocal(g[i], s);
    }
    forall i | 0 <= i < |g|
      ensures Seqs.Scale(r, s)[i] == g[i]
    {
      Reals.DivThenMul(g[i], s);
    }
    r
  }

  /** `mul` by a value: every slot scaled; dividing by the same non-zero value gives the gradient back. */
  function Mul(g: Grad, s: real): (r: Grad)
    ensures r == Seqs.Scale(g, s)
    ensures s != 0.0 ==> Div(r, s) == g
  {
    var r := seq(|g|, i requires 0 <= i < |g| => g[i] * s);
    assert s != 0.0 ==> Div(r, s) == g by {
      if s != 0.0 {
        forall i | 0 <= i < |g|
          ensures Div(r, s)[i] == g[i]
        {
          Reals.MulThenDiv(g[i], s);
        }
      }
    }
    r
  }

  /** `mul_assign`: scale every slot in place; it agrees with `mul`. */
  method MulAssign(self: Grad, s: real) returns (r: Grad)
    ensures r == Seqs.Scale(self, s)
  {
    r := self;
    var i := 0;
    while i < |r|
      invariant 0 <= i <= |r| == |self|
      invariant forall j :: 0 <= j < i ==> r[j] == self[j] * s
      invariant forall j :: i <= j < |r| ==> r[j] == self[j]
    {
      r := r[i := r[i] * s];
      i := i + 1;
    }
    assert forall j :: 0 <= j < |r| ==> r[j] == Seqs.Scale(self, s)[j];
  }

  /** `neg`: every slot negated, an additive inverse. */
  function Neg(g: Grad): (r: Grad)
    ensures r == Seqs.Neg(g)
    ensures FixedArray.Add(g, r) == FixedArray.Zero(|g|)
  {
    seq(|g|, i requires 0 <= i < |g| => -g[i])
  }

  /** `Default`: every slot zero, the identity of `add`. */
  function Default(n: nat): (r: Grad)
    ensures |r| == n
    ensures forall g: Grad :: |g| == n ==> FixedArray.Add(g, r) == g
  {
    seq(n, _ => 0.0)
  }

  /**
   * Seeding (`From` for `DualVariables`): every value first becomes a parameter,
   * then variable i gets a one in slot i; the gradients form the identity.
   */
  method NewVariables(values: seq<real>) returns (vars: seq<Dual>)
    ensures vars == FixedArray.IntoVariables(values)
  {
    var n := |values|;
    vars := seq(n, i requires 0 <= i < n => Common.Parameter(FixedArray.ArrayOps(n), values[i]));
    var i := 0;
    while i < n
      invariant 0 <= i <= n == |vars|
      invariant forall j :: 0 <= j < i ==> vars[j] == DualNumber(values[j], Basis(n, j))
      invariant forall j :: i <= j < n ==> vars[j] == DualNumber(values[j], Default(n))
    {
      var x := vars[i];
      var grad := x.dual[i := 1.0];
      assert grad == Basis(n, i) by {
        assert forall j :: 0 <= j < n ==> grad[j] == Get(Basis(n, i), j);
      }
      vars := vars[i := DualNumber(x.value, grad)];
      i := i + 1;
    }
  }

  /** `differential`: the value, and the sum of all partials as a single derivative. */
  function Differential(x: Dual): (r: DualNumber<real>)
    ensures r.value == x.value
  {
    DualNumber(x.value, Sum(x.dual))
  }

  /**
   * Run on the identity seeding, the differential is the derivative of the function
   * along the direction that moves every input at rate one.
   */
  lemma DifferentialAlongOnes(lib: Reals.RealLib, e: Forward.Expr, xs: seq<real>)
    requires Forward.Defined(lib, e, xs)
    ensures Forward.Values(FixedArray.IntoVariables(xs)) == xs
    ensures var r := Forward.EvalDual(FixedArray.ArrayOps(|xs|), lib, e, FixedArray.IntoVariables(xs));
      Differential(r) == DualNumber(Forward.Eval(lib, e, xs), Forward.Tangent(lib, e, xs, Forward.OnesUpTo(|xs|, |xs|)))
  {
    var r := Forward.EvalDual(FixedArray.ArrayOps(|xs|), lib, e, FixedArray.IntoVariables(xs));
    Gradients.ArrayGradient(lib, e, xs);
    assert r.dual == Forward.Partials(lib, e, xs);
    Forward.SumOfPartials(lib, e, xs, |xs|);
    assert Forward.Partials(lib, e, xs)[..|xs|] == r.dual;
  }

  /** The `differential` documentation example: with [x, y] = [2, 2], (x - 1) * y has the differential (2, 3). */
  lemma DifferentialExample()
    ensures var o := FixedArray.ArrayOps(2);
      var vars := FixedArray.IntoVariables([2.0, 2.0]);
      var f := Common.Mul(o, Common.Sub(o, vars[0], Common.Parameter(o, 1.0)), vars[1]);
      Differential(f) == DualNumber(2.0, 3.0)
  {
    var o := FixedArray.ArrayOps(2);
    var vars := FixedArray.IntoVariables([2.0, 2.0]);
    assert vars[0].dual == [1.0, 0.0] && vars[1].dual == [0.0, 1.0];
    var one := Common.Parameter(o, 1.0);
    assert one.dual == [0.0, 0.0];
    FixedArray.SubOnArrays(vars[0], one);
    var d := Common.Sub(o, vars[0], one);
    assert d.value == 1.0 && d.dual == [1.0, 0.0];
    FixedArray.MulOnArrays(d, vars[1]);
    var f := Common.Mul(o, d, vars[1]);
    assert f.value == 2.0 && f.dual == [2.0, 1.0];
    SumOfPair(2.0, 1.0);
  }

  lemma SumOfPair(a: real, b: real)
    ensures Sum([a, b]) == a + b
  {
    assert [a][..0] == [];
    assert Sum([a]) == a;
    assert [a, b][..1] == [a];
  }
}
