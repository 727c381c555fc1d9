/**
 * The older growable storage `Vector` and its dual number `Common<Vector>`. Like the
 * newer vector storage it zero-extends the receiver before combining, and `zero` is
 * empty. Its seeding gives variable i a gradient of length i + 1 rather than n,
 * which reads the same as the identity once short gradients are zero-extended.
 * Sums and products of many dual numbers are folds of the shared arithmetic.
 */
module LegacyVector {
  import opened Seqs
  import opened Derivative
  import opened Solid
  import opened Fluid
  import Common
  import DynVector
  import Forward

  type Grad = seq<real>
  type Dual = DualNumber<Grad>

  /** `zero`: the empty vector, an identity for the zero-extending sum on either side. */
  function Zero(): (r: Grad)
    ensures forall g: Grad :: DynVector.Add(r, g) == g && DynVector.Add(g, r) == g
  {
    forall g: Grad
      ensures DynVector.Add(DynVector.Zero(), g) == g && DynVector.Add(g, DynVector.Zero()) == g
    {
      DynVector.AddZeroIdentity(g);
    }
    []
  }

  /** `add_assign`: resize the receiver to the longer length with zeros, then add the right operand element-wise. */
  method AddAssign(self: Grad, rhs: Grad) returns (r: Grad)
    ensures |r| == Max(|self|, |rhs|)
    ensures forall k :: Get(r, k) == Get(self, k) + Get(rhs, k)
    ensures r == DynVector.Add(self, rhs)
  {
    var newLen := Max(|self|, |rhs|);
    r := self + Zeros(newLen - |self|);
    var i := 0;
    while i < |rhs|
      invariant 0 <= i <= |rhs| <= |r| == newLen
      invariant forall j :: 0 <= j < i ==> r[j] == Get(self, j) + rhs[j]
      invariant forall j :: i <= j < |r| ==> r[j] == Get(self, j)
    {
      r := r[i := r[i] + rhs[i]];
      i := i + 1;
    }
    DynVector.AddSlots(self, rhs);
    assert forall j :: 0 <= j < |r| ==> r[j] == DynVector.Add(self, rhs)[j] by {
      forall j | 0 <= j < |r|
        ensures r[j] == DynVector.Add(self, rhs)[j]
      {
        assert Get(DynVector.Add(self, rhs), j) == Get(self, j) + Get(rhs, j);
      }
    }
  }

  /** `sub_assign`: resize the receiver to the longer length with zeros, then subtract the right operand element-wise. */
  method SubAssign(self: Grad, rhs: Grad) returns (r: Grad)
    ensures |r| == Max(|self|, |rhs|)
    ensures forall k :: Get(r, k) == Get(self, k) - Get(rhs, k)
    ensures r == DynVector.Add(self, Seqs.Neg(rhs))
  {
    var newLen := Max(|self|, |rhs|);
    r := self + Zeros(newLen - |self|);
    var i := 0;
    while i < |rhs|
      invariant 0 <= i <= |rhs| <= |r| == newLen
      invariant forall j :: 0 <= j < i ==> r[j] == Get(self, j) - rhs[j]
      invariant forall j :: i <= j < |r| ==> r[j] == Get(self, j)
    {
      r := r[i := r[i] - rhs[i]];
      i := i + 1;
    }
    var n := Seqs.Neg(rhs);
    DynVector.AddSlots(self, n);
    assert forall j :: 0 <= j < |r| ==> r[j] == DynVector.Add(self, n)[j] by {
      forall j | 0 <= j < |r|
        ensures r[j] == DynVector.Add(self, n)[j]
      {
        assert Get(DynVector.Add(self, n), j) == Get(self, j) + Get(n, j);
      }
    }
  }

  /**
   * `mul_assign` (and `mul`, which goes through it): every element scaled in place,
   * the length kept; `div` by the same non-zero value gives the receiver back.
   */
  method MulAssign(self: Grad, s: real) returns (r: Grad)
    ensures r == Seqs.Scale(self, s)
    ensures s != 0.0 ==> Div(r, s) == self
  {
    r := self;
    var i := 0;
    while i < |r|
      invariant 0 <= i <= |r| == |self|
      invariant forall j :: 0 <= j < i ==> r[j] == self[j] * s
      invariant forall j :: i <= j < |r| ==> r[j] == self[j]
    {
      r := r[i := r[i] * s];
      i := i + 1;
    }
    assert forall j :: 0 <= j < |r| ==> r[j] == Seqs.Scale(self, s)[j];
    if s != 0.0 {
      forall j | 0 <= j < |self|
        ensures Div(r, s)[j] == self[j]
      {
        Reals.MulThenDiv(self[j], s);
      }
    }
  }

  /**
   * `div` by a value: every element divided, the same as scaling by the reciprocal;
   * read with zero-extension, scaling back by the value gives every slot back.
   */
  function Div(g: Grad, s: real): (r: Grad)
    requires s != 0.0
    ensures r == Seqs.Scale(g, 1.0 / s)
    ensures forall k :: Get(r, k) * s == Get(g, k)
  {
    var r := seq(|g|, i requires 0 <= i < |g| => g[i] / s);
    forall i | 0 <= i < |g|
      ensures r[i] == Seqs.Scale(g, 1.0 / s)[i]
    {
      Reals.DivIsMulReciprocal(g[i], s);
    }
    forall k: nat
      ensures Get(r, k) * s == Get(g, k)
    {
      if k < |g| {
        Reals.DivThenMul(g[k], s);
      }
    }
    r
  }

  /** `neg`: every element negated, the length kept; adding it back reads zero everywhere. */
  function Neg(g: Grad): (r: Grad)
    ensures r == Seqs.Neg(g)
    ensures forall k :: Get(DynVector.Add(g, r), k) == 0.0
  {
    var r := seq(|g|, i requires 0 <= i < |g| => -g[i]);
    DynVector.AddSlots(g, r);
    r
  }

  /** The module's own tests of `div`, `neg` and `add_assign`. */
  lemma VectorTests()
    ensures Div([1.0, 2.0, 3.0], 2.0) == [0.5, 1.0, 1.5]
    ensures Neg([-1.0, 2.0, 0.0]) == [1.0, -2.0, 0.0]
    ensures DynVector.Add([0.5, 1.0, 1.5], [1.0, 2.0, 3.0]) == [1.5, 3.0, 4.5]
  {
    assert DynVector.Pad([0.5, 1.0, 1.5], 3) == [0.5, 1.0, 1.5];
  }

  /**
   * `DualVariables::new`: every value first becomes a parameter (an empty gradient);
   * then the gradient of variable i is resized to i + 1 with zeros and its last slot
   * set to one.
   */
  method NewVariables(values: seq<real>) returns (vars: seq<Dual>)
    ensures vars == Seeded(values)
  {
    vars := seq(|values|, i requires 0 <= i < |values| => Common.Parameter(DynVector.VectorOps(), values[i]));
    var i := 0;
    while i < |vars|
      invariant 0 <= i <= |vars| == |values|
      invariant forall j :: 0 <= j < i ==> vars[j] == Seeded(values)[j]
      invariant forall j :: i <= j < |vars| ==> vars[j] == DualNumber(values[j], [])
    {
      var x := vars[i];
      var grad := x.dual + Zeros(i + 1 - |x.dual|);
      grad := grad[i := 1.0];
      assert grad == Basis(i + 1, i) by {
        assert forall j :: 0 <= j < i + 1 ==> grad[j] == Get(Basis(i + 1, i), j);
      }
      vars := vars[i := DualNumber(x.value, grad)];
      i := i + 1;
    }
  }

  /**
   * The variables `DualVariables::new` hands out: value xs[i] and a gradient of
   * length i + 1; read with zero-extension, the gradients are the identity matrix,
   * so in every direction the inputs move along the standard basis.
   */
  function Seeded(xs: seq<real>): (vars: seq<Dual>)
    ensures |vars| == |xs|
    ensures forall i :: 0 <= i < |xs| ==> vars[i].value == xs[i] && |vars[i].dual| == i + 1
    ensures Forward.Values(vars) == xs
    ensures forall k: nat :: Forward.Tangents(DynVector.VectorOps(), vars, k) == Basis(|xs|, k)
  {
    var vars := seq(|xs|, i requires 0 <= i < |xs| => DualNumber(xs[i], Basis(i + 1, i)));
    assert Forward.Values(vars) == xs;
    forall k: nat
      ensures Forward.Tangents(DynVector.VectorOps(), vars, k) == Basis(|xs|, k)
    {
      var ts := Forward.Tangents(DynVector.VectorOps(), vars, k);
      forall i | 0 <= i < |xs|
        ensures ts[i] == Basis(|xs|, k)[i]
      {
        assert ts[i] == Get(Basis(i + 1, i), k);
        assert Basis(|xs|, k)[i] == Get(Basis(|xs|, k), i);
      }
    }
    vars
  }

  /**
   * Seeding with gradients of length i + 1 loses nothing: slot k of the result is the
   * partial derivative with respect to input k, and every slot past the inputs reads zero.
   */
  lemma SeededGradient(lib: Reals.RealLib, e: Forward.Expr, xs: seq<real>)
    requires Forward.Defined(lib, e, xs)
    ensures Forward.Values(Seeded(xs)) == xs
    ensures var r := Forward.EvalDual(DynVector.VectorOps(), lib, e, Seeded(xs));
      r.value == Forward.Eval(lib, e, xs) &&
      (forall k: nat :: k < |xs| ==> Get(r.dual, k) == Forward.PartialDerivative(lib, e, xs, k)) &&
      (forall k: nat :: k >= |xs| ==> Get(r.dual, k) == 0.0)
  {
    var o, env := DynVector.VectorOps(), Seeded(xs);
    DynVector.VectorOpsLawful();
    var r := Forward.EvalDual(o, lib, e, env);
    forall k: nat
      ensures Get(r.dual, k) == Forward.Tangent(lib, e, xs, Basis(|xs|, k))
    {
      Forward.EvalDualSlots(o, lib, e, env, k);
    }
    forall k: nat | k >= |xs|
      ensures Get(r.dual, k) == 0.0
    {
      Forward.TangentAlongZero(lib, e, xs, Basis(|xs|, k));
    }
  }

  /** The longest gradient among the numbers. */
  function MaxLength(xs: seq<Dual>): (m: nat)
    ensures forall i :: 0 <= i < |xs| ==> |xs[i].dual| <= m
    ensures |xs| == 0 ==> m == 0
    ensures |xs| > 0 ==> exists i :: 0 <= i < |xs| && |xs[i].dual| == m
  {
    if |xs| == 0 then 0
    else
      var m := Max(MaxLength(xs[..|xs| - 1]), |xs[|xs| - 1].dual|);
      assert forall i :: 0 <= i < |xs| - 1 ==> xs[..|xs| - 1][i] == xs[i];
      m
  }

  lemma {:induction false} PrefixReadings(xs: seq<Dual>, k: nat)
    requires |xs| > 0
    ensures Forward.Values(xs[..|xs| - 1]) == Forward.Values(xs)[..|xs| - 1]
    ensures Forward.Tangents(DynVector.VectorOps(), xs[..|xs| - 1], k) ==
      Forward.Tangents(DynVector.VectorOps(), xs, k)[..|xs| - 1]
  {
  }

  /**
   * `Sum`: fold `+` over the numbers from the parameter 0. The value is the sum of the
   * values, every partial is the sum of the partials, and the gradient is as long
   * as the longest one summed.
   */
  function SumFold(xs: seq<Dual>): (r: Dual)
    ensures r.value == Seqs.Sum(Forward.Values(xs))
    ensures forall k: nat :: Get(r.dual, k) == Seqs.Sum(Forward.Tangents(DynVector.VectorOps(), xs, k))
    ensures |r.dual| == MaxLength(xs)
  {
    var o := DynVector.VectorOps();
    if |xs| == 0 then Common.Parameter(o, 0.0)
    else
      var acc := SumFold(xs[..|xs| - 1]);
      var x := xs[|xs| - 1];
      var r := Common.Add(o, acc, x);
      forall k: nat
        ensures Get(r.dual, k) == Seqs.Sum(Forward.Tangents(o, xs, k))
      {
        PrefixReadings(xs, k);
        DynVector.AddSlots(acc.dual, x.dual);
      }
      PrefixReadings(xs, 0);
      r
  }

  /**
   * `Product`: fold `*` over the numbers from the parameter 1. The value is the
   * product of the values, and the gradient is as long as the longest factor's.
   */
  function ProductFold(xs: seq<Dual>): (r: Dual)
    ensures r.value == Seqs.Product(Forward.Values(xs))
    ensures |r.dual| == MaxLength(xs)
  {
    if |xs| == 0 then Common.Parameter(DynVector.VectorOps(), 1.0)
    else
      ProductStep(xs);
      Times(ProductFold(xs[..|xs| - 1]), xs[|xs| - 1])
  }

  lemma ProductStep(xs: seq<Dual>)
    requires |xs| > 0
    ensures Seqs.Product(Forward.Values(xs)) == Seqs.Product(Forward.Values(xs[..|xs| - 1])) * xs[|xs| - 1].value
  {
    PrefixReadings(xs, 0);
  }

  /** `*` on vector dual numbers: the shared product rule, whose gradient is as long as the longer factor's. */
  function Times(a: Dual, b: Dual): (r: Dual)
    ensures r.value == a.value * b.value && |r.dual| == Max(|a.dual|, |b.dual|)
  {
    MulOnVectors(a, b);
    Common.Mul(DynVector.VectorOps(), a, b)
  }

  lemma MulOnVectors(a: Dual, b: Dual)
    ensures Common.Mul(DynVector.VectorOps(), a, b) ==
      DualNumber(a.value * b.value, DynVector.Add(Seqs.Scale(a.dual, b.value), Seqs.Scale(b.dual, a.value)))
  {
  }

  lemma OneToFive()
    ensures Seqs.Sum([1.0, 2.0, 3.0, 4.0, 5.0]) == 15.0
    ensures Seqs.Product([1.0, 2.0, 3.0, 4.0, 5.0]) == 120.0
  {
    var xs := [1.0, 2.0, 3.0, 4.0, 5.0];
    assert [1.0][..0] == [];
    assert Seqs.Sum([1.0]) == 1.0 && Seqs.Product([1.0]) == 1.0;
    assert [1.0, 2.0][..1] == [1.0];
    assert Seqs.Sum([1.0, 2.0]) == 3.0 && Seqs.Product([1.0, 2.0]) == 2.0;
    assert [1.0, 2.0, 3.0][..2] == [1.0, 2.0];
    assert Seqs.Sum([1.0, 2.0, 3.0]) == 6.0 && Seqs.Product([1.0, 2.0, 3.0]) == 6.0;
    assert [1.0, 2.0, 3.0, 4.0][..3] == [1.0, 2.0, 3.0];
    assert Seqs.Sum([1.0, 2.0, 3.0, 4.0]) == 10.0 && Seqs.Product([1.0, 2.0, 3.0, 4.0]) == 24.0;
    assert xs[..4] == [1.0, 2.0, 3.0, 4.0];
  }

  /** The sum and product tests: over the variables [1, 2, 3, 4, 5], the values are 15 and 120. */
  lemma SumProductTests()
    ensures SumFold(Seeded([1.0, 2.0, 3.0, 4.0, 5.0])).value == 15.0
    ensures ProductFold(Seeded([1.0, 2.0, 3.0, 4.0, 5.0])).value == 120.0
  {
    OneToFive();
  }

  /** `filter(|x| x.value() < threshold)`: the numbers whose value lies below the threshold, in order. */
  function Below(xs: seq<Dual>, threshold: real): (r: seq<Dual>)
    ensures |r| <= |xs|
    ensures forall i :: 0 <= i < |r| ==> r[i] in xs && r[i].value < threshold
    ensures forall x :: x in xs && x.value < threshold ==> x in r
  {
    if |xs| == 0 then []
    else
      var init := Below(xs[..|xs| - 1], threshold);
      var last := xs[|xs| - 1];
      assert forall x :: x in xs ==> x in xs[..|xs| - 1] || x == last;
      if last.value < threshold then init + [last] else init
  }

  /** `x - 1` with 1 a parameter: subtracting an empty gradient leaves the gradient as it was. */
  function ShiftDown(x: Dual): (r: Dual)
    ensures r.value == x.value - 1.0 && r.dual == x.dual
  {
    DynVector.AddZeroIdentity(x.dual);
    assert Seqs.Neg(Common.Parameter(DynVector.VectorOps(), 1.0).dual) == DynVector.Zero();
    Common.Sub(DynVector.VectorOps(), x, Common.Parameter(DynVector.VectorOps(), 1.0))
  }

  function ShiftAll(xs: seq<Dual>): (r: seq<Dual>)
    ensures |r| == |xs| && forall i :: 0 <= i < |xs| ==> r[i] == ShiftDown(xs[i])
  {
    seq(|xs|, i requires 0 <= i < |xs| => ShiftDown(xs[i]))
  }

  /** The `product_owned` test: over the variables [1, 2, 3], the product of x - 1 is zero. */
  lemma ProductOwnedTest()
    ensures ProductFold(ShiftAll(Seeded([1.0, 2.0, 3.0]))).value == 0.0
  {
    var xs := Seeded([1.0, 2.0, 3.0]);
    var ys := ShiftAll(xs);
    assert xs[0].value == 1.0 && xs[1].value == 2.0 && xs[2].value == 3.0;
    assert Forward.Values(ys) == [0.0, 1.0, 2.0] by {
      assert ys[0].value == 0.0 && ys[1].value == 1.0 && ys[2].value == 2.0;
    }
    ProductWithLeadingZero();
  }

  lemma ProductWithLeadingZero()
    ensures Seqs.Product([0.0, 1.0, 2.0]) == 0.0
  {
    assert [0.0, 1.0, 2.0][..2] == [0.0, 1.0];
    assert [0.0, 1.0][..1] == [0.0];
    assert [0.0][..0] == [];
  }

  /** Keeping the values below 6 among the variables [2, 3, 5, 8] keeps the first three variables. */
  lemma BelowSix()
    ensures Below(Seeded([2.0, 3.0, 5.0, 8.0]), 6.0) == Seeded([2.0, 3.0, 5.0])
  {
    var vars := Seeded([2.0, 3.0, 5.0, 8.0]);
    var v3, v2, v1 := vars[..3], vars[..2], vars[..1];
    assert v1[..0] == [];
    assert Below(v1, 6.0) == [vars[0]];
    assert v2[..1] == v1;
    assert Below(v2, 6.0) == [vars[0], vars[1]];
    assert v3[..2] == v2;
    assert Below(v3, 6.0) == [vars[0], vars[1], vars[2]];
    assert vars[..3] == v3;
    assert Seeded([2.0, 3.0, 5.0]) == [vars[0], vars[1], vars[2]];
  }

  /** Over the variables [2, 3, 5], the product of x - 1 has value 8 and a gradient of length 3. */
  lemma ShiftedProductOfThree()
    ensures var f := ProductFold(ShiftAll(Seeded([2.0, 3.0, 5.0])));
      f.value == 8.0 && |f.dual| == 3
  {
    var ys := ShiftAll(Seeded([2.0, 3.0, 5.0]));
    assert Forward.Values(ys) == [1.0, 2.0, 4.0];
    assert [1.0, 2.0, 4.0][..2] == [1.0, 2.0];
    assert [1.0, 2.0][..1] == [1.0];
    assert [1.0][..0] == [];
    assert |ys[2].dual| == 3;
  }

  /**
   * The `shifted_partial` test: over the variables [2, 3, 5, 8], keeping the values
   * below 6, subtracting one and multiplying gives the value 8 and a gradient one
   * shorter than the number of variables (the last variable was dropped).
   */
  lemma ShiftedPartialTest()
    ensures var f := ProductFold(ShiftAll(Below(Seeded([2.0, 3.0, 5.0, 8.0]), 6.0)));
      f.value == 8.0 && |f.dual| == 3
  {
    BelowSix();
    ShiftedProductOfThree();
  }

  lemma DivOnVectors(a: Dual, b: Dual)
    requires b.value != 0.0
    ensures Common.Div(DynVector.VectorOps(), a, b) ==
      DualNumber(a.value / b.value,
        Seqs.Scale(DynVector.Add(Seqs.Scale(a.dual, b.value), Seqs.Neg(Seqs.Scale(b.dual, a.value))),
                        Reals.PowI(b.value, -2)))
  {
  }

  lemma DivTestGradient()
    ensures Seqs.Scale(DynVector.Add(Seqs.Scale([1.0], 2.0), Seqs.Neg(Seqs.Scale([0.0, 1.0], 1.0))), 0.25)
      == [0.5, -0.25]
  {
    assert Seqs.Scale([1.0], 2.0) == [2.0];
    assert Seqs.Neg(Seqs.Scale([0.0, 1.0], 1.0)) == [0.0, -1.0];
    assert DynVector.Pad([2.0], 2) == [2.0, 0.0];
    assert DynVector.Add([2.0], [0.0, -1.0]) == [2.0, -1.0];
  }

  /** The `div` test: x / y over the variables [1, 2] has value 1/2 and gradient [1/2, -1/4]. */
  lemma DivTest()
    ensures var vars := Seeded([1.0, 2.0]);
      var f := Common.Div(DynVector.VectorOps(), vars[0], vars[1]);
      f.value == 0.5 && f.dual == [0.5, -0.25]
  {
    var vars := Seeded([1.0, 2.0]);
    assert vars[0].dual == Basis(1, 0) && vars[1].dual == Basis(2, 1);
    assert Basis(1, 0) == [1.0] by {
      assert Basis(1, 0)[0] == Get(Basis(1, 0), 0);
    }
    assert Basis(2, 1) == [0.0, 1.0] by {
      assert Basis(2, 1)[0] == Get(Basis(2, 1), 0);
      assert Basis(2, 1)[1] == Get(Basis(2, 1), 1);
    }
    DivOnVectors(vars[0], vars[1]);
    Reals.PowIMinusTwo(2.0);
    DivTestGradient();
  }
}
