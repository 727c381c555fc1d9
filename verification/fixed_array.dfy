/**
 * Fixed-width array storage `Grad<V, N>`: exactly N partials. Rust fixes N in the
 * type, so two operands always have the same width; here that is the shape
 * invariant |g| == n, and binary operations require equal widths.
 */
module FixedArray {
  import opened Wrappers
  import opened Seqs
  import opened Derivative
  import opened Solid
  import opened Fluid
  import Common

  type Grad = seq<real>

  /** Slot-wise sum of two gradients of the same width. */
  function Add(a: Grad, b: Grad): (r: Grad)
    requires |a| == |b|
    ensures |r| == |a|
    ensures forall k :: Get(r, k) == Get(a, k) + Get(b, k)
  {
    seq(|a|, i requires 0 <= i < |a| => a[i] + b[i])
  }

  /**
   * `add_assign`: walk the receiver's slots and add the right operand's slot of the
   * same index; the `panic!` for a missing slot cannot fire because both widths are N.
   */
  method AddAssign(self: Grad, rhs: Grad) returns (r: Grad)
    requires |self| == |rhs|
    ensures r == Add(self, rhs)
  {
    r := self;
    var index := 0;
    while index < |r|
      invariant 0 <= index <= |r| == |self|
      invariant forall i :: 0 <= i < index ==> r[i] == self[i] + rhs[i]
      invariant forall i :: index <= i < |r| ==> r[i] == self[i]
    {
      if index < |rhs| {
        r := r[index := r[index] + rhs[index]];
      } else {
        assert false;
      }
      index := index + 1;
    }
  }

  /** `zero`: the all-zero array of width n. */
  function Zero(n: nat): (r: Grad)
    ensures |r| == n && forall i :: 0 <= i < n ==> r[i] == 0.0
  {
    Zeros(n)
  }

  /** `is_zero` as intended: true when no slot is non-zero. */
  function IsZeroCorrected(g: Grad): (b: bool)
    ensures b <==> forall i :: 0 <= i < |g| ==> g[i] == 0.0
  {
    FindNonZero(g, 0).None?
  }

  /** The storage record for width n. The derivative has no subtraction of its own: sub is add of the negation. */
  function ArrayOps(n: nat): Ops<Grad, nat>
  {
    Ops((g: Grad) => |g| == n, Zero(n),
        (a: Grad, b: Grad) => if |a| == |b| then Add(a, b) else a,
        (a: Grad, b: Grad) => if |a| == |b| then Add(a, Neg(b)) else a,
        Neg, Scale, Get)
  }

  lemma ArrayOpsLawful(n: nat)
    ensures Lawful(ArrayOps(n))
  {
  }

  /**
   * `into_variables`: variable i has value arr[i] and gradient e_i of width N, so
   * the gradients form the identity matrix.
   */
  function IntoVariables(arr: seq<real>): (vars: seq<DualNumber<Grad>>)
    ensures |vars| == |arr|
    ensures forall i :: 0 <= i < |vars| ==> vars[i].value == arr[i] && |vars[i].dual| == |arr| && Wf(ArrayOps(|arr|), vars[i])
    ensures forall i, j :: 0 <= i < |vars| && 0 <= j < |vars| ==>
      vars[i].dual[j] == (if i == j then 1.0 else 0.0)
  {
    seq(|arr|, i requires 0 <= i < |arr| => DualNumber(arr[i], Basis(|arr|, i)))
  }

  /** The type's documentation example: x0 = 1, [x, y] = [2, 3]; (x - x0) * y has value 3 and a width-2 gradient [3, 1]. */
  lemma ShiftedProductExample()
    ensures var o := ArrayOps(2);
      var vars := IntoVariables([2.0, 3.0]);
      var f := Common.Mul(o, Common.Sub(o, vars[0], Common.Parameter(o, 1.0)), vars[1]);
      f.value == 3.0 && f.dual == [3.0, 1.0]
  {
    var o := ArrayOps(2);
    var vars := IntoVariables([2.0, 3.0]);
    assert vars[0].dual == [1.0, 0.0] && vars[1].dual == [0.0, 1.0];
    var d := Common.Sub(o, vars[0], Common.Parameter(o, 1.0));
    assert d.dual == [1.0, 0.0];
  }

  lemma SubOnArrays(a: DualNumber<Grad>, b: DualNumber<Grad>)
    requires |a.dual| == |b.dual|
    ensures Common.Sub(ArrayOps(|a.dual|), a, b) == DualNumber(a.value - b.value, Add(a.dual, Neg(b.dual)))
  {
  }

  lemma MulOnArrays(a: DualNumber<Grad>, b: DualNumber<Grad>)
    requires |a.dual| == |b.dual|
    ensures Common.Mul(ArrayOps(|a.dual|), a, b) ==
      DualNumber(a.value * b.value, Add(Scale(a.dual, b.value), Scale(b.dual, a.value)))
  {
  }

  /**
   * Two-variable gradient scenario: f(x, y) = (x - 1) * (2y - 1) seeded at (0, 0)
   * has value 1 and gradient [-1, -2].
   */
  lemma MultiQuadraticExample()
    ensures var o := ArrayOps(2);
      var vars := IntoVariables([0.0, 0.0]);
      var shift := Common.Parameter(o, 1.0);
      var f := Common.Mul(o, Common.Sub(o, vars[0], shift),
                          Common.Sub(o, Common.Mul(o, vars[1], Common.Parameter(o, 2.0)), shift));
      f.value == 1.0 && f.dual == [-1.0, -2.0]
  {
    var o := ArrayOps(2);
    var vars := IntoVariables([0.0, 0.0]);
    var shift := Common.Parameter(o, 1.0);
    assert vars[0].value == 0.0 && vars[0].dual == [1.0, 0.0];
    assert vars[1].value == 0.0 && vars[1].dual == [0.0, 1.0];
    assert shift.value == 1.0 && shift.dual == [0.0, 0.0];
    var a := Common.Sub(o, vars[0], shift);
    SubOnArrays(vars[0], shift);
    assert a.value == -1.0 && a.dual == [1.0, 0.0];
    var y2 := Common.Mul(o, vars[1], Common.Parameter(o, 2.0));
    MulOnArrays(vars[1], Common.Parameter(o, 2.0));
    assert y2.value == 0.0 && y2.dual == [0.0, 2.0];
    var b := Common.Sub(o, y2, shift);
    SubOnArrays(y2, shift);
    assert b.value == -1.0 && b.dual == [0.0, 2.0];
    MulOnArrays(a, b);
    assert Common.Mul(o, a, b).dual == [-1.0, -2.0];
  }
}
