/**
 * Dynamic vector storage `Grad<V>`: a growable list of partials. Adding two
 * vectors of different lengths first zero-extends the receiver to the longer
 * length, so the shorter operand behaves as if padded with zeros; `zero` is empty.
 */
module DynVector {
  import opened Wrappers
  import opened Seqs
  import opened Derivative
  import opened Solid
  import opened Fluid
  import FixedArray

  type Grad = seq<real>

  /** `resize_with(n, V::zero)` for n at least the current length. */
  function Pad(g: Grad, n: nat): (r: Grad)
    requires n >= |g|
    ensures |r| == n
    ensures forall k :: Get(r, k) == Get(g, k)
  {
    g + Zeros(n - |g|)
  }

  /** `add`: pad the receiver to the longer length, then add the other operand slot by slot. */
  function Add(a: Grad, b: Grad): (r: Grad)
    ensures |r| == Max(|a|, |b|)
  {
    var p := Pad(a, Max(|a|, |b|));
    seq(|p|, i requires 0 <= i < |p| => if i < |b| then p[i] + b[i] else p[i])
  }

  /**
   * `add_assign`: resize the receiver, then zip it with the right operand; the zip
   * stops at the right operand's end, leaving the padded tail as it is.
   */
  method AddAssign(self: Grad, rhs: Grad) returns (r: Grad)
    ensures r == Add(self, rhs)
  {
    r := Pad(self, Max(|self|, |rhs|));
    var i := 0;
    while i < |rhs|
      invariant 0 <= i <= |rhs| <= |r| == Max(|self|, |rhs|)
      invariant forall j :: 0 <= j < i ==> r[j] == Get(self, j) + rhs[j]
      invariant forall j :: i <= j < |r| ==> r[j] == Get(self, j)
    {
      r := r[i := r[i] + rhs[i]];
      i := i + 1;
    }
  }

  /** Read slot by slot, the sum is the sum of the zero-extended operands, whatever their lengths. */
  lemma AddSlots(a: Grad, b: Grad)
    ensures forall k :: Get(Add(a, b), k) == Get(a, k) + Get(b, k)
  {
    var p := Pad(a, Max(|a|, |b|));
    forall k: nat
      ensures Get(Add(a, b), k) == Get(a, k) + Get(b, k)
    {
      if k < |p| {
        assert Get(p, k) == Get(a, k);
      }
    }
  }

  /** `zero` (the empty vector) is an identity for `add` on either side. */
  lemma AddZeroIdentity(g: Grad)
    ensures Add(Zero(), g) == g
    ensures Add(g, Zero()) == g
  {
    assert Add(g, Zero()) == g by {
      assert forall i :: 0 <= i < |g| ==> Add(g, Zero())[i] == Get(Pad(g, |g|), i);
    }
  }

  /** The module's own test: [0.5, 1] += [1, 2, 3] gives [1.5, 3, 3]. */
  lemma AddAssignExample()
    ensures Add([0.5, 1.0], [1.0, 2.0, 3.0]) == [1.5, 3.0, 3.0]
  {
    var p := Pad([0.5, 1.0], 3);
    assert p == [0.5, 1.0, 0.0];
  }

  /** The module's own tests: [1, 2, 3] * 0.5 == [0.5, 1, 1.5] and -[-1, 2, 0] == [1, -2, 0]. */
  lemma ScaleNegExamples()
    ensures Scale([1.0, 2.0, 3.0], 0.5) == [0.5, 1.0, 1.5]
    ensures Neg([-1.0, 2.0, 0.0]) == [1.0, -2.0, 0.0]
  {
  }

  /** `zero`: the empty vector. */
  function Zero(): (r: Grad)
    ensures |r| == 0
    ensures forall k :: Get(r, k) == 0.0
  {
    []
  }

  /** `is_zero` as intended: true when every slot reads zero. */
  function IsZeroCorrected(g: Grad): (b: bool)
    ensures b <==> forall k :: Get(g, k) == 0.0
  {
    var r := FindNonZero(g, 0);
    assert r.Some? ==> Get(g, r.value) != 0.0;
    r.None?
  }

  /** The storage record. The derivative has no subtraction of its own: sub is add of the negation. */
  function VectorOps(): Ops<Grad, nat>
  {
    Ops((g: Grad) => true, Zero(), Add, (a: Grad, b: Grad) => Add(a, Neg(b)), Neg, Scale, Get)
  }

  lemma VectorOpsLawful()
    ensures Lawful(VectorOps())
  {
    forall a: Grad, b: Grad
      ensures forall k :: Get(Add(a, b), k) == Get(a, k) + Get(b, k)
      ensures forall k :: Get(Add(a, Neg(b)), k) == Get(a, k) - Get(b, k)
    {
      AddSlots(a, b);
      AddSlots(a, Neg(b));
    }
  }

  /**
   * `into_variables`: n values give n variables; each starts from an all-zero
   * gradient of length n and gets one at its own index, so the result is the same
   * identity seeding as the fixed-width storage's.
   */
  method IntoVariables(values: seq<real>) returns (vars: seq<DualNumber<Grad>>)
    ensures vars == FixedArray.IntoVariables(values)
    ensures forall i :: 0 <= i < |vars| ==> vars[i].value == values[i] && |vars[i].dual| == |values|
  {
    var len := |values|;
    vars := [];
    var index := 0;
    while index < len
      invariant 0 <= index <= len
      invariant |vars| == index
      invariant forall i :: 0 <= i < index ==> vars[i] == DualNumber(values[i], Basis(len, i))
    {
      var grad := Zeros(len);
      grad := grad[index := 1.0];
      assert grad == Basis(len, index);
      vars := vars + [DualNumber(values[index], grad)];
      index := index + 1;
    }
  }
}
