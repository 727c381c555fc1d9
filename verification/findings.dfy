/**
 * Concrete inputs on which the code as written departs from what it evidently
 * means: the compound multiply and divide reuse the updated value in the cross
 * term, and `is_zero` of the dense storages answers the opposite question.
 */
module Findings {
  import opened Solid
  import opened Fluid
  import Common
  import Single
  import FixedArray
  import DynVector
  import Seqs

  /**
   * `a *= b` with a = (2, 0) and b = (3, 1): the product rule gives the derivative
   * 0 * 3 + 1 * 2 = 2, but the compound form uses the updated value 6 and gives 6.
   */
  lemma MulAssignCounterexample()
    ensures Common.Mul(Single.ScalarOps(), DualNumber(2.0, 0.0), DualNumber(3.0, 1.0)).dual == 2.0
    ensures Common.MulAssign(Single.ScalarOps(), DualNumber(2.0, 0.0), DualNumber(3.0, 1.0)).dual == 6.0
    ensures Common.MulAssignCorrected(Single.ScalarOps(), DualNumber(2.0, 0.0), DualNumber(3.0, 1.0)).dual == 2.0
  {
    var o, a, b := Single.ScalarOps(), DualNumber(2.0, 0.0), DualNumber(3.0, 1.0);
    Single.ScalarOpsLawful();
    assert Partial(o, Common.Mul(o, a, b), ()) == 0.0 * 3.0 + 1.0 * 2.0;
    assert Partial(o, Common.MulAssign(o, a, b), ()) == 0.0 * 3.0 + 1.0 * (2.0 * 3.0);
    assert Partial(o, Common.MulAssignCorrected(o, a, b), ()) == 0.0 * 3.0 + 1.0 * 2.0;
  }

  /**
   * `a /= b` with a = (2, 0) and b = (4, 1): the quotient rule gives
   * (0 * 4 - 1 * 2) / 16 = -1/8, but the compound form uses the updated value 1/2
   * and gives -1/32.
   */
  lemma DivAssignCounterexample()
    ensures Common.Div(Single.ScalarOps(), DualNumber(2.0, 0.0), DualNumber(4.0, 1.0)).dual == -0.125
    ensures Common.DivAssign(Single.ScalarOps(), DualNumber(2.0, 0.0), DualNumber(4.0, 1.0)).dual == -0.03125
    ensures Common.DivAssignCorrected(Single.ScalarOps(), DualNumber(2.0, 0.0), DualNumber(4.0, 1.0)).dual == -0.125
  {
    var o, a, b := Single.ScalarOps(), DualNumber(2.0, 0.0), DualNumber(4.0, 1.0);
    Single.ScalarOpsLawful();
    assert Partial(o, Common.Div(o, a, b), ()) == (0.0 * 4.0 - 1.0 * 2.0) / (4.0 * 4.0);
    assert Partial(o, Common.DivAssign(o, a, b), ()) == (0.0 * 4.0 - 1.0 * (2.0 / 4.0)) / (4.0 * 4.0);
    assert Partial(o, Common.DivAssignCorrected(o, a, b), ()) == (0.0 * 4.0 - 1.0 * 2.0) / (4.0 * 4.0);
  }

  /**
   * The fixed-width `is_zero` denies that the all-zero array is zero and affirms it
   * of the array [1, 0, ..., 0]; the corrected predicate answers both the other way.
   */
  lemma ArrayIsZeroInverted(n: nat)
    requires n > 0
    ensures !Seqs.IsZero(FixedArray.Zero(n)) && FixedArray.IsZeroCorrected(FixedArray.Zero(n))
    ensures Seqs.IsZero(Seqs.Basis(n, 0)) && !FixedArray.IsZeroCorrected(Seqs.Basis(n, 0))
  {
    assert Seqs.Basis(n, 0)[0] == Seqs.Get(Seqs.Basis(n, 0), 0);
  }

  /**
   * The vector `is_zero` is false on the vector's own `zero` (the empty vector) and
   * true on [1]; the corrected predicate answers both the other way.
   */
  lemma VectorIsZeroInverted()
    ensures !Seqs.IsZero(DynVector.Zero()) && DynVector.IsZeroCorrected(DynVector.Zero())
    ensures Seqs.IsZero([1.0]) && !DynVector.IsZeroCorrected([1.0])
  {
    assert Seqs.Get([1.0], 0) == 1.0;
  }
}
