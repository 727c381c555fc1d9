/**
 * What the user reads off a dual run, per storage: seed the inputs as variables,
 * evaluate the function once, and the result holds the value and the whole
 * gradient (one partial derivative per variable).
 */
module Gradients {
  import opened Seqs
  import opened Derivative
  import opened Solid
  import opened Fluid
  import opened Forward
  import Single
  import FixedArray
  import DynVector
  import Sparse
  import SparseUuid

  /** Scalar storage: one variable, and the derivative is d/dx of the function. */
  lemma ScalarDerivative(lib: Reals.RealLib, e: Expr, x: real)
    requires Defined(lib, e, [x])
    ensures Values([Single.IntoVariable(x)]) == [x]
    ensures var r := EvalDual(Single.ScalarOps(), lib, e, [Single.IntoVariable(x)]);
      r.value == Eval(lib, e, [x]) && r.dual == PartialDerivative(lib, e, [x], 0)
  {
    var o, env := Single.ScalarOps(), [Single.IntoVariable(x)];
    assert Values(env) == [x];
    Single.ScalarOpsLawful();
    EvalDualSlots(o, lib, e, env, ());
    assert Tangents(o, env, ()) == Basis(1, 0);
  }

  /** Seeding through the array identity matrix reads the inputs back and hands out basis tangents. */
  lemma ArraySeeding(xs: seq<real>, k: nat)
    ensures Values(FixedArray.IntoVariables(xs)) == xs
    ensures Tangents(FixedArray.ArrayOps(|xs|), FixedArray.IntoVariables(xs), k) == Basis(|xs|, k)
  {
    var env := FixedArray.IntoVariables(xs);
    var ts := Tangents(FixedArray.ArrayOps(|xs|), env, k);
    assert Values(env) == xs;
    forall i | 0 <= i < |xs|
      ensures ts[i] == Basis(|xs|, k)[i]
    {
      assert ts[i] == Get(env[i].dual, k) == Get(Basis(|xs|, i), k);
      assert Basis(|xs|, k)[i] == Get(Basis(|xs|, k), i);
    }
  }

  /** Fixed-width array storage: slot k of the result is the partial derivative with respect to input k. */
  lemma ArrayGradient(lib: Reals.RealLib, e: Expr, xs: seq<real>)
    requires Defined(lib, e, xs)
    ensures Values(FixedArray.IntoVariables(xs)) == xs
    ensures var r := EvalDual(FixedArray.ArrayOps(|xs|), lib, e, FixedArray.IntoVariables(xs));
      r.value == Eval(lib, e, xs) && |r.dual| == |xs| &&
      forall k :: 0 <= k < |xs| ==> r.dual[k] == PartialDerivative(lib, e, xs, k)
  {
    var o, env := FixedArray.ArrayOps(|xs|), FixedArray.IntoVariables(xs);
    ArraySeeding(xs, 0);
    FixedArray.ArrayOpsLawful(|xs|);
    var r := EvalDual(o, lib, e, env);
    EvalDualSlots(o, lib, e, env, 0);
    forall k | 0 <= k < |xs|
      ensures r.dual[k] == PartialDerivative(lib, e, xs, k)
    {
      ArraySeeding(xs, k);
      EvalDualSlots(o, lib, e, env, k);
    }
  }

  /**
   * Growable vector storage, seeded by its `into_variables`: slot k is the partial
   * derivative with respect to input k, and every slot past the inputs reads zero.
   */
  lemma VectorGradient(lib: Reals.RealLib, e: Expr, xs: seq<real>)
    requires Defined(lib, e, xs)
    ensures Values(FixedArray.IntoVariables(xs)) == xs
    ensures var r := EvalDual(DynVector.VectorOps(), lib, e, FixedArray.IntoVariables(xs));
      r.value == Eval(lib, e, xs) &&
      (forall k: nat :: k < |xs| ==> Get(r.dual, k) == PartialDerivative(lib, e, xs, k)) &&
      (forall k: nat :: k >= |xs| ==> Get(r.dual, k) == 0.0)
  {
    var o, env := DynVector.VectorOps(), FixedArray.IntoVariables(xs);
    ArraySeeding(xs, 0);
    DynVector.VectorOpsLawful();
    var r := EvalDual(o, lib, e, env);
    forall k: nat
      ensures Get(r.dual, k) == Tangent(lib, e, xs, Basis(|xs|, k))
    {
      EvalDualSlots(o, lib, e, env, k);
      assert Tangents(o, env, k) == Tangents(FixedArray.ArrayOps(|xs|), env, k);
      ArraySeeding(xs, k);
    }
    forall k: nat | k >= |xs|
      ensures Get(r.dual, k) == 0.0
    {
      TangentAlongZero(lib, e, xs, Basis(|xs|, k));
    }
  }

  /**
   * Sparse storage with one drawn key per input: the coefficient at input j's key is
   * the partial derivative with respect to input j, and any key no input drew reads zero.
   */
  lemma SparseGradient(lib: Reals.RealLib, e: Expr, xs: seq<real>, keys: seq<SparseUuid.Uuid>)
    requires |keys| == |xs| && SparseUuid.Distinct(keys)
    requires Defined(lib, e, xs)
    ensures Values(SparseUuid.IntoVariables(xs, keys)) == xs
    ensures var r := EvalDual(Sparse.SparseOps(), lib, e, SparseUuid.IntoVariables(xs, keys));
      r.value == Eval(lib, e, xs) &&
      (forall j :: 0 <= j < |xs| ==> Sparse.Get(r.dual, keys[j]) == PartialDerivative(lib, e, xs, j)) &&
      (forall key :: key !in keys ==> Sparse.Get(r.dual, key) == 0.0)
  {
    var o, env := Sparse.SparseOps<SparseUuid.Uuid>(), SparseUuid.IntoVariables(xs, keys);
    SparseUuid.IntoVariablesIsIdentity(xs, keys);
    assert Values(env) == xs;
    Sparse.SparseOpsLawful<SparseUuid.Uuid>();
    var r := EvalDual(o, lib, e, env);
    forall j | 0 <= j < |xs|
      ensures Sparse.Get(r.dual, keys[j]) == PartialDerivative(lib, e, xs, j)
    {
      EvalDualSlots(o, lib, e, env, keys[j]);
      SparseTangentsAreBasis(xs, keys, j);
    }
    forall key | key !in keys
      ensures Sparse.Get(r.dual, key) == 0.0
    {
      EvalDualSlots(o, lib, e, env, key);
      TangentAlongZero(lib, e, xs, Tangents(o, env, key));
    }
  }

  /** Reading the seeded sparse variables at input j's key gives the j-th unit vector. */
  lemma SparseTangentsAreBasis(xs: seq<real>, keys: seq<SparseUuid.Uuid>, j: nat)
    requires |keys| == |xs| && SparseUuid.Distinct(keys) && j < |xs|
    ensures Tangents(Sparse.SparseOps(), SparseUuid.IntoVariables(xs, keys), keys[j]) == Basis(|xs|, j)
  {
    var ts := Tangents(Sparse.SparseOps(), SparseUuid.IntoVariables(xs, keys), keys[j]);
    SparseUuid.IntoVariablesIsIdentity(xs, keys);
    forall i | 0 <= i < |xs|
      ensures ts[i] == Basis(|xs|, j)[i]
    {
      assert Basis(|xs|, j)[i] == Get(Basis(|xs|, j), i);
    }
  }
}
