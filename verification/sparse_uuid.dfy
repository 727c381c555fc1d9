/**
 * Sparse dual numbers keyed by UUIDs. Each `into_variable` call draws a fresh
 * v4 UUID; the random source is foreign, so the key is a parameter and the
 * model keeps only the assumption that keys drawn for different variables differ.
 */
module SparseUuid {
  import opened Solid
  import opened Fluid
  import Sparse
  import Common

  newtype Uuid = x: int | 0 <= x < 0x1_0000_0000_0000_0000_0000_0000_0000_0000

  /** `into_variable`: the value with the singleton gradient {key: 1}. */
  function IntoVariable(v: real, key: Uuid): (r: DualNumber<Sparse.Grad<Uuid>>)
    ensures r.value == v
    ensures r.dual.Keys == {key} && r.dual[key] == 1.0
  {
    DualNumber(v, map[key := 1.0])
  }

  /**
   * Seeding several values by repeated `into_variable`, one drawn key per value:
   * variable i keeps value i and has the singleton gradient {keys[i]: 1}.
   */
  function IntoVariables(values: seq<real>, keys: seq<Uuid>): (vars: seq<DualNumber<Sparse.Grad<Uuid>>>)
    requires |keys| == |values|
    ensures |vars| == |values|
    ensures forall i :: 0 <= i < |vars| ==>
      vars[i].value == values[i] && vars[i].dual.Keys == {keys[i]} && vars[i].dual[keys[i]] == 1.0
  {
    seq(|values|, i requires 0 <= i < |values| => IntoVariable(values[i], keys[i]))
  }

  ghost predicate Distinct(keys: seq<Uuid>)
  {
    forall i, j :: 0 <= i < j < |keys| ==> keys[i] != keys[j]
  }

  /**
   * With distinct keys, variable i has coefficient one at its own key and reads
   * zero at every other variable's key: the sparse form of the identity matrix.
   */
  lemma IntoVariablesIsIdentity(values: seq<real>, keys: seq<Uuid>)
    requires |keys| == |values| && Distinct(keys)
    ensures var vars := IntoVariables(values, keys);
      forall i, j :: 0 <= i < |vars| && 0 <= j < |vars| ==>
        vars[i].value == values[i] && Sparse.Get(vars[i].dual, keys[j]) == (if i == j then 1.0 else 0.0)
  {
    var vars := IntoVariables(values, keys);
    forall i, j | 0 <= i < |vars| && 0 <= j < |vars|
      ensures Sparse.Get(vars[i].dual, keys[j]) == (if i == j then 1.0 else 0.0)
    {
      if i != j {
        assert keys[i] != keys[j] by {
          if i < j { } else { }
        }
      }
    }
  }

  /** Adding two variables seeded with different keys gives a two-key gradient with both coefficients one. */
  lemma AddTwoVariables(x: real, y: real, kx: Uuid, ky: Uuid)
    requires kx != ky
    ensures var o := Sparse.SparseOps<Uuid>();
      var s := Common.Add(o, IntoVariable(x, kx), IntoVariable(y, ky));
      s.value == x + y && s.dual == map[kx := 1.0, ky := 1.0]
  {
  }
}
