/**
 * Sparse storage `Grad<Key, V>`: a map from an opaque key to a partial. Absent
 * keys read as zero; adding merges the key sets and never removes a key.
 */
module Sparse {
  import opened Derivative

  type Grad<K> = map<K, real>

  /** Slot `k` of a sparse gradient: its coefficient, or zero when the key is absent. */
  function Get<K(!new)>(m: Grad<K>, k: K): real
  {
    if k in m then m[k] else 0.0
  }

  /**
   * The value `merge_assign` leaves in map1: the key union, with `op(old, new)` for
   * a shared key, map2's value for a key only in map2, and map1's entries otherwise.
   */
  function Merge<K(!new)>(map1: Grad<K>, map2: Grad<K>, op: (real, real) -> real): (r: Grad<K>)
    ensures r.Keys == map1.Keys + map2.Keys
    ensures forall k :: k in map1 && k in map2 ==> r[k] == op(map1[k], map2[k])
    ensures forall k :: k in map2 && k !in map1 ==> r[k] == map2[k]
    ensures forall k :: k in map1 && k !in map2 ==> r[k] == map1[k]
  {
    map k | k in map1.Keys + map2.Keys ::
      if k in map1 && k in map2 then op(map1[k], map2[k])
      else if k in map1 then map1[k]
      else map2[k]
  }

  /**
   * `merge_assign`: visit map2's entries in whatever order the hash map yields
   * them (any order here), combining into or inserting into map1. The result is
   * `Merge`, so it does not depend on the iteration order.
   */
  method MergeAssign<K(!new)>(map1: Grad<K>, map2: Grad<K>, op: (real, real) -> real) returns (r: Grad<K>)
    ensures r == Merge(map1, map2, op)
  {
    r := map1;
    var remaining := map2.Keys;
    while remaining != {}
      invariant remaining <= map2.Keys
      invariant r.Keys == map1.Keys + (map2.Keys - remaining)
      invariant forall k :: k in r && k in map2 && k !in remaining ==>
        r[k] == (if k in map1 then op(map1[k], map2[k]) else map2[k])
      invariant forall k :: k in r && (k !in map2 || k in remaining) ==> r[k] == map1[k]
      decreases remaining
    {
      var key :| key in remaining;
      if key in r {
        r := r[key := op(r[key], map2[key])];
      } else {
        r := r[key := map2[key]];
      }
      remaining := remaining - {key};
    }
  }

  /** `add` / `add_assign`: merge with `+`. */
  function Add<K(!new)>(a: Grad<K>, b: Grad<K>): (r: Grad<K>)
    ensures r.Keys == a.Keys + b.Keys
    ensures forall k :: Get(r, k) == Get(a, k) + Get(b, k)
  {
    Merge(a, b, (x: real, y: real) => x + y)
  }

  /** Adding keeps every key of both operands, even where the coefficients cancel to zero. */
  lemma AddKeepsCancelledKeys<K(!new)>(a: Grad<K>, b: Grad<K>, k: K)
    requires k in a && k in b && a[k] + b[k] == 0.0
    ensures k in Add(a, b) && Add(a, b)[k] == 0.0
  {
  }

  lemma AddCommutative<K(!new)>(a: Grad<K>, b: Grad<K>)
    ensures Add(a, b) == Add(b, a)
  {
  }

  lemma AddAssociative<K(!new)>(a: Grad<K>, b: Grad<K>, c: Grad<K>)
    ensures Add(Add(a, b), c) == Add(a, Add(b, c))
  {
  }

  /** Merging {A: 1}, {B: 2} and {A: 3} in any order gives {A: 4, B: 2}. */
  lemma MergeOrderExample<K(!new)>(keyA: K, keyB: K)
    requires keyA != keyB
    ensures var ma, mb, mc := map[keyA := 1.0], map[keyB := 2.0], map[keyA := 3.0];
      var expected := map[keyA := 4.0, keyB := 2.0];
      && Add(Add(ma, mb), mc) == expected
      && Add(Add(mc, mb), ma) == expected
      && Add(ma, Add(mc, mb)) == expected
  {
  }

  /** `mul` / `mul_assign`: every coefficient scaled; the key set is unchanged. */
  function Scale<K(!new)>(m: Grad<K>, s: real): (r: Grad<K>)
    ensures r.Keys == m.Keys
    ensures forall k :: Get(r, k) == Get(m, k) * s
  {
    map k | k in m :: m[k] * s
  }

  /** `neg`: every coefficient negated; the key set is unchanged. */
  function Neg<K(!new)>(m: Grad<K>): (r: Grad<K>)
    ensures r.Keys == m.Keys
    ensures forall k :: Get(r, k) == -Get(m, k)
  {
    map k | k in m :: -m[k]
  }

  /** `zero`: the empty map. */
  function Zero<K(!new)>(): (r: Grad<K>)
    ensures r.Keys == {}
    ensures forall k :: Get(r, k) == 0.0
  {
    map[]
  }

  lemma AddZeroIdentity<K(!new)>(m: Grad<K>)
    ensures Add(Zero(), m) == m && Add(m, Zero()) == m
  {
  }

  /** `is_zero`: the map is empty or all its coefficients are zero, i.e. every slot reads zero. */
  function IsZero<K(!new)>(m: Grad<K>): (b: bool)
    ensures b <==> forall k :: Get(m, k) == 0.0
  {
    assert |m| == 0 ==> forall k :: k !in m by {
      if |m| == 0 {
        assert m.Keys == {};
      }
    }
    assert forall k | k in m :: Get(m, k) == m[k];
    |m| == 0 || forall k | k in m :: m[k] == 0.0
  }

  /** The storage record. The derivative has no subtraction of its own: sub is add of the negation. */
  function SparseOps<K(!new)>(): Ops<Grad<K>, K>
  {
    Ops((m: Grad<K>) => true, Zero(), Add, (a: Grad<K>, b: Grad<K>) => Add(a, Neg(b)), Neg, Scale, Get)
  }

  lemma SparseOpsLawful<K(!new)>()
    ensures Lawful(SparseOps<K>())
  {
  }
}
