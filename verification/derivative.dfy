/**
 * The Derivative contract (`DualComponent` in the older code, `Grad` in the newer):
 * a storage for partial derivatives with a zero, addition, subtraction, negation and
 * scaling by a value. Dafny has no type classes here, so a storage is a record of
 * its operations. Each storage is read as a linear form on directions `K`:
 * `at(g, k)` is the partial derivative that `g` holds for direction `k` (a slot
 * index, a sparse key, or the single direction of a scalar).
 */
module Derivative {

  datatype Ops<!D, !K> = Ops(
    valid: D -> bool,         // the storage's shape invariant (e.g. a fixed width)
    zero: D,
    add: (D, D) -> D,
    sub: (D, D) -> D,
    neg: D -> D,
    scale: (D, real) -> D,
    at: (D, K) -> real)

  /**
   * A lawful storage keeps its shape invariant and acts direction by direction:
   * zero is zero everywhere, and add, sub, neg and scale are the real operations
   * applied to every partial.
   */
  ghost predicate Lawful<D(!new), K(!new)>(o: Ops<D, K>)
  {
    && o.valid(o.zero)
    && (forall k :: o.at(o.zero, k) == 0.0)
    && (forall a, b | o.valid(a) && o.valid(b) :: o.valid(o.add(a, b)) && o.valid(o.sub(a, b)))
    && (forall a | o.valid(a) :: o.valid(o.neg(a)))
    && (forall a, s | o.valid(a) :: o.valid(o.scale(a, s)))
    && (forall a, b, k | o.valid(a) && o.valid(b) :: o.at(o.add(a, b), k) == o.at(a, k) + o.at(b, k))
    && (forall a, b, k | o.valid(a) && o.valid(b) :: o.at(o.sub(a, b), k) == o.at(a, k) - o.at(b, k))
    && (forall a, k | o.valid(a) :: o.at(o.neg(a), k) == -o.at(a, k))
    && (forall a, s, k | o.valid(a) :: o.at(o.scale(a, s), k) == o.at(a, k) * s)
  }
}
