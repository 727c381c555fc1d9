/** The generic dual number: a plain (value, dual) pair with no constructor invariant. */
module Solid {
  import opened Wrappers

  /** `DualNumber<N, D>` (and the older `Common<D>`): the value and its derivative storage. */
  datatype DualNumber<D> = DualNumber(value: real, dual: D)

  datatype Ordering = Less | Equal | Greater

  function CompareReals(a: real, b: real): Ordering
  {
    if a < b then Less else if a == b then Equal else Greater
  }

  /**
   * Derived `PartialOrd::partial_cmp`: the values decide unless they tie,
   * and only then the dual parts are compared (with the storage's own order).
   */
  function PartialCmp<D>(a: DualNumber<D>, b: DualNumber<D>, dualCmp: (D, D) -> Option<Ordering>): (r: Option<Ordering>)
    ensures a.value < b.value ==> r == Some(Less)
    ensures a.value > b.value ==> r == Some(Greater)
  {
    match CompareReals(a.value, b.value)
    case Equal => dualCmp(a.dual, b.dual)
    case ord => Some(ord)
  }

  /** A storage order that is consistent: `Equal` exactly on equal storages, and `Less`/`Greater` mirror each other. */
  ghost predicate ConsistentCmp<D(!new)>(dualCmp: (D, D) -> Option<Ordering>)
  {
    && (forall x, y :: dualCmp(x, y) == Some(Equal) <==> x == y)
    && (forall x, y :: dualCmp(x, y) == Some(Less) <==> dualCmp(y, x) == Some(Greater))
  }

  /**
   * The derived order is lexicographic: it agrees with derived equality and is
   * antisymmetric whenever the storage's order is.
   */
  lemma PartialCmpLexicographic<D(!new)>(a: DualNumber<D>, b: DualNumber<D>, dualCmp: (D, D) -> Option<Ordering>)
    requires ConsistentCmp(dualCmp)
    ensures PartialCmp(a, b, dualCmp) == Some(Equal) <==> a == b
    ensures PartialCmp(a, b, dualCmp) == Some(Less) <==> PartialCmp(b, a, dualCmp) == Some(Greater)
    ensures a.value == b.value ==> PartialCmp(a, b, dualCmp) == dualCmp(a.dual, b.dual)
  {
  }

  /** Derived `Default`: the default value (0.0) with the storage's default. */
  function Default<D>(dualDefault: D): (r: DualNumber<D>)
    ensures r.value == 0.0 && r.dual == dualDefault
  {
    DualNumber(0.0, dualDefault)
  }
}
