/** Dense gradients as sequences of partials, read with implicit zeros past their end. */
module Seqs {
  import opened Wrappers

  function Max(a: nat, b: nat): (m: nat)
    ensures m >= a && m >= b && (m == a || m == b)
  {
    if a < b then b else a
  }

  /** Slot `k` of a dense gradient; slots past the end read as zero. */
  function Get(g: seq<real>, k: nat): real
  {
    if k < |g| then g[k] else 0.0
  }

  function Zeros(n: nat): (z: seq<real>)
    ensures |z| == n
    ensures forall k :: Get(z, k) == 0.0
  {
    seq(n, _ => 0.0)
  }

  /** The standard basis vector e_i of width n (all zeros when i >= n). */
  function Basis(n: nat, i: nat): (e: seq<real>)
    ensures |e| == n
    ensures forall k :: Get(e, k) == (if k == i && i < n then 1.0 else 0.0)
  {
    seq(n, j => if j == i then 1.0 else 0.0)
  }

  /**
   * Dense `mul` / `mul_assign` (fixed-width and growable storage alike): every
   * slot scaled; the length is kept.
   */
  function Scale(g: seq<real>, s: real): (r: seq<real>)
    ensures |r| == |g|
    ensures forall k :: Get(r, k) == Get(g, k) * s
  {
    seq(|g|, i requires 0 <= i < |g| => g[i] * s)
  }

  /** Dense `neg`: every slot negated; the length is kept. */
  function Neg(g: seq<real>): (r: seq<real>)
    ensures |r| == |g|
    ensures forall k :: Get(r, k) == -Get(g, k)
  {
    seq(|g|, i requires 0 <= i < |g| => -g[i])
  }

  /**
   * Dense `is_zero` as written (fixed-width and growable storage alike): true when
   * SOME slot is non-zero, the opposite of its name.
   */
  function IsZero(g: seq<real>): (b: bool)
    ensures b <==> exists i :: 0 <= i < |g| && g[i] != 0.0
  {
    FindNonZero(g, 0).Some?
  }

  /** `iter().find(|e| !e.is_zero())`: the first non-zero slot at or after `from`. */
  function FindNonZero(g: seq<real>, from: nat): (r: Option<nat>)
    requires from <= |g|
    ensures r.Some? ==> from <= r.value < |g| && g[r.value] != 0.0
    ensures r.Some? ==> forall j :: from <= j < r.value ==> g[j] == 0.0
    ensures r.None? <==> forall j :: from <= j < |g| ==> g[j] == 0.0
    decreases |g| - from
  {
    if from == |g| then None
    else if g[from] != 0.0 then Some(from)
    else FindNonZero(g, from + 1)
  }

  function Sum(xs: seq<real>): real
  {
    if |xs| == 0 then 0.0 else Sum(xs[..|xs| - 1]) + xs[|xs| - 1]
  }

  function Product(xs: seq<real>): real
  {
    if |xs| == 0 then 1.0 else Product(xs[..|xs| - 1]) * xs[|xs| - 1]
  }
}
