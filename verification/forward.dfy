/**
 * Forward evaluation of a user function. A function written once, generically
 * over plain values and dual numbers, is an expression tree here. `Eval` is the
 * plain-value run; `EvalDual` is the same tree run on dual numbers with any
 * storage; `Tangent` is the textbook directional derivative (sum, product,
 * quotient and chain rules written on reals) against which the dual run is checked.
 */
module Forward {
  import opened Reals
  import opened Derivative
  import opened Solid
  import opened Fluid
  import Common
  import Seqs

  datatype BinOp = Plus | Minus | Times | Over

  datatype UnOp =
    | Negate
    | Reciprocal
    | PowfBy(p: real)
    | PowiBy(n: int)
    | SinOf
    | CosOf
    | ExpOf
    | LnOf
    | AbsOf
    | SignumOf

  datatype Expr =
    | Const(c: real)
    | Var(index: nat)
    | Bin(bop: BinOp, l: Expr, r: Expr)
    | Un(uop: UnOp, a: Expr)

  /** The real operation is defined at these operands (no zero denominator). */
  predicate BinDefined(op: BinOp, v: real)
  {
    op == Over ==> v != 0.0
  }

  predicate UnDefined(op: UnOp, u: real)
  {
    match op
    case Reciprocal => u != 0.0
    case LnOf => u != 0.0
    case PowiBy(n) => u != 0.0 || n >= 1
    case _ => true
  }

  function ApplyBin(op: BinOp, u: real, v: real): real
    requires BinDefined(op, v)
  {
    match op
    case Plus => u + v
    case Minus => u - v
    case Times => u * v
    case Over => u / v
  }

  function ApplyUn(lib: RealLib, op: UnOp, u: real): real
    requires UnDefined(op, u)
  {
    match op
    case Negate => -u
    case Reciprocal => 1.0 / u
    case PowfBy(p) => lib.powf(u, p)
    case PowiBy(n) => PowI(u, n)
    case SinOf => lib.sinCos(u).0
    case CosOf => lib.sinCos(u).1
    case ExpOf => lib.exp(u)
    case LnOf => lib.ln(u)
    case AbsOf => Reals.Abs(u)
    case SignumOf => Reals.Signum(u)
  }

  /** Sum, difference, product and quotient rules, at operands u, v moving at du, dv. */
  function BinTangent(op: BinOp, u: real, v: real, du: real, dv: real): real
    requires BinDefined(op, v)
  {
    match op
    case Plus => du + dv
    case Minus => du - dv
    case Times => du * v + u * dv
    case Over => (du * v - u * dv) / (v * v)
  }

  /** The chain rule: the textbook derivative of each elementary function times du. */
  function UnTangent(lib: RealLib, op: UnOp, u: real, du: real): real
    requires UnDefined(op, u)
  {
    match op
    case Negate => -du
    case Reciprocal => -du / (u * u)
    case PowfBy(p) => p * lib.powf(u, p - 1.0) * du
    case PowiBy(n) => (n as real) * PowI(u, n - 1) * du
    case SinOf => lib.sinCos(u).1 * du
    case CosOf => -lib.sinCos(u).0 * du
    case ExpOf => lib.exp(u) * du
    case LnOf => du / u
    case AbsOf => Reals.Signum(u) * du
    case SignumOf => 0.0
  }

  /** The expression can be evaluated over the reals at `xs`: variables exist, no zero denominators. */
  predicate Defined(lib: RealLib, e: Expr, xs: seq<real>)
    decreases e, 0
  {
    match e
    case Const(_) => true
    case Var(i) => i < |xs|
    case Bin(op, l, r) => Defined(lib, l, xs) && Defined(lib, r, xs) && BinDefined(op, Eval(lib, r, xs))
    case Un(op, a) => Defined(lib, a, xs) && UnDefined(op, Eval(lib, a, xs))
  }

  /** The plain-value run of the function. */
  function Eval(lib: RealLib, e: Expr, xs: seq<real>): real
    requires Defined(lib, e, xs)
    decreases e, 1
  {
    match e
    case Const(c) => c
    case Var(i) => xs[i]
    case Bin(op, l, r) => ApplyBin(op, Eval(lib, l, xs), Eval(lib, r, xs))
    case Un(op, a) => ApplyUn(lib, op, Eval(lib, a, xs))
  }

  /**
   * The directional derivative of the function at `xs` along the tangent `ts`
   * (ts[i] is how fast variable i moves), by the rules of calculus.
   */
  function Tangent(lib: RealLib, e: Expr, xs: seq<real>, ts: seq<real>): real
    requires Defined(lib, e, xs) && |ts| == |xs|
    decreases e
  {
    match e
    case Const(_) => 0.0
    case Var(i) => ts[i]
    case Bin(op, l, r) =>
      BinTangent(op, Eval(lib, l, xs), Eval(lib, r, xs), Tangent(lib, l, xs, ts), Tangent(lib, r, xs, ts))
    case Un(op, a) => UnTangent(lib, op, Eval(lib, a, xs), Tangent(lib, a, xs, ts))
  }

  /** The partial derivative with respect to variable k: the tangent along the basis vector e_k. */
  function PartialDerivative(lib: RealLib, e: Expr, xs: seq<real>, k: nat): real
    requires Defined(lib, e, xs)
  {
    Tangent(lib, e, xs, Seqs.Basis(|xs|, k))
  }

  /** The values carried by the seeded inputs. */
  function Values<D>(env: seq<DualNumber<D>>): (xs: seq<real>)
    ensures |xs| == |env| && forall i :: 0 <= i < |env| ==> xs[i] == env[i].value
  {
    seq(|env|, i requires 0 <= i < |env| => env[i].value)
  }

  /** The seeded inputs' partials in direction k. */
  function Tangents<D, K>(o: Ops<D, K>, env: seq<DualNumber<D>>, k: K): (ts: seq<real>)
    ensures |ts| == |env| && forall i :: 0 <= i < |env| ==> ts[i] == Partial(o, env[i], k)
  {
    seq(|env|, i requires 0 <= i < |env| => Partial(o, env[i], k))
  }

  /** A binary operator on dual numbers: the operator of the same name from the shared arithmetic. */
  function DualBin<D(!new), K(!new)>(o: Ops<D, K>, op: BinOp, x: DualNumber<D>, y: DualNumber<D>): (r: DualNumber<D>)
    requires BinDefined(op, y.value)
    ensures r.value == ApplyBin(op, x.value, y.value)
    ensures Lawful(o) && Wf(o, x) && Wf(o, y) ==>
      Wf(o, r) && forall k :: Partial(o, r, k) == BinTangent(op, x.value, y.value, Partial(o, x, k), Partial(o, y, k))
  {
    match op
    case Plus => Common.Add(o, x, y)
    case Minus => Common.Sub(o, x, y)
    case Times => Common.Mul(o, x, y)
    case Over => Common.Div(o, x, y)
  }

  /** A unary operator on dual numbers: negation, reciprocal or an elementary function. */
  function DualUn<D(!new), K(!new)>(o: Ops<D, K>, lib: RealLib, op: UnOp, x: DualNumber<D>): (r: DualNumber<D>)
    requires UnDefined(op, x.value)
    ensures r.value == ApplyUn(lib, op, x.value)
    ensures Lawful(o) && Wf(o, x) ==>
      Wf(o, r) && forall k :: Partial(o, r, k) == UnTangent(lib, op, x.value, Partial(o, x, k))
  {
    if op.Negate? || op.Reciprocal? || op.PowfBy? || op.PowiBy? then DualArith(o, lib, op, x)
    else DualElementary(o, lib, op, x)
  }

  /** The arithmetic half of `DualUn`: negation, reciprocal and the two powers. */
  function DualArith<D(!new), K(!new)>(o: Ops<D, K>, lib: RealLib, op: UnOp, x: DualNumber<D>): (r: DualNumber<D>)
    requires UnDefined(op, x.value)
    requires op.Negate? || op.Reciprocal? || op.PowfBy? || op.PowiBy?
    ensures r.value == ApplyUn(lib, op, x.value)
    ensures Lawful(o) && Wf(o, x) ==>
      Wf(o, r) && forall k :: Partial(o, r, k) == UnTangent(lib, op, x.value, Partial(o, x, k))
  {
    match op
    case Negate => Common.Neg(o, x)
    case Reciprocal => Common.Recip(o, x)
    case PowfBy(p) => Fluid.Powf(o, lib, x, p)
    case PowiBy(n) => Fluid.Powi(o, x, n)
  }

  /** The elementary-function half of `DualUn`: sin, cos, exp, ln, abs and signum. */
  function DualElementary<D(!new), K(!new)>(o: Ops<D, K>, lib: RealLib, op: UnOp, x: DualNumber<D>): (r: DualNumber<D>)
    requires UnDefined(op, x.value)
    requires !(op.Negate? || op.Reciprocal? || op.PowfBy? || op.PowiBy?)
    ensures r.value == ApplyUn(lib, op, x.value)
    ensures Lawful(o) && Wf(o, x) ==>
      Wf(o, r) && forall k :: Partial(o, r, k) == UnTangent(lib, op, x.value, Partial(o, x, k))
  {
    match op
    case SinOf => Fluid.Sin(o, lib, x)
    case CosOf => Fluid.Cos(o, lib, x)
    case ExpOf => Fluid.Exp(o, lib, x)
    case LnOf => Fluid.Ln(o, lib, x)
    case AbsOf => Fluid.Abs(o, x)
    case SignumOf => Fluid.Signum(o, x)
  }

  /**
   * The dual run: constants become parameters, variables are the seeded inputs and
   * every operator is its dual-number counterpart. Its value channel is exactly
   * the plain-value run.
   */
  function EvalDual<D(!new), K(!new)>(o: Ops<D, K>, lib: RealLib, e: Expr, env: seq<DualNumber<D>>): (r: DualNumber<D>)
    requires Defined(lib, e, Values(env))
    ensures r.value == Eval(lib, e, Values(env))
    decreases e
  {
    match e
    case Const(c) => Common.Parameter(o, c)
    case Var(i) => env[i]
    case Bin(op, l, r) => DualBin(o, op, EvalDual(o, lib, l, env), EvalDual(o, lib, r, env))
    case Un(op, a) => DualUn(o, lib, op, EvalDual(o, lib, a, env))
  }

  /**
   * Forward-mode soundness for any lawful storage: each direction k of the
   * result's derivative is the directional derivative of the function along the
   * inputs' partials in direction k. Directions do not interact, so one dual run
   * carries as many directional derivatives as the storage has directions.
   */
  lemma {:induction false} EvalDualSlots<D(!new), K(!new)>(o: Ops<D, K>, lib: RealLib, e: Expr, env: seq<DualNumber<D>>, k: K)
    requires Lawful(o)
    requires forall i :: 0 <= i < |env| ==> Wf(o, env[i])
    requires Defined(lib, e, Values(env))
    ensures Wf(o, EvalDual(o, lib, e, env))
    ensures Partial(o, EvalDual(o, lib, e, env), k) == Tangent(lib, e, Values(env), Tangents(o, env, k))
    decreases e
  {
    match e
    case Const(c) =>
    case Var(i) =>
    case Bin(op, l, r) =>
      EvalDualSlots(o, lib, l, env, k);
      EvalDualSlots(o, lib, r, env, k);
    case Un(op, a) =>
      EvalDualSlots(o, lib, a, env, k);
  }

  /** Along a zero tangent nothing moves: every rule maps zero input rates to a zero rate. */
  lemma {:induction false} TangentAlongZero(lib: RealLib, e: Expr, xs: seq<real>, ts: seq<real>)
    requires Defined(lib, e, xs) && |ts| == |xs|
    requires forall i :: 0 <= i < |ts| ==> ts[i] == 0.0
    ensures Tangent(lib, e, xs, ts) == 0.0
    decreases e
  {
    match e
    case Const(_) =>
    case Var(i) =>
    case Bin(op, l, r) =>
      TangentAlongZero(lib, l, xs, ts);
      TangentAlongZero(lib, r, xs, ts);
    case Un(op, a) =>
      TangentAlongZero(lib, a, xs, ts);
  }

  /** Two tangents added rate by rate. */
  function AddTangents(s: seq<real>, t: seq<real>): (u: seq<real>)
    requires |s| == |t|
    ensures |u| == |s| && forall i :: 0 <= i < |s| ==> u[i] == s[i] + t[i]
  {
    seq(|s|, i requires 0 <= i < |s| => s[i] + t[i])
  }

  lemma BinTangentAdditive(op: BinOp, u: real, v: real, du: real, dv: real, du': real, dv': real)
    requires BinDefined(op, v)
    ensures BinTangent(op, u, v, du + du', dv + dv') == BinTangent(op, u, v, du, dv) + BinTangent(op, u, v, du', dv')
  {
    match op
    case Plus =>
    case Minus =>
    case Times =>
      assert (du + du') * v == du * v + du' * v;
      assert u * (dv + dv') == u * dv + u * dv';
    case Over =>
      assert (du + du') * v - u * (dv + dv') == (du * v - u * dv) + (du' * v - u * dv');
      DivDistributes(du * v - u * dv, du' * v - u * dv', Square(v));
  }

  lemma DivDistributes(a: real, b: real, w: real)
    requires w != 0.0
    ensures (a + b) / w == a / w + b / w
  {
  }

  lemma ScaleDistributes(c: real, du: real, du': real)
    ensures c * (du + du') == c * du + c * du'
  {
  }

  /** The elementary functions whose rule is a factor times du. */
  predicate ScaledRule(op: UnOp)
  {
    op.PowfBy? || op.PowiBy? || op.SinOf? || op.CosOf? || op.ExpOf? || op.AbsOf?
  }

  lemma ScaledTangentAdditive(lib: RealLib, op: UnOp, u: real, du: real, du': real)
    requires UnDefined(op, u) && ScaledRule(op)
    ensures UnTangent(lib, op, u, du + du') == UnTangent(lib, op, u, du) + UnTangent(lib, op, u, du')
  {
    match op
    case PowfBy(p) => ScaleDistributes(p * lib.powf(u, p - 1.0), du, du');
    case PowiBy(n) => ScaleDistributes((n as real) * PowI(u, n - 1), du, du');
    case SinOf => ScaleDistributes(lib.sinCos(u).1, du, du');
    case CosOf => ScaleDistributes(-lib.sinCos(u).0, du, du');
    case ExpOf => ScaleDistributes(lib.exp(u), du, du');
    case AbsOf => ScaleDistributes(Reals.Signum(u), du, du');
  }

  lemma UnTangentAdditive(lib: RealLib, op: UnOp, u: real, du: real, du': real)
    requires UnDefined(op, u)
    ensures UnTangent(lib, op, u, du + du') == UnTangent(lib, op, u, du) + UnTangent(lib, op, u, du')
  {
    if ScaledRule(op) {
      ScaledTangentAdditive(lib, op, u, du, du');
    } else {
      match op
      case Negate =>
      case Reciprocal =>
        DivDistributes(-du, -du', Square(u));
      case LnOf => DivDistributes(du, du', u);
      case SignumOf =>
    }
  }

  /**
   * The directional derivative is additive in the direction: moving along s and t at
   * once changes the function at the sum of the two rates.
   */
  lemma {:induction false} TangentAdditive(lib: RealLib, e: Expr, xs: seq<real>, s: seq<real>, t: seq<real>)
    requires Defined(lib, e, xs) && |s| == |xs| && |t| == |xs|
    ensures Tangent(lib, e, xs, AddTangents(s, t)) == Tangent(lib, e, xs, s) + Tangent(lib, e, xs, t)
    decreases e
  {
    match e
    case Const(_) =>
    case Var(i) =>
    case Bin(op, l, r) =>
      TangentAdditive(lib, l, xs, s, t);
      TangentAdditive(lib, r, xs, s, t);
      BinTangentAdditive(op, Eval(lib, l, xs), Eval(lib, r, xs),
        Tangent(lib, l, xs, s), Tangent(lib, r, xs, s), Tangent(lib, l, xs, t), Tangent(lib, r, xs, t));
    case Un(op, a) =>
      TangentAdditive(lib, a, xs, s, t);
      UnTangentAdditive(lib, op, Eval(lib, a, xs), Tangent(lib, a, xs, s), Tangent(lib, a, xs, t));
  }

  /** Every partial derivative of the function at `xs`, in input order. */
  function Partials(lib: RealLib, e: Expr, xs: seq<real>): (g: seq<real>)
    requires Defined(lib, e, xs)
    ensures |g| == |xs| && forall k :: 0 <= k < |xs| ==> g[k] == PartialDerivative(lib, e, xs, k)
  {
    seq(|xs|, k requires 0 <= k < |xs| => PartialDerivative(lib, e, xs, k))
  }

  /** The direction that moves the first m of n inputs at rate one and holds the rest. */
  function OnesUpTo(n: nat, m: nat): (t: seq<real>)
    ensures |t| == n && forall i :: 0 <= i < n ==> t[i] == (if i < m then 1.0 else 0.0)
  {
    seq(n, i => if i < m then 1.0 else 0.0)
  }

  /**
   * Summing the first m partial derivatives gives the derivative along the direction
   * that moves those m inputs together; with m = n, the derivative along all ones.
   */
  lemma {:induction false} SumOfPartials(lib: RealLib, e: Expr, xs: seq<real>, m: nat)
    requires Defined(lib, e, xs) && m <= |xs|
    ensures Seqs.Sum(Partials(lib, e, xs)[..m]) == Tangent(lib, e, xs, OnesUpTo(|xs|, m))
    decreases m
  {
    var g := Partials(lib, e, xs);
    if m == 0 {
      TangentAlongZero(lib, e, xs, OnesUpTo(|xs|, 0));
    } else {
      SumOfPartials(lib, e, xs, m - 1);
      assert g[..m][..m - 1] == g[..m - 1];
      assert OnesUpTo(|xs|, m) == AddTangents(OnesUpTo(|xs|, m - 1), Seqs.Basis(|xs|, m - 1)) by {
        forall i | 0 <= i < |xs|
          ensures OnesUpTo(|xs|, m)[i] == AddTangents(OnesUpTo(|xs|, m - 1), Seqs.Basis(|xs|, m - 1))[i]
        {
          assert Seqs.Basis(|xs|, m - 1)[i] == Seqs.Get(Seqs.Basis(|xs|, m - 1), i);
        }
      }
      TangentAdditive(lib, e, xs, OnesUpTo(|xs|, m - 1), Seqs.Basis(|xs|, m - 1));
    }
  }
}
