/**
 * Dual arithmetic shared by every storage (`Common<D>`): parameters, the
 * component-wise sum, difference and negation, the product and quotient rules,
 * the compound assignments and the reciprocal.
 */
module Common {
  import opened Reals
  import opened Derivative
  import opened Solid
  import opened Fluid

  /** `From<f64>`: a parameter, i.e. a constant whose derivative is zero in every direction. */
  function Parameter<D(!new), K(!new)>(o: Ops<D, K>, v: real): (r: DualNumber<D>)
    ensures r.value == v
    ensures Lawful(o) ==> Wf(o, r) && forall k :: Partial(o, r, k) == 0.0
  {
    DualNumber(v, o.zero)
  }

  /** `Add`: component-wise (sum rule). */
  function Add<D(!new), K(!new)>(o: Ops<D, K>, a: DualNumber<D>, b: DualNumber<D>): (r: DualNumber<D>)
    ensures r.value == a.value + b.value
    ensures Lawful(o) && Wf(o, a) && Wf(o, b) ==>
      Wf(o, r) && forall k :: Partial(o, r, k) == Partial(o, a, k) + Partial(o, b, k)
  {
    DualNumber(a.value + b.value, o.add(a.dual, b.dual))
  }

  /** `Sub`: component-wise. */
  function Sub<D(!new), K(!new)>(o: Ops<D, K>, a: DualNumber<D>, b: DualNumber<D>): (r: DualNumber<D>)
    ensures r.value == a.value - b.value
    ensures Lawful(o) && Wf(o, a) && Wf(o, b) ==>
      Wf(o, r) && forall k :: Partial(o, r, k) == Partial(o, a, k) - Partial(o, b, k)
  {
    DualNumber(a.value - b.value, o.sub(a.dual, b.dual))
  }

  /** `Neg`: both parts negated. */
  function Neg<D(!new), K(!new)>(o: Ops<D, K>, a: DualNumber<D>): (r: DualNumber<D>)
    ensures r.value == -a.value
    ensures Lawful(o) && Wf(o, a) ==> Wf(o, r) && forall k :: Partial(o, r, k) == -Partial(o, a, k)
  {
    DualNumber(-a.value, o.neg(a.dual))
  }

  /** `Mul` (by value and by reference): the product rule. */
  function Mul<D(!new), K(!new)>(o: Ops<D, K>, a: DualNumber<D>, b: DualNumber<D>): (r: DualNumber<D>)
    ensures r.value == a.value * b.value
    ensures Lawful(o) && Wf(o, a) && Wf(o, b) ==>
      Wf(o, r) && forall k :: Partial(o, r, k) == Partial(o, a, k) * b.value + Partial(o, b, k) * a.value
  {
    var v := a.value * b.value;
    var da := o.scale(a.dual, b.value);
    var db := o.scale(b.dual, a.value);
    DualNumber(v, o.add(da, db))
  }

  /** `Div` (by value): the quotient rule, with the denominator's reciprocal taken as `powi(-2)`. */
  function Div<D(!new), K(!new)>(o: Ops<D, K>, a: DualNumber<D>, b: DualNumber<D>): (r: DualNumber<D>)
    requires b.value != 0.0
    ensures r.value == a.value / b.value
    ensures Lawful(o) && Wf(o, a) && Wf(o, b) ==>
      Wf(o, r) &&
      forall k :: Partial(o, r, k) == (Partial(o, a, k) * b.value - Partial(o, b, k) * a.value) / (b.value * b.value)
  {
    var da := o.scale(a.dual, b.value);
    var db := o.scale(b.dual, a.value);
    PowIMinusTwo(b.value);
    DualNumber(a.value / b.value, o.scale(o.sub(da, db), PowI(b.value, -2)))
  }

  /** `Div` by reference: the same quotient rule with the reciprocal denominator written `1 / (b * b)`. */
  function RefDiv<D(!new), K(!new)>(o: Ops<D, K>, a: DualNumber<D>, b: DualNumber<D>): (r: DualNumber<D>)
    requires b.value != 0.0
    ensures r == Div(o, a, b)
  {
    var dxY := o.scale(a.dual, b.value);
    var xDy := o.scale(b.dual, a.value);
    assert PowI(b.value, -2) == 1.0 / (b.value * b.value) by { PowIMinusTwo(b.value); }
    DualNumber(a.value / b.value, o.scale(o.sub(dxY, xDy), 1.0 / (b.value * b.value)))
  }

  /** `AddAssign`: the receiver becomes the sum. */
  function AddAssign<D(!new), K(!new)>(o: Ops<D, K>, self: DualNumber<D>, rhs: DualNumber<D>): (r: DualNumber<D>)
    ensures r == Add(o, self, rhs)
  {
    var v := self.value + rhs.value;
    DualNumber(v, o.add(self.dual, rhs.dual))
  }

  /** `SubAssign`: the receiver becomes the difference. */
  function SubAssign<D(!new), K(!new)>(o: Ops<D, K>, self: DualNumber<D>, rhs: DualNumber<D>): (r: DualNumber<D>)
    ensures r == Sub(o, self, rhs)
  {
    var v := self.value - rhs.value;
    DualNumber(v, o.sub(self.dual, rhs.dual))
  }

  /**
   * `MulAssign` as written: the value is updated first, and the updated value is
   * then used in the cross term, so every partial gets rhs.dual * (a * b) where the
   * product rule has rhs.dual * a.
   */
  function MulAssign<D(!new), K(!new)>(o: Ops<D, K>, self: DualNumber<D>, rhs: DualNumber<D>): (r: DualNumber<D>)
    ensures r.value == self.value * rhs.value
    ensures Lawful(o) && Wf(o, self) && Wf(o, rhs) ==>
      Wf(o, r) &&
      forall k :: Partial(o, r, k) == Partial(o, self, k) * rhs.value + Partial(o, rhs, k) * (self.value * rhs.value)
  {
    var v := self.value * rhs.value;
    var dual := o.scale(self.dual, rhs.value);
    DualNumber(v, o.add(dual, o.scale(rhs.dual, v)))
  }

  /** `MulAssign` with the cross term taken from the value before the update: the product rule. */
  function MulAssignCorrected<D(!new), K(!new)>(o: Ops<D, K>, self: DualNumber<D>, rhs: DualNumber<D>): (r: DualNumber<D>)
    ensures r == Mul(o, self, rhs)
    ensures Lawful(o) && Wf(o, self) && Wf(o, rhs) ==>
      Wf(o, r) && forall k :: Partial(o, r, k) == Partial(o, self, k) * rhs.value + Partial(o, rhs, k) * self.value
  {
    var old_value := self.value;
    var v := self.value * rhs.value;
    var dual := o.scale(self.dual, rhs.value);
    DualNumber(v, o.add(dual, o.scale(rhs.dual, old_value)))
  }

  /**
   * `DivAssign` as written: the value is divided first, and the quotient is then
   * used in the cross term where the quotient rule has the old numerator value.
   */
  function DivAssign<D(!new), K(!new)>(o: Ops<D, K>, self: DualNumber<D>, rhs: DualNumber<D>): (r: DualNumber<D>)
    requires rhs.value != 0.0
    ensures r.value == self.value / rhs.value
    ensures Lawful(o) && Wf(o, self) && Wf(o, rhs) ==>
      Wf(o, r) &&
      forall k :: Partial(o, r, k) == (Partial(o, self, k) * rhs.value - Partial(o, rhs, k) * (self.value / rhs.value)) / (rhs.value * rhs.value)
  {
    var v := self.value / rhs.value;
    var a := o.scale(self.dual, rhs.value);
    var b := o.scale(rhs.dual, v);
    PowIMinusTwo(rhs.value);
    DualNumber(v, o.scale(o.sub(a, b), PowI(rhs.value, -2)))
  }

  /** `DivAssign` with the cross term taken from the value before the update: the quotient rule. */
  function DivAssignCorrected<D(!new), K(!new)>(o: Ops<D, K>, self: DualNumber<D>, rhs: DualNumber<D>): (r: DualNumber<D>)
    requires rhs.value != 0.0
    ensures r == Div(o, self, rhs)
    ensures Lawful(o) && Wf(o, self) && Wf(o, rhs) ==>
      Wf(o, r) &&
      forall k :: Partial(o, r, k) == (Partial(o, self, k) * rhs.value - Partial(o, rhs, k) * self.value) / (rhs.value * rhs.value)
  {
    var old_value := self.value;
    var v := self.value / rhs.value;
    var a := o.scale(self.dual, rhs.value);
    var b := o.scale(rhs.dual, old_value);
    DualNumber(v, o.scale(o.sub(a, b), PowI(rhs.value, -2)))
  }

  /** `recip`: the parameter 1 divided by `x`; value 1/x, every partial scaled by -1/x^2. */
  function Recip<D(!new), K(!new)>(o: Ops<D, K>, x: DualNumber<D>): (r: DualNumber<D>)
    requires x.value != 0.0
    ensures r.value == 1.0 / x.value
    ensures Lawful(o) && Wf(o, x) ==>
      Wf(o, r) && forall k :: Partial(o, r, k) == -Partial(o, x, k) / (x.value * x.value)
  {
    Div(o, Parameter(o, 1.0), x)
  }
}
