# autodj in Dafny

This project models autodj, a forward-mode automatic-differentiation library built
on dual numbers. A dual number is a pair (value, derivative storage):
- the value is the ordinary result of a computation;
- the storage holds the partial derivatives of that result with respect to the
  inputs that were seeded as variables.

Every arithmetic operation and elementary function updates both halves at once, by
the sum, product, quotient and chain rules.

## Modules

- `Derivative` states what a derivative storage is.
  - `Ops` is a record of the storage's operations: zero, add, sub, neg, scale and
    "read the partial for direction k".
  - `Lawful` says that a lawful storage acts direction by direction.
- There are four storages, each with a proof that it is lawful:
  - `Single`: a scalar;
  - `FixedArray`: exactly N slots;
  - `DynVector`: a growable vector that zero-extends the shorter operand;
  - `Sparse`: a key-to-coefficient map whose sum takes the key union and never
    drops a key.
- `Solid` is the generic pair, with its derived order and default.
- `Common` holds the arithmetic shared by all storages:
  - parameters, the sum, difference and negation;
  - the product and quotient rules;
  - the compound assignments and `recip`.
- `Fluid` is the `chain` combinator and the elementary functions built on it.
- Seeding turns values into variables:
  - `Single.IntoVariable`, `FixedArray.IntoVariables` and
    `DynVector.IntoVariables` for the dense storages;
  - `SparseUuid` for sparse storage, with one drawn key per variable.
- The older API is modelled in `LegacySingle`, `LegacyMulti`, `LegacyArray` and
  `LegacyVector`. Each operation there is proved equal to the generic
  arithmetic on the matching storage.
- `Forward` and `Gradients` state what a dual run computes.
  - A function is an expression tree. It is run once on plain reals (`Eval`) and
    once on dual numbers over any lawful storage (`EvalDual`).
  - The value channel of the dual run is the plain run.
  - Each direction of the derivative is the textbook directional derivative
    (`Tangent`) along the seeded inputs' partials in that direction.
  - With the identity seeding, slot k is therefore the partial derivative with
    respect to input k, for every storage.
- `Findings` holds concrete inputs on which the source's compound multiply and
  divide, and two `is_zero` implementations, disagree with their evident intent.

Values are exact reals. The platform's transcendental functions (`sin_cos`, `exp`,
`ln`, `powf`) are the uninterpreted parameter `Reals.RealLib`. `abs`, `signum` and
`powi` are defined as `f64` defines them.

## Model

| member | source | states |
|---|---|---|
| Single.ScalarOpsLawful | src/solid/single.rs:15 | scalar storage is the value type itself and obeys the storage laws with its one direction |
| FixedArray.ArrayOpsLawful | src/solid/array.rs:27-93 | width-N arrays obey the storage laws, slot i being direction i |
| DynVector.VectorOpsLawful | src/solid/vector.rs:29-86 | zero-extended vectors obey the storage laws |
| Sparse.SparseOpsLawful | src/solid/sparse.rs:36-86 | sparse maps obey the storage laws, an absent key reading zero |
| Solid.PartialCmp | src/solid.rs:6 | the derived order decides by value alone when the values differ |
| Solid.PartialCmpLexicographic | src/solid.rs:6-16 | the derived order is Equal exactly when both fields are equal, mirrors Less and Greater, and defers to the storage's order only on a tie of values |
| Solid.Default | src/solid.rs:6 | the default pair is (0, the storage's default) |
| Common.Parameter | src/common.rs:33-40 | a converted value keeps its value and has a zero partial in every direction |
| Common.Add | src/common.rs:151-159 | values add and every partial is the sum of the operands' partials |
| Common.Sub | src/common.rs:173-182 | values subtract and every partial is the difference of the operands' partials |
| Common.Neg | src/common.rs:233-242 | the value and every partial are negated |
| Common.Mul | src/common.rs:161-171 | product rule: each partial is a' * b + b' * a |
| Common.Div | src/common.rs:184-197 | quotient rule: each partial is (a' * b - b' * a) / b^2, for a non-zero denominator |
| Common.RefDiv | src/common.rs:292-307 | the by-reference quotient, written with 1 / (b * b), equals the by-value one written with powi(-2) |
| Common.AddAssign | src/common.rs:199-204 | `+=` leaves the receiver equal to the sum |
| Common.SubAssign | src/common.rs:206-211 | `-=` leaves the receiver equal to the difference |
| Common.MulAssign | src/common.rs:225-231 | as written: the value is the product, but each partial is a' * b + b' * (a * b), the updated value in the cross term |
| Common.MulAssignCorrected | src/common.rs:225-231 | taking the cross term before the update gives exactly the product rule |
| Common.DivAssign | src/common.rs:213-223 | as written: the value is the quotient, but the cross term uses the quotient a / b instead of a |
| Common.DivAssignCorrected | src/common.rs:213-223 | taking the cross term before the update gives exactly the quotient rule |
| Common.Recip | src/common.rs:142-148 | the parameter 1 divided by x has value 1/x and every partial -x'/x^2 |
| Fluid.Chain | src/fluid.rs:33-39 | the value becomes f(x) and every partial is scaled by f'(x); the storage keeps its shape; the same rule as the inherent method at src/common.rs:66-75 |
| Fluid.Powf | src/fluid.rs:43-45 | value x^p, partials scaled by x^(p-1) * p; the same rule as the inherent method at src/common.rs:79-81 |
| Fluid.Powi | src/fluid.rs:49-51 | value x^n, partials scaled by x^(n-1) * n, where x^(n-1) exists; the same rule as the inherent method at src/common.rs:85-87 |
| Fluid.Sin | src/fluid.rs:55-58 | value sin x, partials scaled by cos x, both from one sin_cos call; the same rule as the inherent method at src/common.rs:98-101 |
| Fluid.Cos | src/fluid.rs:62-65 | value cos x, partials scaled by -sin x, both from one sin_cos call; the same rule as the inherent method at src/common.rs:112-115 |
| Fluid.Exp | src/fluid.rs:74-77 | value exp x, partials scaled by that same value; the same rule as the inherent method at src/common.rs:119-122 |
| Fluid.Ln | src/fluid.rs:81-83 | value ln x, partials scaled by 1/x, for non-zero x; the same rule as the inherent method at src/common.rs:126-128 |
| Fluid.Abs | src/fluid.rs:93-95 | value abs(x), partials scaled by signum x; the same rule as the inherent method at src/common.rs:132-134 |
| Fluid.Signum | src/fluid.rs:99-101 | value signum(x) (1 at 0, as f64::signum(+0.0)), every partial zero; the same rule as the inherent method at src/common.rs:138-140 |
| Reals.AbsIsSignumTimes | src/fluid.rs:93-95 | abs(x) is signum(x) * x, which is why signum is the derivative factor of abs |
| Single.IntoVariable | src/solid/single.rs:25-29 | a variable keeps its value and has derivative one |
| Single.DefaultIsParameterZero | src/solid.rs:6 | the derived scalar default is the parameter 0 |
| Single.PowfExample | src/solid/single.rs:7-14 | (x - x0).powf(2) with x0 = 1 and x = 3 has value 4 and derivative 4 |
| Single.QuadraticExample | tests/autodiff.rs:16-24 | (x - 1)^2 seeded at 0 has value 1 and derivative -2 |
| FixedArray.Add | src/solid/array.rs:61-68 | the sum keeps the width N and each slot is the sum of the operands' slots |
| FixedArray.AddAssign | src/solid/array.rs:27-41 | the in-place loop adds slot by slot, and its panic branch cannot be reached |
| FixedArray.Zero | src/solid/array.rs:86-88 | zero is the all-zero array of width N |
| Seqs.Scale | src/solid/array.rs:43-59 | every slot of a dense gradient is scaled and the length is kept; the growable storage (src/solid/vector.rs:38-54) runs the same loop |
| Seqs.Neg | src/solid/array.rs:70-80 | every slot of a dense gradient is negated and the length is kept; the growable storage (src/solid/vector.rs:56-66) does the same |
| Seqs.IsZero | src/solid/array.rs:90-93 | as written: true exactly when some slot is non-zero; the growable storage (src/solid/vector.rs:83-86) has the same code |
| FixedArray.IsZeroCorrected | src/solid/array.rs:90-93 | as intended: true exactly when every slot is zero |
| FixedArray.IntoVariables | src/solid/array.rs:108-130 | variable i has value arr[i] and a width-N gradient that is one in slot i and zero elsewhere |
| FixedArray.ShiftedProductExample | src/solid/array.rs:97-104 | (x - 1) * y at (2, 3) has value 3 and gradient [3, 1] |
| FixedArray.MultiQuadraticExample | tests/autodiff.rs:48-57 | (x - 1)(2y - 1) at (0, 0) has value 1 and gradient [-1, -2] |
| DynVector.Pad | src/solid/vector.rs:31 | resizing to a longer length appends zeros and changes no slot's reading |
| DynVector.Add | src/solid/vector.rs:68-76 | the sum is as long as the longer operand |
| DynVector.AddAssign | src/solid/vector.rs:29-36 | the in-place loop (resize, then zip) computes the zero-extending sum |
| DynVector.AddSlots | src/solid/vector.rs:29-36 | each slot of the sum is the sum of the zero-extended operands' slots, whatever their lengths |
| DynVector.AddZeroIdentity | src/solid/vector.rs:79-81 | the empty vector is an identity for the sum on either side |
| DynVector.AddAssignExample | src/solid/vector.rs:138-144 | [0.5, 1] + [1, 2, 3] is [1.5, 3, 3] |
| DynVector.ScaleNegExamples | src/solid/vector.rs:124-136 | [1, 2, 3] * 0.5 is [0.5, 1, 1.5] and -[-1, 2, 0] is [1, -2, 0] |
| DynVector.Zero | src/solid/vector.rs:79-81 | zero is the empty vector and reads zero everywhere |
| DynVector.IsZeroCorrected | src/solid/vector.rs:83-86 | as intended: true exactly when every slot reads zero |
| DynVector.IntoVariables | src/solid/vector.rs:90-113 | n values give n variables with length-n gradients forming the identity, the same seeding as the array storage |
| Sparse.Merge | src/solid/sparse.rs:12-26 | the result has the union of the keys, op(old, new) on shared keys, map2's value on its own keys, and map1's entries otherwise |
| Sparse.MergeAssign | src/solid/sparse.rs:18-25 | visiting map2's entries in any order gives the same merged map |
| Sparse.Add | src/solid/sparse.rs:46-54 | the sum has the union of the keys and reads the sum of the operands at every key |
| Sparse.AddKeepsCancelledKeys | src/solid/sparse.rs:82-86 | a key whose coefficients cancel stays in the sum with coefficient zero |
| Sparse.AddCommutative | src/solid/sparse.rs:46-54 | the sum does not depend on operand order |
| Sparse.AddAssociative | src/solid/sparse.rs:46-54 | the sum does not depend on grouping |
| Sparse.MergeOrderExample | src/solid/sparse.rs:12-26 | {A: 1}, {B: 2} and {A: 3} combined in any order give {A: 4, B: 2} |
| Sparse.Scale | src/solid/sparse.rs:56-70 | every coefficient is scaled and the key set is kept |
| Sparse.Neg | src/solid/sparse.rs:72-80 | every coefficient is negated and the key set is kept |
| Sparse.Zero | src/solid/sparse.rs:37-39 | zero is the empty map |
| Sparse.AddZeroIdentity | src/solid/sparse.rs:37-39 | the empty map is an identity for the sum on either side |
| Sparse.IsZero | src/solid/sparse.rs:41-43 | true exactly when every key reads zero (the map is empty or every coefficient is zero) |
| SparseUuid.IntoVariable | src/solid/sparse/uuid.rs:14-18 | a variable keeps its value and has the single key it drew, with coefficient one |
| SparseUuid.IntoVariables | src/solid/sparse/uuid.rs:14-18 | calling `into_variable` once per value gives variable i with value i and the singleton gradient {key i: 1}; the source has only the single-value call, repeated by its callers |
| SparseUuid.IntoVariablesIsIdentity | src/solid/sparse/uuid.rs:14-18 | with distinct drawn keys, variable i reads one at its own key and zero at every other variable's key |
| SparseUuid.AddTwoVariables | src/solid/sparse/uuid.rs:14-18 | two variables with different keys add to a two-key gradient with both coefficients one |
| Forward.EvalDual | src/common.rs:151-197 | a function run on dual numbers has the plain run's value |
| Forward.EvalDualSlots | src/common.rs:151-197 | on any lawful storage, each direction's partial of the dual run is the textbook directional derivative along the seeded inputs' partials in that direction |
| Forward.SumOfPartials | src/array.rs:41-43 | the sum of the first m partial derivatives is the derivative along the direction that moves those m inputs at rate one |
| Gradients.ScalarDerivative | src/solid/single.rs:25-29 | seeding one variable gives the value and the derivative of the function |
| Gradients.ArraySeeding | src/solid/array.rs:108-130 | the array seeding reads the inputs back and hands out basis tangents |
| Gradients.ArrayGradient | src/solid/array.rs:108-130 | with array seeding, slot k of the result is the partial derivative with respect to input k |
| Gradients.VectorGradient | src/solid/vector.rs:90-113 | with vector seeding, slot k is the partial derivative for input k and every later slot reads zero |
| Gradients.SparseGradient | src/solid/sparse/uuid.rs:14-18 | with distinct drawn keys, the coefficient at input j's key is the partial derivative for input j and undrawn keys read zero |
| LegacySingle.Var | src/single.rs:47-52 | `var` is the scalar variable: derivative one |
| LegacySingle.Par | src/single.rs:54-59 | `par` is the scalar parameter: derivative zero |
| LegacySingle.Add | src/single.rs:62-70 | the old sum equals the generic sum on scalars |
| LegacySingle.Sub | src/single.rs:72-80 | the old difference equals the generic difference on scalars |
| LegacySingle.Mul | src/single.rs:82-90 | the old product equals the generic product rule on scalars |
| LegacySingle.Div | src/single.rs:92-100 | the old quotient equals the generic quotient rule on scalars |
| LegacySingle.Neg | src/single.rs:102-111 | the old negation equals the generic negation on scalars |
| LegacySingle.Custom | src/single.rs:138-147 | `custom(f, d)` gives f(x) and the derivative scaled by d(x), i.e. the generic chain rule |
| LegacySingle.ChainOf | src/single.rs:157-162 | `chain_of(v, d)` gives v and d times the derivative, i.e. the generic chain rule with f(x) and f'(x) supplied |
| LegacySingle.Powf | src/single.rs:167-172 | the old powf equals the generic powf on scalars |
| LegacySingle.Sin | src/single.rs:174-177 | the old sin equals the generic sin on scalars |
| LegacySingle.Cos | src/single.rs:179-182 | the old cos equals the generic cos on scalars |
| LegacySingle.SinCos | src/single.rs:184-187 | `sin_cos` is exactly the pair (sin, cos) |
| LegacySingle.Exp | src/single.rs:189-192 | the old exp equals the generic exp on scalars |
| LegacySingle.Ln | src/single.rs:194-199 | the old ln equals the generic ln on scalars |
| LegacySingle.Abs | src/single.rs:201-206 | the old abs equals the generic abs on scalars |
| LegacySingle.Signum | src/single.rs:208-213 | the old signum equals the generic signum on scalars |
| LegacySingle.ComposeSquarePlusOne | src/single.rs:232-238 | squaring, then adding the parameter one, from x gives (x^2 + 1, 2x) for every x |
| LegacyMulti.New | src/multi.rs:19-23 | construction succeeds exactly for widths 2 to 64 and then keeps value and gradient |
| LegacyMulti.Zero | src/multi.rs:182-192 | `zero` is the width-n parameter 0 and exists exactly for widths 2 to 64 |
| LegacyMulti.SizeTests | src/multi.rs:205-235 | widths 0, 1 and 65 fail, and widths 2 and 3 succeed |
| LegacyMulti.GradAdd | src/multi.rs:52-62 | the old gradient sum is the slot-wise sum |
| LegacyMulti.GradSub | src/multi.rs:64-74 | the old gradient difference is adding the negation |
| LegacyMulti.GradScale | src/multi.rs:76-85 | the old gradient product by a value scales every slot |
| LegacyMulti.GradDiv | src/multi.rs:87-96 | the old gradient quotient by a value is scaling by its reciprocal |
| LegacyMulti.GradNeg | src/multi.rs:98-107 | the old gradient negation negates every slot |
| LegacyMulti.Add | src/multi.rs:109-117 | the old sum equals the generic sum on arrays |
| LegacyMulti.Sub | src/multi.rs:119-127 | the old difference equals the generic difference on arrays |
| LegacyMulti.Mul | src/multi.rs:129-137 | the old product equals the generic product rule on arrays |
| LegacyMulti.Div | src/multi.rs:139-147 | the old quotient equals the generic quotient rule on arrays |
| LegacyMulti.Neg | src/multi.rs:149-158 | the old negation equals the generic negation on arrays |
| LegacyMulti.Unit | src/multi.rs:164-173 | a zero gradient with slot i set to one is the basis vector e_i |
| LegacyMulti.Vars | src/multi.rs:163-173 | `vars` gives the identity seeding and fails outside widths 2 to 64 |
| LegacyMulti.Pars | src/multi.rs:175-179 | `pars` copies the values with zero gradients of width nv, whatever the number of values |
| LegacyMulti.DualizeEval | src/multi.rs:44-49 | `eval(f)` applies f to the identity-seeded variables |
| LegacyArray.BinaryOperation | src/array.rs:165-175 | each slot of the result is op applied to the operands' slots |
| LegacyArray.Add | src/array.rs:150-156 | the old array sum is the slot-wise sum |
| LegacyArray.Sub | src/array.rs:158-163 | the old array difference is adding the negation |
| LegacyArray.AddAssign | src/array.rs:177-184 | in-place `+=` agrees with the sum |
| LegacyArray.SubAssign | src/array.rs:186-193 | in-place `-=` agrees with the difference |
| LegacyArray.Div | src/array.rs:120-126 | dividing by a non-zero value is scaling by its reciprocal, and scaling back gives the original |
| LegacyArray.Mul | src/array.rs:106-112 | multiplying by a value scales every slot, and dividing by a non-zero value undoes it |
| LegacyArray.MulAssign | src/array.rs:114-118 | in-place `*=` agrees with scaling |
| LegacyArray.Neg | src/array.rs:128-134 | negation is slot-wise and adds with the original to zero |
| LegacyArray.Default | src/array.rs:94-98 | the default array is an identity for the sum |
| LegacyArray.NewVariables | src/array.rs:69-77 | converting to parameters and then setting slot i to one gives the identity seeding |
| LegacyArray.Differential | src/array.rs:41-43 | `differential` keeps the value |
| LegacyArray.DifferentialAlongOnes | src/array.rs:29-43 | after identity seeding, `differential` gives the value and the derivative along the all-ones direction |
| LegacyArray.DifferentialExample | src/array.rs:29-39 | (x - 1) * y at (2, 2) has differential (2, 3) |
| LegacyVector.Zero | src/vector.rs:18-22 | the empty vector is an identity for the zero-extending sum on either side |
| LegacyVector.AddAssign | src/vector.rs:171-182 | the result is as long as the longer operand and reads the sum at every slot |
| LegacyVector.SubAssign | src/vector.rs:184-195 | the result is as long as the longer operand and reads the difference at every slot |
| LegacyVector.MulAssign | src/vector.rs:119-123 | in-place `*=` scales every element, and dividing by the same non-zero value gives the receiver back |
| LegacyVector.Div | src/vector.rs:157-162 | dividing by a non-zero value is scaling by its reciprocal, and every zero-extended slot times the value is the original slot |
| LegacyVector.Neg | src/vector.rs:164-169 | negation is element-wise, and adding it back reads zero everywhere |
| LegacyVector.VectorTests | src/vector.rs:227-247 | the module's tests of div, neg and add |
| LegacyVector.NewVariables | src/vector.rs:39-46 | the seeding loop gives variable i a gradient of length i + 1 ending in one |
| LegacyVector.Seeded | src/vector.rs:39-46 | the seeded variables keep the values and, zero-extended, hand out basis tangents in every direction |
| LegacyVector.SeededGradient | src/vector.rs:39-46 | despite the short gradients, slot k of a dual run is the partial derivative for input k, and later slots read zero |
| LegacyVector.SumFold | src/vector.rs:125-139 | the fold of `+` from 0 has the sum of the values and, in every slot, the sum of the partials |
| LegacyVector.ProductFold | src/vector.rs:141-155 | the fold of `*` from 1 has the product of the values and the longest factor's gradient length |
| LegacyVector.Times | src/common.rs:161-171 | the product of two vector dual numbers has the product value and the longer gradient length |
| LegacyVector.SumProductTests | tests/test.rs:100-124 | over variables [1, 2, 3, 4, 5], the sum is 15 and the product is 120 |
| LegacyVector.Below | tests/test.rs:139-144 | the filter keeps exactly the numbers whose value is below the threshold |
| LegacyVector.ShiftDown | tests/test.rs:142 | subtracting the parameter 1 lowers the value and keeps the gradient |
| LegacyVector.ProductOwnedTest | tests/test.rs:126-135 | over variables [1, 2, 3], the product of x - 1 is 0 |
| LegacyVector.BelowSix | tests/test.rs:146-149 | keeping the values below 6 from [2, 3, 5, 8] keeps the first three variables |
| LegacyVector.ShiftedProductOfThree | tests/test.rs:139-144 | over variables [2, 3, 5], the product of x - 1 has value 8 and a gradient of length 3 |
| LegacyVector.ShiftedPartialTest | tests/test.rs:137-153 | the `shifted_partial` test: value 8 and a gradient one shorter than the number of variables |
| LegacyVector.DivTest | tests/test.rs:155-167 | x / y over variables [1, 2] has value 1/2 and gradient [1/2, -1/4] |

## Left out

- IEEE-754 behaviour is not modelled: NaN and infinity, rounding, and float accuracy.
  - Values are exact reals.
  - Division and `recip` require a non-zero denominator.
  - `ln` requires a non-zero argument, which is all its derivative factor 1/x needs.
  - `powi` requires a non-zero base or a positive exponent.
- The transcendental primitives (`sin_cos`, `exp`, `ln`, `powf`) are platform code. They are the uninterpreted parameter `Reals.RealLib`.
  - Examples that need their values take the needed facts as preconditions.
- `signum(0)` is 1, as `f64::signum(+0.0)` is. The model follows that.
- The `Dual` trait defaults `sin_cos` and `recip` in src/fluid.rs are unimplemented (`todo!`), so they have no model. `Common.Recip` models the implemented `recip` of src/common.rs.
- `powi` over the generic `Num` conversion in src/fluid.rs is modelled with an integer exponent converted exactly.
- Fluid.Powi: the exponent is an unbounded integer, while the source's is an `i32`. At `i32::MIN` the source's `exp - 1` (src/fluid.rs:50, src/common.rs:86) overflows: a debug build panics and a release build wraps to `i32::MAX`. The model instead uses the exponent's true predecessor, so for that one exponent it does not promise the source's behaviour.
- Display and `LowerExp` formatting of floats is left out, since it is string output.
- src/num_traits.rs is left out: every method is `todo!`.
- examples/ is left out: Newton drivers built on a linear-algebra library and printing.
- UUID generation is a foreign random source. `SparseUuid` takes the keys as parameters and assumes only that distinct variables drew distinct keys.
- src/bin and utils/ are left out: git and filesystem I/O. src/lib.rs and src/prelude.rs are left out: re-exports only.
- The `get` and `eval` accessors of `DualVariables` in src/array.rs and src/vector.rs are left out. `get` returns the seeded variables, and `eval(f)` is f applied to them; the seeded variables themselves are modelled.
- `LegacySingle.Apply` and `LegacySingle.DualizeEval` (`eval` in src/single.rs) apply a function to a dual number or to the seeded variable. They have no contract of their own; `LegacySingle.ComposeSquarePlusOne` uses them.
- src/array.rs gives `Array<N>` a `Default` but no `zero` of its own. The model takes zero to be `Default`, the all-zero array.
- Rust fixes the array width N in the type. Here it is a width invariant, and binary operations require equal widths.
- `LegacyMulti.New`, `LegacyMulti.Zero`, `LegacyMulti.Vars` and `LegacyMulti.Pars` return `Err` where the source panics at runtime in `assert_size`, which `new` calls.
- LegacyArray.Differential: its own contract states only the value. What the summed derivative means is stated by `LegacyArray.DifferentialAlongOnes`.
- LegacyVector.ProductFold: states the value and the gradient length, not each slot of the product's gradient.
- LegacyVector.Times: states the value and the gradient length. The slots follow from `Common.Mul`.
- DynVector.Add: states only the length. Its slot-wise meaning is stated by `DynVector.AddSlots`.

## Findings

| source | as written | input that shows it | evidently intended | confidence | as-written member | corrected member |
|---|---|---|---|---|---|---|
| src/common.rs:225-231 | `*=` multiplies the value first, then uses the updated value in the cross term: dual = a' * b + b' * (a * b) | a = (2, derivative 0), b = (3, derivative 1): `*=` gives derivative 6, the product rule gives 2 | the product rule a' * b + b' * a, as `Mul` computes | not executed | Findings.MulAssignCounterexample | Common.MulAssignCorrected |
| src/common.rs:213-223 | `/=` divides the value first, then uses the quotient a / b in the cross term | a = (2, derivative 0), b = (4, derivative 1): `/=` gives derivative -0.03125, the quotient rule gives -0.125 | the quotient rule (a' * b - b' * a) / b^2, as `Div` computes | not executed | Findings.DivAssignCounterexample | Common.DivAssignCorrected |
| src/solid/array.rs:90-93 | `is_zero` returns whether some slot is non-zero | the all-zero array reports false; e_0 reports true | true exactly when every slot is zero, as the sparse storage's `is_zero` does | not executed | Findings.ArrayIsZeroInverted | FixedArray.IsZeroCorrected |
| src/solid/vector.rs:83-86 | `is_zero` returns whether some element is non-zero | the empty vector reports false; [1] reports true | true exactly when every element is zero | not executed | Findings.VectorIsZeroInverted | DynVector.IsZeroCorrected |
