# kalon numeric core, modelled in Dafny

kalon is a small C++ header library of physics-oriented numeric types. This
project models its core and proves properties of the model:

- `kalon::Real` is a `double` that is checked to be finite at construction and after
  every arithmetic operator. A result that is not finite throws `std::domain_error`.
- `kalon::Vector3` is a 3D vector of `Real`s. It also carries:
  - a free-text SI unit tag with an additive "mixed units" rule;
  - a memoised magnitude, with a validity flag;
  - a "normalized" provenance flag.
- The thin containers `Vector2`, `Vector4`, `Matrix3`, `Matrix4` and `Quaternion`.

Modelling choices:

- **Real.** A `Real` is a mathematical real inside the finite range of an IEEE-754
  binary64, `[-MaxFinite, MaxFinite]`, where `MaxFinite` is the exact value of
  `DBL_MAX`. It is written as the largest significand times a power of two,
  (2^53 - 1) · 2^971, and `Reals.MaxFiniteValue` proves that this is DBL_MAX's
  309-digit value. An operation computes the exact real result. It fails with a
  `DomainError` when that result leaves the range. There is one error per throw site.
- **Exceptions** become `Result` values.
- **Operations on a value.** Every operation is a function on values. An operation
  that mutates its receiver returns the new receiver. `Magnitude` is `const` in the
  source but fills a `mutable` cache, so it returns the magnitude together with the
  updated receiver.
- **Square root.** `std::sqrt` is `Roots.Sqrt`, a bisection from the bracket
  [0, max(1, s)] halved at least 1100 times. It is non-negative and zero exactly at
  zero. Its square is at least its argument, and it exceeds the exact root by at most
  max(1, s) · 2^-1100 (`Roots.Tolerance`).
- **Cache invariant.** `Vectors3.Coherent` is the invariant that makes the memoised
  magnitude trustworthy. Every operation preserves it, except the compound operators
  when they fail part-way (see Findings).

Modules:

| module | file |
|---|---|
| `Results` | results.dfy |
| `Reals` | real.dfy |
| `RealLaws` | real_laws.dfy |
| `Roots` | sqrt.dfy |
| `Vectors3` | vector3.dfy |
| `Vector3Laws` | vector3_laws.dfy |
| `Vectors2`, `Vector2Laws` | vector2.dfy |
| `Vectors4`, `Vector4Laws` | vector4.dfy |
| `RowMajor` | rowmajor.dfy |
| `Matrices3`, `Matrix3Laws` | matrix3.dfy |
| `Matrices4`, `Matrix4Laws` | matrix4.dfy |
| `Quaternions`, `QuaternionLaws` | quaternion.dfy |

## Model

| member | source | states |
|---|---|---|
| Reals.MaxFiniteValue | include/kalon/Real.hpp:15-17 | the bound of the finiteness test, (2^53 - 1) · 2^971, is DBL_MAX = 1.7976931348623157 × 10^308, digit for digit |
| Reals.Default | include/kalon/Real.hpp:24 | the default constructor gives zero() |
| Reals.Zero | include/kalon/Real.hpp:92 | zero() is the identity of checked addition and annihilates checked multiplication, for every Real |
| Reals.One | include/kalon/Real.hpp:93 | one() is the identity of checked multiplication and division, for every Real |
| Reals.Epsilon | include/kalon/Real.hpp:88-90 | epsilon() is 2^-52: positive, below one(), and one() + epsilon() exceeds one() |
| Reals.FromDouble | include/kalon/Real.hpp:29-34 | the converting constructor accepts a double exactly when it is a finite number, stores it unchanged, and otherwise fails with NotFinite |
| Reals.Checked | include/kalon/Real.hpp:43-45 | a computed result becomes a Real exactly when it is finite, else the given error |
| Reals.Add | include/kalon/Real.hpp:42-46 | a + b succeeds iff the exact sum is finite, returns it, and otherwise reports an addition overflow |
| Reals.Sub | include/kalon/Real.hpp:48-52 | a - b succeeds iff the exact difference is finite, returns it, and otherwise reports a subtraction overflow |
| Reals.Mul | include/kalon/Real.hpp:54-58 | a * b succeeds iff the exact product is finite, returns it, and otherwise reports a multiplication overflow |
| Reals.Div | include/kalon/Real.hpp:60-65 | a zero divisor always fails with DivisionByZero, checked before the quotient; otherwise a / b succeeds iff the quotient is finite, else DivisionOverflow |
| Reals.FiniteQuotientIsDivision | include/kalon/Real.hpp:60-65 | for a non-zero divisor b, a / b is finite exactly when a lies within MaxFinite · abs(b) of zero |
| RealLaws.ValueRoundTrip | include/kalon/Real.hpp:29-39 | constructing a Real from the value of a Real gives it back |
| RealLaws.NonFiniteRefused | include/kalon/Real.hpp:30-33 | NaN and both infinities are refused by construction |
| RealLaws.IdentityElements | include/kalon/Real.hpp:24 | zero() equals the default value; adding or subtracting zero() and multiplying or dividing by one() give the operand back, and dividing by zero() fails |
| RealLaws.Commutative | include/kalon/Real.hpp:42-58 | + and * give the same result, success or failure, in either operand order |
| RealLaws.SubtractIsAddNegated | include/kalon/Real.hpp:42-52 | a - b succeeds exactly when a + (-b) does, with the same value |
| RealLaws.DivUndoesMul | include/kalon/Real.hpp:54-65 | over exact reals, dividing a successful product by its non-zero factor returns the other factor |
| RealLaws.MulUndoesDiv | include/kalon/Real.hpp:54-65 | over exact reals, multiplying a successful quotient by the divisor returns the dividend |
| RealLaws.ComparisonsAreExact | include/kalon/Real.hpp:68-85 | the six comparisons act on exact values, != negates ==, > and >= are the converses of < and <=, and exactly one of <, ==, > holds |
| RealLaws.NoTolerance | include/kalon/Real.hpp:68-93 | epsilon() is a positive number below one(), and one() + epsilon() is strictly greater than and unequal to one() |
| RealLaws.AdditionOverflows | include/kalon/Real.hpp:42-46 | 1e308 is a finite Real but 1e308 + 1e308 is not, so adding it to itself fails with an addition overflow |
| Roots.Bisect | include/kalon/Vector3.hpp:126 | the bracketing search returns a number inside its starting bracket |
| Roots.BisectCovers | include/kalon/Vector3.hpp:126 | when the starting bracket holds the root of s, the bisection's result squares to at least s |
| Roots.BisectWithin | include/kalon/Vector3.hpp:126 | the bisection's result lowered by the final bracket width (the start width halved once per step) is at least the bracket's lower end and squares to at most s |
| Roots.Sqrt | include/kalon/Vector3.hpp:126 | the square root of a non-negative number is non-negative, is zero exactly at zero, and is at most max(1, argument) |
| Roots.SqrtCovers | include/kalon/Vector3.hpp:126 | the square of Sqrt(s) is at least s: Sqrt never falls below the exact root |
| Roots.SqrtIsTight | include/kalon/Vector3.hpp:126 | Sqrt(s) lowered by Tolerance(s) is negative or squares to at most s: Sqrt never exceeds the exact root by more than the tolerance |
| Roots.SqrtNearRoot | include/kalon/Vector3.hpp:126 | whenever s has an exact non-negative root q, Sqrt(s) lies in [q, q + Tolerance(s)] |
| Roots.ShrinkIsDivision | include/kalon/Vector3.hpp:126 | halving a width n times divides it by 2^n, so Tolerance(s) is max(1, s) / 2^1100 or less |
| Vectors3.CombineAdditiveUnits | include/kalon/Vector3.hpp:44-46 | equal unit tags are kept and different tags become "mixed units" |
| Vectors3.DefaultVector | include/kalon/Vector3.hpp:50-51 | the default vector has three zero() components, is dimensionless, has no valid cache, is not normalized, and is coherent |
| Vectors3.FromReals | include/kalon/Vector3.hpp:53-54 | the three-argument constructor stores its components unchanged, is dimensionless, has no valid cache, is not normalized, and is coherent |
| Vectors3.InvalidateCache | include/kalon/Vector3.hpp:115-119 | clears the cached magnitude, its validity and the normalized flag, leaves components and unit equal, and yields a coherent vector |
| Vectors3.SetX | include/kalon/Vector3.hpp:71-74 | x becomes the new value, y, z and the unit stay, and the cache and normalized flag are reset |
| Vectors3.SetY | include/kalon/Vector3.hpp:77-80 | y becomes the new value, x, z and the unit stay, and the cache and normalized flag are reset |
| Vectors3.SetZ | include/kalon/Vector3.hpp:83-86 | z becomes the new value, x, y and the unit stay, and the cache and normalized flag are reset |
| Vectors3.SetComponents | include/kalon/Vector3.hpp:89-94 | setting three components at once equals setX, setY, setZ in turn; the unit stays and the cache is reset |
| Vectors3.SetUnit | include/kalon/Vector3.hpp:110-112 | only the tag changes, and a coherent vector stays coherent |
| Vectors3.MagnitudeSquared | include/kalon/Vector3.hpp:133-135 | succeeds exactly when x²+y²+z² is finite (no intermediate step can fail first), returns that non-negative sum, and otherwise reports a multiplication or addition overflow |
| Vectors3.Magnitude | include/kalon/Vector3.hpp:123-130 | a valid cache is returned untouched; otherwise the result is the root of the squared magnitude, it fails exactly when that fails, and it is stored in the receiver as a valid cache; coherence is preserved and equality unchanged |
| Vectors3.Normalized | include/kalon/Vector3.hpp:139-148 | at zero magnitude the copy is the receiver itself; otherwise it succeeds exactly when the three quotients by the magnitude are finite, else DivisionOverflow, and the copy has those quotients, the receiver's unit, the normalized flag and a valid cache of one; magnitude errors pass through; coherence is preserved |
| Vectors3.Normalize | include/kalon/Vector3.hpp:151-162 | the in-place version: at zero magnitude it succeeds with the components and flag untouched; otherwise it succeeds exactly when the three quotients are finite, else DivisionOverflow, and then holds them with the flag set and the cache one |
| Vectors3.Dot | include/kalon/Vector3.hpp:165-167 | succeeds exactly when the three checked products succeed and both running sums of them are finite (the terms may cancel, so the final sum alone does not decide it), returns x·x'+y·y'+z·z', and otherwise reports a multiplication or addition overflow |
| Vectors3.ProductDifference | include/kalon/Vector3.hpp:172-174 | p·q − r·s succeeds exactly when both products and the difference are finite, and reports only multiplication or subtraction overflow |
| Vectors3.Cross | include/kalon/Vector3.hpp:170-178 | succeeds exactly when all three component expressions do, gives the cross product with a fresh cache, and tags it by the additive unit rule |
| Vectors3.CompoundAsWritten | include/kalon/Vector3.hpp:198-233 | a compound operator completes exactly when all three component operations do, and then sets the components, sets the unit and resets the cache; a failure keeps z, the unit, the cache and the flag, and a failure on x changes nothing |
| Vectors3.Plus | include/kalon/Vector3.hpp:236-240 | succeeds exactly when the three sums are finite, adds componentwise, combines the units and resets the cache |
| Vectors3.Minus | include/kalon/Vector3.hpp:243-247 | succeeds exactly when the three differences are finite, subtracts componentwise, combines the units and resets the cache |
| Vectors3.Times | include/kalon/Vector3.hpp:250-254 | succeeds exactly when the three checked products with the scalar succeed, holds those products, keeps the unit and resets the cache; it fails only by multiplication overflow |
| Vectors3.TimesLeft | include/kalon/Vector3.hpp:264-266 | scalar-on-the-left multiplication succeeds exactly when the checked products s·x, s·y, s·z succeed, and holds them |
| Vectors3.Over | include/kalon/Vector3.hpp:257-261 | a zero scalar fails with DivisionByZero; otherwise succeeds exactly when the three quotients are finite, and divides every component |
| Vectors3.Negate | include/kalon/Vector3.hpp:181-185 | unary minus never fails, negates every component, keeps the unit and resets the cache |
| Vectors3.AddAssign | include/kalon/Vector3.hpp:198-205 | += completes exactly when operator+ would, leaves the sum in the receiver, keeps the receiver whole on failure, and preserves coherence |
| Vectors3.SubAssign | include/kalon/Vector3.hpp:208-215 | -= completes exactly when operator- would, leaves the difference in the receiver, keeps the receiver whole on failure, and preserves coherence |
| Vectors3.ScaleAssign | include/kalon/Vector3.hpp:218-224 | *= completes exactly when operator* would, leaves the scaled vector in the receiver, keeps the receiver whole on failure, and preserves coherence |
| Vectors3.DivAssign | include/kalon/Vector3.hpp:227-233 | /= completes exactly when operator/ would, fails on a zero scalar, keeps the receiver whole on failure, and preserves coherence |
| Vector3Laws.Construction | include/kalon/Vector3.hpp:50-53 | the default vector is (0,0,0); the three-argument constructor stores its components, is dimensionless and coherent, with the cache invalid and the flag unset |
| Vector3Laws.ZeroMagnitudeSquared | include/kalon/Vector3.hpp:133-135 | the zero vector's squared magnitude is 0 |
| Vector3Laws.ZeroMagnitude | include/kalon/Vector3.hpp:123-130 | the zero vector's magnitude is 0 and gets cached |
| Vector3Laws.UnitAlgebra | include/kalon/Vector3.hpp:44-46 | the additive unit rule is idempotent, commutative and associative; "mixed units" absorbs every tag; a tag survives exactly when the tags agree or it is already "mixed units" |
| Vector3Laws.UnitExamples | include/kalon/Vector3.hpp:198-205 | m + m is tagged m; m + s and m × s are tagged "mixed units" |
| Vector3Laws.OperationsPreserveCoherence | include/kalon/Vector3.hpp:71-262 | every setter, Magnitude and every successful binary operator keeps the cache invariant |
| Vector3Laws.MutationForcesRecompute | include/kalon/Vector3.hpp:114-130 | after InvalidateCache the next Magnitude recomputes from the current components and the vector is not marked normalized |
| Vector3Laws.MagnitudeIsMemoised | include/kalon/Vector3.hpp:123-130 | a second Magnitude returns the stored value and changes nothing |
| Vector3Laws.MagnitudeNeverStale | include/kalon/Vector3.hpp:123-135 | on a coherent vector not marked normalized, Magnitude, cached or not, is the root of the current squared magnitude |
| Vector3Laws.WithinRoot | include/kalon/Vector3.hpp:142 | a number whose square is at most len² lies in [-len, len] |
| Vector3Laws.QuotientWithinOne | include/kalon/Vector3.hpp:142 | a component divided by a magnitude whose square bounds the component's square lies in [-1, 1] |
| Vector3Laws.QuotientsFinite | include/kalon/Vector3.hpp:142 | the components divided by any length whose square bounds the squared magnitude are finite |
| Vector3Laws.ComponentsWithinMagnitude | include/kalon/Vector3.hpp:140-142 | dividing a vector's components by the root of its squared magnitude never overflows |
| Vector3Laws.NormalizationCannotOverflow | include/kalon/Vector3.hpp:139-162 | on a coherent vector, Normalized and Normalize fail exactly when the magnitude cannot be computed |
| Vector3Laws.NormalizedMagnitudeIsOne | include/kalon/Vector3.hpp:143-146 | a normalized copy is flagged normalized and its Magnitude is 1 from the cache |
| Vector3Laws.NormalizedIsIdempotent | include/kalon/Vector3.hpp:139-162 | normalizing a normalized copy again returns it unchanged |
| Vector3Laws.NormalizeAgreesWithNormalized | include/kalon/Vector3.hpp:139-162 | Normalize succeeds exactly when Normalized does, leaves the receiver equal to Normalized's copy, and fails with the same error |
| Vector3Laws.ZeroVectorNormalization | include/kalon/Vector3.hpp:141 | normalizing the zero vector is a no-op copy, not an error, and does not set the flag |
| Vector3Laws.EqualityLaws | include/kalon/Vector3.hpp:188-195 | == is an equivalence that ignores cache and flag but not the unit, and != is its negation |
| Vector3Laws.DotSymmetric | include/kalon/Vector3.hpp:165-167 | a·b and b·a agree, success or failure |
| Vector3Laws.DotSelfIsMagnitudeSquared | include/kalon/Vector3.hpp:133-167 | v·v is exactly the squared magnitude, failure included |
| Vector3Laws.CrossAntiCommutes | include/kalon/Vector3.hpp:170-178 | swapping the operands negates the cross product, succeeds in the same cases and keeps the tag |
| Vector3Laws.CrossSelfIsZero | include/kalon/Vector3.hpp:170-178 | v × v is the zero vector with v's tag |
| Vector3Laws.CrossTermsOrthogonal | include/kalon/Vector3.hpp:171-175 | the written-out cross product of two real triples is orthogonal to both, as an identity on reals |
| Vector3Laws.DotsWithCrossTerms | include/kalon/Vector3.hpp:165-178 | over exact reals, a vector whose components are the cross terms of a and b has a zero dot product with a and with b whenever that product succeeds |
| Vector3Laws.CrossIsOrthogonal | include/kalon/Vector3.hpp:165-178 | over exact reals, a × b is orthogonal to a and to b whenever the dot products succeed |
| Vector3Laws.DotExample | include/kalon/Vector3.hpp:165-167 | (1,0,0)·(0,1,0) = 0 |
| Vector3Laws.CrossExample | include/kalon/Vector3.hpp:170-178 | (1,0,0) × (0,1,0) = (0,0,1) |
| Vector3Laws.MagnitudeSquaredExample | include/kalon/Vector3.hpp:133-135 | the squared magnitude of (3,4,0) is 25 |
| Vector3Laws.PlusCommutes | include/kalon/Vector3.hpp:236-240 | a + b and b + a agree, success, error and tag included |
| Vector3Laws.MinusSelf | include/kalon/Vector3.hpp:243-247 | v − v is the zero vector with v's tag |
| Vector3Laws.MinusIsPlusNegation | include/kalon/Vector3.hpp:181-247 | a − b succeeds exactly when a + (−b) does, with the same result |
| Vector3Laws.NegateTwice | include/kalon/Vector3.hpp:181-185 | −(−v) is v with its cache reset |
| Vector3Laws.ScalarMultiplicationCommutes | include/kalon/Vector3.hpp:250-266 | s * v and v * s are the same result |
| Vector3Laws.DivideByZeroFails | include/kalon/Vector3.hpp:227-261 | dividing by zero fails with DivisionByZero, and the in-place form leaves the receiver unchanged |
| Vector3Laws.PartialScaleLeavesStaleCache | include/kalon/Vector3.hpp:218-224 | scaling (1,2,0) by DBL_MAX after reading its magnitude fails on y with x already overwritten and a valid cache that no longer matches the components |
| Vector3Laws.AllOrNothingAgreesWithSource | include/kalon/Vector3.hpp:198-233 | the all-or-nothing compound operators succeed and fail in exactly the same cases as the source's, with the same error and, on success, the same receiver |
| Vectors2.DefaultVector2 | include/kalon/Vector2.hpp:15-19 | a default Vector2 is (0, 0) |
| Vectors2.SetX | include/kalon/Vector2.hpp:25 | setX changes x only |
| Vectors2.SetY | include/kalon/Vector2.hpp:26 | setY changes y only |
| Vectors2.SetComponents | include/kalon/Vector2.hpp:27-30 | both components are overwritten with the given values |
| Vectors2.MagnitudeSquared | include/kalon/Vector2.hpp:33-35 | succeeds exactly when x²+y² is finite, returns that non-negative sum, and otherwise reports a multiplication or addition overflow |
| Vector2Laws.SettersOverwrite | include/kalon/Vector2.hpp:25-26 | the last write to a component wins, writes to different components commute, and writing a component's own value is a no-op |
| Vector2Laws.SetComponentsIsConstruction | include/kalon/Vector2.hpp:20-30 | setComponents equals the two-argument constructor, whatever the receiver held |
| Vector2Laws.AgreesWithVector3 | include/kalon/Vector2.hpp:33-35 | the 2D squared magnitude equals the 3D one with z = 0, error kind included |
| Vector2Laws.ZeroMagnitudeSquared | include/kalon/Vector2.hpp:15-35 | the default vector's squared magnitude is 0 |
| Vector2Laws.MagnitudeSquaredExample | include/kalon/Vector2.hpp:33-35 | the squared magnitude of (3, 4) is 25 |
| Vector2Laws.SquareOverflows | include/kalon/Vector2.hpp:33-35 | a component of 1e200 makes the squared magnitude fail with a multiplication overflow |
| Vectors4.DefaultVector4 | include/kalon/Vector4.hpp:14-17 | a default Vector4 holds four zeros |
| Vectors4.FromReals | include/kalon/Vector4.hpp:18 | the four-argument constructor stores x, y, z, w at indices 0 to 3 |
| Vectors4.Put | include/kalon/Vector4.hpp:32 | a write through operator[] changes exactly the indexed element |
| Vectors4.SetX | include/kalon/Vector4.hpp:25 | setX changes x only |
| Vectors4.SetY | include/kalon/Vector4.hpp:26 | setY changes y only |
| Vectors4.SetZ | include/kalon/Vector4.hpp:27 | setZ changes z only |
| Vectors4.SetW | include/kalon/Vector4.hpp:28 | setW changes w only |
| Vector4Laws.Extensionality | include/kalon/Vector4.hpp:14 | two Vector4 are equal exactly when they agree at every index |
| Vector4Laws.NamedReadsAreIndexed | include/kalon/Vector4.hpp:18-31 | x(), y(), z(), w() read indices 0 to 3, and the constructor rebuilds a vector from its accessors |
| Vector4Laws.NamedWritesAreIndexed | include/kalon/Vector4.hpp:25-32 | each named setter is the indexed write at its index |
| Vector4Laws.WritesOverwrite | include/kalon/Vector4.hpp:32 | the last indexed write wins, writes to different indices commute, and writing the current value is a no-op |
| RowMajor.Index | include/kalon/Matrix3.hpp:25-27 | the row-major position of (r, c) is below n², and dividing it by n gives back r with remainder c |
| RowMajor.Decompose | include/kalon/Matrix4.hpp:24-26 | r·n + c with c < n has quotient r and remainder c |
| RowMajor.Surjective | include/kalon/Matrix3.hpp:14 | every storage slot below n² is the position of the element (k / n, k % n) |
| RowMajor.Injective | include/kalon/Matrix4.hpp:14 | distinct elements occupy distinct storage slots |
| Matrices3.DefaultMatrix3 | include/kalon/Matrix3.hpp:17-20 | a default Matrix3 has all nine elements zero |
| Matrices3.Put | include/kalon/Matrix3.hpp:29-31 | a write through operator()(r, c) changes that element and no other |
| Matrices3.SetIdentity | include/kalon/Matrix3.hpp:34-40 | after setIdentity, (r, c) is one when r = c and zero otherwise |
| Matrix3Laws.StorageRoundTrip | include/kalon/Matrix3.hpp:22-27 | the storage constructor keeps its nine values: element (k / 3, k % 3) is storage[k] |
| Matrix3Laws.Extensionality | include/kalon/Matrix3.hpp:14-27 | two Matrix3 are equal exactly when they agree at every (r, c) |
| Matrix3Laws.IdentityIsUnique | include/kalon/Matrix3.hpp:34-40 | a matrix is the identity exactly when it has ones on the diagonal and zeros elsewhere; setIdentity is idempotent and forgets the previous contents |
| Matrix3Laws.WritesOverwrite | include/kalon/Matrix3.hpp:29-31 | the last write to an element wins, writes to different elements commute, and writing the current value is a no-op |
| Matrix3Laws.DefaultIsNotIdentity | include/kalon/Matrix3.hpp:17-40 | the default matrix is not the identity |
| Matrices4.DefaultMatrix4 | include/kalon/Matrix4.hpp:17-20 | a default Matrix4 has all sixteen elements zero |
| Matrices4.Put | include/kalon/Matrix4.hpp:28-30 | a write through operator()(r, c) changes that element and no other |
| Matrices4.SetIdentity | include/kalon/Matrix4.hpp:32-39 | after setIdentity, (r, c) is one when r = c and zero otherwise |
| Matrix4Laws.StorageRoundTrip | include/kalon/Matrix4.hpp:22-26 | the storage constructor keeps its sixteen values: element (k / 4, k % 4) is storage[k] |
| Matrix4Laws.Extensionality | include/kalon/Matrix4.hpp:14-26 | two Matrix4 are equal exactly when they agree at every (r, c) |
| Matrix4Laws.IdentityIsUnique | include/kalon/Matrix4.hpp:32-39 | a matrix is the identity exactly when it has ones on the diagonal and zeros elsewhere; setIdentity is idempotent and forgets the previous contents |
| Matrix4Laws.WritesOverwrite | include/kalon/Matrix4.hpp:28-30 | the last write to an element wins, writes to different elements commute, and writing the current value is a no-op |
| Matrix4Laws.DefaultIsNotIdentity | include/kalon/Matrix4.hpp:17-39 | the default matrix is not the identity |
| Quaternions.DefaultQuaternion | include/kalon/Quaternion.hpp:12-18 | a default Quaternion is the identity (w, x, y, z) = (1, 0, 0, 0) |
| Quaternions.Set | include/kalon/Quaternion.hpp:27-32 | set overwrites all four components with the given values |
| QuaternionLaws.SetIsConstruction | include/kalon/Quaternion.hpp:19-32 | set equals the four-argument constructor, ignores the previous value, is a no-op with the current components, and the later of two sets wins |
| QuaternionLaws.ResetToDefault | include/kalon/Quaternion.hpp:12-32 | set(1, 0, 0, 0) turns any quaternion into the default one |

## Left out

- IEEE-754 rounding, signed zeros, subnormals and NaN propagation. Operations are exact
  on reals, and "non-finite" means outside `[-DBL_MAX, DBL_MAX]`. A result that
  rounds to `DBL_MAX` but whose exact value lies just above it counts as overflow here.
- Roots.Sqrt: not the correctly rounded root of `std::sqrt`. It is the upper end of
  a bisection bracket, so it lies between the exact root and the exact root plus
  max(1, s) · 2^-1100 (`Roots.SqrtNearRoot`, `Roots.SqrtIsTight`). A perfect square
  such as 25 therefore gets a root a hair above 5, not 5 itself.
- Reals.Epsilon: fixed at 2^-52, the value of `std::numeric_limits<double>::epsilon()`.
  Nothing in the library uses it as a tolerance, so only its ordering against one()
  is stated.
- The comparison predicates `Reals.Eq` through `Reals.Ge` and `Vectors3.Equal`/`NotEqual`
  carry no contract of their own. Their laws are `RealLaws.ComparisonsAreExact` and
  `Vector3Laws.EqualityLaws`.
- The templated arithmetic-type constructor of Real. Every arithmetic argument is
  modelled as one `Double` value, and integer-to-double conversion is not modelled.
- The re-check inside `return Real(result)` at the end of each operator. It can never
  fail once the result has been found finite, so it is folded into `Reals.Checked`.
- Thread safety of the mutable magnitude cache. Concurrency is outside the model.
- Order of evaluation. C++ leaves unspecified the order of the operands of `+` in
  `MagnitudeSquared` and `Dot`, and of the constructor arguments in `Cross` and
  `Normalized`. The model evaluates left to right. The contracts state the possible
  error kinds as a set rather than pinning down which overflow is reported first.
- Vectors3.Normalize: when a division fails part-way, the source has already changed
  some components of the receiver. The model returns only the error.
  `Vector3Laws.NormalizationCannotOverflow` shows this cannot happen to a coherent
  vector.
- Out-of-range indices for `Vector4::operator[]` and `Matrix3/Matrix4::operator()` are
  undefined behaviour in the source. In-range indices are a precondition here.
- The accessor functions are the datatype fields. Matrix3 and Matrix4 element
  reads (`At`) are the storage lookup through `RowMajor.Index`.
- Transform.hpp is not part of this model. It refers to a quaternion `Normalized` and
  a quaternion product that the Quaternion class does not declare.
- Constants.hpp and the tests are not part of this model. The tests exercise a
  `kalon::add` and a version string that are outside the core.

## Findings

| source | as written | input that shows it | evidently intended | confidence | as-written member | corrected member |
|---|---|---|---|---|---|---|
| include/kalon/Vector3.hpp:218-224 | `operator*=` (and likewise `+=`, `-=`, `/=` at lines 198-233) assigns `_x`, `_y`, `_z` one after another and calls `InvalidateCache()` last. When the operation on y or z throws, the earlier components are already overwritten but the magnitude cache is still marked valid | v = (1, 2, 0) after `Magnitude()` (cache valid, holding √5), then `v *= Real(DBL_MAX)`: x becomes DBL_MAX, y·DBL_MAX overflows and throws; afterwards v.Magnitude() returns √5 for a vector whose components include DBL_MAX | a failed compound operator leaves the receiver unchanged (or at least invalidates the cache), so that `Magnitude()` never returns a stale value | not executed | Vectors3.CompoundAsWritten (counterexample: Vector3Laws.PartialScaleLeavesStaleCache) | Vectors3.ScaleAssign, with Vectors3.AddAssign, Vectors3.SubAssign and Vectors3.DivAssign (coherence preserved in their contracts; agreement on every non-failing input: Vector3Laws.AllOrNothingAgreesWithSource) |
