/** The 3D vector of include/kalon/Vector3.hpp: three finite components plus three
    kinds of bookkeeping — a free-text unit tag, a memoised magnitude with a validity
    flag, and a "normalized" provenance flag.

    The vector is a value. An operation that changes the receiver in place returns
    the new receiver; Magnitude, which the source declares const but which fills
    the mutable cache, returns the magnitude together with the updated receiver. */
module Vectors3 {
  import opened Results
  import opened Reals
  import Roots

  const Dimensionless: string := "dimensionless"

  /** The tag an additive operation gives to operands with different tags. */
  const MixedUnits: string := "mixed units"

  datatype Vector3 = Vector3(
    x: Real,
    y: Real,
    z: Real,
    normalized: bool,       // set only by Normalize and Normalized
    magnitudeCache: Real,   // meaningful only while cacheValid holds
    cacheValid: bool,
    unit: string)

  /** What Magnitude hands back: the magnitude and the receiver with its cache filled. */
  datatype Measured = Measured(magnitude: Real, receiver: Vector3)

  /** What Normalized hands back: the normalized copy and the receiver, whose cache
      the magnitude computation may have filled. */
  datatype Normalization = Normalization(copy: Vector3, receiver: Vector3)

  /** The receiver after an in-place operator and whether the operator completed. */
  datatype Step = Step(receiver: Vector3, outcome: Outcome)

  /** Additive unit rule: equal tags are kept, different tags become MixedUnits. */
  function CombineAdditiveUnits(lhs: string, rhs: string): (r: string)
    ensures lhs == rhs ==> r == lhs
    ensures lhs != rhs ==> r == MixedUnits
  {
    if lhs == rhs then lhs else MixedUnits
  }

  // ---------------------------------------------------------------- construction

  /** The default constructor: the zero vector, dimensionless, cache invalid, not normalized. */
  function DefaultVector(): (r: Vector3)
    ensures r.x == Zero() && r.y == Zero() && r.z == Zero()
    ensures r.unit == Dimensionless && Invalidated(r) && Coherent(r)
  {
    Vector3(0.0, 0.0, 0.0, false, 0.0, false, Dimensionless)
  }

  /** The three-component constructor: the other fields keep their initial values. */
  function FromReals(x: Real, y: Real, z: Real): (r: Vector3)
    ensures r.x == x && r.y == y && r.z == z
    ensures r.unit == Dimensionless && Invalidated(r) && Coherent(r)
  {
    Vector3(x, y, z, false, 0.0, false, Dimensionless)
  }

  // ---------------------------------------------------------------- bookkeeping

  /** The bookkeeping state InvalidateCache leaves behind. */
  predicate Invalidated(v: Vector3) {
    !v.cacheValid && v.magnitudeCache == 0.0 && !v.normalized
  }

  /** Equality as operator== defines it: components and unit tag, nothing else. */
  predicate Equal(a: Vector3, b: Vector3) {
    a.x == b.x && a.y == b.y && a.z == b.z && a.unit == b.unit
  }

  predicate NotEqual(a: Vector3, b: Vector3) {
    !Equal(a, b)
  }

  /** The cache invariant every reachable vector satisfies: an invalid cache holds
      zero; a normalized vector has a valid cache holding one; and a valid cache on a
      vector not marked normalized holds the square root of the current squared
      magnitude. (After normalization the cache holds one by fiat: the source does
      not recompute the magnitude of the quotient.) */
  predicate Coherent(v: Vector3) {
    if !v.cacheValid then v.magnitudeCache == 0.0 && !v.normalized
    else if v.normalized then v.magnitudeCache == 1.0
    else MagnitudeSquared(v).Ok? && v.magnitudeCache == Roots.Sqrt(MagnitudeSquared(v).value)
  }

  function InvalidateCache(v: Vector3): (r: Vector3)
    ensures Invalidated(r) && Equal(r, v)
    ensures Coherent(r)
  {
    v.(magnitudeCache := 0.0, cacheValid := false, normalized := false)
  }

  // ---------------------------------------------------------------- mutators

  function SetX(v: Vector3, a: Real): (r: Vector3)
    ensures r.x == a && r.y == v.y && r.z == v.z && r.unit == v.unit
    ensures Invalidated(r)
  {
    InvalidateCache(v.(x := a))
  }

  function SetY(v: Vector3, a: Real): (r: Vector3)
    ensures r.x == v.x && r.y == a && r.z == v.z && r.unit == v.unit
    ensures Invalidated(r)
  {
    InvalidateCache(v.(y := a))
  }

  function SetZ(v: Vector3, a: Real): (r: Vector3)
    ensures r.x == v.x && r.y == v.y && r.z == a && r.unit == v.unit
    ensures Invalidated(r)
  {
    InvalidateCache(v.(z := a))
  }

  /** Setting all three components at once is the same as setting them one at a time. */
  function SetComponents(v: Vector3, a: Real, b: Real, c: Real): (r: Vector3)
    ensures r == SetZ(SetY(SetX(v, a), b), c)
    ensures Invalidated(r) && r.unit == v.unit
  {
    InvalidateCache(v.(x := a, y := b, z := c))
  }

  /** Only the tag changes: components, cache and flag are left alone. */
  function SetUnit(v: Vector3, u: string): (r: Vector3)
    ensures r.unit == u && r.(unit := v.unit) == v
    ensures Coherent(v) ==> Coherent(r)
  {
    v.(unit := u)
  }

  // ---------------------------------------------------------------- magnitude

  /** Squares are never negative. */
  lemma SquaresNonNegative(a: real, b: real, c: real)
    ensures 0.0 <= a * a && 0.0 <= b * b && 0.0 <= c * c
  {
  }

  /** One addition of a sum of checked terms, left to right: a failed running sum is
      passed on, then a failed term, and otherwise the checked sum of the two. */
  function AddTerm(sum: Result<Real>, term: Result<Real>): (r: Result<Real>)
    ensures sum.Err? ==> r == sum
    ensures sum.Ok? && term.Err? ==> r == term
    ensures sum.Ok? && term.Ok? ==> r == Add(sum.value, term.value)
  {
    var s :- sum;
    var t :- term;
    Add(s, t)
  }

  /** Three checked non-negative terms p, q, t added left to right: every partial
      result is at most p + q + t, so the chain fails exactly when that sum is not
      finite, and with one of the errors the steps can report. */
  lemma {:induction false} NonNegativeChain(a: Result<Real>, b: Result<Real>, c: Result<Real>, p: real, q: real, t: real)
    requires 0.0 <= p && 0.0 <= q && 0.0 <= t
    requires (a.Ok? <==> IsFinite(p)) && (a.Ok? ==> a.value == p) && (a.Err? ==> a.error == MultiplicationOverflow)
    requires (b.Ok? <==> IsFinite(q)) && (b.Ok? ==> b.value == q) && (b.Err? ==> b.error == MultiplicationOverflow)
    requires (c.Ok? <==> IsFinite(t)) && (c.Ok? ==> c.value == t) && (c.Err? ==> c.error == MultiplicationOverflow)
    ensures AddTerm(AddTerm(a, b), c).Ok? <==> IsFinite(p + q + t)
    ensures AddTerm(AddTerm(a, b), c).Ok? ==> AddTerm(AddTerm(a, b), c).value == p + q + t
    ensures AddTerm(AddTerm(a, b), c).Err? ==>
              AddTerm(AddTerm(a, b), c).error == MultiplicationOverflow || AddTerm(AddTerm(a, b), c).error == AdditionOverflow
  {
    var ab := AddTerm(a, b);
    if IsFinite(p + q + t) {
      assert a.Ok? && b.Ok? && ab == Add(p, q) && ab.Ok?;
      assert c.Ok?;
    }
  }

  /** x*x + y*y + z*z, recomputed on every call, summed left to right. Every partial
      sum of squares is at most the full sum, so the computation fails exactly when
      the full sum is not finite, whichever intermediate step reports it. */
  function MagnitudeSquared(v: Vector3): (r: Result<Real>)
    ensures r.Ok? <==> IsFinite(v.x * v.x + v.y * v.y + v.z * v.z)
    ensures r.Ok? ==> r.value == v.x * v.x + v.y * v.y + v.z * v.z && 0.0 <= r.value
    ensures r.Err? ==> r.error == MultiplicationOverflow || r.error == AdditionOverflow
  {
    SquaresNonNegative(v.x, v.y, v.z);
    NonNegativeChain(Mul(v.x, v.x), Mul(v.y, v.y), Mul(v.z, v.z), v.x * v.x, v.y * v.y, v.z * v.z);
    AddTerm(AddTerm(Mul(v.x, v.x), Mul(v.y, v.y)), Mul(v.z, v.z))
  }

  /** The memoised magnitude: a valid cache is returned as is; otherwise the square
      root of MagnitudeSquared is stored and the cache marked valid. */
  function Magnitude(v: Vector3): (r: Result<Measured>)
    ensures v.cacheValid ==> r == Ok(Measured(v.magnitudeCache, v))
    ensures !v.cacheValid ==> (r.Ok? <==> MagnitudeSquared(v).Ok?)
    ensures r.Err? ==> r.error == MagnitudeSquared(v).error
    ensures !v.cacheValid && r.Ok? ==> r.value.magnitude == Roots.Sqrt(MagnitudeSquared(v).value)
    ensures r.Ok? ==> r.value.receiver == v.(magnitudeCache := r.value.magnitude, cacheValid := true)
    ensures r.Ok? ==> 0.0 <= r.value.magnitude || v.cacheValid
    ensures Coherent(v) && r.Ok? ==> Coherent(r.value.receiver) && Equal(r.value.receiver, v)
  {
    if v.cacheValid then
      Ok(Measured(v.magnitudeCache, v))
    else
      var squared :- MagnitudeSquared(v);
      var root: Real := Roots.Sqrt(squared);
      Ok(Measured(root, v.(magnitudeCache := root, cacheValid := true)))
  }

  /** A normalized copy. At zero magnitude the copy is the receiver itself (with the
      cache Magnitude filled); otherwise every component is divided by the magnitude,
      the unit is kept, the flag set and the cache set to one. */
  function Normalized(v: Vector3): (r: Result<Normalization>)
    ensures Magnitude(v).Err? ==> r == Err(Magnitude(v).error)
    ensures Magnitude(v).Ok? && r.Ok? ==> r.value.receiver == Magnitude(v).value.receiver
    ensures Magnitude(v).Ok? && Magnitude(v).value.magnitude == 0.0 ==> r.Ok?
    ensures Magnitude(v).Ok? && Magnitude(v).value.magnitude != 0.0 ==>
              var len := Magnitude(v).value.magnitude;
              (r.Ok? <==> FiniteQuotient(v.x, len) && FiniteQuotient(v.y, len) && FiniteQuotient(v.z, len))
              && (r.Err? ==> r.error == DivisionOverflow)
    ensures r.Ok? && Magnitude(v).value.magnitude == 0.0 ==>
              r.value.copy == r.value.receiver && Equal(r.value.copy, v)
    ensures r.Ok? && Magnitude(v).value.magnitude != 0.0 ==>
              var len := Magnitude(v).value.magnitude;
              var c := r.value.copy;
              && c.x == v.x / len && c.y == v.y / len && c.z == v.z / len
              && c.unit == v.unit && c.normalized && c.cacheValid && c.magnitudeCache == 1.0
    ensures Coherent(v) && r.Ok? ==> Coherent(r.value.copy) && Coherent(r.value.receiver)
  {
    var m :- Magnitude(v);
    var len := m.magnitude;
    if len == 0.0 then
      Ok(Normalization(m.receiver, m.receiver))
    else
      FiniteQuotientIsDivision(v.x, len);
      FiniteQuotientIsDivision(v.y, len);
      FiniteQuotientIsDivision(v.z, len);
      var nx :- Div(v.x, len);
      var ny :- Div(v.y, len);
      var nz :- Div(v.z, len);
      Ok(Normalization(Vector3(nx, ny, nz, true, 1.0, true, v.unit), m.receiver))
  }

  /** In-place normalization; a no-op on the components at zero magnitude. */
  function Normalize(v: Vector3): (r: Result<Vector3>)
    ensures Magnitude(v).Err? ==> r == Err(Magnitude(v).error)
    ensures Magnitude(v).Ok? && Magnitude(v).value.magnitude == 0.0 ==> r.Ok?
    ensures Magnitude(v).Ok? && Magnitude(v).value.magnitude != 0.0 ==>
              var len := Magnitude(v).value.magnitude;
              (r.Ok? <==> FiniteQuotient(v.x, len) && FiniteQuotient(v.y, len) && FiniteQuotient(v.z, len))
              && (r.Err? ==> r.error == DivisionOverflow)
    ensures r.Ok? && Magnitude(v).value.magnitude == 0.0 ==>
              r.value == Magnitude(v).value.receiver && Equal(r.value, v) && r.value.normalized == v.normalized
    ensures r.Ok? && Magnitude(v).value.magnitude != 0.0 ==>
              var len := Magnitude(v).value.magnitude;
              && r.value.x == v.x / len && r.value.y == v.y / len && r.value.z == v.z / len
              && r.value.unit == v.unit && r.value.normalized && r.value.cacheValid && r.value.magnitudeCache == 1.0
    ensures Coherent(v) && r.Ok? ==> Coherent(r.value)
  {
    var m :- Magnitude(v);
    var w := m.receiver;
    var len := m.magnitude;
    if len == 0.0 then
      Ok(w)
    else
      FiniteQuotientIsDivision(v.x, len);
      FiniteQuotientIsDivision(v.y, len);
      FiniteQuotientIsDivision(v.z, len);
      var nx :- Div(w.x, len);
      var ny :- Div(w.y, len);
      var nz :- Div(w.z, len);
      Ok(w.(x := nx, y := ny, z := nz, normalized := true, magnitudeCache := 1.0, cacheValid := true))
  }

  // ---------------------------------------------------------------- products

  /** The dot product, summed left to right. It fails when a product or a partial sum
      is not finite; the terms may cancel, so the final sum alone does not decide it. */
  function Dot(a: Vector3, b: Vector3): (r: Result<Real>)
    ensures r.Ok? <==>
      && Mul(a.x, b.x).Ok? && Mul(a.y, b.y).Ok? && Mul(a.z, b.z).Ok?
      && IsFinite(Mul(a.x, b.x).value + Mul(a.y, b.y).value)
      && IsFinite(Mul(a.x, b.x).value + Mul(a.y, b.y).value + Mul(a.z, b.z).value)
    ensures r.Ok? ==> r.value == a.x * b.x + a.y * b.y + a.z * b.z
    ensures r.Err? ==> r.error == MultiplicationOverflow || r.error == AdditionOverflow
  {
    var xx :- Mul(a.x, b.x);
    var yy :- Mul(a.y, b.y);
    var xy :- Add(xx, yy);
    var zz :- Mul(a.z, b.z);
    Add(xy, zz)
  }

  /** p*q - r*s with each step checked: one component of a cross product. */
  function ProductDifference(p: Real, q: Real, r: Real, s: Real): (d: Result<Real>)
    ensures d.Ok? <==> IsFinite(p * q) && IsFinite(r * s) && IsFinite(p * q - r * s)
    ensures d.Ok? ==> d.value == p * q - r * s
    ensures d.Err? ==> d.error == MultiplicationOverflow || d.error == SubtractionOverflow
  {
    var pq :- Mul(p, q);
    var rs :- Mul(r, s);
    Sub(pq, rs)
  }

  /** The cross product: a freshly constructed vector whose tag follows the additive
      unit rule. */
  function Cross(a: Vector3, b: Vector3): (r: Result<Vector3>)
    ensures r.Ok? <==>
      && ProductDifference(a.y, b.z, a.z, b.y).Ok?
      && ProductDifference(a.z, b.x, a.x, b.z).Ok?
      && ProductDifference(a.x, b.y, a.y, b.x).Ok?
    ensures r.Ok? ==>
      && r.value.x == a.y * b.z - a.z * b.y
      && r.value.y == a.z * b.x - a.x * b.z
      && r.value.z == a.x * b.y - a.y * b.x
      && r.value.unit == CombineAdditiveUnits(a.unit, b.unit)
      && Invalidated(r.value)
    ensures r.Err? ==> r.error == MultiplicationOverflow || r.error == SubtractionOverflow
  {
    var cx :- ProductDifference(a.y, b.z, a.z, b.y);
    var cy :- ProductDifference(a.z, b.x, a.x, b.z);
    var cz :- ProductDifference(a.x, b.y, a.y, b.x);
    var c := FromReals(cx, cy, cz);
    assert c.x == a.y * b.z - a.z * b.y && c.y == a.z * b.x - a.x * b.z && c.z == a.x * b.y - a.y * b.x;
    Ok(c.(unit := CombineAdditiveUnits(a.unit, b.unit)))
  }

  // ---------------------------------------------------------------- compound operators

  /** The scalar operation a compound operator applies to each component. */
  datatype Arith = Sum | Difference | Product | Quotient

  function Apply(op: Arith, a: Real, b: Real): Result<Real> {
    match op
    case Sum => Add(a, b)
    case Difference => Sub(a, b)
    case Product => Mul(a, b)
    case Quotient => Div(a, b)
  }

  /** A compound operator (+=, -=, *=, /=) exactly as the source performs it: x, y and
      z are reassigned one after another, then the unit is set and the cache
      invalidated. A component whose operation fails stops the operator there, with
      the components before it already overwritten and the unit, cache and flag
      untouched. The right operands are the other vector's components for += and -=,
      and the scalar three times for *= and /=. */
  function CompoundAsWritten(v: Vector3, op: Arith, rx: Real, ry: Real, rz: Real, unit: string): (st: Step)
    ensures st.outcome.Pass? <==> Apply(op, v.x, rx).Ok? && Apply(op, v.y, ry).Ok? && Apply(op, v.z, rz).Ok?
    ensures st.outcome.Pass? ==>
      && st.receiver.x == Apply(op, v.x, rx).value
      && st.receiver.y == Apply(op, v.y, ry).value
      && st.receiver.z == Apply(op, v.z, rz).value
      && st.receiver.unit == unit
      && Invalidated(st.receiver)
    ensures st.outcome.Fail? ==>
      && st.receiver.(x := v.x, y := v.y) == v
      && (Apply(op, v.x, rx).Err? ==> st.receiver == v && st.outcome.error == Apply(op, v.x, rx).error)
    ensures Apply(op, v.x, rx).Ok? && Apply(op, v.y, ry).Err? ==>
      st == Step(v.(x := Apply(op, v.x, rx).value), Fail(Apply(op, v.y, ry).error))
    ensures Apply(op, v.x, rx).Ok? && Apply(op, v.y, ry).Ok? && Apply(op, v.z, rz).Err? ==>
      st == Step(v.(x := Apply(op, v.x, rx).value, y := Apply(op, v.y, ry).value), Fail(Apply(op, v.z, rz).error))
  {
    match Apply(op, v.x, rx)
    case Err(e) => Step(v, Fail(e))
    case Ok(nx) =>
      var v1 := v.(x := nx);
      match Apply(op, v.y, ry)
      case Err(e) => Step(v1, Fail(e))
      case Ok(ny) =>
        var v2 := v1.(y := ny);
        match Apply(op, v.z, rz)
        case Err(e) => Step(v2, Fail(e))
        case Ok(nz) => Step(InvalidateCache(v2.(z := nz, unit := unit)), Pass)
  }

  /** The value a binary operator returns after running the compound operator on its copy. */
  function Committed(st: Step): Result<Vector3> {
    match st.outcome
    case Pass => Ok(st.receiver)
    case Fail(e) => Err(e)
  }

  // ---------------------------------------------------------------- binary operators

  /** operator+: copies the receiver, applies += to the copy and returns it. */
  function Plus(a: Vector3, b: Vector3): (r: Result<Vector3>)
    ensures r.Ok? <==> IsFinite(a.x + b.x) && IsFinite(a.y + b.y) && IsFinite(a.z + b.z)
    ensures r.Ok? ==>
      && r.value.x == a.x + b.x && r.value.y == a.y + b.y && r.value.z == a.z + b.z
      && r.value.unit == CombineAdditiveUnits(a.unit, b.unit)
      && Invalidated(r.value)
    ensures r.Err? ==> r.error == AdditionOverflow
  {
    Committed(CompoundAsWritten(a, Sum, b.x, b.y, b.z, CombineAdditiveUnits(a.unit, b.unit)))
  }

  /** operator-: copies the receiver, applies -= to the copy and returns it. */
  function Minus(a: Vector3, b: Vector3): (r: Result<Vector3>)
    ensures r.Ok? <==> IsFinite(a.x - b.x) && IsFinite(a.y - b.y) && IsFinite(a.z - b.z)
    ensures r.Ok? ==>
      && r.value.x == a.x - b.x && r.value.y == a.y - b.y && r.value.z == a.z - b.z
      && r.value.unit == CombineAdditiveUnits(a.unit, b.unit)
      && Invalidated(r.value)
    ensures r.Err? ==> r.error == SubtractionOverflow
  {
    Committed(CompoundAsWritten(a, Difference, b.x, b.y, b.z, CombineAdditiveUnits(a.unit, b.unit)))
  }

  /** operator* with the scalar on the right: every component is the checked product
      with the scalar, and the unit is kept. */
  function Times(v: Vector3, s: Real): (r: Result<Vector3>)
    ensures r.Ok? <==> Mul(v.x, s).Ok? && Mul(v.y, s).Ok? && Mul(v.z, s).Ok?
    ensures r.Ok? ==>
      && r.value.x == Mul(v.x, s).value && r.value.y == Mul(v.y, s).value && r.value.z == Mul(v.z, s).value
      && r.value.unit == v.unit
      && Invalidated(r.value)
    ensures r.Err? ==> r.error == MultiplicationOverflow
  {
    Committed(CompoundAsWritten(v, Product, s, s, s, v.unit))
  }

  /** operator* with the scalar on the left, which forwards to the right-hand form. */
  function TimesLeft(s: Real, v: Vector3): (r: Result<Vector3>)
    ensures r.Ok? <==> Mul(s, v.x).Ok? && Mul(s, v.y).Ok? && Mul(s, v.z).Ok?
    ensures r.Ok? ==>
      && r.value.x == Mul(s, v.x).value && r.value.y == Mul(s, v.y).value && r.value.z == Mul(s, v.z).value
      && r.value.unit == v.unit
      && Invalidated(r.value)
  {
    var r := Times(v, s);
    assert Mul(v.x, s) == Mul(s, v.x);
    assert Mul(v.y, s) == Mul(s, v.y);
    assert Mul(v.z, s) == Mul(s, v.z);
    r
  }

  /** operator/: a zero scalar fails on the first component with DivisionByZero. */
  function Over(v: Vector3, s: Real): (r: Result<Vector3>)
    ensures s == 0.0 ==> r == Err(DivisionByZero)
    ensures s != 0.0 ==> (r.Ok? <==> IsFinite(v.x / s) && IsFinite(v.y / s) && IsFinite(v.z / s))
    ensures r.Ok? ==>
      && s != 0.0
      && r.value.x == v.x / s && r.value.y == v.y / s && r.value.z == v.z / s
      && r.value.unit == v.unit
      && Invalidated(r.value)
    ensures s != 0.0 && r.Err? ==> r.error == DivisionOverflow
  {
    Committed(CompoundAsWritten(v, Quotient, s, s, s, v.unit))
  }

  /** Unary minus: a copy scaled by -1, which cannot overflow. */
  function Negate(v: Vector3): (r: Result<Vector3>)
    ensures r.Ok?
    ensures r.value.x == -v.x && r.value.y == -v.y && r.value.z == -v.z
    ensures r.value.unit == v.unit && Invalidated(r.value)
  {
    Times(v, -1.0)
  }

  // ---------------------------------------------------------------- compound operators, all-or-nothing

  /** Commits a computed result to the receiver, or leaves the receiver as it was. */
  function Commit(v: Vector3, r: Result<Vector3>): Step {
    match r
    case Ok(w) => Step(w, Pass)
    case Err(e) => Step(v, Fail(e))
  }

  /** operator+= computing all three components before assigning any of them. */
  function AddAssign(v: Vector3, rhs: Vector3): (st: Step)
    ensures st.outcome.Pass? <==> Plus(v, rhs).Ok?
    ensures st.outcome.Pass? ==> st.receiver == Plus(v, rhs).value
    ensures st.outcome.Fail? ==> st.receiver == v && st.outcome.error == AdditionOverflow
    ensures Coherent(v) ==> Coherent(st.receiver)
  {
    Commit(v, Plus(v, rhs))
  }

  /** operator-= computing all three components before assigning any of them. */
  function SubAssign(v: Vector3, rhs: Vector3): (st: Step)
    ensures st.outcome.Pass? <==> Minus(v, rhs).Ok?
    ensures st.outcome.Pass? ==> st.receiver == Minus(v, rhs).value
    ensures st.outcome.Fail? ==> st.receiver == v && st.outcome.error == SubtractionOverflow
    ensures Coherent(v) ==> Coherent(st.receiver)
  {
    Commit(v, Minus(v, rhs))
  }

  /** operator*= computing all three components before assigning any of them. */
  function ScaleAssign(v: Vector3, s: Real): (st: Step)
    ensures st.outcome.Pass? <==> Times(v, s).Ok?
    ensures st.outcome.Pass? ==> st.receiver == Times(v, s).value
    ensures st.outcome.Fail? ==> st.receiver == v && st.outcome.error == MultiplicationOverflow
    ensures Coherent(v) ==> Coherent(st.receiver)
  {
    Commit(v, Times(v, s))
  }

  /** operator/= computing all three components before assigning any of them. */
  function DivAssign(v: Vector3, s: Real): (st: Step)
    ensures st.outcome.Pass? <==> Over(v, s).Ok?
    ensures st.outcome.Pass? ==> st.receiver == Over(v, s).value
    ensures st.outcome.Fail? ==> st.receiver == v
    ensures s == 0.0 ==> st.outcome == Fail(DivisionByZero)
    ensures s != 0.0 && st.outcome.Fail? ==> st.outcome.error == DivisionOverflow
    ensures Coherent(v) ==> Coherent(st.receiver)
  {
    Commit(v, Over(v, s))
  }
}
