/** Properties of the 3D vector that relate several operations: construction, the
    unit rule, cache coherence and memoisation, normalization, equality, the
    algebra of the products and operators, and the partial-update defect of the
    compound operators. */
module Vector3Laws {
  import opened Results
  import opened Reals
  import Roots
  import opened Vectors3

  // ---------------------------------------------------------------- construction

  /** The default constructor gives the zero vector, and the three-component one the
      given components; both are dimensionless, with an invalid cache, not normalized. */
  lemma Construction(a: Real, b: Real, c: Real)
    ensures DefaultVector() == FromReals(0.0, 0.0, 0.0)
    ensures var v := FromReals(a, b, c);
      v.x == a && v.y == b && v.z == c && v.unit == Dimensionless && Invalidated(v) && Coherent(v)
  {
  }

  /** The zero vector's squared magnitude is zero. */
  lemma ZeroMagnitudeSquared()
    ensures MagnitudeSquared(DefaultVector()) == Ok(0.0)
  {
  }

  /** The zero vector's magnitude is zero, and Magnitude caches it. */
  lemma ZeroMagnitude()
    ensures Magnitude(DefaultVector()) == Ok(Measured(0.0, DefaultVector().(cacheValid := true)))
  {
  }

  // ---------------------------------------------------------------- units

  /** The additive unit rule is idempotent, commutative and associative, and MixedUnits
      absorbs every other tag; so the tag of a chain of sums depends neither on the
      order nor on the grouping of its terms. */
  lemma UnitAlgebra(a: string, b: string, c: string)
    ensures CombineAdditiveUnits(a, a) == a
    ensures CombineAdditiveUnits(a, b) == CombineAdditiveUnits(b, a)
    ensures CombineAdditiveUnits(CombineAdditiveUnits(a, b), c) == CombineAdditiveUnits(a, CombineAdditiveUnits(b, c))
    ensures CombineAdditiveUnits(a, MixedUnits) == MixedUnits
    ensures CombineAdditiveUnits(a, b) == a <==> a == b || a == MixedUnits
  {
  }

  /** Adding two vectors tagged "m" gives "m"; adding "m" and "s" gives "mixed units". */
  lemma UnitExamples()
    ensures var m := SetUnit(FromReals(1.0, 0.0, 0.0), "m");
            var s := SetUnit(FromReals(0.0, 1.0, 0.0), "s");
            && Plus(m, m).Ok? && Plus(m, m).value.unit == "m"
            && Plus(m, s).Ok? && Plus(m, s).value.unit == "mixed units"
            && Cross(m, s).Ok? && Cross(m, s).value.unit == "mixed units"
  {
  }

  // ---------------------------------------------------------------- cache coherence

  /** Every operation keeps a coherent vector coherent. */
  lemma OperationsPreserveCoherence(v: Vector3, w: Vector3, a: Real, b: Real, c: Real, u: string)
    requires Coherent(v)
    ensures Coherent(SetX(v, a)) && Coherent(SetY(v, a)) && Coherent(SetZ(v, a))
    ensures Coherent(SetComponents(v, a, b, c)) && Coherent(SetUnit(v, u))
    ensures Magnitude(v).Ok? ==> Coherent(Magnitude(v).value.receiver)
    ensures Plus(v, w).Ok? ==> Coherent(Plus(v, w).value)
    ensures Minus(v, w).Ok? ==> Coherent(Minus(v, w).value)
    ensures Times(v, a).Ok? ==> Coherent(Times(v, a).value)
    ensures Over(v, a).Ok? ==> Coherent(Over(v, a).value)
    ensures Cross(v, w).Ok? ==> Coherent(Cross(v, w).value)
    ensures Coherent(Negate(v).value)
  {
  }

  /** After any mutation the next Magnitude recomputes from the current components
      and the vector does not read as normalized. */
  lemma MutationForcesRecompute(w: Vector3)
    requires Invalidated(w)
    ensures !w.normalized
    ensures Magnitude(w).Ok? <==> MagnitudeSquared(w).Ok?
    ensures Magnitude(w).Ok? ==> Magnitude(w).value.magnitude == Roots.Sqrt(MagnitudeSquared(w).value)
  {
  }

  /** A second Magnitude returns the stored value and changes nothing. */
  lemma MagnitudeIsMemoised(v: Vector3)
    requires Magnitude(v).Ok?
    ensures var m := Magnitude(v).value;
            Magnitude(m.receiver) == Ok(Measured(m.magnitude, m.receiver))
  {
  }

  /** On a coherent vector not marked normalized, Magnitude never returns a stale
      value: cached or not, it is the square root of the current squared magnitude. */
  lemma MagnitudeNeverStale(v: Vector3)
    requires Coherent(v) && !v.normalized && Magnitude(v).Ok?
    ensures MagnitudeSquared(v).Ok?
    ensures MagnitudeSquared(v).value == v.x * v.x + v.y * v.y + v.z * v.z
    ensures Magnitude(v).value.magnitude == Roots.Sqrt(MagnitudeSquared(v).value)
  {
    assert MagnitudeSquared(v).Ok?;
    SquaredMagnitudeValue(v);
  }

  /** The value MagnitudeSquared computes, as a fact a caller can cite. */
  lemma SquaredMagnitudeValue(v: Vector3)
    requires MagnitudeSquared(v).Ok?
    ensures MagnitudeSquared(v).value == v.x * v.x + v.y * v.y + v.z * v.z
  {
  }

  // ---------------------------------------------------------------- normalization

  /** A number whose square is at most len * len lies in [-len, len]. */
  lemma WithinRoot(a: real, len: real)
    requires 0.0 < len && a * a <= len * len
    ensures -len <= a <= len
  {
    if a < -len || len < a {
      OutsideRoot(a, len);
      assert false;
    }
  }

  /** A number outside [-len, len] has a square above len * len. */
  lemma OutsideRoot(a: real, len: real)
    requires 0.0 < len && (a < -len || len < a)
    ensures len * len < a * a
  {
    if len < a {
      Roots.PositiveProduct(a - len, a + len);
      assert a * a - len * len == (a - len) * (a + len);
    } else {
      Roots.PositiveProduct(len - a, -len - a);
      assert a * a - len * len == (len - a) * (-len - a);
    }
  }

  /** A component divided by a magnitude whose square bounds its own square lies in [-1, 1]. */
  lemma QuotientWithinOne(a: real, len: real, s: real)
    requires 0.0 < len && a * a <= s <= len * len
    ensures -1.0 <= a / len <= 1.0
  {
    WithinRoot(a, len);
    var q := a / len;
    assert (1.0 - q) * len == len - a;
    assert (1.0 + q) * len == len + a;
  }

  /** Dividing each component by a length whose square bounds the squared magnitude
      gives finite quotients. */
  lemma QuotientsFinite(x: real, y: real, z: real, s: real, len: real)
    requires s == x * x + y * y + z * z && 0.0 < len && s <= len * len
    ensures IsFinite(x / len) && IsFinite(y / len) && IsFinite(z / len)
  {
    SquaresNonNegative(x, y, z);
    QuotientWithinOne(x, len, s);
    QuotientWithinOne(y, len, s);
    QuotientWithinOne(z, len, s);
  }

  /** The squared length of the vector (x, y, z), computed exactly. */
  function SumOfSquares(x: real, y: real, z: real): real {
    x * x + y * y + z * z
  }

  /** A vector's components divided by the root of its squared magnitude are finite. */
  lemma ComponentsWithinMagnitude(x: real, y: real, z: real, s: real, len: real)
    requires s == SumOfSquares(x, y, z) && len == Roots.Sqrt(s) && len != 0.0
    ensures IsFinite(x / len) && IsFinite(y / len) && IsFinite(z / len)
  {
    assert 0.0 < len && s <= len * len by {
      Roots.SqrtCovers(s);
    }
    QuotientsFinite(x, y, z, s, len);
  }

  /** Normalizing a coherent vector fails only when its magnitude cannot be computed:
      the divisions by the magnitude never overflow. */
  lemma NormalizationCannotOverflow(v: Vector3)
    requires Coherent(v)
    ensures Normalized(v).Ok? <==> Magnitude(v).Ok?
    ensures Normalize(v).Ok? <==> Magnitude(v).Ok?
  {
    if !v.normalized && Magnitude(v).Ok? && Magnitude(v).value.magnitude != 0.0 {
      MagnitudeNeverStale(v);
      var s := MagnitudeSquared(v).value;
      var len := Magnitude(v).value.magnitude;
      assert s == SumOfSquares(v.x, v.y, v.z) && len == Roots.Sqrt(s);
      ComponentsWithinMagnitude(v.x, v.y, v.z, s, len);
      FiniteQuotientIsDivision(v.x, len);
      FiniteQuotientIsDivision(v.y, len);
      FiniteQuotientIsDivision(v.z, len);
    }
  }

  /** A normalized copy reads as normalized and its Magnitude is one, from the cache. */
  lemma NormalizedMagnitudeIsOne(v: Vector3)
    requires Normalized(v).Ok? && Magnitude(v).value.magnitude != 0.0
    ensures var u := Normalized(v).value.copy;
            u.normalized && Magnitude(u) == Ok(Measured(1.0, u))
  {
  }

  /** Normalizing a normalized copy again gives the same vector. */
  lemma NormalizedIsIdempotent(v: Vector3)
    requires Normalized(v).Ok? && Magnitude(v).value.magnitude != 0.0
    ensures var u := Normalized(v).value.copy;
            Normalized(u) == Ok(Normalization(u, u)) && Normalize(u) == Ok(u)
  {
  }

  /** In-place normalization leaves the receiver equal to the copy Normalized returns. */
  lemma NormalizeAgreesWithNormalized(v: Vector3)
    ensures Normalize(v).Ok? <==> Normalized(v).Ok?
    ensures Normalize(v).Ok? ==> Normalize(v).value == Normalized(v).value.copy
    ensures Normalize(v).Err? ==> Normalize(v).error == Normalized(v).error
  {
  }

  /** Normalizing the zero vector is a no-op copy, not an error: the copy equals the
      original and is not marked normalized. */
  lemma ZeroVectorNormalization()
    ensures var w := DefaultVector().(cacheValid := true);
      && Normalized(DefaultVector()) == Ok(Normalization(w, w))
      && Normalize(DefaultVector()) == Ok(w)
      && Equal(w, DefaultVector()) && !w.normalized
  {
    var v := DefaultVector();
    var w := v.(cacheValid := true);
    ZeroMagnitude();
    assert Magnitude(v).Ok? && Magnitude(v).value.magnitude == 0.0;
    assert Magnitude(v).value.receiver == w;
    var n := Normalized(v);
    assert n.Ok? && n.value.receiver == w && n.value.copy == n.value.receiver;
    assert Normalize(v) == Ok(w);
  }

  // ---------------------------------------------------------------- equality

  /** Equality is an equivalence, != is its negation, and it ignores the cache and
      the normalized flag but not the unit tag. */
  lemma EqualityLaws(a: Vector3, b: Vector3, c: Vector3, n: bool, m: Real, valid: bool, u: string)
    ensures Equal(a, a)
    ensures Equal(a, b) ==> Equal(b, a)
    ensures Equal(a, b) && Equal(b, c) ==> Equal(a, c)
    ensures NotEqual(a, b) <==> !Equal(a, b)
    ensures Equal(a, a.(normalized := n, magnitudeCache := m, cacheValid := valid))
    ensures Equal(a, SetUnit(a, u)) <==> u == a.unit
  {
  }

  // ---------------------------------------------------------------- products

  lemma DotSymmetric(a: Vector3, b: Vector3)
    ensures Dot(a, b) == Dot(b, a)
  {
    assert a.x * b.x == b.x * a.x && a.y * b.y == b.y * a.y && a.z * b.z == b.z * a.z;
  }

  /** The dot product of a vector with itself is its squared magnitude, failure included. */
  lemma DotSelfIsMagnitudeSquared(v: Vector3)
    ensures Dot(v, v) == MagnitudeSquared(v)
  {
  }

  /** Swapping the operands of the cross product negates it and keeps its tag. */
  lemma CrossAntiCommutes(a: Vector3, b: Vector3)
    ensures Cross(a, b).Ok? <==> Cross(b, a).Ok?
    ensures Cross(a, b).Ok? ==>
      var p, q := Cross(a, b).value, Cross(b, a).value;
      p.x == -q.x && p.y == -q.y && p.z == -q.z && p.unit == q.unit
  {
    assert b.y * a.z == a.z * b.y && b.z * a.y == a.y * b.z;
    assert b.z * a.x == a.x * b.z && b.x * a.z == a.z * b.x;
    assert b.x * a.y == a.y * b.x && b.y * a.x == a.x * b.y;
  }

  /** The cross product of a vector with itself is the zero vector with its tag. */
  lemma CrossSelfIsZero(v: Vector3)
    requires Cross(v, v).Ok?
    ensures Cross(v, v).value == FromReals(0.0, 0.0, 0.0).(unit := v.unit)
  {
    assert v.y * v.z == v.z * v.y && v.z * v.x == v.x * v.z && v.x * v.y == v.y * v.x;
  }

  /** The cross product of (a1, a2, a3) and (b1, b2, b3), written out, is orthogonal
      to both, as an identity on reals. */
  lemma CrossTermsOrthogonal(a1: real, a2: real, a3: real, b1: real, b2: real, b3: real,
                             c1: real, c2: real, c3: real)
    requires c1 == a2 * b3 - a3 * b2 && c2 == a3 * b1 - a1 * b3 && c3 == a1 * b2 - a2 * b1
    ensures c1 * a1 + c2 * a2 + c3 * a3 == 0.0
    ensures c1 * b1 + c2 * b2 + c3 * b3 == 0.0
  {
    assert c1 * a1 == a2 * b3 * a1 - a3 * b2 * a1;
    assert c2 * a2 == a3 * b1 * a2 - a1 * b3 * a2;
    assert c3 * a3 == a1 * b2 * a3 - a2 * b1 * a3;
    assert c1 * b1 == a2 * b3 * b1 - a3 * b2 * b1;
    assert c2 * b2 == a3 * b1 * b2 - a1 * b3 * b2;
    assert c3 * b3 == a1 * b2 * b3 - a2 * b1 * b3;
  }

  /** A dot product whose exact value is zero computes zero whenever it succeeds. */
  lemma DotOfZeroSum(u: Vector3, w: Vector3)
    requires u.x * w.x + u.y * w.y + u.z * w.z == 0.0
    ensures Dot(u, w).Ok? ==> Dot(u, w).value == 0.0
  {
  }

  /** A vector whose components are the cross terms of a and b has zero dot product
      with both, whenever that dot product can be computed. */
  lemma DotsWithCrossTerms(a: Vector3, b: Vector3, c: Vector3)
    requires c.x == a.y * b.z - a.z * b.y && c.y == a.z * b.x - a.x * b.z && c.z == a.x * b.y - a.y * b.x
    ensures Dot(c, a).Ok? ==> Dot(c, a).value == 0.0
    ensures Dot(c, b).Ok? ==> Dot(c, b).value == 0.0
  {
    CrossTermsOrthogonal(a.x, a.y, a.z, b.x, b.y, b.z, c.x, c.y, c.z);
    DotOfZeroSum(c, a);
    DotOfZeroSum(c, b);
  }

  /** The cross product is orthogonal to both operands whenever the dot product
      with it can be computed. */
  lemma CrossIsOrthogonal(a: Vector3, b: Vector3)
    requires Cross(a, b).Ok?
    ensures Dot(Cross(a, b).value, a).Ok? ==> Dot(Cross(a, b).value, a).value == 0.0
    ensures Dot(Cross(a, b).value, b).Ok? ==> Dot(Cross(a, b).value, b).value == 0.0
  {
    DotsWithCrossTerms(a, b, Cross(a, b).value);
  }

  /** For a = (1,0,0) and b = (0,1,0), a·b = 0. */
  lemma DotExample()
    ensures Dot(FromReals(1.0, 0.0, 0.0), FromReals(0.0, 1.0, 0.0)) == Ok(0.0)
  {
  }

  /** For a = (1,0,0) and b = (0,1,0), a×b = (0,0,1). */
  lemma CrossExample()
    ensures Cross(FromReals(1.0, 0.0, 0.0), FromReals(0.0, 1.0, 0.0)) == Ok(FromReals(0.0, 0.0, 1.0))
  {
  }

  /** The squared magnitude of (3,4,0) is 25. */
  lemma MagnitudeSquaredExample()
    ensures MagnitudeSquared(FromReals(3.0, 4.0, 0.0)) == Ok(25.0)
  {
  }

  // ---------------------------------------------------------------- operators

  lemma PlusCommutes(a: Vector3, b: Vector3)
    ensures Plus(a, b) == Plus(b, a)
  {
  }

  /** Subtracting a vector from itself gives the zero vector with its tag. */
  lemma MinusSelf(v: Vector3)
    ensures Minus(v, v) == Ok(FromReals(0.0, 0.0, 0.0).(unit := v.unit))
  {
  }

  /** a - b is a + (-b), failure included. */
  lemma MinusIsPlusNegation(a: Vector3, b: Vector3)
    ensures Minus(a, b).Ok? <==> Plus(a, Negate(b).value).Ok?
    ensures Minus(a, b).Ok? ==> Minus(a, b) == Plus(a, Negate(b).value)
  {
  }

  /** Negating twice gives the original quantity back, with its cache invalidated. */
  lemma NegateTwice(v: Vector3)
    ensures Negate(Negate(v).value) == Ok(InvalidateCache(v))
  {
  }

  /** s * v and v * s are the same vector. */
  lemma ScalarMultiplicationCommutes(s: Real, v: Vector3)
    ensures TimesLeft(s, v) == Times(v, s)
  {
  }

  /** Dividing a vector by zero always fails through the scalar division, and the
      in-place form leaves the receiver unchanged. */
  lemma DivideByZeroFails(v: Vector3)
    ensures Over(v, 0.0) == Err(DivisionByZero)
    ensures DivAssign(v, 0.0) == Step(v, Fail(DivisionByZero))
  {
  }

  // ---------------------------------------------------------------- partial updates

  /** The source's compound operators, when they fail part-way, leave a stale cache:
      take (1, 2, 0), read its magnitude, then scale it in place by the largest finite
      value. x becomes MaxFinite, y overflows, and the operator stops before
      InvalidateCache, so the receiver claims a valid cached magnitude of sqrt(5)
      for components whose squared magnitude is not even finite. */
  lemma PartialScaleLeavesStaleCache()
    ensures var v := Magnitude(FromReals(1.0, 2.0, 0.0)).value.receiver;
            var st := CompoundAsWritten(v, Product, MaxFinite, MaxFinite, MaxFinite, v.unit);
            && Coherent(v)
            && st.outcome == Fail(MultiplicationOverflow)
            && st.receiver.x == MaxFinite && st.receiver.y == 2.0
            && st.receiver.cacheValid
            && !Coherent(st.receiver)
  {
    var v := Magnitude(FromReals(1.0, 2.0, 0.0)).value.receiver;
    assert MagnitudeSquared(v) == Ok(5.0);
    ScaleByLargest(v);
  }

  /** Scaling (1, 2, 0) in place by MaxFinite: x becomes MaxFinite, y overflows, and
      the components left behind have no finite squared magnitude, so a valid
      cache cannot be coherent with them. */
  lemma ScaleByLargest(v: Vector3)
    requires v.x == 1.0 && v.y == 2.0 && v.z == 0.0 && v.cacheValid && !v.normalized
    ensures var st := CompoundAsWritten(v, Product, MaxFinite, MaxFinite, MaxFinite, v.unit);
            st.outcome == Fail(MultiplicationOverflow) && st.receiver == v.(x := MaxFinite)
            && !Coherent(st.receiver)
  {
    assert Mul(2.0, MaxFinite).Err?;
    var w := v.(x := MaxFinite);
    assert !IsFinite(w.x * w.x + w.y * w.y + w.z * w.z) by {
      Roots.SquareExceeds(MaxFinite);
    }
  }

  /** The all-or-nothing compound operators agree with the source whenever the source
      completes, report the same error when it does not, and then keep the receiver. */
  lemma AllOrNothingAgreesWithSource(v: Vector3, w: Vector3, s: Real)
    ensures var src := CompoundAsWritten(v, Sum, w.x, w.y, w.z, CombineAdditiveUnits(v.unit, w.unit));
            AddAssign(v, w).outcome == src.outcome && (src.outcome.Pass? ==> AddAssign(v, w) == src)
    ensures var src := CompoundAsWritten(v, Difference, w.x, w.y, w.z, CombineAdditiveUnits(v.unit, w.unit));
            SubAssign(v, w).outcome == src.outcome && (src.outcome.Pass? ==> SubAssign(v, w) == src)
    ensures var src := CompoundAsWritten(v, Product, s, s, s, v.unit);
            ScaleAssign(v, s).outcome == src.outcome && (src.outcome.Pass? ==> ScaleAssign(v, s) == src)
    ensures var src := CompoundAsWritten(v, Quotient, s, s, s, v.unit);
            DivAssign(v, s).outcome == src.outcome && (src.outcome.Pass? ==> DivAssign(v, s) == src)
  {
  }
}
