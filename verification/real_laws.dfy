/** Properties relating the operations of the scalar type to each other. */
module RealLaws {
  import opened Results
  import opened Reals

  /** Reading a Real's value and constructing from it again gives the same Real. */
  lemma ValueRoundTrip(a: Real)
    ensures FromDouble(Number(a)) == Ok(a)
  {
  }

  /** NaN and the infinities are always refused. */
  lemma NonFiniteRefused()
    ensures FromDouble(NaN) == Err(NotFinite)
    ensures FromDouble(PositiveInfinity) == Err(NotFinite)
    ensures FromDouble(NegativeInfinity) == Err(NotFinite)
  {
  }

  /** The default value and zero() are the additive identity and one() the
      multiplicative identity; none of these operations can fail. */
  lemma IdentityElements(a: Real)
    ensures Default() == Zero()
    ensures Add(a, Zero()) == Ok(a) && Sub(a, Zero()) == Ok(a)
    ensures Mul(a, One()) == Ok(a) && Div(a, One()) == Ok(a)
    ensures Mul(a, Zero()) == Ok(Zero())
    ensures Div(a, Zero()) == Err(DivisionByZero)
  {
  }

  /** Sums and products do not depend on the order of the operands. */
  lemma Commutative(a: Real, b: Real)
    ensures Add(a, b) == Add(b, a)
    ensures Mul(a, b) == Mul(b, a)
  {
  }

  /** Subtraction succeeds exactly when adding the negated subtrahend does, with the same value. */
  lemma SubtractIsAddNegated(a: Real, b: Real)
    ensures Sub(a, b).Ok? <==> Add(a, -b).Ok?
    ensures Sub(a, b).Ok? ==> Sub(a, b).value == Add(a, -b).value
  {
  }

  /** Dividing a successful product by its non-zero factor gives the other factor back. */
  lemma DivUndoesMul(a: Real, b: Real)
    requires b != 0.0 && Mul(a, b).Ok?
    ensures Div(Mul(a, b).value, b) == Ok(a)
  {
    Cancel(a, b);
  }

  /** Over the exact reals, dividing a product by a non-zero factor cancels it. */
  lemma Cancel(a: real, b: real)
    requires b != 0.0
    ensures a * b / b == a
  {
    var q := a * b / b;
    assert q * b == a * b;
    assert (q - a) * b == 0.0;
  }

  /** Over the exact reals, multiplying a quotient by its non-zero divisor restores the dividend. */
  lemma Restore(a: real, b: real)
    requires b != 0.0
    ensures a / b * b == a
  {
  }

  /** Multiplying a successful quotient by its divisor gives the dividend back. */
  lemma MulUndoesDiv(a: Real, b: Real)
    requires Div(a, b).Ok?
    ensures Mul(Div(a, b).value, b) == Ok(a)
  {
    var q := Div(a, b).value;
    Restore(a, b);
    assert q * b == a;
    assert IsFinite(q * b);
    assert Mul(q, b).value == a;
  }

  /** The comparison operators are exact and mutually consistent: != negates ==,
      > and >= are the converses of < and <=, <= is < or ==, and exactly one of
      <, ==, > holds. */
  lemma ComparisonsAreExact(a: Real, b: Real)
    ensures Eq(a, b) <==> a == b
    ensures Ne(a, b) <==> !Eq(a, b)
    ensures Gt(a, b) <==> Lt(b, a)
    ensures Ge(a, b) <==> Le(b, a)
    ensures Le(a, b) <==> Lt(a, b) || Eq(a, b)
    ensures (Lt(a, b) && !Eq(a, b) && !Gt(a, b)) || (!Lt(a, b) && Eq(a, b) && !Gt(a, b)) || (!Lt(a, b) && !Eq(a, b) && Gt(a, b))
  {
  }

  /** No tolerance is applied: one() and one() + epsilon() compare unequal. */
  lemma NoTolerance()
    ensures 0.0 < Epsilon() < One()
    ensures Add(One(), Epsilon()).Ok?
    ensures Ne(Add(One(), Epsilon()).value, One())
    ensures Lt(One(), Add(One(), Epsilon()).value)
  {
  }

  /** The overflow scenario: 1e308 is a finite Real, but 1e308 + 1e308 is not. */
  lemma AdditionOverflows()
    ensures IsFinite(1.0e308) && !IsFinite(1.0e308 + 1.0e308)
    ensures Add(1.0e308, 1.0e308) == Err(AdditionOverflow)
  {
    MaxFiniteValue();
  }
}
