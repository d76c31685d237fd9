/** The finite-checked scalar of include/kalon/Real.hpp. A Real is a real number
    inside the finite range of an IEEE-754 double; every operation that could leave
    that range reports a domain error instead. Rounding is not modelled: an
    operation computes the exact real result, and "non-finite" means "outside
    [-MaxFinite, MaxFinite]". */
module Reals {
  import opened Results

  /** The largest finite binary64 value, DBL_MAX = (2^53 - 1) * 2^971, that is
      (2 - 2^-52) * 2^1023: the largest significand at the largest exponent. It is
      built by doubling rather than written as its 309 digits, so that a proof about
      arbitrary values does not drag the digits along; MaxFiniteValue gives the
      digits to the proofs that need them. */
  const MaxFinite: real := Scale(LargestSignificand, MaxExponent + 1 - SignificandBits)

  /** 2^53 - 1: every bit of a binary64 significand set, the hidden bit included. */
  const LargestSignificand: real := 9007199254740991.0

  /** Bits in a binary64 significand, the hidden bit included. */
  const SignificandBits: nat := 53

  /** The largest binary64 exponent. */
  const MaxExponent: nat := 1023

  /** m doubled e times. */
  function Scale(m: real, e: nat): (r: real)
    ensures 0.0 <= m ==> m <= r
    decreases e
  {
    if e == 0 then m else 2.0 * Scale(m, e - 1)
  }

  /** Doubling e times multiplies by 2^e. */
  lemma {:induction false} ScaleIsPower(m: real, e: nat)
    ensures Scale(m, e) == m * Pow2(e)
    decreases e
  {
    if e > 0 {
      ScaleIsPower(m, e - 1);
      assert Pow2(e) == 2.0 * Pow2(e - 1);
    }
  }

  /** 2^n as a real number. */
  function Pow2(n: nat): (p: real)
    ensures 1.0 <= p
  {
    if n == 0 then 1.0 else 2.0 * Pow2(n - 1)
  }

  /** Powers of two multiply by adding exponents. */
  lemma {:induction false} Pow2Adds(m: nat, n: nat)
    ensures Pow2(m + n) == Pow2(m) * Pow2(n)
    decreases m
  {
    if m > 0 {
      Pow2Adds(m - 1, n);
      assert Pow2(m + n) == 2.0 * Pow2(m - 1 + n);
    }
  }

  lemma PowerOf160()
    ensures Pow2(160) == 1461501637330902918203684832716283019655932542976.0
  {
    assert Pow2(10) == 1024.0;
    assert Pow2(20) == 1048576.0 by { Pow2Adds(10, 10); }
    assert Pow2(40) == 1099511627776.0 by { Pow2Adds(20, 20); }
    assert Pow2(80) == 1208925819614629174706176.0 by { Pow2Adds(40, 40); }
    Pow2Adds(80, 80);
  }

  lemma PowerOf640()
    ensures Pow2(640) == 4562440617622195218641171605700291324893228507248559930579192517899275167208677386505912811317371399778642309573594407310688704721375437998252661319722214188251994674360264950082874192246603776.0
  {
    PowerOf160();
    assert Pow2(320) == 2135987035920910082395021706169552114602704522356652769947041607822219725780640550022962086936576.0 by { Pow2Adds(160, 160); }
    Pow2Adds(320, 320);
  }

  lemma PowerOf960()
    ensures Pow2(960) == 9745314011399999080353382387875188310876226857595007526867906457212948690766426102465615065882010259225304916231408668183459169865203094046577987296312653419531277699956473029870789655490053648352799593479218378873685597925394874945746363615468965612827738803104277547081828589991914110976.0
  {
    PowerOf640();
    assert Pow2(320) == 2135987035920910082395021706169552114602704522356652769947041607822219725780640550022962086936576.0 by { PowerOf160(); Pow2Adds(160, 160); }
    Pow2Adds(640, 320);
  }

  /** 2^971 = 2^960 * 2^10 * 2. */
  lemma PowerOf971()
    ensures Pow2(971) == 19958403095347198116563727130368385660674512604354575415025472424372118918689640657849579654926357010893424468441924952439724379883935936607391717982848314203200056729510856765175377214443629871826533567445439239933308104551208703888888552684480441575071209068757560416423584952303440099278848.0
  {
    PowerOf960();
    assert Pow2(10) == 1024.0;
    assert Pow2(970) == 9979201547673599058281863565184192830337256302177287707512736212186059459344820328924789827463178505446712234220962476219862189941967968303695858991424157101600028364755428382587688607221814935913266783722719619966654052275604351944444276342240220787535604534378780208211792476151720049639424.0 by { Pow2Adds(960, 10); }
    Pow2Adds(970, 1);
  }

  /** The digits of DBL_MAX. */
  lemma MaxFiniteValue()
    ensures MaxFinite == 179769313486231570814527423731704356798070567525844996598917476803157260780028538760589558632766878171540458953514382464234321326889464182768467546703537516986049910576551282076245490090389328944075868508455133942304583236903222948165808559332123348274797826204144723168738177180919299881250404026184124858368.0
  {
    ScaleIsPower(LargestSignificand, 971);
    PowerOf971();
  }

  /** std::isfinite on a value that rounding has not changed. */
  predicate IsFinite(v: real) {
    -MaxFinite <= v <= MaxFinite
  }

  /** The stored value of a Real is always finite. */
  type Real = v: real | -MaxFinite <= v <= MaxFinite

  /** A double as handed to the converting constructor: a number, an infinity or NaN.
      A Number whose magnitude exceeds MaxFinite stands for a value that overflowed
      on its way to a double. */
  datatype Double = Number(v: real) | PositiveInfinity | NegativeInfinity | NaN

  /** The converting constructor: accepts exactly the finite values and stores them unchanged. */
  function FromDouble(d: Double): (r: Result<Real>)
    ensures r.Ok? <==> d.Number? && IsFinite(d.v)
    ensures r.Ok? ==> r.value == d.v
    ensures r.Err? ==> r.error == NotFinite
  {
    match d
    case Number(v) => if IsFinite(v) then Ok(v) else Err(NotFinite)
    case _ => Err(NotFinite)
  }

  /** The default constructor: the same value as zero(). */
  function Default(): (r: Real)
    ensures r == Zero()
  {
    0.0
  }

  /** zero(): the additive identity, which annihilates every product. */
  function Zero(): (r: Real)
    ensures forall a: Real :: Add(a, r) == Ok(a) && Mul(a, r) == Ok(r)
  {
    0.0
  }

  /** one(): the multiplicative identity. */
  function One(): (r: Real)
    ensures forall a: Real :: Mul(a, r) == Ok(a) && Div(a, r) == Ok(a)
  {
    1.0
  }

  /** Machine epsilon of binary64, 2^-52: positive, yet large enough that one() plus
      it is a different number. */
  function Epsilon(): (r: Real)
    ensures 0.0 < r < One() && One() < One() + r
    ensures r * 4503599627370496.0 == 1.0
  {
    1.0 / 4503599627370496.0
  }

  /** Turns an exact result into a Real, or into the given error when it is not finite. */
  function Checked(v: real, e: DomainError): (r: Result<Real>)
    ensures r.Ok? <==> IsFinite(v)
    ensures r.Ok? ==> r.value == v
    ensures r.Err? ==> r.error == e
  {
    if IsFinite(v) then Ok(v) else Err(e)
  }

  function Add(a: Real, b: Real): (r: Result<Real>)
    ensures r.Ok? <==> IsFinite(a + b)
    ensures r.Ok? ==> r.value == a + b
    ensures r.Err? ==> r.error == AdditionOverflow
  {
    Checked(a + b, AdditionOverflow)
  }

  function Sub(a: Real, b: Real): (r: Result<Real>)
    ensures r.Ok? <==> IsFinite(a - b)
    ensures r.Ok? ==> r.value == a - b
    ensures r.Err? ==> r.error == SubtractionOverflow
  {
    Checked(a - b, SubtractionOverflow)
  }

  function Mul(a: Real, b: Real): (r: Result<Real>)
    ensures r.Ok? <==> IsFinite(a * b)
    ensures r.Ok? ==> r.value == a * b
    ensures r.Err? ==> r.error == MultiplicationOverflow
  {
    Checked(a * b, MultiplicationOverflow)
  }

  /** Division tests the divisor for zero before it looks at the quotient, so a zero
      divisor fails with DivisionByZero whatever the dividend. */
  function Div(a: Real, b: Real): (r: Result<Real>)
    ensures b == 0.0 ==> r == Err(DivisionByZero)
    ensures b != 0.0 ==> (r.Ok? <==> IsFinite(a / b))
    ensures r.Ok? ==> b != 0.0 && r.value == a / b
    ensures b != 0.0 && r.Err? ==> r.error == DivisionOverflow
  {
    if b == 0.0 then Err(DivisionByZero) else Checked(a / b, DivisionOverflow)
  }

  /** a / b is finite, stated without the division: a lies between -MaxFinite * b
      and MaxFinite * b (in either order, as b is positive or negative). */
  predicate FiniteQuotient(a: real, b: real) {
    if 0.0 < b then -MaxFinite * b <= a <= MaxFinite * b
    else MaxFinite * b <= a <= -MaxFinite * b
  }

  /** FiniteQuotient is the finiteness of the quotient for every non-zero divisor. */
  lemma FiniteQuotientIsDivision(a: real, b: real)
    requires b != 0.0
    ensures FiniteQuotient(a, b) <==> IsFinite(a / b)
  {
    var q := a / b;
    assert a == q * b;
    if 0.0 < b {
      assert -MaxFinite <= q ==> -MaxFinite * b <= q * b;
      assert q <= MaxFinite ==> q * b <= MaxFinite * b;
      assert -MaxFinite * b <= q * b ==> -MaxFinite <= q;
      assert q * b <= MaxFinite * b ==> q <= MaxFinite;
    } else {
      assert -MaxFinite <= q ==> q * b <= -MaxFinite * b;
      assert q <= MaxFinite ==> MaxFinite * b <= q * b;
      assert q * b <= -MaxFinite * b ==> -MaxFinite <= q;
      assert MaxFinite * b <= q * b ==> q <= MaxFinite;
    }
  }

  // Comparisons act on the stored values exactly, with no tolerance.

  predicate Eq(a: Real, b: Real) {
    a == b
  }

  predicate Ne(a: Real, b: Real) {
    !Eq(a, b)
  }

  predicate Lt(a: Real, b: Real) {
    a < b
  }

  predicate Gt(a: Real, b: Real) {
    a > b
  }

  predicate Le(a: Real, b: Real) {
    a <= b
  }

  predicate Ge(a: Real, b: Real) {
    a >= b
  }
}
