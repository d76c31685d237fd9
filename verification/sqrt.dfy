/** The square root the vector type takes of its squared magnitude. std::sqrt is
    modelled by bisection: Sqrt is the upper end of a bracket [0, max(1, s)] around
    the root that has been halved at least 1100 times, so it lies between the exact
    root and the exact root plus max(1, s) * 2^-1100 — an error far below the root
    of any positive double. */
module Roots {
  import Reals

  /** Halves the bracket [lo, hi] around the root of s `steps` times and returns its
      upper end. The squares lo * lo and hi * hi and the product lo * hi travel along,
      so that each halving needs only additions: the midpoint's square is
      (lo*lo + 2*lo*hi + hi*hi) / 4. That the bracket keeps holding the root is
      BisectCovers and BisectWithin. */
  function Bisect(s: real, lo: real, hi: real, loSq: real, hiSq: real, cross: real, steps: nat): (r: real)
    ensures lo <= hi ==> lo <= r <= hi
    decreases steps, 1
  {
    if steps == 0 then hi else Halve(s, lo, hi, loSq, hiSq, cross, steps - 1)
  }

  /** One halving: keep the half of [lo, hi] whose square range holds s, then go on
      bisecting it `rest` more times. */
  function Halve(s: real, lo: real, hi: real, loSq: real, hiSq: real, cross: real, rest: nat): (r: real)
    ensures lo <= hi ==> lo <= r <= hi
    decreases rest, 2
  {
    var mid := (lo + hi) / 2.0;
    var midSq := (loSq + 2.0 * cross + hiSq) / 4.0;
    if s <= midSq then Bisect(s, lo, mid, loSq, midSq, (loSq + cross) / 2.0, rest)
    else Bisect(s, mid, hi, midSq, hiSq, (cross + hiSq) / 2.0, rest)
  }

  /** [lo, hi] holds the root of s, with the squares and the product that travel along. */
  predicate Brackets(s: real, lo: real, hi: real, loSq: real, hiSq: real, cross: real) {
    && 0.0 <= lo <= hi
    && loSq == lo * lo && hiSq == hi * hi && cross == lo * hi
    && loSq <= s <= hiSq
  }

  /** The lower half of a bracket is a bracket when the root lies in it. */
  lemma LowerBrackets(s: real, lo: real, hi: real, loSq: real, hiSq: real, cross: real, mid: real, midSq: real)
    requires Brackets(s, lo, hi, loSq, hiSq, cross)
    requires mid == (lo + hi) / 2.0 && midSq == (loSq + 2.0 * cross + hiSq) / 4.0 && s <= midSq
    ensures Brackets(s, lo, mid, loSq, midSq, (loSq + cross) / 2.0)
  {
    MidpointSquares(lo, hi, mid);
  }

  /** The upper half of a bracket is a bracket when the root lies in it. */
  lemma UpperBrackets(s: real, lo: real, hi: real, loSq: real, hiSq: real, cross: real, mid: real, midSq: real)
    requires Brackets(s, lo, hi, loSq, hiSq, cross)
    requires mid == (lo + hi) / 2.0 && midSq == (loSq + 2.0 * cross + hiSq) / 4.0 && midSq < s
    ensures Brackets(s, mid, hi, midSq, hiSq, (cross + hiSq) / 2.0)
  {
    MidpointSquares(lo, hi, mid);
  }

  /** r squares to at least s: r is not below the root of s. */
  predicate Covers(s: real, r: real) {
    s <= r * r
  }

  /** The result of the bisection squares to at least s: it never falls below the root. */
  lemma {:induction false} BisectCovers(s: real, lo: real, hi: real, loSq: real, hiSq: real, cross: real, steps: nat)
    requires Brackets(s, lo, hi, loSq, hiSq, cross)
    ensures Covers(s, Bisect(s, lo, hi, loSq, hiSq, cross, steps))
    decreases steps, 1
  {
    if steps == 0 {
      assert Bisect(s, lo, hi, loSq, hiSq, cross, steps) == hi;
    } else if s <= (loSq + 2.0 * cross + hiSq) / 4.0 {
      LowerCovers(s, lo, hi, loSq, hiSq, cross, steps);
    } else {
      UpperCovers(s, lo, hi, loSq, hiSq, cross, steps);
    }
  }

  /** BisectCovers when the first halving keeps the lower half. */
  lemma {:induction false} LowerCovers(s: real, lo: real, hi: real, loSq: real, hiSq: real, cross: real, steps: nat)
    requires Brackets(s, lo, hi, loSq, hiSq, cross)
    requires 0 < steps && s <= (loSq + 2.0 * cross + hiSq) / 4.0
    ensures Covers(s, Bisect(s, lo, hi, loSq, hiSq, cross, steps))
    decreases steps, 0
  {
    var mid := (lo + hi) / 2.0;
    var midSq := (loSq + 2.0 * cross + hiSq) / 4.0;
    LowerBrackets(s, lo, hi, loSq, hiSq, cross, mid, midSq);
    LowerStep(s, lo, hi, loSq, hiSq, cross, steps, mid, midSq);
    BisectCovers(s, lo, mid, loSq, midSq, (loSq + cross) / 2.0, steps - 1);

  }

  /** BisectCovers when the first halving keeps the upper half. */
  lemma {:induction false} UpperCovers(s: real, lo: real, hi: real, loSq: real, hiSq: real, cross: real, steps: nat)
    requires Brackets(s, lo, hi, loSq, hiSq, cross)
    requires 0 < steps && (loSq + 2.0 * cross + hiSq) / 4.0 < s
    ensures Covers(s, Bisect(s, lo, hi, loSq, hiSq, cross, steps))
    decreases steps, 0
  {
    var mid := (lo + hi) / 2.0;
    var midSq := (loSq + 2.0 * cross + hiSq) / 4.0;
    UpperBrackets(s, lo, hi, loSq, hiSq, cross, mid, midSq);
    UpperStep(s, lo, hi, loSq, hiSq, cross, steps, mid, midSq);
    BisectCovers(s, mid, hi, midSq, hiSq, (cross + hiSq) / 2.0, steps - 1);

  }

  /** One halving of the bisection that keeps the lower half. */
  lemma LowerStep(s: real, lo: real, hi: real, loSq: real, hiSq: real, cross: real, steps: nat, mid: real, midSq: real)
    requires 0 < steps && mid == (lo + hi) / 2.0 && midSq == (loSq + 2.0 * cross + hiSq) / 4.0 && s <= midSq
    ensures Bisect(s, lo, hi, loSq, hiSq, cross, steps) == Bisect(s, lo, mid, loSq, midSq, (loSq + cross) / 2.0, steps - 1)
  {
    assert Bisect(s, lo, hi, loSq, hiSq, cross, steps) == Halve(s, lo, hi, loSq, hiSq, cross, steps - 1);
  }

  /** One halving of the bisection that keeps the upper half. */
  lemma UpperStep(s: real, lo: real, hi: real, loSq: real, hiSq: real, cross: real, steps: nat, mid: real, midSq: real)
    requires 0 < steps && mid == (lo + hi) / 2.0 && midSq == (loSq + 2.0 * cross + hiSq) / 4.0 && midSq < s
    ensures Bisect(s, lo, hi, loSq, hiSq, cross, steps) == Bisect(s, mid, hi, midSq, hiSq, (cross + hiSq) / 2.0, steps - 1)
  {
    assert Bisect(s, lo, hi, loSq, hiSq, cross, steps) == Halve(s, lo, hi, loSq, hiSq, cross, steps - 1);
  }

  /** The squares and products at the midpoint of [lo, hi], in terms of those at its ends. */
  lemma MidpointSquares(lo: real, hi: real, mid: real)
    requires mid == (lo + hi) / 2.0
    ensures mid * mid == (lo * lo + 2.0 * (lo * hi) + hi * hi) / 4.0
    ensures lo * mid == (lo * lo + lo * hi) / 2.0
    ensures mid * hi == (lo * hi + hi * hi) / 2.0
  {
    assert 2.0 * mid == lo + hi;
    assert 4.0 * (mid * mid) == (2.0 * mid) * (2.0 * mid);
    assert (lo + hi) * (lo + hi) == lo * lo + 2.0 * (lo * hi) + hi * hi;
    assert 2.0 * (lo * mid) == lo * (2.0 * mid);
    assert 2.0 * (mid * hi) == (2.0 * mid) * hi;
  }

  /** w halved n times. */
  function Shrink(w: real, n: nat): (r: real)
    ensures 0.0 < w ==> 0.0 < r
    decreases n
  {
    if n == 0 then w else Shrink(w / 2.0, n - 1)
  }

  /** Halving n times is dividing by 2^n. */
  lemma {:induction false} ShrinkIsDivision(w: real, n: nat)
    ensures Shrink(w, n) == w / Reals.Pow2(n)
    decreases n
  {
    if n > 0 {
      ShrinkIsDivision(w / 2.0, n - 1);
      var p := Reals.Pow2(n - 1);
      assert Reals.Pow2(n) == 2.0 * p;
      assert (w / 2.0) / p == w / (2.0 * p);
    }
  }

  /** The result of the bisection lowered by the starting width halved `steps`
      times: the lower end of the final bracket. */
  function Low(s: real, lo: real, hi: real, loSq: real, hiSq: real, cross: real, steps: nat): real {
    Bisect(s, lo, hi, loSq, hiSq, cross, steps) - Shrink(hi - lo, steps)
  }

  /** The bisection loses at most the final bracket's width: its result lowered by
      that width is still at least lo, and its square is at most s. */
  lemma {:induction false} BisectWithin(s: real, lo: real, hi: real, loSq: real, hiSq: real, cross: real, steps: nat)
    requires 0.0 <= lo <= hi
    requires loSq == lo * lo && hiSq == hi * hi && cross == lo * hi
    requires loSq <= s <= hiSq
    ensures lo <= Low(s, lo, hi, loSq, hiSq, cross, steps)
    ensures Low(s, lo, hi, loSq, hiSq, cross, steps) * Low(s, lo, hi, loSq, hiSq, cross, steps) <= s
    decreases steps, 1
  {
    if steps == 0 {
      LowAtStart(s, lo, hi, loSq, hiSq, cross);
    } else if s <= (loSq + 2.0 * cross + hiSq) / 4.0 {
      LowerWithin(s, lo, hi, loSq, hiSq, cross, steps);
    } else {
      UpperWithin(s, lo, hi, loSq, hiSq, cross, steps);
    }
  }

  /** BisectWithin when the first halving keeps the lower half. */
  lemma {:induction false} LowerWithin(s: real, lo: real, hi: real, loSq: real, hiSq: real, cross: real, steps: nat)
    requires 0.0 <= lo <= hi
    requires loSq == lo * lo && hiSq == hi * hi && cross == lo * hi
    requires loSq <= s <= hiSq
    requires 0 < steps && s <= (loSq + 2.0 * cross + hiSq) / 4.0
    ensures lo <= Low(s, lo, hi, loSq, hiSq, cross, steps)
    ensures Low(s, lo, hi, loSq, hiSq, cross, steps) * Low(s, lo, hi, loSq, hiSq, cross, steps) <= s
    decreases steps, 0
  {
    var mid := (lo + hi) / 2.0;
    var midSq := (loSq + 2.0 * cross + hiSq) / 4.0;
    LowerHalf(s, lo, hi, loSq, hiSq, cross, steps, mid, midSq);
    BisectWithin(s, lo, mid, loSq, midSq, (loSq + cross) / 2.0, steps - 1);
    SquareAtMost(Low(s, lo, hi, loSq, hiSq, cross, steps), Low(s, lo, mid, loSq, midSq, (loSq + cross) / 2.0, steps - 1), s);
  }

  /** BisectWithin when the first halving keeps the upper half. */
  lemma {:induction false} UpperWithin(s: real, lo: real, hi: real, loSq: real, hiSq: real, cross: real, steps: nat)
    requires 0.0 <= lo <= hi
    requires loSq == lo * lo && hiSq == hi * hi && cross == lo * hi
    requires loSq <= s <= hiSq
    requires 0 < steps && (loSq + 2.0 * cross + hiSq) / 4.0 < s
    ensures lo <= Low(s, lo, hi, loSq, hiSq, cross, steps)
    ensures Low(s, lo, hi, loSq, hiSq, cross, steps) * Low(s, lo, hi, loSq, hiSq, cross, steps) <= s
    decreases steps, 0
  {
    var mid := (lo + hi) / 2.0;
    var midSq := (loSq + 2.0 * cross + hiSq) / 4.0;
    UpperHalf(s, lo, hi, loSq, hiSq, cross, steps, mid, midSq);
    BisectWithin(s, mid, hi, midSq, hiSq, (cross + hiSq) / 2.0, steps - 1);
    SquareAtMost(Low(s, lo, hi, loSq, hiSq, cross, steps), Low(s, mid, hi, midSq, hiSq, (cross + hiSq) / 2.0, steps - 1), s);
  }

  /** When the root lies in the lower half, the final bracket is the lower half's. */
  lemma LowerHalf(s: real, lo: real, hi: real, loSq: real, hiSq: real, cross: real, steps: nat, mid: real, midSq: real)
    requires 0.0 <= lo <= hi
    requires loSq == lo * lo && hiSq == hi * hi && cross == lo * hi
    requires loSq <= s <= hiSq
    requires mid == (lo + hi) / 2.0 && midSq == (loSq + 2.0 * cross + hiSq) / 4.0
    requires 0 < steps && s <= midSq
    ensures mid * mid == midSq && lo * mid == (loSq + cross) / 2.0
    ensures Low(s, lo, hi, loSq, hiSq, cross, steps) == Low(s, lo, mid, loSq, midSq, (loSq + cross) / 2.0, steps - 1)
  {
    MidpointSquares(lo, hi, mid);
    LowerStep(s, lo, hi, loSq, hiSq, cross, steps, mid, midSq);
    assert Shrink(hi - lo, steps) == Shrink((hi - lo) / 2.0, steps - 1);
    assert mid - lo == (hi - lo) / 2.0;
  }

  /** When the root lies in the upper half, the final bracket is the upper half's. */
  lemma UpperHalf(s: real, lo: real, hi: real, loSq: real, hiSq: real, cross: real, steps: nat, mid: real, midSq: real)
    requires 0.0 <= lo <= hi
    requires loSq == lo * lo && hiSq == hi * hi && cross == lo * hi
    requires loSq <= s <= hiSq
    requires mid == (lo + hi) / 2.0 && midSq == (loSq + 2.0 * cross + hiSq) / 4.0
    requires 0 < steps && midSq < s
    ensures mid * mid == midSq && mid * hi == (cross + hiSq) / 2.0
    ensures Low(s, lo, hi, loSq, hiSq, cross, steps) == Low(s, mid, hi, midSq, hiSq, (cross + hiSq) / 2.0, steps - 1)
  {
    MidpointSquares(lo, hi, mid);
    UpperStep(s, lo, hi, loSq, hiSq, cross, steps, mid, midSq);
    assert Shrink(hi - lo, steps) == Shrink((hi - lo) / 2.0, steps - 1);
    assert hi - mid == (hi - lo) / 2.0;
  }

  /** Before any halving the bracket's lower end is lo itself. */
  lemma LowAtStart(s: real, lo: real, hi: real, loSq: real, hiSq: real, cross: real)
    requires 0.0 <= lo <= hi
    requires loSq == lo * lo && hiSq == hi * hi && cross == lo * hi
    requires loSq <= s <= hiSq
    ensures Low(s, lo, hi, loSq, hiSq, cross, 0) == lo
  {
  }

  lemma SquareAtMost(a: real, b: real, s: real)
    requires a == b && b * b <= s
    ensures a * a <= s
  {
  }

  /** The number of halvings. From [0, 1], 1100 halvings leave a bracket of width
      2^-1100, far below the root of the least positive double (about 2^-537); from
      [0, s] with 1 < s < 2^1024, 1200 halvings leave less than 2^-176, far below the
      root's own size, which exceeds one. */
  function Halvings(s: real): nat {
    if s <= 1.0 then 1100 else 1200
  }

  /** The starting bracket is [0, max(1, s)]. */
  function Top(s: real): real {
    if s <= 1.0 then 1.0 else s
  }

  function Sqrt(s: real): (r: real)
    requires 0.0 <= s
    ensures 0.0 <= r
    ensures r == 0.0 <==> s == 0.0
    ensures r <= Top(s)
  {
    if s == 0.0 then 0.0
    else
      var hi := Top(s);
      TopBrackets(s);
      BisectCovers(s, 0.0, hi, 0.0, hi * hi, 0.0, Halvings(s));
      var r := Bisect(s, 0.0, hi, 0.0, hi * hi, 0.0, Halvings(s));
      assert 0.0 < r * r;
      r
  }

  /** Sqrt never falls below the exact root: its square is at least s. */
  lemma SqrtCovers(s: real)
    requires 0.0 <= s
    ensures s <= Sqrt(s) * Sqrt(s)
  {
    if s != 0.0 {
      TopBrackets(s);
      BisectCovers(s, 0.0, Top(s), 0.0, Top(s) * Top(s), 0.0, Halvings(s));
      SqrtUnfolds(s);
    }
  }

  /** A positive s's root is the bisection from [0, Top(s)]. */
  lemma SqrtUnfolds(s: real)
    requires 0.0 < s
    ensures Sqrt(s) == Bisect(s, 0.0, Top(s), 0.0, Top(s) * Top(s), 0.0, Halvings(s))
  {
  }

  lemma SquareExceeds(s: real)
    requires 1.0 < s
    ensures s < s * s
  {
    assert s * s - s == s * (s - 1.0);
  }

  /** The largest amount by which Sqrt may exceed the exact root of s. */
  function Tolerance(s: real): (w: real)
    ensures 0.0 < w
  {
    Shrink(Top(s), Halvings(s))
  }

  /** Sqrt exceeds the exact root by at most Tolerance(s): take the tolerance away
      and what is left is negative or squares to at most s. */
  lemma SqrtIsTight(s: real)
    requires 0.0 <= s
    ensures Sqrt(s) - Tolerance(s) <= 0.0 || (Sqrt(s) - Tolerance(s)) * (Sqrt(s) - Tolerance(s)) <= s
  {
    if s != 0.0 {
      TightAbove(s, Sqrt(s) - Tolerance(s));
    }
  }

  /** SqrtIsTight for positive s, with the lowered root named. */
  lemma TightAbove(s: real, low: real)
    requires 0.0 < s && low == Sqrt(s) - Tolerance(s)
    ensures low * low <= s
  {
    TopBrackets(s);
    BisectWithin(s, 0.0, Top(s), 0.0, Top(s) * Top(s), 0.0, Halvings(s));
    SqrtMinusTolerance(s);
    SquareAtMost(low, Low(s, 0.0, Top(s), 0.0, Top(s) * Top(s), 0.0, Halvings(s)), s);
  }

  /** The starting bracket [0, Top(s)] holds the root of s. */
  lemma TopBrackets(s: real)
    requires 0.0 <= s
    ensures 0.0 <= Top(s) && s <= Top(s) * Top(s)
  {
    if 1.0 < s {
      SquareExceeds(s);
    }
  }

  /** Sqrt lowered by its tolerance is the lower end of the final bracket. */
  lemma SqrtMinusTolerance(s: real)
    requires 0.0 < s && 0.0 <= Top(s) && s <= Top(s) * Top(s)
    ensures Sqrt(s) - Tolerance(s) == Low(s, 0.0, Top(s), 0.0, Top(s) * Top(s), 0.0, Halvings(s))
  {
    SqrtUnfolds(s);
    assert Top(s) - 0.0 == Top(s);
  }

  /** Whenever s has an exact root q, Sqrt(s) lies in [q, q + Tolerance(s)]. */
  lemma SqrtNearRoot(s: real, q: real)
    requires 0.0 <= q && q * q == s
    ensures q <= Sqrt(s) <= q + Tolerance(s)
  {
    var r := Sqrt(s);
    SqrtCovers(s);
    if r < q {
      SquareBelow(r, q);
      assert false;
    }
    var low := r - Tolerance(s);
    SqrtIsTight(s);
    if q < low {
      SquareBelow(q, low);
      assert false;
    }
  }

  /** Squaring is strictly increasing on the non-negative numbers. */
  lemma SquareBelow(a: real, b: real)
    requires 0.0 <= a < b
    ensures a * a < b * b
  {
    PositiveProduct(b - a, b + a);
    assert b * b - a * a == (b - a) * (b + a);
  }

  /** The product of two positive numbers is positive. */
  lemma PositiveProduct(p: real, q: real)
    requires 0.0 < p && 0.0 < q
    ensures 0.0 < p * q
  {
  }
}
