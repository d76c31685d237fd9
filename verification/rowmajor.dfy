/** Row-major layout of an n-by-n matrix in a flat array of n*n elements: element
    (r, c) lives at r*n + c. Matrix3 and Matrix4 both use it, with n = 3 and n = 4. */
module RowMajor {

  /** The flat position of element (r, c). Division by n recovers the row and the
      remainder the column, so no two elements share a position. */
  function Index(n: nat, r: nat, c: nat): (k: nat)
    requires r < n && c < n
    ensures k < n * n
    ensures k / n == r && k % n == c
  {
    var k := r * n + c;
    assert k < n * n by {
      assert r * n + n == (r + 1) * n;
      assert (r + 1) * n <= n * n by { Scale(r + 1, n, n); }
    }
    Decompose(n, r, c);
    k
  }

  /** a <= b implies a*m <= b*m for natural numbers. */
  lemma Scale(a: nat, b: nat, m: nat)
    requires a <= b
    ensures a * m <= b * m
  {
    assert b * m - a * m == (b - a) * m;
  }

  /** Euclidean division of r*n + c by n, with c < n, gives quotient r and remainder c. */
  lemma Decompose(n: nat, r: nat, c: nat)
    requires c < n
    ensures (r * n + c) / n == r && (r * n + c) % n == c
  {
    var k := r * n + c;
    var q, m := k / n, k % n;
    assert k == q * n + m && 0 <= m < n;
    assert (q - r) * n == c - m;
    assert (r - q) * n == m - c;
    if q > r {
      Scale(1, q - r, n);
    } else if q < r {
      Scale(1, r - q, n);
    }
  }

  /** Every flat position below n*n is the position of exactly one element: the one
      whose row is the quotient by n and whose column is the remainder. */
  lemma Surjective(n: nat, k: nat)
    requires k < n * n
    ensures k / n < n && k % n < n
    ensures Index(n, k / n, k % n) == k
  {
    assert 0 < n;
    var q := k / n;
    assert k == q * n + k % n;
    if n <= q {
      Scale(n, q, n);
      assert false;
    }
  }

  /** Distinct elements occupy distinct positions. */
  lemma Injective(n: nat, r1: nat, c1: nat, r2: nat, c2: nat)
    requires r1 < n && c1 < n && r2 < n && c2 < n
    ensures Index(n, r1, c1) == Index(n, r2, c2) <==> r1 == r2 && c1 == c2
  {
  }
}
