/** The 3x3 matrix of include/kalon/Matrix3.hpp: nine finite elements stored row
    by row. The storage constructor is the datatype constructor. */
module Matrices3 {
  import opened Reals
  import RowMajor

  /** std::array<Real, 9>, row-major. */
  type Storage9 = s: seq<Real> | |s| == 9 witness [0.0, 0.0, 0.0, 0.0, 0.0, 0.0, 0.0, 0.0, 0.0]

  datatype Matrix3 = Matrix3(m: Storage9)

  /** Element (r, c): the const operator(); indices past 2 are outside the model. */
  function At(a: Matrix3, r: nat, c: nat): Real
    requires r < 3 && c < 3
  {
    a.m[RowMajor.Index(3, r, c)]
  }

  /** The default constructor value-initialises every element to Real's zero. */
  function DefaultMatrix3(): (z: Matrix3)
    ensures forall r: nat, c: nat :: r < 3 && c < 3 ==> At(z, r, c) == 0.0
  {
    Matrix3([0.0, 0.0, 0.0, 0.0, 0.0, 0.0, 0.0, 0.0, 0.0])
  }

  /** A write through the mutable operator(): element (r, c) becomes v, every other
      element keeps its value. */
  function Put(a: Matrix3, r: nat, c: nat, v: Real): (b: Matrix3)
    requires r < 3 && c < 3
    ensures At(b, r, c) == v
    ensures forall i: nat, j: nat :: i < 3 && j < 3 && (i, j) != (r, c) ==> At(b, i, j) == At(a, i, j)
  {
    var b := Matrix3(a.m[RowMajor.Index(3, r, c) := v]);
    forall i: nat, j: nat | i < 3 && j < 3 && (i, j) != (r, c)
      ensures At(b, i, j) == At(a, i, j)
    {
      RowMajor.Injective(3, i, j, r, c);
    }
    b
  }

  /** setIdentity: ones on the diagonal and zeros elsewhere, whatever was stored. */
  function SetIdentity(a: Matrix3): (b: Matrix3)
    ensures forall r: nat, c: nat :: r < 3 && c < 3 ==> At(b, r, c) == if r == c then 1.0 else 0.0
  {
    Matrix3([1.0, 0.0, 0.0,
             0.0, 1.0, 0.0,
             0.0, 0.0, 1.0])
  }
}

/** Element access, element writes and the identity of Matrix3. */
module Matrix3Laws {
  import opened Reals
  import RowMajor
  import opened Matrices3

  /** The storage constructor keeps the nine values: reading row k/3, column k%3
      gives back storage[k]. */
  lemma StorageRoundTrip(s: Storage9, k: nat)
    requires k < 9
    ensures k / 3 < 3 && k % 3 < 3 && At(Matrix3(s), k / 3, k % 3) == s[k]
  {
    RowMajor.Surjective(3, k);
  }

  /** Two matrices are equal exactly when they agree at every (r, c). */
  lemma Extensionality(a: Matrix3, b: Matrix3)
    ensures a == b <==> forall r: nat, c: nat :: r < 3 && c < 3 ==> At(a, r, c) == At(b, r, c)
  {
    if forall r: nat, c: nat :: r < 3 && c < 3 ==> At(a, r, c) == At(b, r, c) {
      forall k | 0 <= k < 9
        ensures a.m[k] == b.m[k]
      {
        StorageRoundTrip(a.m, k);
        StorageRoundTrip(b.m, k);
      }
      assert a.m == b.m;
    }
  }

  /** The identity is the only matrix with ones on the diagonal and zeros elsewhere,
      so setIdentity forgets the previous contents and is idempotent. */
  lemma IdentityIsUnique(a: Matrix3, b: Matrix3)
    ensures (forall r: nat, c: nat :: r < 3 && c < 3 ==> At(b, r, c) == if r == c then 1.0 else 0.0)
            <==> b == SetIdentity(a)
    ensures SetIdentity(SetIdentity(a)) == SetIdentity(a)
  {
    Extensionality(b, SetIdentity(a));
  }

  /** Element writes: the last write to an element wins, writes to different elements
      commute, and writing back the current value changes nothing. */
  lemma WritesOverwrite(a: Matrix3, r: nat, c: nat, i: nat, j: nat, u: Real, v: Real)
    requires r < 3 && c < 3 && i < 3 && j < 3
    ensures Put(Put(a, r, c, u), r, c, v) == Put(a, r, c, v)
    ensures (r, c) != (i, j) ==> Put(Put(a, r, c, u), i, j, v) == Put(Put(a, i, j, v), r, c, u)
    ensures Put(a, r, c, At(a, r, c)) == a
  {
    Extensionality(Put(Put(a, r, c, u), r, c, v), Put(a, r, c, v));
    if (r, c) != (i, j) {
      Extensionality(Put(Put(a, r, c, u), i, j, v), Put(Put(a, i, j, v), r, c, u));
    }
    Extensionality(Put(a, r, c, At(a, r, c)), a);
  }

  /** The default matrix is not the identity. */
  lemma DefaultIsNotIdentity(a: Matrix3)
    ensures DefaultMatrix3() != SetIdentity(a)
  {
    assert At(DefaultMatrix3(), 0, 0) != At(SetIdentity(a), 0, 0);
  }
}
