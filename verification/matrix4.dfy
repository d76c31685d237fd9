/** The 4x4 matrix of include/kalon/Matrix4.hpp: sixteen finite elements stored row
    by row. The storage constructor is the datatype constructor. */
module Matrices4 {
  import opened Reals
  import RowMajor

  /** std::array<Real, 16>, row-major. */
  type Storage16 = s: seq<Real> | |s| == 16 witness seq(16, _ => 0.0)

  datatype Matrix4 = Matrix4(m: Storage16)

  /** Element (r, c): the const operator(); indices past 3 are outside the model. */
  function At(a: Matrix4, r: nat, c: nat): Real
    requires r < 4 && c < 4
  {
    a.m[RowMajor.Index(4, r, c)]
  }

  /** The default constructor value-initialises every element to Real's zero. */
  function DefaultMatrix4(): (z: Matrix4)
    ensures forall r: nat, c: nat :: r < 4 && c < 4 ==> At(z, r, c) == 0.0
  {
    Matrix4(seq(16, _ => 0.0))
  }

  /** A write through the mutable operator(): element (r, c) becomes v, every other
      element keeps its value. */
  function Put(a: Matrix4, r: nat, c: nat, v: Real): (b: Matrix4)
    requires r < 4 && c < 4
    ensures At(b, r, c) == v
    ensures forall i: nat, j: nat :: i < 4 && j < 4 && (i, j) != (r, c) ==> At(b, i, j) == At(a, i, j)
  {
    var b := Matrix4(a.m[RowMajor.Index(4, r, c) := v]);
    forall i: nat, j: nat | i < 4 && j < 4 && (i, j) != (r, c)
      ensures At(b, i, j) == At(a, i, j)
    {
      RowMajor.Injective(4, i, j, r, c);
    }
    b
  }

  /** setIdentity: ones on the diagonal and zeros elsewhere, whatever was stored. */
  function SetIdentity(a: Matrix4): (b: Matrix4)
    ensures forall r: nat, c: nat :: r < 4 && c < 4 ==> At(b, r, c) == if r == c then 1.0 else 0.0
  {
    Matrix4([1.0, 0.0, 0.0, 0.0,
             0.0, 1.0, 0.0, 0.0,
             0.0, 0.0, 1.0, 0.0,
             0.0, 0.0, 0.0, 1.0])
  }
}

/** Element access, element writes and the identity of Matrix4. */
module Matrix4Laws {
  import opened Reals
  import RowMajor
  import opened Matrices4

  /** The storage constructor keeps the sixteen values: reading row k/4, column k%4
      gives back storage[k]. */
  lemma StorageRoundTrip(s: Storage16, k: nat)
    requires k < 16
    ensures k / 4 < 4 && k % 4 < 4 && At(Matrix4(s), k / 4, k % 4) == s[k]
  {
    RowMajor.Surjective(4, k);
  }

  /** Two matrices are equal exactly when they agree at every (r, c). */
  lemma Extensionality(a: Matrix4, b: Matrix4)
    ensures a == b <==> forall r: nat, c: nat :: r < 4 && c < 4 ==> At(a, r, c) == At(b, r, c)
  {
    if forall r: nat, c: nat :: r < 4 && c < 4 ==> At(a, r, c) == At(b, r, c) {
      forall k | 0 <= k < 16
        ensures a.m[k] == b.m[k]
      {
        StorageRoundTrip(a.m, k);
        StorageRoundTrip(b.m, k);
      }
      assert a.m == b.m;
    }
  }

  /** The identity is the only matrix with ones on the diagonal and zeros elsewhere,
      so setIdentity forgets the previous contents and is idempotent. */
  lemma IdentityIsUnique(a: Matrix4, b: Matrix4)
    ensures (forall r: nat, c: nat :: r < 4 && c < 4 ==> At(b, r, c) == if r == c then 1.0 else 0.0)
            <==> b == SetIdentity(a)
    ensures SetIdentity(SetIdentity(a)) == SetIdentity(a)
  {
    Extensionality(b, SetIdentity(a));
  }

  /** Element writes: the last write to an element wins, writes to different elements
      commute, and writing back the current value changes nothing. */
  lemma WritesOverwrite(a: Matrix4, r: nat, c: nat, i: nat, j: nat, u: Real, v: Real)
    requires r < 4 && c < 4 && i < 4 && j < 4
    ensures Put(Put(a, r, c, u), r, c, v) == Put(a, r, c, v)
    ensures (r, c) != (i, j) ==> Put(Put(a, r, c, u), i, j, v) == Put(Put(a, i, j, v), r, c, u)
    ensures Put(a, r, c, At(a, r, c)) == a
  {
    Extensionality(Put(Put(a, r, c, u), r, c, v), Put(a, r, c, v));
    if (r, c) != (i, j) {
      Extensionality(Put(Put(a, r, c, u), i, j, v), Put(Put(a, i, j, v), r, c, u));
    }
    Extensionality(Put(a, r, c, At(a, r, c)), a);
  }

  /** The default matrix is not the identity. */
  lemma DefaultIsNotIdentity(a: Matrix4)
    ensures DefaultMatrix4() != SetIdentity(a)
  {
    assert At(DefaultMatrix4(), 0, 0) != At(SetIdentity(a), 0, 0);
  }
}
