/** The 4D vector of include/kalon/Vector4.hpp: a fixed array of four finite
    components, read and written either by name (x, y, z, w) or by index 0..3. */
module Vectors4 {
  import opened Reals

  /** std::array<Real, 4>. */
  type Storage4 = s: seq<Real> | |s| == 4 witness [0.0, 0.0, 0.0, 0.0]

  datatype Vector4 = Vector4(data: Storage4)

  /** The default constructor: four Real zeros. */
  function DefaultVector4(): (r: Vector4)
    ensures forall i :: 0 <= i < 4 ==> r.data[i] == 0.0
  {
    Vector4([0.0, 0.0, 0.0, 0.0])
  }

  /** The four-component constructor stores x, y, z, w at indices 0, 1, 2, 3. */
  function FromReals(x: Real, y: Real, z: Real, w: Real): (r: Vector4)
    ensures r.data[0] == x && r.data[1] == y && r.data[2] == z && r.data[3] == w
  {
    Vector4([x, y, z, w])
  }

  // ---------------------------------------------------------------- indexed access

  /** The const operator[]; an index past 3 is outside the model. */
  function At(v: Vector4, i: nat): Real
    requires i < 4
  {
    v.data[i]
  }

  /** A write through the mutable operator[]: element i becomes a, the others stay. */
  function Put(v: Vector4, i: nat, a: Real): (r: Vector4)
    requires i < 4
    ensures At(r, i) == a
    ensures forall j :: 0 <= j < 4 && j != i ==> At(r, j) == At(v, j)
  {
    Vector4(v.data[i := a])
  }

  // ---------------------------------------------------------------- named access

  function X(v: Vector4): Real { v.data[0] }
  function Y(v: Vector4): Real { v.data[1] }
  function Z(v: Vector4): Real { v.data[2] }
  function W(v: Vector4): Real { v.data[3] }

  function SetX(v: Vector4, a: Real): (r: Vector4)
    ensures X(r) == a && Y(r) == Y(v) && Z(r) == Z(v) && W(r) == W(v)
  {
    Vector4([a, v.data[1], v.data[2], v.data[3]])
  }

  function SetY(v: Vector4, a: Real): (r: Vector4)
    ensures Y(r) == a && X(r) == X(v) && Z(r) == Z(v) && W(r) == W(v)
  {
    Vector4([v.data[0], a, v.data[2], v.data[3]])
  }

  function SetZ(v: Vector4, a: Real): (r: Vector4)
    ensures Z(r) == a && X(r) == X(v) && Y(r) == Y(v) && W(r) == W(v)
  {
    Vector4([v.data[0], v.data[1], a, v.data[3]])
  }

  function SetW(v: Vector4, a: Real): (r: Vector4)
    ensures W(r) == a && X(r) == X(v) && Y(r) == Y(v) && Z(r) == Z(v)
  {
    Vector4([v.data[0], v.data[1], v.data[2], a])
  }
}

/** The named and the indexed views of a Vector4 are the same storage. */
module Vector4Laws {
  import opened Reals
  import opened Vectors4

  /** Two vectors are equal exactly when they agree at every index. */
  lemma Extensionality(v: Vector4, w: Vector4)
    ensures v == w <==> forall i :: 0 <= i < 4 ==> At(v, i) == At(w, i)
  {
    if forall i :: 0 <= i < 4 ==> At(v, i) == At(w, i) {
      forall i | 0 <= i < 4
        ensures v.data[i] == w.data[i]
      {
        assert At(v, i) == At(w, i);
      }
      assert v.data == w.data;
    }
  }

  /** The accessors read indices 0, 1, 2, 3, and the four-component constructor
      builds the vector those accessors take apart. */
  lemma NamedReadsAreIndexed(v: Vector4)
    ensures X(v) == At(v, 0) && Y(v) == At(v, 1) && Z(v) == At(v, 2) && W(v) == At(v, 3)
    ensures FromReals(X(v), Y(v), Z(v), W(v)) == v
  {
    assert FromReals(X(v), Y(v), Z(v), W(v)).data == v.data;
  }

  /** Each named setter is the indexed write at its index. */
  lemma NamedWritesAreIndexed(v: Vector4, a: Real)
    ensures SetX(v, a) == Put(v, 0, a)
    ensures SetY(v, a) == Put(v, 1, a)
    ensures SetZ(v, a) == Put(v, 2, a)
    ensures SetW(v, a) == Put(v, 3, a)
  {
    assert SetX(v, a).data == Put(v, 0, a).data;
    assert SetY(v, a).data == Put(v, 1, a).data;
    assert SetZ(v, a).data == Put(v, 2, a).data;
    assert SetW(v, a).data == Put(v, 3, a).data;
  }

  /** Indexed writes: the last write to an index wins, writes to different indices
      commute, and writing back the current value changes nothing. */
  lemma WritesOverwrite(v: Vector4, i: nat, j: nat, a: Real, b: Real)
    requires i < 4 && j < 4
    ensures Put(Put(v, i, a), i, b) == Put(v, i, b)
    ensures i != j ==> Put(Put(v, i, a), j, b) == Put(Put(v, j, b), i, a)
    ensures Put(v, i, At(v, i)) == v
  {
    Extensionality(Put(Put(v, i, a), i, b), Put(v, i, b));
    if i != j {
      Extensionality(Put(Put(v, i, a), j, b), Put(Put(v, j, b), i, a));
    }
    Extensionality(Put(v, i, At(v, i)), v);
  }
}
