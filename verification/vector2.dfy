/** The 2D vector of include/kalon/Vector2.hpp: two finite components and nothing
    else — no unit tag, no cache, no normalized flag. The two-component constructor
    is the datatype constructor; the accessors are its fields. */
module Vectors2 {
  import opened Results
  import opened Reals

  datatype Vector2 = Vector2(x: Real, y: Real)

  /** The default constructor: both components start at Real's zero. */
  function DefaultVector2(): (r: Vector2)
    ensures r.x == 0.0 && r.y == 0.0
  {
    Vector2(0.0, 0.0)
  }

  function SetX(v: Vector2, a: Real): (r: Vector2)
    ensures r.x == a && r.y == v.y
  {
    v.(x := a)
  }

  function SetY(v: Vector2, a: Real): (r: Vector2)
    ensures r.y == a && r.x == v.x
  {
    v.(y := a)
  }

  /** Overwrites both components: the result no longer depends on the receiver. */
  function SetComponents(v: Vector2, a: Real, b: Real): (r: Vector2)
    ensures r.x == a && r.y == b
  {
    SetY(SetX(v, a), b)
  }

  /** The sum of the two squares, each partial step a checked Real operation. Since
      each square is at most the sum, the computation fails exactly when the sum is
      not finite. */
  function MagnitudeSquared(v: Vector2): (r: Result<Real>)
    ensures r.Ok? <==> IsFinite(v.x * v.x + v.y * v.y)
    ensures r.Ok? ==> r.value == v.x * v.x + v.y * v.y && 0.0 <= r.value
    ensures r.Err? ==> r.error == MultiplicationOverflow || r.error == AdditionOverflow
  {
    var X, Y := v.x * v.x, v.y * v.y;
    assert 0.0 <= X && 0.0 <= Y;
    var xx :- Mul(v.x, v.x);
    var yy :- Mul(v.y, v.y);
    Add(xx, yy)
  }
}

/** How the Vector2 operations relate to each other and to the 3D vector. */
module Vector2Laws {
  import opened Results
  import opened Reals
  import opened Vectors2
  import Vectors3

  /** A setter writes one component; a later write to the same component wins, and
      writes to different components commute. */
  lemma SettersOverwrite(v: Vector2, a: Real, b: Real)
    ensures SetX(SetX(v, a), b) == SetX(v, b)
    ensures SetY(SetY(v, a), b) == SetY(v, b)
    ensures SetX(SetY(v, b), a) == SetY(SetX(v, a), b)
    ensures SetX(v, v.x) == v && SetY(v, v.y) == v
  {
  }

  /** setComponents is the two setters in turn and forgets the receiver entirely:
      it is the two-component constructor. */
  lemma SetComponentsIsConstruction(v: Vector2, w: Vector2, a: Real, b: Real)
    ensures SetComponents(v, a, b) == Vector2(a, b)
    ensures SetComponents(v, a, b) == SetComponents(w, a, b)
    ensures SetComponents(v, v.x, v.y) == v
  {
  }

  /** The 2D squared magnitude is the 3D one with a zero third component, result
      and error kind alike: both compute x*x, then y*y, then their sum first. */
  lemma AgreesWithVector3(v: Vector2)
    ensures MagnitudeSquared(v) == Vectors3.MagnitudeSquared(Vectors3.FromReals(v.x, v.y, 0.0))
  {
    var w := Vectors3.FromReals(v.x, v.y, 0.0);
    if MagnitudeSquared(v).Ok? {
      assert v.x * v.x + v.y * v.y == w.x * w.x + w.y * w.y + w.z * w.z;
    } else {
      var xx := Mul(v.x, v.x);
      var yy := Mul(v.y, v.y);
      if xx.Ok? && yy.Ok? {
        assert Vectors3.MagnitudeSquared(w).error == AdditionOverflow;
      }
    }
  }

  /** The zero vector has squared magnitude zero. */
  lemma ZeroMagnitudeSquared()
    ensures MagnitudeSquared(DefaultVector2()) == Ok(0.0)
  {
  }

  /** The squared magnitude of (3, 4) is 25. */
  lemma MagnitudeSquaredExample()
    ensures MagnitudeSquared(Vector2(3.0, 4.0)) == Ok(25.0)
  {
  }

  /** A large but finite component overflows its square: 1e200 is a Real, and the
      squared magnitude of (1e200, 0) fails on the first multiplication. */
  lemma SquareOverflows()
    ensures IsFinite(1.0e200) && !IsFinite(1.0e200 * 1.0e200)
    ensures MagnitudeSquared(Vector2(1.0e200, 0.0)) == Err(MultiplicationOverflow)
  {
    MaxFiniteValue();
  }
}
