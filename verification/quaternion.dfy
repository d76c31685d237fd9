/** The quaternion of include/kalon/Quaternion.hpp: four finite components w, x, y,
    z with no operations beyond construction, access and wholesale replacement. The
    four-component constructor is the datatype constructor; the accessors are its
    fields. */
module Quaternions {
  import opened Reals

  datatype Quaternion = Quaternion(w: Real, x: Real, y: Real, z: Real)

  /** The default constructor: the identity rotation, w = 1 and x = y = z = 0. */
  function DefaultQuaternion(): (q: Quaternion)
    ensures q.w == 1.0 && q.x == 0.0 && q.y == 0.0 && q.z == 0.0
  {
    Quaternion(1.0, 0.0, 0.0, 0.0)
  }

  /** set: the four components are overwritten, w first and z last. */
  function Set(q: Quaternion, w: Real, x: Real, y: Real, z: Real): (r: Quaternion)
    ensures r.w == w && r.x == x && r.y == y && r.z == z
  {
    q.(w := w).(x := x).(y := y).(z := z)
  }
}

/** set replaces a quaternion by the one the constructor would build. */
module QuaternionLaws {
  import opened Reals
  import opened Quaternions

  /** The result of set does not depend on the previous value: it equals the
      four-component constructor; setting the current components changes nothing,
      and of two sets the later wins. */
  lemma SetIsConstruction(p: Quaternion, q: Quaternion, w: Real, x: Real, y: Real, z: Real)
    ensures Set(q, w, x, y, z) == Quaternion(w, x, y, z)
    ensures Set(p, w, x, y, z) == Set(q, w, x, y, z)
    ensures Set(q, q.w, q.x, q.y, q.z) == q
    ensures Set(Set(q, p.w, p.x, p.y, p.z), w, x, y, z) == Set(q, w, x, y, z)
  {
  }

  /** set can turn any quaternion into the default one. */
  lemma ResetToDefault(q: Quaternion)
    ensures Set(q, 1.0, 0.0, 0.0, 0.0) == DefaultQuaternion()
  {
  }
}
