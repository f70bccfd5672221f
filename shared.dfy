/** Value types shared by the client controller and the server services. */
module Shared {

  /** A possibly missing value: `undefined` in the source. */
  datatype Option<+T> = None | Some(value: T)

  /** A `Vector3`, component-wise over the reals (no floating-point rounding). */
  datatype Vec3 = Vec3(x: real, y: real, z: real)

  const Zero: Vec3 := Vec3(0.0, 0.0, 0.0)

  function Add(a: Vec3, b: Vec3): Vec3 {
    Vec3(a.x + b.x, a.y + b.y, a.z + b.z)
  }

  /** `v.mul(-1)` */
  function Neg(v: Vec3): (r: Vec3)
    ensures Add(v, r) == Zero
  {
    Vec3(-v.x, -v.y, -v.z)
  }

  /** `v.div(d)` */
  function Div(v: Vec3, d: real): Vec3
    requires d != 0.0
  {
    Vec3(v.x / d, v.y / d, v.z / d)
  }

  /** The squared magnitude; `v.Magnitude < k` iff `NormSquared(v) < k * k` for k >= 0. */
  function NormSquared(v: Vec3): real {
    v.x * v.x + v.y * v.y + v.z * v.z
  }
}
