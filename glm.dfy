/**
 * The small vector types of the glm library that the modelled code stores and
 * compares. Components are reals: single-precision rounding is not modelled.
 */
module Glm {

  datatype Vec2 = Vec2(x: real, y: real)

  datatype Vec3 = Vec3(x: real, y: real, z: real)

  /** `v * s` for a vector and a scalar. */
  function Scale(v: Vec3, s: real): Vec3
  {
    Vec3(v.x * s, v.y * s, v.z * s)
  }
}
