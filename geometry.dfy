/** glm::vec2 / glm::vec3 over exact reals, with the few operations the core uses. */
module Geometry {

  datatype Vec2 = Vec2(x: real, y: real)

  datatype Vec3 = Vec3(x: real, y: real, z: real)

  function Add(a: Vec3, b: Vec3): Vec3 { Vec3(a.x + b.x, a.y + b.y, a.z + b.z) }

  function Sub(a: Vec3, b: Vec3): Vec3 { Vec3(a.x - b.x, a.y - b.y, a.z - b.z) }

  function Scale(k: real, a: Vec3): Vec3 { Vec3(k * a.x, k * a.y, k * a.z) }

  function Dot(a: Vec3, b: Vec3): real { a.x * b.x + a.y * b.y + a.z * b.z }

  /** glm::cross. */
  function Cross(a: Vec3, b: Vec3): Vec3
  {
    Vec3(a.y * b.z - a.z * b.y, a.z * b.x - a.x * b.z, a.x * b.y - a.y * b.x)
  }

  const Zero3: Vec3 := Vec3(0.0, 0.0, 0.0)

  /** Component-wise sum of a sequence of vectors, accumulated front to back. */
  function SumAll(vs: seq<Vec3>): Vec3
  {
    if vs == [] then Zero3 else Add(SumAll(vs[..|vs| - 1]), vs[|vs| - 1])
  }
}
