/** Three-component vectors over the reals, standing in for glm::vec3.
    Floating-point rounding is not modelled. */
module Vectors {

  datatype Vec3 = Vec3(x: real, y: real, z: real)

  const Zero: Vec3 := Vec3(0.0, 0.0, 0.0)

  function Add(a: Vec3, b: Vec3): Vec3 {
    Vec3(a.x + b.x, a.y + b.y, a.z + b.z)
  }

  function Sub(a: Vec3, b: Vec3): Vec3 {
    Vec3(a.x - b.x, a.y - b.y, a.z - b.z)
  }

  /** `k * a`, glm's scalar-vector product (either operand order). */
  function Scale(k: real, a: Vec3): Vec3 {
    Vec3(k * a.x, k * a.y, k * a.z)
  }

  /** `a / m`, glm's componentwise division by a scalar. */
  function Div(a: Vec3, m: real): Vec3
    requires m != 0.0
  {
    Vec3(a.x / m, a.y / m, a.z / m)
  }

  function Dot(a: Vec3, b: Vec3): real {
    a.x * b.x + a.y * b.y + a.z * b.z
  }

  /** The squared Euclidean length; `length(v) < 1` iff `SqLen(v) < 1`. */
  function SqLen(a: Vec3): real {
    Dot(a, a)
  }

  lemma SqLenNonNegative(a: Vec3)
    ensures SqLen(a) >= 0.0
  {
    assert a.x * a.x >= 0.0 && a.y * a.y >= 0.0 && a.z * a.z >= 0.0;
  }
}
