/**
  3D vectors for positions, normals and orientation/position fields. The
  arithmetic the model needs (dot product, scaling, tangent-plane projection)
  is exact over the reals; everything that would need a square root or a
  trigonometric function is supplied by the caller as a function value.
 */
module Vectors {

  datatype Vec3 = Vec3(x: real, y: real, z: real)

  const Zero: Vec3 := Vec3(0.0, 0.0, 0.0)

  function Dot(a: Vec3, b: Vec3): real {
    a.x * b.x + a.y * b.y + a.z * b.z
  }

  function Add(a: Vec3, b: Vec3): Vec3 {
    Vec3(a.x + b.x, a.y + b.y, a.z + b.z)
  }

  function Sub(a: Vec3, b: Vec3): Vec3 {
    Vec3(a.x - b.x, a.y - b.y, a.z - b.z)
  }

  function Scale(s: real, a: Vec3): Vec3 {
    Vec3(s * a.x, s * a.y, s * a.z)
  }

  /** `q -= n.dot(q) * n`: removes q's component along n. */
  function Project(n: Vec3, q: Vec3): (r: Vec3)
    ensures Dot(n, n) == 1.0 ==> Dot(n, r) == 0.0
  {
    Sub(q, Scale(Dot(n, q), n))
  }
}
