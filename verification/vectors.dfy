/** Three-component real vectors: the small part of a 3D vector library that
    the integrator and the trail buffer use (add, subtract, scale, length,
    distance). Floating point is replaced by exact `real` arithmetic and the
    Euclidean length, which needs a square root, is an abstract parameter. */
module Vectors {

  datatype Vec3 = Vec3(x: real, y: real, z: real)

  const Zero: Vec3 := Vec3(0.0, 0.0, 0.0)

  function Add(a: Vec3, b: Vec3): Vec3 {
    Vec3(a.x + b.x, a.y + b.y, a.z + b.z)
  }

  function Sub(a: Vec3, b: Vec3): Vec3 {
    Vec3(a.x - b.x, a.y - b.y, a.z - b.z)
  }

  /** `v` multiplied component-wise by the scalar `s`. */
  function Scale(v: Vec3, s: real): Vec3 {
    Vec3(v.x * s, v.y * s, v.z * s)
  }

  function Dot(a: Vec3, b: Vec3): real {
    a.x * b.x + a.y * b.y + a.z * b.z
  }

  function Cross(a: Vec3, b: Vec3): Vec3 {
    Vec3(a.y * b.z - a.z * b.y, a.z * b.x - a.x * b.z, a.x * b.y - a.y * b.x)
  }

  function Abs(r: real): real {
    if r < 0.0 then -r else r
  }

  /** The length of a vector, left abstract: every operation that needs it
      takes the norm as a parameter. */
  type Norm = Vec3 -> real

  /** What the model assumes of a length function: it is non-negative and
      it is zero exactly on the zero vector. */
  ghost predicate IsNorm(norm: Norm) {
    forall v :: 0.0 <= norm(v) && (norm(v) == 0.0 <==> v == Zero)
  }

  /** Scaling a vector by `c` scales its length by `|c|`. */
  ghost predicate IsHomogeneous(norm: Norm) {
    forall v, c :: norm(Scale(v, c)) == Abs(c) * norm(v)
  }

  /** `a.distanceTo(b)`: the length of the difference `a - b`. */
  function Distance(norm: Norm, a: Vec3, b: Vec3): real {
    norm(Sub(a, b))
  }

  lemma AddZero(v: Vec3)
    ensures Add(v, Zero) == v
  {
  }
}
