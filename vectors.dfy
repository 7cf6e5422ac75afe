/**
 * The nclgl maths types the physics core is written against: Vector3 with its
 * operators, Quaternion, Matrix3, Matrix4, Plane and the edge record used by the
 * collision shapes. Every scalar is a `real`; floating-point rounding is not modelled.
 *
 * The few library routines whose code is not part of this model (sqrtf,
 * Vector3::Normalise, Vector3::Length, Plane::PointInPlane and the quaternion
 * integration step) are gathered in `Numerics`, a value every operation that needs
 * them receives as a parameter.
 */
module Vectors {

  datatype Vector3 = Vector3(x: real, y: real, z: real)

  const Zero: Vector3 := Vector3(0.0, 0.0, 0.0)

  /** FLT_MAX, the largest finite single-precision value, written out exactly. */
  const FltMax: real := 340282346638528859811704183484516925440.0

  function Add(a: Vector3, b: Vector3): Vector3 {
    Vector3(a.x + b.x, a.y + b.y, a.z + b.z)
  }

  function Sub(a: Vector3, b: Vector3): Vector3 {
    Vector3(a.x - b.x, a.y - b.y, a.z - b.z)
  }

  function Neg(a: Vector3): Vector3 {
    Vector3(-a.x, -a.y, -a.z)
  }

  function Scale(a: Vector3, s: real): Vector3 {
    Vector3(a.x * s, a.y * s, a.z * s)
  }

  function Dot(a: Vector3, b: Vector3): real {
    a.x * b.x + a.y * b.y + a.z * b.z
  }

  function Cross(a: Vector3, b: Vector3): Vector3 {
    Vector3(a.y * b.z - a.z * b.y, a.z * b.x - a.x * b.z, a.x * b.y - a.y * b.x)
  }

  /** Squared distance between two points. */
  function DistSq(a: Vector3, b: Vector3): real {
    Dot(Sub(a, b), Sub(a, b))
  }

  function Min(a: real, b: real): real { if a < b then a else b }

  function Max(a: real, b: real): real { if a < b then b else a }

  function Abs(a: real): real { if a < 0.0 then -a else a }

  /** A quaternion (x, y, z, w); the identity is (0, 0, 0, 1). */
  datatype Quaternion = Quaternion(x: real, y: real, z: real, w: real)

  const IdentityQuaternion: Quaternion := Quaternion(0.0, 0.0, 0.0, 1.0)

  /** A 3x3 matrix given by its rows. */
  datatype Matrix3 = Matrix3(r0: Vector3, r1: Vector3, r2: Vector3)

  const ZeroMatrix3: Matrix3 := Matrix3(Zero, Zero, Zero)

  /** Matrix3 * Vector3. */
  function MulVec(m: Matrix3, v: Vector3): Vector3 {
    Vector3(Dot(m.r0, v), Dot(m.r1, v), Dot(m.r2, v))
  }

  /** The quadratic form v.(M v) of a matrix. */
  function QuadraticForm(m: Matrix3, v: Vector3): real {
    Dot(v, MulVec(m, v))
  }

  /** An inverse inertia tensor that never turns a torque against its own axis. */
  ghost predicate PositiveSemiDefinite(m: Matrix3) {
    forall v :: 0.0 <= QuadraticForm(m, v)
  }

  /** A 4x4 matrix, kept as its sixteen entries; no operation on it is modelled. */
  datatype Matrix4 = Matrix4(values: seq<real>)

  /** A plane n.p + d = 0. */
  datatype Plane = Plane(normal: Vector3, distance: real)

  function SignedDistance(plane: Plane, p: Vector3): real {
    Dot(p, plane.normal) + plane.distance
  }

  /** One edge of a collision shape, from posA to posB. */
  datatype CollisionEdge = CollisionEdge(posA: Vector3, posB: Vector3)

  /**
   * The routines of the maths library and the C runtime the core calls but whose
   * code is not part of this model.
   *   sqrt                 sqrtf
   *   normalise            the vector Vector3::Normalise leaves behind
   *   length               Vector3::Length
   *   pointInPlane         Plane::PointInPlane
   *   integrateOrientation q + q * (halfAngle), then Quaternion::Normalise
   */
  datatype Numerics = Numerics(
    sqrt: real -> real,
    normalise: Vector3 -> Vector3,
    length: Vector3 -> real,
    pointInPlane: (Plane, Vector3) -> bool,
    integrateOrientation: (Quaternion, Vector3) -> Quaternion)
  {
    /** The one law the model relies on: a square root is never negative. */
    ghost predicate SqrtNonNegative() {
      forall r :: 0.0 <= r ==> 0.0 <= sqrt(r)
    }
  }

  /**
   * Vector3::Dot(n, ((I * (r x n)) x r)), the rotational share of the effective mass
   * along n, is u.(I u) for u = r x n, so it is never negative for a
   * positive semi-definite I.
   */
  lemma RotationalTermNonNegative(inertia: Matrix3, r: Vector3, n: Vector3)
    requires PositiveSemiDefinite(inertia)
    ensures 0.0 <= Dot(n, Cross(MulVec(inertia, Cross(r, n)), r))
  {
    var u := Cross(r, n);
    var w := MulVec(inertia, u);
    TripleProduct(n, w, r);
    assert 0.0 <= QuadraticForm(inertia, u);
  }

  /** The scalar triple product is invariant under cyclic rotation: n.(w x r) == w.(r x n). */
  lemma TripleProduct(n: Vector3, w: Vector3, r: Vector3)
    ensures Dot(n, Cross(w, r)) == Dot(w, Cross(r, n))
  {
  }
}
