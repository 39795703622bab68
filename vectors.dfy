/** Exact 3-vector algebra over the reals: the part of numpy the engine uses
    (componentwise add, subtract, scale and divide, the dot and cross
    products). The Euclidean norm needs a square root, which `real` lacks, so
    it is never defined here: callers pass the norm in as a function and
    `IsNorm` says what is known of it. */
module Vectors {

  datatype Vec = Vec(x: real, y: real, z: real)

  const Zero := Vec(0.0, 0.0, 0.0)

  function Add(a: Vec, b: Vec): Vec {
    Vec(a.x + b.x, a.y + b.y, a.z + b.z)
  }

  function Sub(a: Vec, b: Vec): Vec {
    Vec(a.x - b.x, a.y - b.y, a.z - b.z)
  }

  function Neg(a: Vec): Vec {
    Vec(-a.x, -a.y, -a.z)
  }

  /** `a * k`, a vector times a scalar */
  function Scale(a: Vec, k: real): Vec {
    Vec(a.x * k, a.y * k, a.z * k)
  }

  /** `np.divide(a, d)`, every component divided by `d` */
  function Div(a: Vec, d: real): Vec
    requires d != 0.0
  {
    Vec(a.x / d, a.y / d, a.z / d)
  }

  function Dot(a: Vec, b: Vec): real {
    a.x * b.x + a.y * b.y + a.z * b.z
  }

  /** `np.cross(a, b)` */
  function Cross(a: Vec, b: Vec): Vec {
    Vec(a.y * b.z - a.z * b.y,
        a.z * b.x - a.x * b.z,
        a.x * b.y - a.y * b.x)
  }

  /** What `np.linalg.norm` is: non-negative, and its square is the dot
      product of the vector with itself. */
  ghost predicate IsNorm(norm: Vec -> real) {
    forall v :: norm(v) >= 0.0 && norm(v) * norm(v) == Dot(v, v)
  }

  /** A product of two non-zero reals is non-zero. */
  lemma MulNonZero(x: real, y: real)
    requires x != 0.0 && y != 0.0
    ensures x * y != 0.0
  {
  }

  /** A square is non-negative, and positive unless its root is zero. */
  lemma SquarePositive(r: real)
    ensures r * r >= 0.0
    ensures r != 0.0 ==> r * r > 0.0
  {
    if r != 0.0 {
      MulNonZero(r, r);
    }
  }

  /** Two non-negative reals with the same square are equal. */
  lemma SquareInjective(a: real, b: real)
    requires a >= 0.0 && b >= 0.0 && a * a == b * b
    ensures a == b
  {
    assert (a - b) * (a + b) == a * a - b * b;
    if a != b {
      MulNonZero(a - b, a + b);
    }
  }

  /** Reversing a vector keeps its length. */
  lemma NormNeg(norm: Vec -> real, v: Vec)
    requires IsNorm(norm)
    ensures norm(Neg(v)) == norm(v)
  {
    assert Dot(Neg(v), Neg(v)) == Dot(v, v);
    assert norm(v) >= 0.0 && norm(v) * norm(v) == Dot(v, v);
    assert norm(Neg(v)) >= 0.0 && norm(Neg(v)) * norm(Neg(v)) == Dot(Neg(v), Neg(v));
    SquareInjective(norm(Neg(v)), norm(v));
  }

  /** The cross product is orthogonal to both of its factors. */
  lemma CrossOrthogonal(a: Vec, b: Vec)
    ensures Dot(Cross(a, b), a) == 0.0
    ensures Dot(Cross(a, b), b) == 0.0
  {
  }

  /** The cross product of parallel vectors is the zero vector. */
  lemma CrossParallel(a: Vec, k: real)
    ensures Cross(a, Scale(a, k)) == Zero
  {
  }

  /** `Sub(q, p)` reversed is `Sub(p, q)`. */
  lemma SubAntisymmetric(p: Vec, q: Vec)
    ensures Sub(p, q) == Neg(Sub(q, p))
  {
  }
}
