/**
 * The 3-vector helpers: positions, velocities and forces are three-component
 * arrays, combined component by component.
 */
module Vectors {
  import opened Host

  datatype Vec3 = Vec3(x: real, y: real, z: real)

  const Zero: Vec3 := Vec3(0.0, 0.0, 0.0)

  /** `vectorAdd` */
  function Add(a: Vec3, b: Vec3): Vec3 {
    Vec3(a.x + b.x, a.y + b.y, a.z + b.z)
  }

  /** `vectorSub`: the difference is what must be added to `b` to reach `a`. */
  function Sub(a: Vec3, b: Vec3): (r: Vec3)
    ensures Add(b, r) == a
  {
    Vec3(a.x - b.x, a.y - b.y, a.z - b.z)
  }

  /** `vectorScale` */
  function Scale(v: Vec3, k: real): Vec3 {
    Vec3(v.x * k, v.y * k, v.z * k)
  }

  /** Componentwise negation; the source writes it out as `-c[0], -c[1], -c[2]`. */
  function Neg(v: Vec3): (r: Vec3)
    ensures Add(v, r) == Zero
  {
    Vec3(-v.x, -v.y, -v.z)
  }

  /** `vectorDistSquared` */
  function DistSquared(v: Vec3): real {
    v.x * v.x + v.y * v.y + v.z * v.z
  }

  lemma SquareEven(a: real)
    ensures (-a) * (-a) == a * a
  {
  }

  /** `vectorDist`: the host's square root of the squared length. */
  function Dist(v: Vec3, sqrt: real -> real): (r: real)
    requires SqrtNonZero(sqrt)
    ensures DistSquared(v) != 0.0 ==> r != 0.0
  {
    sqrt(DistSquared(v))
  }

  /** `vectorNormalize`: scale by the reciprocal of the length. */
  function Normalize(v: Vec3, sqrt: real -> real): Vec3
    requires SqrtNonZero(sqrt) && DistSquared(v) != 0.0
  {
    Scale(v, 1.0 / Dist(v, sqrt))
  }

  /** `vectorSub` is antisymmetric. */
  lemma SubAntisymmetric(a: Vec3, b: Vec3)
    ensures Sub(a, b) == Neg(Sub(b, a))
  {
  }

  /** The squared length, and so the length, do not see the sign of the vector. */
  lemma DistEven(v: Vec3, sqrt: real -> real)
    requires SqrtNonZero(sqrt)
    ensures DistSquared(Neg(v)) == DistSquared(v)
    ensures Dist(Neg(v), sqrt) == Dist(v, sqrt)
  {
    SquareEven(v.x);
    SquareEven(v.y);
    SquareEven(v.z);
  }

  /** Normalizing commutes with negation: the unit vector of `-v` is minus that of `v`. */
  lemma NormalizeOdd(v: Vec3, sqrt: real -> real)
    requires SqrtNonZero(sqrt) && DistSquared(v) != 0.0
    ensures DistSquared(Neg(v)) != 0.0
    ensures Normalize(Neg(v), sqrt) == Neg(Normalize(v, sqrt))
  {
    DistEven(v, sqrt);
    var k := 1.0 / Dist(v, sqrt);
    assert (-v.x) * k == -(v.x * k);
    assert (-v.y) * k == -(v.y * k);
    assert (-v.z) * k == -(v.z * k);
  }

  /** Scaling by a factor commutes with negation. */
  lemma ScaleNeg(v: Vec3, k: real)
    ensures Scale(Neg(v), k) == Neg(Scale(v, k))
  {
  }

  /** Scaling distributes over a sum of factors. */
  lemma ScaleDistributes(v: Vec3, a: real, b: real)
    ensures Scale(v, a + b) == Add(Scale(v, a), Scale(v, b))
  {
    assert v.x * (a + b) == v.x * a + v.x * b;
    assert v.y * (a + b) == v.y * a + v.y * b;
    assert v.z * (a + b) == v.z * a + v.z * b;
  }
}
