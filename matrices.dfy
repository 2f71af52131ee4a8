/**
 * 4x4 matrices stored as 16 numbers in row-major order, applied to row
 * vectors (the translation sits in the last row). `MatMul` is the true
 * product; `MultiplyMat4` is the hand-expanded product the renderer uses,
 * including its slip in entry 15.
 */
module Matrices {
  import opened Vectors

  type Mat4 = m: seq<real> | |m| == 16
    witness [0.0, 0.0, 0.0, 0.0, 0.0, 0.0, 0.0, 0.0, 0.0, 0.0, 0.0, 0.0, 0.0, 0.0, 0.0, 0.0]

  /** Row `row` of `a` times column `col` of `b`. */
  function Dot(a: Mat4, b: Mat4, row: nat, col: nat): real
    requires row < 4 && col < 4
  {
    a[4 * row] * b[col] + a[4 * row + 1] * b[4 + col] + a[4 * row + 2] * b[8 + col] + a[4 * row + 3] * b[12 + col]
  }

  /** The first `n` entries of the row-major product `a * b`. */
  function ProductEntries(a: Mat4, b: Mat4, n: nat): (r: seq<real>)
    requires n <= 16
    ensures |r| == n
  {
    if n == 0 then [] else ProductEntries(a, b, n - 1) + [Dot(a, b, (n - 1) / 4, (n - 1) % 4)]
  }

  /** The row-major product `a * b`. */
  function MatMul(a: Mat4, b: Mat4): Mat4 {
    ProductEntries(a, b, 16)
  }

  lemma {:induction false} ProductEntriesAt(a: Mat4, b: Mat4, n: nat, k: nat)
    requires k < n <= 16
    ensures ProductEntries(a, b, n)[k] == Dot(a, b, k / 4, k % 4)
  {
    if k < n - 1 {
      ProductEntriesAt(a, b, n - 1, k);
    }
  }

  /** Entry `k` of the product is row `k / 4` of `a` times column `k % 4` of `b`. */
  lemma MatMulEntry(a: Mat4, b: Mat4, k: nat)
    requires k < 16
    ensures MatMul(a, b)[k] == Dot(a, b, k / 4, k % 4)
  {
    ProductEntriesAt(a, b, 16, k);
  }

  /** Every entry of the product, spelled out. */
  lemma MatMulEntries(a: Mat4, b: Mat4)
    ensures var p := MatMul(a, b);
      p[0] == Dot(a, b, 0, 0) && p[1] == Dot(a, b, 0, 1) && p[2] == Dot(a, b, 0, 2) && p[3] == Dot(a, b, 0, 3) &&
      p[4] == Dot(a, b, 1, 0) && p[5] == Dot(a, b, 1, 1) && p[6] == Dot(a, b, 1, 2) && p[7] == Dot(a, b, 1, 3) &&
      p[8] == Dot(a, b, 2, 0) && p[9] == Dot(a, b, 2, 1) && p[10] == Dot(a, b, 2, 2) && p[11] == Dot(a, b, 2, 3) &&
      p[12] == Dot(a, b, 3, 0) && p[13] == Dot(a, b, 3, 1) && p[14] == Dot(a, b, 3, 2) && p[15] == Dot(a, b, 3, 3)
  {
    forall k | 0 <= k < 16
      ensures MatMul(a, b)[k] == Dot(a, b, k / 4, k % 4)
    {
      MatMulEntry(a, b, k);
    }
  }

  const Identity: Mat4 := [
    1.0, 0.0, 0.0, 0.0,
    0.0, 1.0, 0.0, 0.0,
    0.0, 0.0, 1.0, 0.0,
    0.0, 0.0, 0.0, 1.0]

  /**
   * `multiplyMat4` exactly as written: every entry is the true product's
   * except entry 15, which reads `a[15] * b[11]` where `a[14] * b[11]`
   * belongs, and so is off by `(a[15] - a[14]) * b[11]`.
   */
  function MultiplyMat4(a: Mat4, b: Mat4): (r: Mat4)
    ensures forall k :: 0 <= k < 15 ==> r[k] == MatMul(a, b)[k]
    ensures r[15] == MatMul(a, b)[15] + (a[15] - a[14]) * b[11]
  {
    var e0 := a[ 0]*b[0]+a[ 1]*b[4]+a[ 2]*b[8]+a[ 3]*b[12];
    var e1 := a[ 0]*b[1]+a[ 1]*b[5]+a[ 2]*b[9]+a[ 3]*b[13];
    var e2 := a[ 0]*b[2]+a[ 1]*b[6]+a[ 2]*b[10]+a[ 3]*b[14];
    var e3 := a[ 0]*b[3]+a[ 1]*b[7]+a[ 2]*b[11]+a[ 3]*b[15];
    var e4 := a[ 4]*b[0]+a[ 5]*b[4]+a[ 6]*b[8]+a[ 7]*b[12];
    var e5 := a[ 4]*b[1]+a[ 5]*b[5]+a[ 6]*b[9]+a[ 7]*b[13];
    var e6 := a[ 4]*b[2]+a[ 5]*b[6]+a[ 6]*b[10]+a[ 7]*b[14];
    var e7 := a[ 4]*b[3]+a[ 5]*b[7]+a[ 6]*b[11]+a[ 7]*b[15];
    var e8 := a[ 8]*b[0]+a[ 9]*b[4]+a[10]*b[8]+a[11]*b[12];
    var e9 := a[ 8]*b[1]+a[ 9]*b[5]+a[10]*b[9]+a[11]*b[13];
    var e10 := a[ 8]*b[2]+a[ 9]*b[6]+a[10]*b[10]+a[11]*b[14];
    var e11 := a[ 8]*b[3]+a[ 9]*b[7]+a[10]*b[11]+a[11]*b[15];
    var e12 := a[12]*b[0]+a[13]*b[4]+a[14]*b[8]+a[15]*b[12];
    var e13 := a[12]*b[1]+a[13]*b[5]+a[14]*b[9]+a[15]*b[13];
    var e14 := a[12]*b[2]+a[13]*b[6]+a[14]*b[10]+a[15]*b[14];
    var e15 := a[12]*b[3]+a[13]*b[7]+a[15]*b[11]+a[15]*b[15];
    var p := MatMul(a, b);
    MatMulEntries(a, b);
    assert e0 == p[0] && e1 == p[1] && e2 == p[2] && e3 == p[3];
    assert e4 == p[4] && e5 == p[5] && e6 == p[6] && e7 == p[7];
    assert e8 == p[8] && e9 == p[9] && e10 == p[10] && e11 == p[11];
    assert e12 == p[12] && e13 == p[13] && e14 == p[14];
    assert e15 == p[15] + (a[15] - a[14]) * b[11];
    [e0, e1, e2, e3, e4, e5, e6, e7, e8, e9, e10, e11, e12, e13, e14, e15]
  }

  /**
   * The slip is harmless exactly when the right operand has a zero in entry
   * 11 or the left operand has equal entries 14 and 15.
   */
  lemma MultiplyMat4ExactWhen(a: Mat4, b: Mat4)
    ensures MultiplyMat4(a, b) == MatMul(a, b) <==> (a[15] - a[14]) * b[11] == 0.0
  {
    var r, p := MultiplyMat4(a, b), MatMul(a, b);
    if (a[15] - a[14]) * b[11] == 0.0 {
      assert forall k :: 0 <= k < 16 ==> r[k] == p[k];
    } else {
      assert r[15] != p[15];
    }
  }

  /** The left identity law fails for `multiplyMat4`: multiplying the identity into a matrix with a 1 in entry 11 adds 1 to entry 15. */
  lemma MultiplyMat4NotLeftIdentity()
    ensures var b := Identity[11 := 1.0]; MultiplyMat4(Identity, b) != b
  {
    var b := Identity[11 := 1.0];
    assert MultiplyMat4(Identity, b)[15] == 2.0;
  }

  /** The identity is a two-sided unit of the true product. */
  lemma MatMulIdentity(a: Mat4)
    ensures MatMul(Identity, a) == a
    ensures MatMul(a, Identity) == a
  {
    MatMulEntries(Identity, a);
    MatMulEntries(a, Identity);
    assert forall k :: 0 <= k < 16 ==> MatMul(Identity, a)[k] == a[k];
    assert forall k :: 0 <= k < 16 ==> MatMul(a, Identity)[k] == a[k];
  }

  /**
   * An affine transform for row vectors: its last column is (0, 0, 0, 1), so
   * a point keeps w = 1 and nothing is divided by depth.
   */
  predicate Affine(m: Mat4) {
    m[3] == 0.0 && m[7] == 0.0 && m[11] == 0.0 && m[15] == 1.0
  }

  /** Affine transforms compose to an affine transform. */
  lemma AffineProduct(a: Mat4, b: Mat4)
    requires Affine(a) && Affine(b)
    ensures Affine(MatMul(a, b))
  {
    MatMulEntries(a, b);
    var p := MatMul(a, b);
    assert p[3] == a[3] * b[15];
    assert p[7] == a[7] * b[15];
    assert p[11] == a[11] * b[15];
    assert p[15] == a[15] * b[15];
  }

  /** On an affine right operand `multiplyMat4` is the true product. */
  lemma MultiplyMat4Affine(a: Mat4, b: Mat4)
    requires Affine(b)
    ensures MultiplyMat4(a, b) == MatMul(a, b)
  {
    MultiplyMat4ExactWhen(a, b);
  }

  /** A scaling matrix (also the shape of the projection matrix). */
  function ScalingMatrix(sx: real, sy: real, sz: real): (m: Mat4)
    ensures Affine(m)
  {
    [ sx, 0.0, 0.0, 0.0,
     0.0,  sy, 0.0, 0.0,
     0.0, 0.0,  sz, 0.0,
     0.0, 0.0, 0.0, 1.0]
  }

  /** A rotation about the z axis, given the cosine and sine of its angle. */
  function ZRotationMatrix(cosine: real, sine: real): (m: Mat4)
    ensures Affine(m)
  {
    [cosine,  -sine, 0.0, 0.0,
       sine, cosine, 0.0, 0.0,
        0.0,    0.0, 1.0, 0.0,
        0.0,    0.0, 0.0, 1.0]
  }

  /** A rotation about the y axis, given the cosine and sine of its angle. */
  function YRotationMatrix(cosine: real, sine: real): (m: Mat4)
    ensures Affine(m)
  {
    [cosine, 0.0,   sine, 0.0,
        0.0, 1.0,    0.0, 0.0,
      -sine, 0.0, cosine, 0.0,
        0.0, 0.0,    0.0, 1.0]
  }

  /** A translation by `p`, in the last row. */
  function TranslationMatrix(p: Vec3): (m: Mat4)
    ensures Affine(m)
  {
    [1.0, 0.0, 0.0, 0.0,
     0.0, 1.0, 0.0, 0.0,
     0.0, 0.0, 1.0, 0.0,
     p.x, p.y, p.z, 1.0]
  }

  /** The true product of the factors, left to right. */
  function ChainProduct(ms: seq<Mat4>): Mat4
    requires |ms| > 0
  {
    if |ms| == 1 then ms[0] else MatMul(ChainProduct(ms[..|ms| - 1]), ms[|ms| - 1])
  }

  predicate AllAffine(ms: seq<Mat4>) {
    forall i :: 0 <= i < |ms| ==> Affine(ms[i])
  }

  /** A chain of affine factors multiplies out to an affine transform. */
  lemma {:induction false} ChainProductAffine(ms: seq<Mat4>)
    requires |ms| > 0 && AllAffine(ms)
    ensures Affine(ChainProduct(ms))
  {
    if |ms| > 1 {
      ChainProductAffine(ms[..|ms| - 1]);
      AffineProduct(ChainProduct(ms[..|ms| - 1]), ms[|ms| - 1]);
    }
  }
}
