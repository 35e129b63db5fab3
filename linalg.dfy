/** Fixed-size real linear algebra used by the Sim(2) model: 2-vectors,
    homogeneous 3-vectors, 2x2 and 3x3 matrices, their products, and the
    orthonormality of a 2x2 matrix. Numbers are exact reals. */
module LinAlg {

  datatype Vec2 = Vec2(x: real, y: real)

  /** A homogeneous point (x, y, w). */
  datatype Vec3 = Vec3(x: real, y: real, w: real)

  /** A 2x2 matrix, entries named by row and column. */
  datatype Mat2 = Mat2(m00: real, m01: real, m10: real, m11: real)

  /** A 3x3 matrix, entries named by row and column. */
  datatype Mat3 = Mat3(m00: real, m01: real, m02: real,
                       m10: real, m11: real, m12: real,
                       m20: real, m21: real, m22: real)

  const Zero2: Vec2 := Vec2(0.0, 0.0)
  const Identity2: Mat2 := Mat2(1.0, 0.0, 0.0, 1.0)
  const Identity3: Mat3 := Mat3(1.0, 0.0, 0.0, 0.0, 1.0, 0.0, 0.0, 0.0, 1.0)

  function Add(u: Vec2, v: Vec2): Vec2 {
    Vec2(u.x + v.x, u.y + v.y)
  }

  function ScaleVec(k: real, v: Vec2): Vec2 {
    Vec2(k * v.x, k * v.y)
  }

  /** Matrix-vector product A·v. */
  function Apply(A: Mat2, v: Vec2): Vec2 {
    Vec2(A.m00 * v.x + A.m01 * v.y, A.m10 * v.x + A.m11 * v.y)
  }

  /** Matrix product A·B. */
  function Mul(A: Mat2, B: Mat2): Mat2 {
    Mat2(A.m00 * B.m00 + A.m01 * B.m10, A.m00 * B.m01 + A.m01 * B.m11,
         A.m10 * B.m00 + A.m11 * B.m10, A.m10 * B.m01 + A.m11 * B.m11)
  }

  function Transpose(A: Mat2): Mat2 {
    Mat2(A.m00, A.m10, A.m01, A.m11)
  }

  /** Entry (i, j) of a 2x2 matrix. */
  function At(A: Mat2, i: nat, j: nat): real
    requires i < 2 && j < 2
  {
    if i == 0 then (if j == 0 then A.m00 else A.m01)
    else (if j == 0 then A.m10 else A.m11)
  }

  /** Matrix product A·B of 3x3 matrices. */
  function Mul3(A: Mat3, B: Mat3): Mat3 {
    Mat3(A.m00 * B.m00 + A.m01 * B.m10 + A.m02 * B.m20,
         A.m00 * B.m01 + A.m01 * B.m11 + A.m02 * B.m21,
         A.m00 * B.m02 + A.m01 * B.m12 + A.m02 * B.m22,
         A.m10 * B.m00 + A.m11 * B.m10 + A.m12 * B.m20,
         A.m10 * B.m01 + A.m11 * B.m11 + A.m12 * B.m21,
         A.m10 * B.m02 + A.m11 * B.m12 + A.m12 * B.m22,
         A.m20 * B.m00 + A.m21 * B.m10 + A.m22 * B.m20,
         A.m20 * B.m01 + A.m21 * B.m11 + A.m22 * B.m21,
         A.m20 * B.m02 + A.m21 * B.m12 + A.m22 * B.m22)
  }

  /** Matrix-vector product A·h of a 3x3 matrix and a homogeneous point. */
  function Apply3(A: Mat3, h: Vec3): Vec3 {
    Vec3(A.m00 * h.x + A.m01 * h.y + A.m02 * h.w,
         A.m10 * h.x + A.m11 * h.y + A.m12 * h.w,
         A.m20 * h.x + A.m21 * h.y + A.m22 * h.w)
  }

  /** The 3x3 block matrix [[R, t], [0, 0, w]]. */
  function Block(R: Mat2, t: Vec2, w: real): Mat3 {
    Mat3(R.m00, R.m01, t.x,
         R.m10, R.m11, t.y,
         0.0, 0.0, w)
  }

  /** A 3x3 matrix whose bottom row starts with two zeros, as every
      homogeneous similarity matrix does. */
  predicate Affine(A: Mat3) {
    A.m20 == 0.0 && A.m21 == 0.0
  }

  /** A product with a zero factor is zero. */
  lemma ZeroTimes(z: real, x: real)
    requires z == 0.0
    ensures x * z == 0.0 && z * x == 0.0
  {
  }

  /** The first row of the top-left 2x2 block of a product of affine
      matrices is that of the product of the top-left blocks. */
  lemma AffineMulTopRow(A: Mat3, B: Mat3)
    requires Affine(B)
    ensures Mul3(A, B).m00 == A.m00 * B.m00 + A.m01 * B.m10
    ensures Mul3(A, B).m01 == A.m00 * B.m01 + A.m01 * B.m11
  {
    ZeroTimes(B.m20, A.m02);
    ZeroTimes(B.m21, A.m02);
  }

  /** The second row of the top-left 2x2 block, likewise. */
  lemma AffineMulMiddleRow(A: Mat3, B: Mat3)
    requires Affine(B)
    ensures Mul3(A, B).m10 == A.m10 * B.m00 + A.m11 * B.m10
    ensures Mul3(A, B).m11 == A.m10 * B.m01 + A.m11 * B.m11
  {
    ZeroTimes(B.m20, A.m12);
    ZeroTimes(B.m21, A.m12);
  }

  /** The right column of a product of affine matrices. */
  lemma AffineMulRight(A: Mat3, B: Mat3)
    requires Affine(A) && Affine(B)
    ensures Mul3(A, B).m02 == A.m00 * B.m02 + A.m01 * B.m12 + A.m02 * B.m22
    ensures Mul3(A, B).m12 == A.m10 * B.m02 + A.m11 * B.m12 + A.m12 * B.m22
  {
  }

  /** The bottom row of a product of affine matrices is (0, 0, A22·B22). */
  lemma AffineMulBottom(A: Mat3, B: Mat3)
    requires Affine(A) && Affine(B)
    ensures Mul3(A, B).m20 == 0.0 && Mul3(A, B).m21 == 0.0
    ensures Mul3(A, B).m22 == A.m22 * B.m22
  {
    ZeroTimes(A.m20, B.m00);
    ZeroTimes(A.m21, B.m10);
    ZeroTimes(B.m20, A.m22);
    ZeroTimes(A.m20, B.m01);
    ZeroTimes(A.m21, B.m11);
    ZeroTimes(B.m21, A.m22);
    ZeroTimes(A.m20, B.m02);
    ZeroTimes(A.m21, B.m12);
  }

  /** The product of two block matrices is a block matrix:
      [[R1, t1], [0, w1]]·[[R2, t2], [0, w2]] = [[R1·R2, R1·t2 + w2·t1], [0, w1·w2]]. */
  lemma BlockMul(R1: Mat2, t1: Vec2, w1: real, R2: Mat2, t2: Vec2, w2: real)
    ensures Mul3(Block(R1, t1, w1), Block(R2, t2, w2))
         == Block(Mul(R1, R2), Add(Apply(R1, t2), ScaleVec(w2, t1)), w1 * w2)
  {
    var A, B := Block(R1, t1, w1), Block(R2, t2, w2);
    AffineMulTopRow(A, B);
    AffineMulMiddleRow(A, B);
    AffineMulRight(A, B);
    AffineMulBottom(A, B);
  }

  /** A block matrix applied to the homogeneous point (p, 1) gives (R·p + t, w). */
  lemma BlockApply(R: Mat2, t: Vec2, w: real, p: Vec2)
    ensures Apply3(Block(R, t, w), Vec3(p.x, p.y, 1.0)) == Vec3(Add(Apply(R, p), t).x, Add(Apply(R, p), t).y, w)
  {
  }

  /** R is orthonormal when its transpose is a left inverse: RᵀR = I. */
  predicate Orthonormal(R: Mat2) {
    Mul(Transpose(R), R) == Identity2
  }

  /** The rotation matrix [[c, -s], [s, c]] for cos = c, sin = s. */
  function Rot(c: real, s: real): Mat2 {
    Mat2(c, -s, s, c)
  }

  /** For a square matrix a left inverse is also a right inverse: RᵀR = I
      gives RRᵀ = I. The columns (a, c) and (b, d) are unit and orthogonal,
      so (b, d) = D·(-c, a) with D = ad - bc and D² = 1. */
  lemma OrthonormalRightInverse(R: Mat2)
    requires Orthonormal(R)
    ensures Mul(R, Transpose(R)) == Identity2
  {
    var a, b, c, d := R.m00, R.m01, R.m10, R.m11;
    assert a * a + c * c == 1.0 && b * b + d * d == 1.0 && a * b + c * d == 0.0;
    var D := a * d - b * c;
    assert b == -c * D by {
      calc {
        b;
        b * (a * a + c * c);
        a * (a * b) + b * c * c;
        { assert a * b == -(c * d); }
        a * (-(c * d)) + b * c * c;
        -c * D;
      }
    }
    assert d == a * D by {
      calc {
        d;
        d * (a * a + c * c);
        a * a * d + c * (c * d);
        { assert c * d == -(a * b); }
        a * a * d + c * (-(a * b));
        a * D;
      }
    }
    assert D * D == 1.0 by {
      calc {
        1.0;
        b * b + d * d;
        (c * D) * (c * D) + (a * D) * (a * D);
        (a * a + c * c) * (D * D);
        D * D;
      }
    }
    assert a * a + b * b == 1.0 by {
      calc {
        a * a + b * b;
        a * a + (c * c) * (D * D);
        a * a + c * c;
      }
    }
    assert c * c + d * d == 1.0 by {
      calc {
        c * c + d * d;
        c * c + (a * a) * (D * D);
        c * c + a * a;
      }
    }
    assert a * c + b * d == 0.0 by {
      calc {
        a * c + b * d;
        a * c + (-c * D) * (a * D);
        a * c - (a * c) * (D * D);
        0.0;
      }
    }
  }

  /** Matrix product is associative. */
  lemma MulAssoc(A: Mat2, B: Mat2, C: Mat2)
    ensures Mul(Mul(A, B), C) == Mul(A, Mul(B, C))
  {
    var e1, e2 := Vec2(1.0, 0.0), Vec2(0.0, 1.0);
    ApplyMul(Mul(A, B), C, e1);
    ApplyMul(Mul(A, B), C, e2);
    ApplyMul(A, Mul(B, C), e1);
    ApplyMul(A, Mul(B, C), e2);
    ApplyMul(A, B, Apply(C, e1));
    ApplyMul(A, B, Apply(C, e2));
    ApplyMul(B, C, e1);
    ApplyMul(B, C, e2);
    ColumnsDetermine(Mul(Mul(A, B), C), Mul(A, Mul(B, C)));
  }

  /** The transpose of a product is the product of the transposes in the
      opposite order. */
  lemma TransposeMul(A: Mat2, B: Mat2)
    ensures Transpose(Mul(A, B)) == Mul(Transpose(B), Transpose(A))
  {
  }

  /** The identity matrix is a unit for the product on both sides. */
  lemma MulIdentity(A: Mat2)
    ensures Mul(Identity2, A) == A && Mul(A, Identity2) == A
  {
  }

  /** Products of orthonormal matrices are orthonormal:
      (AB)ᵀ(AB) = Bᵀ(AᵀA)B = BᵀB = I. */
  lemma MulOrthonormal(A: Mat2, B: Mat2)
    requires Orthonormal(A) && Orthonormal(B)
    ensures Orthonormal(Mul(A, B))
  {
    var At, Bt := Transpose(A), Transpose(B);
    calc {
      Mul(Transpose(Mul(A, B)), Mul(A, B));
      { TransposeMul(A, B); }
      Mul(Mul(Bt, At), Mul(A, B));
      { MulAssoc(Bt, At, Mul(A, B)); }
      Mul(Bt, Mul(At, Mul(A, B)));
      { MulAssoc(At, A, B); }
      Mul(Bt, Mul(Mul(At, A), B));
      { MulIdentity(B); }
      Mul(Bt, B);
      Identity2;
    }
  }

  /** The transpose of an orthonormal matrix is orthonormal. */
  lemma TransposeOrthonormal(A: Mat2)
    requires Orthonormal(A)
    ensures Orthonormal(Transpose(A))
  {
    OrthonormalRightInverse(A);
    assert Transpose(Transpose(A)) == A;
  }

  /** A matrix is determined by the images of the two unit vectors. */
  lemma ColumnsDetermine(M: Mat2, N: Mat2)
    requires Apply(M, Vec2(1.0, 0.0)) == Apply(N, Vec2(1.0, 0.0))
    requires Apply(M, Vec2(0.0, 1.0)) == Apply(N, Vec2(0.0, 1.0))
    ensures M == N
  {
  }

  /** Applying a product is applying the factors in turn. */
  lemma ApplyMul(A: Mat2, B: Mat2, v: Vec2)
    ensures Apply(Mul(A, B), v) == Apply(A, Apply(B, v))
  {
  }

  /** Apply distributes over vector addition. */
  lemma ApplyAdd(A: Mat2, u: Vec2, v: Vec2)
    ensures Apply(A, Add(u, v)) == Add(Apply(A, u), Apply(A, v))
  {
  }

  /** Apply commutes with scaling. */
  lemma ApplyScale(A: Mat2, k: real, u: Vec2)
    ensures Apply(A, ScaleVec(k, u)) == ScaleVec(k, Apply(A, u))
  {
  }

  /** Vector addition is associative. */
  lemma AddAssoc(u: Vec2, v: Vec2, w: Vec2)
    ensures Add(Add(u, v), w) == Add(u, Add(v, w))
  {
  }

  /** Scaling twice is scaling by the product. */
  lemma ScaleScale(j: real, k: real, v: Vec2)
    ensures ScaleVec(j, ScaleVec(k, v)) == ScaleVec(j * k, v)
  {
  }

  /** Scaling distributes over vector addition. */
  lemma ScaleAdd(k: real, u: Vec2, v: Vec2)
    ensures ScaleVec(k, Add(u, v)) == Add(ScaleVec(k, u), ScaleVec(k, v))
  {
  }

  /** Scaling by k and then by 1/k changes nothing. */
  lemma ScaleCancel(k: real, v: Vec2)
    requires k != 0.0
    ensures ScaleVec(k, ScaleVec(1.0 / k, v)) == v
    ensures ScaleVec(1.0 / k, ScaleVec(k, v)) == v
  {
    ScaleScale(k, 1.0 / k, v);
    ScaleScale(1.0 / k, k, v);
  }

  /** Scaling by 1/b and then by 1/c is scaling by 1/(b·c). */
  lemma ScaleReciprocals(b: real, c: real, v: Vec2)
    requires b != 0.0 && c != 0.0
    ensures ScaleVec(1.0 / c, ScaleVec(1.0 / b, v)) == ScaleVec(1.0 / (b * c), v)
  {
    ScaleScale(1.0 / c, 1.0 / b, v);
    assert (1.0 / c) * (1.0 / b) == 1.0 / (b * c);
  }

  /** Scaling v by -k and then by 1/k gives -v, so adding v cancels it. */
  lemma UnscaleNegated(k: real, v: Vec2)
    requires k != 0.0
    ensures Add(v, ScaleVec(1.0 / k, ScaleVec(-k, v))) == Zero2
  {
    ScaleScale(1.0 / k, -k, v);
    assert (1.0 / k) * (-k) == -1.0;
  }

  /** v + (-1)·v is the zero vector, in either order. */
  lemma AddNegated(k: real, v: Vec2)
    ensures Add(ScaleVec(-k, v), ScaleVec(k, v)) == Zero2
    ensures Add(ScaleVec(k, v), ScaleVec(-k, v)) == Zero2
  {
  }

  /** The identity matrix leaves vectors unchanged. */
  lemma ApplyIdentity(v: Vec2)
    ensures Apply(Identity2, v) == v
  {
  }

  /** Rotation matrices with c² + s² = 1 are orthonormal. */
  lemma RotOrthonormal(c: real, s: real)
    requires c * c + s * s == 1.0
    ensures Orthonormal(Rot(c, s))
  {
  }

  /** Multiplying rotations adds their angles: the product's cosine and sine
      are given by the angle-addition formulas. */
  lemma RotMul(c1: real, s1: real, c2: real, s2: real)
    ensures Mul(Rot(c1, s1), Rot(c2, s2)) == Rot(c1 * c2 - s1 * s2, s1 * c2 + c1 * s2)
  {
  }

  /** 1 / (1 / a) == a, and a scale times its reciprocal, with either
      sign, is ±1. */
  lemma Reciprocal(a: real)
    requires a != 0.0
    ensures 1.0 / a != 0.0 && 1.0 / (1.0 / a) == a
    ensures a * (1.0 / a) == 1.0 && (1.0 / a) * a == 1.0
    ensures (1.0 / a) * (-a) == -1.0 && (-(1.0 / a)) * (-a) == 1.0
  {
  }

  /** 1 / ((1 / a)·(1 / b)) == a·b and 1 / (a·b) == (1 / b)·(1 / a). */
  lemma ReciprocalProduct(a: real, b: real)
    requires a != 0.0 && b != 0.0
    ensures (1.0 / a) * (1.0 / b) != 0.0
    ensures 1.0 / ((1.0 / a) * (1.0 / b)) == a * b
    ensures 1.0 / (a * b) == (1.0 / a) * (1.0 / b) == (1.0 / b) * (1.0 / a)
  {
  }

  /** Dividing by 1 / s multiplies by s. */
  lemma DivideByReciprocal(v: real, s: real)
    requires s != 0.0
    ensures v / (1.0 / s) == s * v
  {
  }
}
