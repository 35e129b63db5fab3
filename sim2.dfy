/** The Sim(2) similarity-transform value type. A value bSa = (R, t, s) maps
    a point p of frame a to the point s·(R·p + t) of frame b; its homogeneous
    form is the 3x3 matrix [[R, t], [0, 0, 1/s]]. Values are never changed:
    every operation returns a new one. */
module Similarity {
  import opened LinAlg

  /** The two error kinds: a zero scale (a division by zero in the
      homogeneous form) and point input that is not an N x 2 array. */
  datatype Error = InvalidScale | InvalidShape

  datatype Result<T> = Ok(value: T) | Err(error: Error)

  /** Rotation block R, translation t (in destination units) and scale s.
      Construction does not check that R is orthonormal. */
  datatype Sim2 = Sim2(R: Mat2, t: Vec2, s: real)

  /** The one invariant every constructed value has: a non-zero scale. */
  predicate Valid(x: Sim2) {
    x.s != 0.0
  }

  /** The identity transform (I, [0, 0], 1). */
  const Identity: Sim2 := Sim2(Identity2, Zero2, 1.0)

  /** Construction from (R, t, s): rejects a zero scale eagerly; otherwise
      the accessors give back exactly the arguments. */
  function New(R: Mat2, t: Vec2, s: real): (r: Result<Sim2>)
    ensures r.Ok? <==> s != 0.0
    ensures r.Err? ==> r.error == InvalidScale
    ensures r.Ok? ==> Valid(r.value) && r.value.R == R && r.value.t == t && r.value.s == s
  {
    if s == 0.0 then Err(InvalidScale) else Ok(Sim2(R, t, s))
  }

  /** Equality compares rotation, translation and scale exactly, component
      by component; it agrees with equality of the values. */
  function Equal(a: Sim2, b: Sim2): (r: bool)
    ensures r <==> a == b
  {
    a.R.m00 == b.R.m00 && a.R.m01 == b.R.m01 && a.R.m10 == b.R.m10 && a.R.m11 == b.R.m11
    && a.t.x == b.t.x && a.t.y == b.t.y
    && a.s == b.s
  }

  /** The homogeneous 3x3 form [[R, t], [0, 0, 1/s]]. */
  function Matrix(x: Sim2): (M: Mat3)
    requires Valid(x)
    ensures Affine(M) && M == Block(x.R, x.t, M.m22)
    ensures M.m22 * x.s == 1.0
  {
    Block(x.R, x.t, 1.0 / x.s)
  }

  /** Decomposition of a 3x3 matrix: R is the top-left block, t the top-right
      column and s = 1 / M[2][2]; the bottom row's first two entries are not
      read. A zero M[2][2] is rejected. The result's own matrix is M exactly
      when M's bottom row starts with two zeros. */
  function FromMatrix(M: Mat3): (r: Result<Sim2>)
    ensures r.Ok? <==> M.m22 != 0.0
    ensures r.Err? ==> r.error == InvalidScale
    ensures r.Ok? ==> Valid(r.value)
    ensures r.Ok? ==> (Matrix(r.value) == M <==> M.m20 == 0.0 && M.m21 == 0.0)
  {
    if M.m22 == 0.0 then Err(InvalidScale)
    else
      var s := 1.0 / M.m22;
      assert 1.0 / s == M.m22 by { Reciprocal(M.m22); }
      New(Mat2(M.m00, M.m01, M.m10, M.m11), Vec2(M.m02, M.m12), s)
  }

  /** Composition aSc = aSb.compose(bSc), in closed form: the rotations
      multiply, the scales multiply, and the translation is Ra·tb + ta / sb.
      ComposeIsMatrixProduct shows this is the decomposed product of the two
      homogeneous matrices. */
  function Compose(a: Sim2, b: Sim2): (r: Sim2)
    requires Valid(a) && Valid(b)
    ensures Valid(r)
  {
    Sim2(Mul(a.R, b.R), Add(Apply(a.R, b.t), ScaleVec(1.0 / b.s, a.t)), a.s * b.s)
  }

  /** How the source composes: multiply the homogeneous matrices and
      decompose the product. This gives exactly the closed form. */
  lemma ComposeIsMatrixProduct(a: Sim2, b: Sim2)
    requires Valid(a) && Valid(b)
    ensures FromMatrix(Mul3(Matrix(a), Matrix(b))) == Ok(Compose(a, b))
  {
    var c := Compose(a, b);
    var w := (1.0 / a.s) * (1.0 / b.s);
    assert Mul3(Matrix(a), Matrix(b)) == Block(c.R, c.t, w) by {
      BlockMul(a.R, a.t, 1.0 / a.s, b.R, b.t, 1.0 / b.s);
    }
    assert 1.0 / w == c.s by { ReciprocalProduct(a.s, b.s); }
    FromBlock(c.R, c.t, w);
    assert Sim2(c.R, c.t, 1.0 / w) == c;
  }

  /** Decomposing a block matrix with a non-zero corner reads its blocks
      back and inverts the corner. */
  lemma FromBlock(R: Mat2, t: Vec2, w: real)
    requires w != 0.0
    ensures FromMatrix(Block(R, t, w)) == Ok(Sim2(R, t, 1.0 / w))
  {
  }

  /** The inverse bSa.inverse() = aSb in closed form (Rᵀ, -s·Rᵀ·t, 1/s). */
  function Inverse(x: Sim2): (r: Sim2)
    requires Valid(x)
    ensures Valid(r)
    ensures r.s * x.s == 1.0
  {
    Sim2(Transpose(x.R), ScaleVec(-x.s, Apply(Transpose(x.R), x.t)), 1.0 / x.s)
  }

  /** The direct algebraic image of one point: s·(R·p + t). */
  function TransformPoint(x: Sim2, p: Vec2): Vec2 {
    ScaleVec(x.s, Add(Apply(x.R, p), x.t))
  }

  function Homogenize(p: Vec2): Vec3 {
    Vec3(p.x, p.y, 1.0)
  }

  /** Divide by the homogeneous coordinate. */
  function Dehomogenize(h: Vec3): Vec2
    requires h.w != 0.0
  {
    Vec2(h.x / h.w, h.y / h.w)
  }

  /** How one point is mapped: homogenize it, multiply by the 3x3 matrix and
      divide by the third coordinate. The result is the direct form
      s·(R·p + t). */
  function HomogeneousMap(x: Sim2, p: Vec2): (q: Vec2)
    requires Valid(x)
    ensures q == TransformPoint(x, p)
  {
    var h := Apply3(Matrix(x), Homogenize(p));
    BlockApply(x.R, x.t, 1.0 / x.s, p);
    DivideByReciprocal(h.x, x.s);
    DivideByReciprocal(h.y, x.s);
    Dehomogenize(h)
  }

  /** Point input as the array library sees it: a one-dimensional vector or
      a two-dimensional array of rows. */
  datatype NdArray = Flat(values: seq<real>) | Rows(rows: seq<seq<real>>)

  /** Every row holds exactly two coordinates. */
  predicate IsNx2(rows: seq<seq<real>>) {
    forall i :: 0 <= i < |rows| ==> |rows[i]| == 2
  }

  function RowPoint(row: seq<real>): Vec2
    requires |row| == 2
  {
    Vec2(row[0], row[1])
  }

  /** The N x 2 array holding the given points as rows, in order. */
  function ToRows(ps: seq<Vec2>): (rows: seq<seq<real>>)
    ensures |rows| == |ps| && IsNx2(rows)
    ensures forall i :: 0 <= i < |ps| ==> RowPoint(rows[i]) == ps[i]
  {
    seq(|ps|, i requires 0 <= i < |ps| => [ps[i].x, ps[i].y])
  }

  /** Batch transform of points given as rows. Only an N x 2 array is
      accepted: a flat vector, even of two numbers, and rows of another
      width are rejected. Row i of the output is row i of the input mapped
      to s·(R·p + t). */
  function TransformFrom(x: Sim2, pts: NdArray): (r: Result<seq<Vec2>>)
    requires Valid(x)
    ensures r.Ok? <==> pts.Rows? && IsNx2(pts.rows)
    ensures r.Err? ==> r.error == InvalidShape
    ensures r.Ok? ==> |r.value| == |pts.rows|
    ensures r.Ok? ==> forall i :: 0 <= i < |r.value| ==>
              r.value[i] == TransformPoint(x, RowPoint(pts.rows[i]))
  {
    match pts
    case Flat(_) => Err(InvalidShape)
    case Rows(rows) =>
      if !IsNx2(rows) then Err(InvalidShape)
      else Ok(seq(|rows|, i requires 0 <= i < |rows| => HomogeneousMap(x, RowPoint(rows[i]))))
  }
}
