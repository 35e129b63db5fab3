/** Algebraic laws of Sim(2): the matrix round trip, what composition means
    for points, associativity, the identity, and the inverse. The inverse laws
    need an orthonormal rotation block (RᵀR = I); construction does not. */
module SimilarityLaws {
  import opened LinAlg
  import opened Similarity

  /** Decomposing a value's homogeneous matrix gives the value back, with the
      same rotation, translation and scale. */
  lemma MatrixRoundTrip(x: Sim2)
    requires Valid(x)
    ensures FromMatrix(Matrix(x)) == Ok(x)
  {
    Reciprocal(x.s);
    FromBlock(x.R, x.t, 1.0 / x.s);
  }

  /** The homogeneous matrix of a composition is the product of the two
      homogeneous matrices. */
  lemma ComposeMatrix(a: Sim2, b: Sim2)
    requires Valid(a) && Valid(b)
    ensures Matrix(Compose(a, b)) == Mul3(Matrix(a), Matrix(b))
  {
    ReciprocalProduct(a.s, b.s);
    BlockMul(a.R, a.t, 1.0 / a.s, b.R, b.t, 1.0 / b.s);
  }

  /** aSc = aSb.compose(bSc) maps a point of frame c as bSc and then aSb do
      one after the other. */
  lemma ComposeTransform(a: Sim2, b: Sim2, p: Vec2)
    requires Valid(a) && Valid(b)
    ensures TransformPoint(Compose(a, b), p) == TransformPoint(a, TransformPoint(b, p))
  {
    var u, v := Apply(a.R, Apply(b.R, p)), Apply(a.R, b.t);
    var k := ScaleVec(1.0 / b.s, a.t);
    calc {
      TransformPoint(Compose(a, b), p);
      ScaleVec(a.s * b.s, Add(Apply(Mul(a.R, b.R), p), Add(v, k)));
      { ApplyMul(a.R, b.R, p); AddAssoc(u, v, k); }
      ScaleVec(a.s * b.s, Add(Add(u, v), k));
      { ScaleScale(a.s, b.s, Add(Add(u, v), k)); }
      ScaleVec(a.s, ScaleVec(b.s, Add(Add(u, v), k)));
      { ScaleAdd(b.s, Add(u, v), k); ScaleCancel(b.s, a.t); }
      ScaleVec(a.s, Add(ScaleVec(b.s, Add(u, v)), a.t));
      { ApplyAdd(a.R, Apply(b.R, p), b.t); ApplyScale(a.R, b.s, Add(Apply(b.R, p), b.t)); }
      ScaleVec(a.s, Add(Apply(a.R, ScaleVec(b.s, Add(Apply(b.R, p), b.t))), a.t));
      TransformPoint(a, TransformPoint(b, p));
    }
  }

  /** Composition is associative. */
  lemma ComposeAssoc(a: Sim2, b: Sim2, c: Sim2)
    requires Valid(a) && Valid(b) && Valid(c)
    ensures Compose(Compose(a, b), c) == Compose(a, Compose(b, c))
  {
    MulAssoc(a.R, b.R, c.R);
    ComposeAssocTranslation(a, b, c);
  }

  /** The translation part of associativity: both groupings give
      Ra·Rb·tc + Ra·tb / sc + ta / (sb·sc). */
  lemma ComposeAssocTranslation(a: Sim2, b: Sim2, c: Sim2)
    requires Valid(a) && Valid(b) && Valid(c)
    ensures Compose(Compose(a, b), c).t == Compose(a, Compose(b, c)).t
  {
    var u, v := Apply(a.R, Apply(b.R, c.t)), Apply(a.R, b.t);
    var w := ScaleVec(1.0 / (b.s * c.s), a.t);
    calc {
      Compose(Compose(a, b), c).t;
      Add(Apply(Mul(a.R, b.R), c.t), ScaleVec(1.0 / c.s, Add(v, ScaleVec(1.0 / b.s, a.t))));
      { ApplyMul(a.R, b.R, c.t); ScaleAdd(1.0 / c.s, v, ScaleVec(1.0 / b.s, a.t)); }
      Add(u, Add(ScaleVec(1.0 / c.s, v), ScaleVec(1.0 / c.s, ScaleVec(1.0 / b.s, a.t))));
      { ScaleReciprocals(b.s, c.s, a.t); assert ScaleVec(1.0 / c.s, ScaleVec(1.0 / b.s, a.t)) == w; }
      Add(u, Add(ScaleVec(1.0 / c.s, v), w));
      { AddAssoc(u, ScaleVec(1.0 / c.s, v), w); }
      Add(Add(u, ScaleVec(1.0 / c.s, v)), w);
      { ApplyScale(a.R, 1.0 / c.s, b.t); }
      Add(Add(u, Apply(a.R, ScaleVec(1.0 / c.s, b.t))), w);
      { ApplyAdd(a.R, Apply(b.R, c.t), ScaleVec(1.0 / c.s, b.t)); }
      Add(Apply(a.R, Add(Apply(b.R, c.t), ScaleVec(1.0 / c.s, b.t))), w);
      Add(Apply(a.R, Compose(b, c).t), ScaleVec(1.0 / Compose(b, c).s, a.t));
      Compose(a, Compose(b, c)).t;
    }
  }

  /** The identity transform is a unit for composition on both sides. */
  lemma ComposeIdentity(x: Sim2)
    requires Valid(x)
    ensures Compose(Identity, x) == x
    ensures Compose(x, Identity) == x
  {
  }

  /** Composing a value with its inverse, in either order, gives the
      identity (I, [0, 0], 1). */
  lemma ComposeInverse(x: Sim2)
    requires Valid(x) && Orthonormal(x.R)
    ensures Compose(x, Inverse(x)) == Identity
    ensures Compose(Inverse(x), x) == Identity
  {
    ComposeInverseRight(x);
    ComposeInverseLeft(x);
  }

  /** x·x⁻¹: R·Rᵀ = I, and R·(-s·Rᵀt) + t / (1/s) = -s·t + s·t = 0. */
  lemma ComposeInverseRight(x: Sim2)
    requires Valid(x) && Orthonormal(x.R)
    ensures Compose(x, Inverse(x)) == Identity
  {
    var w := Apply(Transpose(x.R), x.t);
    var l := Compose(x, Inverse(x));
    OrthonormalRightInverse(x.R);
    assert Apply(x.R, w) == x.t by {
      ApplyMul(x.R, Transpose(x.R), x.t);
      ApplyIdentity(x.t);
    }
    Reciprocal(x.s);
    calc {
      l.t;
      Add(Apply(x.R, ScaleVec(-x.s, w)), ScaleVec(1.0 / (1.0 / x.s), x.t));
      { ApplyScale(x.R, -x.s, w); }
      Add(ScaleVec(-x.s, x.t), ScaleVec(x.s, x.t));
      { AddNegated(x.s, x.t); }
      Zero2;
    }
  }

  /** x⁻¹·x: Rᵀ·R = I, and Rᵀ·t + (-s·Rᵀt) / s = 0. */
  lemma ComposeInverseLeft(x: Sim2)
    requires Valid(x) && Orthonormal(x.R)
    ensures Compose(Inverse(x), x) == Identity
  {
    UnscaleNegated(x.s, Apply(Transpose(x.R), x.t));
    Reciprocal(x.s);
  }

  /** Inverting twice gives the value back. */
  lemma InverseInverse(x: Sim2)
    requires Valid(x) && Orthonormal(x.R)
    ensures Inverse(Inverse(x)) == x
  {
    var w := Apply(Transpose(x.R), x.t);
    var z := Inverse(Inverse(x));
    assert z.R == x.R;
    assert Apply(x.R, w) == x.t by {
      OrthonormalRightInverse(x.R);
      ApplyMul(x.R, Transpose(x.R), x.t);
      ApplyIdentity(x.t);
    }
    Reciprocal(x.s);
    calc {
      z.t;
      ScaleVec(-(1.0 / x.s), Apply(x.R, ScaleVec(-x.s, w)));
      { ApplyScale(x.R, -x.s, w); }
      ScaleVec(-(1.0 / x.s), ScaleVec(-x.s, x.t));
      { ScaleScale(-(1.0 / x.s), -x.s, x.t); }
      ScaleVec(1.0, x.t);
      x.t;
    }
  }

  /** In matrix form the inverse is the matrix inverse: both products of
      the two homogeneous matrices are the 3x3 identity. */
  lemma InverseMatrix(x: Sim2)
    requires Valid(x) && Orthonormal(x.R)
    ensures Mul3(Matrix(x), Matrix(Inverse(x))) == Identity3
    ensures Mul3(Matrix(Inverse(x)), Matrix(x)) == Identity3
  {
    ComposeInverse(x);
    ComposeMatrix(x, Inverse(x));
    ComposeMatrix(Inverse(x), x);
    assert Matrix(Identity) == Identity3;
  }

  /** Composition and inversion keep the rotation block orthonormal, so
      values built from rotations stay similarity transforms. */
  lemma OrthonormalClosed(a: Sim2, b: Sim2)
    requires Valid(a) && Valid(b) && Orthonormal(a.R) && Orthonormal(b.R)
    ensures Orthonormal(Compose(a, b).R)
    ensures Orthonormal(Inverse(a).R)
  {
    MulOrthonormal(a.R, b.R);
    TransposeOrthonormal(a.R);
  }

  /** The identity transform leaves every point where it is. */
  lemma TransformIdentity(p: Vec2)
    ensures TransformPoint(Identity, p) == p
  {
  }

  /** Mapping by the inverse undoes mapping by the value, and the other way
      round. */
  lemma InverseUndoesTransform(x: Sim2, p: Vec2)
    requires Valid(x) && Orthonormal(x.R)
    ensures TransformPoint(Inverse(x), TransformPoint(x, p)) == p
    ensures TransformPoint(x, TransformPoint(Inverse(x), p)) == p
  {
    ComposeInverse(x);
    ComposeTransform(Inverse(x), x, p);
    ComposeTransform(x, Inverse(x), p);
    TransformIdentity(p);
  }

  /** The batch form: transforming the rows forward and the result back by
      the inverse returns the original points, row for row. */
  lemma TransformFromInverse(x: Sim2, rows: seq<seq<real>>)
    requires Valid(x) && Orthonormal(x.R) && IsNx2(rows)
    ensures TransformFrom(x, Rows(rows)).Ok?
    ensures var back := TransformFrom(Inverse(x), Rows(ToRows(TransformFrom(x, Rows(rows)).value)));
            back.Ok? && |back.value| == |rows| &&
            forall i :: 0 <= i < |rows| ==> back.value[i] == RowPoint(rows[i])
  {
    var fwd := TransformFrom(x, Rows(rows)).value;
    var back := TransformFrom(Inverse(x), Rows(ToRows(fwd))).value;
    forall i | 0 <= i < |rows|
      ensures back[i] == RowPoint(rows[i])
    {
      InverseUndoesTransform(x, RowPoint(rows[i]));
    }
  }

  /** The shape of the third composition test: when Ra·Rb = Rc and
      sa·sb = sc, aSb·bSc·(aSc)⁻¹ has the identity rotation and unit scale,
      whatever the translations. */
  lemma ComposeWithInverseOfProduct(a: Sim2, b: Sim2, c: Sim2)
    requires Valid(a) && Valid(b) && Valid(c) && Orthonormal(c.R)
    requires Mul(a.R, b.R) == c.R && a.s * b.s == c.s
    ensures Compose(Compose(a, b), Inverse(c)).R == Identity2
    ensures Compose(Compose(a, b), Inverse(c)).s == 1.0
  {
    OrthonormalRightInverse(c.R);
    Reciprocal(c.s);
  }
}
