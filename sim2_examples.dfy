/** The concrete scenarios the Sim(2) unit tests check, stated over exact
    reals. Angles are given by their cosine and sine: the quarter turn is
    Rot(0, 1) and the 45-degree turns are Rot(k, ±k) with k² = 1/2. */
module SimilarityExamples {
  import opened LinAlg
  import opened Similarity
  import opened SimilarityLaws
  import opened SimilarityJson

  /** The image frame from the world frame: identity rotation, t = (1, 3),
      scale 2. */
  const ImgFromWorld: Sim2 := Sim2(Identity2, Vec2(1.0, 3.0), 2.0)

  /** The world frame from the image frame: t = (-2, -6), scale 1/2. */
  const WorldFromImg: Sim2 := Sim2(Identity2, Vec2(-2.0, -6.0), 0.5)

  /** The quarter turn [[0, -1], [1, 0]] with t = (1, 2) and scale 3. */
  const QuarterTurn: Sim2 := Sim2(Rot(0.0, 1.0), Vec2(1.0, 2.0), 3.0)

  /** The reflection [[0, 1], [1, 0]] with t = (-5, 5) and scale 0.1. */
  const Swap: Sim2 := Sim2(Mat2(0.0, 1.0, 1.0, 0.0), Vec2(-5.0, 5.0), 0.1)

  /** The world points and their images under ImgFromWorld. */
  const WorldPoints: seq<Vec2> := [Vec2(2.0, -1.0), Vec2(1.0, 0.0), Vec2(-1.0, -3.0), Vec2(-0.5, 0.5)]
  const ImagePoints: seq<Vec2> := [Vec2(6.0, 4.0), Vec2(4.0, 6.0), Vec2(0.0, 0.0), Vec2(1.0, 7.0)]

  /** Construction keeps the arguments; the accessors give them back. */
  lemma ConstructorExample()
    ensures New(Identity2, Vec2(1.0, 2.0), 3.0) == Ok(Sim2(Identity2, Vec2(1.0, 2.0), 3.0))
    ensures New(Rot(0.0, 1.0), Vec2(1.0, 2.0), 3.0) == Ok(QuarterTurn)
    ensures QuarterTurn.R == Mat2(0.0, -1.0, 1.0, 0.0) && QuarterTurn.s == 3.0
  {
  }

  /** Equal values compare equal; a different translation, rotation or
      scale makes them unequal. */
  lemma EqualityExamples()
    ensures Equal(Sim2(Identity2, Vec2(1.0, 2.0), 3.0), Sim2(Identity2, Vec2(1.0, 2.0), 3.0))
    ensures !Equal(Sim2(Identity2, Vec2(2.0, 1.0), 3.0), Sim2(Identity2, Vec2(1.0, 2.0), 3.0))
    ensures !Equal(Sim2(Identity2, Vec2(2.0, 1.0), 3.0), Sim2(Mat2(-1.0, 0.0, 0.0, -1.0), Vec2(2.0, 1.0), 3.0))
    ensures !Equal(Sim2(Identity2, Vec2(2.0, 1.0), 3.0), Sim2(Identity2, Vec2(2.0, 1.0), 1.0))
  {
  }

  /** The two image/world transforms compose to the identity. */
  lemma ComposeIdentityRotations()
    ensures Compose(ImgFromWorld, WorldFromImg) == Identity
  {
  }

  /** A quarter turn composed with a -45-degree turn is a 45-degree turn,
      and the scales 4 and 0.5 multiply to 2. */
  lemma ComposeRotations(k: real)
    requires k > 0.0 && k * k == 0.5
    ensures var aSc := Compose(Sim2(Rot(0.0, 1.0), Vec2(1.0, 2.0), 4.0), Sim2(Rot(k, -k), Vec2(3.0, 4.0), 0.5));
            aSc.R == Rot(k, k) && aSc.s == 2.0
  {
    RotMul(0.0, 1.0, k, -k);
  }

  /** Turns by two angles and by their sum, with scales 2, 3 and 6 and any
      translations: aSb·bSc·(aSc)⁻¹ has no rotation and unit scale. */
  lemma ComposeWithInverse(c1: real, s1: real, c2: real, s2: real, t: Vec2)
    requires c1 * c1 + s1 * s1 == 1.0 && c2 * c2 + s2 * s2 == 1.0
    ensures var aSb, bSc := Sim2(Rot(c1, s1), t, 2.0), Sim2(Rot(c2, s2), t, 3.0);
            var aSc := Sim2(Rot(c1 * c2 - s1 * s2, s1 * c2 + c1 * s2), t, 6.0);
            Compose(Compose(aSb, bSc), Inverse(aSc)).R == Identity2 &&
            Compose(Compose(aSb, bSc), Inverse(aSc)).s == 1.0
  {
    var aSb, bSc := Sim2(Rot(c1, s1), t, 2.0), Sim2(Rot(c2, s2), t, 3.0);
    var aSc := Sim2(Rot(c1 * c2 - s1 * s2, s1 * c2 + c1 * s2), t, 6.0);
    RotOrthonormal(c1, s1);
    RotOrthonormal(c2, s2);
    RotMul(c1, s1, c2, s2);
    MulOrthonormal(Rot(c1, s1), Rot(c2, s2));
    ComposeWithInverseOfProduct(aSb, bSc, aSc);
  }

  /** Each of the two image/world transforms is the other's inverse. */
  lemma InverseExample()
    ensures Inverse(WorldFromImg) == ImgFromWorld
    ensures Inverse(ImgFromWorld) == WorldFromImg
  {
    assert Transpose(Identity2) == Identity2;
    ApplyIdentity(Vec2(-2.0, -6.0));
    ApplyIdentity(Vec2(1.0, 3.0));
    assert ScaleVec(-0.5, Vec2(-2.0, -6.0)) == Vec2(1.0, 3.0);
    assert ScaleVec(-2.0, Vec2(1.0, 3.0)) == Vec2(-2.0, -6.0);
  }

  /** The homogeneous matrix of the quarter turn, and its decomposition. */
  lemma MatrixExample()
    ensures Matrix(QuarterTurn) == Mat3(0.0, -1.0, 1.0, 1.0, 0.0, 2.0, 0.0, 0.0, 1.0 / 3.0)
    ensures FromMatrix(Mat3(0.0, -1.0, 1.0, 1.0, 0.0, 2.0, 0.0, 0.0, 1.0 / 3.0)) == Ok(QuarterTurn)
  {
    MatrixRoundTrip(QuarterTurn);
  }

  /** ImgFromWorld maps each world point to its image, and WorldFromImg
      maps it back. */
  lemma ImagePointsExample()
    ensures forall i :: 0 <= i < 4 ==> TransformPoint(ImgFromWorld, WorldPoints[i]) == ImagePoints[i]
    ensures forall i :: 0 <= i < 4 ==> TransformPoint(WorldFromImg, ImagePoints[i]) == WorldPoints[i]
  {
    forall i | 0 <= i < 4
      ensures TransformPoint(ImgFromWorld, WorldPoints[i]) == ImagePoints[i]
      ensures TransformPoint(WorldFromImg, ImagePoints[i]) == WorldPoints[i]
    {
      ApplyIdentity(WorldPoints[i]);
      ApplyIdentity(ImagePoints[i]);
    }
  }

  /** The mapping is s·(R·p + t), not s·R·p + t: for the first world point
      the latter would give (5, 1) instead of the expected (6, 4). */
  lemma ScaleAppliesToTranslation()
    ensures var x, p := ImgFromWorld, WorldPoints[0];
            TransformPoint(x, p) == Vec2(6.0, 4.0) &&
            Add(ScaleVec(x.s, Apply(x.R, p)), x.t) == Vec2(5.0, 1.0)
  {
    ImagePointsExample();
    ApplyIdentity(WorldPoints[0]);
  }

  /** Homogeneous multiply-and-divide maps each world point to its image. */
  lemma HomogeneousExample()
    ensures forall i :: 0 <= i < 4 ==> HomogeneousMap(ImgFromWorld, WorldPoints[i]) == ImagePoints[i]
  {
    ImagePointsExample();
  }

  /** The batch forward transform of the four world points. */
  lemma TransformFromForwards()
    ensures TransformFrom(ImgFromWorld, Rows(ToRows(WorldPoints))) == Ok(ImagePoints)
  {
    ImagePointsExample();
    TransformFromPoints(ImgFromWorld, WorldPoints, ImagePoints);
  }

  /** The batch backward transform takes the images back to the world
      points. */
  lemma TransformFromBackwards()
    ensures TransformFrom(WorldFromImg, Rows(ToRows(ImagePoints))) == Ok(WorldPoints)
  {
    ImagePointsExample();
    TransformFromPoints(WorldFromImg, ImagePoints, WorldPoints);
  }

  /** When every point maps to the matching target, the batch transform of
      the points is the targets. */
  lemma TransformFromPoints(x: Sim2, ps: seq<Vec2>, qs: seq<Vec2>)
    requires Valid(x) && |ps| == |qs|
    requires forall i :: 0 <= i < |ps| ==> TransformPoint(x, ps[i]) == qs[i]
    ensures TransformFrom(x, Rows(ToRows(ps))) == Ok(qs)
  {
    var rows := ToRows(ps);
    var r := TransformFrom(x, Rows(rows));
    assert r.Ok? && |r.value| == |qs|;
    forall i | 0 <= i < |qs|
      ensures r.value[i] == qs[i]
    {
      assert RowPoint(rows[i]) == ps[i];
    }
    assert r.value == qs;
  }

  /** A zero scale is rejected at construction. */
  lemma ZeroScaleRejected()
    ensures New(Identity2, Vec2(0.0, 1.0), 0.0) == Err(InvalidScale)
  {
  }

  /** A flat two-number vector is not an N x 2 array. */
  lemma FlatInputRejected()
    ensures TransformFrom(Sim2(Identity2, Vec2(1.0, 2.0), 3.0), Flat([1.0, 3.0])) == Err(InvalidShape)
  {
  }

  /** Reading a record with the identity rotation, t = (3930, 3240) and
      s = 1.6666666666666667. */
  lemma FromJsonExample()
    ensures FromJson(map["R" := Array([1.0, 0.0, 0.0, 1.0]), "t" := Array([3930.0, 3240.0]),
                         "s" := Number(1.6666666666666667)])
         == Ok(Sim2(Identity2, Vec2(3930.0, 3240.0), 1.6666666666666667))
  {
  }

  /** A record with scale 0 is rejected with the construction error. */
  lemma FromJsonZeroScale()
    ensures FromJson(map["R" := Array([1.0, 0.0, 0.0, 1.0]), "t" := Array([3930.0, 3240.0]),
                         "s" := Number(0.0)]) == Err(InvalidScale)
  {
  }

  /** Saving the reflection writes R as [0, 1, 1, 0], t as [-5, 5] and s
      as 0.1; reading that back gives an equal value. */
  lemma SaveAsJsonExample()
    ensures SaveAsJson(Swap) == map["R" := Array([0.0, 1.0, 1.0, 0.0]), "t" := Array([-5.0, 5.0]),
                                    "s" := Number(0.1)]
    ensures FromJson(SaveAsJson(Swap)).Ok? && Equal(FromJson(SaveAsJson(Swap)).value, Swap)
  {
    JsonRoundTrip(Swap);
  }
}
