# Sim(2) similarity transforms in Dafny

This project models the `Sim2` value type of the av2 geometry utilities: a
2D similarity transform `bSa = (R, t, s)` with a 2x2 rotation block `R`, a
translation `t` and a non-zero scale `s`. It maps a point `p` of frame `a` to
`s·(R·p + t)` in frame `b`. Its homogeneous form is the 3x3 matrix
`[[R, t], [0, 0, 1/s]]`. The type has construction, exact equality, the
matrix form and its decomposition (`from_matrix`), `compose`, `inverse`,
batch point mapping (`transform_from`) and a flat JSON record
`{"R": [4 numbers], "t": [2 numbers], "s": number}`. Values are immutable:
every operation returns a new value, so the model is a datatype with pure
functions and lemmas.

The behaviour is taken from the unit tests in `tests/utils/test_sim2.py`.
The implementing module `av2/geometry/sim2.py` is not part of this model.
Numbers are exact reals and equality is exact.

Files:

- `linalg.dfy` (module `LinAlg`): 2-vectors, homogeneous 3-vectors, 2x2 and
  3x3 matrices, their products, block matrices `[[R, t], [0, 0, w]]`,
  orthonormality (`RᵀR = I`) and rotation matrices `Rot(c, s)` for a cosine
  `c` and sine `s`.
- `sim2.dfy` (module `Similarity`): the value type, its two error kinds
  (`InvalidScale`, `InvalidShape`) and the operations.
- `sim2_laws.dfy` (module `SimilarityLaws`): the algebraic laws.
- `sim2_json.dfy` (module `SimilarityJson`): the JSON record shape.
- `sim2_examples.dfy` (module `SimilarityExamples`): the concrete scenarios
  of the tests.

Decisions:

- A value is `Valid` when its scale is non-zero. `New` and `FromJson`
  reject a zero scale with `InvalidScale`. `FromMatrix` rejects a zero
  M[2][2] with the same `InvalidScale`, since 1/M[2][2] is then undefined.
  The operations require `Valid`.
- Construction checks neither that `R` is orthonormal nor that it is a
  proper rotation; the JSON tests use the reflection `[[0, 1], [1, 0]]`,
  which is orthonormal with determinant −1. Only the laws about the inverse
  assume `RᵀR = I`.
- `Compose` is written in closed form `(Ra·Rb, Ra·tb + ta/sb, sa·sb)`.
  `ComposeIsMatrixProduct` proves that this is what multiplying the two
  homogeneous matrices and decomposing the product gives.
- `TransformFrom` computes each row as tests/utils/test_sim2.py:184-189
  does with the homogeneous matrix: homogenize, multiply by the 3x3 matrix,
  divide by the third coordinate. Its contract gives the direct form
  `s·(R·p + t)`. It is not `s·R·p + t`: the homogeneous computation and the
  test data (`[2, -1]` maps to `[6, 4]` under `(I, [1, 3], 2)`) give
  `s·(R·p + t)` (`SimilarityExamples.ScaleAppliesToTranslation`).
- Point input is either a flat vector or a list of rows. A flat vector and
  rows that do not all have two entries are `InvalidShape`.
- A JSON object is a map from keys to numbers or lists of numbers. A
  missing or zero `"s"` is `InvalidScale`, the same error direct
  construction raises.
  Missing `"R"` or `"t"`, or lists of the wrong length, are `InvalidShape`.

## Model

| member | source | states |
|---|---|---|
| Similarity.New | tests/utils/test_sim2.py:19-28 | construction succeeds exactly when s ≠ 0, and the accessors then return exactly R, t and s; otherwise the error is InvalidScale |
| Similarity.Equal | tests/utils/test_sim2.py:31-56 | equality holds exactly when rotation, translation and scale all match, so a difference in any one component makes two values unequal |
| Similarity.Matrix | tests/utils/test_sim2.py:142-150 | the homogeneous form [[R, t], [0, 0, 1/s]]: R and t as the top blocks, a bottom row starting with two zeros, and a corner whose product with s is 1; MatrixRoundTrip, ComposeMatrix and InverseMatrix state what the form means |
| Similarity.FromMatrix | tests/utils/test_sim2.py:153-172 | decomposition succeeds exactly when M[2][2] ≠ 0 (otherwise InvalidScale), gives a valid value, and that value's matrix is M exactly when M's bottom row starts with two zeros |
| Similarity.Compose | tests/utils/test_sim2.py:88-111 | the composition of two valid values is valid (its scale is non-zero) |
| Similarity.ComposeIsMatrixProduct | tests/utils/test_sim2.py:101-111 | multiplying the two homogeneous matrices and decomposing the product gives exactly Compose(a, b): rotations multiply, scales multiply, translation Ra·tb + ta/sb |
| Similarity.Inverse | tests/utils/test_sim2.py:130-139 | the inverse is valid and its scale is the reciprocal of the scale |
| Similarity.HomogeneousMap | tests/utils/test_sim2.py:175-190 | homogenizing a point, multiplying by the 3x3 matrix and dividing by the third coordinate gives s·(R·p + t) |
| Similarity.TransformFrom | tests/utils/test_sim2.py:193-202 | the batch map succeeds exactly on an N x 2 array of rows (a flat vector or a row of another width is InvalidShape), keeps the number and order of rows, and maps row i to s·(R·p + t) |
| Similarity.ToRows | tests/utils/test_sim2.py:179 | a list of points becomes an N x 2 array whose row i reads back as point i |
| SimilarityLaws.MatrixRoundTrip | tests/utils/test_sim2.py:153-172 | decomposing the matrix of any valid value gives the same value back |
| SimilarityLaws.ComposeMatrix | tests/utils/test_sim2.py:142-150 | the matrix of a composition is the product of the two matrices |
| SimilarityLaws.ComposeTransform | tests/utils/test_sim2.py:101-107 | mapping a point by aSc = aSb.compose(bSc) is mapping it by bSc and then by aSb |
| SimilarityLaws.ComposeAssoc | tests/utils/test_sim2.py:114-125 | composition is associative |
| SimilarityLaws.ComposeIdentity | tests/utils/test_sim2.py:96-98 | the identity (I, [0, 0], 1) is a unit for composition on both sides |
| SimilarityLaws.ComposeInverse | tests/utils/test_sim2.py:130-139 | for orthonormal R, composing with the inverse in either order gives the identity |
| SimilarityLaws.InverseInverse | tests/utils/test_sim2.py:130-139 | for orthonormal R, inverting twice gives the value back |
| SimilarityLaws.InverseMatrix | tests/utils/test_sim2.py:130-150 | for orthonormal R, the matrix of the inverse is the matrix inverse: both products are the 3x3 identity |
| SimilarityLaws.OrthonormalClosed | tests/utils/test_sim2.py:114-125 | composition and inversion keep the rotation block orthonormal |
| SimilarityLaws.TransformIdentity | tests/utils/test_sim2.py:96-98 | the identity transform leaves every point unchanged |
| SimilarityLaws.InverseUndoesTransform | tests/utils/test_sim2.py:193-214 | for orthonormal R, mapping by the inverse undoes mapping by the value, in both orders |
| SimilarityLaws.TransformFromInverse | tests/utils/test_sim2.py:193-214 | for orthonormal R, batch-mapping N x 2 rows forward and then by the inverse returns the original points, row for row |
| SimilarityLaws.ComposeWithInverseOfProduct | tests/utils/test_sim2.py:114-127 | when Ra·Rb = Rc with Rc orthonormal and sa·sb = sc, aSb·bSc·(aSc)⁻¹ has the identity rotation and unit scale, whatever the translations |
| LinAlg.BlockMul | tests/utils/test_sim2.py:142-150 | the product of two homogeneous block matrices [[R1, t1], [0, w1]]·[[R2, t2], [0, w2]] is [[R1·R2, R1·t2 + w2·t1], [0, w1·w2]] |
| LinAlg.RotMul | tests/utils/test_sim2.py:101-109 | the product of two rotation matrices is the rotation by the summed angle (angle-addition formulas for cosine and sine) |
| LinAlg.RotOrthonormal | tests/utils/test_sim2.py:217-222 | a rotation matrix with c² + s² = 1 is orthonormal |
| LinAlg.OrthonormalRightInverse | tests/utils/test_sim2.py:130-139 | RᵀR = I implies RRᵀ = I, which the inverse laws need on both sides |
| LinAlg.MulAssoc | tests/utils/test_sim2.py:114-125 | the 2x2 matrix product is associative |
| SimilarityJson.SaveAsJson | tests/utils/test_sim2.py:295-304 | the record has exactly the keys R, t and s; R holds the four entries row-major (entry 2i + j is R[i][j]), t holds [tx, ty] and s is unchanged |
| SimilarityJson.FromJson | tests/utils/test_sim2.py:274-292 | reading succeeds exactly when R has four numbers, t two and s is a non-zero number; wrong shapes are InvalidShape, a zero or missing scale InvalidScale; a successful read is what saving its result writes back |
| SimilarityJson.JsonRoundTrip | tests/utils/test_sim2.py:307-314 | saving any valid value and reading it back gives the same value |
| SimilarityExamples.ConstructorExample | tests/utils/test_sim2.py:59-85 | construction from (I, [1, 2], 3) and from the quarter turn returns exactly the given rotation, translation and scale |
| SimilarityExamples.EqualityExamples | tests/utils/test_sim2.py:31-56 | equal components compare equal; a different translation, rotation (−I) or scale compares unequal |
| SimilarityExamples.ComposeIdentityRotations | tests/utils/test_sim2.py:88-98 | (I, [1, 3], 2) composed with (I, [−2, −6], 0.5) is the identity |
| SimilarityExamples.ComposeRotations | tests/utils/test_sim2.py:101-111 | a 90-degree turn with scale 4 composed with a −45-degree turn with scale 0.5 is a 45-degree turn with scale 2 |
| SimilarityExamples.ComposeWithInverse | tests/utils/test_sim2.py:114-127 | turns by two angles and by their sum, with scales 2, 3 and 6: aSb·bSc·(aSc)⁻¹ has no rotation and unit scale |
| SimilarityExamples.InverseExample | tests/utils/test_sim2.py:130-139 | (I, [1, 3], 2) and (I, [−2, −6], 0.5) are each other's inverse |
| SimilarityExamples.MatrixExample | tests/utils/test_sim2.py:142-172 | the quarter turn with t = [1, 2] and s = 3 has matrix [[0, −1, 1], [1, 0, 2], [0, 0, 1/3]], which decomposes back to it |
| SimilarityExamples.ImagePointsExample | tests/utils/test_sim2.py:193-214 | the four world points map to [[6, 4], [4, 6], [0, 0], [1, 7]] and back |
| SimilarityExamples.ScaleAppliesToTranslation | tests/utils/test_sim2.py:175-181 | the scale multiplies the translation too: [2, −1] maps to [6, 4], while s·R·p + t would give [5, 1] |
| SimilarityExamples.HomogeneousExample | tests/utils/test_sim2.py:175-190 | homogeneous multiply-and-divide maps the four world points to their images |
| SimilarityExamples.TransformFromForwards | tests/utils/test_sim2.py:193-202 | the batch forward map of the four world points gives the four image points |
| SimilarityExamples.TransformFromBackwards | tests/utils/test_sim2.py:205-214 | the batch map by (I, [−2, −6], 0.5) takes the image points back to the world points |
| SimilarityExamples.TransformFromPoints | tests/utils/test_sim2.py:193-214 | when each point maps to its target, the batch map of the points is the list of targets |
| SimilarityExamples.ZeroScaleRejected | tests/utils/test_sim2.py:225-232 | construction with scale 0 fails with InvalidScale |
| SimilarityExamples.FlatInputRejected | tests/utils/test_sim2.py:263-271 | a flat two-number vector is rejected with InvalidShape |
| SimilarityExamples.FromJsonExample | tests/utils/test_sim2.py:274-284 | the record R = [1, 0, 0, 1], t = [3930, 3240], s = 1.6666666666666667 reads as exactly that value |
| SimilarityExamples.FromJsonZeroScale | tests/utils/test_sim2.py:287-292 | a record with scale 0 fails with InvalidScale |
| SimilarityExamples.SaveAsJsonExample | tests/utils/test_sim2.py:295-314 | the reflection with t = [−5, 5] and s = 0.1 saves as R = [0, 1, 1, 0], t = [−5, 5], s = 0.1 and reads back as an equal value |

## Left out

- `theta_deg` and the test helper `rotmat2d` use `atan2`, `sin`, `cos` and
  degree conversion, which exact reals cannot express. Rotations are given
  as `Rot(c, s)` with `c² + s² = 1`, and angle facts are stated as products
  of rotation matrices (`LinAlg.RotMul`).
- `__repr__`: its text depends on float rounding and array printing.
- File I/O: reading and writing JSON files and the test fixtures. Only the
  conversion between a JSON object and a value is modelled.
- Floating-point tolerance (`np.allclose`, `np.isclose`, `atol`): the model
  uses exact reals and exact equality, so rounding is not modelled.
- Integer and float inputs comparing equal (`[1, 2]` against `[1.0, 2.0]`):
  every number is a real.
- Similarity.Compose: its own contract only states that the result is
  valid; what it computes is stated by `ComposeIsMatrixProduct`,
  `ComposeTransform` and `ComposeAssoc`.
- Similarity.Inverse: its own contract only states validity and the
  reciprocal scale; the inverse laws need an orthonormal `R` and are stated
  in `SimilarityLaws`.
- Similarity.FromMatrix: a zero M[2][2] is rejected with InvalidScale; the
  tests never exercise that case.
- Positivity of the scale: only a zero scale is rejected, as the tests
  check; a negative scale is accepted.
