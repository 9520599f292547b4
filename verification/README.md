# mlm linear algebra — an exact-arithmetic Dafny model

This project models the value algebra of the mlm header-only C++ library
(EssentialAlgebra), as its Catch2 test suites pin it down:

- fixed-size vectors `Vector<T, 2|3|4>`;
- square matrices `Matrix<T, 3, 3>` and `Matrix<T, 4, 4>`, stored as columns;
- quaternions `Quaternion<T>`;
- the `Degs<T>` / `Rads<T>` angle wrappers.

The library's headers are not part of this model. Everything here follows the
behaviour the test files require: concrete expected values, bounds errors, and
the algebraic laws they check. Each test file sits behind a
`COMPILE_*_TESTS` switch that is set to 0, so the suites are read here as a
statement of intended behaviour and are not executed.

The `float` and `double` instantiations are modelled with exact `real`
arithmetic. The `int` instantiation, which the vector constructor, operator
and law tests also use, is modelled with unbounded `int`. Each concrete test
case is a lemma. Each algebraic law the tests check on a sample is proved for
all inputs; a law stated through `norm` is proved for the squared magnitude,
and the laws that need cosines or square roots are listed under Left out.

## Layout

| file | module | contents |
|---|---|---|
| wrappers.dfy | Wrappers | `Option`, the result of every bounds-checked access |
| reals.dfy | Reals | `Sq` and small facts about squares, products and reciprocals |
| vector2.dfy | Vector2 | `Vec2`: construction, `v[i]`, arithmetic, dot, perp-dot, squared magnitude, project / reject / reflect |
| vector3.dfy | Vector3 | `Vec3`: the same, plus widening, cross product and the triple products |
| vector4.dfy | Vector4 | `Vec4`: the same; scalar operators reach `w`; the cross product acts on x, y, z |
| int_vectors.dfy | IntVectors | the `int` instantiation of Vec2/3/4 with C++ truncating division, embedded into the real model |
| matrix3.dfy | Matrix3 | `Mat3` (columns c0..c2): constructors, `m[i]`, `m(i, j)`, product, matrix·vector, `/=`, identity, transpose, scale, determinant, inverse |
| matrix4.dfy | Matrix4 | `Mat4` (columns c0..c3): the same, plus `toMat3`, translation, and scale∘translation |
| quaternion.dfy | Quaternion | `Quat(v, w)`: component-wise operators, `q[i]`, dot, squared magnitude, conjugate, Hamilton product, `isPure` / `isReal` / `isUnit` / `isZero`, inverse |
| angles.dfy | Angles | `Angle(unit, value)`: `radToDeg` / `degToRad` against a symbolic π, unit-keeping arithmetic, conversion on assignment |

## Modelling decisions

- **Storage order.** Matrices are column-major. `m[i]` is column `i`, and
  `m(i, j)` is element `j` of column `i`. The `n²`-argument constructor fills
  the columns in order (tests/Mat3_Tests.cpp:20-22 and 53-56). A row-major
  reading of that constructor, or a (row, column) reading of `m(i, j)`, would
  contradict the tests: `Mat3(1..9)(1, 2)` is 6, not 8. The model follows the
  tests. Products follow
  from that: `(A·B)[i]` is `A·(B[i])`, and element `(i, j)` is row `j` of A
  dotted with column `i` of B.
- **Bounds errors.** Indexing that throws `mlm::RuntimeException` in the
  library returns `None` here:
  - `v[i]` (`At`);
  - `m[i]` (`Col`);
  - `m(i, j)` (`At`);
  - `q[i]` (`At`).
- **Compound assignment.** `a += b`, `m *= n`, `q /= s` and the like store
  the result of the binary operator back into the left operand. Values here
  are immutable, so each compound form is the same function as its binary
  operator. The tests' checks that `*=` agrees with `*` hold by construction.
- **Division by zero.** The library's behaviour there is undefined, so a
  division carries the precondition that its divisor is nonzero.
- **Integer division.** On `int`, `/` and `/=` truncate toward zero, as C++
  does. Dafny's `/` is Euclidean. `IntVectors.TruncDiv` writes the C++
  operator out and characterises it. Every integer division in the tests is
  exact, so it agrees with the real model there (`IntVectors.EmbedVec2Products`
  and the Vec3 / Vec4 counterparts).
- **Equality.** The tests compare with `operator==` (on floats, through
  `almostEquals`). The model uses exact equality.
- **π.** π has no exact value here, so it is a parameter (`pi: real`,
  `pi > 0`) of the angle conversions. The laws hold for every positive π.
- **Matrix inverse.** The inverse of a matrix with nonzero determinant is
  its adjugate divided by the determinant. It is proved to be a two-sided
  inverse, and unique. The test cases for the inverse of a diagonal scale
  matrix follow from the parametric lemmas `Matrix3.InverseScaleApply` and
  `Matrix4.InverseScaleApply`.
- **Quaternion inverse.** The inverse is `conjugate / squaredMagnitude`. For
  a unit quaternion it equals the conjugate and `inverseUnit`.
- **A comment in the tests.** The comment on tests/Angles_Tests.cpp:27 reads
  "PI / 6" next to 45 degrees, but 45 degrees is π/4. The code itself never
  uses that value (it compares against `degToRad(45)`), so only the comment
  is wrong. The model follows the code.

## Model

| member | source | states |
|---|---|---|
| `Vector2.AtDeterminesVector` | tests/Vec2_Tests.cpp:44-51 | two Vec2 that agree at the valid indices 0 and 1 are the same vector |
| `Vector2.ConstructionExamples` | tests/Vec2_Tests.cpp:14-51 | default is (0,0), splat 42 is (42,42), `v[0]`/`v[1]` are 13/37, `v[-1]` and `v[2]` fail |
| `Vector2.ComponentWise` | tests/Vec2_Tests.cpp:53-108 | every vector and scalar operator acts index by index, the scalar on each component |
| `Vector2.InverseOperations` | tests/Vec2_Tests.cpp:53-108 | `-` undoes `+`, scalar `-` undoes scalar `+`, `/` undoes `*` for nonzero divisors, and `v + (-v)` is zero |
| `Vector2.ArithmeticExamples` | tests/Vec2_Tests.cpp:53-75 | every step of the add and sub chains, e.g. (2,0) - (4,2) = (-2,-2) |
| `Vector2.MulDivExamples` | tests/Vec2_Tests.cpp:77-108 | every step of the mul and div chains, e.g. (8,4)*(2,2) = (16,8), (2,2)/(2,2) = (1,1) |
| `Vector2.AdditionLaws` | tests/Vec2_Tests.cpp:136-142 | addition is associative and commutative with zero as neutral element |
| `Vector2.ScalarLaws` | tests/Vec2_Tests.cpp:144-152 | `(a·s)·t = a·(st)`, and scalar multiplication distributes over vector and scalar addition |
| `Vector2.DotLaws` | tests/Vec2_Tests.cpp:175-180 | dot is symmetric, additive and homogeneous in either argument |
| `Vector2.SqMagnitudeSpec` | tests/Vec2_Tests.cpp:188-205 | squared magnitude is nonnegative, zero exactly for the zero vector, and equals `v·v` |
| `Vector2.SqMagnitudeScaled` | tests/Vec2_Tests.cpp:210-212 | scaling by t scales the squared magnitude by t², the square of `(2 * v).norm() == 2 * v.norm()` |
| `Vector2.UnitXProducts` | tests/Vec2_Tests.cpp:157-168 | dot and perp-dot with (1,0) pick out x and y |
| `Vector2.ProductExamples` | tests/Vec2_Tests.cpp:155-226 | the concrete dot, perp-dot and squared-magnitude values of the tests, including \|(4,3)\|² = 25 |
| `Vector2.PerpDotLaws` | tests/Vec2_Tests.cpp:218-226 | perp-dot is antisymmetric, zero on equal arguments, linear, and the dot with the perpendicular |
| `Vector2.PerpDotZeroIffParallel` | tests/Vec2_Tests.cpp:218-222 | for nonzero a, `perpdot(a, b) = 0` exactly when b is a multiple of a |
| `Vector2.ProjectRejectSpec` | tests/Vec2_Tests.cpp:228-252 | the projection is parallel to the axis, the rejection orthogonal to it, and together they sum to v |
| `Vector2.ProjectUnique` | tests/Vec2_Tests.cpp:228-239 | any vector parallel to the axis whose difference with v is orthogonal to it is the projection |
| `Vector2.ReflectSpec` | tests/Vec2_Tests.cpp:254-261 | reflection flips the component along the normal and keeps the rest |
| `Vector2.ProjectReflectLaws` | tests/Vec2_Tests.cpp:228-261 | projection is idempotent, reflection is an involution and keeps the squared magnitude |
| `Vector2.ProjectOntoAxes` | tests/Vec2_Tests.cpp:228-261 | project / reject / reflect against (1,0) and (0,1) for every v |
| `Vector2.ProjectionExamples` | tests/Vec2_Tests.cpp:228-261 | (-2,3) projects to (0,3) and (-2,0), rejects to (-2,0) and (0,3), reflects to (-2,-3) |
| `Vector3.WideningSpec` | tests/Vec3_Tests.cpp:14-30 | `Vec3(Vec2, z)` keeps x, y and appends z; `Vec3(x, y)` zero-fills z |
| `Vector3.AtDeterminesVector` | tests/Vec3_Tests.cpp:54-61 | two Vec3 that agree at indices 0..2 are equal |
| `Vector3.ConstructionExamples` | tests/Vec3_Tests.cpp:14-61 | default, splat, two-argument, widened constructors, and failing `v[-1]`, `v[3]` |
| `Vector3.ComponentWise` | tests/Vec3_Tests.cpp:63-115 | every operator acts index by index |
| `Vector3.InverseOperations` | tests/Vec3_Tests.cpp:63-115 | each operator is undone by its counterpart |
| `Vector3.ArithmeticExamples` | tests/Vec3_Tests.cpp:63-85 | the concrete add and sub chains |
| `Vector3.MulDivExamples` | tests/Vec3_Tests.cpp:87-115 | every step of the mul and div chains, e.g. (4,2,21)*2 = (8,4,42), (4,4,6)/2 = (2,2,3) |
| `Vector3.AdditionLaws` | tests/Vec3_Tests.cpp:143-151 | associativity, commutativity, zero neutral |
| `Vector3.ScalarLaws` | tests/Vec3_Tests.cpp:153-159 | compatibility and both distributive laws |
| `Vector3.DotLaws` | tests/Vec3_Tests.cpp:186-192 | dot is symmetric, bilinear and homogeneous |
| `Vector3.SqMagnitudeSpec` | tests/Vec3_Tests.cpp:253-281 | nonnegative, zero exactly at zero, equals `v·v` |
| `Vector3.SqMagnitudeScaled` | tests/Vec3_Tests.cpp:275-277 | scaling by t scales the squared magnitude by t², the square of `(2 * v).norm() == 2 * v.norm()` |
| `Vector3.ProductExamples` | tests/Vec3_Tests.cpp:162-281 | (2,2,3)·(1,2,5) = 21, x̂×ŷ = ẑ, ŷ×x̂ = -ẑ, the squared magnitudes of the tests, including \|(4,3,0)\|² = 25 and \|(3,0,0)×(0,5,0)\|² = 225 |
| `Vector3.CrossLaws` | tests/Vec3_Tests.cpp:215-223 | cross is anticommutative, distributes over addition and is homogeneous in either argument |
| `Vector3.CrossZeroAndOrthogonal` | tests/Vec3_Tests.cpp:247-250 | `a×0 = 0×a = a×a = 0`, and `a×b` is orthogonal to a and b |
| `Vector3.CrossZeroIffParallel` | tests/Vec3_Tests.cpp:247-250 | for nonzero a, `a×b = 0` exactly when b is a multiple of a |
| `Vector3.LagrangeIdentity` | tests/Vec3_Tests.cpp:225-233 | `|a×b|² = |a|²|b|² − (a·b)²` |
| `Vector3.TriangleAreaExample` | tests/Vec3_Tests.cpp:235-245 | (18,0,0)×(18,22,0) = (0,0,396), twice the right triangle's area 198 |
| `Vector3.ScalarTripleProduct` | tests/Vec3_Tests.cpp:318-325 | `(a×b)·c = (b×c)·a = (c×a)·b` |
| `Vector3.VectorTripleProduct` | tests/Vec3_Tests.cpp:327-335 | `a×(b×c) = b(a·c) − c(a·b)` |
| `Vector3.ProjectRejectSpec` | tests/Vec3_Tests.cpp:283-307 | projection parallel to the axis, rejection orthogonal, sum is v |
| `Vector3.ProjectParallel` | tests/Vec3_Tests.cpp:283-294 | a vector already parallel to the axis is its own projection |
| `Vector3.ProjectUnique` | tests/Vec3_Tests.cpp:283-294 | the projection is the only parallel vector with an orthogonal remainder |
| `Vector3.ProjectOntoUnit` | tests/Vec3_Tests.cpp:283-294 | projecting onto a unit vector u is `u (v·u)` |
| `Vector3.ReflectSpec` | tests/Vec3_Tests.cpp:309-316 | reflection negates the normal component and keeps the rest |
| `Vector3.ProjectReflectLaws` | tests/Vec3_Tests.cpp:283-316 | projection idempotent, reflection an involution preserving squared magnitude |
| `Vector3.ProjectOntoXAxis` | tests/Vec3_Tests.cpp:283-307 | against any nonzero multiple of x̂, projection keeps x and rejection keeps y, z |
| `Vector3.ProjectOntoYAxis` | tests/Vec3_Tests.cpp:283-316 | the same against ŷ, and reflection negates y |
| `Vector3.ProjectOntoYExample` | tests/Vec3_Tests.cpp:283-289 | (-2,3,0) projected onto (0,1,0) is (0,3,0) |
| `Vector3.ProjectOntoXExample` | tests/Vec3_Tests.cpp:291-293 | (-2,3,0) projected onto (1,0,0) is (-2,0,0) |
| `Vector3.RejectFromYExample` | tests/Vec3_Tests.cpp:296-302 | (-2,3,0) rejected from (0,1,0) is (-2,0,0) |
| `Vector3.RejectFromXExample` | tests/Vec3_Tests.cpp:304-306 | (-2,3,0) rejected from (1,0,0) is (0,3,0) |
| `Vector3.ReflectExample` | tests/Vec3_Tests.cpp:309-316 | (-2,3,0) reflected across normal (0,1,0) is (-2,-3,0) |
| `Vector4.WideningSpec` | tests/Vec4_Tests.cpp:14-33 | widening a Vec2 or Vec3 keeps its components and zero-fills the rest, w included; `xyz` undoes widening |
| `Vector4.AtDeterminesVector` | tests/Vec4_Tests.cpp:58-63 | two Vec4 that agree at indices 0..3 are equal |
| `Vector4.ConstructionExamples` | tests/Vec4_Tests.cpp:14-63 | every constructor of the test, and failing `v[-1]`, `v[4]` |
| `Vector4.ComponentWise` | tests/Vec4_Tests.cpp:66-117 | every operator acts index by index; scalar forms reach w |
| `Vector4.InverseOperations` | tests/Vec4_Tests.cpp:66-117 | each operator is undone by its counterpart |
| `Vector4.AddExamples` | tests/Vec4_Tests.cpp:66-76 | (4,2,6,0) += 42 gives (46,44,48,42), and the rest of the add chain |
| `Vector4.SubExamples` | tests/Vec4_Tests.cpp:78-88 | the sub chain, with scalar `-=` reaching w |
| `Vector4.MulDivExamples` | tests/Vec4_Tests.cpp:90-118 | every step of the mul and div chains, e.g. (4,4,6,2)/2 = (2,2,3,1); `*=` by a three-argument vector zeroes w |
| `Vector4.AdditionLaws` | tests/Vec4_Tests.cpp:148-154 | associativity, commutativity, zero neutral |
| `Vector4.ScalarLaws` | tests/Vec4_Tests.cpp:156-162 | compatibility and both distributive laws |
| `Vector4.LawsExample` | tests/Vec4_Tests.cpp:148-151 | (4,2,1) + (2,6,8) + (4,93,-99) = (10,101,-90) with w zero-filled |
| `Vector4.DotLaws` | tests/Vec4_Tests.cpp:189-195 | dot is symmetric and bilinear |
| `Vector4.SqMagnitudeSpec` | tests/Vec4_Tests.cpp:257-285 | nonnegative, zero exactly at zero, equals `v·v` |
| `Vector4.SqMagnitudeScaled` | tests/Vec4_Tests.cpp:279-281 | scaling by t scales the squared magnitude by t², the square of `(2 * v).norm() == 2 * v.norm()` |
| `Vector4.ProductExamples` | tests/Vec4_Tests.cpp:165-277 | the concrete dot, cross and squared-magnitude values of the tests, including \|(4,3,0,0)\|² = 25 and \|(3,0,0)×(0,5,0)\|² = 225 |
| `Vector4.XyzProducts` | tests/Vec4_Tests.cpp:228-236 | for w = 0, dot and squared magnitude are those of the Vec3 part |
| `Vector4.XyzLinear` | tests/Vec4_Tests.cpp:203-226 | taking the Vec3 part commutes with addition, scaling and negation |
| `Vector4.CrossLaws` | tests/Vec4_Tests.cpp:218-226 | cross is anticommutative, distributive and homogeneous |
| `Vector4.CrossZeroAndOrthogonal` | tests/Vec4_Tests.cpp:251-254 | cross with zero or itself is zero; for w = 0 it is orthogonal to its operands |
| `Vector4.LagrangeIdentity` | tests/Vec4_Tests.cpp:228-236 | for w = 0 operands, `|a×b|² = |a|²|b|² − (a·b)²` |
| `Vector4.TriangleAreaExample` | tests/Vec4_Tests.cpp:238-249 | (18,0,0)×(18,22,0) = (0,0,396) |
| `Vector4.ProjectRejectSpec` | tests/Vec4_Tests.cpp:287-311 | the rejection is orthogonal to the axis and projection plus rejection is v |
| `Vector4.ProjectUnique` | tests/Vec4_Tests.cpp:287-298 | the only multiple of the axis with an orthogonal remainder is the projection |
| `Vector4.ReflectSpec` | tests/Vec4_Tests.cpp:313-320 | reflection negates the normal component |
| `Vector4.ProjectOntoXAxis` | tests/Vec4_Tests.cpp:287-311 | against a multiple of x̂, projection keeps x and rejection keeps y, z, w |
| `Vector4.ProjectOntoYAxis` | tests/Vec4_Tests.cpp:287-320 | the same against ŷ, and reflection negates y |
| `Vector4.ProjectOntoYExample` | tests/Vec4_Tests.cpp:287-293 | (-2,3) projected onto (0,1) is (0,3) |
| `Vector4.ProjectOntoXExample` | tests/Vec4_Tests.cpp:295-297 | (-2,3) projected onto (1,0) is (-2,0) |
| `Vector4.RejectFromYExample` | tests/Vec4_Tests.cpp:300-306 | (-2,3) rejected from (0,1) is (-2,0) |
| `Vector4.RejectFromXExample` | tests/Vec4_Tests.cpp:308-310 | (-2,3) rejected from (1,0) is (0,3) |
| `Vector4.ReflectExample` | tests/Vec4_Tests.cpp:313-320 | (-2,3) reflected across normal (0,1) is (-2,-3) |
| `IntVectors.ConstructorSpec` | tests/Vec4_Tests.cpp:14-30 | splat and default fill all N components; partial construction keeps the given components and zero-fills the rest; indexing determines the vector |
| `IntVectors.TruncDiv` | tests/Vec2_Tests.cpp:92-108 | the quotient times the divisor lies between 0 and the dividend, and the remainder is smaller than the divisor in magnitude |
| `IntVectors.TruncDivUnique` | tests/Vec2_Tests.cpp:92-108 | those bounds determine the quotient: it is the C++ quotient rounded toward zero |
| `IntVectors.TruncDivLaws` | tests/Vec2_Tests.cpp:92-108 | an exact multiple divides back to its factor, and signs move out of the quotient |
| `IntVectors.TruncDivNotEuclidean` | tests/Vec2_Tests.cpp:92-108 | −7 / 2 is −3 in C++ but −4 under Euclidean division |
| `IntVectors.TruncDivExactReal` | tests/Vec2_Tests.cpp:92-108 | an exact integer quotient equals the real quotient |
| `IntVectors.ComponentWise` | tests/Vec3_Tests.cpp:63-115 | every `int` operator keeps the dimension and acts index by index, division truncating |
| `IntVectors.InverseOperations` | tests/Vec3_Tests.cpp:63-115 | on `int` too, `/` undoes `*` and scalar `/` undoes scalar `*` |
| `IntVectors.AdditionLaws` | tests/Vec2_Tests.cpp:136-142 | associativity, commutativity, zero neutral over `int` |
| `IntVectors.ScalarLaws` | tests/Vec2_Tests.cpp:144-152 | `a·2·3 = 2·(a·3)` and both distributive laws over `int` |
| `IntVectors.ExactQuotients` | tests/Vec4_Tests.cpp:105-117 | exact component-wise integer quotients are the real quotients |
| `IntVectors.EmbedVec2` | tests/Vec2_Tests.cpp:53-75 | the `int` add, sub, negation and scalar add/sub agree with the real Vec2 operators |
| `IntVectors.EmbedVec2Products` | tests/Vec2_Tests.cpp:77-108 | the `int` products agree with the real Vec2 ones, and so does exact division |
| `IntVectors.EmbedVec3` | tests/Vec3_Tests.cpp:63-85 | the same for Vec3 |
| `IntVectors.EmbedVec3Products` | tests/Vec3_Tests.cpp:87-115 | the same for Vec3 products and exact division |
| `IntVectors.EmbedVec4` | tests/Vec4_Tests.cpp:66-89 | the same for Vec4 |
| `IntVectors.EmbedVec4Products` | tests/Vec4_Tests.cpp:90-117 | the same for Vec4 products and exact division |
| `IntVectors.InexactDivisionDiffers` | tests/Vec2_Tests.cpp:92-108 | (7,−7)/2 is (3,−3) on `int`, unlike the real (3.5,−3.5) |
| `IntVectors.ConstructionExamples` | tests/Vec3_Tests.cpp:14-30 | the `int` constructors of the tests, and failing indices |
| `IntVectors.Vec2OperatorExamples` | tests/Vec2_Tests.cpp:53-108 | the `int` operator chains of the Vec2 test |
| `IntVectors.Vec3DivisionExamples` | tests/Vec3_Tests.cpp:102-115 | the `int` division chain of the Vec3 test, every step exact |
| `IntVectors.LawsExamples` | tests/Vec4_Tests.cpp:146-162 | the law cases of the tests in two, three and four dimensions over `int` |
| `Matrix3.RowSpec` | tests/Mat3_Tests.cpp:53-56 | row j holds element j of every column |
| `Matrix3.ConstructorSpec` | tests/Mat3_Tests.cpp:13-22 | `Mat3(e0..e8)` puts `e[3i+j]` at `m(i, j)`; `Mat3(k)` is k on the diagonal; default is zero |
| `Matrix3.AtDeterminesMatrix` | tests/Mat3_Tests.cpp:24-29 | matrices agreeing at every `(i, j)` are equal |
| `Matrix3.ConstructorExamples` | tests/Mat3_Tests.cpp:13-29 | default, `Mat3(42)` and `Mat3(1..9)` have the columns of the test |
| `Matrix3.MulVecColumns` | tests/Mat3_Tests.cpp:145-148 | `m·v` is the combination of the columns weighted by v |
| `Matrix3.MulVecRows` | tests/Mat3_Tests.cpp:145-148 | component j of `m·v` is row j dotted with v |
| `Matrix3.MulSpec` | tests/Mat3_Tests.cpp:34-46 | element `(i, j)` of `a·b` is row j of a dotted with column i of b |
| `Matrix3.MulVecCompose` | tests/Mat3_Tests.cpp:34-46 | `(a·b)·v = a·(b·v)` |
| `Matrix3.MulAssociative` | tests/Mat3_Tests.cpp:34-46 | the product is associative |
| `Matrix3.IdentityNeutral` | tests/Mat3_Tests.cpp:67-71 | identity is neutral on both sides and for matrix·vector |
| `Matrix3.ProductExample` | tests/Mat3_Tests.cpp:34-46 | `Mat3(1..9)²` has columns {30,36,42}, {66,81,96}, {102,126,150} |
| `Matrix3.DivScalarSpec` | tests/Mat3_Tests.cpp:48-51 | `/= s` divides every element by s |
| `Matrix3.DivIsMulReciprocal` | tests/Mat3_Tests.cpp:48-51 | dividing by s is scaling by 1/s |
| `Matrix3.DivScalarExample` | tests/Mat3_Tests.cpp:48-51 | `Mat3(2,4,..,512) / 2` has the columns of the test |
| `Matrix3.AccessExamples` | tests/Mat3_Tests.cpp:53-64 | m(0,0)=1, m(1,1)=5, m(1,2)=6, m(2,2)=9; out-of-range `(i, j)` and `m[-1]`, `m[4]` fail |
| `Matrix3.MulScaled` | tests/Mat3_Tests.cpp:48-51 | scaling either factor scales the product |
| `Matrix3.MulVecScaled` | tests/Mat3_Tests.cpp:48-51 | scaling the matrix or the vector scales `m·v` |
| `Matrix3.IdentityExample` | tests/Mat3_Tests.cpp:67-71 | identity has the unit columns |
| `Matrix3.TransposeSpec` | tests/Mat3_Tests.cpp:151-160 | transpose swaps `(i, j)`, is an involution, fixes identity and reverses products |
| `Matrix3.TransposeExample` | tests/Mat3_Tests.cpp:151-160 | transpose of `Mat3(1..9)` has columns {1,4,7}, {2,5,8}, {3,6,9} |
| `Matrix3.ScaleSpec` | tests/Mat3_Tests.cpp:136-149 | `scale(s)·v` multiplies v by s component-wise; uniform scale is `Mat3(k)` |
| `Matrix3.ScaleExamples` | tests/Mat3_Tests.cpp:138-143 | `scale(1,2,3)` is diagonal and equals `scale(Vec3(1,2,3))` |
| `Matrix3.ScalePointExample` | tests/Mat3_Tests.cpp:145-148 | `scale(1,2,3)·(1,2,3) = (1,4,9)` |
| `Matrix3.MulVecTranspose` | tests/Mat3_Tests.cpp:151-160 | `transpose(m)·v` dots each column with v |
| `Matrix3.AdjugateLeft` | tests/Mat3_Tests.cpp:162-169 | `adj(m)·m = det(m)·I` |
| `Matrix3.AdjugateRight` | tests/Mat3_Tests.cpp:162-169 | `m·adj(m) = det(m)·I` |
| `Matrix3.TransposeDetAdjugate` | tests/Mat3_Tests.cpp:151-160 | transposing keeps the determinant and commutes with the adjugate |
| `Matrix3.InverseSpec` | tests/Mat3_Tests.cpp:162-169 | for nonzero det the inverse is two-sided and undoes `m·v` |
| `Matrix3.InverseUnique` | tests/Mat3_Tests.cpp:162-169 | any left inverse is the inverse |
| `Matrix3.OrthogonalInverse` | tests/Mat3_Tests.cpp:183-184 | when `transpose(m)·m = I`, the inverse is the transpose |
| `Matrix3.InverseOfScale` | tests/Mat3_Tests.cpp:164-169 | `det(scale(x,y,z)) = xyz` and its inverse is `scale(1/x,1/y,1/z)` |
| `Matrix3.InverseScaleApply` | tests/Mat3_Tests.cpp:164-169 | `scale(x,y,z).inverse()·v = (v.x/x, v.y/y, v.z/z)`, which gives (2,2,2) for the test |
| `Matrix3.ScaleDetExample` | tests/Mat3_Tests.cpp:164-169 | `det(scale(1,2,3)) = 6`, so the test's inverse exists |
| `Matrix4.RowSpec` | tests/Mat4_Tests.cpp:54-59 | row j holds element j of every column |
| `Matrix4.ConstructorSpec` | tests/Mat4_Tests.cpp:13-23 | `Mat4(e0..e15)` puts `e[4i+j]` at `m(i, j)`; `Mat4(k)` is diagonal; default is zero |
| `Matrix4.AtDeterminesMatrix` | tests/Mat4_Tests.cpp:24-29 | matrices agreeing at every `(i, j)` are equal |
| `Matrix4.ConstructorExamples` | tests/Mat4_Tests.cpp:13-29 | default, `Mat4(42)` and `Mat4(1..16)` have the columns of the test |
| `Matrix4.MulVecColumns` | tests/Mat4_Tests.cpp:157-160 | `m·v` is the combination of the columns weighted by v |
| `Matrix4.MulVecRows` | tests/Mat4_Tests.cpp:157-160 | component j of `m·v` is row j dotted with v |
| `Matrix4.MulSpec` | tests/Mat4_Tests.cpp:34-46 | element `(i, j)` of `a·b` is row j of a dotted with column i of b |
| `Matrix4.MulVecCompose` | tests/Mat4_Tests.cpp:34-46 | `(a·b)·v = a·(b·v)` |
| `Matrix4.MulAssociative` | tests/Mat4_Tests.cpp:34-46 | the product is associative |
| `Matrix4.IdentityNeutral` | tests/Mat4_Tests.cpp:78-83 | identity is neutral on both sides and for matrix·vector |
| `Matrix4.ProductExample` | tests/Mat4_Tests.cpp:34-46 | `Mat4(1..16)²` has columns {90,100,110,120} … {426,484,542,600} |
| `Matrix4.DivScalarSpec` | tests/Mat4_Tests.cpp:48-52 | `/= s` divides every element by s |
| `Matrix4.DivIsMulReciprocal` | tests/Mat4_Tests.cpp:48-52 | dividing by s is scaling by 1/s |
| `Matrix4.DivScalarExample` | tests/Mat4_Tests.cpp:48-52 | `Mat4(2,4,..,65536) / 2` has the columns of the test |
| `Matrix4.MulScaled` | tests/Mat4_Tests.cpp:48-52 | scaling the left factor scales the product |
| `Matrix4.MulVecScaled` | tests/Mat4_Tests.cpp:48-52 | scaling the matrix scales `m·v` |
| `Matrix4.AccessExamples` | tests/Mat4_Tests.cpp:54-67 | m(1,2)=7, m(2,3)=12, m(3,3)=16 and the rest; out-of-range access fails |
| `Matrix4.ToMat3Spec` | tests/Mat4_Tests.cpp:70-76 | `toMat3` keeps entries with both indices below 3; `toMat3(I) = I` |
| `Matrix4.ToMat3MulVec` | tests/Mat4_Tests.cpp:70-76 | for w = 0, `toMat3(m)·xyz(v) = xyz(m·v)` |
| `Matrix4.ToMat3Mul` | tests/Mat4_Tests.cpp:70-76 | `toMat3` is multiplicative when the translation part or the bottom row vanishes |
| `Matrix4.ToMat3Example` | tests/Mat4_Tests.cpp:70-76 | `toMat3(Mat4(1..16))` has columns {1,2,3}, {5,6,7}, {9,10,11} |
| `Matrix4.IdentityExample` | tests/Mat4_Tests.cpp:78-83 | identity has the unit columns |
| `Matrix4.TransposeSpec` | tests/Mat4_Tests.cpp:179-189 | transpose swaps `(i, j)`, turns rows into columns, is an involution and fixes identity |
| `Matrix4.TransposeMul` | tests/Mat4_Tests.cpp:179-189 | `transpose(a·b) = transpose(b)·transpose(a)` |
| `Matrix4.TransposeExample` | tests/Mat4_Tests.cpp:179-189 | transpose of `Mat4(1..16)` has columns {1,5,9,13} … {4,8,12,16} |
| `Matrix4.ScaleSpec` | tests/Mat4_Tests.cpp:148-161 | `scale(x,y,z)·v = (xv.x, yv.y, zv.z, v.w)`; its `toMat3` is the Mat3 scale |
| `Matrix4.ScaleExamples` | tests/Mat4_Tests.cpp:150-155 | columns of `scale(1,2,3)`, equal to `scale(Vec3(1,2,3))` |
| `Matrix4.ScalePointExample` | tests/Mat4_Tests.cpp:157-160 | `scale(1,2,3)·(1,2,3,0) = (1,4,9,0)` |
| `Matrix4.TranslationSpec` | tests/Mat4_Tests.cpp:163-171 | translation has `toMat3 = I` and column 3 `(x,y,z,1)`, moves points by w·t, and composes additively |
| `Matrix4.TranslationExamples` | tests/Mat4_Tests.cpp:163-171 | `translation(1,2,3)` and `translation(Vec3(1,2,3))` as in the test |
| `Matrix4.ScaleTranslation` | tests/Mat4_Tests.cpp:173-176 | scale∘translation has the scale columns and last column `(xtx, yty, ztz, 1)` |
| `Matrix4.ScaledTranslationExample` | tests/Mat4_Tests.cpp:173-176 | `scale(1,2,3)·translation(1,2,3)` has columns {1,0,0,0}, {0,2,0,0}, {0,0,3,0}, {1,4,9,1} |
| `Matrix4.TripleCrossAlternates` | tests/Mat4_Tests.cpp:191-198 | the 4-D triple cross product is orthogonal to each of its arguments |
| `Matrix4.TripleCrossShifts` | tests/Mat4_Tests.cpp:191-198 | the 4-D triple cross product changes sign under transpositions of arguments |
| `Matrix4.MulVecTranspose` | tests/Mat4_Tests.cpp:179-189 | `transpose(m)·v` dots each column with v |
| `Matrix4.AdjugateColumns` | tests/Mat4_Tests.cpp:191-198 | the adjugate maps column i to `det(m)` times the i-th unit vector |
| `Matrix4.AdjugateLeft` | tests/Mat4_Tests.cpp:191-198 | `adj(m)·m = det(m)·I` |
| `Matrix4.TransposeDet` | tests/Mat4_Tests.cpp:179-189 | transposing keeps the determinant |
| `Matrix4.InverseSpec` | tests/Mat4_Tests.cpp:191-198 | for nonzero det the inverse is two-sided and undoes `m·v` |
| `Matrix4.InverseUnique` | tests/Mat4_Tests.cpp:191-198 | any left inverse is the inverse |
| `Matrix4.OrthogonalInverse` | tests/Mat4_Tests.cpp:212-213 | when `transpose(m)·m = I`, the inverse is the transpose |
| `Matrix4.ScaleCompose` | tests/Mat4_Tests.cpp:148-161 | scales compose component-wise and `det(scale(x,y,z)) = xyz` |
| `Matrix4.ScaleReciprocal` | tests/Mat4_Tests.cpp:193-198 | `scale(1/x,1/y,1/z)·scale(x,y,z) = I` |
| `Matrix4.InverseOfScale` | tests/Mat4_Tests.cpp:193-198 | the inverse of `scale(x,y,z)` is `scale(1/x,1/y,1/z)` |
| `Matrix4.InverseScaleApply` | tests/Mat4_Tests.cpp:193-198 | `scale(x,y,z).inverse()·v = (v.x/x, v.y/y, v.z/z, v.w)`, which gives (2,2,2,1) for the test |
| `Matrix4.InverseOfTranslation` | tests/Mat4_Tests.cpp:163-171 | `det(translation) = 1` and its inverse is the opposite translation |
| `Quaternion.ConstructorSpec` | tests/Quaternion_Tests.cpp:36-40 | `Quat(x,y,z,w)` is `Quat(Vec3(x,y,z), w)`; `q[0]` is x, `q[3]` is w; indexing determines the quaternion |
| `Quaternion.ConstructorExamples` | tests/Quaternion_Tests.cpp:33-46 | default is zero, `Quat(1,2,3,4)` has v = (1,2,3), w = 4; identity is v = 0, w = 1 |
| `Quaternion.ComponentWise` | tests/Quaternion_Tests.cpp:56-77 | add, sub, negation, scalar `*` and `/` act index by index |
| `Quaternion.InverseOperations` | tests/Quaternion_Tests.cpp:56-77 | sub undoes add, scalar `/` undoes `*`; addition is associative and commutative |
| `Quaternion.OperatorExamples` | tests/Quaternion_Tests.cpp:56-77 | the concrete `+`, `+=`, `-`, `-=`, `*=`, `/=` results |
| `Quaternion.AccessExamples` | tests/Quaternion_Tests.cpp:79-85 | `q[0..3]` are 3, 6, 9, 12; `q[-1]` and `q[4]` fail |
| `Quaternion.QueriesSpec` | tests/Quaternion_Tests.cpp:88-100 | `isPure` exactly when the conjugate is the negation; `isReal` exactly when the conjugate is q |
| `Quaternion.ZeroSpec` | tests/Quaternion_Tests.cpp:33-34 | `isZero` exactly for the zero quaternion, exactly when the squared magnitude is 0; units are nonzero |
| `Quaternion.QueryExamples` | tests/Quaternion_Tests.cpp:88-105 | the pure / real / unit answers of the getters test |
| `Quaternion.SqMagnitudeSpec` | tests/Quaternion_Tests.cpp:124-136 | squared magnitude is nonnegative, zero exactly at zero, `q·q`, and `|v|² + w²` |
| `Quaternion.MagnitudeExamples` | tests/Quaternion_Tests.cpp:124-136 | squared magnitudes 1, 9 and 36 for identity, (3,0,0,0) and (4,4,0,2) |
| `Quaternion.DotLaws` | tests/Quaternion_Tests.cpp:146-150 | dot is symmetric, `q·(−p) = −(q·p)`, additive and homogeneous |
| `Quaternion.RotationFixtureDot` | tests/Quaternion_Tests.cpp:139-155 | the fixture's rotation quaternion is unit, and its dot with the second one is `c² − 2s²`, which is −0.5 at 45° |
| `Quaternion.MulVectorForm` | tests/Quaternion_Tests.cpp:174-175 | the product is `(w1v2 + w2v1 + v1×v2, w1w2 − v1·v2)` |
| `Quaternion.IdentityNeutral` | tests/Quaternion_Tests.cpp:174-175 | identity is neutral on both sides and is a unit quaternion |
| `Quaternion.RealCommutes` | tests/Quaternion_Tests.cpp:174-175 | real quaternions commute with everything |
| `Quaternion.NotCommutative` | tests/Quaternion_Tests.cpp:174-175 | `i·j ≠ j·i`, so the product is not commutative |
| `Quaternion.MulAssociative` | tests/Quaternion_Tests.cpp:174-175 | the Hamilton product is associative |
| `Quaternion.MulScaled` | tests/Quaternion_Tests.cpp:167-175 | scaling either factor scales the product |
| `Quaternion.ConjugateSpec` | tests/Quaternion_Tests.cpp:177-178 | conjugation is an additive involution, keeps squared magnitude and reverses products |
| `Quaternion.ConjugateProduct` | tests/Quaternion_Tests.cpp:177-178 | `conj(q)·q = q·conj(q) = (0, |q|²)` |
| `Quaternion.SqMagnitudeMultiplicative` | tests/Quaternion_Tests.cpp:174-175 | `|ab|² = |a|²|b|²`, so unit quaternions are closed under the product |
| `Quaternion.InverseSpec` | tests/Quaternion_Tests.cpp:167-175 | for nonzero q, `inverse(q)·q = q·inverse(q) = identity` |
| `Quaternion.InverseUnique` | tests/Quaternion_Tests.cpp:167-175 | any left inverse is the inverse |
| `Quaternion.UnitInverse` | tests/Quaternion_Tests.cpp:177-182 | for unit q, `inverse = conjugate = inverseUnit`, `q·q = 1` and `q·(−q) = −1` |
| `Angles.ConversionSpec` | tests/Angles_Tests.cpp:9-17 | radToDeg and degToRad are inverse and linear; radToDeg(π/4) = 45, radToDeg(π) = 180 |
| `Angles.ConvertSpec` | tests/Angles_Tests.cpp:24-32 | assignment across units converts the value through degToRad / radToDeg and converting back restores the angle |
| `Angles.ArithmeticSpec` | tests/Angles_Tests.cpp:37-72 | `*`, `+` and unary `-` keep the unit, undo each other, and commute with conversion |
| `Angles.ConversionExamples` | tests/Angles_Tests.cpp:11-32 | π/4 ↔ 45, and the Degs(45) / Rads round trip of the test |
| `Angles.RadsOperatorExamples` | tests/Angles_Tests.cpp:37-52 | π/6 → π/3 → π/6 → π/3 → π/6 → −π/6 |
| `Angles.DegsOperatorExamples` | tests/Angles_Tests.cpp:57-72 | 10 → 20 → 10 → 20 → 10 → −10 |

## Left out

- Equality with a tolerance (`almostEquals`, `equalsWithMargin`,
  tests/Equality_Tests.cpp): it exists because of IEEE-754 rounding, NaN and
  infinities. The model uses exact `real` arithmetic and exact equality.
- Rounding of `float`/`double`: every real operation here is exact.
- `int` overflow: `IntVectors` uses unbounded integers and does not model
  32-bit wrap-around (signed overflow is undefined behaviour in C++, and the
  tests stay far from it).
- `norm`, `magnitude`, `modulus` and `normalize` need square roots. Only
  squared magnitudes are modelled. The tests' norm values 1, 4, 0 and 5, and
  the cross-product magnitude 15 = 3·5, are the roots of the squared
  magnitudes stated by the vector `ProductExamples` lemmas, and 1, 3 and 6 those of `Quaternion.MagnitudeExamples`;
  `(2 * v).norm() == 2 * v.norm()` is `SqMagnitudeScaled` squared. The
  normalize check `v.normalize() == v / v.norm()` is not modelled.
- Rotation matrices (`rotationAroundX/Y/Z`, `rotation(axis, angle)`), Euler
  angle conversions, and the rotation half of the inverse tests: these need
  sine, cosine and atan2. The algebraic fact they check, that an orthogonal
  matrix's inverse is its transpose, is `OrthogonalInverse`.
- Quaternion `rotate`, `log` / `exp` / `pow`, matrix, angle-axis and Euler
  conversions need transcendental functions. The fixture's sin/cos values
  enter `RotationFixtureDot` as parameters s and c with `s² + c² = 1`.
- The dot-product test's `a·b = |a||b|cos θ` check, and `(1,1).normalize()`
  (square roots and cosine).
- String construction and formatting (`"4 2 1"`, `"(x: 4 y: 2)"`, the
  `std::cout` capture), and the `45_degf` / `1_radf` literals: parsing, I/O
  and compiler surface.
- `sizeof` / `STATIC_REQUIRE` layout checks, and the template instantiation
  itself (the float and double instantiations share one real model).
- Copy construction and copy assignment: values in the model are immutable,
  so a copy is the value itself.
- The general 4×4 inverse is modelled through the adjugate. The tests only
  invert scale and rotation matrices.
- Mat4 times a Vec3 (the rotation half of tests/Mat4_Tests.cpp:203-209):
  rotations are left out, so the implicit widening there is not modelled.
- Vec4 cross with nonzero `w`: the tests only use `w = 0`, and the model's
  cross uses the first three components.
- `Matrix3.InverseScaleApply`, `Matrix4.InverseScaleApply`: the concrete
  `scale(1,2,3).inverse()·(2,4,6)` is derived from these parametric lemmas
  rather than stated as a separate literal lemma.
