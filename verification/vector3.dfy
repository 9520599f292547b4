/** Three-component vectors (`Vector<T, 3>`): the Vec2 algebra plus the
    cross product and the triple products. */
module Vector3 {
  import opened Wrappers
  import opened Reals
  import Vector2

  /** Components addressed by name (x, y, z) and by index (0, 1, 2). */
  datatype Vec3 = Vec3(x: real, y: real, z: real) {

    /** `v[i]`: indices 0, 1, 2 are x, y, z; every other index fails. */
    function At(i: int): (r: Option<real>)
      ensures r.Some? <==> 0 <= i < 3
      ensures r.Some? ==> r.value == [x, y, z][i]
    {
      if i == 0 then Some(x) else if i == 1 then Some(y) else if i == 2 then Some(z) else None
    }
  }

  /** The one-argument constructor: every component set to `k`. */
  function Splat(k: real): Vec3 {
    Vec3(k, k, k)
  }

  /** The default constructor. */
  function Zero(): Vec3 {
    Splat(0.0)
  }

  /** The two-argument constructor: z is zero-filled. */
  function FromXY(x: real, y: real): Vec3 {
    Vec3(x, y, 0.0)
  }

  /** Widening `Vec3(Vector<T, 2>, z)`: the Vec2 supplies x and y. */
  function FromVec2(v: Vector2.Vec2, z: real): Vec3 {
    Vec3(v.x, v.y, z)
  }

  /** Widening a Vec2 keeps its components at the same indices, appends `z`,
      and a bare widening agrees with the two-argument constructor. */
  lemma WideningSpec(v: Vector2.Vec2, z: real)
    ensures forall i :: 0 <= i < 2 ==> FromVec2(v, z).At(i) == v.At(i)
    ensures FromVec2(v, z).At(2) == Some(z)
    ensures FromVec2(v, 0.0) == FromXY(v.x, v.y)
  {
  }

  /** A vector is fully determined by what indexing returns. */
  lemma AtDeterminesVector(a: Vec3, b: Vec3)
    requires forall i :: 0 <= i < 3 ==> a.At(i) == b.At(i)
    ensures a == b
  {
    assert a.At(0) == b.At(0);
    assert a.At(1) == b.At(1);
    assert a.At(2) == b.At(2);
  }

  // Component-wise arithmetic.

  function Add(a: Vec3, b: Vec3): Vec3 {
    Vec3(a.x + b.x, a.y + b.y, a.z + b.z)
  }

  function Sub(a: Vec3, b: Vec3): Vec3 {
    Vec3(a.x - b.x, a.y - b.y, a.z - b.z)
  }

  function Mul(a: Vec3, b: Vec3): Vec3 {
    Vec3(a.x * b.x, a.y * b.y, a.z * b.z)
  }

  /** Component-wise quotient; a zero divisor component has no exact value. */
  function Div(a: Vec3, b: Vec3): Vec3
    requires b.x != 0.0 && b.y != 0.0 && b.z != 0.0
  {
    Vec3(a.x / b.x, a.y / b.y, a.z / b.z)
  }

  function Neg(a: Vec3): Vec3 {
    Vec3(-a.x, -a.y, -a.z)
  }

  // Scalar forms: the scalar is applied to every component.

  function AddScalar(v: Vec3, s: real): Vec3 {
    Add(v, Splat(s))
  }

  function SubScalar(v: Vec3, s: real): Vec3 {
    Sub(v, Splat(s))
  }

  function MulScalar(v: Vec3, s: real): Vec3 {
    Vec3(v.x * s, v.y * s, v.z * s)
  }

  function DivScalar(v: Vec3, s: real): Vec3
    requires s != 0.0
  {
    Vec3(v.x / s, v.y / s, v.z / s)
  }

  /** Every operator acts index by index. */
  lemma ComponentWise(a: Vec3, b: Vec3, s: real, i: int)
    requires 0 <= i < 3
    ensures Add(a, b).At(i).value == a.At(i).value + b.At(i).value
    ensures Sub(a, b).At(i).value == a.At(i).value - b.At(i).value
    ensures Mul(a, b).At(i).value == a.At(i).value * b.At(i).value
    ensures Neg(a).At(i).value == -a.At(i).value
    ensures AddScalar(a, s).At(i).value == a.At(i).value + s
    ensures SubScalar(a, s).At(i).value == a.At(i).value - s
    ensures MulScalar(a, s).At(i).value == a.At(i).value * s
    ensures b.x != 0.0 && b.y != 0.0 && b.z != 0.0 ==> Div(a, b).At(i).value == a.At(i).value / b.At(i).value
    ensures s != 0.0 ==> DivScalar(a, s).At(i).value == a.At(i).value / s
  {
  }

  /** Each operation is undone by its counterpart. */
  lemma InverseOperations(a: Vec3, b: Vec3, s: real)
    ensures Sub(Add(a, b), b) == a
    ensures Add(Sub(a, b), b) == a
    ensures SubScalar(AddScalar(a, s), s) == a
    ensures b.x != 0.0 && b.y != 0.0 && b.z != 0.0 ==> Div(Mul(a, b), b) == a
    ensures s != 0.0 ==> DivScalar(MulScalar(a, s), s) == a
    ensures Add(a, Neg(a)) == Zero()
  {
  }

  /** Addition is associative and commutative, with Zero as neutral element. */
  lemma AdditionLaws(a: Vec3, b: Vec3, c: Vec3)
    ensures Add(Add(a, b), c) == Add(a, Add(b, c))
    ensures Add(a, b) == Add(b, a)
    ensures Add(a, Zero()) == a
  {
  }

  /** Scalar multiplication is compatible with the product of scalars and
      distributes over both vector addition and scalar addition. */
  lemma ScalarLaws(a: Vec3, b: Vec3, s: real, t: real)
    ensures MulScalar(MulScalar(a, s), t) == MulScalar(a, s * t)
    ensures MulScalar(Add(a, b), s) == Add(MulScalar(a, s), MulScalar(b, s))
    ensures MulScalar(a, s + t) == Add(MulScalar(a, s), MulScalar(a, t))
  {
  }

  // Products.

  function Dot(a: Vec3, b: Vec3): real {
    a.x * b.x + a.y * b.y + a.z * b.z
  }

  /** The right-handed cross product. */
  function Cross(a: Vec3, b: Vec3): Vec3 {
    Vec3(a.y * b.z - a.z * b.y, a.z * b.x - a.x * b.z, a.x * b.y - a.y * b.x)
  }

  /** `squareMagnitude()`: the sum of the squared components. */
  function SqMagnitude(v: Vec3): real {
    Sq(v.x) + Sq(v.y) + Sq(v.z)
  }

  /** The squared magnitude is never negative and vanishes exactly on the
      zero vector; it is the dot product of a vector with itself. */
  lemma SqMagnitudeSpec(v: Vec3)
    ensures SqMagnitude(v) >= 0.0
    ensures SqMagnitude(v) == 0.0 <==> v == Zero()
    ensures SqMagnitude(v) == Dot(v, v)
  {
    SqNonneg(v.x);
    SqNonneg(v.y);
    SqNonneg(v.z);
    SqZero(v.x);
    SqZero(v.y);
    SqZero(v.z);
  }

  /** Scaling a vector by t scales its squared magnitude by Sq(t); this is the square of
      `(t * v).norm() == t * v.norm()`. */
  lemma SqMagnitudeScaled(v: Vec3, t: real)
    ensures SqMagnitude(MulScalar(v, t)) == Sq(t) * SqMagnitude(v)
  {
  }

  /** The dot product is symmetric, distributes over addition and is
      homogeneous in either argument. */
  lemma DotLaws(a: Vec3, b: Vec3, c: Vec3, t: real)
    ensures Dot(a, b) == Dot(b, a)
    ensures Dot(a, Add(b, c)) == Dot(a, b) + Dot(a, c)
    ensures Dot(Sub(a, b), c) == Dot(a, c) - Dot(b, c)
    ensures Dot(MulScalar(a, t), b) == Dot(a, MulScalar(b, t)) == t * Dot(a, b)
  {
  }

  /** The cross product is anticommutative, distributes over addition and is
      homogeneous in either argument. */
  lemma CrossLaws(a: Vec3, b: Vec3, c: Vec3, t: real)
    ensures Cross(a, b) == Neg(Cross(b, a))
    ensures Cross(a, Add(b, c)) == Add(Cross(a, b), Cross(a, c))
    ensures Cross(MulScalar(a, t), b) == Cross(a, MulScalar(b, t)) == MulScalar(Cross(a, b), t)
  {
    CrossScaleLeft(a, b, t);
    CrossScaleRight(a, b, t);
  }

  /** Scaling the left operand scales each component of the cross product. */
  lemma CrossScaleLeft(a: Vec3, b: Vec3, t: real)
    ensures Cross(MulScalar(a, t), b).x == Cross(a, b).x * t
    ensures Cross(MulScalar(a, t), b).y == Cross(a, b).y * t
    ensures Cross(MulScalar(a, t), b).z == Cross(a, b).z * t
  {
  }

  /** Scaling the right operand scales each component of the cross product. */
  lemma CrossScaleRight(a: Vec3, b: Vec3, t: real)
    ensures Cross(a, MulScalar(b, t)).x == Cross(a, b).x * t
    ensures Cross(a, MulScalar(b, t)).y == Cross(a, b).y * t
    ensures Cross(a, MulScalar(b, t)).z == Cross(a, b).z * t
  {
  }

  /** The cross product vanishes against the zero vector and against itself,
      and is orthogonal to both operands. */
  lemma CrossZeroAndOrthogonal(a: Vec3, b: Vec3)
    ensures Cross(a, Zero()) == Zero() && Cross(Zero(), a) == Zero()
    ensures Cross(a, a) == Zero()
    ensures Dot(Cross(a, b), a) == 0.0 && Dot(Cross(a, b), b) == 0.0
  {
  }

  /** Lagrange's identity: |a × b|² = |a|²|b|² − (a · b)². */
  lemma LagrangeIdentity(a: Vec3, b: Vec3)
    ensures SqMagnitude(Cross(a, b)) == SqMagnitude(a) * SqMagnitude(b) - Sq(Dot(a, b))
  {
  }

  /** The scalar triple product is invariant under cyclic rotation of its
      operands. */
  lemma ScalarTripleProduct(a: Vec3, b: Vec3, c: Vec3)
    ensures Dot(Cross(a, b), c) == Dot(Cross(b, c), a) == Dot(Cross(c, a), b)
  {
  }

  /** The vector triple product expands as a × (b × c) = b(a·c) − c(a·b). */
  lemma VectorTripleProduct(a: Vec3, b: Vec3, c: Vec3)
    ensures Cross(a, Cross(b, c)) == Sub(MulScalar(b, Dot(a, c)), MulScalar(c, Dot(a, b)))
  {
    TripleComponents(a, b, c);
  }

  /** The vector triple product expansion, component by component. */
  lemma TripleComponents(a: Vec3, b: Vec3, c: Vec3)
    ensures Cross(a, Cross(b, c)).x == b.x * Dot(a, c) - c.x * Dot(a, b)
    ensures Cross(a, Cross(b, c)).y == b.y * Dot(a, c) - c.y * Dot(a, b)
    ensures Cross(a, Cross(b, c)).z == b.z * Dot(a, c) - c.z * Dot(a, b)
  {
  }

  /** A nonzero `a` and any `b` lie on one line through the origin exactly
      when their cross product vanishes. */
  lemma CrossZeroIffParallel(a: Vec3, b: Vec3)
    requires a != Zero()
    ensures Cross(a, b) == Zero() <==> exists k :: b == MulScalar(a, k)
  {
    SqMagnitudeSpec(a);
    var k := Dot(a, b) / SqMagnitude(a);
    if Cross(a, b) == Zero() {
      VectorTripleProduct(a, a, b);
      assert MulScalar(a, Dot(a, b)) == MulScalar(b, SqMagnitude(a));
      MulDivCancel(Dot(a, b), SqMagnitude(a));
      assert k * SqMagnitude(a) == Dot(a, b);
      assert b.x * SqMagnitude(a) == a.x * k * SqMagnitude(a);
      assert b.y * SqMagnitude(a) == a.y * k * SqMagnitude(a);
      assert b.z * SqMagnitude(a) == a.z * k * SqMagnitude(a);
      assert b == MulScalar(a, k);
    }
  }

  // Projection, rejection and reflection.

  /** `v.project(axis)`: the multiple dot(v, axis) / dot(axis, axis) of axis. */
  function Project(v: Vec3, axis: Vec3): Vec3
    requires axis != Zero()
  {
    SqMagnitudeSpec(axis);
    MulScalar(axis, Dot(v, axis) / SqMagnitude(axis))
  }

  /** `v.reject(axis)`: what is left of `v` once its projection is removed. */
  function Reject(v: Vec3, axis: Vec3): Vec3
    requires axis != Zero()
  {
    Sub(v, Project(v, axis))
  }

  /** `v.reflect(normal)`: `v` mirrored across the plane whose normal is `normal`. */
  function Reflect(v: Vec3, normal: Vec3): Vec3
    requires normal != Zero()
  {
    Sub(v, MulScalar(Project(v, normal), 2.0))
  }

  /** The projection is parallel to axis, the rejection is orthogonal to it,
      and together they rebuild `v`. */
  lemma ProjectRejectSpec(v: Vec3, axis: Vec3)
    requires axis != Zero()
    ensures Cross(Project(v, axis), axis) == Zero()
    ensures Dot(Reject(v, axis), axis) == 0.0
    ensures Add(Project(v, axis), Reject(v, axis)) == v
  {
    SqMagnitudeSpec(axis);
    var k := Dot(v, axis) / SqMagnitude(axis);
    MulDivCancel(Dot(v, axis), SqMagnitude(axis));
    assert k * SqMagnitude(axis) == Dot(v, axis);
  }

  /** A vector parallel to a nonzero axis is its own projection onto it. */
  lemma ProjectParallel(r: Vec3, axis: Vec3)
    requires axis != Zero()
    requires Cross(r, axis) == Zero()
    ensures Project(r, axis) == r
  {
    assert Cross(axis, r) == Zero() by {
      CrossLaws(axis, r, r, 0.0);
    }
    CrossZeroIffParallel(axis, r);
    var k :| r == MulScalar(axis, k);
    SqMagnitudeSpec(axis);
    assert Dot(r, axis) == k * SqMagnitude(axis) by {
      DotLaws(axis, axis, axis, k);
    }
    MulDivCancel(k, SqMagnitude(axis));
  }

  /** Those properties single out the projection: any vector parallel to axis
      whose residual is orthogonal to axis is the projection. */
  lemma ProjectUnique(v: Vec3, axis: Vec3, r: Vec3)
    requires axis != Zero()
    requires Cross(r, axis) == Zero()
    requires Dot(Sub(v, r), axis) == 0.0
    ensures r == Project(v, axis)
  {
    ProjectParallel(r, axis);
    DotLaws(v, r, axis, 0.0);
    assert Dot(v, axis) == Dot(r, axis);
  }

  /** Reflection flips the component along the normal and keeps the rest. */
  lemma ReflectSpec(v: Vec3, normal: Vec3)
    requires normal != Zero()
    ensures Dot(Reflect(v, normal), normal) == -Dot(v, normal)
    ensures Add(Reflect(v, normal), v) == MulScalar(Reject(v, normal), 2.0)
  {
    ProjectRejectSpec(v, normal);
  }

  /** Projecting twice changes nothing; reflecting twice gives back `v`;
      reflection preserves the squared magnitude. */
  lemma ProjectReflectLaws(v: Vec3, n: Vec3)
    requires n != Zero()
    ensures Project(Project(v, n), n) == Project(v, n)
    ensures Reflect(Reflect(v, n), n) == v
    ensures SqMagnitude(Reflect(v, n)) == SqMagnitude(v)
  {
    SqMagnitudeSpec(n);
    var k := Dot(v, n) / SqMagnitude(n);
    MulDivCancel(Dot(v, n), SqMagnitude(n));
    assert k * SqMagnitude(n) == Dot(v, n);
    var p := Project(v, n);
    assert p == MulScalar(n, k);
    var kp := Dot(p, n) / SqMagnitude(n);
    assert Dot(p, n) == k * SqMagnitude(n);
    MulDivCancel(k, SqMagnitude(n));
    assert kp == k;
    var r := Reflect(v, n);
    assert r == Sub(v, MulScalar(n, 2.0 * k));
    assert Dot(r, n) == -Dot(v, n);
    var kr := Dot(r, n) / SqMagnitude(n);
    assert kr == -k;
    assert Reflect(r, n) == Sub(r, MulScalar(n, 2.0 * kr));
  }

  /** Onto an axis of unit squared length, projection needs no division. */
  lemma ProjectOntoUnit(v: Vec3, u: Vec3)
    requires SqMagnitude(u) == 1.0
    ensures u != Zero() && Project(v, u) == MulScalar(u, Dot(v, u))
  {
    SqMagnitudeSpec(u);
  }

  /** Against any nonzero multiple of the x axis, projection keeps the x
      component and rejection keeps the others. */
  lemma ProjectOntoXAxis(v: Vec3, a: real)
    requires a != 0.0
    ensures Project(v, Vec3(a, 0.0, 0.0)) == Vec3(v.x, 0.0, 0.0)
    ensures Reject(v, Vec3(a, 0.0, 0.0)) == Vec3(0.0, v.y, v.z)
  {
    var u := Vec3(a, 0.0, 0.0);
    SqMagnitudeSpec(u);
    assert SqMagnitude(u) == Sq(a) && Dot(v, u) == v.x * a;
    MulDivCancel(v.x, a);
    assert a * (Dot(v, u) / SqMagnitude(u)) == v.x;
  }

  /** Against any nonzero multiple of the y axis, projection keeps the y
      component, rejection keeps the others and reflection negates y. */
  lemma ProjectOntoYAxis(v: Vec3, a: real)
    requires a != 0.0
    ensures Project(v, Vec3(0.0, a, 0.0)) == Vec3(0.0, v.y, 0.0)
    ensures Reject(v, Vec3(0.0, a, 0.0)) == Vec3(v.x, 0.0, v.z)
    ensures Reflect(v, Vec3(0.0, a, 0.0)) == Vec3(v.x, -v.y, v.z)
  {
    var u := Vec3(0.0, a, 0.0);
    SqMagnitudeSpec(u);
    assert SqMagnitude(u) == Sq(a) && Dot(v, u) == v.y * a;
    MulDivCancel(v.y, a);
    assert a * (Dot(v, u) / SqMagnitude(u)) == v.y;
  }

  // The concrete cases of the library's Vec3 tests.

  lemma ConstructionExamples()
    ensures Zero() == Vec3(0.0, 0.0, 0.0) && Splat(42.0) == Vec3(42.0, 42.0, 42.0)
    ensures FromXY(4.0, 2.0) == Vec3(4.0, 2.0, 0.0)
    ensures FromVec2(Vector2.Vec2(4.0, 2.0), 0.0) == Vec3(4.0, 2.0, 0.0)
    ensures FromVec2(Vector2.Vec2(4.0, 2.0), 66.0) == Vec3(4.0, 2.0, 66.0)
    ensures Vec3(4.0, 2.0, 66.0).At(-1) == None && Vec3(4.0, 2.0, 66.0).At(3) == None
  {
  }

  lemma ArithmeticExamples()
    ensures Add(Vec3(2.0, 1.0, 4.0), Vec3(2.0, 1.0, 2.0)) == Vec3(4.0, 2.0, 6.0)
    ensures AddScalar(Vec3(4.0, 2.0, 6.0), 42.0) == Vec3(46.0, 44.0, 48.0)
    ensures Add(Vec3(46.0, 44.0, 48.0), Vec3(13.0, 37.0, 42.0)) == Vec3(59.0, 81.0, 90.0)
    ensures Sub(Vec3(6.0, 3.0, 4.0), Vec3(2.0, 1.0, 3.0)) == Vec3(4.0, 2.0, 1.0)
    ensures SubScalar(Vec3(4.0, 2.0, 1.0), 2.0) == Vec3(2.0, 0.0, -1.0)
    ensures Sub(Vec3(2.0, 0.0, -1.0), Vec3(4.0, 2.0, 3.0)) == Vec3(-2.0, -2.0, -4.0)
  {
  }

  lemma MulDivExamples()
    ensures MulScalar(Vec3(2.0, 1.0, 3.0), 2.0) == Vec3(4.0, 2.0, 6.0)
    ensures Mul(Vec3(2.0, 1.0, 3.0), Vec3(2.0, 2.0, 7.0)) == Vec3(4.0, 2.0, 21.0)
    ensures Mul(Vec3(8.0, 4.0, 42.0), Vec3(2.0, 2.0, 3.0)) == Vec3(16.0, 8.0, 126.0)
    ensures MulScalar(Vec3(4.0, 2.0, 21.0), 2.0) == Vec3(8.0, 4.0, 42.0)
    ensures DivScalar(Vec3(8.0, 4.0, 6.0), 2.0) == Vec3(4.0, 2.0, 3.0)
    ensures Div(Vec3(16.0, 8.0, 12.0), Vec3(4.0, 2.0, 2.0)) == Vec3(4.0, 4.0, 6.0)
    ensures DivScalar(Vec3(4.0, 4.0, 6.0), 2.0) == Vec3(2.0, 2.0, 3.0)
    ensures Div(Vec3(2.0, 2.0, 3.0), Vec3(2.0, 2.0, 1.0)) == Vec3(1.0, 1.0, 3.0)
  {
  }

  // Several literal products in one proof obligation make the solver's
  // literal-unfolding rules feed each other; each product case is therefore
  // its own lemma, and ProductExamples gathers them.

  lemma XDotX() ensures Dot(Vec3(1.0, 0.0, 0.0), Vec3(1.0, 0.0, 0.0)) == 1.0 { }
  lemma XDotY() ensures Dot(Vec3(1.0, 0.0, 0.0), Vec3(0.0, 1.0, 0.0)) == 0.0 { }
  lemma XDotNegX() ensures Dot(Vec3(1.0, 0.0, 0.0), Vec3(-1.0, 0.0, 0.0)) == -1.0 { }
  lemma XDotNegY() ensures Dot(Vec3(1.0, 0.0, 0.0), Vec3(0.0, -1.0, 0.0)) == 0.0 { }
  lemma DotWithZ() ensures Dot(Vec3(2.0, 2.0, 3.0), Vec3(1.0, 2.0, 5.0)) == 21.0 { }
  lemma XCrossY() ensures Cross(Vec3(1.0, 0.0, 0.0), Vec3(0.0, 1.0, 0.0)) == Vec3(0.0, 0.0, 1.0) { }
  lemma YCrossX() ensures Cross(Vec3(0.0, 1.0, 0.0), Vec3(1.0, 0.0, 0.0)) == Neg(Vec3(0.0, 0.0, 1.0)) { }
  lemma SqMagnitudeZ() ensures SqMagnitude(Vec3(0.0, 0.0, 1.0)) == 1.0 { }
  lemma SqMagnitude4Z() ensures SqMagnitude(Vec3(0.0, 0.0, 4.0)) == 16.0 { }
  lemma SqMagnitudeZero() ensures SqMagnitude(Zero()) == 0.0 { }
  lemma SqMagnitude43() ensures SqMagnitude(FromXY(4.0, 3.0)) == 25.0 { }
  lemma CrossMagnitude()
    ensures SqMagnitude(Cross(Vec3(3.0, 0.0, 0.0), Vec3(0.0, 5.0, 0.0))) == 225.0
  {
    assert Cross(Vec3(3.0, 0.0, 0.0), Vec3(0.0, 5.0, 0.0)) == Vec3(0.0, 0.0, 15.0);
  }

  /** The dot, cross and squared-magnitude cases of the Vec3 tests. */
  lemma ProductExamples()
    ensures Dot(Vec3(1.0, 0.0, 0.0), Vec3(1.0, 0.0, 0.0)) == 1.0
    ensures Dot(Vec3(1.0, 0.0, 0.0), Vec3(0.0, 1.0, 0.0)) == 0.0
    ensures Dot(Vec3(1.0, 0.0, 0.0), Vec3(-1.0, 0.0, 0.0)) == -1.0
    ensures Dot(Vec3(1.0, 0.0, 0.0), Vec3(0.0, -1.0, 0.0)) == 0.0
    ensures Dot(Vec3(2.0, 2.0, 3.0), Vec3(1.0, 2.0, 5.0)) == 21.0
    ensures Cross(Vec3(1.0, 0.0, 0.0), Vec3(0.0, 1.0, 0.0)) == Vec3(0.0, 0.0, 1.0)
    ensures Cross(Vec3(0.0, 1.0, 0.0), Vec3(1.0, 0.0, 0.0)) == Neg(Vec3(0.0, 0.0, 1.0))
    ensures SqMagnitude(Vec3(0.0, 0.0, 1.0)) == 1.0
    ensures SqMagnitude(Vec3(0.0, 0.0, 4.0)) == 16.0
    ensures SqMagnitude(Zero()) == 0.0
    ensures SqMagnitude(FromXY(4.0, 3.0)) == 25.0
    ensures SqMagnitude(Cross(Vec3(3.0, 0.0, 0.0), Vec3(0.0, 5.0, 0.0))) == 225.0
  {
    XDotX();
    XDotY();
    XDotNegX();
    XDotNegY();
    DotWithZ();
    XCrossY();
    YCrossX();
    SqMagnitudeZ();
    SqMagnitude4Z();
    SqMagnitudeZero();
    SqMagnitude43();
    CrossMagnitude();
  }

  /** The right triangle (0,0,0), (18,0,0), (18,22,0): the cross product of
      its edges is normal to the plane, twice the area 18·22/2 long. */
  lemma TriangleAreaExample()
    ensures Cross(Vec3(18.0, 0.0, 0.0), Vec3(18.0, 22.0, 0.0)) == Vec3(0.0, 0.0, 396.0)
  {
  }

  lemma ProjectOntoYExample()
    ensures Project(Vec3(-2.0, 3.0, 0.0), Vec3(0.0, 1.0, 0.0)) == Vec3(0.0, 3.0, 0.0)
  {
    ProjectOntoYAxis(Vec3(-2.0, 3.0, 0.0), 1.0);
  }

  lemma ProjectOntoXExample()
    ensures Project(Vec3(-2.0, 3.0, 0.0), Vec3(1.0, 0.0, 0.0)) == Vec3(-2.0, 0.0, 0.0)
  {
    ProjectOntoXAxis(Vec3(-2.0, 3.0, 0.0), 1.0);
  }

  lemma RejectFromYExample()
    ensures Reject(Vec3(-2.0, 3.0, 0.0), Vec3(0.0, 1.0, 0.0)) == Vec3(-2.0, 0.0, 0.0)
  {
    ProjectOntoYAxis(Vec3(-2.0, 3.0, 0.0), 1.0);
  }

  lemma RejectFromXExample()
    ensures Reject(Vec3(-2.0, 3.0, 0.0), Vec3(1.0, 0.0, 0.0)) == Vec3(0.0, 3.0, 0.0)
  {
    ProjectOntoXAxis(Vec3(-2.0, 3.0, 0.0), 1.0);
  }

  lemma ReflectExample()
    ensures Reflect(Vec3(-2.0, 3.0, 0.0), Vec3(0.0, 1.0, 0.0)) == Vec3(-2.0, -3.0, 0.0)
  {
    ProjectOntoYAxis(Vec3(-2.0, 3.0, 0.0), 1.0);
  }
}
