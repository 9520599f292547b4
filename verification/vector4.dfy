/** Four-component vectors (`Vector<T, 4>`): homogeneous coordinates whose
    scalar operators reach the fourth component `w`, and whose cross product
    is the Vec3 cross product of the first three components. */
module Vector4 {
  import opened Wrappers
  import opened Reals
  import Vector2
  import Vector3

  /** Components addressed by name (x, y, z, w) and by index (0 to 3). */
  datatype Vec4 = Vec4(x: real, y: real, z: real, w: real) {

    /** `v[i]`: indices 0 to 3 are x, y, z, w; every other index fails. */
    function At(i: int): (r: Option<real>)
      ensures r.Some? <==> 0 <= i < 4
      ensures r.Some? ==> r.value == [x, y, z, w][i]
    {
      if i == 0 then Some(x)
      else if i == 1 then Some(y)
      else if i == 2 then Some(z)
      else if i == 3 then Some(w)
      else None
    }
  }

  /** The one-argument constructor: every component, w included, set to `k`. */
  function Splat(k: real): Vec4 {
    Vec4(k, k, k, k)
  }

  /** The default constructor. */
  function Zero(): Vec4 {
    Splat(0.0)
  }

  /** The two-argument constructor: z and w are zero-filled. */
  function FromXY(x: real, y: real): Vec4 {
    Vec4(x, y, 0.0, 0.0)
  }

  /** The three-argument constructor: w is zero-filled. */
  function FromXYZ(x: real, y: real, z: real): Vec4 {
    Vec4(x, y, z, 0.0)
  }

  /** Widening a Vec2: z and w are zero-filled. */
  function FromVec2(v: Vector2.Vec2): Vec4 {
    Vec4(v.x, v.y, 0.0, 0.0)
  }

  /** Widening a Vec3: w is zero-filled. */
  function FromVec3(v: Vector3.Vec3): Vec4 {
    Vec4(v.x, v.y, v.z, 0.0)
  }

  /** The first three components, as a Vec3. */
  function Xyz(v: Vec4): Vector3.Vec3 {
    Vector3.Vec3(v.x, v.y, v.z)
  }

  /** Widening keeps every component at its index and zero-fills the rest;
      narrowing a widened Vec3 gives it back, and widening a narrowed vector
      gives it back exactly when its w is zero. */
  lemma WideningSpec(u: Vector2.Vec2, v: Vector3.Vec3, a: Vec4)
    ensures forall i :: 0 <= i < 2 ==> FromVec2(u).At(i) == u.At(i)
    ensures FromVec2(u).At(2) == Some(0.0) && FromVec2(u).At(3) == Some(0.0)
    ensures forall i :: 0 <= i < 3 ==> FromVec3(v).At(i) == v.At(i)
    ensures FromVec3(v).At(3) == Some(0.0)
    ensures FromVec2(u) == FromXY(u.x, u.y) && FromVec3(v) == FromXYZ(v.x, v.y, v.z)
    ensures Xyz(FromVec3(v)) == v
    ensures FromVec3(Xyz(a)) == a <==> a.w == 0.0
  {
  }

  /** A vector is fully determined by what indexing returns. */
  lemma AtDeterminesVector(a: Vec4, b: Vec4)
    requires forall i :: 0 <= i < 4 ==> a.At(i) == b.At(i)
    ensures a == b
  {
    assert a.At(0) == b.At(0);
    assert a.At(1) == b.At(1);
    assert a.At(2) == b.At(2);
    assert a.At(3) == b.At(3);
  }

  // Component-wise arithmetic.

  function Add(a: Vec4, b: Vec4): Vec4 {
    Vec4(a.x + b.x, a.y + b.y, a.z + b.z, a.w + b.w)
  }

  function Sub(a: Vec4, b: Vec4): Vec4 {
    Vec4(a.x - b.x, a.y - b.y, a.z - b.z, a.w - b.w)
  }

  function Mul(a: Vec4, b: Vec4): Vec4 {
    Vec4(a.x * b.x, a.y * b.y, a.z * b.z, a.w * b.w)
  }

  /** Component-wise quotient; a zero divisor component has no exact value. */
  function Div(a: Vec4, b: Vec4): Vec4
    requires b.x != 0.0 && b.y != 0.0 && b.z != 0.0 && b.w != 0.0
  {
    Vec4(a.x / b.x, a.y / b.y, a.z / b.z, a.w / b.w)
  }

  function Neg(a: Vec4): Vec4 {
    Vec4(-a.x, -a.y, -a.z, -a.w)
  }

  // Scalar forms: the scalar is applied to every component, w included.

  function AddScalar(v: Vec4, s: real): Vec4 {
    Add(v, Splat(s))
  }

  function SubScalar(v: Vec4, s: real): Vec4 {
    Sub(v, Splat(s))
  }

  function MulScalar(v: Vec4, s: real): Vec4 {
    Vec4(v.x * s, v.y * s, v.z * s, v.w * s)
  }

  function DivScalar(v: Vec4, s: real): Vec4
    requires s != 0.0
  {
    Vec4(v.x / s, v.y / s, v.z / s, v.w / s)
  }

  /** Every operator acts index by index, the fourth index included. */
  lemma ComponentWise(a: Vec4, b: Vec4, s: real, i: int)
    requires 0 <= i < 4
    ensures Add(a, b).At(i).value == a.At(i).value + b.At(i).value
    ensures Sub(a, b).At(i).value == a.At(i).value - b.At(i).value
    ensures Mul(a, b).At(i).value == a.At(i).value * b.At(i).value
    ensures Neg(a).At(i).value == -a.At(i).value
    ensures AddScalar(a, s).At(i).value == a.At(i).value + s
    ensures SubScalar(a, s).At(i).value == a.At(i).value - s
    ensures MulScalar(a, s).At(i).value == a.At(i).value * s
    ensures b.x != 0.0 && b.y != 0.0 && b.z != 0.0 && b.w != 0.0 ==>
              Div(a, b).At(i).value == a.At(i).value / b.At(i).value
    ensures s != 0.0 ==> DivScalar(a, s).At(i).value == a.At(i).value / s
  {
  }

  /** Each operation is undone by its counterpart. */
  lemma InverseOperations(a: Vec4, b: Vec4, s: real)
    ensures Sub(Add(a, b), b) == a
    ensures Add(Sub(a, b), b) == a
    ensures SubScalar(AddScalar(a, s), s) == a
    ensures b.x != 0.0 && b.y != 0.0 && b.z != 0.0 && b.w != 0.0 ==> Div(Mul(a, b), b) == a
    ensures s != 0.0 ==> DivScalar(MulScalar(a, s), s) == a
    ensures Add(a, Neg(a)) == Zero()
  {
  }

  /** Addition is associative and commutative, with Zero as neutral element. */
  lemma AdditionLaws(a: Vec4, b: Vec4, c: Vec4)
    ensures Add(Add(a, b), c) == Add(a, Add(b, c))
    ensures Add(a, b) == Add(b, a)
    ensures Add(a, Zero()) == a
  {
  }

  /** Scalar multiplication is compatible with the product of scalars and
      distributes over both vector addition and scalar addition. */
  lemma ScalarLaws(a: Vec4, b: Vec4, s: real, t: real)
    ensures MulScalar(MulScalar(a, s), t) == MulScalar(a, s * t)
    ensures MulScalar(Add(a, b), s) == Add(MulScalar(a, s), MulScalar(b, s))
    ensures MulScalar(a, s + t) == Add(MulScalar(a, s), MulScalar(a, t))
  {
    assert MulScalar(MulScalar(a, s), t) == MulScalar(a, s * t);
    assert MulScalar(Add(a, b), s) == Add(MulScalar(a, s), MulScalar(b, s));
  }

  // Products.

  function Dot(a: Vec4, b: Vec4): real {
    a.x * b.x + a.y * b.y + a.z * b.z + a.w * b.w
  }

  /** The cross product of the first three components; w of the result is 0. */
  function Cross(a: Vec4, b: Vec4): Vec4 {
    FromVec3(Vector3.Cross(Xyz(a), Xyz(b)))
  }

  /** `squareMagnitude()`: the sum of the four squared components. */
  function SqMagnitude(v: Vec4): real {
    Sq(v.x) + Sq(v.y) + Sq(v.z) + Sq(v.w)
  }

  /** The squared magnitude is never negative and vanishes exactly on the
      zero vector; it is the dot product of a vector with itself. */
  lemma SqMagnitudeSpec(v: Vec4)
    ensures SqMagnitude(v) >= 0.0
    ensures SqMagnitude(v) == 0.0 <==> v == Zero()
    ensures SqMagnitude(v) == Dot(v, v)
  {
    SqNonneg(v.x);
    SqNonneg(v.y);
    SqNonneg(v.z);
    SqNonneg(v.w);
    SqZero(v.x);
    SqZero(v.y);
    SqZero(v.z);
    SqZero(v.w);
  }

  /** Scaling a vector by t scales its squared magnitude by Sq(t); this is the square of
      `(t * v).norm() == t * v.norm()`. */
  lemma SqMagnitudeScaled(v: Vec4, t: real)
    ensures SqMagnitude(MulScalar(v, t)) == Sq(t) * SqMagnitude(v)
  {
  }

  /** The dot product is symmetric, distributes over addition and
      subtraction, and is homogeneous in either argument. */
  lemma DotLaws(a: Vec4, b: Vec4, c: Vec4, t: real)
    ensures Dot(a, b) == Dot(b, a)
    ensures Dot(a, Add(b, c)) == Dot(a, b) + Dot(a, c)
    ensures Dot(Sub(a, b), c) == Dot(a, c) - Dot(b, c)
    ensures Dot(MulScalar(a, t), b) == Dot(a, MulScalar(b, t)) == t * Dot(a, b)
  {
    assert Dot(MulScalar(a, t), b) == t * Dot(a, b) by {
      ScaledTerms(a, b, t);
    }
    assert Dot(a, MulScalar(b, t)) == t * Dot(a, b) by {
      ScaledTerms(b, a, t);
    }
  }

  /** Scaling one factor of each product term scales the term. */
  lemma ScaledTerms(a: Vec4, b: Vec4, t: real)
    ensures (a.x * t) * b.x == t * (a.x * b.x) && b.x * (a.x * t) == t * (b.x * a.x)
    ensures (a.y * t) * b.y == t * (a.y * b.y) && b.y * (a.y * t) == t * (b.y * a.y)
    ensures (a.z * t) * b.z == t * (a.z * b.z) && b.z * (a.z * t) == t * (b.z * a.z)
    ensures (a.w * t) * b.w == t * (a.w * b.w) && b.w * (a.w * t) == t * (b.w * a.w)
  {
  }

  /** With w = 0, a Vec4 and its first three components have the same dot
      products and squared magnitude. */
  lemma XyzProducts(a: Vec4, b: Vec4)
    requires a.w == 0.0 && b.w == 0.0
    ensures Dot(a, b) == Vector3.Dot(Xyz(a), Xyz(b))
    ensures SqMagnitude(a) == Vector3.SqMagnitude(Xyz(a))
  {
  }

  /** Narrowing commutes with the linear operations. */
  lemma XyzLinear(a: Vec4, b: Vec4, t: real)
    ensures Xyz(Add(a, b)) == Vector3.Add(Xyz(a), Xyz(b))
    ensures Xyz(MulScalar(a, t)) == Vector3.MulScalar(Xyz(a), t)
    ensures Xyz(Neg(a)) == Vector3.Neg(Xyz(a))
    ensures FromVec3(Vector3.Add(Xyz(a), Xyz(b))) == Add(FromVec3(Xyz(a)), FromVec3(Xyz(b)))
  {
  }

  /** The Vec4 cross product is anticommutative, distributes over addition
      and is homogeneous in either argument, whatever the operands' w. */
  lemma CrossLaws(a: Vec4, b: Vec4, c: Vec4, t: real)
    ensures Cross(a, b) == Neg(Cross(b, a))
    ensures Cross(a, Add(b, c)) == Add(Cross(a, b), Cross(a, c))
    ensures Cross(MulScalar(a, t), b) == Cross(a, MulScalar(b, t)) == MulScalar(Cross(a, b), t)
  {
    XyzLinear(a, b, t);
    XyzLinear(b, c, t);
    Vector3.CrossLaws(Xyz(a), Xyz(b), Xyz(c), t);
  }

  /** The cross product vanishes against the zero vector and against itself,
      and is orthogonal to both operands when they have w = 0. */
  lemma CrossZeroAndOrthogonal(a: Vec4, b: Vec4)
    ensures Cross(a, Zero()) == Zero() && Cross(Zero(), a) == Zero()
    ensures Cross(a, a) == Zero()
    ensures a.w == 0.0 ==> Dot(Cross(a, b), a) == 0.0
    ensures b.w == 0.0 ==> Dot(Cross(a, b), b) == 0.0
  {
    Vector3.CrossZeroAndOrthogonal(Xyz(a), Xyz(b));
    assert Xyz(Zero()) == Vector3.Zero();
  }

  /** Lagrange's identity, for operands with w = 0. */
  lemma LagrangeIdentity(a: Vec4, b: Vec4)
    requires a.w == 0.0 && b.w == 0.0
    ensures SqMagnitude(Cross(a, b)) == SqMagnitude(a) * SqMagnitude(b) - Sq(Dot(a, b))
  {
    Vector3.LagrangeIdentity(Xyz(a), Xyz(b));
    XyzProducts(a, b);
    XyzProducts(b, a);
    XyzProducts(Cross(a, b), a);
    Vector3.CrossLaws(Xyz(a), Xyz(b), Xyz(b), 0.0);
  }

  // Projection, rejection and reflection, over all four components.

  /** `v.project(axis)`: the multiple dot(v, axis) / dot(axis, axis) of axis. */
  function Project(v: Vec4, axis: Vec4): Vec4
    requires axis != Zero()
  {
    SqMagnitudeSpec(axis);
    MulScalar(axis, Dot(v, axis) / SqMagnitude(axis))
  }

  /** `v.reject(axis)`: what is left of `v` once its projection is removed. */
  function Reject(v: Vec4, axis: Vec4): Vec4
    requires axis != Zero()
  {
    Sub(v, Project(v, axis))
  }

  /** `v.reflect(normal)`: `v` mirrored across the hyperplane whose normal is `normal`. */
  function Reflect(v: Vec4, normal: Vec4): Vec4
    requires normal != Zero()
  {
    Sub(v, MulScalar(Project(v, normal), 2.0))
  }

  /** The rejection is orthogonal to the axis, and projection and rejection
      together rebuild `v`. */
  lemma ProjectRejectSpec(v: Vec4, axis: Vec4)
    requires axis != Zero()
    ensures Dot(Reject(v, axis), axis) == 0.0
    ensures Add(Project(v, axis), Reject(v, axis)) == v
  {
    SqMagnitudeSpec(axis);
    var k := Dot(v, axis) / SqMagnitude(axis);
    MulDivCancel(Dot(v, axis), SqMagnitude(axis));
    assert k * SqMagnitude(axis) == Dot(v, axis);
    DotLaws(v, MulScalar(axis, k), axis, k);
    DotLaws(axis, axis, axis, k);
  }

  /** Those properties single out the projection: the multiple of axis whose
      residual is orthogonal to axis is the projection. */
  lemma ProjectUnique(v: Vec4, axis: Vec4, k: real)
    requires axis != Zero()
    requires Dot(Sub(v, MulScalar(axis, k)), axis) == 0.0
    ensures MulScalar(axis, k) == Project(v, axis)
  {
    SqMagnitudeSpec(axis);
    var r := MulScalar(axis, k);
    assert Dot(r, axis) == k * SqMagnitude(axis) by {
      DotLaws(axis, axis, axis, k);
    }
    assert Dot(v, axis) == Dot(r, axis) by {
      DotLaws(v, r, axis, k);
    }
    assert Dot(v, axis) / SqMagnitude(axis) == k by {
      MulDivCancel(k, SqMagnitude(axis));
    }
  }

  /** Reflection flips the component along the normal and keeps the rest. */
  lemma ReflectSpec(v: Vec4, normal: Vec4)
    requires normal != Zero()
    ensures Dot(Reflect(v, normal), normal) == -Dot(v, normal)
    ensures Add(Reflect(v, normal), v) == MulScalar(Reject(v, normal), 2.0)
  {
    ProjectRejectSpec(v, normal);
    DotLaws(v, Project(v, normal), normal, 2.0);
    DotLaws(Project(v, normal), normal, normal, 2.0);
    DotLaws(v, MulScalar(Project(v, normal), 2.0), normal, 2.0);
  }

  /** Against any nonzero multiple of the x axis, projection keeps the x
      component and rejection keeps the others. */
  lemma ProjectOntoXAxis(v: Vec4, a: real)
    requires a != 0.0
    ensures Project(v, Vec4(a, 0.0, 0.0, 0.0)) == Vec4(v.x, 0.0, 0.0, 0.0)
    ensures Reject(v, Vec4(a, 0.0, 0.0, 0.0)) == Vec4(0.0, v.y, v.z, v.w)
  {
    var u := Vec4(a, 0.0, 0.0, 0.0);
    SqMagnitudeSpec(u);
    assert SqMagnitude(u) == Sq(a) && Dot(v, u) == v.x * a;
    MulDivCancel(v.x, a);
    assert a * (Dot(v, u) / SqMagnitude(u)) == v.x;
  }

  /** Against any nonzero multiple of the y axis, projection keeps the y
      component, rejection keeps the others and reflection negates y. */
  lemma ProjectOntoYAxis(v: Vec4, a: real)
    requires a != 0.0
    ensures Project(v, Vec4(0.0, a, 0.0, 0.0)) == Vec4(0.0, v.y, 0.0, 0.0)
    ensures Reject(v, Vec4(0.0, a, 0.0, 0.0)) == Vec4(v.x, 0.0, v.z, v.w)
    ensures Reflect(v, Vec4(0.0, a, 0.0, 0.0)) == Vec4(v.x, -v.y, v.z, v.w)
  {
    var u := Vec4(0.0, a, 0.0, 0.0);
    SqMagnitudeSpec(u);
    assert SqMagnitude(u) == Sq(a) && Dot(v, u) == v.y * a;
    MulDivCancel(v.y, a);
    assert a * (Dot(v, u) / SqMagnitude(u)) == v.y;
  }

  // The concrete cases of the library's Vec4 tests.

  lemma ConstructionExamples()
    ensures Zero() == Vec4(0.0, 0.0, 0.0, 0.0) && Splat(42.0) == Vec4(42.0, 42.0, 42.0, 42.0)
    ensures FromXY(4.0, 2.0) == Vec4(4.0, 2.0, 0.0, 0.0)
    ensures FromVec2(Vector2.Vec2(4.0, 2.0)) == Vec4(4.0, 2.0, 0.0, 0.0)
    ensures FromXYZ(4.0, 2.0, 66.0) == Vec4(4.0, 2.0, 66.0, 0.0)
    ensures FromVec3(Vector3.Vec3(4.0, 2.0, 66.0)) == Vec4(4.0, 2.0, 66.0, 0.0)
    ensures Vec4(4.0, 2.0, 66.0, 1.0).At(-1) == None && Vec4(4.0, 2.0, 66.0, 1.0).At(4) == None
  {
  }

  // One literal case per lemma (see Vector3); each Examples lemma gathers
  // the cases of one test section.

  lemma AddCase1() ensures Add(Vec4(2.0, 1.0, 4.0, 0.0), Vec4(2.0, 1.0, 2.0, 0.0)) == Vec4(4.0, 2.0, 6.0, 0.0) { }
  lemma AddCase2() ensures AddScalar(Vec4(4.0, 2.0, 6.0, 0.0), 42.0) == Vec4(46.0, 44.0, 48.0, 42.0) { }
  lemma AddCase3() ensures Add(Vec4(46.0, 44.0, 48.0, 42.0), Vec4(13.0, 37.0, 42.0, 0.0)) == Vec4(59.0, 81.0, 90.0, 42.0) { }

  /** The scalar `+=` reaches w. */
  lemma AddExamples()
    ensures Add(Vec4(2.0, 1.0, 4.0, 0.0), Vec4(2.0, 1.0, 2.0, 0.0)) == Vec4(4.0, 2.0, 6.0, 0.0)
    ensures AddScalar(Vec4(4.0, 2.0, 6.0, 0.0), 42.0) == Vec4(46.0, 44.0, 48.0, 42.0)
    ensures Add(Vec4(46.0, 44.0, 48.0, 42.0), Vec4(13.0, 37.0, 42.0, 0.0)) == Vec4(59.0, 81.0, 90.0, 42.0)
  {
    AddCase1();
    AddCase2();
    AddCase3();
  }

  lemma SubCase1() ensures Sub(Vec4(6.0, 3.0, 4.0, 0.0), Vec4(2.0, 1.0, 3.0, 0.0)) == Vec4(4.0, 2.0, 1.0, 0.0) { }
  lemma SubCase2() ensures SubScalar(Vec4(4.0, 2.0, 1.0, 0.0), 2.0) == Vec4(2.0, 0.0, -1.0, -2.0) { }
  lemma SubCase3() ensures Sub(Vec4(2.0, 0.0, -1.0, -2.0), Vec4(4.0, 2.0, 3.0, 0.0)) == Vec4(-2.0, -2.0, -4.0, -2.0) { }

  lemma SubExamples()
    ensures Sub(Vec4(6.0, 3.0, 4.0, 0.0), Vec4(2.0, 1.0, 3.0, 0.0)) == Vec4(4.0, 2.0, 1.0, 0.0)
    ensures SubScalar(Vec4(4.0, 2.0, 1.0, 0.0), 2.0) == Vec4(2.0, 0.0, -1.0, -2.0)
    ensures Sub(Vec4(2.0, 0.0, -1.0, -2.0), Vec4(4.0, 2.0, 3.0, 0.0)) == Vec4(-2.0, -2.0, -4.0, -2.0)
  {
    SubCase1();
    SubCase2();
    SubCase3();
  }

  lemma MulDivCase1() ensures MulScalar(Vec4(2.0, 1.0, 3.0, 0.0), 2.0) == Vec4(4.0, 2.0, 6.0, 0.0) { }
  lemma MulDivCase2() ensures Mul(Vec4(2.0, 1.0, 3.0, 1.0), Vec4(2.0, 2.0, 7.0, 42.0)) == Vec4(4.0, 2.0, 21.0, 42.0) { }
  lemma MulDivCase3() ensures MulScalar(Vec4(4.0, 2.0, 21.0, 42.0), 2.0) == Vec4(8.0, 4.0, 42.0, 84.0) { }
  lemma MulDivCase4() ensures Mul(Vec4(8.0, 4.0, 42.0, 84.0), Vec4(2.0, 2.0, 3.0, 0.0)) == Vec4(16.0, 8.0, 126.0, 0.0) { }
  lemma MulDivCase5() ensures DivScalar(Vec4(8.0, 4.0, 6.0, 2.0), 2.0) == Vec4(4.0, 2.0, 3.0, 1.0) { }
  lemma MulDivCase6() ensures Div(Vec4(16.0, 8.0, 12.0, 4.0), Vec4(4.0, 2.0, 2.0, 2.0)) == Vec4(4.0, 4.0, 6.0, 2.0) { }
  lemma MulDivCase7() ensures DivScalar(Vec4(4.0, 4.0, 6.0, 2.0), 2.0) == Vec4(2.0, 2.0, 3.0, 1.0) { }
  lemma MulDivCase8() ensures Div(Vec4(2.0, 2.0, 3.0, 1.0), Vec4(2.0, 2.0, 1.0, 1.0)) == Vec4(1.0, 1.0, 3.0, 1.0) { }

  /** Multiplying by a vector built from three components zeroes w. */
  lemma MulDivExamples()
    ensures MulScalar(Vec4(2.0, 1.0, 3.0, 0.0), 2.0) == Vec4(4.0, 2.0, 6.0, 0.0)
    ensures Mul(Vec4(2.0, 1.0, 3.0, 1.0), Vec4(2.0, 2.0, 7.0, 42.0)) == Vec4(4.0, 2.0, 21.0, 42.0)
    ensures MulScalar(Vec4(4.0, 2.0, 21.0, 42.0), 2.0) == Vec4(8.0, 4.0, 42.0, 84.0)
    ensures Mul(Vec4(8.0, 4.0, 42.0, 84.0), Vec4(2.0, 2.0, 3.0, 0.0)) == Vec4(16.0, 8.0, 126.0, 0.0)
    ensures DivScalar(Vec4(8.0, 4.0, 6.0, 2.0), 2.0) == Vec4(4.0, 2.0, 3.0, 1.0)
    ensures Div(Vec4(16.0, 8.0, 12.0, 4.0), Vec4(4.0, 2.0, 2.0, 2.0)) == Vec4(4.0, 4.0, 6.0, 2.0)
    ensures DivScalar(Vec4(4.0, 4.0, 6.0, 2.0), 2.0) == Vec4(2.0, 2.0, 3.0, 1.0)
    ensures Div(Vec4(2.0, 2.0, 3.0, 1.0), Vec4(2.0, 2.0, 1.0, 1.0)) == Vec4(1.0, 1.0, 3.0, 1.0)
  {
    MulDivCase1();
    MulDivCase2();
    MulDivCase3();
    MulDivCase4();
    MulDivCase5();
    MulDivCase6();
    MulDivCase7();
    MulDivCase8();
  }

  lemma LawsExample()
    ensures Add(Add(FromXYZ(4.0, 2.0, 1.0), FromXYZ(2.0, 6.0, 8.0)), FromXYZ(4.0, 93.0, -99.0))
         == FromXYZ(10.0, 101.0, -90.0)
  {
  }

  // One literal product per lemma (see Vector3); ProductExamples gathers them.

  lemma XDotX() ensures Dot(FromXY(1.0, 0.0), FromXY(1.0, 0.0)) == 1.0 { }
  lemma XDotY() ensures Dot(FromXY(1.0, 0.0), FromXY(0.0, 1.0)) == 0.0 { }
  lemma XDotNegX() ensures Dot(FromXY(1.0, 0.0), FromXY(-1.0, 0.0)) == -1.0 { }
  lemma XDotNegY() ensures Dot(FromXY(1.0, 0.0), FromXY(0.0, -1.0)) == 0.0 { }
  lemma DotWithZ() ensures Dot(FromXYZ(2.0, 2.0, 3.0), FromXYZ(1.0, 2.0, 5.0)) == 21.0 { }
  lemma XCrossY() ensures Cross(FromXYZ(1.0, 0.0, 0.0), FromXYZ(0.0, 1.0, 0.0)) == FromXYZ(0.0, 0.0, 1.0) { }
  lemma YCrossX() ensures Cross(FromXYZ(0.0, 1.0, 0.0), FromXYZ(1.0, 0.0, 0.0)) == Neg(FromXYZ(0.0, 0.0, 1.0)) { }
  lemma SqMagnitudeZ() ensures SqMagnitude(FromXYZ(0.0, 0.0, 1.0)) == 1.0 { }
  lemma SqMagnitude4Z() ensures SqMagnitude(FromXYZ(0.0, 0.0, 4.0)) == 16.0 { }
  lemma SqMagnitudeZero() ensures SqMagnitude(Zero()) == 0.0 { }
  lemma SqMagnitude43() ensures SqMagnitude(FromXY(4.0, 3.0)) == 25.0 { }
  lemma CrossMagnitude() ensures SqMagnitude(Cross(FromXYZ(3.0, 0.0, 0.0), FromXYZ(0.0, 5.0, 0.0))) == 225.0 { }

  /** The dot, cross and squared-magnitude cases of the Vec4 tests. */
  lemma ProductExamples()
    ensures Dot(FromXY(1.0, 0.0), FromXY(1.0, 0.0)) == 1.0
    ensures Dot(FromXY(1.0, 0.0), FromXY(0.0, 1.0)) == 0.0
    ensures Dot(FromXY(1.0, 0.0), FromXY(-1.0, 0.0)) == -1.0
    ensures Dot(FromXY(1.0, 0.0), FromXY(0.0, -1.0)) == 0.0
    ensures Dot(FromXYZ(2.0, 2.0, 3.0), FromXYZ(1.0, 2.0, 5.0)) == 21.0
    ensures Cross(FromXYZ(1.0, 0.0, 0.0), FromXYZ(0.0, 1.0, 0.0)) == FromXYZ(0.0, 0.0, 1.0)
    ensures Cross(FromXYZ(0.0, 1.0, 0.0), FromXYZ(1.0, 0.0, 0.0)) == Neg(FromXYZ(0.0, 0.0, 1.0))
    ensures SqMagnitude(FromXYZ(0.0, 0.0, 1.0)) == 1.0
    ensures SqMagnitude(FromXYZ(0.0, 0.0, 4.0)) == 16.0
    ensures SqMagnitude(Zero()) == 0.0
    ensures SqMagnitude(FromXY(4.0, 3.0)) == 25.0
    ensures SqMagnitude(Cross(FromXYZ(3.0, 0.0, 0.0), FromXYZ(0.0, 5.0, 0.0))) == 225.0
  {
    XDotX();
    XDotY();
    XDotNegX();
    XDotNegY();
    DotWithZ();
    XCrossY();
    YCrossX();
    SqMagnitudeZ();
    SqMagnitude4Z();
    SqMagnitudeZero();
    SqMagnitude43();
    CrossMagnitude();
  }

  /** The right triangle (0,0,0), (18,0,0), (18,22,0): the cross product of
      its edges is normal to the plane, twice the area 18·22/2 long. */
  lemma TriangleAreaExample()
    ensures Cross(FromXYZ(18.0, 0.0, 0.0), FromXYZ(18.0, 22.0, 0.0)) == FromXYZ(0.0, 0.0, 396.0)
  {
  }

  lemma ProjectOntoYExample()
    ensures Project(FromXY(-2.0, 3.0), FromXY(0.0, 1.0)) == FromXY(0.0, 3.0)
  {
    ProjectOntoYAxis(FromXY(-2.0, 3.0), 1.0);
  }

  lemma ProjectOntoXExample()
    ensures Project(FromXY(-2.0, 3.0), FromXY(1.0, 0.0)) == FromXY(-2.0, 0.0)
  {
    ProjectOntoXAxis(FromXY(-2.0, 3.0), 1.0);
  }

  lemma RejectFromYExample()
    ensures Reject(FromXY(-2.0, 3.0), FromXY(0.0, 1.0)) == FromXY(-2.0, 0.0)
  {
    ProjectOntoYAxis(FromXY(-2.0, 3.0), 1.0);
  }

  lemma RejectFromXExample()
    ensures Reject(FromXY(-2.0, 3.0), FromXY(1.0, 0.0)) == FromXY(0.0, 3.0)
  {
    ProjectOntoXAxis(FromXY(-2.0, 3.0), 1.0);
  }

  lemma ReflectExample()
    ensures Reflect(FromXY(-2.0, 3.0), FromXY(0.0, 1.0)) == FromXY(-2.0, -3.0)
  {
    ProjectOntoYAxis(FromXY(-2.0, 3.0), 1.0);
  }
}
