/** Two-component vectors (`Vector<T, 2>`) and their exact real algebra. */
module Vector2 {
  import opened Wrappers
  import opened Reals

  /** A pair of components addressed by name (x, y) and by index (0, 1). The
      float and double instantiations are modelled by exact reals. */
  datatype Vec2 = Vec2(x: real, y: real) {

    /** `v[i]`: index 0 is x, index 1 is y, and every other index fails. */
    function At(i: int): (r: Option<real>)
      ensures r.Some? <==> 0 <= i < 2
      ensures r.Some? ==> r.value == [x, y][i]
    {
      if i == 0 then Some(x) else if i == 1 then Some(y) else None
    }
  }

  /** The one-argument constructor: every component set to `k`. */
  function Splat(k: real): Vec2 {
    Vec2(k, k)
  }

  /** The default constructor. */
  function Zero(): Vec2 {
    Splat(0.0)
  }

  /** A vector is fully determined by what indexing returns. */
  lemma AtDeterminesVector(a: Vec2, b: Vec2)
    requires forall i :: 0 <= i < 2 ==> a.At(i) == b.At(i)
    ensures a == b
  {
    assert a.At(0) == b.At(0);
    assert a.At(1) == b.At(1);
  }

  // Component-wise arithmetic: `a + b`, `a - b`, `a * b`, `a / b`, `-a`.

  function Add(a: Vec2, b: Vec2): Vec2 {
    Vec2(a.x + b.x, a.y + b.y)
  }

  function Sub(a: Vec2, b: Vec2): Vec2 {
    Vec2(a.x - b.x, a.y - b.y)
  }

  function Mul(a: Vec2, b: Vec2): Vec2 {
    Vec2(a.x * b.x, a.y * b.y)
  }

  /** Component-wise quotient; a zero divisor component has no exact value. */
  function Div(a: Vec2, b: Vec2): Vec2
    requires b.x != 0.0 && b.y != 0.0
  {
    Vec2(a.x / b.x, a.y / b.y)
  }

  function Neg(a: Vec2): Vec2 {
    Vec2(-a.x, -a.y)
  }

  // Scalar forms `v + s`, `v - s`, `v * s` (and `s * v`), `v / s`: the
  // scalar is applied to every component.

  function AddScalar(v: Vec2, s: real): Vec2 {
    Add(v, Splat(s))
  }

  function SubScalar(v: Vec2, s: real): Vec2 {
    Sub(v, Splat(s))
  }

  function MulScalar(v: Vec2, s: real): Vec2 {
    Vec2(v.x * s, v.y * s)
  }

  function DivScalar(v: Vec2, s: real): Vec2
    requires s != 0.0
  {
    Vec2(v.x / s, v.y / s)
  }

  /** Every operator acts index by index: the component at each valid index
      of the result is the operator applied to the operands' components there. */
  lemma ComponentWise(a: Vec2, b: Vec2, s: real, i: int)
    requires 0 <= i < 2
    ensures Add(a, b).At(i).value == a.At(i).value + b.At(i).value
    ensures Sub(a, b).At(i).value == a.At(i).value - b.At(i).value
    ensures Mul(a, b).At(i).value == a.At(i).value * b.At(i).value
    ensures Neg(a).At(i).value == -a.At(i).value
    ensures AddScalar(a, s).At(i).value == a.At(i).value + s
    ensures SubScalar(a, s).At(i).value == a.At(i).value - s
    ensures MulScalar(a, s).At(i).value == a.At(i).value * s
    ensures b.x != 0.0 && b.y != 0.0 ==> Div(a, b).At(i).value == a.At(i).value / b.At(i).value
    ensures s != 0.0 ==> DivScalar(a, s).At(i).value == a.At(i).value / s
  {
  }

  /** Each operation is undone by its counterpart. */
  lemma InverseOperations(a: Vec2, b: Vec2, s: real)
    ensures Sub(Add(a, b), b) == a
    ensures Add(Sub(a, b), b) == a
    ensures SubScalar(AddScalar(a, s), s) == a
    ensures b.x != 0.0 && b.y != 0.0 ==> Div(Mul(a, b), b) == a
    ensures s != 0.0 ==> DivScalar(MulScalar(a, s), s) == a
    ensures Add(a, Neg(a)) == Zero()
  {
  }

  /** Addition is associative and commutative, with Zero as neutral element. */
  lemma AdditionLaws(a: Vec2, b: Vec2, c: Vec2)
    ensures Add(Add(a, b), c) == Add(a, Add(b, c))
    ensures Add(a, b) == Add(b, a)
    ensures Add(a, Zero()) == a
  {
  }

  /** Scalar multiplication is compatible with the product of scalars and
      distributes over both vector addition and scalar addition. */
  lemma ScalarLaws(a: Vec2, b: Vec2, s: real, t: real)
    ensures MulScalar(MulScalar(a, s), t) == MulScalar(a, s * t)
    ensures MulScalar(Add(a, b), s) == Add(MulScalar(a, s), MulScalar(b, s))
    ensures MulScalar(a, s + t) == Add(MulScalar(a, s), MulScalar(a, t))
  {
  }

  // Products.

  function Dot(a: Vec2, b: Vec2): real {
    a.x * b.x + a.y * b.y
  }

  /** The 2-D "perp-dot" product: the signed area of the parallelogram
      spanned by a and b. */
  function PerpDot(a: Vec2, b: Vec2): real {
    a.x * b.y - a.y * b.x
  }

  /** `squareMagnitude()`: the sum of the squared components. */
  function SqMagnitude(v: Vec2): real {
    Sq(v.x) + Sq(v.y)
  }

  /** The squared magnitude is never negative and vanishes exactly on the
      zero vector; it is the dot product of a vector with itself. */
  lemma SqMagnitudeSpec(v: Vec2)
    ensures SqMagnitude(v) >= 0.0
    ensures SqMagnitude(v) == 0.0 <==> v == Zero()
    ensures SqMagnitude(v) == Dot(v, v)
  {
    SqNonneg(v.x);
    SqNonneg(v.y);
    SqZero(v.x);
    SqZero(v.y);
  }

  /** Scaling a vector by t scales its squared magnitude by Sq(t); this is the square of
      `(t * v).norm() == t * v.norm()`. */
  lemma SqMagnitudeScaled(v: Vec2, t: real)
    ensures SqMagnitude(MulScalar(v, t)) == Sq(t) * SqMagnitude(v)
  {
  }

  /** The dot product is symmetric, distributes over addition and is
      homogeneous in either argument. */
  lemma DotLaws(a: Vec2, b: Vec2, c: Vec2, t: real)
    ensures Dot(a, b) == Dot(b, a)
    ensures Dot(a, Add(b, c)) == Dot(a, b) + Dot(a, c)
    ensures Dot(MulScalar(a, t), b) == Dot(a, MulScalar(b, t)) == t * Dot(a, b)
  {
  }

  /** perp-dot is antisymmetric (so it vanishes on equal arguments),
      bilinear, and it is the dot product with `a` turned a quarter turn
      counter-clockwise. */
  lemma PerpDotLaws(a: Vec2, b: Vec2, c: Vec2, t: real)
    ensures PerpDot(a, b) == -PerpDot(b, a)
    ensures PerpDot(a, a) == 0.0
    ensures PerpDot(a, Add(b, c)) == PerpDot(a, b) + PerpDot(a, c)
    ensures PerpDot(MulScalar(a, t), b) == t * PerpDot(a, b)
    ensures PerpDot(a, b) == Dot(Vec2(-a.y, a.x), b)
  {
  }

  /** A nonzero `a` and any `b` lie on one line through the origin exactly
      when their perp-dot vanishes. */
  lemma PerpDotZeroIffParallel(a: Vec2, b: Vec2)
    requires a != Zero()
    ensures PerpDot(a, b) == 0.0 <==> exists k :: b == MulScalar(a, k)
  {
    SqMagnitudeSpec(a);
    var k := Dot(a, b) / SqMagnitude(a);
    if PerpDot(a, b) == 0.0 {
      MulDivCancel(Dot(a, b), SqMagnitude(a));
      assert k * SqMagnitude(a) == Dot(a, b);
      assert b.x * SqMagnitude(a) == a.x * Dot(a, b);
      assert b.y * SqMagnitude(a) == a.y * Dot(a, b);
      assert b.x * SqMagnitude(a) == a.x * k * SqMagnitude(a);
      assert b.y * SqMagnitude(a) == a.y * k * SqMagnitude(a);
      assert b == MulScalar(a, k);
    }
  }

  // Projection, rejection and reflection. The functions only compute; what
  // they mean is stated by the lemmas after them.

  /** `v.project(axis)`: the multiple dot(v, axis) / dot(axis, axis) of axis. */
  function Project(v: Vec2, axis: Vec2): Vec2
    requires axis != Zero()
  {
    SqMagnitudeSpec(axis);
    MulScalar(axis, Dot(v, axis) / SqMagnitude(axis))
  }

  /** `v.reject(axis)`: what is left of `v` once its projection is removed. */
  function Reject(v: Vec2, axis: Vec2): Vec2
    requires axis != Zero()
  {
    Sub(v, Project(v, axis))
  }

  /** `v.reflect(normal)`: `v` mirrored across the line whose normal is `normal`. */
  function Reflect(v: Vec2, normal: Vec2): Vec2
    requires normal != Zero()
  {
    Sub(v, MulScalar(Project(v, normal), 2.0))
  }

  /** The projection is parallel to axis and leaves a residual orthogonal to
      it; the rejection is that residual, and together they rebuild `v`. */
  lemma ProjectRejectSpec(v: Vec2, axis: Vec2)
    requires axis != Zero()
    ensures PerpDot(Project(v, axis), axis) == 0.0
    ensures Dot(Reject(v, axis), axis) == 0.0
    ensures Add(Project(v, axis), Reject(v, axis)) == v
  {
    SqMagnitudeSpec(axis);
    var k := Dot(v, axis) / SqMagnitude(axis);
    MulDivCancel(Dot(v, axis), SqMagnitude(axis));
    assert k * SqMagnitude(axis) == Dot(v, axis);
  }

  /** The two properties that ProjectRejectSpec states single out the
      projection: any vector parallel to axis whose residual is orthogonal
      to axis is the projection. */
  lemma ProjectUnique(v: Vec2, axis: Vec2, r: Vec2)
    requires axis != Zero()
    requires PerpDot(r, axis) == 0.0
    requires Dot(Sub(v, r), axis) == 0.0
    ensures r == Project(v, axis)
  {
    SqMagnitudeSpec(axis);
    PerpDotLaws(axis, r, r, 0.0);
    PerpDotZeroIffParallel(axis, r);
    var k :| r == MulScalar(axis, k);
    assert Dot(r, axis) == k * SqMagnitude(axis);
    assert Dot(r, axis) == Dot(v, axis);
    assert Dot(v, axis) / SqMagnitude(axis) == k by {
      MulDivCancel(k, SqMagnitude(axis));
    }
  }

  /** Reflection flips the component along the normal and keeps the rest:
      `v` plus its reflection is twice the rejection. */
  lemma ReflectSpec(v: Vec2, normal: Vec2)
    requires normal != Zero()
    ensures Dot(Reflect(v, normal), normal) == -Dot(v, normal)
    ensures Add(Reflect(v, normal), v) == MulScalar(Reject(v, normal), 2.0)
  {
    ProjectRejectSpec(v, normal);
  }

  /** Projecting twice changes nothing, and reflecting twice gives back `v`;
      reflection preserves the squared magnitude. */
  lemma ProjectReflectLaws(v: Vec2, n: Vec2)
    requires n != Zero()
    ensures Project(Project(v, n), n) == Project(v, n)
    ensures Reflect(Reflect(v, n), n) == v
    ensures SqMagnitude(Reflect(v, n)) == SqMagnitude(v)
  {
    SqMagnitudeSpec(n);
    var k := Dot(v, n) / SqMagnitude(n);
    MulDivCancel(Dot(v, n), SqMagnitude(n));
    assert k * SqMagnitude(n) == Dot(v, n);
    var p := Project(v, n);
    assert p == MulScalar(n, k);
    var kp := Dot(p, n) / SqMagnitude(n);
    assert Dot(p, n) == k * SqMagnitude(n);
    MulDivCancel(k, SqMagnitude(n));
    assert kp == k;
    var r := Reflect(v, n);
    assert r == Sub(v, MulScalar(n, 2.0 * k));
    assert Dot(r, n) == -Dot(v, n);
    var kr := Dot(r, n) / SqMagnitude(n);
    assert kr == -k;
    assert Reflect(r, n) == Sub(r, MulScalar(n, 2.0 * kr));
  }

  /** Against the coordinate axes, projection keeps one component, rejection
      keeps the other, and reflection across the line with normal y flips y. */
  lemma ProjectOntoAxes(v: Vec2)
    ensures Project(v, Vec2(1.0, 0.0)) == Vec2(v.x, 0.0)
    ensures Project(v, Vec2(0.0, 1.0)) == Vec2(0.0, v.y)
    ensures Reject(v, Vec2(1.0, 0.0)) == Vec2(0.0, v.y)
    ensures Reject(v, Vec2(0.0, 1.0)) == Vec2(v.x, 0.0)
    ensures Reflect(v, Vec2(0.0, 1.0)) == Vec2(v.x, -v.y)
  {
  }

  // The concrete cases of the library's Vec2 tests.

  lemma ConstructionExamples()
    ensures Zero() == Vec2(0.0, 0.0) && Splat(42.0) == Vec2(42.0, 42.0)
    ensures Vec2(13.0, 37.0).At(0) == Some(13.0) && Vec2(13.0, 37.0).At(1) == Some(37.0)
    ensures Vec2(13.0, 37.0).At(-1) == None && Vec2(13.0, 37.0).At(2) == None
  {
  }

  /** The add and sub chains of the operator test, one step per clause (a
      compound assignment is its binary operator). */
  lemma ArithmeticExamples()
    ensures Add(Vec2(2.0, 1.0), Vec2(2.0, 1.0)) == Vec2(4.0, 2.0)
    ensures AddScalar(Vec2(4.0, 2.0), 42.0) == Vec2(46.0, 44.0)
    ensures Add(Vec2(46.0, 44.0), Vec2(13.0, 37.0)) == Vec2(59.0, 81.0)
    ensures Sub(Vec2(6.0, 3.0), Vec2(2.0, 1.0)) == Vec2(4.0, 2.0)
    ensures SubScalar(Vec2(4.0, 2.0), 2.0) == Vec2(2.0, 0.0)
    ensures Sub(Vec2(2.0, 0.0), Vec2(4.0, 2.0)) == Vec2(-2.0, -2.0)
  {
  }

  /** The mul and div chains of the operator test. */
  lemma MulDivExamples()
    ensures MulScalar(Vec2(2.0, 1.0), 2.0) == Vec2(4.0, 2.0)
    ensures Mul(Vec2(2.0, 1.0), Vec2(2.0, 2.0)) == Vec2(4.0, 2.0)
    ensures MulScalar(Vec2(4.0, 2.0), 2.0) == Vec2(8.0, 4.0)
    ensures Mul(Vec2(8.0, 4.0), Vec2(2.0, 2.0)) == Vec2(16.0, 8.0)
    ensures DivScalar(Vec2(8.0, 4.0), 2.0) == Vec2(4.0, 2.0)
    ensures Div(Vec2(16.0, 8.0), Vec2(4.0, 2.0)) == Vec2(4.0, 4.0)
    ensures DivScalar(Vec2(4.0, 4.0), 2.0) == Vec2(2.0, 2.0)
    ensures Div(Vec2(2.0, 2.0), Vec2(2.0, 2.0)) == Vec2(1.0, 1.0)
  {
  }

  /** Dot and perp-dot with the unit x axis read off one component. */
  lemma UnitXProducts(v: Vec2)
    ensures Dot(Vec2(1.0, 0.0), v) == v.x
    ensures PerpDot(Vec2(1.0, 0.0), v) == v.y
    ensures SqMagnitude(Vec2(v.x, 0.0)) == v.x * v.x
  {
  }

  lemma SqMagnitude43() ensures SqMagnitude(Vec2(4.0, 3.0)) == 25.0 { }

  lemma ProductExamples()
    ensures Dot(Vec2(1.0, 0.0), Vec2(1.0, 0.0)) == 1.0
    ensures Dot(Vec2(1.0, 0.0), Vec2(0.0, 1.0)) == 0.0
    ensures Dot(Vec2(1.0, 0.0), Vec2(-1.0, 0.0)) == -1.0
    ensures Dot(Vec2(1.0, 0.0), Vec2(0.0, -1.0)) == 0.0
    ensures PerpDot(Vec2(1.0, 0.0), Vec2(1.0, 0.0)) == 0.0
    ensures PerpDot(Vec2(1.0, 0.0), Vec2(0.0, 1.0)) == 1.0
    ensures SqMagnitude(Vec2(1.0, 0.0)) == 1.0
    ensures SqMagnitude(Vec2(4.0, 0.0)) == 16.0
    ensures SqMagnitude(Vec2(0.0, 0.0)) == 0.0
    ensures SqMagnitude(Vec2(4.0, 3.0)) == 25.0
  {
    UnitXProducts(Vec2(1.0, 0.0));
    UnitXProducts(Vec2(0.0, 1.0));
    UnitXProducts(Vec2(-1.0, 0.0));
    UnitXProducts(Vec2(0.0, -1.0));
    UnitXProducts(Vec2(4.0, 0.0));
    UnitXProducts(Vec2(0.0, 0.0));
    SqMagnitude43();
  }

  lemma ProjectionExamples()
    ensures Project(Vec2(-2.0, 3.0), Vec2(0.0, 1.0)) == Vec2(0.0, 3.0)
    ensures Project(Vec2(-2.0, 3.0), Vec2(1.0, 0.0)) == Vec2(-2.0, 0.0)
    ensures Reject(Vec2(-2.0, 3.0), Vec2(0.0, 1.0)) == Vec2(-2.0, 0.0)
    ensures Reject(Vec2(-2.0, 3.0), Vec2(1.0, 0.0)) == Vec2(0.0, 3.0)
    ensures Reflect(Vec2(-2.0, 3.0), Vec2(0.0, 1.0)) == Vec2(-2.0, -3.0)
  {
    ProjectOntoAxes(Vec2(-2.0, 3.0));
  }
}
