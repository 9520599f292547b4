/** Quaternions (`Quaternion<T>`): a vector part `v` and a scalar part `w`.
    The value algebra only: component-wise arithmetic, the Hamilton product,
    conjugate, dot product, squared magnitude and inverse. */
module Quaternion {
  import opened Wrappers
  import opened Reals
  import Vector3

  datatype Quat = Quat(v: Vector3.Vec3, w: real) {

    /** `q[i]`: indices 0, 1, 2 are the vector part, 3 is w; every other
        index fails. */
    function At(i: int): (r: Option<real>)
      ensures r.Some? <==> 0 <= i < 4
      ensures r.Some? ==> r.value == [v.x, v.y, v.z, w][i]
    {
      if i == 0 then Some(v.x)
      else if i == 1 then Some(v.y)
      else if i == 2 then Some(v.z)
      else if i == 3 then Some(w)
      else None
    }
  }

  /** The four-argument constructor `Quaternion(x, y, z, w)`. */
  function FromComponents(x: real, y: real, z: real, w: real): Quat {
    Quat(Vector3.Vec3(x, y, z), w)
  }

  /** The default constructor. */
  function Zero(): Quat {
    Quat(Vector3.Zero(), 0.0)
  }

  /** `identity()`: no vector part, unit scalar part. */
  function Identity(): Quat {
    Quat(Vector3.Zero(), 1.0)
  }

  /** Both constructors agree, and a quaternion is fully determined by what
      indexing returns. */
  lemma ConstructorSpec(x: real, y: real, z: real, w: real, a: Quat, b: Quat)
    ensures FromComponents(x, y, z, w) == Quat(Vector3.Vec3(x, y, z), w)
    ensures FromComponents(x, y, z, w).At(0) == Some(x) && FromComponents(x, y, z, w).At(3) == Some(w)
    ensures (forall i :: 0 <= i < 4 ==> a.At(i) == b.At(i)) ==> a == b
  {
    if forall i :: 0 <= i < 4 ==> a.At(i) == b.At(i) {
      assert a.At(0) == b.At(0) && a.At(1) == b.At(1) && a.At(2) == b.At(2) && a.At(3) == b.At(3);
    }
  }

  // Component-wise operations.

  function Add(a: Quat, b: Quat): Quat {
    Quat(Vector3.Add(a.v, b.v), a.w + b.w)
  }

  function Sub(a: Quat, b: Quat): Quat {
    Quat(Vector3.Sub(a.v, b.v), a.w - b.w)
  }

  function Neg(a: Quat): Quat {
    Quat(Vector3.Neg(a.v), -a.w)
  }

  /** `q * s` and `q *= s`. */
  function MulScalar(q: Quat, s: real): Quat {
    Quat(Vector3.MulScalar(q.v, s), q.w * s)
  }

  /** `q / s` and `q /= s`. */
  function DivScalar(q: Quat, s: real): Quat
    requires s != 0.0
  {
    Quat(Vector3.DivScalar(q.v, s), q.w / s)
  }

  /** Every component-wise operator acts index by index. */
  lemma ComponentWise(a: Quat, b: Quat, s: real, i: int)
    requires 0 <= i < 4
    ensures Add(a, b).At(i).value == a.At(i).value + b.At(i).value
    ensures Sub(a, b).At(i).value == a.At(i).value - b.At(i).value
    ensures Neg(a).At(i).value == -a.At(i).value
    ensures MulScalar(a, s).At(i).value == a.At(i).value * s
    ensures s != 0.0 ==> DivScalar(a, s).At(i).value == a.At(i).value / s
  {
  }

  /** Each operation is undone by its counterpart, and addition is
      associative and commutative with Zero as neutral element. */
  lemma InverseOperations(a: Quat, b: Quat, c: Quat, s: real)
    ensures Sub(Add(a, b), b) == a && Add(Sub(a, b), b) == a
    ensures Add(a, Neg(a)) == Zero()
    ensures s != 0.0 ==> DivScalar(MulScalar(a, s), s) == a
    ensures Add(Add(a, b), c) == Add(a, Add(b, c)) && Add(a, b) == Add(b, a) && Add(a, Zero()) == a
  {
  }

  // Products and magnitude.

  /** `dot(q)`: the four-dimensional dot product. */
  function Dot(a: Quat, b: Quat): real {
    a.v.x * b.v.x + a.v.y * b.v.y + a.v.z * b.v.z + a.w * b.w
  }

  /** `squareMagnitude()`: v·v + w². */
  function SqMagnitude(q: Quat): real {
    Sq(q.v.x) + Sq(q.v.y) + Sq(q.v.z) + Sq(q.w)
  }

  /** The squared magnitude is never negative, vanishes exactly on the zero
      quaternion, and is the dot product of a quaternion with itself; it
      splits into the vector part's squared magnitude plus w². */
  lemma SqMagnitudeSpec(q: Quat)
    ensures SqMagnitude(q) >= 0.0
    ensures SqMagnitude(q) == 0.0 <==> q == Zero()
    ensures SqMagnitude(q) == Dot(q, q)
    ensures SqMagnitude(q) == Vector3.SqMagnitude(q.v) + Sq(q.w)
  {
    SqNonneg(q.v.x);
    SqNonneg(q.v.y);
    SqNonneg(q.v.z);
    SqNonneg(q.w);
    SqZero(q.v.x);
    SqZero(q.v.y);
    SqZero(q.v.z);
    SqZero(q.w);
  }

  /** The dot product is symmetric, changes sign with either operand,
      distributes over addition and is homogeneous. */
  lemma DotLaws(a: Quat, b: Quat, c: Quat, t: real)
    ensures Dot(a, b) == Dot(b, a)
    ensures Dot(a, Neg(b)) == -Dot(a, b)
    ensures Dot(a, Add(b, c)) == Dot(a, b) + Dot(a, c)
    ensures Dot(MulScalar(a, t), b) == t * Dot(a, b)
  {
  }

  /** `conjugate()`: the vector part negated. */
  function Conjugate(q: Quat): Quat {
    Quat(Vector3.Neg(q.v), q.w)
  }

  /** `q1 * q2`: the Hamilton product, written out component by component.
      Its vector part is w1 v2 + w2 v1 + v1 × v2 and its scalar part
      w1 w2 − v1 · v2 (see MulVectorForm). */
  function Mul(a: Quat, b: Quat): Quat {
    Quat(Vector3.Vec3(a.w * b.v.x + b.w * a.v.x + a.v.y * b.v.z - a.v.z * b.v.y,
                      a.w * b.v.y + b.w * a.v.y + a.v.z * b.v.x - a.v.x * b.v.z,
                      a.w * b.v.z + b.w * a.v.z + a.v.x * b.v.y - a.v.y * b.v.x),
         a.w * b.w - a.v.x * b.v.x - a.v.y * b.v.y - a.v.z * b.v.z)
  }

  /** The Hamilton product written out, for nonlinear proofs. */
  lemma MulEntries(a: Quat, b: Quat)
    ensures Mul(a, b).v.x == a.w * b.v.x + b.w * a.v.x + a.v.y * b.v.z - a.v.z * b.v.y
    ensures Mul(a, b).v.y == a.w * b.v.y + b.w * a.v.y + a.v.z * b.v.x - a.v.x * b.v.z
    ensures Mul(a, b).v.z == a.w * b.v.z + b.w * a.v.z + a.v.x * b.v.y - a.v.y * b.v.x
    ensures Mul(a, b).w == a.w * b.w - a.v.x * b.v.x - a.v.y * b.v.y - a.v.z * b.v.z
  {
  }

  /** The product in vector form: scalar parts scale the other vector part,
      the vector parts contribute their cross product and, negated, their
      dot product. */
  lemma MulVectorForm(a: Quat, b: Quat)
    ensures Mul(a, b) == Quat(Vector3.Add(Vector3.Add(Vector3.MulScalar(b.v, a.w), Vector3.MulScalar(a.v, b.w)),
                                          Vector3.Cross(a.v, b.v)),
                              a.w * b.w - Vector3.Dot(a.v, b.v))
  {
  }

  /** The identity is neutral for the product on both sides and is a unit
      quaternion. */
  lemma IdentityNeutral(q: Quat)
    ensures Mul(Identity(), q) == q && Mul(q, Identity()) == q
    ensures IsUnit(Identity())
  {
  }

  /** Real quaternions commute with every quaternion. */
  lemma RealCommutes(r: real, q: Quat)
    ensures Mul(Quat(Vector3.Zero(), r), q) == Mul(q, Quat(Vector3.Zero(), r))
  {
    MulEntries(Quat(Vector3.Zero(), r), q);
    MulEntries(q, Quat(Vector3.Zero(), r));
  }

  lemma UnitIJ()
    ensures Mul(FromComponents(1.0, 0.0, 0.0, 0.0), FromComponents(0.0, 1.0, 0.0, 0.0)) == FromComponents(0.0, 0.0, 1.0, 0.0)
  {
    MulEntries(FromComponents(1.0, 0.0, 0.0, 0.0), FromComponents(0.0, 1.0, 0.0, 0.0));
  }

  lemma UnitJI()
    ensures Mul(FromComponents(0.0, 1.0, 0.0, 0.0), FromComponents(1.0, 0.0, 0.0, 0.0)) == FromComponents(0.0, 0.0, -1.0, 0.0)
  {
    MulEntries(FromComponents(0.0, 1.0, 0.0, 0.0), FromComponents(1.0, 0.0, 0.0, 0.0));
  }

  /** The product is not commutative: i·j = k but j·i = −k. */
  lemma NotCommutative()
    ensures Mul(FromComponents(1.0, 0.0, 0.0, 0.0), FromComponents(0.0, 1.0, 0.0, 0.0))
         != Mul(FromComponents(0.0, 1.0, 0.0, 0.0), FromComponents(1.0, 0.0, 0.0, 0.0))
  {
    UnitIJ();
    UnitJI();
  }

  /** The product is associative (component by component below). */
  lemma MulAssociative(a: Quat, b: Quat, c: Quat)
    ensures Mul(Mul(a, b), c) == Mul(a, Mul(b, c))
  {
    AssociativeX(a, b, c);
    AssociativeY(a, b, c);
    AssociativeZ(a, b, c);
    AssociativeW(a, b, c);
  }

  lemma AssociativeX(a: Quat, b: Quat, c: Quat)
    ensures Mul(Mul(a, b), c).v.x == Mul(a, Mul(b, c)).v.x
  {
    MulEntries(a, b);
    MulEntries(b, c);
    MulEntries(Mul(a, b), c);
    MulEntries(a, Mul(b, c));
  }

  lemma AssociativeY(a: Quat, b: Quat, c: Quat)
    ensures Mul(Mul(a, b), c).v.y == Mul(a, Mul(b, c)).v.y
  {
    MulEntries(a, b);
    MulEntries(b, c);
    MulEntries(Mul(a, b), c);
    MulEntries(a, Mul(b, c));
  }

  lemma AssociativeZ(a: Quat, b: Quat, c: Quat)
    ensures Mul(Mul(a, b), c).v.z == Mul(a, Mul(b, c)).v.z
  {
    MulEntries(a, b);
    MulEntries(b, c);
    MulEntries(Mul(a, b), c);
    MulEntries(a, Mul(b, c));
  }

  lemma AssociativeW(a: Quat, b: Quat, c: Quat)
    ensures Mul(Mul(a, b), c).w == Mul(a, Mul(b, c)).w
  {
    MulEntries(a, b);
    MulEntries(b, c);
    MulEntries(Mul(a, b), c);
    MulEntries(a, Mul(b, c));
  }

  /** `q * s` written out, for nonlinear proofs. */
  lemma MulScalarEntries(q: Quat, t: real)
    ensures MulScalar(q, t).v.x == q.v.x * t && MulScalar(q, t).v.y == q.v.y * t
    ensures MulScalar(q, t).v.z == q.v.z * t && MulScalar(q, t).w == q.w * t
  {
  }

  /** A scalar factor can be pulled out of either operand of the product. */
  lemma MulScaled(a: Quat, b: Quat, t: real)
    ensures Mul(MulScalar(a, t), b) == MulScalar(Mul(a, b), t)
    ensures Mul(a, MulScalar(b, t)) == MulScalar(Mul(a, b), t)
  {
    MulScaledLeft(a, b, t);
    MulScaledRight(a, b, t);
  }

  lemma MulScaledLeft(a: Quat, b: Quat, t: real)
    ensures Mul(MulScalar(a, t), b) == MulScalar(Mul(a, b), t)
  {
    var at, m := MulScalar(a, t), Mul(a, b);
    MulEntries(a, b);
    MulScalarEntries(a, t);
    MulScalarEntries(m, t);
    MulEntries(at, b);
    ScaledHamilton(at.v.x, at.v.y, at.v.z, at.w, a.v.x, a.v.y, a.v.z, a.w, b.v.x, b.v.y, b.v.z, b.w, t,
                   m.v.x, m.v.y, m.v.z, m.w);
  }

  lemma MulScaledRight(a: Quat, b: Quat, t: real)
    ensures Mul(a, MulScalar(b, t)) == MulScalar(Mul(a, b), t)
  {
    var bt, m := MulScalar(b, t), Mul(a, b);
    MulEntries(a, b);
    MulScalarEntries(b, t);
    MulScalarEntries(m, t);
    MulEntries(a, bt);
    ScaledHamiltonRight(a.v.x, a.v.y, a.v.z, a.w, bt.v.x, bt.v.y, bt.v.z, bt.w, b.v.x, b.v.y, b.v.z, b.w, t,
                        m.v.x, m.v.y, m.v.z, m.w);
  }

  /** The Hamilton product with a scaled left operand (p = a·t), over plain
      scalars, against the unscaled product r. */
  lemma ScaledHamilton(px: real, py: real, pz: real, pw: real, ax: real, ay: real, az: real, aw: real,
                       bx: real, by_: real, bz: real, bw: real, t: real,
                       rx: real, ry: real, rz: real, rw: real)
    requires px == ax * t && py == ay * t && pz == az * t && pw == aw * t
    requires rx == aw * bx + bw * ax + ay * bz - az * by_
    requires ry == aw * by_ + bw * ay + az * bx - ax * bz
    requires rz == aw * bz + bw * az + ax * by_ - ay * bx
    requires rw == aw * bw - ax * bx - ay * by_ - az * bz
    ensures pw * bx + bw * px + py * bz - pz * by_ == rx * t
    ensures pw * by_ + bw * py + pz * bx - px * bz == ry * t
    ensures pw * bz + bw * pz + px * by_ - py * bx == rz * t
    ensures pw * bw - px * bx - py * by_ - pz * bz == rw * t
  {
  }

  /** The same with a scaled right operand (q = b·t). */
  lemma ScaledHamiltonRight(ax: real, ay: real, az: real, aw: real, qx: real, qy: real, qz: real, qw: real,
                            bx: real, by_: real, bz: real, bw: real, t: real,
                            rx: real, ry: real, rz: real, rw: real)
    requires qx == bx * t && qy == by_ * t && qz == bz * t && qw == bw * t
    requires rx == aw * bx + bw * ax + ay * bz - az * by_
    requires ry == aw * by_ + bw * ay + az * bx - ax * bz
    requires rz == aw * bz + bw * az + ax * by_ - ay * bx
    requires rw == aw * bw - ax * bx - ay * by_ - az * bz
    ensures aw * qx + qw * ax + ay * qz - az * qy == rx * t
    ensures aw * qy + qw * ay + az * qx - ax * qz == ry * t
    ensures aw * qz + qw * az + ax * qy - ay * qx == rz * t
    ensures aw * qw - ax * qx - ay * qy - az * qz == rw * t
  {
  }

  /** Conjugation is an involution, is additive, keeps the squared magnitude
      and reverses products. */
  lemma ConjugateSpec(a: Quat, b: Quat)
    ensures Conjugate(Conjugate(a)) == a
    ensures Conjugate(Add(a, b)) == Add(Conjugate(a), Conjugate(b))
    ensures SqMagnitude(Conjugate(a)) == SqMagnitude(a)
    ensures Conjugate(Mul(a, b)) == Mul(Conjugate(b), Conjugate(a))
  {
    MulEntries(a, b);
    MulEntries(Conjugate(b), Conjugate(a));
  }

  /** A quaternion times its conjugate, on either side, is the real
      quaternion of its squared magnitude. */
  lemma ConjugateProduct(q: Quat)
    ensures Mul(Conjugate(q), q) == Quat(Vector3.Zero(), SqMagnitude(q))
    ensures Mul(q, Conjugate(q)) == Quat(Vector3.Zero(), SqMagnitude(q))
  {
    MulEntries(Conjugate(q), q);
    MulEntries(q, Conjugate(q));
  }

  /** The squared magnitude is multiplicative (Euler's four-square
      identity), so the product of two unit quaternions is a unit
      quaternion. */
  lemma SqMagnitudeMultiplicative(a: Quat, b: Quat)
    ensures SqMagnitude(Mul(a, b)) == SqMagnitude(a) * SqMagnitude(b)
    ensures IsUnit(a) && IsUnit(b) ==> IsUnit(Mul(a, b))
  {
    MulEntries(a, b);
    FourSquares(a.v.x, a.v.y, a.v.z, a.w, b.v.x, b.v.y, b.v.z, b.w);
  }

  /** Euler's four-square identity over plain scalars. */
  lemma FourSquares(x1: real, y1: real, z1: real, w1: real, x2: real, y2: real, z2: real, w2: real)
    ensures Sq(w1 * x2 + w2 * x1 + y1 * z2 - z1 * y2) + Sq(w1 * y2 + w2 * y1 + z1 * x2 - x1 * z2)
          + Sq(w1 * z2 + w2 * z1 + x1 * y2 - y1 * x2) + Sq(w1 * w2 - x1 * x2 - y1 * y2 - z1 * z2)
         == (Sq(x1) + Sq(y1) + Sq(z1) + Sq(w1)) * (Sq(x2) + Sq(y2) + Sq(z2) + Sq(w2))
  {
  }

  // Queries. The library compares with a tolerance; the model is exact.

  /** `isZero()`. */
  predicate IsZero(q: Quat) {
    q.v.x == 0.0 && q.v.y == 0.0 && q.v.z == 0.0 && q.w == 0.0
  }

  /** `isPure()`: no scalar part. */
  predicate IsPure(q: Quat) {
    q.w == 0.0
  }

  /** `isReal()`: no vector part. */
  predicate IsReal(q: Quat) {
    q.v == Vector3.Zero()
  }

  /** `isUnit()`: magnitude one, that is squared magnitude one. */
  predicate IsUnit(q: Quat) {
    SqMagnitude(q) == 1.0
  }

  /** The queries through the conjugate: a pure quaternion is the one its
      conjugate negates, a real one is the one its conjugate fixes. */
  lemma QueriesSpec(q: Quat)
    ensures IsPure(q) <==> Conjugate(q) == Neg(q)
    ensures IsReal(q) <==> Conjugate(q) == q
  {
  }

  /** The zero quaternion is the one of squared magnitude zero, so a unit
      quaternion is never zero. */
  lemma ZeroSpec(q: Quat)
    ensures IsZero(q) <==> q == Zero()
    ensures IsZero(q) <==> SqMagnitude(q) == 0.0
    ensures IsUnit(q) ==> !IsZero(q)
  {
    SqMagnitudeSpec(q);
  }

  // Inverse.

  /** `inverse()`: the conjugate divided by the squared magnitude; the zero
      quaternion has none. */
  function Inverse(q: Quat): Quat
    requires SqMagnitude(q) != 0.0
  {
    DivScalar(Conjugate(q), SqMagnitude(q))
  }

  /** `inverseUnit()`: the inverse of a quaternion known to be unit, which
      is its conjugate. */
  function InverseUnit(q: Quat): Quat {
    Conjugate(q)
  }

  /** The inverse undoes q on both sides. */
  lemma InverseSpec(q: Quat)
    requires SqMagnitude(q) != 0.0
    ensures Mul(Inverse(q), q) == Identity()
    ensures Mul(q, Inverse(q)) == Identity()
  {
    var s := SqMagnitude(q);
    var t := 1.0 / s;
    ConjugateProduct(q);
    assert DivScalar(Conjugate(q), s) == MulScalar(Conjugate(q), t) by {
      Reals.DivIsMulReciprocal(q.v.x, s);
      Reals.DivIsMulReciprocal(q.v.y, s);
      Reals.DivIsMulReciprocal(q.v.z, s);
      Reals.DivIsMulReciprocal(q.w, s);
    }
    MulScaled(Conjugate(q), q, t);
    MulScaled(q, Conjugate(q), t);
    MulReciprocal(s);
  }

  /** A left inverse is the inverse. */
  lemma InverseUnique(q: Quat, b: Quat)
    requires SqMagnitude(q) != 0.0
    requires Mul(b, q) == Identity()
    ensures b == Inverse(q)
  {
    calc {
      b;
      { IdentityNeutral(b); }
      Mul(b, Identity());
      { InverseSpec(q); }
      Mul(b, Mul(q, Inverse(q)));
      { MulAssociative(b, q, Inverse(q)); }
      Mul(Mul(b, q), Inverse(q));
      { IdentityNeutral(Inverse(q)); }
      Inverse(q);
    }
  }

  /** For a unit quaternion the inverse, the conjugate and `inverseUnit()`
      coincide, and its dot product with itself is one and with its
      negation minus one. */
  lemma UnitInverse(q: Quat)
    requires IsUnit(q)
    ensures Inverse(q) == Conjugate(q) == InverseUnit(q)
    ensures Dot(q, q) == 1.0 && Dot(q, Neg(q)) == -1.0
  {
    SqMagnitudeSpec(q);
    ConjugateProduct(q);
    InverseUnique(q, Conjugate(q));
  }

  // The rotation used throughout the library's test suite: a quarter turn
  // about z, stored with the half angle, with halfSin and halfCos passed in
  // since sine and cosine are not part of this model.

  /** The fixture quaternion (0, 0, s, c) is a unit quaternion whenever
      s² + c² = 1; its dot product with ((0, −5, −2)·s, c) is c² − 2s², which
      is −1/2 when s² = c² = 1/2, as for the half angle of 45 degrees. */
  lemma RotationFixtureDot(s: real, c: real)
    requires Sq(s) + Sq(c) == 1.0
    ensures IsUnit(Quat(Vector3.Vec3(0.0, 0.0, s), c))
    ensures Dot(Quat(Vector3.Vec3(0.0, 0.0, s), c), Quat(Vector3.Vec3(0.0, -5.0 * s, -2.0 * s), c)) == Sq(c) - 2.0 * Sq(s)
    ensures Sq(s) == Sq(c) ==> Dot(Quat(Vector3.Vec3(0.0, 0.0, s), c), Quat(Vector3.Vec3(0.0, -5.0 * s, -2.0 * s), c)) == -0.5
  {
  }

  // Examples from the library's test suite.

  lemma ConstructorExamples()
    ensures IsZero(Zero())
    ensures FromComponents(1.0, 2.0, 3.0, 4.0) == Quat(Vector3.Vec3(1.0, 2.0, 3.0), 4.0)
    ensures Identity().v == Vector3.Zero() && Identity().w == 1.0
  {
  }

  lemma OperatorExamples()
    ensures Add(FromComponents(1.0, 2.0, 3.0, 4.0), FromComponents(5.0, 6.0, 7.0, 8.0)) == FromComponents(6.0, 8.0, 10.0, 12.0)
    ensures Add(FromComponents(6.0, 8.0, 10.0, 12.0), FromComponents(1.0, 3.0, 3.0, 7.0)) == FromComponents(7.0, 11.0, 13.0, 19.0)
    ensures Sub(FromComponents(5.0, 6.0, 7.0, 8.0), FromComponents(1.0, 2.0, 3.0, 4.0)) == FromComponents(4.0, 4.0, 4.0, 4.0)
    ensures Sub(FromComponents(4.0, 4.0, 4.0, 4.0), FromComponents(1.0, 2.0, 3.0, 4.0)) == FromComponents(3.0, 2.0, 1.0, 0.0)
    ensures MulScalar(FromComponents(1.0, 2.0, 3.0, 4.0), 2.0) == FromComponents(2.0, 4.0, 6.0, 8.0)
    ensures DivScalar(FromComponents(12.0, 24.0, 36.0, 48.0), 4.0) == FromComponents(3.0, 6.0, 9.0, 12.0)
  {
  }

  lemma AccessExamples()
    ensures var q := FromComponents(3.0, 6.0, 9.0, 12.0);
            q.At(0) == Some(3.0) && q.At(1) == Some(6.0) && q.At(2) == Some(9.0) && q.At(3) == Some(12.0)
    ensures var q := FromComponents(3.0, 6.0, 9.0, 12.0);
            q.At(-1) == None && q.At(4) == None
  {
  }

  /** (1, 2, 3, 0) is pure; adding 0.5 to w makes it neither pure nor real;
      clearing v makes it real but not unit; the identity is unit. */
  lemma QueryExamples()
    ensures IsPure(FromComponents(1.0, 2.0, 3.0, 0.0))
    ensures !IsPure(FromComponents(1.0, 2.0, 3.0, 0.5)) && !IsReal(FromComponents(1.0, 2.0, 3.0, 0.5))
    ensures IsReal(FromComponents(0.0, 0.0, 0.0, 0.5)) && !IsUnit(FromComponents(0.0, 0.0, 0.0, 0.5))
    ensures IsUnit(Identity())
  {
  }

  lemma IdentityMagnitude() ensures SqMagnitude(Identity()) == 1.0 { }
  lemma ThreeMagnitude() ensures SqMagnitude(FromComponents(3.0, 0.0, 0.0, 0.0)) == 9.0 { }
  lemma SixMagnitude() ensures SqMagnitude(FromComponents(4.0, 4.0, 0.0, 2.0)) == 36.0 { }

  /** Squared magnitudes 1, 9 and 36, whose roots are the moduli 1, 3 and 6
      the test suite expects. */
  lemma MagnitudeExamples()
    ensures SqMagnitude(Identity()) == 1.0
    ensures SqMagnitude(FromComponents(3.0, 0.0, 0.0, 0.0)) == 9.0
    ensures SqMagnitude(FromComponents(4.0, 4.0, 0.0, 2.0)) == 36.0
  {
    IdentityMagnitude();
    ThreeMagnitude();
    SixMagnitude();
  }
}
