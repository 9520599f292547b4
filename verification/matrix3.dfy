/** 3×3 matrices (`Matrix<T, 3, 3>`), stored as three columns: `m[i]` is
    column i and `m(i, j)` is element j of column i. */
module Matrix3 {
  import opened Wrappers
  import opened Reals
  import opened Vector3

  datatype Mat3 = Mat3(c0: Vec3, c1: Vec3, c2: Vec3) {

    /** `m[i]`: column i, or a failure outside [0, 3). */
    function Col(i: int): (r: Option<Vec3>)
      ensures r.Some? <==> 0 <= i < 3
      ensures r.Some? ==> r.value == [c0, c1, c2][i]
    {
      if i == 0 then Some(c0) else if i == 1 then Some(c1) else if i == 2 then Some(c2) else None
    }

    /** `m(i, j)`: element j of column i, or a failure when either index is
        outside [0, 3). */
    function At(i: int, j: int): (r: Option<real>)
      ensures r.Some? <==> 0 <= i < 3 && 0 <= j < 3
    {
      match Col(i)
      case None => None
      case Some(c) => c.At(j)
    }
  }

  /** Row j: element j of every column. */
  function Row(m: Mat3, j: int): Vec3
    requires 0 <= j < 3
  {
    if j == 0 then Vec3(m.c0.x, m.c1.x, m.c2.x)
    else if j == 1 then Vec3(m.c0.y, m.c1.y, m.c2.y)
    else Vec3(m.c0.z, m.c1.z, m.c2.z)
  }

  /** Element i of row j is element j of column i. */
  lemma RowSpec(m: Mat3, i: int, j: int)
    requires 0 <= i < 3 && 0 <= j < 3
    ensures Some(Row(m, j).At(i).value) == m.At(i, j)
  {
  }

  /** The default constructor: every element zero. */
  function Zero(): Mat3 {
    Mat3(Vector3.Zero(), Vector3.Zero(), Vector3.Zero())
  }

  /** The one-argument constructor: `k` on the diagonal, zero elsewhere. */
  function Diagonal(k: real): Mat3 {
    Mat3(Vec3(k, 0.0, 0.0), Vec3(0.0, k, 0.0), Vec3(0.0, 0.0, k))
  }

  /** The nine-argument constructor fills the columns in order. */
  function FromEntries(e0: real, e1: real, e2: real, e3: real, e4: real,
                       e5: real, e6: real, e7: real, e8: real): Mat3
  {
    Mat3(Vec3(e0, e1, e2), Vec3(e3, e4, e5), Vec3(e6, e7, e8))
  }

  /** `identity()`. */
  function Identity(): Mat3 {
    Diagonal(1.0)
  }

  /** Argument k of the nine-argument constructor is element k % 3 of
      column k / 3; the diagonal constructor puts `k` where row and column
      agree and zero elsewhere. */
  lemma ConstructorSpec(e: seq<real>, k: real, i: int, j: int)
    requires |e| == 9
    requires 0 <= i < 3 && 0 <= j < 3
    ensures FromEntries(e[0], e[1], e[2], e[3], e[4], e[5], e[6], e[7], e[8]).At(i, j) == Some(e[3 * i + j])
    ensures Diagonal(k).At(i, j) == Some(if i == j then k else 0.0)
    ensures Zero().At(i, j) == Some(0.0)
  {
  }

  /** A matrix is fully determined by its elements. */
  lemma AtDeterminesMatrix(a: Mat3, b: Mat3)
    requires forall i, j :: 0 <= i < 3 && 0 <= j < 3 ==> a.At(i, j) == b.At(i, j)
    ensures a == b
  {
    assert a.At(0, 0) == b.At(0, 0) && a.At(0, 1) == b.At(0, 1) && a.At(0, 2) == b.At(0, 2);
    assert a.At(1, 0) == b.At(1, 0) && a.At(1, 1) == b.At(1, 1) && a.At(1, 2) == b.At(1, 2);
    assert a.At(2, 0) == b.At(2, 0) && a.At(2, 1) == b.At(2, 1) && a.At(2, 2) == b.At(2, 2);
  }

  // Products.

  /** `m * v`: the linear map applied to a vector. */
  function MulVec(m: Mat3, v: Vec3): Vec3 {
    Vec3(m.c0.x * v.x + m.c1.x * v.y + m.c2.x * v.z,
         m.c0.y * v.x + m.c1.y * v.y + m.c2.y * v.z,
         m.c0.z * v.x + m.c1.z * v.y + m.c2.z * v.z)
  }

  /** The column-major reading of `m * v`: the combination of the columns
      weighted by the components of v. */
  lemma MulVecColumns(m: Mat3, v: Vec3)
    ensures MulVec(m, v) == Vector3.Add(Vector3.Add(Vector3.MulScalar(m.c0, v.x), Vector3.MulScalar(m.c1, v.y)), Vector3.MulScalar(m.c2, v.z))
  {
  }

  /** Equivalently, component j of `m * v` is the dot product of row j
      with v. */
  lemma MulVecRows(m: Mat3, v: Vec3, j: int)
    requires 0 <= j < 3
    ensures MulVec(m, v).At(j) == Some(Dot(Row(m, j), v))
  {
    var r := MulVec(m, v);
    if j == 0 {
      assert r.At(0) == Some(r.x) && Dot(Row(m, 0), v) == r.x;
    } else if j == 1 {
      assert r.At(1) == Some(r.y) && Dot(Row(m, 1), v) == r.y;
    } else {
      assert r.At(2) == Some(r.z) && Dot(Row(m, 2), v) == r.z;
    }
  }

  /** `a * b`: column i of the product is a applied to column i of b. */
  function Mul(a: Mat3, b: Mat3): Mat3 {
    Mat3(MulVec(a, b.c0), MulVec(a, b.c1), MulVec(a, b.c2))
  }

  /** Element (i, j) of the product is row j of a against column i of b. */
  lemma MulSpec(a: Mat3, b: Mat3, i: int, j: int)
    requires 0 <= i < 3 && 0 <= j < 3
    ensures Mul(a, b).At(i, j) == Some(Dot(Row(a, j), b.Col(i).value))
  {
    MulVecRows(a, b.Col(i).value, j);
  }

  /** Applying a product is applying its factors in turn, right factor first. */
  lemma MulVecCompose(a: Mat3, b: Mat3, v: Vec3)
    ensures MulVec(Mul(a, b), v) == MulVec(a, MulVec(b, v))
  {
    ComposeComponents(a, b, v);
  }

  lemma ComposeComponents(a: Mat3, b: Mat3, v: Vec3)
    ensures MulVec(Mul(a, b), v).x == MulVec(a, MulVec(b, v)).x
    ensures MulVec(Mul(a, b), v).y == MulVec(a, MulVec(b, v)).y
    ensures MulVec(Mul(a, b), v).z == MulVec(a, MulVec(b, v)).z
  {
    var p, w := Mul(a, b), MulVec(b, v);
    RowCompose(a.c0.x, a.c1.x, a.c2.x, b, v, p.c0.x, p.c1.x, p.c2.x, w);
    RowCompose(a.c0.y, a.c1.y, a.c2.y, b, v, p.c0.y, p.c1.y, p.c2.y, w);
    RowCompose(a.c0.z, a.c1.z, a.c2.z, b, v, p.c0.z, p.c1.z, p.c2.z, w);
  }

  /** One row of the composition, over plain scalars: row (a0, a1, a2) of
      `a`, the same row (p0, p1, p2) of `a * b`, and w = `b * v`. */
  lemma RowCompose(a0: real, a1: real, a2: real, b: Mat3, v: Vec3, p0: real, p1: real, p2: real, w: Vec3)
    requires p0 == a0 * b.c0.x + a1 * b.c0.y + a2 * b.c0.z
    requires p1 == a0 * b.c1.x + a1 * b.c1.y + a2 * b.c1.z
    requires p2 == a0 * b.c2.x + a1 * b.c2.y + a2 * b.c2.z
    requires w == MulVec(b, v)
    ensures p0 * v.x + p1 * v.y + p2 * v.z == a0 * w.x + a1 * w.y + a2 * w.z
  {
  }

  /** The matrix product is associative. */
  lemma MulAssociative(a: Mat3, b: Mat3, c: Mat3)
    ensures Mul(Mul(a, b), c) == Mul(a, Mul(b, c))
  {
    MulVecCompose(a, b, c.c0);
    MulVecCompose(a, b, c.c1);
    MulVecCompose(a, b, c.c2);
  }

  /** The identity is neutral for the product on both sides and leaves every
      vector unchanged. */
  lemma IdentityNeutral(m: Mat3, v: Vec3)
    ensures MulVec(Identity(), v) == v
    ensures Mul(Identity(), m) == m && Mul(m, Identity()) == m
  {
  }

  // Element-wise scalar operations.

  /** `m /= s`: every element divided by s. */
  function DivScalar(m: Mat3, s: real): Mat3
    requires s != 0.0
  {
    Mat3(Vector3.DivScalar(m.c0, s), Vector3.DivScalar(m.c1, s), Vector3.DivScalar(m.c2, s))
  }

  /** `m *= t`: every element multiplied by t. */
  function MulScalar(m: Mat3, t: real): Mat3 {
    Mat3(Vector3.MulScalar(m.c0, t), Vector3.MulScalar(m.c1, t), Vector3.MulScalar(m.c2, t))
  }

  /** Every element of the quotient is the element divided by s. */
  lemma DivScalarSpec(m: Mat3, s: real, i: int, j: int)
    requires s != 0.0
    requires 0 <= i < 3 && 0 <= j < 3
    ensures DivScalar(m, s).At(i, j) == Some(m.At(i, j).value / s)
  {
  }

  /** Dividing by s is multiplying by the reciprocal of s. */
  lemma DivIsMulReciprocal(m: Mat3, s: real)
    requires s != 0.0
    ensures DivScalar(m, s) == MulScalar(m, 1.0 / s)
  {
    ColumnDivIsMul(m.c0, s);
    ColumnDivIsMul(m.c1, s);
    ColumnDivIsMul(m.c2, s);
  }

  lemma ColumnDivIsMul(c: Vec3, s: real)
    requires s != 0.0
    ensures Vector3.DivScalar(c, s) == Vector3.MulScalar(c, 1.0 / s)
  {
    Reals.DivIsMulReciprocal(c.x, s);
    Reals.DivIsMulReciprocal(c.y, s);
    Reals.DivIsMulReciprocal(c.z, s);
  }

  /** Scaling either factor of a product scales the product. */
  lemma MulScaled(a: Mat3, b: Mat3, t: real)
    ensures Mul(MulScalar(a, t), b) == MulScalar(Mul(a, b), t)
    ensures Mul(a, MulScalar(b, t)) == MulScalar(Mul(a, b), t)
  {
    MulVecScaled(a, b.c0, t);
    MulVecScaled(a, b.c1, t);
    MulVecScaled(a, b.c2, t);
  }

  lemma MulVecScaled(a: Mat3, v: Vec3, t: real)
    ensures MulVec(MulScalar(a, t), v) == Vector3.MulScalar(MulVec(a, v), t)
    ensures MulVec(a, Vector3.MulScalar(v, t)) == Vector3.MulScalar(MulVec(a, v), t)
  {
    MulVecScaledLeft(a, v, t);
    MulVecScaledRight(a, v, t);
  }

  lemma MulVecScaledLeft(a: Mat3, v: Vec3, t: real)
    ensures MulVec(MulScalar(a, t), v) == Vector3.MulScalar(MulVec(a, v), t)
  {
    ScaledLeftX(a, v, t);
    ScaledLeftY(a, v, t);
    ScaledLeftZ(a, v, t);
  }

  lemma ScaledLeftX(a: Mat3, v: Vec3, t: real)
    ensures MulVec(MulScalar(a, t), v).x == MulVec(a, v).x * t
  {
    var at := MulScalar(a, t);
    RowOfScaled(at.c0.x, at.c1.x, at.c2.x, a.c0.x, a.c1.x, a.c2.x, v, t, MulVec(a, v).x);
  }

  lemma ScaledLeftY(a: Mat3, v: Vec3, t: real)
    ensures MulVec(MulScalar(a, t), v).y == MulVec(a, v).y * t
  {
    var at := MulScalar(a, t);
    RowOfScaled(at.c0.y, at.c1.y, at.c2.y, a.c0.y, a.c1.y, a.c2.y, v, t, MulVec(a, v).y);
  }

  lemma ScaledLeftZ(a: Mat3, v: Vec3, t: real)
    ensures MulVec(MulScalar(a, t), v).z == MulVec(a, v).z * t
  {
    var at := MulScalar(a, t);
    RowOfScaled(at.c0.z, at.c1.z, at.c2.z, a.c0.z, a.c1.z, a.c2.z, v, t, MulVec(a, v).z);
  }

  lemma MulVecScaledRight(a: Mat3, v: Vec3, t: real)
    ensures MulVec(a, Vector3.MulScalar(v, t)) == Vector3.MulScalar(MulVec(a, v), t)
  {
    var vt, r := Vector3.MulScalar(v, t), MulVec(a, v);
    assert vt == Vec3(v.x * t, v.y * t, v.z * t);
    assert MulVec(a, vt).x == r.x * t by { RowScaled(a.c0.x, a.c1.x, a.c2.x, v, t); }
    assert MulVec(a, vt).y == r.y * t by { RowScaled(a.c0.y, a.c1.y, a.c2.y, v, t); }
    assert MulVec(a, vt).z == r.z * t by { RowScaled(a.c0.z, a.c1.z, a.c2.z, v, t); }
  }

  /** One row of a product with a scaled matrix, over plain scalars. */
  lemma RowOfScaled(p0: real, p1: real, p2: real, a0: real, a1: real, a2: real, v: Vec3, t: real, r: real)
    requires p0 == a0 * t && p1 == a1 * t && p2 == a2 * t
    requires r == a0 * v.x + a1 * v.y + a2 * v.z
    ensures p0 * v.x + p1 * v.y + p2 * v.z == r * t
  {
  }

  /** One row of a scaled product, over plain scalars. */
  lemma RowScaled(a0: real, a1: real, a2: real, v: Vec3, t: real)
    ensures (a0 * t) * v.x + (a1 * t) * v.y + (a2 * t) * v.z == (a0 * v.x + a1 * v.y + a2 * v.z) * t
    ensures a0 * (v.x * t) + a1 * (v.y * t) + a2 * (v.z * t) == (a0 * v.x + a1 * v.y + a2 * v.z) * t
  {
  }

  // Transpose.

  /** `transpose()`: column i of the result is row i of m. */
  function Transpose(m: Mat3): Mat3 {
    Mat3(Row(m, 0), Row(m, 1), Row(m, 2))
  }

  /** Transposition swaps the two indices, is an involution, fixes the
      identity and reverses products. */
  lemma TransposeSpec(m: Mat3, a: Mat3, b: Mat3, i: int, j: int)
    requires 0 <= i < 3 && 0 <= j < 3
    ensures Transpose(m).At(i, j) == m.At(j, i)
    ensures Transpose(Transpose(m)) == m
    ensures Transpose(Identity()) == Identity()
    ensures Transpose(Mul(a, b)) == Mul(Transpose(b), Transpose(a))
  {
  }

  // Scale.

  /** `scale(x, y, z)`: the diagonal matrix of the three factors. */
  function Scale(x: real, y: real, z: real): Mat3 {
    Mat3(Vec3(x, 0.0, 0.0), Vec3(0.0, y, 0.0), Vec3(0.0, 0.0, z))
  }

  /** `scale(v)`: the same, from a vector of factors. */
  function ScaleVec(s: Vec3): Mat3 {
    Scale(s.x, s.y, s.z)
  }

  /** Applying a scale matrix multiplies component-wise by the factors;
      scaling by equal factors is the diagonal constructor. */
  lemma ScaleSpec(s: Vec3, v: Vec3)
    ensures MulVec(ScaleVec(s), v) == Vector3.Mul(s, v)
    ensures Scale(s.x, s.x, s.x) == Diagonal(s.x)
  {
  }

  // Determinant and inverse.

  /** The determinant: the scalar triple product of the columns. */
  function Det(m: Mat3): real {
    Dot(m.c0, Cross(m.c1, m.c2))
  }

  /** The adjugate: its rows are the cross products of pairs of columns. */
  function Adjugate(m: Mat3): Mat3 {
    Transpose(Mat3(Cross(m.c1, m.c2), Cross(m.c2, m.c0), Cross(m.c0, m.c1)))
  }

  /** `inverse()`, defined when the determinant is nonzero; the library does
      not check singular input. */
  function Inverse(m: Mat3): Mat3
    requires Det(m) != 0.0
  {
    DivScalar(Adjugate(m), Det(m))
  }

  /** Applying a transpose takes the dot product of each column with v. */
  lemma MulVecTranspose(m: Mat3, v: Vec3)
    ensures MulVec(Transpose(m), v) == Vec3(Dot(m.c0, v), Dot(m.c1, v), Dot(m.c2, v))
  {
  }

  /** Each column of m against each row of its adjugate gives the determinant
      on the diagonal and zero elsewhere. */
  lemma AdjugateLeft(m: Mat3)
    ensures Mul(Adjugate(m), m) == Diagonal(Det(m))
  {
    var x0, x1, x2 := Cross(m.c1, m.c2), Cross(m.c2, m.c0), Cross(m.c0, m.c1);
    MulVecTranspose(Mat3(x0, x1, x2), m.c0);
    MulVecTranspose(Mat3(x0, x1, x2), m.c1);
    MulVecTranspose(Mat3(x0, x1, x2), m.c2);
    CrossZeroAndOrthogonal(m.c1, m.c2);
    CrossZeroAndOrthogonal(m.c2, m.c0);
    CrossZeroAndOrthogonal(m.c0, m.c1);
    ScalarTripleProduct(m.c0, m.c1, m.c2);
    DotLaws(m.c0, x0, x0, 0.0);
  }

  /** The determinant and the adjugate commute with transposition. */
  lemma TransposeDetAdjugate(m: Mat3)
    ensures Det(Transpose(m)) == Det(m)
    ensures Adjugate(Transpose(m)) == Transpose(Adjugate(m))
  {
    TransposeDet(m);
    TransposeAdjugate(m);
  }

  lemma TransposeDet(m: Mat3)
    ensures Det(Transpose(m)) == Det(m)
  {
  }

  lemma TransposeAdjugate(m: Mat3)
    ensures Adjugate(Transpose(m)) == Transpose(Adjugate(m))
  {
    var t := Transpose(m);
    assert t == Mat3(Vec3(m.c0.x, m.c1.x, m.c2.x), Vec3(m.c0.y, m.c1.y, m.c2.y), Vec3(m.c0.z, m.c1.z, m.c2.z));
  }

  /** The adjugate is also a right inverse up to the determinant, by
      transposing the left identity. */
  lemma AdjugateRight(m: Mat3)
    ensures Mul(m, Adjugate(m)) == Diagonal(Det(m))
  {
    var t := Transpose(m);
    calc {
      Mul(m, Adjugate(m));
      { TransposeSpec(Mul(m, Adjugate(m)), m, Adjugate(m), 0, 0); }
      Transpose(Mul(Transpose(Adjugate(m)), t));
      { TransposeDetAdjugate(m); }
      Transpose(Mul(Adjugate(t), t));
      { AdjugateLeft(t); }
      Transpose(Diagonal(Det(t)));
      { TransposeDetAdjugate(m); }
      Diagonal(Det(m));
    }
  }

  /** The inverse undoes m on both sides. */
  lemma InverseSpec(m: Mat3, v: Vec3)
    requires Det(m) != 0.0
    ensures Mul(Inverse(m), m) == Identity()
    ensures Mul(m, Inverse(m)) == Identity()
    ensures MulVec(Inverse(m), MulVec(m, v)) == v
  {
    var d := Det(m);
    AdjugateLeft(m);
    AdjugateRight(m);
    DivIsMulReciprocal(Adjugate(m), d);
    MulScaled(Adjugate(m), m, 1.0 / d);
    MulScaled(m, Adjugate(m), 1.0 / d);
    assert MulScalar(Diagonal(d), 1.0 / d) == Identity();
    MulVecCompose(Inverse(m), m, v);
    IdentityNeutral(m, v);
  }

  /** A left inverse of an invertible matrix is its inverse. */
  lemma InverseUnique(m: Mat3, b: Mat3)
    requires Det(m) != 0.0
    requires Mul(b, m) == Identity()
    ensures b == Inverse(m)
  {
    var v := Vector3.Zero();
    calc {
      b;
      { IdentityNeutral(b, v); }
      Mul(b, Identity());
      { InverseSpec(m, v); }
      Mul(b, Mul(m, Inverse(m)));
      { MulAssociative(b, m, Inverse(m)); }
      Mul(Mul(b, m), Inverse(m));
      { IdentityNeutral(Inverse(m), v); }
      Inverse(m);
    }
  }

  /** The inverse of an orthogonal matrix, such as a rotation, is its
      transpose. */
  lemma OrthogonalInverse(m: Mat3)
    requires Det(m) != 0.0
    requires Mul(Transpose(m), m) == Identity()
    ensures Inverse(m) == Transpose(m)
  {
    InverseUnique(m, Transpose(m));
  }

  /** A scale matrix with nonzero factors is inverted by the reciprocal
      factors. */
  lemma InverseOfScale(x: real, y: real, z: real)
    requires x != 0.0 && y != 0.0 && z != 0.0
    ensures Det(Scale(x, y, z)) == x * y * z
    ensures Inverse(Scale(x, y, z)) == Scale(1.0 / x, 1.0 / y, 1.0 / z)
  {
    var m := Scale(x, y, z);
    assert Det(m) == x * y * z;
    assert x * y * z != 0.0 by {
      assert x * y != 0.0 by { MulDivCancel(x, y); }
      MulDivCancel(x * y, z);
    }
    assert Mul(Scale(1.0 / x, 1.0 / y, 1.0 / z), m) == Identity() by {
      assert (1.0 / x) * x == 1.0 && (1.0 / y) * y == 1.0 && (1.0 / z) * z == 1.0;
    }
    InverseUnique(m, Scale(1.0 / x, 1.0 / y, 1.0 / z));
  }

  /** Applying the inverse of a scale divides each component by its factor. */
  lemma InverseScaleApply(x: real, y: real, z: real, v: Vec3)
    requires x != 0.0 && y != 0.0 && z != 0.0
    ensures Det(Scale(x, y, z)) != 0.0
    ensures MulVec(Inverse(Scale(x, y, z)), v) == Vec3(v.x / x, v.y / y, v.z / z)
  {
    InverseOfScale(x, y, z);
    ScaleSpec(Vec3(1.0 / x, 1.0 / y, 1.0 / z), v);
    Reals.DivIsMulReciprocal(v.x, x);
    Reals.DivIsMulReciprocal(v.y, y);
    Reals.DivIsMulReciprocal(v.z, z);
  }

  // Examples from the library's test suite.

  /** The default, diagonal and nine-argument constructors. */
  lemma ConstructorExamples()
    ensures Zero() == Mat3(Vector3.Zero(), Vector3.Zero(), Vector3.Zero())
    ensures Diagonal(42.0) == Mat3(Vec3(42.0, 0.0, 0.0), Vec3(0.0, 42.0, 0.0), Vec3(0.0, 0.0, 42.0))
    ensures FromEntries(1.0, 2.0, 3.0, 4.0, 5.0, 6.0, 7.0, 8.0, 9.0)
         == Mat3(Vec3(1.0, 2.0, 3.0), Vec3(4.0, 5.0, 6.0), Vec3(7.0, 8.0, 9.0))
  {
  }

  lemma ProductExample()
    ensures var m := FromEntries(1.0, 2.0, 3.0, 4.0, 5.0, 6.0, 7.0, 8.0, 9.0);
            Mul(m, m) == Mat3(Vec3(30.0, 36.0, 42.0), Vec3(66.0, 81.0, 96.0), Vec3(102.0, 126.0, 150.0))
  {
  }

  lemma DivScalarExample()
    ensures DivScalar(FromEntries(2.0, 4.0, 8.0, 16.0, 32.0, 64.0, 128.0, 256.0, 512.0), 2.0)
         == Mat3(Vec3(1.0, 2.0, 4.0), Vec3(8.0, 16.0, 32.0), Vec3(64.0, 128.0, 256.0))
  {
  }

  /** Element access on the matrix 1..9, and the accesses that fail. */
  lemma AccessExamples()
    ensures var m := FromEntries(1.0, 2.0, 3.0, 4.0, 5.0, 6.0, 7.0, 8.0, 9.0);
            m.At(0, 0) == Some(1.0) && m.At(1, 1) == Some(5.0) && m.At(1, 2) == Some(6.0) && m.At(2, 2) == Some(9.0)
    ensures var m := FromEntries(1.0, 2.0, 3.0, 4.0, 5.0, 6.0, 7.0, 8.0, 9.0);
            m.At(-1, 0) == None && m.At(0, -1) == None && m.At(99, 2) == None && m.At(3, 42) == None
    ensures var m := FromEntries(1.0, 2.0, 3.0, 4.0, 5.0, 6.0, 7.0, 8.0, 9.0);
            m.Col(-1) == None && m.Col(4) == None
  {
  }

  lemma IdentityExample()
    ensures Identity() == Mat3(Vec3(1.0, 0.0, 0.0), Vec3(0.0, 1.0, 0.0), Vec3(0.0, 0.0, 1.0))
  {
  }

  lemma TransposeExample()
    ensures Transpose(FromEntries(1.0, 2.0, 3.0, 4.0, 5.0, 6.0, 7.0, 8.0, 9.0))
         == Mat3(Vec3(1.0, 4.0, 7.0), Vec3(2.0, 5.0, 8.0), Vec3(3.0, 6.0, 9.0))
  {
  }

  lemma ScaleExamples()
    ensures Scale(1.0, 2.0, 3.0) == Mat3(Vec3(1.0, 0.0, 0.0), Vec3(0.0, 2.0, 0.0), Vec3(0.0, 0.0, 3.0))
    ensures Scale(1.0, 2.0, 3.0) == ScaleVec(Vec3(1.0, 2.0, 3.0))
  {
  }

  lemma ScalePointExample()
    ensures MulVec(Scale(1.0, 2.0, 3.0), Vec3(1.0, 2.0, 3.0)) == Vec3(1.0, 4.0, 9.0)
  {
  }

  lemma ScaleDetExample()
    ensures Det(Scale(1.0, 2.0, 3.0)) == 6.0
  {
  }
}
