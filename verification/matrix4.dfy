/** 4×4 matrices (`Matrix<T, 4, 4>`), stored as four columns: `m[i]` is
    column i and `m(i, j)` is element j of column i. */
module Matrix4 {
  import opened Wrappers
  import opened Reals
  import opened Vector4
  import Vector3
  import Matrix3

  datatype Mat4 = Mat4(c0: Vec4, c1: Vec4, c2: Vec4, c3: Vec4) {

    /** `m[i]` and `getColumn(i)`: column i, or a failure outside [0, 4). */
    function Col(i: int): (r: Option<Vec4>)
      ensures r.Some? <==> 0 <= i < 4
      ensures r.Some? ==> r.value == [c0, c1, c2, c3][i]
    {
      if i == 0 then Some(c0)
      else if i == 1 then Some(c1)
      else if i == 2 then Some(c2)
      else if i == 3 then Some(c3)
      else None
    }

    /** `m(i, j)`: element j of column i, or a failure when either index is
        outside [0, 4). */
    function At(i: int, j: int): (r: Option<real>)
      ensures r.Some? <==> 0 <= i < 4 && 0 <= j < 4
    {
      match Col(i)
      case None => None
      case Some(c) => c.At(j)
    }
  }

  /** Row j: element j of every column. */
  function Row(m: Mat4, j: int): Vec4
    requires 0 <= j < 4
  {
    if j == 0 then Vec4(m.c0.x, m.c1.x, m.c2.x, m.c3.x)
    else if j == 1 then Vec4(m.c0.y, m.c1.y, m.c2.y, m.c3.y)
    else if j == 2 then Vec4(m.c0.z, m.c1.z, m.c2.z, m.c3.z)
    else Vec4(m.c0.w, m.c1.w, m.c2.w, m.c3.w)
  }

  /** Element i of row j is element j of column i. */
  lemma RowSpec(m: Mat4, i: int, j: int)
    requires 0 <= i < 4 && 0 <= j < 4
    ensures Some(Row(m, j).At(i).value) == m.At(i, j)
  {
  }

  /** The default constructor: every element zero. */
  function Zero(): Mat4 {
    Mat4(Vector4.Zero(), Vector4.Zero(), Vector4.Zero(), Vector4.Zero())
  }

  /** The one-argument constructor: `k` on the diagonal, zero elsewhere. */
  function Diagonal(k: real): Mat4 {
    Mat4(Vec4(k, 0.0, 0.0, 0.0), Vec4(0.0, k, 0.0, 0.0), Vec4(0.0, 0.0, k, 0.0), Vec4(0.0, 0.0, 0.0, k))
  }

  /** The sixteen-argument constructor fills the columns in order. */
  function FromEntries(e0: real, e1: real, e2: real, e3: real, e4: real, e5: real, e6: real, e7: real,
                       e8: real, e9: real, e10: real, e11: real, e12: real, e13: real, e14: real, e15: real): Mat4
  {
    Mat4(Vec4(e0, e1, e2, e3), Vec4(e4, e5, e6, e7), Vec4(e8, e9, e10, e11), Vec4(e12, e13, e14, e15))
  }

  /** `identity()`. */
  function Identity(): Mat4 {
    Diagonal(1.0)
  }

  /** Argument k of the sixteen-argument constructor is element k % 4 of
      column k / 4; the diagonal constructor puts `k` where row and column
      agree and zero elsewhere. */
  lemma ConstructorSpec(e: seq<real>, k: real, i: int, j: int)
    requires |e| == 16
    requires 0 <= i < 4 && 0 <= j < 4
    ensures FromEntries(e[0], e[1], e[2], e[3], e[4], e[5], e[6], e[7],
                        e[8], e[9], e[10], e[11], e[12], e[13], e[14], e[15]).At(i, j) == Some(e[4 * i + j])
    ensures Diagonal(k).At(i, j) == Some(if i == j then k else 0.0)
    ensures Zero().At(i, j) == Some(0.0)
  {
  }

  /** A matrix is fully determined by its elements. */
  lemma AtDeterminesMatrix(a: Mat4, b: Mat4)
    requires forall i, j :: 0 <= i < 4 && 0 <= j < 4 ==> a.At(i, j) == b.At(i, j)
    ensures a == b
  {
    assert a.At(0, 0) == b.At(0, 0) && a.At(0, 1) == b.At(0, 1) && a.At(0, 2) == b.At(0, 2) && a.At(0, 3) == b.At(0, 3);
    assert a.At(1, 0) == b.At(1, 0) && a.At(1, 1) == b.At(1, 1) && a.At(1, 2) == b.At(1, 2) && a.At(1, 3) == b.At(1, 3);
    assert a.At(2, 0) == b.At(2, 0) && a.At(2, 1) == b.At(2, 1) && a.At(2, 2) == b.At(2, 2) && a.At(2, 3) == b.At(2, 3);
    assert a.At(3, 0) == b.At(3, 0) && a.At(3, 1) == b.At(3, 1) && a.At(3, 2) == b.At(3, 2) && a.At(3, 3) == b.At(3, 3);
  }

  // Products.

  /** `m * v`: the linear map applied to a four-component vector. */
  function MulVec(m: Mat4, v: Vec4): Vec4 {
    Vec4(m.c0.x * v.x + m.c1.x * v.y + m.c2.x * v.z + m.c3.x * v.w,
         m.c0.y * v.x + m.c1.y * v.y + m.c2.y * v.z + m.c3.y * v.w,
         m.c0.z * v.x + m.c1.z * v.y + m.c2.z * v.z + m.c3.z * v.w,
         m.c0.w * v.x + m.c1.w * v.y + m.c2.w * v.z + m.c3.w * v.w)
  }

  /** `m * v` written out component by component; stated as a lemma so that
      nonlinear proofs can use it without unfolding `MulVec` themselves. */
  lemma MulVecEntries(m: Mat4, v: Vec4)
    ensures MulVec(m, v).x == m.c0.x * v.x + m.c1.x * v.y + m.c2.x * v.z + m.c3.x * v.w
    ensures MulVec(m, v).y == m.c0.y * v.x + m.c1.y * v.y + m.c2.y * v.z + m.c3.y * v.w
    ensures MulVec(m, v).z == m.c0.z * v.x + m.c1.z * v.y + m.c2.z * v.z + m.c3.z * v.w
    ensures MulVec(m, v).w == m.c0.w * v.x + m.c1.w * v.y + m.c2.w * v.z + m.c3.w * v.w
  {
  }

  /** The column-major reading of `m * v`: the combination of the columns
      weighted by the components of v. */
  lemma MulVecColumns(m: Mat4, v: Vec4)
    ensures MulVec(m, v) == Vector4.Add(Vector4.Add(Vector4.MulScalar(m.c0, v.x), Vector4.MulScalar(m.c1, v.y)),
                                        Vector4.Add(Vector4.MulScalar(m.c2, v.z), Vector4.MulScalar(m.c3, v.w)))
  {
  }

  /** Equivalently, component j of `m * v` is the dot product of row j
      with v. */
  lemma MulVecRows(m: Mat4, v: Vec4, j: int)
    requires 0 <= j < 4
    ensures MulVec(m, v).At(j) == Some(Dot(Row(m, j), v))
  {
    var r := MulVec(m, v);
    if j == 0 {
      assert r.At(0) == Some(r.x) && Dot(Row(m, 0), v) == r.x;
    } else if j == 1 {
      assert r.At(1) == Some(r.y) && Dot(Row(m, 1), v) == r.y;
    } else if j == 2 {
      assert r.At(2) == Some(r.z) && Dot(Row(m, 2), v) == r.z;
    } else {
      assert r.At(3) == Some(r.w) && Dot(Row(m, 3), v) == r.w;
    }
  }

  /** `a * b`: column i of the product is a applied to column i of b. */
  function Mul(a: Mat4, b: Mat4): Mat4 {
    Mat4(MulVec(a, b.c0), MulVec(a, b.c1), MulVec(a, b.c2), MulVec(a, b.c3))
  }

  /** Element (i, j) of the product is row j of a against column i of b. */
  lemma MulSpec(a: Mat4, b: Mat4, i: int, j: int)
    requires 0 <= i < 4 && 0 <= j < 4
    ensures Mul(a, b).At(i, j) == Some(Dot(Row(a, j), b.Col(i).value))
  {
    MulVecRows(a, b.Col(i).value, j);
  }

  /** Applying a product is applying its factors in turn, right factor first. */
  lemma MulVecCompose(a: Mat4, b: Mat4, v: Vec4)
    ensures MulVec(Mul(a, b), v) == MulVec(a, MulVec(b, v))
  {
    ComposeComponents(a, b, v);
  }

  lemma ComposeComponents(a: Mat4, b: Mat4, v: Vec4)
    ensures MulVec(Mul(a, b), v).x == MulVec(a, MulVec(b, v)).x
    ensures MulVec(Mul(a, b), v).y == MulVec(a, MulVec(b, v)).y
    ensures MulVec(Mul(a, b), v).z == MulVec(a, MulVec(b, v)).z
    ensures MulVec(Mul(a, b), v).w == MulVec(a, MulVec(b, v)).w
  {
    ComposeX(a, b, v);
    ComposeY(a, b, v);
    ComposeZ(a, b, v);
    ComposeW(a, b, v);
  }

  lemma ComposeX(a: Mat4, b: Mat4, v: Vec4)
    ensures MulVec(Mul(a, b), v).x == MulVec(a, MulVec(b, v)).x
  {
    var p := Mul(a, b);
    assert p == Mat4(MulVec(a, b.c0), MulVec(a, b.c1), MulVec(a, b.c2), MulVec(a, b.c3));
    MulVecEntries(a, b.c0);
    MulVecEntries(a, b.c1);
    MulVecEntries(a, b.c2);
    MulVecEntries(a, b.c3);
    MulVecEntries(p, v);
    MulVecEntries(a, MulVec(b, v));
    MulVecEntries(b, v);
    RowCompose(a.c0.x, a.c1.x, a.c2.x, a.c3.x, b, v, p.c0.x, p.c1.x, p.c2.x, p.c3.x, MulVec(b, v));
  }

  lemma ComposeY(a: Mat4, b: Mat4, v: Vec4)
    ensures MulVec(Mul(a, b), v).y == MulVec(a, MulVec(b, v)).y
  {
    var p := Mul(a, b);
    assert p == Mat4(MulVec(a, b.c0), MulVec(a, b.c1), MulVec(a, b.c2), MulVec(a, b.c3));
    MulVecEntries(a, b.c0);
    MulVecEntries(a, b.c1);
    MulVecEntries(a, b.c2);
    MulVecEntries(a, b.c3);
    MulVecEntries(p, v);
    MulVecEntries(a, MulVec(b, v));
    MulVecEntries(b, v);
    RowCompose(a.c0.y, a.c1.y, a.c2.y, a.c3.y, b, v, p.c0.y, p.c1.y, p.c2.y, p.c3.y, MulVec(b, v));
  }

  lemma ComposeZ(a: Mat4, b: Mat4, v: Vec4)
    ensures MulVec(Mul(a, b), v).z == MulVec(a, MulVec(b, v)).z
  {
    var p := Mul(a, b);
    assert p == Mat4(MulVec(a, b.c0), MulVec(a, b.c1), MulVec(a, b.c2), MulVec(a, b.c3));
    MulVecEntries(a, b.c0);
    MulVecEntries(a, b.c1);
    MulVecEntries(a, b.c2);
    MulVecEntries(a, b.c3);
    MulVecEntries(p, v);
    MulVecEntries(a, MulVec(b, v));
    MulVecEntries(b, v);
    RowCompose(a.c0.z, a.c1.z, a.c2.z, a.c3.z, b, v, p.c0.z, p.c1.z, p.c2.z, p.c3.z, MulVec(b, v));
  }

  lemma ComposeW(a: Mat4, b: Mat4, v: Vec4)
    ensures MulVec(Mul(a, b), v).w == MulVec(a, MulVec(b, v)).w
  {
    var p := Mul(a, b);
    assert p == Mat4(MulVec(a, b.c0), MulVec(a, b.c1), MulVec(a, b.c2), MulVec(a, b.c3));
    MulVecEntries(a, b.c0);
    MulVecEntries(a, b.c1);
    MulVecEntries(a, b.c2);
    MulVecEntries(a, b.c3);
    MulVecEntries(p, v);
    MulVecEntries(a, MulVec(b, v));
    MulVecEntries(b, v);
    RowCompose(a.c0.w, a.c1.w, a.c2.w, a.c3.w, b, v, p.c0.w, p.c1.w, p.c2.w, p.c3.w, MulVec(b, v));
  }

  /** One row of the composition, over plain scalars: row (a0 .. a3) of
      `a`, the same row (p0 .. p3) of `a * b`, and w = `b * v`, all written out. */
  lemma RowCompose(a0: real, a1: real, a2: real, a3: real, b: Mat4, v: Vec4,
                   p0: real, p1: real, p2: real, p3: real, w: Vec4)
    requires p0 == a0 * b.c0.x + a1 * b.c0.y + a2 * b.c0.z + a3 * b.c0.w
    requires p1 == a0 * b.c1.x + a1 * b.c1.y + a2 * b.c1.z + a3 * b.c1.w
    requires p2 == a0 * b.c2.x + a1 * b.c2.y + a2 * b.c2.z + a3 * b.c2.w
    requires p3 == a0 * b.c3.x + a1 * b.c3.y + a2 * b.c3.z + a3 * b.c3.w
    requires w.x == b.c0.x * v.x + b.c1.x * v.y + b.c2.x * v.z + b.c3.x * v.w
    requires w.y == b.c0.y * v.x + b.c1.y * v.y + b.c2.y * v.z + b.c3.y * v.w
    requires w.z == b.c0.z * v.x + b.c1.z * v.y + b.c2.z * v.z + b.c3.z * v.w
    requires w.w == b.c0.w * v.x + b.c1.w * v.y + b.c2.w * v.z + b.c3.w * v.w
    ensures p0 * v.x + p1 * v.y + p2 * v.z + p3 * v.w == a0 * w.x + a1 * w.y + a2 * w.z + a3 * w.w
  {
  }

  /** The matrix product is associative. */
  lemma MulAssociative(a: Mat4, b: Mat4, c: Mat4)
    ensures Mul(Mul(a, b), c) == Mul(a, Mul(b, c))
  {
    MulVecCompose(a, b, c.c0);
    MulVecCompose(a, b, c.c1);
    MulVecCompose(a, b, c.c2);
    MulVecCompose(a, b, c.c3);
  }

  /** The identity is neutral for the product on both sides and leaves every
      vector unchanged. */
  lemma IdentityNeutral(m: Mat4, v: Vec4)
    ensures MulVec(Identity(), v) == v
    ensures Mul(Identity(), m) == m && Mul(m, Identity()) == m
  {
  }

  // Element-wise scalar operations.

  /** `m *= t`: every element multiplied by t. */
  function MulScalar(m: Mat4, t: real): Mat4 {
    Mat4(Vector4.MulScalar(m.c0, t), Vector4.MulScalar(m.c1, t), Vector4.MulScalar(m.c2, t), Vector4.MulScalar(m.c3, t))
  }

  /** `m /= s`: every element divided by s. */
  function DivScalar(m: Mat4, s: real): Mat4
    requires s != 0.0
  {
    Mat4(Vector4.DivScalar(m.c0, s), Vector4.DivScalar(m.c1, s), Vector4.DivScalar(m.c2, s), Vector4.DivScalar(m.c3, s))
  }

  /** `m *= t` written out element by element, for nonlinear proofs. */
  lemma MulScalarEntries(m: Mat4, t: real)
    ensures MulScalar(m, t).c0.x == m.c0.x * t
    ensures MulScalar(m, t).c0.y == m.c0.y * t
    ensures MulScalar(m, t).c0.z == m.c0.z * t
    ensures MulScalar(m, t).c0.w == m.c0.w * t
    ensures MulScalar(m, t).c1.x == m.c1.x * t
    ensures MulScalar(m, t).c1.y == m.c1.y * t
    ensures MulScalar(m, t).c1.z == m.c1.z * t
    ensures MulScalar(m, t).c1.w == m.c1.w * t
    ensures MulScalar(m, t).c2.x == m.c2.x * t
    ensures MulScalar(m, t).c2.y == m.c2.y * t
    ensures MulScalar(m, t).c2.z == m.c2.z * t
    ensures MulScalar(m, t).c2.w == m.c2.w * t
    ensures MulScalar(m, t).c3.x == m.c3.x * t
    ensures MulScalar(m, t).c3.y == m.c3.y * t
    ensures MulScalar(m, t).c3.z == m.c3.z * t
    ensures MulScalar(m, t).c3.w == m.c3.w * t
  {
  }

  /** Every element of the quotient is the element divided by s. */
  lemma DivScalarSpec(m: Mat4, s: real, i: int, j: int)
    requires s != 0.0
    requires 0 <= i < 4 && 0 <= j < 4
    ensures DivScalar(m, s).At(i, j) == Some(m.At(i, j).value / s)
  {
  }

  /** Dividing by s is multiplying by the reciprocal of s. */
  lemma DivIsMulReciprocal(m: Mat4, s: real)
    requires s != 0.0
    ensures DivScalar(m, s) == MulScalar(m, 1.0 / s)
  {
    ColumnDivIsMul(m.c0, s);
    ColumnDivIsMul(m.c1, s);
    ColumnDivIsMul(m.c2, s);
    ColumnDivIsMul(m.c3, s);
  }

  lemma ColumnDivIsMul(c: Vec4, s: real)
    requires s != 0.0
    ensures Vector4.DivScalar(c, s) == Vector4.MulScalar(c, 1.0 / s)
  {
    Reals.DivIsMulReciprocal(c.x, s);
    Reals.DivIsMulReciprocal(c.y, s);
    Reals.DivIsMulReciprocal(c.z, s);
    Reals.DivIsMulReciprocal(c.w, s);
  }

  /** Scaling the left factor of a product scales the product. */
  lemma MulScaled(a: Mat4, b: Mat4, t: real)
    ensures Mul(MulScalar(a, t), b) == MulScalar(Mul(a, b), t)
  {
    MulVecScaled(a, b.c0, t);
    MulVecScaled(a, b.c1, t);
    MulVecScaled(a, b.c2, t);
    MulVecScaled(a, b.c3, t);
  }

  lemma MulVecScaled(a: Mat4, v: Vec4, t: real)
    ensures MulVec(MulScalar(a, t), v) == Vector4.MulScalar(MulVec(a, v), t)
  {
    ScaledX(a, v, t);
    ScaledY(a, v, t);
    ScaledZ(a, v, t);
    ScaledW(a, v, t);
  }

  lemma ScaledX(a: Mat4, v: Vec4, t: real)
    ensures MulVec(MulScalar(a, t), v).x == MulVec(a, v).x * t
  {
    var at := MulScalar(a, t);
    MulScalarEntries(a, t);
    MulVecEntries(a, v);
    MulVecEntries(at, v);
    RowOfScaled(at.c0.x, at.c1.x, at.c2.x, at.c3.x, a.c0.x, a.c1.x, a.c2.x, a.c3.x, v, t, MulVec(a, v).x);
  }

  lemma ScaledY(a: Mat4, v: Vec4, t: real)
    ensures MulVec(MulScalar(a, t), v).y == MulVec(a, v).y * t
  {
    var at := MulScalar(a, t);
    MulScalarEntries(a, t);
    MulVecEntries(a, v);
    MulVecEntries(at, v);
    RowOfScaled(at.c0.y, at.c1.y, at.c2.y, at.c3.y, a.c0.y, a.c1.y, a.c2.y, a.c3.y, v, t, MulVec(a, v).y);
  }

  lemma ScaledZ(a: Mat4, v: Vec4, t: real)
    ensures MulVec(MulScalar(a, t), v).z == MulVec(a, v).z * t
  {
    var at := MulScalar(a, t);
    MulScalarEntries(a, t);
    MulVecEntries(a, v);
    MulVecEntries(at, v);
    RowOfScaled(at.c0.z, at.c1.z, at.c2.z, at.c3.z, a.c0.z, a.c1.z, a.c2.z, a.c3.z, v, t, MulVec(a, v).z);
  }

  lemma ScaledW(a: Mat4, v: Vec4, t: real)
    ensures MulVec(MulScalar(a, t), v).w == MulVec(a, v).w * t
  {
    var at := MulScalar(a, t);
    MulScalarEntries(a, t);
    MulVecEntries(a, v);
    MulVecEntries(at, v);
    RowOfScaled(at.c0.w, at.c1.w, at.c2.w, at.c3.w, a.c0.w, a.c1.w, a.c2.w, a.c3.w, v, t, MulVec(a, v).w);
  }

  /** One row of a product with a scaled matrix, over plain scalars. */
  lemma RowOfScaled(p0: real, p1: real, p2: real, p3: real, a0: real, a1: real, a2: real, a3: real,
                    v: Vec4, t: real, r: real)
    requires p0 == a0 * t && p1 == a1 * t && p2 == a2 * t && p3 == a3 * t
    requires r == a0 * v.x + a1 * v.y + a2 * v.z + a3 * v.w
    ensures p0 * v.x + p1 * v.y + p2 * v.z + p3 * v.w == r * t
  {
  }

  // Transpose.

  /** `transpose()`: column i of the result is row i of m. */
  function Transpose(m: Mat4): Mat4 {
    Mat4(Vec4(m.c0.x, m.c1.x, m.c2.x, m.c3.x), Vec4(m.c0.y, m.c1.y, m.c2.y, m.c3.y),
         Vec4(m.c0.z, m.c1.z, m.c2.z, m.c3.z), Vec4(m.c0.w, m.c1.w, m.c2.w, m.c3.w))
  }

  /** Transposition swaps the two indices, is an involution and fixes the
      identity. */
  lemma TransposeSpec(m: Mat4, i: int, j: int)
    requires 0 <= i < 4 && 0 <= j < 4
    ensures Transpose(m).At(i, j) == m.At(j, i)
    ensures Transpose(m).Col(i).value == Row(m, i)
    ensures Transpose(Transpose(m)) == m
    ensures Transpose(Identity()) == Identity()
  {
  }

  /** Transposition reverses products. */
  lemma TransposeMul(a: Mat4, b: Mat4)
    ensures Transpose(Mul(a, b)) == Mul(Transpose(b), Transpose(a))
  {
  }

  // Narrowing.

  /** `toMat3()`: the upper-left 3×3 block, the first three elements of the
      first three columns. */
  function ToMat3(m: Mat4): Matrix3.Mat3 {
    Matrix3.Mat3(Xyz(m.c0), Xyz(m.c1), Xyz(m.c2))
  }

  /** Narrowing keeps exactly the elements with both indices below 3. */
  lemma ToMat3Spec(m: Mat4, i: int, j: int)
    ensures ToMat3(m).At(i, j) == (if 0 <= i < 3 && 0 <= j < 3 then m.At(i, j) else None)
    ensures ToMat3(Identity()) == Matrix3.Identity()
  {
  }

  /** On directions (w = 0), the narrowed matrix acts as the full one on the
      first three components. */
  lemma ToMat3MulVec(m: Mat4, v: Vec4)
    requires v.w == 0.0
    ensures Matrix3.MulVec(ToMat3(m), Xyz(v)) == Xyz(MulVec(m, v))
  {
  }

  /** Narrowing commutes with the product when the left factor carries no
      translation or the right factor's last row is zero in its first three
      columns. */
  lemma ToMat3Mul(a: Mat4, b: Mat4)
    requires Xyz(a.c3) == Vector3.Zero() || (b.c0.w == 0.0 && b.c1.w == 0.0 && b.c2.w == 0.0)
    ensures ToMat3(Mul(a, b)) == Matrix3.Mul(ToMat3(a), ToMat3(b))
  {
  }

  // Scale and translation.

  /** `scale(x, y, z)`: the factors on the first three diagonal elements and
      1 on the last. */
  function Scale(x: real, y: real, z: real): Mat4 {
    Mat4(Vec4(x, 0.0, 0.0, 0.0), Vec4(0.0, y, 0.0, 0.0), Vec4(0.0, 0.0, z, 0.0), Vec4(0.0, 0.0, 0.0, 1.0))
  }

  /** `scale(v)`: the same, from a vector of factors. */
  function ScaleVec(s: Vector3.Vec3): Mat4 {
    Scale(s.x, s.y, s.z)
  }

  /** A scale matrix multiplies the first three components by the factors
      and keeps w; its 3×3 block is the 3×3 scale. */
  lemma ScaleSpec(x: real, y: real, z: real, v: Vec4)
    ensures MulVec(Scale(x, y, z), v) == Vec4(x * v.x, y * v.y, z * v.z, v.w)
    ensures ToMat3(Scale(x, y, z)) == Matrix3.Scale(x, y, z)
  {
  }

  /** `translation(x, y, z)`: the identity with (x, y, z, 1) as its last
      column. */
  function Translation(x: real, y: real, z: real): Mat4 {
    Mat4(Vec4(1.0, 0.0, 0.0, 0.0), Vec4(0.0, 1.0, 0.0, 0.0), Vec4(0.0, 0.0, 1.0, 0.0), Vec4(x, y, z, 1.0))
  }

  /** `translation(v)`: the same, from a vector of offsets. */
  function TranslationVec(t: Vector3.Vec3): Mat4 {
    Translation(t.x, t.y, t.z)
  }

  /** A translation leaves the 3×3 block at the identity, moves a point
      (w = 1) by the offsets and leaves a direction (w = 0) alone; two
      translations compose by adding their offsets. */
  lemma TranslationSpec(x: real, y: real, z: real, v: Vec4, x2: real, y2: real, z2: real)
    ensures ToMat3(Translation(x, y, z)) == Matrix3.Identity()
    ensures Translation(x, y, z).Col(3) == Some(Vec4(x, y, z, 1.0))
    ensures MulVec(Translation(x, y, z), v) == Vec4(v.x + x * v.w, v.y + y * v.w, v.z + z * v.w, v.w)
    ensures Mul(Translation(x, y, z), Translation(x2, y2, z2)) == Translation(x + x2, y + y2, z + z2)
  {
  }

  /** Scaling a translation scales its offsets and keeps the scale on the
      diagonal. */
  lemma ScaleTranslation(x: real, y: real, z: real, tx: real, ty: real, tz: real)
    ensures Mul(Scale(x, y, z), Translation(tx, ty, tz))
         == Mat4(Vec4(x, 0.0, 0.0, 0.0), Vec4(0.0, y, 0.0, 0.0), Vec4(0.0, 0.0, z, 0.0), Vec4(x * tx, y * ty, z * tz, 1.0))
  {
  }

  // Determinant and inverse.

  /** The four-dimensional analogue of the cross product: the vector whose
      dot product with any d is the determinant of the columns a, b, c, d.
      Component k is the signed 3×3 minor of (a, b, c) without row k. */
  function TripleCross(a: Vec4, b: Vec4, c: Vec4): Vec4 {
    Vec4(-(a.y * (b.z * c.w - b.w * c.z) - a.z * (b.y * c.w - b.w * c.y) + a.w * (b.y * c.z - b.z * c.y)),
         a.x * (b.z * c.w - b.w * c.z) - a.z * (b.x * c.w - b.w * c.x) + a.w * (b.x * c.z - b.z * c.x),
         -(a.x * (b.y * c.w - b.w * c.y) - a.y * (b.x * c.w - b.w * c.x) + a.w * (b.x * c.y - b.y * c.x)),
         a.x * (b.y * c.z - b.z * c.y) - a.y * (b.x * c.z - b.z * c.x) + a.z * (b.x * c.y - b.y * c.x))
  }

  /** The dot product with a triple cross product written out in the
      components, for nonlinear proofs. */
  lemma DotTripleCrossEntries(a: Vec4, b: Vec4, c: Vec4, d: Vec4)
    ensures Dot(d, TripleCross(a, b, c)) == d.x * -(a.y * (b.z * c.w - b.w * c.z) - a.z * (b.y * c.w - b.w * c.y) + a.w * (b.y * c.z - b.z * c.y)) + d.y * (a.x * (b.z * c.w - b.w * c.z) - a.z * (b.x * c.w - b.w * c.x) + a.w * (b.x * c.z - b.z * c.x)) + d.z * -(a.x * (b.y * c.w - b.w * c.y) - a.y * (b.x * c.w - b.w * c.x) + a.w * (b.x * c.y - b.y * c.x)) + d.w * (a.x * (b.y * c.z - b.z * c.y) - a.y * (b.x * c.z - b.z * c.x) + a.z * (b.x * c.y - b.y * c.x))
  {
  }

  /** The triple cross product is orthogonal to each of its arguments. */
  lemma TripleCrossAlternates(a: Vec4, b: Vec4, c: Vec4)
    ensures Dot(a, TripleCross(a, b, c)) == 0.0
    ensures Dot(b, TripleCross(a, b, c)) == 0.0
    ensures Dot(c, TripleCross(a, b, c)) == 0.0
  {
    DotTripleCrossEntries(a, b, c, a);
    DotTripleCrossEntries(a, b, c, b);
    DotTripleCrossEntries(a, b, c, c);
  }

  lemma TripleCrossShifts(a: Vec4, b: Vec4, c: Vec4, d: Vec4)
    ensures Dot(a, TripleCross(b, c, d)) == -Dot(d, TripleCross(a, b, c))
    ensures Dot(b, TripleCross(a, c, d)) == Dot(d, TripleCross(a, b, c))
    ensures Dot(c, TripleCross(a, b, d)) == -Dot(d, TripleCross(a, b, c))
  {
    Shift0(a, b, c, d);
    Shift1(a, b, c, d);
    Shift2(a, b, c, d);
  }

  lemma Shift0(a: Vec4, b: Vec4, c: Vec4, d: Vec4)
    ensures Dot(a, TripleCross(b, c, d)) == -Dot(d, TripleCross(a, b, c))
  {
    DotTripleCrossEntries(b, c, d, a);
    DotTripleCrossEntries(a, b, c, d);
  }

  lemma Shift1(a: Vec4, b: Vec4, c: Vec4, d: Vec4)
    ensures Dot(b, TripleCross(a, c, d)) == Dot(d, TripleCross(a, b, c))
  {
    DotTripleCrossEntries(a, c, d, b);
    DotTripleCrossEntries(a, b, c, d);
  }

  lemma Shift2(a: Vec4, b: Vec4, c: Vec4, d: Vec4)
    ensures Dot(c, TripleCross(a, b, d)) == -Dot(d, TripleCross(a, b, c))
  {
    DotTripleCrossEntries(a, b, d, c);
    DotTripleCrossEntries(a, b, c, d);
  }

  /** The determinant: the last column against the triple cross product of
      the first three. */
  function Det(m: Mat4): real {
    Dot(m.c3, TripleCross(m.c0, m.c1, m.c2))
  }

  /** The adjugate: row k is, up to sign, the triple cross product of the
      three columns other than k. */
  function Adjugate(m: Mat4): Mat4 {
    Transpose(Mat4(Neg(TripleCross(m.c1, m.c2, m.c3)), TripleCross(m.c0, m.c2, m.c3),
                   Neg(TripleCross(m.c0, m.c1, m.c3)), TripleCross(m.c0, m.c1, m.c2)))
  }

  /** `inverse()`, defined when the determinant is nonzero; the library does
      not check singular input. */
  function Inverse(m: Mat4): Mat4
    requires Det(m) != 0.0
  {
    DivScalar(Adjugate(m), Det(m))
  }

  /** Applying a transpose takes the dot product of each column with v. */
  lemma MulVecTranspose(m: Mat4, v: Vec4)
    ensures MulVec(Transpose(m), v) == Vec4(Dot(m.c0, v), Dot(m.c1, v), Dot(m.c2, v), Dot(m.c3, v))
  {
  }

  /** The determinant against a negated or swapped triple cross product. */
  lemma DotSwap(u: Vec4, c: Vec4)
    ensures Dot(u, c) == Dot(c, u)
    ensures Dot(Neg(u), c) == -Dot(c, u)
  {
  }

  /** Column k of the adjugate product: row r of the adjugate against column
      k of m is the determinant when r = k and zero otherwise. */
  lemma AdjugateColumns(m: Mat4)
    ensures MulVec(Adjugate(m), m.c0) == Vec4(Det(m), 0.0, 0.0, 0.0)
    ensures MulVec(Adjugate(m), m.c1) == Vec4(0.0, Det(m), 0.0, 0.0)
    ensures MulVec(Adjugate(m), m.c2) == Vec4(0.0, 0.0, Det(m), 0.0)
    ensures MulVec(Adjugate(m), m.c3) == Vec4(0.0, 0.0, 0.0, Det(m))
  {
    var t0, t1, t2, t3 := TripleCross(m.c1, m.c2, m.c3), TripleCross(m.c0, m.c2, m.c3),
                          TripleCross(m.c0, m.c1, m.c3), TripleCross(m.c0, m.c1, m.c2);
    var x := Mat4(Neg(t0), t1, Neg(t2), t3);
    MulVecTranspose(x, m.c0);
    MulVecTranspose(x, m.c1);
    MulVecTranspose(x, m.c2);
    MulVecTranspose(x, m.c3);
    TripleCrossAlternates(m.c1, m.c2, m.c3);
    TripleCrossAlternates(m.c0, m.c2, m.c3);
    TripleCrossAlternates(m.c0, m.c1, m.c3);
    TripleCrossAlternates(m.c0, m.c1, m.c2);
    TripleCrossShifts(m.c0, m.c1, m.c2, m.c3);
    DotSwap(t0, m.c0); DotSwap(t0, m.c1); DotSwap(t0, m.c2); DotSwap(t0, m.c3);
    DotSwap(t1, m.c0); DotSwap(t1, m.c1); DotSwap(t1, m.c2); DotSwap(t1, m.c3);
    DotSwap(t2, m.c0); DotSwap(t2, m.c1); DotSwap(t2, m.c2); DotSwap(t2, m.c3);
    DotSwap(t3, m.c0); DotSwap(t3, m.c1); DotSwap(t3, m.c2); DotSwap(t3, m.c3);
  }

  /** The adjugate is a left inverse up to the determinant. */
  lemma AdjugateLeft(m: Mat4)
    ensures Mul(Adjugate(m), m) == Diagonal(Det(m))
  {
    AdjugateColumns(m);
  }

  /** The determinant written out in the elements of m, for nonlinear
      proofs. */
  lemma DetEntries(m: Mat4)
    ensures Det(m) == m.c3.x * -(m.c0.y * (m.c1.z * m.c2.w - m.c1.w * m.c2.z) - m.c0.z * (m.c1.y * m.c2.w - m.c1.w * m.c2.y) + m.c0.w * (m.c1.y * m.c2.z - m.c1.z * m.c2.y)) + m.c3.y * (m.c0.x * (m.c1.z * m.c2.w - m.c1.w * m.c2.z) - m.c0.z * (m.c1.x * m.c2.w - m.c1.w * m.c2.x) + m.c0.w * (m.c1.x * m.c2.z - m.c1.z * m.c2.x)) + m.c3.z * -(m.c0.x * (m.c1.y * m.c2.w - m.c1.w * m.c2.y) - m.c0.y * (m.c1.x * m.c2.w - m.c1.w * m.c2.x) + m.c0.w * (m.c1.x * m.c2.y - m.c1.y * m.c2.x)) + m.c3.w * (m.c0.x * (m.c1.y * m.c2.z - m.c1.z * m.c2.y) - m.c0.y * (m.c1.x * m.c2.z - m.c1.z * m.c2.x) + m.c0.z * (m.c1.x * m.c2.y - m.c1.y * m.c2.x))
  {
  }

  /** Transposition written out element by element. */
  lemma TransposeEntries(m: Mat4)
    ensures Transpose(m).c0.x == m.c0.x
    ensures Transpose(m).c0.y == m.c1.x
    ensures Transpose(m).c0.z == m.c2.x
    ensures Transpose(m).c0.w == m.c3.x
    ensures Transpose(m).c1.x == m.c0.y
    ensures Transpose(m).c1.y == m.c1.y
    ensures Transpose(m).c1.z == m.c2.y
    ensures Transpose(m).c1.w == m.c3.y
    ensures Transpose(m).c2.x == m.c0.z
    ensures Transpose(m).c2.y == m.c1.z
    ensures Transpose(m).c2.z == m.c2.z
    ensures Transpose(m).c2.w == m.c3.z
    ensures Transpose(m).c3.x == m.c0.w
    ensures Transpose(m).c3.y == m.c1.w
    ensures Transpose(m).c3.z == m.c2.w
    ensures Transpose(m).c3.w == m.c3.w
  {
  }

  /** The determinant is unchanged by transposition. */
  lemma TransposeDet(m: Mat4)
    ensures Det(Transpose(m)) == Det(m)
  {
    DetEntries(m);
    DetEntries(Transpose(m));
    TransposeEntries(m);
  }

  /** Scaling a diagonal matrix scales its diagonal. */
  lemma ScaledDiagonal(d: real, t: real)
    ensures MulScalar(Diagonal(d), t) == Diagonal(d * t)
  {
  }

  /** The inverse undoes m from the left. */
  lemma InverseLeft(m: Mat4)
    requires Det(m) != 0.0
    ensures Mul(Inverse(m), m) == Identity()
  {
    var d := Det(m);
    AdjugateLeft(m);
    DivIsMulReciprocal(Adjugate(m), d);
    MulScaled(Adjugate(m), m, 1.0 / d);
    ScaledDiagonal(d, 1.0 / d);
    MulReciprocal(d);
  }

  /** The inverse undoes m on both sides: the transposed inverse of the
      transpose is a right inverse, and a left and a right inverse agree. */
  lemma InverseSpec(m: Mat4, v: Vec4)
    requires Det(m) != 0.0
    ensures Mul(Inverse(m), m) == Identity()
    ensures Mul(m, Inverse(m)) == Identity()
    ensures MulVec(Inverse(m), MulVec(m, v)) == v
  {
    var n := Transpose(m);
    TransposeDet(m);
    TransposeSpec(m, 0, 0);
    InverseLeft(n);
    InverseLeft(m);
    var l, r := Inverse(m), Transpose(Inverse(n));
    assert Mul(m, r) == Identity() by {
      TransposeMul(Inverse(n), n);
    }
    calc {
      l;
      { IdentityNeutral(l, v); }
      Mul(l, Identity());
      Mul(l, Mul(m, r));
      { MulAssociative(l, m, r); }
      Mul(Mul(l, m), r);
      { IdentityNeutral(r, v); }
      r;
    }
    MulVecCompose(l, m, v);
    IdentityNeutral(m, v);
  }

  /** A left inverse of an invertible matrix is its inverse. */
  lemma InverseUnique(m: Mat4, b: Mat4)
    requires Det(m) != 0.0
    requires Mul(b, m) == Identity()
    ensures b == Inverse(m)
  {
    var v := Vector4.Zero();
    calc {
      b;
      { IdentityNeutral(b, v); }
      Mul(b, Identity());
      { InverseSpec(m, v); }
      Mul(b, Mul(m, Inverse(m)));
      { MulAssociative(b, m, Inverse(m)); }
      Mul(Mul(b, m), Inverse(m));
      { IdentityNeutral(Inverse(m), v); }
      Inverse(m);
    }
  }

  /** The inverse of an orthogonal matrix, such as a rotation, is its
      transpose. */
  lemma OrthogonalInverse(m: Mat4)
    requires Det(m) != 0.0
    requires Mul(Transpose(m), m) == Identity()
    ensures Inverse(m) == Transpose(m)
  {
    InverseUnique(m, Transpose(m));
  }

  /** Scale matrices compose by multiplying their factors; the determinant
      of a scale is the product of its factors. */
  lemma ScaleCompose(a: real, b: real, c: real, x: real, y: real, z: real)
    ensures Mul(Scale(a, b, c), Scale(x, y, z)) == Scale(a * x, b * y, c * z)
    ensures Det(Scale(x, y, z)) == x * y * z
  {
    DetEntries(Scale(x, y, z));
  }

  /** A scale with nonzero factors has a nonzero determinant. */
  lemma ScaleDetNonzero(x: real, y: real, z: real)
    requires x != 0.0 && y != 0.0 && z != 0.0
    ensures Det(Scale(x, y, z)) != 0.0
  {
    DiagonalDetNonzero(x, y, z, 1.0);
  }

  lemma DiagonalDetNonzero(a: real, b: real, c: real, d: real)
    requires a != 0.0 && b != 0.0 && c != 0.0 && d != 0.0
    ensures Det(Mat4(Vec4(a, 0.0, 0.0, 0.0), Vec4(0.0, b, 0.0, 0.0),
                     Vec4(0.0, 0.0, c, 0.0), Vec4(0.0, 0.0, 0.0, d))) != 0.0
  {
    var m := Mat4(Vec4(a, 0.0, 0.0, 0.0), Vec4(0.0, b, 0.0, 0.0),
                  Vec4(0.0, 0.0, c, 0.0), Vec4(0.0, 0.0, 0.0, d));
    DetEntries(m);
    NonzeroProduct(a, b);
    NonzeroProduct(a * b, c);
    NonzeroProduct(a * b * c, d);
  }

  /** The reciprocal scale undoes a scale with nonzero factors, which
      therefore has a nonzero determinant. */
  lemma ScaleReciprocal(x: real, y: real, z: real)
    requires x != 0.0 && y != 0.0 && z != 0.0
    ensures Det(Scale(x, y, z)) != 0.0
    ensures Mul(Scale(1.0 / x, 1.0 / y, 1.0 / z), Scale(x, y, z)) == Identity()
  {
    ScaleDetNonzero(x, y, z);
    assert Mul(Scale(1.0 / x, 1.0 / y, 1.0 / z), Scale(x, y, z)) == Identity() by {
      ScaleCompose(1.0 / x, 1.0 / y, 1.0 / z, x, y, z);
      MulReciprocal(x);
      MulReciprocal(y);
      MulReciprocal(z);
    }
  }

  /** A scale matrix with nonzero factors is inverted by the reciprocal
      factors. */
  lemma InverseOfScale(x: real, y: real, z: real)
    requires x != 0.0 && y != 0.0 && z != 0.0
    ensures Det(Scale(x, y, z)) != 0.0
    ensures Inverse(Scale(x, y, z)) == Scale(1.0 / x, 1.0 / y, 1.0 / z)
  {
    ScaleReciprocal(x, y, z);
    InverseUnique(Scale(x, y, z), Scale(1.0 / x, 1.0 / y, 1.0 / z));
  }

  /** Applying the inverse of a scale divides each of the first three
      components by its factor and keeps w. */
  lemma InverseScaleApply(x: real, y: real, z: real, v: Vec4)
    requires x != 0.0 && y != 0.0 && z != 0.0
    ensures Det(Scale(x, y, z)) != 0.0
    ensures MulVec(Inverse(Scale(x, y, z)), v) == Vec4(v.x / x, v.y / y, v.z / z, v.w)
  {
    InverseOfScale(x, y, z);
    ScaleSpec(1.0 / x, 1.0 / y, 1.0 / z, v);
    Reals.DivIsMulReciprocal(v.x, x);
    Reals.DivIsMulReciprocal(v.y, y);
    Reals.DivIsMulReciprocal(v.z, z);
  }

  /** A translation is inverted by the opposite translation. */
  lemma InverseOfTranslation(x: real, y: real, z: real)
    ensures Det(Translation(x, y, z)) == 1.0
    ensures Inverse(Translation(x, y, z)) == Translation(-x, -y, -z)
  {
    DetEntries(Translation(x, y, z));
    TranslationSpec(-x, -y, -z, Vector4.Zero(), x, y, z);
    InverseUnique(Translation(x, y, z), Translation(-x, -y, -z));
  }

  // Examples from the library's test suite.

  /** The default, diagonal and sixteen-argument constructors. */
  lemma ConstructorExamples()
    ensures Zero() == Mat4(Vector4.Zero(), Vector4.Zero(), Vector4.Zero(), Vector4.Zero())
    ensures Diagonal(42.0) == Mat4(Vec4(42.0, 0.0, 0.0, 0.0), Vec4(0.0, 42.0, 0.0, 0.0),
                                   Vec4(0.0, 0.0, 42.0, 0.0), Vec4(0.0, 0.0, 0.0, 42.0))
    ensures FromEntries(1.0, 2.0, 3.0, 4.0, 5.0, 6.0, 7.0, 8.0, 9.0, 10.0, 11.0, 12.0, 13.0, 14.0, 15.0, 16.0)
         == Mat4(Vec4(1.0, 2.0, 3.0, 4.0), Vec4(5.0, 6.0, 7.0, 8.0),
                 Vec4(9.0, 10.0, 11.0, 12.0), Vec4(13.0, 14.0, 15.0, 16.0))
  {
  }

  lemma ProductExample()
    ensures var m := FromEntries(1.0, 2.0, 3.0, 4.0, 5.0, 6.0, 7.0, 8.0, 9.0, 10.0, 11.0, 12.0, 13.0, 14.0, 15.0, 16.0);
            Mul(m, m) == Mat4(Vec4(90.0, 100.0, 110.0, 120.0), Vec4(202.0, 228.0, 254.0, 280.0),
                              Vec4(314.0, 356.0, 398.0, 440.0), Vec4(426.0, 484.0, 542.0, 600.0))
  {
  }

  lemma DivScalarExample()
    ensures DivScalar(FromEntries(2.0, 4.0, 8.0, 16.0, 32.0, 64.0, 128.0, 256.0, 512.0, 1024.0, 2048.0, 4096.0,
                                  8192.0, 16384.0, 32768.0, 65536.0), 2.0)
         == Mat4(Vec4(1.0, 2.0, 4.0, 8.0), Vec4(16.0, 32.0, 64.0, 128.0),
                 Vec4(256.0, 512.0, 1024.0, 2048.0), Vec4(4096.0, 8192.0, 16384.0, 32768.0))
  {
  }

  /** Element access on the matrix 1..16, and the accesses that fail. */
  lemma AccessExamples()
    ensures var m := FromEntries(1.0, 2.0, 3.0, 4.0, 5.0, 6.0, 7.0, 8.0, 9.0, 10.0, 11.0, 12.0, 13.0, 14.0, 15.0, 16.0);
            m.At(0, 0) == Some(1.0) && m.At(1, 1) == Some(6.0) && m.At(1, 2) == Some(7.0)
            && m.At(2, 2) == Some(11.0) && m.At(2, 3) == Some(12.0) && m.At(3, 3) == Some(16.0)
    ensures var m := FromEntries(1.0, 2.0, 3.0, 4.0, 5.0, 6.0, 7.0, 8.0, 9.0, 10.0, 11.0, 12.0, 13.0, 14.0, 15.0, 16.0);
            m.At(-1, 0) == None && m.At(0, -1) == None && m.At(99, 2) == None && m.At(3, 42) == None
    ensures var m := FromEntries(1.0, 2.0, 3.0, 4.0, 5.0, 6.0, 7.0, 8.0, 9.0, 10.0, 11.0, 12.0, 13.0, 14.0, 15.0, 16.0);
            m.Col(-1) == None && m.Col(4) == None
  {
  }

  lemma ToMat3Example()
    ensures ToMat3(FromEntries(1.0, 2.0, 3.0, 4.0, 5.0, 6.0, 7.0, 8.0, 9.0, 10.0, 11.0, 12.0, 13.0, 14.0, 15.0, 16.0))
         == Matrix3.Mat3(Vector3.Vec3(1.0, 2.0, 3.0), Vector3.Vec3(5.0, 6.0, 7.0), Vector3.Vec3(9.0, 10.0, 11.0))
  {
  }

  lemma IdentityExample()
    ensures Identity() == Mat4(Vec4(1.0, 0.0, 0.0, 0.0), Vec4(0.0, 1.0, 0.0, 0.0),
                               Vec4(0.0, 0.0, 1.0, 0.0), Vec4(0.0, 0.0, 0.0, 1.0))
  {
  }

  lemma TransposeExample()
    ensures Transpose(Identity()) == Identity()
    ensures Transpose(FromEntries(1.0, 2.0, 3.0, 4.0, 5.0, 6.0, 7.0, 8.0, 9.0, 10.0, 11.0, 12.0, 13.0, 14.0, 15.0, 16.0))
         == Mat4(Vec4(1.0, 5.0, 9.0, 13.0), Vec4(2.0, 6.0, 10.0, 14.0),
                 Vec4(3.0, 7.0, 11.0, 15.0), Vec4(4.0, 8.0, 12.0, 16.0))
  {
  }

  lemma ScaleExamples()
    ensures Scale(1.0, 2.0, 3.0).c0 == Vector4.FromXYZ(1.0, 0.0, 0.0)
    ensures Scale(1.0, 2.0, 3.0).c1 == Vector4.FromXYZ(0.0, 2.0, 0.0)
    ensures Scale(1.0, 2.0, 3.0).c2 == Vector4.FromXYZ(0.0, 0.0, 3.0)
    ensures Scale(1.0, 2.0, 3.0) == ScaleVec(Vector3.Vec3(1.0, 2.0, 3.0))
  {
  }

  lemma ScalePointExample()
    ensures MulVec(Scale(1.0, 2.0, 3.0), Vector4.FromXYZ(1.0, 2.0, 3.0)) == Vector4.FromXYZ(1.0, 4.0, 9.0)
  {
  }

  lemma TranslationExamples()
    ensures ToMat3(Translation(1.0, 2.0, 3.0)) == Matrix3.Identity()
    ensures Translation(1.0, 2.0, 3.0).Col(3) == Some(Vec4(1.0, 2.0, 3.0, 1.0))
    ensures Translation(1.0, 2.0, 3.0) == TranslationVec(Vector3.Vec3(1.0, 2.0, 3.0))
  {
  }

  /** Scaling a translation scales its offset. */
  lemma ScaledTranslationExample()
    ensures Mul(Scale(1.0, 2.0, 3.0), Translation(1.0, 2.0, 3.0))
         == Mat4(Vec4(1.0, 0.0, 0.0, 0.0), Vec4(0.0, 2.0, 0.0, 0.0),
                 Vec4(0.0, 0.0, 3.0, 0.0), Vec4(1.0, 4.0, 9.0, 1.0))
  {
  }
}
