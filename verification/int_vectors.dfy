/** The `int` instantiation of `Vector<T, N>` for N = 2, 3, 4. A vector is
    the sequence of its components in index order, so its length is N. Every
    operator works index by index as in the real model; the one place where
    the integer instantiation behaves differently is division, which
    truncates toward zero as C++ integer division does. Integers here are
    unbounded (no 32-bit wrap-around). */
module IntVectors {
  import opened Wrappers
  import Reals
  import Vector2
  import Vector3
  import Vector4

  /** `Vector<int, N>` with N = |v|. */
  type IVec = seq<int>

  /** `v[i]`: valid indices are 0 to N-1, every other index fails. */
  function At(v: IVec, i: int): (r: Option<int>)
    ensures r.Some? <==> 0 <= i < |v|
    ensures r.Some? ==> r.value == v[i]
  {
    if 0 <= i < |v| then Some(v[i]) else None
  }

  /** The one-argument constructor: all N components set to `k`. */
  function Splat(n: nat, k: int): IVec {
    seq(n, _ => k)
  }

  /** The default constructor. */
  function Zero(n: nat): IVec {
    Splat(n, 0)
  }

  /** A constructor given fewer components than N (or a narrower vector):
      the missing trailing components are zero-filled. */
  function Widen(v: IVec, n: nat): IVec
    requires |v| <= n
  {
    v + Zero(n - |v|)
  }

  /** The constructors build vectors of the requested dimension; widening
      keeps every given component at its index and zero-fills the rest; and
      a vector is fully determined by what indexing returns. */
  lemma ConstructorSpec(n: nat, k: int, v: IVec, w: IVec)
    requires |v| <= n
    ensures |Splat(n, k)| == n && forall i :: 0 <= i < n ==> At(Splat(n, k), i) == Some(k)
    ensures |Zero(n)| == n && forall i :: 0 <= i < n ==> At(Zero(n), i) == Some(0)
    ensures |Widen(v, n)| == n
    ensures forall i :: 0 <= i < |v| ==> At(Widen(v, n), i) == At(v, i)
    ensures forall i :: |v| <= i < n ==> At(Widen(v, n), i) == Some(0)
    ensures Widen(v, |v|) == v
    ensures (forall i :: At(v, i) == At(w, i)) ==> v == w
  {
    if forall i :: At(v, i) == At(w, i) {
      assert At(w, |v|) == At(v, |v|) == None;
      assert At(v, |w|) == At(w, |w|) == None;
      forall i | 0 <= i < |v|
        ensures v[i] == w[i]
      {
        assert At(v, i) == At(w, i);
      }
    }
  }

  // Integer division as C++ performs it.

  function Abs(a: int): nat {
    if a < 0 then -a else a
  }

  /** Euclidean division of a natural number by a positive divisor leaves
      a product between n − d (exclusive) and n (inclusive). */
  lemma EuclidBounds(n: nat, d: int)
    requires d > 0
    ensures 0 <= (n / d) * d <= n && n - (n / d) * d < d
  {
    assert n == (n / d) * d + n % d;
  }

  /** A nonzero multiple of b is at least as large as b in magnitude. */
  lemma MultipleAtLeast(k: int, b: int)
    requires k != 0 && b != 0
    ensures Abs(k * b) >= Abs(b)
  {
    var m, c := Abs(k), Abs(b);
    assert Abs(k * b) == m * c by {
      if k < 0 && b < 0 {
        assert k * b == (-k) * (-b);
      } else if k < 0 {
        assert k * b == -((-k) * b);
      } else if b < 0 {
        assert k * b == -(k * (-b));
      }
    }
    assert m * c == c + (m - 1) * c;
    NonnegProduct(m - 1, c);
  }

  lemma NonnegProduct(x: nat, y: nat)
    ensures x * y >= 0
  {
  }

  /** `a / b` on C++ integers: the quotient rounded toward zero. Dafny's own
      `/` is Euclidean (the remainder is never negative), so the two differ
      when a is negative and b does not divide it. */
  function TruncDiv(a: int, b: int): (q: int)
    requires b != 0
    ensures a >= 0 ==> 0 <= q * b <= a
    ensures a < 0 ==> a <= q * b <= 0
    ensures Abs(a - q * b) < Abs(b)
  {
    if a >= 0 && b > 0 then
      EuclidBounds(a, b);
      a / b
    else if a >= 0 then
      EuclidBounds(a, -b);
      var p := a / -b;
      assert (-p) * b == p * (-b);
      -p
    else if b > 0 then
      EuclidBounds(-a, b);
      var p := (-a) / b;
      assert (-p) * b == -(p * b);
      -p
    else
      EuclidBounds(-a, -b);
      var p := (-a) / (-b);
      assert p * b == -(p * (-b));
      p
  }

  /** The three facts stated by TruncDiv (the product q·b lies between 0 and
      a, and the remainder is smaller than the divisor) determine the
      quotient: any q with them is TruncDiv(a, b). */
  lemma TruncDivUnique(a: int, b: int, q: int)
    requires b != 0
    requires a >= 0 ==> 0 <= q * b <= a
    requires a < 0 ==> a <= q * b <= 0
    requires Abs(a - q * b) < Abs(b)
    ensures q == TruncDiv(a, b)
  {
    var t := TruncDiv(a, b);
    if q != t {
      var x, y := q * b, t * b;
      assert x - y == (q - t) * b;
      assert Abs(x - y) < Abs(b);
      MultipleAtLeast(q - t, b);
      assert false;
    }
  }

  /** Dividing an exact multiple gives the factor back; the sign of either
      operand moves out of the quotient; and dividing by one or minus one
      keeps or negates the dividend. */
  lemma TruncDivLaws(a: int, b: int, q: int)
    requires b != 0
    ensures TruncDiv(q * b, b) == q
    ensures TruncDiv(-a, b) == -TruncDiv(a, b)
    ensures TruncDiv(a, -b) == -TruncDiv(a, b)
    ensures TruncDiv(a, 1) == a && TruncDiv(a, -1) == -a
  {
    TruncDivUnique(q * b, b, q);
    var t := TruncDiv(a, b);
    assert (-t) * b == -(t * b);
    TruncDivUnique(-a, b, -t);
    assert (-t) * (-b) == t * b;
    TruncDivUnique(a, -b, -t);
    TruncDivUnique(a, 1, a);
    TruncDivUnique(a, -1, -a);
  }

  /** Where the remainder is nonzero and the dividend negative, truncation
      and Dafny's Euclidean division part ways: −7 / 2 is −3 in C++ and −4
      in Dafny. */
  lemma TruncDivNotEuclidean()
    ensures TruncDiv(-7, 2) == -3 && -7 / 2 == -4
    ensures TruncDiv(7, 2) == 7 / 2 == 3
  {
  }

  /** An exact integer quotient is the real quotient of the same numbers. */
  lemma TruncDivExactReal(a: int, b: int)
    requires b != 0 && a % b == 0
    ensures TruncDiv(a, b) as real == a as real / b as real
  {
    var q := a / b;
    assert a == q * b;
    ExactQuotientReal(q, b);
  }

  lemma ExactQuotientReal(q: int, b: int)
    requires b != 0
    ensures TruncDiv(q * b, b) as real == (q * b) as real / b as real
  {
    TruncDivLaws(0, b, q);
    CastProduct(q, b);
    Reals.MulDivCancel(q as real, b as real);
  }

  // Component-wise arithmetic on vectors of the same dimension.

  function Add(a: IVec, b: IVec): IVec
    requires |a| == |b|
  {
    seq(|a|, i requires 0 <= i < |a| => a[i] + b[i])
  }

  function Sub(a: IVec, b: IVec): IVec
    requires |a| == |b|
  {
    seq(|a|, i requires 0 <= i < |a| => a[i] - b[i])
  }

  function Mul(a: IVec, b: IVec): IVec
    requires |a| == |b|
  {
    seq(|a|, i requires 0 <= i < |a| => a[i] * b[i])
  }

  /** No component of `b` is zero, so `a / b` is defined. */
  predicate NonzeroComponents(b: IVec) {
    forall i :: 0 <= i < |b| ==> b[i] != 0
  }

  /** Component-wise truncating quotient. */
  function Div(a: IVec, b: IVec): IVec
    requires |a| == |b| && NonzeroComponents(b)
  {
    seq(|a|, i requires 0 <= i < |a| => TruncDiv(a[i], b[i]))
  }

  function Neg(a: IVec): IVec {
    seq(|a|, i requires 0 <= i < |a| => -a[i])
  }

  // Scalar forms: the scalar is applied to every component.

  function AddScalar(v: IVec, s: int): IVec {
    Add(v, Splat(|v|, s))
  }

  function SubScalar(v: IVec, s: int): IVec {
    Sub(v, Splat(|v|, s))
  }

  function MulScalar(v: IVec, s: int): IVec {
    seq(|v|, i requires 0 <= i < |v| => v[i] * s)
  }

  function DivScalar(v: IVec, s: int): IVec
    requires s != 0
  {
    seq(|v|, i requires 0 <= i < |v| => TruncDiv(v[i], s))
  }

  /** Every operator keeps the dimension and acts index by index. */
  lemma ComponentWise(a: IVec, b: IVec, s: int, i: int)
    requires |a| == |b| && 0 <= i < |a|
    ensures |Add(a, b)| == |Sub(a, b)| == |Mul(a, b)| == |Neg(a)| == |a|
    ensures |AddScalar(a, s)| == |SubScalar(a, s)| == |MulScalar(a, s)| == |a|
    ensures At(Add(a, b), i).value == At(a, i).value + At(b, i).value
    ensures At(Sub(a, b), i).value == At(a, i).value - At(b, i).value
    ensures At(Mul(a, b), i).value == At(a, i).value * At(b, i).value
    ensures At(Neg(a), i).value == -At(a, i).value
    ensures At(AddScalar(a, s), i).value == At(a, i).value + s
    ensures At(SubScalar(a, s), i).value == At(a, i).value - s
    ensures At(MulScalar(a, s), i).value == At(a, i).value * s
    ensures NonzeroComponents(b) ==> At(Div(a, b), i).value == TruncDiv(At(a, i).value, At(b, i).value)
    ensures s != 0 ==> At(DivScalar(a, s), i).value == TruncDiv(At(a, i).value, s)
  {
  }

  /** Each operation is undone by its counterpart; on integers division
      undoes multiplication because the product is an exact multiple. */
  lemma InverseOperations(a: IVec, b: IVec, s: int)
    requires |a| == |b|
    ensures Sub(Add(a, b), b) == a
    ensures Add(Sub(a, b), b) == a
    ensures SubScalar(AddScalar(a, s), s) == a
    ensures NonzeroComponents(b) ==> Div(Mul(a, b), b) == a
    ensures s != 0 ==> DivScalar(MulScalar(a, s), s) == a
    ensures Add(a, Neg(a)) == Zero(|a|)
  {
    if NonzeroComponents(b) {
      forall i | 0 <= i < |a|
        ensures Div(Mul(a, b), b)[i] == a[i]
      {
        TruncDivLaws(0, b[i], a[i]);
      }
    }
    if s != 0 {
      forall i | 0 <= i < |a|
        ensures DivScalar(MulScalar(a, s), s)[i] == a[i]
      {
        TruncDivLaws(0, s, a[i]);
      }
    }
  }

  /** Addition is associative and commutative, with the zero vector as
      neutral element. */
  lemma AdditionLaws(a: IVec, b: IVec, c: IVec)
    requires |a| == |b| == |c|
    ensures Add(Add(a, b), c) == Add(a, Add(b, c))
    ensures Add(a, b) == Add(b, a)
    ensures Add(a, Zero(|a|)) == a
  {
  }

  /** Scalar multiplication is compatible with the product of scalars and
      distributes over vector addition and over scalar addition. */
  lemma ScalarLaws(a: IVec, b: IVec, s: int, t: int)
    requires |a| == |b|
    ensures MulScalar(MulScalar(a, s), t) == MulScalar(a, s * t)
    ensures MulScalar(MulScalar(a, s), t) == MulScalar(MulScalar(a, t), s)
    ensures MulScalar(Add(a, b), s) == Add(MulScalar(a, s), MulScalar(b, s))
    ensures MulScalar(a, s + t) == Add(MulScalar(a, s), MulScalar(a, t))
  {
    forall i | 0 <= i < |a|
      ensures a[i] * s * t == a[i] * (s * t) == a[i] * t * s
    {
    }
    forall i | 0 <= i < |a|
      ensures (a[i] + b[i]) * s == a[i] * s + b[i] * s
      ensures a[i] * (s + t) == a[i] * s + a[i] * t
    {
    }
  }

  // The integers embedded in the real model: every operator but division
  // agrees with its exact real counterpart, and division agrees whenever it
  // is exact.

  /** Each component of `b` divides the corresponding component of `a`. */
  predicate DividesExactly(a: IVec, b: IVec)
    requires |a| == |b|
  {
    NonzeroComponents(b) && forall i :: 0 <= i < |a| ==> a[i] % b[i] == 0
  }

  function ToVec2(v: IVec): Vector2.Vec2
    requires |v| == 2
  {
    Vector2.Vec2(v[0] as real, v[1] as real)
  }

  function ToVec3(v: IVec): Vector3.Vec3
    requires |v| == 3
  {
    Vector3.Vec3(v[0] as real, v[1] as real, v[2] as real)
  }

  function ToVec4(v: IVec): Vector4.Vec4
    requires |v| == 4
  {
    Vector4.Vec4(v[0] as real, v[1] as real, v[2] as real, v[3] as real)
  }

  /** The componentwise real quotient of an exactly divisible pair. */
  lemma ExactQuotients(a: IVec, b: IVec)
    requires |a| == |b| && DividesExactly(a, b)
    ensures forall i :: 0 <= i < |a| ==> Div(a, b)[i] as real == a[i] as real / b[i] as real
  {
    forall i | 0 <= i < |a|
      ensures Div(a, b)[i] as real == a[i] as real / b[i] as real
    {
      TruncDivExactReal(a[i], b[i]);
    }
  }

  /** Casting to real commutes with products. */
  lemma CastProduct(x: int, y: int)
    ensures (x * y) as real == x as real * y as real
  {
  }

  lemma EmbedVec2(a: IVec, b: IVec, s: int)
    requires |a| == |b| == 2
    ensures ToVec2(Add(a, b)) == Vector2.Add(ToVec2(a), ToVec2(b))
    ensures ToVec2(Sub(a, b)) == Vector2.Sub(ToVec2(a), ToVec2(b))
    ensures ToVec2(Neg(a)) == Vector2.Neg(ToVec2(a))
    ensures ToVec2(AddScalar(a, s)) == Vector2.AddScalar(ToVec2(a), s as real)
    ensures ToVec2(SubScalar(a, s)) == Vector2.SubScalar(ToVec2(a), s as real)
  {
  }

  lemma EmbedVec2Products(a: IVec, b: IVec, s: int)
    requires |a| == |b| == 2
    ensures ToVec2(Mul(a, b)) == Vector2.Mul(ToVec2(a), ToVec2(b))
    ensures ToVec2(MulScalar(a, s)) == Vector2.MulScalar(ToVec2(a), s as real)
    ensures DividesExactly(a, b) ==> ToVec2(Div(a, b)) == Vector2.Div(ToVec2(a), ToVec2(b))
  {
    CastProduct(a[0], b[0]);
    CastProduct(a[0], s);
    CastProduct(a[1], b[1]);
    CastProduct(a[1], s);
    if DividesExactly(a, b) {
      ExactQuotients(a, b);
    }
  }


  lemma EmbedVec3(a: IVec, b: IVec, s: int)
    requires |a| == |b| == 3
    ensures ToVec3(Add(a, b)) == Vector3.Add(ToVec3(a), ToVec3(b))
    ensures ToVec3(Sub(a, b)) == Vector3.Sub(ToVec3(a), ToVec3(b))
    ensures ToVec3(Neg(a)) == Vector3.Neg(ToVec3(a))
    ensures ToVec3(AddScalar(a, s)) == Vector3.AddScalar(ToVec3(a), s as real)
    ensures ToVec3(SubScalar(a, s)) == Vector3.SubScalar(ToVec3(a), s as real)
  {
  }

  lemma EmbedVec3Products(a: IVec, b: IVec, s: int)
    requires |a| == |b| == 3
    ensures ToVec3(Mul(a, b)) == Vector3.Mul(ToVec3(a), ToVec3(b))
    ensures ToVec3(MulScalar(a, s)) == Vector3.MulScalar(ToVec3(a), s as real)
    ensures DividesExactly(a, b) ==> ToVec3(Div(a, b)) == Vector3.Div(ToVec3(a), ToVec3(b))
  {
    CastProduct(a[0], b[0]);
    CastProduct(a[0], s);
    CastProduct(a[1], b[1]);
    CastProduct(a[1], s);
    CastProduct(a[2], b[2]);
    CastProduct(a[2], s);
    if DividesExactly(a, b) {
      ExactQuotients(a, b);
    }
  }


  lemma EmbedVec4(a: IVec, b: IVec, s: int)
    requires |a| == |b| == 4
    ensures ToVec4(Add(a, b)) == Vector4.Add(ToVec4(a), ToVec4(b))
    ensures ToVec4(Sub(a, b)) == Vector4.Sub(ToVec4(a), ToVec4(b))
    ensures ToVec4(Neg(a)) == Vector4.Neg(ToVec4(a))
    ensures ToVec4(AddScalar(a, s)) == Vector4.AddScalar(ToVec4(a), s as real)
    ensures ToVec4(SubScalar(a, s)) == Vector4.SubScalar(ToVec4(a), s as real)
  {
  }

  lemma EmbedVec4Products(a: IVec, b: IVec, s: int)
    requires |a| == |b| == 4
    ensures ToVec4(Mul(a, b)) == Vector4.Mul(ToVec4(a), ToVec4(b))
    ensures ToVec4(MulScalar(a, s)) == Vector4.MulScalar(ToVec4(a), s as real)
    ensures DividesExactly(a, b) ==> ToVec4(Div(a, b)) == Vector4.Div(ToVec4(a), ToVec4(b))
  {
    CastProduct(a[0], b[0]);
    CastProduct(a[0], s);
    CastProduct(a[1], b[1]);
    CastProduct(a[1], s);
    CastProduct(a[2], b[2]);
    CastProduct(a[2], s);
    CastProduct(a[3], b[3]);
    CastProduct(a[3], s);
    if DividesExactly(a, b) {
      ExactQuotients(a, b);
    }
  }


  /** Inexact division is where the embedding breaks: (7, −7) / 2 is (3, −3)
      on integers and (3.5, −3.5) on reals. */
  lemma InexactDivisionDiffers()
    ensures DivScalar([7, -7], 2) == [3, -3]
    ensures ToVec2(DivScalar([7, -7], 2)) != Vector2.DivScalar(ToVec2([7, -7]), 2.0)
  {
    assert DivScalar([7, -7], 2)[1] == TruncDiv(-7, 2);
  }

  // Examples from the library's test suite, with `int` as the component type.

  /** The Vec2 constructors: default, splat, and two components; the Vec3
      and Vec4 ones zero-fill the components they are not given. */
  lemma ConstructionExamples()
    ensures Zero(2) == [0, 0] && Splat(2, 42) == [42, 42]
    ensures Widen([4, 2], 3) == [4, 2, 0] && Widen([4, 2, 0x42], 3) == [4, 2, 66]
    ensures Widen([4, 2], 4) == [4, 2, 0, 0] && Widen([4, 2, 0x42], 4) == [4, 2, 66, 0]
    ensures At([13, 37], 0) == Some(13) && At([13, 37], 1) == Some(37)
    ensures At([13, 37], -1) == None && At([13, 37], 2) == None
  {
  }

  /** The Vec2 operator sections, each a chain of assignments. */
  lemma Vec2OperatorExamples()
    ensures Add([2, 1], [2, 1]) == [4, 2]
    ensures AddScalar([4, 2], 42) == [46, 44] && Add([46, 44], [13, 37]) == [59, 81]
    ensures Sub([6, 3], [2, 1]) == [4, 2]
    ensures SubScalar([4, 2], 2) == [2, 0] && Sub([2, 0], [4, 2]) == [-2, -2]
    ensures MulScalar([2, 1], 2) == [4, 2] && Mul([2, 1], [2, 2]) == [4, 2]
    ensures MulScalar([4, 2], 2) == [8, 4] && Mul([8, 4], [2, 2]) == [16, 8]
    ensures DivScalar([8, 4], 2) == [4, 2] && Div([16, 8], [4, 2]) == [4, 4]
    ensures DivScalar([4, 4], 2) == [2, 2] && Div([2, 2], [2, 2]) == [1, 1]
  {
  }

  /** The Vec3 division section, where /= 2 and /= (2, 2, 1) stay exact. */
  lemma Vec3DivisionExamples()
    ensures DivScalar([8, 4, 6], 2) == [4, 2, 3]
    ensures Div([16, 8, 12], [4, 2, 2]) == [4, 4, 6]
    ensures DivScalar([4, 4, 6], 2) == [2, 2, 3]
    ensures Div([2, 2, 3], [2, 2, 1]) == [1, 1, 3]
  {
  }

  /** The "basic laws" cases: a = (4, 2), b = (2, 6), c = (4, 93) in two
      dimensions and a = (4, 2, 1), b = (2, 6, 8), c = (4, 93, −99) in three
      and four (w zero-filled). */
  lemma LawsExamples()
    ensures Add(Add([4, 2], [2, 6]), [4, 93]) == [10, 101]
    ensures Add(Add([4, 2, 1], [2, 6, 8]), [4, 93, -99]) == [10, 101, -90]
    ensures Add(Add(Widen([4, 2, 1], 4), Widen([2, 6, 8], 4)), Widen([4, 93, -99], 4)) == Widen([10, 101, -90], 4)
    ensures MulScalar(MulScalar([4, 2], 2), 3) == MulScalar(MulScalar([4, 2], 3), 2)
    ensures MulScalar(Add([4, 2], [2, 6]), 6) == Add(MulScalar([4, 2], 6), MulScalar([2, 6], 6))
    ensures MulScalar([4, 2], 6) == Add(MulScalar([4, 2], 2), MulScalar([4, 2], 4))
  {
    AdditionLaws([4, 2], [2, 6], [4, 93]);
    ScalarLaws([4, 2], [2, 6], 2, 3);
    ScalarLaws([4, 2], [2, 6], 6, 0);
    ScalarLaws([4, 2], [2, 6], 2, 4);
  }
}
