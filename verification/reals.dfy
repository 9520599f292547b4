/** Facts about squares of reals, stated once and used by every squared
    magnitude in the model (vectors and quaternions alike). */
module Reals {

  /** The square of a component. */
  function Sq(x: real): real {
    x * x
  }

  lemma SqNonneg(x: real)
    ensures Sq(x) >= 0.0
  {
  }

  /** Dividing by a nonzero factor undoes multiplying by it. */
  lemma MulDivCancel(y: real, x: real)
    requires x != 0.0
    ensures (y * x) / x == y
  {
  }

  lemma SqNonzero(x: real)
    requires x != 0.0
    ensures Sq(x) != 0.0
  {
    MulDivCancel(x, x);
  }

  lemma SqPos(x: real)
    requires x != 0.0
    ensures Sq(x) > 0.0
  {
    SqNonneg(x);
    SqNonzero(x);
  }

  /** A square vanishes exactly when its root does. */
  lemma SqZero(x: real)
    ensures Sq(x) == 0.0 <==> x == 0.0
  {
    if x != 0.0 {
      SqNonzero(x);
    }
  }

  /** Dividing by a nonzero s is multiplying by its reciprocal. */
  lemma DivIsMulReciprocal(x: real, s: real)
    requires s != 0.0
    ensures x / s == x * (1.0 / s)
  {
  }

  /** A nonzero number times its reciprocal is one. */
  lemma MulReciprocal(s: real)
    requires s != 0.0
    ensures s * (1.0 / s) == 1.0
  {
  }

  /** A product of nonzero factors is nonzero. */
  lemma NonzeroProduct(x: real, y: real)
    requires x != 0.0 && y != 0.0
    ensures x * y != 0.0
  {
    MulDivCancel(x, y);
  }

  /** Multiplying by a nonzero factor undoes dividing by it. */
  lemma DivMulCancel(y: real, x: real)
    requires x != 0.0
    ensures (y / x) * x == y
  {
  }
}
