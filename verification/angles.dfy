/** Angles tagged with their unit (`Degs<T>` and `Rads<T>`). Arithmetic
    keeps the unit; changing the unit is an explicit conversion through
    π, which is a parameter here (any positive real) since the model has
    no transcendental constants. */
module Angles {
  import Reals

  datatype Unit = Degrees | Radians

  datatype Angle = Angle(unit: Unit, value: real)

  /** `Rads<T>(x)`. */
  function Rads(x: real): Angle {
    Angle(Radians, x)
  }

  /** `Degs<T>(x)`. */
  function Degs(x: real): Angle {
    Angle(Degrees, x)
  }

  /** `radToDeg(r)`: r · 180 / π. */
  function RadToDeg(r: real, pi: real): real
    requires pi > 0.0
  {
    r * 180.0 / pi
  }

  /** `degToRad(d)`: d · π / 180. */
  function DegToRad(d: real, pi: real): real
    requires pi > 0.0
  {
    d * pi / 180.0
  }

  /** The two conversions are inverse to each other, are linear, and map
      π/4 to 45 degrees and π to 180 degrees. */
  lemma ConversionSpec(x: real, y: real, k: real, pi: real)
    requires pi > 0.0
    ensures DegToRad(RadToDeg(x, pi), pi) == x
    ensures RadToDeg(DegToRad(x, pi), pi) == x
    ensures RadToDeg(x + y, pi) == RadToDeg(x, pi) + RadToDeg(y, pi)
    ensures RadToDeg(x * k, pi) == RadToDeg(x, pi) * k
    ensures RadToDeg(pi / 4.0, pi) == 45.0 && RadToDeg(pi, pi) == 180.0
    ensures DegToRad(45.0, pi) == pi / 4.0
  {
    var d := x * 180.0 / pi;
    assert d * pi == x * 180.0 by {
      Reals.DivMulCancel(x * 180.0, pi);
    }
    assert (x * pi / 180.0) * 180.0 / pi == x by {
      Reals.MulDivCancel(x, pi);
    }
    assert RadToDeg(x * k, pi) == RadToDeg(x, pi) * k by {
      Reals.DivIsMulReciprocal(x * k * 180.0, pi);
      Reals.DivIsMulReciprocal(x * 180.0, pi);
    }
    assert RadToDeg(x + y, pi) == RadToDeg(x, pi) + RadToDeg(y, pi) by {
      Reals.DivIsMulReciprocal((x + y) * 180.0, pi);
      Reals.DivIsMulReciprocal(x * 180.0, pi);
      Reals.DivIsMulReciprocal(y * 180.0, pi);
    }
    assert RadToDeg(pi / 4.0, pi) == 45.0 by {
      Reals.MulDivCancel(45.0, pi);
    }
    Reals.MulDivCancel(180.0, pi);
  }

  /** Assigning an angle to a variable of the other unit: converted when
      the units differ, unchanged otherwise. */
  function Convert(a: Angle, to: Unit, pi: real): Angle
    requires pi > 0.0
  {
    if a.unit == to then a
    else if to == Radians then Rads(DegToRad(a.value, pi))
    else Degs(RadToDeg(a.value, pi))
  }

  /** A conversion yields the requested unit and converting back restores
      the angle. */
  lemma ConvertSpec(a: Angle, to: Unit, pi: real)
    requires pi > 0.0
    ensures Convert(a, to, pi).unit == to
    ensures Convert(Convert(a, to, pi), a.unit, pi) == a
    ensures Convert(Degs(a.value), Radians, pi).value == DegToRad(a.value, pi)
    ensures Convert(Rads(a.value), Degrees, pi).value == RadToDeg(a.value, pi)
  {
    ConversionSpec(a.value, 0.0, 1.0, pi);
  }

  // Arithmetic: the unit is kept, only the value changes.

  /** `a * k` and `a *= k`. */
  function Scale(a: Angle, k: real): Angle {
    Angle(a.unit, a.value * k)
  }

  /** `a + k` and `a += k`, with k a number in a's own unit. */
  function Plus(a: Angle, k: real): Angle {
    Angle(a.unit, a.value + k)
  }

  /** Unary `-a`. */
  function Negate(a: Angle): Angle {
    Angle(a.unit, -a.value)
  }

  /** The operators keep the unit, undo each other, and commute with
      conversion: scaling or negating and then converting is converting and
      then scaling or negating. */
  lemma ArithmeticSpec(a: Angle, k: real, to: Unit, pi: real)
    requires pi > 0.0
    ensures Scale(a, k).unit == a.unit && Plus(a, k).unit == a.unit && Negate(a).unit == a.unit
    ensures Plus(Plus(a, k), -k) == a
    ensures k != 0.0 ==> Scale(Scale(a, k), 1.0 / k) == a
    ensures Negate(Negate(a)) == a && Negate(a) == Scale(a, -1.0)
    ensures Convert(Scale(a, k), to, pi) == Scale(Convert(a, to, pi), k)
    ensures Convert(Negate(a), to, pi) == Negate(Convert(a, to, pi))
  {
    if k != 0.0 {
      Reals.MulReciprocal(k);
      assert a.value * k * (1.0 / k) == a.value * (k * (1.0 / k));
    }
    ConversionSpec(a.value, 0.0, k, pi);
    ConversionSpec(a.value, 0.0, -1.0, pi);
    assert DegToRad(a.value * k, pi) == DegToRad(a.value, pi) * k;
    assert DegToRad(-a.value, pi) == -DegToRad(a.value, pi);
  }

  // Examples from the library's test suite.

  /** radToDeg(π/4) = 45 and back; Rads(π/4) holds π/4; Degs(45) assigned
      to a Rads holds degToRad(45), and assigned back holds radToDeg of
      that, which is 45 again. */
  lemma ConversionExamples(pi: real)
    requires pi > 0.0
    ensures RadToDeg(pi / 4.0, pi) == 45.0 && DegToRad(45.0, pi) == pi / 4.0
    ensures Rads(pi / 4.0).value == pi / 4.0
    ensures Convert(Degs(45.0), Radians, pi) == Rads(DegToRad(45.0, pi)) == Rads(pi / 4.0)
    ensures Convert(Rads(pi / 4.0), Degrees, pi) == Degs(RadToDeg(pi / 4.0, pi)) == Degs(45.0)
  {
    ConversionSpec(pi / 4.0, 0.0, 1.0, pi);
  }

  /** The Rads chain π/6 → π/3 → π/6 → π/3 → π/6 → −π/6. */
  lemma RadsOperatorExamples(pi: real)
    requires pi > 0.0
    ensures Scale(Rads(pi / 6.0), 2.0) == Rads(pi / 3.0)
    ensures Scale(Rads(pi / 3.0), 0.5) == Rads(pi / 6.0)
    ensures Plus(Rads(pi / 6.0), pi / 6.0) == Rads(pi / 3.0)
    ensures Plus(Rads(pi / 3.0), pi / -6.0) == Rads(pi / 6.0)
    ensures Negate(Rads(pi / 6.0)) == Rads(-pi / 6.0)
  {
  }

  /** The Degs chain 10 → 20 → 10 → 20 → 10 → −10. */
  lemma DegsOperatorExamples()
    ensures Scale(Degs(10.0), 2.0) == Degs(20.0)
    ensures Scale(Degs(20.0), 0.5) == Degs(10.0)
    ensures Plus(Degs(10.0), 10.0) == Degs(20.0)
    ensures Plus(Degs(20.0), -10.0) == Degs(10.0)
    ensures Negate(Degs(10.0)) == Degs(-10.0)
  {
  }
}
