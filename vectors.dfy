/**
 * Vector algebra and rays (src/vect.h).
 *
 * Coordinates are `real`: sums, products and quotients are exact, and no
 * claim is made about IEEE rounding. The square root is not computable in
 * Dafny, so every member that takes a magnitude receives the platform's
 * square root as a parameter `sqrt`; `SqrtLaw` is what the lemmas assume of it.
 */
module Vectors {
  import opened Wrappers

  /** The contract of the platform square root on non-negative arguments. */
  ghost predicate SqrtLaw(sqrt: real -> real) {
    forall x: real :: 0.0 <= x ==> 0.0 <= sqrt(x) && sqrt(x) * sqrt(x) == x
  }

  /** A non-negative square is the square of exactly one non-negative number. */
  lemma SqrtUnique(sqrt: real -> real, x: real, r: real)
    requires SqrtLaw(sqrt)
    requires 0.0 <= r && r * r == x
    ensures sqrt(x) == r
  {
    var s := sqrt(x);
    DifferenceOfSquares(s, r);
    if s + r != 0.0 {
      ProductZero(s - r, s + r, (s - r) * (s + r));
    }
  }

  // Small facts of real arithmetic. Each is stated over distinct variables:
  // the solver handles a product a * b far better than a square a * a.

  lemma DifferenceOfSquares(a: real, b: real)
    ensures (a - b) * (a + b) == a * a - b * b
  {
  }

  lemma ProductZero(a: real, b: real, p: real)
    requires p == a * b && p == 0.0 && b != 0.0
    ensures a == 0.0
  {
    assert a == p / b;
  }

  lemma SquareZero(a: real, s: real)
    requires s == a * a && s == 0.0
    ensures a == 0.0
  {
    if a != 0.0 {
      ProductZero(a, a, s);
    }
  }

  lemma ZeroProduct(a: real, b: real)
    requires a == 0.0
    ensures a * b == 0.0
  {
  }

  lemma SquareNonNegative(a: real)
    ensures 0.0 <= a * a
  {
  }

  datatype Vect = Vect(x: real, y: real, z: real) {

    function Dot(v: Vect): real {
      x * v.x + y * v.y + z * v.z
    }

    /** The cross product; `CrossOrthogonal` states what it is for. */
    function Cross(v: Vect): Vect {
      Vect(y * v.z - z * v.y, z * v.x - x * v.z, x * v.y - y * v.x)
    }

    /** The additive inverse. */
    function Negative(): (r: Vect)
      ensures Add(r) == Zero
    {
      Vect(-x, -y, -z)
    }

    /** Scaling by `s`; `MultDot` states what it does to dot products. */
    function Mult(s: real): Vect {
      Vect(x * s, y * s, z * s)
    }

    /** Componentwise sum; `AddDot` states what it does to dot products. */
    function Add(v: Vect): Vect {
      Vect(x + v.x, y + v.y, z + v.z)
    }

    /** Componentwise difference, written out at each use in the source. */
    function Sub(v: Vect): (r: Vect)
      ensures r.Add(v) == this
    {
      Vect(x - v.x, y - v.y, z - v.z)
    }

    function Magnitude(sqrt: real -> real): (m: real)
      ensures SqrtLaw(sqrt) ==> 0.0 <= m && m * m == Dot(this)
    {
      DotSelfNonNegative(this);
      sqrt(x * x + y * y + z * z)
    }

    /** Divides each coordinate by the magnitude; the source leaves a zero magnitude undefined. */
    function Normalize(sqrt: real -> real): (n: Vect)
      requires Magnitude(sqrt) != 0.0
      ensures SqrtLaw(sqrt) ==> n.Dot(n) == 1.0
    {
      var m := Magnitude(sqrt);
      QuotientUnit(this, m);
      Vect(x / m, y / m, z / m)
    }
  }

  const Zero := Vect(0.0, 0.0, 0.0)

  /** Dividing by a number whose square is v.v gives a unit vector. */
  lemma QuotientUnit(v: Vect, m: real)
    requires m != 0.0
    ensures m * m == v.Dot(v) ==> Vect(v.x / m, v.y / m, v.z / m).Dot(Vect(v.x / m, v.y / m, v.z / m)) == 1.0
  {
    var n := Vect(v.x / m, v.y / m, v.z / m);
    QuotientSquare(v.x, m);
    QuotientSquare(v.y, m);
    QuotientSquare(v.z, m);
    var S := n.Dot(n);
    assert S * (m * m) == v.Dot(v);
    if m * m == v.Dot(v) {
      if m * m == 0.0 {
        SquareZero(m, m * m);
      }
      ProductZero(S - 1.0, m * m, (S - 1.0) * (m * m));
    }
  }

  lemma QuotientSquare(a: real, m: real)
    requires m != 0.0
    ensures (a / m) * (a / m) * (m * m) == a * a
  {
    var q := a / m;
    assert q * m == a;
    calc {
      q * q * (m * m);
      (q * m) * (q * m);
      a * a;
    }
  }

  lemma DotSelfNonNegative(v: Vect)
    ensures 0.0 <= v.Dot(v)
    ensures v.Dot(v) == 0.0 <==> v == Zero
  {
    SquareNonNegative(v.x);
    SquareNonNegative(v.y);
    SquareNonNegative(v.z);
    if v.Dot(v) == 0.0 {
      SquareZero(v.x, v.x * v.x);
      SquareZero(v.y, v.y * v.y);
      SquareZero(v.z, v.z * v.z);
    }
  }

  /**
   * Normalisation where the model must say what happens at a zero
   * magnitude: `None` marks the division by zero the source performs
   * there (its result would be NaN).
   */
  function TryNormalize(v: Vect, sqrt: real -> real): (r: Option<Vect>)
    ensures r.None? <==> v.Magnitude(sqrt) == 0.0
    ensures SqrtLaw(sqrt) ==> (r.None? <==> v == Zero)
    ensures SqrtLaw(sqrt) && r.Some? ==> r.value.Dot(r.value) == 1.0
  {
    MagnitudeZero(v, sqrt);
    if v.Magnitude(sqrt) == 0.0 then None
    else
      DotSelfNonNegative(v);
      Some(v.Normalize(sqrt))
  }

  lemma MagnitudeZero(v: Vect, sqrt: real -> real)
    ensures SqrtLaw(sqrt) ==> (v.Magnitude(sqrt) == 0.0 <==> v == Zero)
  {
    if SqrtLaw(sqrt) {
      DotSelfNonNegative(v);
      SqrtZero(sqrt, v.Dot(v));
    }
  }

  /** The root of a non-negative number is zero exactly when the number is. */
  lemma SqrtZero(sqrt: real -> real, d: real)
    requires SqrtLaw(sqrt) && 0.0 <= d
    ensures sqrt(d) == 0.0 <==> d == 0.0
  {
    var m := sqrt(d);
    assert m * m == d;
    if m == 0.0 {
      ZeroProduct(m, m);
    }
    if d == 0.0 {
      SqrtUnique(sqrt, d, 0.0);
    }
  }
  datatype Ray = Ray(origin: Vect, direction: Vect) {
    /** origin + t * direction */
    function PointAt(t: real): Vect {
      origin.Add(direction.Mult(t))
    }
  }

  /** The default-constructed ray of the source. */
  const DefaultRay := Ray(Zero, Vect(1.0, 0.0, 0.0))

  lemma DotSymmetric(a: Vect, b: Vect)
    ensures a.Dot(b) == b.Dot(a)
  {
  }

  /** The cross product is orthogonal to both of its operands. */
  lemma CrossOrthogonal(a: Vect, b: Vect)
    ensures a.Dot(a.Cross(b)) == 0.0 && b.Dot(a.Cross(b)) == 0.0
  {
  }

  lemma CrossAntiCommutative(a: Vect, b: Vect)
    ensures a.Cross(b) == b.Cross(a).Negative()
    ensures a.Cross(a) == Zero
  {
  }

  lemma NegativeInvolution(v: Vect)
    ensures v.Negative().Negative() == v
  {
  }

  lemma AddCommutative(a: Vect, b: Vect)
    ensures a.Add(b) == b.Add(a)
  {
  }

  /** Dot product distributes over the sum. */
  lemma AddDot(a: Vect, b: Vect, w: Vect)
    ensures a.Add(b).Dot(w) == a.Dot(w) + b.Dot(w)
  {
  }

  /** Scaling a vector scales its dot products. */
  lemma MultDot(s: real, a: Vect, b: Vect)
    ensures a.Mult(s).Dot(b) == s * a.Dot(b)
  {
  }

  /** For a non-zero vector, normalize(v) is v scaled by 1 / |v|, and has magnitude 1. */
  lemma NormalizeScales(v: Vect, sqrt: real -> real)
    requires SqrtLaw(sqrt) && v != Zero
    ensures v.Magnitude(sqrt) > 0.0
    ensures v.Normalize(sqrt) == v.Mult(1.0 / v.Magnitude(sqrt))
    ensures v.Normalize(sqrt).Magnitude(sqrt) == 1.0
  {
    DotSelfNonNegative(v);
    var n := v.Normalize(sqrt);
    SqrtUnique(sqrt, n.Dot(n), 1.0);
  }
}
