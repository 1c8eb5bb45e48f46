/**
 * The scene primitives (objects.h): the base object's defaults, planes,
 * spheres and triangles, each with its intersection distance along a ray
 * and its surface normal.
 *
 * An intersection distance of -1 means "missed"; the resolver only ever
 * picks strictly positive distances.
 */
module Objects {
  import opened Wrappers
  import opened Vectors
  import opened Colors

  /** Grey (0.5, 0.5, 0.5) with tag 0: the colour of every default-constructed primitive. */
  const Gray := Color(0.5, 0.5, 0.5, 0.0)

  /**
   * The distance t at which a ray meets the plane { p | normal.p == distance * normal.normal },
   * computed as -b/a with a = direction.normal, as planes and triangles do.
   */
  function PlaneDistance(normal: Vect, distance: real, ray: Ray): (t: real)
    requires ray.direction.Dot(normal) != 0.0
    ensures normal.Dot(ray.PointAt(t)) == distance * normal.Dot(normal)
    ensures forall u: real {:trigger ray.PointAt(u)} ::
              normal.Dot(ray.PointAt(u)) == distance * normal.Dot(normal) ==> u == t
  {
    var a := ray.direction.Dot(normal);
    var b := normal.Dot(ray.origin.Add(normal.Mult(distance).Negative()));
    PlaneDistanceSolves(normal, distance, ray, a, b);
    -1.0 * b / a
  }

  lemma PlaneDistanceSolves(normal: Vect, distance: real, ray: Ray, a: real, b: real)
    requires a == ray.direction.Dot(normal) && a != 0.0
    requires b == normal.Dot(ray.origin.Add(normal.Mult(distance).Negative()))
    ensures normal.Dot(ray.PointAt(-1.0 * b / a)) == distance * normal.Dot(normal)
    ensures forall u: real {:trigger ray.PointAt(u)} ::
              normal.Dot(ray.PointAt(u)) == distance * normal.Dot(normal) ==> u == -1.0 * b / a
  {
    DotShifted(normal, ray.origin, distance);
    var target := distance * normal.Dot(normal);
    SolveLinear(normal.Dot(ray.origin), a, b, target, 0.0);
    DotPointAt(normal, ray, -1.0 * b / a);
    forall u: real | normal.Dot(ray.PointAt(u)) == target
      ensures u == -1.0 * b / a
    {
      DotPointAt(normal, ray, u);
      SolveLinear(normal.Dot(ray.origin), a, b, target, u);
    }
  }

  lemma DotShifted(n: Vect, o: Vect, d: real)
    ensures n.Dot(o.Add(n.Mult(d).Negative())) == n.Dot(o) - d * n.Dot(n)
  {
  }

  lemma DotPointAt(n: Vect, ray: Ray, u: real)
    ensures n.Dot(ray.PointAt(u)) == n.Dot(ray.origin) + u * ray.direction.Dot(n)
  {
  }

  /** k + u * a == target has the single solution u == -b / a, where b == k - target. */
  lemma SolveLinear(k: real, a: real, b: real, target: real, u: real)
    requires a != 0.0 && b == k - target
    ensures k + (-1.0 * b / a) * a == target
    ensures k + u * a == target ==> u == -1.0 * b / a
  {
    if k + u * a == target {
      assert u == (u * a) / a;
    }
  }

  datatype Plane = Plane(normal: Vect, distance: real, color: Color) {

    /**
     * -1 for a ray parallel to the plane; otherwise the unique t whose point
     * satisfies the plane equation (a negative t when the plane is behind).
     */
    function FindIntersection(ray: Ray): (t: real)
      ensures ray.direction.Dot(normal) == 0.0 ==> t == -1.0
      ensures ray.direction.Dot(normal) != 0.0 ==>
                normal.Dot(ray.PointAt(t)) == distance * normal.Dot(normal)
    {
      if ray.direction.Dot(normal) == 0.0 then -1.0
      else PlaneDistance(normal, distance, ray)
    }

    /** The plane's normal, whatever the point. */
    function NormalAt(point: Vect): (n: Vect)
      ensures n == normal
    {
      normal
    }
  }

  const DefaultPlane := Plane(Vect(1.0, 0.0, 0.0), 0.0, Gray)

  /** The amount subtracted from a sphere root, so a hit lies just in front of the surface. */
  const SphereOffset: real := 0.000001

  datatype Sphere = Sphere(center: Vect, radius: real, color: Color) {

    /** b of the quadratic u*u + b*u + c. */
    function LinearTerm(ray: Ray): (b: real)
      ensures b == 2.0 * ray.origin.Sub(center).Dot(ray.direction)
    {
      2.0 * (ray.origin.x - center.x) * ray.direction.x
      + 2.0 * (ray.origin.y - center.y) * ray.direction.y
      + 2.0 * (ray.origin.z - center.z) * ray.direction.z
    }

    /** c of the quadratic; negative exactly when the ray starts inside the sphere. */
    function ConstantTerm(ray: Ray): (c: real)
      ensures c == ray.origin.Sub(center).Dot(ray.origin.Sub(center)) - radius * radius
    {
      (ray.origin.x - center.x) * (ray.origin.x - center.x)
      + (ray.origin.y - center.y) * (ray.origin.y - center.y)
      + (ray.origin.z - center.z) * (ray.origin.z - center.z)
      - radius * radius
    }

    /** b*b - 4c; a ray that starts inside the sphere always has a positive one. */
    function Discriminant(ray: Ray): (d: real)
      ensures ConstantTerm(ray) < 0.0 ==> d > 0.0
    {
      SquareNonNegative(LinearTerm(ray));
      LinearTerm(ray) * LinearTerm(ray) - 4.0 * ConstantTerm(ray)
    }

    /** u is a root of the sphere's quadratic along the ray. */
    predicate IsRoot(ray: Ray, u: real) {
      Quadratic(LinearTerm(ray), ConstantTerm(ray), u) == 0.0
    }

    /**
     * -1 when the discriminant is not positive. Otherwise the smaller root
     * minus the offset if that is positive, else the larger root minus the
     * offset; so the result plus the offset is a root, no root beyond the
     * offset is nearer, and whenever some root lies beyond the offset the
     * result is a hit.
     */
    function FindIntersection(ray: Ray, sqrt: real -> real): (t: real)
      ensures Discriminant(ray) <= 0.0 ==> t == -1.0
      ensures SqrtLaw(sqrt) && Discriminant(ray) > 0.0 ==> IsRoot(ray, t + SphereOffset)
      ensures SqrtLaw(sqrt) && Discriminant(ray) > 0.0 ==>
                forall u: real {:trigger IsRoot(ray, u)} ::
                  IsRoot(ray, u) && u - SphereOffset > 0.0 ==> t + SphereOffset <= u
      ensures SqrtLaw(sqrt) && Discriminant(ray) > 0.0 &&
              (exists u: real {:trigger IsRoot(ray, u)} :: IsRoot(ray, u) && u > SphereOffset) ==>
                t > 0.0
    {
      var b := LinearTerm(ray);
      var c := ConstantTerm(ray);
      var discriminant := b * b - 4.0 * c;
      RootsOfQuadratic(sqrt, b, c);
      if discriminant > 0.0 then
        var root1 := ((-1.0 * b - sqrt(discriminant)) / 2.0) - SphereOffset;
        if root1 > 0.0 then root1
        else ((sqrt(discriminant) - b) / 2.0) - SphereOffset
      else -1.0
    }

    /** The unit vector from the centre to the point; `None` at the centre itself. */
    function NormalAt(point: Vect, sqrt: real -> real): (r: Option<Vect>)
      ensures SqrtLaw(sqrt) ==> (r.None? <==> point == center)
      ensures SqrtLaw(sqrt) && r.Some? ==> r.value.Dot(r.value) == 1.0
      ensures SqrtLaw(sqrt) && r.Some? ==> r.value.Dot(point.Sub(center)) > 0.0
    {
      OutwardNormal(point.Sub(center), sqrt);
      TryNormalize(point.Add(center.Negative()), sqrt)
    }
  }

  const DefaultSphere := Sphere(Zero, 1.0, Gray)

  /** For a unit direction, a root of the quadratic is a point on the sphere's surface. */
  lemma SphereRootOnSurface(s: Sphere, ray: Ray, u: real)
    requires ray.direction.Dot(ray.direction) == 1.0
    requires s.IsRoot(ray, u)
    ensures var w := ray.PointAt(u).Sub(s.center); w.Dot(w) == s.radius * s.radius
  {
    var e := ray.origin.Sub(s.center);
    var d := ray.direction;
    assert s.LinearTerm(ray) == 2.0 * e.Dot(d);
    assert s.ConstantTerm(ray) == e.Dot(e) - s.radius * s.radius;
    ExpandSquare(e, d, u);
    assert ray.PointAt(u).Sub(s.center) == e.Add(d.Mult(u));
  }

  lemma ExpandSquare(e: Vect, d: Vect, u: real)
    ensures e.Add(d.Mult(u)).Dot(e.Add(d.Mult(u))) == e.Dot(e) + 2.0 * u * e.Dot(d) + u * u * d.Dot(d)
  {
  }

  /**
   * A ray with a unit direction aimed at the centre from distance k, more
   * than radius + offset away, hits at k - radius - offset.
   */
  lemma SphereAimedAtCenter(s: Sphere, ray: Ray, k: real, sqrt: real -> real)
    requires SqrtLaw(sqrt)
    requires ray.direction.Dot(ray.direction) == 1.0
    requires ray.origin == s.center.Sub(ray.direction.Mult(k))
    requires 0.0 < s.radius && k - s.radius > SphereOffset
    ensures s.FindIntersection(ray, sqrt) == k - s.radius - SphereOffset
  {
    var d := ray.direction;
    var e := ray.origin.Sub(s.center);
    assert e == d.Mult(-k);
    MultDot(-k, d, d);
    assert e.Dot(d) == -k;
    ScaledSquare(d, -k);
    assert e.Dot(e) == k * k;
    var b := s.LinearTerm(ray);
    var c := s.ConstantTerm(ray);
    assert b == -2.0 * k;
    assert c == k * k - s.radius * s.radius;
    assert s.Discriminant(ray) == (2.0 * s.radius) * (2.0 * s.radius);
    SquareNonNegative(s.radius);
    SqrtUnique(sqrt, s.Discriminant(ray), 2.0 * s.radius);
    assert s.Discriminant(ray) == b * b - 4.0 * c;
    assert sqrt(b * b - 4.0 * c) == 2.0 * s.radius;
    assert ((-1.0 * b - sqrt(b * b - 4.0 * c)) / 2.0) - SphereOffset == k - s.radius - SphereOffset;
    DoubledSquarePositive(s.radius, s.Discriminant(ray));
    var root1 := ((-1.0 * b - sqrt(b * b - 4.0 * c)) / 2.0) - SphereOffset;
    assert root1 > 0.0;
    assert s.FindIntersection(ray, sqrt) == root1;
  }

  /**
   * A ray with a unit direction starting at the centre of a sphere larger
   * than the offset hits the far side, at radius - offset.
   */
  lemma SphereFromInside(s: Sphere, ray: Ray, sqrt: real -> real)
    requires SqrtLaw(sqrt)
    requires ray.direction.Dot(ray.direction) == 1.0
    requires ray.origin == s.center
    requires s.radius > SphereOffset
    ensures s.FindIntersection(ray, sqrt) == s.radius - SphereOffset
  {
    CentredLinear(s, ray);
    CentredConstant(s, ray);
    HitAtRadius(s, ray, sqrt);
  }

  /** From the centre, b = 0. */
  lemma CentredLinear(s: Sphere, ray: Ray)
    requires ray.origin == s.center
    ensures s.LinearTerm(ray) == 0.0
  {
  }

  /** From the centre, c = -radius^2. */
  lemma CentredConstant(s: Sphere, ray: Ray)
    requires ray.origin == s.center
    ensures s.ConstantTerm(ray) == -(s.radius * s.radius)
  {
  }

  /** With b = 0 and c = -radius^2 the positive root is the radius itself. */
  lemma HitAtRadius(s: Sphere, ray: Ray, sqrt: real -> real)
    requires SqrtLaw(sqrt)
    requires s.LinearTerm(ray) == 0.0 && s.ConstantTerm(ray) == -(s.radius * s.radius)
    requires s.radius > SphereOffset
    ensures s.FindIntersection(ray, sqrt) == s.radius - SphereOffset
  {
    SquarePositive(s.radius);
    assert s.IsRoot(ray, s.radius);
    var t := s.FindIntersection(ray, sqrt);
    assert t > 0.0 && s.IsRoot(ray, t + SphereOffset);
    PositiveSquareRoot(t + SphereOffset, s.radius);
  }

  lemma SquarePositive(r: real)
    requires 0.0 < r
    ensures 0.0 < r * r
  {
  }

  /** Two positive numbers with the same square are equal. */
  lemma PositiveSquareRoot(u: real, r: real)
    requires 0.0 < u && 0.0 < r && u * u + 0.0 * u + -(r * r) == 0.0
    ensures u == r
  {
    DifferenceOfSquares(u, r);
    ProductZero(u - r, u + r, (u - r) * (u + r));
  }

  lemma DoubledSquarePositive(r: real, d: real)
    requires 0.0 < r && d == (2.0 * r) * (2.0 * r)
    ensures 0.0 < d
  {
    var m := 2.0 * r;
    SquareNonNegative(m);
    if d == 0.0 {
      SquareZero(m, d);
    }
  }

  lemma ScaledSquare(d: Vect, k: real)
    ensures d.Mult(k).Dot(d.Mult(k)) == (k * k) * d.Dot(d)
  {
  }

  /** u * u + b * u + c */
  function Quadratic(b: real, c: real, u: real): real {
    u * u + b * u + c
  }

  /**
   * The two roots (-b - s)/2 <= (s - b)/2 of u*u + b*u + c, where s is the
   * root of a positive discriminant, are its only roots.
   */
  lemma RootsOfQuadratic(sqrt: real -> real, b: real, c: real)
    ensures SqrtLaw(sqrt) && b * b - 4.0 * c > 0.0 ==>
              var s := sqrt(b * b - 4.0 * c);
              QuadraticRoots(b, c, (-1.0 * b - s) / 2.0, (s - b) / 2.0)
  {
    if SqrtLaw(sqrt) && b * b - 4.0 * c > 0.0 {
      var s := sqrt(b * b - 4.0 * c);
      assert s * s == b * b - 4.0 * c;
      QuadraticFactors(b, c, s);
    }
  }

  /** near <= far are the roots of u*u + b*u + c, and there are no others. */
  ghost predicate QuadraticRoots(b: real, c: real, near: real, far: real) {
    near <= far &&
    Quadratic(b, c, near) == 0.0 &&
    Quadratic(b, c, far) == 0.0 &&
    forall u: real {:trigger Quadratic(b, c, u)} :: Quadratic(b, c, u) == 0.0 ==> u == near || u == far
  }

  lemma QuadraticFactors(b: real, c: real, s: real)
    requires s * s == b * b - 4.0 * c && 0.0 <= s
    ensures QuadraticRoots(b, c, (-1.0 * b - s) / 2.0, (s - b) / 2.0)
  {
    var near := (-1.0 * b - s) / 2.0;
    var far := (s - b) / 2.0;
    assert near + far == -b;
    assert near * far == c by {
      ProductOfRoots(b, s, near, far);
    }
    forall u: real
      ensures Quadratic(b, c, u) == (u - near) * (u - far)
    {
      Vieta(u, near, far);
    }
    forall u: real | Quadratic(b, c, u) == 0.0
      ensures u == near || u == far
    {
      if u != far {
        ProductZero(u - near, u - far, (u - near) * (u - far));
      }
    }
  }

  lemma ProductOfRoots(b: real, s: real, near: real, far: real)
    requires near == (-1.0 * b - s) / 2.0 && far == (s - b) / 2.0
    ensures near * far == (b * b - s * s) / 4.0
  {
  }

  lemma Vieta(u: real, near: real, far: real)
    ensures (u - near) * (u - far) == u * u - (near + far) * u + near * far
  {
  }

  /** A normalised non-zero vector has a positive dot product with the original. */
  lemma OutwardNormal(v: Vect, sqrt: real -> real)
    ensures SqrtLaw(sqrt) && TryNormalize(v, sqrt).Some? ==> TryNormalize(v, sqrt).value.Dot(v) > 0.0
  {
    if SqrtLaw(sqrt) && TryNormalize(v, sqrt).Some? {
      NormalizeDot(v, v, sqrt);
      DotSelfNonNegative(v);
      MagnitudeZero(v, sqrt);
    }
  }

  /** v.normalize() . w is v . w divided by |v|. */
  lemma NormalizeDot(v: Vect, w: Vect, sqrt: real -> real)
    ensures v.Magnitude(sqrt) != 0.0 ==> v.Normalize(sqrt).Dot(w) * v.Magnitude(sqrt) == v.Dot(w)
    ensures SqrtLaw(sqrt) && v.Magnitude(sqrt) != 0.0 && v == w ==>
              v.Normalize(sqrt).Dot(w) == v.Magnitude(sqrt)
  {
    if v.Magnitude(sqrt) == 0.0 {
      return;
    }
    NormalizeDotScaled(v, w, sqrt);
    if SqrtLaw(sqrt) && v == w {
      NormalizeDotSelf(v, sqrt);
    }
  }

  lemma NormalizeDotScaled(v: Vect, w: Vect, sqrt: real -> real)
    requires v.Magnitude(sqrt) != 0.0
    ensures v.Normalize(sqrt).Dot(w) * v.Magnitude(sqrt) == v.Dot(w)
  {
    var m := v.Magnitude(sqrt);
    assert v.Normalize(sqrt) == Vect(v.x / m, v.y / m, v.z / m);
    ScaledBackDot(v.x, v.y, v.z, w.x, w.y, w.z, m);
  }

  lemma NormalizeDotSelf(v: Vect, sqrt: real -> real)
    requires SqrtLaw(sqrt) && v.Magnitude(sqrt) != 0.0
    ensures v.Normalize(sqrt).Dot(v) == v.Magnitude(sqrt)
  {
    var m, k := v.Magnitude(sqrt), v.Normalize(sqrt).Dot(v);
    NormalizeDotScaled(v, v, sqrt);
    assert k * m == m * m;
    ProductZero(k - m, m, (k - m) * m);
  }

  /** Dividing a vector by m and taking a dot product, then multiplying back by m, gives the plain dot product. */
  lemma ScaledBackDot(vx: real, vy: real, vz: real, wx: real, wy: real, wz: real, m: real)
    requires m != 0.0
    ensures (vx / m * wx + vy / m * wy + vz / m * wz) * m == vx * wx + vy * wy + vz * wz
  {
    var a, b, c := vx / m, vy / m, vz / m;
    assert a * m == vx && b * m == vy && c * m == vz;
    assert (a * wx + b * wy + c * wz) * m == (a * m) * wx + (b * m) * wy + (c * m) * wz;
  }

  /**
   * A triangle with corners A, B and C. The corners and the colour never
   * change; `findIntersection` stores the unit normal and the plane's
   * distance from the origin in `normal` and `distance` as it goes.
   *
   * When the corners are collinear the source normalises a zero vector and
   * stores NaN; `None` stands for that NaN here.
   */
  class Triangle {
    const A: Vect
    const B: Vect
    const C: Vect
    const color: Color
    var normal: Option<Vect>
    var distance: Option<real>

    constructor (iA: Vect, iB: Vect, iC: Vect, iColor: Color)
      ensures A == iA && B == iB && C == iC && color == iColor
      ensures normal == Some(Zero) && distance == Some(0.0)
    {
      A, B, C, color := iA, iB, iC, iColor;
      normal, distance := Some(Zero), Some(0.0);
    }

    constructor Default()
      ensures A == Vect(1.0, 0.0, 0.0) && B == Vect(0.0, 1.0, 0.0) && C == Vect(0.0, 0.0, 1.0)
      ensures color == Gray
      ensures normal == Some(Zero) && distance == Some(0.0)
    {
      A, B, C, color := Vect(1.0, 0.0, 0.0), Vect(0.0, 1.0, 0.0), Vect(0.0, 0.0, 1.0), Gray;
      normal, distance := Some(Zero), Some(0.0);
    }

    /** (C - A) x (B - A): a normal of the triangle's plane, not yet of unit length. */
    function EdgeCross(): (r: Vect)
      ensures C.Sub(A).Dot(r) == 0.0 && B.Sub(A).Dot(r) == 0.0
    {
      C.Sub(A).Cross(B.Sub(A))
    }

    /** The corners are not collinear, so the normal can be normalised. */
    predicate NonDegenerate(sqrt: real -> real) {
      EdgeCross().Magnitude(sqrt) != 0.0
    }

    /**
     * The unit normal of getTriangleNormal: orthogonal to both edges from A,
     * and `None` (NaN) exactly for collinear corners.
     */
    function TriangleNormal(sqrt: real -> real): (r: Option<Vect>)
      ensures r.Some? <==> NonDegenerate(sqrt)
      ensures r.Some? ==> r.value.Dot(C.Sub(A)) == 0.0 && r.value.Dot(B.Sub(A)) == 0.0
      ensures SqrtLaw(sqrt) && r.Some? ==> r.value.Dot(r.value) == 1.0
    {
      if NonDegenerate(sqrt) then
        CrossOrthogonal(C.Sub(A), B.Sub(A));
        NormalizeOrthogonal(EdgeCross(), C.Sub(A), sqrt);
        NormalizeOrthogonal(EdgeCross(), B.Sub(A), sqrt);
        TryNormalize(EdgeCross(), sqrt)
      else TryNormalize(EdgeCross(), sqrt)
    }

    /**
     * The distance term of the triangle's plane, normal . A: all three
     * corners satisfy normal . p == distance.
     */
    function PlaneOffset(sqrt: real -> real): (d: Option<real>)
      ensures d.Some? <==> NonDegenerate(sqrt)
      ensures d.Some? ==> var n := TriangleNormal(sqrt).value;
                          n.Dot(A) == d.value && n.Dot(B) == d.value && n.Dot(C) == d.value
    {
      match TriangleNormal(sqrt)
      case None => None
      case Some(n) =>
        DotOffset(n, A, B);
        DotOffset(n, A, C);
        Some(n.Dot(A))
    }

    /** The cached fields hold this triangle's unit normal and plane distance, as findIntersection leaves them. */
    predicate Cached(sqrt: real -> real)
      reads this
    {
      normal == TriangleNormal(sqrt) && distance == PlaneOffset(sqrt)
    }

    /** getTriangleDistance: stores the normal, then returns normal . A. */
    method GetTriangleDistance(sqrt: real -> real) returns (d: Option<real>)
      modifies this`normal
      ensures normal == TriangleNormal(sqrt)
      ensures d == PlaneOffset(sqrt)
    {
      normal := TriangleNormal(sqrt);
      match normal
      case None => d := None;
      case Some(n) => d := Some(n.Dot(A));
    }

    /** The three edge tests of the source are all non-negative at q. */
    predicate Inside(q: Vect, n: Vect) {
      EdgeTest(C, A, q, n) >= 0.0 && EdgeTest(B, C, q, n) >= 0.0 && EdgeTest(A, B, q, n) >= 0.0
    }

    /**
     * What findIntersection returns: -1 for collinear corners (every
     * comparison with NaN fails) and for a ray parallel to the plane;
     * otherwise the distance to the plane when the hit point passes the
     * three edge tests, and -1 when it does not.
     */
    function Intersection(ray: Ray, sqrt: real -> real): (t: real)
      ensures !NonDegenerate(sqrt) ==> t == -1.0
      ensures NonDegenerate(sqrt) && ray.direction.Dot(TriangleNormal(sqrt).value) == 0.0 ==> t == -1.0
      ensures t != -1.0 ==>
                var n := TriangleNormal(sqrt).value;
                Inside(ray.PointAt(t), n) &&
                n.Dot(ray.PointAt(t)) == PlaneOffset(sqrt).value * n.Dot(n)
    {
      match TriangleNormal(sqrt)
      case None => -1.0
      case Some(n) =>
        if ray.direction.Dot(n) == 0.0 then -1.0
        else
          var distToPlane := PlaneDistance(n, PlaneOffset(sqrt).value, ray);
          var q := ray.direction.Mult(distToPlane).Add(ray.origin);
          assert q == ray.PointAt(distToPlane);
          if Inside(q, n) then distToPlane else -1.0
    }

    /**
     * findIntersection: refreshes `normal` and `distance`, then intersects
     * the ray with the plane and applies the three edge tests.
     */
    method FindIntersection(ray: Ray, sqrt: real -> real) returns (t: real)
      modifies this`normal, this`distance
      ensures normal == TriangleNormal(sqrt) && distance == PlaneOffset(sqrt)
      ensures t == Intersection(ray, sqrt)
    {
      var rayDir := ray.direction;
      var rayOrg := ray.origin;
      normal := TriangleNormal(sqrt);
      distance := GetTriangleDistance(sqrt);
      if normal.None? || distance.None? {
        return -1.0;
      }
      var n := normal.value;
      var a := rayDir.Dot(n);
      if a == 0.0 {
        return -1.0;
      }
      var b := n.Dot(rayOrg.Add(n.Mult(distance.value).Negative()));
      var distToPlane := -1.0 * b / a;
      var q := Vect(rayDir.Mult(distToPlane).x + rayOrg.x,
                    rayDir.Mult(distToPlane).y + rayOrg.y,
                    rayDir.Mult(distToPlane).z + rayOrg.z);
      var test1 := C.Sub(A).Cross(q.Sub(A)).Dot(n);
      var test2 := B.Sub(C).Cross(q.Sub(C)).Dot(n);
      var test3 := A.Sub(B).Cross(q.Sub(B)).Dot(n);
      if test1 >= 0.0 && test2 >= 0.0 && test3 >= 0.0 {
        t := distToPlane;
      } else {
        t := -1.0;
      }
    }
  }

  /**
   * The inside test is the barycentric one: a ray that meets the plane of a
   * proper triangle at A + beta (B - A) + gamma (C - A) is reported at that
   * distance exactly when beta >= 0, gamma >= 0 and beta + gamma <= 1, and
   * as a miss (-1) otherwise.
   */
  lemma TriangleHitIffInside(tri: Triangle, ray: Ray, sqrt: real -> real, u: real, beta: real, gamma: real)
    requires SqrtLaw(sqrt) && tri.NonDegenerate(sqrt)
    requires ray.direction.Dot(tri.TriangleNormal(sqrt).value) != 0.0
    requires ray.PointAt(u) == Barycentric(tri.A, tri.B, tri.C, beta, gamma)
    ensures tri.Intersection(ray, sqrt) == if beta >= 0.0 && gamma >= 0.0 && beta + gamma <= 1.0 then u else -1.0
  {
    var n := tri.TriangleNormal(sqrt).value;
    var d := tri.PlaneOffset(sqrt).value;
    var q := Barycentric(tri.A, tri.B, tri.C, beta, gamma);
    BarycentricOnPlane(tri.A, tri.B, tri.C, n, beta, gamma);
    assert n.Dot(ray.PointAt(u)) == d * n.Dot(n);
    var t := PlaneDistance(n, d, ray);
    assert t == u;
    EdgeTestsBarycentric(tri.A, tri.B, tri.C, n, beta, gamma);
    var k := tri.EdgeCross().Dot(n);
    EdgeCrossAlongNormal(tri, sqrt);
    SignOfProduct(beta, k);
    SignOfProduct(1.0 - beta - gamma, k);
    SignOfProduct(gamma, k);
    assert tri.Inside(q, n) <==> beta >= 0.0 && gamma >= 0.0 && beta + gamma <= 1.0;
  }

  /** Every barycentric combination of the corners lies on the triangle's plane. */
  lemma BarycentricOnPlane(a: Vect, b: Vect, c: Vect, n: Vect, beta: real, gamma: real)
    requires n.Dot(b.Sub(a)) == 0.0 && n.Dot(c.Sub(a)) == 0.0
    ensures n.Dot(Barycentric(a, b, c, beta, gamma)) == n.Dot(a)
  {
    PlaneCombination(n, a, b.Sub(a), c.Sub(a), beta, gamma);
  }

  /** Moving from a along directions orthogonal to n keeps the dot product with n. */
  lemma PlaneCombination(n: Vect, a: Vect, p: Vect, q: Vect, beta: real, gamma: real)
    requires n.Dot(p) == 0.0 && n.Dot(q) == 0.0
    ensures n.Dot(a.Add(p.Mult(beta)).Add(q.Mult(gamma))) == n.Dot(a)
  {
    var s, t := p.Mult(beta), q.Mult(gamma);
    MultDot(beta, p, n);
    MultDot(gamma, q, n);
    DotSymmetric(p, n);
    DotSymmetric(q, n);
    AddDot(a, s, n);
    AddDot(a.Add(s), t, n);
    DotSymmetric(a.Add(s).Add(t), n);
    DotSymmetric(a, n);
  }

  /** The unnormalised normal has a positive component along the unit normal: its length. */
  lemma EdgeCrossAlongNormal(tri: Triangle, sqrt: real -> real)
    requires SqrtLaw(sqrt) && tri.NonDegenerate(sqrt)
    ensures tri.EdgeCross().Dot(tri.TriangleNormal(sqrt).value) > 0.0
  {
    var v := tri.EdgeCross();
    NormalizeDot(v, v, sqrt);
    DotSymmetric(v, v.Normalize(sqrt));
  }

  lemma SignOfProduct(s: real, k: real)
    requires 0.0 < k
    ensures s * k >= 0.0 <==> s >= 0.0
  {
    if s < 0.0 {
      assert s * k < 0.0 * k;
    }
    if s >= 0.0 {
      assert s * k >= 0.0 * k;
    }
  }

  /** Normalising a vector keeps it orthogonal to whatever it was orthogonal to. */
  lemma NormalizeOrthogonal(v: Vect, w: Vect, sqrt: real -> real)
    requires v.Magnitude(sqrt) != 0.0
    requires w.Dot(v) == 0.0
    ensures v.Normalize(sqrt).Dot(w) == 0.0
  {
    NormalizeDot(v, w, sqrt);
    DotSymmetric(v, w);
    var m := v.Magnitude(sqrt);
    var p := v.Normalize(sqrt).Dot(w);
    ProductZero(p, m, p * m);
  }

  /** n . q == n . p + n . (q - p) */
  lemma DotOffset(n: Vect, p: Vect, q: Vect)
    ensures n.Dot(q) == n.Dot(p) + n.Dot(q.Sub(p))
  {
  }

  /** The edge test of the source: ((p - v) x (q - v)) . n, non-negative when q is on the inner side of edge v -> p. */
  function EdgeTest(p: Vect, v: Vect, q: Vect, n: Vect): (r: real)
    ensures q == v || q == p ==> r == 0.0
  {
    p.Sub(v).Cross(q.Sub(v)).Dot(n)
  }

  /** a + beta (b - a) + gamma (c - a) */
  function Barycentric(a: Vect, b: Vect, c: Vect, beta: real, gamma: real): Vect {
    a.Add(b.Sub(a).Mult(beta)).Add(c.Sub(a).Mult(gamma))
  }

  /**
   * For a point of the triangle's plane in barycentric form, the three edge
   * tests are beta, 1 - beta - gamma and gamma times the same factor
   * ((c - a) x (b - a)) . n.
   */
  lemma EdgeTestsBarycentric(a: Vect, b: Vect, c: Vect, n: Vect, beta: real, gamma: real)
    ensures var q := Barycentric(a, b, c, beta, gamma);
            var k := c.Sub(a).Cross(b.Sub(a)).Dot(n);
            EdgeTest(c, a, q, n) == beta * k &&
            EdgeTest(b, c, q, n) == (1.0 - beta - gamma) * k &&
            EdgeTest(a, b, q, n) == gamma * k
  {
    EdgeCA(a, b, c, n, beta, gamma);
    EdgeBC(a, b, c, n, beta, gamma);
    EdgeAB(a, b, c, n, beta, gamma);
  }

  /** s u + t v */
  function Comb(u: Vect, v: Vect, s: real, t: real): Vect {
    u.Mult(s).Add(v.Mult(t))
  }

  lemma EdgeCA(a: Vect, b: Vect, c: Vect, n: Vect, beta: real, gamma: real)
    ensures EdgeTest(c, a, Barycentric(a, b, c, beta, gamma), n) == beta * c.Sub(a).Cross(b.Sub(a)).Dot(n)
  {
    var u, v := b.Sub(a), c.Sub(a);
    var w := Barycentric(a, b, c, beta, gamma).Sub(a);
    OffsetA(a, b, c, beta, gamma);
    assert v == Comb(u, v, 0.0, 1.0);
    CrossOfCombinations(u, v, v, w, n, 0.0, 1.0, beta, gamma, beta);
  }

  lemma EdgeBC(a: Vect, b: Vect, c: Vect, n: Vect, beta: real, gamma: real)
    ensures EdgeTest(b, c, Barycentric(a, b, c, beta, gamma), n) == (1.0 - beta - gamma) * c.Sub(a).Cross(b.Sub(a)).Dot(n)
  {
    var u, v := b.Sub(a), c.Sub(a);
    var p := b.Sub(c);
    var w := Barycentric(a, b, c, beta, gamma).Sub(c);
    OffsetC(a, b, c, beta, gamma);
    assert p == Comb(u, v, 1.0, -1.0);
    CrossOfCombinations(u, v, p, w, n, 1.0, -1.0, beta, gamma - 1.0, 1.0 - beta - gamma);
  }

  lemma EdgeAB(a: Vect, b: Vect, c: Vect, n: Vect, beta: real, gamma: real)
    ensures EdgeTest(a, b, Barycentric(a, b, c, beta, gamma), n) == gamma * c.Sub(a).Cross(b.Sub(a)).Dot(n)
  {
    var u, v := b.Sub(a), c.Sub(a);
    var p := a.Sub(b);
    var w := Barycentric(a, b, c, beta, gamma).Sub(b);
    OffsetB(a, b, c, beta, gamma);
    assert p == Comb(u, v, -1.0, 0.0);
    CrossOfCombinations(u, v, p, w, n, -1.0, 0.0, beta - 1.0, gamma, gamma);
  }

  /** The barycentric point seen from each corner, as a combination of b - a and c - a. */
  lemma OffsetA(a: Vect, b: Vect, c: Vect, beta: real, gamma: real)
    ensures Barycentric(a, b, c, beta, gamma).Sub(a) == Comb(b.Sub(a), c.Sub(a), beta, gamma)
  {
    Offset(a.x, b.x, c.x, beta, gamma, 0.0, 0.0);
    Offset(a.y, b.y, c.y, beta, gamma, 0.0, 0.0);
    Offset(a.z, b.z, c.z, beta, gamma, 0.0, 0.0);
  }

  lemma OffsetC(a: Vect, b: Vect, c: Vect, beta: real, gamma: real)
    ensures Barycentric(a, b, c, beta, gamma).Sub(c) == Comb(b.Sub(a), c.Sub(a), beta, gamma - 1.0)
  {
    Offset(a.x, b.x, c.x, beta, gamma, 0.0, 1.0);
    Offset(a.y, b.y, c.y, beta, gamma, 0.0, 1.0);
    Offset(a.z, b.z, c.z, beta, gamma, 0.0, 1.0);
  }

  lemma OffsetB(a: Vect, b: Vect, c: Vect, beta: real, gamma: real)
    ensures Barycentric(a, b, c, beta, gamma).Sub(b) == Comb(b.Sub(a), c.Sub(a), beta - 1.0, gamma)
  {
    Offset(a.x, b.x, c.x, beta, gamma, 1.0, 0.0);
    Offset(a.y, b.y, c.y, beta, gamma, 1.0, 0.0);
    Offset(a.z, b.z, c.z, beta, gamma, 1.0, 0.0);
  }

  /**
   * One coordinate of the barycentric point q = a + beta (b - a) + gamma (c - a)
   * seen from the corner a + i (b - a) + j (c - a): a combination of b - a and c - a.
   */
  lemma Offset(a: real, b: real, c: real, beta: real, gamma: real, i: real, j: real)
    ensures var u, v := b - a, c - a;
            (a + u * beta + v * gamma) - (a + u * i + v * j) == u * (beta - i) + v * (gamma - j)
  {
  }

  /**
   * The cross product of two combinations of u and v is a multiple of
   * v x u: (a1 u + a2 v) x (b1 u + b2 v) == (a2 b1 - a1 b2) (v x u). Every
   * edge test of a barycentric point is one such product. The proof goes
   * one coordinate at a time, so that the solver meets each product of
   * coordinates as a single term.
   */
  lemma CrossOfCombinations(u: Vect, v: Vect, p: Vect, w: Vect, n: Vect,
                            a1: real, a2: real, b1: real, b2: real, d: real)
    requires p == Comb(u, v, a1, a2) && w == Comb(u, v, b1, b2)
    requires d == a2 * b1 - a1 * b2
    ensures p.Cross(w).Dot(n) == d * v.Cross(u).Dot(n)
  {
    CombinationX(u, v, p, w, a1, a2, b1, b2, d);
    CombinationY(u, v, p, w, a1, a2, b1, b2, d);
    CombinationZ(u, v, p, w, a1, a2, b1, b2, d);
    DotScaled(p.Cross(w), v.Cross(u), n, d);
  }

  lemma CombinationX(u: Vect, v: Vect, p: Vect, w: Vect, a1: real, a2: real, b1: real, b2: real, d: real)
    requires p.y == a1 * u.y + a2 * v.y && p.z == a1 * u.z + a2 * v.z
    requires w.y == b1 * u.y + b2 * v.y && w.z == b1 * u.z + b2 * v.z
    requires d == a2 * b1 - a1 * b2
    ensures p.Cross(w).x == v.Cross(u).x * d
  {
    CoordOfCombinations(u.y, u.z, v.y, v.z, p.y, p.z, w.y, w.z, a1, a2, b1, b2, d);
  }

  lemma CombinationY(u: Vect, v: Vect, p: Vect, w: Vect, a1: real, a2: real, b1: real, b2: real, d: real)
    requires p.z == a1 * u.z + a2 * v.z && p.x == a1 * u.x + a2 * v.x
    requires w.z == b1 * u.z + b2 * v.z && w.x == b1 * u.x + b2 * v.x
    requires d == a2 * b1 - a1 * b2
    ensures p.Cross(w).y == v.Cross(u).y * d
  {
    CoordOfCombinations(u.z, u.x, v.z, v.x, p.z, p.x, w.z, w.x, a1, a2, b1, b2, d);
  }

  lemma CombinationZ(u: Vect, v: Vect, p: Vect, w: Vect, a1: real, a2: real, b1: real, b2: real, d: real)
    requires p.x == a1 * u.x + a2 * v.x && p.y == a1 * u.y + a2 * v.y
    requires w.x == b1 * u.x + b2 * v.x && w.y == b1 * u.y + b2 * v.y
    requires d == a2 * b1 - a1 * b2
    ensures p.Cross(w).z == v.Cross(u).z * d
  {
    CoordOfCombinations(u.x, u.y, v.x, v.y, p.x, p.y, w.x, w.y, a1, a2, b1, b2, d);
  }

  /** One coordinate of `CrossOfCombinations`, on the coordinates themselves. */
  lemma CoordOfCombinations(uy: real, uz: real, vy: real, vz: real, py: real, pz: real, wy: real, wz: real,
                            a1: real, a2: real, b1: real, b2: real, d: real)
    requires py == a1 * uy + a2 * vy && pz == a1 * uz + a2 * vz
    requires wy == b1 * uy + b2 * vy && wz == b1 * uz + b2 * vz
    requires d == a2 * b1 - a1 * b2
    ensures py * wz - pz * wy == (vy * uz - vz * uy) * d
  {
  }

  /** Scaling every coordinate by k scales every dot product by k. */
  lemma DotScaled(r: Vect, c: Vect, n: Vect, k: real)
    requires r.x == c.x * k && r.y == c.y * k && r.z == c.z * k
    ensures r.Dot(n) == k * c.Dot(n)
  {
  }

  /**
   * A scene object: the base class's defaults or one of the three
   * primitives; the member functions dispatch as the virtual calls do.
   */
  datatype Object = Base | PlaneObject(plane: Plane) | SphereObject(sphere: Sphere) | TriangleObject(triangle: Triangle) {

    function GetColor(): (r: Color)
      ensures Base? ==> r == Color(0.0, 0.0, 0.0, 0.0)
    {
      match this
      case Base => Color(0.0, 0.0, 0.0, 0.0)
      case PlaneObject(p) => p.color
      case SphereObject(s) => s.color
      case TriangleObject(t) => t.color
    }

    /** The surface normal at a point; `None` where the source computes NaN. */
    function NormalAt(point: Vect, sqrt: real -> real): (r: Option<Vect>)
      ensures Base? ==> r == Some(Zero)
      ensures SqrtLaw(sqrt) && r.Some? && !Base? && !PlaneObject? ==> r.value.Dot(r.value) == 1.0
    {
      match this
      case Base => Some(Zero)
      case PlaneObject(p) => Some(p.NormalAt(point))
      case SphereObject(s) => s.NormalAt(point, sqrt)
      case TriangleObject(t) => t.TriangleNormal(sqrt)
    }

    /** The intersection distance findIntersection returns; the base object reports 0. */
    function Intersection(ray: Ray, sqrt: real -> real): (t: real)
      ensures Base? ==> t == 0.0
      ensures PlaneObject? && ray.direction.Dot(plane.normal) == 0.0 ==> t == -1.0
      ensures SphereObject? && sphere.Discriminant(ray) <= 0.0 ==> t == -1.0
      ensures TriangleObject? && !triangle.NonDegenerate(sqrt) ==> t == -1.0
    {
      match this
      case Base => 0.0
      case PlaneObject(p) => p.FindIntersection(ray)
      case SphereObject(s) => s.FindIntersection(ray, sqrt)
      case TriangleObject(t) => t.Intersection(ray, sqrt)
    }

    /** The objects whose fields findIntersection may write: a triangle's cached normal and distance. */
    function Footprint(): set<object> {
      if TriangleObject? then {triangle} else {}
    }

    method FindIntersection(ray: Ray, sqrt: real -> real) returns (t: real)
      modifies Footprint()
      ensures t == Intersection(ray, sqrt)
      ensures TriangleObject? ==>
                triangle.normal == triangle.TriangleNormal(sqrt) &&
                triangle.distance == triangle.PlaneOffset(sqrt)
    {
      match this
      case Base => t := 0.0;
      case PlaneObject(p) => t := p.FindIntersection(ray);
      case SphereObject(s) => t := s.FindIntersection(ray, sqrt);
      case TriangleObject(tri) => t := tri.FindIntersection(ray, sqrt);
    }
  }

  /** The base object's virtual functions: black with tag 0, the zero normal, and distance 0 for every ray. */
  lemma BaseDefaults(ray: Ray, point: Vect, sqrt: real -> real)
    ensures Base.GetColor() == Color(0.0, 0.0, 0.0, 0.0)
    ensures Base.NormalAt(point, sqrt) == Some(Zero)
    ensures Base.Intersection(ray, sqrt) == 0.0
  {
  }

  /** Planes and triangles are flat: their normal does not depend on the point asked about. */
  lemma FlatNormals(o: Object, p: Vect, q: Vect, sqrt: real -> real)
    requires o.PlaneObject? || o.TriangleObject?
    ensures o.NormalAt(p, sqrt) == o.NormalAt(q, sqrt)
  {
  }
}
