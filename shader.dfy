/**
 * The colour seen at an intersection (getColorAt in main.cpp): the
 * checkerboard floor, the ambient term, one level of reflection per unit
 * of fuel, diffuse and specular light from every unshadowed light, and a
 * final clip.
 *
 * A NaN in the source (normalising a zero vector) becomes `None`; every
 * `>` comparison against NaN is false, so each NaN path skips the term it
 * guards.
 */
module Shader {
  import opened Wrappers
  import opened Vectors
  import opened Colors
  import opened Sources
  import opened Objects
  import opened Resolver

  datatype Scene = Scene(objects: seq<Object>, lights: seq<Light>, accuracy: real, ambient: real)

  /** Where a ray met the winning object, the ray's direction, the surface colour and normal there. */
  datatype Hit = Hit(position: Vect, direction: Vect, color: Color, normal: Option<Vect>)

  /** The distances along a ray to every object, in list order. */
  function Intersections(objects: seq<Object>, ray: Ray, sqrt: real -> real): (ds: seq<real>)
    ensures |ds| == |objects|
    ensures forall i :: 0 <= i < |objects| ==> ds[i] == objects[i].Intersection(ray, sqrt)
  {
    seq(|objects|, i requires 0 <= i < |objects| => objects[i].Intersection(ray, sqrt))
  }

  /** Every triangle of the scene: intersecting a ray writes their cached normal and distance. */
  function Triangles(objects: seq<Object>): set<object> {
    set i | 0 <= i < |objects| && objects[i].TriangleObject? :: objects[i].triangle
  }

  /**
   * Every triangle of the list either kept its cached normal and distance or
   * now caches its own: the only trace a ray cast leaves on the scene.
   */
  twostate predicate Refreshed(objects: seq<Object>, sqrt: real -> real)
    reads Triangles(objects)
  {
    forall i :: 0 <= i < |objects| && objects[i].TriangleObject? ==>
      unchanged(objects[i].triangle) || objects[i].triangle.Cached(sqrt)
  }

  /** The loop that fills the vector of distances, calling each object's findIntersection. */
  method FindIntersections(objects: seq<Object>, ray: Ray, sqrt: real -> real) returns (ds: seq<real>)
    modifies Triangles(objects)
    ensures ds == Intersections(objects, ray, sqrt)
    ensures forall i :: 0 <= i < |objects| && objects[i].TriangleObject? ==> objects[i].triangle.Cached(sqrt)
  {
    ds := [];
    var i := 0;
    while i < |objects|
      invariant 0 <= i <= |objects|
      invariant |ds| == i
      invariant forall j :: 0 <= j < i ==> ds[j] == objects[j].Intersection(ray, sqrt)
      invariant forall j :: 0 <= j < i && objects[j].TriangleObject? ==> objects[j].triangle.Cached(sqrt)
    {
      assert objects[i].Footprint() <= Triangles(objects);
      var t := objects[i].FindIntersection(ray, sqrt);
      ds := ds + [t];
      i := i + 1;
    }
  }

  // ---------------------------------------------------------------------
  // The checkerboard floor

  /** The floor tile at a point: black when floor(x) + floor(z) is even, white when it is odd. */
  function Tile(p: Vect): (c: Color)
    ensures c.special == 0.0 && c.InUnit()
    ensures c == Color(0.0, 0.0, 0.0, 0.0) || c == Color(1.0, 1.0, 1.0, 0.0)
    ensures c == Color(0.0, 0.0, 0.0, 0.0) <==> (p.x.Floor + p.z.Floor) % 2 == 0
  {
    if (p.x.Floor + p.z.Floor) % 2 == 0 then Color(0.0, 0.0, 0.0, 0.0) else Color(1.0, 1.0, 1.0, 0.0)
  }

  /** The colour used for shading: a surface tagged 2 shows the tile under the point. */
  function SurfaceColor(c: Color, p: Vect): (r: Color)
    ensures c.special != 2.0 ==> r == c
    ensures c.special == 2.0 ==> r == Tile(p)
    ensures c.special == 2.0 ==> r.special == 0.0 && r.InUnit()
  {
    if c.special == 2.0 then Tile(p) else c
  }

  /** Surfaces tagged in (0, 1] reflect and shine, with that weight. */
  predicate Reflective(c: Color) {
    c.special > 0.0 && c.special <= 1.0
  }

  /** Stepping a whole number k of units along x or z keeps the tile when k is even and flips it when k is odd. */
  lemma TilesAlternate(p: Vect, k: int)
    ensures Tile(p.Add(Vect(k as real, 0.0, 0.0))) == Tile(p) <==> k % 2 == 0
    ensures Tile(p.Add(Vect(0.0, 0.0, k as real))) == Tile(p) <==> k % 2 == 0
  {
    var a := p.x.Floor + p.z.Floor;
    FloorShift(p.x, k);
    FloorShift(p.z, k);
    assert p.Add(Vect(k as real, 0.0, 0.0)).x.Floor + p.Add(Vect(k as real, 0.0, 0.0)).z.Floor == a + k;
    assert p.Add(Vect(0.0, 0.0, k as real)).x.Floor + p.Add(Vect(0.0, 0.0, k as real)).z.Floor == a + k;
    ParityShift(a, k);
  }

  /** Adding k keeps the parity of a exactly when k is even. */
  lemma ParityShift(a: int, k: int)
    ensures ((a + k) % 2 == 0 <==> a % 2 == 0) <==> k % 2 == 0
  {
  }

  lemma FloorShift(r: real, k: int)
    ensures (r + k as real).Floor == r.Floor + k
  {
  }

  /** The checkerboard floor is matte: its tiles never reflect or shine. */
  lemma CheckerboardIsMatte(c: Color, p: Vect)
    requires c.special == 2.0
    ensures !Reflective(SurfaceColor(c, p))
  {
  }

  // ---------------------------------------------------------------------
  // Reflection

  /**
   * The reflected direction as the source computes it, -d + 2 (n (n . -d) + d),
   * is d - 2 (n . d) n. About a unit normal it reverses the component along
   * the normal and keeps the length.
   */
  function Reflect(n: Vect, d: Vect): (r: Vect)
    ensures r == d.Sub(n.Mult(2.0 * n.Dot(d)))
    ensures n.Dot(n) == 1.0 ==> r.Dot(n) == -d.Dot(n) && r.Dot(r) == d.Dot(d)
  {
    ReflectExpression(n, d);
    if n.Dot(n) == 1.0 then
      MirrorLaw(n, d, n.Dot(d));
      d.Negative().Add(n.Mult(n.Dot(d.Negative())).Add(d).Mult(2.0))
    else
      d.Negative().Add(n.Mult(n.Dot(d.Negative())).Add(d).Mult(2.0))
  }

  lemma ReflectExpression(n: Vect, d: Vect)
    ensures d.Negative().Add(n.Mult(n.Dot(d.Negative())).Add(d).Mult(2.0)) == d.Sub(n.Mult(2.0 * n.Dot(d)))
  {
    var k, m := n.Dot(d), n.Dot(d.Negative());
    assert m == -k;
    ReflectTerm(n.x, d.x, m, k);
    ReflectTerm(n.y, d.y, m, k);
    ReflectTerm(n.z, d.z, m, k);
  }

  lemma ReflectTerm(a: real, b: real, m: real, k: real)
    requires m == -k
    ensures -b + (a * m + b) * 2.0 == b - a * (2.0 * k)
  {
  }

  /** d - 2 k n with k = n . d and a unit n: the normal component reversed, the length kept. */
  lemma MirrorLaw(n: Vect, d: Vect, k: real)
    requires n.Dot(n) == 1.0 && k == n.Dot(d)
    ensures d.Sub(n.Mult(2.0 * k)).Dot(n) == -d.Dot(n)
    ensures d.Sub(n.Mult(2.0 * k)).Dot(d.Sub(n.Mult(2.0 * k))) == d.Dot(d)
  {
    var r := d.Sub(n.Mult(2.0 * k));
    ReflectCoordinates(n.x, n.y, n.z, d.x, d.y, d.z, r.x, r.y, r.z, k);
  }

  /** The coordinate form of `MirrorLaw`. */
  lemma ReflectCoordinates(nx: real, ny: real, nz: real, dx: real, dy: real, dz: real,
                           rx: real, ry: real, rz: real, k: real)
    requires nx * nx + ny * ny + nz * nz == 1.0
    requires k == nx * dx + ny * dy + nz * dz
    requires rx == dx - nx * (2.0 * k) && ry == dy - ny * (2.0 * k) && rz == dz - nz * (2.0 * k)
    ensures rx * nx + ry * ny + rz * nz == -(dx * nx + dy * ny + dz * nz)
    ensures rx * rx + ry * ry + rz * rz == dx * dx + dy * dy + dz * dz
  {
    var nn := nx * nx + ny * ny + nz * nz;
    assert rx * nx + ry * ny + rz * nz == k - 2.0 * k * nn;
    assert rx * rx + ry * ry + rz * rz == (dx * dx + dy * dy + dz * dz) - 4.0 * k * k + 4.0 * k * k * nn;
  }

  // ---------------------------------------------------------------------
  // Shadows

  /**
   * The shadow decision: the first distance beyond `accuracy` decides, and
   * the point is in shadow when that object is no farther than the light.
   * Later objects are never looked at.
   */
  function Shadowed(ds: seq<real>, accuracy: real, lightDistance: real): (r: bool)
    ensures (forall j :: 0 <= j < |ds| ==> ds[j] <= accuracy) ==> !r
    ensures lightDistance <= accuracy ==> !r
  {
    if |ds| == 0 then false
    else if ds[0] > accuracy then ds[0] <= lightDistance
    else Shadowed(ds[1..], accuracy, lightDistance)
  }

  /** Shadowed exactly when some entry beyond `accuracy` is within the light distance and all earlier ones are not beyond `accuracy`. */
  lemma {:induction false} ShadowRule(ds: seq<real>, accuracy: real, lightDistance: real)
    ensures Shadowed(ds, accuracy, lightDistance) <==>
              exists c :: 0 <= c < |ds| && accuracy < ds[c] <= lightDistance &&
                          forall j :: 0 <= j < c ==> ds[j] <= accuracy
  {
    if |ds| > 0 && ds[0] <= accuracy {
      ShadowRule(ds[1..], accuracy, lightDistance);
      if Shadowed(ds, accuracy, lightDistance) {
        var c :| 0 <= c < |ds[1..]| && accuracy < ds[1..][c] <= lightDistance &&
                 forall j :: 0 <= j < c ==> ds[1..][j] <= accuracy;
        assert forall j :: 0 <= j < c + 1 ==> ds[j] <= accuracy by {
          forall j | 0 <= j < c + 1
            ensures ds[j] <= accuracy
          {
            if j > 0 {
              assert ds[j] == ds[1..][j - 1];
            }
          }
        }
        assert accuracy < ds[c + 1] <= lightDistance;
      }
      if exists c :: 0 <= c < |ds| && accuracy < ds[c] <= lightDistance &&
                     forall j :: 0 <= j < c ==> ds[j] <= accuracy {
        var c :| 0 <= c < |ds| && accuracy < ds[c] <= lightDistance &&
                 forall j :: 0 <= j < c ==> ds[j] <= accuracy;
        assert c > 0;
        assert accuracy < ds[1..][c - 1] <= lightDistance;
        assert forall j :: 0 <= j < c - 1 ==> ds[1..][j] <= accuracy by {
          forall j | 0 <= j < c - 1
            ensures ds[1..][j] <= accuracy
          {
            assert ds[1..][j] == ds[j + 1];
          }
        }
      }
    } else if |ds| > 0 {
      if ds[0] <= lightDistance {
        assert accuracy < ds[0] <= lightDistance;
      }
    }
  }

  /** The shadow loop of the source: scan in list order and stop at the first distance beyond `accuracy`. */
  method ShadowTest(intersections: seq<real>, accuracy: real, lightDistMagnitude: real) returns (shadowed: bool)
    ensures shadowed == Shadowed(intersections, accuracy, lightDistMagnitude)
  {
    shadowed := false;
    var c := 0;
    while c < |intersections|
      invariant 0 <= c <= |intersections|
      invariant Shadowed(intersections, accuracy, lightDistMagnitude) == Shadowed(intersections[c..], accuracy, lightDistMagnitude)
    {
      if intersections[c] > accuracy {
        if intersections[c] <= lightDistMagnitude {
          shadowed := true;
        }
        break;
      }
      assert intersections[c..][1..] == intersections[c + 1..];
      c := c + 1;
    }
  }

  /**
   * The light distance the source compares against is the magnitude of an
   * already normalised vector, so it is always 1: only objects within one
   * unit of the point can shadow it, whatever the light's real distance.
   */
  lemma LightDistanceIsOne(v: Vect, sqrt: real -> real)
    requires SqrtLaw(sqrt)
    requires TryNormalize(v, sqrt).Some?
    ensures TryNormalize(v, sqrt).value.Magnitude(sqrt) == 1.0
  {
    NormalizeScales(v, sqrt);
  }

  // ---------------------------------------------------------------------
  // Lights

  /** x to the n, exact. */
  function Power(x: real, n: nat): real
    decreases n
  {
    if n == 0 then 1.0 else x * Power(x, n - 1)
  }

  /** An even power is never negative. */
  lemma {:induction false} EvenPowerNonNegative(x: real, n: nat)
    requires n % 2 == 0
    ensures 0.0 <= Power(x, n)
    decreases n
  {
    if n > 0 {
      EvenPowerNonNegative(x, n - 2);
      var p := Power(x, n - 2);
      assert Power(x, n) == x * (x * p);
      SquareNonNegative(x);
      NonNegativeProduct(x * x, p);
      assert x * (x * p) == (x * x) * p;
    }
  }

  /**
   * The library pow, as far as the model needs it: on a whole exponent it
   * is repeated multiplication.
   */
  ghost predicate PowLaw(pow: (real, real) -> real) {
    forall x: real, n: nat {:trigger pow(x, n as real)} :: pow(x, n as real) == Power(x, n)
  }

  /** The specular weight pow(specular, 10) is never negative. */
  lemma SpecularWeightNonNegative(pow: (real, real) -> real, x: real)
    requires PowLaw(pow)
    ensures 0.0 <= pow(x, 10.0)
  {
    assert pow(x, 10 as real) == Power(x, 10);
    EvenPowerNonNegative(x, 10);
  }

  lemma NonNegativeProduct(a: real, b: real)
    requires 0.0 <= a && 0.0 <= b
    ensures 0.0 <= a * b
  {
  }

  /** The unit vector from the hit point towards the light; `None` when the light sits on the point. */
  function LightDirection(light: Light, hit: Hit, sqrt: real -> real): (r: Option<Vect>)
    ensures SqrtLaw(sqrt) ==> (r.None? <==> light.position == hit.position)
    ensures SqrtLaw(sqrt) && r.Some? ==> r.value.Dot(r.value) == 1.0
  {
    DifferenceZero(light.position, hit.position);
    TryNormalize(light.position.Add(hit.position.Negative()), sqrt)
  }

  /** a - b is the zero vector exactly when a and b are the same point. */
  lemma DifferenceZero(a: Vect, b: Vect)
    ensures a.Add(b.Negative()) == Zero <==> a == b
  {
  }

  /**
   * What one light adds to `acc`: nothing when the light is behind the
   * surface (cosAngle not positive) or the point is in shadow; otherwise
   * the surface colour times the light colour scaled by cosAngle, and on a
   * reflective surface a highlight of weight pow(specular, 10) * special.
   */
  function LightStep(acc: Color, light: Light, hit: Hit, scene: Scene, sqrt: real -> real, pow: (real, real) -> real): (r: Color)
    ensures r.special == acc.special
  {
    match (LightDirection(light, hit, sqrt), hit.normal)
    case (Some(lightDir), Some(n)) =>
      var cosAngle := n.Dot(lightDir);
      if !(cosAngle > 0.0) then acc
      else
        var shadowRay := Ray(hit.position, lightDir);
        var lightDistMagnitude := lightDir.Magnitude(sqrt);
        if Shadowed(Intersections(scene.objects, shadowRay, sqrt), scene.accuracy, lightDistMagnitude) then acc
        else
          var lit := acc.ColorAdd(hit.color.ColorMultiply(light.color).ColorScalar(cosAngle));
          if Reflective(hit.color) then Highlight(lit, light.color, hit.color.special, TryNormalize(Reflect(n, hit.direction), sqrt), lightDir, pow)
          else lit
    case _ => acc
  }

  /**
   * The specular highlight added to `lit` by a light of colour `light` in
   * direction lightDir, given the normalised mirror direction `refDir` (None
   * where the source's is NaN) and the surface's tag: it never darkens a
   * channel when the light colour and the tag are not negative.
   */
  function Highlight(lit: Color, light: Color, special: real, refDir: Option<Vect>, lightDir: Vect, pow: (real, real) -> real): (r: Color)
    ensures PowLaw(pow) && NonNegative(light) && 0.0 <= special ==> NoDarker(lit, r)
  {
    match refDir
    case None => lit
    case Some(dir) =>
      var specular := dir.Dot(lightDir);
      if specular > 0.0 then
        var weight := pow(specular, 10.0);
        Brightens(lit, light, weight, special, pow, specular);
        lit.ColorAdd(light.ColorScalar(weight * special))
      else lit
  }

  /** Adding a non-negative colour scaled by the specular weight p = pow(x, 10) darkens no channel. */
  lemma Brightens(lit: Color, c: Color, p: real, special: real, pow: (real, real) -> real, x: real)
    requires p == pow(x, 10.0)
    ensures PowLaw(pow) && NonNegative(c) && 0.0 <= special ==>
              var r := lit.ColorAdd(c.ColorScalar(p * special));
              NoDarker(lit, r)
  {
    if PowLaw(pow) && NonNegative(c) && 0.0 <= special {
      SpecularWeightNonNegative(pow, x);
      var w := p * special;
      NonNegativeProduct(p, special);
      NonNegativeProduct(c.red, w);
      NonNegativeProduct(c.green, w);
      NonNegativeProduct(c.blue, w);
    }
  }

  /** The lights applied in list order, each to the colour accumulated so far. */
  function Illuminate(base: Color, lights: seq<Light>, hit: Hit, scene: Scene, sqrt: real -> real, pow: (real, real) -> real): (r: Color)
    ensures r.special == base.special
  {
    if |lights| == 0 then base
    else LightStep(Illuminate(base, lights[..|lights| - 1], hit, scene, sqrt, pow), lights[|lights| - 1], hit, scene, sqrt, pow)
  }

  /** No channel of `b` is below the same channel of `a`. */
  predicate NoDarker(a: Color, b: Color) {
    a.red <= b.red && a.green <= b.green && a.blue <= b.blue
  }

  /** No channel is negative. */
  predicate NonNegative(c: Color) {
    0.0 <= c.red && 0.0 <= c.green && 0.0 <= c.blue
  }

  /**
   * With non-negative surface and light colours and a non-negative tag,
   * a light never darkens any channel.
   */
  lemma LightNeverDarkens(acc: Color, light: Light, hit: Hit, scene: Scene, sqrt: real -> real, pow: (real, real) -> real)
    requires PowLaw(pow)
    requires NonNegative(hit.color) && NonNegative(light.color) && 0.0 <= hit.color.special
    ensures var r := LightStep(acc, light, hit, scene, sqrt, pow);
            NoDarker(acc, r)
  {
    match (LightDirection(light, hit, sqrt), hit.normal)
    case (Some(lightDir), Some(n)) =>
      var cosAngle := n.Dot(lightDir);
      if cosAngle > 0.0 {
        DiffuseNonNegative(hit.color, light.color, cosAngle);
      }
    case _ =>
  }

  /**
   * A light changes the colour only through the gate of the source: both
   * the light direction and the normal exist, cosAngle is positive and the
   * shadow rule does not hold along the shadow ray.
   */
  lemma LightGate(acc: Color, light: Light, hit: Hit, scene: Scene, sqrt: real -> real, pow: (real, real) -> real)
    ensures LightStep(acc, light, hit, scene, sqrt, pow) != acc ==>
              var lightDir := LightDirection(light, hit, sqrt);
              lightDir.Some? && hit.normal.Some? && hit.normal.value.Dot(lightDir.value) > 0.0 &&
              !Shadowed(Intersections(scene.objects, Ray(hit.position, lightDir.value), sqrt),
                        scene.accuracy, lightDir.value.Magnitude(sqrt))
  {
  }

  lemma DiffuseNonNegative(c: Color, l: Color, cosAngle: real)
    requires NonNegative(c) && NonNegative(l) && 0.0 < cosAngle
    ensures NonNegative(c.ColorMultiply(l).ColorScalar(cosAngle))
  {
    NonNegativeProduct(c.red, l.red);
    NonNegativeProduct(c.green, l.green);
    NonNegativeProduct(c.blue, l.blue);
    var m := c.ColorMultiply(l);
    NonNegativeProduct(m.red, cosAngle);
    NonNegativeProduct(m.green, cosAngle);
    NonNegativeProduct(m.blue, cosAngle);
  }

  /** Accumulating any number of such lights never darkens a channel. */
  lemma {:induction false} IlluminateNeverDarkens(base: Color, lights: seq<Light>, hit: Hit, scene: Scene, sqrt: real -> real, pow: (real, real) -> real)
    requires PowLaw(pow)
    requires NonNegative(hit.color) && 0.0 <= hit.color.special
    requires forall i :: 0 <= i < |lights| ==> NonNegative(lights[i].color)
    ensures var r := Illuminate(base, lights, hit, scene, sqrt, pow);
            NoDarker(base, r)
  {
    if |lights| > 0 {
      var prefix := lights[..|lights| - 1];
      IlluminateNeverDarkens(base, prefix, hit, scene, sqrt, pow);
      LightNeverDarkens(Illuminate(base, prefix, hit, scene, sqrt, pow), lights[|lights| - 1], hit, scene, sqrt, pow);
    }
  }

  // ---------------------------------------------------------------------
  // getColorAt

  /**
   * The ambient colour plus the reflected colour: a reflective surface
   * sends a ray in the mirror direction and, if it hits an object beyond
   * `accuracy`, adds that object's shade weighted by the tag. `fuel` bounds
   * the depth of this recursion; with no fuel left the reflection is not
   * traced.
   */
  function Reflected(fuel: nat, hit: Hit, scene: Scene, sqrt: real -> real, pow: (real, real) -> real): (c: Color)
    ensures c.special == hit.color.special
    decreases fuel, 1
  {
    var ambient := hit.color.ColorScalar(scene.ambient);
    if fuel == 0 || !Reflective(hit.color) || hit.normal.None? then ambient
    else
      match TryNormalize(Reflect(hit.normal.value, hit.direction), sqrt)
      case None => ambient
      case Some(refDir) => Mirrored(fuel - 1, ambient, hit, scene, refDir, sqrt, pow)
  }

  /**
   * `ambient` plus what the mirror ray from the hit point in direction
   * refDir sees: the shade, with `depth` reflections left, of the nearest
   * object hit beyond `accuracy`, weighted by the tag; nothing when the ray
   * hits nothing that far.
   */
  function Mirrored(depth: nat, ambient: Color, hit: Hit, scene: Scene, refDir: Vect, sqrt: real -> real, pow: (real, real) -> real): (c: Color)
    ensures c.special == ambient.special
    decreases depth + 1, 0
  {
    var reflectInt := Intersections(scene.objects, Ray(hit.position, refDir), sqrt);
    var iRef := Winner(reflectInt);
    if iRef != -1 && reflectInt[iRef] > scene.accuracy then
      var refIntPos := hit.position.Add(refDir.Mult(reflectInt[iRef]));
      var refColor := Shade(depth, refIntPos, refDir, scene, iRef, sqrt, pow);
      ambient.ColorAdd(refColor.ColorScalar(hit.color.special))
    else ambient
  }

  function HitOn(intPos: Vect, intDir: Vect, scene: Scene, iWinObj: nat, sqrt: real -> real): Hit
    requires iWinObj < |scene.objects|
  {
    var obj := scene.objects[iWinObj];
    Hit(intPos, intDir, SurfaceColor(obj.GetColor(), intPos), obj.NormalAt(intPos, sqrt))
  }

  /**
   * The colour getColorAt returns for a ray in direction intDir meeting
   * object iWinObj at intPos: always within [0, 1] on every channel, and
   * tagged like the surface.
   */
  function Shade(fuel: nat, intPos: Vect, intDir: Vect, scene: Scene, iWinObj: nat, sqrt: real -> real, pow: (real, real) -> real): (c: Color)
    requires iWinObj < |scene.objects|
    ensures c.InUnit()
    ensures c.special == HitOn(intPos, intDir, scene, iWinObj, sqrt).color.special
    decreases fuel, 2
  {
    var hit := HitOn(intPos, intDir, scene, iWinObj, sqrt);
    var finalColor := Reflected(fuel, hit, scene, sqrt, pow);
    Illuminate(finalColor, scene.lights, hit, scene, sqrt, pow).Clip()
  }

  /** Only reflective surfaces use the recursion: elsewhere the depth bound makes no difference. */
  lemma MatteIgnoresFuel(fuel: nat, intPos: Vect, intDir: Vect, scene: Scene, iWinObj: nat, sqrt: real -> real, pow: (real, real) -> real)
    requires iWinObj < |scene.objects|
    requires !Reflective(HitOn(intPos, intDir, scene, iWinObj, sqrt).color)
    ensures Shade(fuel, intPos, intDir, scene, iWinObj, sqrt, pow) == Shade(0, intPos, intDir, scene, iWinObj, sqrt, pow)
  {
  }

  /**
   * One pass of the light loop of getColorAt: the light direction, the
   * cosAngle gate, the shadow rays and the shadow loop, then the diffuse
   * and specular terms.
   */
  method AddLight(finalColor: Color, light: Light, hit: Hit, scene: Scene, sqrt: real -> real, pow: (real, real) -> real) returns (r: Color)
    modifies Triangles(scene.objects)
    ensures Refreshed(scene.objects, sqrt)
    ensures r == LightStep(finalColor, light, hit, scene, sqrt, pow)
  {
    r := finalColor;
    var lightDir := LightDirection(light, hit, sqrt);
    if lightDir.None? || hit.normal.None? {
      return;
    }
    var cosAngle := hit.normal.value.Dot(lightDir.value);
    if cosAngle > 0.0 {
      var lightDist := TryNormalize(light.position.Add(hit.position.Negative()), sqrt);
      var lightDistMagnitude := lightDist.value.Magnitude(sqrt);
      var shadowRay := Ray(hit.position, lightDir.value);
      var intersectTwo := FindIntersections(scene.objects, shadowRay, sqrt);
      var shadowed := ShadowTest(intersectTwo, scene.accuracy, lightDistMagnitude);
      if !shadowed {
        r := r.ColorAdd(hit.color.ColorMultiply(light.color).ColorScalar(cosAngle));
        if Reflective(hit.color) {
          var refDir := TryNormalize(Reflect(hit.normal.value, hit.direction), sqrt);
          r := SpecularHighlight(r, light, hit.color.special, refDir, lightDir.value, pow);
        }
      }
    }
  }

  /** The specular part of the light loop of getColorAt, for a reflective surface. */
  method SpecularHighlight(lit: Color, light: Light, special: real, refDir: Option<Vect>, lightDir: Vect, pow: (real, real) -> real)
    returns (r: Color)
    ensures r == Highlight(lit, light.color, special, refDir, lightDir, pow)
  {
    r := lit;
    if refDir.Some? {
      var specular := refDir.value.Dot(lightDir);
      if specular > 0.0 {
        specular := pow(specular, 10.0);
        r := r.ColorAdd(light.color.ColorScalar(specular * special));
      }
    }
  }

  /**
   * getColorAt: the winning object's colour (or floor tile) and normal,
   * the ambient term, the reflection traced recursively while fuel lasts,
   * the light loop, and the clip of the accumulated colour in place.
   */
  method GetColorAt(fuel: nat, intPos: Vect, intDir: Vect, scene: Scene, iWinObj: nat, sqrt: real -> real, pow: (real, real) -> real)
    returns (c: Color)
    requires iWinObj < |scene.objects|
    modifies Triangles(scene.objects)
    ensures Refreshed(scene.objects, sqrt)
    ensures c == Shade(fuel, intPos, intDir, scene, iWinObj, sqrt, pow)
    decreases fuel, 2
  {
    var obj := scene.objects[iWinObj];
    var iWinColor := obj.GetColor();
    var iWinNorm := obj.NormalAt(intPos, sqrt);
    if iWinColor.special == 2.0 {
      var square := intPos.x.Floor + intPos.z.Floor;
      if square % 2 == 0 {
        iWinColor := Color(0.0, 0.0, 0.0, 0.0);
      } else {
        iWinColor := Color(1.0, 1.0, 1.0, 0.0);
      }
    }
    var hit := Hit(intPos, intDir, iWinColor, iWinNorm);
    assert hit == HitOn(intPos, intDir, scene, iWinObj, sqrt);
    var finalColor := ReflectedColor(fuel, hit, scene, sqrt, pow);
    finalColor := LightLoop(finalColor, hit, scene, sqrt, pow);
    var cell := new ColorCell(finalColor);
    c := cell.Clip();
  }

  /** The ambient term and the reflection step of getColorAt. */
  method ReflectedColor(fuel: nat, hit: Hit, scene: Scene, sqrt: real -> real, pow: (real, real) -> real) returns (finalColor: Color)
    modifies Triangles(scene.objects)
    ensures Refreshed(scene.objects, sqrt)
    ensures finalColor == Reflected(fuel, hit, scene, sqrt, pow)
    decreases fuel, 1
  {
    finalColor := hit.color.ColorScalar(scene.ambient);
    if fuel > 0 && Reflective(hit.color) && hit.normal.Some? {
      var refDir := TryNormalize(Reflect(hit.normal.value, hit.direction), sqrt);
      if refDir.Some? {
        finalColor := TraceMirror(fuel - 1, finalColor, hit, scene, refDir.value, sqrt, pow);
      }
    }
  }

  /** The reflection ray of getColorAt, cast and shaded. */
  method TraceMirror(depth: nat, ambient: Color, hit: Hit, scene: Scene, refDir: Vect, sqrt: real -> real, pow: (real, real) -> real)
    returns (finalColor: Color)
    modifies Triangles(scene.objects)
    ensures Refreshed(scene.objects, sqrt)
    ensures finalColor == Mirrored(depth, ambient, hit, scene, refDir, sqrt, pow)
    decreases depth + 1, 0
  {
    finalColor := ambient;
    var reflectRay := Ray(hit.position, refDir);
    var reflectInt := FindIntersections(scene.objects, reflectRay, sqrt);
    var iWinObjReflect := WinningObjectIndex(reflectInt);
    if iWinObjReflect != -1 && reflectInt[iWinObjReflect] > scene.accuracy {
      var refIntPos := hit.position.Add(refDir.Mult(reflectInt[iWinObjReflect]));
      var refIntColor := GetColorAt(depth, refIntPos, refDir, scene, iWinObjReflect, sqrt, pow);
      finalColor := finalColor.ColorAdd(refIntColor.ColorScalar(hit.color.special));
    }
  }

  method LightLoop(base: Color, hit: Hit, scene: Scene, sqrt: real -> real, pow: (real, real) -> real) returns (finalColor: Color)
    modifies Triangles(scene.objects)
    ensures Refreshed(scene.objects, sqrt)
    ensures finalColor == Illuminate(base, scene.lights, hit, scene, sqrt, pow)
  {
    finalColor := base;
    var iLight := 0;
    while iLight < |scene.lights|
      invariant 0 <= iLight <= |scene.lights|
      invariant finalColor == Illuminate(base, scene.lights[..iLight], hit, scene, sqrt, pow)
      invariant Refreshed(scene.objects, sqrt)
    {
      assert scene.lights[..iLight + 1][..iLight] == scene.lights[..iLight];
      finalColor := AddLight(finalColor, scene.lights[iLight], hit, scene, sqrt, pow);
      iLight := iLight + 1;
    }
    assert scene.lights[..|scene.lights|] == scene.lights;
  }
}
