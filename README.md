# Ray tracer core, modelled in Dafny

This project models the computational core of a small C++ ray tracer. The
tracer renders a scene of planes, spheres and triangles lit by point lights.
For each pixel it casts a ray, finds the nearest object the ray hits, shades
that point, and writes the image as a 24-bit BMP file. The modelled parts are:

- `vectors.dfy` (module `Vectors`, after `src/vect.h`): the 3-D vector type
  with its dot product, cross product, negation, scaling, sum, magnitude and
  normalisation; and the ray, an origin with a direction.
- `colors.dfy` (module `Colors`, after `src/color.h`): a colour with red, green
  and blue channels and a `special` tag, its arithmetic, and `clip`. The value
  operations are functions on a datatype. The class `ColorCell` is a colour
  in storage: its setters and its `Clip` update the fields in place, as the
  C++ members do.
- `objects.dfy` (module `Objects`, after `objects.h`): the base object's
  defaults, planes, spheres and triangles with `findIntersection` and
  `getNormalAt`. A triangle is a class, because `findIntersection` and
  `getTriangleDistance` overwrite its cached `normal` and `distance`.
- `resolver.dfy` (module `Resolver`, after `winningObjectIndex` in
  `main.cpp`): the two-pass scan that picks the object a ray sees.
- `shader.dfy` (module `Shader`, after `getColorAt` in `main.cpp`): the
  checkerboard floor, the ambient term, reflection, the light loop with its
  shadow test, diffuse and specular terms, and the final clip.
- `bitmap.dfy` (module `Bitmap`, after `savebmp` in `main.cpp`): the bytes of
  the two headers and of the pixels, in the order they are written.
- `sources.dfy` (module `Sources`, after `sources.h` and `camera.h`): lights
  and the camera as plain values.
- `wrappers.dfy`: the `Option` type.

Coordinates and colours are Dafny `real`s, so `+ - * /` are exact. The
square root and `pow` cannot be computed in Dafny. Every member that needs
them takes them as parameters `sqrt` and `pow`. The lemmas assume only
`SqrtLaw(sqrt)` (a non-negative root whose square is the argument) and
`PowLaw(pow)` (on a whole exponent, `pow` is repeated multiplication).
Normalising the zero vector divides by zero in the source and yields NaN. The
model returns `None` there. Every later comparison with NaN is false in the
source, and the model gives the same result for `None`. A degenerate
triangle is the one place where it gets there by a shorter path: the source
runs its edge tests on NaN and fails all three, and the model returns -1
straight away.

What the code does, at the points where it is easy to misread:

- `clip` first adds the excess light, weighted by each channel's share of the
  total, and only then clamps every channel to [0, 1].
- `winningObjectIndex` scans with `<=`, so of several equal nearest positive
  distances it returns the last one.
- The shadow test decides from the first object, in list order, whose
  distance lies beyond `accuracy`; the objects after it are not looked at.
- The light distance in that test is the magnitude of an already normalised
  vector, so it is 1 and not the distance to the light.
- `savebmp` writes the image size and the two resolutions at bytes 21-32 of
  the info header; the BMP layout puts them at bytes 20-31.
- The file size field counts four bytes per pixel, while three are written.
- A triangle's `findIntersection` overwrites the triangle's cached normal and
  plane distance on every call, during rendering.

## Model

| member | source | states |
|---|---|---|
| Vectors.Vect.Negative | src/vect.h:40-45 | a vector plus its negative is the zero vector |
| Vectors.Vect.Sub | objects.h:168-173 | the componentwise difference written out in the source is the inverse of `vectAdd`: (v - w) + w == v |
| Vectors.Vect.Magnitude | src/vect.h:26 | with a lawful sqrt, the magnitude is non-negative and its square is v . v |
| Vectors.Vect.Normalize | src/vect.h:47-53 | for a non-zero magnitude, with a lawful sqrt, the result has unit length |
| Vectors.TryNormalize | src/vect.h:47-53 | the division by zero (NaN) happens exactly when the magnitude is 0, which with a lawful sqrt is exactly the zero vector; otherwise the result is a unit vector |
| Vectors.NormalizeScales | src/vect.h:47-53 | for a non-zero v, normalize(v) is v scaled by 1 / magnitude(v), and its magnitude is 1 |
| Vectors.MagnitudeZero | src/vect.h:26 | the magnitude is 0 exactly for the zero vector |
| Vectors.DotSelfNonNegative | src/vect.h:28-31 | v . v is non-negative, and 0 exactly for the zero vector |
| Vectors.DotSymmetric | src/vect.h:28-31 | a . b == b . a |
| Vectors.CrossOrthogonal | src/vect.h:33-38 | a x b is orthogonal to a and to b |
| Vectors.CrossAntiCommutative | src/vect.h:33-40 | a x b is the negative of b x a, and a x a is the zero vector |
| Vectors.NegativeInvolution | src/vect.h:40 | negating twice gives the vector back |
| Vectors.AddCommutative | src/vect.h:42-45 | vectAdd is commutative |
| Vectors.AddDot | src/vect.h:28-45 | the dot product distributes over vectAdd |
| Vectors.MultDot | src/vect.h:28-41 | (s a) . b == s (a . b) |
| Colors.Color.Brightness | src/color.h:34 | a colour with channels in [0, 1] has a brightness in [0, 1] |
| Colors.Color.ColorScalar | src/color.h:35 | keeps the receiver's tag and scales the brightness by s |
| Colors.Color.ColorAdd | src/color.h:37-43 | keeps the receiver's tag, ignoring the argument's; brightnesses add |
| Colors.Color.ColorMultiply | src/color.h:45-51 | keeps the receiver's tag; white is an identity; two colours in [0, 1] give a colour in [0, 1] |
| Colors.Color.ColorAverage | src/color.h:53-59 | keeps the receiver's tag; the brightness is the mean of the two; two colours in [0, 1] give a colour in [0, 1] |
| Colors.Color.Clip | src/color.h:61-79 | every channel ends in [0, 1], the tag is kept, and a colour already in [0, 1] is returned unchanged |
| Colors.Color.Redistribute | src/color.h:63-70 | keeps the tag; a colour whose channels sum to at most 3 is unchanged |
| Colors.Color.Clamped | src/color.h:71-76 | every channel ends in [0, 1], the tag is kept, and channels already in [0, 1] are unchanged |
| Colors.Clamp | src/color.h:71-76 | one channel ends in [0, 1] and is unchanged when it already was |
| Colors.ClipIdempotent | src/color.h:61-79 | clipping twice is clipping once |
| Colors.ClipSaturatesBrightest | src/color.h:63-78 | an over-bright colour with non-negative channels ends with its brightest channel, whichever of red, green or blue it is, at exactly 1, because the redistribution only adds light |
| Colors.ColorCell.constructor | src/color.h:21-22 | the stored colour is the one given |
| Colors.ColorCell.SetColorRed | src/color.h:29 | only the red channel changes, to the new value |
| Colors.ColorCell.SetColorGreen | src/color.h:30 | only the green channel changes, to the new value |
| Colors.ColorCell.SetColorBlue | src/color.h:31 | only the blue channel changes, to the new value |
| Colors.ColorCell.SetColorSpecial | src/color.h:32 | only the tag changes, to the new value |
| Colors.ColorCell.Clip | src/color.h:61-79 | returns the clip of the stored colour, and the stored fields now hold that same colour |
| Colors.ColorCell.Spread | src/color.h:63-70 | the stored colour becomes its redistribution |
| Colors.ColorCell.Saturate | src/color.h:71-76 | the stored colour becomes its clamp |
| Objects.PlaneDistance | objects.h:51-53 | the point at the returned t satisfies the plane equation normal . p == distance (normal . normal), and no other t does |
| Objects.PlaneDistanceSolves | objects.h:51-53 | -b/a solves the plane equation along the ray, and is its only solution |
| Objects.Plane.FindIntersection | objects.h:42-55 | -1 for a ray parallel to the plane; otherwise the point at the result lies on the plane |
| Objects.Plane.NormalAt | objects.h:41 | the plane's stored normal, whatever the point |
| Objects.Sphere.FindIntersection | objects.h:95-136 | -1 when the discriminant is not positive; otherwise the result plus 1e-6 is a root of the ray's quadratic, and no root beyond 1e-6 is nearer; whenever a root lies beyond 1e-6 (positive discriminant, lawful sqrt) the result is a hit, t > 0 |
| Objects.Sphere.LinearTerm | objects.h:115-117 | b is 2 (origin - centre) . direction |
| Objects.Sphere.ConstantTerm | objects.h:118-121 | c is the squared distance from the centre to the origin, less radius squared |
| Objects.Sphere.Discriminant | objects.h:123 | a ray starting inside the sphere (c < 0) always has a positive discriminant |
| Objects.SphereFromInside | objects.h:115-132 | a unit ray from the centre of a sphere of radius above 1e-6 hits at radius - 1e-6 |
| Objects.Sphere.NormalAt | objects.h:89-93 | NaN exactly at the centre; elsewhere a unit vector pointing away from the centre |
| Objects.RootsOfQuadratic | objects.h:123-132 | for a positive discriminant, (-b - s)/2 <= (s - b)/2 are roots of u*u + b*u + c and the only ones |
| Objects.QuadraticFactors | objects.h:123-132 | with s * s the discriminant, the two root expressions of the source factor the quadratic |
| Objects.SphereRootOnSurface | objects.h:115-123 | for a unit direction, a root of the quadratic is a point at distance radius from the centre |
| Objects.SphereAimedAtCenter | objects.h:115-132 | a unit ray aimed at the centre from distance k hits at k - radius - 1e-6 |
| Objects.OutwardNormal | objects.h:89-93 | the normalised offset from the centre has a positive dot product with that offset |
| Objects.NormalizeDot | src/vect.h:47-53 | normalize(v) . w times magnitude(v) is v . w; normalize(v) . v is the magnitude |
| Objects.NormalizeOrthogonal | src/vect.h:47-53 | normalising keeps a vector orthogonal to what it was orthogonal to |
| Objects.Triangle.constructor | objects.h:158-164 | corners and colour are the arguments; the cached normal is the zero vector and the distance 0 |
| Objects.Triangle.Default | objects.h:150-156 | corners (1,0,0), (0,1,0), (0,0,1), grey with tag 0; cached normal zero, distance 0 |
| Objects.Triangle.TriangleNormal | objects.h:166-176 | NaN exactly for collinear corners; otherwise a unit vector orthogonal to both edges from A |
| Objects.Triangle.PlaneOffset | objects.h:178-182 | defined exactly when the normal is; all three corners satisfy normal . p == distance |
| Objects.Triangle.GetTriangleDistance | objects.h:178-182 | stores the normal in the field and returns normal . A |
| Objects.Triangle.Intersection | objects.h:188-245 | -1 for collinear corners and for a parallel ray; any other result is a point on the plane that passes the three edge tests |
| Objects.Triangle.FindIntersection | objects.h:188-245 | returns the intersection and leaves the normal and the plane's distance in the fields; the corners and the colour are constants |
| Objects.Triangle.EdgeCross | objects.h:166-175 | CA x BA is orthogonal to both edges from A |
| Objects.EdgeTest | objects.h:213-238 | an edge test at either end of its edge is 0, so the corners pass it |
| Objects.TriangleHitIffInside | objects.h:196-243 | a ray meeting the plane at A + beta (B - A) + gamma (C - A) is reported at that distance exactly when beta >= 0, gamma >= 0 and beta + gamma <= 1, and as -1 otherwise |
| Objects.BarycentricOnPlane | objects.h:193-204 | every barycentric combination of the corners lies on the triangle's plane |
| Objects.EdgeTestsBarycentric | objects.h:213-238 | at a barycentric point the three edge tests are beta, 1 - beta - gamma and gamma times one common factor |
| Objects.EdgeCrossAlongNormal | objects.h:166-176 | that common factor is positive for a proper triangle |
| Objects.CrossOfCombinations | objects.h:213-238 | the cross product of two combinations of the edges is a multiple of the edges' cross product |
| Objects.Object.NormalAt | objects.h:14-20 | the base object's normal is the zero vector; a sphere's or triangle's normal, when defined, has unit length |
| Objects.Object.FindIntersection | objects.h:14-20 | dispatches to each primitive's intersection; only a triangle's cached fields change |
| Objects.Object.GetColor | objects.h:17 | the base object is black with tag 0 |
| Objects.Object.Intersection | objects.h:19-245 | the base object reports 0 (line 19); a ray parallel to a plane (42-55), a sphere with a non-positive discriminant (95-136) and a degenerate triangle (188-245) report -1 |
| Objects.BaseDefaults | objects.h:17-19 | the base object is black with tag 0, has the zero normal and reports distance 0 |
| Objects.FlatNormals | objects.h:41 | planes and triangles (objects.h:186) report the same normal at every point |
| Resolver.Winner | main.cpp:109-145 | -1 or a valid index |
| Resolver.WinnerIsNearest | main.cpp:123-143 | -1 exactly when no distance is positive; otherwise a positive distance no larger than any positive one, and every later entry is a miss or strictly larger, so ties go to the last index |
| Resolver.MaxOrZero | main.cpp:126-129 | the largest distance, or 0 when none exceeds 0 |
| Resolver.WinningObjectIndex | main.cpp:109-145 | the two-pass scan returns the index of the nearest positive distance as `Winner` defines it, including for zero and one objects |
| Resolver.MaxPass | main.cpp:126-129 | the first loop computes the largest distance, starting from 0 |
| Resolver.NearestPass | main.cpp:132-140 | from a start at least every distance, the second loop finds the nearest positive one |
| Resolver.WinnerExamples | main.cpp:114-143 | concrete cases: a hit among misses, all misses, no objects, a tie |
| Resolver.WinnerAppend | main.cpp:134-139 | appending a miss changes nothing; appending a distance nearer than every positive one makes it the winner |
| Shader.Intersections | main.cpp:185-190 | one distance per object, in list order |
| Shader.FindIntersections | main.cpp:185-190 | the loop of findIntersection calls yields those distances and leaves every triangle holding its own unit normal and plane distance (objects.h:193-194) |
| Shader.Tile | main.cpp:157-167 | the tile is Color(0,0,0,0) exactly when floor(x) + floor(z) is even and Color(1,1,1,0) otherwise; both are in [0, 1] with tag 0 |
| Shader.SurfaceColor | main.cpp:158-167 | a surface not tagged 2 keeps its colour; a checkerboard surface becomes the tile under the point, with channels in [0, 1] and tag 0 |
| Shader.TilesAlternate | main.cpp:161-166 | a whole number k of units along x or along z keeps the tile exactly when k is even |
| Shader.CheckerboardIsMatte | main.cpp:158-172 | a checkerboard surface never takes the reflective branch |
| Shader.Reflect | main.cpp:175-179 | the source's expression -d + 2 (n (n . -d) + d) is d - 2 (n . d) n; about a unit normal the reflected direction reverses the normal component and keeps the length |
| Shader.MirrorLaw | main.cpp:175-180 | d - 2 (n . d) n reverses the normal component and keeps the length |
| Shader.ShadowRule | main.cpp:235-245 | shadowed exactly when some distance beyond accuracy is within the light distance and no earlier distance is beyond accuracy |
| Shader.Shadowed | main.cpp:235-245 | never shadowed when no distance lies beyond accuracy, nor when the light distance is within accuracy |
| Shader.ShadowTest | main.cpp:235-245 | the loop with its `break` decides as the shadow rule says |
| Shader.LightDistanceIsOne | main.cpp:225-226 | the light distance compared against is always 1 |
| Shader.LightDirection | main.cpp:216 | with a lawful sqrt, NaN (None) exactly when the light sits on the hit point; otherwise a unit vector |
| Shader.LightStep | main.cpp:216-270 | one light keeps the tag of the colour accumulated so far |
| Shader.Illuminate | main.cpp:214-271 | the light loop keeps the tag of the colour it starts from |
| Shader.EvenPowerNonNegative | main.cpp:265 | an even power is never negative |
| Shader.SpecularWeightNonNegative | main.cpp:265 | pow(specular, 10) is never negative |
| Shader.Highlight | main.cpp:251-268 | with a non-negative light colour and tag, the specular term never darkens a channel |
| Shader.Brightens | main.cpp:263-267 | adding the light colour scaled by pow(x, 10) times a non-negative tag darkens no channel |
| Shader.LightGate | main.cpp:216-249 | a light changes the colour only when the normal and light direction exist, cosAngle is positive and the point is not shadowed |
| Shader.LightNeverDarkens | main.cpp:214-271 | with non-negative colours and tag, one light never darkens a channel |
| Shader.DiffuseNonNegative | main.cpp:249 | the diffuse term of non-negative colours at a positive cosAngle is non-negative |
| Shader.IlluminateNeverDarkens | main.cpp:214-271 | the whole light loop never darkens a channel |
| Shader.Reflected | main.cpp:169-211 | the ambient term plus the reflection keeps the surface's tag |
| Shader.Mirrored | main.cpp:182-210 | adding the mirror ray's contribution keeps the tag |
| Shader.Shade | main.cpp:150-274 | the colour seen at a hit has every channel in [0, 1] and the surface's tag |
| Shader.MatteIgnoresFuel | main.cpp:171-211 | a non-reflective surface is shaded the same whatever the reflection depth |
| Shader.AddLight | main.cpp:216-270 | one pass of the light loop, shadow rays included, computes the light's contribution; every triangle is either untouched or holds its own normal and plane distance |
| Shader.SpecularHighlight | main.cpp:251-268 | the specular statements compute the highlight |
| Shader.GetColorAt | main.cpp:150-274 | getColorAt returns the shade at the hit: channels in [0, 1], tagged like the surface; every triangle is either untouched or holds its own normal and plane distance |
| Shader.ReflectedColor | main.cpp:169-211 | the ambient and reflection statements compute the reflected colour; every triangle is either untouched or holds its own normal and plane distance |
| Shader.TraceMirror | main.cpp:182-210 | casting and shading the mirror ray computes its contribution; every triangle is either untouched or holds its own normal and plane distance |
| Shader.LightLoop | main.cpp:214-271 | the loop over the lights applies every light in list order; every triangle is either untouched or holds its own normal and plane distance |
| Bitmap.Narrow | main.cpp:55-83 | the cast to unsigned char keeps the value modulo 256, and a value already in [0, 256) unchanged |
| Bitmap.Truncate | main.cpp:47-48 | static_cast<int> rounds toward zero |
| Bitmap.LE32 | main.cpp:55-58 | the four stored bytes of a field |
| Bitmap.LE32RoundTrip | main.cpp:55-83 | read back unsigned, the four bytes are x modulo 2^32 |
| Bitmap.LE32SignedRoundTrip | main.cpp:55-83 | read back signed, the four bytes are x for every int |
| Bitmap.FileHeader | main.cpp:52-58 | the file header is 14 bytes |
| Bitmap.InfoHeader | main.cpp:53-83 | the info header is 40 bytes |
| Bitmap.ImageSize | main.cpp:43-44 | s = 4 w h is a multiple of 4, non-negative for non-negative sizes |
| Bitmap.FileSize | main.cpp:45 | the declared file size covers at least the two 54 header bytes |
| Bitmap.PixelsPerMeter | main.cpp:47-50 | static_cast<int>(39.375) makes the resolution dpi * 39 |
| Bitmap.BmpFile | main.cpp:85-101 | the file is the 14-byte file header, the 40-byte info header, then 3 bytes for each of the w h pixels (none when w h < 0) |
| Bitmap.Channel | main.cpp:92-98 | a channel in [0, 1] becomes floor(c * 255) |
| Bitmap.PixelBytes | main.cpp:96-100 | three bytes per pixel |
| Bitmap.Pixels | main.cpp:90-101 | three bytes per pixel, for every pixel |
| Bitmap.Put | main.cpp:55-58 | storing a field keeps the header's length |
| Bitmap.FileHeaderFilled | main.cpp:52-58 | the initialiser with the file size stored into it is the file header |
| Bitmap.InfoHeaderFilled | main.cpp:53-83 | the initialiser with the five fields stored into it is the info header |
| Bitmap.StoreLE32 | main.cpp:55-58 | four byte stores in place write the field's bytes and change nothing else |
| Bitmap.FillFileHeader | main.cpp:43-58 | the file header array, filled in place, is the file header |
| Bitmap.FillInfoHeader | main.cpp:43-83 | the info header array, filled in place, is the info header |
| Bitmap.SaveBmp | main.cpp:39-104 | the bytes written are the two headers followed by the first w*h pixels |
| Bitmap.WritePixels | main.cpp:90-101 | the pixel loop appends k pixels, none when k < 0 |
| Bitmap.PixelLayout | main.cpp:90-101 | pixel i is at bytes 3i to 3i+2, blue, green, red |
| Bitmap.ChannelRange | main.cpp:92-98 | 0 becomes 0, 1 becomes 255, the conversion is monotone, and it rounds down |
| Bitmap.HeaderFields | main.cpp:43-83 | read back at savebmp's offsets: 'BM', 54 + 4wh, 54, 40, w, h, 1, 24, 4wh, dpi*39 and dpi*39 |
| Bitmap.ImageSizeOneByteLate | main.cpp:70-73 | a reader using the BMP offset 20 sees 256 times the image size, modulo 2^32 |
| Bitmap.DeclaredSizeVersusWritten | main.cpp:43-101 | 54 + 3wh bytes are written, and the declared file size exceeds that by wh |

## Left out

- IEEE floating point: rounding, NaN propagation beyond the branches above,
  and the narrowing of cosAngle and lightDistMagnitude to `float`
  (main.cpp:218, 226). Coordinates are exact reals.
- The square root and `pow` are parameters. Their behaviour is assumed only
  through `SqrtLaw` and `PowLaw`. The specular term calls `pow` with
  exponent 10 (main.cpp:265) and is modelled through the `pow` parameter. The
  squares `pow(·, 2)` of `findIntersection` (objects.h:118-120) are written
  as exact products, so they need no parameter.
- Shader.Shade: reflection recursion is bounded by `fuel`. The source recurses
  without a bound. With no fuel left, the model adds no reflected term.
- Shader.GetColorAt: requires `iWinObj` to index the object list. The source
  would throw from `.at`; its callers always pass a winning index.
- Vectors.Vect.Normalize: requires a non-zero magnitude, where the source
  divides by zero. `TryNormalize`, which the rest of the model uses, covers
  that case as `None`.
- Bitmap.SaveBmp: requires the sizes to fit in an `int` (an overflow is
  undefined in the source) and at least w*h pixels in the buffer (the source
  reads past it otherwise).
- Bitmap.Channel: `(int)floor(c * 255)` is modelled as a floor followed by the
  byte cast. The overflow of `(int)` for huge values is not modelled.
- Shader.ReflectedColor and Shader.TraceMirror: when the surface normal or
  the reflected direction is NaN (`None`), the model casts no reflection ray.
  The source still calls `findIntersection` on every object with the NaN ray
  (main.cpp:182-190), and so rewrites the triangles' cached fields. The
  colour is the same either way, and `Refreshed` allows both outcomes.
- Shader.Tile: `(int)floor` of a coordinate beyond the range of `int` is not
  modelled.
- Objects.Triangle.constructor and Objects.Triangle.Default: both source
  constructors leave `distance` uninitialised. The model starts it at 0. The normal starts as the default (zero) vector, as in
  the source.
- Colors.ColorCell.SetColorRed, SetColorGreen, SetColorBlue and
  SetColorSpecial: the C++ setters declare a `double` result but return
  nothing. The model is a plain field update.
- Objects.TriangleHitIffInside: only rays whose hit point is given in
  barycentric form are covered. Every point of a proper triangle's plane has
  that form, but the model does not prove it.
- The `main()` driver is not part of this model: the pixel loop, the camera
  basis, the aspect ratio, anti-aliasing, timing and console output.
- Opening, writing and closing the BMP file are not modelled. `SaveBmp`
  returns the bytes it would write.
- `sources.h`, `camera.h` and `ray.h` only hold values with getters. They
  appear as plain datatypes (`Light`, `Camera`) with no properties. The
  duplicate ray of `ray.h` is not part of this model.
- The helper methods `MaxPass`, `NearestPass`, `Spread`, `Saturate`,
  `WritePixels`, `TraceMirror`, `SpecularHighlight`, `ReflectedColor`,
  `LightLoop` and `AddLight` are pieces of the source functions, split so
  each can be proved on its own.
