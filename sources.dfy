/**
 * Light sources and the camera (sources.h, camera.h): holders of values
 * with getters only. The scene's ray type is the one in `Vectors`; the
 * duplicate in ray.h is not part of this model.
 */
module Sources {
  import opened Vectors
  import opened Colors

  /** A point light: a position and the colour it emits. */
  datatype Light = Light(position: Vect, color: Color)

  /** What the base `Source` class and a default-constructed `Light` report. */
  const DefaultLight := Light(Zero, Color(1.0, 1.0, 1.0, 0.0))

  datatype Camera = Camera(position: Vect, direction: Vect, right: Vect, down: Vect)

  const DefaultCamera := Camera(Zero, Vect(0.0, 0.0, 1.0), Zero, Zero)
}
