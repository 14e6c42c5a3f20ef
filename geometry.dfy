/**
 * Points, vectors and colours of the rendering layer.
 *
 * Coordinates are `real`: the source computes in double precision, and its
 * tolerance checks are not modelled. Translation, scaling, negation and the
 * midpoint are plain arithmetic; normalisation and distances need square
 * roots and are supplied by the caller (see `Figures.GeometryLibrary`).
 */
module Geometry {

  datatype Point = Point(x: real, y: real, z: real)

  datatype Vector = Vector(x: real, y: real, z: real)

  /** An opaque colour of one side of a face. */
  datatype Color = Color(rgb: int)

  /** `p.translate(v)`. */
  function Translate(p: Point, v: Vector): (q: Point)
    ensures q.x - p.x == v.x && q.y - p.y == v.y && q.z - p.z == v.z
  {
    Point(p.x + v.x, p.y + v.y, p.z + v.z)
  }

  /** `v.scale(k)`. */
  function Scale(v: Vector, k: real): Vector
  {
    Vector(v.x * k, v.y * k, v.z * k)
  }

  function Negate(v: Vector): Vector
  {
    Vector(-v.x, -v.y, -v.z)
  }

  /** `Point.midPoint(a, b)`. */
  function MidPoint(a: Point, b: Point): (m: Point)
    ensures m.x - a.x == b.x - m.x && m.y - a.y == b.y - m.y && m.z - a.z == b.z - m.z
  {
    Point((a.x + b.x) / 2.0, (a.y + b.y) / 2.0, (a.z + b.z) / 2.0)
  }

  /** The vector that takes `p` to `q`. */
  function Displacement(p: Point, q: Point): Vector
  {
    Vector(q.x - p.x, q.y - p.y, q.z - p.z)
  }

  /** Translating by two vectors one after the other is translating by their sum. */
  lemma TranslateTwice(p: Point, u: Vector, w: Vector)
    ensures Translate(Translate(p, u), w) == Translate(p, Vector(u.x + w.x, u.y + w.y, u.z + w.z))
  {
  }

  /** Scaling by a sum is adding the two scaled vectors. */
  lemma ScaleSum(v: Vector, a: real, b: real)
    ensures Scale(v, a + b) == Vector(Scale(v, a).x + Scale(v, b).x, Scale(v, a).y + Scale(v, b).y,
                                      Scale(v, a).z + Scale(v, b).z)
  {
    assert v.x * (a + b) == v.x * a + v.x * b;
    assert v.y * (a + b) == v.y * a + v.y * b;
    assert v.z * (a + b) == v.z * a + v.z * b;
  }

  /** Scaling a negated vector by k is scaling the vector by -k. */
  lemma ScaleNegate(v: Vector, k: real)
    ensures Scale(Negate(v), k) == Scale(v, -k)
  {
  }
}
