/** The point type the controller exchanges with its collaborators. */
module Points {

  /** A 2-D position in frame or screen coordinates. Camera Mouse Suite's Point class
      is not part of this model; its coordinates are compared with integer constants
      and with a double threshold, so they are modelled as reals. */
  datatype Point = Point(x: real, y: real)

  function Sub(a: Point, b: Point): Point
  {
    Point(a.x - b.x, a.y - b.y)
  }

  /** `p * q` on points: the dot product. */
  function Dot(a: Point, b: Point): real
  {
    a.x * b.x + a.y * b.y
  }

  /** Component-wise halving, as in `getScreenResolution()/2`. */
  function Half(p: Point): (h: Point)
    ensures 2.0 * h.x == p.x && 2.0 * h.y == p.y
  {
    Point(p.x / 2.0, p.y / 2.0)
  }

  /** The squared displacement `disp * disp` with `disp = a - b`: a squared
      Euclidean distance, never a square root. */
  function SquaredDistance(a: Point, b: Point): (d: real)
    ensures d >= 0.0
    ensures a == b ==> d == 0.0
  {
    var disp := Sub(a, b);
    assert disp.x * disp.x >= 0.0 && disp.y * disp.y >= 0.0;
    Dot(disp, disp)
  }

  /** The displacement test does not depend on which point is subtracted from which. */
  lemma SquaredDistanceSymmetric(a: Point, b: Point)
    ensures SquaredDistance(a, b) == SquaredDistance(b, a)
  {
  }
}
