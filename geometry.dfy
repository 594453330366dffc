/**
 * Scalar and point helpers of the shatter effect: clamping, sign, the
 * range-scaled random draw, the bounding box and centroid of a triangle,
 * and the per-fragment rotation and delay rules.
 *
 * Coordinates are exact reals; the source computes in IEEE doubles.
 */
module Geometry {

  datatype Point = Point(x: real, y: real)

  /** `clamp(x, min, max)`: `x` pulled into `[lo, hi]`. */
  function Clamp(x: real, lo: real, hi: real): (r: real)
    ensures r == lo || r == hi || r == x
    ensures lo <= hi ==> lo <= r <= hi
    ensures lo <= x <= hi ==> r == x
  {
    if x < lo then lo else if x > hi then hi else x
  }

  lemma ClampIdempotent(x: real, lo: real, hi: real)
    requires lo <= hi
    ensures Clamp(Clamp(x, lo, hi), lo, hi) == Clamp(x, lo, hi)
  {
  }

  /** With an empty range the guard order decides: a value below `lo` gives `lo`, anything else gives `hi`. */
  lemma ClampEmptyRange(x: real, lo: real, hi: real)
    requires hi < lo
    ensures Clamp(x, lo, hi) == if x < lo then lo else hi
  {
  }

  /** `sign(x)`: -1 for negative numbers, 1 otherwise (zero included). */
  function Sign(x: real): (s: int)
    ensures s == -1 <==> x < 0.0
    ensures s == 1 <==> x >= 0.0
  {
    if x < 0.0 then -1 else 1
  }

  /**
   * `randomRange(min, max)`, with the value of `Math.random()` passed in as
   * `u`, a draw from `[0, 1)`.
   */
  function RandomRange(lo: real, hi: real, u: real): (r: real)
    requires 0.0 <= u < 1.0
    ensures lo <= hi ==> lo <= r <= hi
    ensures lo < hi ==> r < hi
    ensures lo == hi ==> r == lo
  {
    var s := hi - lo;
    var t := s * u;
    ScaleBelow(s, u);
    assert s >= 0.0 ==> 0.0 <= t <= s;
    assert s > 0.0 ==> t < s;
    assert s == 0.0 ==> t == 0.0;
    lo + t
  }

  /** For a non-negative span `s` and a draw `u` in `[0, 1)`, `s * u` lies in `[0, s]`, strictly below `s` when `s > 0`. */
  lemma ScaleBelow(s: real, u: real)
    requires 0.0 <= u < 1.0
    ensures s >= 0.0 ==> 0.0 <= s * u <= s
    ensures s > 0.0 ==> s * u < s
  {
    if s > 0.0 {
      assert s * u < s * 1.0;
    } else if s == 0.0 {
      assert s * u == 0.0;
    }
  }

  function Min3(a: real, b: real, c: real): (m: real)
    ensures m <= a && m <= b && m <= c
    ensures m == a || m == b || m == c
  {
    if a <= b && a <= c then a else if b <= c then b else c
  }

  function Max3(a: real, b: real, c: real): (m: real)
    ensures m >= a && m >= b && m >= c
    ensures m == a || m == b || m == c
  {
    if a >= b && a >= c then a else if b >= c then b else c
  }

  /** An axis-aligned box: origin `(x, y)`, width `w`, height `h`. */
  datatype Box = Box(x: real, y: real, w: real, h: real)

  predicate Encloses(b: Box, p: Point)
  {
    b.x <= p.x <= b.x + b.w && b.y <= p.y <= b.y + b.h
  }

  /**
   * `Fragment.computeBoundingBox`: the box encloses all three vertices and
   * each of its four sides passes through one of them, so it is the least
   * such box (see BoundingBoxMinimal).
   */
  function BoundingBox(v0: Point, v1: Point, v2: Point): (b: Box)
    ensures b.w >= 0.0 && b.h >= 0.0
    ensures Encloses(b, v0) && Encloses(b, v1) && Encloses(b, v2)
    ensures b.x == v0.x || b.x == v1.x || b.x == v2.x
    ensures b.y == v0.y || b.y == v1.y || b.y == v2.y
    ensures b.x + b.w == v0.x || b.x + b.w == v1.x || b.x + b.w == v2.x
    ensures b.y + b.h == v0.y || b.y + b.h == v1.y || b.y + b.h == v2.y
  {
    var xMin := Min3(v0.x, v1.x, v2.x);
    var xMax := Max3(v0.x, v1.x, v2.x);
    var yMin := Min3(v0.y, v1.y, v2.y);
    var yMax := Max3(v0.y, v1.y, v2.y);
    Box(xMin, yMin, xMax - xMin, yMax - yMin)
  }

  /** Every box that encloses the three vertices encloses their bounding box. */
  lemma BoundingBoxMinimal(v0: Point, v1: Point, v2: Point, c: Box)
    requires Encloses(c, v0) && Encloses(c, v1) && Encloses(c, v2)
    ensures var b := BoundingBox(v0, v1, v2);
      c.x <= b.x && b.x + b.w <= c.x + c.w && c.y <= b.y && b.y + b.h <= c.y + c.h
  {
  }

  /** Vertices on one vertical (horizontal) line give a box of width (height) zero. */
  lemma BoundingBoxFlat(v0: Point, v1: Point, v2: Point)
    ensures v0.x == v1.x == v2.x ==> BoundingBox(v0, v1, v2).w == 0.0
    ensures v0.y == v1.y == v2.y ==> BoundingBox(v0, v1, v2).h == 0.0
  {
  }

  /** Collinear vertices on a diagonal still give a box of positive width and height. */
  lemma BoundingBoxDiagonal(a: real, d: real)
    requires d > 0.0
    ensures BoundingBox(Point(a, a), Point(a + d, a + d), Point(a + 2.0 * d, a + 2.0 * d)) == Box(a, a, 2.0 * d, 2.0 * d)
  {
    assert Min3(a, a + d, a + 2.0 * d) == a;
    assert Max3(a, a + d, a + 2.0 * d) == a + 2.0 * d;
  }

  /** `Fragment.computeCentroid`: the mean of the three vertices. */
  function Centroid(v0: Point, v1: Point, v2: Point): (c: Point)
    ensures 3.0 * c.x == v0.x + v1.x + v2.x
    ensures 3.0 * c.y == v0.y + v1.y + v2.y
  {
    Point((v0.x + v1.x + v2.x) / 3.0, (v0.y + v1.y + v2.y) / 3.0)
  }

  lemma CentroidInBox(v0: Point, v1: Point, v2: Point)
    ensures Encloses(BoundingBox(v0, v1, v2), Centroid(v0, v1, v2))
  {
  }

  /** Moving the three vertices by `(tx, ty)` moves the centroid by the same amount. */
  lemma CentroidTranslates(v0: Point, v1: Point, v2: Point, tx: real, ty: real)
    ensures Centroid(Point(v0.x + tx, v0.y + ty), Point(v1.x + tx, v1.y + ty), Point(v2.x + tx, v2.y + ty))
         == Point(Centroid(v0, v1, v2).x + tx, Centroid(v0, v1, v2).y + ty)
  {
  }

  lemma CentroidExample()
    ensures Centroid(Point(0.0, 0.0), Point(6.0, 0.0), Point(0.0, 6.0)) == Point(2.0, 2.0)
  {
  }

  /** `rx = 30 * sign(dy)`: tilt about the x axis, negative exactly when the fragment lies above the click. */
  function RotationX(dy: real): (rx: int)
    ensures rx == 30 || rx == -30
    ensures rx == -30 <==> dy < 0.0
  {
    30 * Sign(dy)
  }

  /** `ry = 90 * -sign(dx)`: turn about the y axis, negative exactly when the fragment lies right of (or level with) the click. */
  function RotationY(dx: real): (ry: int)
    ensures ry == 90 || ry == -90
    ensures ry == -90 <==> dx >= 0.0
  {
    90 * -Sign(dx)
  }

  lemma RotationExample()
    ensures RotationX(-10.0) == -30 && RotationY(10.0) == -90
  {
  }

  /**
   * `delay = d * 0.003 * jitter`, where `d` is the distance from the click;
   * with the jitter drawn from `[0.9, 1.1]` the delay stays within 10% of
   * `0.003 * d`.
   */
  function Delay(d: real, jitter: real): (t: real)
    ensures d >= 0.0 && 0.9 <= jitter <= 1.1 ==> 0.0027 * d <= t <= 0.0033 * d
  {
    var k := d * 0.003;
    assert d >= 0.0 && 0.9 <= jitter <= 1.1 ==> k * 0.9 <= k * jitter <= k * 1.1;
    k * jitter
  }

  /** Multiplying by a positive factor keeps a strict order. */
  lemma ScaleStrict(x: real, y: real, k: real)
    requires x < y && k > 0.0
    ensures x * k < y * k
  {
    assert y * k - x * k == (y - x) * k;
  }

  /** For one jitter value, a fragment further from the click starts later. */
  lemma DelayMonotone(d1: real, d2: real, jitter: real)
    requires 0.0 <= d1 < d2 && jitter > 0.0
    ensures Delay(d1, jitter) < Delay(d2, jitter)
  {
    var a1, a2 := d1 * 0.003, d2 * 0.003;
    assert a1 < a2;
    ScaleStrict(a1, a2, jitter);
    assert Delay(d1, jitter) == a1 * jitter;
    assert Delay(d2, jitter) == a2 * jitter;
  }
}
