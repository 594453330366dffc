/**
 * The vertex buffer that `triangulate` builds: the click position followed
 * by four jittered rings of twelve points, every vertex then clamped into
 * the viewport `[0, width] x [0, height]`; and the contract assumed of the
 * Delaunay triangulation that turns that buffer into index triples.
 *
 * `Math.cos`, `Math.sin` are the parameters `cos`, `sin`; the successive
 * values of `Math.random()` are the sequence `draws`.
 */
module Sampler {
  import opened Geometry

  /** One ring: its radius and how many points are placed on it. */
  datatype Ring = Ring(radius: real, count: nat)

  const Rings: seq<Ring> := [Ring(50.0, 12), Ring(150.0, 12), Ring(300.0, 12), Ring(1200.0, 12)]

  /** `TWO_PI = Math.PI * 2`, written as the shortest decimal that rounds to that double. */
  const TwoPi: real := 6.283185307179586

  /** Number of points on all rings together. */
  const SampleCount: nat := 48

  /** Length of the vertex buffer: the click position plus every ring point. */
  const VertexCount: nat := 49

  /** Every ring carries the same number of points. */
  const PointsPerRing: nat := 12

  lemma RingsShape()
    ensures |Rings| * PointsPerRing == SampleCount
    ensures forall r :: 0 <= r < |Rings| ==> Rings[r].count == PointsPerRing
  {
  }

  /** Every value taken from `Math.random()` lies in `[0, 1)`. */
  predicate UnitDraws(draws: seq<real>)
  {
    forall k :: 0 <= k < |draws| ==> 0.0 <= draws[k] < 1.0
  }

  /** Angle of point `i` of a ring of `count` points: `(i / count) * TWO_PI`, one turn split evenly and starting at 0. */
  function Angle(i: nat, count: nat): (a: real)
    requires i < count
    ensures 0.0 <= a < TwoPi
    ensures i == 0 ==> a == 0.0
  {
    var f := i as real / count as real;
    assert f < 1.0 by {
      assert f * count as real == i as real;
    }
    f * TwoPi
  }

  /**
   * Where point `i` of `ring` would sit without jitter: at its angle on the
   * circle of the ring's radius around the click, whenever `cos` and `sin`
   * satisfy `cos^2 + sin^2 = 1` at that angle.
   */
  function Ideal(ring: Ring, i: nat, click: Point, cos: real -> real, sin: real -> real): (q: Point)
    requires i < ring.count
    ensures var a := Angle(i, ring.count);
      cos(a) * cos(a) + sin(a) * sin(a) == 1.0 ==>
        (q.x - click.x) * (q.x - click.x) + (q.y - click.y) * (q.y - click.y) == ring.radius * ring.radius
  {
    var a := Angle(i, ring.count);
    var c, s, r := cos(a), sin(a), ring.radius;
    assert (c * r) * (c * r) + (s * r) * (s * r) == (c * c + s * s) * (r * r);
    Point(c * r + click.x, s * r + click.y)
  }

  /**
   * Point `i` of `ring` before clamping, jittered in x by the draw `ux` and
   * in y by the draw `uy`: each coordinate lies within a quarter of the
   * ring's radius of the unjittered position.
   */
  function RingPoint(ring: Ring, i: nat, click: Point, cos: real -> real, sin: real -> real, ux: real, uy: real): (p: Point)
    requires i < ring.count
    requires 0.0 <= ux < 1.0 && 0.0 <= uy < 1.0
    ensures var q, v := Ideal(ring, i, click, cos, sin), ring.radius * 0.25;
      ring.radius >= 0.0 ==> q.x - v <= p.x <= q.x + v && q.y - v <= p.y <= q.y + v
  {
    var variance := ring.radius * 0.25;
    var q := Ideal(ring, i, click, cos, sin);
    Point(q.x + RandomRange(-variance, variance, ux), q.y + RandomRange(-variance, variance, uy))
  }

  /** The coordinates of a ring point, as `triangulate` writes them out. */
  lemma RingPointCoordinates(ring: Ring, i: nat, click: Point, cos: real -> real, sin: real -> real, ux: real, uy: real)
    requires i < ring.count
    requires 0.0 <= ux < 1.0 && 0.0 <= uy < 1.0
    ensures var v := ring.radius * 0.25;
      RingPoint(ring, i, click, cos, sin, ux, uy)
        == Point(cos(Angle(i, ring.count)) * ring.radius + click.x + RandomRange(-v, v, ux),
                 sin(Angle(i, ring.count)) * ring.radius + click.y + RandomRange(-v, v, uy))
  {
    var v := ring.radius * 0.25;
    var q := Ideal(ring, i, click, cos, sin);
    assert q == Point(cos(Angle(i, ring.count)) * ring.radius + click.x, sin(Angle(i, ring.count)) * ring.radius + click.y);
    assert RingPoint(ring, i, click, cos, sin, ux, uy) == Point(q.x + RandomRange(-v, v, ux), q.y + RandomRange(-v, v, uy));
  }

  /**
   * Sample `k` of the ring loops: point `k % 12` of ring `k / 12`, whose x
   * and y offsets use draws `2k` and `2k + 1` (x is computed before y).
   */
  function Sample(k: nat, click: Point, cos: real -> real, sin: real -> real, draws: seq<real>): (p: Point)
    requires k < SampleCount && |draws| == 2 * SampleCount && UnitDraws(draws)
  {
    RingsShape();
    RingPoint(Rings[k / PointsPerRing], k % PointsPerRing, click, cos, sin, draws[2 * k], draws[2 * k + 1])
  }

  /** The buffer before clamping: the click position, then the 48 samples in loop order. */
  function RawVertices(click: Point, cos: real -> real, sin: real -> real, draws: seq<real>): (vs: seq<Point>)
    requires |draws| == 2 * SampleCount && UnitDraws(draws)
    ensures |vs| == VertexCount && vs[0] == click
    ensures forall k :: 0 <= k < SampleCount ==> vs[1 + k] == Sample(k, click, cos, sin, draws)
  {
    [click] + seq(SampleCount, k requires 0 <= k < SampleCount => Sample(k, click, cos, sin, draws))
  }

  /** `vs` holds the click position followed by the first `n` samples, as the ring loops leave it. */
  ghost predicate SampledPrefix(vs: seq<Point>, n: nat, click: Point, cos: real -> real, sin: real -> real, draws: seq<real>)
    requires n <= SampleCount && |draws| == 2 * SampleCount && UnitDraws(draws)
  {
    |vs| == 1 + n && vs[0] == click &&
    forall k :: 0 <= k < n ==> vs[1 + k] == Sample(k, click, cos, sin, draws)
  }

  /** Appending point `i` of ring `r`, built from draws `next` and `next + 1`, extends the sampled prefix by one. */
  lemma SampledPrefixExtend(vs: seq<Point>, click: Point, cos: real -> real, sin: real -> real, draws: seq<real>,
                            r: nat, i: nat, next: nat, p: Point)
    requires |draws| == 2 * SampleCount && UnitDraws(draws)
    requires r < |Rings| && i < Rings[r].count && next == 2 * (PointsPerRing * r + i)
    requires SampledPrefix(vs, PointsPerRing * r + i, click, cos, sin, draws)
    requires p == RingPoint(Rings[r], i, click, cos, sin, draws[next], draws[next + 1])
    ensures SampledPrefix(vs + [p], PointsPerRing * r + i + 1, click, cos, sin, draws)
  {
    SampleAt(click, cos, sin, draws, r, i);
  }

  lemma SampledPrefixComplete(vs: seq<Point>, click: Point, cos: real -> real, sin: real -> real, draws: seq<real>)
    requires |draws| == 2 * SampleCount && UnitDraws(draws)
    requires SampledPrefix(vs, SampleCount, click, cos, sin, draws)
    ensures vs == RawVertices(click, cos, sin, draws)
  {
  }

  predicate InViewport(p: Point, width: nat, height: nat)
  {
    0.0 <= p.x <= width as real && 0.0 <= p.y <= height as real
  }

  /** One vertex clamped into the viewport; a vertex already inside stays where it is. */
  function ClampPoint(p: Point, width: nat, height: nat): (r: Point)
    ensures InViewport(r, width, height)
    ensures InViewport(p, width, height) ==> r == p
  {
    Point(Clamp(p.x, 0.0, width as real), Clamp(p.y, 0.0, height as real))
  }

  /** Every vertex of the buffer clamped, in place and in order. */
  function ClampAll(vs: seq<Point>, width: nat, height: nat): (r: seq<Point>)
    ensures |r| == |vs|
    ensures forall j :: 0 <= j < |vs| ==> r[j] == ClampPoint(vs[j], width, height)
  {
    if vs == [] then [] else [ClampPoint(vs[0], width, height)] + ClampAll(vs[1..], width, height)
  }

  /** The first `j` vertices of `vs` are those of `raw` clamped, the rest are still those of `raw`. */
  ghost predicate ClampedPrefix(vs: seq<Point>, raw: seq<Point>, j: nat, width: nat, height: nat)
  {
    |vs| == |raw| && j <= |raw| &&
    (forall m :: 0 <= m < j ==> vs[m] == ClampPoint(raw[m], width, height)) &&
    (forall m :: j <= m < |raw| ==> vs[m] == raw[m])
  }

  lemma ClampStep(vs: seq<Point>, raw: seq<Point>, j: nat, width: nat, height: nat)
    requires ClampedPrefix(vs, raw, j, width, height) && j < |raw|
    ensures ClampedPrefix(vs[j := ClampPoint(vs[j], width, height)], raw, j + 1, width, height)
  {
  }


  lemma {:induction false} ClampAllIdempotent(vs: seq<Point>, width: nat, height: nat)
    ensures ClampAll(ClampAll(vs, width, height), width, height) == ClampAll(vs, width, height)
  {
    var once := ClampAll(vs, width, height);
    var twice := ClampAll(once, width, height);
    assert |twice| == |once|;
    forall j | 0 <= j < |once|
      ensures twice[j] == once[j]
    {
      assert InViewport(once[j], width, height);
    }
  }

  /**
   * The vertex buffer `triangulate` leaves in `vertices`: 49 points, the
   * first the clamped click position, all inside the viewport.
   */
  function VertexBuffer(click: Point, cos: real -> real, sin: real -> real, draws: seq<real>, width: nat, height: nat): (vs: seq<Point>)
    requires |draws| == 2 * SampleCount && UnitDraws(draws)
    ensures |vs| == VertexCount
    ensures vs[0] == ClampPoint(click, width, height)
    ensures forall j :: 0 <= j < |vs| ==> InViewport(vs[j], width, height)
  {
    ClampAll(RawVertices(click, cos, sin, draws), width, height)
  }

  /** Once every vertex of the unclamped buffer is clamped, the buffer is the one `triangulate` leaves. */
  lemma ClampedComplete(vs: seq<Point>, click: Point, cos: real -> real, sin: real -> real, draws: seq<real>, width: nat, height: nat)
    requires |draws| == 2 * SampleCount && UnitDraws(draws)
    requires ClampedPrefix(vs, RawVertices(click, cos, sin, draws), VertexCount, width, height)
    ensures vs == VertexBuffer(click, cos, sin, draws, width, height)
  {
  }

  /** Sample `12 * r + i` is point `i` of ring `r`, with draws `2k` and `2k + 1`. */
  lemma SampleAt(click: Point, cos: real -> real, sin: real -> real, draws: seq<real>, r: nat, i: nat)
    requires |draws| == 2 * SampleCount && UnitDraws(draws)
    requires r < |Rings| && i < Rings[r].count
    ensures var k := PointsPerRing * r + i;
      k < SampleCount &&
      Sample(k, click, cos, sin, draws) == RingPoint(Rings[r], i, click, cos, sin, draws[2 * k], draws[2 * k + 1])
  {
    var k := PointsPerRing * r + i;
    assert k / PointsPerRing == r && k % PointsPerRing == i;
  }

  /** Vertex `1 + 12 * r + i` of the buffer is point `i` of ring `r`, clamped. */
  lemma VertexBufferRingPoint(click: Point, cos: real -> real, sin: real -> real, draws: seq<real>, width: nat, height: nat, r: nat, i: nat)
    requires |draws| == 2 * SampleCount && UnitDraws(draws)
    requires r < |Rings| && i < Rings[r].count
    ensures var k := PointsPerRing * r + i;
      VertexBuffer(click, cos, sin, draws, width, height)[1 + k]
        == ClampPoint(RingPoint(Rings[r], i, click, cos, sin, draws[2 * k], draws[2 * k + 1]), width, height)
  {
    var k := PointsPerRing * r + i;
    SampleAt(click, cos, sin, draws, r, i);
    var raw := RawVertices(click, cos, sin, draws);
    assert raw[1 + k] == Sample(k, click, cos, sin, draws);
    assert VertexBuffer(click, cos, sin, draws, width, height)[1 + k] == ClampPoint(raw[1 + k], width, height);
  }

  /**
   * What a Delaunay triangulation of `n` vertices is assumed to return: a
   * whole number of index triples, every index naming one of the vertices.
   */
  predicate ValidIndices(indices: seq<int>, n: nat)
  {
    |indices| % 3 == 0 && forall k :: 0 <= k < |indices| ==> 0 <= indices[k] < n
  }
}
