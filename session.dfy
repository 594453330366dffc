/**
 * The shatter session: the module-level state of the effect (click
 * position, vertex and index buffers, the fragments in the container, the
 * master timeline and the `isAnimating` flag) and the operations that
 * change it: `triangulate`, `shatter`, `initShatterAnimation`,
 * `restartShatterAnimation`, `shatterCompleteHandler` and the click handler.
 *
 * A fragment is a value: its three vertices, its bounding box and its
 * centroid. "In the container" is membership of `fragments`. The master
 * timeline is the sequence of tweens added to it, one per fragment.
 * `Math.sqrt` is the parameter `sqrt`, the Delaunay triangulation the
 * parameter `delaunay`, and the values of `Math.random()` are sequences of
 * draws.
 */
module Shatter {
  import opened Geometry
  import opened Sampler

  /**
   * A triangular shard: three vertices copied from the buffer. Its bounding
   * box and centroid, which the source stores when it constructs the
   * fragment and never changes, are functions of the vertices.
   */
  datatype Fragment = Fragment(v0: Point, v1: Point, v2: Point) {
    function BoundingBox(): (b: Box)
    {
      Geometry.BoundingBox(v0, v1, v2)
    }

    function Centroid(): (c: Point)
    {
      Geometry.Centroid(v0, v1, v2)
    }
  }

  /** The per-fragment tween: rotation about x and y, and its start offset in the master timeline. */
  datatype Tween = Tween(rx: int, ry: int, delay: real)

  /**
   * `d = Math.sqrt(dx * dx + dy * dy)`: the distance from the click to the
   * centroid, with `Math.sqrt` as `sqrt`; it is never negative when `sqrt`
   * is not negative on non-negative arguments.
   */
  function Distance(f: Fragment, click: Point, sqrt: real -> real): (d: real)
    ensures (forall x :: 0.0 <= x ==> 0.0 <= sqrt(x)) ==> 0.0 <= d
  {
    var dx := f.Centroid().x - click.x;
    var dy := f.Centroid().y - click.y;
    assert 0.0 <= dx * dx && 0.0 <= dy * dy;
    sqrt(dx * dx + dy * dy)
  }

  /**
   * The tween `shatter` schedules for fragment `f`: rotations from the
   * vector `(dx, dy)` from the click to the centroid, delay from the
   * distance and the jitter `randomRange(0.9, 1.1)` drawn from `u`. The
   * rotations have fixed sizes and their signs follow the side of the click
   * the centroid lies on; the delay is the distance times `0.003` times a
   * jitter in `[0.9, 1.1]`.
   */
  function TweenFor(f: Fragment, click: Point, sqrt: real -> real, u: real): (t: Tween)
    requires 0.0 <= u < 1.0
    ensures (t.rx == 30 || t.rx == -30) && (t.rx == -30 <==> f.Centroid().y < click.y)
    ensures (t.ry == 90 || t.ry == -90) && (t.ry == -90 <==> f.Centroid().x >= click.x)
    ensures exists j :: 0.9 <= j <= 1.1 && t.delay == Delay(Distance(f, click, sqrt), j)
  {
    var dx := f.Centroid().x - click.x;
    var dy := f.Centroid().y - click.y;
    var jitter := RandomRange(0.9, 1.1, u);
    Tween(RotationX(dy), RotationY(dx), Delay(Distance(f, click, sqrt), jitter))
  }

  /** For a non-negative distance `d`, a tween's delay is within 10% of `0.003 * d`. */
  lemma TweenDelay(f: Fragment, click: Point, sqrt: real -> real, u: real)
    requires 0.0 <= u < 1.0
    requires Distance(f, click, sqrt) >= 0.0
    ensures var d := Distance(f, click, sqrt);
      0.0027 * d <= TweenFor(f, click, sqrt, u).delay <= 0.0033 * d
  {
    var j := RandomRange(0.9, 1.1, u);
    assert TweenFor(f, click, sqrt, u).delay == Delay(Distance(f, click, sqrt), j);
  }

  /**
   * The fragments `shatter` builds from the buffers: one per index triple,
   * in order, fragment `k` from the vertices named by indices `3k`, `3k + 1`
   * and `3k + 2`.
   */
  function Fragments(vs: seq<Point>, idx: seq<int>): (fs: seq<Fragment>)
    requires ValidIndices(idx, |vs|)
    ensures |fs| == |idx| / 3
    ensures forall k :: 0 <= k < |fs| ==> fs[k] == Fragment(vs[idx[3 * k]], vs[idx[3 * k + 1]], vs[idx[3 * k + 2]])
    decreases |idx|
  {
    if idx == [] then []
    else
      var n := |idx| - 3;
      Fragments(vs, idx[..n]) + [Fragment(vs[idx[n]], vs[idx[n + 1]], vs[idx[n + 2]])]
  }

  /** Building one more triple extends the fragments built so far by one. */
  lemma FragmentsExtend(vs: seq<Point>, idx: seq<int>, i: nat)
    requires ValidIndices(idx, |vs|) && i % 3 == 0 && i + 3 <= |idx|
    ensures ValidIndices(idx[..i], |vs|) && ValidIndices(idx[..i + 3], |vs|)
    ensures Fragments(vs, idx[..i + 3])
         == Fragments(vs, idx[..i]) + [Fragment(vs[idx[i]], vs[idx[i + 1]], vs[idx[i + 2]])]
  {
    var p := idx[..i + 3];
    assert |p| == i + 3 && p[..i] == idx[..i];
    assert ValidIndices(p, |vs|);
    FragmentsSnoc(vs, p);
  }

  /** The last triple of a non-empty index buffer gives the last fragment. */
  lemma FragmentsSnoc(vs: seq<Point>, p: seq<int>)
    requires ValidIndices(p, |vs|) && |p| >= 3
    ensures var n := |p| - 3;
      ValidIndices(p[..n], |vs|) &&
      Fragments(vs, p) == Fragments(vs, p[..n]) + [Fragment(vs[p[n]], vs[p[n + 1]], vs[p[n + 2]])]
  {
    var n := |p| - 3;
    assert n % 3 == 0;
    assert ValidIndices(p[..n], |vs|);
    assert p != [];
  }

  /** Tween `k` of the timeline belongs to fragment `k`, with jitter drawn from `draws[k]`. */
  ghost predicate Scheduled(timeline: seq<Tween>, fragments: seq<Fragment>, click: Point, sqrt: real -> real, draws: seq<real>)
  {
    |timeline| == |fragments| == |draws| && UnitDraws(draws) &&
    forall k :: 0 <= k < |timeline| ==> timeline[k] == TweenFor(fragments[k], click, sqrt, draws[k])
  }

  /**
   * After the first `i / 3` index triples: the fragments are those built
   * from them and the timeline holds one tween per fragment, jittered by
   * the first `i / 3` draws.
   */
  ghost predicate BuiltPrefix(fragments: seq<Fragment>, timeline: seq<Tween>, vs: seq<Point>, idx: seq<int>, i: nat,
                              click: Point, sqrt: real -> real, draws: seq<real>)
  {
    i % 3 == 0 && i <= |idx| && 3 * |draws| == |idx| && UnitDraws(draws) &&
    ValidIndices(idx[..i], |vs|) && fragments == Fragments(vs, idx[..i]) &&
    Scheduled(timeline, fragments, click, sqrt, draws[..i / 3])
  }

  /** Building the fragment of triple `i / 3` and scheduling its tween extends the prefix by one triple. */
  lemma BuiltPrefixStep(fragments: seq<Fragment>, timeline: seq<Tween>, vs: seq<Point>, idx: seq<int>, i: nat,
                        click: Point, sqrt: real -> real, draws: seq<real>)
    requires ValidIndices(idx, |vs|) && i < |idx|
    requires BuiltPrefix(fragments, timeline, vs, idx, i, click, sqrt, draws)
    ensures i + 3 <= |idx| && i / 3 < |draws|
    ensures var f := Fragment(vs[idx[i]], vs[idx[i + 1]], vs[idx[i + 2]]);
      BuiltPrefix(fragments + [f], timeline + [TweenFor(f, click, sqrt, draws[i / 3])], vs, idx, i + 3, click, sqrt, draws)
  {
    FragmentsExtend(vs, idx, i);
    assert draws[..(i + 3) / 3] == draws[..i / 3] + [draws[i / 3]];
  }

  /** Once every triple is built, the fragments and timeline are those of the whole buffer. */
  lemma BuiltPrefixComplete(fragments: seq<Fragment>, timeline: seq<Tween>, vs: seq<Point>, idx: seq<int>,
                            click: Point, sqrt: real -> real, draws: seq<real>)
    requires BuiltPrefix(fragments, timeline, vs, idx, |idx|, click, sqrt, draws)
    ensures ValidIndices(idx, |vs|)
    ensures fragments == Fragments(vs, idx) && Scheduled(timeline, fragments, click, sqrt, draws)
  {
    assert idx[..|idx|] == idx;
    assert draws[..|idx| / 3] == draws;
  }

  class Session {
    var clickPosition: Point
    var vertices: seq<Point>
    var indices: seq<int>
    var fragments: seq<Fragment>
    var timeline: seq<Tween>
    var isAnimating: bool

    /** The index buffer names whole triangles of the vertex buffer. */
    ghost predicate BuffersValid()
      reads this
    {
      ValidIndices(indices, |vertices|)
    }

    /** Besides valid buffers: an idle session has no fragment in the container. */
    ghost predicate Valid()
      reads this
    {
      BuffersValid() && (!isAnimating ==> fragments == [])
    }

    /** The page's initial state: the click position at the centre of the window, everything else empty. */
    constructor (width: nat, height: nat)
      ensures Valid()
      ensures clickPosition == Point(width as real * 0.5, height as real * 0.5)
      ensures vertices == [] && indices == [] && fragments == [] && timeline == [] && !isAnimating
    {
      clickPosition := Point(width as real * 0.5, height as real * 0.5);
      vertices, indices, fragments, timeline := [], [], [], [];
      isAnimating := false;
    }

    /**
     * `triangulate`: the click position, then four rings of twelve jittered
     * points, all clamped into the viewport; the index buffer is the
     * Delaunay triangulation of that buffer.
     */
    method Triangulate(width: nat, height: nat, cos: real -> real, sin: real -> real, draws: seq<real>,
                       delaunay: seq<Point> -> seq<int>)
      requires Valid()
      requires |draws| == 2 * SampleCount && UnitDraws(draws)
      requires forall vs: seq<Point> :: ValidIndices(delaunay(vs), |vs|)
      modifies this
      ensures Valid()
      ensures vertices == VertexBuffer(clickPosition, cos, sin, draws, width, height)
      ensures indices == delaunay(vertices)
      ensures clickPosition == old(clickPosition) && fragments == old(fragments)
      ensures timeline == old(timeline) && isAnimating == old(isAnimating)
    {
      var click := clickPosition;
      RingsShape();
      vertices := [click];
      var next := 0;
      var r := 0;
      while r < |Rings|
        invariant 0 <= r <= |Rings|
        invariant next == 2 * PointsPerRing * r
        invariant SampledPrefix(vertices, PointsPerRing * r, click, cos, sin, draws)
        invariant clickPosition == old(clickPosition) && fragments == old(fragments)
        invariant timeline == old(timeline) && isAnimating == old(isAnimating)
      {
        var ring := Rings[r];
        var variance := ring.radius * 0.25;
        var i := 0;
        while i < ring.count
          invariant 0 <= i <= ring.count
          invariant next == 2 * (PointsPerRing * r + i)
          invariant SampledPrefix(vertices, PointsPerRing * r + i, click, cos, sin, draws)
          invariant clickPosition == old(clickPosition) && fragments == old(fragments)
          invariant timeline == old(timeline) && isAnimating == old(isAnimating)
        {
          var x := cos(Angle(i, ring.count)) * ring.radius + click.x + RandomRange(-variance, variance, draws[next]);
          var y := sin(Angle(i, ring.count)) * ring.radius + click.y + RandomRange(-variance, variance, draws[next + 1]);
          RingPointCoordinates(ring, i, click, cos, sin, draws[next], draws[next + 1]);
          SampledPrefixExtend(vertices, click, cos, sin, draws, r, i, next, Point(x, y));
          vertices := vertices + [Point(x, y)];
          next := next + 2;
          i := i + 1;
        }
        r := r + 1;
      }
      ghost var raw := vertices;
      SampledPrefixComplete(raw, click, cos, sin, draws);
      var j := 0;
      while j < |vertices|
        invariant j <= |vertices| && ClampedPrefix(vertices, raw, j, width, height)
        invariant clickPosition == old(clickPosition) && fragments == old(fragments)
        invariant timeline == old(timeline) && isAnimating == old(isAnimating)
      {
        ClampStep(vertices, raw, j, width, height);
        vertices := vertices[j := ClampPoint(vertices[j], width, height)];
        j := j + 1;
      }
      ClampedComplete(vertices, click, cos, sin, draws, width, height);
      indices := delaunay(vertices);
      assert ValidIndices(indices, |vertices|);
    }

    /**
     * `shatter`: ignored while a cycle is animating; otherwise it raises the
     * flag, starts a new master timeline, takes every old fragment out of
     * the container and puts in one new fragment per index triple, each with
     * its tween.
     */
    method Shatter(sqrt: real -> real, draws: seq<real>)
      requires BuffersValid()
      requires |draws| == |indices| / 3 && UnitDraws(draws)
      modifies this
      ensures Valid() && isAnimating
      ensures old(isAnimating) ==> fragments == old(fragments) && timeline == old(timeline)
      ensures !old(isAnimating) ==> fragments == Fragments(vertices, indices)
      ensures !old(isAnimating) ==> Scheduled(timeline, fragments, clickPosition, sqrt, draws)
      ensures vertices == old(vertices) && indices == old(indices) && clickPosition == old(clickPosition)
    {
      if isAnimating {
        return;
      }
      isAnimating := true;
      timeline := [];
      fragments := [];
      var i := 0;
      assert indices[..0] == [] && draws[..0] == [];
      while i < |indices|
        invariant BuiltPrefix(fragments, timeline, vertices, indices, i, clickPosition, sqrt, draws)
        invariant isAnimating
        invariant vertices == old(vertices) && indices == old(indices) && clickPosition == old(clickPosition)
      {
        var fragment := Fragment(vertices[indices[i]], vertices[indices[i + 1]], vertices[indices[i + 2]]);
        BuiltPrefixStep(fragments, timeline, vertices, indices, i, clickPosition, sqrt, draws);
        timeline := timeline + [TweenFor(fragment, clickPosition, sqrt, draws[i / 3])];
        fragments := fragments + [fragment];
        i := i + 3;
      }
      BuiltPrefixComplete(fragments, timeline, vertices, indices, clickPosition, sqrt, draws);
    }

    /** `initShatterAnimation`: build the buffers, then shatter. */
    method Init(width: nat, height: nat, cos: real -> real, sin: real -> real, ringDraws: seq<real>,
                delaunay: seq<Point> -> seq<int>, sqrt: real -> real, jitterDraws: seq<real>)
      requires Valid()
      requires |ringDraws| == 2 * SampleCount && UnitDraws(ringDraws)
      requires forall vs: seq<Point> :: ValidIndices(delaunay(vs), |vs|)
      requires |jitterDraws| == |delaunay(VertexBuffer(clickPosition, cos, sin, ringDraws, width, height))| / 3
      requires UnitDraws(jitterDraws)
      modifies this
      ensures Valid() && isAnimating
      ensures vertices == VertexBuffer(clickPosition, cos, sin, ringDraws, width, height)
      ensures indices == delaunay(vertices)
      ensures clickPosition == old(clickPosition)
      ensures old(isAnimating) ==> fragments == old(fragments) && timeline == old(timeline)
      ensures !old(isAnimating) ==> fragments == Fragments(vertices, indices)
      ensures !old(isAnimating) ==> Scheduled(timeline, fragments, clickPosition, sqrt, jitterDraws)
    {
      Triangulate(width, height, cos, sin, ringDraws, delaunay);
      Shatter(sqrt, jitterDraws);
    }

    /**
     * `restartShatterAnimation`: a running cycle is stopped (its timeline
     * cleared, the flag lowered) and `shatter` runs on the buffers as they
     * are. The fragments afterwards are exactly those built from the
     * current buffers; none of the previous set is left.
     */
    method Restart(sqrt: real -> real, draws: seq<real>)
      requires BuffersValid()
      requires |draws| == |indices| / 3 && UnitDraws(draws)
      modifies this
      ensures Valid() && isAnimating
      ensures fragments == Fragments(vertices, indices)
      ensures Scheduled(timeline, fragments, clickPosition, sqrt, draws)
      ensures vertices == old(vertices) && indices == old(indices) && clickPosition == old(clickPosition)
    {
      if isAnimating {
        timeline := [];
        isAnimating := false;
      }
      Shatter(sqrt, draws);
    }

    /**
     * `onContainerClick`: the click position becomes the event's, then the
     * animation restarts. The buffers are not rebuilt.
     */
    method Click(p: Point, sqrt: real -> real, draws: seq<real>)
      requires BuffersValid()
      requires |draws| == |indices| / 3 && UnitDraws(draws)
      modifies this
      ensures Valid() && isAnimating && clickPosition == p
      ensures fragments == Fragments(vertices, indices)
      ensures Scheduled(timeline, fragments, p, sqrt, draws)
      ensures vertices == old(vertices) && indices == old(indices)
    {
      clickPosition := p;
      Restart(sqrt, draws);
    }

    /** `shatterCompleteHandler`: every fragment leaves the container, both buffers are emptied and the flag is lowered. */
    method Complete()
      modifies this
      ensures Valid() && !isAnimating
      ensures fragments == [] && vertices == [] && indices == []
      ensures clickPosition == old(clickPosition) && timeline == old(timeline)
    {
      fragments := [];
      vertices := [];
      indices := [];
      isAnimating := false;
    }
  }

  /**
   * A click after a completed cycle finds both buffers empty: the effect
   * restarts with no fragment at all.
   */
  method ClickAfterCompletion(width: nat, height: nat, cos: real -> real, sin: real -> real, ringDraws: seq<real>,
                              delaunay: seq<Point> -> seq<int>, sqrt: real -> real, jitterDraws: seq<real>, p: Point)
    returns (fragmentCount: nat, animating: bool)
    requires |ringDraws| == 2 * SampleCount && UnitDraws(ringDraws)
    requires forall vs: seq<Point> :: ValidIndices(delaunay(vs), |vs|)
    requires |jitterDraws| == |delaunay(VertexBuffer(Point(width as real * 0.5, height as real * 0.5), cos, sin, ringDraws, width, height))| / 3
    requires UnitDraws(jitterDraws)
    ensures fragmentCount == 0 && animating
  {
    var s := new Session(width, height);
    s.Init(width, height, cos, sin, ringDraws, delaunay, sqrt, jitterDraws);
    s.Complete();
    s.Click(p, sqrt, []);
    fragmentCount := |s.fragments|;
    animating := s.isAnimating;
  }

  /**
   * A click during a cycle rebuilds the fragments from the buffers of the
   * first click, while rotations and delays are measured from the new
   * click position `p`, with the jitter of the fresh draws `clickDraws`.
   */
  method ClickDuringAnimation(width: nat, height: nat, cos: real -> real, sin: real -> real, ringDraws: seq<real>,
                              delaunay: seq<Point> -> seq<int>, sqrt: real -> real, jitterDraws: seq<real>,
                              p: Point, clickDraws: seq<real>)
    returns (vs: seq<Point>, fs: seq<Fragment>, ts: seq<Tween>)
    requires |ringDraws| == 2 * SampleCount && UnitDraws(ringDraws)
    requires forall vs: seq<Point> :: ValidIndices(delaunay(vs), |vs|)
    requires |jitterDraws| == |delaunay(VertexBuffer(Point(width as real * 0.5, height as real * 0.5), cos, sin, ringDraws, width, height))| / 3
    requires UnitDraws(jitterDraws)
    requires |clickDraws| == |jitterDraws| && UnitDraws(clickDraws)
    ensures vs == VertexBuffer(Point(width as real * 0.5, height as real * 0.5), cos, sin, ringDraws, width, height)
    ensures fs == Fragments(vs, delaunay(vs))
    ensures Scheduled(ts, fs, p, sqrt, clickDraws)
  {
    var s := new Session(width, height);
    s.Init(width, height, cos, sin, ringDraws, delaunay, sqrt, jitterDraws);
    s.Click(p, sqrt, clickDraws);
    vs, fs, ts := s.vertices, s.fragments, s.timeline;
  }
}
