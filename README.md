# Shatter effect: a Dafny model

This project models the logic under the "shatter" effect in `app.js`. A click
point is surrounded by four jittered rings of twelve points. Those points and
the click point form a vertex buffer, which is clamped into the viewport and
triangulated. `shatter` then turns every index triple into a fragment, which
is a triangle with a bounding box and a centroid. Each fragment gets a tween:
a tilt about x and y whose signs follow the side of the click it lies on, and
a start delay proportional to its distance from the click, times a per-fragment
jitter.

The project has three modules, one per layer:

- `Geometry` (`geometry.dfy`) holds the pure helpers:
  - `clamp`, `sign` and `randomRange`, with the draw of `Math.random()` passed in;
  - the bounding box and centroid of a fragment;
  - the rotation and delay rules of `shatter`.
- `Sampler` (`sampler.dfy`) holds the vertex buffer `triangulate` builds and
  the validity assumed of the Delaunay output (`ValidIndices`).
- `Shatter` (`session.dfy`) holds the module-level state of the page:
  - the `Session` class, whose fields are `clickPosition`, `vertices`,
    `indices`, `fragments`, `timeline` and `isAnimating`;
  - one method per operation that changes that state: `triangulate`,
    `shatter`, `initShatterAnimation`, `restartShatterAnimation`,
    `shatterCompleteHandler` and the click handler;
  - two client methods that run the click scenarios.

Conventions:

- Coordinates are exact `real`s.
- `Math.cos`, `Math.sin` and `Math.sqrt` are function parameters.
- `Delaunay.triangulate` is a function parameter. Callers must supply one
  whose output is a whole number of index triples naming existing vertices.
- The successive values of `Math.random()` are sequences of draws, each in
  `[0, 1)`:
  - `triangulate` takes 96 draws, the x and then the y offset of each ring point;
  - `shatter` takes one draw per fragment for the delay jitter.
- "In the container" means being an element of `fragments`.
- The master timeline `tl0` is the sequence of tweens added to it, in order.

The code clamps every vertex, the click point at index 0 included
(`app.js:64-67`). The model follows the code.

## Model

| member | source | states |
|---|---|---|
| Geometry.Clamp | app.js:152-154 | The result is `lo`, `hi` or `x`; with `lo <= hi` it lies in `[lo, hi]`; a value already in range comes back unchanged |
| Geometry.ClampIdempotent | app.js:152-154 | With `lo <= hi`, clamping twice gives the same value as clamping once |
| Geometry.ClampEmptyRange | app.js:152-154 | With `hi < lo` the guard order decides: below `lo` gives `lo`, anything else gives `hi` |
| Geometry.Sign | app.js:156-158 | -1 exactly when `x < 0`, 1 exactly when `x >= 0`, so zero counts as positive |
| Geometry.RandomRange | app.js:148-150 | For a draw in `[0, 1)` and `min <= max`, the result lies in `[min, max]`; it is below `max` when `min < max` and equals `min` when the range is a single point |
| Geometry.Min3 | app.js:173-176 | `Math.min` of three values: bounded by each argument and equal to one of them |
| Geometry.Max3 | app.js:173-176 | `Math.max` of three values: bounds each argument and equals one of them |
| Geometry.BoundingBox | app.js:172-184 | Width and height are non-negative, the box encloses all three vertices, and each of its four sides passes through a vertex coordinate |
| Geometry.BoundingBoxMinimal | app.js:172-184 | Any box that encloses the three vertices also encloses the bounding box, so it is the least enclosing box |
| Geometry.BoundingBoxFlat | app.js:172-184 | Three vertices on one vertical line give width 0; three on one horizontal line give height 0 |
| Geometry.BoundingBoxDiagonal | app.js:172-184 | Three collinear vertices on a diagonal give a box of width and height `2d`, so collinearity alone does not make the box flat |
| Geometry.Centroid | app.js:186-191 | Three times each centroid coordinate is the sum of the vertices' coordinates |
| Geometry.CentroidInBox | app.js:172-191 | The centroid lies inside the bounding box |
| Geometry.CentroidTranslates | app.js:186-191 | Translating the three vertices translates the centroid by the same vector |
| Geometry.CentroidExample | app.js:186-191 | `(0,0), (6,0), (0,6)` has centroid `(2,2)` |
| Geometry.RotationX | app.js:95 | `rx` is 30 or -30, and -30 exactly when `dy < 0` |
| Geometry.RotationY | app.js:96 | `ry` is 90 or -90, and -90 exactly when `dx >= 0` |
| Geometry.RotationExample | app.js:95-96 | `dx = 10, dy = -10` gives `rx = -30, ry = -90` |
| Geometry.Delay | app.js:97 | `d * 0.003 * jitter`; for a distance `d >= 0` and a jitter in `[0.9, 1.1]`, `0.0027 d <= delay <= 0.0033 d` |
| Geometry.DelayMonotone | app.js:97 | For one jitter, a strictly larger distance gives a strictly later start |
| Sampler.RingsShape | app.js:43-48 | Four rings of twelve points, 48 samples in all |
| Sampler.Angle | app.js:58-59 | The angle `(i / count) * TWO_PI` of point `i` lies in `[0, TWO_PI)` and is 0 for the first point |
| Sampler.Ideal | app.js:58-59 | The unjittered point lies on the circle of the ring's radius around the click, whenever `cos^2 + sin^2 = 1` at its angle |
| Sampler.RingPoint | app.js:55-59 | Each coordinate of a ring point lies within a quarter of the ring's radius of its unjittered position |
| Sampler.RawVertices | app.js:50-62 | The unclamped buffer has 49 vertices: the click point first, then sample `k` at index `1 + k`, in loop order |
| Sampler.ClampPoint | app.js:64-67 | A clamped vertex lies inside `[0, W] x [0, H]`; a vertex already inside is unchanged |
| Sampler.ClampAll | app.js:64-67 | Clamping the buffer keeps its length and clamps every vertex at its own index |
| Sampler.ClampAllIdempotent | app.js:64-67 | Clamping an already clamped buffer changes nothing |
| Sampler.VertexBuffer | app.js:42-67 | The buffer has 49 vertices, vertex 0 is the clamped click point, and every vertex lies in the viewport |
| Sampler.VertexBufferRingPoint | app.js:52-67 | Vertex `1 + 12r + i` is point `i` of ring `r`, built from draws `2k` and `2k+1`, then clamped |
| Shatter.Distance | app.js:92-94 | The distance from the click to the centroid is never negative when `sqrt` is non-negative on non-negative arguments |
| Shatter.TweenFor | app.js:92-97 | A fragment's `rx` is ±30, negative exactly when its centroid is above the click; its `ry` is ±90, negative exactly when its centroid is right of or level with the click; its delay is the distance times `0.003` times some jitter in `[0.9, 1.1]` |
| Shatter.TweenDelay | app.js:92-97 | For a non-negative distance `d` from the click, a fragment's delay is within 10% of `0.003 d` |
| Shatter.Fragments | app.js:85-90 | One fragment per index triple, in order; fragment `k` is built from the vertices at indices `3k`, `3k+1` and `3k+2` |
| Shatter.Session.constructor | app.js:6-11 | The click point starts at the centre of the window; the buffers, fragments and timeline start empty; the flag starts down |
| Shatter.Session.Triangulate | app.js:42-70 | `vertices` becomes the vertex buffer of the current click point, built in loop order and clamped in place; `indices` becomes its Delaunay triangulation; nothing else changes |
| Shatter.Session.Shatter | app.js:72-121 | While animating, fragments and timeline are unchanged. Otherwise the flag goes up, all previous fragments are gone, `fragments` is exactly one fragment per triple, and tween `k` belongs to fragment `k` with jitter from draw `k`. Buffers and click point are unchanged |
| Shatter.Session.Init | app.js:123-126 | Triangulate, then shatter: the buffers are those of the current click point; from an idle session the fragments and tweens are built from them, from an animating one the fragments and timeline stay as they were |
| Shatter.Session.Restart | app.js:128-136 | Afterwards the session is animating, the fragments are exactly those built from the current buffers, and every tween is scheduled from the current click point; the buffers are unchanged |
| Shatter.Session.Click | app.js:29-40 | The click point becomes the event's, then the animation restarts on the unchanged buffers, with tweens measured from the new click point |
| Shatter.Session.Complete | app.js:138-146 | Fragments, vertices and indices are empty and the flag is down; the click point is unchanged |
| Shatter.ClickAfterCompletion | app.js:29-40 | A click after a completed cycle restarts the effect with no fragment at all, because completion emptied the buffers and a click never re-triangulates |
| Shatter.ClickDuringAnimation | app.js:29-40 | A click during a cycle rebuilds the fragments from the buffers of the first triangulation, while rotations and delays are measured from the new click point with fresh jitter draws |

## Left out

- DOM and canvas work is not modelled because it is rendering only. This covers `createCanvas`, `clip`, `appendChild`/`removeChild`, styles and `zIndex = Math.floor(d)`.
- GSAP is a time-driven animation library and is not modelled. This covers the tweens' durations and easing, the `z` and opacity animation, and `repeat`/`repeatDelay`.
- The completion callback is an explicit call to `Session.Complete`. The model does not decide when, or whether, GSAP fires `onComplete` for a timeline created with `repeat: -1`.
- `gsap.globalTimeline.clear()` is modelled as emptying `timeline`: only the master timeline of the session is represented.
- The click sound and the random background colour (`generateRandomColor`) are left out, as side effects with no effect on the state modelled here.
- Floating point is not modelled. Arithmetic is exact over `real`, and `TWO_PI` is the shortest decimal that rounds to the double `2 * Math.PI`.
- `Math.cos`, `Math.sin` and `Math.sqrt` are uninterpreted parameters. Facts that need their values, such as the points lying on circles, are stated about the unjittered position `Ideal` instead.
- `Delaunay.triangulate` is not part of this model. It is a parameter assumed to return whole triples of in-range indices.
- `window.onload` is not modelled beyond `Session.Init`. This covers `gsap.set` for the perspective and the registration of the click listener.
- Geometry.Delay: the bounds are stated for a non-negative distance, because `sqrt` is abstract. Shatter.TweenDelay therefore requires that the distance is non-negative.
- Geometry.DelayMonotone: stated on the distance value, because with an abstract `sqrt` the distance is not known to grow with the offset.
- Shatter.Session.Triangulate: the viewport size `window.innerWidth`/`innerHeight` is a pair of `nat` parameters.
- Shatter.Session.constructor: the viewport size is taken as naturals, and the first colour draw is not modelled.
