/** Geometry primitives over the perimeter polygon (src/utils/geometry.ts).

    Distances are handled SQUARED: `Dist2` replaces `Math.hypot`, and a source
    comparison `d < t` of non-negative lengths is the model's `Sq(d) < Sq(t)`
    (the two agree, see `SqStrictMonotone`). The open-perimeter sentinel 1000 is
    therefore returned as `Sq(NoBoundaryDistance)`. */
module Geometry {
  import opened Types

  /** v squared. Kept as a function so that every square reads the same way. */
  function Sq(v: real): (r: real)
    ensures r >= 0.0
  {
    v * v
  }

  /** Squared Euclidean distance between (px, py) and (qx, qy). */
  function Dist2(px: real, py: real, qx: real, qy: real): (r: real)
    ensures r >= 0.0
  {
    Sq(px - qx) + Sq(py - qy)
  }

  lemma MulPositive(a: real, b: real)
    requires a > 0.0 && b > 0.0
    ensures a * b > 0.0
  {
  }

  lemma MulNonNegative(a: real, b: real)
    requires a >= 0.0 && b >= 0.0
    ensures a * b >= 0.0
  {
  }

  lemma SqPositive(a: real)
    requires a != 0.0
    ensures Sq(a) > 0.0
  {
    if a >= 1.0 {
      assert a * a >= 1.0;
    } else if a > 0.0 {
      MulPositive(a, 1.0 / a);
    } else if a <= -1.0 {
      assert a * a >= 1.0;
    } else {
      MulPositive(-a, -1.0 / a);
    }
  }

  lemma SumOfSquaresPositive(a: real, b: real)
    requires a != 0.0 || b != 0.0
    ensures Sq(a) + Sq(b) > 0.0
  {
    if a != 0.0 {
      SqPositive(a);
    } else {
      SqPositive(b);
    }
  }

  lemma SqMonotone(d: real, t: real)
    requires 0.0 <= d <= t
    ensures Sq(d) <= Sq(t)
  {
    assert Sq(t) - Sq(d) == (t - d) * (t + d);
    MulNonNegative(t - d, t + d);
  }

  /** Comparing non-negative lengths is the same as comparing their squares, so the
      squared model takes the same branches as the source's `hypot` comparisons. */
  lemma SqStrictMonotone(d: real, t: real)
    requires d >= 0.0 && t >= 0.0
    ensures d < t <==> Sq(d) < Sq(t)
  {
    if d < t {
      var g := t - d;
      assert Sq(t) == Sq(d) + 2.0 * (d * g) + Sq(g);
      MulNonNegative(d, g);
      SqPositive(g);
    } else {
      SqMonotone(t, d);
    }
  }

  // ---------------------------------------------------------------------------
  // Point in perimeter (ray casting)
  // ---------------------------------------------------------------------------

  /** The index the ray-casting loop pairs with `i`: it starts with j = n - 1 and
      then trails i by one, so edge i is (points[i], points[Prev(i, n)]). */
  function Prev(i: nat, n: nat): (j: nat)
    requires i < n
    ensures j < n && (j + 1) % n == i
  {
    if i == 0 then
      assert (n - 1 + 1) % n == 0;
      n - 1
    else
      assert i % n == i;
      i - 1
  }

  /** The toggle condition of the ray-casting loop for the edge (pi, pj): the edge
      straddles the horizontal line through y, and meets it to the right of x. */
  predicate Crosses(x: real, y: real, pi: Point, pj: Point)
  {
    (pi.y > y) != (pj.y > y) && x < (pj.x - pi.x) * (y - pi.y) / (pj.y - pi.y) + pi.x
  }

  predicate EdgeCrosses(x: real, y: real, pts: seq<Point>, i: nat)
    requires i < |pts|
  {
    Crosses(x, y, pts[i], pts[Prev(i, |pts|)])
  }

  /** How many of the edges 0 .. k-1 toggle the ray-casting flag. */
  function Crossings(x: real, y: real, pts: seq<Point>, k: nat): nat
    requires k <= |pts|
  {
    if k == 0 then 0
    else Crossings(x, y, pts, k - 1) + (if EdgeCrosses(x, y, pts, k - 1) then 1 else 0)
  }

  /** The set of crossing edges among 0 .. k-1. */
  function CrossingEdges(x: real, y: real, pts: seq<Point>, k: nat): set<nat>
    requires k <= |pts|
  {
    set i: nat | i < k && EdgeCrosses(x, y, pts, i)
  }

  /** The running count is the size of the set of crossing edges. */
  lemma {:induction false} CrossingsCountEdges(x: real, y: real, pts: seq<Point>, k: nat)
    requires k <= |pts|
    ensures Crossings(x, y, pts, k) == |CrossingEdges(x, y, pts, k)|
  {
    if k == 0 {
      assert CrossingEdges(x, y, pts, 0) == {};
    } else {
      CrossingsCountEdges(x, y, pts, k - 1);
      var before := CrossingEdges(x, y, pts, k - 1);
      if EdgeCrosses(x, y, pts, k - 1) {
        assert CrossingEdges(x, y, pts, k) == before + {k - 1};
        assert k - 1 !in before;
      } else {
        assert CrossingEdges(x, y, pts, k) == before;
      }
    }
  }

  /** No boundary (an open perimeter or fewer than three points) means every point
      is inside; otherwise the parity of the crossing edges decides. */
  predicate Inside(x: real, y: real, per: Perimeter)
  {
    !per.closed || |per.points| < 3 || Crossings(x, y, per.points, |per.points|) % 2 == 1
  }

  /** `isPointInPerimeter`: the ray-casting loop, toggling `inside` per crossing edge. */
  method IsPointInPerimeter(x: real, y: real, points: seq<Point>, closed: bool) returns (inside: bool)
    ensures inside == Inside(x, y, Perimeter(points, closed))
    ensures closed && |points| >= 3 ==>
              (inside <==> |CrossingEdges(x, y, points, |points|)| % 2 == 1)
  {
    if !closed || |points| < 3 {
      return true;
    }
    inside := false;
    var i, j := 0, |points| - 1;
    while i < |points|
      invariant 0 <= i <= |points|
      invariant i < |points| ==> j == Prev(i, |points|)
      invariant inside == (Crossings(x, y, points, i) % 2 == 1)
    {
      if Crosses(x, y, points[i], points[j]) {
        inside := !inside;
      }
      j, i := i, i + 1;
    }
    CrossingsCountEdges(x, y, points, |points|);
  }

  /** A closed 10 by 10 square: its centre is inside and a point to its right is
      outside. */
  lemma SquareExample()
    ensures Inside(5.0, 5.0, Perimeter([Point(0.0, 0.0), Point(0.0, 10.0), Point(10.0, 10.0), Point(10.0, 0.0)], true))
    ensures !Inside(15.0, 5.0, Perimeter([Point(0.0, 0.0), Point(0.0, 10.0), Point(10.0, 10.0), Point(10.0, 0.0)], true))
  {
    var pts := [Point(0.0, 0.0), Point(0.0, 10.0), Point(10.0, 10.0), Point(10.0, 0.0)];
    // Only the two vertical edges straddle y = 5: edge 1 meets it at x = 0, edge 3 at x = 10.
    assert !EdgeCrosses(5.0, 5.0, pts, 0) && !EdgeCrosses(5.0, 5.0, pts, 2);
    assert !EdgeCrosses(5.0, 5.0, pts, 1) && EdgeCrosses(5.0, 5.0, pts, 3);
    assert Crossings(5.0, 5.0, pts, 4) == 1;
    assert !EdgeCrosses(15.0, 5.0, pts, 0) && !EdgeCrosses(15.0, 5.0, pts, 2);
    assert !EdgeCrosses(15.0, 5.0, pts, 1) && !EdgeCrosses(15.0, 5.0, pts, 3);
    assert Crossings(15.0, 5.0, pts, 4) == 0;
  }

  // ---------------------------------------------------------------------------
  // Point to segment distance
  // ---------------------------------------------------------------------------

  /** `Math.max(0, Math.min(1, v))`. */
  function Clamp01(v: real): (t: real)
    ensures 0.0 <= t <= 1.0
    ensures 0.0 <= v <= 1.0 ==> t == v
  {
    if 1.0 < v then 1.0 else if v < 0.0 then 0.0 else v
  }

  /** The clamped projection parameter of the offset (ex, ey) = p - (x1, y1) onto
      the direction (dx, dy); the source's `length * length` is Sq(dx) + Sq(dy). */
  function ProjectionParameter(ex: real, ey: real, dx: real, dy: real): (t: real)
    requires dx != 0.0 || dy != 0.0
    ensures 0.0 <= t <= 1.0
  {
    SumOfSquaresPositive(dx, dy);
    Clamp01((ex * dx + ey * dy) / (Sq(dx) + Sq(dy)))
  }

  /** Squared distance from p to the point of the segment at the clamped projection. */
  function ProjectionDistance(px: real, py: real, x1: real, y1: real, dx: real, dy: real): real
    requires dx != 0.0 || dy != 0.0
  {
    var t := ProjectionParameter(px - x1, py - y1, dx, dy);
    Dist2(px, py, x1 + t * dx, y1 + t * dy)
  }

  /** `pointToLineDistance`, squared. `Math.hypot(dx, dy)` is 0 exactly when dx and
      dy are both 0; such a zero-length segment falls back to the distance to its
      first endpoint. */
  function PointToLineDistance(px: real, py: real, x1: real, y1: real, x2: real, y2: real): (d2: real)
    ensures d2 >= 0.0
  {
    var dx, dy := x2 - x1, y2 - y1;
    if dx == 0.0 && dy == 0.0 then Dist2(px, py, x1, y1)
    else ProjectionDistance(px, py, x1, y1, dx, dy)
  }

  /** The squared distance from p to the point at parameter u of the line, as a
      quadratic in u around the unclamped projection parameter s. */
  function Quadratic(e: real, len2: real, s: real, u: real): real
  {
    e + len2 * (Sq(u - s) - Sq(s))
  }

  /** With s the unclamped parameter (e . d == s * |d|^2 where e = p - a), the squared
      distance from p to a + u * d is |e|^2 + |d|^2 * ((u - s)^2 - s^2). */
  lemma AlongSegment(px: real, py: real, x1: real, y1: real, dx: real, dy: real, s: real, u: real)
    requires (px - x1) * dx + (py - y1) * dy == s * (Sq(dx) + Sq(dy))
    ensures Dist2(px, py, x1 + u * dx, y1 + u * dy) == Quadratic(Dist2(px, py, x1, y1), Sq(dx) + Sq(dy), s, u)
  {
    var ex, ey := px - x1, py - y1;
    var len2 := Sq(dx) + Sq(dy);
    assert px - (x1 + u * dx) == ex - u * dx && py - (y1 + u * dy) == ey - u * dy;
    assert Sq(ex - u * dx) + Sq(ey - u * dy)
        == Sq(ex) + Sq(ey) - 2.0 * u * (ex * dx + ey * dy) + u * u * len2;
    assert len2 * (Sq(u - s) - Sq(s)) == u * u * len2 - 2.0 * u * (s * len2);
  }

  lemma DivMul(a: real, b: real)
    requires b > 0.0
    ensures a == (a / b) * b
  {
  }

  lemma SqNeg(a: real)
    ensures Sq(-a) == Sq(a)
  {
  }

  /** Clamping s to [0, 1] never moves it further from s than any other point of [0, 1]. */
  lemma ClampIsNearest(s: real, u: real)
    requires 0.0 <= u <= 1.0
    ensures Sq(Clamp01(s) - s) <= Sq(u - s)
  {
    if s < 0.0 {
      SqMonotone(0.0 - s, u - s);
    } else if 1.0 < s {
      SqMonotone(s - 1.0, s - u);
      SqNeg(1.0 - s);
      SqNeg(u - s);
    }
  }

  /** The quadratic grows with the distance of u from s. */
  lemma QuadraticMonotone(e: real, len2: real, s: real, t: real, u: real)
    requires len2 >= 0.0 && Sq(t - s) <= Sq(u - s)
    ensures Quadratic(e, len2, s, t) <= Quadratic(e, len2, s, u)
  {
    MulNonNegative(len2, Sq(u - s) - Sq(t - s));
    assert len2 * (Sq(u - s) - Sq(s)) - len2 * (Sq(t - s) - Sq(s)) == len2 * (Sq(u - s) - Sq(t - s));
  }

  /** The clamped projection is the point of the segment closest to p. */
  lemma SegmentDistanceMinimal(px: real, py: real, x1: real, y1: real, dx: real, dy: real, u: real)
    requires dx != 0.0 || dy != 0.0
    requires 0.0 <= u <= 1.0
    ensures ProjectionDistance(px, py, x1, y1, dx, dy) <= Dist2(px, py, x1 + u * dx, y1 + u * dy)
  {
    var len2 := Sq(dx) + Sq(dy);
    var dot := (px - x1) * dx + (py - y1) * dy;
    SumOfSquaresPositive(dx, dy);
    var s := dot / len2;
    DivMul(dot, len2);
    var t := ProjectionParameter(px - x1, py - y1, dx, dy);
    assert t == Clamp01(s);
    AlongSegment(px, py, x1, y1, dx, dy, s, t);
    AlongSegment(px, py, x1, y1, dx, dy, s, u);
    ClampIsNearest(s, u);
    QuadraticMonotone(Dist2(px, py, x1, y1), len2, s, t, u);
  }

  lemma SegmentEndpoints(px: real, py: real, x1: real, y1: real, dx: real, dy: real)
    requires dx != 0.0 || dy != 0.0
    ensures ProjectionDistance(px, py, x1, y1, dx, dy) <= Dist2(px, py, x1, y1)
    ensures ProjectionDistance(px, py, x1, y1, dx, dy) <= Dist2(px, py, x1 + dx, y1 + dy)
  {
    SegmentDistanceMinimal(px, py, x1, y1, dx, dy, 0.0);
    SegmentDistanceMinimal(px, py, x1, y1, dx, dy, 1.0);
    assert x1 + 0.0 * dx == x1 && y1 + 0.0 * dy == y1;
    assert x1 + 1.0 * dx == x1 + dx && y1 + 1.0 * dy == y1 + dy;
  }

  /** The segment distance never exceeds the distance to either endpoint (so it is 0
      at an endpoint), and on a zero-length segment it is the point distance. */
  lemma PointToLineDistanceBounds(px: real, py: real, x1: real, y1: real, x2: real, y2: real)
    ensures x1 == x2 && y1 == y2 ==> PointToLineDistance(px, py, x1, y1, x2, y2) == Dist2(px, py, x1, y1)
    ensures PointToLineDistance(px, py, x1, y1, x2, y2) <= Dist2(px, py, x1, y1)
    ensures PointToLineDistance(px, py, x1, y1, x2, y2) <= Dist2(px, py, x2, y2)
    ensures (px == x1 && py == y1) || (px == x2 && py == y2) ==> PointToLineDistance(px, py, x1, y1, x2, y2) == 0.0
  {
    if x2 - x1 != 0.0 || y2 - y1 != 0.0 {
      SegmentEndpoints(px, py, x1, y1, x2 - x1, y2 - y1);
      assert x1 + (x2 - x1) == x2 && y1 + (y2 - y1) == y2;
    }
  }

  // ---------------------------------------------------------------------------
  // Distance to the perimeter
  // ---------------------------------------------------------------------------

  /** The sentinel `getDistanceToPerimeter` returns when there is no boundary. */
  const NoBoundaryDistance: real := 1000.0

  /** Squared distance from (x, y) to edge i, which runs from point i to point
      i + 1, wrapping from the last point back to the first. */
  function EdgeDistance(x: real, y: real, pts: seq<Point>, i: nat): real
    requires i < |pts|
  {
    var p1, p2 := pts[i], pts[(i + 1) % |pts|];
    PointToLineDistance(x, y, p1.x, p1.y, p2.x, p2.y)
  }

  /** The least edge distance among edges 0 .. k-1; it is attained by one of them. */
  function MinEdgeDistance(x: real, y: real, pts: seq<Point>, k: nat): (d2: real)
    requires 1 <= k <= |pts|
    ensures forall i :: 0 <= i < k ==> d2 <= EdgeDistance(x, y, pts, i)
    ensures exists i :: 0 <= i < k && d2 == EdgeDistance(x, y, pts, i)
  {
    if k == 1 then EdgeDistance(x, y, pts, 0)
    else
      var rest := MinEdgeDistance(x, y, pts, k - 1);
      var last := EdgeDistance(x, y, pts, k - 1);
      if last < rest then last else rest
  }

  /** What `getDistanceToPerimeter` computes, squared: the sentinel without a
      boundary, otherwise the least distance to an edge, attained by some edge. */
  function DistanceToPerimeter(x: real, y: real, per: Perimeter): (d2: real)
    ensures d2 >= 0.0
    ensures !per.closed || |per.points| < 3 ==> d2 == Sq(NoBoundaryDistance)
    ensures per.closed && |per.points| >= 3 ==>
              (forall i :: 0 <= i < |per.points| ==> d2 <= EdgeDistance(x, y, per.points, i)) &&
              (exists i :: 0 <= i < |per.points| && d2 == EdgeDistance(x, y, per.points, i))
  {
    if !per.closed || |per.points| < 3 then Sq(NoBoundaryDistance)
    else MinEdgeDistance(x, y, per.points, |per.points|)
  }

  /** `getDistanceToPerimeter`: a running minimum over all n edges, the closing edge
      from the last point to the first included. The source starts the minimum at
      Infinity; min(Infinity, d) is d, so the model starts at edge 0. */
  method GetDistanceToPerimeter(x: real, y: real, points: seq<Point>, closed: bool) returns (minDistance: real)
    ensures minDistance == DistanceToPerimeter(x, y, Perimeter(points, closed))
  {
    if !closed || |points| < 3 {
      return Sq(NoBoundaryDistance);
    }
    minDistance := EdgeDistance(x, y, points, 0);
    var i := 1;
    while i < |points|
      invariant 1 <= i <= |points|
      invariant minDistance == MinEdgeDistance(x, y, points, i)
    {
      var distance := EdgeDistance(x, y, points, i);
      minDistance := if distance < minDistance then distance else minDistance;
      i := i + 1;
    }
  }

  // ---------------------------------------------------------------------------
  // Coverage efficiency
  // ---------------------------------------------------------------------------

  const SampleRadius: nat := 8
  const SampleAngles: nat := 16

  /** The centre ring is a single sample; every other ring has SampleAngles samples. */
  function PointsInRing(ring: nat): (n: nat)
    ensures 1 <= n <= SampleAngles
  {
    if ring == 0 then 1 else SampleAngles
  }

  /** Sample i of ring `ring` around (cx, cy). `dirs[i]` stands for
      (cos(2 pi i / 16), sin(2 pi i / 16)); the centre ring has radius 0, so its one
      sample is the centre whatever dirs[0] holds. */
  function SamplePoint(cx: real, cy: real, radiusPx: real, dirs: seq<Point>, ring: nat, i: nat): Point
    requires |dirs| == SampleAngles && i < PointsInRing(ring)
  {
    var currentRadius := (ring as real / SampleRadius as real) * radiusPx;
    Point(cx + currentRadius * dirs[i].x, cy + currentRadius * dirs[i].y)
  }

  /** Samples of ring `ring` with index below k that lie inside the perimeter. */
  function RingInside(cx: real, cy: real, radiusPx: real, per: Perimeter, dirs: seq<Point>, ring: nat, k: nat): (c: nat)
    requires |dirs| == SampleAngles && k <= PointsInRing(ring)
    ensures c <= k
  {
    if k == 0 then 0
    else
      var p := SamplePoint(cx, cy, radiusPx, dirs, ring, k - 1);
      RingInside(cx, cy, radiusPx, per, dirs, ring, k - 1) + (if Inside(p.x, p.y, per) then 1 else 0)
  }

  /** Number of samples in rings 0 .. rings-1. */
  function SamplesBefore(rings: nat): nat
  {
    if rings == 0 then 0 else SamplesBefore(rings - 1) + PointsInRing(rings - 1)
  }

  lemma {:induction false} SamplesBeforeClosedForm(rings: nat)
    ensures SamplesBefore(rings) == if rings == 0 then 0 else 1 + SampleAngles * (rings - 1)
  {
    if rings > 0 {
      SamplesBeforeClosedForm(rings - 1);
    }
  }

  /** The sampling visits exactly 1 + 8 * 16 = 129 points. */
  lemma TotalSamples()
    ensures SamplesBefore(SampleRadius + 1) == 129
  {
    SamplesBeforeClosedForm(SampleRadius + 1);
  }

  /** Inside samples in rings 0 .. rings-1; never more than the samples taken. */
  function InsideBefore(cx: real, cy: real, radiusPx: real, per: Perimeter, dirs: seq<Point>, rings: nat): (c: nat)
    requires |dirs| == SampleAngles
    ensures c <= SamplesBefore(rings)
  {
    if rings == 0 then 0
    else InsideBefore(cx, cy, radiusPx, per, dirs, rings - 1)
         + RingInside(cx, cy, radiusPx, per, dirs, rings - 1, PointsInRing(rings - 1))
  }

  /** What `calculateCoverageEfficiency` returns: 1.0 with no boundary, otherwise the
      fraction of the 129 samples that lie inside the perimeter. */
  function CoverageEfficiency(cx: real, cy: real, radiusPx: real, per: Perimeter, dirs: seq<Point>): (e: real)
    requires |dirs| == SampleAngles
    ensures 0.0 <= e <= 1.0
    ensures !per.closed || |per.points| < 3 ==> e == 1.0
  {
    if !per.closed || |per.points| < 3 then 1.0
    else
      TotalSamples();
      InsideBefore(cx, cy, radiusPx, per, dirs, SampleRadius + 1) as real / 129.0
  }

  /** `calculateCoverageEfficiency`: nested ring / angle loops counting samples. */
  method CalculateCoverageEfficiency(centerX: real, centerY: real, radiusPx: real,
                                     perimeterPoints: seq<Point>, perimeterClosed: bool,
                                     dirs: seq<Point>) returns (e: real)
    requires |dirs| == SampleAngles
    ensures e == CoverageEfficiency(centerX, centerY, radiusPx, Perimeter(perimeterPoints, perimeterClosed), dirs)
    ensures 0.0 <= e <= 1.0
  {
    var per := Perimeter(perimeterPoints, perimeterClosed);
    if !perimeterClosed || |perimeterPoints| < 3 {
      return 1.0;
    }
    var insidePoints, totalPoints := 0, 0;
    var ring := 0;
    while ring <= SampleRadius
      invariant 0 <= ring <= SampleRadius + 1
      invariant totalPoints == SamplesBefore(ring)
      invariant insidePoints == InsideBefore(centerX, centerY, radiusPx, per, dirs, ring)
    {
      var pointsInRing := if ring == 0 then 1 else SampleAngles;
      var i := 0;
      while i < pointsInRing
        invariant 0 <= i <= pointsInRing
        invariant totalPoints == SamplesBefore(ring) + i
        invariant insidePoints == InsideBefore(centerX, centerY, radiusPx, per, dirs, ring)
                                  + RingInside(centerX, centerY, radiusPx, per, dirs, ring, i)
      {
        // x = centerX + currentRadius * cos(angle), y likewise with sin
        var sample := SamplePoint(centerX, centerY, radiusPx, dirs, ring, i);
        totalPoints := totalPoints + 1;
        var inside := IsPointInPerimeter(sample.x, sample.y, perimeterPoints, perimeterClosed);
        if inside {
          insidePoints := insidePoints + 1;
        }
        i := i + 1;
      }
      ring := ring + 1;
    }
    TotalSamples();
    e := insidePoints as real / totalPoints as real;
  }

  // ---------------------------------------------------------------------------
  // Rectangle containment
  // ---------------------------------------------------------------------------

  function Min(a: real, b: real): real { if a < b then a else b }
  function Max(a: real, b: real): real { if a < b then b else a }

  /** v lies between a and b, whichever of the two is larger. */
  predicate Between(a: real, v: real, b: real)
  {
    (a <= v <= b) || (b <= v <= a)
  }

  /** `isPointInRect`: containment in the rectangle spanned by two corners given in
      any order. */
  function IsPointInRect(px: real, py: real, rectStart: Point, rectEnd: Point): (r: bool)
    ensures r <==> Between(rectStart.x, px, rectEnd.x) && Between(rectStart.y, py, rectEnd.y)
  {
    var minX, maxX := Min(rectStart.x, rectEnd.x), Max(rectStart.x, rectEnd.x);
    var minY, maxY := Min(rectStart.y, rectEnd.y), Max(rectStart.y, rectEnd.y);
    px >= minX && px <= maxX && py >= minY && py <= maxY
  }

  /** The order of the two corners does not matter, and both corners are inside. */
  lemma PointInRectSymmetric(px: real, py: real, a: Point, b: Point)
    ensures IsPointInRect(px, py, a, b) == IsPointInRect(px, py, b, a)
    ensures IsPointInRect(a.x, a.y, a, b) && IsPointInRect(b.x, b.y, a, b)
  {
  }
}
