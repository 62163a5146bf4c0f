/** Riemannian length of a sampled path (the loop of
    MinimalCDG.compute_geodesic_distance). */
module Distance {
  import opened Numerics
  import opened Metric

  function Midpoint(p: Point, q: Point): Point {
    Point((p.x + q.x) / 2.0, (p.y + q.y) / 2.0)
  }

  /** sqrt(max(0, ds²)) with ds² the metric at the midpoint applied to the step. */
  function SegmentLength(m: Maths, p: Point, q: Point): (d: real)
    ensures Sound(m) ==> 0.0 <= d
  {
    var mid := Midpoint(p, q);
    var g := MetricTensor(m, mid.x, mid.y);
    m.sqrt(Max(0.0, QuadraticForm(g, q.x - p.x, q.y - p.y)))
  }

  /** Σ_{i < |path| − 1} SegmentLength(path[i], path[i + 1]); never negative. */
  function ArcLength(m: Maths, path: seq<Point>): (d: real)
    ensures Sound(m) ==> 0.0 <= d
  {
    if |path| < 2 then 0.0
    else ArcLength(m, path[..|path| - 1]) + SegmentLength(m, path[|path| - 2], path[|path| - 1])
  }

  /** The accumulation loop of compute_geodesic_distance. */
  method PathLength(m: Maths, path: seq<Point>) returns (distance: real)
    ensures distance == ArcLength(m, path)
  {
    distance := 0.0;
    if |path| == 0 {
      return;
    }
    for i := 0 to |path| - 1
      invariant distance == ArcLength(m, path[..i + 1])
    {
      var p := path[i];
      var q := path[i + 1];
      var mid := Midpoint(p, q);
      var g := MetricTensor(m, mid.x, mid.y);
      var dx, dy := q.x - p.x, q.y - p.y;
      var ds2 := g.a00 * dx * dx + 2.0 * g.a01 * dx * dy + g.a11 * dy * dy;
      assert ds2 == QuadraticForm(g, dx, dy);
      distance := distance + m.sqrt(Max(0.0, ds2));
      var next := path[..i + 2];
      assert next[..|next| - 1] == path[..i + 1];
      assert next[|next| - 2] == p && next[|next| - 1] == q;
    }
    assert path[..|path|] == path;
  }

  /** A path of fewer than two points, or one that never moves, has length 0. */
  lemma {:induction false} ArcLengthOfStationaryPath(m: Maths, path: seq<Point>)
    requires Sound(m)
    requires forall i, j :: 0 <= i < |path| && 0 <= j < |path| ==> path[i] == path[j]
    ensures ArcLength(m, path) == 0.0
  {
    if 2 <= |path| {
      var prefix := path[..|path| - 1];
      ArcLengthOfStationaryPath(m, prefix);
      var p, q := path[|path| - 2], path[|path| - 1];
      assert p == q;
      var mid := Midpoint(p, q);
      assert QuadraticForm(MetricTensor(m, mid.x, mid.y), 0.0, 0.0) == 0.0;
    }
  }

  /** The segment length does not depend on the direction of travel. */
  lemma SegmentLengthSymmetric(m: Maths, p: Point, q: Point)
    ensures SegmentLength(m, p, q) == SegmentLength(m, q, p)
  {
    assert Midpoint(p, q) == Midpoint(q, p);
    var mid := Midpoint(p, q);
    QuadraticFormEven(MetricTensor(m, mid.x, mid.y), q.x - p.x, q.y - p.y);
    assert p.x - q.x == -(q.x - p.x) && p.y - q.y == -(q.y - p.y);
  }

  lemma QuadraticFormEven(g: Mat2, dx: real, dy: real)
    ensures QuadraticForm(g, -dx, -dy) == QuadraticForm(g, dx, dy)
  {
  }

  function Reverse(path: seq<Point>): (r: seq<Point>)
    ensures |r| == |path|
    ensures forall i :: 0 <= i < |path| ==> r[i] == path[|path| - 1 - i]
  {
    seq(|path|, i requires 0 <= i < |path| => path[|path| - 1 - i])
  }

  /** ArcLength read from the front: the first segment plus the rest. */
  lemma {:induction false} ArcLengthFront(m: Maths, p: Point, path: seq<Point>)
    requires 1 <= |path|
    ensures ArcLength(m, [p] + path) == SegmentLength(m, p, path[0]) + ArcLength(m, path)
  {
    var whole := [p] + path;
    if |path| == 1 {
      assert whole[..1] == [p];
    } else {
      assert whole[..|whole| - 1] == [p] + path[..|path| - 1];
      ArcLengthFront(m, p, path[..|path| - 1]);
    }
  }

  /** Travelling a path backwards gives the same length. */
  lemma {:induction false} ArcLengthReversed(m: Maths, path: seq<Point>)
    ensures ArcLength(m, Reverse(path)) == ArcLength(m, path)
  {
    if 2 <= |path| {
      var prefix := path[..|path| - 1];
      var last := path[|path| - 1];
      var r := Reverse(path);
      assert r == [last] + Reverse(prefix);
      ArcLengthFront(m, last, Reverse(prefix));
      ArcLengthReversed(m, prefix);
      SegmentLengthSymmetric(m, last, prefix[|prefix| - 1]);
    }
  }
}
