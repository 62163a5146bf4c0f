/** MinimalCDG.assess_consciousness_region as a specification: the absolute
    scalar curvature summed over a resolution × resolution grid of the
    region, averaged over the points where it is a number, times the area of
    the region, compared with the critical curvature. */
module Region {
  import opened Numerics
  import opened Metric
  import opened Curvature

  /** (x_min, x_max, y_min, y_max). */
  datatype Bounds = Bounds(xMin: real, xMax: real, yMin: real, yMax: real)

  /** total_curvature and valid_points of the source's loop. */
  datatype Tally = Tally(total: real, count: nat)

  const Empty: Tally := Tally(0.0, 0)

  function Plus(a: Tally, b: Tally): Tally {
    Tally(a.total + b.total, a.count + b.count)
  }

  /** The scalar curvature at every point. */
  type CurvatureMap = (real, real) -> real

  /** compute_scalar_curvature of a metric field, point by point. */
  function CurvatureOfField(f: Field): (kappa: CurvatureMap)
    ensures forall x, y :: kappa(x, y) == ScalarCurvature(f, x, y)
  {
    (x, y) => ScalarCurvature(f, x, y)
  }

  /** Where the floating-point curvature is NaN; the real-valued model has no
      NaN, so the engine is handed this set of points. */
  type NanSet = (real, real) -> bool

  /** The inner loop over y at one x: |curvature| added and the point counted
      unless the curvature there is NaN. */
  function ColumnTally(kappa: CurvatureMap, isNan: NanSet, x: real, ys: seq<real>): Tally
    decreases |ys|
  {
    if |ys| == 0 then Empty
    else
      var t := ColumnTally(kappa, isNan, x, ys[..|ys| - 1]);
      var y := ys[|ys| - 1];
      if isNan(x, y) then t else Tally(t.total + Abs(kappa(x, y)), t.count + 1)
  }

  /** The outer loop over x. */
  function GridTally(kappa: CurvatureMap, isNan: NanSet, xs: seq<real>, ys: seq<real>): Tally
    decreases |xs|
  {
    if |xs| == 0 then Empty
    else Plus(GridTally(kappa, isNan, xs[..|xs| - 1], ys), ColumnTally(kappa, isNan, xs[|xs| - 1], ys))
  }

  function Area(b: Bounds): real {
    (b.xMax - b.xMin) * (b.yMax - b.yMin)
  }

  /** total · area / valid_points, and 0 when no point was valid. */
  function Integrated(t: Tally, b: Bounds): real {
    if t.count > 0 then t.total * Area(b) / (t.count as real) else 0.0
  }

  /** assess_consciousness_region(bounds, resolution): the integrated
      curvature and whether it exceeds the critical value; a negative
      resolution makes np.linspace raise. */
  function Assessment(kappa: CurvatureMap, isNan: NanSet, b: Bounds, resolution: int, rCritical: real): (r: Result<(real, bool)>)
    ensures r.Err? <==> resolution < 0
    ensures r.Ok? ==> (r.value.1 <==> r.value.0 > rCritical)
  {
    if resolution < 0 then Err(NegativeSampleCount)
    else
      var xs := Linspace(b.xMin, b.xMax, resolution);
      var ys := Linspace(b.yMin, b.yMax, resolution);
      var integrated := Integrated(GridTally(kappa, isNan, xs, ys), b);
      Ok((integrated, integrated > rCritical))
  }

  /** A column sums non-negative terms, counts at most |ys| points, and
      counts all of them where nothing is NaN. */
  lemma {:induction false} ColumnTallyBounds(kappa: CurvatureMap, isNan: NanSet, x: real, ys: seq<real>)
    ensures 0.0 <= ColumnTally(kappa, isNan, x, ys).total
    ensures ColumnTally(kappa, isNan, x, ys).count <= |ys|
    ensures (forall i :: 0 <= i < |ys| ==> !isNan(x, ys[i])) ==> ColumnTally(kappa, isNan, x, ys).count == |ys|
    decreases |ys|
  {
    if |ys| > 0 {
      var front := ys[..|ys| - 1];
      ColumnTallyBounds(kappa, isNan, x, front);
      if forall i :: 0 <= i < |ys| ==> !isNan(x, ys[i]) {
        assert forall i :: 0 <= i < |front| ==> !isNan(x, front[i]) by {
          forall i | 0 <= i < |front| ensures !isNan(x, front[i]) {
            assert front[i] == ys[i];
          }
        }
      }
    }
  }

  /** The grid sums non-negative terms, counts at most |xs|·|ys| points,
      and counts all of them where nothing is NaN. */
  lemma {:induction false} GridTallyBounds(kappa: CurvatureMap, isNan: NanSet, xs: seq<real>, ys: seq<real>)
    ensures 0.0 <= GridTally(kappa, isNan, xs, ys).total
    ensures GridTally(kappa, isNan, xs, ys).count <= |xs| * |ys|
    ensures (forall x, y :: !isNan(x, y)) ==> GridTally(kappa, isNan, xs, ys).count == |xs| * |ys|
    decreases |xs|
  {
    if |xs| > 0 {
      var front := xs[..|xs| - 1];
      GridTallyBounds(kappa, isNan, front, ys);
      var x := xs[|xs| - 1];
      ColumnTallyBounds(kappa, isNan, x, ys);
      if forall x, y :: !isNan(x, y) {
        assert forall i :: 0 <= i < |ys| ==> !isNan(x, ys[i]);
      }
      assert |xs| * |ys| == |front| * |ys| + |ys|;
    }
  }

  /** Where the curvature vanishes everywhere, so does the integral. */
  lemma {:induction false} FlatColumn(kappa: CurvatureMap, isNan: NanSet, x: real, ys: seq<real>)
    requires forall u, v :: kappa(u, v) == 0.0
    ensures ColumnTally(kappa, isNan, x, ys).total == 0.0
    decreases |ys|
  {
    if |ys| > 0 {
      FlatColumn(kappa, isNan, x, ys[..|ys| - 1]);
    }
  }

  lemma {:induction false} FlatGrid(kappa: CurvatureMap, isNan: NanSet, xs: seq<real>, ys: seq<real>)
    requires forall u, v :: kappa(u, v) == 0.0
    ensures GridTally(kappa, isNan, xs, ys).total == 0.0
    decreases |xs|
  {
    if |xs| > 0 {
      FlatGrid(kappa, isNan, xs[..|xs| - 1], ys);
      FlatColumn(kappa, isNan, xs[|xs| - 1], ys);
    }
  }

  /** The outcomes of an assessment: the error exactly for a negative
      resolution; otherwise consciousness exactly when the integral exceeds
      the critical value, an integral of 0 at resolution 0 and whenever no
      sample was valid (every one NaN), and a non-negative integral on a
      well-ordered region. */
  lemma AssessmentOutcomes(kappa: CurvatureMap, isNan: NanSet, b: Bounds, resolution: int, rCritical: real)
    ensures Assessment(kappa, isNan, b, resolution, rCritical).Err? <==> resolution < 0
    ensures Assessment(kappa, isNan, b, resolution, rCritical).Ok? ==>
      var (integrated, conscious) := Assessment(kappa, isNan, b, resolution, rCritical).value;
      && (conscious <==> integrated > rCritical)
      && (resolution == 0 ==> integrated == 0.0)
      && (var t := GridTally(kappa, isNan, Linspace(b.xMin, b.xMax, resolution), Linspace(b.yMin, b.yMax, resolution));
          t.count == 0 ==> integrated == 0.0)
      && (b.xMin <= b.xMax && b.yMin <= b.yMax ==> 0.0 <= integrated)
  {
    if 0 <= resolution {
      var xs := Linspace(b.xMin, b.xMax, resolution);
      var ys := Linspace(b.yMin, b.yMax, resolution);
      var t := GridTally(kappa, isNan, xs, ys);
      GridTallyBounds(kappa, isNan, xs, ys);
      if b.xMin <= b.xMax && b.yMin <= b.yMax && t.count > 0 {
        AreaNonNegative(b);
        NonNegativeQuotient(t.total, Area(b), t.count as real);
      }
    }
  }

  /** Integrated with the tally spelled out. */
  lemma AverageOverValidPoints(total: real, validPoints: nat, b: Bounds)
    requires validPoints > 0
    ensures Integrated(Tally(total, validPoints), b) == total * Area(b) / validPoints as real
  {
  }

  lemma AreaNonNegative(b: Bounds)
    requires b.xMin <= b.xMax && b.yMin <= b.yMax
    ensures 0.0 <= Area(b)
  {
  }

  lemma NonNegativeQuotient(total: real, area: real, n: real)
    requires 0.0 <= total && 0.0 <= area && 0.0 < n
    ensures 0.0 <= total * area / n
  {
    assert 0.0 <= total * area;
  }

  /** A region of a flat space has integrated curvature 0 and is conscious
      only under a negative critical value. */
  lemma FlatRegionIntegratesToZero(kappa: CurvatureMap, isNan: NanSet, b: Bounds, resolution: int, rCritical: real)
    requires forall u, v :: kappa(u, v) == 0.0
    requires 0 <= resolution
    ensures Assessment(kappa, isNan, b, resolution, rCritical) == Ok((0.0, 0.0 > rCritical))
  {
    var xs := Linspace(b.xMin, b.xMax, resolution);
    var ys := Linspace(b.yMin, b.yMax, resolution);
    FlatGrid(kappa, isNan, xs, ys);
  }

  /** In particular a constant invertible metric gives every region an
      integrated curvature of 0. */
  lemma ConstantMetricRegion(f: Field, g: Mat2, isNan: NanSet, b: Bounds, resolution: int, rCritical: real)
    requires forall u, v :: f(u, v) == g
    requires g.Det() != 0.0 && 0 <= resolution
    ensures Assessment(CurvatureOfField(f), isNan, b, resolution, rCritical) == Ok((0.0, 0.0 > rCritical))
  {
    var kappa := CurvatureOfField(f);
    forall u, v
      ensures kappa(u, v) == 0.0
    {
      ConstantMetricIsFlat(f, g, u, v);
    }
    FlatRegionIntegratesToZero(kappa, isNan, b, resolution, rCritical);
  }
}
