/** What one call of MinimalCDG.simulate_thought_trajectory computes: the
    initial condition, the solver run, the history record and the
    straight-line fallback. */
module Trajectory {
  import opened Numerics
  import opened Metric
  import opened Curvature
  import opened Geodesic

  /** One element of trajectory_history. */
  datatype HistoryEntry = HistoryEntry(start: string, end: string, path: seq<Point>, curvature: seq<real>)

  /** The path returned, and the record appended when the solver succeeded. */
  datatype Run = Run(path: seq<Point>, recorded: Option<HistoryEntry>)

  /** The speed given to the initial velocity. */
  const InitialSpeed: real := 0.15

  /** The velocity used when start and end coincide. */
  const CoincidentVelocity: Point := Point(0.1, 0.1)

  /** np.linalg.norm of the direction from p to q. */
  function DirectionNorm(m: Maths, p: Point, q: Point): real {
    m.sqrt((q.x - p.x) * (q.x - p.x) + (q.y - p.y) * (q.y - p.y))
  }

  /** direction / |direction| * 0.15, and [0.1, 0.1] when |direction| is 0. */
  function InitialVelocity(m: Maths, p: Point, q: Point): (v: Point)
    ensures InitialVelocityAsWritten(m, p, q).Some? ==> v == InitialVelocityAsWritten(m, p, q).value
    ensures InitialVelocityAsWritten(m, p, q).None? ==> v == CoincidentVelocity
  {
    var n := DirectionNorm(m, p, q);
    if n > 0.0 then Point((q.x - p.x) / n * InitialSpeed, (q.y - p.y) / n * InitialSpeed)
    else CoincidentVelocity
  }

  /** The initial velocity as the source computes it: the fallback [0.1, 0.1]
      is a Python list, so the .tolist() call that follows raises
      AttributeError (None here) instead of using it. */
  function InitialVelocityAsWritten(m: Maths, p: Point, q: Point): Option<Point> {
    var n := DirectionNorm(m, p, q);
    if n > 0.0 then Some(Point((q.x - p.x) / n * InitialSpeed, (q.y - p.y) / n * InitialSpeed))
    else None
  }

  /** The norm is positive exactly when the end points differ, and it is the
      Euclidean length of the direction. */
  lemma DirectionNormPositive(m: Maths, p: Point, q: Point)
    requires Sound(m)
    ensures DirectionNorm(m, p, q) > 0.0 <==> p != q
    ensures DirectionNorm(m, p, q) * DirectionNorm(m, p, q) == (q.x - p.x) * (q.x - p.x) + (q.y - p.y) * (q.y - p.y)
  {
    LengthOfSum(m, q.x - p.x, q.y - p.y);
    if p == q {
      assert q.x - p.x == 0.0 && q.y - p.y == 0.0;
    } else {
      assert q.x - p.x != 0.0 || q.y - p.y != 0.0;
    }
  }

  /** The square root of a² + b² is positive unless a and b are both 0. */
  lemma LengthOfSum(m: Maths, a: real, b: real)
    requires Sound(m)
    ensures m.sqrt(a * a + b * b) * m.sqrt(a * a + b * b) == a * a + b * b
    ensures a == 0.0 && b == 0.0 ==> m.sqrt(a * a + b * b) == 0.0
    ensures a != 0.0 || b != 0.0 ==> 0.0 < m.sqrt(a * a + b * b)
  {
    SumOfSquares(a, b);
  }

  /** a² + b² is never negative, 0 when a and b are, and positive otherwise. */
  lemma SumOfSquares(a: real, b: real)
    ensures 0.0 <= a * a + b * b
    ensures a == 0.0 && b == 0.0 ==> a * a + b * b == 0.0
    ensures a != 0.0 || b != 0.0 ==> 0.0 < a * a + b * b
  {
    if a < 0.0 {
      assert a * a == (-a) * (-a);
    }
    if b < 0.0 {
      assert b * b == (-b) * (-b);
    }
  }

  /** Coincident end points are exactly the inputs on which the source's
      initial velocity raises. */
  lemma {:induction false} CoincidentEndpointsRaise(m: Maths, p: Point, q: Point)
    requires Sound(m)
    ensures InitialVelocityAsWritten(m, p, q).None? <==> p == q
  {
    DirectionNormPositive(m, p, q);
  }

  /** The corrected velocity agrees with the source wherever the source does
      not raise and is [0.1, 0.1] where it does; for distinct end points it
      is the direction from p to q times 0.15 over its Euclidean length n. */
  lemma {:induction false} InitialVelocityCorrect(m: Maths, p: Point, q: Point)
    requires Sound(m)
    ensures p != q ==> InitialVelocityAsWritten(m, p, q) == Some(InitialVelocity(m, p, q))
    ensures p == q ==> InitialVelocity(m, p, q) == CoincidentVelocity
    ensures p != q ==>
      var v, n := InitialVelocity(m, p, q), DirectionNorm(m, p, q);
      && 0.0 < n && n * n == (q.x - p.x) * (q.x - p.x) + (q.y - p.y) * (q.y - p.y)
      && v.x * n == (q.x - p.x) * InitialSpeed && v.y * n == (q.y - p.y) * InitialSpeed
  {
    DirectionNormPositive(m, p, q);
    if p != q {
      var n := DirectionNorm(m, p, q);
      ScaledQuotient(q.x - p.x, n);
      ScaledQuotient(q.y - p.y, n);
    }
  }

  lemma ScaledQuotient(d: real, n: real)
    requires n != 0.0
    ensures (d / n * InitialSpeed) * n == d * InitialSpeed
  {
  }

  /** (1 − t) p + t q. */
  function Lerp(p: Point, q: Point, t: real): Point {
    Point((1.0 - t) * p.x + t * q.x, (1.0 - t) * p.y + t * q.y)
  }

  ghost predicate OnSegment(p: Point, q: Point, r: Point) {
    exists t :: 0.0 <= t <= 1.0 && r == Lerp(p, q, t)
  }

  /** The fallback: the segment from p to q sampled at np.linspace(0, 1, steps). */
  function StraightLine(p: Point, q: Point, steps: nat): (line: seq<Point>)
    ensures |line| == steps
    ensures 1 <= steps ==> line[0] == p
    ensures 2 <= steps ==> line[steps - 1] == q
  {
    var ts := Linspace(0.0, 1.0, steps);
    var line := seq(steps, i requires 0 <= i < steps => Lerp(p, q, ts[i]));
    assert 1 <= steps ==> line[0] == Lerp(p, q, 0.0);
    assert 2 <= steps ==> line[steps - 1] == Lerp(p, q, 1.0);
    line
  }

  /** The fallback path has steps points, all on the segment, starting at p
      and, from two points on, ending at q. */
  lemma StraightLineSpansSegment(p: Point, q: Point, steps: nat)
    ensures |StraightLine(p, q, steps)| == steps
    ensures forall i :: 0 <= i < steps ==> OnSegment(p, q, StraightLine(p, q, steps)[i])
    ensures 1 <= steps ==> StraightLine(p, q, steps)[0] == p
    ensures 2 <= steps ==> StraightLine(p, q, steps)[steps - 1] == q
  {
    var ts := Linspace(0.0, 1.0, steps);
    var line := StraightLine(p, q, steps);
    LinspaceWithin(0.0, 1.0, steps);
    forall i | 0 <= i < steps
      ensures OnSegment(p, q, line[i])
    {
      assert 0.0 <= ts[i] <= 1.0 && line[i] == Lerp(p, q, ts[i]);
    }
  }

  /** The curvature recorded at each point of a path. */
  function CurvatureProfile(f: Field, path: seq<Point>): (c: seq<real>)
    ensures |c| == |path|
  {
    seq(|path|, i requires 0 <= i < |path| => ScalarCurvature(f, path[i].x, path[i].y))
  }

  /** The try block and its fallback: odeint from p with velocity v, and
      on success the record of the run; on failure the straight line. */
  function Integration(m: Maths, solve: OdeSolver, start: string, end: string,
                       p: Point, q: Point, v: Point, duration: real, steps: nat): Run
  {
    var f := MetricField(m);
    match solve(GeodesicField(f), State(p.x, p.y, v.x, v.y), Linspace(0.0, duration, steps))
    case Some(states) =>
      var path := Positions(states);
      Run(path, Some(HistoryEntry(start, end, path, CurvatureProfile(f, path))))
    case None => Run(StraightLine(p, q, steps), None)
  }

  /** simulate_thought_trajectory(start, end, duration, steps) over the
      concepts of the space, the engine's exp/sqrt and its ODE solver, with
      the corrected initial velocity. */
  function Simulation(m: Maths, solve: OdeSolver, concepts: map<string, Point>,
                      start: string, end: string, duration: real, steps: int): (r: Result<Run>)
    ensures r.Err? <==> start !in concepts || end !in concepts || steps < 0
    ensures r.Ok? && r.value.recorded.Some? ==>
      var e := r.value.recorded.value;
      e.start == start && e.end == end && e.path == r.value.path
    ensures r.Ok? && r.value.recorded.None? ==>
      r.value.path == StraightLine(concepts[start], concepts[end], steps)
  {
    if start !in concepts || end !in concepts then Err(UnknownConcept)
    else if steps < 0 then Err(NegativeSampleCount)
    else
      var p, q := concepts[start], concepts[end];
      Ok(Integration(m, solve, start, end, p, q, InitialVelocity(m, p, q), duration, steps))
  }

  /** simulate_thought_trajectory as written: the velocity is computed
      before np.linspace, and the coincident case raises there. */
  function SimulationAsWritten(m: Maths, solve: OdeSolver, concepts: map<string, Point>,
                               start: string, end: string, duration: real, steps: int): Result<Run>
  {
    if start !in concepts || end !in concepts then Err(UnknownConcept)
    else
      var p, q := concepts[start], concepts[end];
      match InitialVelocityAsWritten(m, p, q)
      case None => Err(ListHasNoToList)
      case Some(v) =>
        if steps < 0 then Err(NegativeSampleCount)
        else Ok(Integration(m, solve, start, end, p, q, v, duration, steps))
  }

  /** The source raises AttributeError exactly for two known concepts at one
      position, whatever the step count; on every other input it computes
      what the corrected simulation computes. */
  lemma {:induction false} SimulationCorrectsAsWritten(m: Maths, solve: OdeSolver, concepts: map<string, Point>,
                                                       start: string, end: string, duration: real, steps: int)
    requires Sound(m)
    ensures SimulationAsWritten(m, solve, concepts, start, end, duration, steps) == Err(ListHasNoToList)
      <==> start in concepts && end in concepts && concepts[start] == concepts[end]
    ensures !(start in concepts && end in concepts && concepts[start] == concepts[end]) ==>
      SimulationAsWritten(m, solve, concepts, start, end, duration, steps)
        == Simulation(m, solve, concepts, start, end, duration, steps)
  {
    if start in concepts && end in concepts {
      var p, q := concepts[start], concepts[end];
      CoincidentEndpointsRaise(m, p, q);
      InitialVelocityCorrect(m, p, q);
    }
  }

  /** The records a simulation adds to trajectory_history. */
  function Appended(r: Result<Run>): seq<HistoryEntry> {
    if r.Ok? && r.value.recorded.Some? then [r.value.recorded.value] else []
  }

  /** The errors of the corrected simulation: an unknown name, then a
      negative number of steps. */
  lemma SimulationFails(m: Maths, solve: OdeSolver, concepts: map<string, Point>,
                        start: string, end: string, duration: real, steps: int)
    ensures Simulation(m, solve, concepts, start, end, duration, steps) == Err(UnknownConcept)
      <==> start !in concepts || end !in concepts
    ensures Simulation(m, solve, concepts, start, end, duration, steps) == Err(NegativeSampleCount)
      <==> start in concepts && end in concepts && steps < 0
    ensures Simulation(m, solve, concepts, start, end, duration, steps).Err? ==>
      Appended(Simulation(m, solve, concepts, start, end, duration, steps)) == []
  {
  }

  /** A successful run records its own path, of steps points, beginning at
      the start concept; a failed integration falls back to the straight
      line and records nothing. */
  lemma SimulationShape(m: Maths, solve: OdeSolver, concepts: map<string, Point>,
                        start: string, end: string, duration: real, steps: int)
    requires Reliable(solve)
    requires start in concepts && end in concepts && 0 <= steps
    ensures var r := Simulation(m, solve, concepts, start, end, duration, steps);
      && r.Ok?
      && |r.value.path| == steps
      && (r.value.recorded.Some? ==>
            var e := r.value.recorded.value;
            && e.start == start && e.end == end && e.path == r.value.path
            && |e.curvature| == steps
            && Appended(r) == [e]
            && (1 <= steps ==> r.value.path[0] == concepts[start]))
      && (r.value.recorded.None? ==>
            r.value.path == StraightLine(concepts[start], concepts[end], steps) && Appended(r) == [])
  {
    var p, q := concepts[start], concepts[end];
    var v := InitialVelocity(m, p, q);
    var ts := Linspace(0.0, duration, steps);
    var init := State(p.x, p.y, v.x, v.y);
    var out := solve(GeodesicField(MetricField(m)), init, ts);
    if out.Some? {
      assert |out.value| == |ts|;
      if 1 <= steps {
        assert out.value[0] == init;
      }
    } else {
      StraightLineSpansSegment(p, q, steps);
    }
  }
}
