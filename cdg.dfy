/** The engine itself, class MinimalCDG: the emotion space with its concepts,
    the critical curvature, and the history of trajectories it has
    simulated. The numerical primitives it relies on (np.exp and np.sqrt,
    odeint, the NaN test of a floating-point curvature) are handed to it. */
module Cdg {
  import opened Numerics
  import opened Metric
  import opened Curvature
  import opened Geodesic
  import opened Distance
  import opened Trajectory
  import opened Region
  import opened Relationships

  /** The concept names in the order the dictionary lists them. */
  const DefaultNames: seq<string> :=
    ["joy", "sadness", "anger", "fear", "calm", "excitement", "contentment", "anxiety", "serenity"]

  /** The concepts at (valence, arousal). */
  const DefaultConcepts: map<string, Point> := map[
    "joy" := Point(0.8, 0.7),
    "sadness" := Point(-0.8, -0.6),
    "anger" := Point(-0.6, 0.9),
    "fear" := Point(-0.7, 0.8),
    "calm" := Point(0.6, -0.5),
    "excitement" := Point(0.7, 0.8),
    "contentment" := Point(0.6, 0.2),
    "anxiety" := Point(-0.5, 0.7),
    "serenity" := Point(0.7, -0.3)
  ]

  /** The default consciousness threshold. */
  const DefaultThreshold: real := 2.5

  /** The compute_scalar_curvature of every point of a path, as the list
      comprehension that fills a history record computes it. */
  method CurvatureAlong(f: Field, path: seq<Point>) returns (curvature: seq<real>)
    ensures curvature == CurvatureProfile(f, path)
  {
    curvature := [];
    for i := 0 to |path|
      invariant |curvature| == i
      invariant forall k :: 0 <= k < i ==> curvature[k] == ScalarCurvature(f, path[k].x, path[k].y)
    {
      var c := ComputeScalarCurvature(f, path[i].x, path[i].y);
      curvature := curvature + [c];
    }
  }

  /** The loop of assess_consciousness_region over x and then y: the
      absolute curvature summed, and the points counted, where it is not
      NaN. */
  method GridSum(f: Field, isNan: NanSet, xs: seq<real>, ys: seq<real>) returns (total: real, validPoints: nat)
    ensures Tally(total, validPoints) == GridTally(CurvatureOfField(f), isNan, xs, ys)
  {
    ghost var kappa := CurvatureOfField(f);
    total, validPoints := 0.0, 0;
    for i := 0 to |xs|
      invariant Tally(total, validPoints) == GridTally(kappa, isNan, xs[..i], ys)
    {
      var x := xs[i];
      for j := 0 to |ys|
        invariant Tally(total, validPoints) == Plus(GridTally(kappa, isNan, xs[..i], ys), ColumnTally(kappa, isNan, x, ys[..j]))
      {
        var y := ys[j];
        var curvature := SampleCurvature(f, kappa, x, y);
        if !isNan(x, y) {
          total := total + Abs(curvature);
          validPoints := validPoints + 1;
        }
        assert ys[..j + 1][..j] == ys[..j];
      }
      assert ys[..|ys|] == ys;
      assert xs[..i + 1][..i] == xs[..i];
    }
    assert xs[..|xs|] == xs;
  }

  /** compute_scalar_curvature at one grid point. */
  method SampleCurvature(f: Field, ghost kappa: CurvatureMap, x: real, y: real) returns (curvature: real)
    requires kappa == CurvatureOfField(f)
    ensures curvature == kappa(x, y)
  {
    curvature := ComputeScalarCurvature(f, x, y);
  }

  class MinimalCdg {
    const maths: Maths
    const solve: OdeSolver
    const isNan: NanSet
    /** self.concepts, and its keys in dictionary order. */
    const concepts: map<string, Point>
    const names: seq<string>
    /** self.R_critical. */
    const rCritical: real
    var trajectoryHistory: seq<HistoryEntry>
    /** The distance compute_geodesic_distance measures between two known
        concepts, and the records its simulation appends. */
    ghost const distances: Measure
    ghost const records: PairHistory

    /** names lists the concepts, and distances and records are those of
        this engine. */
    ghost predicate Valid() {
      Catalogue(names, concepts) && Measures(maths, solve, concepts, distances) && Records(maths, solve, concepts, records)
    }

    /** __init__: the nine concepts, the threshold, an empty history. */
    constructor (maths: Maths, solve: OdeSolver, isNan: NanSet, consciousnessThreshold: real := DefaultThreshold)
      ensures Valid()
      ensures this.maths == maths && this.solve == solve && this.isNan == isNan
      ensures concepts == DefaultConcepts && names == DefaultNames
      ensures rCritical == consciousnessThreshold
      ensures distances == PairMeasure(maths, solve, DefaultConcepts)
      ensures records == PairRecords(maths, solve, DefaultConcepts)
      ensures trajectoryHistory == []
    {
      this.maths := maths;
      this.solve := solve;
      this.isNan := isNan;
      concepts := DefaultConcepts;
      names := DefaultNames;
      rCritical := consciousnessThreshold;
      trajectoryHistory := [];
      distances := PairMeasure(maths, solve, DefaultConcepts);
      records := PairRecords(maths, solve, DefaultConcepts);
      new;
      DefaultCatalogue();
    }

    /** simulate_thought_trajectory: the path Simulation describes, or its
        error; a successful integration appends its record to the history,
        and nothing else changes. */
    method SimulateThoughtTrajectory(startConcept: string, endConcept: string,
                                     duration: real := DefaultDuration, steps: int := 200)
      returns (trajectory: Result<seq<Point>>)
      modifies this`trajectoryHistory
      ensures var r := Simulation(maths, solve, concepts, startConcept, endConcept, duration, steps);
        trajectory == if r.Err? then Err(r.failure) else Ok(r.value.path)
      ensures trajectoryHistory == old(trajectoryHistory)
        + Appended(Simulation(maths, solve, concepts, startConcept, endConcept, duration, steps))
    {
      if startConcept !in concepts || endConcept !in concepts {
        return Err(UnknownConcept);
      }
      var startPos := concepts[startConcept];
      var endPos := concepts[endConcept];
      var dx, dy := endPos.x - startPos.x, endPos.y - startPos.y;
      var distance := DirectionNorm(maths, startPos, endPos);
      var initialVelocity: Point;
      if distance > 0.0 {
        initialVelocity := Point(dx / distance * InitialSpeed, dy / distance * InitialSpeed);
      } else {
        initialVelocity := CoincidentVelocity;
      }
      assert initialVelocity == InitialVelocity(maths, startPos, endPos);
      if steps < 0 {
        return Err(NegativeSampleCount);
      }
      var timePoints := Linspace(0.0, duration, steps);
      var f := MetricField(maths);
      var states := solve(GeodesicField(f), State(startPos.x, startPos.y, initialVelocity.x, initialVelocity.y), timePoints);
      if states.Some? {
        var path := Positions(states.value);
        var curvature := CurvatureAlong(f, path);
        trajectoryHistory := trajectoryHistory + [HistoryEntry(startConcept, endConcept, path, curvature)];
        assert Simulation(maths, solve, concepts, startConcept, endConcept, duration, steps)
          == Ok(Run(path, Some(HistoryEntry(startConcept, endConcept, path, curvature))));
        return Ok(path);
      }
      return Ok(StraightLine(startPos, endPos, steps));
    }

    /** assess_consciousness_region: the grid loop accumulates exactly the
        tally Assessment describes. */
    method AssessConsciousnessRegion(bounds: Bounds, resolution: int := 20) returns (r: Result<(real, bool)>)
      ensures r == Assessment(CurvatureOfField(MetricField(maths)), isNan, bounds, resolution, rCritical)
    {
      if resolution < 0 {
        return Err(NegativeSampleCount);
      }
      var xs := Linspace(bounds.xMin, bounds.xMax, resolution);
      var ys := Linspace(bounds.yMin, bounds.yMax, resolution);
      var total, validPoints := GridSum(MetricField(maths), isNan, xs, ys);
      var integrated: real;
      if validPoints > 0 {
        integrated := total * Area(bounds) / validPoints as real;
        AverageOverValidPoints(total, validPoints, bounds);
      } else {
        integrated := 0.0;
      }
      return Ok((integrated, integrated > rCritical));
    }

    /** compute_geodesic_distance: the arc length of the simulated path, or
        the simulation's error; the simulation's record is appended. */
    method ComputeGeodesicDistance(concept1: string, concept2: string, samples: int := DefaultSamples)
      returns (distance: Result<real>)
      modifies this`trajectoryHistory
      ensures distance == GeodesicDistance(maths, solve, concepts, concept1, concept2, samples)
      ensures trajectoryHistory == old(trajectoryHistory)
        + Appended(Simulation(maths, solve, concepts, concept1, concept2, DefaultDuration, samples))
    {
      var trajectory := SimulateThoughtTrajectory(concept1, concept2, steps := samples);
      if trajectory.Err? {
        return Err(trajectory.failure);
      }
      var length := PathLength(maths, trajectory.value);
      return Ok(length);
    }

    /** analyze_conceptual_relationships: the table of distances between
        every ordered pair of distinct concepts, each simulation's record
        appended in the order the loops visit the pairs. */
    method AnalyzeConceptualRelationships() returns (relationships: map<string, map<string, real>>)
      requires Valid()
      modifies this`trajectoryHistory
      ensures relationships == Table(distances, names, |names|)
      ensures relationships.Keys == concepts.Keys
      ensures forall c :: c in concepts ==> relationships[c].Keys == concepts.Keys - {c}
      ensures forall c, d :: c in concepts && d in concepts && c != d ==> relationships[c][d] == distances(c, d)
      ensures trajectoryHistory == old(trajectoryHistory) + TableHistory(records, names, |names|)
    {
      relationships := map[];
      for i := 0 to |names|
        invariant relationships == Table(distances, names, i)
        invariant trajectoryHistory == old(trajectoryHistory) + TableHistory(records, names, i)
      {
        var row := RelationshipsRow(i);
        relationships := relationships[names[i] := row];
        SeqAssociative(old(trajectoryHistory), TableHistory(records, names, i), RowHistory(records, names, i, |names|));
      }
      RelationshipsComplete(distances, concepts, names);
    }

    /** The inner loop of analyze_conceptual_relationships: the distances
        from names[i] to every other concept. */
    method RelationshipsRow(i: nat) returns (row: map<string, real>)
      requires Valid() && i < |names|
      modifies this`trajectoryHistory
      ensures row == Row(distances, names, i, |names|)
      ensures trajectoryHistory == old(trajectoryHistory) + RowHistory(records, names, i, |names|)
    {
      var concept1 := names[i];
      row := map[];
      for j := 0 to |names|
        invariant row == Row(distances, names, i, j)
        invariant trajectoryHistory == old(trajectoryHistory) + RowHistory(records, names, i, j)
      {
        if i != j {
          var concept2 := names[j];
          var distance := MeasurePair(concept1, concept2);
          row := row[concept2 := distance];
          SeqAssociative(old(trajectoryHistory), RowHistory(records, names, i, j), records(concept1, concept2));
        }
      }
    }

    /** compute_geodesic_distance between two known concepts, which always
        yields a distance. */
    method MeasurePair(concept1: string, concept2: string) returns (distance: real)
      requires Valid() && concept1 in concepts && concept2 in concepts
      modifies this`trajectoryHistory
      ensures distance == distances(concept1, concept2)
      ensures trajectoryHistory == old(trajectoryHistory) + records(concept1, concept2)
    {
      var measured := ComputeGeodesicDistance(concept1, concept2);
      distance := measured.value;
    }
  }

  lemma SeqAssociative<T>(a: seq<T>, b: seq<T>, c: seq<T>)
    ensures a + b + c == a + (b + c)
  {
  }

  /** The default names list exactly the default concepts, each once. */
  lemma DefaultCatalogue()
    ensures Catalogue(DefaultNames, DefaultConcepts)
  {
  }

  /** Every default concept lies in the emotion space [-1, 1] × [-1, 1]. */
  lemma DefaultConceptsInEmotionSpace()
    ensures forall c :: c in DefaultConcepts ==>
      -1.0 <= DefaultConcepts[c].x <= 1.0 && -1.0 <= DefaultConcepts[c].y <= 1.0
  {
  }

  /** No two default concepts share a position. */
  lemma DefaultPositionsDistinct()
    ensures forall c, d :: c in DefaultConcepts && d in DefaultConcepts && c != d ==> DefaultConcepts[c] != DefaultConcepts[d]
  {
  }

  /** So analyze_conceptual_relationships, which only pairs distinct
      concepts, never reaches the coincident case in which the source's
      initial velocity raises. */
  lemma RelationshipsAvoidCoincidence(m: Maths)
    requires Sound(m)
    ensures forall c, d :: c in DefaultConcepts && d in DefaultConcepts && c != d ==>
      InitialVelocityAsWritten(m, DefaultConcepts[c], DefaultConcepts[d]).Some?
  {
    DefaultPositionsDistinct();
    forall c, d | c in DefaultConcepts && d in DefaultConcepts && c != d
      ensures InitialVelocityAsWritten(m, DefaultConcepts[c], DefaultConcepts[d]).Some?
    {
      CoincidentEndpointsRaise(m, DefaultConcepts[c], DefaultConcepts[d]);
    }
  }

  /** For the pairs the analysis measures, the corrected simulation and the
      source's agree, so its table is the one the source computes. */
  lemma DefaultPairsFollowTheSource(m: Maths, solve: OdeSolver, c: string, d: string, duration: real, steps: int)
    requires Sound(m)
    requires c in DefaultConcepts && d in DefaultConcepts && c != d
    ensures SimulationAsWritten(m, solve, DefaultConcepts, c, d, duration, steps)
      == Simulation(m, solve, DefaultConcepts, c, d, duration, steps)
  {
    DefaultPositionsDistinct();
    SimulationCorrectsAsWritten(m, solve, DefaultConcepts, c, d, duration, steps);
  }
}
