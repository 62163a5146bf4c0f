/** MinimalCDG.compute_geodesic_distance and
    MinimalCDG.analyze_conceptual_relationships as specifications: the
    Riemannian length of a simulated trajectory, and the table of those
    lengths between every ordered pair of distinct concepts. */
module Relationships {
  import opened Numerics
  import opened Metric
  import opened Distance
  import opened Geodesic
  import opened Trajectory

  /** The duration simulate_thought_trajectory integrates over by default. */
  const DefaultDuration: real := 15.0

  /** The number of samples compute_geodesic_distance uses by default. */
  const DefaultSamples: int := 50

  /** compute_geodesic_distance(c1, c2, samples): the arc length of the
      trajectory simulated from c1 to c2 with samples steps, or the error
      that simulation raises. */
  function GeodesicDistance(m: Maths, solve: OdeSolver, concepts: map<string, Point>,
                            c1: string, c2: string, samples: int): (r: Result<real>)
    ensures r.Err? <==> Simulation(m, solve, concepts, c1, c2, DefaultDuration, samples).Err?
    ensures Sound(m) && r.Ok? ==> 0.0 <= r.value
  {
    var r := Simulation(m, solve, concepts, c1, c2, DefaultDuration, samples);
    if r.Err? then Err(r.failure) else Ok(ArcLength(m, r.value.path))
  }

  /** The distance fails exactly as the simulation does, and is never
      negative. */
  lemma GeodesicDistanceOutcomes(m: Maths, solve: OdeSolver, concepts: map<string, Point>,
                                 c1: string, c2: string, samples: int)
    requires Sound(m)
    ensures GeodesicDistance(m, solve, concepts, c1, c2, samples) == Err(UnknownConcept)
      <==> c1 !in concepts || c2 !in concepts
    ensures GeodesicDistance(m, solve, concepts, c1, c2, samples) == Err(NegativeSampleCount)
      <==> c1 in concepts && c2 in concepts && samples < 0
    ensures GeodesicDistance(m, solve, concepts, c1, c2, samples).Ok? ==>
      0.0 <= GeodesicDistance(m, solve, concepts, c1, c2, samples).value
  {
    SimulationFails(m, solve, concepts, c1, c2, DefaultDuration, samples);
  }

  /** Between two concepts at the same place, a failed integration falls
      back to a path that does not move, of length 0. */
  lemma CoincidentFallbackHasLengthZero(m: Maths, solve: OdeSolver, concepts: map<string, Point>,
                                        c1: string, c2: string, samples: int)
    requires Sound(m)
    requires c1 in concepts && c2 in concepts && concepts[c1] == concepts[c2] && 0 <= samples
    requires Simulation(m, solve, concepts, c1, c2, DefaultDuration, samples).value.recorded.None?
    ensures GeodesicDistance(m, solve, concepts, c1, c2, samples) == Ok(0.0)
  {
    var p := concepts[c1];
    var path := Simulation(m, solve, concepts, c1, c2, DefaultDuration, samples).value.path;
    assert path == StraightLine(p, p, samples);
    forall i | 0 <= i < |path|
      ensures path[i] == p
    {
      LerpToItself(p, Linspace(0.0, 1.0, samples)[i]);
    }
    ArcLengthOfStationaryPath(m, path);
  }

  lemma LerpToItself(p: Point, t: real)
    ensures Lerp(p, p, t) == p
  {
    assert (1.0 - t) * p.x + t * p.x == p.x;
    assert (1.0 - t) * p.y + t * p.y == p.y;
  }

  /** The names of the concepts in dictionary order: no name twice, and
      exactly the keys of the dictionary. */
  ghost predicate Catalogue(names: seq<string>, concepts: map<string, Point>) {
    && (forall i, j :: 0 <= i < j < |names| ==> names[i] != names[j])
    && (forall c :: c in concepts <==> c in names)
  }

  /** A distance for every ordered pair of names. */
  type Measure = (string, string) -> real

  /** dist gives compute_geodesic_distance with the default samples for
      every pair of known concepts. */
  ghost predicate Measures(m: Maths, solve: OdeSolver, concepts: map<string, Point>, dist: Measure) {
    forall c1, c2 {:trigger GeodesicDistance(m, solve, concepts, c1, c2, DefaultSamples)} ::
      c1 in concepts && c2 in concepts ==> GeodesicDistance(m, solve, concepts, c1, c2, DefaultSamples) == Ok(dist(c1, c2))
  }

  /** compute_geodesic_distance with the default samples, for known
      concepts. */
  function PairMeasure(m: Maths, solve: OdeSolver, concepts: map<string, Point>): (dist: Measure)
    ensures Measures(m, solve, concepts, dist)
  {
    (c1, c2) =>
      var r := GeodesicDistance(m, solve, concepts, c1, c2, DefaultSamples);
      if r.Ok? then r.value else 0.0
  }

  /** Distances between known concepts are never negative. */
  lemma PairMeasureNonNegative(m: Maths, solve: OdeSolver, concepts: map<string, Point>, c1: string, c2: string)
    requires Sound(m)
    requires c1 in concepts && c2 in concepts
    ensures 0.0 <= PairMeasure(m, solve, concepts)(c1, c2)
  {
    GeodesicDistanceOutcomes(m, solve, concepts, c1, c2, DefaultSamples);
  }

  /** The records one pair's simulation appends to trajectory_history. */
  type PairHistory = (string, string) -> seq<HistoryEntry>

  /** records gives what the simulation of every pair appends. */
  ghost predicate Records(m: Maths, solve: OdeSolver, concepts: map<string, Point>, records: PairHistory) {
    forall c1, c2 {:trigger Simulation(m, solve, concepts, c1, c2, DefaultDuration, DefaultSamples)} ::
      records(c1, c2) == Appended(Simulation(m, solve, concepts, c1, c2, DefaultDuration, DefaultSamples))
  }

  function PairRecords(m: Maths, solve: OdeSolver, concepts: map<string, Point>): (records: PairHistory)
    ensures Records(m, solve, concepts, records)
  {
    (c1, c2) => Appended(Simulation(m, solve, concepts, c1, c2, DefaultDuration, DefaultSamples))
  }

  /** Row i of analyze_conceptual_relationships after its first j columns:
      the distance from names[i] to each names[k], k < j, k ≠ i. */
  function Row(dist: Measure, names: seq<string>, i: nat, j: nat): map<string, real>
    requires i < |names| && j <= |names|
  {
    if j == 0 then map[]
    else
      var row := Row(dist, names, i, j - 1);
      if i == j - 1 then row else row[names[j - 1] := dist(names[i], names[j - 1])]
  }

  /** The first i rows of the table. */
  function Table(dist: Measure, names: seq<string>, i: nat): map<string, map<string, real>>
    requires i <= |names|
  {
    if i == 0 then map[]
    else Table(dist, names, i - 1)[names[i - 1] := Row(dist, names, i - 1, |names|)]
  }

  /** The records the simulations of row i, up to column j, append to
      trajectory_history. */
  function RowHistory(records: PairHistory, names: seq<string>, i: nat, j: nat): seq<HistoryEntry>
    requires i < |names| && j <= |names|
  {
    if j == 0 then []
    else RowHistory(records, names, i, j - 1) + (if i == j - 1 then [] else records(names[i], names[j - 1]))
  }

  /** The records the first i rows append. */
  function TableHistory(records: PairHistory, names: seq<string>, i: nat): seq<HistoryEntry>
    requires i <= |names|
  {
    if i == 0 then []
    else TableHistory(records, names, i - 1) + RowHistory(records, names, i - 1, |names|)
  }

  /** A row up to column j holds exactly the other names before j. */
  lemma {:induction false} RowKeys(dist: Measure, names: seq<string>, i: nat, j: nat)
    requires i < |names| && j <= |names|
    ensures forall c :: c in Row(dist, names, i, j) <==> exists k :: 0 <= k < j && k != i && names[k] == c
    decreases j
  {
    if j > 0 {
      RowKeys(dist, names, i, j - 1);
      var row, previous := Row(dist, names, i, j), Row(dist, names, i, j - 1);
      forall c
        ensures c in row <==> exists k :: 0 <= k < j && k != i && names[k] == c
      {
        if c in previous {
          var k :| 0 <= k < j - 1 && k != i && names[k] == c;
          assert 0 <= k < j && k != i && names[k] == c;
        }
        if exists k :: 0 <= k < j && k != i && names[k] == c {
          var k :| 0 <= k < j && k != i && names[k] == c;
          if k < j - 1 {
            assert c in previous;
          }
        }
      }
    }
  }

  /** Each of those names is mapped to its distance. */
  lemma {:induction false} RowValues(dist: Measure, names: seq<string>, i: nat, j: nat)
    requires i < |names| && j <= |names|
    requires forall a, b :: 0 <= a < b < |names| ==> names[a] != names[b]
    ensures forall k :: 0 <= k < j && k != i ==>
      names[k] in Row(dist, names, i, j) && Row(dist, names, i, j)[names[k]] == dist(names[i], names[k])
    decreases j
  {
    if j > 0 {
      RowValues(dist, names, i, j - 1);
      forall k | 0 <= k < j - 1 && k != i
        ensures names[k] != names[j - 1]
      {
      }
    }
  }

  /** The table after i rows has a row for exactly the first i names. */
  lemma {:induction false} TableDomain(dist: Measure, names: seq<string>, i: nat)
    requires i <= |names|
    ensures forall c :: c in Table(dist, names, i) <==> c in names[..i]
    decreases i
  {
    if i > 0 {
      TableDomain(dist, names, i - 1);
      assert names[..i] == names[..i - 1] + [names[i - 1]];
    }
  }

  /** ... and the row of names[k] is its full row. */
  lemma {:induction false} TableRows(dist: Measure, names: seq<string>, i: nat)
    requires i <= |names|
    requires forall a, b :: 0 <= a < b < |names| ==> names[a] != names[b]
    ensures forall k :: 0 <= k < i ==>
      names[k] in Table(dist, names, i) && Table(dist, names, i)[names[k]] == Row(dist, names, k, |names|)
    decreases i
  {
    if i > 0 {
      TableRows(dist, names, i - 1);
      forall k | 0 <= k < i - 1
        ensures names[k] != names[i - 1]
      {
      }
    }
  }

  /** The full row of names[i]: every other catalogued concept, with its
      distance. */
  lemma FullRow(dist: Measure, concepts: map<string, Point>, names: seq<string>, i: nat)
    requires i < |names| && Catalogue(names, concepts)
    ensures Row(dist, names, i, |names|).Keys == concepts.Keys - {names[i]}
    ensures forall d :: d in concepts && d != names[i] ==> Row(dist, names, i, |names|)[d] == dist(names[i], d)
  {
    var row := Row(dist, names, i, |names|);
    RowKeys(dist, names, i, |names|);
    RowValues(dist, names, i, |names|);
    forall d | d in concepts && d != names[i]
      ensures d in row && row[d] == dist(names[i], d)
    {
      var k :| 0 <= k < |names| && names[k] == d;
      assert k != i;
    }
  }

  /** The finished table has a row for exactly the catalogued concepts. */
  lemma TableKeys(dist: Measure, concepts: map<string, Point>, names: seq<string>)
    requires Catalogue(names, concepts)
    ensures Table(dist, names, |names|).Keys == concepts.Keys
  {
    TableDomain(dist, names, |names|);
    assert names[..|names|] == names;
  }

  /** The row of a catalogued concept is the full row of its index. */
  lemma TableRow(dist: Measure, concepts: map<string, Point>, names: seq<string>, c: string)
    requires Catalogue(names, concepts) && c in concepts
    ensures c in Table(dist, names, |names|)
    ensures Table(dist, names, |names|)[c] == Row(dist, names, IndexOf(names, c), |names|)
  {
    TableRows(dist, names, |names|);
  }

  /** analyze_conceptual_relationships: one row per concept, holding every
      other concept with its distance and nothing else. */
  lemma RelationshipsComplete(dist: Measure, concepts: map<string, Point>, names: seq<string>)
    requires Catalogue(names, concepts)
    ensures Table(dist, names, |names|).Keys == concepts.Keys
    ensures forall c :: c in concepts ==> Table(dist, names, |names|)[c].Keys == concepts.Keys - {c}
    ensures forall c, d :: c in concepts && d in concepts && c != d ==> Table(dist, names, |names|)[c][d] == dist(c, d)
  {
    TableKeys(dist, concepts, names);
    forall c | c in concepts
      ensures Table(dist, names, |names|)[c].Keys == concepts.Keys - {c}
      ensures forall d :: d in concepts && c != d ==> Table(dist, names, |names|)[c][d] == dist(c, d)
    {
      TableRow(dist, concepts, names, c);
      FullRow(dist, concepts, names, IndexOf(names, c));
    }
  }

  /** The position of a name in the catalogue. */
  function IndexOf(names: seq<string>, c: string): (i: nat)
    requires c in names
    ensures i < |names| && names[i] == c
  {
    if names[0] == c then 0 else 1 + IndexOf(names[1..], c)
  }

  /** Every distance between known concepts is non-negative. */
  lemma MeasuresNonNegative(m: Maths, solve: OdeSolver, concepts: map<string, Point>, dist: Measure)
    requires Sound(m) && Measures(m, solve, concepts, dist)
    ensures forall c1, c2 :: c1 in concepts && c2 in concepts ==> 0.0 <= dist(c1, c2)
  {
    forall c1, c2 | c1 in concepts && c2 in concepts
      ensures 0.0 <= dist(c1, c2)
    {
      GeodesicDistanceOutcomes(m, solve, concepts, c1, c2, DefaultSamples);
    }
  }

  /** Each simulation appends at most one record. */
  lemma RecordsAtMostOne(m: Maths, solve: OdeSolver, concepts: map<string, Point>, records: PairHistory)
    requires Records(m, solve, concepts, records)
    ensures forall c1, c2 :: |records(c1, c2)| <= 1
  {
    forall c1, c2
      ensures |records(c1, c2)| <= 1
    {
      assert records(c1, c2) == Appended(Simulation(m, solve, concepts, c1, c2, DefaultDuration, DefaultSamples));
    }
  }

  /** Where each pair adds at most one record, the table adds at most one
      per ordered pair of names. */
  lemma {:induction false} HistoryGrowth(records: PairHistory, names: seq<string>, i: nat)
    requires forall c1, c2 :: |records(c1, c2)| <= 1
    requires i <= |names|
    ensures |TableHistory(records, names, i)| <= i * |names|
    decreases i
  {
    if i > 0 {
      HistoryGrowth(records, names, i - 1);
      RowHistoryGrowth(records, names, i - 1, |names|);
      OneMoreRow(|TableHistory(records, names, i - 1)|, |RowHistory(records, names, i - 1, |names|)|, i, |names|);
    }
  }

  lemma OneMoreRow(a: nat, b: nat, i: nat, n: nat)
    requires 0 < i && a <= (i - 1) * n && b <= n
    ensures a + b <= i * n
  {
    assert (i - 1) * n + n == i * n;
  }

  lemma {:induction false} RowHistoryGrowth(records: PairHistory, names: seq<string>, i: nat, j: nat)
    requires forall c1, c2 :: |records(c1, c2)| <= 1
    requires i < |names| && j <= |names|
    ensures |RowHistory(records, names, i, j)| <= j
    decreases j
  {
    if j > 0 {
      RowHistoryGrowth(records, names, i, j - 1);
    }
  }

  /** In particular the history analyze_conceptual_relationships appends
      holds at most one record per ordered pair of concepts. */
  lemma TableHistoryBound(m: Maths, solve: OdeSolver, concepts: map<string, Point>, records: PairHistory, names: seq<string>)
    requires Records(m, solve, concepts, records)
    ensures |TableHistory(records, names, |names|)| <= |names| * |names|
  {
    RecordsAtMostOne(m, solve, concepts, records);
    HistoryGrowth(records, names, |names|);
  }
}
