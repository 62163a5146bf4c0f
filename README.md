# Curved Dynamic Geometry: the 2D emotion space, in Dafny

This project models `MinimalCDG` from `simulations/minimal_cdg.py`. It is a
two-dimensional "emotion space" with valence `x` and arousal `y`, carrying a
Riemannian metric `g(x, y)` written in closed form. On top of that metric the
engine computes:

- the Christoffel symbols, by central differences of the metric;
- a scalar curvature, by differencing the symbols;
- the geodesic equation;
- thought trajectories between named concepts, integrated by `odeint`, with
  a straight-line fallback and a history of every successful run;
- the Riemannian length of a trajectory;
- the integrated curvature of a rectangular region, compared with a
  consciousness threshold;
- the table of distances between all concepts.

Everything is real-valued. The numerical primitives the engine borrows are
handed to it as oracles:

- `np.exp` and `np.sqrt` are the fields of `Numerics.Maths`. `Numerics.Sound`
  collects the laws the proofs use: exp is positive, and at most 1 on
  non-positive arguments; sqrt is a non-negative square root.
- `odeint` is `Geodesic.OdeSolver`. It returns the states at the requested
  times, or `None` for any exception. `Geodesic.Reliable` says a successful
  run has one state per time point and starts at the initial state.
- `np.isnan` of a computed curvature is `Region.NanSet`, a set of points.

Module layout:

- `Numerics`: the oracles, `Result`/`Option`, and `np.linspace`.
- `Metric`: `compute_metric_tensor`, the 2×2 inverse and the finite differences.
- `Connection`: `compute_christoffel_symbols`.
- `Curvature`: `compute_scalar_curvature`.
- `Geodesic`: `geodesic_equation` and the solver.
- `Distance`: the loop of `compute_geodesic_distance`.
- `Trajectory`: what one `simulate_thought_trajectory` call computes.
- `Region`: `assess_consciousness_region` as a specification.
- `Relationships`: `compute_geodesic_distance` and
  `analyze_conceptual_relationships` as specifications.
- `Cdg`: the class `MinimalCdg` itself. It holds the concepts, the threshold
  and the mutable `trajectoryHistory`, and its methods run the loops of the
  source against the specifications above.

The metric, connection, curvature and geodesic computations read no instance
state other than the oracles. They are therefore functions and methods over a
metric field (`Metric.Field`), generic in the field. The class applies them to
`MetricField(maths)`.

Errors the source lets escape become `Numerics.Result`:

- `ValueError` for an unknown concept is `Err(UnknownConcept)`.
- `np.linspace` raises `ValueError` for a negative sample count. That is
  `Err(NegativeSampleCount)`.
- For two concepts at one position the code sets `initial_velocity` to the
  plain list `[0.1, 0.1]`, and `initial_velocity.tolist()` then raises
  `AttributeError`, before `np.linspace` is reached. That is
  `Err(ListHasNoToList)` in `Trajectory.SimulationAsWritten`.

`Trajectory.Simulation` is the corrected simulation: it starts from the
velocity (0.1, 0.1) in that case and integrates as for any other pair. The
rest of the model, and the class, use it. `Trajectory.SimulationCorrectsAsWritten`
shows that the two differ only on coincident known concepts, and
`Cdg.DefaultPairsFollowTheSource` that they agree on every pair the
relationship analysis measures. See "## Findings".

`LinAlgError` from `np.linalg.inv` is raised exactly when the determinant is 0.
In `compute_christoffel_symbols` it escapes: the method returns `None`, with no
zero fallback. `compute_scalar_curvature` and `geodesic_equation` catch it, as
the source does.

Two edge cases of `assess_consciousness_region`, as the code has them:

- At `resolution = 0` no point is sampled. The code returns
  `(0.0, 0.0 > R_critical)`, which is `True` for a negative threshold.
- A negative resolution raises `ValueError`, because `np.linspace` does.

The proofs are sized for Dafny's resource limit rather than its wall-clock
limit: verify them with
`dafny verify --resource-limit 2000000 --verification-time-limit 0 *.dfy`.

## Model

| member | source | states |
|---|---|---|
| Cdg.MinimalCdg.constructor | simulations/minimal_cdg.py:23-44 | the nine concepts at their coordinates, in dictionary order, the threshold (default 2.5) and an empty history; the class invariant holds |
| Cdg.DefaultCatalogue | simulations/minimal_cdg.py:31-41 | the default name list holds every concept exactly once and nothing else |
| Cdg.DefaultConceptsInEmotionSpace | simulations/minimal_cdg.py:30-41 | every default concept lies in [-1, 1] × [-1, 1] |
| Cdg.DefaultPositionsDistinct | simulations/minimal_cdg.py:31-41 | no two default concepts share a position |
| Cdg.RelationshipsAvoidCoincidence | simulations/minimal_cdg.py:219-225 | for every pair of distinct default concepts the source's initial velocity is defined, so the analysis never reaches the raising branch |
| Metric.MetricTensor | simulations/minimal_cdg.py:63-67 | the metric is symmetric: g12 sits in both off-diagonal slots |
| Metric.MetricDiagonalBounds | simulations/minimal_cdg.py:63-64 | given a positive exp that is at most 1 on non-positive arguments, 1 < g11 ≤ 1.8 and 1 < g22 ≤ 1.6 |
| Metric.MetricPositiveDefinite | simulations/minimal_cdg.py:63-67 | on [-1, 1]² the metric has a positive leading entry and a positive determinant |
| Metric.MetricFieldSymmetric | simulations/minimal_cdg.py:46-67 | the metric field `MetricField`, compute_metric_tensor at every point, is symmetric everywhere |
| Metric.Inverse | simulations/minimal_cdg.py:80 | the closed-form inverse of a symmetric matrix is symmetric |
| Metric.InverseIsInverse | simulations/minimal_cdg.py:80 | the closed-form inverse is a two-sided inverse whenever det ≠ 0 |
| Metric.CentralDifference | simulations/minimal_cdg.py:84-85 | differencing two symmetric matrices gives a symmetric matrix, and equal samples give the zero matrix |
| Connection.ChristoffelWithoutDerivatives | simulations/minimal_cdg.py:87-113 | Christoffel (½ Σ_l g^kl (∂_i g_jl + ∂_j g_il − ∂_l g_ij)) is 0 when both derivative matrices are zero |
| Connection.ChristoffelOfIdentity | simulations/minimal_cdg.py:87-113 | with the identity as inverse metric, Γ^k_ij is half the bracket at l = k |
| Connection.ChristoffelLowerSymmetric | simulations/minimal_cdg.py:87-113 | with symmetric dx_g and dy_g, Γ^k_ij = Γ^k_ji for all k, i, j in {0, 1} |
| Connection.GammaLowerSymmetric | simulations/minimal_cdg.py:79-113 | the symbols of a symmetric metric field are symmetric in their lower indices |
| Connection.SymbolsAtMatches | simulations/minimal_cdg.py:79-115 | the flattened symbols at a point agree with Γ wherever the metric there is invertible |
| Connection.ComputeChristoffelSymbols | simulations/minimal_cdg.py:79-115 | fails (LinAlgError) exactly when det g = 0; otherwise returns a fresh 2×2×2 array holding Γ^k_ij, symmetric in i and j for a symmetric field |
| Connection.ChristoffelEntry | simulations/minimal_cdg.py:92-113 | the l-loop's running total, halved, is Γ^k_ij |
| Connection.DerivativeTerm | simulations/minimal_cdg.py:94-109 | the three branches pick dx_g or dy_g by index and give ∂_i g_jl + ∂_j g_il − ∂_l g_ij |
| Curvature.CurvatureOf | simulations/minimal_cdg.py:150-157 | 0 when \|det g\| ≤ 1e-10; otherwise the result times det g is R_1212 |
| Curvature.ScalarCurvature | simulations/minimal_cdg.py:127-162 | 0 when \|det g\| ≤ 1e-10 and 0 when the metric is singular at any of the five points evaluated |
| Curvature.ComputeScalarCurvature | simulations/minimal_cdg.py:127-162 | the loops and guards compute ScalarCurvature: R_1212 / det g above the tolerance, 0 otherwise and on every caught LinAlgError |
| Curvature.AccumulateRiemann | simulations/minimal_cdg.py:137-150 | the m-loop succeeds exactly when no differencing call raises, and then R_1212 = Σ_m g_1m R^m_212 |
| Curvature.RiemannEntry | simulations/minimal_cdg.py:138-149 | one pass computes R^m_212 from the differenced symbols and the quadratic terms |
| Curvature.CentralDifferenceOfSymbol | simulations/minimal_cdg.py:139-142 | two calls of compute_christoffel_symbols succeed exactly when both metrics are invertible, and give the central difference of one symbol |
| Curvature.QuadraticSum | simulations/minimal_cdg.py:144-147 | the p-loop sums Γ^m_1p Γ^p_22 − Γ^m_2p Γ^p_21 |
| Curvature.FlatStencil | simulations/minimal_cdg.py:137-157 | vanishing symbols at the centre and equal differenced symbols give curvature 0 |
| Curvature.ConstantMetricSymbols | simulations/minimal_cdg.py:79-113 | a constant invertible metric has vanishing Christoffel symbols |
| Curvature.ConstantMetricIsFlat | simulations/minimal_cdg.py:127-162 | a constant invertible metric has scalar curvature 0 everywhere |
| Geodesic.GeodesicEquation | simulations/minimal_cdg.py:175-192 | the first two outputs are (vx, vy); zero velocity gives zero acceleration; a singular metric gives [vx, vy, 0, 0] |
| Geodesic.AccelerationIsContraction | simulations/minimal_cdg.py:180-187 | for a symmetric metric the three-term formula is the full contraction −Γ^k_ij v^i v^j; `GeodesicField`, the function handed to odeint, is geodesic_equation at every state |
| Geodesic.AccelerationQuadratic | simulations/minimal_cdg.py:180-187 | scaling the velocity by c scales the acceleration by c² |
| Distance.ArcLength | simulations/minimal_cdg.py:295-306 | under sound oracles the summed length of the path is never negative |
| Distance.SegmentLength | simulations/minimal_cdg.py:297-306 | sqrt(max(0, ds²)) is never negative |
| Distance.PathLength | simulations/minimal_cdg.py:295-308 | the loop over consecutive points totals ArcLength of the path |
| Distance.ArcLengthOfStationaryPath | simulations/minimal_cdg.py:295-308 | a path of 0 or 1 points, or of identical points, has length 0 |
| Distance.SegmentLengthSymmetric | simulations/minimal_cdg.py:300-306 | a segment has the same length both ways: the midpoint is the same and ds² is even in (dx, dy) |
| Distance.QuadraticFormEven | simulations/minimal_cdg.py:305 | ds² is unchanged when (dx, dy) is negated |
| Distance.ArcLengthFront | simulations/minimal_cdg.py:295-306 | the length is the first segment plus the length of the rest |
| Distance.ArcLengthReversed | simulations/minimal_cdg.py:295-308 | reversing the trajectory (`Reverse`: the same points back to front) leaves its length unchanged |
| Trajectory.DirectionNormPositive | simulations/minimal_cdg.py:216-219 | the norm of the direction is positive exactly when the end points differ, and its square is the squared Euclidean length |
| Trajectory.LengthOfSum | simulations/minimal_cdg.py:217 | sqrt(a² + b²) squares to a² + b², is 0 when a = b = 0 and positive otherwise |
| Trajectory.CoincidentEndpointsRaise | simulations/minimal_cdg.py:219-225 | the source's initial velocity raises exactly when the end points coincide |
| Trajectory.InitialVelocity | simulations/minimal_cdg.py:215-225 | the corrected velocity is the source's wherever the source computes one, and [0.1, 0.1] where the source raises |
| Trajectory.InitialVelocityCorrect | simulations/minimal_cdg.py:215-225 | the corrected velocity agrees with the source where the source does not raise, is [0.1, 0.1] where it does, and otherwise is 0.15 times the direction over its norm |
| Numerics.Linspace | simulations/minimal_cdg.py:226 | np.linspace gives num samples, the first the start and, from two samples on, the last the stop |
| Numerics.LinspaceWithin | simulations/minimal_cdg.py:258-259 | for start ≤ stop every sample lies between start and stop |
| Trajectory.StraightLine | simulations/minimal_cdg.py:241-242 | the fallback has steps points, the first at the start point and, from two points on, the last at the end point |
| Trajectory.StraightLineSpansSegment | simulations/minimal_cdg.py:241-243 | the fallback has steps points, all on the segment, the first at the start and, from two points on, the last at the end |
| Trajectory.CurvatureProfile | simulations/minimal_cdg.py:234 | one curvature per point of the path |
| Trajectory.Simulation | simulations/minimal_cdg.py:194-243 | the corrected simulation fails exactly for an unknown name or a negative step count; a recorded run carries the given names and its own path; an unrecorded run is the straight line |
| Trajectory.SimulationCorrectsAsWritten | simulations/minimal_cdg.py:208-226 | the source's simulation raises AttributeError exactly for two known concepts at one position, and agrees with the corrected simulation on every other input |
| Trajectory.SimulationFails | simulations/minimal_cdg.py:208-210 | for the corrected simulation, an unknown name, then a negative step count, are the only errors, and an error appends nothing to the history |
| Trajectory.SimulationShape | simulations/minimal_cdg.py:226-243 | for the corrected simulation, a run yields steps points; a successful integration records exactly one entry with the given names and its own path (`Positions` of the states), curvature for every point, and the path starts at the start concept; the fallback is the straight line and records nothing |
| Cdg.CurvatureAlong | simulations/minimal_cdg.py:234 | the loop computes the curvature profile of the path |
| Cdg.MinimalCdg.SimulateThoughtTrajectory | simulations/minimal_cdg.py:194-243 | returns Simulation's path or its error, and the history grows by exactly what Simulation records, nothing on an error or a fallback |
| Region.ColumnTallyBounds | simulations/minimal_cdg.py:265-269 | one column adds non-negative terms, counts at most \|ys\| points, and counts all of them where nothing is NaN |
| Region.GridTallyBounds | simulations/minimal_cdg.py:261-269 | the total is ≥ 0, at most \|xs\|·\|ys\| = resolution² samples are counted, and all of them when nothing is NaN |
| Region.FlatColumn | simulations/minimal_cdg.py:265-269 | zero curvature gives a zero column total |
| Region.FlatGrid | simulations/minimal_cdg.py:261-269 | zero curvature gives a zero grid total |
| Region.Assessment | simulations/minimal_cdg.py:257-278 | an error exactly for a negative resolution; otherwise is_conscious iff integrated > R_critical |
| Region.AssessmentOutcomes | simulations/minimal_cdg.py:257-278 | an error exactly for a negative resolution; otherwise is_conscious iff integrated > R_critical, integrated = 0 at resolution 0 and whenever no valid point is counted, and integrated ≥ 0 when x_min ≤ x_max and y_min ≤ y_max |
| Region.FlatRegionIntegratesToZero | simulations/minimal_cdg.py:257-278 | a flat space integrates to 0 over every region, conscious only under a negative threshold |
| Region.ConstantMetricRegion | simulations/minimal_cdg.py:257-278 | a constant invertible metric integrates to 0 over every region |
| Cdg.GridSum | simulations/minimal_cdg.py:261-269 | the nested loops accumulate exactly the grid tally of the curvature |
| Cdg.SampleCurvature | simulations/minimal_cdg.py:266 | one call of compute_scalar_curvature gives the curvature map at that point |
| Cdg.MinimalCdg.AssessConsciousnessRegion | simulations/minimal_cdg.py:245-278 | returns exactly Assessment of the engine's curvature map (`CurvatureOfField`, compute_scalar_curvature at every point), isNan, the bounds, the resolution and R_critical |
| Relationships.GeodesicDistance | simulations/minimal_cdg.py:280-308 | fails exactly when the corrected simulation with 15.0 time units fails, and under sound oracles is otherwise ≥ 0 |
| Relationships.GeodesicDistanceOutcomes | simulations/minimal_cdg.py:280-308 | fails exactly as the corrected simulation fails (unknown name, then negative samples), and is otherwise ≥ 0 |
| Relationships.CoincidentFallbackHasLengthZero | simulations/minimal_cdg.py:241-243 | between two concepts at one place, the fallback path has length 0 |
| Cdg.MinimalCdg.ComputeGeodesicDistance | simulations/minimal_cdg.py:280-308 | returns GeodesicDistance, the arc length of the path simulated with 15.0 time units and the given samples, and appends what that simulation records |
| Relationships.PairMeasure | simulations/minimal_cdg.py:324 | between known concepts the measure is the default-sample geodesic distance |
| Relationships.PairMeasureNonNegative | simulations/minimal_cdg.py:324 | that distance is ≥ 0 |
| Relationships.MeasuresNonNegative | simulations/minimal_cdg.py:324-325 | every distance a measure gives between known concepts is ≥ 0 |
| Relationships.RecordsAtMostOne | simulations/minimal_cdg.py:230-235 | each simulation appends at most one record to `PairRecords`, the records of a pair |
| Relationships.RowKeys | simulations/minimal_cdg.py:322-325 | a row up to column j holds exactly the other names before j |
| Relationships.RowValues | simulations/minimal_cdg.py:322-325 | each of them maps to its distance |
| Relationships.TableDomain | simulations/minimal_cdg.py:320-321 | the table after i rows has rows for exactly the first i names |
| Relationships.TableRows | simulations/minimal_cdg.py:320-325 | the row of each of those names is its full row |
| Relationships.FullRow | simulations/minimal_cdg.py:322-325 | a full row holds every other concept, with its distance, and nothing else |
| Relationships.TableKeys | simulations/minimal_cdg.py:317-321 | the finished table has a row for exactly the concepts |
| Relationships.TableRow | simulations/minimal_cdg.py:317-325 | the row of a concept is the full row at its index |
| Relationships.RelationshipsComplete | simulations/minimal_cdg.py:310-327 | one row per concept; each row holds every other concept and nothing else, mapped to its distance |
| Relationships.IndexOf | simulations/minimal_cdg.py:320 | a listed name has an index at which it sits |
| Relationships.HistoryGrowth | simulations/minimal_cdg.py:320-325 | when each pair adds at most one record, the first i rows add at most i·n |
| Relationships.RowHistoryGrowth | simulations/minimal_cdg.py:322-325 | when each pair adds at most one record, a row up to column j adds at most j |
| Relationships.TableHistoryBound | simulations/minimal_cdg.py:310-327 | one analysis appends at most n² records for n concepts |
| Cdg.MinimalCdg.MeasurePair | simulations/minimal_cdg.py:324 | compute_geodesic_distance between known concepts gives the engine's distance and appends the pair's records |
| Cdg.MinimalCdg.RelationshipsRow | simulations/minimal_cdg.py:322-325 | the inner loop builds the concept's full row and appends the row's records in column order |
| Cdg.DefaultPairsFollowTheSource | simulations/minimal_cdg.py:317-327 | for every pair of distinct default concepts the source's simulation and the corrected one agree |
| Cdg.MinimalCdg.AnalyzeConceptualRelationships | simulations/minimal_cdg.py:310-327 | returns the table: a row for exactly the concepts, each holding every other concept with its distance; the history grows by the records of every pair, in loop order |

## Left out

- `odeint` is an oracle. Nothing is proved about the accuracy of the
  integration, only about how its result is used.
- Floating point is left out. Arithmetic is exact over the reals, and the
  accuracy of the finite differences is not modelled. `np.linalg.inv` and
  `np.linalg.det` are exact, so `LinAlgError` happens exactly at det g = 0.
- Overflow and `inf` are left out.
- NaN is an oracle. `np.isnan` of a computed curvature is a given set of
  points, because real numbers have no NaN.
- `np.exp` and `np.sqrt` are oracles, constrained only by the laws in
  `Numerics.Sound`.
- The message of the unknown-concept `ValueError` is not modelled. It lists
  the available concepts, so it is text only.
- The `print` of a failed integration is not modelled. It is output only.
- `visualize_emotion_space` and `run_comprehensive_demo` are not modelled.
  They are plotting and printing only.
- `simulations/insight_simulation.py`, `depression_basin.py`, `run_all.py`
  and `test_installation.py` are not part of this model. They hold graph
  building delegated to networkx, random trials, demo dispatch, prints and
  version checks.
- InitialVelocityCorrect: it states `v · |d| = 0.15 · d` for the direction
  `d`. That is the velocity's direction and its scaling by 0.15 over the
  Euclidean norm. It does not state `|v| = 0.15` outright, because that
  needs the nonlinear identity that normalising preserves the sum of
  squares.
- Trajectory.Simulation, Cdg.MinimalCdg.SimulateThoughtTrajectory, Relationships.GeodesicDistance, Cdg.MinimalCdg.ComputeGeodesicDistance: for two known concepts at one position they integrate from the velocity (0.1, 0.1), where the source raises `AttributeError` at line 225; `Trajectory.SimulationAsWritten` models the raise and `Trajectory.SimulationCorrectsAsWritten` shows the two agree everywhere else.
- Trajectory.SimulationFails, Trajectory.SimulationShape, Relationships.GeodesicDistanceOutcomes: they are stated for the corrected simulation, so the `AttributeError` of coincident concepts is not among their errors; `Trajectory.SimulationCorrectsAsWritten` states that error.
- Relationships.CoincidentFallbackHasLengthZero: it is about the corrected simulation; the source raises for coincident concepts before any path exists.
- Curvature.ScalarCurvature: it computes `R_1212 / det g`, as the source
  does. For a surface that is the Gaussian curvature; the scalar curvature
  of a surface is twice it. Accuracy and conventions of the estimate are out
  of scope, so the model keeps the source's value.
- Cdg.MinimalCdg.AnalyzeConceptualRelationships: the distance it stores for
  a pair is stated through the ghost measure `distances`. The constructor
  fixes it to `Relationships.PairMeasure`, and
  `Relationships.MeasuresNonNegative` shows it is never negative under sound
  oracles.

## Findings

| source | as written | input that shows it | evidently intended | confidence | as-written member | corrected member |
|---|---|---|---|---|---|---|
| simulations/minimal_cdg.py:219-225 | when start and end coincide, `initial_velocity` is the Python list `[0.1, 0.1]`, and `initial_velocity.tolist()` then raises `AttributeError` outside the `try` | `simulate_thought_trajectory('joy', 'joy')`, or any two concepts at one position | start from the velocity (0.1, 0.1) and integrate as for any other pair | not executed | Trajectory.InitialVelocityAsWritten, Trajectory.CoincidentEndpointsRaise, Trajectory.SimulationAsWritten, Trajectory.SimulationCorrectsAsWritten | Trajectory.InitialVelocity, Trajectory.InitialVelocityCorrect, Trajectory.Simulation |
