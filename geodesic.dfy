/** The geodesic equation of the emotion space (MinimalCDG.geodesic_equation)
    and the ODE solver it is handed to. */
module Geodesic {
  import opened Numerics
  import opened Metric
  import opened Connection

  /** [x, y, vx, vy]: a position and a velocity. */
  datatype State = State(x: real, y: real, vx: real, vy: real)

  /** a^k = −(Γ^k_00 vx² + 2 Γ^k_01 vx vy + Γ^k_11 vy²), as the source writes it. */
  function Acceleration(s: Symbols, k: nat, vx: real, vy: real): real
    requires k < 2
  {
    -(s(k, 0, 0) * vx * vx + 2.0 * s(k, 0, 1) * vx * vy + s(k, 1, 1) * vy * vy)
  }

  /** The velocity component v^i. */
  function Component(vx: real, vy: real, i: nat): real
    requires i < 2
  {
    if i == 0 then vx else vy
  }

  /** −Σ_i Σ_j Γ^k_ij v^i v^j, the contraction the source's formula abbreviates. */
  function FullAcceleration(s: Symbols, k: nat, vx: real, vy: real): real
    requires k < 2
  {
    -(s(k, 0, 0) * Component(vx, vy, 0) * Component(vx, vy, 0) + s(k, 0, 1) * Component(vx, vy, 0) * Component(vx, vy, 1)
      + s(k, 1, 0) * Component(vx, vy, 1) * Component(vx, vy, 0) + s(k, 1, 1) * Component(vx, vy, 1) * Component(vx, vy, 1))
  }

  /** geodesic_equation: the derivative of the state at time t, which it
      ignores. A singular metric makes compute_christoffel_symbols raise
      LinAlgError, which the source catches with zero acceleration. */
  function GeodesicEquation(f: Field, s: State, t: real): (d: State)
    ensures d.x == s.vx && d.y == s.vy
    ensures f(s.x, s.y).Det() == 0.0 ==> d.vx == 0.0 && d.vy == 0.0
    ensures s.vx == 0.0 && s.vy == 0.0 ==> d.vx == 0.0 && d.vy == 0.0
  {
    if f(s.x, s.y).Det() == 0.0 then State(s.vx, s.vy, 0.0, 0.0)
    else
      var gamma := SymbolsAt(f, s.x, s.y);
      State(s.vx, s.vy, Acceleration(gamma, 0, s.vx, s.vy), Acceleration(gamma, 1, s.vx, s.vy))
  }

  /** For a symmetric metric the source's three-term formula is the full
      contraction a^k = −Γ^k_ij v^i v^j. */
  lemma AccelerationIsContraction(f: Field, s: State, t: real)
    requires SymmetricField(f) && f(s.x, s.y).Det() != 0.0
    ensures GeodesicEquation(f, s, t).vx == FullAcceleration(SymbolsAt(f, s.x, s.y), 0, s.vx, s.vy)
    ensures GeodesicEquation(f, s, t).vy == FullAcceleration(SymbolsAt(f, s.x, s.y), 1, s.vx, s.vy)
  {
    var gamma := SymbolsAt(f, s.x, s.y);
    EquationAcceleration(f, s, t);
    SymmetricSymbols(f, s.x, s.y);
    SymmetricContraction(gamma, 0, s.vx, s.vy);
    SymmetricContraction(gamma, 1, s.vx, s.vy);
  }

  lemma SymmetricSymbols(f: Field, x: real, y: real)
    requires SymmetricField(f) && f(x, y).Det() != 0.0
    ensures SymbolsAt(f, x, y)(0, 0, 1) == SymbolsAt(f, x, y)(0, 1, 0)
    ensures SymbolsAt(f, x, y)(1, 0, 1) == SymbolsAt(f, x, y)(1, 1, 0)
  {
    GammaLowerSymmetric(f, x, y, 0, 0, 1);
    GammaLowerSymmetric(f, x, y, 1, 0, 1);
  }

  lemma SymmetricContraction(gamma: Symbols, k: nat, vx: real, vy: real)
    requires k < 2 && gamma(k, 0, 1) == gamma(k, 1, 0)
    ensures Acceleration(gamma, k, vx, vy) == FullAcceleration(gamma, k, vx, vy)
  {
    SymmetricTerms(gamma(k, 0, 1), gamma(k, 1, 0), vx, vy);
  }

  lemma SymmetricTerms(c: real, e: real, vx: real, vy: real)
    requires c == e
    ensures c * vx * vy + e * vy * vx == 2.0 * c * vx * vy
  {
  }

  /** Scaling the velocity by c scales the acceleration by c²: the equation
      is invariant under affine reparametrisation of time. */
  lemma AccelerationQuadratic(f: Field, s: State, t: real, c: real)
    ensures GeodesicEquation(f, State(s.x, s.y, c * s.vx, c * s.vy), t).vx == c * c * GeodesicEquation(f, s, t).vx
    ensures GeodesicEquation(f, State(s.x, s.y, c * s.vx, c * s.vy), t).vy == c * c * GeodesicEquation(f, s, t).vy
  {
    var scaled := State(s.x, s.y, c * s.vx, c * s.vy);
    if f(s.x, s.y).Det() != 0.0 {
      var gamma := SymbolsAt(f, s.x, s.y);
      EquationAcceleration(f, s, t);
      EquationAcceleration(f, scaled, t);
      ScaledAcceleration(gamma, 0, s.vx, s.vy, c);
      ScaledAcceleration(gamma, 1, s.vx, s.vy, c);
    }
  }

  /** Where the metric is invertible, the acceleration is the source's
      three-term formula in the symbols at the position. */
  lemma EquationAcceleration(f: Field, s: State, t: real)
    requires f(s.x, s.y).Det() != 0.0
    ensures GeodesicEquation(f, s, t).vx == Acceleration(SymbolsAt(f, s.x, s.y), 0, s.vx, s.vy)
    ensures GeodesicEquation(f, s, t).vy == Acceleration(SymbolsAt(f, s.x, s.y), 1, s.vx, s.vy)
  {
  }

  lemma ScaledAcceleration(gamma: Symbols, k: nat, vx: real, vy: real, c: real)
    requires k < 2
    ensures Acceleration(gamma, k, c * vx, c * vy) == c * c * Acceleration(gamma, k, vx, vy)
  {
    ScaledQuadratic(gamma(k, 0, 0), gamma(k, 0, 1), gamma(k, 1, 1), vx, vy, c);
  }

  lemma ScaledQuadratic(a: real, b: real, e: real, vx: real, vy: real, c: real)
    ensures -(a * (c * vx) * (c * vx) + 2.0 * b * (c * vx) * (c * vy) + e * (c * vy) * (c * vy))
         == c * c * -(a * vx * vx + 2.0 * b * vx * vy + e * vy * vy)
  {
  }

  /** The right-hand side handed to the solver: func(y, t). */
  type VectorField = (State, real) -> State

  function GeodesicField(f: Field): (v: VectorField)
    ensures forall s, t :: v(s, t) == GeodesicEquation(f, s, t)
  {
    (s, t) => GeodesicEquation(f, s, t)
  }

  /** scipy.integrate.odeint(func, y0, t) as an oracle: the states at the
      requested times, or None when integration fails. */
  type OdeSolver = (VectorField, State, seq<real>) -> Option<seq<State>>

  /** What the model relies on of odeint: one row per requested time, the
      first of them the initial state. */
  ghost predicate Reliable(solve: OdeSolver) {
    forall v, y0, ts :: solve(v, y0, ts).Some? ==>
      |solve(v, y0, ts).value| == |ts| && (0 < |ts| ==> solve(v, y0, ts).value[0] == y0)
  }

  /** trajectory[:, :2]: the positions of a run of states. */
  function Positions(states: seq<State>): (ps: seq<Point>)
    ensures |ps| == |states|
    ensures forall i :: 0 <= i < |states| ==> ps[i] == Point(states[i].x, states[i].y)
  {
    seq(|states|, i requires 0 <= i < |states| => Point(states[i].x, states[i].y))
  }
}
