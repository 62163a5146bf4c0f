/** Scalar curvature by differencing the connection
    (MinimalCDG.compute_scalar_curvature). */
module Curvature {
  import opened Numerics
  import opened Metric
  import opened Connection

  /** The determinant below which the source reports zero curvature. */
  const DeterminantTolerance: real := 0.0000000001

  predicate Invertible(f: Field, x: real, y: real) {
    f(x, y).Det() != 0.0
  }

  /** The metric is invertible at (x, y) and at the four points where the
      source differences the connection; anywhere else np.linalg.inv raises. */
  predicate Regular(f: Field, x: real, y: real) {
    var h := FiniteDifferenceStep;
    Invertible(f, x, y) && Invertible(f, x + h, y) && Invertible(f, x - h, y)
      && Invertible(f, x, y + h) && Invertible(f, x, y - h)
  }

  /** The connection at a point and at the four points around it that the
      source differences, each flattened as in Symbol. */
  datatype Stencil = Stencil(here: Symbols, xPlus: Symbols, xMinus: Symbols, yPlus: Symbols, yMinus: Symbols)

  /** The stencil of the field around (x, y), given the symbols at (x, y). */
  function Neighbours(f: Field, x: real, y: real, here: Symbols): Stencil {
    var h := FiniteDifferenceStep;
    Stencil(here, SymbolsAt(f, x + h, y), SymbolsAt(f, x - h, y), SymbolsAt(f, x, y + h), SymbolsAt(f, x, y - h))
  }

  /** Σ_{p < n} (Γ^a_1p Γ^p_22 − Γ^a_2p Γ^p_21), 1-based in the comment,
      0-based in the code. */
  function QuadraticTerms(s: Symbols, a: nat, n: nat): real
    requires a < 2 && n <= 2
  {
    if n == 0 then 0.0
    else
      var p := n - 1;
      QuadraticTerms(s, a, p) + (s(a, 0, p) * s(p, 1, 1) - s(a, 1, p) * s(p, 1, 0))
  }

  /** R^a_212 = ∂_x Γ^a_22 − ∂_y Γ^a_21 + Σ_p (Γ^a_1p Γ^p_22 − Γ^a_2p Γ^p_21),
      the derivatives taken by central differences of the connection. */
  function RiemannComponent(st: Stencil, a: nat): real
    requires a < 2
  {
    var h := FiniteDifferenceStep;
    var dxGamma := (st.xPlus(a, 1, 1) - st.xMinus(a, 1, 1)) / (2.0 * h);
    var dyGamma := (st.yPlus(a, 1, 0) - st.yMinus(a, 1, 0)) / (2.0 * h);
    dxGamma - dyGamma + QuadraticTerms(st.here, a, 2)
  }

  /** Σ_{a < n} g_1a R^a_212: the running total R_1212 after n steps. */
  function LoweredRiemann(g: Mat2, st: Stencil, n: nat): real
    requires n <= 2
  {
    if n == 0 then 0.0
    else LoweredRiemann(g, st, n - 1) + g.At(0, n - 1) * RiemannComponent(st, n - 1)
  }

  /** R_1212 / det g when the determinant is above the tolerance, 0 otherwise. */
  function CurvatureOf(g: Mat2, st: Stencil): (r: real)
    ensures Abs(g.Det()) <= DeterminantTolerance ==> r == 0.0
    ensures Abs(g.Det()) > DeterminantTolerance ==> r * g.Det() == LoweredRiemann(g, st, 2)
  {
    var det := g.Det();
    var lowered := LoweredRiemann(g, st, 2);
    if Abs(det) > DeterminantTolerance then
      QuotientTimesDivisor(lowered, det);
      lowered / det
    else 0.0
  }

  lemma QuotientTimesDivisor(a: real, d: real)
    requires d != 0.0
    ensures (a / d) * d == a
  {
  }

  /** The curvature of the field at (x, y): 0 where the metric is singular at
      any of the five points the source evaluates. */
  function ScalarCurvature(f: Field, x: real, y: real): (r: real)
    ensures Abs(f(x, y).Det()) <= DeterminantTolerance ==> r == 0.0
    ensures !Regular(f, x, y) ==> r == 0.0
  {
    if !Regular(f, x, y) then 0.0 else CurvatureOf(f(x, y), Neighbours(f, x, y, SymbolsAt(f, x, y)))
  }

  ghost predicate Vanishes(s: Symbols) {
    forall k: nat, i: nat, j: nat :: k < 2 && i < 2 && j < 2 ==> s(k, i, j) == 0.0
  }

  /** A stencil whose symbols vanish at the centre and whose differenced
      symbols agree on both sides has zero curvature. */
  lemma FlatStencil(g: Mat2, st: Stencil)
    requires Vanishes(st.here)
    requires forall a: nat :: a < 2 ==> st.xPlus(a, 1, 1) == st.xMinus(a, 1, 1) && st.yPlus(a, 1, 0) == st.yMinus(a, 1, 0)
    ensures CurvatureOf(g, st) == 0.0
  {
    forall a: nat | a < 2
      ensures RiemannComponent(st, a) == 0.0
    {
      assert QuadraticTerms(st.here, a, 1) == 0.0;
      assert QuadraticTerms(st.here, a, 2) == 0.0;
    }
    assert LoweredRiemann(g, st, 1) == 0.0;
    assert LoweredRiemann(g, st, 2) == 0.0;
  }

  /** A constant invertible metric has a vanishing connection everywhere. */
  lemma ConstantMetricSymbols(f: Field, g: Mat2, x: real, y: real)
    requires forall u, v :: f(u, v) == g
    requires g.Det() != 0.0
    ensures Vanishes(SymbolsAt(f, x, y))
  {
    var h := FiniteDifferenceStep;
    assert f(x, y) == g;
    assert f(x + h, y) == g && f(x - h, y) == g && f(x, y + h) == g && f(x, y - h) == g;
    assert MetricDx(f, x, y) == Zero && MetricDy(f, x, y) == Zero;
    forall k: nat, i: nat, j: nat | k < 2 && i < 2 && j < 2
      ensures Gamma(f, x, y, k, i, j) == 0.0
    {
      ChristoffelWithoutDerivatives(Inverse(g), k, i, j);
    }
  }

  /** A constant invertible metric has zero scalar curvature. */
  lemma ConstantMetricIsFlat(f: Field, g: Mat2, x: real, y: real)
    requires forall u, v :: f(u, v) == g
    requires g.Det() != 0.0
    ensures ScalarCurvature(f, x, y) == 0.0
  {
    var h := FiniteDifferenceStep;
    var st := Neighbours(f, x, y, SymbolsAt(f, x, y));
    ConstantMetricSymbols(f, g, x, y);
    ConstantMetricSymbols(f, g, x + h, y);
    ConstantMetricSymbols(f, g, x - h, y);
    ConstantMetricSymbols(f, g, x, y + h);
    ConstantMetricSymbols(f, g, x, y - h);
    assert Vanishes(st.xPlus) && Vanishes(st.xMinus) && Vanishes(st.yPlus) && Vanishes(st.yMinus);
    FlatStencil(f(x, y), st);
  }

  /** st holds the symbols at (x, y) and at the four differencing points. */
  ghost predicate StencilMatches(f: Field, x: real, y: real, st: Stencil) {
    var h := FiniteDifferenceStep;
    Matches(f, x, y, st.here) && Matches(f, x + h, y, st.xPlus) && Matches(f, x - h, y, st.xMinus)
      && Matches(f, x, y + h, st.yPlus) && Matches(f, x, y - h, st.yMinus)
  }

  /** compute_scalar_curvature: the loop over m accumulating R_1212, then the
      determinant guard. Every LinAlgError caught by the source is a return of
      0.0 here. */
  method ComputeScalarCurvature(f: Field, x: real, y: real) returns (r: real)
    ensures r == ScalarCurvature(f, x, y)
  {
    var g := f(x, y);
    // np.linalg.inv(g) and the connection at (x, y) raise on the same condition.
    var here := ComputeChristoffelSymbols(f, x, y);
    if here.None? {
      return 0.0;
    }
    var h := FiniteDifferenceStep;
    ghost var st := Neighbours(f, x, y, SymbolsAt(f, x, y));
    SymbolsAtMatches(f, x, y);
    SymbolsAtMatches(f, x + h, y);
    SymbolsAtMatches(f, x - h, y);
    SymbolsAtMatches(f, x, y + h);
    SymbolsAtMatches(f, x, y - h);
    var ok, r1212 := AccumulateRiemann(f, x, y, here.value, st);
    if !ok {
      return 0.0;
    }
    var det := g.Det();
    if Abs(det) > DeterminantTolerance {
      r := r1212 / det;
    } else {
      r := 0.0;
    }
  }

  /** The loop over m: R_1212 = Σ_a g_1a R^a_212, or a LinAlgError. */
  method AccumulateRiemann(f: Field, x: real, y: real, gamma: array3<real>, ghost st: Stencil) returns (ok: bool, r1212: real)
    requires Invertible(f, x, y) && StencilMatches(f, x, y, st)
    requires gamma.Length0 == 2 && gamma.Length1 == 2 && gamma.Length2 == 2
    requires forall k, i, j :: 0 <= k < 2 && 0 <= i < 2 && 0 <= j < 2 ==> gamma[k, i, j] == st.here(k, i, j)
    ensures ok <==> Regular(f, x, y)
    ensures ok ==> r1212 == LoweredRiemann(f(x, y), st, 2)
  {
    var g := f(x, y);
    r1212 := 0.0;
    for a := 0 to 2
      invariant a == 0 ==> r1212 == 0.0
      invariant 0 < a ==> Regular(f, x, y) && r1212 == LoweredRiemann(g, st, a)
    {
      var okA, component := RiemannEntry(f, x, y, gamma, st, a);
      if !okA {
        return false, 0.0;
      }
      r1212 := r1212 + g.At(0, a) * component;
    }
    ok := true;
  }

  /** One pass of the loop over m: the connection differenced along x and y
      (four more calls that may raise) and the quadratic terms over p. */
  method RiemannEntry(f: Field, x: real, y: real, gamma: array3<real>, ghost st: Stencil, a: nat) returns (ok: bool, component: real)
    requires a < 2 && Invertible(f, x, y) && StencilMatches(f, x, y, st)
    requires gamma.Length0 == 2 && gamma.Length1 == 2 && gamma.Length2 == 2
    requires forall k, i, j :: 0 <= k < 2 && 0 <= i < 2 && 0 <= j < 2 ==> gamma[k, i, j] == st.here(k, i, j)
    ensures ok <==> Regular(f, x, y)
    ensures ok ==> component == RiemannComponent(st, a)
  {
    var h := FiniteDifferenceStep;
    var okX, dxGamma := CentralDifferenceOfSymbol(f, x + h, y, x - h, y, st.xPlus, st.xMinus, a, 1, 1);
    if !okX {
      return false, 0.0;
    }
    var okY, dyGamma := CentralDifferenceOfSymbol(f, x, y + h, x, y - h, st.yPlus, st.yMinus, a, 1, 0);
    if !okY {
      return false, 0.0;
    }
    var terms := QuadraticSum(gamma, st.here, a);
    return true, dxGamma - dyGamma + terms;
  }

  /** (Γ^k_ij at the plus point − Γ^k_ij at the minus point) / (2 eps): the
      two extra compute_christoffel_symbols calls of one difference. */
  method CentralDifferenceOfSymbol(f: Field, xPlus: real, yPlus: real, xMinus: real, yMinus: real,
                                   ghost plus: Symbols, ghost minus: Symbols, k: nat, i: nat, j: nat)
    returns (ok: bool, d: real)
    requires k < 2 && i < 2 && j < 2
    requires Matches(f, xPlus, yPlus, plus) && Matches(f, xMinus, yMinus, minus)
    ensures ok <==> Invertible(f, xPlus, yPlus) && Invertible(f, xMinus, yMinus)
    ensures ok ==> d == (plus(k, i, j) - minus(k, i, j)) / (2.0 * FiniteDifferenceStep)
  {
    var gammaPlus := ComputeChristoffelSymbols(f, xPlus, yPlus);
    var gammaMinus := ComputeChristoffelSymbols(f, xMinus, yMinus);
    if gammaPlus.None? || gammaMinus.None? {
      return false, 0.0;
    }
    return true, (gammaPlus.value[k, i, j] - gammaMinus.value[k, i, j]) / (2.0 * FiniteDifferenceStep);
  }

  /** The loop over p: Σ_p (Γ^a_1p Γ^p_22 − Γ^a_2p Γ^p_21). */
  method QuadraticSum(gamma: array3<real>, ghost symbols: Symbols, a: nat) returns (terms: real)
    requires a < 2
    requires gamma.Length0 == 2 && gamma.Length1 == 2 && gamma.Length2 == 2
    requires forall k, i, j :: 0 <= k < 2 && 0 <= i < 2 && 0 <= j < 2 ==> gamma[k, i, j] == symbols(k, i, j)
    ensures terms == QuadraticTerms(symbols, a, 2)
  {
    terms := 0.0;
    for p := 0 to 2
      invariant terms == QuadraticTerms(symbols, a, p)
    {
      terms := terms + (gamma[a, 0, p] * gamma[p, 1, 1] - gamma[a, 1, p] * gamma[p, 1, 0]);
    }
  }
}
