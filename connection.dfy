/** The Levi-Civita connection of the metric field by finite differences
    (MinimalCDG.compute_christoffel_symbols). Indices are 0-based as in the
    source: 0 is the x (valence) axis, 1 the y (arousal) axis. */
module Connection {
  import opened Numerics
  import opened Metric

  /** The derivative of the metric along one axis: dx_g for 0, dy_g for 1. */
  function Partial(dx: Mat2, dy: Mat2, axis: nat): Mat2
    requires axis < 2
  {
    if axis == 0 then dx else dy
  }

  /** ∂_i g_jl + ∂_j g_il − ∂_l g_ij. */
  function Bracket(dx: Mat2, dy: Mat2, i: nat, j: nat, l: nat): real
    requires i < 2 && j < 2 && l < 2
  {
    Partial(dx, dy, i).At(j, l) + Partial(dx, dy, j).At(i, l) - Partial(dx, dy, l).At(i, j)
  }

  /** Σ_{l < n} g^kl · Bracket(i, j, l). */
  function Contraction(gInv: Mat2, dx: Mat2, dy: Mat2, k: nat, i: nat, j: nat, n: nat): real
    requires k < 2 && i < 2 && j < 2 && n <= 2
  {
    if n == 0 then 0.0
    else Contraction(gInv, dx, dy, k, i, j, n - 1) + gInv.At(k, n - 1) * Bracket(dx, dy, i, j, n - 1)
  }

  /** Γ^k_ij = ½ Σ_l g^kl (∂_i g_jl + ∂_j g_il − ∂_l g_ij). */
  function Christoffel(gInv: Mat2, dx: Mat2, dy: Mat2, k: nat, i: nat, j: nat): real
    requires k < 2 && i < 2 && j < 2
  {
    0.5 * Contraction(gInv, dx, dy, k, i, j, 2)
  }

  /** Where the metric does not vary the connection vanishes. */
  lemma ChristoffelWithoutDerivatives(gInv: Mat2, k: nat, i: nat, j: nat)
    requires k < 2 && i < 2 && j < 2
    ensures Christoffel(gInv, Zero, Zero, k, i, j) == 0.0
  {
    assert Bracket(Zero, Zero, i, j, 0) == 0.0 && Bracket(Zero, Zero, i, j, 1) == 0.0;
    assert Contraction(gInv, Zero, Zero, k, i, j, 1) == 0.0;
  }

  /** With the identity as inverse metric, Γ^k_ij is half the bracket with
      l = k: the symbol of the first kind. */
  lemma ChristoffelOfIdentity(dx: Mat2, dy: Mat2, k: nat, i: nat, j: nat)
    requires k < 2 && i < 2 && j < 2
    ensures Christoffel(Identity, dx, dy, k, i, j) == 0.5 * Bracket(dx, dy, i, j, k)
  {
    assert Contraction(Identity, dx, dy, k, i, j, 1) == Identity.At(k, 0) * Bracket(dx, dy, i, j, 0);
    if k == 0 {
      assert Identity.At(0, 0) == 1.0 && Identity.At(0, 1) == 0.0;
    } else {
      assert Identity.At(1, 0) == 0.0 && Identity.At(1, 1) == 1.0;
    }
  }

  /** With symmetric metric derivatives the symbols are symmetric in their
      two lower indices. */
  lemma ChristoffelLowerSymmetric(gInv: Mat2, dx: Mat2, dy: Mat2, k: nat, i: nat, j: nat)
    requires dx.Symmetric() && dy.Symmetric()
    requires k < 2 && i < 2 && j < 2
    ensures Christoffel(gInv, dx, dy, k, i, j) == Christoffel(gInv, dx, dy, k, j, i)
  {
    forall l | 0 <= l < 2
      ensures Bracket(dx, dy, i, j, l) == Bracket(dx, dy, j, i, l)
    {
      assert Partial(dx, dy, l).At(i, j) == Partial(dx, dy, l).At(j, i);
    }
    assert Contraction(gInv, dx, dy, k, i, j, 1) == Contraction(gInv, dx, dy, k, j, i, 1);
  }

  /** The symbols of a metric field at (x, y): the closed-form inverse of
      the metric contracted with its central differences. */
  function Gamma(f: Field, x: real, y: real, k: nat, i: nat, j: nat): real
    requires f(x, y).Det() != 0.0
    requires k < 2 && i < 2 && j < 2
  {
    Christoffel(Inverse(f(x, y)), MetricDx(f, x, y), MetricDy(f, x, y), k, i, j)
  }

  /** The symbols of a symmetric field are symmetric in i and j. */
  lemma GammaLowerSymmetric(f: Field, x: real, y: real, k: nat, i: nat, j: nat)
    requires SymmetricField(f) && f(x, y).Det() != 0.0
    requires k < 2 && i < 2 && j < 2
    ensures Gamma(f, x, y, k, i, j) == Gamma(f, x, y, k, j, i)
  {
    var h := FiniteDifferenceStep;
    assert f(x + h, y).Symmetric() && f(x - h, y).Symmetric();
    assert f(x, y + h).Symmetric() && f(x, y - h).Symmetric();
    ChristoffelLowerSymmetric(Inverse(f(x, y)), MetricDx(f, x, y), MetricDy(f, x, y), k, i, j);
  }

  /** The eight symbols at one point as a function of (k, i, j). */
  type Symbols = (nat, nat, nat) -> real

  /** The symbols of the field at (x, y); 0 off the index range and where the
      metric is singular, where the source has no symbols at all. */
  function SymbolsAt(f: Field, x: real, y: real): Symbols {
    (k: nat, i: nat, j: nat) => if f(x, y).Det() != 0.0 && k < 2 && i < 2 && j < 2 then Gamma(f, x, y, k, i, j) else 0.0
  }

  /** s holds the symbols of the field at (u, v), wherever the metric there
      is invertible. */
  ghost predicate Matches(f: Field, u: real, v: real, s: Symbols) {
    f(u, v).Det() != 0.0 ==>
      forall k: nat, i: nat, j: nat {:trigger Gamma(f, u, v, k, i, j)} :: k < 2 && i < 2 && j < 2 ==>
        s(k, i, j) == Gamma(f, u, v, k, i, j)
  }

  lemma SymbolsAtMatches(f: Field, u: real, v: real)
    ensures Matches(f, u, v, SymbolsAt(f, u, v))
  {
  }

  /** compute_christoffel_symbols: fills a fresh 2×2×2 array with Γ^k_ij by
      the source's k/i/j/l loops. None stands for the LinAlgError that
      np.linalg.inv raises on a singular metric; there is no other guard. */
  method ComputeChristoffelSymbols(f: Field, x: real, y: real) returns (gamma: Option<array3<real>>)
    ensures gamma.None? <==> f(x, y).Det() == 0.0
    ensures gamma.Some? ==> fresh(gamma.value)
    ensures gamma.Some? ==>
      && gamma.value.Length0 == 2 && gamma.value.Length1 == 2 && gamma.value.Length2 == 2
      && (forall k, i, j :: 0 <= k < 2 && 0 <= i < 2 && 0 <= j < 2 ==> gamma.value[k, i, j] == Gamma(f, x, y, k, i, j))
    ensures gamma.Some? && SymmetricField(f) ==>
      forall k, i, j :: 0 <= k < 2 && 0 <= i < 2 && 0 <= j < 2 ==> gamma.value[k, i, j] == gamma.value[k, j, i]
  {
    var g := f(x, y);
    if g.Det() == 0.0 {
      return None;
    }
    var gInv := Inverse(g);
    var dxG := MetricDx(f, x, y);
    var dyG := MetricDy(f, x, y);
    var a := new real[2, 2, 2];
    for k := 0 to 2
      invariant forall k', i', j' :: 0 <= k' < k && 0 <= i' < 2 && 0 <= j' < 2 ==>
        a[k', i', j'] == Christoffel(gInv, dxG, dyG, k', i', j')
    {
      for i := 0 to 2
        invariant forall k', i', j' :: 0 <= k' < k && 0 <= i' < 2 && 0 <= j' < 2 ==>
          a[k', i', j'] == Christoffel(gInv, dxG, dyG, k', i', j')
        invariant forall i', j' :: 0 <= i' < i && 0 <= j' < 2 ==>
          a[k, i', j'] == Christoffel(gInv, dxG, dyG, k, i', j')
      {
        for j := 0 to 2
          invariant forall k', i', j' :: 0 <= k' < k && 0 <= i' < 2 && 0 <= j' < 2 ==>
            a[k', i', j'] == Christoffel(gInv, dxG, dyG, k', i', j')
          invariant forall i', j' :: 0 <= i' < i && 0 <= j' < 2 ==>
            a[k, i', j'] == Christoffel(gInv, dxG, dyG, k, i', j')
          invariant forall j' :: 0 <= j' < j ==> a[k, i, j'] == Christoffel(gInv, dxG, dyG, k, i, j')
        {
          a[k, i, j] := ChristoffelEntry(gInv, dxG, dyG, k, i, j);
        }
      }
    }
    if SymmetricField(f) {
      forall k, i, j | 0 <= k < 2 && 0 <= i < 2 && 0 <= j < 2
        ensures a[k, i, j] == a[k, j, i]
      {
        GammaLowerSymmetric(f, x, y, k, i, j);
      }
    }
    return Some(a);
  }

  /** One entry of the array: the innermost l loop with its running total. */
  method ChristoffelEntry(gInv: Mat2, dxG: Mat2, dyG: Mat2, k: nat, i: nat, j: nat) returns (r: real)
    requires k < 2 && i < 2 && j < 2
    ensures r == Christoffel(gInv, dxG, dyG, k, i, j)
  {
    var total := 0.0;
    for l := 0 to 2
      invariant total == Contraction(gInv, dxG, dyG, k, i, j, l)
    {
      var term := DerivativeTerm(dxG, dyG, i, j, l);
      total := total + gInv.At(k, l) * term;
    }
    r := 0.5 * total;
  }

  /** ∂_i g_jl + ∂_j g_il − ∂_l g_ij, choosing dx_g or dy_g by each index. */
  method DerivativeTerm(dxG: Mat2, dyG: Mat2, i: nat, j: nat, l: nat) returns (term: real)
    requires i < 2 && j < 2 && l < 2
    ensures term == Bracket(dxG, dyG, i, j, l)
  {
    term := 0.0;
    if i == 0 { term := term + dxG.At(j, l); } else { term := term + dyG.At(j, l); }
    if j == 0 { term := term + dxG.At(i, l); } else { term := term + dyG.At(i, l); }
    if l == 0 { term := term - dxG.At(i, j); } else { term := term - dyG.At(i, j); }
  }
}
