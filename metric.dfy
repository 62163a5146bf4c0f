/** The metric field of the emotion space (MinimalCDG.compute_metric_tensor)
    and the 2×2 matrix algebra the rest of the engine needs. */
module Metric {
  import opened Numerics

  /** A coordinate of the space: valence x and arousal y. */
  datatype Point = Point(x: real, y: real)

  /** A 2×2 matrix [[a00, a01], [a10, a11]]. */
  datatype Mat2 = Mat2(a00: real, a01: real, a10: real, a11: real) {

    function At(i: nat, j: nat): real
      requires i < 2 && j < 2
    {
      if i == 0 then (if j == 0 then a00 else a01)
      else (if j == 0 then a10 else a11)
    }

    predicate Symmetric() {
      a01 == a10
    }

    function Det(): real {
      a00 * a11 - a01 * a10
    }
  }

  const Identity: Mat2 := Mat2(1.0, 0.0, 0.0, 1.0)

  const Zero: Mat2 := Mat2(0.0, 0.0, 0.0, 0.0)

  function Product(a: Mat2, b: Mat2): Mat2 {
    Mat2(a.a00 * b.a00 + a.a01 * b.a10, a.a00 * b.a01 + a.a01 * b.a11,
         a.a10 * b.a00 + a.a11 * b.a10, a.a10 * b.a01 + a.a11 * b.a11)
  }

  /** The closed-form inverse of an invertible 2×2 matrix, standing for
      np.linalg.inv (which raises LinAlgError when the determinant is 0). */
  function Inverse(g: Mat2): (r: Mat2)
    requires g.Det() != 0.0
    ensures g.Symmetric() ==> r.Symmetric()
  {
    var d := g.Det();
    Mat2(g.a11 / d, -g.a01 / d, -g.a10 / d, g.a00 / d)
  }

  /** Inverse is a two-sided inverse for the matrix product. */
  lemma InverseIsInverse(g: Mat2)
    requires g.Det() != 0.0
    ensures Product(g, Inverse(g)) == Identity && Product(Inverse(g), g) == Identity
  {
    InverseProducts(g.a00, g.a01, g.a10, g.a11, g.Det());
  }

  lemma InverseProducts(a: real, b: real, c: real, e: real, d: real)
    requires d == a * e - b * c && d != 0.0
    ensures a * (e / d) + b * (-c / d) == 1.0 && a * (-b / d) + b * (a / d) == 0.0
    ensures c * (e / d) + e * (-c / d) == 0.0 && c * (-b / d) + e * (a / d) == 1.0
    ensures (e / d) * a + (-b / d) * c == 1.0 && (e / d) * b + (-b / d) * e == 0.0
    ensures (-c / d) * a + (a / d) * c == 0.0 && (-c / d) * b + (a / d) * e == 1.0
  {
    var k := 1.0 / d;
    assert d * k == 1.0;
    assert e / d == e * k && -c / d == -c * k && -b / d == -b * k && a / d == a * k;
    assert a * (e * k) + b * (-c * k) == d * k;
    assert c * (-b * k) + e * (a * k) == d * k;
    assert (e * k) * a + (-b * k) * c == d * k;
    assert (-c * k) * b + (a * k) * e == d * k;
  }

  /** The quadratic form v·g·v = g11 dx² + 2 g12 dx dy + g22 dy² of a symmetric g. */
  function QuadraticForm(g: Mat2, dx: real, dy: real): real {
    g.a00 * dx * dx + 2.0 * g.a01 * dx * dy + g.a11 * dy * dy
  }

  /** g11 = 1 + 0.8 e^(-x²/2), g22 = 1 + 0.6 e^(-y²/2),
      g12 = g21 = 0.3 x y e^(-0.3 (x² + y²)). */
  function MetricTensor(m: Maths, x: real, y: real): (g: Mat2)
    ensures g.Symmetric()
  {
    var g11 := 1.0 + 0.8 * m.exp(-0.5 * (x * x));
    var g22 := 1.0 + 0.6 * m.exp(-0.5 * (y * y));
    var g12 := 0.3 * x * y * m.exp(-0.3 * (x * x + y * y));
    Mat2(g11, g12, g12, g22)
  }

  /** The diagonal of the metric lies in (1, 1.8] and (1, 1.6]. */
  lemma MetricDiagonalBounds(m: Maths, x: real, y: real)
    requires Sound(m)
    ensures 1.0 < MetricTensor(m, x, y).a00 <= 1.8 && 1.0 < MetricTensor(m, x, y).a11 <= 1.6
  {
    assert -0.5 * (x * x) <= 0.0 && -0.5 * (y * y) <= 0.0;
  }

  /** On the square [-1, 1]² the metric is positive definite: its leading
      entry and its determinant are positive. */
  lemma MetricPositiveDefinite(m: Maths, x: real, y: real)
    requires Sound(m)
    requires -1.0 <= x <= 1.0 && -1.0 <= y <= 1.0
    ensures 0.0 < MetricTensor(m, x, y).a00 && 0.0 < MetricTensor(m, x, y).Det()
  {
    var g := MetricTensor(m, x, y);
    MetricDiagonalBounds(m, x, y);
    var e := m.exp(-0.3 * (x * x + y * y));
    assert 0.0 < e <= 1.0;
    var c := x * y;
    assert -1.0 <= c <= 1.0 by { ProductInUnit(x, y); }
    ProductInUnit(c, e);
    assert -1.0 <= c * e <= 1.0;
    assert g.a01 == 0.3 * (c * e);
    SquareInUnit(c * e);
    assert g.a01 * g.a01 == 0.09 * ((c * e) * (c * e));
    assert g.a01 * g.a01 <= 0.09;
    ProductAboveOne(g.a00, g.a11);
  }

  lemma ProductInUnit(a: real, b: real)
    requires -1.0 <= a <= 1.0 && -1.0 <= b <= 1.0
    ensures -1.0 <= a * b <= 1.0
  {
    if 0.0 <= a {
      assert -a <= a * b <= a;
    } else {
      assert a <= a * b <= -a;
    }
  }

  lemma SquareInUnit(a: real)
    requires -1.0 <= a <= 1.0
    ensures 0.0 <= a * a <= 1.0
  {
    ProductInUnit(a, a);
    if 0.0 <= a {
      assert 0.0 <= a * a;
    } else {
      assert 0.0 <= (-a) * (-a);
    }
  }

  lemma ProductAboveOne(a: real, b: real)
    requires 1.0 < a && 1.0 < b
    ensures 1.0 < a * b
  {
    assert a * b - 1.0 == (a - 1.0) * b + (b - 1.0);
    assert 0.0 < (a - 1.0) * b;
  }

  /** A metric field: the tensor at every point of the plane. */
  type Field = (real, real) -> Mat2

  /** compute_metric_tensor as a field. */
  function MetricField(m: Maths): (f: Field)
    ensures forall x, y :: f(x, y) == MetricTensor(m, x, y)
  {
    (x, y) => MetricTensor(m, x, y)
  }

  ghost predicate SymmetricField(f: Field) {
    forall x, y :: f(x, y).Symmetric()
  }

  lemma MetricFieldSymmetric(m: Maths)
    ensures SymmetricField(MetricField(m))
  {
  }

  /** Central step of the finite differences (eps in the source). */
  const FiniteDifferenceStep: real := 0.000001

  /** (plus − minus) / (2h), entry by entry. */
  function CentralDifference(plus: Mat2, minus: Mat2, h: real): (d: Mat2)
    requires h != 0.0
    ensures plus.Symmetric() && minus.Symmetric() ==> d.Symmetric()
    ensures plus == minus ==> d == Zero
  {
    Mat2((plus.a00 - minus.a00) / (2.0 * h), (plus.a01 - minus.a01) / (2.0 * h),
         (plus.a10 - minus.a10) / (2.0 * h), (plus.a11 - minus.a11) / (2.0 * h))
  }

  /** dx_g: the central difference of the field along x. */
  function MetricDx(f: Field, x: real, y: real): Mat2 {
    var h := FiniteDifferenceStep;
    CentralDifference(f(x + h, y), f(x - h, y), h)
  }

  /** dy_g: the central difference of the field along y. */
  function MetricDy(f: Field, x: real, y: real): Mat2 {
    var h := FiniteDifferenceStep;
    CentralDifference(f(x, y + h), f(x, y - h), h)
  }
}
