/** Two-by-two real matrices, as much as the flow filter needs. */
module Matrix {

  datatype Mat = Mat(a: real, b: real, c: real, d: real) {
    function Plus(m: Mat): Mat { Mat(a + m.a, b + m.b, c + m.c, d + m.d) }
    function Minus(m: Mat): Mat { Mat(a - m.a, b - m.b, c - m.c, d - m.d) }
    function Times(m: Mat): Mat { Mat(a * m.a + b * m.c, a * m.b + b * m.d, c * m.a + d * m.c, c * m.b + d * m.d) }
    function Transposed(): Mat { Mat(a, c, b, d) }
    function Det(): real { a * d - b * c }
  }

  const IDENTITY := Mat(1.0, 0.0, 0.0, 1.0)

  function Sym(p00: real, p01: real, p11: real): Mat { Mat(p00, p01, p01, p11) }

  /** Symmetric and positive definite, by Sylvester's criterion. */
  ghost predicate PositiveDefinite(m: Mat) {
    m.b == m.c && m.a > 0.0 && m.d > 0.0 && m.Det() > 0.0
  }

  /** x' m x */
  function Form(m: Mat, x: real, y: real): real { m.a * x * x + (m.b + m.c) * x * y + m.d * y * y }

  lemma SquareOf(x: real) returns (q: real)
    ensures q == x * x && q >= 0.0 && (x != 0.0 ==> q > 0.0)
  {
    if x > 0.0 { q := Product(x, x); } else if x < 0.0 { q := Product(-x, -x); } else { q := 0.0; }
  }

  lemma Product(x: real, y: real) returns (p: real)
    requires x > 0.0 && y > 0.0
    ensures p == x * y && p > 0.0
  {
    p := x * y;
  }

  lemma CancelPositive(a: real, x: real)
    requires a > 0.0 && a * x > 0.0
    ensures x > 0.0
  {
    if x <= 0.0 {
      if x < 0.0 { var p := Product(a, -x); }
    }
  }

  lemma FormCompletesSquare(m: Mat, x: real, y: real, t: real)
    requires m.b == m.c && t == m.a * x + m.b * y
    ensures m.a * Form(m, x, y) == t * t + m.Det() * (y * y)
  {
  }

  /** The criterion means what it should: the quadratic form is positive off the origin. */
  lemma PositiveForm(m: Mat, x: real, y: real)
    requires PositiveDefinite(m) && (x != 0.0 || y != 0.0)
    ensures Form(m, x, y) > 0.0
  {
    var t := m.a * x + m.b * y;
    FormCompletesSquare(m, x, y, t);
    var tt := SquareOf(t);
    var yy := SquareOf(y);
    if y != 0.0 {
      var p := Product(m.Det(), yy);
    } else {
      if x > 0.0 { var p := Product(m.a, x); } else { var p := Product(m.a, -x); }
    }
    CancelPositive(m.a, Form(m, x, y));
  }

  /** det(m) times the determinant shift of a sum, as a value of the form of `m`. */
  lemma DetOfSum(m: Mat, n: Mat)
    requires m.b == m.c && n.b == n.c
    ensures m.Plus(n).Det() == m.Det() + n.Det() + (m.a * n.d + m.d * n.a - 2.0 * m.b * n.b)
    ensures n.a * (m.a * n.d + m.d * n.a - 2.0 * m.b * n.b) == m.a * n.Det() + Form(m, -n.b, n.a)
  {
    var p, q, u, v := m.a, m.d, n.a, n.d;
    assert u * (p * v) == p * (u * v);
  }

  lemma SumOfPositive(m: Mat, n: Mat)
    requires PositiveDefinite(m) && PositiveDefinite(n)
    ensures PositiveDefinite(m.Plus(n))
  {
    DetOfSum(m, n);
    var p := Product(m.a, n.Det());
    PositiveForm(m, -n.b, n.a);
    CancelPositive(n.a, m.a * n.d + m.d * n.a - 2.0 * m.b * n.b);
  }

  /** Raising the diagonal of a positive definite matrix keeps it positive definite. */
  lemma RaisedDiagonal(p00: real, p01: real, p11: real, q00: real, q11: real)
    requires PositiveDefinite(Sym(p00, p01, p11)) && q00 >= p00 && q11 >= p11
    ensures PositiveDefinite(Sym(q00, p01, q11))
  {
    assert q00 * q11 - p00 * p11 == (q00 - p00) * q11 + p00 * (q11 - p11);
    NonNegativeProduct(q00 - p00, q11);
    NonNegativeProduct(p00, q11 - p11);
  }

  lemma NonNegativeProduct(x: real, y: real)
    requires x >= 0.0 && y >= 0.0
    ensures x * y >= 0.0
  {
  }
}
