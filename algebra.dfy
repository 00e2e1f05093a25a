/** Exact complex numbers and 2x2 complex matrices: the Jones matrices and
    visibilities the solver works on. A complex number is a pair of reals;
    floating point is not modelled. */
module Algebra {

  datatype Complex = Complex(re: real, im: real)

  const Zero := Complex(0.0, 0.0)
  const One := Complex(1.0, 0.0)

  /** A real number seen as a complex one (numpy's promotion of a real or
      integer operand in a complex product). */
  function OfReal(x: real): Complex { Complex(x, 0.0) }

  function Add(a: Complex, b: Complex): Complex { Complex(a.re + b.re, a.im + b.im) }

  function Sub(a: Complex, b: Complex): Complex { Complex(a.re - b.re, a.im - b.im) }

  function Mul(a: Complex, b: Complex): Complex
  {
    Complex(a.re * b.re - a.im * b.im, a.re * b.im + a.im * b.re)
  }

  function Conj(a: Complex): Complex { Complex(a.re, -a.im) }

  /** `abs(z)**2`: the squared modulus. A complex number is treated as
      nonzero (invertible) when its squared modulus is nonzero. */
  function AbsSq(a: Complex): (r: real)
    ensures r >= 0.0
  {
    a.re * a.re + a.im * a.im
  }

  /** The real and imaginary parts of z (conj(z) / |z|^2) and of (conj(z) / |z|^2) z. */
  lemma RecipParts(x: real, y: real, n: real)
    requires n != 0.0 && n == x * x + y * y
    ensures x * (x / n) - y * (-y / n) == 1.0 && x * (-y / n) + y * (x / n) == 0.0
    ensures (x / n) * x - (-y / n) * y == 1.0 && (x / n) * y + (-y / n) * x == 0.0
  {
    assert x * (x / n) == (x * x) / n;
    assert y * (-y / n) == -(y * y) / n;
    assert (x * x) / n + (y * y) / n == (x * x + y * y) / n;
    assert x * (-y / n) == -(x * y) / n;
    assert y * (x / n) == (x * y) / n;
  }

  /** `1./z` for a nonzero complex z (numpy yields inf/nan for z == 0). */
  function Recip(a: Complex): (r: Complex)
    requires AbsSq(a) != 0.0
    ensures Mul(a, r) == One && Mul(r, a) == One
  {
    var n := AbsSq(a);
    RecipParts(a.re, a.im, n);
    Complex(a.re / n, -a.im / n)
  }

  /** Multiplying by one and by zero. */
  lemma MulUnit(a: Complex)
    ensures Mul(a, OfReal(1.0)) == a && Mul(OfReal(1.0), a) == a
    ensures Mul(a, OfReal(0.0)) == Zero && Mul(Zero, a) == Zero && Mul(a, Zero) == Zero
    ensures Add(a, Zero) == a && Add(Zero, a) == a
  {
  }

  lemma MulComm(a: Complex, b: Complex)
    ensures Mul(a, b) == Mul(b, a)
  {
  }

  lemma MulAssoc(a: Complex, b: Complex, c: Complex)
    ensures Mul(Mul(a, b), c) == Mul(a, Mul(b, c))
  {
  }

  lemma MulAddLeft(a: Complex, b: Complex, c: Complex)
    ensures Mul(a, Add(b, c)) == Add(Mul(a, b), Mul(a, c))
  {
  }

  lemma MulAddRight(a: Complex, b: Complex, c: Complex)
    ensures Mul(Add(a, b), c) == Add(Mul(a, c), Mul(b, c))
  {
  }

  lemma ExpandAbsSqMul(p: real, q: real, r: real, s: real)
    ensures (p * r - q * s) * (p * r - q * s) + (p * s + q * r) * (p * s + q * r)
         == (p * p + q * q) * (r * r + s * s)
  {
  }

  /** |ab|^2 = |a|^2 |b|^2. */
  lemma AbsSqMul(a: Complex, b: Complex)
    ensures AbsSq(Mul(a, b)) == AbsSq(a) * AbsSq(b)
  {
    ExpandAbsSqMul(a.re, a.im, b.re, b.im);
  }

  lemma ProductNonzero(x: real, y: real)
    requires x != 0.0 && y != 0.0
    ensures x * y != 0.0
  {
  }

  /** The product of two nonzero complex numbers is nonzero. */
  lemma MulNonzero(a: Complex, b: Complex)
    requires AbsSq(a) != 0.0 && AbsSq(b) != 0.0
    ensures AbsSq(Mul(a, b)) != 0.0
  {
    AbsSqMul(a, b);
    ProductNonzero(AbsSq(a), AbsSq(b));
  }

  /** A 2x2 complex matrix [[m00, m01], [m10, m11]]. */
  datatype Mat = Mat(m00: Complex, m01: Complex, m10: Complex, m11: Complex)

  const Identity := Mat(One, Zero, Zero, One)
  const ZeroMat := Mat(Zero, Zero, Zero, Zero)

  /** Entry [i, j]. */
  function Entry(a: Mat, i: nat, j: nat): Complex
    requires i < 2 && j < 2
  {
    if i == 0 then (if j == 0 then a.m00 else a.m01)
    else (if j == 0 then a.m10 else a.m11)
  }

  function MatAdd(a: Mat, b: Mat): Mat
  {
    Mat(Add(a.m00, b.m00), Add(a.m01, b.m01), Add(a.m10, b.m10), Add(a.m11, b.m11))
  }

  function MatSub(a: Mat, b: Mat): Mat
  {
    Mat(Sub(a.m00, b.m00), Sub(a.m01, b.m01), Sub(a.m10, b.m10), Sub(a.m11, b.m11))
  }

  /** Row (x0, x1) times column (y0, y1). */
  function Dot2(x0: Complex, x1: Complex, y0: Complex, y1: Complex): Complex
  {
    Add(Mul(x0, y0), Mul(x1, y1))
  }

  /** The matrix product, `einsum("...ij,...jk->...ik")`. */
  function MatMul(a: Mat, b: Mat): Mat
  {
    Mat(Dot2(a.m00, a.m01, b.m00, b.m10), Dot2(a.m00, a.m01, b.m01, b.m11),
        Dot2(a.m10, a.m11, b.m00, b.m10), Dot2(a.m10, a.m11, b.m01, b.m11))
  }

  /** The conjugate transpose a^H. */
  function ConjTranspose(a: Mat): Mat
  {
    Mat(Conj(a.m00), Conj(a.m10), Conj(a.m01), Conj(a.m11))
  }

  /** Every entry multiplied by the scalar c (`a *= c[..., None, None]`). */
  function ScaleEntries(a: Mat, c: Complex): Mat
  {
    Mat(Mul(a.m00, c), Mul(a.m01, c), Mul(a.m10, c), Mul(a.m11, c))
  }

  /** `g00*g11 - g01*g10`. */
  function Det(a: Mat): Complex { Sub(Mul(a.m00, a.m11), Mul(a.m01, a.m10)) }

  predicate IsDiagonal(a: Mat) { a.m01 == Zero && a.m10 == Zero }

  /** The C-order ravel of a 2x2 matrix: [m00, m01, m10, m11]. */
  function Flat4(a: Mat): (r: seq<Complex>)
    ensures |r| == 4
    ensures forall i, j :: 0 <= i < 2 && 0 <= j < 2 ==> r[2 * i + j] == Entry(a, i, j)
  {
    [a.m00, a.m01, a.m10, a.m11]
  }

  /** The sum of a sequence of matrices (`np.sum` over one antenna axis). */
  function SumMats(s: seq<Mat>): Mat
  {
    if s == [] then ZeroMat else MatAdd(SumMats(s[..|s| - 1]), s[|s| - 1])
  }

  /** One entry of (ab)c equals the same entry of a(bc). */
  lemma Dot2Assoc(x0: Complex, x1: Complex, b00: Complex, b01: Complex, b10: Complex, b11: Complex,
                  y0: Complex, y1: Complex)
    ensures Dot2(Dot2(x0, x1, b00, b10), Dot2(x0, x1, b01, b11), y0, y1)
         == Dot2(x0, x1, Dot2(b00, b01, y0, y1), Dot2(b10, b11, y0, y1))
  {
    MulAddRight(Mul(x0, b00), Mul(x1, b10), y0);
    MulAddRight(Mul(x0, b01), Mul(x1, b11), y1);
    MulAddLeft(x0, Mul(b00, y0), Mul(b01, y1));
    MulAddLeft(x1, Mul(b10, y0), Mul(b11, y1));
    MulAssoc(x0, b00, y0);
    MulAssoc(x1, b10, y0);
    MulAssoc(x0, b01, y1);
    MulAssoc(x1, b11, y1);
  }

  lemma MatMulAssoc(a: Mat, b: Mat, c: Mat)
    ensures MatMul(MatMul(a, b), c) == MatMul(a, MatMul(b, c))
  {
    Dot2Assoc(a.m00, a.m01, b.m00, b.m01, b.m10, b.m11, c.m00, c.m10);
    Dot2Assoc(a.m00, a.m01, b.m00, b.m01, b.m10, b.m11, c.m01, c.m11);
    Dot2Assoc(a.m10, a.m11, b.m00, b.m01, b.m10, b.m11, c.m00, c.m10);
    Dot2Assoc(a.m10, a.m11, b.m00, b.m01, b.m10, b.m11, c.m01, c.m11);
  }

  lemma MatMulIdentity(a: Mat)
    ensures MatMul(Identity, a) == a && MatMul(a, Identity) == a
  {
  }

  /** (ab)^H = b^H a^H. */
  lemma ConjTransposeMul(a: Mat, b: Mat)
    ensures ConjTranspose(MatMul(a, b)) == MatMul(ConjTranspose(b), ConjTranspose(a))
  {
  }

  lemma Dot2Scale(x0: Complex, x1: Complex, y0: Complex, y1: Complex, c: Complex)
    ensures Dot2(Mul(x0, c), Mul(x1, c), y0, y1) == Mul(Dot2(x0, x1, y0, y1), c)
    ensures Dot2(x0, x1, Mul(y0, c), Mul(y1, c)) == Mul(Dot2(x0, x1, y0, y1), c)
  {
    MulAddRight(Mul(x0, y0), Mul(x1, y1), c);
    MulAssoc(x0, y0, c);
    MulAssoc(x1, y1, c);
    MulAssoc(x0, c, y0);
    MulAssoc(x1, c, y1);
    MulComm(c, y0);
    MulComm(c, y1);
  }

  /** Scaling a factor of a product scales the product. */
  lemma MatMulScale(a: Mat, b: Mat, c: Complex)
    ensures MatMul(ScaleEntries(a, c), b) == ScaleEntries(MatMul(a, b), c)
    ensures MatMul(a, ScaleEntries(b, c)) == ScaleEntries(MatMul(a, b), c)
  {
    Dot2Scale(a.m00, a.m01, b.m00, b.m10, c);
    Dot2Scale(a.m00, a.m01, b.m01, b.m11, c);
    Dot2Scale(a.m10, a.m11, b.m00, b.m10, c);
    Dot2Scale(a.m10, a.m11, b.m01, b.m11, c);
  }
}
