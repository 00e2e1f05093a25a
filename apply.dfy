/** `apply_gains`: correcting the observed visibilities with the inverse of
    the solved gains, G_l^-1 D_lm G_m^-H, where each 2x2 inverse is built in
    closed form as adjugate over determinant. */
module Apply {
  import opened Algebra
  import opened Kernels
  import opened Solver

  datatype Option<T> = None | Some(value: T)

  /** `gains[..., ::-1, ::-1]`: both matrix axes reversed. */
  function Reversed(g: Mat): Mat
  {
    Mat(g.m11, g.m10, g.m01, g.m00)
  }

  /** `np.transpose(..., axes=[0, 1, 2, 4, 3])`: the two matrix axes swapped. */
  function Transpose(a: Mat): Mat
  {
    Mat(a.m00, a.m10, a.m01, a.m11)
  }

  /** `np.array([[1, -1], [-1, 1]]) * a`, elementwise. */
  function SignMask(a: Mat): Mat
  {
    Mat(Mul(OfReal(1.0), a.m00), Mul(OfReal(-1.0), a.m01), Mul(OfReal(-1.0), a.m10), Mul(OfReal(1.0), a.m11))
  }

  function Neg(a: Complex): Complex { Complex(-a.re, -a.im) }

  /** The adjugate as the source builds it: reverse, transpose, sign mask. */
  function Adjugate(g: Mat): (r: Mat)
    ensures r == Mat(g.m11, Neg(g.m01), Neg(g.m10), g.m00)
  {
    SignMask(Transpose(Reversed(g)))
  }

  /** A gain whose determinant is nonzero. */
  predicate Invertible(g: Mat)
  {
    AbsSq(Det(g)) != 0.0
  }

  predicate AllInvertible(gains: seq<Mat>)
  {
    forall p :: 0 <= p < |gains| ==> Invertible(gains[p])
  }

  /** `inv_gains *= 1./det[..., None, None]`: adjugate over determinant,
      a two-sided inverse whenever det(G) is nonzero. */
  function Inverse(g: Mat): (r: Mat)
    requires Invertible(g)
    ensures MatMul(r, g) == Identity && MatMul(g, r) == Identity
  {
    var d := Det(g);
    var c := Recip(d);
    AdjugateTimes(g);
    MatMulScale(Adjugate(g), g, c);
    MatMulScale(g, Adjugate(g), c);
    MulUnit(c);
    assert ScaleEntries(Mat(d, Zero, Zero, d), c) == Identity;
    ScaleEntries(Adjugate(g), c)
  }

  /** apply_gains. A singular gain, for which numpy divides by zero and
      yields inf/nan entries, gives None. */
  function ApplyGains(obser: seq<seq<Mat>>, gains: seq<Mat>): (r: Option<seq<seq<Mat>>>)
    requires IsGrid(obser, |gains|)
    ensures r.Some? <==> AllInvertible(gains)
    ensures r.Some? ==> IsGrid(r.value, |gains|)
  {
    if AllInvertible(gains) then
      Some(Reconstruct(obser, seq(|gains|, p requires 0 <= p < |gains| => Inverse(gains[p]))))
    else
      None
  }

  /** A negated factor negates the product. */
  lemma MulNeg(a: Complex, b: Complex)
    ensures Mul(Neg(a), b) == Neg(Mul(a, b)) && Mul(a, Neg(b)) == Neg(Mul(a, b))
  {
  }

  /** x + (-y) is x - y, and y + (-y) is zero. */
  lemma AddNeg(x: Complex, y: Complex)
    ensures Add(x, Neg(y)) == Sub(x, y) && Add(Neg(y), x) == Sub(x, y)
    ensures Add(y, Neg(y)) == Zero && Add(Neg(y), y) == Zero
  {
  }

  /** adj(G) G = det(G) I, entry by entry. */
  lemma AdjugateTimes(g: Mat)
    ensures MatMul(Adjugate(g), g) == Mat(Det(g), Zero, Zero, Det(g))
    ensures MatMul(g, Adjugate(g)) == Mat(Det(g), Zero, Zero, Det(g))
  {
    var a, b, c, d := g.m00, g.m01, g.m10, g.m11;
    MulNeg(b, c);
    MulNeg(c, b);
    MulNeg(b, d);
    MulNeg(c, a);
    MulNeg(a, b);
    MulNeg(d, c);
    MulComm(d, a);
    MulComm(c, b);
    MulComm(d, b);
    MulComm(c, a);
    MulComm(a, b);
    MulComm(d, c);
    AddNeg(Mul(a, d), Mul(b, c));
    AddNeg(Mul(b, d), Mul(b, d));
    AddNeg(Mul(a, c), Mul(a, c));
    AddNeg(Mul(a, b), Mul(a, b));
    AddNeg(Mul(c, d), Mul(c, d));
    // adj(G) G
    assert Dot2(d, Neg(b), a, c) == Det(g);
    assert Dot2(d, Neg(b), b, d) == Zero;
    assert Dot2(Neg(c), a, a, c) == Zero;
    assert Dot2(Neg(c), a, b, d) == Det(g);
    // G adj(G)
    assert Dot2(a, b, d, Neg(c)) == Det(g);
    assert Dot2(a, b, Neg(b), a) == Zero;
    assert Dot2(c, d, d, Neg(c)) == Zero;
    assert Dot2(c, d, Neg(b), a) == Det(g);
  }

  lemma ConjTransposeIdentity()
    ensures ConjTranspose(Identity) == Identity
  {
  }

  /** One baseline: G_l^-1 (G_l M G_m^H) G_m^-H = M. */
  lemma UndoOne(gl: Mat, m: Mat, gm: Mat)
    requires Invertible(gl) && Invertible(gm)
    ensures MatMul(MatMul(Inverse(gl), MatMul(MatMul(gl, m), ConjTranspose(gm))), ConjTranspose(Inverse(gm))) == m
  {
    var il, im := Inverse(gl), Inverse(gm);
    MatMulAssoc(il, MatMul(gl, m), ConjTranspose(gm));
    MatMulAssoc(il, gl, m);
    MatMulIdentity(m);
    MatMulAssoc(m, ConjTranspose(gm), ConjTranspose(im));
    ConjTransposeMul(im, gm);
    ConjTransposeIdentity();
  }

  /** One baseline: G_l (G_l^-1 D G_m^-H) G_m^H = D. */
  lemma RedoOne(gl: Mat, d: Mat, gm: Mat)
    requires Invertible(gl) && Invertible(gm)
    ensures MatMul(MatMul(gl, MatMul(MatMul(Inverse(gl), d), ConjTranspose(Inverse(gm)))), ConjTranspose(gm)) == d
  {
    var il, im := Inverse(gl), Inverse(gm);
    MatMulAssoc(gl, MatMul(il, d), ConjTranspose(im));
    MatMulAssoc(gl, il, d);
    MatMulIdentity(d);
    MatMulAssoc(d, ConjTranspose(im), ConjTranspose(gm));
    ConjTransposeMul(gm, im);
    ConjTransposeIdentity();
  }

  /** Correcting the gain-corrupted model returns the model. */
  lemma ApplyGainsUndoesCorruption(model: seq<seq<Mat>>, gains: seq<Mat>)
    requires IsGrid(model, |gains|) && AllInvertible(gains)
    ensures ApplyGains(Reconstruct(model, gains), gains) == Some(model)
  {
    var n := |gains|;
    var invs := seq(n, p requires 0 <= p < n => Inverse(gains[p]));
    var d := Reconstruct(model, gains);
    var r := Reconstruct(d, invs);
    forall l, m | 0 <= l < n && 0 <= m < n
      ensures r[l][m] == model[l][m]
    {
      UndoOne(gains[l], model[l][m], gains[m]);
    }
    forall l | 0 <= l < n
      ensures r[l] == model[l]
    {
    }
    assert r == model;
    assert ApplyGains(d, gains) == Some(r);
  }

  /** Re-corrupting the corrected data returns the data. */
  lemma ApplyGainsThenReconstruct(obser: seq<seq<Mat>>, gains: seq<Mat>)
    requires IsGrid(obser, |gains|) && AllInvertible(gains)
    ensures ApplyGains(obser, gains).Some?
    ensures Reconstruct(ApplyGains(obser, gains).value, gains) == obser
  {
    var n := |gains|;
    var c := ApplyGains(obser, gains).value;
    var r := Reconstruct(c, gains);
    forall l, m | 0 <= l < n && 0 <= m < n
      ensures r[l][m] == obser[l][m]
    {
      RedoOne(gains[l], obser[l][m], gains[m]);
    }
    forall l | 0 <= l < n
      ensures r[l] == obser[l]
    {
    }
  }

  lemma DetDiagonal(a: Complex, b: Complex)
    ensures Det(Mat(a, Zero, Zero, b)) == Mul(a, b)
  {
    assert Mul(Zero, Zero) == Zero;
  }

  /** det diag(a, b) = ab is nonzero when a and b are. */
  lemma DiagonalInvertible(a: Complex, b: Complex)
    requires AbsSq(a) != 0.0 && AbsSq(b) != 0.0
    ensures Invertible(Mat(a, Zero, Zero, b))
  {
    DetDiagonal(a, b);
    MulNonzero(a, b);
  }

  /** One antenna's gain built from a phase pair is invertible when the
      phase factor does not vanish at either phase. */
  lemma GainOfInvertible(cis: real -> Complex, ph: Col)
    requires AbsSq(cis(-ph.c0)) != 0.0 && AbsSq(cis(-ph.c1)) != 0.0
    ensures Invertible(GainOf(cis, ph))
  {
    GainOfPhases(cis, ph);
    DiagonalInvertible(cis(-ph.c0), cis(-ph.c1));
  }

  /** Gains built from phases are invertible when the phase factor never
      vanishes (true of exp(-1j*phi)). */
  lemma PhaseGainsInvertible(cis: real -> Complex, phases: seq<Col>)
    requires forall t :: AbsSq(cis(t)) != 0.0
    ensures AllInvertible(GainsFromPhases(cis, phases))
  {
    var gains := GainsFromPhases(cis, phases);
    forall p | 0 <= p < |phases|
      ensures Invertible(gains[p])
    {
      GainOfInvertible(cis, phases[p]);
    }
  }

  /** apply_gains as the source runs it: the adjugates into a fresh array,
      each scaled in place by 1/det, then the two products per baseline. */
  method ApplyGainsInPlace(obser: seq<seq<Mat>>, gains: seq<Mat>) returns (r: Option<seq<seq<Mat>>>)
    requires IsGrid(obser, |gains|)
    ensures r == ApplyGains(obser, gains)
  {
    var n := |gains|;
    var inv := new Mat[n](p requires 0 <= p < n => Adjugate(gains[p]));
    if !AllInvertible(gains) {
      return None;
    }
    forall p | 0 <= p < n {
      inv[p] := ScaleEntries(inv[p], Recip(Det(gains[p])));
    }
    var invs := inv[..];
    assert invs == seq(n, p requires 0 <= p < n => Inverse(gains[p]));
    r := Some(Reconstruct(obser, invs));
  }
}
