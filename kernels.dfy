/** The algebraic kernels of the full-polarisation phase-only GN/LM solver for
    one (time, frequency) cell: (J^H)R, ((J^H)J)^-1, the update step and the
    residual. Antenna axes are sequences; entry [p][q] of a visibility array
    is the 2x2 visibility of baseline (p, q). */
module Kernels {
  import opened Algebra

  /** A real 2x1 column: one antenna's two phases, its (J^H)R term or its update. */
  datatype Col = Col(c0: real, c1: real)

  /** One antenna's real 2x2 block of ((J^H)J)^-1. */
  datatype Block = Block(b00: real, b01: real, b10: real, b11: real)

  /** An n-by-n visibility array (the [antenna, antenna, 2, 2] axes). */
  predicate IsGrid(v: seq<seq<Mat>>, n: nat)
  {
    |v| == n && forall p :: 0 <= p < n ==> |v[p]| == n
  }

  function ZeroGrid(n: nat): (r: seq<seq<Mat>>)
    ensures IsGrid(r, n)
  {
    seq(n, p => seq(n, q => ZeroMat))
  }

  // ---------------------------------------------------------------------
  // (J^H)R

  /** The terms D_pq G_q M_pq^H of row p: the gains broadcast onto the second
      antenna axis, then the product with the conjugate-transposed model. */
  function RgmhTerms(drow: seq<Mat>, mrow: seq<Mat>, gains: seq<Mat>): (r: seq<Mat>)
    requires |drow| == |gains| && |mrow| == |gains|
    ensures |r| == |gains|
  {
    seq(|gains|, q requires 0 <= q < |gains| => MatMul(MatMul(drow[q], gains[q]), ConjTranspose(mrow[q])))
  }

  /** X_p = sum over q of D_pq G_q M_pq^H. */
  function Rgmh(obser: seq<seq<Mat>>, model: seq<seq<Mat>>, gains: seq<Mat>, p: nat): Mat
    requires IsGrid(obser, |gains|) && IsGrid(model, |gains|) && p < |gains|
  {
    SumMats(RgmhTerms(obser[p], model[p], gains))
  }

  /** spec_eye: the 2x4 selector with ones at [0, 0] and [1, 3]. */
  function SpecEye(j: nat, k: nat): real
  {
    if (j == 0 && k == 0) || (j == 1 && k == 3) then 1.0 else 0.0
  }

  /** Entry [i, k] of conj(G) . spec_eye (elementwise conjugate, not transpose). */
  function Ghi(g: Mat, i: nat, k: nat): Complex
    requires i < 2
  {
    Add(Mul(Conj(Entry(g, i, 0)), OfReal(SpecEye(0, k))), Mul(Conj(Entry(g, i, 1)), OfReal(SpecEye(1, k))))
  }

  /** Row i of ghi times X reshaped to a 4x1 column. */
  function GhiX(g: Mat, x: Mat, i: nat): Complex
    requires i < 2
  {
    var v := Flat4(x);
    Add(Add(Mul(Ghi(g, i, 0), v[0]), Mul(Ghi(g, i, 1), v[1])),
        Add(Mul(Ghi(g, i, 2), v[2]), Mul(Ghi(g, i, 3), v[3])))
  }

  /** One antenna's (J^H)R column: -2 Im(conj(G) . spec_eye . vec(X)). */
  function JhrOf(g: Mat, x: Mat): Col
  {
    Col(-2.0 * GhiX(g, x, 0).im, -2.0 * GhiX(g, x, 1).im)
  }

  /** X_p for every antenna p (`rgmh` after the sum over q). */
  function RgmhAll(obser: seq<seq<Mat>>, model: seq<seq<Mat>>, gains: seq<Mat>): (r: seq<Mat>)
    requires IsGrid(obser, |gains|) && IsGrid(model, |gains|)
    ensures |r| == |gains|
  {
    seq(|gains|, p requires 0 <= p < |gains| => Rgmh(obser, model, gains, p))
  }

  /** The projection of every X_p by its antenna's conj(G) . spec_eye. */
  function Project(gains: seq<Mat>, xs: seq<Mat>): (r: seq<Col>)
    requires |xs| == |gains|
    ensures |r| == |gains|
  {
    seq(|gains|, p requires 0 <= p < |gains| => JhrOf(gains[p], xs[p]))
  }

  /** compute_jhr. */
  function ComputeJhr(obser: seq<seq<Mat>>, model: seq<seq<Mat>>, gains: seq<Mat>): (r: seq<Col>)
    requires IsGrid(obser, |gains|) && IsGrid(model, |gains|)
    ensures |r| == |gains|
  {
    Project(gains, RgmhAll(obser, model, gains))
  }

  /** spec_eye keeps exactly the diagonal entries X[0,0] and X[1,1]: row i of
      the projection is conj(G[i,0]) X[0,0] + conj(G[i,1]) X[1,1]. */
  lemma GhiXSelectsDiagonal(g: Mat, x: Mat, i: nat)
    requires i < 2
    ensures GhiX(g, x, i) == Add(Mul(Conj(Entry(g, i, 0)), x.m00), Mul(Conj(Entry(g, i, 1)), x.m11))
  {
    var c0, c1 := Conj(Entry(g, i, 0)), Conj(Entry(g, i, 1));
    assert SpecEye(0, 0) == 1.0 && SpecEye(1, 0) == 0.0;
    assert SpecEye(0, 1) == 0.0 && SpecEye(1, 1) == 0.0;
    assert SpecEye(0, 2) == 0.0 && SpecEye(1, 2) == 0.0;
    assert SpecEye(0, 3) == 0.0 && SpecEye(1, 3) == 1.0;
    MulUnit(c0);
    MulUnit(c1);
    assert Ghi(g, i, 0) == c0;
    assert Ghi(g, i, 1) == Zero;
    assert Ghi(g, i, 2) == Zero;
    assert Ghi(g, i, 3) == c1;
    MulUnit(x.m01);
    MulUnit(x.m10);
  }

  /** The (J^H)R column of a diagonal gain: polarisation a gets
      -2 Im(conj(G[a,a]) X[a,a]). */
  function DiagJhr(g: Mat, x: Mat): Col
  {
    Col(-2.0 * Mul(Conj(g.m00), x.m00).im, -2.0 * Mul(Conj(g.m11), x.m11).im)
  }

  /** For a diagonal gain the projection reduces to DiagJhr. */
  lemma JhrOfDiagonal(g: Mat, x: Mat)
    requires IsDiagonal(g)
    ensures JhrOf(g, x) == DiagJhr(g, x)
  {
    var c0, c1 := Mul(Conj(g.m00), x.m00), Mul(Conj(g.m11), x.m11);
    assert Conj(Zero) == Zero;
    MulUnit(x.m00);
    MulUnit(x.m11);
    MulUnit(c0);
    MulUnit(c1);
    GhiXSelectsDiagonal(g, x, 0);
    assert GhiX(g, x, 0) == Add(c0, Mul(Zero, x.m11)) == c0;
    GhiXSelectsDiagonal(g, x, 1);
    assert GhiX(g, x, 1) == Add(Mul(Zero, x.m00), c1) == c1;
  }

  // ---------------------------------------------------------------------
  // ((J^H)J)^-1

  /** to_norm. */
  const ToNorm: seq<seq<int>> := [[2, 0, 0, 0], [1, 0, 0, 1], [1, 0, 0, 1], [0, 0, 0, 2]]

  /** Sum over q of |M_pq|^2 at ravelled position k (k = 2i + j for entry [i, j]). */
  function SumAbsSq(mrow: seq<Mat>, k: nat): (r: real)
    requires k < 4
    ensures r >= 0.0
  {
    if mrow == [] then 0.0 else SumAbsSq(mrow[..|mrow| - 1], k) + AbsSq(Flat4(mrow[|mrow| - 1])[k])
  }

  /** Entry j of (sum_q |M_pq|^2) . to_norm: antenna p's flat row before inversion. */
  function JhjEntry(mrow: seq<Mat>, j: nat): real
    requires j < 4
  {
    SumAbsSq(mrow, 0) * ToNorm[0][j] as real + SumAbsSq(mrow, 1) * ToNorm[1][j] as real
    + SumAbsSq(mrow, 2) * ToNorm[2][j] as real + SumAbsSq(mrow, 3) * ToNorm[3][j] as real
  }

  /** The masked reciprocal: nonzero entries are inverted, zero entries stay zero. */
  function RecipOrZero(x: real): real
  {
    if x != 0.0 then 1.0 / x else 0.0
  }

  /** compute_jhjinv: antenna p's row of four, masked-inverted and reshaped to 2x2. */
  function JhjInv(model: seq<seq<Mat>>): (r: seq<Block>)
    requires IsGrid(model, |model|)
    ensures |r| == |model|
  {
    seq(|model|, p requires 0 <= p < |model| =>
      Block(RecipOrZero(JhjEntry(model[p], 0)), RecipOrZero(JhjEntry(model[p], 1)),
            RecipOrZero(JhjEntry(model[p], 2)), RecipOrZero(JhjEntry(model[p], 3))))
  }

  /** The flat row is [2 S0 + S1 + S2, 0, 0, S1 + S2 + 2 S3], all entries non-negative. */
  lemma JhjEntries(mrow: seq<Mat>)
    ensures JhjEntry(mrow, 0) == 2.0 * SumAbsSq(mrow, 0) + SumAbsSq(mrow, 1) + SumAbsSq(mrow, 2)
    ensures JhjEntry(mrow, 1) == 0.0 && JhjEntry(mrow, 2) == 0.0
    ensures JhjEntry(mrow, 3) == SumAbsSq(mrow, 1) + SumAbsSq(mrow, 2) + 2.0 * SumAbsSq(mrow, 3)
    ensures forall j :: 0 <= j < 4 ==> JhjEntry(mrow, j) >= 0.0
  {
  }

  lemma RecipOrZeroSpec(x: real)
    ensures x == 0.0 ==> RecipOrZero(x) == 0.0
    ensures x != 0.0 ==> RecipOrZero(x) * x == 1.0
    ensures x >= 0.0 ==> RecipOrZero(x) >= 0.0
  {
  }

  /** Each block of ((J^H)J)^-1 is diagonal and non-negative; each diagonal
      entry is the reciprocal of the matching raw entry when that is nonzero,
      and zero (no division) when it is zero. */
  lemma JhjInvIsMaskedInverse(model: seq<seq<Mat>>, p: nat)
    requires IsGrid(model, |model|) && p < |model|
    ensures var b := JhjInv(model)[p];
            b.b01 == 0.0 && b.b10 == 0.0 && b.b00 >= 0.0 && b.b11 >= 0.0
            && (JhjEntry(model[p], 0) == 0.0 ==> b.b00 == 0.0)
            && (JhjEntry(model[p], 0) != 0.0 ==> b.b00 * JhjEntry(model[p], 0) == 1.0)
            && (JhjEntry(model[p], 3) == 0.0 ==> b.b11 == 0.0)
            && (JhjEntry(model[p], 3) != 0.0 ==> b.b11 * JhjEntry(model[p], 3) == 1.0)
  {
    JhjEntries(model[p]);
    RecipOrZeroSpec(JhjEntry(model[p], 0));
    RecipOrZeroSpec(JhjEntry(model[p], 3));
  }

  lemma {:induction false} SumAbsSqOfZeros(mrow: seq<Mat>, k: nat)
    requires k < 4
    requires forall q :: 0 <= q < |mrow| ==> mrow[q] == ZeroMat
    ensures SumAbsSq(mrow, k) == 0.0
  {
    if mrow != [] {
      SumAbsSqOfZeros(mrow[..|mrow| - 1], k);
    }
  }

  lemma ZeroRowEntries(mrow: seq<Mat>)
    requires forall q :: 0 <= q < |mrow| ==> mrow[q] == ZeroMat
    ensures JhjEntry(mrow, 0) == 0.0 && JhjEntry(mrow, 1) == 0.0
    ensures JhjEntry(mrow, 2) == 0.0 && JhjEntry(mrow, 3) == 0.0
  {
    SumAbsSqOfZeros(mrow, 0);
    SumAbsSqOfZeros(mrow, 1);
    SumAbsSqOfZeros(mrow, 2);
    SumAbsSqOfZeros(mrow, 3);
    JhjEntriesOfZeroSums(mrow);
  }

  lemma JhjEntriesOfZeroSums(mrow: seq<Mat>)
    requires SumAbsSq(mrow, 0) == 0.0 && SumAbsSq(mrow, 1) == 0.0
    requires SumAbsSq(mrow, 2) == 0.0 && SumAbsSq(mrow, 3) == 0.0
    ensures JhjEntry(mrow, 0) == 0.0 && JhjEntry(mrow, 1) == 0.0
    ensures JhjEntry(mrow, 2) == 0.0 && JhjEntry(mrow, 3) == 0.0
  {
    JhjEntries(mrow);
  }

  /** An all-zero model gives an all-zero ((J^H)J)^-1, with no division by zero. */
  lemma JhjInvOfZeroModel(model: seq<seq<Mat>>)
    requires IsGrid(model, |model|)
    requires forall p, q :: 0 <= p < |model| && 0 <= q < |model| ==> model[p][q] == ZeroMat
    ensures forall p :: 0 <= p < |model| ==> JhjInv(model)[p] == Block(0.0, 0.0, 0.0, 0.0)
  {
    forall p | 0 <= p < |model|
      ensures JhjInv(model)[p] == Block(0.0, 0.0, 0.0, 0.0)
    {
      ZeroRowEntries(model[p]);
    }
  }

  lemma FlatIndex(p: nat, k: nat)
    requires k < 4
    ensures (4 * p + k) / 4 == p && (4 * p + k) % 4 == k
  {
  }

  /** compute_jhjinv as the source runs it: fill the flat [antenna, 4] array,
      then invert its nonzero entries in place (`jhjinv[jhjinv != 0] = ...`),
      then reshape it to one 2x2 block per antenna. */
  method ComputeJhjInv(model: seq<seq<Mat>>) returns (jhjinv: seq<Block>)
    requires IsGrid(model, |model|)
    ensures jhjinv == JhjInv(model)
  {
    var n := |model|;
    var a := new real[4 * n](i requires 0 <= i < 4 * n => JhjEntry(model[i / 4], i % 4));
    forall i | 0 <= i < a.Length && a[i] != 0.0 {
      a[i] := 1.0 / a[i];
    }
    var flat := a[..];
    assert forall i :: 0 <= i < 4 * n ==> flat[i] == RecipOrZero(JhjEntry(model[i / 4], i % 4));
    jhjinv := seq(n, p requires 0 <= p < n =>
      Block(flat[4 * p], flat[4 * p + 1], flat[4 * p + 2], flat[4 * p + 3]));
    forall p | 0 <= p < n
      ensures jhjinv[p] == JhjInv(model)[p]
    {
      FlatIndex(p, 0);
      FlatIndex(p, 1);
      FlatIndex(p, 2);
      FlatIndex(p, 3);
    }
  }

  /** Antenna p's entry of compute_jhr is its projection of X_p. */
  lemma ComputeJhrAt(obser: seq<seq<Mat>>, model: seq<seq<Mat>>, gains: seq<Mat>, p: nat)
    requires IsGrid(obser, |gains|) && IsGrid(model, |gains|) && p < |gains|
    ensures ComputeJhr(obser, model, gains)[p] == JhrOf(gains[p], Rgmh(obser, model, gains, p))
  {
  }

  /** compute_jhr on an antenna with a diagonal gain: polarisation a of its
      column is -2 Im(conj(G_p[a,a]) X_p[a,a]), with X_p = sum_q D_pq G_q M_pq^H. */
  lemma ComputeJhrDiagonal(obser: seq<seq<Mat>>, model: seq<seq<Mat>>, gains: seq<Mat>, p: nat)
    requires IsGrid(obser, |gains|) && IsGrid(model, |gains|) && p < |gains| && IsDiagonal(gains[p])
    ensures ComputeJhr(obser, model, gains)[p] == DiagJhr(gains[p], Rgmh(obser, model, gains, p))
  {
    ComputeJhrAt(obser, model, gains, p);
    JhrOfDiagonal(gains[p], Rgmh(obser, model, gains, p));
  }

  // ---------------------------------------------------------------------
  // The update step

  /** A 2x2 block times a 2x1 column. */
  function BlockTimesCol(b: Block, c: Col): Col
  {
    Col(b.b00 * c.c0 + b.b01 * c.c1, b.b10 * c.c0 + b.b11 * c.c1)
  }

  /** ((J^H)J)^-1 (J^H)R, antenna by antenna. */
  function ApplyJhjInv(jhjinv: seq<Block>, jhr: seq<Col>): (r: seq<Col>)
    requires |jhjinv| == |jhr|
    ensures |r| == |jhr|
  {
    seq(|jhr|, p requires 0 <= p < |jhr| => BlockTimesCol(jhjinv[p], jhr[p]))
  }

  /** compute_update. */
  function ComputeUpdate(model: seq<seq<Mat>>, obser: seq<seq<Mat>>, gains: seq<Mat>, jhjinv: seq<Block>)
    : (r: seq<Col>)
    requires IsGrid(obser, |gains|) && IsGrid(model, |gains|) && |jhjinv| == |gains|
    ensures |r| == |gains|
  {
    ApplyJhjInv(jhjinv, ComputeJhr(obser, model, gains))
  }

  lemma DiagonalBlockTimesCol(b: Block, h: Col)
    requires b.b01 == 0.0 && b.b10 == 0.0
    ensures BlockTimesCol(b, h) == Col(b.b00 * h.c0, b.b11 * h.c1)
  {
  }

  /** With the solver's ((J^H)J)^-1 the two polarisations decouple: each phase
      moves by its own normalisation times its own (J^H)R term, and a
      polarisation with no model power is not moved at all. */
  lemma UpdatePerPolarisation(model: seq<seq<Mat>>, jhr: seq<Col>, p: nat)
    requires IsGrid(model, |model|) && |jhr| == |model| && p < |model|
    ensures var u := ApplyJhjInv(JhjInv(model), jhr)[p];
            var b := JhjInv(model)[p];
            u == Col(b.b00 * jhr[p].c0, b.b11 * jhr[p].c1)
            && (JhjEntry(model[p], 0) == 0.0 ==> u.c0 == 0.0)
            && (JhjEntry(model[p], 3) == 0.0 ==> u.c1 == 0.0)
  {
    var b := JhjInv(model)[p];
    JhjInvIsMaskedInverse(model, p);
    DiagonalBlockTimesCol(b, jhr[p]);
  }

  // ---------------------------------------------------------------------
  // The residual

  /** A_l V_lm A_m^H for every baseline (l, m): the gain-corrupted model
      G_l M_lm G_m^H here, and the corrected data when A holds the inverse
      gains (apply_gains). */
  function Reconstruct(model: seq<seq<Mat>>, gains: seq<Mat>): (r: seq<seq<Mat>>)
    requires IsGrid(model, |gains|)
    ensures IsGrid(r, |gains|)
  {
    seq(|gains|, l requires 0 <= l < |gains| =>
      seq(|gains|, m requires 0 <= m < |gains| =>
        MatMul(MatMul(gains[l], model[l][m]), ConjTranspose(gains[m]))))
  }

  /** compute_residual: D - G M G^H. */
  function ComputeResidual(obser: seq<seq<Mat>>, model: seq<seq<Mat>>, gains: seq<Mat>): (r: seq<seq<Mat>>)
    requires IsGrid(obser, |gains|) && IsGrid(model, |gains|)
    ensures IsGrid(r, |gains|)
  {
    var gmgh := Reconstruct(model, gains);
    seq(|gains|, l requires 0 <= l < |gains| =>
      seq(|gains|, m requires 0 <= m < |gains| => MatSub(obser[l][m], gmgh[l][m])))
  }

  lemma MatSubZero(a: Mat, b: Mat)
    ensures MatSub(a, b) == ZeroMat <==> a == b
  {
  }

  /** The residual vanishes exactly when the data are the gain-corrupted model. */
  lemma ResidualZeroIff(obser: seq<seq<Mat>>, model: seq<seq<Mat>>, gains: seq<Mat>)
    requires IsGrid(obser, |gains|) && IsGrid(model, |gains|)
    ensures ComputeResidual(obser, model, gains) == ZeroGrid(|gains|) <==> obser == Reconstruct(model, gains)
  {
    var n := |gains|;
    var r := ComputeResidual(obser, model, gains);
    var g := Reconstruct(model, gains);
    forall l, m | 0 <= l < n && 0 <= m < n
      ensures r[l][m] == ZeroMat <==> obser[l][m] == g[l][m]
    {
      MatSubZero(obser[l][m], g[l][m]);
    }
    if r == ZeroGrid(n) {
      forall l | 0 <= l < n
        ensures obser[l] == g[l]
      {
        assert r[l] == ZeroGrid(n)[l];
      }
    }
    if obser == g {
      forall l | 0 <= l < n
        ensures r[l] == ZeroGrid(n)[l]
      {
      }
    }
  }
}
