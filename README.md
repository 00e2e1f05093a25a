# Phase-only full-polarisation gain solver (CubiCal prototype) in Dafny

This project models `current_code/solver-multichunk.py`. That file holds a
Gauss-Newton/Levenberg-Marquardt solver for phase-only, full-polarisation
antenna gains in radio interferometry, plus the step that applies the solved
gains to the observed visibilities. The model covers one (time, frequency)
cell. The kernels treat the leading time and frequency axes as a batch of
independent cells, but the solver loop does not: it keeps one `iters`, one
`delta_g` and one `chi` for the whole chunk, so every cell of a chunk stops
on the same joint test (see `Solver.Solve` under "## Left out").

- **Numbers and matrices.** A complex number is a pair of exact reals
  (`Algebra.Complex`). A Jones matrix or visibility is a 2x2 complex matrix
  (`Algebra.Mat`). An antenna axis is a sequence: `obser[p][q]` and
  `model[p][q]` are the visibilities of baseline (p, q), and `gains[p]` is
  antenna p's gain.
- **Kernels** (`kernels.dfy`).
  - (J^H)R is `compute_jhr`. Under a diagonal gain, the column of antenna p
    at polarisation a is -2 Im(conj(G_p[a,a]) X_p[a,a]). Here
    X_p = sum_q D_pq G_q M_pq^H, and the gains sit on the second antenna
    axis.
  - ((J^H)J)^-1 is `compute_jhjinv`. It is the masked reciprocal of
    [2 S0 + S1 + S2, 0, 0, S1 + S2 + 2 S3], where Sk is the sum over q of
    |M_pq|^2 at ravelled position k. The in-place masked inversion is an
    array method.
  - The update is `compute_update`.
  - The residual D - G M G^H is `compute_residual`.
- **Control loop** (`solver.dfy`). The loop of `full_pol_phase_only` is
  modelled twice:
  - as an imperative method with the source's early returns;
  - as a recursive specification function `Solve`.
  The method is proved equal to the function. `exp(-1j*phi)` and
  `np.linalg.norm` are parameters: `cis`, a function from reals to complex
  numbers, and `norm`, a non-negative function on the C-order ravel of its
  argument. Each `return` is told apart by an `Exit` value. The proofs about
  `Solve` establish:
  - the relaxation schedule;
  - the iteration cap and its priority over the chi-squared test;
  - that chi-squared is tested only on multiples of `chi_interval`, and
    never returns at the first test, because old_chi = +inf there;
  - that the "Bad solutions." return cannot be reached when `chi_tol >= 0`,
    because any rise in chi already satisfies `old_chi - chi < chi_tol`;
  - that the gains are always the diagonal gains of the current phases.
- **Gain application** (`apply.dfy`). `apply_gains` builds each inverse as
  adjugate over determinant. For invertible gains it is proved to undo the
  gain corruption, and the corruption is proved to undo it.

## Behaviour of the code worth noting

- Each antenna has two independent phases: the phase array has shape
  [..., antenna, 2, 1], and the gain is diag(exp(-i phi_x), exp(-i phi_y)).
- The gain entry is exp(-i phi).
- delta_g starts at 1, so the loop body runs only when `min_delta_g < 1`
  (`Solver.SolveFacts`).
- With `chi_tol >= 0` the "Bad solutions." return cannot be reached: any rise
  in chi already satisfies `old_chi - chi < chi_tol`.
- `chi_interval == 0` raises ZeroDivisionError on the first pass that gets
  past the cap test. The model reports this as the exit `ChiIntervalZero`.
- Python's `%` and Dafny's `%` differ for negative operands. Only the test
  `iters % chi_interval == 0` uses `%` with a possibly negative divisor, and
  it means "chi_interval divides iters" under both.

## Model

| member | source | states |
|---|---|---|
| `Algebra.Recip` | current_code/solver-multichunk.py:195-196 | `1./z` for z with nonzero modulus is a two-sided multiplicative inverse of z |
| `Algebra.Flat4` | current_code/solver-multichunk.py:33 | reshaping a 2x2 matrix to 4 entries puts entry [i, j] at position 2i + j (C order) |
| `Kernels.ComputeJhr` | current_code/solver-multichunk.py:5-37 | the contract gives only the shape, one (J^H)R column per antenna; its content is stated by `Kernels.ComputeJhrDiagonal` |
| `Kernels.ComputeJhrDiagonal` | current_code/solver-multichunk.py:5-37 | on an antenna with a diagonal gain, compute_jhr's column at polarisation a is -2 Im(conj(G_p[a,a]) X_p[a,a]), with X_p = sum_q D_pq G_q M_pq^H |
| `Kernels.GhiXSelectsDiagonal` | current_code/solver-multichunk.py:19-33 | conj(G) . spec_eye . vec(X) keeps only X[0,0] and X[1,1]: row i is conj(G[i,0]) X[0,0] + conj(G[i,1]) X[1,1] |
| `Kernels.JhrOfDiagonal` | current_code/solver-multichunk.py:31-35 | for a diagonal gain, the (J^H)R column of polarisation a is -2 Im(conj(G[a,a]) X[a,a]) |
| `Kernels.JhjInv` | current_code/solver-multichunk.py:40-65 | the contract gives only the shape, one block per antenna; its content is stated by `Kernels.JhjEntries` and `Kernels.JhjInvIsMaskedInverse` |
| `Kernels.JhjEntries` | current_code/solver-multichunk.py:56-59 | the row before inversion is [2 S0 + S1 + S2, 0, 0, S1 + S2 + 2 S3], and every entry is non-negative |
| `Kernels.RecipOrZeroSpec` | current_code/solver-multichunk.py:61 | the masked reciprocal maps 0 to 0, inverts every nonzero x, and keeps non-negative values non-negative |
| `Kernels.JhjInvIsMaskedInverse` | current_code/solver-multichunk.py:59-65 | each 2x2 block is diagonal and non-negative; each diagonal entry is the reciprocal of the raw entry, or 0 where the raw entry is 0 |
| `Kernels.SumAbsSqOfZeros` | current_code/solver-multichunk.py:59 | an all-zero model row sums to zero squared modulus at every ravelled position |
| `Kernels.ZeroRowEntries` | current_code/solver-multichunk.py:56-59 | an all-zero model row gives an all-zero row before inversion |
| `Kernels.JhjInvOfZeroModel` | current_code/solver-multichunk.py:59-61 | an all-zero model gives all-zero blocks, with no division performed |
| `Kernels.ComputeJhjInv` | current_code/solver-multichunk.py:53-65 | filling the flat [antenna, 4] array, inverting its nonzero entries in place and reshaping yields exactly the masked inverse |
| `Kernels.ComputeUpdate` | current_code/solver-multichunk.py:68-88 | the contract gives only the shape, one update column per antenna; its content is stated by `Kernels.UpdatePerPolarisation` |
| `Kernels.UpdatePerPolarisation` | current_code/solver-multichunk.py:84-86 | with the solver's ((J^H)J)^-1 the two polarisations decouple; each update is its own normalisation times its own (J^H)R term, and is zero where that polarisation has no model power |
| `Kernels.Reconstruct` | current_code/solver-multichunk.py:105-107 | the contract gives only the shape, an antenna-by-antenna grid; its content is stated by `Kernels.ResidualZeroIff` and, as the product apply_gains forms at lines 198-200, by `Apply.ApplyGainsUndoesCorruption` and `Apply.ApplyGainsThenReconstruct` |
| `Kernels.ComputeResidual` | current_code/solver-multichunk.py:91-111 | the contract gives only the shape, an antenna-by-antenna grid; its content is stated by `Kernels.ResidualZeroIff` |
| `Kernels.MatSubZero` | current_code/solver-multichunk.py:109 | D - R is the zero matrix exactly when D equals R |
| `Kernels.ResidualZeroIff` | current_code/solver-multichunk.py:105-111 | the residual is all zero if and only if the data equal G_l M_lm G_m^H on every baseline |
| `Solver.GainsFromPhases` | current_code/solver-multichunk.py:137-138 | the contract gives only the shape, one gain per antenna; its content is stated by `Solver.GainsFromPhasesDiagonal` |
| `Solver.GainOfPhases` | current_code/solver-multichunk.py:137-138 | the broadcast-then-patch gain of a phase pair is diag(cis(-phi_x), cis(-phi_y)) with both off-diagonal entries exactly zero |
| `Solver.GainsFromPhasesDiagonal` | current_code/solver-multichunk.py:157-158 | every antenna's gain built from phases is diagonal, with entries cis(-phi) |
| `Solver.BuildGains` | current_code/solver-multichunk.py:137-138 | filling a fresh array and zeroing its off-diagonal entries in place yields the gains of the phases |
| `Solver.Relaxation` | current_code/solver-multichunk.py:148-151 | fact is 0.5 exactly when iters is even and 1 exactly when it is odd |
| `Solver.IteratePhaseStep` | current_code/solver-multichunk.py:148-158 | whether a pass returns or goes on, its phases are the old phases plus fact times the update computed from the old gains, and its gains are the gains of those phases |
| `Solver.Iterate` | current_code/solver-multichunk.py:146-174 | a pass that does not return has advanced iters by one and keeps iters <= maxiter; a pass that returns does so one iteration later with one phase pair and one gain per antenna; its content is stated by `Solver.IteratePhaseStep`, `Solver.DecideDone` and `Solver.DecideNext` |
| `Solver.Decide` | current_code/solver-multichunk.py:160-174 | a pass that does not return has advanced iters by one and has iters <= maxiter |
| `Solver.DecideDone` | current_code/solver-multichunk.py:160-172 | a pass that returns satisfies Outcome. The cap exit is taken exactly at pass max(maxiter, 0) + 1. Chi exits come on a multiple of the interval, at least twice the interval, with a finite chi. A zero interval fails on pass 1. With chi_tol >= 0 there is no divergence exit |
| `Solver.DecideNext` | current_code/solver-multichunk.py:160-174 | a pass that does not return keeps the loop invariant (gains of the phases, iters <= maxiter, nonzero interval, a finite chi only after a test) and recomputes chi only on a multiple of the interval |
| `Solver.FirstChiTestContinues` | current_code/solver-multichunk.py:165-172 | while chi is still +inf, a chi test never returns |
| `Solver.Run` | current_code/solver-multichunk.py:146-176 | the loop ends with one phase pair and one gain per antenna and never decreases iters; its content is stated by `Solver.RunFacts` |
| `Solver.RunFacts` | current_code/solver-multichunk.py:146-176 | from any loop head satisfying the invariant, the loop ends and its result satisfies Outcome; the loop-test exit has delta_g <= min_delta_g, and a passing loop test makes at least one more pass |
| `Solver.Solve` | current_code/solver-multichunk.py:114-176 | the result has one phase pair and one gain per antenna; its content is stated by `Solver.SolveFacts` and `Solver.DefaultSchedule` |
| `Solver.SolveFacts` | current_code/solver-multichunk.py:114-176 | the solver's result satisfies Outcome; its gains are diagonal, one per antenna; it makes no pass at all exactly when min_delta_g >= 1 |
| `Solver.DefaultSchedule` | current_code/solver-multichunk.py:114-115 | with the default keywords there are at most 31 passes and no divergence exit; a chi-converged exit happens after pass 10, 15, 20, 25 or 30 |
| `Solver.Pass` | current_code/solver-multichunk.py:148-174 | the imperative loop body computes exactly one step of the specification loop |
| `Solver.FullPolPhaseOnly` | current_code/solver-multichunk.py:132-176 | the imperative solver returns exactly the specification's solution |
| `Apply.Adjugate` | current_code/solver-multichunk.py:191-193 | reversing both axes, transposing and applying the sign mask gives [[g11, -g01], [-g10, g00]] |
| `Apply.ApplyGains` | current_code/solver-multichunk.py:179-202 | a corrected array of the same shape is produced exactly when every gain's determinant is nonzero |
| `Apply.AdjugateTimes` | current_code/solver-multichunk.py:191-193 | adj(G) G = G adj(G) = det(G) I |
| `Apply.Inverse` | current_code/solver-multichunk.py:191-196 | adjugate over determinant is a two-sided inverse whenever det(G) is nonzero |
| `Apply.UndoOne` | current_code/solver-multichunk.py:198-200 | on one baseline G_l^-1 (G_l M G_m^H) G_m^-H = M |
| `Apply.RedoOne` | current_code/solver-multichunk.py:198-200 | on one baseline G_l (G_l^-1 D G_m^-H) G_m^H = D |
| `Apply.ApplyGainsUndoesCorruption` | current_code/solver-multichunk.py:191-200 | applying invertible gains to G M G^H returns M |
| `Apply.ApplyGainsThenReconstruct` | current_code/solver-multichunk.py:191-200 | re-corrupting corrected data with the same invertible gains returns the data |
| `Apply.DetDiagonal` | current_code/solver-multichunk.py:195-196 | the determinant of diag(a, b) is ab |
| `Apply.DiagonalInvertible` | current_code/solver-multichunk.py:195-196 | diag(a, b) has a nonzero determinant when a and b are nonzero |
| `Apply.PhaseGainsInvertible` | current_code/solver-multichunk.py:157-158 | gains built from phases are invertible whenever the phase factor never vanishes |
| `Apply.ApplyGainsInPlace` | current_code/solver-multichunk.py:191-202 | building the adjugates, scaling them in place by 1/det and forming the two products per baseline yields exactly ApplyGains |

## Left out

- The module-level script (`current_code/solver-multichunk.py:1-2, 205-216`) is not part of this model. It reads the measurement set, iterates over chunks, writes the result and times the run, all through a data-handling library whose source is not part of this model.
- `test/d147_test.py` is not part of this model. It runs an external binary and compares table columns, which is I/O and process control only.
- Floating point is not modelled: numbers are exact reals, and convergence or accuracy of the GN/LM step is not claimed.
- `np.exp(-1j*phases)` and `np.linalg.norm` are parameters (`cis`, `norm`), so nothing about their values is assumed beyond norm >= 0. `Apply.PhaseGainsInvertible` takes the non-vanishing of `cis` as a hypothesis.
- The console message at line 171 is not modelled. That return is the exit value `ChiDiverged`.
- The time and frequency axes, numpy broadcasting over them, and the fixed 5-D transpose at line 191 are not modelled beyond one (time, frequency) cell.
- Apply.ApplyGains: for a gain with zero determinant numpy produces inf/nan entries, and the model returns `None` instead of modelling those values. Numpy puts inf/nan only on the baselines that involve a singular antenna k (row k and column k of the output); the model returns `None` for the whole array, so the finite values of every other baseline are not modelled either.
- Solver.Solve: the model solves one (time, frequency) cell, and its `norm` parameter stands for the chunk-wide `np.linalg.norm` of lines 167 and 174, which the source takes over every cell's residual and every cell's gain change at once. A chunk of T cells is the one-cell instance with T·n antennas whose data and model are zero between antennas of different cells, so the loop properties proved here apply to the chunk as a whole; that reduction is not itself stated in Dafny.
- Solver.FullPolPhaseOnly: the exception raised for `chi_interval == 0` becomes the exit value `ChiIntervalZero`, returned with the gains of that pass.
