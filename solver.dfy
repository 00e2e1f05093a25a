/** The phase-only GN/LM control loop `full_pol_phase_only` for one
    (time, frequency) cell. `exp(-1j*phi)` is the parameter `cis` (so an
    antenna's gain entry is cis(-phi)) and `np.linalg.norm` is the parameter
    `norm`, applied to the C-order ravel of its argument. */
module Solver {
  import opened Algebra
  import opened Kernels

  type NonNeg = r: real | r >= 0.0

  /** Why the loop stopped: one value per `return` of the source, plus the
      ZeroDivisionError that `iters % chi_interval` raises for a zero interval. */
  datatype Exit =
    | MaxIterReached    // iters > maxiter
    | ChiConverged      // old_chi - chi < chi_tol
    | ChiDiverged       // old_chi < chi ("Bad solutions.")
    | DeltaGConverged   // delta_g <= min_delta_g at the loop test
    | ChiIntervalZero   // chi_interval == 0 reaches the modulo

  /** chi starts at +infinity and later holds a norm. */
  datatype Chi = Infinite | Finite(value: real)

  datatype Config = Config(minDeltaG: real, maxIter: int, chiTol: real, chiInterval: int)

  /** The keyword defaults of `full_pol_phase_only`. */
  const DefaultConfig := Config(0.001, 30, 0.000001, 5)

  /** The loop variables between two passes. */
  datatype State = State(phases: seq<Col>, gains: seq<Mat>, deltaG: real, iters: nat, chi: Chi)

  /** The returned gains, with the rest of the final state and the exit taken. */
  datatype Solution = Solution(gains: seq<Mat>, phases: seq<Col>, deltaG: real, iters: nat, chi: Chi, exit: Exit)

  datatype Step = Next(state: State) | Done(sol: Solution)

  function Abs(x: int): nat { if x < 0 then -x else x }

  function Max0(x: int): nat { if x < 0 then 0 else x }

  // ---------------------------------------------------------------------
  // Gains from phases

  /** `einsum("...ij,...jk", exp(-1j*phases), ones([1, 2]))` for one antenna:
      the column of two phase factors times a row of ones. */
  function Broadcast(cis: real -> Complex, ph: Col): Mat
  {
    var e0, e1 := cis(-ph.c0), cis(-ph.c1);
    Mat(Mul(e0, One), Mul(e0, One), Mul(e1, One), Mul(e1, One))
  }

  /** `gains[..., (0, 1), (1, 0)] = 0`. */
  function ZeroOffDiagonal(a: Mat): Mat
  {
    Mat(a.m00, Zero, Zero, a.m11)
  }

  function GainOf(cis: real -> Complex, ph: Col): Mat
  {
    ZeroOffDiagonal(Broadcast(cis, ph))
  }

  function GainsFromPhases(cis: real -> Complex, phases: seq<Col>): (r: seq<Mat>)
    ensures |r| == |phases|
  {
    seq(|phases|, p requires 0 <= p < |phases| => GainOf(cis, phases[p]))
  }

  /** Each antenna's gain is diag(cis(-phi_x), cis(-phi_y)): two independent
      phases, off-diagonal entries exactly zero. */
  lemma GainOfPhases(cis: real -> Complex, ph: Col)
    ensures GainOf(cis, ph) == Mat(cis(-ph.c0), Zero, Zero, cis(-ph.c1))
    ensures IsDiagonal(GainOf(cis, ph))
  {
    MulUnit(cis(-ph.c0));
    MulUnit(cis(-ph.c1));
  }

  predicate AllDiagonal(gains: seq<Mat>)
  {
    forall p :: 0 <= p < |gains| ==> IsDiagonal(gains[p])
  }

  lemma GainsFromPhasesDiagonal(cis: real -> Complex, phases: seq<Col>)
    ensures AllDiagonal(GainsFromPhases(cis, phases))
    ensures forall p :: 0 <= p < |phases| ==>
              GainsFromPhases(cis, phases)[p] == Mat(cis(-phases[p].c0), Zero, Zero, cis(-phases[p].c1))
  {
    forall p | 0 <= p < |phases|
      ensures GainsFromPhases(cis, phases)[p] == Mat(cis(-phases[p].c0), Zero, Zero, cis(-phases[p].c1))
    {
      GainOfPhases(cis, phases[p]);
    }
  }

  /** Lines 137-138 and 157-158 as the source runs them: broadcast every
      antenna's phase factors into a fresh array, then zero its off-diagonal
      entries in place. */
  method BuildGains(cis: real -> Complex, phases: seq<Col>) returns (gains: seq<Mat>)
    ensures gains == GainsFromPhases(cis, phases)
  {
    var a := new Mat[|phases|](p requires 0 <= p < |phases| => Broadcast(cis, phases[p]));
    forall p | 0 <= p < a.Length {
      a[p] := ZeroOffDiagonal(a[p]);
    }
    gains := a[..];
  }

  // ---------------------------------------------------------------------
  // Ravels fed to the norm

  /** The C-order ravel of an [antenna, 2, 2] array. */
  function FlatMats(s: seq<Mat>): (r: seq<Complex>)
    ensures |r| == 4 * |s|
  {
    if s == [] then [] else FlatMats(s[..|s| - 1]) + Flat4(s[|s| - 1])
  }

  /** The C-order ravel of an [antenna, antenna, 2, 2] array. */
  function FlatGrid(v: seq<seq<Mat>>): (r: seq<Complex>)
  {
    if v == [] then [] else FlatGrid(v[..|v| - 1]) + FlatMats(v[|v| - 1])
  }

  /** `delta_g - gains`, antenna by antenna. */
  function DiffGains(prev: seq<Mat>, next: seq<Mat>): (r: seq<Mat>)
    requires |prev| == |next|
    ensures |r| == |next|
  {
    seq(|next|, p requires 0 <= p < |next| => MatSub(prev[p], next[p]))
  }

  // ---------------------------------------------------------------------
  // One pass of the loop

  /** `fact`: 0.5 on even iteration counts, 1 on odd ones. */
  function Relaxation(iters: nat): (r: real)
    ensures r == 0.5 <==> iters % 2 == 0
    ensures r == 1.0 <==> iters % 2 == 1
  {
    if iters % 2 == 0 then 0.5 else 1.0
  }

  /** `phases += fact*update`. */
  function AddScaled(phases: seq<Col>, fact: real, update: seq<Col>): (r: seq<Col>)
    requires |update| == |phases|
    ensures |r| == |phases|
  {
    seq(|phases|, p requires 0 <= p < |phases| =>
      Col(phases[p].c0 + fact * update[p].c0, phases[p].c1 + fact * update[p].c1))
  }

  predicate Shapes(model: seq<seq<Mat>>, obser: seq<seq<Mat>>, jhjinv: seq<Block>)
  {
    IsGrid(model, |model|) && IsGrid(obser, |model|) && |jhjinv| == |model|
  }

  predicate Fits(model: seq<seq<Mat>>, st: State)
  {
    |st.phases| == |model| && |st.gains| == |model|
  }

  /** The body of the `while` loop: the relaxed phase step from the current
      gains, then the tests that follow it. */
  function Iterate(model: seq<seq<Mat>>, obser: seq<seq<Mat>>, cfg: Config, cis: real -> Complex,
                   norm: seq<Complex> -> NonNeg, jhjinv: seq<Block>, st: State): (r: Step)
    requires Shapes(model, obser, jhjinv) && Fits(model, st)
    ensures r.Next? ==> Fits(model, r.state) && r.state.iters == st.iters + 1 <= cfg.maxIter
    ensures r.Done? ==> |r.sol.phases| == |model| && |r.sol.gains| == |model| && r.sol.iters == st.iters + 1
  {
    var update := ComputeUpdate(model, obser, st.gains, jhjinv);
    Decide(model, obser, cfg, cis, norm, st, AddScaled(st.phases, Relaxation(st.iters), update))
  }

  /** Lines 157-174 once the phases have moved: new gains, the iteration
      cap, the chi test on multiples of the interval, and the new delta_g;
      Done for each `return`. */
  function Decide(model: seq<seq<Mat>>, obser: seq<seq<Mat>>, cfg: Config, cis: real -> Complex,
                  norm: seq<Complex> -> NonNeg, st: State, phases: seq<Col>): (r: Step)
    requires IsGrid(model, |model|) && IsGrid(obser, |model|) && Fits(model, st) && |phases| == |model|
    ensures r.Next? ==> Fits(model, r.state) && r.state.iters == st.iters + 1 <= cfg.maxIter
    ensures r.Done? ==> |r.sol.phases| == |model| && |r.sol.gains| == |model| && r.sol.iters == st.iters + 1
  {
    var oldGains := st.gains;
    var gains := GainsFromPhases(cis, phases);
    var iters := st.iters + 1;
    if iters > cfg.maxIter then
      Done(Solution(gains, phases, st.deltaG, iters, st.chi, MaxIterReached))
    else if cfg.chiInterval == 0 then
      Done(Solution(gains, phases, st.deltaG, iters, st.chi, ChiIntervalZero))
    else if iters % cfg.chiInterval == 0 then
      var chi := norm(FlatGrid(ComputeResidual(obser, model, gains)));
      if ChiStalled(st.chi, chi, cfg.chiTol) then
        Done(Solution(gains, phases, st.deltaG, iters, Finite(chi), ChiConverged))
      else if ChiRose(st.chi, chi) then
        Done(Solution(gains, phases, st.deltaG, iters, Finite(chi), ChiDiverged))
      else
        Next(State(phases, gains, norm(FlatMats(DiffGains(oldGains, gains))), iters, Finite(chi)))
    else
      Next(State(phases, gains, norm(FlatMats(DiffGains(oldGains, gains))), iters, st.chi))
  }

  /** `(old_chi - chi) < chi_tol`; with old_chi = +inf the difference is +inf. */
  predicate ChiStalled(prev: Chi, chi: real, tol: real)
  {
    prev.Finite? && prev.value - chi < tol
  }

  /** `old_chi < chi`; +inf is never below a finite chi. */
  predicate ChiRose(prev: Chi, chi: real)
  {
    prev.Finite? && prev.value < chi
  }

  /** The `while delta_g > min_delta_g` loop from state st to its return. */
  function Run(model: seq<seq<Mat>>, obser: seq<seq<Mat>>, cfg: Config, cis: real -> Complex,
               norm: seq<Complex> -> NonNeg, jhjinv: seq<Block>, st: State): (r: Solution)
    requires Shapes(model, obser, jhjinv) && Fits(model, st)
    ensures |r.phases| == |model| && |r.gains| == |model| && r.iters >= st.iters
    decreases Max0(cfg.maxIter) + 1 - st.iters
  {
    if st.deltaG > cfg.minDeltaG then
      match Iterate(model, obser, cfg, cis, norm, jhjinv, st)
      case Done(sol) => sol
      case Next(next) => Run(model, obser, cfg, cis, norm, jhjinv, next)
    else
      Solution(st.gains, st.phases, st.deltaG, st.iters, st.chi, DeltaGConverged)
  }

  /** Zero phases, their gains, delta_g = 1, iters = 0, chi = +inf. */
  function Init(cis: real -> Complex, n: nat): (st: State)
    ensures |st.phases| == n && |st.gains| == n
  {
    var phases := seq(n, p => Col(0.0, 0.0));
    State(phases, GainsFromPhases(cis, phases), 1.0, 0, Infinite)
  }

  /** full_pol_phase_only. */
  function Solve(model: seq<seq<Mat>>, obser: seq<seq<Mat>>, cfg: Config, cis: real -> Complex,
                 norm: seq<Complex> -> NonNeg): (r: Solution)
    requires IsGrid(model, |model|) && IsGrid(obser, |model|)
    ensures |r.phases| == |model| && |r.gains| == |model|
  {
    Run(model, obser, cfg, cis, norm, JhjInv(model), Init(cis, |model|))
  }

  // ---------------------------------------------------------------------
  // What the loop guarantees

  /** The loop variables at the head of any pass: the gains are those of the
      phases, chi is still +inf before the first pass, every later pass head
      has iters <= maxiter and a nonzero interval, and a finite chi was
      computed at a multiple of the interval no later than iters. */
  predicate Reachable(cfg: Config, cis: real -> Complex, n: nat, st: State)
  {
    |st.phases| == n && st.gains == GainsFromPhases(cis, st.phases)
    && (st.iters == 0 ==> st.chi == Infinite)
    && (st.iters > 0 ==> st.iters <= cfg.maxIter && cfg.chiInterval != 0)
    && (st.chi.Finite? ==> cfg.chiInterval != 0 && Abs(cfg.chiInterval) <= st.iters)
  }

  /** What every returned solution satisfies. */
  predicate Outcome(cfg: Config, cis: real -> Complex, sol: Solution)
  {
    // the returned gains are the gains of the returned phases
    sol.gains == GainsFromPhases(cis, sol.phases)
    // the cap: at most max(maxiter, 0) + 1 passes, and the cap exit is taken exactly then
    && sol.iters <= Max0(cfg.maxIter) + 1
    && (sol.exit == MaxIterReached <==> sol.iters == Max0(cfg.maxIter) + 1)
    // chi exits happen on a multiple of the interval, never at its first multiple
    && ((sol.exit == ChiConverged || sol.exit == ChiDiverged) ==>
          cfg.chiInterval != 0 && sol.iters % cfg.chiInterval == 0
          && 2 * Abs(cfg.chiInterval) <= sol.iters && sol.chi.Finite?)
    // a zero interval fails on the first pass that reaches the modulo
    && (sol.exit == ChiIntervalZero ==> cfg.chiInterval == 0 && sol.iters == 1)
    // the loop test
    && (sol.exit == DeltaGConverged ==> sol.deltaG <= cfg.minDeltaG)
    // "Bad solutions." cannot be reached with a non-negative tolerance
    && (cfg.chiTol >= 0.0 ==> sol.exit != ChiDiverged)
  }

  /** A positive multiple of c is at least |c|. */
  lemma MultipleAtLeast(x: nat, c: int)
    requires c != 0 && x % c == 0 && x > 0
    ensures x >= Abs(c)
  {
  }

  /** A positive multiple of c above |c| is at least 2|c|. */
  lemma MultipleAbove(x: nat, c: int)
    requires c != 0 && x % c == 0 && x > Abs(c)
    ensures x >= 2 * Abs(c)
  {
  }

  /** The tests after a phase step from a reachable state, when they return:
      the solution meets Outcome, one iteration later, with those phases. */
  lemma DecideDone(model: seq<seq<Mat>>, obser: seq<seq<Mat>>, cfg: Config, cis: real -> Complex,
                   norm: seq<Complex> -> NonNeg, st: State, phases: seq<Col>)
    requires IsGrid(model, |model|) && IsGrid(obser, |model|) && |phases| == |model|
    requires Reachable(cfg, cis, |model|, st)
    ensures var r := Decide(model, obser, cfg, cis, norm, st, phases);
            r.Done? ==> Outcome(cfg, cis, r.sol) && r.sol.iters == st.iters + 1
                        && r.sol.exit != DeltaGConverged && r.sol.phases == phases
  {
    var r := Decide(model, obser, cfg, cis, norm, st, phases);
    var gains := GainsFromPhases(cis, phases);
    var iters := st.iters + 1;
    if iters > cfg.maxIter {
      assert r.sol == Solution(gains, phases, st.deltaG, iters, st.chi, MaxIterReached);
      assert iters == Max0(cfg.maxIter) + 1;
    } else if cfg.chiInterval == 0 {
      assert r.sol == Solution(gains, phases, st.deltaG, iters, st.chi, ChiIntervalZero);
      assert iters == 1;
    } else if iters % cfg.chiInterval == 0 {
      var chi := norm(FlatGrid(ComputeResidual(obser, model, gains)));
      if ChiStalled(st.chi, chi, cfg.chiTol) || ChiRose(st.chi, chi) {
        MultipleAbove(iters, cfg.chiInterval);
        assert r.sol.chi == Finite(chi) && r.sol.gains == gains && r.sol.iters == iters;
      }
    }
  }

  /** The tests after a phase step from a reachable state, when they do not
      return: the next pass head is reachable, one iteration later, with
      those phases; chi is recomputed only on a multiple of the interval. */
  lemma DecideNext(model: seq<seq<Mat>>, obser: seq<seq<Mat>>, cfg: Config, cis: real -> Complex,
                   norm: seq<Complex> -> NonNeg, st: State, phases: seq<Col>)
    requires IsGrid(model, |model|) && IsGrid(obser, |model|) && |phases| == |model|
    requires Reachable(cfg, cis, |model|, st)
    ensures var r := Decide(model, obser, cfg, cis, norm, st, phases);
            r.Next? ==> Reachable(cfg, cis, |model|, r.state) && r.state.iters == st.iters + 1
                        && r.state.phases == phases
                        && (r.state.chi != st.chi ==> r.state.iters % cfg.chiInterval == 0)
  {
    var iters := st.iters + 1;
    if iters <= cfg.maxIter && cfg.chiInterval != 0 && iters % cfg.chiInterval == 0 {
      MultipleAtLeast(iters, cfg.chiInterval);
    }
  }

  /** The first chi test (old_chi = +inf) never returns. */
  lemma FirstChiTestContinues(model: seq<seq<Mat>>, obser: seq<seq<Mat>>, cfg: Config, cis: real -> Complex,
                              norm: seq<Complex> -> NonNeg, st: State, phases: seq<Col>)
    requires IsGrid(model, |model|) && IsGrid(obser, |model|) && |phases| == |model|
    requires Fits(model, st) && st.chi == Infinite
    ensures var r := Decide(model, obser, cfg, cis, norm, st, phases);
            r.Done? ==> r.sol.exit == MaxIterReached || r.sol.exit == ChiIntervalZero
  {
  }

  /** `fact` and the phase step: whether the pass returns or goes on, its
      phases are the old phases plus Relaxation(iters) times the update
      computed from the old gains, and its gains are the gains of those
      phases. */
  lemma IteratePhaseStep(model: seq<seq<Mat>>, obser: seq<seq<Mat>>, cfg: Config, cis: real -> Complex,
                         norm: seq<Complex> -> NonNeg, jhjinv: seq<Block>, st: State)
    requires Shapes(model, obser, jhjinv) && Fits(model, st)
    ensures var phases := AddScaled(st.phases, Relaxation(st.iters), ComputeUpdate(model, obser, st.gains, jhjinv));
            var r := Iterate(model, obser, cfg, cis, norm, jhjinv, st);
            (r.Next? ==> r.state.phases == phases && r.state.gains == GainsFromPhases(cis, phases))
            && (r.Done? ==> r.sol.phases == phases && r.sol.gains == GainsFromPhases(cis, phases))
  {
  }

  lemma {:induction false} RunFacts(model: seq<seq<Mat>>, obser: seq<seq<Mat>>, cfg: Config, cis: real -> Complex,
                                    norm: seq<Complex> -> NonNeg, jhjinv: seq<Block>, st: State)
    requires Shapes(model, obser, jhjinv) && Reachable(cfg, cis, |model|, st)
    ensures var sol := Run(model, obser, cfg, cis, norm, jhjinv, st);
            Outcome(cfg, cis, sol) && |sol.phases| == |model| && sol.iters >= st.iters
            && (st.deltaG > cfg.minDeltaG ==> sol.iters > st.iters)
    decreases Max0(cfg.maxIter) + 1 - st.iters
  {
    if st.deltaG > cfg.minDeltaG {
      var phases := AddScaled(st.phases, Relaxation(st.iters), ComputeUpdate(model, obser, st.gains, jhjinv));
      DecideDone(model, obser, cfg, cis, norm, st, phases);
      DecideNext(model, obser, cfg, cis, norm, st, phases);
      var r := Iterate(model, obser, cfg, cis, norm, jhjinv, st);
      if r.Next? {
        RunFacts(model, obser, cfg, cis, norm, jhjinv, r.state);
      }
    }
  }

  /** full_pol_phase_only's guarantees: Outcome, diagonal gains, and no pass
      at all exactly when min_delta_g >= 1 (delta_g starts at 1). */
  lemma SolveFacts(model: seq<seq<Mat>>, obser: seq<seq<Mat>>, cfg: Config, cis: real -> Complex,
                   norm: seq<Complex> -> NonNeg)
    requires IsGrid(model, |model|) && IsGrid(obser, |model|)
    ensures var sol := Solve(model, obser, cfg, cis, norm);
            Outcome(cfg, cis, sol) && AllDiagonal(sol.gains) && |sol.gains| == |model|
            && (sol.iters == 0 <==> cfg.minDeltaG >= 1.0)
  {
    var st := Init(cis, |model|);
    assert Reachable(cfg, cis, |model|, st);
    RunFacts(model, obser, cfg, cis, norm, JhjInv(model), st);
    var sol := Run(model, obser, cfg, cis, norm, JhjInv(model), st);
    if cfg.minDeltaG >= 1.0 {
      assert sol.iters == 0;
    }
    GainsFromPhasesDiagonal(cis, sol.phases);
  }

  /** With the default keywords the loop makes at most 31 passes and a chi
      exit can only happen after pass 10, 15, 20, 25 or 30. */
  lemma DefaultSchedule(model: seq<seq<Mat>>, obser: seq<seq<Mat>>, cis: real -> Complex,
                        norm: seq<Complex> -> NonNeg)
    requires IsGrid(model, |model|) && IsGrid(obser, |model|)
    ensures var sol := Solve(model, obser, DefaultConfig, cis, norm);
            sol.iters <= 31 && sol.exit != ChiDiverged && sol.exit != ChiIntervalZero
            && ((sol.exit == ChiConverged) ==> sol.iters % 5 == 0 && 10 <= sol.iters <= 30)
  {
    SolveFacts(model, obser, DefaultConfig, cis, norm);
  }

  // ---------------------------------------------------------------------
  // The imperative loop

  /** One pass of the `while` body (lines 148-174) on the loop variables:
      Done with the returned gains at each early `return`. */
  method Pass(model: seq<seq<Mat>>, obser: seq<seq<Mat>>, cfg: Config, cis: real -> Complex,
              norm: seq<Complex> -> NonNeg, jhjinv: seq<Block>, st: State) returns (r: Step)
    requires Shapes(model, obser, jhjinv) && Fits(model, st)
    ensures r == Iterate(model, obser, cfg, cis, norm, jhjinv, st)
  {
    var fact := Relaxation(st.iters);
    var update := ComputeUpdate(model, obser, st.gains, jhjinv);
    var phases := AddScaled(st.phases, fact, update);
    var oldGains := st.gains;
    var gains := BuildGains(cis, phases);
    var iters := st.iters + 1;
    var chi := st.chi;
    if iters > cfg.maxIter {
      return Done(Solution(gains, phases, st.deltaG, iters, chi, MaxIterReached));
    }
    if cfg.chiInterval == 0 {
      return Done(Solution(gains, phases, st.deltaG, iters, chi, ChiIntervalZero));
    }
    if iters % cfg.chiInterval == 0 {
      var oldChi := chi;
      var c := norm(FlatGrid(ComputeResidual(obser, model, gains)));
      chi := Finite(c);
      if ChiStalled(oldChi, c, cfg.chiTol) {
        return Done(Solution(gains, phases, st.deltaG, iters, chi, ChiConverged));
      }
      if ChiRose(oldChi, c) {
        return Done(Solution(gains, phases, st.deltaG, iters, chi, ChiDiverged));
      }
    }
    var deltaG := norm(FlatMats(DiffGains(oldGains, gains)));
    r := Next(State(phases, gains, deltaG, iters, chi));
  }

  /** full_pol_phase_only as the source runs it: ((J^H)J)^-1 once, then the
      `while` loop, left early when a pass returns. */
  method FullPolPhaseOnly(model: seq<seq<Mat>>, obser: seq<seq<Mat>>, cfg: Config,
                          cis: real -> Complex, norm: seq<Complex> -> NonNeg) returns (sol: Solution)
    requires IsGrid(model, |model|) && IsGrid(obser, |model|)
    ensures sol == Solve(model, obser, cfg, cis, norm)
  {
    var n := |model|;
    var phases := seq(n, p => Col(0.0, 0.0));
    var gains := BuildGains(cis, phases);
    var jhjinv := ComputeJhjInv(model);
    var st := State(phases, gains, 1.0, 0, Infinite);
    while st.deltaG > cfg.minDeltaG
      invariant Fits(model, st)
      invariant st.iters == 0 || st.iters <= cfg.maxIter
      invariant Run(model, obser, cfg, cis, norm, jhjinv, st) == Solve(model, obser, cfg, cis, norm)
      decreases Max0(cfg.maxIter) + 1 - st.iters
    {
      var r := Pass(model, obser, cfg, cis, norm, jhjinv, st);
      match r {
        case Done(s) =>
          return s;
        case Next(next) =>
          st := next;
      }
    }
    sol := Solution(st.gains, st.phases, st.deltaG, st.iters, st.chi, DeltaGConverged);
  }
}
