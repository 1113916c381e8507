/** The damped fixed-point iteration for the market equilibrium (src/equilibrium_solver.py).

    Each pass solves every creator on the talent grid at the frozen guesses (W, deltaBar),
    aggregates the weighted effort and the mean differentiation, stops when both moved by
    less than the tolerance, and otherwise blends old guesses with new aggregates. */
module EquilibriumSolver {
  import opened Outcomes
  import opened RealArith
  import opened Creators
  import opened DataFrames

  /** The starting guesses and the weight kept on the old guess. */
  const InitialW: real := 1.0
  const InitialDeltaBar: real := 0.5
  const Damping: real := 0.6

  /** The damped update 0.6 * old + 0.4 * new: it lies between the old guess and the new
      value, keeps non-negativity and, from a positive guess, positivity. */
  function Damp(prev: real, next: real): (r: real)
    ensures prev <= next ==> prev <= r <= next
    ensures next <= prev ==> next <= r <= prev
    ensures prev == next ==> r == prev
    ensures prev >= 0.0 && next >= 0.0 ==> r >= 0.0
    ensures prev > 0.0 && next >= 0.0 ==> r > 0.0
  {
    Damping * prev + (1.0 - Damping) * next
  }

  /** Every grid point is a valid talent. */
  predicate AllTalents(grid: seq<real>)
  {
    forall i :: 0 <= i < |grid| ==> 0.0 <= grid[i] <= 1.0
  }

  /** The parameters and guesses under which every pass is defined. */
  predicate PassReady(p: Params, grid: seq<real>, w: real, deltaBar: real)
  {
    WellPosed(p) && |grid| > 0 && AllTalents(grid) && w > 0.0 && deltaBar >= 0.0
  }

  /** The strategy records of one pass: one per grid point, in grid order, each solved
      at the same frozen guesses and tagged with its talent. */
  function PassRecords(p: Params, oracle: RootOracle, grid: seq<real>, w: real, deltaBar: real): (rs: seq<Record>)
    requires AllTalents(grid) && SolvableAt(p, w, deltaBar)
    ensures |rs| == |grid|
    ensures forall i :: 0 <= i < |grid| ==>
      rs[i] == Record(SolveOptimalStrategy(Creator(grid[i], p), w, deltaBar, oracle), grid[i])
  {
    seq(|grid|, i requires 0 <= i < |grid| =>
      Record(SolveOptimalStrategy(Creator(grid[i], p), w, deltaBar, oracle), grid[i]))
  }

  /** The `g` column: each record's novelty multiplier against the pre-update guess. */
  function GColumn(p: Params, rs: seq<Record>, deltaBar: real): (g: seq<real>)
    requires Normalizer(p, deltaBar) != 0.0
    ensures |g| == |rs|
  {
    if |rs| == 0 then []
    else GColumn(p, rs[..|rs| - 1], deltaBar) + [NoveltyMultiplier(p, rs[|rs| - 1].strategy.deltaStar, deltaBar)]
  }

  /** Entry i of the `g` column is record i's novelty multiplier. */
  lemma {:induction false} GColumnAt(p: Params, rs: seq<Record>, deltaBar: real)
    requires Normalizer(p, deltaBar) != 0.0
    ensures var g := GColumn(p, rs, deltaBar);
      forall i :: 0 <= i < |rs| ==> g[i] == NoveltyMultiplier(p, rs[i].strategy.deltaStar, deltaBar)
  {
    if |rs| > 0 {
      var front := rs[..|rs| - 1];
      GColumnAt(p, front, deltaBar);
      forall i | 0 <= i < |front|
        ensures rs[i] == front[i]
      {
      }
    }
  }

  /** The `w` column: effective effort, effort times novelty multiplier. */
  function WColumn(rs: seq<Record>, g: seq<real>): (w: seq<real>)
    requires |g| == |rs|
    ensures |w| == |rs|
  {
    if |rs| == 0 then []
    else WColumn(rs[..|rs| - 1], g[..|g| - 1]) + [rs[|rs| - 1].strategy.eStar * g[|g| - 1]]
  }

  /** Entry i of the `w` column is record i's effort times entry i of `g`. */
  lemma {:induction false} WColumnAt(rs: seq<Record>, g: seq<real>)
    requires |g| == |rs|
    ensures var w := WColumn(rs, g);
      forall i :: 0 <= i < |rs| ==> w[i] == rs[i].strategy.eStar * g[i]
  {
    if |rs| > 0 {
      var front, gFront := rs[..|rs| - 1], g[..|g| - 1];
      WColumnAt(front, gFront);
      forall i | 0 <= i < |front|
        ensures rs[i] == front[i] && g[i] == gFront[i]
      {
      }
    }
  }

  /** Everything one pass computes from its guesses. */
  datatype Pass = Pass(wGuess: real, deltaBarGuess: real, records: seq<Record>,
                       g: seq<real>, w: seq<real>, wNew: real, deltaBarNew: real)

  /** One pass at the guesses (w, deltaBar): the new aggregates are the mean effective
      effort and the mean differentiation, both non-negative. */
  function RunPass(p: Params, oracle: RootOracle, grid: seq<real>, w: real, deltaBar: real): (pr: Pass)
    requires PassReady(p, grid, w, deltaBar)
    ensures pr.wGuess == w && pr.deltaBarGuess == deltaBar
    ensures (WellPosedSolvable(p, w, deltaBar);
      pr.records == PassRecords(p, oracle, grid, w, deltaBar)
      && pr.g == GColumn(p, pr.records, deltaBar) && pr.w == WColumn(pr.records, pr.g))
    ensures |pr.records| == |grid| > 0
    ensures pr.wNew == Mean(pr.w) && pr.deltaBarNew == Mean(DeltaColumn(pr.records))
    ensures pr.wNew >= 0.0 && pr.deltaBarNew >= 0.0
  {
    WellPosedSolvable(p, w, deltaBar);
    var rs := PassRecords(p, oracle, grid, w, deltaBar);
    var g := GColumn(p, rs, deltaBar);
    var wc := WColumn(rs, g);
    EffectiveEffortNonNegative(p, oracle, grid, w, deltaBar, rs, g, wc);
    MeanNonNegative(wc);
    MeanNonNegative(DeltaColumn(rs));
    Pass(w, deltaBar, rs, g, wc, Mean(wc), Mean(DeltaColumn(rs)))
  }

  /** Every creator's effective effort in a pass is non-negative. */
  lemma EffectiveEffortNonNegative(p: Params, oracle: RootOracle, grid: seq<real>, w: real, deltaBar: real,
                                    rs: seq<Record>, g: seq<real>, wc: seq<real>)
    requires PassReady(p, grid, w, deltaBar)
    requires (WellPosedSolvable(p, w, deltaBar);
      rs == PassRecords(p, oracle, grid, w, deltaBar) && g == GColumn(p, rs, deltaBar) && wc == WColumn(rs, g))
    ensures forall i :: 0 <= i < |wc| ==> wc[i] >= 0.0
  {
    WellPosedSolvable(p, w, deltaBar);
    GColumnAt(p, rs, deltaBar);
    WColumnAt(rs, g);
    forall i | 0 <= i < |wc|
      ensures wc[i] >= 0.0
    {
      var s := rs[i].strategy;
      NoveltyMultiplierPositive(p, s.deltaStar, deltaBar);
      MulNonNegative(s.eStar, g[i]);
    }
  }

  /** Within one pass, at the same frozen guesses, lowering the fixed cost of adoption never
      lowers the population's adoption rate: every adopter keeps adopting. */
  lemma PassAdoptionMonotoneInFixedCost(p: Params, f: real, oracle: RootOracle, grid: seq<real>,
                                        w: real, deltaBar: real)
    requires AllTalents(grid) && |grid| > 0 && SolvableAt(p, w, deltaBar)
    requires f <= p.fBaseline && PhiOnly(oracle)
    ensures var p' := p.(fBaseline := f);
      SolvableAt(p', w, deltaBar)
      && Mean(AdoptionColumn(PassRecords(p', oracle, grid, w, deltaBar)))
         >= Mean(AdoptionColumn(PassRecords(p, oracle, grid, w, deltaBar)))
  {
    var p' := p.(fBaseline := f);
    assert Normalizer(p', deltaBar) == Normalizer(p, deltaBar);
    var before := AdoptionColumn(PassRecords(p, oracle, grid, w, deltaBar));
    var after := AdoptionColumn(PassRecords(p', oracle, grid, w, deltaBar));
    forall i | 0 <= i < |grid|
      ensures before[i] <= after[i]
    {
      var c := Creator(grid[i], p);
      assert Creator(grid[i], p') == Creator(c.theta, c.params.(fBaseline := f));
      AdoptionMonotoneInFixedCost(c, f, w, deltaBar, oracle);
    }
    MeanMonotone(before, after);
  }

  /** The convergence test: both aggregates moved by strictly less than the tolerance. */
  predicate Converged(pr: Pass, tolerance: real)
  {
    Abs(pr.wNew - pr.wGuess) < tolerance && Abs(pr.deltaBarNew - pr.deltaBarGuess) < tolerance
  }

  function Last<T>(s: seq<T>): T
    requires |s| > 0
  {
    s[|s| - 1]
  }

  /** A pass as a function of the guesses alone. Outside the guesses the iteration can
      reach (W > 0, deltaBar >= 0) it returns an empty placeholder that is never used. */
  type Step = (real, real) -> Pass

  /** What the iteration needs of a pass: it records its own guesses and produces
      non-negative aggregates from any reachable guesses. */
  ghost predicate StepBehaves(step: Step)
  {
    forall w: real, deltaBar: real {:trigger step(w, deltaBar)} :: w > 0.0 && deltaBar >= 0.0 ==>
      step(w, deltaBar).wGuess == w && step(w, deltaBar).deltaBarGuess == deltaBar
      && step(w, deltaBar).wNew >= 0.0 && step(w, deltaBar).deltaBarNew >= 0.0
  }

  /** `step` is the solver's pass over the talent grid wherever that pass is defined. */
  ghost predicate IsPassStep(step: Step, p: Params, oracle: RootOracle, grid: seq<real>)
  {
    forall w: real, deltaBar: real {:trigger RunPass(p, oracle, grid, w, deltaBar)} ::
      PassReady(p, grid, w, deltaBar) ==> step(w, deltaBar) == RunPass(p, oracle, grid, w, deltaBar)
  }

  /** The solver's pass over the talent grid, as a step; it behaves as the iteration needs.
      Wherever PassReady fails (a talent outside [0,1], W <= 0, deltaBar < 0, parameters
      outside the well-posed domain or an empty grid) a placeholder stands in; the solver
      never reaches it (IterationIsPasses). */
  function PassStep(p: Params, oracle: RootOracle, grid: seq<real>): (step: Step)
    ensures StepBehaves(step) && IsPassStep(step, p, oracle, grid)
  {
    (w: real, deltaBar: real) =>
      if PassReady(p, grid, w, deltaBar) then RunPass(p, oracle, grid, w, deltaBar)
      else Pass(w, deltaBar, [], [], [], 0.0, 0.0)
  }

  /** The passes run from the guesses (w, deltaBar) with `budget` passes left: a pass that
      converges, or the last one the budget allows, ends the sequence; otherwise it
      continues from the damped guesses. */
  function Trace(step: Step, tolerance: real, w: real, deltaBar: real, budget: nat): (t: seq<Pass>)
    requires StepBehaves(step) && w > 0.0 && deltaBar >= 0.0 && budget >= 1
    ensures 1 <= |t| <= budget
    ensures t[0] == step(w, deltaBar)
    decreases budget
  {
    var pr := step(w, deltaBar);
    if Converged(pr, tolerance) || budget == 1 then
      [pr]
    else
      [pr] + Trace(step, tolerance, Damp(w, pr.wNew), Damp(deltaBar, pr.deltaBarNew), budget - 1)
  }

  /** The iteration goes on only past passes that did not converge. */
  lemma {:induction false} TraceStopsAtConvergence(step: Step, tolerance: real, w: real, deltaBar: real, budget: nat)
    requires StepBehaves(step) && w > 0.0 && deltaBar >= 0.0 && budget >= 1
    ensures var t := Trace(step, tolerance, w, deltaBar, budget);
      forall i :: 0 <= i < |t| - 1 ==> !Converged(t[i], tolerance)
    decreases budget
  {
    var t := Trace(step, tolerance, w, deltaBar, budget);
    var pr := step(w, deltaBar);
    if !(Converged(pr, tolerance) || budget == 1) {
      var w', deltaBar' := Damp(w, pr.wNew), Damp(deltaBar, pr.deltaBarNew);
      var rest := Trace(step, tolerance, w', deltaBar', budget - 1);
      TraceStopsAtConvergence(step, tolerance, w', deltaBar', budget - 1);
      assert var t2 := Trace(step, tolerance, w', deltaBar', budget - 1);
        forall i :: 0 <= i < |t2| - 1 ==> !Converged(t2[i], tolerance);
      assert forall k :: 0 <= k < |rest| - 1 ==> !Converged(rest[k], tolerance);
      assert t == [pr] + rest;
      forall i | 1 <= i < |t| - 1
        ensures !Converged(t[i], tolerance)
      {
        assert t[i] == rest[i - 1];
        assert 0 <= i - 1 < |rest| - 1;
        assert !Converged(rest[i - 1], tolerance);
      }
    }
  }

  /** Every pass of the trace, not only the first, is the step at its own guesses. */
  lemma {:induction false} TraceIsSteps(step: Step, tolerance: real, w: real, deltaBar: real, budget: nat)
    requires StepBehaves(step) && w > 0.0 && deltaBar >= 0.0 && budget >= 1
    ensures var t := Trace(step, tolerance, w, deltaBar, budget);
      forall i :: 0 <= i < |t| ==> t[i] == step(t[i].wGuess, t[i].deltaBarGuess)
    decreases budget
  {
    var t := Trace(step, tolerance, w, deltaBar, budget);
    var pr := step(w, deltaBar);
    assert pr.wGuess == w && pr.deltaBarGuess == deltaBar;
    if !(Converged(pr, tolerance) || budget == 1) {
      var w', deltaBar' := Damp(w, pr.wNew), Damp(deltaBar, pr.deltaBarNew);
      var rest := Trace(step, tolerance, w', deltaBar', budget - 1);
      TraceIsSteps(step, tolerance, w', deltaBar', budget - 1);
      assert var t2 := Trace(step, tolerance, w', deltaBar', budget - 1);
        forall k :: 0 <= k < |t2| ==> t2[k] == step(t2[k].wGuess, t2[k].deltaBarGuess);
      assert forall k :: 0 <= k < |rest| ==> rest[k] == step(rest[k].wGuess, rest[k].deltaBarGuess);
      assert t == [pr] + rest;
      forall i | 1 <= i < |t|
        ensures t[i] == step(t[i].wGuess, t[i].deltaBarGuess)
      {
        assert t[i] == rest[i - 1];
      }
    }
  }

  /** The last pass either converged or used up the budget. */
  lemma {:induction false} TraceEndsProperly(step: Step, tolerance: real, w: real, deltaBar: real, budget: nat)
    requires StepBehaves(step) && w > 0.0 && deltaBar >= 0.0 && budget >= 1
    ensures var t := Trace(step, tolerance, w, deltaBar, budget);
      Converged(Last(t), tolerance) || |t| == budget
    decreases budget
  {
    var t := Trace(step, tolerance, w, deltaBar, budget);
    var pr := step(w, deltaBar);
    if !(Converged(pr, tolerance) || budget == 1) {
      var w', deltaBar' := Damp(w, pr.wNew), Damp(deltaBar, pr.deltaBarNew);
      var rest := Trace(step, tolerance, w', deltaBar', budget - 1);
      TraceEndsProperly(step, tolerance, w', deltaBar', budget - 1);
      assert t == [pr] + rest;
      assert Last(t) == Last(rest);
    }
  }

  /** Each pass after the first starts from the damped guesses of the one before. */
  ghost predicate DampedChain(t: seq<Pass>)
  {
    forall i, j {:trigger t[i], t[j]} :: 0 <= i < j < |t| && j == i + 1 ==>
      t[j].wGuess == Damp(t[i].wGuess, t[i].wNew)
      && t[j].deltaBarGuess == Damp(t[i].deltaBarGuess, t[i].deltaBarNew)
  }

  /** The passes are chained by the damped update, and every guess stays positive (W) or
      non-negative (deltaBar). */
  lemma {:induction false} TraceIsDamped(step: Step, tolerance: real, w: real, deltaBar: real, budget: nat)
    requires StepBehaves(step) && w > 0.0 && deltaBar >= 0.0 && budget >= 1
    ensures var t := Trace(step, tolerance, w, deltaBar, budget);
      DampedChain(t) && forall i :: 0 <= i < |t| ==> t[i].wGuess > 0.0 && t[i].deltaBarGuess >= 0.0
    decreases budget
  {
    var t := Trace(step, tolerance, w, deltaBar, budget);
    var pr := step(w, deltaBar);
    if !(Converged(pr, tolerance) || budget == 1) {
      var w', deltaBar' := Damp(w, pr.wNew), Damp(deltaBar, pr.deltaBarNew);
      var rest := Trace(step, tolerance, w', deltaBar', budget - 1);
      TraceIsDamped(step, tolerance, w', deltaBar', budget - 1);
      assert t == [pr] + rest;
      forall i, j | 0 <= i < j < |t| && j == i + 1
        ensures t[j].wGuess == Damp(t[i].wGuess, t[i].wNew)
        ensures t[j].deltaBarGuess == Damp(t[i].deltaBarGuess, t[i].deltaBarNew)
      {
        assert t[j] == rest[j - 1];
        if i > 0 {
          assert t[i] == rest[i - 1];
        }
      }
      forall i | 1 <= i < |t|
        ensures t[i].wGuess > 0.0 && t[i].deltaBarGuess >= 0.0
      {
        assert t[i] == rest[i - 1];
      }
    }
  }

  /** A pass that reproduces its own guesses ends the iteration there, whatever the budget. */
  lemma FixedPointStopsImmediately(step: Step, tolerance: real, w: real, deltaBar: real, budget: nat)
    requires StepBehaves(step) && w > 0.0 && deltaBar >= 0.0 && budget >= 1 && tolerance > 0.0
    requires step(w, deltaBar).wNew == w && step(w, deltaBar).deltaBarNew == deltaBar
    ensures Trace(step, tolerance, w, deltaBar, budget) == [step(w, deltaBar)]
  {
    assert Converged(step(w, deltaBar), tolerance);
  }

  /** Damping never overshoots: a bound that the first guesses and every pass's new
      aggregates respect is respected by every guess. */
  lemma {:induction false} GuessesStayBelow(t: seq<Pass>, wMax: real, deltaBarMax: real)
    requires DampedChain(t) && |t| > 0
    requires t[0].wGuess <= wMax && t[0].deltaBarGuess <= deltaBarMax
    requires forall i :: 0 <= i < |t| ==> t[i].wNew <= wMax && t[i].deltaBarNew <= deltaBarMax
    ensures forall i :: 0 <= i < |t| ==> t[i].wGuess <= wMax && t[i].deltaBarGuess <= deltaBarMax
  {
    if |t| > 1 {
      var front := t[..|t| - 1];
      assert DampedChain(front);
      GuessesStayBelow(front, wMax, deltaBarMax);
      var prev := t[|t| - 2];
      assert prev == front[|t| - 2];
      assert t[|t| - 1].wGuess == Damp(prev.wGuess, prev.wNew);
    }
  }

  /** The full iteration over the talent grid from the fixed starting guesses. */
  function Iteration(p: Params, oracle: RootOracle, grid: seq<real>, tolerance: real, maxIterations: nat): (t: seq<Pass>)
    requires maxIterations >= 1
    ensures 1 <= |t| <= maxIterations
    ensures t[0].wGuess == InitialW && t[0].deltaBarGuess == InitialDeltaBar
  {
    Trace(PassStep(p, oracle, grid), tolerance, InitialW, InitialDeltaBar, maxIterations)
  }

  /** Every pass of the iteration, the returned last one included, is the solver's pass at
      its own guesses, and those guesses keep every pass defined. */
  lemma IterationIsPasses(p: Params, oracle: RootOracle, grid: seq<real>, tolerance: real, maxIterations: nat)
    requires WellPosed(p) && |grid| > 0 && AllTalents(grid) && maxIterations >= 1
    ensures var t := Iteration(p, oracle, grid, tolerance, maxIterations);
      forall i :: 0 <= i < |t| ==>
        PassReady(p, grid, t[i].wGuess, t[i].deltaBarGuess)
        && t[i] == RunPass(p, oracle, grid, t[i].wGuess, t[i].deltaBarGuess)
  {
    var step := PassStep(p, oracle, grid);
    var t := Iteration(p, oracle, grid, tolerance, maxIterations);
    TraceIsSteps(step, tolerance, InitialW, InitialDeltaBar, maxIterations);
    TraceIsDamped(step, tolerance, InitialW, InitialDeltaBar, maxIterations);
    forall i | 0 <= i < |t|
      ensures PassReady(p, grid, t[i].wGuess, t[i].deltaBarGuess)
      ensures t[i] == RunPass(p, oracle, grid, t[i].wGuess, t[i].deltaBarGuess)
    {
      assert t[i] == step(t[i].wGuess, t[i].deltaBarGuess);
    }
  }

  /** The pass the solver returns: its records are one per grid point solved at its
      guesses, and its new aggregates are the means of its `w` column and of its
      differentiations. */
  lemma ReturnedPass(p: Params, oracle: RootOracle, grid: seq<real>, tolerance: real, maxIterations: nat)
    requires WellPosed(p) && |grid| > 0 && AllTalents(grid) && maxIterations >= 1
    ensures var pr := Last(Iteration(p, oracle, grid, tolerance, maxIterations));
      PassReady(p, grid, pr.wGuess, pr.deltaBarGuess)
      && (WellPosedSolvable(p, pr.wGuess, pr.deltaBarGuess);
          pr.records == PassRecords(p, oracle, grid, pr.wGuess, pr.deltaBarGuess))
      && |pr.w| == |grid| && pr.wNew == Mean(pr.w) && pr.deltaBarNew == Mean(DeltaColumn(pr.records))
  {
    var t := Iteration(p, oracle, grid, tolerance, maxIterations);
    IterationIsPasses(p, oracle, grid, tolerance, maxIterations);
    assert Last(t) == t[|t| - 1];
  }

  /** A pass that converges, or the last one the budget allows, is the last pass. */
  lemma IterationStops(step: Step, tolerance: real, whole: seq<Pass>, done: seq<Pass>,
                       w: real, deltaBar: real, budget: nat)
    requires StepBehaves(step) && w > 0.0 && deltaBar >= 0.0 && budget >= 1
    requires whole == done + Trace(step, tolerance, w, deltaBar, budget)
    requires Converged(step(w, deltaBar), tolerance) || budget == 1
    ensures |whole| > 0 && Last(whole) == step(w, deltaBar)
  {
  }

  /** A pass that does not converge, with budget left, hands the rest of the iteration to
      the damped guesses. */
  lemma IterationAdvances(step: Step, tolerance: real, whole: seq<Pass>, done: seq<Pass>,
                          w: real, deltaBar: real, budget: nat)
    requires StepBehaves(step) && w > 0.0 && deltaBar >= 0.0 && budget > 1
    requires whole == done + Trace(step, tolerance, w, deltaBar, budget)
    requires !Converged(step(w, deltaBar), tolerance)
    ensures var pr := step(w, deltaBar);
      Damp(w, pr.wNew) > 0.0 && Damp(deltaBar, pr.deltaBarNew) >= 0.0
      && whole == (done + [pr]) + Trace(step, tolerance, Damp(w, pr.wNew), Damp(deltaBar, pr.deltaBarNew), budget - 1)
  {
    var pr := step(w, deltaBar);
    var next := Trace(step, tolerance, Damp(w, pr.wNew), Damp(deltaBar, pr.deltaBarNew), budget - 1);
    assert done + ([pr] + next) == (done + [pr]) + next;
  }

  /** The inner loop of a pass: construct each creator on the grid, in order, and solve it
      at the frozen guesses. Constructing a creator with a talent outside [0,1] raises,
      which aborts the pass. */
  method SolvePopulation(p: Params, oracle: RootOracle, grid: seq<real>, w: real, deltaBar: real)
    returns (r: Result<seq<Record>, CreatorError>)
    requires WellPosed(p) && w > 0.0 && deltaBar >= 0.0
    ensures r.Err? <==> !AllTalents(grid)
    ensures r.Ok? ==> (WellPosedSolvable(p, w, deltaBar); r.value == PassRecords(p, oracle, grid, w, deltaBar))
  {
    WellPosedSolvable(p, w, deltaBar);
    var results: seq<Record> := [];
    var j := 0;
    while j < |grid|
      invariant 0 <= j <= |grid|
      invariant |results| == j
      invariant forall k :: 0 <= k < j ==> 0.0 <= grid[k] <= 1.0
      invariant forall k :: 0 <= k < j ==>
        results[k] == Record(SolveOptimalStrategy(Creator(grid[k], p), w, deltaBar, oracle), grid[k])
    {
      var creator := NewCreator(grid[j], p);
      if creator.Err? {
        return Err(creator.error);
      }
      var strategy := SolveOptimalStrategy(creator.value, w, deltaBar, oracle);
      results := results + [Record(strategy, grid[j])];
      j := j + 1;
    }
    return Ok(results);
  }

  /** What the solver returns: the last pass's table and its undamped aggregates. */
  datatype Equilibrium = Equilibrium(table: Frame, wEq: real, deltaBarEq: real)

  /** The returned table holds the pass's records with exactly its `g` and `w` columns
      added, and the aggregates are the pass's new, undamped ones. */
  ghost predicate Describes(e: Equilibrium, pr: Pass)
    reads e.table
  {
    e.table.records == pr.records && e.table.columns == map["g" := pr.g, "w" := pr.w]
    && e.table.Valid() && e.wEq == pr.wNew && e.deltaBarEq == pr.deltaBarNew
  }

  /** The table of one pass: its records with the `g` and `w` columns added, and the new
      aggregates, exactly as RunPass computes them. */
  method BuildTable(p: Params, oracle: RootOracle, grid: seq<real>, w: real, deltaBar: real, results: seq<Record>)
    returns (e: Equilibrium)
    requires PassReady(p, grid, w, deltaBar)
    requires results == RunPass(p, oracle, grid, w, deltaBar).records
    ensures Describes(e, RunPass(p, oracle, grid, w, deltaBar))
  {
    WellPosedSolvable(p, w, deltaBar);
    var table := new Frame(results);
    var g := GColumn(p, results, deltaBar);
    table.AssignColumn("g", g);
    var wColumn := WColumn(results, g);
    table.AssignColumn("w", wColumn);
    e := Equilibrium(table, Mean(wColumn), Mean(DeltaColumn(results)));
  }

  /** One pass of the solver at the frozen guesses: a talent outside [0,1] anywhere on the
      grid fails it; otherwise it yields the pass's table and new aggregates. */
  method SolvePass(p: Params, oracle: RootOracle, grid: seq<real>, ghost step: Step, w: real, deltaBar: real)
    returns (r: Result<Equilibrium, CreatorError>)
    requires WellPosed(p) && |grid| > 0 && w > 0.0 && deltaBar >= 0.0
    requires IsPassStep(step, p, oracle, grid)
    ensures r.Err? <==> !AllTalents(grid)
    ensures r.Ok? ==> AllTalents(grid) && Describes(r.value, step(w, deltaBar))
  {
    var population := SolvePopulation(p, oracle, grid, w, deltaBar);
    if population.Err? {
      return Err(population.error);
    }
    var e := BuildTable(p, oracle, grid, w, deltaBar, population.value);
    return Ok(e);
  }

  /** The loop of the solver over any step that is the solver's pass: passes from the
      starting guesses, damped between passes, until one converges or the budget of
      passes is spent. */
  method Iterate(p: Params, oracle: RootOracle, grid: seq<real>, ghost step: Step, tolerance: real, maxIterations: nat)
    returns (r: Result<Equilibrium, CreatorError>)
    requires WellPosed(p) && |grid| > 0 && maxIterations >= 1
    requires StepBehaves(step) && IsPassStep(step, p, oracle, grid)
    ensures r.Err? <==> !AllTalents(grid)
    ensures r.Ok? ==>
      AllTalents(grid) && Describes(r.value, Last(Trace(step, tolerance, InitialW, InitialDeltaBar, maxIterations)))
  {
    var wGuess := InitialW;
    var deltaBarGuess := InitialDeltaBar;
    var result: Option<Equilibrium> := None;  // unbound until the first pass completes
    ghost var whole := Trace(step, tolerance, InitialW, InitialDeltaBar, maxIterations);
    ghost var done: seq<Pass> := [];
    var i := 0;
    while i < maxIterations
      invariant 0 <= i <= maxIterations
      invariant wGuess > 0.0 && deltaBarGuess >= 0.0
      invariant 0 < i ==> AllTalents(grid) && result.Some?
      invariant i < maxIterations ==>
        whole == done + Trace(step, tolerance, wGuess, deltaBarGuess, maxIterations - i)
      invariant 0 < i == maxIterations ==> Describes(result.value, Last(whole))
    {
      var pass := SolvePass(p, oracle, grid, step, wGuess, deltaBarGuess);
      if pass.Err? {
        return Err(pass.error);
      }
      var e := pass.value;
      ghost var pr := step(wGuess, deltaBarGuess);
      result := Some(e);
      if Abs(e.wEq - wGuess) < tolerance && Abs(e.deltaBarEq - deltaBarGuess) < tolerance {
        IterationStops(step, tolerance, whole, done, wGuess, deltaBarGuess, maxIterations - i);
        return Ok(e);
      }
      if i + 1 == maxIterations {
        IterationStops(step, tolerance, whole, done, wGuess, deltaBarGuess, maxIterations - i);
      } else {
        IterationAdvances(step, tolerance, whole, done, wGuess, deltaBarGuess, maxIterations - i);
      }
      done := done + [pr];
      wGuess, deltaBarGuess := Damp(wGuess, e.wEq), Damp(deltaBarGuess, e.deltaBarEq);
      i := i + 1;
    }
    return Ok(result.value);
  }

  /** The solver: a talent outside [0,1] anywhere on the grid fails on the first pass;
      otherwise the result is the last pass of the iteration (the first that converged, or
      the last the budget allows), with the table holding that pass's records and its `g`
      and `w` columns, and the undamped new aggregates.  That pass is the solver's pass at
      its own guesses: one record per grid point, W_eq the mean of the returned `w` column
      and the returned deltaBar the mean differentiation of the returned records. */
  method FindEquilibrium(p: Params, oracle: RootOracle, grid: seq<real>, tolerance: real, maxIterations: nat)
    returns (r: Result<Equilibrium, CreatorError>)
    requires WellPosed(p) && |grid| > 0 && maxIterations >= 1
    ensures r.Err? <==> !AllTalents(grid)
    ensures r.Ok? ==> AllTalents(grid) && Describes(r.value, Last(Iteration(p, oracle, grid, tolerance, maxIterations)))
    ensures r.Ok? ==>
      var pr := Last(Iteration(p, oracle, grid, tolerance, maxIterations));
      PassReady(p, grid, pr.wGuess, pr.deltaBarGuess)
      && (WellPosedSolvable(p, pr.wGuess, pr.deltaBarGuess);
          r.value.table.records == PassRecords(p, oracle, grid, pr.wGuess, pr.deltaBarGuess))
      && "w" in r.value.table.columns && |r.value.table.columns["w"]| == |grid|
      && r.value.wEq == Mean(r.value.table.columns["w"])
      && r.value.deltaBarEq == Mean(DeltaColumn(r.value.table.records))
  {
    r := Iterate(p, oracle, grid, PassStep(p, oracle, grid), tolerance, maxIterations);
    if r.Ok? {
      ReturnedPass(p, oracle, grid, tolerance, maxIterations);
    }
  }
}
