# Creator-economy equilibrium, modelled in Dafny

This project models the core of a creator-economy equilibrium model. In that model
a population of content creators differ by talent θ in [0,1]. Each creator chooses:

- whether to adopt AI production (A ∈ {0,1});
- an effort e;
- a differentiation δ.

Each creator responds to the aggregate effective effort W and the mean
differentiation δ̄. A damped fixed-point iteration looks for a W and δ̄ that
reproduce themselves. A welfare analysis then splits total welfare into three
parts: creator rent, platform profit and consumer surplus. It also reports the Gini
coefficient of creator payoffs.

Modules:

- `Creators` (`creator.dfy`) is the per-creator best response, written as pure functions and lemmas:
  - the linear value score;
  - the novelty multiplier;
  - the closed-form effort, which is 0 when W ≤ 0;
  - the differentiation root, clamped at 0 and 0 when the root finder fails;
  - the quadratic-cost payoff;
  - the choice between the two adoption regimes, with ties going to adoption.
- `EquilibriumSolver` (`equilibrium_solver.dfy`) is the damped iteration:
  - `Trace` specifies the sequence of passes;
  - `FindEquilibrium` (through `Iterate`) is the solver loop, proved against `Trace`;
  - `SolvePopulation` is the inner loop, proved against `PassRecords`.
- `DataFrames` (`data_frame.dfy`) holds the strategy records and column means, and the
  table as a class `Frame` whose column map is assigned in place.
- `Welfare` (`welfare.dfy`) holds:
  - the sorted-sum Gini coefficient, with an insertion sort proved to give the unique sorted permutation;
  - the welfare report;
  - `RunWelfareAnalysis`, which adds the `s` and `v` columns to the table in place.
- `RealArith` and `Outcomes` are shared helpers: division, ordered-field facts, and `Option`/`Result`.

Python floats are mathematical reals. The root finder (scipy's `brentq`) is a parameter
`oracle: PhiClosure -> Option<real>`. `None` stands for the `ValueError` it raises.
`BrentqContract` states what the code relies on: a returned root lies in [0, 100], and
the finder fails when φ has the same sign at both ends. The talent grid is an input
sequence.

Differentiating the payoff (src/creator.py:48-54) in δ, with n = 1 + λδ̄, gives the
condition δ = (β2·g + λv/n)·e*/(c_δ·W). The code's ψ (src/creator.py:38) is
(β2 + λv/n)·g·e*/(c_δ·W). The two differ by λ·v·(g − 1)·e*/(n·c_δ·W); where g > 0 they
agree exactly where λ·v·(δ − δ̄) = 0. The model follows the code's ψ.

## Model

| member | source | states |
|---|---|---|
| Creators.NewCreator | src/creator.py:9-14 | construction succeeds exactly when 0 ≤ θ ≤ 1 (otherwise the talent error), and stores θ and the parameters unchanged |
| Creators.Value | src/creator.py:16-17 | no contract of its own: the linear value score β0 + β1·θ + β2·δ; its properties are stated by ValueAtLeastIntercept and ValueIncreasing |
| Creators.ValueAtLeastIntercept | src/creator.py:16-17 | with non-negative weights, talent and differentiation, the value score is at least β0 |
| Creators.ValueIncreasing | src/creator.py:16-17 | with non-negative weights the value score never falls as talent and differentiation grow, and strictly rises when a coordinate with a positive weight strictly grows |
| Creators.NoveltyMultiplier | src/creator.py:19-21 | no contract of its own: (1 + λ·δ)/(1 + λ·δ̄); its properties are stated by NoveltyMultiplierAtMean, NoveltyMultiplierPositive and NoveltyMultiplierOrder |
| Creators.NoveltyMultiplierAtMean | src/creator.py:19-21 | differentiating exactly at the population mean gives multiplier 1, for any λ |
| Creators.NoveltyMultiplierPositive | src/creator.py:19-21 | with λ ≥ 0, δ ≥ 0 and a positive normaliser the multiplier is positive |
| Creators.NoveltyMultiplierOrder | src/creator.py:19-21 | with λ > 0 the multiplier is > 1, < 1 or = 1 exactly when δ is above, below or equal to δ̄ (each an iff) |
| Creators.BestResponseEffort | src/creator.py:23-28 | effort is exactly 0 whenever W ≤ 0, whatever the other arguments |
| Creators.EffortFirstOrderCondition | src/creator.py:23-28 | for W > 0 effort solves e·(c_e·W) = v·g with the regime's own unit cost, and is ≥ 0 when v, g ≥ 0 and c_e > 0 |
| Creators.EffortNonNegative | src/creator.py:23-28 | for well-posed parameters, W > 0, δ̄ ≥ 0 and δ ≥ 0 the effort is non-negative |
| Creators.EffortIncreasingInTalent | src/creator.py:23-28 | for well-posed parameters with β1 > 0, W > 0, δ̄ ≥ 0 and δ ≥ 0, a more talented creator exerts strictly more effort at the same differentiation, regime and aggregates |
| Creators.Phi | src/creator.py:33-39 | no contract of its own: δ − ψ(δ), with ψ computed by PhiOfTerms from the value score, multiplier and normaliser at δ; its properties are stated by DifferentiationInBracket and PhiIgnoresFixedCost |
| Creators.BestResponseDifferentiation | src/creator.py:30-46 | never negative; 0 when the root finder fails; max(0, root) when it returns a root |
| Creators.DifferentiationInBracket | src/creator.py:41-46 | under the root finder's contract the result lies in [0, 100], equals the root when one is found, and is 0 when φ has the same sign at both ends |
| Creators.CalculatePayoff | src/creator.py:48-54 | when W ≤ 0 the share is 0 and the payoff is exactly minus the cost |
| Creators.Cost | src/creator.py:53 | no contract of its own: c_e/2·e² + c_δ/2·δ² + f·A; its properties are stated by CostAtLeastFixed and PayoffShiftsWithFixedCost |
| Creators.CostAtLeastFixed | src/creator.py:53 | with non-negative cost coefficients the cost is at least f·A, and for A = 0 it holds no fixed cost |
| Creators.PayoffIsQuadratic | src/creator.py:48-54 | for W > 0 the payoff is the concave quadratic k·e − c_e/2·e² − rest in the effort |
| Creators.EffortMaximizesPayoff | src/creator.py:48-54 | the closed-form effort maximises the payoff over all efforts, at the same differentiation, regime and aggregates |
| Creators.RegimeStrategy | src/creator.py:56-63 | one regime's record is its differentiation, the effort at that differentiation, and the payoff of that pair; the effort is ≥ 0 in the well-posed domain |
| Creators.SolveOptimalStrategy | src/creator.py:56-68 | the result is one regime's record, unmixed; its payoff is ≥ the other regime's; A = 0 only when the human regime pays strictly more (ties go to adoption) |
| Creators.StrategyBeatsAnyEffort | src/creator.py:56-68 | the chosen payoff is at least that of any effort in either regime at that regime's differentiation |
| Creators.PayoffShiftsWithFixedCost | src/creator.py:53 | changing only f shifts an adopter's payoff by exactly the difference and leaves a non-adopter's unchanged |
| Creators.FixedCostIrrelevant | src/creator.py:23-28 | the fixed cost enters neither the novelty multiplier nor the closed-form effort |
| Creators.PhiIgnoresFixedCost | src/creator.py:33-39 | two creators that differ only in the fixed cost have φ defined alike and equal at every δ ≥ 0 |
| Creators.OracleIgnoresFixedCost | src/creator.py:41-44 | a root finder that sees φ only through its values on [0, 100] gives the same answer for two creators that differ only in the fixed cost |
| Creators.AdoptionMonotoneInFixedCost | src/creator.py:56-68 | lowering the fixed cost never turns an adopter into a non-adopter, for a root finder that sees φ only through its values |
| EquilibriumSolver.PassAdoptionMonotoneInFixedCost | src/equilibrium_solver.py:22-27 | within one pass at the same guesses, lowering the fixed cost never lowers the population's adoption rate, the mean of A*, for a root finder that sees φ only through its values |
| DataFrames.Frame.constructor | src/equilibrium_solver.py:29 | a table built from the records, with no derived columns |
| DataFrames.Frame.AssignColumn | src/equilibrium_solver.py:31-32 | column assignment adds or replaces one column and changes nothing else in the table |
| EquilibriumSolver.Damp | src/equilibrium_solver.py:46-47 | 0.6·old + 0.4·new lies between old and new, is old when they agree, and keeps non-negativity (and positivity from a positive old guess) |
| EquilibriumSolver.PassRecords | src/equilibrium_solver.py:22-27 | one record per grid point, in grid order, each the optimal strategy at the frozen guesses, tagged with its talent |
| EquilibriumSolver.GColumnAt | src/equilibrium_solver.py:31 | entry i of `g` is record i's novelty multiplier against the pre-update δ̄ guess |
| EquilibriumSolver.WColumnAt | src/equilibrium_solver.py:32 | entry i of `w` is record i's effort times entry i of `g` |
| EquilibriumSolver.EffectiveEffortNonNegative | src/equilibrium_solver.py:31-32 | every effective effort of a pass is non-negative |
| EquilibriumSolver.RunPass | src/equilibrium_solver.py:22-35 | a pass keeps its guesses, builds the records and the `g`, `w` columns, and its new aggregates are mean(w) and mean(δ*), both non-negative |
| EquilibriumSolver.PassStep | src/equilibrium_solver.py:22-35 | the pass, as a function of the guesses, is the pass above wherever that is defined, and records its guesses and non-negative aggregates |
| EquilibriumSolver.Converged | src/equilibrium_solver.py:37-42 | no contract of its own: both abs(new − guess) differences are below the tolerance; its consequences are stated by TraceStopsAtConvergence, TraceEndsProperly and FixedPointStopsImmediately |
| EquilibriumSolver.Trace | src/equilibrium_solver.py:21-47 | the passes from given guesses number between 1 and the budget, and the first is the pass at those guesses; that every later pass is the pass at its own guesses is stated by TraceIsSteps |
| EquilibriumSolver.TraceIsSteps | src/equilibrium_solver.py:21-35 | every pass of the trace, the last included, is the step at its own guesses |
| EquilibriumSolver.TraceStopsAtConvergence | src/equilibrium_solver.py:42-44 | no pass before the last one converged |
| EquilibriumSolver.TraceEndsProperly | src/equilibrium_solver.py:42-50 | the last pass converged, or the whole budget of passes was used |
| EquilibriumSolver.TraceIsDamped | src/equilibrium_solver.py:46-47 | each pass starts from the damped guesses of the one before, and every guess keeps W > 0 and δ̄ ≥ 0 |
| EquilibriumSolver.FixedPointStopsImmediately | src/equilibrium_solver.py:42-44 | a pass that reproduces its guesses, with tolerance > 0, is the only pass |
| EquilibriumSolver.GuessesStayBelow | src/equilibrium_solver.py:46-47 | damping never overshoots: a bound met by the first guesses and by every new aggregate is met by every guess |
| EquilibriumSolver.Iteration | src/equilibrium_solver.py:14-21 | the iteration starts from W = 1.0, δ̄ = 0.5 and runs between 1 and max_iterations passes |
| EquilibriumSolver.IterationIsPasses | src/equilibrium_solver.py:21-47 | on a grid of valid talents every pass of the iteration has guesses W > 0, δ̄ ≥ 0 and is exactly the solver's pass at those guesses |
| EquilibriumSolver.ReturnedPass | src/equilibrium_solver.py:21-50 | the returned pass has one record per grid point, solved at its own guesses, and its new W and δ̄ are the means of its `w` column and of its δ* |
| EquilibriumSolver.IterationStops | src/equilibrium_solver.py:42-44 | a converged pass, or the pass with budget 1, is the last pass of the iteration |
| EquilibriumSolver.IterationAdvances | src/equilibrium_solver.py:46-47 | a non-converged pass with budget left hands the rest of the iteration to the damped guesses |
| EquilibriumSolver.SolvePopulation | src/equilibrium_solver.py:22-27 | the inner loop fails exactly when some grid talent is outside [0,1]; otherwise its records are the pass's records |
| EquilibriumSolver.BuildTable | src/equilibrium_solver.py:29-35 | the table holds the pass's records with exactly its `g` and `w` columns, and the new aggregates |
| EquilibriumSolver.SolvePass | src/equilibrium_solver.py:22-35 | one pass fails exactly on a talent outside [0,1], and otherwise yields the pass's table and aggregates |
| EquilibriumSolver.Iterate | src/equilibrium_solver.py:21-50 | the loop fails exactly on a bad talent; otherwise it returns the last pass of the trace: the first converged pass, or the last one the budget allows |
| EquilibriumSolver.FindEquilibrium | src/equilibrium_solver.py:5-50 | the solver fails exactly on a bad talent; otherwise it returns the last pass's table and its new (undamped) W and δ̄, the table's records are one per grid point solved at that pass's guesses, W_eq is the mean of the returned `w` column and δ̄ the mean of the returned δ* |
| Welfare.CalculateGini | src/welfare.py:4-12 | no contract of its own: 0 for no incomes or all-zero incomes, otherwise Σ(2i−n−1)·x_(i) / (n·Σx) on the sorted incomes, `None` for a zero sum; its properties are stated by the Gini lemmas below |
| Welfare.Insert | src/welfare.py:9 | inserting into a sorted list keeps it sorted and adds exactly that one entry |
| Welfare.Sort | src/welfare.py:9 | the sort is a sorted permutation of its input |
| Welfare.SortedUnique | src/welfare.py:9 | two sorted permutations of each other are equal, so the sort is determined by the multiset |
| Welfare.SortSorted | src/welfare.py:9 | sorting a sorted list changes nothing |
| Welfare.SumAbsZero | src/welfare.py:7 | the absolute sum is 0 exactly when every income is 0 |
| Welfare.SumPermutation | src/welfare.py:9-12 | reordering the incomes does not change their sum |
| Welfare.SortedWSumNonNegative | src/welfare.py:11-12 | in ascending order the weighted numerator Σ(2i−n−1)·x_i is non-negative |
| Welfare.WSumUpper | src/welfare.py:11-12 | with non-negative incomes the weighted numerator is at most (n−1)·Σx |
| Welfare.WSumConstant | src/welfare.py:11-12 | for m constant incomes c with weights for length n the numerator is c·m·(m−n), so 0 when m = n |
| Welfare.GiniUndefined | src/welfare.py:7-12 | the division is undefined exactly when the incomes are not all zero but sum to zero |
| Welfare.GiniOfZeroIncomes | src/welfare.py:7-8 | no incomes, or only zero incomes, give 0 |
| Welfare.GiniPermutationInvariant | src/welfare.py:9-12 | the coefficient is the same for any permutation of the incomes |
| Welfare.ConstantRatioZero | src/welfare.py:10-12 | n equal non-zero incomes have a non-zero sum and a ratio of 0 |
| Welfare.GiniEqualIncomes | src/welfare.py:4-12 | n > 0 equal incomes give 0 |
| Welfare.GiniIsRatio | src/welfare.py:7-12 | past the trivial cases and the zero sum, the coefficient is the ratio of the sorted incomes, whose sum is the incomes' sum |
| Welfare.SortedRatioNonNegative | src/welfare.py:12 | ascending incomes with a positive sum have a non-negative ratio |
| Welfare.RatioBelowOne | src/welfare.py:12 | non-negative incomes with a positive sum have a ratio below 1 |
| Welfare.GiniNonNegative | src/welfare.py:4-12 | incomes with a positive sum have a defined coefficient ≥ 0 |
| Welfare.GiniBelowOne | src/welfare.py:4-12 | non-negative incomes with a positive sum have a defined coefficient < 1 |
| Welfare.ShareColumn | src/welfare.py:19-22 | the share times W_eq is w when W_eq > 0, and every share is 0 otherwise |
| Welfare.MeanShareIsOne | src/welfare.py:19-20 | when W_eq is the mean of `w` and positive, the shares average exactly 1 |
| Welfare.EquilibriumSharesAverageOne | src/welfare.py:19-20 | for the pass the solver returns (src/equilibrium_solver.py:34,44,50), with W_eq > 0, the shares of the returned `w` column average exactly 1 |
| Welfare.ValueColumn | src/welfare.py:24 | entry i of `v` is the value score of record i's talent and differentiation |
| Welfare.ValueColumnAtLeastIntercept | src/welfare.py:24 | with non-negative weights, every record with non-negative talent and differentiation has `v` at least β0 |
| Welfare.ConsumerSurplus | src/welfare.py:19-26 | κ times the mean of share times value; 0 whenever W_eq ≤ 0, because every share is then 0 |
| Welfare.SurplusNonNegative | src/welfare.py:19-26 | with κ ≥ 0, non-negative effective efforts, non-negative β0, β1, β2 and records with non-negative talent and differentiation, the consumer surplus is ≥ 0 |
| Welfare.SurplusAtEqualValues | src/welfare.py:19-26 | when every record has the same value score v0 and W_eq is the positive mean of `w`, the consumer surplus is exactly κ·v0 |
| Welfare.WelfareOf | src/welfare.py:16-44 | total welfare is rent + profit + surplus; profit is η·W_eq; rent is the mean payoff; the surplus is the consumer surplus above, 0 when W_eq ≤ 0; the Gini is that of the payoffs; the adoption rate is the mean of A*, in [0,1]; the averages are the means of e* and δ* |
| Welfare.RunWelfareAnalysis | src/welfare.py:14-44 | the table gains exactly the `s` and `v` columns, with records and other columns untouched, and the report is the welfare of the table |

## Left out

- Plotting, CSV output, console logging and the scenario driver: these are I/O with no algorithmic content. The solver's progress `print` calls are left out for the same reason.
- The configuration file is not part of this model. Its values are concrete parameters, and its `gamma` key is never read.
- The talent grid (`np.linspace` and the Beta quantile function) is an input sequence, because the quantile function is foreign code.
- The internals of `brentq` are an oracle, and the root's accuracy is not modelled. Only its bracket and its failure on a missing sign change are stated.
- The RuntimeError `brentq` raises when it does not converge is not modelled. The `except ValueError` at src/creator.py:43 does not catch it, so it would end the whole run, and the `Option` oracle has no way to represent it.
- Creators.AdoptionMonotoneInFixedCost: is per creator, with W and δ̄ held fixed; the population-level statement is EquilibriumSolver.PassAdoptionMonotoneInFixedCost below.
- EquilibriumSolver.PassAdoptionMonotoneInFixedCost: is about one pass at the same frozen guesses. The claim at the equilibrium itself is not proved, because lowering f changes the W and δ̄ the iteration reaches, and with them every creator's choice.
- Creators.AdoptionMonotoneInFixedCost: assumes (`PhiOnly`) that the root finder's answer depends only on φ's values on [0, 100]. `brentq` only ever evaluates φ there, so this holds of it, but it is an assumption about the oracle, not a proved fact.
- Floating-point rounding, NaN and infinity are not modelled. This includes the `np.inf` that φ returns for δ < 0: the root finder only evaluates φ on [0, 100], so `Phi` is defined for δ ≥ 0 only. The Gini coefficient's division by a zero sum, which numpy turns into inf or NaN, is `None`.
- Convergence rate and uniqueness of the equilibrium are not claimed.
- Creators.BestResponseDifferentiation: requires that the divisions inside φ be defined (W ≠ 0, c_e ≠ 0, c_δ ≠ 0 and a non-zero normaliser), because `phi_function` divides by W without a guard.
- EquilibriumSolver.FindEquilibrium: requires parameters in the well-posed domain (positive unit costs, non-zero c_δ, λ ≥ 0 and non-negative value weights). This is what keeps every guess positive and every division defined.
- EquilibriumSolver.FindEquilibrium: requires a non-empty grid and `max_iterations ≥ 1`. With no passes the source's final return reads unbound names. With no creators the table has no columns, so reading `delta_star` raises KeyError at src/equilibrium_solver.py:31.
- EquilibriumSolver.FindEquilibrium: the source's `results_list` is a Python list of dictionaries turned into a DataFrame. It is modelled as a sequence of records, with the derived columns in a map.
- EquilibriumSolver.PassStep: wherever `PassReady` fails (a talent outside [0,1], W ≤ 0, δ̄ < 0, parameters outside the well-posed domain, or an empty grid), a placeholder pass stands in. The solver never uses it: it fails on the first pass on a bad talent, and `IterationIsPasses` shows every guess it reaches otherwise is ready.
- Welfare.RunWelfareAnalysis: requires a non-empty table with a `w` column. The source raises KeyError without the column and yields NaN means for an empty table.
