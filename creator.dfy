/** One creator's best response to the aggregate market state (src/creator.py).

    A creator has a fixed talent in [0,1] and reads a shared parameter set.  Given
    the aggregate effective effort W and the mean differentiation deltaBar, it
    computes, separately for each adoption regime A in {0, 1}, its differentiation
    (a root of phi, found by an external root-finder), the
    closed-form optimal effort and the resulting payoff, and then keeps the regime
    with the higher payoff, ties going to adoption. */
module Creators {
  import opened Outcomes
  import opened RealArith

  /** The model parameters every creator reads. */
  datatype Params = Params(
    beta0: real,           // intercept of the value score
    beta1: real,           // weight of talent in the value score
    beta2: real,           // weight of differentiation in the value score
    ce0: real,             // unit effort cost without adoption (A = 0)
    ce1: real,             // unit effort cost with adoption (A = 1)
    cDelta: real,          // quadratic cost coefficient of differentiation
    fBaseline: real,       // fixed cost charged to adopters
    lambdaBaseline: real,  // novelty-decay coefficient lambda
    eta: real,             // platform margin
    kappa: real)           // consumer-surplus weight

  type Talent = t: real | 0.0 <= t <= 1.0

  /** The adoption decision: 0 is human production, 1 is adoption. */
  type Adoption = a: int | 0 <= a <= 1

  datatype Creator = Creator(theta: Talent, params: Params)

  /** The exception the constructor raises. */
  datatype CreatorError = TalentOutOfRange

  /** One regime's strategy record: the keys `A_star`, `e_star`, `delta_star`, `payoff`. */
  datatype Strategy = Strategy(aStar: Adoption, eStar: real, deltaStar: real, payoff: real)

  function Max(a: real, b: real): real
  {
    if a >= b then a else b
  }

  /** Constructing a creator: talent outside [0,1] raises, talent inside is stored as given. */
  function NewCreator(theta: real, params: Params): (r: Result<Creator, CreatorError>)
    ensures r.Ok? <==> 0.0 <= theta <= 1.0
    ensures r.Ok? ==> r.value.theta == theta && r.value.params == params
  {
    if 0.0 <= theta <= 1.0 then Ok(Creator(theta, params)) else Err(TalentOutOfRange)
  }

  /** The linear value score of content with talent `theta` and differentiation `delta`. */
  function Value(p: Params, theta: real, delta: real): real
  {
    p.beta0 + p.beta1 * theta + p.beta2 * delta
  }

  /** With non-negative weights, talent and differentiation, the value score is at
      least its intercept. */
  lemma ValueAtLeastIntercept(p: Params, theta: real, delta: real)
    requires p.beta1 >= 0.0 && p.beta2 >= 0.0 && theta >= 0.0 && delta >= 0.0
    ensures Value(p, theta, delta) >= p.beta0
  {
    MulIncreasing(p.beta1, 0.0, theta);
    MulIncreasing(p.beta2, 0.0, delta);
  }

  /** Monotonicity of the value score: with non-negative weights it never falls as talent
      and differentiation grow, and it strictly rises when a coordinate with a positive
      weight strictly grows. */
  lemma ValueIncreasing(p: Params, theta: real, theta': real, delta: real, delta': real)
    requires p.beta1 >= 0.0 && p.beta2 >= 0.0
    requires theta <= theta' && delta <= delta'
    ensures Value(p, theta, delta) <= Value(p, theta', delta')
    ensures (theta < theta' && p.beta1 > 0.0) || (delta < delta' && p.beta2 > 0.0)
      ==> Value(p, theta, delta) < Value(p, theta', delta')
  {
    var t, t' := p.beta1 * theta, p.beta1 * theta';
    var d, d' := p.beta2 * delta, p.beta2 * delta';
    MulIncreasing(p.beta1, theta, theta');
    MulIncreasing(p.beta2, delta, delta');
    assert Value(p, theta, delta) == p.beta0 + t + d;
    assert Value(p, theta', delta') == p.beta0 + t' + d';
    if theta < theta' && p.beta1 > 0.0 {
      MulStrictlyIncreasing(p.beta1, theta, theta');
      assert t < t';
    }
    if delta < delta' && p.beta2 > 0.0 {
      MulStrictlyIncreasing(p.beta2, delta, delta');
      assert d < d';
    }
  }

  /** The population-mean term 1 + lambda * deltaBar that normalises novelty. */
  function Normalizer(p: Params, deltaBar: real): real
  {
    1.0 + p.lambdaBaseline * deltaBar
  }

  /** The novelty multiplier of differentiation `delta` against the population mean. */
  function NoveltyMultiplier(p: Params, delta: real, deltaBar: real): real
    requires Normalizer(p, deltaBar) != 0.0
  {
    Div(1.0 + p.lambdaBaseline * delta, Normalizer(p, deltaBar))
  }

  /** A creator that matches the population mean gets multiplier exactly 1, whatever lambda. */
  lemma NoveltyMultiplierAtMean(p: Params, deltaBar: real)
    requires Normalizer(p, deltaBar) != 0.0
    ensures NoveltyMultiplier(p, deltaBar, deltaBar) == 1.0
  {
    DivSelf(Normalizer(p, deltaBar));
  }

  /** A non-negative differentiation against a positive normaliser gives a positive multiplier. */
  lemma NoveltyMultiplierPositive(p: Params, delta: real, deltaBar: real)
    requires p.lambdaBaseline >= 0.0 && delta >= 0.0 && Normalizer(p, deltaBar) > 0.0
    ensures NoveltyMultiplier(p, delta, deltaBar) > 0.0
  {
    MulIncreasing(p.lambdaBaseline, 0.0, delta);
    DivSign(1.0 + p.lambdaBaseline * delta, Normalizer(p, deltaBar));
  }

  /** With lambda > 0 the multiplier lies above 1 exactly when the creator differentiates
      more than the population mean, below 1 exactly when it differentiates less, and
      equals 1 exactly when it matches the mean. */
  lemma NoveltyMultiplierOrder(p: Params, delta: real, deltaBar: real)
    requires p.lambdaBaseline > 0.0 && Normalizer(p, deltaBar) > 0.0
    ensures NoveltyMultiplier(p, delta, deltaBar) > 1.0 <==> delta > deltaBar
    ensures NoveltyMultiplier(p, delta, deltaBar) < 1.0 <==> delta < deltaBar
    ensures NoveltyMultiplier(p, delta, deltaBar) == 1.0 <==> delta == deltaBar
  {
    var l := p.lambdaBaseline;
    var num, den := 1.0 + l * delta, Normalizer(p, deltaBar);
    assert den == 1.0 + l * deltaBar;
    assert NoveltyMultiplier(p, delta, deltaBar) == Div(num, den);
    DivVersusOne(num, den);
    if delta > deltaBar {
      MulStrictlyIncreasing(l, deltaBar, delta);
      assert num > den;
    } else if delta < deltaBar {
      MulStrictlyIncreasing(l, delta, deltaBar);
      assert num < den;
    } else {
      assert num == den;
    }
  }

  /** The unit effort cost of regime `a`: `c_e_1` exactly when a == 1, else `c_e_0`. */
  function UnitCost(p: Params, a: Adoption): real
  {
    if a == 1 then p.ce1 else p.ce0
  }

  /** Closed-form optimal effort for a given differentiation; exactly 0 when W <= 0,
      whatever the other arguments. */
  function BestResponseEffort(c: Creator, delta: real, a: Adoption, w: real, deltaBar: real): (e: real)
    requires w <= 0.0 || (UnitCost(c.params, a) != 0.0 && Normalizer(c.params, deltaBar) != 0.0)
    ensures w <= 0.0 ==> e == 0.0
  {
    if w <= 0.0 then 0.0
    else
      NonZeroProduct(UnitCost(c.params, a), w);
      Div(Value(c.params, c.theta, delta) * NoveltyMultiplier(c.params, delta, deltaBar),
          UnitCost(c.params, a) * w)
  }

  /** For W > 0 the effort solves the first-order condition e * (c_e * W) = v * g with
      the regime's own unit cost, and is non-negative when v and g are and c_e > 0. */
  lemma EffortFirstOrderCondition(c: Creator, delta: real, a: Adoption, w: real, deltaBar: real)
    requires w > 0.0 && UnitCost(c.params, a) != 0.0 && Normalizer(c.params, deltaBar) != 0.0
    ensures BestResponseEffort(c, delta, a, w, deltaBar) * (UnitCost(c.params, a) * w)
      == Value(c.params, c.theta, delta) * NoveltyMultiplier(c.params, delta, deltaBar)
    ensures UnitCost(c.params, a) > 0.0 && Value(c.params, c.theta, delta) >= 0.0
      && NoveltyMultiplier(c.params, delta, deltaBar) >= 0.0
      ==> BestResponseEffort(c, delta, a, w, deltaBar) >= 0.0
  {
    var v := Value(c.params, c.theta, delta);
    var g := NoveltyMultiplier(c.params, delta, deltaBar);
    var ce := UnitCost(c.params, a);
    NonZeroProduct(ce, w);
    DivMul(v * g, ce * w);
    if ce > 0.0 && v >= 0.0 && g >= 0.0 {
      MulStrictlyIncreasing(ce, 0.0, w);
      MulNonNegative(v, g);
      DivSign(v * g, ce * w);
    }
  }

  /** For W > 0 in the well-posed domain with beta1 > 0, more talent means strictly more
      effort at the same differentiation, regime and aggregates. */
  lemma EffortIncreasingInTalent(c: Creator, c': Creator, delta: real, a: Adoption, w: real, deltaBar: real)
    requires c'.params == c.params && c.theta < c'.theta
    requires WellPosed(c.params) && c.params.beta1 > 0.0
    requires w > 0.0 && deltaBar >= 0.0 && delta >= 0.0
    ensures Normalizer(c.params, deltaBar) >= 1.0
    ensures BestResponseEffort(c, delta, a, w, deltaBar) < BestResponseEffort(c', delta, a, w, deltaBar)
  {
    var p, p' := c.params, c'.params;
    WellPosedSolvable(p, w, deltaBar);
    var v, v' := Value(p, c.theta, delta), Value(p', c'.theta, delta);
    assert v < v' by {
      ValueIncreasing(p, c.theta, c'.theta, delta, delta);
      assert Value(p, c'.theta, delta) == v';
    }
    var g, g' := NoveltyMultiplier(p, delta, deltaBar), NoveltyMultiplier(p', delta, deltaBar);
    var ce, ce' := UnitCost(p, a), UnitCost(p', a);
    assert g' == g && ce' == ce;
    assert v * g < v' * g' by {
      NoveltyMultiplierPositive(p, delta, deltaBar);
      MulStrictlyIncreasing(g, v, v');
      SameProduct(v', v', g, g');
    }
    assert ce * w > 0.0 by {
      MulStrictlyIncreasing(ce, 0.0, w);
    }
    SameProduct(ce, ce', w, w);
    DivStrictlyIncreasing(v * g, v' * g', ce * w);
    EffortIsQuotient(c, delta, a, w, deltaBar);
    EffortIsQuotient(c', delta, a, w, deltaBar);
  }

  lemma EffortIsQuotient(c: Creator, delta: real, a: Adoption, w: real, deltaBar: real)
    requires w > 0.0 && UnitCost(c.params, a) != 0.0 && Normalizer(c.params, deltaBar) != 0.0
    ensures UnitCost(c.params, a) * w != 0.0
    ensures BestResponseEffort(c, delta, a, w, deltaBar)
      == Div(Value(c.params, c.theta, delta) * NoveltyMultiplier(c.params, delta, deltaBar), UnitCost(c.params, a) * w)
  {
    NonZeroProduct(UnitCost(c.params, a), w);
  }

  /** The function phi_function closes over: the creator, the regime's unit cost,
      and the frozen aggregates. */
  datatype PhiClosure = PhiClosure(creator: Creator, ce: real, w: real, deltaBar: real)

  /** The divisions inside phi are all defined. */
  predicate PhiDefined(f: PhiClosure)
  {
    f.ce != 0.0 && f.w != 0.0 && f.creator.params.cDelta != 0.0
    && Normalizer(f.creator.params, f.deltaBar) != 0.0
  }

  /** delta - psi for a creator whose value score is v, novelty multiplier g and
      normaliser n at `delta`, with psi = (beta2 + lambda * v / n) * g * e* / (c_delta * W)
      at the effort e* = v * g / (c_e * W), term for term as the source computes it.
      Differentiating the payoff in delta gives instead (beta2 * g + lambda * v / n) * e*
      / (c_delta * W); the two differ by lambda * v * (g - 1) * e* / (n * c_delta * W), so
      where g > 0 they agree exactly where lambda * v * (delta - deltaBar) = 0. */
  function PhiOfTerms(v: real, g: real, n: real, beta2: real, lambda: real, cDelta: real,
                      ce: real, w: real, delta: real): real
    requires n != 0.0 && ce != 0.0 && w != 0.0 && cDelta != 0.0
  {
    NonZeroProduct(ce, w);
    NonZeroProduct(cDelta, w);
    var eStar := Div(v * g, ce * w);
    var psi := Div((beta2 + Div(lambda * v, n)) * g * eStar, cDelta * w);
    delta - psi
  }

  /** phi(delta) = delta - psi(delta), with psi as the source computes it; the solver takes
      its root on [0, 100] as the creator's differentiation.  Only non-negative arguments
      are modelled: the root-finder evaluates phi on [0, 100]. */
  function Phi(f: PhiClosure, delta: real): real
    requires PhiDefined(f) && delta >= 0.0
  {
    var p := f.creator.params;
    PhiOfTerms(Value(p, f.creator.theta, delta), NoveltyMultiplier(p, delta, f.deltaBar),
               Normalizer(p, f.deltaBar), p.beta2, p.lambdaBaseline, p.cDelta, f.ce, f.w, delta)
  }

  /** The bracketing root-finder on [0, 100]: `None` when it raises ValueError. */
  type RootOracle = PhiClosure -> Option<real>

  /** What the code relies on from the root-finder: a root it returns lies in the
      bracket [0, 100], and it fails when phi has the same sign at both ends. */
  ghost predicate BrentqContract(oracle: RootOracle)
  {
    forall f: PhiClosure {:trigger oracle(f)} :: PhiDefined(f) ==>
      (oracle(f).Some? ==> 0.0 <= oracle(f).value <= 100.0)
      && (Phi(f, 0.0) * Phi(f, 100.0) > 0.0 ==> oracle(f).None?)
  }

  /** The root-finder sees phi only through its values on the bracket: two closures whose
      phi agree on [0, 100] get the same answer. */
  ghost predicate PhiOnly(oracle: RootOracle)
  {
    forall f: PhiClosure, f': PhiClosure {:trigger oracle(f), oracle(f')} ::
      PhiDefined(f) && PhiDefined(f') && (forall d: real :: 0.0 <= d <= 100.0 ==> Phi(f, d) == Phi(f', d))
      ==> oracle(f) == oracle(f')
  }

  /** The phi the root-finder is handed for regime `a`. */
  function PhiAt(c: Creator, a: Adoption, w: real, deltaBar: real): PhiClosure
  {
    PhiClosure(c, UnitCost(c.params, a), w, deltaBar)
  }

  /** The chosen differentiation: the root found on [0, 100] clamped below at 0, and 0
      when the root-finder fails; never negative. */
  function BestResponseDifferentiation(c: Creator, a: Adoption, w: real, deltaBar: real, oracle: RootOracle): (d: real)
    requires PhiDefined(PhiAt(c, a, w, deltaBar))
    ensures d >= 0.0
    ensures oracle(PhiAt(c, a, w, deltaBar)).None? ==> d == 0.0
    ensures oracle(PhiAt(c, a, w, deltaBar)).Some? ==>
      var root := oracle(PhiAt(c, a, w, deltaBar)).value;
      (root >= 0.0 ==> d == root) && (root < 0.0 ==> d == 0.0)
  {
    var deltaStar := match oracle(PhiAt(c, a, w, deltaBar))
      case Some(root) => root
      case None => 0.0;
    Max(0.0, deltaStar)
  }

  /** Under the root-finder's contract the result stays in the bracket, equals the root
      when one is found, and is 0 when phi does not change sign on [0, 100]. */
  lemma DifferentiationInBracket(c: Creator, a: Adoption, w: real, deltaBar: real, oracle: RootOracle)
    requires BrentqContract(oracle)
    requires PhiDefined(PhiAt(c, a, w, deltaBar))
    ensures 0.0 <= BestResponseDifferentiation(c, a, w, deltaBar, oracle) <= 100.0
    ensures var f := PhiAt(c, a, w, deltaBar);
      Phi(f, 0.0) * Phi(f, 100.0) > 0.0 ==> BestResponseDifferentiation(c, a, w, deltaBar, oracle) == 0.0
    ensures oracle(PhiAt(c, a, w, deltaBar)).Some? ==>
      BestResponseDifferentiation(c, a, w, deltaBar, oracle) == oracle(PhiAt(c, a, w, deltaBar)).value
  {
    var f := PhiAt(c, a, w, deltaBar);
    assert (oracle(f).Some? ==> 0.0 <= oracle(f).value <= 100.0)
      && (Phi(f, 0.0) * Phi(f, 100.0) > 0.0 ==> oracle(f).None?);
  }

  /** The cost of a strategy: quadratic in effort and in differentiation, plus the fixed
      cost times the adoption decision. */
  function Cost(c: Creator, e: real, delta: real, a: Adoption): real
  {
    0.5 * UnitCost(c.params, a) * e * e + 0.5 * c.params.cDelta * delta * delta + c.params.fBaseline * a as real
  }

  /** The fixed cost is charged only to adopters, and with non-negative cost
      coefficients the cost never falls below it. */
  lemma CostAtLeastFixed(c: Creator, e: real, delta: real, a: Adoption)
    requires UnitCost(c.params, a) >= 0.0 && c.params.cDelta >= 0.0
    ensures Cost(c, e, delta, a) >= c.params.fBaseline * a as real
    ensures a == 0 ==> Cost(c, e, delta, a) == 0.5 * c.params.ce0 * e * e + 0.5 * c.params.cDelta * delta * delta
  {
    SquareScaled(0.5 * UnitCost(c.params, a), e);
    SquareScaled(0.5 * c.params.cDelta, delta);
  }

  /** Payoff: market share times value, minus cost; the share is 0 when W <= 0, so the
      payoff is then exactly minus the cost. */
  function CalculatePayoff(c: Creator, e: real, delta: real, a: Adoption, w: real, deltaBar: real): (u: real)
    requires Normalizer(c.params, deltaBar) != 0.0
    ensures w <= 0.0 ==> u == -Cost(c, e, delta, a)
  {
    var v := Value(c.params, c.theta, delta);
    var g := NoveltyMultiplier(c.params, delta, deltaBar);
    var s := if w > 0.0 then Div(e * g, w) else 0.0;
    s * v - Cost(c, e, delta, a)
  }

  /** The closed-form effort maximises the payoff over all efforts, for the same
      differentiation, regime and aggregates. */
  lemma EffortMaximizesPayoff(c: Creator, delta: real, a: Adoption, w: real, deltaBar: real, e: real)
    requires w > 0.0 && UnitCost(c.params, a) > 0.0
    requires Normalizer(c.params, deltaBar) != 0.0
    ensures CalculatePayoff(c, BestResponseEffort(c, delta, a, w, deltaBar), delta, a, w, deltaBar)
      >= CalculatePayoff(c, e, delta, a, w, deltaBar)
  {
    var ce := UnitCost(c.params, a);
    var v := Value(c.params, c.theta, delta);
    var g := NoveltyMultiplier(c.params, delta, deltaBar);
    var star := BestResponseEffort(c, delta, a, w, deltaBar);
    var k := Div(g * v, w);
    PayoffIsQuadratic(c, star, delta, a, w, deltaBar);
    PayoffIsQuadratic(c, e, delta, a, w, deltaBar);
    EffortFirstOrderCondition(c, delta, a, w, deltaBar);
    assert ce * star == k by {
      assert (ce * star) * w == star * (ce * w);
      DivMul(g * v, w);
      CancelPositive(ce * star, k, w);
    }
    QuadraticPeak(k, ce, star, e);
  }

  /** For W > 0, the payoff is the concave quadratic k * e - c_e/2 * e^2 - rest in the effort. */
  lemma PayoffIsQuadratic(c: Creator, e: real, delta: real, a: Adoption, w: real, deltaBar: real)
    requires w > 0.0 && Normalizer(c.params, deltaBar) != 0.0
    ensures var g := NoveltyMultiplier(c.params, delta, deltaBar);
      var k := Div(g * Value(c.params, c.theta, delta), w);
      CalculatePayoff(c, e, delta, a, w, deltaBar)
        == k * e - 0.5 * UnitCost(c.params, a) * e * e
           - (0.5 * c.params.cDelta * delta * delta + c.params.fBaseline * a as real)
  {
    var g := NoveltyMultiplier(c.params, delta, deltaBar);
    var v := Value(c.params, c.theta, delta);
    ShareTimesValue(e, g, v, w);
  }

  lemma ShareTimesValue(x: real, g: real, v: real, w: real)
    requires w > 0.0
    ensures Div(x * g, w) * v == Div(g * v, w) * x
  {
    DivMul(x * g, w);
    DivMul(g * v, w);
    assert (Div(x * g, w) * v) * w == (x * g) * v;
    assert (Div(g * v, w) * x) * w == (g * v) * x;
    CancelPositive(Div(x * g, w) * v, Div(g * v, w) * x, w);
  }

  lemma QuadraticPeak(k: real, ce: real, star: real, e: real)
    requires ce > 0.0 && ce * star == k
    ensures k * star - 0.5 * ce * star * star >= k * e - 0.5 * ce * e * e
  {
    assert (k * star - 0.5 * ce * star * star) - (k * e - 0.5 * ce * e * e)
        == 0.5 * ce * (star - e) * (star - e);
    SquareScaled(0.5 * ce, star - e);
  }

  /** Both regimes are solvable at these aggregates: every division they perform is defined. */
  predicate SolvableAt(p: Params, w: real, deltaBar: real)
  {
    w != 0.0 && p.ce0 != 0.0 && p.ce1 != 0.0 && p.cDelta != 0.0 && Normalizer(p, deltaBar) != 0.0
  }

  /** The economically meaningful parameter domain: positive unit costs, non-negative
      value weights and novelty decay, a non-zero differentiation cost. */
  predicate WellPosed(p: Params)
  {
    p.ce0 > 0.0 && p.ce1 > 0.0 && p.cDelta != 0.0 && p.lambdaBaseline >= 0.0
    && p.beta0 >= 0.0 && p.beta1 >= 0.0 && p.beta2 >= 0.0
  }

  /** Within the well-posed domain, a positive W and a non-negative mean differentiation
      make both regimes solvable. */
  lemma WellPosedSolvable(p: Params, w: real, deltaBar: real)
    requires WellPosed(p) && w > 0.0 && deltaBar >= 0.0
    ensures SolvableAt(p, w, deltaBar) && Normalizer(p, deltaBar) >= 1.0
  {
    MulIncreasing(p.lambdaBaseline, 0.0, deltaBar);
  }

  /** In the well-posed domain, with W > 0 and a non-negative mean, the effort at any
      non-negative differentiation is non-negative. */
  lemma EffortNonNegative(c: Creator, delta: real, a: Adoption, w: real, deltaBar: real)
    requires WellPosed(c.params) && w > 0.0 && deltaBar >= 0.0 && delta >= 0.0
    ensures Normalizer(c.params, deltaBar) >= 1.0
    ensures BestResponseEffort(c, delta, a, w, deltaBar) >= 0.0
  {
    WellPosedSolvable(c.params, w, deltaBar);
    ValueAtLeastIntercept(c.params, c.theta, delta);
    NoveltyMultiplierPositive(c.params, delta, deltaBar);
    EffortFirstOrderCondition(c, delta, a, w, deltaBar);
  }

  /** The full strategy of regime `a`: differentiation first, then effort at that
      differentiation, then the payoff of the pair. */
  function RegimeStrategy(c: Creator, a: Adoption, w: real, deltaBar: real, oracle: RootOracle): (s: Strategy)
    requires SolvableAt(c.params, w, deltaBar)
    ensures s.aStar == a && s.deltaStar >= 0.0
    ensures s.deltaStar == BestResponseDifferentiation(c, a, w, deltaBar, oracle)
    ensures s.eStar == BestResponseEffort(c, s.deltaStar, a, w, deltaBar)
    ensures s.payoff == CalculatePayoff(c, s.eStar, s.deltaStar, a, w, deltaBar)
    ensures WellPosed(c.params) && w > 0.0 && deltaBar >= 0.0 ==> s.eStar >= 0.0
  {
    var delta := BestResponseDifferentiation(c, a, w, deltaBar, oracle);
    var e := BestResponseEffort(c, delta, a, w, deltaBar);
    var payoff := CalculatePayoff(c, e, delta, a, w, deltaBar);
    if WellPosed(c.params) && w > 0.0 && deltaBar >= 0.0 then
      EffortNonNegative(c, delta, a, w, deltaBar);
      Strategy(a, e, delta, payoff)
    else
      Strategy(a, e, delta, payoff)
  }

  /** Solve both regimes at the same aggregates and keep the one with the weakly
      higher payoff, ties going to adoption. The record is one regime's, unmixed. */
  function SolveOptimalStrategy(c: Creator, w: real, deltaBar: real, oracle: RootOracle): (s: Strategy)
    requires SolvableAt(c.params, w, deltaBar)
    ensures s == RegimeStrategy(c, s.aStar, w, deltaBar, oracle)
    ensures s.payoff >= RegimeStrategy(c, 1 - s.aStar, w, deltaBar, oracle).payoff
    ensures s.aStar == 0 ==> s.payoff > RegimeStrategy(c, 1, w, deltaBar, oracle).payoff
    ensures s.deltaStar >= 0.0
    ensures WellPosed(c.params) && w > 0.0 && deltaBar >= 0.0 ==> s.eStar >= 0.0
  {
    var human := RegimeStrategy(c, 0, w, deltaBar, oracle);
    var adopt := RegimeStrategy(c, 1, w, deltaBar, oracle);
    if adopt.payoff >= human.payoff then adopt else human
  }

  /** The chosen strategy pays at least as much as any effort in either regime, at
      that regime's differentiation. */
  lemma StrategyBeatsAnyEffort(c: Creator, w: real, deltaBar: real, oracle: RootOracle, a: Adoption, e: real)
    requires SolvableAt(c.params, w, deltaBar) && w > 0.0
    requires c.params.ce0 > 0.0 && c.params.ce1 > 0.0
    ensures var s := SolveOptimalStrategy(c, w, deltaBar, oracle);
      var d := BestResponseDifferentiation(c, a, w, deltaBar, oracle);
      s.payoff >= CalculatePayoff(c, e, d, a, w, deltaBar)
  {
    var s := SolveOptimalStrategy(c, w, deltaBar, oracle);
    var r := RegimeStrategy(c, a, w, deltaBar, oracle);
    EffortMaximizesPayoff(c, r.deltaStar, a, w, deltaBar, e);
    assert s.payoff >= r.payoff;
  }

  /** Changing only the fixed cost changes the payoff of a strategy by exactly the fixed
      cost difference for adopters and not at all for non-adopters. */
  lemma PayoffShiftsWithFixedCost(c: Creator, f: real, e: real, delta: real, a: Adoption, w: real, deltaBar: real)
    requires Normalizer(c.params, deltaBar) != 0.0
    ensures var c' := Creator(c.theta, c.params.(fBaseline := f));
      CalculatePayoff(c', e, delta, a, w, deltaBar)
        == CalculatePayoff(c, e, delta, a, w, deltaBar) + (c.params.fBaseline - f) * a as real
  {
  }

  /** The fixed cost enters neither the value score, the novelty multiplier nor the
      closed-form effort. */
  lemma FixedCostIrrelevant(c: Creator, f: real, delta: real, a: Adoption, w: real, deltaBar: real)
    requires SolvableAt(c.params, w, deltaBar)
    ensures var c' := Creator(c.theta, c.params.(fBaseline := f));
      NoveltyMultiplier(c'.params, delta, deltaBar) == NoveltyMultiplier(c.params, delta, deltaBar)
      && BestResponseEffort(c', delta, a, w, deltaBar) == BestResponseEffort(c, delta, a, w, deltaBar)
  {
    var c' := Creator(c.theta, c.params.(fBaseline := f));
    assert Value(c'.params, c'.theta, delta) == Value(c.params, c.theta, delta);
    assert Normalizer(c'.params, deltaBar) == Normalizer(c.params, deltaBar);
    assert UnitCost(c'.params, a) == UnitCost(c.params, a);
  }

  /** The fixed cost enters neither phi nor the divisions it performs: the closures of
      two creators that differ only in the fixed cost have the same phi. */
  lemma PhiIgnoresFixedCost(c: Creator, f: real, a: Adoption, w: real, deltaBar: real, d: real)
    requires PhiDefined(PhiAt(c, a, w, deltaBar)) && d >= 0.0
    ensures var c' := Creator(c.theta, c.params.(fBaseline := f));
      PhiDefined(PhiAt(c', a, w, deltaBar))
      && Phi(PhiAt(c', a, w, deltaBar), d) == Phi(PhiAt(c, a, w, deltaBar), d)
  {
    var c' := Creator(c.theta, c.params.(fBaseline := f));
    var p, p' := c.params, c'.params;
    assert Normalizer(p', deltaBar) == Normalizer(p, deltaBar);
    assert UnitCost(p', a) == UnitCost(p, a);
    assert PhiDefined(PhiAt(c', a, w, deltaBar));
    assert Value(p', c'.theta, d) == Value(p, c.theta, d);
    assert NoveltyMultiplier(p', d, deltaBar) == NoveltyMultiplier(p, d, deltaBar);
  }

  /** A root-finder that sees phi only through its values answers alike for two creators
      that differ only in the fixed cost. */
  lemma OracleIgnoresFixedCost(c: Creator, f: real, a: Adoption, w: real, deltaBar: real, oracle: RootOracle)
    requires PhiOnly(oracle) && PhiDefined(PhiAt(c, a, w, deltaBar))
    ensures var c' := Creator(c.theta, c.params.(fBaseline := f));
      oracle(PhiAt(c', a, w, deltaBar)) == oracle(PhiAt(c, a, w, deltaBar))
  {
    var c' := Creator(c.theta, c.params.(fBaseline := f));
    PhiIgnoresFixedCost(c, f, a, w, deltaBar, 0.0);
    forall d: real | 0.0 <= d <= 100.0
      ensures Phi(PhiAt(c', a, w, deltaBar), d) == Phi(PhiAt(c, a, w, deltaBar), d)
    {
      PhiIgnoresFixedCost(c, f, a, w, deltaBar, d);
    }
  }

  /** Lowering the fixed cost of adoption, at the same aggregates, never turns an
      adopter into a non-adopter, for a root-finder that sees phi only through its values. */
  lemma AdoptionMonotoneInFixedCost(c: Creator, f: real, w: real, deltaBar: real, oracle: RootOracle)
    requires SolvableAt(c.params, w, deltaBar) && f <= c.params.fBaseline
    requires PhiOnly(oracle)
    ensures var c' := Creator(c.theta, c.params.(fBaseline := f));
      SolveOptimalStrategy(c, w, deltaBar, oracle).aStar == 1 ==> SolveOptimalStrategy(c', w, deltaBar, oracle).aStar == 1
  {
    var c' := Creator(c.theta, c.params.(fBaseline := f));
    OracleIgnoresFixedCost(c, f, 0, w, deltaBar, oracle);
    OracleIgnoresFixedCost(c, f, 1, w, deltaBar, oracle);
    var h, h' := RegimeStrategy(c, 0, w, deltaBar, oracle), RegimeStrategy(c', 0, w, deltaBar, oracle);
    var d, d' := RegimeStrategy(c, 1, w, deltaBar, oracle), RegimeStrategy(c', 1, w, deltaBar, oracle);
    assert h'.deltaStar == h.deltaStar && d'.deltaStar == d.deltaStar;
    FixedCostIrrelevant(c, f, h.deltaStar, 0, w, deltaBar);
    FixedCostIrrelevant(c, f, d.deltaStar, 1, w, deltaBar);
    assert h'.eStar == h.eStar && d'.eStar == d.eStar;
    PayoffShiftsWithFixedCost(c, f, h.eStar, h.deltaStar, 0, w, deltaBar);
    PayoffShiftsWithFixedCost(c, f, d.eStar, d.deltaStar, 1, w, deltaBar);
    assert h'.payoff == h.payoff;
    assert d'.payoff >= d.payoff;
  }
}
