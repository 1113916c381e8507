/** Welfare of a solved equilibrium (src/welfare.py): the sorted-sum Gini coefficient
    of a list of incomes, and the decomposition of total welfare into creator rent,
    platform profit and consumer surplus, read from (and written into) the solver's
    table. */
module Welfare {
  import opened Outcomes
  import opened RealArith
  import opened Creators
  import opened DataFrames
  import opened EquilibriumSolver

  /* ---------------------------------------------------------------- sorting */

  predicate Sorted(s: seq<real>)
  {
    forall i, j :: 0 <= i < j < |s| ==> s[i] <= s[j]
  }

  /** Putting an entry no larger than the head in front of a sorted list keeps it sorted. */
  lemma SortedCons(x: real, t: seq<real>)
    requires Sorted(t) && (|t| > 0 ==> x <= t[0])
    ensures Sorted([x] + t)
  {
    var r := [x] + t;
    forall i, j | 0 <= i < j < |r|
      ensures r[i] <= r[j]
    {
      assert r[j] == t[j - 1];
      if i > 0 {
        assert r[i] == t[i - 1];
      } else {
        assert t[0] <= t[j - 1];
      }
    }
  }

  /** Every entry of a sorted list is at least its head, and so is any extra entry
      larger than the head. */
  lemma HeadIsLeast(s: seq<real>, a: real, t: seq<real>)
    requires Sorted(s) && |s| > 0 && s[0] < a
    requires multiset(t) == multiset(s[1..]) + multiset{a} && |t| > 0
    ensures s[0] <= t[0]
  {
    assert t[0] in multiset(t);
    if t[0] != a {
      assert t[0] in multiset(s[1..]);
      var i :| 0 <= i < |s[1..]| && s[1..][i] == t[0];
      assert s[1..][i] == s[i + 1];
    }
  }

  /** Inserting into a sorted list keeps it sorted and adds exactly the one entry. */
  function Insert(a: real, s: seq<real>): (r: seq<real>)
    requires Sorted(s)
    ensures |r| == |s| + 1
    ensures Sorted(r) && multiset(r) == multiset(s) + multiset{a}
  {
    if |s| == 0 then [a]
    else if a <= s[0] then
      SortedCons(a, s);
      [a] + s
    else
      SortedTail(s);
      var tail := Insert(a, s[1..]);
      HeadIsLeast(s, a, tail);
      SortedCons(s[0], tail);
      assert s == [s[0]] + s[1..];
      [s[0]] + tail
  }

  /** The incomes in ascending order (np.sort): a sorted permutation of its input. */
  function Sort(s: seq<real>): (r: seq<real>)
    ensures |r| == |s|
    ensures Sorted(r) && multiset(r) == multiset(s)
  {
    if |s| == 0 then []
    else
      assert s == s[..|s| - 1] + [s[|s| - 1]];
      Insert(s[|s| - 1], Sort(s[..|s| - 1]))
  }

  /** Two sorted permutations of each other start with the same least entry. */
  lemma SameLeast(a: seq<real>, b: seq<real>)
    requires Sorted(a) && Sorted(b) && multiset(a) == multiset(b) && |a| > 0
    ensures |b| > 0 && a[0] == b[0]
  {
    assert a[0] in multiset(b);
    var i :| 0 <= i < |b| && b[i] == a[0];
    assert b[0] in multiset(a);
    var j :| 0 <= j < |a| && a[j] == b[0];
    assert a[0] <= a[j] && b[0] <= b[i];
  }

  /** Removing the same first entry from two permutations of each other leaves two
      permutations of each other. */
  lemma DropSameFirst(a: seq<real>, b: seq<real>)
    requires multiset(a) == multiset(b) && |a| > 0 && |b| > 0 && a[0] == b[0]
    ensures multiset(a[1..]) == multiset(b[1..])
  {
    assert a == [a[0]] + a[1..];
    assert b == [b[0]] + b[1..];
    assert multiset(a[1..]) == multiset(a) - multiset{a[0]};
    assert multiset(b[1..]) == multiset(b) - multiset{b[0]};
  }

  lemma SortedTail(a: seq<real>)
    requires Sorted(a) && |a| > 0
    ensures Sorted(a[1..])
  {
    forall k, l | 0 <= k < l < |a| - 1
      ensures a[1..][k] <= a[1..][l]
    {
      assert a[1..][k] == a[k + 1] && a[1..][l] == a[l + 1];
    }
  }

  /** A multiset has one ascending arrangement: two sorted permutations of each other
      are equal. */
  lemma {:induction false} SortedUnique(a: seq<real>, b: seq<real>)
    requires Sorted(a) && Sorted(b) && multiset(a) == multiset(b)
    ensures a == b
    decreases |a|
  {
    if |a| == 0 {
      assert |b| == |multiset(b)| == 0;
    } else {
      SameLeast(a, b);
      DropSameFirst(a, b);
      SortedTail(a);
      SortedTail(b);
      SortedUnique(a[1..], b[1..]);
      assert a == [a[0]] + a[1..];
      assert b == [b[0]] + b[1..];
    }
  }

  /** Sorting a list that is already sorted leaves it as it is. */
  lemma SortSorted(s: seq<real>)
    requires Sorted(s)
    ensures Sort(s) == s
  {
    SortedUnique(Sort(s), s);
  }

  /* ------------------------------------------------------------------ sums */

  /** The sum of absolute incomes, the quantity the trivial-case guard tests. */
  function SumAbs(s: seq<real>): (r: real)
    ensures r >= 0.0
  {
    if |s| == 0 then 0.0 else SumAbs(s[..|s| - 1]) + Abs(s[|s| - 1])
  }

  predicate AllZero(s: seq<real>)
  {
    forall i :: 0 <= i < |s| ==> s[i] == 0.0
  }

  /** The absolute sum vanishes exactly when every income is zero. */
  lemma {:induction false} SumAbsZero(s: seq<real>)
    ensures SumAbs(s) == 0.0 <==> AllZero(s)
  {
    if |s| > 0 {
      var front := s[..|s| - 1];
      SumAbsZero(front);
      if AllZero(s) {
        assert AllZero(front) by {
          forall i | 0 <= i < |front|
            ensures front[i] == 0.0
          {
            assert front[i] == s[i];
          }
        }
      }
      if SumAbs(s) == 0.0 {
        forall i | 0 <= i < |s|
          ensures s[i] == 0.0
        {
          if i < |s| - 1 {
            assert s[i] == front[i];
          }
        }
      }
    }
  }

  lemma MultisetCancel(m: multiset<real>, k: multiset<real>, a: real)
    requires m + multiset{a} == k + multiset{a}
    ensures m == k
  {
    assert m == (m + multiset{a}) - multiset{a};
    assert k == (k + multiset{a}) - multiset{a};
  }

  /** Reordering a list does not change its sum. */
  lemma {:induction false} SumPermutation(x: seq<real>, y: seq<real>)
    requires multiset(x) == multiset(y)
    ensures Sum(x) == Sum(y)
    decreases |x|
  {
    assert |x| == |multiset(x)| == |multiset(y)| == |y|;
    if |x| > 0 {
      var front, a := x[..|x| - 1], x[|x| - 1];
      assert x == front + [a];
      assert a in multiset(y);
      var j :| 0 <= j < |y| && y[j] == a;
      var before, after := y[..j], y[j + 1..];
      assert y == before + [a] + after;
      assert multiset(y) == multiset(before) + multiset{a} + multiset(after);
      assert multiset(x) == multiset(front) + multiset{a};
      assert multiset(before + after) == multiset(before) + multiset(after);
      MultisetCancel(multiset(front), multiset(before + after), a);
      SumPermutation(front, before + after);
      SumConcat(before, after);
      SumConcat(before + [a], after);
      SumConcat(before, [a]);
      assert Sum([a]) == a by { assert [a][..0] == []; }
    }
  }

  /** Every income zero makes the sum zero. */
  lemma AllZeroSum(s: seq<real>)
    requires AllZero(s)
    ensures Sum(s) == 0.0
  {
    SumBounds(s, 0.0, 0.0);
  }

  /* ------------------------------------------------------------------ Gini */

  /** The weighted sum of the Gini numerator: entry i (counting from 1) carries weight
      2i - n - 1, where n is the length of the full list. */
  function WSum(s: seq<real>, n: int): real
  {
    if |s| == 0 then 0.0
    else WSum(s[..|s| - 1], n) + (2 * |s| - n - 1) as real * s[|s| - 1]
  }

  /** Raising n by one lowers every weight by one. */
  lemma {:induction false} WSumShift(s: seq<real>, n: int)
    ensures WSum(s, n) == WSum(s, n - 1) - Sum(s)
  {
    if |s| > 0 {
      var front, a := s[..|s| - 1], s[|s| - 1];
      var k := 2 * |s| - n - 1;
      WSumShift(front, n);
      WSumStep(s, n);
      WSumStep(s, n - 1);
      SameProduct((2 * |s| - (n - 1) - 1) as real, k as real + 1.0, a, a);
      assert (k as real + 1.0) * a == k as real * a + a;
    }
  }

  /** One unfolding of the weighted sum: the last entry carries weight 2|s| - n - 1. */
  lemma WSumStep(s: seq<real>, n: int)
    requires |s| > 0
    ensures WSum(s, n) == WSum(s[..|s| - 1], n) + (2 * |s| - n - 1) as real * s[|s| - 1]
  {
  }

  /** Dropping the last of k + 1 incomes, each list weighted by its own length:
      W(s) = W(front) + k*a - Sum(front). */
  lemma WSumLast(s: seq<real>, n: int)
    requires |s| > 0 && n == |s|
    ensures WSum(s, n) == WSum(s[..|s| - 1], n - 1) + (n - 1) as real * s[|s| - 1] - Sum(s[..|s| - 1])
  {
    WSumStep(s, n);
    assert 2 * |s| - n - 1 == n - 1;
    WSumShift(s[..|s| - 1], n);
  }

  /** In ascending order larger incomes carry larger weights, so the numerator is
      non-negative (it is the sum of all pairwise differences). */
  lemma {:induction false} SortedWSumNonNegative(s: seq<real>)
    requires Sorted(s)
    ensures WSum(s, |s|) >= 0.0
  {
    if |s| > 0 {
      var front, a := s[..|s| - 1], s[|s| - 1];
      assert Sorted(front);
      SortedWSumNonNegative(front);
      WSumLast(s, |s|);
      SumBounds(front, s[0], a);
    }
  }

  /** With non-negative incomes every weight is at most n - 1. */
  lemma {:induction false} WSumUpper(s: seq<real>, n: int)
    requires |s| <= n
    requires forall i :: 0 <= i < |s| ==> s[i] >= 0.0
    ensures WSum(s, n) <= (n - 1) as real * Sum(s)
  {
    if |s| > 0 {
      var front, a := s[..|s| - 1], s[|s| - 1];
      var k := (2 * |s| - n - 1) as real;
      WSumUpper(front, n);
      WSumStep(s, n);
      assert WSum(s, n) == WSum(front, n) + k * a;
      MulIncreasing(a, k, (n - 1) as real);
      assert k * a <= (n - 1) as real * a;
      assert Sum(s) == Sum(front) + a;
      assert (n - 1) as real * Sum(s) == (n - 1) as real * Sum(front) + (n - 1) as real * a;
    }
  }

  /** A constant list of m incomes c, weighted for length n, sums to c*m*(m - n). */
  lemma {:induction false} WSumConstant(c: real, m: nat, n: int)
    ensures WSum(seq(m, _ => c), n) == c * (m * (m - n)) as real
  {
    if m > 0 {
      var s := seq(m, _ => c);
      assert s[..m - 1] == seq(m - 1, _ => c);
      WSumConstant(c, m - 1, n);
      assert (m - 1) * (m - 1 - n) + (2 * m - n - 1) == m * (m - n);
      assert c * ((m - 1) * (m - 1 - n)) as real + (2 * m - n - 1) as real * c
          == c * (((m - 1) * (m - 1 - n)) + (2 * m - n - 1)) as real;
    }
  }

  /** The Gini ratio of incomes already in ascending order: the weighted sum over n
      times the sum. */
  function GiniRatio(s: seq<real>): real
    requires Sum(s) != 0.0
  {
    NonZeroProduct(|s| as real, Sum(s));
    Div(WSum(s, |s|), |s| as real * Sum(s))
  }

  /** `calculate_gini`: 0.0 for no incomes or when every income is zero (absolute sum
      zero); otherwise the Gini ratio of the incomes in ascending order. When the incomes
      cancel to a zero sum without all being zero, numpy divides by zero; that case is
      None. */
  function CalculateGini(incomes: seq<real>): (r: Option<real>)
  {
    if |incomes| == 0 || SumAbs(incomes) == 0.0 then Some(0.0)
    else
      var s := Sort(incomes);
      if Sum(s) == 0.0 then None else Some(GiniRatio(s))
  }

  /** The coefficient is undefined exactly when the incomes are not all zero but sum to
      zero. */
  lemma GiniUndefined(incomes: seq<real>)
    ensures CalculateGini(incomes).None? <==> !AllZero(incomes) && Sum(incomes) == 0.0
  {
    SumAbsZero(incomes);
    SumPermutation(Sort(incomes), incomes);
  }

  /** No incomes, or only zero incomes, give a coefficient of 0. */
  lemma GiniOfZeroIncomes(incomes: seq<real>)
    requires AllZero(incomes)
    ensures CalculateGini(incomes) == Some(0.0)
  {
    SumAbsZero(incomes);
  }

  /** The coefficient does not depend on the order of the incomes. */
  lemma GiniPermutationInvariant(x: seq<real>, y: seq<real>)
    requires multiset(x) == multiset(y)
    ensures CalculateGini(x) == CalculateGini(y)
  {
    assert |x| == |multiset(x)| == |multiset(y)| == |y|;
    SortedUnique(Sort(x), Sort(y));
    SumAbsZero(x);
    SumAbsZero(y);
    if AllZero(x) {
      forall j | 0 <= j < |y|
        ensures y[j] == 0.0
      {
        assert y[j] in multiset(x);
      }
    } else if AllZero(y) {
      forall i | 0 <= i < |x|
        ensures x[i] == 0.0
      {
        assert x[i] in multiset(y);
      }
    }
  }

  /** n equal incomes give a coefficient of 0: the weights 2i - n - 1 sum to zero. */
  lemma GiniEqualIncomes(c: real, n: nat)
    requires n > 0
    ensures CalculateGini(seq(n, _ => c)) == Some(0.0)
  {
    var s := seq(n, _ => c);
    if c == 0.0 {
      GiniOfZeroIncomes(s);
    } else {
      assert s[0] != 0.0;
      ConstantRatioZero(c, n);
      GiniIsRatio(s);
      SortSorted(s);
    }
  }

  /** n equal non-zero incomes have a non-zero sum and a Gini ratio of 0. */
  lemma ConstantRatioZero(c: real, n: nat)
    requires n > 0 && c != 0.0
    ensures Sum(seq(n, _ => c)) != 0.0 && GiniRatio(seq(n, _ => c)) == 0.0
  {
    var s := seq(n, _ => c);
    SumBounds(s, c, c);
    NonZeroProduct(n as real, c);
    WSumConstant(c, n, n);
    assert WSum(s, n) == 0.0;
    DivZero(n as real * Sum(s));
  }

  /** Past the trivial cases and the zero-sum case, the coefficient is the Gini ratio of
      the sorted incomes, whose sum is the sum of the incomes. */
  lemma GiniIsRatio(incomes: seq<real>)
    requires !AllZero(incomes) && Sum(incomes) != 0.0
    ensures Sum(Sort(incomes)) == Sum(incomes)
    ensures CalculateGini(incomes) == Some(GiniRatio(Sort(incomes)))
  {
    SumAbsZero(incomes);
    SumPermutation(Sort(incomes), incomes);
  }

  /** Ascending incomes with a positive sum have a non-negative ratio. */
  lemma SortedRatioNonNegative(s: seq<real>)
    requires Sorted(s) && Sum(s) > 0.0
    ensures GiniRatio(s) >= 0.0
  {
    SortedWSumNonNegative(s);
    MulStrictlyIncreasing(|s| as real, 0.0, Sum(s));
    DivSign(WSum(s, |s|), |s| as real * Sum(s));
  }

  /** Non-negative incomes with a positive sum have a ratio below 1: at most (n - 1)/n. */
  lemma RatioBelowOne(s: seq<real>)
    requires Sum(s) > 0.0
    requires forall i :: 0 <= i < |s| ==> s[i] >= 0.0
    ensures GiniRatio(s) < 1.0
  {
    var n := |s|;
    assert n > 0;
    var total := Sum(s);
    WSumUpper(s, n);
    assert (n - 1) as real == n as real - 1.0;
    assert n as real * total == (n - 1) as real * total + total;
    MulStrictlyIncreasing(n as real, 0.0, total);
    DivVersusOne(WSum(s, n), n as real * total);
    assert WSum(s, n) < n as real * total;
    assert Div(WSum(s, n), n as real * total) < 1.0;
    assert GiniRatio(s) == Div(WSum(s, n), n as real * total);
  }

  /** Incomes with a positive sum have a defined, non-negative coefficient. */
  lemma GiniNonNegative(incomes: seq<real>)
    requires Sum(incomes) > 0.0
    ensures CalculateGini(incomes).Some? && CalculateGini(incomes).value >= 0.0
  {
    if AllZero(incomes) {
      AllZeroSum(incomes);
    }
    GiniIsRatio(incomes);
    SortedRatioNonNegative(Sort(incomes));
  }

  /** Non-negative incomes with a positive sum have a coefficient below 1. */
  lemma GiniBelowOne(incomes: seq<real>)
    requires Sum(incomes) > 0.0
    requires forall i :: 0 <= i < |incomes| ==> incomes[i] >= 0.0
    ensures CalculateGini(incomes).Some? && CalculateGini(incomes).value < 1.0
  {
    if AllZero(incomes) {
      AllZeroSum(incomes);
    }
    GiniIsRatio(incomes);
    var s := Sort(incomes);
    forall i | 0 <= i < |s|
      ensures s[i] >= 0.0
    {
      assert s[i] in multiset(incomes);
    }
    RatioBelowOne(s);
  }

  /* --------------------------------------------------------------- welfare */

  /** The `s` column: each creator's share of aggregate effective effort, w / W_eq when
      W_eq is positive and 0 otherwise. */
  function ShareColumn(w: seq<real>, wEq: real): (s: seq<real>)
    ensures |s| == |w|
    ensures wEq > 0.0 ==> forall i :: 0 <= i < |w| ==> s[i] * wEq == w[i]
    ensures wEq <= 0.0 ==> forall i :: 0 <= i < |w| ==> s[i] == 0.0
  {
    if wEq > 0.0 then
      seq(|w|, i requires 0 <= i < |w| => (DivMul(w[i], wEq); Div(w[i], wEq)))
    else
      seq(|w|, _ => 0.0)
  }

  /** When W_eq is the mean of the `w` column, as the solver returns it, the shares
      average exactly 1. */
  lemma MeanShareIsOne(w: seq<real>, wEq: real)
    requires |w| > 0 && wEq > 0.0 && wEq == Mean(w)
    ensures Mean(ShareColumn(w, wEq)) == 1.0
  {
    var s := ShareColumn(w, wEq);
    var n := |w| as real;
    SumScaled(s, w, wEq);
    DivMul(Sum(w), n);
    assert wEq * Sum(s) == wEq * n;
    CancelPositive(Sum(s), n, wEq);
    DivSelf(n);
  }

  /** At the equilibrium the solver returns, with a positive W_eq, the shares of the
      returned table average exactly 1. */
  lemma EquilibriumSharesAverageOne(p: Params, oracle: RootOracle, grid: seq<real>, tolerance: real, maxIterations: nat)
    requires WellPosed(p) && |grid| > 0 && AllTalents(grid) && maxIterations >= 1
    requires Last(Iteration(p, oracle, grid, tolerance, maxIterations)).wNew > 0.0
    ensures var pr := Last(Iteration(p, oracle, grid, tolerance, maxIterations));
      |pr.w| > 0 && Mean(ShareColumn(pr.w, pr.wNew)) == 1.0
  {
    var pr := Last(Iteration(p, oracle, grid, tolerance, maxIterations));
    ReturnedPass(p, oracle, grid, tolerance, maxIterations);
    MeanShareIsOne(pr.w, pr.wNew);
  }

  /** The `v` column: each creator's value score at its talent and chosen differentiation. */
  function ValueColumn(p: Params, rs: seq<Record>): (v: seq<real>)
    ensures |v| == |rs|
    ensures forall i :: 0 <= i < |rs| ==> v[i] == Value(p, rs[i].theta, rs[i].strategy.deltaStar)
  {
    seq(|rs|, i requires 0 <= i < |rs| => Value(p, rs[i].theta, rs[i].strategy.deltaStar))
  }

  /** With non-negative weights, every creator with non-negative talent and
      differentiation has a value score of at least the intercept. */
  lemma ValueColumnAtLeastIntercept(p: Params, rs: seq<Record>)
    requires p.beta1 >= 0.0 && p.beta2 >= 0.0
    requires forall i :: 0 <= i < |rs| ==> rs[i].theta >= 0.0 && rs[i].strategy.deltaStar >= 0.0
    ensures forall i :: 0 <= i < |rs| ==> ValueColumn(p, rs)[i] >= p.beta0
  {
    forall i | 0 <= i < |rs|
      ensures ValueColumn(p, rs)[i] >= p.beta0
    {
      ValueAtLeastIntercept(p, rs[i].theta, rs[i].strategy.deltaStar);
    }
  }

  /** The entrywise product of two columns of equal length. */
  function Product(a: seq<real>, b: seq<real>): (c: seq<real>)
    requires |a| == |b|
    ensures |c| == |a|
    ensures forall i :: 0 <= i < |a| ==> c[i] == a[i] * b[i]
  {
    seq(|a|, i requires 0 <= i < |a| => a[i] * b[i])
  }

  /** The results dictionary of the analysis. */
  datatype WelfareReport = WelfareReport(
    creatorRent: real,
    platformProfit: real,
    consumerSurplus: real,
    totalWelfare: real,
    gini: Option<real>,
    adoptionRate: real,
    averageEffort: real,
    averageDifferentiation: real)

  /** Consumer surplus: kappa times the mean over creators of market share times value
      score; every share, and so the surplus, is 0 when W_eq <= 0. */
  function ConsumerSurplus(rs: seq<Record>, w: seq<real>, wEq: real, p: Params): (cs: real)
    requires |rs| > 0 && |w| == |rs|
    ensures wEq <= 0.0 ==> cs == 0.0
  {
    var surplusColumn := Product(ShareColumn(w, wEq), ValueColumn(p, rs));
    assert wEq <= 0.0 ==> Mean(surplusColumn) == 0.0 by {
      if wEq <= 0.0 {
        forall i | 0 <= i < |surplusColumn|
          ensures surplusColumn[i] == 0.0
        {
          assert ShareColumn(w, wEq)[i] == 0.0;
        }
        MeanBounds(surplusColumn, 0.0, 0.0);
      }
    }
    p.kappa * Mean(surplusColumn)
  }

  /** With non-negative surplus weight, effective efforts and value weights, and creators
      with non-negative talent, differentiation and intercept, consumer surplus is
      non-negative. */
  lemma SurplusNonNegative(rs: seq<Record>, w: seq<real>, wEq: real, p: Params)
    requires |rs| > 0 && |w| == |rs|
    requires p.kappa >= 0.0 && p.beta0 >= 0.0 && p.beta1 >= 0.0 && p.beta2 >= 0.0
    requires forall i :: 0 <= i < |w| ==> w[i] >= 0.0
    requires forall i :: 0 <= i < |rs| ==> rs[i].theta >= 0.0 && rs[i].strategy.deltaStar >= 0.0
    ensures ConsumerSurplus(rs, w, wEq, p) >= 0.0
  {
    if wEq > 0.0 {
      var share, value := ShareColumn(w, wEq), ValueColumn(p, rs);
      var column := Product(share, value);
      ValueColumnAtLeastIntercept(p, rs);
      forall i | 0 <= i < |column|
        ensures column[i] >= 0.0
      {
        NonNegativeFactor(share[i], wEq);
        MulNonNegative(share[i], value[i]);
      }
      MeanNonNegative(column);
      MulNonNegative(p.kappa, Mean(column));
    }
  }

  /** When every creator has the same value score v0 and W_eq is the mean of the `w`
      column, the shares average 1 and consumer surplus is exactly kappa * v0. */
  lemma SurplusAtEqualValues(rs: seq<Record>, w: seq<real>, wEq: real, p: Params, v0: real)
    requires |rs| > 0 && |w| == |rs| && wEq > 0.0 && wEq == Mean(w)
    requires forall i :: 0 <= i < |rs| ==> Value(p, rs[i].theta, rs[i].strategy.deltaStar) == v0
    ensures ConsumerSurplus(rs, w, wEq, p) == p.kappa * v0
  {
    var share, value := ShareColumn(w, wEq), ValueColumn(p, rs);
    var column := Product(share, value);
    var n := |w| as real;
    MeanShareIsOne(w, wEq);
    forall i | 0 <= i < |share|
      ensures column[i] == v0 * share[i]
    {
      assert value[i] == v0;
    }
    SumScaled(share, column, v0);
    DivMul(Sum(share), n);
    assert Sum(share) == n;
    DivMul(Sum(column), n);
    assert Mean(column) * n == v0 * n;
    CancelPositive(Mean(column), v0, n);
  }

  /** The welfare of a table of records with effective-effort column `w` at aggregate
      W_eq: total welfare is creator rent (mean payoff) plus platform profit (eta * W_eq)
      plus consumer surplus; the adoption rate is the mean adoption, a fraction, and the
      averages are the means of the effort and differentiation columns. */
  function WelfareOf(rs: seq<Record>, w: seq<real>, wEq: real, p: Params): (report: WelfareReport)
    requires |rs| > 0 && |w| == |rs|
    ensures report.totalWelfare == report.creatorRent + report.platformProfit + report.consumerSurplus
    ensures report.platformProfit == p.eta * wEq
    ensures report.creatorRent == Mean(PayoffColumn(rs))
    ensures report.consumerSurplus == ConsumerSurplus(rs, w, wEq, p)
    ensures wEq <= 0.0 ==> report.consumerSurplus == 0.0
    ensures report.gini == CalculateGini(PayoffColumn(rs))
    ensures report.adoptionRate == Mean(AdoptionColumn(rs)) && 0.0 <= report.adoptionRate <= 1.0
    ensures report.averageEffort == Mean(EffortColumn(rs))
    ensures report.averageDifferentiation == Mean(DeltaColumn(rs))
  {
    var rent := Mean(PayoffColumn(rs));
    var profit := p.eta * wEq;
    var surplus := ConsumerSurplus(rs, w, wEq, p);
    MeanBounds(AdoptionColumn(rs), 0.0, 1.0);
    WelfareReport(rent, profit, surplus, rent + profit + surplus, CalculateGini(PayoffColumn(rs)),
                  Mean(AdoptionColumn(rs)), Mean(EffortColumn(rs)), Mean(DeltaColumn(rs)))
  }

  /** The report assembled from the `s` and `v` columns, as the analysis computes it, is
      the welfare of the table. */
  lemma ReportFromColumns(rs: seq<Record>, w: seq<real>, wEq: real, p: Params, s: seq<real>, v: seq<real>)
    requires |rs| > 0 && |w| == |rs|
    requires s == ShareColumn(w, wEq) && v == ValueColumn(p, rs)
    ensures var rent, profit, surplus := Mean(PayoffColumn(rs)), p.eta * wEq, p.kappa * Mean(Product(s, v));
      WelfareReport(rent, profit, surplus, rent + profit + surplus, CalculateGini(PayoffColumn(rs)),
                    Mean(AdoptionColumn(rs)), Mean(EffortColumn(rs)), Mean(DeltaColumn(rs)))
        == WelfareOf(rs, w, wEq, p)
  {
  }

  /** `run_welfare_analysis`: adds the `s` and `v` columns to the table in place, changing
      nothing else in it, and reports the welfare of the table. */
  method RunWelfareAnalysis(table: Frame, wEq: real, p: Params) returns (report: WelfareReport)
    requires table.Valid() && |table.records| > 0 && "w" in table.columns
    modifies table
    ensures table.records == old(table.records)
    ensures table.columns
      == old(table.columns)["s" := ShareColumn(old(table.columns)["w"], wEq)]["v" := ValueColumn(p, table.records)]
    ensures table.Valid()
    ensures report == WelfareOf(table.records, old(table.columns)["w"], wEq, p)
  {
    var rs := table.records;
    var w := table.columns["w"];
    var rent := Mean(PayoffColumn(rs));
    var profit := p.eta * wEq;
    table.AssignColumn("s", ShareColumn(w, wEq));
    table.AssignColumn("v", ValueColumn(p, rs));
    var s, v := table.columns["s"], table.columns["v"];
    var surplus := p.kappa * Mean(Product(s, v));
    var total := rent + profit + surplus;
    var gini := CalculateGini(PayoffColumn(rs));
    report := WelfareReport(rent, profit, surplus, total, gini,
                            Mean(AdoptionColumn(rs)), Mean(EffortColumn(rs)), Mean(DeltaColumn(rs)));
    ReportFromColumns(rs, w, wEq, p, s, v);
  }
}
