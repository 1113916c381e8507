/** The equilibrium table: one strategy record per creator, plus named real-valued
    columns that the solver and the welfare analysis add to it in place. */
module DataFrames {
  import opened RealArith
  import opened Creators

  /** One row: the chosen strategy and the talent it was solved for. */
  datatype Record = Record(strategy: Strategy, theta: real)

  /** The sum of a column, accumulated from the front. */
  function Sum(s: seq<real>): real
  {
    if |s| == 0 then 0.0 else Sum(s[..|s| - 1]) + s[|s| - 1]
  }

  /** The arithmetic mean of a non-empty column. */
  function Mean(s: seq<real>): real
    requires |s| > 0
  {
    Div(Sum(s), |s| as real)
  }

  /** Summing a concatenation sums the parts. */
  lemma {:induction false} SumConcat(a: seq<real>, b: seq<real>)
    ensures Sum(a + b) == Sum(a) + Sum(b)
    decreases |b|
  {
    if |b| == 0 {
      assert a + b == a;
    } else {
      var b' := b[..|b| - 1];
      assert (a + b)[..|a + b| - 1] == a + b';
      SumConcat(a, b');
    }
  }

  /** The sum of a column whose entries all lie in [lo, hi] lies in [n*lo, n*hi]. */
  lemma {:induction false} SumBounds(s: seq<real>, lo: real, hi: real)
    requires forall i :: 0 <= i < |s| ==> lo <= s[i] <= hi
    ensures |s| as real * lo <= Sum(s) <= |s| as real * hi
  {
    if |s| > 0 {
      SumBounds(s[..|s| - 1], lo, hi);
    }
  }

  /** The mean of a column whose entries all lie in [lo, hi] lies in [lo, hi]. */
  lemma MeanBounds(s: seq<real>, lo: real, hi: real)
    requires |s| > 0
    requires forall i :: 0 <= i < |s| ==> lo <= s[i] <= hi
    ensures lo <= Mean(s) <= hi
  {
    SumBounds(s, lo, hi);
    DivBetween(Sum(s), |s| as real, lo, hi);
  }

  /** A column with no negative entry has a non-negative sum and mean. */
  lemma MeanNonNegative(s: seq<real>)
    requires |s| > 0
    requires forall i :: 0 <= i < |s| ==> s[i] >= 0.0
    ensures Sum(s) >= 0.0 && Mean(s) >= 0.0
  {
    SumNonNegative(s);
    DivSign(Sum(s), |s| as real);
  }

  lemma {:induction false} SumNonNegative(s: seq<real>)
    requires forall i :: 0 <= i < |s| ==> s[i] >= 0.0
    ensures Sum(s) >= 0.0
  {
    if |s| > 0 {
      SumNonNegative(s[..|s| - 1]);
    }
  }

  /** A column that is entrywise no larger than another has no larger sum and mean. */
  lemma {:induction false} SumMonotone(s: seq<real>, t: seq<real>)
    requires |s| == |t| && forall i :: 0 <= i < |s| ==> s[i] <= t[i]
    ensures Sum(s) <= Sum(t)
  {
    if |s| > 0 {
      SumMonotone(s[..|s| - 1], t[..|t| - 1]);
    }
  }

  lemma MeanMonotone(s: seq<real>, t: seq<real>)
    requires |s| == |t| > 0 && forall i :: 0 <= i < |s| ==> s[i] <= t[i]
    ensures Mean(s) <= Mean(t)
  {
    SumMonotone(s, t);
    DivSign(Sum(t) - Sum(s), |s| as real);
    assert Div(Sum(t), |s| as real) - Div(Sum(s), |s| as real) == Div(Sum(t) - Sum(s), |s| as real);
  }

  /** Multiplying every entry by k multiplies the sum by k. */
  lemma {:induction false} SumScaled(s: seq<real>, t: seq<real>, k: real)
    requires |t| == |s| && forall i :: 0 <= i < |s| ==> t[i] == k * s[i]
    ensures Sum(t) == k * Sum(s)
  {
    if |s| > 0 {
      SumScaled(s[..|s| - 1], t[..|t| - 1], k);
    }
  }

  /** The `delta_star` column. */
  function DeltaColumn(rs: seq<Record>): (col: seq<real>)
    ensures |col| == |rs|
    ensures forall i :: 0 <= i < |rs| ==> col[i] == rs[i].strategy.deltaStar
  {
    seq(|rs|, i requires 0 <= i < |rs| => rs[i].strategy.deltaStar)
  }

  /** The `e_star` column. */
  function EffortColumn(rs: seq<Record>): (col: seq<real>)
    ensures |col| == |rs|
    ensures forall i :: 0 <= i < |rs| ==> col[i] == rs[i].strategy.eStar
  {
    seq(|rs|, i requires 0 <= i < |rs| => rs[i].strategy.eStar)
  }

  /** The `payoff` column. */
  function PayoffColumn(rs: seq<Record>): (col: seq<real>)
    ensures |col| == |rs|
    ensures forall i :: 0 <= i < |rs| ==> col[i] == rs[i].strategy.payoff
  {
    seq(|rs|, i requires 0 <= i < |rs| => rs[i].strategy.payoff)
  }

  /** The `A_star` column, each entry 0 or 1. */
  function AdoptionColumn(rs: seq<Record>): (col: seq<real>)
    ensures |col| == |rs|
    ensures forall i :: 0 <= i < |rs| ==> col[i] == rs[i].strategy.aStar as real
    ensures forall i :: 0 <= i < |rs| ==> 0.0 <= col[i] <= 1.0
  {
    seq(|rs|, i requires 0 <= i < |rs| => rs[i].strategy.aStar as real)
  }

  /** The table itself: its strategy records and the derived columns added by name.
      Assigning a column that exists replaces it, as pandas column assignment does. */
  class Frame {
    var records: seq<Record>
    var columns: map<string, seq<real>>

    /** Every added column has one entry per record. */
    ghost predicate Valid()
      reads this
    {
      forall name :: name in columns ==> |columns[name]| == |records|
    }

    /** A table built from a list of strategy records, with no derived columns yet. */
    constructor (rs: seq<Record>)
      ensures records == rs && columns == map[]
      ensures Valid()
    {
      records := rs;
      columns := map[];
    }

    /** `df[name] = col`: adds or replaces one column and leaves everything else as it was. */
    method AssignColumn(name: string, col: seq<real>)
      requires Valid() && |col| == |records|
      modifies this
      ensures records == old(records)
      ensures columns == old(columns)[name := col]
      ensures Valid()
    {
      columns := columns[name := col];
    }
  }
}
