/** Exact-real arithmetic shared by the indicator and forecasting modules:
    missing values, sums, means, the sample variance and the facts about
    them that the indicator proofs need. */
module Numeric {

  /** A value that may be missing (a pandas NaN is `None`). */
  datatype Option<+T> = None | Some(value: T)

  /** The outcome of an operation that can raise. */
  datatype Result<+T, +E> = Ok(value: T) | Err(error: E)

  /** Every entry is present. */
  predicate AllPresent(xs: seq<Option<real>>)
  {
    forall k :: 0 <= k < |xs| ==> xs[k].Some?
  }

  /** The values of a sequence without missing entries. */
  function Values(xs: seq<Option<real>>): (vs: seq<real>)
    requires AllPresent(xs)
    ensures |vs| == |xs|
    ensures forall k :: 0 <= k < |xs| ==> xs[k] == Some(vs[k])
  {
    seq(|xs|, k requires 0 <= k < |xs| => xs[k].value)
  }

  /** A sequence of reals seen as a column with no missing entry. */
  function Lift(vs: seq<real>): (xs: seq<Option<real>>)
    ensures |xs| == |vs| && AllPresent(xs)
    ensures forall k :: 0 <= k < |vs| ==> xs[k] == Some(vs[k])
  {
    seq(|vs|, k requires 0 <= k < |vs| => Some(vs[k]))
  }

  /** The present values of a column, in order (what pandas counts as
      observations in a window). */
  function Observations(xs: seq<Option<real>>): (obs: seq<real>)
    ensures |obs| <= |xs|
  {
    if |xs| == 0 then []
    else (if xs[0].Some? then [xs[0].value] else []) + Observations(xs[1..])
  }

  lemma {:induction false} ObservationsOfComplete(xs: seq<Option<real>>)
    requires AllPresent(xs)
    ensures Observations(xs) == Values(xs)
  {
    if |xs| > 0 {
      ObservationsOfComplete(xs[1..]);
      assert Values(xs) == [xs[0].value] + Values(xs[1..]);
    }
  }

  function Sum(xs: seq<real>): real
  {
    if |xs| == 0 then 0.0 else xs[0] + Sum(xs[1..])
  }

  function Mean(xs: seq<real>): real
    requires |xs| > 0
  {
    Sum(xs) / (|xs| as real)
  }

  /** Sum of squared deviations of `xs` from `m`. */
  function SquaredDeviation(xs: seq<real>, m: real): real
  {
    if |xs| == 0 then 0.0 else (xs[0] - m) * (xs[0] - m) + SquaredDeviation(xs[1..], m)
  }

  /** Sample variance, delta degrees of freedom 1. */
  function SampleVariance(xs: seq<real>): real
    requires |xs| >= 2
  {
    SquaredDeviation(xs, Mean(xs)) / ((|xs| - 1) as real)
  }

  /** `sqrt` is the non-negative square root on the non-negative reals. */
  ghost predicate IsSquareRoot(sqrt: real -> real)
  {
    forall x: real :: 0.0 <= x ==> 0.0 <= sqrt(x) && sqrt(x) * sqrt(x) == x
  }

  lemma {:induction false} SumOfConstant(xs: seq<real>, v: real)
    requires forall k :: 0 <= k < |xs| ==> xs[k] == v
    ensures Sum(xs) == (|xs| as real) * v
  {
    if |xs| > 0 {
      SumOfConstant(xs[1..], v);
    }
  }

  lemma MeanOfConstant(xs: seq<real>, v: real)
    requires |xs| > 0
    requires forall k :: 0 <= k < |xs| ==> xs[k] == v
    ensures Mean(xs) == v
  {
    SumOfConstant(xs, v);
  }

  lemma {:induction false} SumNonNegative(xs: seq<real>)
    requires forall k :: 0 <= k < |xs| ==> 0.0 <= xs[k]
    ensures 0.0 <= Sum(xs)
  {
    if |xs| > 0 {
      SumNonNegative(xs[1..]);
    }
  }

  /** A sum of non-negative terms is positive iff one term is. */
  lemma {:induction false} SumPositive(xs: seq<real>)
    requires forall k :: 0 <= k < |xs| ==> 0.0 <= xs[k]
    ensures 0.0 < Sum(xs) <==> exists k :: 0 <= k < |xs| && 0.0 < xs[k]
  {
    if |xs| > 0 {
      SumPositive(xs[1..]);
      SumNonNegative(xs[1..]);
      if exists k :: 0 <= k < |xs| && 0.0 < xs[k] {
        var k :| 0 <= k < |xs| && 0.0 < xs[k];
        if k > 0 {
          assert 0.0 < xs[1..][k - 1];
        }
      } else {
        forall k | 0 <= k < |xs[1..]| ensures xs[1..][k] <= 0.0 {
          assert xs[1..][k] == xs[k + 1];
        }
      }
    }
  }

  lemma MeanNonNegative(xs: seq<real>)
    requires |xs| > 0
    requires forall k :: 0 <= k < |xs| ==> 0.0 <= xs[k]
    ensures 0.0 <= Mean(xs)
  {
    SumNonNegative(xs);
  }

  lemma {:induction false} SquaredDeviationNonNegative(xs: seq<real>, m: real)
    ensures 0.0 <= SquaredDeviation(xs, m)
  {
    if |xs| > 0 {
      SquaredDeviationNonNegative(xs[1..], m);
      SquareNonNegative(xs[0] - m);
    }
  }

  lemma {:induction false} SquaredDeviationOfConstant(xs: seq<real>, v: real)
    requires forall k :: 0 <= k < |xs| ==> xs[k] == v
    ensures SquaredDeviation(xs, v) == 0.0
  {
    if |xs| > 0 {
      SquaredDeviationOfConstant(xs[1..], v);
    }
  }

  lemma VarianceNonNegative(xs: seq<real>)
    requires |xs| >= 2
    ensures 0.0 <= SampleVariance(xs)
  {
    SquaredDeviationNonNegative(xs, Mean(xs));
  }

  lemma VarianceOfConstant(xs: seq<real>, v: real)
    requires |xs| >= 2
    requires forall k :: 0 <= k < |xs| ==> xs[k] == v
    ensures SampleVariance(xs) == 0.0
  {
    MeanOfConstant(xs, v);
    SquaredDeviationOfConstant(xs, v);
  }

  lemma SquareRootOfZero(sqrt: real -> real)
    requires IsSquareRoot(sqrt)
    ensures sqrt(0.0) == 0.0
  {
    var s := sqrt(0.0);
    assert 0.0 <= s && s * s == 0.0;
    if s > 0.0 {
      ZeroFactor(s, s);
    }
  }

  lemma ZeroFactor(a: real, b: real)
    requires 0.0 < a && a * b == 0.0
    ensures b == 0.0
  {
  }

  lemma SquareNonNegative(d: real)
    ensures 0.0 <= d * d
  {
    if d < 0.0 {
      assert 0.0 < (-d) * (-d);
    }
  }

  lemma DivideSum(a: real, b: real, d: real)
    requires d != 0.0
    ensures (a + b) / d == a / d + b / d
  {
  }

  lemma DivideProduct(a: real, d: real)
    requires d != 0.0
    ensures a * d / d == a
  {
  }

  lemma DivideByQuotient(a: real, d: real, s: real)
    requires 0.0 < d && 0.0 < s
    ensures a / (s / d) == a * d / s
  {
  }

  lemma ZeroMeanSlice(xs: seq<real>, lo: nat, hi: nat)
    requires lo < hi <= |xs|
    requires forall k :: 0 <= k < |xs| ==> xs[k] == 0.0
    ensures Mean(xs[lo..hi]) == 0.0
  {
    MeanOfConstant(xs[lo..hi], 0.0);
  }

  lemma PositiveMeanSlice(xs: seq<real>, lo: nat, hi: nat)
    requires lo < hi <= |xs|
    requires forall k :: 0 <= k < |xs| ==> 0.0 <= xs[k]
    requires 0.0 < xs[hi - 1]
    ensures 0.0 < Mean(xs[lo..hi])
  {
    var s := xs[lo..hi];
    assert s[|s| - 1] == xs[hi - 1];
    SumPositive(s);
  }
}
