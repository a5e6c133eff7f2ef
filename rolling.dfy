/** pandas rolling windows over a column: `rolling(window=w,
    min_periods=m).mean()` and `.std()`.  Missing entries are not
    observations; a window yields a value only when it holds at least `m`
    observations (and at least one for the mean, two for the sample
    standard deviation, which divides by the count minus one). */
module Rolling {
  import opened Numeric

  /** First row of the trailing window of `w` rows that ends at row `i`. */
  function WindowStart(i: nat, w: nat): nat
  {
    if i + 1 >= w then i + 1 - w else 0
  }

  /** The trailing window ending at row `i`: `w` rows, or all rows up to
      `i` near the start of the series. */
  function TrailingWindow<T>(xs: seq<T>, i: nat, w: nat): (win: seq<T>)
    requires i < |xs|
    ensures |win| == if i + 1 >= w then w else i + 1
  {
    xs[WindowStart(i, w)..i + 1]
  }

  function WindowMean(win: seq<Option<real>>, minPeriods: nat): Option<real>
  {
    var obs := Observations(win);
    if |obs| >= minPeriods && |obs| >= 1 then Some(Mean(obs)) else None
  }

  function WindowStd(win: seq<Option<real>>, minPeriods: nat, sqrt: real -> real): Option<real>
  {
    var obs := Observations(win);
    if |obs| >= minPeriods && |obs| >= 2 then Some(sqrt(SampleVariance(obs))) else None
  }

  /** `rolling(window=w, min_periods=minPeriods).mean()`. */
  function RollingMean(xs: seq<Option<real>>, w: nat, minPeriods: nat): (r: seq<Option<real>>)
    ensures |r| == |xs|
  {
    seq(|xs|, i requires 0 <= i < |xs| => WindowMean(TrailingWindow(xs, i, w), minPeriods))
  }

  /** `rolling(window=w, min_periods=minPeriods).std()` (ddof = 1), with
      the square root supplied by the numeric library. */
  function RollingStd(xs: seq<Option<real>>, w: nat, minPeriods: nat, sqrt: real -> real): (r: seq<Option<real>>)
    ensures |r| == |xs|
  {
    seq(|xs|, i requires 0 <= i < |xs| => WindowStd(TrailingWindow(xs, i, w), minPeriods, sqrt))
  }

  /** On a column without missing entries the observations of a window are
      the window's own values. */
  lemma WindowOfComplete(xs: seq<Option<real>>, i: nat, w: nat)
    requires AllPresent(xs) && i < |xs|
    ensures Observations(TrailingWindow(xs, i, w)) == Values(xs)[WindowStart(i, w)..i + 1]
  {
    var win := TrailingWindow(xs, i, w);
    assert AllPresent(win) by {
      forall k | 0 <= k < |win| ensures win[k].Some? {
        assert win[k] == xs[WindowStart(i, w) + k];
      }
    }
    ObservationsOfComplete(win);
    assert Values(win) == Values(xs)[WindowStart(i, w)..i + 1];
  }

  /** Full-window rule (min_periods = window): on a complete column the
      mean is missing before row `w - 1` and is the mean of exactly the `w`
      values ending at the row from there on. */
  lemma FullWindowMean(xs: seq<Option<real>>, w: nat, i: nat)
    requires AllPresent(xs) && 1 <= w && i < |xs|
    ensures RollingMean(xs, w, w)[i].Some? <==> w <= i + 1
    ensures w <= i + 1 ==> RollingMean(xs, w, w)[i] == Some(Mean(Values(xs)[i + 1 - w..i + 1]))
  {
    WindowOfComplete(xs, i, w);
  }

  /** Shrinking-window rule (min_periods = 1): on a complete column the mean
      is defined at every row and averages the last min(i + 1, w) values. */
  lemma ShortWindowMean(xs: seq<Option<real>>, w: nat, i: nat)
    requires AllPresent(xs) && 1 <= w && i < |xs|
    ensures |Values(xs)[WindowStart(i, w)..i + 1]| == if i + 1 >= w then w else i + 1
    ensures RollingMean(xs, w, 1)[i] == Some(Mean(Values(xs)[WindowStart(i, w)..i + 1]))
  {
    WindowOfComplete(xs, i, w);
  }

  /** The sample standard deviation over a full window of a complete column
      is defined exactly from row `w - 1` on, and only for windows of at
      least two rows. */
  lemma FullWindowStd(xs: seq<Option<real>>, w: nat, i: nat, sqrt: real -> real)
    requires AllPresent(xs) && i < |xs|
    ensures RollingStd(xs, w, w, sqrt)[i].Some? <==> 2 <= w <= i + 1
    ensures 2 <= w <= i + 1 ==>
              RollingStd(xs, w, w, sqrt)[i] == Some(sqrt(SampleVariance(Values(xs)[i + 1 - w..i + 1])))
  {
    WindowOfComplete(xs, i, w);
  }

  /** Every defined standard deviation is a non-negative square root of the
      sample variance of its window's observations. */
  lemma RollingStdIsRoot(xs: seq<Option<real>>, w: nat, minPeriods: nat, sqrt: real -> real, i: nat)
    requires IsSquareRoot(sqrt) && i < |xs|
    requires RollingStd(xs, w, minPeriods, sqrt)[i].Some?
    ensures |Observations(TrailingWindow(xs, i, w))| >= 2
    ensures var s := RollingStd(xs, w, minPeriods, sqrt)[i].value;
            0.0 <= s && s * s == SampleVariance(Observations(TrailingWindow(xs, i, w)))
  {
    VarianceNonNegative(Observations(TrailingWindow(xs, i, w)));
  }
}
