/** The indicator library of `src/data_analyzer.py`: simple moving
    averages, Bollinger bands and the relative strength index, as pure
    functions over the Close column, and the DataFrame methods that write
    them into the caller's frame. */
module DataAnalyzer {
  import opened Numeric
  import opened Frames
  import opened Rolling

  const Sma20: string := "SMA_20"
  const Sma50: string := "SMA_50"
  const Std20: string := "STD_20"
  const UpperBand: string := "Upper_Band"
  const LowerBand: string := "Lower_Band"
  const RsiName: string := "RSI"

  /** Half-width of the Bollinger envelope, in standard deviations. */
  const BandWidth: real := 2.0

  /** `close.rolling(window=w).mean()`: the full-window moving average. */
  function SimpleMovingAverage(close: Column, w: nat): (r: Column)
    ensures |r| == |close|
  {
    RollingMean(close, w, w)
  }

  /** The four columns written by `add_bollinger_bands`. */
  datatype Bands = Bands(center: Column, std: Column, upper: Column, lower: Column)

  /** `center + std * 2`, missing wherever either operand is. */
  function UpperOf(center: Column, std: Column): (r: Column)
    requires |center| == |std|
    ensures |r| == |center|
  {
    seq(|center|, i requires 0 <= i < |center| =>
      if center[i].Some? && std[i].Some? then Some(center[i].value + std[i].value * BandWidth) else None)
  }

  /** `center - std * 2`, missing wherever either operand is. */
  function LowerOf(center: Column, std: Column): (r: Column)
    requires |center| == |std|
    ensures |r| == |center|
  {
    seq(|center|, i requires 0 <= i < |center| =>
      if center[i].Some? && std[i].Some? then Some(center[i].value - std[i].value * BandWidth) else None)
  }

  function BollingerBands(close: Column, w: nat, sqrt: real -> real): (b: Bands)
    ensures |b.center| == |close| && |b.std| == |close|
    ensures |b.upper| == |close| && |b.lower| == |close|
  {
    var center := SimpleMovingAverage(close, w);
    var std := RollingStd(close, w, w, sqrt);
    Bands(center, std, UpperOf(center, std), LowerOf(center, std))
  }

  /** The bands are missing exactly where the average or the deviation is,
      and elsewhere sit symmetrically at two deviations around the average,
      upper above lower. */
  lemma BandsAroundCenter(close: Column, w: nat, sqrt: real -> real, i: nat)
    requires IsSquareRoot(sqrt) && i < |close|
    ensures var b := BollingerBands(close, w, sqrt);
            && (b.upper[i].Some? <==> b.center[i].Some? && b.std[i].Some?)
            && (b.lower[i].Some? <==> b.center[i].Some? && b.std[i].Some?)
            && (b.upper[i].Some? ==>
                  && b.upper[i].value - b.center[i].value == 2.0 * b.std[i].value
                  && b.center[i].value - b.lower[i].value == 2.0 * b.std[i].value
                  && b.lower[i].value <= b.center[i].value <= b.upper[i].value)
  {
    var b := BollingerBands(close, w, sqrt);
    if b.std[i].Some? {
      RollingStdIsRoot(close, w, w, sqrt, i);
    }
  }

  /** On a complete Close column the bands exist exactly from row `w - 1`
      on, and only for windows of two rows or more (a one-row sample
      deviation is undefined); the centre is the mean of the `w` closes
      ending at the row. */
  lemma BandsOfCompleteSeries(close: Column, w: nat, sqrt: real -> real, i: nat)
    requires AllPresent(close) && 1 <= w && i < |close|
    ensures var b := BollingerBands(close, w, sqrt);
            && (b.center[i].Some? <==> w <= i + 1)
            && (b.upper[i].Some? <==> 2 <= w <= i + 1)
            && (b.lower[i].Some? <==> 2 <= w <= i + 1)
            && (w <= i + 1 ==> b.center[i] == Some(Mean(Values(close)[i + 1 - w..i + 1])))
  {
    FullWindowMean(close, w, i);
    FullWindowStd(close, w, i, sqrt);
  }

  /** Over a window of identical closes the deviation is zero and both bands
      collapse onto the average, which is that close. */
  lemma BandsOfFlatWindow(close: Column, w: nat, sqrt: real -> real, i: nat, v: real)
    requires IsSquareRoot(sqrt) && AllPresent(close)
    requires 2 <= w <= i + 1 && i < |close|
    requires forall k :: i + 1 - w <= k <= i ==> close[k] == Some(v)
    ensures var b := BollingerBands(close, w, sqrt);
            b.std[i] == Some(0.0) && b.center[i] == Some(v) && b.upper[i] == Some(v) && b.lower[i] == Some(v)
  {
    var win := Values(close)[i + 1 - w..i + 1];
    assert forall k :: 0 <= k < |win| ==> win[k] == v by {
      forall k | 0 <= k < |win| ensures win[k] == v {
        assert close[i + 1 - w + k] == Some(v);
      }
    }
    FullWindowMean(close, w, i);
    FullWindowStd(close, w, i, sqrt);
    MeanOfConstant(win, v);
    VarianceOfConstant(win, v);
    SquareRootOfZero(sqrt);
  }

  /** `close.diff(1)`: missing at row 0 and wherever either close is. */
  function Delta(close: Column): (d: Column)
    ensures |d| == |close|
  {
    seq(|close|, i requires 0 <= i < |close| =>
      if i == 0 || close[i].None? || close[i - 1].None? then None
      else Some(close[i].value - close[i - 1].value))
  }

  /** `np.where(delta > 0, delta, 0)`: a missing change fails the test. */
  function Gain(d: Column): (g: seq<real>)
    ensures |g| == |d|
  {
    seq(|d|, i requires 0 <= i < |d| => if d[i].Some? && d[i].value > 0.0 then d[i].value else 0.0)
  }

  /** `np.where(delta < 0, -delta, 0)`. */
  function Loss(d: Column): (l: seq<real>)
    ensures |l| == |d|
  {
    seq(|d|, i requires 0 <= i < |d| => if d[i].Some? && d[i].value < 0.0 then -d[i].value else 0.0)
  }

  /** Per-row gain and loss split each price change: both non-negative, at
      most one non-zero, their difference the change; both are zero at row 0. */
  lemma GainLossSplit(close: Column, i: nat)
    requires i < |close|
    ensures var g, l := Gain(Delta(close))[i], Loss(Delta(close))[i];
            && 0.0 <= g && 0.0 <= l && (g == 0.0 || l == 0.0)
            && (i == 0 ==> g == 0.0 && l == 0.0)
            && (0 < i && close[i].Some? && close[i - 1].Some? ==> g - l == close[i].value - close[i - 1].value)
  {
  }

  /** `pd.Series(gain).rolling(window=w, min_periods=1).mean()`. */
  function AverageGain(close: Column, w: nat): (r: Column)
    ensures |r| == |close|
  {
    RollingMean(Lift(Gain(Delta(close))), w, 1)
  }

  /** `pd.Series(loss).rolling(window=w, min_periods=1).mean()`. */
  function AverageLoss(close: Column, w: nat): (r: Column)
    ensures |r| == |close|
  {
    RollingMean(Lift(Loss(Delta(close))), w, 1)
  }

  /** With min_periods = 1 both averages exist at every row, over the last
      min(i + 1, w) gains and losses. */
  lemma AveragesAlwaysDefined(close: Column, w: nat, i: nat)
    requires 1 <= w && i < |close|
    ensures |TrailingWindow(Gain(Delta(close)), i, w)| == if i + 1 >= w then w else i + 1
    ensures AverageGain(close, w)[i] == Some(Mean(TrailingWindow(Gain(Delta(close)), i, w)))
    ensures AverageLoss(close, w)[i] == Some(Mean(TrailingWindow(Loss(Delta(close)), i, w)))
  {
    var g, l := Gain(Delta(close)), Loss(Delta(close));
    assert Values(Lift(g)) == g;
    assert Values(Lift(l)) == l;
    ShortWindowMean(Lift(g), w, i);
    ShortWindowMean(Lift(l), w, i);
  }

  /** Averages of gains and losses are never negative. */
  lemma AveragesNonNegative(close: Column, w: nat)
    ensures forall i :: 0 <= i < |close| && AverageGain(close, w)[i].Some? ==> 0.0 <= AverageGain(close, w)[i].value
    ensures forall i :: 0 <= i < |close| && AverageLoss(close, w)[i].Some? ==> 0.0 <= AverageLoss(close, w)[i].value
  {
    var g, l := Gain(Delta(close)), Loss(Delta(close));
    ObservationsOfComplete(Lift(g));
    ObservationsOfComplete(Lift(l));
    forall i | 0 <= i < |close| && AverageGain(close, w)[i].Some?
      ensures 0.0 <= AverageGain(close, w)[i].value
    {
      WindowOfComplete(Lift(g), i, w);
      MeanNonNegative(Observations(TrailingWindow(Lift(g), i, w)));
    }
    forall i | 0 <= i < |close| && AverageLoss(close, w)[i].Some?
      ensures 0.0 <= AverageLoss(close, w)[i].value
    {
      WindowOfComplete(Lift(l), i, w);
      MeanNonNegative(Observations(TrailingWindow(Lift(l), i, w)));
    }
  }

  /** `100 - 100 / (1 + avg_gain / avg_loss)` with the floating-point limits
      written out: a zero average loss makes the ratio infinite and the
      index 100, unless the average gain is zero too (0 / 0 is NaN). */
  function RsiOf(avgGain: Option<real>, avgLoss: Option<real>): (r: Option<real>)
    requires avgGain.Some? ==> 0.0 <= avgGain.value
    requires avgLoss.Some? ==> 0.0 <= avgLoss.value
    ensures r.Some? <==> avgGain.Some? && avgLoss.Some? && 0.0 < avgGain.value + avgLoss.value
    ensures r.Some? ==> r.value == 100.0 * avgGain.value / (avgGain.value + avgLoss.value)
  {
    if avgGain.None? || avgLoss.None? then None
    else if avgLoss.value == 0.0 then (if avgGain.value == 0.0 then None else Some(100.0))
    else
      RsiRatio(avgGain.value, avgLoss.value);
      Some(100.0 - 100.0 / (1.0 + avgGain.value / avgLoss.value))
  }

  /** The RSI values of `add_rsi`, row by row. */
  function Rsi(close: Column, w: nat): (r: Column)
    ensures |r| == |close|
  {
    var ag, al := AverageGain(close, w), AverageLoss(close, w);
    AveragesNonNegative(close, w);
    seq(|close|, i requires 0 <= i < |close| => RsiOf(ag[i], al[i]))
  }

  lemma RsiRatio(g: real, l: real)
    requires 0.0 <= g && 0.0 < l
    ensures 100.0 - 100.0 / (1.0 + g / l) == 100.0 * g / (g + l)
  {
    var s := g + l;
    DivideSum(l, g, l);
    DivideProduct(1.0, l);
    assert 1.0 + g / l == s / l;
    DivideByQuotient(100.0, l, s);
    DivideProduct(100.0, s);
    DivideSum(100.0 * g, 100.0 * l, s);
    assert 100.0 * s == 100.0 * g + 100.0 * l;
  }

  lemma RatioBounds(g: real, s: real)
    requires 0.0 <= g <= s && 0.0 < s
    ensures 0.0 <= 100.0 * g / s <= 100.0
    ensures 100.0 * g / s == 100.0 <==> g == s
  {
  }

  /** RSI is defined exactly where the two averages are not both zero; it is
      then 100 * avg_gain / (avg_gain + avg_loss), within [0, 100], and it is
      100 exactly when the average loss is zero. */
  lemma RsiFormula(close: Column, w: nat, i: nat)
    requires 1 <= w && i < |close|
    ensures var g := Mean(TrailingWindow(Gain(Delta(close)), i, w));
            var l := Mean(TrailingWindow(Loss(Delta(close)), i, w));
            && 0.0 <= g && 0.0 <= l
            && (Rsi(close, w)[i].Some? <==> 0.0 < g + l)
            && (Rsi(close, w)[i].Some? ==>
                  && Rsi(close, w)[i].value == 100.0 * g / (g + l)
                  && 0.0 <= Rsi(close, w)[i].value <= 100.0
                  && (Rsi(close, w)[i].value == 100.0 <==> l == 0.0))
  {
    AveragesAlwaysDefined(close, w, i);
    AveragesNonNegative(close, w);
    var g := Mean(TrailingWindow(Gain(Delta(close)), i, w));
    var l := Mean(TrailingWindow(Loss(Delta(close)), i, w));
    if 0.0 < g + l {
      RatioBounds(g, g + l);
    }
  }

  /** The first row has no price change, so both averages are zero there and
      RSI is missing. */
  lemma RsiMissingAtFirstRow(close: Column, w: nat)
    requires 1 <= w && 0 < |close|
    ensures Rsi(close, w)[0] == None
  {
    AveragesAlwaysDefined(close, w, 0);
    var g := TrailingWindow(Gain(Delta(close)), 0, w);
    var l := TrailingWindow(Loss(Delta(close)), 0, w);
    MeanOfConstant(g, 0.0);
    MeanOfConstant(l, 0.0);
  }

  /** On strictly rising closes every loss is zero and every gain after
      row 0 positive. */
  lemma RisingChanges(close: Column)
    requires AllPresent(close)
    requires forall k :: 0 < k < |close| ==> close[k - 1].value < close[k].value
    ensures forall k :: 0 <= k < |close| ==> Loss(Delta(close))[k] == 0.0
    ensures forall k :: 0 <= k < |close| ==> 0.0 <= Gain(Delta(close))[k]
    ensures forall k :: 0 < k < |close| ==> 0.0 < Gain(Delta(close))[k]
  {
  }

  /** On strictly rising closes, from row 1 on the average loss is zero and
      the average gain positive. */
  lemma RisingAverages(close: Column, w: nat, i: nat)
    requires AllPresent(close) && 1 <= w && 0 < i < |close|
    requires forall k :: 0 < k < |close| ==> close[k - 1].value < close[k].value
    ensures Mean(TrailingWindow(Loss(Delta(close)), i, w)) == 0.0
    ensures 0.0 < Mean(TrailingWindow(Gain(Delta(close)), i, w))
  {
    RisingChanges(close);
    ZeroMeanSlice(Loss(Delta(close)), WindowStart(i, w), i + 1);
    PositiveMeanSlice(Gain(Delta(close)), WindowStart(i, w), i + 1);
  }

  /** On strictly rising closes RSI is missing at row 0 and exactly 100 at
      every later row. */
  lemma RsiOfRisingSeries(close: Column, w: nat, i: nat)
    requires AllPresent(close) && 1 <= w && i < |close|
    requires forall k :: 0 < k < |close| ==> close[k - 1].value < close[k].value
    ensures Rsi(close, w)[i] == if i == 0 then None else Some(100.0)
  {
    if i == 0 {
      RsiMissingAtFirstRow(close, w);
    } else {
      RisingAverages(close, w, i);
      RsiFormula(close, w, i);
    }
  }

  /** A pandas DataFrame that the indicator functions extend in place. */
  class DataFrame {
    var index: seq<Label>
    var columns: map<string, Column>

    ghost predicate Valid()
      reads this
    {
      WellFormed(Table(index, columns))
    }

    constructor (index: seq<Label>, columns: map<string, Column>)
      requires WellFormed(Table(index, columns))
      ensures Valid() && this.index == index && this.columns == columns
    {
      this.index := index;
      this.columns := columns;
    }

    /** The 20- and 50-row moving averages added before charting. */
    method AddMovingAverages()
      requires Valid() && CloseColumn in columns
      modifies this
      ensures Valid() && index == old(index)
      ensures columns == old(columns)
                [Sma20 := SimpleMovingAverage(old(columns)[CloseColumn], 20)]
                [Sma50 := SimpleMovingAverage(old(columns)[CloseColumn], 50)]
    {
      var close := columns[CloseColumn];
      columns := columns[Sma20 := SimpleMovingAverage(close, 20)];
      columns := columns[Sma50 := SimpleMovingAverage(close, 50)];
    }

    /** `add_bollinger_bands`: writes SMA_20, STD_20, Upper_Band and
        Lower_Band (named so whatever the window) and returns the same frame. */
    method AddBollingerBands(window: nat, sqrt: real -> real) returns (r: DataFrame)
      requires Valid() && CloseColumn in columns
      modifies this
      ensures r == this && Valid() && index == old(index)
      ensures var b := BollingerBands(old(columns)[CloseColumn], window, sqrt);
              columns == old(columns)[Sma20 := b.center][Std20 := b.std][UpperBand := b.upper][LowerBand := b.lower]
    {
      var close := columns[CloseColumn];
      columns := columns[Sma20 := SimpleMovingAverage(close, window)];
      columns := columns[Std20 := RollingStd(close, window, window, sqrt)];
      columns := columns[UpperBand := UpperOf(columns[Sma20], columns[Std20])];
      columns := columns[LowerBand := LowerOf(columns[Sma20], columns[Std20])];
      r := this;
    }

    /** `add_rsi` as written: the RSI series carries a fresh range index, so
        assigning it into the frame aligns it on labels (see AddRsiPositional
        for the evidently intended positional assignment). pandas rejects a
        window of 0, which is smaller than min_periods = 1. */
    method AddRsi(window: nat) returns (r: DataFrame)
      requires Valid() && CloseColumn in columns && 1 <= window
      modifies this
      ensures r == this && Valid() && index == old(index)
      ensures columns == old(columns)[RsiName := AlignOnto(Rsi(old(columns)[CloseColumn], window), old(index))]
    {
      var values := Rsi(columns[CloseColumn], window);
      columns := columns[RsiName := AlignOnto(values, index)];
      r := this;
    }

    /** `add_rsi` with the RSI values assigned row by row. */
    method AddRsiPositional(window: nat) returns (r: DataFrame)
      requires Valid() && CloseColumn in columns && 1 <= window
      modifies this
      ensures r == this && Valid() && index == old(index)
      ensures columns == old(columns)[RsiName := Rsi(old(columns)[CloseColumn], window)]
    {
      var values := Rsi(columns[CloseColumn], window);
      columns := columns[RsiName := values];
      r := this;
    }
  }

  /** On a date-indexed frame with strictly rising closes, `add_rsi` as
      written leaves RSI missing at row 1, where the RSI computed from the
      closes is 100; indeed every row of the written column is missing. */
  lemma RsiLostOnDateIndex(close: Column, index: seq<Label>, w: nat)
    requires |index| == |close| >= 2 && 1 <= w
    requires forall j :: 0 <= j < |index| ==> index[j].Date?
    requires AllPresent(close)
    requires forall k :: 0 < k < |close| ==> close[k - 1].value < close[k].value
    ensures Rsi(close, w)[1] == Some(100.0)
    ensures forall j :: 0 <= j < |index| ==> AlignOnto(Rsi(close, w), index)[j] == None
  {
    RsiOfRisingSeries(close, w, 1);
    AlignOntoDates(Rsi(close, w), index);
  }
}
