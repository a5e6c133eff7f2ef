/** The forecasting flow of `src/strategy.py`: the feature table built by
    `fetch_stock_data` and the label / split / evaluate / forecast chain of
    `train_predict_stock_model`.  The price provider, the random-forest
    regressor and the shuffle of `train_test_split` are parameters. */
module Strategy {
  import opened Numeric
  import opened Frames
  import opened Rolling
  import DataAnalyzer

  const ReturnName: string := "Return"
  const VolatilityName: string := "Volatility"
  const PredictedClose: string := "Predicted_Close"

  /** The raw columns every price history carries. */
  const PriceColumns: seq<string> := ["Open", "High", "Low", "Close", "Volume"]

  /** The regressor's inputs, in this order. */
  const FeatureColumns: seq<string> := ["Open", "High", "Low", "Close", "Volume", "SMA_20", "SMA_50", "Volatility"]

  /** Rows before SMA_50, the longest warm-up, is first defined. */
  const WarmUp: nat := 49

  // ---------------------------------------------------------------------
  // Feature table (fetch_stock_data)
  // ---------------------------------------------------------------------

  /** `close.pct_change()`: missing at row 0 and where a close is missing;
      a zero previous close (an infinite or undefined ratio in floating
      point) is treated as missing. */
  function PctChange(close: Column): (r: Column)
    ensures |r| == |close|
  {
    seq(|close|, i requires 0 <= i < |close| =>
      if i == 0 || close[i].None? || close[i - 1].None? || close[i - 1].value == 0.0 then None
      else Some(close[i].value / close[i - 1].value - 1.0))
  }

  /** The return is missing at row 0, and elsewhere it is the relative
      change that carries the previous close onto the current one. */
  lemma ReturnRecoversClose(close: Column, i: nat)
    requires i < |close|
    ensures i == 0 ==> PctChange(close)[i] == None
    ensures 0 < i && close[i].Some? && close[i - 1].Some? && close[i - 1].value != 0.0 ==>
              && PctChange(close)[i].Some?
              && close[i].value == close[i - 1].value * (1.0 + PctChange(close)[i].value)
  {
    if 0 < i && close[i].Some? && close[i - 1].Some? && close[i - 1].value != 0.0 {
      var p, c := close[i - 1].value, close[i].value;
      DivideProduct(c, p);
      assert p * (c / p) == c;
    }
  }

  /** The four derived columns, added in the order of the source. */
  function AddFeatures(raw: Table, sqrt: real -> real): (t: Table)
    requires WellFormed(raw) && CloseColumn in raw.columns
    ensures WellFormed(t) && t.index == raw.index
    ensures t.columns.Keys == raw.columns.Keys + {ReturnName, DataAnalyzer.Sma20, DataAnalyzer.Sma50, VolatilityName}
    ensures forall c :: c in raw.columns && c !in {ReturnName, DataAnalyzer.Sma20, DataAnalyzer.Sma50, VolatilityName} ==>
              t.columns[c] == raw.columns[c]
    ensures t.columns[ReturnName] == PctChange(raw.columns[CloseColumn])
    ensures t.columns[DataAnalyzer.Sma20] == RollingMean(raw.columns[CloseColumn], 20, 20)
    ensures t.columns[DataAnalyzer.Sma50] == RollingMean(raw.columns[CloseColumn], 50, 50)
    ensures t.columns[VolatilityName] == RollingStd(raw.columns[CloseColumn], 20, 20, sqrt)
  {
    var close := raw.columns[CloseColumn];
    var withReturn := WithColumn(raw, ReturnName, PctChange(close));
    var withShort := WithColumn(withReturn, DataAnalyzer.Sma20, RollingMean(close, 20, 20));
    var withLong := WithColumn(withShort, DataAnalyzer.Sma50, RollingMean(close, 50, 50));
    WithColumn(withLong, VolatilityName, RollingStd(close, 20, 20, sqrt))
  }

  /** `fetch_stock_data` after the download: derived columns, then `dropna`. */
  function FetchStockData(raw: Table, sqrt: real -> real): (t: Table)
    requires WellFormed(raw) && CloseColumn in raw.columns
    ensures WellFormed(t)
    ensures t.columns.Keys == raw.columns.Keys + {ReturnName, DataAnalyzer.Sma20, DataAnalyzer.Sma50, VolatilityName}
  {
    DropNa(AddFeatures(raw, sqrt))
  }

  /** A price history without missing values and without a zero close. */
  ghost predicate CleanHistory(raw: Table)
  {
    && WellFormed(raw)
    && CloseColumn in raw.columns
    && (forall c :: c in raw.columns ==> AllPresent(raw.columns[c]))
    && (forall i :: 0 <= i < |raw.index| ==> raw.columns[CloseColumn][i] != Some(0.0))
  }

  /** On a clean history a row of the extended table is complete exactly
      when SMA_50 is defined there, that is from row 49 on. */
  lemma FeatureRowComplete(raw: Table, sqrt: real -> real, i: nat)
    requires CleanHistory(raw) && i < |raw.index|
    ensures RowComplete(AddFeatures(raw, sqrt), i) <==> WarmUp <= i
  {
    var close := raw.columns[CloseColumn];
    var t := AddFeatures(raw, sqrt);
    FullWindowMean(close, 20, i);
    FullWindowMean(close, 50, i);
    FullWindowStd(close, 20, i, sqrt);
    if WarmUp <= i {
      forall c | c in t.columns ensures t.columns[c][i].Some? {
        if c !in {ReturnName, DataAnalyzer.Sma20, DataAnalyzer.Sma50, VolatilityName} {
          assert t.columns[c] == raw.columns[c];
        }
      }
    } else {
      assert t.columns[DataAnalyzer.Sma50][i].None?;
    }
  }

  /** On a clean history of `n` rows the rows kept by `dropna` are the
      contiguous run 49 .. n - 1. */
  lemma FeatureRowsKept(raw: Table, sqrt: real -> real)
    requires CleanHistory(raw)
    ensures CompleteRows(AddFeatures(raw, sqrt)) ==
              if |raw.index| <= WarmUp then [] else Range(WarmUp, |raw.index|)
  {
    var t := AddFeatures(raw, sqrt);
    forall i | 0 <= i < |t.index| ensures RowComplete(t, i) <==> WarmUp <= i {
      FeatureRowComplete(raw, sqrt, i);
    }
    CompleteRowsOfSuffix(t, WarmUp, |t.index|);
  }

  /** So the feature table holds max(0, n - 49) rows, row `j` being row
      `49 + j` of the history with its label and values. */
  lemma FeatureTableIsSuffix(raw: Table, sqrt: real -> real)
    requires CleanHistory(raw)
    ensures |FetchStockData(raw, sqrt).index| == if |raw.index| <= WarmUp then 0 else |raw.index| - WarmUp
    ensures WarmUp < |raw.index| ==> FetchStockData(raw, sqrt).index == raw.index[WarmUp..]
    ensures forall c, j :: c in AddFeatures(raw, sqrt).columns && 0 <= j < |FetchStockData(raw, sqrt).index| ==>
              FetchStockData(raw, sqrt).columns[c][j] == AddFeatures(raw, sqrt).columns[c][WarmUp + j]
  {
    FeatureRowsKept(raw, sqrt);
    DropNaOfSuffix(AddFeatures(raw, sqrt), WarmUp);
  }

  /** Every row of the feature table is complete, so a history that carries
      the five price columns yields a table with all eight feature columns
      present at every row. */
  lemma FeatureTableIsComplete(raw: Table, sqrt: real -> real)
    requires WellFormed(raw) && CloseColumn in raw.columns
    requires forall k :: 0 <= k < |PriceColumns| ==> PriceColumns[k] in raw.columns
    ensures forall j :: 0 <= j < |FetchStockData(raw, sqrt).index| ==> RowComplete(FetchStockData(raw, sqrt), j)
    ensures HasFeatures(FetchStockData(raw, sqrt))
  {
    var t := FetchStockData(raw, sqrt);
    DropNaSpec(AddFeatures(raw, sqrt));
    forall k | 0 <= k < |FeatureColumns|
      ensures FeatureColumns[k] in t.columns && AllPresent(t.columns[FeatureColumns[k]])
    {
      assert k < 5 ==> FeatureColumns[k] == PriceColumns[k];
      forall j | 0 <= j < |t.index| ensures t.columns[FeatureColumns[k]][j].Some? {
        assert RowComplete(t, j);
      }
    }
  }

  // ---------------------------------------------------------------------
  // Labels, split, evaluation and forecast (train_predict_stock_model)
  // ---------------------------------------------------------------------

  /** A feature row: the eight feature values of one day. */
  type Row = seq<real>

  /** A fitted regressor. */
  type Predictor = Row -> real

  /** `RandomForestRegressor().fit`: training rows and labels to a predictor. */
  type Regressor = (seq<Row>, seq<real>) -> Predictor

  /** The table holds every feature column, with no missing value. */
  ghost predicate HasFeatures(t: Table)
  {
    && WellFormed(t)
    && forall k :: 0 <= k < |FeatureColumns| ==>
         FeatureColumns[k] in t.columns && AllPresent(t.columns[FeatureColumns[k]])
  }

  /** `X.iloc[i]`: the feature values of row `i`, in feature-column order. */
  function FeatureRow(t: Table, i: nat): (row: Row)
    requires HasFeatures(t) && i < |t.index|
    ensures |row| == |FeatureColumns|
    ensures forall k :: 0 <= k < |FeatureColumns| ==> t.columns[FeatureColumns[k]][i] == Some(row[k])
  {
    seq(|FeatureColumns|, k requires 0 <= k < |FeatureColumns| => t.columns[FeatureColumns[k]][i].value)
  }

  /** `X = df[feature_columns]`. */
  function FeatureMatrix(t: Table): (x: seq<Row>)
    requires HasFeatures(t)
    ensures |x| == |t.index|
  {
    seq(|t.index|, i requires 0 <= i < |t.index| => FeatureRow(t, i))
  }

  /** `col.shift(-1)`: row `i` takes row `i + 1`'s value; the last is missing. */
  function ShiftUp(col: Column): (r: Column)
    ensures |r| == |col|
  {
    seq(|col|, i requires 0 <= i < |col| => if i + 1 < |col| then col[i + 1] else None)
  }

  /** The length of `X[:-1]`: every row but the last. */
  function LabeledCount(n: nat): nat
  {
    if n == 0 then 0 else n - 1
  }

  lemma CloseIsFeature(t: Table)
    requires HasFeatures(t)
    ensures CloseColumn in t.columns && AllPresent(t.columns[CloseColumn])
  {
    assert FeatureColumns[3] == CloseColumn;
  }

  /** `y = df["Close"].shift(-1)`: row `i`'s label is the next day's close;
      the last row has no label, and every other label is present. */
  lemma NextDayLabels(t: Table)
    requires HasFeatures(t)
    ensures CloseColumn in t.columns
    ensures forall i :: 0 <= i < LabeledCount(|t.index|) ==>
              ShiftUp(t.columns[CloseColumn])[i] == t.columns[CloseColumn][i + 1]
    ensures 0 < |t.index| ==> ShiftUp(t.columns[CloseColumn])[|t.index| - 1] == None
    ensures AllPresent(ShiftUp(t.columns[CloseColumn])[..LabeledCount(|t.index|)])
  {
    CloseIsFeature(t);
  }

  /** `X[:-1]`. */
  function TrainingRows(t: Table): (x: seq<Row>)
    requires HasFeatures(t)
    ensures |x| == LabeledCount(|t.index|)
  {
    FeatureMatrix(t)[..LabeledCount(|t.index|)]
  }

  /** `y[:-1]`, every entry present. */
  function TrainingLabels(t: Table): (y: seq<real>)
    requires HasFeatures(t)
    ensures |y| == LabeledCount(|t.index|)
  {
    NextDayLabels(t);
    Values(ShiftUp(t.columns[CloseColumn])[..LabeledCount(|t.index|)])
  }

  /** The split input pairs row `i`'s features with the close of row `i + 1`,
      for every row but the last. */
  lemma TrainingPairs(t: Table, i: nat)
    requires HasFeatures(t) && i < LabeledCount(|t.index|)
    ensures CloseColumn in t.columns
    ensures TrainingRows(t)[i] == FeatureRow(t, i)
    ensures Some(TrainingLabels(t)[i]) == t.columns[CloseColumn][i + 1]
  {
    NextDayLabels(t);
  }

  /** `ceil(0.2 * n)`, the test-set size of `train_test_split(test_size=0.2)`. */
  function TestSize(n: nat): (r: nat)
    ensures n <= 5 * r < n + 5
  {
    (n + 4) / 5
  }

  /** TestSize is the least whole number of rows no smaller than a fifth. */
  lemma TestSizeIsCeiling(n: nat)
    ensures (n as real) / 5.0 <= TestSize(n) as real < (n as real) / 5.0 + 1.0
  {
    var q, r := (n + 4) / 5, (n + 4) % 5;
    assert n + 4 == 5 * q + r;
  }

  /** `train_test_split` raises when the training side would be empty. */
  datatype SplitError = EmptyTrainingSet(samples: nat)

  /** Row positions of the training and the test side. */
  datatype Split = Split(train: seq<nat>, test: seq<nat>)

  /** `perm` lists each of 0 .. n - 1 exactly once. */
  ghost predicate IsPermutation(perm: seq<nat>, n: nat)
  {
    && |perm| == n
    && (forall k :: 0 <= k < n ==> perm[k] < n)
    && (forall j, k :: 0 <= j < k < n ==> perm[j] != perm[k])
    && (forall i :: 0 <= i < n ==> i in perm)
  }

  /** `train_test_split(test_size=0.2)` given its shuffled order `perm`: the
      first ceil(0.2 n) positions are the test side, the rest the training
      side; an empty training side is an error. */
  function ShuffleSplit(n: nat, perm: seq<nat>): (r: Result<Split, SplitError>)
    requires IsPermutation(perm, n)
    ensures r.Ok? <==> 2 <= n
    ensures r.Ok? ==> |r.value.test| == TestSize(n) && |r.value.train| == n - TestSize(n)
    ensures r.Ok? ==> (forall k :: 0 <= k < |r.value.train| ==> r.value.train[k] < n)
    ensures r.Ok? ==> (forall k :: 0 <= k < |r.value.test| ==> r.value.test[k] < n)
  {
    var nTest := TestSize(n);
    if n - nTest == 0 then Err(EmptyTrainingSet(n))
    else Ok(Split(perm[nTest..], perm[..nTest]))
  }

  /** Cutting a permutation of 0 .. n - 1 at `m` puts every position on
      exactly one side of the cut. */
  lemma CutPartitions(perm: seq<nat>, n: nat, m: nat)
    requires IsPermutation(perm, n) && m <= n
    ensures forall i :: 0 <= i < n ==> (i in perm[m..] <==> i !in perm[..m])
  {
    forall i | 0 <= i < n ensures i in perm[m..] <==> i !in perm[..m] {
      assert i in perm;
      var p :| 0 <= p < n && perm[p] == i;
      if p < m {
        assert perm[..m][p] == i;
        forall a | 0 <= a < n - m ensures perm[m..][a] != i {
          assert perm[m..][a] == perm[m + a];
        }
      } else {
        assert perm[m..][p - m] == i;
        forall a | 0 <= a < m ensures perm[..m][a] != i {
          assert perm[..m][a] == perm[a];
        }
      }
    }
  }

  /** The two sides partition the labelled rows: every position below `n`
      is on exactly one side, and no side repeats a position. */
  lemma SplitPartitions(n: nat, perm: seq<nat>)
    requires IsPermutation(perm, n) && 2 <= n
    ensures var s := ShuffleSplit(n, perm).value;
            && (forall k :: 0 <= k < |s.train| ==> s.train[k] < n)
            && (forall k :: 0 <= k < |s.test| ==> s.test[k] < n)
            && (forall i :: 0 <= i < n ==> (i in s.train <==> i !in s.test))
            && (forall j, k :: 0 <= j < k < |s.train| ==> s.train[j] != s.train[k])
            && (forall j, k :: 0 <= j < k < |s.test| ==> s.test[j] != s.test[k])
  {
    var s := ShuffleSplit(n, perm).value;
    var nTest := TestSize(n);
    assert s.test == perm[..nTest] && s.train == perm[nTest..];
    CutPartitions(perm, n, nTest);
    forall j, k | 0 <= j < k < |s.train| ensures s.train[j] != s.train[k] {
      assert s.train[j] == perm[nTest + j] && s.train[k] == perm[nTest + k];
    }
  }

  function Abs(x: real): real
  {
    if x < 0.0 then -x else x
  }

  /** `mean_absolute_error(actual, predicted)`. */
  function MeanAbsoluteError(actual: seq<real>, predicted: seq<real>): (r: real)
    requires |actual| == |predicted| > 0
    ensures 0.0 <= r
  {
    var errors := seq(|actual|, k requires 0 <= k < |actual| => Abs(actual[k] - predicted[k]));
    MeanNonNegative(errors);
    Mean(errors)
  }

  /** MAE is never negative and is zero exactly when every prediction is right. */
  lemma MeanAbsoluteErrorZero(actual: seq<real>, predicted: seq<real>)
    requires |actual| == |predicted| > 0
    ensures 0.0 <= MeanAbsoluteError(actual, predicted)
    ensures MeanAbsoluteError(actual, predicted) == 0.0 <==> actual == predicted
  {
    var errors := seq(|actual|, k requires 0 <= k < |actual| => Abs(actual[k] - predicted[k]));
    SumNonNegative(errors);
    SumPositive(errors);
    if actual != predicted {
      var k :| 0 <= k < |actual| && actual[k] != predicted[k];
      assert 0.0 < errors[k];
    }
  }

  /** The result of `train_predict_stock_model`: the MAE on the test side,
      the forward forecast, and the `df_test` frame. */
  datatype Forecast = Forecast(mae: real, nextClose: real, testFrame: Table)

  /** The positions of a split all lie among the labelled rows of `t`. */
  ghost predicate SplitWithin(t: Table, s: Split)
  {
    && (forall k :: 0 <= k < |s.train| ==> s.train[k] < LabeledCount(|t.index|))
    && (forall k :: 0 <= k < |s.test| ==> s.test[k] < LabeledCount(|t.index|))
  }

  /** `model.fit(X_train, y_train)`: the predictor fitted on the training side. */
  function FitModel(t: Table, s: Split, fit: Regressor): Predictor
    requires HasFeatures(t) && SplitWithin(t, s)
  {
    fit(Select(TrainingRows(t), s.train), Select(TrainingLabels(t), s.train))
  }

  /** The fitted model sees only the training side: two tables that agree
      on the features and the next-day close of every training row yield
      the same predictor, whatever their test rows hold. */
  lemma FitSeesTrainingSideOnly(t1: Table, t2: Table, s: Split, fit: Regressor)
    requires HasFeatures(t1) && SplitWithin(t1, s) && CloseColumn in t1.columns
    requires HasFeatures(t2) && SplitWithin(t2, s) && CloseColumn in t2.columns
    requires forall k :: 0 <= k < |s.train| ==>
               && FeatureRow(t1, s.train[k]) == FeatureRow(t2, s.train[k])
               && t1.columns[CloseColumn][s.train[k] + 1] == t2.columns[CloseColumn][s.train[k] + 1]
    ensures FitModel(t1, s, fit) == FitModel(t2, s, fit)
  {
    var rows1, rows2 := Select(TrainingRows(t1), s.train), Select(TrainingRows(t2), s.train);
    var labels1, labels2 := Select(TrainingLabels(t1), s.train), Select(TrainingLabels(t2), s.train);
    forall k | 0 <= k < |s.train| ensures rows1[k] == rows2[k] && labels1[k] == labels2[k] {
      TrainingPairs(t1, s.train[k]);
      TrainingPairs(t2, s.train[k]);
    }
    assert rows1 == rows2 && labels1 == labels2;
  }

  /** `model.predict(X_test)`: the k-th prediction is made from the features
      of the k-th test row. */
  function TestPredictions(t: Table, s: Split, model: Predictor): (p: seq<real>)
    requires HasFeatures(t) && SplitWithin(t, s)
    ensures |p| == |s.test|
    ensures forall k :: 0 <= k < |s.test| ==> p[k] == model(FeatureRow(t, s.test[k]))
  {
    var testRows := Select(TrainingRows(t), s.test);
    seq(|testRows|, k requires 0 <= k < |testRows| => model(testRows[k]))
  }

  /** `df.iloc[-len(y_test):].copy()` with the predictions attached
      positionally as Predicted_Close. */
  function TailTestFrame(t: Table, predictions: seq<real>): (r: Table)
    requires WellFormed(t) && 0 < |predictions| <= |t.index|
    ensures WellFormed(r) && |r.index| == |predictions|
    ensures r.index == t.index[|t.index| - |predictions|..]
    ensures r.columns.Keys == t.columns.Keys + {PredictedClose}
    ensures r.columns[PredictedClose] == Lift(predictions)
    ensures forall c :: c in t.columns && c != PredictedClose ==>
              r.columns[c] == t.columns[c][|t.index| - |predictions|..]
  {
    var tail := TailRows(t, |predictions|);
    assert tail.index == t.index[|t.index| - |predictions|..];
    WithColumn(tail, PredictedClose, Lift(predictions))
  }

  /** Fit, predict, score and forecast on a split: the MAE of the test
      predictions, the forecast from the last row, and `df_test`. */
  function Evaluate(t: Table, s: Split, fit: Regressor): Forecast
    requires HasFeatures(t) && SplitWithin(t, s) && 0 < |s.test| <= |t.index|
  {
    var model := FitModel(t, s, fit);
    var predictions := TestPredictions(t, s, model);
    var mae := MeanAbsoluteError(Select(TrainingLabels(t), s.test), predictions);
    Forecast(mae, model(FeatureRow(t, |t.index| - 1)), TailTestFrame(t, predictions))
  }

  /** `train_predict_stock_model` on the feature table `t`, given the shuffled
      order of the labelled rows and the regressor. */
  function TrainPredict(t: Table, perm: seq<nat>, fit: Regressor): (r: Result<Forecast, SplitError>)
    requires HasFeatures(t)
    requires IsPermutation(perm, LabeledCount(|t.index|))
    ensures r.Ok? <==> 3 <= |t.index|
  {
    match ShuffleSplit(LabeledCount(|t.index|), perm)
    case Err(e) => Err(e)
    case Ok(s) => Ok(Evaluate(t, s, fit))
  }

  /** The successful pipeline in terms of its steps. */
  lemma TrainPredictSteps(t: Table, perm: seq<nat>, fit: Regressor)
    requires HasFeatures(t) && 3 <= |t.index|
    requires IsPermutation(perm, LabeledCount(|t.index|))
    ensures ShuffleSplit(|t.index| - 1, perm).Ok?
    ensures var s := ShuffleSplit(|t.index| - 1, perm).value;
            && SplitWithin(t, s) && 0 < |s.test| <= |t.index|
            && TrainPredict(t, perm, fit) == Ok(Evaluate(t, s, fit))
  {
    assert LabeledCount(|t.index|) == |t.index| - 1;
  }

  /** On a table of at least three rows the pipeline succeeds; its MAE is
      not negative and is zero exactly when every test prediction equals its
      label, and the forward forecast is the fitted model applied to the
      last row's eight features. */
  lemma TrainPredictOutcome(t: Table, perm: seq<nat>, fit: Regressor)
    requires HasFeatures(t) && 3 <= |t.index|
    requires IsPermutation(perm, LabeledCount(|t.index|))
    ensures ShuffleSplit(|t.index| - 1, perm).Ok? && TrainPredict(t, perm, fit).Ok?
    ensures var s := ShuffleSplit(|t.index| - 1, perm).value;
            var f := TrainPredict(t, perm, fit).value;
            && SplitWithin(t, s)
            && 0.0 <= f.mae
            && (f.mae == 0.0 <==> Select(TrainingLabels(t), s.test) == TestPredictions(t, s, FitModel(t, s, fit)))
            && f.nextClose == FitModel(t, s, fit)(FeatureRow(t, |t.index| - 1))
  {
    TrainPredictSteps(t, perm, fit);
    var s := ShuffleSplit(|t.index| - 1, perm).value;
    var predictions := TestPredictions(t, s, FitModel(t, s, fit));
    MeanAbsoluteErrorZero(Select(TrainingLabels(t), s.test), predictions);
  }

  /** The forecast row, the table's last, is on neither side of the split,
      and `df_test` holds the last TestSize(n - 1) rows of the table. */
  lemma TrainPredictRows(t: Table, perm: seq<nat>, fit: Regressor)
    requires HasFeatures(t) && 3 <= |t.index|
    requires IsPermutation(perm, LabeledCount(|t.index|))
    ensures ShuffleSplit(|t.index| - 1, perm).Ok? && TrainPredict(t, perm, fit).Ok?
    ensures var s := ShuffleSplit(|t.index| - 1, perm).value;
            var f := TrainPredict(t, perm, fit).value;
            && |t.index| - 1 !in s.train && |t.index| - 1 !in s.test
            && |f.testFrame.index| == TestSize(|t.index| - 1) == |s.test|
            && f.testFrame.index == t.index[|t.index| - TestSize(|t.index| - 1)..]
  {
    TrainPredictSteps(t, perm, fit);
    SplitPartitions(|t.index| - 1, perm);
  }

  /** As written, `df_test` is misaligned: its last row is the table's last
      row, which has no label and is never a test row, yet it carries the
      prediction made for the last test row. */
  lemma TailTestFrameMisaligned(t: Table, perm: seq<nat>, fit: Regressor)
    requires HasFeatures(t) && 3 <= |t.index|
    requires IsPermutation(perm, LabeledCount(|t.index|))
    ensures ShuffleSplit(|t.index| - 1, perm).Ok? && TrainPredict(t, perm, fit).Ok?
    ensures SplitWithin(t, ShuffleSplit(|t.index| - 1, perm).value)
    ensures CloseColumn in t.columns && ShiftUp(t.columns[CloseColumn])[|t.index| - 1] == None
    ensures var s := ShuffleSplit(|t.index| - 1, perm).value;
            var frame := TrainPredict(t, perm, fit).value.testFrame;
            var last := |s.test| - 1;
            && 0 <= last < |frame.index|
            && frame.index[last] == t.index[|t.index| - 1]
            && s.test[last] != |t.index| - 1
            && PredictedClose in frame.columns
            && frame.columns[PredictedClose] == Lift(TestPredictions(t, s, FitModel(t, s, fit)))
            && frame.columns[PredictedClose][last] == Some(FitModel(t, s, fit)(FeatureRow(t, s.test[last])))
            && frame.columns[CloseColumn][last] == t.columns[CloseColumn][|t.index| - 1]
  {
    NextDayLabels(t);
    TrainPredictSteps(t, perm, fit);
  }

  /** The evidently intended `df_test`: the test rows themselves, each with
      the prediction made from its own features. */
  function AlignedTestFrame(t: Table, test: seq<nat>, predictions: seq<real>): (r: Table)
    requires WellFormed(t) && |predictions| == |test|
    requires forall k :: 0 <= k < |test| ==> test[k] < |t.index|
    ensures WellFormed(r) && |r.index| == |test|
    ensures forall k :: 0 <= k < |test| ==> r.index[k] == t.index[test[k]]
    ensures r.columns.Keys == t.columns.Keys + {PredictedClose}
    ensures r.columns[PredictedClose] == Lift(predictions)
    ensures forall c :: c in t.columns && c != PredictedClose ==> r.columns[c] == Select(t.columns[c], test)
  {
    WithColumn(SelectRows(t, test), PredictedClose, Lift(predictions))
  }

  /** Every row of the aligned frame is a labelled test row, carrying the
      prediction made from that row's own features. */
  lemma AlignedTestFramePairsRows(t: Table, perm: seq<nat>, fit: Regressor)
    requires HasFeatures(t) && 3 <= |t.index|
    requires IsPermutation(perm, LabeledCount(|t.index|))
    ensures ShuffleSplit(|t.index| - 1, perm).Ok?
    ensures var s := ShuffleSplit(|t.index| - 1, perm).value;
            SplitWithin(t, s) &&
            var predictions := TestPredictions(t, s, FitModel(t, s, fit));
            var r := AlignedTestFrame(t, s.test, predictions);
            && CloseColumn in t.columns
            && forall j :: 0 <= j < |s.test| ==>
                 && s.test[j] < |t.index| - 1
                 && r.index[j] == t.index[s.test[j]]
                 && r.columns[PredictedClose][j] == Some(FitModel(t, s, fit)(FeatureRow(t, s.test[j])))
                 && r.columns[CloseColumn][j] == t.columns[CloseColumn][s.test[j]]
                 && ShiftUp(t.columns[CloseColumn])[s.test[j]] == t.columns[CloseColumn][s.test[j] + 1]
  {
    SplitPartitions(|t.index| - 1, perm);
    NextDayLabels(t);
  }
}
