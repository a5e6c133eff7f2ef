# NeuralStock indicators and forecasting pipeline, in Dafny

This project models the computational core of NeuralStock. The first part is
the indicator library of `src/data_analyzer.py`: moving averages, Bollinger
bands and the relative strength index (RSI). The second part is the
forecasting flow of `src/strategy.py`: the feature table, next-day labels,
the 80/20 split, the mean absolute error, the forward forecast and the
`df_test` frame.

Prices are exact reals. A pandas NaN is `Option.None`. A DataFrame is a row
index of labels (`Date` or `Position`) plus named columns of
`seq<Option<real>>` (`Frames.Table`).

- Modules follow the source. `Numeric` holds sums, means, the sample
  variance and square roots. `Frames` holds the DataFrame operations:
  `dropna`, `iloc[-k:]`, column assignment and label alignment. `Rolling`
  is pandas' `rolling(window, min_periods)` mean and std. `DataAnalyzer`
  is `src/data_analyzer.py` and `Strategy` is `src/strategy.py`.
- pandas rolling windows are defined once, in `Rolling`. A window yields a
  value only when it holds at least `min_periods` observations. The mean
  needs one observation. The sample standard deviation (ddof = 1) needs
  two, so a window of 1 gives an all-missing std. The SMA and std columns use
  `min_periods = window`. The RSI averages use `min_periods = 1`.
- `add_bollinger_bands`, `add_rsi` and the SMA lines of `plot_stock_chart`
  change the frame they work on in place: the caller's frame, or for
  `plot_stock_chart` the frame it downloads itself. They are methods of the class
  `DataAnalyzer.DataFrame`. Their `ensures` clauses give the new column map
  and say that the index is unchanged. The feature builder and the
  forecasting chain are pure functions over `Table`.
- Some things are parameters because they are calls into code that is not
  modelled:
  - the square root, `sqrt: real -> real`, specified by
    `Numeric.IsSquareRoot`;
  - the regressor, `fit: (rows, labels) -> predictor`;
  - the shuffle of `train_test_split`, a permutation `perm` of the labelled
    rows.
- The price history is an input table. Downloading it is not modelled.

Behaviour of the code that is easy to overlook, and that the model keeps:
- RSI is NaN wherever both averages are 0, which includes row 0 of every
  series.
- There is no minimum-row check. The only failure is the ValueError that
  `train_test_split` raises when the training side would be empty, which
  happens with fewer than three feature rows. The model reports it as
  `Err(EmptyTrainingSet)`.
- The feature table loses the first 49 rows (`Strategy.WarmUp`), one less
  than the longest window, and the model proves it.

## Model

| member | source | states |
|---|---|---|
| Rolling.RollingMean | src/data_analyzer.py:42 | a rolling mean has one entry per row, so assigning it keeps the row count |
| Rolling.RollingStd | src/data_analyzer.py:43 | a rolling std has one entry per row |
| Rolling.FullWindowMean | src/data_analyzer.py:18-19 | on a complete column, an SMA with window w is missing exactly at rows i < w - 1; elsewhere it is the mean of exactly the w closes ending at i |
| Rolling.ShortWindowMean | src/data_analyzer.py:75-76 | with min_periods = 1, the rolling mean is defined at every row and averages the last min(i + 1, w) values |
| Rolling.FullWindowStd | src/data_analyzer.py:43 | on a complete column, the std is defined exactly when 2 <= w <= i + 1; it is then sqrt of the sample variance of the w values ending at i |
| Rolling.RollingStdIsRoot | src/data_analyzer.py:43 | every defined std is non-negative, and its square is the ddof = 1 sample variance of its window |
| Frames.CompleteRowsBelow | src/strategy.py:26 | the positions of complete rows below n all lie below n |
| Frames.CompleteRowsBelowSpec | src/strategy.py:26 | the complete-row positions are strictly increasing and contain i iff row i has no missing value |
| Frames.CompleteRowsOfSuffix | src/strategy.py:26 | when exactly the rows from `start` on are complete, dropna keeps the contiguous run start .. n - 1 |
| Frames.DropNaOfSuffix | src/strategy.py:26 | when the complete rows are the run from `start` to the end, dropna returns the table from row `start` on |
| Frames.DropNa | src/strategy.py:26 | dropna yields a well-formed frame |
| Frames.DropNaSpec | src/strategy.py:26 | dropna keeps exactly the complete rows, in their original order, with their labels and values and the same columns; every row it returns is complete |
| Frames.TailRows | src/strategy.py:62 | `iloc[-k:]` for 0 < k <= n has k rows: the index from row n - k on, and every column sliced from row n - k on; k = 0 gives the whole frame; the column names are unchanged |
| Frames.TailRowsAt | src/strategy.py:62 | row j of `iloc[-k:]` is row n - k + j of the frame, in every column |
| Frames.WithColumn | src/strategy.py:20-23 | assigning a column sets that column only and keeps the index and every other column |
| Frames.AlignOnto | src/data_analyzer.py:79 | a range-indexed series aligned onto a frame has one entry per frame row |
| Frames.AlignOntoDates | src/data_analyzer.py:79 | on a date-indexed frame, label alignment of a range-indexed series gives missing values at every row |
| Frames.AlignOntoPositions | src/data_analyzer.py:79 | on a frame that has the default range index, alignment returns the series unchanged |
| DataAnalyzer.SimpleMovingAverage | src/data_analyzer.py:18-19 | the SMA column has one entry per row |
| DataAnalyzer.UpperOf | src/data_analyzer.py:44 | the upper band has one entry per row |
| DataAnalyzer.LowerOf | src/data_analyzer.py:45 | the lower band has one entry per row |
| DataAnalyzer.BollingerBands | src/data_analyzer.py:42-45 | SMA_20, STD_20, Upper_Band and Lower_Band each have one entry per close |
| DataAnalyzer.BandsAroundCenter | src/data_analyzer.py:42-45 | the bands are missing exactly where SMA or STD is missing; elsewhere Upper - SMA = SMA - Lower = 2 STD, and Lower <= SMA <= Upper |
| DataAnalyzer.BandsOfCompleteSeries | src/data_analyzer.py:42-45 | on complete closes the bands exist exactly for 2 <= w <= i + 1, and the centre is the mean of the w closes ending at i |
| DataAnalyzer.BandsOfFlatWindow | src/data_analyzer.py:42-45 | over a window of identical closes v, STD_20 = 0 and Upper = Lower = SMA = v |
| DataAnalyzer.Delta | src/data_analyzer.py:71 | the diff column has one entry per close |
| DataAnalyzer.Gain | src/data_analyzer.py:72 | the gain column has one entry per change |
| DataAnalyzer.Loss | src/data_analyzer.py:73 | the loss column has one entry per change |
| DataAnalyzer.GainLossSplit | src/data_analyzer.py:71-73 | gain and loss are both >= 0 and at most one is non-zero; gain - loss is the price change for i >= 1, and gain = loss = 0 at row 0 |
| DataAnalyzer.AverageGain | src/data_analyzer.py:75 | the average gain has one entry per row |
| DataAnalyzer.AverageLoss | src/data_analyzer.py:76 | the average loss has one entry per row |
| DataAnalyzer.AveragesAlwaysDefined | src/data_analyzer.py:75-76 | both averages are defined at every row, as the mean of the last min(i + 1, w) gains or losses |
| DataAnalyzer.AveragesNonNegative | src/data_analyzer.py:75-76 | both averages are never negative |
| DataAnalyzer.Rsi | src/data_analyzer.py:78-79 | the RSI column has one entry per close |
| DataAnalyzer.RsiOf | src/data_analyzer.py:78-79 | `100 - 100 / (1 + rs)` with its limits written out is defined iff both averages are present and not both zero, and then equals 100 avg_gain / (avg_gain + avg_loss) |
| DataAnalyzer.RsiFormula | src/data_analyzer.py:78-79 | RSI is defined iff avg_gain + avg_loss > 0; it then equals 100 avg_gain / (avg_gain + avg_loss), lies in [0, 100], and is 100 iff avg_loss = 0 |
| DataAnalyzer.RsiMissingAtFirstRow | src/data_analyzer.py:71-79 | RSI is missing at row 0 for every series |
| DataAnalyzer.RisingChanges | src/data_analyzer.py:71-73 | for strictly rising closes every loss is 0 and every gain after row 0 is positive |
| DataAnalyzer.RisingAverages | src/data_analyzer.py:75-76 | for strictly rising closes, from row 1 on avg_loss = 0 and avg_gain > 0 |
| DataAnalyzer.RsiOfRisingSeries | src/data_analyzer.py:71-79 | for strictly rising closes, RSI is missing at row 0 and exactly 100 at every later row |
| DataAnalyzer.DataFrame.AddMovingAverages | src/data_analyzer.py:18-19 | only SMA_20 and SMA_50 change, to the 20- and 50-row full-window means of Close; the index is kept |
| DataAnalyzer.DataFrame.AddBollingerBands | src/data_analyzer.py:36-46 | only SMA_20, STD_20, Upper_Band and Lower_Band change, to the bands of Close; the index is kept; it returns the same frame |
| DataAnalyzer.DataFrame.AddRsi | src/data_analyzer.py:65-80 | only RSI changes, to the RSI values aligned by label onto the frame's index; it returns the same frame |
| DataAnalyzer.DataFrame.AddRsiPositional | src/data_analyzer.py:65-80 | only RSI changes, to the RSI values row by row; it returns the same frame |
| DataAnalyzer.RsiLostOnDateIndex | src/data_analyzer.py:75-79 | on a date-indexed frame with rising closes, the computed RSI at row 1 is 100, but the column `add_rsi` writes is missing at every row |
| Strategy.PctChange | src/strategy.py:20 | the Return column has one entry per close |
| Strategy.ReturnRecoversClose | src/strategy.py:20 | Return is missing at row 0; where defined, close[i] = close[i-1] (1 + Return[i]) |
| Strategy.AddFeatures | src/strategy.py:20-23 | the index is kept; every raw column other than the four derived names is kept unchanged; Return is the pct_change of Close, SMA_20 and SMA_50 are the 20- and 50-row full-window means of Close, and Volatility is the 20-row std of Close |
| Strategy.FetchStockData | src/strategy.py:20-26 | the feature table is well formed and carries the raw columns plus the four derived ones |
| Strategy.FeatureRowComplete | src/strategy.py:20-26 | on a clean history, a row is complete iff i >= 49 |
| Strategy.FeatureRowsKept | src/strategy.py:21-26 | on a clean history, dropna keeps exactly rows 49 .. n - 1 |
| Strategy.FeatureTableIsSuffix | src/strategy.py:21-26 | the feature table has max(0, n - 49) rows; its index is the raw index from row 49 on, and row j holds the values of row 49 + j |
| Strategy.FeatureTableIsComplete | src/strategy.py:20-26 | every feature-table row is complete, so all eight feature columns are present at every row |
| Strategy.FeatureRow | src/strategy.py:57 | the forward input is exactly the 8 feature_columns values of the row, in the stated order |
| Strategy.FeatureMatrix | src/strategy.py:39 | X has one row per table row |
| Strategy.ShiftUp | src/strategy.py:40 | `shift(-1)` keeps the length |
| Strategy.NextDayLabels | src/strategy.py:40 | y[i] = Close[i + 1] for i < N - 1, y[N - 1] is missing, and every label in y[:-1] is present |
| Strategy.TrainingRows | src/strategy.py:43 | X[:-1] has N - 1 rows (none when N = 0) |
| Strategy.TrainingLabels | src/strategy.py:43 | y[:-1] has N - 1 labels |
| Strategy.TrainingPairs | src/strategy.py:39-43 | row i of the split input pairs the features of row i with the close of row i + 1 |
| Strategy.TestSize | src/strategy.py:43 | the test size r is the least whole number with n <= 5 r, that is n <= 5 r < n + 5 |
| Strategy.TestSizeIsCeiling | src/strategy.py:43 | the test size is ceil(0.2 n), the least whole number >= n / 5 |
| Strategy.ShuffleSplit | src/strategy.py:43 | the split succeeds iff n >= 2; the test side has ceil(0.2 n) rows, the training side the rest, all positions below n |
| Strategy.CutPartitions | src/strategy.py:43 | cutting a shuffled order of 0 .. n - 1 at any point puts every position on exactly one side |
| Strategy.SplitPartitions | src/strategy.py:43 | the two sides partition the labelled rows: disjoint, covering every row, no repeats |
| Strategy.MeanAbsoluteError | src/strategy.py:53 | the mean absolute error is never negative |
| Strategy.MeanAbsoluteErrorZero | src/strategy.py:53 | MAE >= 0, and MAE = 0 iff every prediction equals its label |
| Strategy.FitSeesTrainingSideOnly | src/strategy.py:43-47 | the fitted model depends only on the training side: two tables that agree on the features and next-day close of every training row give the same predictor |
| Strategy.TestPredictions | src/strategy.py:50 | the k-th test prediction is the fitted model applied to the features of the k-th test row |
| Strategy.TailTestFrame | src/strategy.py:62-63 | df_test is the last len(y_test) rows of df: that index, every column of df sliced the same way, plus Predicted_Close holding the predictions positionally |
| Strategy.TrainPredict | src/strategy.py:30-65 | the pipeline succeeds iff the feature table has at least 3 rows |
| Strategy.TrainPredictOutcome | src/strategy.py:43-58 | on at least 3 rows the pipeline succeeds; its MAE is >= 0 and is 0 iff every test prediction equals its label; the forecast is the fitted model applied to the last row's features |
| Strategy.TrainPredictRows | src/strategy.py:40-63 | on at least 3 rows, the last row is on neither side of the split, and df_test is the last ceil(0.2 (N - 1)) rows of df |
| Strategy.TailTestFrameMisaligned | src/strategy.py:62-63 | df_test's last row is df's unlabeled last row, which is never a test row; it carries that row's own Close, yet the prediction made for the last test row |
| Strategy.AlignedTestFrame | src/strategy.py:62-63 | the corrected df_test row k is test row k of df: its index label, every column of df at that row, plus its own prediction as Predicted_Close |
| Strategy.AlignedTestFramePairsRows | src/strategy.py:43-63 | every row of the corrected df_test is a labelled test row that carries that row's own Close and the prediction made from its own features; its label is the next row's Close |

## Left out

- Downloading the price history (`yf.Ticker(...).history`) is network I/O; the history is an input `Table`.
- Plotting (`plot_stock_chart`, `plot_stock_chart_with_bollinger`, `plot_rsi_chart`, `plot_predicted_vs_actual`), `set_korean_font` and its call at import time are presentation and global configuration. Only the SMA lines of `plot_stock_chart` are modelled.
- `src/main.py` and `src/data_fetcher.py` only fetch and print.
- The random-forest regressor is a parameter `fit`. Its training and the `ModelFitError` it might raise are not modelled.
- The permutation chosen by `train_test_split(random_state=42)` is a parameter. Only the sizes and the partition are modelled.
- Printing of the MAE and the forecast is not modelled.
- Floating point is replaced by exact reals. Rounding, and pandas' online rolling algorithms, are not modelled. Infinities are not modelled: RSI's infinite ratio is written out as 100, and 0 / 0 as missing.
- The square root is the parameter `sqrt`. Lemmas that need its properties assume `Numeric.IsSquareRoot(sqrt)`.
- Strategy.PctChange: a zero previous close gives an infinite or undefined Return in pandas; the model treats it as missing. An infinite Return would survive `dropna`; a missing one does not. `pct_change`'s forward fill of missing closes is not modelled. The suffix lemmas assume a history with no missing value and no zero close.
- DataAnalyzer.DataFrame.AddRsi: a window of 0 is excluded by a precondition. pandas raises for it, because min_periods = 1 exceeds the window.
- DataFrame column order is not modelled. Columns are a map; only the order of the eight feature columns in a feature row is modelled.
- Strategy.TrainPredict keeps the source's `df_test` assembly (`TailTestFrame`). The corrected assembly, `AlignedTestFrame`, is proved separately; the pipeline does not return it.

## Findings

| source | as written | input that shows it | evidently intended | confidence | as-written member | corrected member |
|---|---|---|---|---|---|---|
| src/data_analyzer.py:75-79 | the RSI series is built from `pd.Series(gain)`, so it has a fresh range index; `df["RSI"] = ...` then aligns it on labels with the date-indexed frame, and no label matches | any date-indexed frame with at least two strictly rising closes: the computed RSI at row 1 is 100, but the written column is missing at every row | assign the RSI values row by row (keep the frame's index on the gain and loss series) | high, not executed | DataAnalyzer.DataFrame.AddRsi, DataAnalyzer.RsiLostOnDateIndex | DataAnalyzer.DataFrame.AddRsiPositional, DataAnalyzer.RsiFormula |
| src/strategy.py:43, 62-63 | `df_test` is the last len(y_test) rows of df, with the predictions for the shuffled test rows attached positionally | any feature table of N >= 3 rows: the last df_test row is df's unlabeled row N - 1, which is never a test row, yet it carries the prediction for test row `test[last]`, a different row | `df_test` should hold the test rows themselves, each with its own prediction; even then each row's `Close` is the same day's close, while its prediction is for the next day's close, so the actual-versus-predicted plot (src/strategy.py:75-76) still compares values one day apart | high, not executed | Strategy.TailTestFrame, Strategy.TailTestFrameMisaligned | Strategy.AlignedTestFrame, Strategy.AlignedTestFramePairsRows |
