# A verified model of a portfolio-rotation backtester

The system backtests a momentum rotation between four fixed portfolios of
exchange-traded funds. The model covers five parts:

1. **Loading and alignment.** The closing prices of every asset are
   outer-joined on their dates, sorted and forward-filled. The result is then
   cut to the backtest start date.
2. **Returns.** Daily returns come from the aligned prices, with NaN filled
   as 0. A portfolio's daily return is the weighted sum of its assets'
   returns.
3. **The rotation.** Each day, the strategy picks the portfolio whose wealth
   curve grew most over the last `n` days (an arg-max that skips NaN). It
   holds that portfolio the next day.
4. **Metrics.** Total and annualized return, Sharpe ratio, maximum drawdown
   and volatility of the strategy's returns.
5. **The grid-search optimizer.** It enumerates parameter combinations in
   `itertools.product` order. It scores each back-test with a Calmar, Sharpe
   or return metric, keeps the first best combination and collects a result
   row for each combination that produced metrics.

## How the model looks

- `wrappers.dfy` defines `Option` and `Result`.
- `frames.dfy` (module `Frames`) models the pandas operations the core relies
  on, each as a pure function with lemmas stating what it means:
  - `concat(axis=1).sort_index().ffill()` is `Align`;
  - the start-date mask is `FilterFrom`;
  - `pct_change().fillna(0)` is `PctChange`;
  - `(1 + r).cumprod()` is `WealthIndex`;
  - `W / W.shift(n) - 1` is `NDayReturns`;
  - `idxmax(axis=1)` is `IdxMax`.
- Dates are integers in `yyyymmdd` form, so their order is calendar order.
  The configured start date `"20200101"` becomes `20200101`.
- Prices are `real`, and NaN is `None`.
- A data frame is a map from asset key to an optional close series. A series
  maps dates to optional closes.
- `portfolios.dfy` (module `Portfolios`) holds:
  - the portfolio datatypes;
  - the weighted-sum loop over holdings (`AccumulateHoldings`);
  - the momentum signal over a sequence of named return columns.
- `config.dfy` (module `Config`) holds the `PORTFOLIOS` literal and the
  default parameters.
- `backtest.dfy` (module `Backtest`) models the engine. It is a value that
  `NewEngine` builds once and that later methods only read, as the Python
  engine's fields are assigned only in `__init__`. Its methods are proved
  against specification functions. The metrics are a function.
- `strategy.dfy` (module `Strategy`) models `MomentumStrategy` as a class.
  `SetData` and `OnDataLoaded` update its fields, and `GetTargetWeights`
  reads them. The signals are specified as a function of the loaded data
  (`SignalsOf`), layered through a function of the price table
  (`SignalsFrom`).
- `optimize.dfy` (module `Optimize`) holds:
  - the cartesian product with its mixed-radix ranking;
  - `dict(zip(...))`;
  - the score;
  - the search loop (`Search`, called by `Run`). The loop takes the
    back-test of one combination as a function parameter.

## Model

| member | source | states |
|---|---|---|
| Backtest.AlignData | src/backtest.py:13-33 | Fails with `NoDataLoaded` exactly when no frame has a close column. Otherwise: the index is ascending; it holds exactly the loaded dates on or after the start date; the columns are exactly the assets with a close; each cell is the latest close at or before its date. |
| Frames.AlignSpec | src/backtest.py:27-30 | The joined index is strictly ascending and is the union of all loaded dates. Each cell is the last close observed on or before its date (forward fill). |
| Frames.FFillIsLatestClose | src/backtest.py:30 | Forward-filling a reindexed series gives, at each index date, the latest close on or before that date. |
| Frames.FilterFromSpec | src/backtest.py:32 | The start-date mask keeps exactly the rows dated on or after the start. It keeps them in order, as a suffix, with the same columns. |
| Frames.CollectCloses | src/backtest.py:15-22 | The loop collecting `df['close']` keeps one series per frame that has a close column, and only those. |
| Frames.IndexOf | src/strategy.py:94-101 | `get_loc`: `None` exactly when the date is not in the index. Otherwise it gives the first position holding the date. |
| Frames.IndexOfSorted | src/strategy.py:99 | On an ascending index, the position found for the date at `i` is `i`. |
| Frames.PctChangeRoundTrip | src/backtest.py:11 | The first row's return, and any return next to a NaN close, is 0. Otherwise the close is the previous close grown by the return. With positive prices, every return exceeds -1. |
| Backtest.NewEngine | src/backtest.py:7-11 | Construction fails exactly when no close exists. It stores the aligned closes and their daily returns. |
| Backtest.EngineReturns | src/backtest.py:11 | The engine's daily returns have the aligned columns and rows. They exceed -1, are 0 on the first row, and reproduce each close from the previous one. |
| Portfolios.AccumulateHoldings | src/backtest.py:42-54 | The holding loop yields the weighted sum of returns of the held assets that have columns. It flags `valid` exactly when some held asset has a column. |
| Backtest.CalculatePortfolioReturns | src/backtest.py:35-59 | The portfolio return table is `PresentReturns`: one weighted-sum column per portfolio with a present asset, in configuration order. |
| Backtest.PresentReturnsSpec | src/backtest.py:56-57 | Every column is the weighted-sum return of some portfolio with a present asset. Every such portfolio has its column. |
| Backtest.PresentReturnsDistinct | src/backtest.py:57 | Distinct portfolio keys give distinct column keys. |
| Portfolios.WeightedSumAboveMinusOne | src/backtest.py:51 | A long-only portfolio with total weight at most 1, over assets that each lose less than everything, loses less than everything each day. |
| Portfolios.WeightedSumOfZeroRow | src/backtest.py:51 | On a row where every asset return is 0 (the first row), every portfolio return is 0. |
| Portfolios.LookupDistinct | src/strategy.py:131-134 | With distinct keys, looking up a portfolio's own key returns that portfolio. |
| Frames.WealthRecurrence | src/backtest.py:71 | The wealth index starts at `1 + r[0]` and multiplies by `1 + r[t]` each day. |
| Frames.WealthFromFlatStart | src/strategy.py:73 | When the first return is 0, the wealth index starts at 1 and compounds each day's return. |
| Frames.WealthPositive | src/backtest.py:71 | Wealth stays positive while every daily return exceeds -1. |
| Frames.WealthPrefix | src/backtest.py:71 | Wealth up to a day reads the returns up to that day and no later. |
| Frames.NDayIsWindowGrowth | src/backtest.py:74 | The n-day return is the compounded growth of the last `n` days. A zero base means zero wealth on the day too, which pandas computes as 0/0 = NaN. |
| Frames.NDayDefined | src/backtest.py:74 | On a wealth curve of returns above -1, the n-day return is defined exactly from row `n` on. |
| Frames.IdxMax | src/backtest.py:78 | `None` exactly when every value is NaN. Otherwise it gives the label of the first position holding the largest defined value. |
| Frames.ArgMaxPosSpec | src/strategy.py:86-89 | The arg-max is `None` exactly on all-NaN rows. Otherwise it is the first position of the maximum. |
| Portfolios.SignalPrefix | src/backtest.py:71-78 | The signal on row `t` reads the return columns up to row `t` and no later. |
| Backtest.RunStrategy | src/backtest.py:61-91 | Fails with `EmptyArgMax` (the `ValueError` of `idxmax` over no columns) exactly when there are rows and no portfolio has a present asset. Otherwise fails with the key of the first configured portfolio that has no column (`KeyError`). Succeeds exactly when every portfolio has a column and the `idxmax` error does not arise. On success: the portfolio returns are `PresentReturns`; the active signal is the signal shifted by one day; the strategy return is 0 where the active signal is NaN and the chosen portfolio's return where it names one. |
| Backtest.NoColumnsIffNonePresent | src/backtest.py:56-57 | The portfolio return table has no column exactly when no portfolio holds an asset with returns. |
| Backtest.AssignHeld | src/backtest.py:85-89 | The masking loop assigns each day the return of the portfolio named by the active signal, and 0 when none is named. It fails on the first key with no column. |
| Backtest.StrategyReturnsSpec | src/backtest.py:85-89 | The strategy return is 0 on a day with no active signal. Otherwise it is the named portfolio's return on that day. |
| Backtest.ActiveNamesPortfolio | src/backtest.py:83 | Every defined active signal names one of the portfolio columns. |
| Backtest.ColumnOnlyIfPresent | src/backtest.py:56-57 | A column carrying a portfolio's key exists only when one of its assets is present, and it holds that portfolio's weighted sum. |
| Backtest.SignalWarmUp | src/backtest.py:74-78 | With an admissible configuration and at least one column, the signal is NaN exactly on the first `n` rows. |
| Backtest.StrategyReturnsAboveMinusOne | src/backtest.py:85-89 | With an admissible configuration, the strategy never loses everything in a day and returns 0 on the first day. |
| Backtest.CalculateMetrics | src/backtest.py:93-101 | `{}` exactly when the series is empty or all NaN. Otherwise the metrics of the defined returns. |
| Backtest.MetricsOf | src/backtest.py:103-126 | Total return is the final wealth minus 1, and exceeds -1. Annualized return is `(1 + total)^(252/days) - 1`. The maximum drawdown is `MaxDrawdown`, the smallest daily drawdown from the running peak. It lies in (-1, 0] and is 0 exactly when no day after the first loses. Volatility is the sample deviation times the square root of 252. The Sharpe ratio is 0 when volatility is 0, else `(ann - 0.02)/vol`. |
| Backtest.MaxDrawdownZero | src/backtest.py:115-118 | The maximum drawdown is 0 exactly when no daily return after the first is negative. |
| Backtest.MaxDrawdown | src/backtest.py:115-118 | `drawdown.min()`: no day's drawdown from the running peak is below it, and some day's drawdown equals it. |
| Backtest.DrawdownScalesPeak | src/backtest.py:115-117 | The running peak is positive, and each day's wealth divided by it is one plus that day's drawdown. |
| Backtest.MaxDrawdownBounds | src/backtest.py:115-118 | The maximum drawdown lies strictly above -1 and at most 0. |
| Backtest.DrawdownBounds | src/backtest.py:117 | Each drawdown lies in (-1, 0]. It is 0 exactly at a running peak, and 0 on the first day. |
| Backtest.DropNA | src/backtest.py:100 | `dropna` keeps only defined values, and leaves nothing exactly when all are NaN. |
| Backtest.DropNAConcat | src/backtest.py:100 | `dropna` keeps every defined value in order: it distributes over concatenation, keeps a single defined value and drops a single NaN. |
| Backtest.DropNAAllDefined | src/backtest.py:100 | On a series with no NaN, `dropna` returns every value, position by position. |
| Config.ConfiguredPortfoliosFullyInvested | src/config.py:25-42 | The four configured portfolios have distinct keys. Within each, the assets are distinct. They are long-only and fully invested (weights sum to exactly 1). They hold only configured assets. |
| Strategy.MomentumStrategy.constructor | src/strategy.py:41-45 | A new strategy has no data, no dates and no signals. It keeps its portfolios and `n`. |
| Strategy.MomentumStrategy.SetData | src/strategy.py:10-18 | Stores the data and dates, then recomputes. Without any close column, the previous wealth curves and signals stay. Otherwise the wealth curves, momentum and signals are their specification functions of the data. |
| Strategy.MomentumStrategy.OnDataLoaded | src/strategy.py:47-89 | Same as `SetData` for the data already stored. It also leaves `dataMap` and `dates` unchanged. |
| Strategy.PortfolioWealths | src/strategy.py:66-73 | The portfolio loop yields each portfolio's wealth curve over its weighted daily returns. A portfolio with no present asset gets a flat curve. |
| Strategy.SignalsMatch | src/strategy.py:84-89 | The NaN-row-skipping arg-max of the momentum table equals `SignalsFrom`. |
| Strategy.MomentumStrategy.GetTargetWeights | src/strategy.py:91-134 | No weights before any signals. The weights are the asset weights of a configured portfolio, or empty. Under an admissible configuration they are long-only and sum to at most 1. |
| Strategy.WeightsFor | src/strategy.py:94-134 | The weights are empty or one configured portfolio's asset weights. Under an admissible configuration they are long-only and sum to at most 1. |
| Strategy.SignalDates | src/strategy.py:58-89 | The signal index holds every loaded date, ascending, with no start-date cut. |
| Strategy.SignalNamesLeader | src/strategy.py:89 | A defined signal names a configured portfolio at the first position of the largest n-day return. |
| Strategy.DailyReturnsBounds | src/strategy.py:62 | Asset returns exceed -1 and are 0 on the first row. |
| Strategy.ColumnsAboveMinusOne | src/strategy.py:66-70 | Under an admissible configuration, every portfolio return exceeds -1. |
| Strategy.WealthStartsAtOne | src/strategy.py:73 | Every portfolio's wealth curve starts at 1, with `W[t] = W[t-1] * (1 + r[t])`. |
| Strategy.FirstReturnZero | src/strategy.py:62-70 | Every portfolio's return on the first row is 0. |
| Strategy.SignalUndefinedIff | src/strategy.py:77-89 | With an admissible configuration and at least one portfolio, the signal is NaN exactly on the first `n` rows. |
| Strategy.NoWeightsOffIndex | src/strategy.py:94-95 | No weights on a date outside the signal index. |
| Strategy.NoWeightsDuringWarmUp | src/strategy.py:103-129 | No weights on the first date or on any of the first `n` dates after it. |
| Strategy.WeightsFollowLeader | src/strategy.py:126-134 | After the warm-up, with distinct keys, the weights on a date are those of the first portfolio with the largest n-day return on the previous date. |
| Strategy.ConfiguredWeightsFullyInvested | src/strategy.py:36 | Under the shipped configuration, target weights are empty or sum to exactly 1. |
| Strategy.ReturnsAgreeBefore | src/strategy.py:62 | Daily returns on the first `i` rows read only the first `i` rows of prices. |
| Strategy.ColumnsAgreeBefore | src/strategy.py:66-70 | Portfolio returns on the first `i` rows read only the first `i` rows of asset returns. |
| Strategy.WeightsReadOnlyThePast | src/strategy.py:77-126 | Weights on row `i` of a price table depend only on rows before `i`. |
| Strategy.SignalsAgreeBefore | src/strategy.py:62-89 | Price tables that agree on their rows up to `t` give the same signal on row `t`. |
| Strategy.DatesAgreeBefore | src/strategy.py:58 | Data agreeing before a date has the same loaded dates before it. |
| Strategy.PricesAgreeBefore | src/strategy.py:58 | Data agreeing before a date has the same forward-filled prices on those dates. |
| Strategy.NoLookAhead | src/strategy.py:58-134 | The target weights on a date depend only on observations strictly before that date, and on whether that date was loaded. |
| Optimize.ProductLength | src/optimize.py:26 | The product holds exactly the product of the list lengths. |
| Optimize.ProductMember | src/optimize.py:26 | Each combination takes one value from each list, in list order. |
| Optimize.ProductAtRank | src/optimize.py:26 | The combination made of the values at positions `c` comes at the mixed-radix rank of `c`, last list fastest. |
| Optimize.Unrank | src/optimize.py:26 | Every position of the product has in-range positions whose rank it is (the inverse of `Rank`). |
| Optimize.RankMonotone | src/optimize.py:26 | Ranks follow the lexicographic order of positions. |
| Optimize.Zip | src/optimize.py:27 | `dict(zip(keys, combo))` has exactly the grid keys. |
| Optimize.ZipAt | src/optimize.py:27 | With distinct keys, each key maps to its own value. |
| Optimize.CombinationCount | src/optimize.py:22-27 | The number of combinations is the product of the list lengths. An empty grid gives one empty combination. An empty value list gives none. |
| Optimize.CombinationDrawsFromGrid | src/optimize.py:22-27 | Every combination maps exactly the grid keys, each to a value of its own list. |
| Optimize.CombinationOrder | src/optimize.py:22-27 | The combination picking positions `c` comes at rank `c`, so combinations come in lexicographic order with the last key fastest. |
| Optimize.VolumeZero | src/optimize.py:26 | A list with no values leaves no combinations. |
| Optimize.InvalidScores | src/optimize.py:29-40 | Empty metrics score -999 whatever the metric. An unknown metric name scores -999. |
| Optimize.CalmarScore | src/optimize.py:33-35 | The Calmar score is annualized return over the drawdown magnitude when that exceeds 0.0001, and -999 otherwise. A missing annualized return is an error exactly past the threshold. |
| Optimize.ScoreFailsOnlyForCalmar | src/optimize.py:35 | Only the Calmar branch can raise. |
| Optimize.LookupScores | src/optimize.py:36-39 | The Sharpe and return scores are the stored metric, or -999 when it is absent. |
| Optimize.ScoresOfSpec | src/optimize.py:53-61 | Scoring succeeds exactly when every combination's score does, and then holds each score in order. A failure is the first failing combination's error. |
| Optimize.RowsSpec | src/optimize.py:66-67 | Every result row is one combination with non-empty metrics, carrying its own params, score and metrics. Every such combination has its row. |
| Optimize.RowsCount | src/optimize.py:66-67 | There are exactly as many rows as combinations with non-empty metrics, counted independently of the rows. |
| Optimize.RowAt | src/optimize.py:66-67 | Each combination with non-empty metrics has its own row at the position equal to the number of earlier such combinations. With `RowsCount`, this fixes every row. |
| Optimize.RowsInOrder | src/optimize.py:66-67 | Rows of an earlier prefix of the run are a prefix of all rows, so rows come in iteration order. |
| Optimize.Search | src/optimize.py:46-76 | The loop fails exactly when some score does, with the first failure. Otherwise: the rows are `Rows`; there is a best exactly when there was a combination; the best is the first combination with the largest score. |
| Optimize.Run | src/optimize.py:14-76 | `run` over the grid's combinations promises the same as `Search`. The metric defaults to `"calmar"`, as in the optimizer's constructor. |
| Optimize.NewBest | src/optimize.py:69-71 | A score strictly above the best so far becomes the first best. |
| Optimize.KeepBest | src/optimize.py:69-71 | A score that does not beat the best so far leaves the earlier best in place (the comparison is strict). |
| Optimize.FailurePersists | src/optimize.py:61 | Once one score fails, the whole run fails the same way. |

## Left out

- Data loading from files, the `print` warnings, and the `__main__` blocks are outside the model. The engine takes its data map as a parameter, where the source calls `load_all_data()` itself.
- Floating point is modelled as exact reals. Infinity and overflow are not modelled. NaN is `None` where pandas produces it.
- Backtest.MetricsOf: `**` and `np.sqrt` are function parameters `pow` and `sqrt`. Their numeric values are therefore not modelled, only where they enter.
- Backtest.MetricsOf: a one-day series has a NaN sample deviation in pandas. The model states this as `None` volatility and `None` Sharpe ratio, instead of propagating NaN through `vol != 0`.
- Backtest.CalculateMetrics requires every defined return to exceed -1, because the drawdown divides by the running peak of wealth. Returns of positive prices and admissible portfolios always meet this (`StrategyReturnsAboveMinusOne`).
- Backtest.NewEngine and Strategy.MomentumStrategy.SetData require positive closes, because `pct_change` on a zero close yields infinity in pandas, which is outside the model.
- The column order of the aligned price frame is not kept (a map by asset key). The portfolio column order is kept.
- The abstract `Strategy` base class is folded into `MomentumStrategy`. The `dates` field is stored but, as in the source, never used.
- `COMMISSION_RATE`, `DATA_DIR` and the `SmartRotation`, `StopLoss` and `SectorRotation` strategies that `optimize.py` imports are not part of this model. The optimizer takes the back-test of one combination as the function `evaluate`, where the source builds a `BacktestEngine` and calls `engine.run`/`get_metrics`, which the shown engine lacks.
- Frames.IdxMax treats an all-NaN row as NaN. `backtest.py` calls `idxmax` on every row, including the all-NaN warm-up rows, where the pandas outcome depends on the version. `strategy.py` skips those rows explicitly, and the model gives both the arg-max that skips them.
- Optimize.Run: a result row keeps params, score and metrics as separate fields, where the source merges them into one dictionary. A metric named `params` or `score` would overwrite those entries there.
- Optimize.Run: a NaN score is not modelled. In the source, NaN never wins the strict comparison.
- Optimize.Run: models `run(verbose=False)`. With the default `verbose=True`, `_print_row` indexes the annualized return, Sharpe ratio and maximum drawdown of every non-empty metrics dictionary, and raises `KeyError` when one is missing. That error is not modelled. `calculate_metrics` returns either `{}` or all five keys, so the error arises only for a back-test whose metrics come from elsewhere. The printing itself (`_print_header`, `_print_row`, `_print_footer`) and the `warnings` filter are left out.
- The momentum window `n` is a natural number. A negative `shift` is not modelled.
- Strategy.NoLookAhead: two data maps agree before a date when they hold the same assets and the same observations before it. Observations after the date may differ freely.
