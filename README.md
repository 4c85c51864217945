# A verified model of the backtestengine core

This project models the core of the `backtestengine` trading backtester in Dafny and proves
properties of the model. The core has four parts:

- **The portfolio ledger** (`Portfolio`). It holds cash, a symbol-to-quantity map and an
  append-only trade log. Trades are charged a commission on their notional value. Equity
  snapshots mark the holdings to given prices.
- **The backtest loop** (`Backtest.run`). For each bar of the signal frame it:
  - skips the bar when `Position` is NaN;
  - otherwise takes a snapshot at the close;
  - when `Position` is non-zero, tries a BUY or a SELL sized at 2% of the cash;
  - records a rejected trade and carries on.

  At the end it assembles the results.
- **The exact parts of the metrics**: the win rate, the maximum drawdown, the simple-return
  series, the CAGR guard and year count, and the five-key report.
- **The signal rules** of the three strategies: the moving-average crossover, RSI thresholds
  and Bollinger bands.

Modules, one file each:

- `Floats` (floats.dfy) models pandas/numpy values: a finite real, ±infinity or NaN. NaN
  compares false with everything, and a division by zero yields an infinity or NaN.
- `Series` (series.dfy) holds the column operations: `rolling(w).mean()`, `diff()`,
  comparison masks and `df.loc[mask, col] = v`.
- `Frames` (frames.dfy) models the DataFrame the strategies annotate as a class. Its
  columns are a map that the signal methods update in place.
- `Parameters` (parameters.dfy) models the dynamically typed strategy parameters. It follows
  Python's `isinstance(True, int)`.
- `Ledger` (ledger.dfy) holds class `Portfolio`. Its methods are proved against the pure
  transition `Execute` and the snapshot `Mark`. `Mark` uses `PositionValue`, a sum over the
  held symbols that does not depend on summation order.
- `Backtesting` (backtest.dfy) holds class `Backtest`. Its loop is proved against the fold
  `Simulate` of the per-bar `Step`.
- `Metrics` (metrics.dfy), `MovingAverage` (moving_average.dfy), `Rsi` (rsi_strategy.dfy)
  and `Bollinger` (bollinger_bands.dfy) cover the metrics and the three strategies.
- `RunMetrics` (run_metrics.dfy) connects a whole backtest run to the win-rate metric.
- `Wrappers` (wrappers.dfy) holds `Option`, `Result` and `Outcome`. Python exceptions
  become these error values.

Amounts are exact reals. A sale at the exact quantity held therefore deletes the key, as
the `== 0` test at `portfolio.py:60` intends.

The ledger stays solvent only when the commission rate is at most 1, because a SELL credits
`value * (1 - rate)`. `Ledger.SellAboveUnitCommission` shows a rate of 2 driving cash
negative. The positive cash and positive holdings invariant (`Backtesting.RunHealthy`)
therefore assumes a rate in [0, 1]. It also assumes a positive starting balance: with zero
cash the loop sizes trades at quantity 0, and a zero-quantity BUY stores a zero holding.

The only uncaught exception of `run` is the KeyError of `update_equity`: it ends the run and
no results are stored. `failures` records the trade errors that `run` catches and prints.
The close reaches the sizing rule as a numpy float64, so a close of 0 raises nothing: the
size is +inf (positive cash), NaN (no cash) or −inf, and the trade value 0·size is NaN.
`execute_trade` then refuses a SELL when the symbol is not held or the holding is below the
size, and accepts every other trade with NaN amounts, which makes the cash NaN. The model
follows the refusal exactly; an accepted trade at a zero close ends the modelled run
(`NaNCash`), as described under "Left out".

## Model

| member | source | states |
|---|---|---|
| `Ledger.Portfolio.constructor` | backtester/engine/portfolio.py:17-30 | a fresh portfolio holds only its initial cash: no positions, no trades, no snapshots, with defaults 100000 and 0.001 |
| `Ledger.Execute` | backtester/engine/portfolio.py:32-71 | an unknown type is refused. A BUY is accepted iff price·qty·(1+rate) ≤ cash; it then debits value + commission and adds qty, starting from 0. A SELL is accepted iff the symbol is held with at least qty; it then credits value − commission, subtracts qty and deletes the key exactly at 0. An accepted trade appends exactly one Trade with value = price·qty and commission = value·rate. Other symbols, earlier trades and snapshots are unchanged |
| `Ledger.Portfolio.ExecuteTrade` | backtester/engine/portfolio.py:32-71 | the method applies Execute to the portfolio's state, or reports its error and leaves every field as it was |
| `Ledger.ExecutePreservesSolvency` | backtester/engine/portfolio.py:50-61 | with cash ≥ 0, all holdings > 0, rate in [0, 1] and price, qty > 0, an accepted trade keeps cash ≥ 0 and every stored holding > 0 |
| `Ledger.SellAboveUnitCommission` | backtester/engine/portfolio.py:55-58 | at a commission rate of 2 an accepted SELL leaves cash negative, so solvency needs rate ≤ 1 |
| `Ledger.RoundTrip` | backtester/engine/portfolio.py:47-61 | BUY q at p, then SELL q at p′, restores the positions exactly (the key is removed if it was absent), costs commission on both legs, and costs 2·rate·p·q when p′ = p |
| `Ledger.RoundTripExample` | backtester/engine/portfolio.py:47-61 | from 100000 at rate 0.001, BUY 10@100 leaves 98999 and a holding of 10; SELL 10@110 then leaves 100097.9, no positions and two trades |
| `Ledger.SumOverRemove` | backtester/engine/portfolio.py:81-84 | the position value does not depend on the order in which the held symbols are summed |
| `Ledger.PositionValueNonNegative` | backtester/engine/portfolio.py:81-84 | non-negative holdings at non-negative prices are worth ≥ 0 |
| `Ledger.PositionValueSingle` | backtester/engine/portfolio.py:81-84 | with only the priced symbol held, the position value is its quantity times its price |
| `Ledger.Mark` | backtester/engine/portfolio.py:73-92 | a snapshot succeeds iff every held symbol has a price. It appends exactly one record with cash, Σ qty·price and their sum, and changes nothing else |
| `Ledger.Portfolio.UpdateEquity` | backtester/engine/portfolio.py:73-92 | the loop over the held symbols computes Mark's position value; a missing price fails before anything changes |
| `Ledger.EquityCurveRoundTrip` | backtester/engine/portfolio.py:94-106 | the equity table has one row per snapshot, and reading its rows back gives the history |
| `Ledger.TradeTableRoundTrip` | backtester/engine/portfolio.py:108-129 | the trade table has one row per trade, and reading its rows back gives the log |
| `Ledger.Portfolio.GetEquityCurve` | backtester/engine/portfolio.py:94-106 | the curve's rows are the snapshots in order; it is empty iff there are none |
| `Ledger.Portfolio.GetTradeHistory` | backtester/engine/portfolio.py:108-129 | the table's rows are the trades in order; it is empty iff there are none |
| `Backtesting.Step` | backtester/engine/backtest.py:36-61 | a NaN-position bar, or a run already ended, changes nothing. Otherwise one snapshot comes first, at the pre-trade cash and the bar's close, and fails iff another symbol is held. A zero position trades nothing. A non-zero position tries exactly one trade: BUY when > 0, SELL when < 0, sized from the cash before the bar. A rejected trade is recorded and leaves the ledger as the snapshot left it. At a zero close the trade is refused with InsufficientPosition exactly when it is a SELL and the symbol is not held or the cash is positive; every other trade there would be accepted with NaN amounts, and the run stops with NaNCash. A recorded trade is therefore always at a non-zero close |
| `Backtesting.Rows` | backtester/engine/backtest.py:36 | `iterrows` yields one bar per row, in index order, carrying that row's timestamp, close and position |
| `Backtesting.ZeroCloseSize` | backtester/strategies/moving_average.py:41-55 | with a float64 close of 0 the size is +inf iff the cash is positive, NaN iff it is 0, and −inf iff it is negative |
| `Backtesting.ZeroCloseCheck` | backtester/engine/portfolio.py:47-58 | at price 0 with a non-finite size, a BUY always passes the cash check (NaN compares false); a SELL is refused with InsufficientPosition iff the symbol is not held or the holding is below the size, and never with InsufficientCash |
| `Backtesting.ZeroCloseOutcome` | backtester/engine/backtest.py:45-61 | at a close of 0 every BUY is accepted, and a SELL is refused exactly when the symbol is not held or the cash is positive, always as InsufficientPosition |
| `Backtesting.Simulate` | backtester/engine/backtest.py:36-61 | the loop is the left fold of Step over the bars; the fold never changes the initial cash or the commission rate (its content is in SimulateCounts, TradesBounded and RunHealthy) |
| `Backtesting.StepTrade` | backtester/engine/backtest.py:45-61 | at a non-zero close an active bar records a trade iff `execute_trade` on the marked ledger accepts it, the ledger then being its result; otherwise its error is reported and the ledger is the marked one |
| `Backtesting.StepCounts` | backtester/engine/backtest.py:36-61 | one bar that does not end the run adds one snapshot iff its position is defined, and one trade or one failure iff it is active |
| `Backtesting.SimulateSnoc` | backtester/engine/backtest.py:36 | running the bars up to i + 1 is one Step after running the bars up to i, which is how the loop advances |
| `Backtesting.HaltIsFinal` | backtester/engine/backtest.py:42-50 | once an uncaught exception has ended the run, later bars change nothing |
| `Backtesting.SimulateCounts` | backtester/engine/backtest.py:36-61 | when no exception ends the run: one snapshot per bar with a defined position, in input order; earlier snapshots are kept; trades + failures equal the number of active bars |
| `Backtesting.TradesBounded` | backtester/engine/backtest.py:45-61 | recorded trades never exceed the bars with a defined, non-zero position |
| `Backtesting.NeverHalts` | backtester/engine/backtest.py:41-50 | a ledger that holds only the traded symbol, over positive closes, never misses a price or divides by zero |
| `Backtesting.TradeHealthy` | backtester/engine/backtest.py:47-59 | a trade sized at 2% of positive cash, at rate in [0, 1], keeps cash > 0, holdings > 0 and every trade value > 0 |
| `Backtesting.StepHealthy` | backtester/engine/backtest.py:36-61 | one bar preserves that invariant |
| `Backtesting.RunHealthy` | backtester/engine/backtest.py:36-61 | a whole run over positive closes preserves that invariant |
| `Backtesting.CrossoverSkipsOnlyFirstBar` | backtester/engine/backtest.py:37-38 | under the moving-average strategy only bar 0 has a NaN position, so n bars give n − 1 snapshots |
| `Backtesting.Assemble` | backtester/engine/backtest.py:63-72 | the results carry the equity and trade tables; final_equity is the last snapshot's total or the initial cash when there is none; total_trades is the trade-log length |
| `Backtesting.Backtest.constructor` | backtester/engine/backtest.py:9-23 | the backtest owns a fresh portfolio with the given cash and rate, and has no results |
| `Backtesting.Backtest.ProcessBar` | backtester/engine/backtest.py:37-61 | the loop body performs exactly Step on the portfolio and the failure log, including the zero-close refusal and stop |
| `Backtesting.Backtest.Run` | backtester/engine/backtest.py:25-74 | the run writes the strategy's columns into the data, then leaves the portfolio and failure log as Simulate over the rows does. It stores and returns Assemble of the final ledger, or, on a KeyError or an accepted zero-close trade, returns that halt and stores nothing |
| `Backtesting.Backtest.GetResults` | backtester/engine/backtest.py:76-85 | it is an error until results are stored, and afterwards returns exactly the stored results |
| `Metrics.CountPositiveExtremes` | backtester/engine/metrics.py:48-49 | all trades count as profitable iff every value is > 0, and none do iff every value is ≤ 0 |
| `Metrics.WinRate` | backtester/engine/metrics.py:36-49 | the rate lies in [0, 1] and is 0 for no trades. It is 1 iff there are trades and all have value > 0, and 0 iff none has |
| `RunMetrics.RunWinRate` | backtester/engine/metrics.py:46-49 | every trade of a healthy run over positive closes has a positive value, so a run that traded has win rate 1 |
| `Metrics.RunningMax` | backtester/engine/metrics.py:31 | entry i of the expanding maximum is ≥ every e_j with j ≤ i |
| `Metrics.RunningMaxPrefix` | backtester/engine/metrics.py:31 | the expanding maximum is attained among e_0..e_i and is the same on every prefix containing i (no look-ahead) |
| `Metrics.MinSkipNaN` | backtester/engine/metrics.py:33 | pandas' min is NaN iff every entry is; otherwise it is an entry ≤ every non-NaN entry |
| `Metrics.MinOfFinite` | backtester/engine/metrics.py:33 | over finite values the minimum is the least of them |
| `Metrics.DrawdownsBounded` | backtester/engine/metrics.py:31-32 | for a positive curve every drawdown is finite and in (−1, 0] |
| `Metrics.MaxDrawdown` | backtester/engine/metrics.py:21-33 | the maximum drawdown is NaN iff no drawdown is defined (an empty curve in particular); otherwise it is one of the drawdowns and ≤ every defined one |
| `Metrics.MaxDrawdownBounds` | backtester/engine/metrics.py:21-33 | a positive curve's max drawdown is the smallest drawdown, in (−1, 0]; an empty curve gives NaN |
| `Metrics.FirstDrawdownIsZero` | backtester/engine/metrics.py:31-33 | when the first point is non-zero its drawdown is 0 (at a first point of 0 it is 0/0, NaN) |
| `Metrics.NonDecreasingHasNoDrawdown` | backtester/engine/metrics.py:31-33 | a non-decreasing positive curve has max drawdown exactly 0 |
| `Metrics.HalvingDrawdown` | backtester/engine/metrics.py:31-33 | [100, 50, 100] has max drawdown −0.5 |
| `Metrics.DropNaN` | backtester/engine/metrics.py:97 | dropna leaves no NaN, never lengthens, keeps every non-NaN entry (infinities included), adds nothing, and leaves a NaN-free column unchanged |
| `Metrics.DropNaNSingle` | backtester/engine/metrics.py:97 | a single entry is dropped exactly when it is NaN |
| `Metrics.DropNaNAppend` | backtester/engine/metrics.py:97 | dropna of a concatenation is the concatenation of the dropna results, so the kept entries keep their order |
| `Metrics.PctChange` | backtester/engine/metrics.py:97 | one change per point: NaN at the first point, e_i/e_(i−1) − 1 after a non-zero point, and NaN or an infinity after a zero |
| `Metrics.Returns` | backtester/engine/metrics.py:97 | the returns hold no NaN and are fewer than the points (none for an empty curve); every defined change after the first point is among them, and nothing else is |
| `Metrics.ReturnsOfNonZeroCurve` | backtester/engine/metrics.py:97 | for a curve without zeros the returns are r_i = e_(i+1)/e_i − 1, n − 1 of them |
| `Metrics.Cagr` | backtester/engine/metrics.py:52-67 | fewer than two points give 0. Otherwise a zero periods_per_year is a ZeroDivisionError, the total return is last/first − 1, and years · periods_per_year = number of points |
| `Metrics.CagrCountsPoints` | backtester/engine/metrics.py:63-66 | 252 points at 252 periods per year count as exactly one year, although they span 251 intervals |
| `Metrics.PerformanceReport` | backtester/engine/metrics.py:84-107 | the report fails iff periods_per_year is 0. Otherwise it has exactly the keys Sharpe Ratio, Max Drawdown, Win Rate, CAGR and Volatility, holding the max drawdown, win rate and CAGR above, and the return series the two deviation statistics are taken of |
| `Series.RollingMeanWithin` | backtester/strategies/moving_average.py:28-29 | a rolling mean is undefined exactly for the first w − 1 bars (everywhere for w = 0), and elsewhere lies within the bounds of the closes it averages |
| `Series.SignalDiff` | backtester/strategies/moving_average.py:37 | the first difference of a −1/0/1 signal is NaN only at bar 0, afterwards in [−2, 2], and non-zero exactly where the signal changes |
| `MovingAverage.MovingAverageCrossover.GenerateSignals` | backtester/strategies/moving_average.py:17-39 | the caller's frame gains SMA_short, SMA_long, Signal and Position. The ordered overwrites (0, then 1 where short > long, then −1 where short < long) equal the crossover classification |
| `MovingAverage.SignalRule` | backtester/strategies/moving_average.py:32-34 | the signal is always −1, 0 or 1. It is 1 iff both means exist and short > long, −1 iff both exist and short < long, and 0 iff either is undefined or they are equal |
| `MovingAverage.PositionRule` | backtester/strategies/moving_average.py:37 | the position is NaN only at bar 0, afterwards a step in [−2, 2], non-zero exactly where the signal changes |
| `MovingAverage.MovingAverageCrossover.PositionSize` | backtester/strategies/moving_average.py:41-55 | it fails iff the price is 0. Otherwise size · price = risk · portfolio value (default risk 0.02), and the size is positive for positive inputs |
| `Rsi.RsiStrategy.ValidateParameters` | backtester/strategies/rsi_strategy.py:22-37 | valid iff the period is an int (bools included) > 0, both thresholds are numbers, overbought > oversold, overbought > 50 and oversold < 50 |
| `Rsi.FromParameters` | backtester/strategies/rsi_strategy.py:7-20 | the strategy keeps the parameters, and takes period, overbought and oversold from them when present, else 14, 70 and 30 |
| `Rsi.DefaultsValid` | backtester/strategies/rsi_strategy.py:17-20 | the defaults 14 / 70 / 30 pass validation |
| `Rsi.OrderCheckRedundant` | backtester/strategies/rsi_strategy.py:33-36 | validity does not depend on the overbought > oversold check, since it follows from the checks against 50 |
| `Rsi.GainsAndLossesSplitChanges` | backtester/strategies/rsi_strategy.py:50-54 | per-bar gains and losses are ≥ 0 and never both positive, gain − loss is the change of the close, and bar 0 counts as flat |
| `Rsi.RsiFormula` | backtester/strategies/rsi_strategy.py:57-58 | with losses, RSI = 100·g/(g+l) in [0, 100), and 0 without gains. With gains and no losses it is 100. With neither it is NaN |
| `Rsi.CalculateRsi` | backtester/strategies/rsi_strategy.py:39-60 | one RSI value per close, undefined for the first period − 1 bars and everywhere for a period of 0 |
| `Rsi.RsiRange` | backtester/strategies/rsi_strategy.py:39-60 | RSI is undefined for the first period − 1 bars (everywhere for a period of 0), and wherever it is defined it lies in [0, 100] |
| `Rsi.ThresholdsExclusive` | backtester/strategies/rsi_strategy.py:76-78 | under valid parameters a bar is never both oversold and overbought: the signal is 1 iff RSI < oversold, −1 iff RSI > overbought, and 0 otherwise, including NaN |
| `Rsi.Threshold` | backtester/strategies/rsi_strategy.py:76-78 | a numeric threshold is compared as its value, and a None threshold as NaN |
| `Rsi.NoneThresholdNeverFires` | backtester/strategies/rsi_strategy.py:76-78 | a None oversold never gives 1, a None overbought never gives −1, and with both None every signal is 0 (the masks are all False) |
| `Rsi.PositionRule` | backtester/strategies/rsi_strategy.py:81 | the position is NaN only at bar 0, afterwards a step in [−2, 2], non-zero exactly where the signal changes |
| `Rsi.RsiStrategy.GenerateSignals` | backtester/strategies/rsi_strategy.py:62-83 | the caller's frame gains RSI, Signal and Position. The ordered overwrites equal the threshold classification, in which SELL wins |
| `Bollinger.BollingerBandsStrategy.ValidateParameters` | backtester/strategies/bollinger_bands.py:22-35 | valid iff the period is an int (bools included) > 0, std_dev is a number > 0, and use_volume is a bool |
| `Bollinger.FromParameters` | backtester/strategies/bollinger_bands.py:7-20 | the strategy keeps the parameters, and takes period, std_dev and use_volume from them when present, else 20, 2.0 and False |
| `Bollinger.DefaultsValid` | backtester/strategies/bollinger_bands.py:17-20 | the defaults 20 / 2.0 / False pass validation |
| `Bollinger.BandOrder` | backtester/strategies/bollinger_bands.py:49-56 | with σ ≥ 0 and k > 0, Lower ≤ Middle ≤ Upper and Upper − Lower = 2kσ. The bands exist exactly where the mean does, from bar period − 1, and nowhere for a period of 0 |
| `Bollinger.PercentBAtBands` | backtester/strategies/bollinger_bands.py:59-60 | where Upper > Lower, %B = (close − Lower)/(Upper − Lower): 0 on the lower band and 1 on the upper band |
| `Bollinger.SignalRule` | backtester/strategies/bollinger_bands.py:78-87 | the signal is always −1, 0 or 1, and a bar the volume filter cancels is 0. Otherwise it is −1 iff close ≥ Upper, and 1 iff close ≤ Lower and not close ≥ Upper, so SELL wins ties |
| `Bollinger.BothBandsTouched` | backtester/strategies/bollinger_bands.py:81-82 | both band conditions hold at once iff σ = 0 and the close equals the mean |
| `Bollinger.VolumeIgnoredWithoutFilter` | backtester/strategies/bollinger_bands.py:84-87 | with use_volume falsy the signals do not depend on volume |
| `Bollinger.PositionRule` | backtester/strategies/bollinger_bands.py:90 | the position is NaN only at bar 0, afterwards a step in [−2, 2], non-zero exactly where the signal changes |
| `Bollinger.BollingerBandsStrategy.CalculateBollingerBands` | backtester/strategies/bollinger_bands.py:37-62 | it returns a fresh copy of the frame with the six band columns, and the caller's frame is untouched |
| `Bollinger.BollingerBandsStrategy.GenerateSignals` | backtester/strategies/bollinger_bands.py:64-92 | it returns a fresh band frame plus Signal and Position, and leaves the caller's columns unchanged. The ordered overwrites (1, then −1, then the volume cancel) equal the band classification |
| `Bollinger.BollingerBandsStrategy.GetBandwidth` | backtester/strategies/bollinger_bands.py:94-105 | the result is the Bandwidth column (Upper − Lower)/Middle of the band frame |
| `Bollinger.BollingerBandsStrategy.GetPercentB` | backtester/strategies/bollinger_bands.py:107-118 | the result is the Percent_B column of the band frame |

## Left out

- Sharpe ratio and volatility (`metrics.py:5-18, 70-81`) need a sample standard deviation
  and `sqrt`, which is floating-point numerics. The report holds the series these
  statistics are taken of: the excess returns, and the returns.
- Metrics.Cagr: stops before the power `(1 + total_return) ** (1 / years) - 1`. It returns
  the total return and the year count, because real exponentiation is not modelled.
- The rolling standard deviation of the Bollinger strategy (`bollinger_bands.py:52`) is not
  computed. It is an input column σ, and band lemmas take σ ≥ 0 as a premise.
- Float rounding, signed zero and float dust are not modelled: amounts are exact reals. So
  is the chance that rounding keeps a holding from reaching exactly 0 at `portfolio.py:60`.
- NaN or infinite closes, volumes and parameter values are not modelled. Closes and volumes
  are finite reals, and thresholds are finite numbers or None.
- The loop's `print` of a failed trade becomes appending the error to `Backtest.failures`.
- Timestamps are integers. DataFrame construction, `set_index` and `iterrows` become
  sequences of records and columnar tables.
- Window and threshold arguments that raise inside pandas are not modelled as error paths.
  A negative, fractional or bool window raises in `rolling`, and `Windowed` and `Configured`
  require an int window ≥ 0. A window of 0 is modelled: every mean is NaN and the signals
  stay 0. A None threshold is modelled: its comparison mask is all False. A string
  threshold or a non-numeric std_dev raises a TypeError and is excluded by `Configured`.
- Backtesting.Step: at a zero close, a BUY, or a SELL of a held symbol with cash ≤ 0, is
  accepted by the source with NaN amounts: the cash becomes NaN, the holding becomes ±inf or
  NaN, and the run goes on to completion. The model cannot carry a NaN cash in its real-valued ledger, so it stops the
  run at that bar with `NaNCash`.
- Backtesting.Backtest.Run: after such a zero-close trade the source completes the run and
  stores results computed from NaN amounts; the model returns `NaNCash` and stores nothing.
- MovingAverage.MovingAverageCrossover.PositionSize: its ZeroDivisionError at price 0 holds
  for a Python float price. The backtest loop passes a numpy float64 close, which
  `Backtesting.ZeroCloseSize` models instead.
- `BaseStrategy` keeps the parameters dictionary, kept here as a field. Its position
  getter and setter are not used by the modelled code. `backtester/utils/config.py`,
  `backtester/utils/data_loader.py`, `backtester/utils/visualizer.py`,
  `backtester/test_strategies.py` and `backtester/main.py` are not part of this model. They
  do file, network, plotting and command-line input and output.
- Open, High and Low columns are never read by the modelled code and are not represented.
