# Trading signals and backtest — Dafny model

This project models two parts of a small stock-analysis program.

- **The signal generator** (`technical_analysis`). It takes a daily price series with Close and Volume columns and adds six columns:
  - EVWMA: the cumulative volume-weighted average close;
  - MACD and MACD_Signal, computed by TA-Lib; in this model they are inputs to `Analyze`;
  - VWAP, computed by the same expression as EVWMA;
  - Stochastic_RSI, an oscillator: each close placed within its 14-bar min/max range, then averaged over 14 bars;
  - Signal: +1 (buy), -1 (sell) or 0 (hold) for each bar.
- **The backtest simulator** (`backtest_strategy`). It replays the signals with a cash balance of 10000 and a share count of 0. Each buy signal buys one share at the close while cash is positive. Each sell signal sells one share while any are held. The result is the cash plus the shares held, valued at the last close.

Files:

- `wrappers.dfy` — the `Option` type.
  - In an indicator column, `None` is a NaN cell.
  - As the result of an operation, `None` stands for the source raising.
- `technical_analysis.dfy` — module `TechnicalAnalysis`.
  - The indicator columns are functions over whole columns.
    - Cumulative sums are `RunningTotals`/`CumSum`.
    - Rolling minima and maxima are `RollingMin`/`RollingMax`.
    - The rolling mean is `RollingMean`.
  - The classification of one bar is a pair of predicates.
  - `GenerateSignals` is a method that fills the Signal column in place, in three passes as the source does: zero everywhere, then the buy mask, then the sell mask.
  - `Analyze` returns the whole frame.
- `backtest.dfy` — module `Backtest`.
  - `BacktestStrategy` is the source's loop over two local variables. It is proved equal to `FinalValue`, the replay specification built from `Step` and `Run`.
  - The ledger and example lemmas are stated about `Run`.

Prices and volumes are `real`: an exact stand-in for the source's floats. A NaN indicator cell is `None`. A comparison with NaN is false, as in IEEE arithmetic (`Greater`). Bar indices are 0-based.

Two behaviours of the code are worth stating outright:

- **Worked example.** With closes 100, 102, 98, 105 and signals 1, 0, 1, -1, the loop ends at cash 9907 with one share, for a final value of 10012 (`Backtest.WorkedExample`).
- **Short history.** A short history raises no error. The oscillator is NaN for 0-based bars 0..25, because the two nested 14-bar windows each need a full window, so those bars get signal 0.

## Model

| member | source | states |
|---|---|---|
| TechnicalAnalysis.RunningTotals | technical_analysis.py:19 | cell i of a `cumsum` is the sum of cells 0..i |
| TechnicalAnalysis.CumSum | technical_analysis.py:19 | pandas `cumsum` of a whole column: as long as the column, and cell i is the sum of cells 0..i |
| TechnicalAnalysis.Quotients | technical_analysis.py:19 | the element-wise quotient of two columns: a cell is NaN exactly when its divisor is 0, and otherwise times the divisor gives back the dividend |
| TechnicalAnalysis.Evwma | technical_analysis.py:19 | the EVWMA cell of bar i, built from the `Volume * Close` column (`Products`) and two cumulative sums, is Σ_{j≤i} volume·close over Σ_{j≤i} volume, and NaN when the cumulative volume is 0: a running prefix average, not a windowed one |
| TechnicalAnalysis.Vwap | technical_analysis.py:22 | the VWAP column equals the EVWMA column, bar for bar |
| TechnicalAnalysis.EvwmaWithinCloseRange | technical_analysis.py:19 | if every volume up to bar i is positive, EVWMA at bar i is defined and lies between the lowest and the highest close of bars 0..i |
| TechnicalAnalysis.EvwmaUndefinedIsZeroOverZero | technical_analysis.py:19 | if volumes are nonnegative, EVWMA at bar i is NaN exactly when no volume has traded, and then the numerator is 0 too (0/0, never ±inf) |
| TechnicalAnalysis.EvwmaNoLookahead | technical_analysis.py:19 | dropping the bars after bar i leaves EVWMA at bar i unchanged |
| TechnicalAnalysis.RollingMinWindow | technical_analysis.py:24-25 | `rolling(w).min()` (w = 14 here) at bar i is defined exactly when w bars exist, and is then the smallest close of bars i−w+1..i: none is below it and one equals it |
| TechnicalAnalysis.RollingMaxWindow | technical_analysis.py:24-25 | `rolling(w).max()` (w = 14 here) at bar i is defined exactly when w bars exist, and is then the largest close of bars i−w+1..i: none is above it and one equals it |
| TechnicalAnalysis.Position | technical_analysis.py:24 | `(close − min) / (max − min)` for one bar is defined exactly when both window ends are defined and differ, and then times the range gives back close − min |
| TechnicalAnalysis.NormalizedAt | technical_analysis.py:24-25 | (close − min14)/(max14 − min14) at bar i is defined exactly when i ≥ 13 and the 14-bar window has a nonzero spread; when defined it lies in [0, 1]; a zero spread means the close equals the window minimum |
| TechnicalAnalysis.RollingMeanCell | technical_analysis.py:25 | `rolling(w).mean()` at bar i is defined exactly when w bars exist and every cell of the window is defined, and is then the window's sum over w |
| TechnicalAnalysis.StochRsiDefinedness | technical_analysis.py:24-25 | the oscillator, the 14-bar mean of the normalised close, is defined at bar i exactly when i ≥ 26 and none of the 14 windows ending at bars i−13..i has zero spread |
| TechnicalAnalysis.StochRsiInUnitInterval | technical_analysis.py:24-25 | a defined oscillator value lies in [0, 1] |
| TechnicalAnalysis.StochRsiNoLookahead | technical_analysis.py:24-25 | dropping the bars after bar i leaves the oscillator at bar i unchanged |
| TechnicalAnalysis.MasksExclusive | technical_analysis.py:29-35 | no bar is in both the buy mask and the sell mask, so the sell assignment never overwrites a buy |
| TechnicalAnalysis.IsBuy | technical_analysis.py:29-31 | the buy mask; a bar with a NaN indicator is never in it |
| TechnicalAnalysis.IsSell | technical_analysis.py:33-35 | the sell mask; a bar with a NaN indicator is never in it |
| TechnicalAnalysis.UndefinedOrTieHolds | technical_analysis.py:29-35 | a bar is in neither mask if it has a NaN indicator, or if any strict comparison ties: MACD equal to its signal line, close equal to EVWMA, or the oscillator exactly 0.2 or 0.8 |
| TechnicalAnalysis.GenerateSignals | technical_analysis.py:28-35 | every signal is in {−1, 0, 1}; a signal is 1 exactly when the bar is in the buy mask (MACD > signal line, close > EVWMA, oscillator < 0.2) and −1 exactly when it is in the sell mask (MACD < signal line, close < EVWMA, oscillator > 0.8); a bar with a NaN indicator gets 0 |
| TechnicalAnalysis.Analyze | technical_analysis.py:8-38 | the input columns are kept; EVWMA, VWAP (equal to EVWMA) and the oscillator are added; each bar's signal is decided by that bar's row alone; bars 0..25 always get signal 0 |
| Backtest.Decide | backtest.py:10-15 | a bar buys exactly when its signal is 1 and cash is positive, and sells exactly when its signal is −1 and shares are held; otherwise it holds |
| Backtest.Step | backtest.py:10-15 | one bar changes the share count by at most one. Shares rise exactly when the signal is 1 and cash is positive. Shares fall exactly when the signal is −1 and shares are held. Cash moves by the close times the change in shares, opposite in sign. A nonnegative share count stays nonnegative |
| Backtest.Run | backtest.py:3-15 | replaying any series from cash 10000 and no shares never leaves a negative share count |
| Backtest.Ledger | backtest.py:6-15 | after any replay, shares equal executed buys minus executed sells. Cash equals 10000, less the closes of executed buys, plus the closes of executed sells |
| Backtest.FinalValue | backtest.py:17 | the result is defined exactly when the series is nonempty: the final state marked at the last close, and None where `iloc[-1]` raises |
| Backtest.FinalValueFromLedger | backtest.py:17 | the result equals the ledger cash plus the ledger share count times the last close |
| Backtest.BacktestStrategy | backtest.py:1-18 | the loop over the rows returns exactly the replay's final state marked at the last close; an empty series, where `iloc[-1]` raises, gives None |
| Backtest.AllHoldKeepsCapital | backtest.py:3-17 | if no bar has signal 1 or −1, the state stays at (10000, 0) and the result is exactly 10000, whatever the prices |
| Backtest.CashCanGoNegative | backtest.py:10-12 | the buy guard checks only for positive cash: a buy at 15000 leaves cash at −5000 and one share, and a further buy signal is then refused |
| Backtest.WorkedExample | backtest.py:6-17 | closes 100, 102, 98, 105 with signals 1, 0, 1, −1 pass through (9900, 1), (9900, 1), (9802, 2), (9907, 1) and end at 10012 |

## Left out

- MACD and its signal line (technical_analysis.py:20-21) are computed by TA-Lib, a foreign library. They are inputs to `Analyze`, with a NaN cell as `None`.
- The catch-all `except` that logs and returns None (technical_analysis.py:39-41) is not modelled, and neither are the logging calls. On real numbers no step of the modelled expressions raises.
- Floating-point rounding is not modelled. Prices are exact reals. pandas' rolling mean adds and subtracts a running total, which can put a value a rounding error outside [0, 1]; the model does not capture that.
- `Quotients`, `Divide` and so `Evwma` and `Position` give NaN for every zero divisor, where pandas gives ±inf when the dividend is nonzero. For `Evwma` that can happen only with negative volumes; `EvwmaUndefinedIsZeroOverZero` proves that with nonnegative volumes the case is always 0/0. For `Position` it cannot happen: `NormalizedAt` proves that a zero spread forces the close onto the window minimum, so the quotient is 0/0.
- The frame is updated in place in the source: columns are appended to the caller's DataFrame. `Analyze` returns a new `Frame` value instead, so aliasing of the caller's frame is not modelled.
- The index labels of the DataFrame play no part in either operation and are not modelled. The columns are sequences in row order.
- quantitative_analysis.py, main.py, data_acquisition.py, logging_config.py, model.py and setup.py are not part of this model. They hold option-pricing numerics, command-line input, network retrieval, logging set-up, a neural network and packaging.
