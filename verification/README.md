# agares back-test engine — a Dafny model

agares back-tests trading strategies on Chinese A-share candlestick data. This project models
its core in Dafny:

- **Single-stock execute unit.** It loads a stock's candlestick series by file name
  (`<code>.<name>-<period>`) and keeps the account:
  - a constant capital, cash and board lots held;
  - commission and stamp-tax totals;
  - the append-only list of transaction records.

  Buys go by a bid, either a ratio of the current cash or a position of the capital. They are
  rejected when the bid or the cash is below one board lot of 100 shares. Otherwise they buy the
  largest affordable lot count within the bid and pay a commission of at least 5. Sells credit the
  income and pay commission and stamp tax. The report replays the records against the daily
  closes to build the equity curve, the profit, the rate of return and the running-peak maximum
  drawdown.
- **Front end.** `buy` and `sell` dispatch onto the ledger by keyword priority and record the codes
  traded. Asking for a back test validates the settings and fills in their defaults.
- **Analysis room.** It groups a stock's series under its code and takes the Shenzhen index's daily
  timestamps as the reference axis. For each axis time a stock's daily series lacks, it synthesises
  a bar: all zeros before any real bar has been seen, a copy of the last real bar after.
- **Series identity and window selection.** Parsing and printing file names, and selecting a window
  with its lead-in bars. The per-stock load keeps exactly `n_ahead` lead-in bars; the execute unit's
  own load clamps the lead-in to the bars available.
- **Small helpers.** Detecting Chinese characters; the new-extreme demo strategy, which computes a
  sliding-window highest/lowest close and buys and sells on breakouts; and the crawler's URL
  acceptance filter.

Two kinds of code are modelled differently:
- Code that changes state in place is modelled by classes and methods. This covers the execute unit,
  the stock cache, the front-end session, the analysis room, the gap-filling scan and the extreme-price
  arrays.
- The ledger transitions, the report and the decision logic are modelled by pure functions. Each
  method is proved against these functions.

Money is `real`, lots and timestamps are `int`, and file contents are given as maps from file name
to rows.

## Model

| member | source | states |
|---|---|---|
| HandleChinese.ContainChinese | agares/util/handle_Chinese.py:10-17 | true exactly when some character of the word lies in U+4E00..U+9FA5 |
| HandleChinese.IsChinese | agares/util/handle_Chinese.py:1-8 | a character is Chinese when it lies in U+4E00..U+9FA5; used by ContainChinese |
| HandleChinese.EmptyHasNoChinese | agares/util/handle_Chinese.py:17 | the empty word contains no Chinese character |
| HandleChinese.ContainChineseConcat | agares/util/handle_Chinese.py:14-17 | a concatenation contains a Chinese character iff one of its halves does |
| DataStruct.Split | agares/datastruct.py:17 | splitting on a separator gives one more part than separators, no part holds the separator, and joining the parts gives the string back |
| DataStruct.ParseStockID | agares/datastruct.py:38-44 | succeeds iff the text has exactly one '.'; code and name then print back to the text; otherwise the error names the text |
| DataStruct.StockIDParsePrinted | agares/datastruct.py:46-47 | parsing the printed `<code>.<name>` of a dot-free identity gives that identity back |
| DataStruct.StockIDText | agares/datastruct.py:46-47 | the printed `<code>.<name>`; ParseStockID and StockIDParsePrinted show it and parsing are inverse |
| DataStruct.ParsePeriod | agares/datastruct.py:22-25 | accepts exactly the eight period names, each naming its period |
| DataStruct.PeriodName | agares/datastruct.py:22-25 | the eight period names; PeriodNameParses shows each parses back |
| DataStruct.PeriodNameParses | agares/datastruct.py:22-25 | every period's name parses back to it |
| DataStruct.ParseCstFilename | agares/datastruct.py:6-28 | succeeds iff the name has exactly one '-', the stock part parses and the period is known; the result prints back to the name; a wrong '-' count is BadFileName |
| DataStruct.FileNameParsePrinted | agares/datastruct.py:67-69 | the printed `code.name-period` of a stock parses back to its identity and period |
| DataStruct.PStockName | agares/datastruct.py:67-69 | the printed `<code>.<name>-<period>`; FileNameParsePrinted shows it parses back |
| DataStruct.PStock.Name | agares/datastruct.py:67-69 | a stock prints as its identity and its own period in the `<code>.<name>-<period>` form, which FileNameParsePrinted shows parses back |
| DataStruct.FirstIn | agares/datastruct.py:106 | the first row inside [dt_start, dt_end], with no earlier in-window row, or none at all |
| DataStruct.LastIn | agares/datastruct.py:106 | the last row inside [dt_start, dt_end], with no later in-window row, or none at all |
| DataStruct.InWindow | agares/datastruct.py:106 | a timestamp is selected when it lies in the closed range [dt_start, dt_end]; FirstIn and LastIn give the first and last such row, as datastruct.py:106 and execute_unit.py:81 select them |
| DataStruct.HasDuplicateTimes | agares/datastruct.py:113 | the index is not unique when two rows share a timestamp; SelectExact fails with DuplicateTimestamps exactly then, and SortedSliceUnique shows increasing rows never do (also execute_unit.py:89) |
| DataStruct.SelectExact | agares/datastruct.py:97-115 | the checks fail in the source's order: EmptyFile, NoDataBefore when the window starts before the first row, NoDataAfter when it ends after the last, NoBarInWindow, NotEnoughLeadIn when fewer than n_ahead rows precede the first in-window row, DuplicateTimestamps when the slice repeats a time; success exactly when all pass, and the slice is then n_ahead lead-in rows through the last in-window row |
| DataStruct.SelectClamped | agares/engine/execute_unit.py:80-88 | the lead-in is min(n_ahead, index of the first in-window row); the slice runs from there to the last in-window row; the time scope is the first and last in-window times |
| DataStruct.ExactAgreesWithClamped | agares/datastruct.py:108-112 | when the exact load succeeds the clamped load keeps the same slice with the full lead-in |
| DataStruct.SortedSlice | agares/datastruct.py:105-112 | on increasing times the lead-in rows lie before the window, the rest inside it, and every in-window row is kept |
| DataStruct.SortedSliceUnique | agares/datastruct.py:113 | a slice of an increasing table never has repeated timestamps |
| DataStruct.PStock.Empty | agares/datastruct.py:54-60 | a new stock has its identity and period and empty caches |
| DataStruct.PStock.LoadCst | agares/datastruct.py:72-115 | a cached period is returned without reloading; a missing file or a failed window check changes nothing; otherwise exactly that period's slice is added; missing_cst is untouched |
| DataStruct.OpenPStock | agares/datastruct.py:54-65 | succeeds iff the name parses, the file exists and the window selects; otherwise the error is the parse error, FileDoesNotExist or the selection's error, in that order; the stock prints back to the name and holds exactly that slice |
| Ledger.Commission | agares/engine/execute_unit.py:179 | the commission is the larger of value × rate and 5 |
| Ledger.MaxLots | agares/engine/execute_unit.py:170-174 | at least one lot; the largest count not above floor(bid / lot) whose cost the cash covers |
| Ledger.BidWithinCashNeedsNoReduction | agares/engine/execute_unit.py:170-174 | with a bid no larger than the cash, the backing-off loop never reduces floor(bid / lot) |
| Ledger.BuyStep | agares/engine/execute_unit.py:159-184 | BidTooLow when bid < 100 × price, else NotEnoughMoney when cash < 100 × price, each with nothing changed; otherwise the largest affordable lot count is bought, cash falls by its cost plus a commission of at least 5, one record is appended, capital and rates stay, and the account invariant is kept |
| Ledger.BuyStepLots | agares/engine/execute_unit.py:170-177 | an accepted buy settles on MaxLots |
| Ledger.SellStep | agares/engine/execute_unit.py:248-265 | cash gains income minus commission (at least 5) minus stamp tax; lots drop by the quantity with no holding check; both totals grow; one record is appended; the account invariant is kept |
| Ledger.Apply | agares/engine/execute_unit.py:148-265 | an executed order appends exactly one record, keeps the capital and the account invariant; a sell always executes |
| Ledger.ApplyBuyRatio | agares/engine/execute_unit.py:162 | a ratio buy bids that ratio of the current cash |
| Ledger.ApplyBuyPosition | agares/engine/execute_unit.py:208 | a position buy bids that share of the capital |
| Ledger.Bid | agares/engine/execute_unit.py:162-208 | a ratio buy bids that share of the cash (line 162), a position buy that share of the capital (line 208); ApplyBuyRatio and ApplyBuyPosition state it of Apply |
| Ledger.RunOrders | agares/engine/execute_unit.py:131-146 | orders run in turn; the first ledger error ends the run and is reported, every earlier order stays on the books; records only grow and the capital stays |
| Ledger.RunOrdersStep | agares/engine/execute_unit.py:134-146 | a failing first order leaves the account as it was; an executing one hands its account to the rest of the run |
| Ledger.FullRatioBuysBidLots | agares/engine/execute_unit.py:162-174 | a ratio-1 buy with at least one lot of cash buys exactly floor(cash / lot) |
| EquityReport.Snapshots | agares/engine/execute_unit.py:309-327 | the replay yields one snapshot per bar |
| EquityReport.Advance | agares/engine/execute_unit.py:314-327 | a bar at or after the next record's time moves the snapshot on by exactly one record; SnapshotsAreLatest states what the replay then values each bar with |
| EquityReport.Unreached | agares/engine/execute_unit.py:309-327 | the records left unpopped are a suffix of the pending ones |
| EquityReport.EquityCurve | agares/engine/execute_unit.py:312-327 | one equity value per daily bar |
| EquityReport.LatestRecord | agares/engine/execute_unit.py:314-327 | the last record made at or before the time, or the initial one when none is |
| EquityReport.SnapshotsAreLatest | agares/engine/execute_unit.py:312-327 | on increasing bar times with increasing records made at bar times, the replay's one-record-per-bar advance values every bar with the latest record at or before it |
| EquityReport.EquityCurveUsesLatest | agares/engine/execute_unit.py:315-327 | each bar's equity is cash plus lots × close × 100 of the latest record at or before the bar |
| EquityReport.EquityAt | agares/engine/execute_unit.py:315-316 | floating equity is cash plus lots × 100 × close; EquityCurveUsesLatest shows each bar is valued so with the latest record (also lines 325-326) |
| EquityReport.RecordsLeft | agares/engine/execute_unit.py:309-324 | the records the `pop(0)` calls leave: the first two are popped, then one more per bar that reaches the next record; ExecuteUnit.Report leaves exactly these |
| EquityReport.Track | agares/engine/execute_unit.py:328-338 | the running peak is an equity of the curve and bounds every equity; both drawdowns are non-negative |
| EquityReport.PeakStep | agares/engine/execute_unit.py:328-338 | one bar of the running peak: a new high moves the peak, otherwise the fall and relative fall may raise the maxima; Track, PeakStepBounds and DrawdownIsLargestFall state what it keeps |
| EquityReport.RatioGrowsWithPeak | agares/engine/execute_unit.py:337-338 | for a fixed non-negative trough, (P − T) / P grows with P |
| EquityReport.FallBounded | agares/engine/execute_unit.py:328-338 | every fall from a positive point to a later-or-equal one is within the maximum drawdown and the maximum ratio |
| EquityReport.WithdrawAttained | agares/engine/execute_unit.py:332-335 | a non-zero maximum drawdown is the fall between two points of the curve |
| EquityReport.RatioAttained | agares/engine/execute_unit.py:336-338 | a non-zero maximum drawdown ratio is the relative fall between two points of the curve |
| EquityReport.DrawdownIsLargestFall | agares/engine/execute_unit.py:328-338 | with no negative equity, the running-peak figures are the maximum of P − T and of (P − T) / P over all earlier-peak/later-trough pairs |
| EquityReport.ReportOf | agares/engine/execute_unit.py:290-343 | no daily series is an error and a lone initial record reports nothing; with two or more records the report has statistics exactly when the curve is non-empty, its first equity positive and the capital non-zero (otherwise NoBars, ZeroPeak or ZeroCapital, in that order); profit is last minus first equity, return is profit over capital, and the drawdowns are the running-peak ones |
| EquityReport.ReportDrawdownIsLargestFall | agares/engine/execute_unit.py:328-345 | the reported drawdown and ratio are the largest fall and relative fall of the reported curve |
| EquityReport.ReportValuesLatestRecord | agares/engine/execute_unit.py:312-327 | the reported curve values each bar with the latest record at or before it |
| Engine.BackOff | agares/engine/execute_unit.py:170-174 | the decrementing loop stops at MaxLots, and its cost is within the cash |
| Engine.ExecuteUnit.Empty | agares/engine/execute_unit.py:18-40 | a new unit has zero capital, cash, lots and totals, no rates, no records and no series |
| Engine.ExecuteUnit.LoadCst | agares/engine/execute_unit.py:56-92 | a cached period is returned as is; otherwise the clamped slice is stored with its actual lead-in; the time scope is set before the uniqueness check fails; the account is untouched |
| Engine.ExecuteUnit.AddStrategy | agares/engine/execute_unit.py:94-123 | no settings change nothing; otherwise capital (default 10000) becomes the cash and one initial record is appended even if the capital check then fails; the rates default to 0.001 and 2.5e-4 and are stored before their range check |
| Engine.ExecuteUnit.Buy | agares/engine/execute_unit.py:159-184 | the new account is exactly BuyStep's; a rejection changes nothing |
| Engine.ExecuteUnit.BuyRatio | agares/engine/execute_unit.py:148-192 | the account becomes the ratio order applied; the returned quantity is the lots gained; the account invariant is kept |
| Engine.ExecuteUnit.BuyPosition | agares/engine/execute_unit.py:194-238 | the account becomes the position order applied; the returned quantity is the lots gained; the account invariant is kept |
| Engine.ExecuteUnit.Sell | agares/engine/execute_unit.py:241-265 | the account becomes SellStep's; the account invariant is kept |
| Engine.ExecuteUnit.Execute | agares/engine/execute_unit.py:135 | one strategy order: the account becomes the order applied, or stays and the error is returned |
| Engine.ExecuteUnit.Run | agares/engine/execute_unit.py:131-146 | the account and the abort reason are exactly RunOrders' |
| Engine.ExecuteUnit.Report | agares/engine/execute_unit.py:273-353 | the result is ReportOf the records and capital held; the records left are those the replay did not pop |
| Engine.ReplayRecords | agares/engine/execute_unit.py:305-338 | the loop's curve is EquityCurve, its leftover records Unreached, and its drawdowns Track's when the first equity is positive |
| Engine.Observe | agares/engine/execute_unit.py:329-338 | one bar of peak and drawdown bookkeeping keeps agreeing with Track over the extended curve |
| Engine.ExecuteUnit.LoadSeries | agares/engine/execute_unit.py:52-53 | the constructor's loop of load_cst calls: it fails exactly when LoadAll does, with LoadAll's error, and otherwise leaves LoadAll's series, time scope and lead-in; the account is untouched |
| Engine.OpenExecuteUnit | agares/engine/execute_unit.py:18-54 | the stock comes from the first file name; the unit succeeds exactly when LoadAll does, fails with LoadAll's error otherwise, and then holds LoadAll's series, time scope and lead-in with an empty account |
| Engine.LoadStep | agares/engine/execute_unit.py:56-92 | one load_cst on values, the error discarding the unit; characterised by LoadAllSucceeds and LoadAllContents |
| Engine.LoadAll | agares/engine/execute_unit.py:52-53 | the constructor's loop of loads, one LoadStep per name; characterised by LoadAllSucceeds and LoadAllContents |
| Engine.LoadAllSucceeds | agares/engine/execute_unit.py:52-92 | the loads succeed iff every name parses and each first name of a period not yet held finds its file, a bar in the window and no repeated timestamp; later names of a held period are cache hits |
| Engine.LoadAllContents | agares/engine/execute_unit.py:56-92 | after the loads, series held before are kept, every named period is held, and a newly held period is the clamped window of the first name naming it |
| Engine.LoadAllScoped | agares/engine/execute_unit.py:52-53 | loading at least one series into the new unit leaves its time scope and lead-in set |
| Front.ChooseBuy | agares/engine/ag.py:69-79 | `ratio` wins, then `position`, then `cash`; with none of them, position 1 |
| Front.ChooseBuyIgnoresLower | agares/engine/ag.py:69-79 | adding or changing a lower-priority keyword never changes the choice |
| Front.OrderFor | agares/engine/ag.py:69-79 | a ratio or position choice places that ledger order; a cash choice has none |
| Front.Agares.constructor | agares/engine/ag.py:24-26 | the session wraps the unit and has traded nothing yet |
| Front.Agares.Buy | agares/engine/ag.py:49-81 | the unit's account becomes the chosen order applied, returning the lots bought, the lots held and the cash; on success the code joins the traded set; a ledger error propagates |
| Front.Agares.Sell | agares/engine/ag.py:84-96 | the unit's account becomes SellStep's, the lots held and cash are returned, and the code joins the traded set |
| Front.MissingKey | agares/engine/ag.py:234-238 | the first absent required key, or none when all four are present |
| Front.AskAgares | agares/engine/ag.py:229-272 | strategy and analysis together abort; capital defaults to 10000 and must be positive; the rates default to 0.001 and 2.5e-4 and must lie in [0, 1); success iff all supplied values pass; the switches default to off |
| Front.Answer | agares/engine/ag.py:278-280 | the equity curve is handed back iff a back test asked for it |
| Front.EquityReturnedOnlyWhenAsked | agares/engine/ag.py:261-280 | for accepted settings, the equity is returned iff a strategy was given with ReturnEquity True |
| Analysis.Lookup | agares/engine/analysis_room.py:76 | a bar is found iff the series has a row at that time, and it is that row's bar |
| Analysis.LatestSeen | agares/engine/analysis_room.py:72-89 | the bar of the last earlier axis time the series has, or none; LatestSeenNone and LatestSeenIsMostRecent characterise it |
| Analysis.FillBar | agares/engine/analysis_room.py:76-89 | a missing bar is zeros before any real bar and the last real bar after; FilledRowSource states it of Filled |
| Analysis.LatestSeenNone | agares/engine/analysis_room.py:72-82 | the flag stays up exactly while no earlier axis time is present |
| Analysis.LatestSeenIsMostRecent | agares/engine/analysis_room.py:83-89 | once down, the remembered bar is that of the most recent present axis time |
| Analysis.Filled | agares/engine/analysis_room.py:73-93 | at most one synthesised row per axis time |
| Analysis.FilledRowSource | agares/engine/analysis_room.py:73-89 | each synthesised row stands for an absent axis time and carries the last bar seen before it, or zeros |
| Analysis.FilledRowsAreAbsent | agares/engine/analysis_room.py:73-93 | every synthesised row is for an axis time the series lacks |
| Analysis.AbsentTimesAreFilled | agares/engine/analysis_room.py:73-93 | every axis time the series lacks gets a synthesised row |
| Analysis.FilledInAxisOrder | agares/engine/analysis_room.py:73-93 | the synthesised rows come out in increasing axis order |
| Analysis.FillMissing | agares/engine/analysis_room.py:66-93 | the flag-and-last-bar scan yields exactly Filled |
| Analysis.FillStock | agares/engine/analysis_room.py:63-93 | the loaded series are untouched; the filled rows go to missing_cst's daily slot; a stock without a daily series is reported |
| Analysis.AnalysisRoom.constructor | agares/engine/analysis_room.py:19-25 | the room holds the given stocks, reference and axis, with no time scope yet |
| Analysis.AnalysisRoom.FillMissingCst | agares/engine/analysis_room.py:58-93 | succeeds iff every stock has a daily series; then each stock's missing_cst daily slot is Filled and every loaded series unchanged |
| Analysis.SzFileParses | agares/engine/analysis_room.py:46 | the reference file name parses to the Shenzhen index and the daily period |
| Analysis.NewStock | agares/engine/analysis_room.py:39-40 | a code met first becomes a fresh stock iff its file exists and its exact window selects (FileDoesNotExist or the selection's error otherwise); it then holds exactly that slice under its period |
| Analysis.LoadInto | agares/engine/analysis_room.py:41-42 | a period the stock holds is not reloaded; a missing file or failed selection reports its error and changes nothing; otherwise exactly that period's exact slice is added |
| Analysis.AddSeries | agares/engine/analysis_room.py:33-42 | one turn of the loading loop: it succeeds iff GroupStep does, with GroupStep's error otherwise, and the stocks then hold exactly GroupStep's catalog, one distinct stock per code |
| Analysis.LoadStocks | agares/engine/analysis_room.py:32-42 | the loading loop succeeds iff GroupAll does, with GroupAll's error otherwise, and the fresh stocks then hold exactly GroupAll's catalog |
| Analysis.GroupStep | agares/engine/analysis_room.py:36-42 | one turn on values: a new code gets a stock holding the named series, a known code loads into its stock unless the period is held; characterised by GroupAllSucceeds and GroupAllContents |
| Analysis.GroupAll | agares/engine/analysis_room.py:32-42 | every name in turn, the first failure being the error; characterised by GroupAllSucceeds and GroupAllContents |
| Analysis.GroupAllSucceeds | agares/engine/analysis_room.py:32-42 | the loading succeeds iff every name parses and each first name of a code-and-period series not yet held finds its file and selects its window |
| Analysis.GroupAllContents | agares/engine/analysis_room.py:32-42 | after loading, series held before are kept, every name's series is held under its code, a newly held series is the exact window of the first name naming that code and period, and nothing else is held |
| Analysis.OpenReference | agares/engine/analysis_room.py:46-50 | the reference opens iff its daily file selects, holding that slice with more than n_ahead rows; otherwise FileDoesNotExist or the selection's error |
| Analysis.Furnish | agares/engine/analysis_room.py:50-55 | the room is made over the stocks, the loaded series stay as they are, it succeeds iff every stock has a daily series, every stock's gaps are then filled, and the time scope is the axis's first and last time |
| Analysis.OpenAnalysisRoom | agares/engine/analysis_room.py:19-55 | a loading error comes first, then NoDailyCandlestick when no named series is daily, then the reference's own error (FileDoesNotExist for `000001.sz-1Day`, else SelectExact's error), then NoDailySeries naming a grouped code without a daily series; success iff loading succeeds, some series is daily, the reference selects and every stock has a daily series; the room's stocks then hold exactly GroupAll's catalog, the axis is the reference's daily times without the lead-in, and every stock's gaps are filled |
| ExtremeStrategy.MaxOf | strategy/new_extreme_strategy_demo.py:53 | `np.max` of a non-empty window; ExtremesOfSeq shows it is an element bounding the window from above |
| ExtremeStrategy.MinOf | strategy/new_extreme_strategy_demo.py:54 | `np.min` of a non-empty window; ExtremesOfSeq shows it is an element bounding the window from below |
| ExtremeStrategy.ExtremesOfSeq | strategy/new_extreme_strategy_demo.py:53-54 | a window's max and min are elements of it and bound all of it |
| ExtremeStrategy.HighestBefore | strategy/new_extreme_strategy_demo.py:47-53 | undefined exactly for the first m bars |
| ExtremeStrategy.LowestBefore | strategy/new_extreme_strategy_demo.py:47-54 | undefined exactly for the first m bars |
| ExtremeStrategy.WindowExtremes | strategy/new_extreme_strategy_demo.py:53-56 | for i ≥ m the highest and lowest are closes of bars i−m..i−1, bar i excluded, and bound all of them |
| ExtremeStrategy.ExtremePrice | strategy/new_extreme_strategy_demo.py:33-57 | two fresh arrays as long as the closes, holding HighestBefore and LowestBefore at every bar; the window holds exactly the previous m closes |
| ExtremeStrategy.ExtremeTable | strategy/new_extreme_strategy_demo.py:66-72 | the table's columns are the closes, times and the two extremes per bar |
| ExtremeStrategy.ExtremeTableSound | strategy/new_extreme_strategy_demo.py:53-54 | wherever both are defined, lowest ≤ highest |
| ExtremeStrategy.FullBuyGainsLots | strategy/new_extreme_strategy_demo.py:85 | an accepted ratio-1 buy gains at least one lot |
| ExtremeStrategy.BuyPhase | strategy/new_extreme_strategy_demo.py:83-86 | buys only when flat on a breakout above the high, remembering the lots bought; a refusal stops |
| ExtremeStrategy.BuySignal | strategy/new_extreme_strategy_demo.py:79-83 | a bar is a buy signal when both extremes are defined and the close is above the highest; TradingAlternates shows every buy of the loop is on one, and JustifiedBreaksOut that it broke above the previous m closes |
| ExtremeStrategy.SellSignal | strategy/new_extreme_strategy_demo.py:79-87 | a bar is a sell signal when both extremes are defined and the close is below the lowest; TradingAlternates shows every sell of the loop is on one, and JustifiedBreaksOut that it broke below the previous m closes |
| ExtremeStrategy.SellPhase | strategy/new_extreme_strategy_demo.py:87-90 | when holding and the close falls below the window's low, sells the lots of the last buy; ClosedAlternates states what it keeps |
| ExtremeStrategy.OpenedAlternates | strategy/new_extreme_strategy_demo.py:83-86 | a buy while flat keeps the trades alternating |
| ExtremeStrategy.ClosedAlternates | strategy/new_extreme_strategy_demo.py:87-90 | a sell while holding keeps the trades alternating, even on the bar of the buy |
| ExtremeStrategy.BarAlternates | strategy/new_extreme_strategy_demo.py:79-90 | one bar keeps the trades alternating |
| ExtremeStrategy.Trading | strategy/new_extreme_strategy_demo.py:76-90 | the loop over the bars after the lead-in, skipping bars with an undefined extreme and stopping at a refused buy; TradingAlternates and TradingExtends characterise it |
| ExtremeStrategy.TradingAlternates | strategy/new_extreme_strategy_demo.py:76-90 | the whole loop ends with buys and sells alternating from a buy, on increasing bars, each on its signal, each sell of the preceding buy's lots |
| ExtremeStrategy.TradingExtends | strategy/new_extreme_strategy_demo.py:76-90 | the loop only appends trades, each at a bar it reached |
| ExtremeStrategy.StartBar | strategy/new_extreme_strategy_demo.py:70 | trading starts after the lead-in, never past the end |
| ExtremeStrategy.Strategy | strategy/new_extreme_strategy_demo.py:59-90 | fails iff the window is empty over a non-empty series; otherwise its table is sound and its trades alternate |
| ExtremeStrategy.JustifiedBreaksOut | strategy/new_extreme_strategy_demo.py:83-90 | a buy closed above every one of the previous m closes, a sell below every one |
| ExtremeStrategy.StrategyBreaksOut | strategy/new_extreme_strategy_demo.py:76-90 | every trade comes after the lead-in and broke out of its previous m closes; the trades alternate from a buy, each sell of the preceding buy's lots |
| ExtremeStrategy.TradeBars | strategy/new_extreme_strategy_demo.py:76-90 | the hold-flag loop against the ledger ends in exactly the session and error of Trading |
| ExtremeStrategy.ComputeTradingPoints | strategy/new_extreme_strategy_demo.py:59-90 | not exactly one stock, or no daily series, stops before trading with nothing changed; otherwise the account ends as Strategy says, the code joins the traded set iff a trade was made, a refused buy is returned, and the unit's series and time scope are kept |
| UrlFilter.Find | agares/datasource/SnowBallCmtCrawler.py:324-327 | −1 iff the pattern occurs nowhere; otherwise an occurrence with none before it |
| UrlFilter.TrimPath | agares/datasource/SnowBallCmtCrawler.py:310-313 | the result is a prefix; what is cut is nothing, '＃', "/report" or "/report" + '＃'; nothing is cut iff the path ends with neither |
| UrlFilter.Blocked | agares/datasource/SnowBallCmtCrawler.py:314-327 | the refused prefixes and the first-occurrence tests for '%2525' and 'http:/'; AcceptedPathClean, EmbeddedLinkRefused and NewsPathDoubleEscapeRefused characterise it |
| UrlFilter.CheckAndQuoteUrl | agares/datasource/SnowBallCmtCrawler.py:292-331 | the front page passes unchanged; any other URL is accepted iff it is http on xueqiu.com with an untrimmed path of 2..39 characters whose trimmed form is not blocked, and becomes http, the host and the quoted trimmed path with empty params, query and fragment |
| UrlFilter.TrimOrder | agares/datasource/SnowBallCmtCrawler.py:310-313 | '＃' is cut before "/report": "/report＃" loses both, "＃/report" only "/report" |
| UrlFilter.LongReportLinkRefused | agares/datasource/SnowBallCmtCrawler.py:308-313 | a 40-character report link is refused although trimming would make it 33 |
| UrlFilter.AcceptedPathClean | agares/datasource/SnowBallCmtCrawler.py:314-327 | an accepted trimmed path starts with no blocked prefix and, unless it starts with "http:/", holds "http:/" nowhere |
| UrlFilter.EmbeddedLinkRefused | agares/datasource/SnowBallCmtCrawler.py:326-327 | "http:/" after the first character, and not at the start, is refused |
| UrlFilter.NewsPathDoubleEscapeRefused | agares/datasource/SnowBallCmtCrawler.py:324-325 | a "/n/" path holding "%2525" anywhere is refused |

## Left out

- Printing, the report file (seek, blank padding, writes), CSV reading and plotting. They are output or foreign I/O. File contents are a map from file name to rows.
- `PStockInfo`, which the execute unit imports from `agares/datastruct.py`, is not part of this model. The stock and period are read with `parse_cst_filename` instead.
- The multi-stock ledger API that `ag.py` calls is not in the execute unit's code, so the front end drives the single-holding unit:
  - `buy_ratio(code, …)` and the 8-argument constructor (`ag.py:25,70-80`);
  - `trading_stocks`, which is modelled as a set on the front-end session;
  - `buy_cash`: a `cash` keyword is the error NoBuyCash.
- The execute unit's `run` passes two arguments to `compute_trading_points`, but the demo strategy takes three. The strategy is modelled standalone against the front end, with the unused `szTimeAxis` argument dropped.
- ExtremeStrategy.ExtremePrice: requires m ≥ 1 for a non-empty series. The source then takes the maximum of an empty window, which raises. ComputeTradingPoints reports this case as EmptyWindow.
- ExtremeStrategy.ComputeTradingPoints: requires positive closes. The source looks up prices by timestamp with `.at`, which assumes unique timestamps; the model uses the bar's position.
- NaN in the extreme columns is `None`.
- The source's argument assertions are preconditions here, not errors: the source raises AssertionError and neither the engine's `run` nor the front end catches it. The members concerned:
  - Engine.OpenExecuteUnit requires a non-empty name list (`mpstock[0]`, execute_unit.py:42) and `dt_start < dt_end` (:49).
  - Analysis.OpenAnalysisRoom requires `dt_start < dt_end` (analysis_room.py:27).
  - Engine.ExecuteUnit.BuyRatio, BuyPosition and Sell, and Front.Agares.Buy and Sell, require a positive price, a ratio or position in (0, 1] and a quantity of at least one lot (execute_unit.py:160-161, 206-207, 249-250).
  - The trading methods require the rates to have been set by add_strategy; before that the source fails on a missing attribute.
- EquityReport.ReportOf: the figures for a first equity of zero or below are not modelled; the model reports ZeroPeak. In the source the drawdown ratio then divides by a zero peak in numpy floats. For a zero first equity that gives 0/0 = nan, which fails the `>` comparison, so the source goes on to report finite figures; a negative first equity gives an infinite ratio. ZeroCapital likewise stands for the rate of return divided by a zero capital.
- Report idempotence is not claimed. The report pops the records it replays, and the model states which records remain.
- Floating-point rounding: money is exact `real`, and two-decimal formatting happens only in printed output.
- The analysis room's `add_analysis` and `run` hand over to user code and are not modelled.
- Python's dict iteration order for the stocks is modelled as the order codes were first met in.
- UrlFilter.CheckAndQuoteUrl: `urlparse`, `quote` and `urlunparse` are library calls:
  - the parsed parts are an input;
  - quoting is a function parameter;
  - the rebuilt URL is returned as its six parts, not as a string.
- The rest of the crawler (threads, sqlite, HTTP, HTML parsing) is not modelled, nor are the other strategies' and analyses' indicator maths.
