# tqqq-ftlt in Dafny

A model of the daily backtesting kernel of tqqq-ftlt. It covers four parts:

- the small Backtrader-like engine in `mytrader`: price feeds, orders, the broker, SMA and RSI, the drawdown and returns analyzers, the strategy base classes and the `Cerebro` run loop;
- the FTLT ("for the long term") rotation strategy: its eight-way regime decision and its sell-first, then-buy rebalance;
- the holdings log behind the HTML report: `collect`, the column headers, the percentage parser, HTML escaping and the chart series;
- the Markdown table writer.

Python objects are immutable datatypes here, and methods are pure functions from the old state to the new one. Python's exceptions become a `Result` with a `Fault`: `ZeroDivision`, `IndexError`, `KeyError`, `AttributeError`, `ValueError` or `TypeError`.

Modelling conventions:

- NaN in prices and indicator readings is `None` in an `Option<real>`, and every comparison with NaN is false (`Base.Gt`, `Base.Lt`).
- Feeds are referred to by their position in the engine's feed list, and strategies by their position in its strategy list.
- Timestamps are day numbers.
- Prices are `real`.
- The report's percentages are exact decimals (`Numbers.Float`), so formatting a value and reading it back can be stated exactly.

The modules follow the source tree:

- `Base`: Option, Result, faults, sums and extremes.
- `Text`: `str.strip`, `str.replace`, `str.join`, ASCII `lower` and `upper`.
- `Numbers`: decimal printing with `,` grouping and one decimal, and `float()` parsing.
- `Feeds`: `mytrader/feeds/pandasdata.py`.
- `Orders`: `mytrader/order.py`.
- `Brokerage`: `mytrader/broker.py`.
- `Indicators`: `mytrader/ind/sma.py` and `mytrader/ind/rsi.py`.
- `Analyzers`: `mytrader/analyzers`.
- `Strategy`: `mytrader/strategy.py`.
- `BaseStrategy`: `mytrader/mt_base_strategy.py`.
- `Ftlt`: `mytrader/strategies/mt_tqqq_ftlt_coc.py`.
- `Engine`: `mytrader/cerebro.py`.
- `HoldingsLog`: `functions/inverted_holdings_logger.py`.
- `LogTable`: `functions/log_table.py`.

## Model

| member | source | states |
|---|---|---|
| Base.SeqMin | mytrader/ind/sma.py:15-19 | the least element of a non-empty window: no element is smaller and it is one of the elements |
| Base.SeqMax | mytrader/analyzers/drawdown.py:13-14 | the greatest element: no element is larger and it is one of the elements (the running peak) |
| Base.SumBounds | mytrader/ind/sma.py:19 | a sum of n values each within [lo, hi] lies within [n·lo, n·hi] |
| Base.SumConstant | mytrader/ind/sma.py:19 | a sum of n copies of v is n·v |
| Text.LeadingRun | functions/inverted_holdings_logger.py:10 | every character `strip` drops from the front is whitespace, and the one after them is not |
| Text.TrailingRun | functions/inverted_holdings_logger.py:10 | every character `strip` drops from the back is whitespace, and the one before them is not |
| Text.StripPiece | functions/log_table.py:8 | `strip()` gives a contiguous piece of the input with no whitespace at either end, and everything cut off is whitespace |
| Text.StripPlain | functions/inverted_holdings_logger.py:173 | `strip()` leaves a text alone when both of its ends are non-blank |
| Text.ReplaceCharOccurrences | functions/log_table.py:8 | after `replace(c, rep)`, c no longer occurs unless rep holds it, and a character that is neither c nor in rep occurs after exactly when it occurred before |
| Text.ReplaceCharAbsent | functions/inverted_holdings_logger.py:173 | replacing a character that does not occur changes nothing |
| Text.ReplaceCharPointwise | functions/log_table.py:8 | replacing a character by one character keeps the length and changes exactly the matching positions |
| Text.ReplaceCharAppend | functions/inverted_holdings_logger.py:186-192 | replacement distributes over concatenation |
| Text.ReplaceAll | functions/inverted_holdings_logger.py:385 | `replace(pat, rep)`, used to drop "_1H" from a feed's name: a text without the pattern is unchanged, a replacement no longer than the pattern never lengthens the text, and every character of the result comes from the text or the replacement |
| Text.Lower | functions/inverted_holdings_logger.py:10 | `lower()` keeps the length, turns each ASCII capital into the small letter at the same place in the alphabet, and keeps every other character |
| Text.Upper | functions/inverted_holdings_logger.py:378 | `upper()` keeps the length, turns each ASCII small letter into the capital at the same place in the alphabet, and keeps every other character |
| Text.LowerIdempotent | mytrader/feeds/pandasdata.py:45-48 | lower-casing twice is lower-casing once |
| Text.CaseRoundTrip | functions/inverted_holdings_logger.py:378 | lower-casing after upper-casing is lower-casing, and upper-casing after lower-casing is upper-casing |
| Numbers.DigitChar | mytrader/strategies/mt_tqqq_ftlt_coc.py:229 | the digit character of a value below ten, whose code is that value above '0' |
| Numbers.DigitOf | functions/inverted_holdings_logger.py:175 | the value of a digit character, inverse to DigitChar |
| Numbers.DigitsValueAppend | functions/inverted_holdings_logger.py:175 | reading a + b as digits is reading a, shifted by the length of b, plus reading b |
| Numbers.Decimal | mytrader/strategies/mt_tqqq_ftlt_coc.py:229 | the printed digits of n start with a digit and read back as n |
| Numbers.Pad3 | mytrader/strategies/mt_tqqq_ftlt_coc.py:229 | a group below a thousand printed as exactly three digits that read back as the group |
| Numbers.Grouped | mytrader/strategies/mt_tqqq_ftlt_coc.py:229 | the `,` format of n starts with a digit |
| Numbers.GroupedReadsBack | mytrader/strategies/mt_tqqq_ftlt_coc.py:229 | dropping the commas from the `,` format of n leaves digits only, and they read back as n |
| Numbers.GroupedExcludes | mytrader/strategies/mt_tqqq_ftlt_coc.py:229 | the `,` format holds only digits and commas |
| Numbers.ParseFloat | functions/inverted_holdings_logger.py:174-177 | `float(s)` fails only with the ValueError the parser catches |
| Numbers.Negated | functions/inverted_holdings_logger.py:175 | a leading minus flips a finite value and leaves NaN and the infinities alone |
| Numbers.ParseMagnitude | functions/inverted_holdings_logger.py:175 | a finite reading of an unsigned body is the digits-and-point reading of that body |
| Numbers.ParseUnsigned | functions/inverted_holdings_logger.py:175 | a reading with fractional digits needs a decimal point |
| Numbers.ReadParts | functions/inverted_holdings_logger.py:175 | a whole and a fractional part are accepted exactly when both are digits and not both empty, and the scale is the fraction's length |
| Numbers.FirstDot | functions/inverted_holdings_logger.py:175 | the position of the first decimal point, or the length when there is none |
| Numbers.SignText | mytrader/strategies/mt_tqqq_ftlt_coc.py:229 | the `+` sign option: "-" exactly for negatives, "+" exactly for non-negatives when asked, else nothing |
| Numbers.Magnitude | mytrader/strategies/mt_tqqq_ftlt_coc.py:229 | the absolute value that is printed after the sign |
| Numbers.Unsigned | mytrader/strategies/mt_tqqq_ftlt_coc.py:229 | the `.1f` body: starts with a digit and ends in a point and one digit |
| Numbers.Tenths | mytrader/strategies/mt_tqqq_ftlt_coc.py:229 | the `{:+,.1f}` text of a value given in tenths: starts with '-' exactly for negatives and with '+' exactly otherwise, and ends in a point and one digit |
| Numbers.WholePartReadsBack | mytrader/strategies/mt_tqqq_ftlt_coc.py:229 | the printed whole part without its commas, followed by the tenth digit, reads back as the value in tenths |
| Numbers.UnsignedReads | functions/inverted_holdings_logger.py:173-175 | the printed magnitude with its commas removed parses as that magnitude with one decimal |
| Numbers.SignedReads | functions/inverted_holdings_logger.py:175 | a minus sign, or none, in front of such a magnitude parses as the signed value |
| Numbers.UnsignedExcludes | functions/inverted_holdings_logger.py:173 | the printed magnitude holds only digits, commas and the point, so no '%' or '+' |
| Feeds.FindColumn | mytrader/feeds/pandasdata.py:45-51 | the case-insensitive column lookup finds the LAST column whose lower-case name is the key, and fails exactly when none matches |
| Feeds.NewFeed | mytrader/feeds/pandasdata.py:40-58 | construction succeeds exactly when open, high, low and close exist in any case; a missing one raises KeyError, checked in that order; the cursor starts at -1 and the bars copy the frame's rows |
| Feeds.NewFeedIgnoresCase | mytrader/feeds/pandasdata.py:45 | lower-casing every column name does not change the feed built |
| Feeds.Field | mytrader/feeds/pandasdata.py:6-13 | `line[k]` is NaN exactly when the cursor plus k falls outside the table, else the value of that row |
| Feeds.Datetime | mytrader/feeds/pandasdata.py:23-36 | `datetime(0)` is None outside the table, else the cursor row's stamp |
| Feeds.Date | mytrader/feeds/pandasdata.py:20-21 | `date(0)` reads `iloc[idx]`: a negative cursor wraps to the end, and an out-of-range cursor raises IndexError |
| Feeds.DateAndDatetimeDisagreeBeforeStart | mytrader/feeds/pandasdata.py:20-28 | before the first advance `datetime` is None but `date` reads the last row |
| Feeds.IndexOf | mytrader/feeds/pandasdata.py:76-77 | `get_loc`: the first row with the stamp, or none exactly when no row carries it |
| Feeds.AdvanceToDate | mytrader/feeds/pandasdata.py:75-78 | a known stamp moves the cursor to a row with that stamp, and an unknown stamp leaves the feed unchanged |
| Feeds.CursorStaysInRange | mytrader/feeds/pandasdata.py:75-78 | advancing through any stamps keeps the cursor in range and never returns it to before the start |
| Feeds.AdvanceToOwnStamp | mytrader/feeds/pandasdata.py:75-78 | on ascending stamps, advancing to row k's stamp puts the cursor on row k |
| Feeds.ReadAfterAdvance | mytrader/feeds/pandasdata.py:6-13 | after advancing to row k, `[0]` reads row k and `[-1]` reads row k-1, or NaN on the first row |
| Feeds.FreshFeedReads | mytrader/feeds/pandasdata.py:42 | a fresh feed reads NaN at `[0]`, and `[1]` is its first row |
| Orders.StatusCode | mytrader/order.py:4 | the status constants are the numbers 0 to 6 |
| Orders.StatusCodesRoundTrip | mytrader/order.py:4 | status and code are inverse, and exactly the codes 0 to 6 name a status |
| Orders.NewOrder | mytrader/order.py:6-35 | a SELL keeps its exact size, a BUY its target percent, and any other side raises ValueError; a new order is Submitted with an empty execution |
| Orders.BuySellExclusive | mytrader/order.py:37-41 | no order is both a buy and a sell, and a new order is neither |
| Orders.StatusNamesInCodeOrder | mytrader/order.py:43-47 | the names are Created, Submitted, Accepted, Completed, Canceled, Margin and Rejected, one per status, so two orders share a name exactly when they share a status |
| Brokerage.Submit | mytrader/broker.py:12-14 | submitting appends the order to the pending queue and changes nothing else |
| Brokerage.GetPosition | mytrader/broker.py:16-17 | `setdefault` returns the current size, adds a flat entry if missing, and keeps every size |
| Brokerage.MarkedBySizes | mytrader/broker.py:25-30 | `getvalue()` (Brokerage.Value, cash plus each position marked at its close) depends only on the cash and the position sizes |
| Brokerage.ValueWhenFlat | mytrader/broker.py:25-30 | with every position flat, `getvalue()` (Brokerage.Value) is the cash |
| Brokerage.GetPositionKeepsValue | mytrader/broker.py:16-30 | looking a position up does not change the portfolio value |
| Brokerage.ExecuteSell | mytrader/broker.py:45-71 | a flat position is skipped; otherwise the position is hard-closed, cash grows by the proceeds of the negative size at the price, and the order completes with that size, price and the bar's datetime; nothing else changes |
| Brokerage.DecideBuy | mytrader/broker.py:88-106 | the buy decision: a fill is at least 1e-12 and whole when at least one share; for a positive price and non-negative cash it costs no more than the cash and than the missing value; a non-positive delta at a non-negative price is dropped; at a zero float64 price an increase of at least 1e-12 fails, with OverflowError from `int(inf)` when the cash is not negative, and a reduction is dropped |
| Brokerage.BuyArithmetic | mytrader/broker.py:92-103 | the clamped, integer-when-possible size is affordable and does not overshoot the target |
| Brokerage.ExecuteBuy | mytrader/broker.py:73-122 | a buy prices the target against the whole portfolio value, then drops, fails or fills exactly as DecideBuy says; a fill moves cash and position by the size times the price and completes the order |
| Brokerage.DroppedBuyKeepsValue | mytrader/broker.py:88-106 | a buy that returns early leaves the order, the cash and the portfolio value unchanged |
| Brokerage.PennilessBuysNothing | mytrader/broker.py:83-90 | with no cash and no open position a buy never fills, since its target is a share of a zero value |
| Brokerage.FilledBuyBounds | mytrader/broker.py:108-120 | a filled buy completes the order, and cash and position move by exactly the executed size times price |
| Brokerage.FilledBuyAffordable | mytrader/broker.py:95-109 | with a positive price and non-negative cash a filled buy is a purchase that leaves cash non-negative and does not exceed the target |
| Brokerage.FilledBuyDecision | mytrader/broker.py:83-120 | a filled buy is exactly the Fill decision on the buy's own delta, price and cash |
| Brokerage.SellPass | mytrader/broker.py:33-36 | the sell pass flattens every feed a sell in the queue names, leaves all others alone and reports only completed sells |
| Brokerage.BuyPass | mytrader/broker.py:39-41 | the buy pass touches only feeds a buy names, reports completed buys, and with positive prices keeps cash non-negative and never shrinks a position |
| Brokerage.ExecutePending | mytrader/broker.py:32-43 | after settling the queue is empty; every reported order completed, sells before buys; sold-only feeds are flat and untouched feeds keep their size |
| Brokerage.FullBuyScenario | mytrader/broker.py:73-122 | 10 000 cash and a 100% buy at 100 buys 100 shares and spends all the cash |
| Brokerage.StarvedBuyDropped | mytrader/broker.py:99-106 | a buy with no cash to spend is dropped |
| Brokerage.SellProceedsFundBuy | mytrader/broker.py:32-43 | proceeds of a sell in the same queue fund the buy that follows it |
| Indicators.Closes | mytrader/ind/sma.py:15-18 | the closes of rows lo to hi-1, in order |
| Indicators.OptSum | mytrader/ind/sma.py:19 | `sum` of readings is NaN exactly when some reading is NaN |
| Indicators.SmaReads | mytrader/ind/sma.py:15-18 | the p reads of `close[j - i]` are the p closes ending at the cursor |
| Indicators.SmaAsWritten | mytrader/ind/sma.py:10-19 | `sma[off]` as written: NaN when idx + off < p - 1 or the window starts before the table, else the mean of the p closes ending at the CURSOR |
| Indicators.SmaAt | mytrader/ind/sma.py:10-19 | the trailing mean `sma[off]` denotes: the mean of the p closes ending at idx + off, NaN before p rows or past the table |
| Indicators.SmaOffsetZero | mytrader/ind/sma.py:10-19 | at offset 0 the two SMAs agree |
| Indicators.SmaRead | mytrader/ind/sma.py:10-19 | `sma[0]` for the period as passed: the trailing mean for an int from 1 up; ZeroDivision for 0; 0.0 for a negative int, whose window is empty; NaN while a float period is still warming up, TypeError from `range` after that; TypeError for a non-number |
| Indicators.SmaPreviousBarReadsCurrent | mytrader/ind/sma.py:11-17 | on two rows with period 1, `sma[-1]` as written reads 2.0, the current close, where the previous close 1.0 is meant |
| Indicators.SmaWithinWindow | mytrader/ind/sma.py:19 | a defined SMA lies between the least and greatest close of its window |
| Indicators.SmaOfFlatWindow | mytrader/ind/sma.py:19 | the SMA of a flat window is its price |
| Indicators.MeanBounds | mytrader/ind/sma.py:19 | a mean lies between the least and the greatest value |
| Indicators.SeedLen | mytrader/ind/rsi.py:21-26 | the seed stops growing at the least length n ≥ 1 that is not below the period |
| Indicators.SeedLenOfPeriod | mytrader/ind/rsi.py:24 | an integer period seeds with exactly that many values |
| Indicators.WilderBounds | mytrader/ind/rsi.py:28-33 | for an integer period the seeded and smoothed average stays within any bounds all inputs share |
| Indicators.SmoothBounds | mytrader/ind/rsi.py:33 | one smoothing step stays within bounds shared by the average and the new value |
| Indicators.WilderOfZeros | mytrader/ind/rsi.py:28-33 | the smoothed average of zeros is zero, for any non-zero period |
| Indicators.WilderSign | mytrader/ind/rsi.py:28-33 | for a period from 1 up, or below 0, the average of non-negative values has the sign of the period |
| Indicators.NewSmma | mytrader/ind/rsi.py:9-13 | a new SMMA keeps the period as given, has no average and no last bar, and for a usable period has consumed nothing |
| Indicators.SmmaUpdate | mytrader/ind/rsi.py:15-35 | a repeat of the bar returns the memo unchanged; otherwise a non-number period raises TypeError and a zero period ZeroDivision, and a successful update records the bar and returns the average, which stays present once seeded |
| Indicators.SmmaUpdateTracks | mytrader/ind/rsi.py:15-35 | after consuming values vs, `update` returns the Wilder average of vs: the seed's sum over the period, then smoothed by (avg·(p-1)+v)/p; a repeated bar consumes nothing |
| Indicators.SmoothingStep | mytrader/ind/rsi.py:32-35 | after seeding, an update is one smoothing step over all values seen |
| Indicators.MovesSplitChange | mytrader/ind/rsi.py:75-76 | up and down moves are non-negative, at most one is non-zero, and up minus down is the change |
| Indicators.RsiOf | mytrader/ind/rsi.py:89-93 | the RSI of two averages raises ZeroDivision exactly when the up average is the down average negated; averages of one sign give a value in [0, 100]; it is 100 exactly when the down average is zero, and 0 exactly when only the down average is non-zero |
| Indicators.RsiRatio | mytrader/ind/rsi.py:92-93 | 1 + up/down vanishes exactly when up is -down, up/down is zero exactly when up is, and averages of one sign give a non-negative ratio |
| Indicators.NewRsi | mytrader/ind/rsi.py:47-58 | a new RSI is consistent and, for a usable period, has consumed nothing |
| Indicators.SmmaUpdateOk | mytrader/ind/rsi.py:15-35 | feeding a non-negative move keeps the seed non-negative and, for a period from 1 up or below 0, the average's sign |
| Indicators.RsiRead | mytrader/ind/rsi.py:60-97 | before the lookback the reading is NaN and the state is kept; a repeat of the bar changes nothing; a period the averages cannot use raises in the first update; a period from 1 up or below 0 never raises and reads within [0, 100] |
| Indicators.RsiCommit | mytrader/ind/rsi.py:82-97 | the two updated averages are stored with the bar and the RSI they give; it raises exactly when both are present and combining them divides by zero |
| Indicators.RsiReadTwice | mytrader/ind/rsi.py:67-69 | reading the same bar twice gives the same value and state as reading it once |
| Indicators.WilderRsi | mytrader/ind/rsi.py:82-93 | the reference RSI over all moves seen is NaN exactly while fewer moves than the seed length exist, and can only fail with ZeroDivision |
| Indicators.WilderRsiSteady | mytrader/ind/rsi.py:82-93 | for a period from 1 up or below 0 the reference RSI of non-negative moves never fails and lies in [0, 100] |
| Indicators.RsiReadTracks | mytrader/ind/rsi.py:60-97 | each new bar appends its up and down move; the read fails exactly when the reference RSI over all moves seen does, and otherwise equals it |
| Indicators.RsiReadShape | mytrader/ind/rsi.py:79-97 | a read on a new bar is the up update, then the down update, then the commit |
| Indicators.CommitMatchesWilder | mytrader/ind/rsi.py:82-97 | committing the averages of two move series gives the reference RSI of those series, and fails exactly when it does |
| Indicators.RsiOfRisingCloses | mytrader/ind/rsi.py:89-90 | with no down moves the RSI is 100 |
| Indicators.RsiOfFallingCloses | mytrader/ind/rsi.py:91-93 | with no up moves and a non-zero down average the RSI is 0 |
| Indicators.ReadIndicator | mytrader/mt_base_strategy.py:21-26 | `ind[0]` keeps the indicator's feed and period; an SMA has no state and raises exactly when its read does; an RSI raises exactly when its read does |
| Indicators.SoundReadsSucceed | mytrader/mt_base_strategy.py:21-26 | an SMA over a non-zero int, or an RSI over a period from 1 up or below 0, never raises when read |
| Indicators.Evaluated | mytrader/mt_base_strategy.py:23-26 | an indicator keeps reading its own feed after the evaluation pass's read, whether or not the read raised |
| Indicators.EvaluateIndicators | mytrader/mt_base_strategy.py:21-26 | every registered indicator is read once on the bar, in order; one that raises keeps its state |
| Indicators.ReadAfterEvaluate | mytrader/mt_base_strategy.py:21-26 | a read after the evaluation pass returns what the pass read, value or exception, without changing the state |
| Analyzers.NewDrawDown | mytrader/analyzers/drawdown.py:2-9 | the peak starts at the current value and the maxima at zero |
| Analyzers.DrawDownNext | mytrader/analyzers/drawdown.py:11-22 | a new high resets the length; otherwise the drawdown against a zero peak divides by zero; the peak is the running maximum, the maximum drawdown never falls, and a new maximum records its percentage, money and length |
| Analyzers.DrawDownRunPeak | mytrader/analyzers/drawdown.py:11-22 | after a run of values the peak is the greatest of the start peak and the values |
| Analyzers.DrawdownPctRange | mytrader/analyzers/drawdown.py:17 | a drawdown below a positive peak is a percentage within [0, 100] |
| Analyzers.NewReturns | mytrader/analyzers/returns.py:2-6 | start and end are the current value and the return is zero |
| Analyzers.ReturnsNext | mytrader/analyzers/returns.py:8-9 | `next` records the current value as the end |
| Analyzers.ReturnsStop | mytrader/analyzers/returns.py:11-13 | with a non-zero start, start·(1 + rtot) = end; a zero start keeps rtot |
| Analyzers.ReturnsStopIdempotent | mytrader/analyzers/returns.py:11-13 | stopping twice is stopping once |
| Analyzers.ReturnsAnalysis | mytrader/analyzers/returns.py:15-16 | the analysis holds exactly the key "rtot" |
| Analyzers.AnalyzerNext | mytrader/cerebro.py:65-66 | an analyzer keeps its kind across `next` |
| Analyzers.AnalyzerStop | mytrader/cerebro.py:68-70 | `stop` keeps the kind, and does nothing for a drawdown analyzer |
| Strategy.MergeParams | mytrader/strategy.py:10 | `params` merged with `kwargs` holds every name of either, the caller's value winning |
| Strategy.MergeParamsIdempotent | mytrader/cerebro.py:40 | merging the same overrides again changes nothing |
| Strategy.Lookup | mytrader/strategy.py:4-5 | a name is found exactly when some entry carries it |
| Strategy.DictSet | mytrader/strategy.py:17 | setting a key keeps the names distinct, binds the key and leaves every other key's value unchanged |
| Strategy.InitAnalyzers | mytrader/strategy.py:12-17 | a name is kept exactly when it is non-empty and registered, bound to an instance of the LAST class registered under it |
| Strategy.KeptNamesAreRegistered | mytrader/strategy.py:14-17 | an analyzer is reachable by name exactly when its name is non-empty and some registration carries it |
| Strategy.CloseTarget | mytrader/strategy.py:29 | `data or self.data`: an empty feed is falsy and the first feed is used |
| Strategy.ClosePosition | mytrader/strategy.py:28-41 | closing a flat position submits nothing; otherwise exactly one SELL of minus the size at the current close is queued; cash is untouched |
| Strategy.OrderTargetPercent | mytrader/strategy.py:43-52 | exactly one BUY carrying the target and the current close is queued |
| Strategy.CloseThenSettle | mytrader/broker.py:45-71 | a close settled on its bar flattens the position and credits size times close |
| BaseStrategy.NewBaseState | mytrader/mt_base_strategy.py:9-19 | peak, worst value and minimum start at the current value, and trading starts disabled |
| BaseStrategy.TradingAllowed | mytrader/mt_base_strategy.py:57-74 | without a start date trading is allowed; before the start it is not; from the start it is and the flag is set; a missing parameter raises AttributeError |
| BaseStrategy.TradingFlagNeverResets | mytrader/mt_base_strategy.py:70-72 | once enabled the flag stays set, and asking again gives the same answer |
| BaseStrategy.UpdateDrawdown | mytrader/mt_base_strategy.py:31-52 | nothing is tracked before trading; a new high moves the peak and returns; otherwise a larger drawdown records its percent, date and value, and the minimum never rises |
| BaseStrategy.PeakDominatesValue | mytrader/mt_base_strategy.py:39-52 | once trading, the peak is at least the current value |
| BaseStrategy.NoticeFor | mytrader/mt_base_strategy.py:101-113 | Canceled, Margin and Rejected are logged as rejections, Completed as executions, everything else ignored |
| BaseStrategy.SettledOrdersLogAsExecutions | mytrader/mt_base_strategy.py:112-133 | every order the broker reports is logged as an execution |
| Ftlt.ResolveMatchesGuards | mytrader/strategies/mt_tqqq_ftlt_coc.py:68-97 | the decision tree of `resolve_state` (Ftlt.Resolve) picks a regime exactly when that regime's flat condition holds, so the conditions are exclusive and exhaustive |
| Ftlt.BullBranch | mytrader/strategies/mt_tqqq_ftlt_coc.py:69-72 | above the 200-day SMA the hedge is chosen exactly when RSI(TQQQ) > 79 or RSI(SPXL) > 80 |
| Ftlt.BearPriorities | mytrader/strategies/mt_tqqq_ftlt_coc.py:74-89 | oversold tech comes first in the bear branch, and the volatility spike needs 74 < RSI(UVXY) ≤ 84 |
| Ftlt.TieGoesToBsv | mytrader/strategies/mt_tqqq_ftlt_coc.py:94-97 | equal SQQQ and BSV readings never pick SQQQ |
| Ftlt.AllNanIsBsv | mytrader/strategies/mt_tqqq_ftlt_coc.py:68-97 | with every reading NaN the tree falls through to BSV |
| Ftlt.ResolveReadsFaults | mytrader/strategies/mt_tqqq_ftlt_coc.py:68-97 | the tree with each indicator read where the source reads it succeeds exactly when every read on the way to the regime of the settled readings succeeds, picks that regime, and otherwise raises the exception of a read on that way; the hedge skips RSI(SPXL) when RSI(TQQQ) is above 79 |
| Ftlt.TrendOrDefensiveFaults | mytrader/strategies/mt_tqqq_ftlt_coc.py:80-97 | the same for the trend test followed by the SQQQ-against-BSV test |
| Ftlt.LogReads | mytrader/strategies/mt_tqqq_ftlt_coc.py:111-121 | repeating the tests for the log raises only in the hedge regime, when the skipped RSI(SPXL) read raises, with that read's exception |
| Ftlt.Decide | mytrader/strategies/mt_tqqq_ftlt_coc.py:215-221 | a successful decision is the regime of the settled readings |
| Ftlt.DecideFaults | mytrader/strategies/mt_tqqq_ftlt_coc.py:68-204 | `resolve_state` followed by its log raises exactly when a read on the way to the regime raises or the hedge's log cannot read RSI(SPXL), and the exception is one a read raised |
| Ftlt.DecideWithoutFaults | mytrader/strategies/mt_tqqq_ftlt_coc.py:68-97 | when no read raises, the decision is the plain tree's regime |
| Ftlt.AssetFor | mytrader/strategies/mt_tqqq_ftlt_coc.py:99-109 | every regime maps to one of the six tradable assets |
| Ftlt.AssetForCoversAll | mytrader/strategies/mt_tqqq_ftlt_coc.py:99-109 | both UVXY regimes map to UVXY, both TQQQ regimes to TQQQ, and every asset is some regime's target |
| Ftlt.FeedNamed | mytrader/strategy.py:22-23 | `getdatabyname` finds the registered feed or raises KeyError |
| Ftlt.PeriodParam | mytrader/strategies/mt_tqqq_ftlt_coc.py:45-53 | `self.p.<name>` raises AttributeError exactly when the name is absent; otherwise the value is passed on unchecked, an int as an int period, a float as a float period, anything else as a non-number |
| Ftlt.DefaultPeriods | mytrader/strategies/mt_tqqq_ftlt_coc.py:20-25 | after merging the class defaults every period is found; the defaults are 200, 20 and 10, and 10 is a period the RSI reads accept |
| Ftlt.FtltIndicators | mytrader/strategies/mt_tqqq_ftlt_coc.py:45-53 | the two SMAs on SPY and TQQQ, then six RSIs with the configured period and lookback 1 |
| Ftlt.FtltInit | mytrader/strategies/mt_tqqq_ftlt_coc.py:27-63 | construction resolves the seven feeds by name in order, raising KeyError at the first missing one, starts with no regime and records the start value |
| Ftlt.FtltInitFits | mytrader/strategies/mt_tqqq_ftlt_coc.py:31-53 | feeds and indicators built from a valid name table refer to existing feeds |
| Ftlt.ReadOf | mytrader/strategies/mt_tqqq_ftlt_coc.py:69-97 | `ind[0]` as the tree sees it: the read's value, or its exception |
| Ftlt.HeldAssets | mytrader/strategies/mt_tqqq_ftlt_coc.py:219 | the held assets are exactly those with a non-zero position; sizes are untouched |
| Ftlt.HeldAssetsBySizes | mytrader/strategies/mt_tqqq_ftlt_coc.py:219 | which assets are held depends only on position sizes |
| Ftlt.CloseAll | mytrader/strategies/mt_tqqq_ftlt_coc.py:243-245 | closing a list queues orders at the back, keeps cash and sizes |
| Ftlt.CloseAllSells | mytrader/strategies/mt_tqqq_ftlt_coc.py:243-245 | every order the closes queue is a sell on a listed feed, or on the first feed |
| Ftlt.CloseAllCovers | mytrader/strategies/mt_tqqq_ftlt_coc.py:243-245 | every listed non-empty, non-flat feed gets a sell |
| Ftlt.ToClose | mytrader/strategies/mt_tqqq_ftlt_coc.py:243-245 | the feeds to close are exactly the held ones other than the target |
| Ftlt.Rebalance | mytrader/strategies/mt_tqqq_ftlt_coc.py:242-253 | sells for every other held asset come first, then one 100% buy of the target; cash and sizes are untouched until settlement |
| Ftlt.Act | mytrader/strategies/mt_tqqq_ftlt_coc.py:223-258 | `next` past the regime decision raises ZeroDivision exactly when the start value is zero, the one case where the growth figures divide plain floats by zero; otherwise the regime is recorded, the previous value becomes the current one except after the early return, sizes and cash are kept, and orders are queued only as a rotation |
| Ftlt.Looked | mytrader/strategies/mt_tqqq_ftlt_coc.py:219 | computing the held assets adds only flat entries: sizes, cash and the queue are kept |
| Ftlt.Moved | mytrader/strategies/mt_tqqq_ftlt_coc.py:234-256 | an unchanged regime keeps the queue, a new one queues the rotation; sizes and cash are kept either way |
| Ftlt.Rotation | mytrader/strategies/mt_tqqq_ftlt_coc.py:242-253 | a rotation queues exactly rotation orders behind the existing queue and leaves cash and sizes alone |
| Ftlt.ActRotates | mytrader/strategies/mt_tqqq_ftlt_coc.py:234-240 | orders are queued exactly when the regime changed and the target is not already the only holding |
| Ftlt.Decision | mytrader/strategies/mt_tqqq_ftlt_coc.py:215-221 | a successful decision on the bar is the regime of the values the indicators read |
| Ftlt.SoundDecision | mytrader/strategies/mt_tqqq_ftlt_coc.py:68-97 | when every indicator's period is one its reads accept, the decision never raises |
| Ftlt.SoundReads | mytrader/strategies/mt_tqqq_ftlt_coc.py:45-53 | with such periods none of the eight reads raises |
| Ftlt.Proceed | mytrader/strategies/mt_tqqq_ftlt_coc.py:215-258 | a raising decision ends the bar with its exception; otherwise the bar is `Act` for the regime and its ETF at the broker's value, keeping the strategy's identity, parameters and start value |
| Ftlt.FtltNext | mytrader/strategies/mt_tqqq_ftlt_coc.py:209-259 | a raising gate ends the bar; a closed gate changes only the drawdown state; an open gate records the resolved regime or raises what a read raised; sizes and cash are kept, and orders are queued only on a regime change |
| Ftlt.NextFaults | mytrader/strategies/mt_tqqq_ftlt_coc.py:209-258 | with the gate open a bar raises exactly when the decision raises or the start value is zero, and in the second case with ZeroDivision |
| Ftlt.NextRotates | mytrader/strategies/mt_tqqq_ftlt_coc.py:209-256 | `next` queues orders exactly when trading is allowed, the regime changes and the target is not the sole holding |
| Ftlt.RotationLeavesOnlyTarget | mytrader/strategies/mt_tqqq_ftlt_coc.py:242-253 | once settled, a rotation leaves every asset but the target flat |
| Ftlt.NextThenSettle | mytrader/cerebro.py:55-64 | a rotation queued by `next` and settled on the next bar leaves only the target held |
| Engine.NewCerebro | mytrader/cerebro.py:5-10 | a fresh engine has no feeds, strategies or analyzers and a broker with the given cash |
| Engine.AddData | mytrader/cerebro.py:12-16 | the feed is appended with its name; only a truthy name is registered |
| Engine.AddDataThenLookup | mytrader/cerebro.py:12-16 | a name registered last resolves to the feed just added, and other names keep their feeds |
| Engine.AddStrategy | mytrader/cerebro.py:18-19 | the strategy's parameters are appended and nothing else changes |
| Engine.AddAnalyzer | mytrader/cerebro.py:21-22 | the analyzer and its name are appended and nothing else changes |
| Engine.Build | mytrader/cerebro.py:27-47 | a strategy is built with merged parameters, the broker's value as start value, and the analyzer dictionary; a construction fault propagates |
| Engine.Construct | mytrader/cerebro.py:27-49 | strategies are built in order, each with its own merged parameters and no regime |
| Engine.Samples | mytrader/cerebro.py:65-66 | each analyzer is sampled in dictionary order |
| Engine.Stops | mytrader/cerebro.py:69-71 | a strategy's analyzers stop in order, then the strategy |
| Engine.ScheduleVisitsInOrder | mytrader/cerebro.py:55-66 | the event list of a run (Engine.Schedule): bar i of the run is the advance to the i-th master stamp, then settlement, then each strategy's evaluate, next and samples |
| Engine.ScheduleEndsWithStops | mytrader/cerebro.py:68-71 | the run ends with the stop phase |
| Engine.StopsPrecedeStrategy | mytrader/cerebro.py:68-71 | a strategy's analyzers stop before the strategy |
| Engine.StopOwners | mytrader/cerebro.py:68-71 | the stop phase contains only stops, of strategies from the given index on |
| Engine.SampleAll | mytrader/cerebro.py:65-66 | sampling keeps the names and advances every analyzer; it fails exactly when some analyzer fails |
| Engine.StepOne | mytrader/cerebro.py:63-66 | one strategy step only appends orders and keeps cash, sizes, parameters and analyzer names |
| Engine.StepAll | mytrader/cerebro.py:62-66 | all strategies step in order, their orders queued in that order |
| Engine.AdvanceAll | mytrader/cerebro.py:57-58 | every feed advances to the stamp |
| Engine.Bar | mytrader/cerebro.py:55-66 | one bar advances the feeds, settles the queue and steps each strategy, in the schedule's order |
| Engine.RunBars | mytrader/cerebro.py:55-66 | the loop over stamps keeps every strategy well-formed and records each bar |
| Engine.StopAll | mytrader/cerebro.py:68-71 | the stop phase stops every analyzer and keeps strategy state |
| Engine.Stamps | mytrader/cerebro.py:52-53 | the master clock is the first feed's stamps in order |
| Engine.Run | mytrader/cerebro.py:24-73 | no feed raises IndexError; otherwise each strategy runs with its merged parameters, every master stamp is a bar, and the events follow the schedule |
| HoldingsLog.ChangeClassByFirst | functions/inverted_holdings_logger.py:9-17 | `change_class` (HoldingsLog.ChangeClass) depends only on the first non-blank character: '+' or up arrow is positive, '-' or down arrow negative, anything else or nothing flat |
| HoldingsLog.PrintedChangeClass | functions/inverted_holdings_logger.py:9-17 | a `{:+…}` printed change is classed negative exactly when negative and positive otherwise |
| HoldingsLog.EscapeHtmlClean | functions/inverted_holdings_logger.py:184-192 | text escaped by `_escape_html` (HoldingsLog.EscapeHtml) contains no '<', '>' or '"' |
| HoldingsLog.EscapeHtmlAppend | functions/inverted_holdings_logger.py:184-192 | escaping distributes over concatenation |
| HoldingsLog.EscapeHtmlPerChar | functions/inverted_holdings_logger.py:184-192 | the chained replaces, '&' first, escape each character independently |
| HoldingsLog.EscapeHtmlRoundTrip | functions/inverted_holdings_logger.py:184-192 | reading the four entities back recovers the original text |
| HoldingsLog.NewLog | functions/inverted_holdings_logger.py:31-41 | a new log has no columns, rows or optional columns, and no last date |
| HoldingsLog.Clear | functions/inverted_holdings_logger.py:43-52 | `clear` empties columns and rows and resets notes and change, but keeps the value flag |
| HoldingsLog.HoldingsPct | functions/inverted_holdings_logger.py:376-388 | "CASH" in any case is named CASH; other strings are 0%; an asset is named by `_name` without "_1H" or UNKNOWN, and its share is NaN exactly when it has a position and no close |
| HoldingsLog.DayPctsAt | functions/inverted_holdings_logger.py:86-89 | the day's i-th pair is the i-th item's name and share |
| HoldingsLog.LookupPctIsLast | functions/inverted_holdings_logger.py:89 | a name's share is that of its LAST item |
| HoldingsLog.LookupPctAbsent | functions/inverted_holdings_logger.py:103 | a column with no item reads as 0% |
| HoldingsLog.CellFor | functions/inverted_holdings_logger.py:103-107 | a cell is blank exactly when its share is a number smaller in size than the threshold |
| HoldingsLog.Cells | functions/inverted_holdings_logger.py:101-107 | one cell per column, each from the column's looked-up share |
| HoldingsLog.Collect | functions/inverted_holdings_logger.py:54-118 | collecting before `clear` raises AttributeError; it fails otherwise exactly when a new day with positive equity lists different names from the fixed columns; it records the day, keeps the threshold, never unsets a flag, and at most puts one row in front |
| HoldingsLog.CollectSameDay | functions/inverted_holdings_logger.py:63-64 | a second collect on the same day changes nothing |
| HoldingsLog.CollectNoEquity | functions/inverted_holdings_logger.py:65-69 | with no positive equity only the day is recorded |
| HoldingsLog.CollectRecords | functions/inverted_holdings_logger.py:71-118 | the first day fixes the columns; the new row goes in front with the day, cells per column and the given texts; each flag is set once its text is passed |
| HoldingsLog.CellOfLastShare | functions/inverted_holdings_logger.py:101-107 | a column's cell is blank exactly when the share of its last item is below the threshold |
| HoldingsLog.NewAndClearedShaped | functions/inverted_holdings_logger.py:43-52 | new and cleared logs have as many cells per row as columns |
| HoldingsLog.CollectKeepsShape | functions/inverted_holdings_logger.py:91-118 | collecting keeps every row as wide as the columns |
| HoldingsLog.AssetSharesSum | functions/inverted_holdings_logger.py:385-388 | the shares of long assets add up to their marked value over equity, in percent |
| HoldingsLog.SharesMakeWhole | functions/inverted_holdings_logger.py:376-388 | when equity is cash plus marked value, CASH and the long assets add up to 100% |
| HoldingsLog.CashFirst | functions/inverted_holdings_logger.py:378-379 | a leading CASH item contributes cash over equity |
| HoldingsLog.ColumnHeaders | functions/inverted_holdings_logger.py:159-167 | headers are Date, the columns, then Value, Change and Notes when their flags are set, in that order |
| HoldingsLog.AssetSlots | functions/inverted_holdings_logger.py:335-336 | one asset cell per column, in order |
| HoldingsLog.Headings | functions/inverted_holdings_logger.py:324-326 | one heading per row cell |
| HoldingsLog.RowUnderHeaders | functions/inverted_holdings_logger.py:159-167 | with Value emitted before Change, every cell of a row sits under its own header |
| HoldingsLog.RowSlotsAsWrittenSwapped | functions/inverted_holdings_logger.py:338-343 | as written, with both flags set, the change cell sits under "Value" and the value cell under "Change" |
| HoldingsLog.RowAsWrittenMisaligned | functions/inverted_holdings_logger.py:338-343 | as written, with both flags set, the row does not line up with the headers |
| HoldingsLog.RowSlotsAsWrittenAgree | functions/inverted_holdings_logger.py:338-343 | the written order matches the header order exactly when not both flags are set |
| HoldingsLog.ParsePercentageCases | functions/inverted_holdings_logger.py:169-177 | a blank text reads 0; otherwise the cleaned text's float, or 0 when it does not parse |
| HoldingsLog.ValueReadsBack | functions/inverted_holdings_logger.py:169-177 | every `{:+,.1f}%` value the strategy logs parses back to exactly the printed number |
| HoldingsLog.ParsePercentageExample | functions/inverted_holdings_logger.py:170 | "+8,062.2%" reads 8062.2 |
| HoldingsLog.ChartData | functions/inverted_holdings_logger.py:194-205 | the chart holds one point per row, oldest first, each the row's day and parsed value |
| HoldingsLog.ChartAfterCollect | functions/inverted_holdings_logger.py:194-205 | a collected day appends its point at the end of the chart |
| LogTable.EscapedPipes | functions/log_table.py:8 | after replacing each pipe by a backslash and a pipe, every pipe follows a backslash |
| LogTable.MdEscapeClean | functions/log_table.py:6-8 | a cell escaped by `_md_escape` (LogTable.MdEscape) has no newline, no blank at either end, and every pipe escaped |
| LogTable.BarsAppend | functions/log_table.py:33-34 | delimiters of two texts add up unless a pipe follows a backslash across the join |
| LogTable.EscapedHasNoBars | functions/log_table.py:8 | an escaped text contributes no cell delimiter |
| LogTable.JoinBars | functions/log_table.py:34 | joining n clean cells with the " pipe " separator makes n - 1 delimiters |
| LogTable.LineBars | functions/log_table.py:33-34 | a table line (LogTable.Line) of n clean cells has n + 1 delimiters and one newline, at its end |
| LogTable.HeaderCells | functions/log_table.py:28 | "Date", then each column escaped |
| LogTable.SepCells | functions/log_table.py:29 | one "---" per header cell |
| LogTable.RowTexts | functions/log_table.py:31 | each column's value, or "" when missing |
| LogTable.RowCells | functions/log_table.py:31 | the escaped label, then each column's escaped value, "" when missing |
| LogTable.TableShape | functions/log_table.py:28-34 | header, separator and data lines have the same number of cells, one more than the columns |
| LogTable.WriteRow | functions/log_table.py:36-42 | appending never changes existing content; a new or empty file gets header and separator before the row |
| LogTable.HeaderWrittenOnce | functions/log_table.py:36-42 | writing rows one after another puts header and separator once, at the top, followed by the data lines in order |

## Left out

- File and console I/O: `clear` truncating the report, `write`, `log`, `print`, `mkdir` and the Markdown file itself. A file is an `Option<string>` of its content.
- The HTML page around the table: CSS, the Chart.js template, `generate_chart_html`, `write`. The table is modelled as the slot each cell sits in (`HoldingsLog.RowSlots`), not as markup.
- `_format_date`: the chart keeps the day number, not the "Mon d, yyyy" label.
- `f"{pct:.1f}%"` cell texts: a shown cell holds the share itself. Only the threshold test is modelled.
- The change column's `+.2f` text: only its sign is modelled (`HoldingsLog.PrintedChangeClass`). The value column's `+,.1f` takes an integer number of tenths, so the rounding of a binary float to one decimal is left out.
- IEEE floating point: prices and money are `real`, and the report's numbers are exact decimals. Rounding and the overflow of huge finite floats are left out.
- Division by zero: prices are float64 values read from the frame, and the broker's cash and value become float64 with the first fill. A float64 divided by zero gives inf or NaN instead of raising, while a plain float raises ZeroDivision. The model follows whichever kind the source divides:
  - the buy at a zero price follows float64 (`Brokerage.DecideBuy`);
  - the growth figures of `next` raise only for a zero start value (`Ftlt.Act`). Before any fill the values are the plain starting cash, and with no starting cash no buy fills (`Brokerage.PennilessBuysNothing`);
  - the drawdown of a zero peak raises (`Analyzers.DrawDownNext`, `BaseStrategy.UpdateDrawdown`). The peak starts at the starting cash and never falls (`Analyzers.DrawDownRunPeak`), so it is zero only when there is no starting cash and every value is still a plain float;
  - the monthly report's shares divide float64 position values, so they never raise;
  - the RSI's averages divide float64 moves, but the model raises ZeroDivision for them, for a period of 0 or one strictly between 0 and 1 (see the `Indicators.` lines below).
- The model does not track whether a value is a plain float or a float64. The cases above rest on that reasoning about whole runs and are not proved as a run invariant.
- Numbers.ParseFloat: exponents, underscores and the Unicode digits and whitespace that `float()` accepts are not read. The contract only fixes the error kind; what it reads is stated by SignedReads, UnsignedReads and ValueReadsBack.
- `lower` and `upper` map only the ASCII letters; other cased characters are kept as they are. The two arrows are the only non-ASCII characters the report uses. `strip` is not limited to ASCII: it removes exactly the characters Python's `str.isspace` accepts (`Text.IsSpace`).
- The ValueError messages are shortened ("column mismatch", "float"). The KeyError of a missing feed column carries the column name.
- `_holdings_pct` asks the broker for the position, which adds a flat entry. The log takes the size as input and this side effect is not repeated there.
- A NaN equity in `collect` is not modelled; equity is a number.
- LogTable.BarsAppend: a pipe counts as a cell delimiter unless a backslash stands right before it. The rule that `\\|` is an escaped backslash followed by a delimiter is not modelled.
- An empty asset list on the first collected day leaves the columns unset, as in the source; `HoldingsLog.CollectKeepsShape` asks for a non-empty list.
- NaN reaching the broker's arithmetic: Python carries NaN cash onward, while the model stops with the `NanArithmetic` fault.
- Brokerage.DecideBuy: at a zero price with negative cash, the source sizes the buy at minus infinity and carries NaN cash onward, while the model stops with `NanArithmetic`.
- Indicators are read at offset 0 only. `SmaAsWritten` and `SmaAt` still take any offset.
- The datetime of a bar is its stamp, and `date()` is the stamp too (daily bars).
- Duplicate stamps in a feed: the first matching row is used, where pandas would return a slice.
- The text of the log lines written by `log_state_resolution`, `log_monthly_deployed`, `_format_ohlc` and the strategy's `log`, and `stop()` writing the report. What these functions read and what they can raise is modelled. This covers the RSI(SPXL) read of the hedge's log line (`Ftlt.LogReads`) and the monthly report's update of the previous value (`Ftlt.Act`).
- `mytrader/context.py`, the thread-local registration of indicators: the registered list is passed explicitly.
- Download and `mt_main_close.py` are not part of this model. Of `portfolio_reporting.py`, `log_monthly_deployed` is modelled inside `Ftlt.Act`. Its growth figures divide by the same values `next` has just divided by, so they add no new fault.
- Ftlt.Act: `log_monthly_deployed` looks up a position for every feed, and each lookup adds a flat entry to the broker. These entries are not added, because they change no size, cash or value.
- Ftlt.Act: `hlog.collect` inside `next` is modelled on its own (`HoldingsLog.Collect`) and is not called here. The strategy passes it the same asset list on every bar, after the `clear` in `__init__`.
- Ftlt.ReadOf: the reads `next` makes are not written back to the indicators. After the evaluation pass such a read changes no state (`Indicators.ReadAfterEvaluate`).
- Indicators.SmmaUpdate: with a period of 0, every update on a new bar raises ZeroDivision in the model. In rsi.py:28 the division raises only while the seed holds nothing but plain `0.0` moves. A move is a float64 whenever the close did not move against that average, and once the seed holds one, the division gives NaN or an infinity and later smoothing keeps it so. A raising update has also already appended its value to the seed in the source, while the model drops it.
- Indicators.RsiOf: when the up average is the down average negated and not zero, which needs a float period strictly between 0 and 1, the model raises ZeroDivision. Both averages are then float64, so rsi.py:92-93 divides by a float64 zero and reads minus infinity without raising.
- Indicators.WilderRsi: the reference RSI fails on the same cancelling averages as `Indicators.RsiOf`, where the source reads minus infinity.
- Indicators.RsiCommit: on cancelling averages the model raises and keeps the RSI's old state, while the source stores both updated averages and memoises minus infinity.
- Indicators.RsiRead: with a period of 0 or strictly between 0 and 1, the model can raise ZeroDivision where rsi.py reads NaN or minus infinity and carries on. With a period of 0 this happens on a flat bar, and on any later bar once a seed holds a float64 move. With a period between 0 and 1 it happens when the averages cancel. When rsi.py does raise with a period of 0, its up average may already have been updated before the down average's update raises. The model keeps the RSI's old state. Steady periods, the defaults among them, never raise in either (`Indicators.SoundReadsSucceed`).
- HoldingsLog.Collect: when `collect` raises the column-mismatch ValueError (inverted_holdings_logger.py:94-99), the source has already stored the day as the last logged date and raised the column flags (lines 65-81). The model's error carries none of that state. No caller catches this error, so a run stops there in both.

## Findings

| source | as written | input that shows it | evidently intended | confidence | as-written member | corrected member |
|---|---|---|---|---|---|---|
| functions/inverted_holdings_logger.py:338-343 | each row emits the change cell before the value cell, while the headers (lines 164-165) put Value before Change | a log with both a value and a change column | cells in header order: value, then change | high, not executed | HoldingsLog.RowAsWrittenMisaligned | HoldingsLog.RowUnderHeaders |
| mytrader/ind/sma.py:11-17 | the warm-up test uses idx + off, but the window `close[j - i]` always ends at the cursor row | two rows with closes 1.0 and 2.0, cursor on the second, period 1: `sma[-1]` is 2.0 | `sma[-1]` is the mean ending at the previous row, 1.0 | high, not executed | Indicators.SmaPreviousBarReadsCurrent | Indicators.SmaAt |
