# A verified model of a backtesting system

This project models three parts of the system and proves what each of them is for:

- **Market data** (`src/data`): the generation store behind one CURRENT pointer, the concurrent writers that
  merge fetched ranges into it, per-row lineage, the report archive with its pins, cleanup, cache-first
  acquisition, and the quality rules between providers and the engine.
- **The backtest engine** (`src/engine`, `src/models`, `src/strategies`, `src/analytics`): the bar-by-bar event
  loop with one pending order, the margin ledger, the broker, the three shipped strategies, the drawdown metric
  and walk-forward chaining.
- **The cloud run protocol** (`src/cloud`): preparers, workers, finalizers and the results endpoint over a
  write-once object store and conditionally updated run records.

Code that updates state in place is a class with methods, or a method with loops, proved equal to a function on
values; the properties are proved about those functions, over every input, every run or every interleaving.

| files | what they hold |
|---|---|
| `Market`, `Reals`, `Broker`, `Ledger`, `Portfolio`, `LedgerInvariant`, `LedgerLaws` | orders, fills and the multi-symbol ledger |
| `Engine`, `BacktestRun`, `EngineInvariant`, `Conservation`, `EngineRuns`, `MarginCalls`, `Signals` | the event loop and its theorems |
| `Windows`, `Breakout`, `MaCrossover`, `RsiMeanReversion`, `LongOnly`, `Metrics`, `WalkForward` | strategies and analytics |
| `Sessions`, `Sorting`, `Frames`, `Normalization`, `Quality`, `Lineage` | sessions, frames, quality and provenance |
| `Store`, `StoreSafety`, `Maintenance`, `DataStore` | the store's files, their histories and the store object |
| `Candidates`, `Writers`, `Interleavings`, `LineageRuns`, `Instances` | concurrent writers, their rows and their lineage |
| `Acquisition`, `Planning`, `AcquisitionRuns`, `CacheAgreement`, `OrphanInstance`, `RefusedReportInstance`, `Boundary` | cache-first acquisition and the way to the engine |
| `CloudStorage`, `CloudRuns`, `CloudSafety`, `CloudProgress`, `CloudHandlers` | the cloud run protocol |

## Assumptions

- Money, prices and ratios are `real`; dates and timestamps are integers. Float rounding, NaN and infinities are
  outside the model, except that a provider field may be NaN or an infinity.
- SHA-256 is the content it digests in the data store, and an arbitrary function, collisions allowed, in the
  cloud protocol.
- The engine theorems assume candles with valid, positive OHLC prices and increasing times, slippage in [0, 1)
  and a non-negative commission. Limit and stop prices may be any number.
- A strategy is any deterministic state machine and a sizer any function; the identity of an order object is a
  counter that never repeats.
- The store model is one namespace. Generation identifiers never repeat, and an acquisition identifier is used once,
  except that a publication that did not commit may be followed by the report of its failure. The check of CURRENT
  and the swap are one step, as under the publish lock; cleanup and maintenance run as whole operations.
- A publication fails only before the pointer swap (`src/data/store.py:408`). The directory sync right after the swap
  could raise in the program; `acquire` would then archive a failure report under the identifier of the committed
  acquisition, and report durability would not hold (`StoreSafety.LateFailureShadowsReport`).
- The cloud model has no TTL and no lifecycle expiry, and one object or record operation is one step.

## Findings

- A rebase looks only at the writer's lineage for dates inside its ranges. When the newer generation has such a
  date and the writer's candidate lacks it, the row is attributed to the wrong fetch, or the publication is
  refused. `LineageRuns.ProvenanceOfRebase` gives the exact condition for every commit of every run and
  `Instances.RebaseCanMisattribute` a run in which it fails.
- A rebase lays the candidate's rows over the newer generation for all planned dates, also for those the
  provider did not return, so a stale cached row can replace a newer one. `Interleavings.StaleRowCondition`
  gives the exact condition and `Instances.RebaseCanRestoreStaleRow` a run in which it fails.
- The next rebuild dates a row that no segment of its own provider claims by the manifest it read, and a late
  rebase can publish a manifest older than the segments it carries. After such a commit an acquisition can leave
  a session that the next one, at the same instant, finds expired. `Acquisition.AcquireTwiceExactly` gives the
  exact condition, `AcquisitionRuns.IdempotentOnRuns` the runs on which this cannot happen and
  `OrphanInstance.AcquiringCanNeedRepeating` one on which it does.
- An acquisition answered from the cache archives its own report and raises when it cannot, so a second acquisition
  fails although every session is cached and fresh, where one that commits would only warn and pin
  (`Acquisition.RefusedReportRaises`, with `RefusedReportInstance.CacheAnswerCanRaise` from the empty namespace).
- The worker admits run specifications of up to 128 KiB, the finalizer reads only 64 KiB: a run in between is
  executed and published and can never succeed (`CloudProgress.LargeSpecIsPublishedInVain`).
- A report that could be neither archived nor pinned is lost with the next commit unless maintenance archives it
  first (`StoreSafety.UnreportedIsLostAtNextCommit`, with a history in `StoreSafety.ReportCanBeLost`).

## Model

| member | source | states |
|---|---|---|
| `Broker.FillsExactlyWhenReached` | src/engine/broker.py:45-104 | On a bar that keeps the OHLC invariant, the gap and touch cases of limit and stop fills amount to one condition: the order fills if and only if the bar's low–high range reaches its price; a market order always fills. |
| `Broker.FillIsAcceptable` | src/engine/broker.py:45-104 | Every fill has a positive price and a non-negative commission, the rate on price times quantity, and carries the order's own terms, even when the limit or stop price itself is not positive, so the ledger's input checks cannot refuse it. |
| `Broker.FillQuality` | src/engine/broker.py:78-104 | A limit order never fills worse than its limit nor beyond the bar on its better side, a stop order never better than its slipped stop, and every market or stop fill is a slipped price of the bar's own low–high range. |
| `Broker.FillIsExact` | src/engine/broker.py:45-104 | For every well-formed order and valid bar, the exact fill: a market order pays the slipped open; a reached stop pays the slipped worse of the open and the stop; a reached limit pays the better of the limit and the slipped open when the bar opens through it, else the limit; the commission is price times quantity times rate; symbol, direction, quantity and time are the order's and the bar's. |
| `Portfolios.Portfolio.constructor` | src/models/portfolio.py:47-77 | A new portfolio holds the initial capital as cash and as peak, and nothing else. |
| `Portfolios.Portfolio.EquityNow` | src/models/portfolio.py:91-101 | The loop over open positions computes cash plus collateral plus the signed marked value of every position. |
| `Portfolios.Portfolio.Record` | src/models/portfolio.py:122-203 | The in-place update equals the ledger function on the old books: exact close, long open, short open with collateral, rejection for lack of cash, or an error that changes nothing. |
| `Portfolios.Portfolio.Accrue` | src/models/portfolio.py:205-249 | All timestamps are checked before any charge; a fault changes nothing, otherwise the in-place update is that of the ledger's accrual, whose charge and stamps `LedgerLaws.AccrualIsExact` gives by formula. |
| `Portfolios.Portfolio.Ratio` | src/models/portfolio.py:251-261 | Equity over marked short value; absent for a symbol not held short, infinite for a zero short value. |
| `Portfolios.Portfolio.Update` | src/models/portfolio.py:267-280 | One mark appends one equity point with its drawdown from the updated peak. |
| `LedgerInvariant.FillKeepsBalance` | src/models/portfolio.py:122-203 | On any multi-symbol ledger: one position per symbol, restricted collateral equal to the sum of per-symbol collateral, and collateral and borrow stamps keyed exactly by the open shorts, are kept by every fill; the dictionary lookups of a close cannot miss. |
| `LedgerInvariant.AccrualKeepsBalance` | src/models/portfolio.py:205-249 | Accrual keeps the same invariant and can be refused only because a short was already charged up to that instant. |
| `LedgerLaws.AccrualIsExact` | src/models/portfolio.py:205-249 | On any multi-symbol ledger an accrual is refused exactly when some open short was charged at or after the instant; otherwise cash falls by the sum over the open shorts of quantity times last marked price (else entry price) times rate times elapsed microseconds over 86,400,000,000 times day count, every short is stamped with the instant, and nothing else changes. |
| `LedgerLaws.FillRefusedExactly` | src/models/portfolio.py:122-203 | A fill raises exactly for a non-positive quantity or price, a negative commission, or a direction or quantity that does not settle the open position of its symbol. |
| `LedgerLaws.OpeningIsExact` | src/models/portfolio.py:164-203 | A fill in a symbol not held is accepted exactly when cash covers quantity times price plus commission (long) or initial margin less one times that value plus commission (short); a rejected one changes nothing, an accepted one pays that much and posts initial margin times value as the short's collateral. |
| `LedgerLaws.ClosingIsExact` | src/models/portfolio.py:133-163 | A matching fill always closes the position whatever the cash: the trade carries both commissions, the collateral of exactly that symbol is released, and cash receives or pays the exit value less commission. |
| `LedgerLaws.FillKeepsMargin` | src/models/portfolio.py:122-203 | Every fill keeps the collateral of every open short equal to the initial margin times its quantity times its entry price. |
| `LedgerLaws.FillCostsItsCommission` | src/models/portfolio.py:91-203 | Whatever else is held, with the filled symbol marked at the fill's price, an accepted fill lowers equity by exactly its commission: opening, closing, long or short. |
| `BacktestRuns.BacktestRun.HandleFillEvent` | src/engine/backtest.py:349-379 | The handler does to the run state what the specification's fill step does, errors included. |
| `BacktestRuns.BacktestRun.HandleMarketEvent` | src/engine/backtest.py:381-390 | The strategy sees the context built from position and pending order, and its signal, if any, joins the queue. |
| `BacktestRuns.BacktestRun.HandleSignalEvent` | src/engine/backtest.py:392-409 | A signal is dropped while a forced cover is pending, ignored when it does not oppose the open position, and otherwise becomes one order event; `Signals.SignalBecomesOrder` says which order. |
| `BacktestRuns.BacktestRun.HandleOrderEvent` | src/engine/backtest.py:411-431 | The order replaces whatever was pending and is marked as a forced cover by its identity. |
| `BacktestRuns.BacktestRun.DrainEvents` | src/engine/backtest.py:313-347 | The FIFO loop over the event queue terminates and computes the recursive drain of the same queue. |
| `BacktestRuns.BacktestRun.CallMargin` | src/engine/backtest.py:232-263 | The in-place margin check is that of the fold, unless a forced cover is already pending; `MarginCalls.BreachQueuesCover` says in cash, collateral and close when it covers. |
| `BacktestRuns.BacktestRun.ProcessBar` | src/engine/backtest.py:210-266 | Accrue, fill, mark, margin check and signal, in this order and with early exit on error, equal one step of the bar function. |
| `BacktestRuns.BacktestRun.Backtest` | src/engine/backtest.py:168-307 | The whole run over mutable state refines the fold over bars, with the empty and the unordered input refused. |
| `EngineInvariant.BarKeeps` | src/engine/backtest.py:210-266 | From any state that satisfies the invariant, one bar keeps it, fails only for an order the strategy or sizer made malformed, and moves cash and collateral exactly as a one-position scalar ledger does; the equity point is that ledger's worth at this bar's close. |
| `EngineInvariant.RunKeepsInvariant` | src/engine/backtest.py:168-307 | For every strategy, sizer and candle sequence, in every reachable state: at most one position, any pending order is an opening order while flat or the exact opposite of the position, the tracked symbol is the position's, a short is charged up to the last bar; `record_fill` and `accrue_short_borrow` never raise. |
| `EngineInvariant.RunNeverFails` | src/engine/backtest.py:168-307 | A strategy whose signals carry the price their kind needs, with a sizer that returns at least one, always runs to the end. |
| `Conservation.RunConserves` | src/models/portfolio.py:122-249 | After every bar, cash plus collateral is initial capital plus closed profit less borrow paid and less what the open position cost to enter. |
| `Conservation.EquityIsConserved` | src/models/portfolio.py:91-249 | Equity is initial capital plus the profit of all closed trades plus the unrealised profit of the open position, less its entry commission and less the borrow fees: per bar reached while short, quantity times previous close times rate times the microseconds since the previous bar over 86,400,000,000 times day count. |
| `EngineRuns.Causality` | src/engine/backtest.py:210-266 | A run over the first k bars gives exactly the first k equity points and a prefix of the trades of the full run, and a prefix that fails makes every extension fail alike. |
| `EngineRuns.BooksIgnoreTheAnswer` | src/engine/backtest.py:210-266 | Two different strategies started from the same books and pending order have the same books after the bar: every fill executes an order queued on an earlier bar. |
| `EngineRuns.PendingUntilReached` | src/engine/backtest.py:213-229 | An order standing after bar i and not superseded by bar j is still pending exactly when no bar between reached it. |
| `EngineRuns.GoodTillCancelled` | src/engine/backtest.py:213-229 | A conditional order queued on bar i and not superseded executes on bar j if and only if j is the first later bar that reaches its price. |
| `MarginCalls.BreachQueuesCover` | src/engine/backtest.py:232-263 | After every bar of every run, a forced cover is pending if and only if the sole position is a short of quantity q and cash plus restricted collateral less q times this bar's close is below the maintenance margin times q times this close, whatever else was pending or signalled; it is a market buy of exactly q in the position's symbol. |
| `MarginCalls.CollateralIsInitialMargin` | src/models/portfolio.py:177-203 | After every bar of every run the restricted cash is the initial margin times quantity times entry price of the open short, and zero without one. |
| `MarginCalls.BreachIsCovered` | src/engine/backtest.py:213-263 | On the bar after the same inequality held, the only execution is that cover, for the exact quantity at the slipped open; it is always accepted, leaves the book flat with no collateral, and cash becomes cash plus collateral less the bar's borrow fee, the purchase and its commission. |
| `Signals.SignalBecomesOrder` | src/engine/backtest.py:381-498 | On every bar of every run, from the bar's inputs: the strategy is asked with the sole position and what then stands (a fresh forced cover, else what was pending unless the bar reached it). Its signal while flat becomes an order of its own direction, kind, limit, stop and time, of the sizer's quantity at this close, in the requested symbol, else the signal's; against the position it becomes the exact close of it with the signal's kind and prices; otherwise, or under a forced cover, what stood still stands. |
| `Breakout.BreakoutStrategy.OnCandle` | src/strategies/breakout.py:42-87 | The in-place update of the two deques and levels, and the signal, equal one step of the channel state machine. |
| `Breakout.SignalRule` | src/strategies/breakout.py:42-87 | In terms of the bars alone: buy, by a stop at the channel high, exactly when flat, idle and the close is above every high of the preceding `lookback` bars; sell at the market exactly when long and the close is below every low of them; no signal before there are that many; the signal is dated by the bar. |
| `MaCrossover.MaCrossoverStrategy.OnCandle` | src/strategies/ma_crossover.py:47-96 | The in-place update and the signal equal one step of the averages state machine. |
| `MaCrossover.CrossRule` | src/strategies/ma_crossover.py:47-96 | After every series of adjusted closes: buy at the market exactly on an upward crossing of the trailing means (compared as cross-multiplied sums) while flat and idle, sell at the market exactly on a downward crossing while long, nothing before the slow window was full one bar earlier; the next state is again that of the series. |
| `Windows.SumIsAdditive` | src/strategies/ma_crossover.py:58-59 | The sum behind both means is additive over concatenated windows and the identity on single values, which determines it. |
| `RsiMeanReversion.RsiStrategy.OnCandle` | src/strategies/rsi_mean_reversion.py:62-113 | The in-place Wilder update and the signal equal one step of the smoothing state machine, and averages stay non-negative. |
| `RsiMeanReversion.ReversionRule` | src/strategies/rsi_mean_reversion.py:62-113 | Over every series of bars, whatever the contexts were: buy at the market exactly when oversold, flat and idle, with a strength whose product with the threshold is the depth below it; sell at the market exactly when long and recovered; never before `period` changes; the index is that of the averages of the price series itself. |
| `RsiMeanReversion.WilderAverages` | src/strategies/rsi_mean_reversion.py:68-88 | Those averages are the plain means of the first `period` gains and losses, and then period times the new average is period less one times the old one plus the new change. |
| `RsiMeanReversion.RsiIsShareOfGains` | src/strategies/rsi_mean_reversion.py:55-60 | The index is the share of gains in all movement, in percent. |
| `LongOnly.NoShortIsEverOpened` | src/engine/backtest.py:447-475 | For every strategy that sells only what is held long: no short is ever open or pending, collateral is zero, no forced cover is queued, and with commission at most 100% cash and equity never go negative. |
| `LongOnly.BreakoutIsLongOnly` | src/strategies/breakout.py:62-85 | Over any candles the breakout strategy runs to the end and satisfies the long-only theorem. |
| `LongOnly.MaCrossoverIsLongOnly` | src/strategies/ma_crossover.py:67-92 | Likewise for the moving average crossover. |
| `LongOnly.RsiIsLongOnly` | src/strategies/rsi_mean_reversion.py:90-111 | Likewise for RSI mean reversion. |
| `Metrics.MaxDrawdown` | src/analytics/metrics.py:118-135 | The loop computes the worst drawdown from the running peak. |
| `Metrics.WorstIsLeastChange` | src/analytics/metrics.py:118-135 | On a positive curve the figure is the least relative change from any point to a later one: a lower bound of all pairs, and attained. |
| `Metrics.FirstPointIsCapital` | src/engine/backtest.py:210-231 | In every run there is one equity point per bar and the first one equals the initial capital. |
| `Metrics.DrawdownsAgree` | src/models/portfolio.py:267-280 | For every run, `max_drawdown` of the curve equals the least `drawdown_pct` recorded bar by bar. |
| `WalkForward.AnalyzeWith` | src/analytics/walk_forward.py:140-195 | The window loop terminates with floor((n − is − oos)/step) + 1 windows, or none; window k starts at k times step, tests right after it trains and ends inside the candles, and one more window would not fit; the combined curve is the chain of the windows' curves, and the first run that raises ends it with that error. |
| `WalkForward.Analyze` | src/analytics/walk_forward.py:92-195 | The same for the engine runs themselves: each window's parameters are chosen on its in-sample candles and run on the out-of-sample candles right after them, and refused parameters give an empty curve. |
| `WalkForward.FinalEquity` | src/analytics/walk_forward.py:168-195 | The combined curve ends at the capital times the product of the segments' growth factors. |
| `WalkForward.SegmentIsScaled` | src/analytics/walk_forward.py:168-195 | Every segment stands in the combined curve as a constant multiple of its own curve, with no change of equity at the seam. |
| `WalkForward.ChainedRuns` | src/analytics/walk_forward.py:92-195 | For the runs of any windows of any candles, wherever parameters were refused: the combined curve starts at the capital, ends at it times the product of the growth factors, and holds each run's curve as a constant multiple of itself with no change at the seam. |
| `Sessions.GroupContiguousSessions` | src/data/calendars.py:99-121 | The scan with its open group computes the maximal runs of adjacent sessions. |
| `Sessions.RunsAreMaximal` | src/data/calendars.py:99-121 | The runs are in order, never adjacent, and cover exactly the chosen sessions. |
| `Sessions.GroupingIsExact` | src/data/acquisition.py:342-358 | Over ascending sessions the ranges cover exactly the chosen sessions, begin and end on chosen ones, and any two are separated by a session that is not chosen. |
| `Sessions.MaxGapIsLongest` | src/data/quality.py:331-339 | The gap figure is the true longest stretch of consecutive missing sessions: there is one that long and none longer. |
| `Frames.MergeOverrides` | src/data/store.py:697-700 | Concatenate, keep the last row of each day, sort: the result is strictly date-sorted and is the first frame overridden by date by the second, whatever order the rows came in. |
| `Frames.KeepRestricts` | src/data/store.py:703-711 | Filtering rows by date restricts the date mapping to exactly those dates. |
| `Frames.SameMeaningSameFrame` | src/data/store_artifacts.py:65-102 | A strictly sorted frame is determined by its date mapping. |
| `Normalization.NormalizeProviderBatch` | src/data/normalization.py:160-251 | The candidates are exactly the rows dated inside the range, by date and then source row; the rejections are exactly the undated rows; the counters balance, so their assertion cannot fail. |
| `Quality.RowCarriesFigures` | src/data/normalization.py:196-215 | A row that is accepted carries the provider's own figures; an absent dividend is 0 and an absent split 1 where the provider reports actions, and where it does not such a row is never accepted. |
| `Quality.RowReasons` | src/data/quality.py:138-168 | The reasons listed are exactly those that apply to the row. |
| `Quality.NoReasonExactlyForValidBars` | src/data/store_artifacts.py:91-102 | The two row validators agree: the quality rules find no reason exactly for the rows the store accepts. |
| `Quality.Deduplicate` | src/data/quality.py:186-194 | One scan over groups of equal date keeps the first row of each unanimous date, counts the rows of contested dates, and accounts for every row. |
| `Quality.AcceptRows` | src/data/quality.py:215-232 | Accepted rows, refused rows with their reasons, and calendar mismatches are exactly those of the retained rows. |
| `Quality.EvaluateRangeCandidate` | src/data/quality.py:171-287 | All five reconciliation equations hold, the missing count is the number of sessions without an accepted row, and the outcome is fatal for exactly four causes. |
| `Quality.EvaluateBatch` | src/data/quality.py:171-287 | In terms of the provider's rows alone: the frame is date-sorted and holds exactly the valid session bars on which all rows of the date agree; the batch is refused if and only if its schema is unusable, two rows of a date conflict, an agreed valid bar is off the calendar, or nothing remains. |
| `Quality.NamedIsFetched` | src/data/acquisition.py:482-512 | Frames produced this way meet the assumption that the concurrent-writer proofs make about a fetch. |
| `Boundary.MergeIsCanonical` | src/data/acquisition.py:522-527 | Merging valid rows into a valid frame gives a frame the store's validator accepts, unless there are no rows. |
| `Boundary.AssembledIsCanonical` | src/data/store.py:185-224 | Whatever generation a writer read and whatever generation it finds at publication, the assembled frame, rebased or not, passes the store's validator unless it is empty. |
| `Boundary.RequestFailsOnlyByPolicy` | src/data/quality.py:290-420 | A canonical frame fails the complete-request check only for emptiness, coverage or gap. |
| `Planning.UsableExactly` | src/data/quality.py:290-420 | An answer passes exactly when it is a non-empty sorted frame of valid rows of the sessions, the number of sessions with a row is at least the minimum coverage times the number of sessions, and no stretch of consecutive sessions without a row is longer than the maximum gap. |
| `Boundary.ToCandles` | src/data/__init__.py:16-59 | All rows convert or none do, each to a candle at the midnight of its day with the row's own six figures; the error names the first row that is not a candle. |
| `Boundary.AcquiredIsUsable` | src/data/acquisition.py:131-318 | Every successful acquisition, from the cache or fetched, returns a frame that passes the complete-request check. |
| `Boundary.AcquiredIsTradable` | src/data/__init__.py:16-59 | What an acquisition returns converts to valid candles with strictly increasing timestamps, and the engine runs any disciplined strategy on them to the end. |
| `Lineage.GroupRows` | src/data/acquisition.py:617-637 | The grouping loop with its moving start index computes the grouping by equal provenance. |
| `Lineage.GroupPartitions` | src/data/acquisition.py:617-637 | The segments are non-empty, labelled by their own rows, and together are the frame in order. |
| `Lineage.GroupIsMaximal` | src/data/acquisition.py:617-637 | Two neighbouring rows share a segment if and only if they share their provenance. |
| `Lineage.GroupSays` | src/data/acquisition.py:617-637 | The date of every row finds exactly the attribution its provenance says. |
| `Lineage.RowFindsItsSegment` | src/data/store_artifacts.py:146-154 | In a partition of a sorted frame the date of a row is claimed by the one segment that holds the row. |
| `Lineage.RebuildLineage` | src/data/acquisition.py:557-637 | The two loops compute the lineage of a freshly merged frame. |
| `Candidates.KeptProvenance` | src/data/acquisition.py:557-637 | A row that was not refetched keeps the provenance it had if and only if the lineage it had names the row's own provider. |
| `Candidates.PreparedSays` | src/data/acquisition.py:557-637 | What a rebuilt lineage says of each row: the attribution of the fetch that supplied it; for other rows that of the segment of their own provider, else the default. |
| `Lineage.RebaseLineage` | src/data/store_artifacts.py:138-192 | The rebase loops compute the rebased lineage, or refuse when a row is covered by neither lineage. |
| `Lineage.RebaseTruthCondition` | src/data/store_artifacts.py:138-192 | A rebased lineage exists and attributes every row to whoever supplied it if and only if the two lineages agree on the dates of the writer's ranges that its candidate lacks and the newer generation has. |
| `DataStores.DataStore.PublishLocked` | src/data/store.py:341-419 | The file operations one by one, stopped after any number of them, leave exactly the specified files; only the last moves CURRENT. |
| `DataStores.DataStore.ArchiveAfterCommit` | src/data/store.py:421-453 | The report is archived, else its generation is pinned. |
| `DataStores.DataStore.PublishGeneration` | src/data/store.py:161-238 | The attempt loop with its moving base equals the recursive compare, rebase, validate and retry, at most three times, under any interference between its two looks at CURRENT. |
| `DataStores.DataStore.CleanupGenerations` | src/data/store.py:240-278 | Exactly the generations that are neither current, valid predecessor nor pinned are removed, less those whose removal fails. |
| `StoreSafety.CleanupLeavesExactly` | src/data/store.py:240-278 | In every history, after a cleanup the directories are exactly those of the last two commits, the pinned ones and those whose removal failed: older generations and the remains of publications cut short are gone; before the first commit nothing is removed; nothing but directories changes. |
| `StoreSafety.DamageIsDetected` | src/data/store.py:600-682 | After any history, whatever then happens to the generation directories: a read gives the last commit exactly if its directory still holds it and reports damage otherwise, never anything else. |
| `StoreSafety.CleanupOfDamaged` | src/data/store.py:240-278 | After any history and any damage to the directories: nothing is removed while CURRENT cannot be read; otherwise a directory stays exactly if it is current, pinned, stuck, or the recorded predecessor with all artifacts present, named right, valid and vouched for by its manifest. |
| `DataStores.DataStore.MaintainManifestArchive` | src/data/store.py:306-329 | Every pin is retried, then an unpinned CURRENT is archived. |
| `Maintenance.MaintenanceUnpinsExactly` | src/data/store.py:306-329 | In every history, a maintenance run removes a pin exactly when its report can be archived, or already was, and the pin can be removed; then exactly the pinned generation's report is in the archive. |
| `DataStores.DataStore.LookupManifest` | src/data/store.py:280-304 | The archive first, then pinned generations in order, then an unpinned CURRENT. |
| `DataStores.SerialisedPublication` | src/data/store.py:185-238 | With publishers serialised by the lock a conflict cannot happen, a refusal changes nothing, and a rebased commit is the writer's ranges laid over exactly the generation it replaced. |
| `DataStores.ConflictExactly` | src/data/store.py:185-238 | A publication gives up with a conflict if and only if each of its three attempts assembled something that could be published and then found CURRENT moved. |
| `StoreSafety.DirectoriesAreImmutable` | src/data/store.py:341-419 | A generation directory that survives an operation is unchanged by it. |
| `StoreSafety.ArchiveIsAppendOnly` | src/data/manifest.py:89-127 | Over every history, a report in the archive stays there unchanged, even where another report claims its identifier. |
| `StoreSafety.OperationIsAtomic` | src/data/store.py:341-419 | A publication cut short before the swap, a cleanup and a maintenance run leave every reader's result as it was; a completed publication replaces it in one step; CURRENT, its predecessor and all pins stay intact. |
| `StoreSafety.CurrentIsLastCommit` | src/data/store.py:146-159 | In every history from the empty namespace a read returns exactly the last committed frame, and the recorded predecessor is the commit before it, still there with its content. |
| `StoreSafety.ReportsAreDurable` | src/data/store.py:280-329 | The report of every commit whose archive write or pin write succeeded can be looked up, unchanged, at every later point of every history. |
| `StoreSafety.UnreportedIsLostAtNextCommit` | src/data/store.py:280-329 | In every history the report of a commit whose archive write and pin write both failed is found at a later point if and only if no other commit has happened since, or maintenance archived it before the next one. |
| `StoreSafety.ReportCanBeLost` | src/data/store.py:421-453 | A history of two commits in which the first one's report is lost. |
| `StoreSafety.LateFailureShadowsReport` | src/data/acquisition.py:304-307 | Why a publication must fail only before its swap: a failure report archived under the identifier of a committed acquisition would stand for the committed one. |
| `Writers.StepKeeps` | src/data/store.py:161-238 | Every step of every writer (read, attempt, conflict, commit, failed publication, abandonment) and every cleanup or maintenance run keeps the protocol invariant: intact files, one frame per identifier, and each commit an overlay of the one before it. |
| `Interleavings.RunKeeps` | src/data/store.py:161-238 | The protocol invariant holds in every state of every interleaving of reads, attempts, commits, failed publications, abandoned writers, cleanups and maintenance. |
| `Interleavings.NoLostUpdate` | src/data/store.py:185-238 | Every commit, rebased or not, keeps every date of its predecessor, leaves every row outside the writer's ranges identical, and inside them takes exactly the rows its candidate has. |
| `Interleavings.CurrentComesFromLastSupplier` | src/data/store.py:697-711 | In every reachable state CURRENT holds, for each date, the row of the last committed writer whose ranges cover the date and whose candidate has it, and no other date. |
| `LineageRuns.LineageIsMaximal` | src/data/acquisition.py:557-637 | In every interleaving the lineage of every commit, rebased or not, is an ordered disjoint partition of its rows into maximal runs: neighbouring rows share a segment if and only if they share the provenance given by what the writer fetched and the lineage it replaced; CURRENT carries that of the last commit. |
| `LineageRuns.ProvenanceOfCommit` | src/data/acquisition.py:557-637 | Every commit of every interleaving that was not rebased: fetched days carry the attribution of their fetch, and all other rows keep their provenance if and only if the lineage that was replaced names their providers. |
| `LineageRuns.UnrebasedNamesProviders` | src/data/acquisition.py:557-637 | Every commit that was not rebased names the provider of every row, so the condition holds whenever the commit before was not rebased either. |
| `LineageRuns.ProvenanceOfRebase` | src/data/store_artifacts.py:138-192 | Every rebased commit of every interleaving: fetched days carry the attribution of their fetch, and every row carries the writer's attribution where it supplied the row and the old one elsewhere if and only if the two lineages agree on the days of its ranges that only the newer generation has. |
| `LineageRuns.RebaseNamesProviders` | src/data/store_artifacts.py:138-192 | Exactly which rebased lineages still name the provider of every row. |
| `Instances.RebaseCanMisattribute` | src/data/store_artifacts.py:147-161 | A run of two writers from the empty namespace whose rebased commit attributes the other writer's row to its own fetch. |
| `Interleavings.StaleRowCondition` | src/data/store.py:194-213 | Every commit of every interleaving changes nothing but what was actually fetched if and only if no planned but unfetched row of its candidate differs from the predecessor's; a commit that was not rebased always does. |
| `Instances.RebaseCanRestoreStaleRow` | src/data/store.py:194-213 | A run of three writers from the empty namespace whose rebased commit replaces a newer row by a stale one it did not fetch. |
| `Acquisition.StaleSessions` | src/data/acquisition.py:360-396 | The pass over lineage segments computes exactly the sessions claimed by an expired segment and the cached sessions claimed by none; `Planning.PlannedExactly` says by the clock what that amounts to. |
| `Acquisition.PlanIsExact` | src/data/acquisition.py:329-358 | The sessions inside the planned ranges are exactly the missing and the stale ones. |
| `Planning.PlannedExactly` | src/data/acquisition.py:329-405 | For ascending sessions, a session is fetched exactly when the cache is unused, damaged or to be refreshed, or holds no row for it that some segment claims, or some claiming segment is older than the recent limit and the session is among the `overlap` ones that end with the last session whose close plus lag has passed, or some claiming segment is older than the historical limit and the session is not among them. |
| `Planning.StatusExactly` | src/data/acquisition.py:329-358 | The reported status: forced, damaged, full hit exactly when nothing is planned, stale exactly when a session is to be refreshed by the same conditions, a miss only without and a partial hit only with some cached session. |
| `Planning.RefetchedExactly` | src/data/acquisition.py:534-555 | The whole request is fetched as one range exactly when the plan was not that range already and some fetched row differs from the cached row of its day in dividend or split by more than the absolute tolerance and more than the relative tolerance of either figure; otherwise the planned ranges are used as fetched. |
| `Acquisition.AcquireTwiceExactly` | src/data/acquisition.py:131-318 | From any cache: after a successful acquisition whose providers answered in full, a second non-refresh acquisition of the same request at the same instant plans nothing, calls no provider, reports a full hit, returns the same frame, leaves generations, CURRENT and pins as they are and adds exactly its own report to the archive, if and only if the archive takes that report and either the first planned nothing or every unfetched session that no segment of its own provider claims is dated recently enough by the manifest that was read. |
| `Acquisition.AcquireTwice` | src/data/acquisition.py:131-318 | Whenever no cached segment is dated after its manifest, or the cached lineage names the provider of every row, acquiring is idempotent if and only if the archive takes the second report. |
| `Acquisition.RefusedReportRaises` | src/data/acquisition.py:180-226 | Where only the report is refused, the second acquisition raises although every session is cached and fresh. |
| `AcquisitionRuns.IdempotentOnRuns` | src/data/acquisition.py:131-318 | In every state of every interleaving whose commits happened in the order in which the acquisitions completed, or whose last commit was not rebased, acquiring is idempotent if and only if the archive takes the second report. |
| `OrphanInstance.AcquiringCanNeedRepeating` | src/data/acquisition.py:569-606 | A run of three writers from the empty namespace after which it is not: a late rebase leaves a row that only a segment of the other provider claims and a manifest older than that segment, and the second acquisition finds the row expired. |
| `RefusedReportInstance.CacheAnswerCanRaise` | src/data/acquisition.py:180-226 | From the empty namespace: an acquisition that commits, and a second one of the same request at the same instant that is a full hit if the archive can be written and raises if it cannot. |
| `CacheAgreement.CurrentTellsTheTruth` | src/data/store.py:161-238 | If every fetch of an interleaving tells the rows of one fixed function of the day, every row of CURRENT is that function's row in every reachable state. |
| `CacheAgreement.AcquiredIsTrue` | src/data/acquisition.py:131-318 | From a cache that tells the truth, an acquisition whose providers answer in full and truly returns exactly the true rows of its sessions, in order, whatever was cached, planned, fetched or rebased. |
| `CacheAgreement.CacheAgreesWithFetching` | src/data/acquisition.py:131-318 | In every state of every interleaving from one source, an acquisition through the cache returns exactly the frame that the same request without the cache returns. |
| `Candidates.PreparedIsSound` | src/data/acquisition.py:250-288 | Whatever generation a writer started from, the lineage it prepares partitions its rows and names the provider of each, even where the lineage it read did not. |
| `CloudStorage.ObjectStore.PutObject` | src/cloud/storage.py:181-224 | A put on a new key always stores the body; on an existing key it succeeds for the same body and is refused for another digest; it never changes a stored object. |
| `CloudStorage.RunRepository.Create` | src/cloud/storage.py:307-316 | A record is created only where there is none. |
| `CloudStorage.RunRepository.Start` | src/cloud/storage.py:318-328 | Exactly a pending run starts; it keeps its visibility and gains its start time. |
| `CloudStorage.RunRepository.Succeed` | src/cloud/storage.py:330-342 | A running run always succeeds, keeping its start time and gaining its completion time; repeating the same completion is accepted and changes nothing; a terminal record is never changed. |
| `CloudStorage.RunRepository.Fail` | src/cloud/storage.py:344-363 | A pending or running run can always be failed and then carries exactly the code and time given; repeating the same failure is accepted and changes nothing; a terminal record is never changed. |
| `CloudRuns.StepKeeps` | src/cloud/worker.py:319-405 | Every step of every preparer, worker and finalizer, crashes included, keeps the protocol invariant. |
| `CloudSafety.RunKeeps` | src/cloud/worker.py:319-405 | The invariant holds in every state of every interleaving. |
| `CloudSafety.ObjectsNeverChange` | src/cloud/storage.py:181-224 | In every interleaving an object once written is never changed and never removed. |
| `CloudSafety.TerminalIsFinal` | src/cloud/storage.py:330-363 | A terminal record, with its completion time and failure code, is the same in every later state. |
| `CloudSafety.ReportedFailureStands` | src/cloud/storage.py:344-363 | In every trace, a failure reported while a run is pending or running is recorded with its code and time and stands in every later state. |
| `CloudSafety.StartsAtMostOnce` | src/cloud/storage.py:318-328 | PENDING to RUNNING happens at most once per run. |
| `CloudSafety.SolePublisher` | src/cloud/worker.py:334-405 | All outputs of a run, the manifest included, are written by one and the same worker, however many are started for it. |
| `CloudSafety.ChecksumsMeanComplete` | src/cloud/worker.py:377-405 | As soon as checksums.json is there, and for ever after, it lists exactly the five required artifacts, each stored with the listed length and digest. |
| `CloudSafety.SucceededMeansVerified` | src/cloud/finalize_handler.py:101-162 | A succeeded run stays succeeded, with artifacts that match the manifest and fit the readers' limits, in every later state. |
| `CloudSafety.LargeSpecNeverSucceeds` | src/cloud/finalize_handler.py:37-44 | In every interleaving a run whose specification is over 64 KiB never succeeds. |
| `CloudProgress.LargeSpecIsPublishedInVain` | src/cloud/worker.py:319-405 | From every state that satisfies the invariant, an undisturbed run whose specification is over 64 KiB and at most 128 KiB is executed and published in full, manifest included, and never succeeds whatever happens afterwards. |
| `CloudSafety.LostRunNeverSucceeds` | src/cloud/worker.py:334-405 | If the worker that took a run dies before the manifest is written, no retry completes the run; it can only be failed. |
| `CloudProgress.UndisturbedRunSucceedsExactly` | src/cloud/finalize_handler.py:138-162 | From every state that satisfies the invariant, a run that nothing disturbs succeeds if and only if its specification, outputs and manifest fit the finalizer's limits, and its result is then shown exactly if it is public and presentable. |
| `CloudSafety.PublicResultExactly` | src/cloud/results_handler.py:239-347 | The endpoint answers exactly for succeeded public runs with a presentable summary: no artifact check can fail for a run it considers, and nothing else is ever shown. |
| `CloudSafety.PublicResultIsStable` | src/cloud/results_handler.py:317-347 | An answer once given is given, unchanged, in every later state. |
| `CloudHandlers.PrepareRun` | src/cloud/prepare_handler.py:171-196 | The specification is put before the record is created, and the stores change as the two protocol steps say, conflicts included. |
| `CloudHandlers.PublishOutputs` | src/cloud/worker.py:377-405 | The puts in order, the manifest last, change the stores as the protocol's steps do, and stop at the first conflict. |
| `CloudHandlers.ExecuteRun` | src/cloud/worker.py:319-405 | Admission, the take, the computation and the publication change the stores as the protocol's steps do on every path. |
| `CloudHandlers.VerifyRequiredArtifacts` | src/cloud/finalize_handler.py:101-117 | The loop succeeds if and only if every listed artifact is stored, has the listed length and digest and is within its limit, and returns exactly the five required bodies, so its final set check cannot fail. |
| `CloudHandlers.FinalizeSuccess` | src/cloud/finalize_handler.py:138-162 | The record changes as the finalizer's protocol steps say; a record is returned if and only if every artifact verifies and the run has succeeded, by this call or an earlier one. |
| `CloudHandlers.FinalizeFailure` | src/cloud/finalize_handler.py:165-186 | A record is returned if and only if the run has failed with this very code, by this call or an earlier one. |

## Left out

- The publication path without declared ranges (`replace_ranges=()`) and `_merge_lineage`: acquisition always declares its ranges.
- Parquet and JSON encoding, column dtypes, symlink and path checks, fsync: a generation is a record, and a valid read means that all artifacts are present with their digests.
- Provider adapters, HTTP, retries and pacing, and the choice of provider inside `_fetch_range`: a fetch is an arbitrary accepted range or an error.
- The parsing of provider columns and timestamps: a batch has a usable schema or not, and a row has a date or not.
- The reports of failed acquisitions beyond their place in the archive: `Acquire` returns nothing when it raises, and a failure report is a note in the store's histories.
- Redaction, logging and the text of findings, warnings and manifests beyond the fields the properties need; the action signature, which is a function of the same rows as the content digest.
- `compare_cached_and_refreshed` and the cache counters of the report.
- boto3, presigned URLs, field grammars and the dataset step of the worker: the computation of the outputs is an arbitrary function that may fail.
- CloudSafety.PublicResultExactly: the schema of the public summary and the bound on the response size are one arbitrary predicate, because neither touches the protocol.
- Acquisition.AcquireTwiceExactly: is stated with no writer between the two acquisitions and one clock reading, as the cache promises it; what concurrent writers do to each other is in the writers' theorems.
- Sharpe, Sortino, CAGR, Calmar, win rate, profit factor and the drawdown duration: real powers, square roots or easy members.
- Position sizers, the parameter search of walk-forward analysis, split and dividend adjustment, legacy fetchers and the in-memory job store: easy members; the theorems hold for every sizer and every choice of parameters.
- The API, dashboard, HTML report, command lines, SQL catalogue and migrations.
- Trade identifiers and rejection reasons of fills: they do not influence the ledger.
