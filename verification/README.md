# Verified model of the Smart Scalp trading bot

A Dafny model of the logic of a NIFTY options trading bot and its research layer, with proofs of what
that logic keeps. `dafny verify dfyconfig.toml` checks everything.

Prices, indicators and money are exact (`real`, or `int` paise in the safety machine and the packets),
times are `int` microseconds, and everything the bot learns from outside (ticks, broker answers, engine
verdicts, clock readings) is an input that may take any value.

## What is modelled

- **Market structure** (`Ticks`, `MaxMove`, `Zigzag`, `Repeats`, `Restamped`, `Legs`,
  `LegFacts`, `SessionProfile`): the sliding-window extremum over two monotonic deques against its
  quadratic definition; the online zigzag against a declarative one; windows and legs of a session
  profile.
- **The trading loop** (`MainLoop`): five modes, two latches, one position. One iteration is a step
  relation over arbitrary inputs; a class repeats it over mutable fields and is proved equal to it.
- **Candles** (`Candles`, `CandleClock`, `Timeframes`, `BarShape`, `AverageTrueRange`): as-of aggregation,
  where bars lie on the clock, agreement of timeframes, shape of a bar, true range.
- **Exit replay** (`Replay`, `ReplayRules`, `ReplayFacts`, `Drawdown`): the exit ladder as a first hit, its rules
  in prices and times, future independence, and a theorem over two runs.
- **Open interest** (`OpenInterest`, `OpenInterestFacts`): the stateful buildup rule against its
  reconstruction from recorded rows.
- **Backtest** (`Backtest`, `BacktestFacts`): a class that conserves money, with its run as a fold, and the
  one account of entries and exits that the candles allow.
- **Packets** (`Bytes`, `Best5`, `DepthBlock`, `MessageParser`): the binary tick and its best-five book.
- **Indicators** (`RealFacts`, `RelativeStrength`, `Indicators`), **transmission** (`Transmission`): averages,
  relative strength, MACD; two-pointer pairing and least squares through the origin.
- **Signals** (`Pullback`, `Selector`, `SignalDecision`, `PullbackFacts`): the setup and its mirror image, the
  selectors, the attribution of rejections, and all of it in prices and thresholds.
- **Requests** (`RateLimit`, `MarketDataRest`): pacing over runs and the circuit breaker.

## Where the code differs from what is said of it

The model follows the code.

- `legs`: with two ticks in one second at least the threshold apart, legs need not alternate
  (`LegFacts.SameInstantBreaksAlternation`). They alternate exactly if no counter-extreme between two of
  them is stamped no later than the end of the first (`Repeats.AlternatingIff`). They are the zigzag of the
  ticks exactly if the timestamp guard withholds nothing, which is to say if every leg of the zigzag ends
  later than it starts (`Zigzag.ZigzagIffUnblocked`, `Restamped.ReportsIffTimely`). Legs that are the zigzag
  alternate; legs that alternate need not be the zigzag (`LegFacts.WithheldYetAlternating`).
- The intervention latch does not imply the halt: a first wide-spread verdict whose exit fails leaves the
  loop idle with the latch set (`MainLoop.LatchOutsideKillSwitchHappens`). The guard on the latch keeps it
  safe.
- The handler of a ready entry runs even when entries are locked down; only the idle mode looks at the
  lock-down (`MainLoop.DispatchIffClear`, `MainLoop.LockdownDoesNotStopReadyEntry`).
- `atr` is absent until `period` + 1 bars exist, one more than its documentation says.
- `expectancy` is the mean trade profit, and leaves out the commission paid at entry, so the money made is
  less by one such commission per trade (`Backtest.NetOfEntryCosts`).
- The live open-interest rule forgets its first sample for the window search, so it agrees with the
  reconstruction over all samples but the first.
- The distance that chooses between the two readings of a best-five book never decides a price.
- The latest MACD sample is appended twice, so a histogram "falling" below the previous one means only
  that it is positive.
- The pullback score reaches 11, not 12, and a signal can carry the reason of a missing trigger.
- The breaker compares its error count with the threshold for equality and only a success resets it, so
  after one trip it ignores any later outage until a request succeeds
  (`MarketDataRest.LaterOutageGoesUnseen`); it trips exactly once in each stretch between successes that
  reaches the threshold (`MarketDataRest.TripsOncePerStretch`). Replies that neither succeed nor fail do not
  reset the count, so the errors need not be consecutive.

## Model

| member | source | states |
|---|---|---|
| `MaxMove.Compute` | research/market.py:25-51 | The two-deque pass returns, on time-sorted ticks, exactly the largest rise and the largest fall over every pair of ticks no further apart than the window, zero if there is none, with the latest start of the earliest end that reach it; no input makes it index an empty deque. |
| `MaxMove.Push` | research/market.py:33-38 | Appending a tick to a deque keeps it holding, for every later start of the window, the latest most extreme tick. |
| `MaxMove.Expire` | research/market.py:39-44 | When the left edge moves one tick, dropping at most the front restores the deque for the shorter window and leaves it non-empty. |
| `MaxMove.Advance` | research/market.py:39-44 | The left edge stops at a tick inside the window, and on sorted ticks everything before it is too old for good. |
| `MaxMove.Improve` | research/market.py:45-50 | Comparing only the new tick with the deque's front turns the largest move of a prefix into that of the prefix one tick longer. |
| `MaxMove.WiderIsLarger` | research/market.py:25-51 | The largest move never shrinks when the window grows. |
| `MaxMove.BoundedByRange` | research/market.py:25-51 | The largest move never exceeds the range of the series. |
| `MaxMove.LargestIsUnique` | research/market.py:25-51 | The definition admits one value and one reported pair only. |
| `SessionProfile.Compute` | research/market.py:135-155 | A session of three ticks or more gets the first highest and first lowest tick, six true window moves nested in one another and inside the range, the leg count of each threshold, and the first largest leg of each direction, whose size lies between 5 and the range. |
| `SessionProfile.Windows` | research/market.py:145-148 | The six windows are the largest moves of their widths and never shrink from one to the next. |
| `SessionProfile.WindowsNest` | research/market.py:145-148 | Of two windows the wider one's move is at least the narrower one's, and both are at most the range. |
| `SessionProfile.LegInRange` | research/market.py:151-155 | Every recorded leg moves at least the threshold and at most the range of the session. |
| `Zigzag.ZigzagIffUnblocked` | research/market.py:54-75 | For every positive threshold and every series, the machine's legs of a prefix are its declarative zigzag if and only if the timestamp guard withheld no leg that the prices called for; and then they were so after every tick. |
| `Zigzag.QuietMachineIsZigzag` | research/market.py:54-75 | They are on time-sorted ticks in which two ticks of one instant never differ by the threshold; strictly increasing timestamps are a special case. |
| `Zigzag.ZigzagIsUnique` | research/market.py:54-75 | A series has one zigzag only: the chained, alternating, confirmed swings between exact extremes determine one another. |
| `Restamped.ZigzagExists` | research/market.py:54-75 | Every series has a zigzag, whatever its timestamps: it is a matter of prices alone. |
| `Restamped.ReportsIffTimely` | research/market.py:54-75 | The legs reported for a prefix are its zigzag exactly if every leg of that zigzag ends later than it starts, and exactly then the guard has withheld nothing. |
| `Zigzag.StepRunning` | research/market.py:61-74 | One tick after the first leg: the zigzag and the machine's memory are kept exactly when the guard does not withhold. |
| `Zigzag.StepFirst` | research/market.py:60-74 | The same for a tick before the first leg, which may go either way. |
| `Zigzag.QuietIsUnblocked` | research/market.py:66-71 | In quiet sorted ticks the guard on timestamps never withholds a leg. |
| `Legs.Compute` | research/market.py:54-92 | The loop over pivot, high and low reports the record of each swing of the machine, in order, on any input; what a record then says is `LegFacts.RecordsAreExact`. |
| `LegFacts.RecordsAreExact` | research/market.py:78-92 | On any ticks at all, the first leg and unsorted stamps included: the adverse (favourable) excursion of a record is the least (largest) signed move from the leg's start over all ticks stamped inside it, its high and low are their highest and lowest price, each is attained, and its duration is end minus start. |
| `LegFacts.AnyTicksAreSound` | research/market.py:54-75 | On any ticks at all, sorted or not: legs chain end to start, each moves at least the threshold, and each is confirmed by a later tick that takes the threshold back. |
| `LegFacts.SameInstantBreaksAlternation` | research/market.py:66-75 | A series with two ticks of one instant on which two rising legs follow one another. |
| `LegFacts.WithheldYetAlternating` | research/market.py:66-75 | A series on which the guard withholds a leg, so that the legs are not the zigzag, and on which they alternate all the same. |
| `Repeats.SameWayIff` | research/market.py:61-74 | On any ticks, sorted or not, two legs in a row go the same way exactly if the counter-extreme between them (the first furthest tick against the first leg, from its confirmation to the end of the second) is stamped no later than the end of the first. |
| `Repeats.AlternatingIff` | research/market.py:54-75 | So the legs of a series alternate exactly if no such counter-extreme is stale. |
| `Repeats.SameWayNeedsWithheld` | research/market.py:61-74 | On any ticks, sorted or not, two legs in a row go the same way only if the guard withheld a leg between their declarations. |
| `Repeats.PendingStep` | research/market.py:61-74 | One tick on any ticks: a candidate extreme is still the first furthest since the last declaration and unretraced, and a declared leg is followed by a running counter-swing, whatever was withheld before. |
| `LegFacts.ReportedLegsAreZigzag` | research/market.py:54-92 | On quiet sorted ticks the returned list itself is a zigzag: records chain, alternate, move at least the threshold, and every one after the first leads from one exact extreme of all ticks stamped inside it to the other. |
| `LegFacts.LegIsExact` | research/market.py:78-92 | Every record after the first spans exactly from its lowest to its highest price with no adverse excursion; the first one's adverse excursion is below the threshold; the favourable excursion is the whole move. |
| `LegFacts.InsideLeg` | research/market.py:78-92 | Every tick stamped inside a leg lies between its ends; before the start of the first leg's price by less than the threshold. |
| `LegFacts.LegsAreOnline` | research/market.py:54-92 | The legs of a prefix are a prefix of the legs of the series, records included. |
| `LegFacts.RunOnPrefix` | research/market.py:61-74 | The machine on a prefix is the machine on the series after as many ticks. |
| `LegFacts.SwingsOnlyGrow` | research/market.py:61-74 | A declared swing is never revised. |
| `LegFacts.RecordIsFinal` | research/market.py:78-92 | The record of a confirmed leg, computed from the prefix at its confirmation, is the one computed from the whole series. |
| `MainLoop.StepIsSafe` | core/main.py:532-882 | One iteration keeps: an open position means the in-trade mode or the intervention latch, and the in-trade mode means an open position. |
| `MainLoop.StepKeepsLedger` | core/main.py:209-238 | One iteration keeps: every opened order but the open one is booked exactly once and in order, the day's profit is the start plus the booked profits, and trades, wins, losses and the losing streak are those of the bookings. |
| `MainLoop.RunIsSafe` | core/main.py:532-882 | Both hold after any run from any state in which they hold. |
| `MainLoop.StartIsSafe` | core/main.py:382-401 | Both hold at start-up, and finding orphaned positions keeps both. |
| `MainLoop.DispatchIffClear` | core/main.py:649-864 | A handler runs in exactly the iterations whose guards see neither latch, no kill verdict, and, coming out of a halt or idle, no stop and no entry lock-down. |
| `MainLoop.OpensIff` | core/main.py:836-855 | A position opens in exactly the iterations in which the entry handler is dispatched and places an order, and never beside another one. |
| `MainLoop.BooksIff` | core/main.py:209-238 | A position is booked exactly when an exit that was asked for (start of an outage, stale feed, stop, kill verdict, exit rule) is confirmed, for the confirmed amount, and only then is it gone. |
| `MainLoop.BookingsAreConfirmed` | core/main.py:532-882 | Over any run, every booking in the log stems from an iteration of its own that met that position open, asked for its exit and had it confirmed for that amount. |
| `MainLoop.LockdownDoesNotStopReadyEntry` | core/main.py:836-855 | A signal and then the same tick with entries locked down: the position opens, while the idle mode would have waited. |
| `MainLoop.StepLogs` | core/main.py:532-882 | What one iteration does to position and log, in terms of the two conditions alone. |
| `MainLoop.StepCounts` | core/main.py:230-231 | The day's profit and counters move by exactly one confirmed booking. |
| `MainLoop.OpenPositionIsManaged` | core/main.py:857-861 | An open position without the latch is handed to the in-trade handler whenever no stop and no kill verdict intervenes. |
| `MainLoop.StopCloses` | core/main.py:708-715 | An operator's stop halts the loop and closes the position, or keeps it under the latch if the exit is not confirmed. |
| `MainLoop.NothingOpensWhileStopped` | core/main.py:708-715 | Over any run during which the stop flag is seen set, no position opens. |
| `MainLoop.OrphanStartStaysHalted` | core/main.py:382-401 | A run that starts with orphaned positions stays halted and latched for ever, opening and booking nothing. |
| `MainLoop.LeavesKillSwitchIff` | core/main.py:566-774 | The halt is left in exactly three ways: a confirmed exit at the start of an outage, a repeated wide-spread verdict, and a passed kill check without a stop. |
| `MainLoop.LatchClearsIff` | core/main.py:569-657 | The latch is cleared in exactly two ways: a confirmed exit at the start of an outage, or one on a stale feed. |
| `MainLoop.LatchOutsideKillSwitchIff` | core/main.py:717-764 | The latch can be left set outside the halt only by a first wide-spread verdict whose exit is not confirmed, and is by every such one. |
| `MainLoop.LatchOutsideKillSwitchHappens` | core/main.py:738-764 | A run in which that happens: the claim that the latch implies the halt is false. |
| `MainLoop.KillVerdictHalts` | core/main.py:717-764 | Every kill verdict halts the loop, but for a wide spread met while halted already, which sends it back to idle. |
| `MainLoop.HaltsIff` | core/main.py:566-774 | The loop is halted after an iteration exactly if an exit was refused, the feed went stale, the operator stopped it, a verdict halted it, or it was halted and nothing let it go. |
| `MainLoop.CoolsIff` | core/main.py:566-882 | It cools down exactly after a confirmed exit, after an entry that came to nothing, and until the cooldown handler says otherwise. |
| `MainLoop.ReadyIff` | core/main.py:766-864 | It is ready to enter exactly after a signal seen in idle, or out of a halt this tick lifts, with entries allowed; and until the next clear tick. |
| `MainLoop.TradesIff` | core/main.py:836-864 | It is in a trade exactly after an order, and until the exit rule, a guard or an outage speaks; with the three rows above, the mode after any iteration. |
| `MainLoop.LatchIff` | core/main.py:209-238 | The latch is set exactly by a refused exit, and stays until a booking. |
| `MainLoop.KillsCount` | core/main.py:640-764 | A kill is counted, once, for a refused exit, and for a verdict or a stale feed that halts a loop not halted before; never for the operator's stop. |
| `MainLoop.BackoffIs` | core/main.py:571-606 | The sleep after each retry: five seconds at the start of an outage and, on a sign of life, at every third retry, then doubled up to a minute, and afresh after ten. |
| `MainLoop.OutageBacksOff` | core/main.py:571-606 | So through an outage without a sign of life the sleeps are 5, 10, 20, 40 and then 60 seconds. |
| `MainLoop.TradingLoop.constructor` | core/engines/state_machine.py:266-273 | A fresh loop is safe and its ledger empty. |
| `MainLoop.TradingLoop.UpdatePnl` | core/engines/state_machine.py:490-529 | Accounting of one booking: profit, wins or losses, the losing streak, the trade count and the ledger entry. |
| `MainLoop.TradingLoop.BeginRetry` | core/main.py:571-585 | The retry is counted, and the start of an outage tries to close the position. |
| `MainLoop.TradingLoop.CloseCurrentTrade` | core/main.py:209-238 | The state after an exit attempt, confirmed or not; true exactly if no position is left. |
| `MainLoop.TradingLoop.TripKillSwitch` | core/main.py:640-644 | Halting counts a kill only when not halted already. |
| `MainLoop.TradingLoop.NetworkDown` | core/main.py:569-606 | The state after an iteration without a tick; the sleep is between 5 and 60 seconds. |
| `MainLoop.TradingLoop.KillVerdict` | core/main.py:717-764 | The state after each kind of kill verdict, whose mode `MainLoop.KillVerdictHalts` names. |
| `MainLoop.TradingLoop.RunHandler` | core/main.py:766-864 | Recovery from a halt and the dispatch to one handler. |
| `MainLoop.TradingLoop.Iterate` | core/main.py:532-882 | The loop body over mutable state does exactly what the step relation says, and keeps it safe. |
| `Candles.Build` | research/candles.py:26-53 | The loop that grows and updates the last bar returns the bars that `CandleClock.BuiltOnClock` describes, for any ticks, any width and any instant. |
| `CandleClock.BuiltOnClock` | research/candles.py:26-51 | On any ticks in any order: the bars cut the ticks an observer may see into runs; every tick of bar k lies in the k-th width after midnight of the first tick's day; each bar's prices, stamps and count are exact for its run; neighbours have different k; and the last bar, and no other, is partial exactly if an instant was given. |
| `CandleClock.SortedBuiltOnClock` | research/candles.py:20-51 | On a time-sorted series the observer's ticks are those up to the instant, and bar k holds exactly those of them stamped from midnight plus k widths until one width later. |
| `CandleClock.BucketIsStretch` | research/candles.py:34-36 | A tick is in bucket k exactly if it lies from k widths after midnight until k + 1, seconds before midnight being cut off upwards. |
| `CandleClock.AsOfOne` | research/candles.py:20-23 | A tick passes the observer's filter exactly if it is not later than the instant and not older than the lookback. |
| `Candles.AsOfAppend` | research/candles.py:20-23 | The filter looks at each tick by itself and keeps their order. |
| `BarShape.BuildDecorated` | research/candles.py:26-67 | The bars are returned each with its shape fields, which on a time-sorted series are sound. |
| `BarShape.BarsAreSane` | research/candles.py:35-48 | In every bar of a time-sorted series open and close lie between low and high. |
| `BarShape.ShapeIsSound` | research/candles.py:56-67 | Of such a bar, wicks and body make up the range, both shares lie in 0..1 and are missing exactly without range, and the velocity is zero exactly if it closes where it opened. |
| `BarShape.ShapeMeans` | research/candles.py:56-67 | On any bar: rising means closed above the open, each wick reaches from the body to its extreme, the shares times the range are body and height of the close, and velocity times minutes is the body. |
| `Candles.BarsAreExact` | research/candles.py:35-48 | On any ticks: the bars partition the ticks in order, their counts sum to the number of ticks, and each bar's first, highest, lowest, last price, bucket and stamps are those of its part. |
| `Candles.SortedBarsAreWhole` | research/candles.py:35-48 | On sorted ticks no bucket is split: each tick of a bar's bucket lies in that bar. |
| `Candles.LaterTicksCannotLeak` | research/candles.py:20-53 | Ticks after the instant, wherever they stand in the series, change no bar. |
| `Candles.ObserverSawEarlierView` | research/candles.py:20-53 | On sorted ticks the bars of an instant are those of the whole series but for the last, which has the same bucket and open, a nested high and low and no larger count. |
| `Candles.BarsOnlyGrow` | research/candles.py:35-48 | The same between any two prefixes of any series. |
| `Timeframes.RollUpBars` | research/candles.py:35-48 | Rolling the bars up by a factor gives the coarser bars of the same ticks, sorted or not. |
| `Timeframes.TimeframesAgree` | research/candles.py:26-53 | Rolling up what `build` returns for a seconds by a factor m gives what it returns for a*m seconds, with and without an instant. |
| `Timeframes.FrameOf` | research/candles.py:16-94 | The first timeframe of a frame is the ten-second bars, and each other one the roll-up of the one before: 30s, 1m, 5m. |
| `Timeframes.RollUpAdd` | research/candles.py:35-48 | Adding a tick and rolling up commute. |
| `Timeframes.DivDiv` | research/candles.py:36 | Bucketing twice is bucketing once by the product. |
| `AverageTrueRange.Atr` | research/candles.py:70-81 | An average exists from index `period` on and is the mean of the last `period` true ranges. |
| `AverageTrueRange.WindowMean` | research/candles.py:78-80 | One window: the first bar's missing range delays the average by one bar more than documented. |
| `AverageTrueRange.TrueRanges` | research/candles.py:73-76 | Every bar but the first gets its true range against the close before it. |
| `AverageTrueRange.TrueRangeSpans` | research/candles.py:73-76 | The true range is the distance from the lowest to the highest of the bar and the close before it. |
| `AverageTrueRange.RangesAddUp` | research/candles.py:77-80 | The sum behind an average counts each bar of its window once. |
| `AverageTrueRange.ZeroAtrIsFlat` | research/candles.py:70-81 | An average of zero means exactly that the price stood still: no other input produces the silent zero. |
| `Replay.TickRsi` | research/replay.py:51-66 | Over the last fourteen changes with total movement T the value times T is 50 times T plus the net change; without movement it is 50, with fewer prices there is none; and it is always in 0..100. |
| `Replay.RisesAndFalls` | research/replay.py:56-62 | Rises less falls are the net change, and together they are the total movement. |
| `ReplayRules.StrengthAt` | research/replay.py:97 | From the fifteenth tick on the indicator at a tick is the strength of the last fourteen changes; before it there is none. |
| `Replay.Run` | research/replay.py:69-115 | One pass leaves at the least tick after the entry at which any rule holds, with the most urgent rule that holds there, the exact extremes (zero included) of the ticks held, and the fill, points and profit of leaving at that price. |
| `ReplayRules.LeavesAtFirst` | research/replay.py:82-115 | A position is left at the first tick after the entry at which price, age, strength or reversal asks for it, each written out in prices, times and readings, and at the last tick if none does. |
| `ReplayRules.ReasonMeans` | research/replay.py:82-112 | Which of the seven reasons is recorded, as an if-and-only-if for each in prices, times and readings, more urgent ones first. |
| `ReplayRules.RecordMeans` | research/replay.py:24-80 | The fill costs half of the larger of five paise and the spread in percent, points and profit of 65 units follow from it, and the two excursions are the largest gain and loss held, zero included. |
| `ReplayRules.NoDataMeans` | research/replay.py:113-114 | Without ticks the entry price is taken and only the spread is lost. |
| `ReplayRules.MaxRsiAbove` | research/replay.py:72-98 | The running maximum exceeds a level exactly if some held tick so far was stronger, or the level is negative. |
| `ReplayRules.MinRsiBelow` | research/replay.py:72-99 | The running minimum is below a level exactly if some held tick so far was weaker, or the level is above 100. |
| `ReplayFacts.OutcomeIsUnique` | research/replay.py:69-115 | That description determines the outcome in every field. |
| `ReplayFacts.HeldTicksAreInside` | research/replay.py:82-112 | Every held tick before the exit lies strictly between stop and target, above the early and soft cuts while they apply, and within the holding time. |
| `ReplayFacts.ExitIsPaidFor` | research/replay.py:24-80 | Every exit pays at least two and a half paise a unit for the spread, so a stop loses more than its distance. |
| `ReplayFacts.FutureDoesNotMatter` | research/replay.py:69-115 | Changing any ticks after an exit that a rule made changes nothing about it. |
| `ReplayFacts.TighterFires` | research/replay.py:82-112 | If each threshold of one ladder is at least as tight, it fires wherever the other does. |
| `ReplayFacts.TighterLeavesNoLater` | research/replay.py:69-115 | Then on the same ticks it never leaves later, and holds no larger excursions, for every entry and direction. |
| `Drawdown.OfPnls` | research/replay.py:127-131 | The running peak and fall give the largest fall from an earlier to a later point of the cumulative curve that starts at zero. |
| `Drawdown.Extend` | core/backtest.py:398-404 | Adding one point to a curve moves its peak and its largest fall by the running update. |
| `Backtest.Backtester.constructor` | core/backtest.py:79-145 | A new backtester has booked nothing and paid nothing. |
| `Backtest.Backtester.EnterTrade` | core/backtest.py:285-352 | An entry pays half the round trip and counts against the day; a size of zero or less is no entry. |
| `Backtest.Backtester.ExitTrade` | core/backtest.py:354-417 | An exit books one trade at the slipped price, and capital, curve, peak and drawdown stay consistent with everything booked. |
| `Backtest.Backtester.ProcessCandle` | core/backtest.py:242-283 | One candle over the mutable state opens and closes as `BacktestFacts.OpensAndClosesIff` says, keeps money conserved, and keeps the daily cap if days do not run backwards. |
| `BacktestFacts.OpensAndClosesIff` | core/backtest.py:242-283 | A candle opens a position exactly if none is open, the entries of its day are below the cap, it signals and the sizer allows a size; it closes one exactly if one is open and an exit is due; both at the stated prices. |
| `BacktestFacts.SlipIsAgainstTheTrader` | core/backtest.py:153-167 | A quarter of a rupee and the percentage go against the trader: a purchase fills above the price, a sale below it. |
| `BacktestFacts.DayIs` | core/backtest.py:256-258 | A day is the stretch from midnight to midnight. |
| `Backtest.Backtester.Replay` | core/backtest.py:445-476 | All candles in order. |
| `Backtest.Backtester.RunBacktest` | core/backtest.py:419-492 | A whole run: nothing is left open, every entry is closed, the reported drawdown is the largest fall of the curve from the initial capital on, the summary is exact, and no day exceeds the cap. |
| `BacktestFacts.RunIsExplained` | core/backtest.py:445-469 | Over any run the trades and the open position come from alternating entry and exit candles: an entry is the first candle of a flat stretch that signals, is allowed a size and is below the cap of its day, an exit the first later one at which an exit is due. |
| `BacktestFacts.AccountIsUnique` | core/backtest.py:445-469 | The candles determine that account: trades and open position that fit them are unique. |
| `BacktestFacts.WholeRunIsExplained` | core/backtest.py:445-476 | At the end of the data an open position is sold at the last candle, and nothing else is added. |
| `BacktestFacts.EveryTradeHasItsCandles` | core/backtest.py:242-283 | Every trade was bought at a candle that signals and sold at a later one at which an exit is due, with none due between, or at the last candle. |
| `BacktestFacts.NoSignalNoTrade` | core/backtest.py:272-281 | Candles that never signal make no trades. |
| `Backtest.Backtester.CalculateResults` | core/backtest.py:494-558 | Counts, rate, averages, ratio and expectancy are those of the closed trades; the drawdown in percent is its share of the highest equity; the money made is the expectancy less one entry commission, times the trades. |
| `BacktestFacts.WinsIs` | core/backtest.py:496-500 | The winners counted are the trades with a positive profit. |
| `BacktestFacts.SharesAre` | core/backtest.py:496-500 | Every profit counts once, for the winners if it is positive and for the losers if it is negative. |
| `Backtest.ExpectancyIsMean` | core/backtest.py:502-508 | The formula over rate and averages is the mean profit of a trade. |
| `Backtest.PositionsNeverOverlap` | core/backtest.py:242-283 | Over any run on candles in order, every trade begins no earlier than the one before ended. |
| `Backtest.PacedNext` | core/backtest.py:258-281 | The cap on entries of a day is kept by one candle. |
| `BacktestFacts.CountIs` | core/backtest.py:258-271 | The daily count is the number of entries on that day. |
| `Backtest.BookOne` | core/backtest.py:368-408 | Booking one more trade keeps the numbering, the profit of each trade and the curve. |
| `Backtest.Tally` | core/backtest.py:496-500 | Winners and the rest, and what each brought, from one pass. |
| `Backtest.WonAndLost` | core/backtest.py:496-500 | What was won and what was lost is what was made. |
| `OpenInterest.Tracker.UpdateOiData` | strategies/smart_scalp_v3.py:258-322 | One tick of the stateful rule: the new memory, the percentage and the label. |
| `OpenInterestFacts.LiveLabelMeans` | strategies/smart_scalp_v3.py:258-322 | The live label of every sample, without the state: open interest more than one percent above or below the base's and the price's direction against it decide; the base is the sample before, or the latest one a window older among the last 4000 but the very first, or the oldest of those. |
| `OpenInterestFacts.RowLabelMeans` | research/depth.py:296-308 | The same of a recorded row, searching the whole recording. |
| `OpenInterestFacts.LabelMeans` | strategies/smart_scalp_v3.py:305-318 | A label is given exactly if its condition on one percent and on the price holds. |
| `OpenInterestFacts.BaseIs` | strategies/smart_scalp_v3.py:293-302 | The base is the latest sample at or before the cutoff, and the first if there is none. |
| `OpenInterestFacts.MemoryMeans` | strategies/smart_scalp_v3.py:277-322 | The remembered change is in percent of that base, and the open interest before the last is remembered too. |
| `OpenInterest.OiProfile` | research/depth.py:279-310 | The profile counts rows, distinct values, changes, and for every label how many rows the reconstruction gives it. |
| `OpenInterestFacts.WithOiAppend` | research/depth.py:284-289 | The samples with open interest are taken one by one, in order. |
| `OpenInterestFacts.StepsIs` | research/depth.py:290-309 | The steps are the rows whose open interest differs from the next. |
| `OpenInterestFacts.CountOfIs` | research/depth.py:296-309 | A label's count is the number of rows that have it. |
| `OpenInterest.LabelRow` | research/depth.py:296-308 | One row's label against the row before or the latest row a window ago. |
| `OpenInterest.FindBase` | strategies/smart_scalp_v3.py:293-302 | The scan finds the last sample at or before the cutoff, or falls back to the first. |
| `OpenInterestFacts.OnlyOiCounts` | strategies/smart_scalp_v3.py:271-275 | Ticks without open interest leave no trace in the live rule, as in the reconstruction. |
| `OpenInterestFacts.MemoryIs` | strategies/smart_scalp_v3.py:258-322 | After any run the live rule remembers the last sample and, with a window, all samples but the first, cut to the deque's capacity. |
| `OpenInterestFacts.LiveLabelIs` | strategies/smart_scalp_v3.py:258-322 | Each live label is the label against a sample named without reference to the state. |
| `OpenInterestFacts.NoWindowAgrees` | research/depth.py:242-253 | Without a window the live label of every sample from the second on is the reconstructed one. |
| `OpenInterestFacts.EmittedAre` | strategies/smart_scalp_v3.py:258-322 | Over raw ticks the live rule emits, for each tick with open interest but the first, the label of that sample among those with open interest. |
| `OpenInterestFacts.ProfileCountsLiveLabels` | research/depth.py:279-310 | Without a window, each label's count in a session's profile is how often the live rule emitted it over the raw ticks. |
| `OpenInterestFacts.DiscriminatesIff` | research/depth.py:273-276 | A profile discriminates exactly if what the live rule emitted was not always the same. |
| `OpenInterestFacts.WindowAgreesIff` | research/depth.py:300-303 | With a window, live rule and reconstruction over all samples but the first use the same base exactly if at most 4000 samples precede or one still stored is old enough. |
| `OpenInterestFacts.WindowAgrees` | research/depth.py:300-308 | In those cases the labels are equal. |
| `OpenInterestFacts.WindowRunAgrees` | research/depth.py:279-310 | Over a whole session of at most 4000 stored samples, what the live rule emits from the third sample on is the reconstruction over all samples but the first. |
| `OpenInterestFacts.WholeRecordingAgreesIff` | research/depth.py:300-303 | Against the whole recording they use the same base exactly if some stored sample is old enough. |
| `OpenInterestFacts.FirstSampleIsForgotten` | strategies/smart_scalp_v3.py:277-282 | Two samples on which the live rule says neutral and the reconstruction a long buildup, because the first sample never enters the history. |
| `Bytes.Int64RoundTrip` | brokers/angel_one/message_parser.py:117-119 | A signed 64-bit integer written in little-endian order reads back. |
| `Bytes.WordInBlock` | brokers/angel_one/message_parser.py:117-161 | The word at an offset of a packet is the one written there. |
| `Best5.Parse` | brokers/angel_one/message_parser.py:18-90 | The loops over ten records and two assignments return the book of the two sides, or nothing below 200 bytes. |
| `Best5.BothUncrossedMeansFlat` | brokers/angel_one/message_parser.py:50-58 | Both assignments form a book only when all prices coincide, so the distance that breaks ties never decides a price. |
| `Best5.BookSeparates` | brokers/angel_one/message_parser.py:50-83 | A book is returned exactly if both sides quote, one assignment is uncrossed and the bounds hold; it separates the sides and meets the 10% and 5% bounds. |
| `Best5.BookIff` | brokers/angel_one/message_parser.py:50-90 | There is a book exactly if some pair of quotes separates the two sides, one way or the other, uncrossed, with a spread of at most 10% and a middle within 5% of the last price; it is such a pair, and records with flag zero are the bids if they can be. |
| `Best5.QuotesOf` | brokers/angel_one/message_parser.py:35-48 | A side's quotes are those of its records with positive price and quantity. |
| `Best5.HighestIsFirst` | brokers/angel_one/message_parser.py:53-58 | The best bid is the first quote with the highest price. |
| `Best5.LowestIsFirst` | brokers/angel_one/message_parser.py:53-58 | The best ask is the first quote with the lowest price. |
| `Best5.FlagConventionDoesNotMatter` | brokers/angel_one/message_parser.py:21-60 | Inverting the flag of all ten records changes neither price, nor whether there is a book. |
| `MessageParser.ParseWsBinary` | brokers/angel_one/message_parser.py:92-163 | Fields are read exactly where the length and the mode allow, never past the end. |
| `MessageParser.RoundTrip` | brokers/angel_one/message_parser.py:92-163 | A packet written at the documented offsets from the sender's own token, integers and ten depth levels parses back, with the book of those levels, whatever bytes follow it, exactly unless those are long enough to pass for a section it lacks. |
| `MessageParser.AnyBlockRoundTrip` | brokers/angel_one/message_parser.py:92-163 | The same around any 200 bytes of depth, with the book that those bytes hold. |
| `DepthBlock.LevelInBlock` | brokers/angel_one/message_parser.py:21-42 | Flag, quantity and price of each record, written at their offsets, read back. |
| `DepthBlock.SideOfBlock` | brokers/angel_one/message_parser.py:35-48 | Each side the parser collects from a written block is the sender's own filled levels of that side, in order. |
| `RelativeStrength.IndexIsShare` | strategies/market_context.py:60-64 | The index is in 0..100 and is the gains' share of all movement. |
| `Indicators.Ema` | strategies/market_context.py:21-32 | The loop computes the recursive average; with too few prices the last one, or zero. |
| `Indicators.EmaStaysInside` | strategies/market_context.py:21-32 | The average lies between any bounds on its prices. |
| `Indicators.EmaRecurrence` | strategies/market_context.py:29-32 | One more price moves the average by one smoothing step. |
| `Indicators.EmaMeans` | strategies/market_context.py:21-32 | The average of just enough prices is their mean, and each further price moves it by two parts in period + 1 of the gap. |
| `Indicators.SumIs` | strategies/market_context.py:27-28 | The seed counts every price once. |
| `Indicators.Rsi` | strategies/market_context.py:35-64 | The smoothed index is in 0..100, 50 while prices are few, and the gains' share of the smoothed movement otherwise. |
| `Indicators.MovesAre` | strategies/market_context.py:42-50 | The rise less the fall of a change is the change, and together they are its size. |
| `Indicators.TotalMovesAre` | strategies/market_context.py:42-50 | So over any stretch rises less falls are the net change. |
| `Indicators.AveragesAre` | strategies/market_context.py:51-59 | The averages start at the mean of the first changes and each further one moves them by one part in period of the gap. |
| `Indicators.AppendedTwice` | strategies/market_context.py:173-182 | Appending the last sample a second time makes the histogram (p-1)/(p+1) of the one called previous. |
| `Indicators.ComputeMacd` | strategies/market_context.py:155-189 | So for every input the exhaustion test of the signal generator, falling below the previous histogram, just means a positive histogram. |
| `Indicators.HistoryIs` | strategies/market_context.py:162-172 | The signal line's samples: at most three signal periods, as many as there are prices past the slow period, each the difference of the averages of the prices up to its own. |
| `Transmission.CollectPairs` | research/transmission.py:21-36 | On sorted ticks the two pointers find, for any horizon, exactly the pairs of the quadratic search for the first tick a horizon later. |
| `Transmission.PairMeans` | research/transmission.py:25-36 | A pair is the change of spot and of the option from a tick to the first one a horizon later, left out when spot is unknown at either end or did not change. |
| `Transmission.TrackingIsMeasured` | research/transmission.py:39-46 | An option that moves exactly k times the spot is measured to do so, and entirely explained. |
| `Transmission.FitIsLeastSquares` | research/transmission.py:39-42 | Any slope is worse than the fitted one by the square of its distance times the spread. |
| `Transmission.Regress` | research/transmission.py:19-47 | With enough pairs no slope has a smaller squared error, and the explained share is in 0..1; an option that moves exactly k times the spot gets slope k and, unless k is zero, an explained share of one; with too few pairs there is no fit. |
| `Pullback.Evaluate` | strategies/pullback_strategy.py:21-232 | For every market the bullish block is the rating and the bearish block is the same rating of the market reflected in its short average, strength in 45 and open-interest label reversed. |
| `PullbackFacts.RatedMeans` | strategies/pullback_strategy.py:44-188 | Both blocks of any market in their own prices and thresholds: trend, the half-percent touch, each factor in its order, each point, each confirmation, the signal and the reason. |
| `PullbackFacts.RiseMeans` | strategies/pullback_strategy.py:51-111 | The bullish block in its own prices and thresholds. |
| `Pullback.ScoreCe` | strategies/pullback_strategy.py:44-111 | The bullish block lists the factors that hold, scores their worth and one unlisted point for strong momentum, and signals at the threshold. |
| `Pullback.ScorePe` | strategies/pullback_strategy.py:113-179 | The bearish block is the bullish one in the mirror, condition by condition and point by point. |
| `Pullback.FactorTotal` | strategies/pullback_strategy.py:55-106 | The listed factors' worth is two each for trend and trigger and one for each other. |
| `Pullback.DirectionsSwap` | strategies/pullback_strategy.py:21-232 | Reflecting the market exchanges the two results. |
| `Pullback.DirectionsExclude` | strategies/pullback_strategy.py:51-120 | The two trends exclude one another, and no signal comes without its trend. |
| `Pullback.ScoreBounds` | strategies/pullback_strategy.py:44-111 | A score is 0 exactly without trend, at most 11, and at most 9 without the trigger. |
| `Pullback.ReachableScores` | strategies/pullback_strategy.py:44-111 | Some market signals exactly for thresholds up to 11 (the comment says 12), and some market signals with a recorded missing trigger exactly for thresholds up to 9. |
| `Pullback.SignalMeans` | strategies/pullback_strategy.py:181-188 | The recorded reason is empty exactly for a signal with its trigger; a missing trigger is recorded even beside a signal. |
| `Selector.AsCandidates` | strategies/pullback_strategy.py:235-275 | The candidates are the directions whose trend held, rising first. |
| `Selector.CandidateCarries` | strategies/pullback_strategy.py:256-274 | A candidate is there exactly if its direction's trend held, and carries what the rating says of it. |
| `Selector.SelectsTheOnlyOne` | strategies/selector.py:24-57 | For any list, the selector raises exactly if two candidates passed, returns nothing exactly if none did, and otherwise the one that did. |
| `Selector.SelectorsAgreeIff` | strategies/selector.py:24-77 | On any coherent rating the selector raises exactly if both directions signal, and otherwise names the same direction as the simpler one. |
| `Selector.SelectorNeverRaises` | strategies/selector.py:45-77 | On the rating of any market it never raises. |
| `SignalDecision.Decide` | strategies/smart_scalp_v3.py:667-930 | From any rating: both directions end with a verdict; a direction is recorded as passed exactly if it is returned; the rising side is attributed to its first failed stage, and the falling side is exactly unless both survive the weighted score; the closing pass never blames the trigger of a direction whose trigger held. |
| `SignalDecision.Screen` | strategies/smart_scalp_v3.py:700-830 | Weighted score and exhaustion of both directions, and what the record then holds. |
| `SignalDecision.Resolve` | strategies/smart_scalp_v3.py:832-918 | Only the leading direction is settled; its outcome is the call's. |
| `SignalDecision.Finalize` | strategies/smart_scalp_v3.py:673-688 | The closing pass fills exactly the records without a verdict. |
| `SignalDecision.GenerateSignal` | strategies/smart_scalp_v3.py:629-930 | On any market each record is the one its direction would get by itself, and the call returns the direction that fails nowhere. |
| `PullbackFacts.FirstFailureMeans` | strategies/smart_scalp_v3.py:700-918 | Which stage a direction fails first, as an if-and-only-if for each in the readings: no signal, weighted score, exhaustion by engine or by strength and histogram, confidence. |
| `PullbackFacts.RecordIs` | strategies/smart_scalp_v3.py:667-918 | A record is right exactly if it is the one of five that belongs to how far its direction got. |
| `SignalDecision.SettledIsRight` | strategies/smart_scalp_v3.py:832-918 | A settled record names the first failure and holds an entry for each stage up to it. |
| `SignalDecision.ScreenedIsRightIff` | strategies/smart_scalp_v3.py:680-688 | A record closed without being settled is right exactly for a direction that does not survive the weighted score. |
| `RateLimit.WindowBound` | brokers/angel_one/market_data_rest.py:47-58 | Spaced calls put at most the ceiling of length times limit into any half-open interval. |
| `RateLimit.SecondBound` | brokers/angel_one/market_data_rest.py:18-58 | In particular at most the limit into any second. |
| `RateLimit.LimitTable` | brokers/angel_one/market_data_rest.py:18-33 | The calls a second of every endpoint. |
| `RateLimit.WithinCountsCalls` | brokers/angel_one/market_data_rest.py:47-58 | The times counted in an interval are those of the endpoint's recorded calls in it. |
| `RateLimit.CeilIsLeast` | brokers/angel_one/market_data_rest.py:47-58 | The ceiling of the bound is the least integer not below. |
| `RateLimit.WindowReach` | brokers/angel_one/market_data_rest.py:47-58 | The calls of a window reach back from the latest one in steps of at least one interval. |
| `MarketDataRest.Client.Pace` | brokers/angel_one/market_data_rest.py:47-58 | A call is recorded at the later of the clock and one interval after its endpoint's previous one; all endpoints stay spaced. |
| `MarketDataRest.Client.Serve` | brokers/angel_one/market_data_rest.py:47-58 | After any sequence of calls to any endpoints, under any clock that does not run backwards, every interval keeps the bound for every limited endpoint. |
| `MarketDataRest.Client.GetLtp` | brokers/angel_one/market_data_rest.py:64-132 | One request: nothing while the breaker is open, one paced call per attempt up to the deciding reply, waits doubling, and only a price or a network error moves the breaker. |
| `MarketDataRest.RequestMeans` | brokers/angel_one/market_data_rest.py:82-132 | What a request returns, how many calls it makes and what it tells the breaker, by its first reply that is not denied. |
| `MarketDataRest.BreakerMeans` | brokers/angel_one/market_data_rest.py:99-129 | The fifth error opens the breaker for a minute; a success clears the count and leaves an open breaker open. |
| `MarketDataRest.TripsOncePerStretch` | brokers/angel_one/market_data_rest.py:99-129 | Over any run from any state, the breaker trips exactly once in each stretch between successes whose errors reach the threshold, and not again in one that had reached it before. |
| `MarketDataRest.TripsWithoutSuccess` | brokers/angel_one/market_data_rest.py:119-129 | While no request succeeds, it trips exactly if the errors pass from below the threshold to it, and then once. |
| `MarketDataRest.OpenUntilLatestTrip` | brokers/angel_one/market_data_rest.py:77-126 | It is open until one cooldown after its latest trip, and where it was without one. |
| `MarketDataRest.NeverRearms` | brokers/angel_one/market_data_rest.py:119-129 | Past the threshold, no run without a success moves the breaker, whatever its errors and their instants. |
| `MarketDataRest.LaterOutageGoesUnseen` | brokers/angel_one/market_data_rest.py:119-129 | After a first outage that trips it, whatever follows without a success between, however late, leaves it where the first trip put it. |
| `MarketDataRest.Client.Poll` | brokers/angel_one/market_data_rest.py:64-132 | Over any sequence of requests the breaker has played the events they amount to; a request that meets it open makes no call, and every other one returns what its replies say and makes the calls they ask for. |
| `MarketDataRest.SecondOutageGoesUnseen` | brokers/angel_one/client.py:136-139 | A run with the shipped settings: five errors, a cooldown long over, five more errors, and no second trip. |

## Left out

- MaxMove.Compute: the result is exact; the two-decimal rounding of what is reported is not modelled.
- Zigzag.QuietMachineIsZigzag: states a sufficient condition on the input; the exact one, over the machine's run, is `Zigzag.ZigzagIffUnblocked`.
- Legs.Compute: duration in minutes, velocity and volatility of a leg are not modelled, nor the rounding of its move.
- SessionProfile.Compute: the rounded range and net change are differences of modelled fields.
- BarShape.ShapeIsSound: the rounding of the shape fields is not modelled.
- AverageTrueRange.Atr: stated for a period of at least one.
- Replay.Run: the rounding of fill, points and profit is not modelled; the summary statistics other than the drawdown are left out.
- Backtest.Backtester.ProcessCandle: the exit engine, the strategy and the position sizer are oracles carried by the candle, as is the resolved option price; the reported exit reason is left out.
- Backtest.Backtester.CalculateResults: the Sharpe estimate (a square root) and the dates are left out.
- OpenInterest.OiProfile: one series already merged and sorted; the library sort over several symbols is not modelled.
- OpenInterestFacts.WindowAgrees: the live rule's monotonic clock and the recorded stamps are taken to be the same instants.
- OpenInterestFacts.WindowAgreesIff: the equivalence is about the sample compared with; two different samples can still give equal labels.
- MessageParser.ParseWsBinary: the two double fields, the warning flag and the decoding of the token beyond "is it text" are not modelled.
- Transmission.Regress: the residual deviation and the two medians are left out; a minimum of at least one pair is assumed, below which the code divides by zero.
- Pullback.Evaluate: factor names are values rather than texts with numbers, and the debug log is left out.
- SignalDecision.GenerateSignal: the gates before the setup (time, premium, delta, market quality, chop) return without a record and are left out; weighted score, blocks and confidence are oracles; the reason texts are left out.
- MainLoop.TradingLoop.Iterate: the handlers' insides (session gates, sizing, order placement) are oracle replies; exceptions between booking and clearing a position, shutdown paths, and hourly counters are left out.
- MainLoop.TradingLoop.UpdatePnl: the loss counters and the cooldown of each direction, the profit in percent and the record for the mode switch are left out.
- MarketDataRest.Client.GetLtp: what the API replied is an input; the cache of the last price, other endpoints' bodies and the symbol cache are left out.
- Floating-point error, logging, Telegram, the database, files, sockets and threads.
- `coverage` of the depth recorder, other indicators, Greeks and implied volatility, reports, launch menus, sampled statistics.
