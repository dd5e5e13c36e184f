# Mezna: a verified model of the trading core

Mezna is a multi-service automated trading system. This project models the parts of it
whose correctness is hardest to see from one function body, and proves what they promise:

- **Ledger and executor.** Average-cost position accounting (`Pnl.dfy`), the transaction that
  writes the trades and positions tables (`Ledger.dfy`), deterministic order ids
  (`OrderIds.dfy`), recorded results (`Idempotency.dfy`), and the execution consumer as a step
  machine in which the process may be killed at every await and an unacknowledged message may
  come back (`Executor.dfy`, and in `LegRows.dfy` which leg each order and row belongs to). `Recorder.dfy` is the per-strategy profit, peak and drawdown the
  executor keeps.
- **Capital allocation.** Covariance, Gauss-Jordan inversion, equal risk contributions and the
  tangency portfolio (`Sums.dfy`, `GaussJordan.dfy`, `Allocation.dfy`).
- **Risk gate.** The ordered pre-trade checks and the risk consumer interleaved with the
  reconciler, the operator and the executor's own kill-switch check (`RiskGate.dfy`).
- **Backtest.** Candle alignment (`Candles.dfy`), the one-position-at-a-time machine of both
  simulations (`Signals.dfy`), statistical and funding-rate arbitrage (`Backtest.dfy`,
  `FundingArb.dfy`), drawdown and metrics (`Drawdown.dfy`, `Metrics.dfy`), the z-score and the unit
  of price (`ZScores.dfy`), walk-forward analysis (`WalkForward.dfy`).
- **Market data, documents, gateway.** Tick resampling and the bar writer (`Bars.dfy`,
  `BarWriter.dfy`), the text chunker and the section splitter (`Text.dfy`, `Chunker.dfy`,
  `Documents.dfy`, `Sections.dfy`), the fixed-window rate limiter (`RateLimit.dfy`).

`Decimals.dfy`, `Integers.dfy`, `Sorting.dfy` and `Options.dfy` hold what several of these share.

Prices, quantities and money are exact reals; where the code rounds, the model rounds the same
way (half to even, at the same number of decimals). Code that updates state step by step is a
method or a class here, proved against a function or a declarative predicate; statements about
runs are lemmas over all sequences of events.

## Where the code and its documentation differ

The model follows the code. Each difference below is a lemma.

- `shared/mezna_shared/allocation.py:52` says the inverse is None if the matrix is singular. A
  singular matrix does yield None (`GaussJordan.SingularYieldsNone`), but so does the invertible
  matrix [[1e-13]] (`GaussJordan.InvertibleTurnedAway`). None comes exactly when all candidate
  pivots of some column are below 1e-12 (`GaussJordan.NoneIffStuck`); then a vector with a unit
  entry is mapped below 1e-12 (`GaussJordan.NoneHasNearKernel`), so a matrix whose inverse has no
  entry above 1e12 / n is always inverted (`GaussJordan.ModerateInverseIsFound`).
- `services/journal/app/queries.py:923-924` says the positions' realized P&L sums to that of the
  trades. Each side is rounded on its own; they part when a fill realizes an exact tie on an odd
  stored total (`Ledger.StoredTotalStep`, `Ledger.TiesBreakTheRealizedSum`).
- `services/executor/app/consumer.py:808` says a fill must be persisted before the
  acknowledgement. That holds for the activation that submits it; a redelivery that meets a halt
  or finds no tick acknowledges the message without persisting the recorded fill
  (`Executor.ReplayCanDropFill`). When an activation finishes, a leg has its row exactly when this
  activation was not halted and sized the leg, or an earlier one committed it
  (`Executor.RowExistsIff`).
- `services/risk/app/consumer.py:13-16` infers from the single consumer that there are no races.
  The reconciler writes the same counter between the consumer's read and its increment; the
  increment then exceeds the limit exactly when it wrote the limit or more
  (`RiskGate.IncrementExceedsLimitIff`, with a run in `RiskGate.StraddlingWriteExceedsLimit`).
- `services/market-data/app/bar_writer.py:11-15` says that writing a complete bucket again is
  idempotent. It is not once the bounded cache has dropped some of the bucket's ticks, nor when a
  tick of the bucket reaches the cache after the flush (`BarWriter.SecondFlushKeepsRowIff`,
  `BarWriter.ReflushCanShrinkBar`, `BarWriter.LateTickRewritesBar`).
- `shared/mezna_shared/bars.py:73-75` lets `newest_first` decide ties; the parameter is unused, so
  of the ticks tied at a bar's last timestamp the one listed last closes it, which in the
  newest-first cache is the earliest arrival (`Bars.TiesOpenFirstCloseLast`). The order matters
  exactly when ticks tied at the bucket's first or last timestamp differ in price
  (`Bars.OrderFreeIff`).
- `services/backtest/app/engine.py:20-25` describes a delta-neutral funding trade. The simulated
  P&L includes the price change of the spot leg and none of the perpetual leg
  (`FundingArb.FundingGrossFollowsSpot`), and the exit is one period later only if that funding
  time has a spot candle (`FundingArb.HeldOnePeriodIff`).
- `services/rag/app/chunker.py:9-10` keeps tables intact. Their lines are, but a small fragment
  that follows is appended to the table's chunk, which stays flagged as a table
  (`Documents.TableAbsorbsIff`).
- `services/rag/app/chunker.py:22-23` sets a minimum content for a chunk to be stored. Only the first
  chunk can fall short of it, unless joining two pieces forms a page marker that the final cleaning
  removes (`Documents.OnlyFirstChunkIsShort`, `Documents.JoinCanShortenChunk`).
- `services/backtest/app/engine.py:163-175` measures drawdown from the running peak. Once the account
  is below zero a deeper fall can start from a lower point; `Drawdown.WorstIsDeepestIff` says when
  the figure is the largest fall.
- In walk-forward optimisation a look-back too long for the in-sample data scores 0 without having
  been run. Such parameters are chosen exactly when no candidate has a positive Sharpe ratio and
  the first candidate at 0 is one of them (`WalkForward.InsufficientChosenIff`).
- An order recorded in one trading mode and persisted by a redelivery in the other is booked in the
  redelivery's mode (`LegRows.RedeliveryDecidesMode`).
- An opportunity id that contains a colon can share an order id with a shorter one
  (`OrderIds.ShadowedIffEmbedsLeg` says exactly when).

## Model

| member | source | states |
|---|---|---|
| Decimals.RoundHalfEvenUnique | services/executor/app/db.py:217 | rounding is the only integer within half a unit that is even on a tie |
| Pnl.NetQuantityExact | shared/mezna_shared/pnl.py:85-123 | the new net quantity is the signed sum exactly when the fill drops no remainder below the 1e-9 threshold |
| Pnl.FillConserves | shared/mezna_shared/pnl.py:91-123 | in every branch, realized P&L less the change of carried cost (entry cost and open fees) is the fill's cash flow, clamped fee included |
| Pnl.CostFollowsQuantity | shared/mezna_shared/pnl.py:91-123 | a fill that does not oppose the position realizes nothing and adds its fee; one that reduces it keeps entry price and open fees per unit; one that flips it carries its own price and fee per unit; with the cash identity this determines the outcome |
| Pnl.FlagsMeaning | shared/mezna_shared/pnl.py:109-123 | closed exactly when an open position ends flat or on the other side, flipped exactly when on the other side |
| Pnl.GridDropsNoDust | shared/mezna_shared/pnl.py:32-33 | on 1e-8 quantities no remainder is ever dropped and the position stays on the grid |
| Pnl.RunConserves | shared/mezna_shared/pnl.py:85-123 | over any run of fills from flat: realized − net quantity × average price − open fees is the net cash, and net quantity is the signed sum |
| Pnl.FlatRunRealizesCash | shared/mezna_shared/pnl.py:23-25 | a run whose signed quantities sum to zero ends flat and has realized exactly its net cash |
| Pnl.EntryPriceWithinFillPrices | shared/mezna_shared/pnl.py:92-99 | the average price of an open position stays within any bounds that all fill prices respect; open fees are never negative |
| Pnl.SplitInTwo | shared/mezna_shared/pnl.py:85-123 | one fill and its two pieces with pro-rata fees give the same position and the same realized P&L, across partial close, exact close and flip |
| Pnl.SlicingIsInvisible | shared/mezna_shared/pnl.py:85-123 | the same for any number of pieces |
| OrderIds.DecimalInjective | shared/mezna_shared/order_ids.py:38 | different leg indices print differently |
| OrderIds.DecimalValue | shared/mezna_shared/order_ids.py:38 | the printed digits stand for the leg index |
| OrderIds.OrderIdInjective | shared/mezna_shared/order_ids.py:36-40 | for colon-free opportunity ids two legs share an id exactly when opportunity, index, side and symbol agree, whatever the symbols contain |
| OrderIds.ShadowedIffEmbedsLeg | shared/mezna_shared/order_ids.py:36-40 | an opportunity id collides with a shorter one exactly when its text contains a colon-delimited leg index and side |
| Idempotency.RecordedResultRoundTrip | services/executor/app/idempotency.py:27-36 | reading back a recorded result gives it with only the raw response replaced; recording it again writes the same blob |
| Idempotency.SerializeInjective | services/executor/app/idempotency.py:20-28 | two results have the same blob exactly when they agree on all nine recorded fields |
| Idempotency.RecoveredAfterRecord | services/executor/app/idempotency.py:39-53 | what is recorded under an id is what is recovered there, up to the raw response; other ids keep theirs |
| Ledger.TradeStore.InsertTrade | services/executor/app/db.py:248-275 | inserts and reports true exactly when no trade has the client order id; otherwise changes nothing |
| Ledger.TradeStore.PersistTrade | services/executor/app/db.py:144-298 | one transaction moves both tables to the specified state, a missing fee currency leaving the position's as it was, and returns what the new row stores as realized P&L, None for a replay |
| Ledger.PersistRefines | services/executor/app/db.py:187-279 | every transaction keeps: one row per id; each position row the fold of rounded fills of its key in insert order, its currency the latest given; each fill's trade row the rounded P&L of that fill alone against that fold, and a closing time exactly when it takes the key from open to flat; other rows neither |
| Ledger.PersistFollowsLifecycle | services/executor/app/db.py:219-246 | and keeps status, opened_at and closed_at in step with the net quantity |
| Ledger.RunsRefine | services/executor/app/db.py:187-279 | after any run of calls both invariants hold; opened_at and closed_at are the latest flat-to-open and open-to-flat times, a flip being neither |
| Ledger.RowsRecordCalls | services/executor/app/db.py:248-275 | after any run the trades table lists the calls without their replays, in order, every order and result column as given |
| Ledger.ReplaysLeaveNoTrace | services/executor/app/db.py:277-298 | dropping every replay from a run yields the very same tables |
| Ledger.RoundingDrift | services/executor/app/db.py:217-240 | realized − book value differs from true cash by at most half a unit of 1e-8 per fill times (quantity held + 2); the net quantity is exact |
| Ledger.RealizedTotals | services/executor/app/db.py:240 | the position's running total is within 1e-8 per fill of the sum of what its fills realized, and equal to it without exact ties |
| Ledger.ColumnIsRealized | services/executor/app/db.py:217 | the stored realized P&L column of a key sums to what its fills realized one by one |
| Ledger.RunColumnsAgree | services/executor/app/db.py:187-279 | after any run the stored column is within 1e-8 per fill of the position's total, equal without ties, and within the rounding drift of true cash and position |
| Ledger.StoredTotalStep | services/executor/app/db.py:240 | rounding the sum equals summing the rounded exactly unless a tie meets an odd total; never further apart than one unit |
| Ledger.TiesBreakTheRealizedSum | services/journal/app/queries.py:923-924 | a three-fill round trip whose position total differs from its trades' sum |
| Ledger.StatusMatchesQuantity | services/executor/app/db.py:219-242 | stored status and stored quantity agree exactly unless the exact quantity is above 1e-9 and at most 5e-9 |
| Executor.OrderPlan | services/executor/app/consumer.py:424-502 | at most two legs, each with a side and a symbol; the two legs of a spread take opposite sides |
| Executor.PlanMeaning | services/executor/app/consumer.py:286-301 | which payloads have a plan and what it is: a directional strategy trades its primary symbol on the side of its tokens, tv_action first; funding_arb buys the primary and sells the secondary symbol, stat_arb the reverse |
| Executor.TokenMeaning | services/executor/app/consumer.py:438-444 | a direction token means buy exactly when it spells buy or long, sell exactly when it spells sell or short, in any letter case and between any white space |
| Executor.SubmissionBound | services/executor/app/consumer.py:551-592 | in every run the adapter is called for one id at most once plus the number of kills between call and record |
| Executor.NoKillNoResubmission | services/executor/app/consumer.py:551-560 | without such a kill no id is submitted twice, however often the message is redelivered |
| Executor.KillsAreCalls | services/executor/app/consumer.py:562-592 | the kills that bound counts are kills of calls: never more of them than calls under an id |
| Executor.SwitchIsLastSet | services/executor/app/consumer.py:645 | nothing the executor does moves the kill switch |
| Executor.RunKeepsInvariant | services/executor/app/consumer.py:597-860 | calls accounted for, results agree with their record, ledger refined, settled legs persisted: in every reachable state |
| Executor.LedgerSurvivesReplays | services/executor/app/consumer.py:808-819 | in every reachable state each id has one row, each position is its fold, each trade row holds its own fill's P&L, each keyed row stores the recorded result, and the columns of the two tables agree within the drift |
| LegRows.HeldOrderIsItsLegs | services/executor/app/consumer.py:534-549 | in every reachable state the order in hand is that of the leg its own activation sized: market, side, quantity found, strategy, trading mode and id |
| LegRows.EveryRowIsALegs | services/executor/app/consumer.py:730-815 | in every reachable state each trade row is that of a leg some activation sized: its side, quantity, and the key of its market, strategy and mode; without a quantity a rejection |
| LegRows.RowsStoreWhatAdaptersReturn | services/executor/app/consumer.py:562-592 | every keyed row stores status, quantity, price and fee as an adapter returned them under its id, or a failure without fill |
| LegRows.AcknowledgedLegsArePersisted | services/executor/app/consumer.py:913-951 | an acknowledged execution settled every leg: it had no tick, or its row exists, stores the recorded result and, with colon-free opportunity ids, is this leg's: side and symbol always, the position of its strategy and delivery mode when deliveries of the opportunity agree |
| LegRows.RedeliveryDecidesMode | services/executor/app/consumer.py:540-560 | that clause matters: an order submitted in paper mode and redelivered in live mode is booked as a live trade |
| Executor.RunsFollowLifecycle | services/executor/app/db.py:219-246 | status and open and close times follow the net quantity in every reachable state when adapters fill on the grid |
| Executor.KeyedRowIffCommitted | services/executor/app/consumer.py:808-819 | in every run a keyed id has a trade row exactly when some activation committed its result |
| Executor.RowExistsIff | services/executor/app/consumer.py:640-951 | whenever an activation finishes, a keyed leg has its row exactly when this activation read the switch as clear and sized the leg, or an earlier activation committed it |
| Executor.ReplayCanDropFill | services/executor/app/consumer.py:645-760 | for each of the two causes, a halt and a missing tick, a run in which the message is acknowledged for that cause while its recorded fill has no trade row |
| Recorder.StrategyRecord.RecordOutcome | services/executor/app/consumer.py:217-236 | the keys hold the stored cumulative value and peak of all non-scratch outcomes; drawdown is taken from the exact new values and rounded once |
| Recorder.DrawdownMeaning | services/executor/app/consumer.py:227-236 | the drawdown is the fall from the peak in percent of it, none at the peak or without profit |
| Recorder.StoredPeakIsMaximum | services/executor/app/consumer.py:227-230 | despite rounding, the stored peak is the maximum of 0 and all stored cumulative values |
| Recorder.StoredCumulativeDrift | services/executor/app/consumer.py:222-225 | the stored cumulative value is within 0.00005 per outcome of the true sum |
| GaussJordan.FindPivot | shared/mezna_shared/allocation.py:56 | the first row from the column on with the largest absolute entry |
| GaussJordan.EliminateProgress | shared/mezna_shared/allocation.py:55-65 | after every column: finished columns are unit columns, right half × matrix = left half, on vectors that the finished rows map to zero, every row of the matrix acts as some current row does |
| GaussJordan.InverseIsLeftInverse | shared/mezna_shared/allocation.py:66 | a returned matrix times the input is the identity |
| GaussJordan.Invert | shared/mezna_shared/allocation.py:51-66 | the loop in place computes the specified inversion, None included |
| GaussJordan.SingularYieldsNone | shared/mezna_shared/allocation.py:52 | a matrix with a nonzero kernel vector yields None |
| GaussJordan.NoneIffStuck | shared/mezna_shared/allocation.py:56-58 | None exactly when in some column every candidate pivot left is below 1e-12 |
| GaussJordan.NoneHasNearKernel | shared/mezna_shared/allocation.py:57-58 | when None, a vector with a unit entry, zero after it, is mapped by the matrix itself to entries all below 1e-12 |
| GaussJordan.ZeroColumnIsSingular | shared/mezna_shared/allocation.py:57-58 | when the stuck column is exactly zero, the matrix is singular |
| GaussJordan.ModerateInverseIsFound | shared/mezna_shared/allocation.py:57-58 | a matrix with an inverse of entries at most 1e12 / n is always inverted |
| GaussJordan.InvertibleTurnedAway | shared/mezna_shared/allocation.py:57-58 | the invertible matrix [[1e-13]] yields None |
| Sums.SymmetricInverse | shared/mezna_shared/allocation.py:102-109 | a left inverse of a symmetric matrix is symmetric and also a right inverse |
| Allocation.CovMatrixSymmetric | shared/mezna_shared/allocation.py:38-40 | the covariance matrix is symmetric |
| Allocation.CovIsMoment | shared/mezna_shared/allocation.py:30-35 | n − 1 times the covariance is the sum of products less n times the product of the means |
| Allocation.BilinearForm | shared/mezna_shared/allocation.py:38-48 | u'Sv is the sample covariance of the two combined series |
| Allocation.PortfolioVariance | shared/mezna_shared/allocation.py:47-48 | the quadratic form is the sample variance of the combined series, never negative |
| Allocation.CovCauchySchwarz | shared/mezna_shared/allocation.py:30-35 | squared covariance is at most the product of the variances |
| Allocation.ExpectedReturnIsMean | shared/mezna_shared/allocation.py:108 | the expected return of a portfolio is the mean of its combined series |
| Allocation.TangencyMaximizesSharpe | shared/mezna_shared/allocation.py:102-109 | a positive multiple of a solution of Sx = mu has the greatest squared Sharpe ratio of all portfolios |
| Allocation.InverseSolvesTangency | shared/mezna_shared/allocation.py:105-109 | the computed inverse times mu is such a solution |
| Allocation.UnclippedMaximizesSharpe | shared/mezna_shared/allocation.py:102-113 | when the covariance matrix is inverted and no weight is clipped, no portfolio's combined series has a greater squared mean against its variance than that of the returned weights |
| Allocation.LongOnlyMeaning | shared/mezna_shared/allocation.py:109-113 | negative entries get no weight, the others keep their ratios; without a positive entry all weigh the same |
| Allocation.MaxSharpe | shared/mezna_shared/allocation.py:102-113 | exactly the long-only form of inverse × mu when the inversion yields one, exactly inverse volatility when it yields None; nonnegative and summing to one |
| Allocation.NormalizeIsWeighting | shared/mezna_shared/allocation.py:69-74 | nonnegative weights stay so and sum to one, equal ones when there is nothing to scale |
| Allocation.NormalizeKeepsRatios | shared/mezna_shared/allocation.py:69-74 | normalizing keeps the proportions of the weights |
| Allocation.InverseVolEqualizes | shared/mezna_shared/allocation.py:79-81 | every volatile series gets the same weight times volatility |
| Allocation.InverseVolIsWeighting | shared/mezna_shared/allocation.py:79-81 | inverse-volatility weights are nonnegative and sum to one |
| Allocation.InverseVolWeighsVolatile | shared/mezna_shared/allocation.py:79-81 | where some series is volatile, exactly the volatile ones are weighed |
| Allocation.IteratesAreWeightings | shared/mezna_shared/allocation.py:84-99 | every iterate of the risk-parity loop is nonnegative and sums to one |
| Allocation.IteratesKeepSupport | shared/mezna_shared/allocation.py:84-99 | for any contributions, no iterate drops a weighed strategy or brings one back |
| Allocation.ParityStepRatios | shared/mezna_shared/allocation.py:94-96 | one step leaves the ratio of two weights with nonpositive contributions alone, turns a mixed one by the positive contribution over the mean one, and a positive one by the inverse ratio of the contributions |
| Allocation.ContributionIsCovariance | shared/mezna_shared/allocation.py:91-92 | a contribution is the weight times the covariance of its series with the portfolio |
| Allocation.FixedPointIffEqualRisk | shared/mezna_shared/allocation.py:90-96 | with positive contributions, weights are a fixed point exactly when all risk contributions are equal |
| Allocation.MaxSpread | shared/mezna_shared/allocation.py:97 | the largest distance of a contribution from the target |
| Allocation.RiskParity | shared/mezna_shared/allocation.py:84-99 | a weighting that gives every volatile series some weight; it is the first iterate at which the loop has a reason to stop: no risk, within tolerance one step earlier, or the iteration limit |
| Allocation.RiskContributionsSumToOne | shared/mezna_shared/allocation.py:116-122 | reported risk contributions sum to one |
| Allocation.RiskShareIsCovariance | shared/mezna_shared/allocation.py:116-122 | each is the weight times the covariance with the portfolio, relative to the portfolio's variance |
| Allocation.SelectUsable | shared/mezna_shared/allocation.py:137 | exactly the names with two or more points and positive volatility, in input order |
| Allocation.UsableInOrder | shared/mezna_shared/allocation.py:137 | that selection keeps the input order and takes each name once |
| Allocation.UsableIffVaries | shared/mezna_shared/allocation.py:137 | those are exactly the series with positive variance |
| Allocation.Assign | shared/mezna_shared/allocation.py:139-154 | the pool's names get the weights in order, all others zero, and the total is kept |
| Allocation.WeightsByMethod | shared/mezna_shared/allocation.py:133-152 | each method yields its own weights; an unknown name means risk parity |
| Allocation.Allocate | shared/mezna_shared/allocation.py:128-154 | weights are never negative, sum to one over any nonempty input, are zero for unusable names beside usable ones, and are the chosen method's on the usable ones |
| Allocation.UsableIsAllocated | shared/mezna_shared/allocation.py:133-154 | every method but max_sharpe gives each usable strategy some weight |
| RiskGate.ChecksAreInPriorityOrder | services/risk/app/checker.py:43-175 | approval means no check refuses; a rejection names the first that does; only the two daily limits halt, only the loss streak cools down |
| RiskGate.StepKeepsCounter | services/risk/app/consumer.py:106-135 | each step, the reconciler's write included, keeps the counter at what was read or written since |
| RiskGate.PositionLimit | services/risk/app/state.py:69-75 | in every reachable state the counter is at most max(limit, v), or max(limit, v + 1) when the reconciler's latest write v fell inside a decision |
| RiskGate.IncrementExceedsLimitIff | services/risk/app/consumer.py:106-135 | in every reachable state an approved message's increment exceeds the limit exactly when the reconciler wrote during the decision, and wrote the limit or more |
| RiskGate.StraddlingWriteExceedsLimit | services/journal/app/reconciler.py:76-79 | a run in which such a write takes the counter to limit + 1 |
| RiskGate.HaltedStep | services/risk/app/consumer.py:106-156 | under a halt no step adds to what may still be queued or submitted |
| RiskGate.HaltLatches | services/risk/app/state.py:98-115 | from a halt until an external reset, daily resets included, at most the decision in flight is queued and the running activation's legs are submitted |
| RiskGate.HaltStopsTrading | services/executor/app/consumer.py:640-660 | after any history, a halt leaves at most one more message to queue and two more orders to submit |
| RiskGate.RefusalHaltsIff | services/risk/app/consumer.py:223-228 | a refused message halts trading exactly when the first check to refuse is one of the two daily limits |
| RiskGate.SwitchMoves | services/risk/app/state.py:98-115 | only an operator, an external reset or such a refusal moves the switch |
| RiskGate.DayChangeResets | services/risk/app/state.py:37-66 | the day check keeps open count and loss streak; on a new day every later decision reads zero drawdown and P&L until P&L is recorded |
| RiskGate.RecordedFiguresAreRead | services/risk/app/consumer.py:106-107 | recorded figures are what decisions read until others are recorded or a day is checked |
| RiskGate.RejectionFreezesQueue | services/risk/app/consumer.py:223-228 | once a daily-limit rejection has been processed, nothing is queued until an external reset |
| RiskGate.QueuedMessagesWereApproved | services/risk/app/consumer.py:133-156 | over every history each queued message has a decision of its own, in queue order, that approved that very message on the hash and the switch its own activation had read since fetching it |
| RiskGate.KillsForget | services/risk/app/consumer.py:252-287 | a kill of either service forgets the work in hand and moves nothing else; the executor takes the message it is given |
| RiskGate.CallsAreApproved | services/risk/app/consumer.py:133-156 | every adapter call is for a message approved by such a decision, by an activation whose own check found the switch clear |
| Signals.SimulateIffCrossings | services/backtest/app/engine.py:403-453 | the position loop computes exactly the alternation of first entry and first exit crossings, and there is only one |
| Signals.RoundsAreDisjoint | services/backtest/app/engine.py:412-453 | positions never overlap and last at least one candle |
| Signals.PrefixOfRun | services/backtest/app/engine.py:408-453 | the run over the first k signals has exactly the full run's rounds that end before k |
| Candles.IndexByTs | services/backtest/app/engine.py:379 | the index maps each timestamp to the last candle that has it |
| Candles.LookupIsLast | services/backtest/app/engine.py:379 | and a lookup finds none exactly when no candle has the timestamp |
| Candles.AlignByTs | services/backtest/app/engine.py:378-387 | the spot candles with a perpetual candle, paired, in order |
| Candles.AlignKeepsMatches | services/backtest/app/engine.py:378-387 | in order and once each, exactly the spot candles whose timestamp some perpetual candle shares |
| Candles.RealignIsIdentity | services/backtest/app/walk_forward.py:146-155 | aligning a slice of an aligned series again changes nothing |
| Candles.AlignBeforeIsPrefix | services/backtest/app/engine.py:378-387 | candles from time t on never reach the pairs before t, although all of them are indexed |
| Backtest.RollingZ | services/backtest/app/engine.py:347-355 | the score of a value depends on the window before it and itself; none for the first window values |
| ZScores.ThresholdsMeaning | services/backtest/app/engine.py:350-354 | with the z-score, a position opens exactly when the squared distance from the window mean exceeds entry_z² × variance and the variance is positive, closes exactly when it is below exit_z² × variance or the variance is 0, and the side is the sign of the distance |
| ZScores.UnitOfPriceIsIrrelevant | services/backtest/app/engine.py:358-453 | with the z-score, quoting both markets in another unit gives the same trades at the same times with the same P&L; only prices and quantities change unit |
| ZScores.MetricsAreUnitFree | services/backtest/app/engine.py:133-199 | hence the same metrics |
| Backtest.RunStatArb | services/backtest/app/engine.py:358-453 | the loop yields the specified trades, the empty result below window + 10 candles, or the division error |
| Backtest.TradesAreCrossings | services/backtest/app/engine.py:403-453 | the trades of a finished run are, field by field, those of the first crossings of any signals that follow the two thresholds: dates, prices, side by the sign of the score, quantity, P&L of the spread's move, four fees, holding time |
| Backtest.RaisesIffZeroEntry | services/backtest/app/engine.py:415-416 | a run raises exactly when some position opens at spot price zero |
| Backtest.StatGrossIsTwoLegs | services/backtest/app/engine.py:432-434 | the gross P&L is quantity times the move of the short leg against the long one |
| Backtest.TradeAccounts | services/backtest/app/engine.py:416-450 | four taker fees are paid, net is gross less fees up to the sixth decimal, and quantity times entry price is the position size |
| Backtest.ReversionPays | services/backtest/app/engine.py:413-434 | selling a spread with positive z-score pays exactly when it narrows, buying exactly when it widens |
| Backtest.NoLookAhead | services/backtest/app/engine.py:389-453 | a run over the first k ≥ window + 10 aligned candles has exactly the full run's trades whose exit is before k |
| Backtest.FutureIsInvisible | services/backtest/app/engine.py:358-453 | raw candles cut at time t yield exactly the full run's trades closed before t |
| FundingArb.RunFundingArb | services/backtest/app/engine.py:241-312 | the loop over the sorted rates yields the specified trades, or the division error |
| FundingArb.FundingTradesAreCrossings | services/backtest/app/engine.py:254-312 | the trades of a finished run are, field by field, those of the first crossings of the rate: the entry's rate on the notional, the spot move from close to close, four fees |
| FundingArb.FundingNoLookAhead | services/backtest/app/engine.py:254-312 | a run over the first k rates has exactly the full run's trades that exit before k |
| FundingArb.FundingFutureIsInvisible | services/backtest/app/engine.py:243-312 | rates and candles before t, in any input order, yield exactly the full run's trades closed before t |
| FundingArb.FundingTradeAccounts | services/backtest/app/engine.py:264-310 | the same for funding trades |
| FundingArb.FundingGrossFollowsSpot | services/backtest/app/engine.py:288-296 | gross P&L is funding plus quantity times the spot price change; it is the funding alone exactly when the price is unchanged |
| FundingArb.HeldOnePeriodIff | services/backtest/app/engine.py:258-282 | the entry beats edge plus round-trip fee; a position is held one period exactly when the next funding time has a spot candle |
| Drawdown.CurvePoint | services/backtest/app/engine.py:205-208 | every equity point is the capital plus the P&L up to there |
| Drawdown.WorstIsPeakDrop | services/journal/app/queries.py:298-325 | the reported figure is the worst fall below the running peak, for every curve |
| Drawdown.WorstIsBruteForce | services/backtest/app/engine.py:163-175 | on a curve that never falls below zero it is the largest relative fall over all pairs of points |
| Drawdown.DeepestIsBruteForce | services/backtest/app/engine.py:163-175 | measuring a point below zero from the lowest positive earlier point gives the largest fall over all pairs, on every curve |
| Drawdown.WorstIsDeepestIff | services/backtest/app/engine.py:173 | the reported figure never exceeds that fall, and equals it exactly when there is none, or a deepest one ends at or above zero, or all positive points up to one are equal |
| Drawdown.NegativeEquityHidesFalls | services/backtest/app/engine.py:173 | an instance where they part: 1.1 is reported, 2.0 is the fall |
| Metrics.DrawdownLoop | services/backtest/app/engine.py:162-177 | the one pass yields the worst drop and the per-trade returns of the equity curve |
| Metrics.ComputeMetrics | services/backtest/app/engine.py:133-199 | all thirteen figures in terms of the trades and their equity curve; ratios are functions of the per-trade returns, 0 below two of them |
| Metrics.NetPnlIsTotal | services/backtest/app/engine.py:157-192 | reported net P&L is the rounded sum over all trades; wins and losses add up |
| Metrics.RatesMultiplyOut | services/backtest/app/engine.py:159-199 | win rate, holding time and total return times their base give the number of winning trades, the candles held and the net P&L, up to one rounding each |
| Metrics.RatiosAreReported | services/backtest/app/engine.py:187-195 | Sharpe, Sortino and Calmar are each their own function of the gains of the trades on the equity before them, 0 below two trades |
| Metrics.RunFees | services/backtest/app/engine.py:187 | the fees of a finished run are four taker fees a trade |
| Metrics.RunTotalsAgree | services/backtest/app/engine.py:186-192 | for every finished run of either simulation, reported net P&L is reported gross less reported fees, up to 1.5e-6 per trade and 1.5e-4 |
| Metrics.DrawdownBoundsEveryFall | services/backtest/app/engine.py:163-193 | the reported drawdown bounds the fall between any two points of an account that never goes below zero |
| Metrics.BuildEquityCurve | services/backtest/app/engine.py:202-214 | point k is capital plus the first k + 1 net P&Ls, rounded once |
| Metrics.DailySeries | services/journal/app/queries.py:346-352 | one value per date: the sum of its rows, dates ascending |
| Metrics.DatesAreDistinct | services/journal/app/queries.py:352 | the dates ascend strictly and are exactly those of the rows |
| Metrics.DailySeriesConserves | services/journal/app/queries.py:346-352 | every row is counted exactly once |
| Metrics.DailyCurveEnds | services/journal/app/queries.py:318-325 | the cumulative curve ends at the sum of all rows |
| Metrics.MaxDrawdownPct | services/journal/app/queries.py:355-362 | the percentage loop reports the worst fall below the running peak |
| Metrics.CurveDrawdown | services/journal/app/queries.py:298-325 | the summary figure of a set of daily rows is that fall on their cumulative curve |
| WalkForward.WfaWindows | services/backtest/app/walk_forward.py:27-43 | an error on nonpositive sizes, else exactly floor((n − is − oos) / step) + 1 windows when they fit, each k steps in, out-of-sample right after in-sample |
| WalkForward.WindowsFit | services/backtest/app/walk_forward.py:38-42 | every window lies inside the data |
| WalkForward.CountedIffFits | services/backtest/app/walk_forward.py:37-43 | window k is produced exactly when it ends inside the data |
| WalkForward.OutOfSampleDisjointIff | services/backtest/app/walk_forward.py:37-43 | out-of-sample ranges are pairwise disjoint exactly when step ≥ oos_size |
| WalkForward.CandidateMeaning | services/backtest/app/walk_forward.py:150-157 | position a · |entry_z_grid| + b of the search is the pair of the a-th window and the b-th entry_z with the Sharpe ratio and trade count of its run: the first crossings of entry_z and exit_z by the scores against that window; none exactly when a position opens at price zero |
| WalkForward.Optimise | services/backtest/app/walk_forward.py:148-157 | the choice is the first candidate of the grid with the highest in-sample Sharpe; or a run raised; or the grid is empty |
| WalkForward.SelectsUnique | services/backtest/app/walk_forward.py:149-157 | that determines the choice |
| WalkForward.InsufficientChosenIff | services/backtest/app/walk_forward.py:149-157 | parameters without enough data are chosen exactly when no candidate has a positive Sharpe ratio and the first candidate at 0 is one of them |
| WalkForward.RunFold | services/backtest/app/walk_forward.py:145-178 | the fold of a window, and none exactly when the window admits none |
| WalkForward.FoldUnique | services/backtest/app/walk_forward.py:145-178 | a window and the data determine the fold |
| WalkForward.FoldMeaning | services/backtest/app/walk_forward.py:145-178 | a fold names the first pair of the grid that scores best on its in-sample slice and reports what the run with that very pair earned on its out-of-sample slice |
| WalkForward.WalkForwardStatArb | services/backtest/app/walk_forward.py:122-185 | one fold per window in order; it fails only if some window admits no fold |
| WalkForward.ChoiceIgnoresOutOfSample | services/backtest/app/walk_forward.py:145-157 | data that agree before the out-of-sample start lead to the same choice |
| WalkForward.FoldsAreStable | services/backtest/app/walk_forward.py:145-178 | appending candles changes no earlier fold |
| WalkForward.FutureCandlesDoNotChoose | services/backtest/app/walk_forward.py:114-157 | the same over raw candles that agree before a time |
| Sorting.StableSortIsSort | shared/mezna_shared/bars.py:94 | the sort orders by the key and keeps every row |
| Bars.BucketBounds | shared/mezna_shared/bars.py:102 | a bucket is a multiple of the interval and holds the timestamps of one interval |
| Bars.HighestIsMaximum | shared/mezna_shared/bars.py:111-112 | high and low are the extremes of the bucket, and attained |
| Bars.TicksToOhlcv | shared/mezna_shared/bars.py:84-120 | one pass yields exactly the occupied buckets in strictly increasing order, each with first, maximum, minimum, last and count; volumes sum to the usable ticks |
| Bars.VolumesAddUp | shared/mezna_shared/bars.py:108-113 | volumes of any such bars add up to the number of rows |
| Bars.SortCommutesWithBucket | shared/mezna_shared/bars.py:94-103 | sorting and taking a bucket commute |
| Bars.BarDependsOnBucketOnly | shared/mezna_shared/bars.py:101-118 | ticks of other buckets, older or newer, do not change a bar |
| Bars.OrderFreeIff | shared/mezna_shared/bars.py:93-94 | a bar is the same for every permutation of the rows exactly when its ticks at the earliest timestamp share a price and those at the latest do |
| Bars.TiesOpenFirstCloseLast | shared/mezna_shared/bars.py:73-94 | for any list: a bar opens on the first-listed of its earliest ticks and closes on the last-listed of its latest |
| BarWriter.OhlcvBars.UpsertBars | shared/mezna_shared/ohlcv.py:131-148 | writes every bar of the batch over its row and no other row |
| BarWriter.OhlcvBars.FlushOnce | services/market-data/app/bar_writer.py:49-75 | the table gains exactly the completed bars of every target; the returned count is their number |
| BarWriter.CompletedIff | services/market-data/app/bar_writer.py:66 | a bucket is completed exactly when every timestamp it can hold is before the clock |
| BarWriter.WrittenPricesPositive | shared/mezna_shared/ohlcv.py:99-116 | every bar written has positive, ordered prices, so the upsert drops none |
| BarWriter.SecondFlushKeepsRowIff | services/market-data/app/bar_writer.py:11-15 | a row the next flush writes again is unchanged only if as many ticks of its bucket arrived as were dropped; with none dropped exactly if none arrived, with none arrived exactly if none was dropped |
| BarWriter.LaterTicksAreElsewhere | services/market-data/app/bar_writer.py:60-66 | ticks stamped at or after the flush's clock are in no completed bucket |
| BarWriter.ReflushCanShrinkBar | services/market-data/app/bar_writer.py:11-15 | two ticks, one dropped: the finished bar is replaced by a smaller one |
| BarWriter.LateTickRewritesBar | services/market-data/app/bar_writer.py:11-15 | a tick that reaches the cache after the flush changes the finished bar |
| Text.StripKeepsMiddle | services/rag/app/chunker.py:113 | stripping removes white space at the two ends and nothing else |
| Text.LowerCharMeaning | services/executor/app/consumer.py:439 | lower-casing maps the capitals to their small letters and nothing else |
| Chunker.BoundaryIsLastBreak | services/rag/app/chunker.py:98-105 | the boundary is right after the last paragraph break of the window; without one after the last line break; without either after the last sentence end; without any there is none |
| Chunker.ChunkEnd | services/rag/app/chunker.py:122-129 | a chunk ends after its start and within chunk_size of it |
| Chunker.ChunkEndMeaning | services/rag/app/chunker.py:122-129 | it ends right after the last break of the last 200 characters of its window, of the whole window when chunk_size is at most 200, and at the window's end without one |
| Chunker.SplitTextBlock | services/rag/app/chunker.py:108-135 | the loop terminates; the chunks are the non-blank stripped slices of ranges that start at 0, step back by the overlap and end at the end |
| Chunker.NeighboursOverlap | services/rag/app/chunker.py:133 | neighbouring ranges leave no gap and share exactly the overlap, or all but one character of a range that is no longer than that |
| Chunker.EveryIndexIsCovered | services/rag/app/chunker.py:121-133 | every index of the stripped text lies in some range |
| Chunker.CoversInside | services/rag/app/chunker.py:121-133 | every range is nonempty and at most chunk_size long |
| Chunker.PiecesAreShort | services/rag/app/chunker.py:130-135 | every chunk is nonempty and at most chunk_size long |
| Chunker.VisibleTextIsChunked | services/rag/app/chunker.py:121-135 | every character that is not white space stands in some chunk |
| Documents.OffsetToPage | services/rag/app/chunker.py:56-65 | the binary search finds the page of the last mark at or before the offset |
| Documents.LineMeaning | services/rag/app/chunker.py:68-71 | a table line starts with a bar after white space at most; a blank line is white space only |
| Documents.ExtractTableBlocks | services/rag/app/chunker.py:74-93 | disjoint maximal blocks in order that hold every table line |
| Documents.TableBlocksUnique | services/rag/app/chunker.py:74-93 | that determines the blocks |
| Documents.CollectBody | services/rag/app/chunker.py:249-254 | the body is the lines outside all blocks, in order |
| Documents.BodyHasNoTableLine | services/rag/app/chunker.py:249-254 | no table line is left in the body |
| Documents.TablesAndBodyPartition | services/rag/app/chunker.py:234-254 | blocks and body together hold every line as often as the section does |
| Documents.MergeSmall | services/rag/app/chunker.py:275-327 | the stored chunks are the groups of cleaned pieces, joined, cleaned again and numbered in order |
| Documents.CleanedKeepsText | services/rag/app/chunker.py:283-286 | cleaning keeps, in order, exactly the chunks that still hold text, with their pages and table flags |
| Documents.JoinedHoldsPieces | services/rag/app/chunker.py:289-290 | every piece of a group stands in its text, one space after the piece before it |
| Documents.ChunkSpansItsPages | services/rag/app/chunker.py:291-314 | when pages do not decrease, a stored chunk spans exactly the pages of its pieces |
| Documents.GroupsPartition | services/rag/app/chunker.py:280-314 | the groups use every cleaned piece once and keep the order |
| Documents.OnlyFirstGroupIsSmall | services/rag/app/chunker.py:288-292 | every group after the first opens with a table or with at least 120 characters, and only fragments join it |
| Documents.OnlyFirstChunkIsShort | services/rag/app/chunker.py:22-23 | every stored non-table chunk after the first has at least 120 characters when the final cleaning finds nothing to remove in a joined text |
| Documents.JoinCanShortenChunk | services/rag/app/chunker.py:295-307 | that condition matters: two pieces whose join forms a page marker are stored as a second chunk of fewer than 120 characters |
| Documents.TableAbsorbsIff | services/rag/app/chunker.py:288-292 | the chunk of any table piece is that table alone exactly when the next piece is no fragment; it is flagged as a table either way |
| Sections.SplitDocument | services/rag/app/analyser.py:415-436 | the sections concatenate to the document, each is nonempty and at most section_size long and ends at the last paragraph break in its second half if there is one |
| Sections.SectionsFillHalf | services/rag/app/analyser.py:431-434 | every section but the last is longer than half of section_size |
| Sections.SectionCount | services/rag/app/analyser.py:425-436 | hence section k starts no earlier than k halves of section_size |
| RateLimit.RateLimiter.Call | services/gateway/app/middleware.py:57-79 | a request passes exactly when it is among the first `limit` of its client in its bucket; a key never expires before its bucket ends |
| RateLimit.RateLimiter.Expire | services/gateway/app/middleware.py:61-62 | dropping an expired key changes no later decision |
| RateLimit.BucketBound | services/gateway/app/middleware.py:57-67 | in each bucket exactly min(requests, limit) requests of a client pass |
| RateLimit.SlidingBound | services/gateway/app/middleware.py:57-67 | at most 2 × limit pass in any half-open interval of one window length |
| RateLimit.BoundaryBurst | services/gateway/app/middleware.py:57-67 | the factor two is reached across a bucket boundary |

## Left out

- Executor.SubmissionBound: assumes that Redis neither fails nor expires a recorded result (the code keeps it for 24 hours) and that order ids do not collide.
- LegRows.AcknowledgedLegsArePersisted: does not say that a replayed fill is persisted, because the code acknowledges some replays without persisting.
- Executor.RunsFollowLifecycle: fills are taken on the 1e-8 grid of the quantity columns.
- RateLimit.RateLimiter.Call: one clock for the gateway and Redis, and no Redis error; on an error the code lets the request through.
- BarWriter.SecondFlushKeepsRowIff: when ticks of the bucket were dropped and others arrived, only the equal count is stated, because whether the prices agree depends on the ticks.
- Backtest.RollingZ: the score is any function of window and value, so that the theorems about runs hold for all of them; ZScores instantiates it.
- Chunker.SplitTextBlock: chunk_size is at least 1 and the overlap is not negative.
- Sections.SplitDocument: section_size is at least 1; with 0 the source's loop does not end.
- Floating-point error: numbers are exact reals with the rounding the code performs.
- Square roots: a standard deviation enters as a number whose square is the variance; Sharpe, Sortino and Calmar ratios are any functions of the return series.
- Recorded results: the text of JSON is taken as faithful, and a stored value with ill-typed or missing mandatory fields reads as no result; the executor itself stores none.
- Lower-casing and decimal digits are those of ASCII; the wording of rejection reasons is abbreviated.
- Order ids: the truncated SHA-256 digest is taken as collision-free, the uuid4 fallback as never repeated.
- The executor and the risk gate are step machines rather than classes, because the statements are about interleavings and kills between their awaits.
- Redelivery is a step of the environment: the consumer loop reads only new messages.
- Order sizing, volatility targeting, audit logs, notifications, the edge, rotation and Kelly statistics of the outcome recorder.
- The rounding of trade quantities and prices by the database columns, the raw strategy_type column of the trades table, and rows marked as stale by the reconciler.
- Exchange adapters: an adapter call returns any result or raises.
- The trade-log formatting and Monte Carlo part of the backtest engine; the date labels of folds, the summary statistics and the verdict of walk-forward analysis.
- Heading detection and page offsets of the chunker; what cleaning removes is a parameter except in Documents.JoinCanShortenChunk, which takes the marker pattern over ASCII digits; the extraction and merging of strategy profiles.
- The risk consumer's cooldown key and per-strategy counters appear only as inputs to the checks; its daily reset is one step.
- HTTP routes, dashboards, feeds, notification channels, model and vector-store calls, encryption and sessions.
- `shared/mezna_shared/reconciliation.py` and `shared/mezna_shared/session.py`: their bodies lose their indentation part-way, so the text does not decide their meaning.
