# Signal research bot: verified core

A Dafny model of the parts of the research bot whose mistakes would not show up in a log: the shared signal table
and its audit log, the replacement of eligibility plans, the order book replica, the cost arithmetic, the risk
pipeline, the request budget and the candle gap report. `dafny verify dfyconfig.toml` checks all of it.

How the parts are modelled:

- **Signal lifecycle** (`SignalStateMachine`, `Lifecycle*`, `SignalHistory`, `AuditLog`, `Leases`). One function of
  `LifecycleTable` is one committed SQL statement. `LifecycleProtocol` lets any number of admissions and monitor
  workers take such steps in any order; a worker may die, lose an acknowledgement or outlive its lease at any point. A
  run is any sequence of labels, so the theorems of `LifecycleSafety`, `AuditLog` and `Leases` speak of all
  interleavings. `LifecycleRepository` and `LifecycleMonitor` are the same code as objects that update fields in
  place, with other workers' commits (`Rely`) between any two of their own.
- **Plan replacement** (`PlanTable`, `PlanProtocol`, `PlanCap`, `PlanRepository`), in the same two forms.
- **Order book** (`OrderBook`, `OrderBookState`, `BookRefinement`, `BookRuns`, `BookHistory`, `MarketData`, `Depth`).
  The book object is tied, method by method, to a value; the value is tied to "last snapshot, then every kept delta
  written over it".
- **Costs** (`Vwap`, `WalkProperties`, `Percentile`, `Funding`, `CostModel`, `CostEngine`, `CostProperties`,
  `ExecutionPrices`, `CostMeaning`).
- **Risk** (`RiskModel`, `Rounding`, `Sizing`, `MarginModel`, `LiquidationSafety`, `Leverage`,
  `RiskSettingsOverrides`, `TechnicalFrame`, `FrameMeaning`, `PlanMeaning`, `Targets`, `RiskEngine`, `PlanSafety`,
  `PlanFeasibility`, `AcceptedPlan`).
- **Helpers** (`RateLimiter`, `Candles`; `Options`, `Arithmetic` and `Sorting` are shared).

Prices, quantities and rates are exact reals; the walk's 1e-12 cut-off, the leverage search's 1e-9 tolerance and all
roundings to a grid are kept. Hashes and keys are identifiers. Clocks, database errors, cancellations and the choice
of which worker moves next are inputs.

## What the proofs found

- The settings and fees as shipped accept no plan on any market whose tick is at most 25 bps of the candidate's level
  (`PlanFeasibility.ShippedSettingsAcceptNothing`): within the shipped buffers an invalidation at least half an ATR
  away is less than 50 bps and four ticks away, while the costs need some 165 bps to stay within 15 percent of the
  risk. With an ATR share of the buffer of 1.5 the same market has an accepted plan
  (`AcceptedPlan.WiderBufferIsAccepted`).
- The plan cap counts other candidates' plans, and they are below it at the insert exactly when no more of them
  entered since the admission's read than there was room for (`PlanCap.CapHoldsExactlyWhen`). The instrument's active
  plans are those and the candidate's own. They are within the cap exactly when both together are
  (`PlanCap.InstrumentCapHoldsExactlyWhen`); once the admission has retired what it read and nobody else inserted for
  the candidate, its own are at most the one it inserted. Two evaluations of one cycle can exceed the cap
  (`PlanCap.ConcurrentAdmissionsExceedTheCap`), and so can a single candidate whose replacement fails half-way
  (`PlanCap.InterruptedReplacementExceedsTheCap`).
- Once its call is over, a transition lacks its event exactly when that call failed or died between its two commits
  (`AuditLog.EventMissingExactlyWhen`), and then for good (`AuditLog.LostForGood`, `AuditLog.AnEventCanBeLost`).
- A claim whose commit succeeds but whose call raises is not given back by that call
  (`LifecycleMonitor.MonitorJob.MonitorOne`): the lease stays until this owner's next call on the row, which claims it
  at any time and gives it back (`Leases.OwnersNextCallGivesItBack`), or until it expires.
- A repeated delta is ignored exactly when the book is waiting or already has its number
  (`BookRuns.DeltaIgnoredExactlyWhen`). While no snapshot restarts the numbering lower, repeats make no difference
  exactly as long as none of them meets an empty book that does not wait (`BookRuns.RepeatsChangeNothingExactlyWhen`);
  one that does sends it waiting (`BookRuns.RepeatAfterResetSendsWaiting`) but never changes its content
  (`BookRuns.RepeatsOnlySendWaiting`). A later snapshot with a lower number lets a delta be written twice
  (`BookRuns.RestartedNumberingBreaksRepeats`).
- A book frame that names another instrument empties this tracker's reliable book exactly when the other book ends up
  unreliable and five seconds have passed (`MarketData.OtherBooksTroubleReachesThisOne`,
  `MarketData.ReliableBookIsEmptied`).
- The leverage returned exceeds its cap exactly when the cap is below 1, or two decimals round it up and the rounded
  cap passes (`Leverage.ReturnedExceedsCapExactlyWhen`, `Leverage.CapsThatAreExceeded`).
- `derive_targets` offers only targets beyond the entry exactly when `min_distance_bps` is not negative, which an
  override can make it (`Targets.OnlyBeyondEntryExactlyWhen`, `Targets.WrongSideIsOffered`). The gate on the net
  target result stops such a plan later (`CostProperties.PrimaryTargetIsProfitable`, `PlanSafety.AssembledIsSound`).

## Model

| member | source | states |
|---|---|---|
| SignalStateMachine.EvaluateSignal | app/signals/lifecycle_engine.py:53-168 | one final state per cycle: the first step is an eligible finding no other eligible one outranks, nothing is returned exactly when none is eligible, only the entry chain has two steps, and without an eligible proposal exactly the two automatic moves happen |
| SignalStateMachine.ListedTransitionsLeaveLiveStates | app/signals/state_machine.py:144-153 | a listed transition never leaves a terminal state and never stays put |
| SignalStateMachine.ChainsStayLive | app/signals/state_machine.py:144-165 | a validated chain is in a live state before every step |
| SignalStateMachine.TransitionsInto | app/signals/state_machine.py:37-123 | the transition map read backwards: from where each state can be entered |
| SignalStateMachine.EndsAreLeftByNothing | app/signals/state_machine.py:15-24 | the terminal states are exactly those without a way on |
| SignalStateMachine.EligibleMeans | app/signals/lifecycle_engine.py:60-127 | what may win a cycle, and that only four monitors act on a paused signal |
| LifecycleTable.RelyIsTransitive | app/repositories/signal_lifecycle_repository.py:156-239 | what others may do between two commits composes: versions only rise, equal versions mean equal states, events are never removed |
| LifecycleInvariant.StepKeepsInv | app/repositories/signal_lifecycle_repository.py:56-239 | every commit of every participant keeps the joint invariant of rows, keys, log, workers and history |
| LifecycleInvariant.RunKeepsInv | app/repositories/signal_lifecycle_repository.py:56-239 | so does every run |
| LifecycleSafety.HistoryIsTheRun | app/repositories/signal_lifecycle_repository.py:170-181 | the recorded history is exactly the row updates of the run that matched |
| LifecycleSafety.TransitionsFormOneChain | app/repositories/signal_lifecycle_repository.py:156-181 | the won transitions of a signal are one chain of listed steps on versions 2, 3, 4, ..., each from the previous one's end, and the row is its end |
| LifecycleSafety.OneWinnerPerVersion | app/repositories/signal_lifecycle_repository.py:170-181 | two updates that matched at different points of a run are on different, rising versions |
| LifecycleSafety.TerminalIsForever | app/repositories/signal_lifecycle_repository.py:156-181 | a terminal signal keeps state and version in every continuation |
| LifecycleSafety.StepKeepsRely | app/repositories/signal_lifecycle_repository.py:156-239 | every protocol step is one others may rely on |
| LifecycleSafety.RunKeepsRely | app/repositories/signal_lifecycle_repository.py:156-239 | so is every stretch of a run |
| LifecycleSafety.AppliedStepsAreAWonPrefix | app/jobs/signal_lifecycle_monitor.py:412-474 | what a worker counts as applied is a prefix of its list, won by it on consecutive versions, each with its event logged |
| LifecycleSafety.UncountedWinsAreInterrupted | app/jobs/signal_lifecycle_monitor.py:412-474 | besides those it won at most the next step, and only if that call is under way, died or failed |
| LifecycleSafety.LoggedTransitionsAreReal | app/signals/event_builder.py:28-48 | over every run, each logged event is one of the three of an admission, or records column by column the row update that took effect on its version: its states, type, version and key |
| LifecycleSafety.LoggedEventsChain | app/signals/event_builder.py:28-48 | the logged events of a signal chain: one starts in the state in which the one before it, if that is logged, ended |
| LifecycleSafety.NewestEventIsTheState | app/repositories/signal_lifecycle_repository.py:156-202 | no event is ahead of its row, and the one of the row's version ends in the row's state |
| SignalHistory.SignalsMoveFewTimes | app/signals/state_machine.py:37-123 | over every run a signal moves at most seven times and never enters a state twice |
| SignalHistory.LongestLife | app/signals/state_machine.py:37-123 | seven moves are possible |
| SignalHistory.StampsTellTheHistory | app/repositories/signal_lifecycle_repository.py:156-181 | over every run entry_confirmed_at, active_research_at and terminal_at hold the time of the one call whose update brought the signal there, or nothing |
| SignalHistory.RowsWereAdmitted | app/repositories/signal_lifecycle_repository.py:56-96 | every row belongs to an admission of the run and keeps its dedupe key |
| LifecycleSafety.EventsAreLoggedOnce | app/repositories/signal_lifecycle_repository.py:195-200 | no signal has two events of one version |
| AuditLog.EventMissingExactlyWhen | app/repositories/signal_lifecycle_repository.py:170-202 | over every run, an update lacks its event exactly while its call is between the two commits, or when that call left this point by failing or dying instead of committing the event |
| AuditLog.LostForGood | app/repositories/signal_lifecycle_repository.py:181-202 | an event missing once its call has left that point stays missing in every continuation |
| AuditLog.MissingEventsWereInterrupted | app/repositories/signal_lifecycle_repository.py:170-202 | an update without event: its call is between the commits, died or returned FAILED, and is not counted |
| AuditLog.OnlyTheWinnerLogs | app/repositories/signal_lifecycle_repository.py:195-200 | no step but the winner's own event commit logs an update's event |
| AuditLog.OwnKeyIsOurs | app/repositories/signal_lifecycle_repository.py:195-200 | while a call is between its commits nobody else logs under its key |
| AuditLog.AnEventCanBeLost | app/repositories/signal_lifecycle_repository.py:181-202 | a run that ends with the row advanced, after which no continuation logs the event |
| LifecycleSafety.OneLiveSignalPerKey | app/repositories/signal_lifecycle_repository.py:92-181 | active_key is the dedupe key exactly for live signals, and one live signal per key, under racing admissions |
| Leases.FirstTakeoverIsLate | app/repositories/signal_lifecycle_repository.py:206-227 | with no clock assumption: the first takeover claims at a time past the holder's deadline |
| Leases.LeaseExclusion | app/repositories/signal_lifecycle_repository.py:206-239 | over every run with a clock that does not run backwards: after a claim, and unless its owner gives the lease up, no other owner's claim succeeds before the deadline has passed, whatever times the claims carry |
| Leases.NoEarlyTakeover | app/repositories/signal_lifecycle_repository.py:206-239 | the same from any state in which the lease is held |
| Leases.LeaseLastsUntilTakeover | app/repositories/signal_lifecycle_repository.py:206-239 | the holder keeps the lease and at least its deadline until then |
| Leases.HolderLosesLeaseOnlyBy | app/repositories/signal_lifecycle_repository.py:206-239 | a lease changes hands only by its holder's release or a late claim; a late release frees nobody else's |
| Leases.OwnersNextCallGivesItBack | app/repositories/signal_lifecycle_repository.py:206-239 | over every run: until someone else takes a lease over, its owner's next claim of the row succeeds at any time, expired or not, and that call's release leaves the row free |
| LifecycleRepository.Repository.InsertNew | app/repositories/signal_lifecycle_repository.py:56-142 | false and nothing changed on a collision, else the row and its three events, for every point an error can strike and any commits of others in between |
| LifecycleRepository.Repository.ApplyTransition | app/repositories/signal_lifecycle_repository.py:146-202 | every column of the row, the event with its states, type, version and key, and the outcome, for every point an error can strike and any commits of others in between |
| LifecycleRepository.Repository.Claim | app/repositories/signal_lifecycle_repository.py:206-227 | claims exactly a free, expired or own lease |
| LifecycleRepository.Repository.Release | app/repositories/signal_lifecycle_repository.py:229-239 | frees exactly the owner's own lease |
| LifecycleMonitor.MonitorJob.ApplySteps | app/jobs/signal_lifecycle_monitor.py:412-474 | every step is tried in turn until one does not apply, on whatever others have left; the counted steps are those that applied, each recorded in the log with its states, and the counters tell how the loop ended |
| LifecycleMonitor.LoopMeans | app/jobs/signal_lifecycle_monitor.py:415-474 | a loop stops with a conflict or a missing row only where the row did not match, with a failure only on a fault, and never on a matching step without one; every counted step changed the row on the version it names |
| LifecycleMonitor.MonitorJob.MonitorOne | app/jobs/signal_lifecycle_monitor.py:339-366 | the claim is taken exactly when the table it finds allows it and its commit takes place; what is reported is what that loop on the claimed table counted, or nothing after an exception; a lease still held at the end is given back exactly when the claim returned and the release is committed |
| LifecycleMonitor.MonitorJob.MonitorPhase | app/jobs/signal_lifecycle_monitor.py:320-369 | one such visit per row: evaluated are exactly the rows whose claim was granted and whose call did not raise, transitions and conflicts are the sums of theirs, and the job's counters move by what was done |
| LifecycleMonitor.CycleMeans | app/jobs/signal_lifecycle_monitor.py:333-369 | a cycle is within what others may rely on and reports no more than was done, and all of it when no call raises |
| LifecycleMonitor.StepsKeepRely | app/jobs/signal_lifecycle_monitor.py:412-474 | all commits of one loop together are within what others may rely on |
| PlanProtocol.PlanRunKeepsInv | app/jobs/risk_plan_evaluation_refresh.py:433-490 | every run of admissions and crashes keeps the plan table's invariant |
| PlanProtocol.NewestPlanStaysActive | app/jobs/risk_plan_evaluation_refresh.py:433-490 | the plan of a candidate inserted last stays active unless closed from outside |
| PlanProtocol.ReplacementIsCrashSafe | app/jobs/risk_plan_evaluation_refresh.py:433-490 | a candidate with an active plan, whose retiring replacements are active, has an active plan at every later point of every run unless one of its plans is closed from outside |
| PlanCap.CapHoldsExactlyWhen | app/jobs/risk_plan_evaluation_refresh.py:438-447 | over every run: at an admission's insert the other candidates' plans, which are what it checked, are below the cap it read exactly when no more of them were inserted in between than there was room for, counting those that left; with none inserted they are |
| PlanCap.InstrumentCapHoldsExactlyWhen | app/jobs/risk_plan_evaluation_refresh.py:438-458 | over every run, at any point after that read: the instrument's active plans are within the cap exactly when the others at the read, those that entered less those that left, and the candidate's own together are; its own are those inserted since the read once all that was read is retired, and at most the replacement when nobody else inserted for the candidate |
| PlanCap.OthersStep | app/jobs/risk_plan_evaluation_refresh.py:433-490 | the others of an instrument change by one foreign insert, retirement or closure at a time |
| PlanCap.ReadDecides | app/jobs/risk_plan_evaluation_refresh.py:438-447 | an admission goes on to its insert exactly when the others are below the cap |
| PlanProtocol.OneActivePlanPerKey | app/repositories/risk_plan_repository.py:77-94 | racing inserts never leave two active plans with one dedupe key |
| PlanCap.ConcurrentAdmissionsExceedTheCap | app/jobs/risk_plan_evaluation_refresh.py:438-447 | a run of two candidates with two active plans on an instrument under a cap of one |
| PlanCap.InterruptedReplacementExceedsTheCap | app/jobs/risk_plan_evaluation_refresh.py:448-458 | a run of one candidate whose replacement stops before it retires its predecessor, with the same result |
| PlanRepository.Repository.InsertNew | app/repositories/risk_plan_repository.py:37-94 | both tables and the outcome for every await an error can strike: the row is inserted exactly when no active plan has the key and its commit takes place, and its event is logged exactly when the second commit does too |
| PlanRepository.Repository.Transition | app/repositories/risk_plan_repository.py:96-125 | the status change with its event, or nothing when the status is already there |
| PlanRepository.LateWriteIsATransition | app/repositories/risk_plan_repository.py:104-125 | deactivating a plan has the same effect at the commit however stale the read before it was |
| PlanRepository.EvaluationJob.RetirePredecessors | app/jobs/risk_plan_evaluation_refresh.py:453-458 | a prefix of the predecessors is superseded, each with its event and in order, as long as the interruption says; all other rows stay |
| PlanRepository.EvaluationJob.AdmitPlan | app/jobs/risk_plan_evaluation_refresh.py:427-490 | both tables for every await at which it can stop: the new row, the superseded prefix of the candidate's active plans and the events in order; every candidate keeps an active plan; when it is suppressed, fails or succeeds; success means cap kept and exactly one active plan |
| OrderBook.ParseLevels | app/data/event_validation.py:310-326 | all levels or none: accepted exactly when every entry is readable with positive price and no negative quantity |
| OrderBookState.OrderbookState.constructor | app/data/orderbook_service.py:38-51 | a new book is empty, uninitialised and not waiting for a resync |
| OrderBookState.OrderbookState.MarkUnreliable | app/data/orderbook_service.py:58-60 | only the resync flag is set |
| OrderBookState.OrderbookState.Reset | app/data/orderbook_service.py:62-67 | forgets sides and sequence, keeps the resync flag |
| OrderBookState.OrderbookState.IsCrossed | app/data/orderbook_service.py:125-128 | true exactly when some ask lies below some bid |
| OrderBookState.OrderbookState.Best | app/data/orderbook_service.py:130-142 | the extreme price of a side with its quantity |
| OrderBookState.OrderbookState.Filled | app/data/orderbook_service.py:71-72 | the positive levels of a snapshot, the last of a price |
| OrderBookState.OrderbookState.Written | app/data/orderbook_service.py:106-115 | a delta's levels over a side, zero removing |
| OrderBookState.OrderbookState.ApplySnapshot | app/data/orderbook_service.py:69-85 | the whole new book and whether it is reliable |
| OrderBookState.OrderbookState.ApplyDelta | app/data/orderbook_service.py:87-121 | the whole new book and whether it is reliable |
| OrderBookState.OrderbookState.Apply | app/data/orderbook_service.py:224-229 | returns exactly whether the book is reliable afterwards |
| OrderBookState.OrderbookState.TopLevels | app/data/orderbook_service.py:203-210 | best first, with the side's quantities, as many as asked for if there are, and everything left out is worse |
| BookRefinement.BookIsLastSnapshotOverwritten | app/data/orderbook_service.py:69-121 | over every run: reliable exactly when a snapshot is followed by deltas without gap or crossing, and then the sides are the last writes per price and nothing more |
| BookRefinement.RunReflects | app/data/orderbook_service.py:69-121 | the same for a given last snapshot, with reliability and last sequence |
| BookRefinement.KeptSequencesAreConsecutive | app/data/orderbook_service.py:95-104 | in a clean run the kept numbered deltas are consecutive |
| BookRuns.BookStaysSafe | app/data/orderbook_service.py:69-128 | in every run of validated messages quantities and prices are positive and a reliable book is not crossed |
| BookHistory.CountersTellTheRun | app/data/orderbook_service.py:69-121 | over every run the two counters count the recoveries and the skipped numbers, and the two times are those of the last snapshot and of the last message that went into a reliable book |
| BookRuns.OnlySnapshotRestores | app/data/orderbook_service.py:69-121 | from unreliable, exactly an uncrossed snapshot leads back |
| BookRuns.ValidatedSnapshotRestores | app/data/event_validation.py:357-362 | validation's cross check is the book's: a snapshot restores exactly when validation would not reject it |
| BookRuns.DeltaIgnoredExactlyWhen | app/data/orderbook_service.py:87-104 | a numbered delta changes nothing exactly when it is refused or out of date |
| BookRuns.RepeatsOnlySendWaiting | app/data/orderbook_service.py:62-104 | for numbered feeds, whenever the book is reset, repeating accepted deltas anywhere leaves the same sides, sequence and reliability |
| BookRuns.RepeatsChangeNothingExactlyWhen | app/data/orderbook_service.py:87-104 | and at no point any difference, counters included, exactly when no repeat meets an empty book that is not waiting |
| BookRuns.RepeatsChangeNothing | app/data/orderbook_service.py:95-104 | which is so when the book is only reset while it waits |
| BookRuns.RepeatAfterResetSendsWaiting | app/data/orderbook_service.py:87-91 | a run that resets a reliable book and in which a repeat then makes the difference |
| BookRuns.RestartedNumberingBreaksRepeats | app/data/orderbook_service.py:73-105 | with a numbering that restarts lower it does not |
| MarketData.InstrumentTracker.HandleBook | app/data/market_data_service.py:427-444 | a frame is accepted or refused, a resync asked for at most every five seconds, both books afterwards |
| MarketData.InstrumentTracker.RequestBookResync | app/data/market_data_service.py:480-493 | asks and empties the book, or does nothing within five seconds |
| MarketData.FewRequestsInAnyWindow | app/data/market_data_service.py:480-488 | a window of length d holds at most 1 + d/5 requests |
| MarketData.OtherBooksTroubleReachesThisOne | app/data/market_data_service.py:435-444 | exactly when a frame for another book empties this one |
| MarketData.ReliableBookIsEmptied | app/data/market_data_service.py:435-444 | a concrete frame for a book never initialised that empties a reliable one |
| MarketData.OwnFrameRefusedWhenUnreliable | app/data/market_data_service.py:439-444 | an own frame is accepted exactly when it leaves the book reliable |
| Depth.DepthSnapshot | app/risk/evaluation_context.py:130-155 | a fresh snapshot is both sides' best levels of a reliable book, sorted, positive and not crossed |
| Vwap.WalkLevels | app/costs/orderbook_vwap.py:63-80 | the loop's totals are those of the greedy takes from the eligible levels |
| Vwap.WalkBook | app/costs/orderbook_vwap.py:20-103 | the whole result for every request, stale book and empty side included |
| WalkProperties.WalkIsOptimal | app/costs/orderbook_vwap.py:63-80 | no way of taking the same quantity from the eligible levels pays less (asks) or receives more (bids) |
| WalkProperties.ReportedPriceIsBestPossible | app/costs/orderbook_vwap.py:82-93 | so the reported average price is the best possible |
| WalkProperties.NothingEligibleIsLost | app/costs/orderbook_vwap.py:59-70 | on a sorted side the eligible levels are exactly those among the first max_levels that lie within the distance in basis points of the best price |
| WalkProperties.FilledAndUnfilledAddUp | app/costs/orderbook_vwap.py:63-92 | filled plus unfilled is the request, up to the cut-off |
| WalkProperties.FullyFilledExactlyWhen | app/costs/orderbook_vwap.py:63-92 | fully filled exactly when the eligible levels hold the request, else all of them are taken |
| WalkProperties.SlippageGrowsWithSize | app/costs/orderbook_vwap.py:68-87 | a larger request on the same side never has the smaller slippage |
| Sorting.SortSorts | app/costs/funding_projection.py:28 | sorted by the key and a permutation |
| Percentile.NearestRankMeans | app/costs/funding_projection.py:24-30 | the percentile is a sample, and at most t exactly when rank many samples are |
| Percentile.RankIsLeast | app/costs/funding_projection.py:24-30 | the rank is the least that covers the percentile, within the samples |
| Percentile.NearestRankIsMonotone | app/costs/funding_projection.py:24-30 | raising samples in any order never lowers it |
| Funding.AssumedRateIsMonotone | app/costs/funding_projection.py:88-91 | the assumed rate is never negative and never lower for a harsher history |
| Funding.FundingIsMonotone | app/costs/funding_projection.py:40-121 | funding is only ever a cost, and harsher samples neither make it cheaper nor change whether it can be projected |
| Funding.RateIsConservative | app/costs/funding_projection.py:88-111 | the rate charged is at least the current adverse one and at least the chosen rank of the recent samples, and thin history adds the buffer |
| Funding.IntervalsCoverHold | app/costs/funding_projection.py:93-100 | the intervals charged cover the hold time with less than one to spare, or are none when the next funding is later |
| Funding.ProjectedExactlyWhen | app/costs/funding_projection.py:50-86 | funding is refused exactly when enabled, without usable data, and data is required or the hold longer than a day; without data the buffer is charged |
| Funding.ModelledMeans | app/costs/funding_projection.py:88-111 | the modelled rate is at most t exactly when the current one and the chosen rank of the recent ones are, as they count against the position; it is charged per interval, with the buffer for fewer than three samples |
| Funding.IntervalsAreCharged | app/costs/funding_projection.py:93-100 | a modelled projection charges the intervals of the hold |
| CostModel.LegIsAdverse | app/costs/slippage.py:36-101 | every leg executes at a positive price on the adverse side of its reference |
| CostModel.SideFitsTrade | app/costs/slippage.py:24-33 | buying legs consume asks and fear higher prices, selling legs the reverse |
| CostEngine.EstimateCosts | app/costs/cost_engine.py:30-171 | the loop computes the estimate, or the first error, whose meaning the rows of CostMeaning give |
| ExecutionPrices.LegIsPricedFromWalk | app/costs/slippage.py:60-101 | every leg trades at reference * (average / best price of its walk, plus stress for a buyer, less for a seller), with its slippage and its fee |
| ExecutionPrices.LegIsPricedExactlyWhen | app/costs/slippage.py:53-87 | a leg can be priced exactly on a fresh book whose eligible levels hold the quantity, at a price above zero |
| ExecutionPrices.FeeMeans | app/costs/fee_resolver.py:19-25 | the maker or taker fee on what is traded |
| ExecutionPrices.DeeperIsDearer | app/costs/slippage.py:78-85 | a book with two levels: one unit at 1000.2, two at 1000.7 |
| CostMeaning.EstimateIsMeant | app/costs/cost_engine.py:60-171 | every figure of an estimate: both legs, buffer, gross and net loss, each target's results and ratios, total friction, cost share, slippage within its limit |
| CostMeaning.EstimatedExactlyWhen | app/costs/cost_engine.py:42-157 | when an estimate is made, and which refusal a bad request, a missing target, a wrong side and too much slippage give |
| CostMeaning.ValidationIsFirstClosed | app/risk/risk_validation.py:11-51 | validation gives the code of the first of its seven gates that is closed, and passes when all are open |
| CostEngine.FirstErrorStays | app/costs/cost_engine.py:103-128 | the first target that cannot be estimated decides the error |
| CostProperties.NetIsCashResult | app/costs/net_expectancy.py:35-74 | net loss and net results are the cash left by trading at the execution prices after fees, funding and buffer, both directions |
| CostProperties.CostShareIsNetOverGross | app/costs/cost_engine.py:130-138 | the cost share is 100 * (net - gross) / gross |
| CostProperties.NetRatioNeverAboveGross | app/costs/net_expectancy.py:62-74 | net R:R is never above gross for a target on the profitable side |
| CostProperties.PrimaryTargetIsProfitable | app/costs/net_expectancy.py:62-74 | a first target still positive after costs is on the profitable side |
| CostProperties.CostlierNeverRescues | app/risk/risk_validation.py:11-51 | what passes under higher fees and harsher funding passes under milder ones, and both can be estimated or neither |
| CostProperties.LargerLegIsNoBetter | app/costs/slippage.py:59-89 | a quantity that can be executed makes every smaller one executable, at no worse a price |
| Rounding.RoundingIsTight | app/risk/rounding.py:14-23 | rounding down or up gives the closest grid price on that side |
| Rounding.RoundingKeepsOrder | app/risk/rounding.py:14-29 | rounded values keep their order |
| Rounding.NearestIsNearest | app/risk/rounding.py:14-23 | half-even rounding is nearest, ties to even |
| Rounding.QuantumMeans | app/risk/rounding.py:14-29 | the grid of n decimals is a tenth of that of n - 1, and one for none |
| Sizing.SizingIsExact | app/risk/reference_position_sizing.py:26-94 | the size is the largest grid quantity within risk budget and notional cap, and one is returned exactly when that is positive and reaches the minimum notional |
| Sizing.BestIsLargest | app/risk/reference_position_sizing.py:38-77 | the smaller of the two rounded quantities is that largest one |
| Sizing.FinalCheckNeverFires | app/risk/reference_position_sizing.py:78-83 | the post-rounding check cannot fail |
| MarginModel.ResolveRates | app/risk/margin_model.py:17-58 | rates are only used when 0 < maintenance < initial < 1 |
| MarginModel.BuiltMarginIsConservative | app/risk/margin_model.py:92-110 | the threshold nearer to the position is used, and the initial margin is notional / leverage |
| MarginModel.ThresholdLeavesMaintenance | app/risk/margin_model.py:100-105 | at the threshold exactly maintenance margin and stress buffer are left of the initial margin, both directions |
| MarginModel.LowerLeverageIsFarther | app/risk/margin_model.py:100-110 | a lower leverage moves the threshold away from the position |
| MarginModel.LowerLeveragePasses | app/risk/liquidation_buffer.py:37-47 | a leverage that passes makes every lower one down to 1x pass |
| LiquidationSafety.PassingIsSafety | app/risk/liquidation_buffer.py:19-60 | what the search tests, in prices: the thresholds anchored at entry and mark are both on the far side of the invalidation, by the minimum in basis points of the mark and in ATR, within the initial-margin bound |
| LiquidationSafety.RefusalIsFirstClosed | app/risk/margin_model.py:17-90 | why a margin cannot be modelled: the first of seven gates |
| LiquidationSafety.MarginFigures | app/risk/margin_model.py:92-130 | every figure of a margin and of its buffer |
| Leverage.TierCap | app/risk/leverage_suitability.py:27-40 | the cap of the applicable tier with the greatest bound, the last of equals, malformed tiers skipped |
| Leverage.ReductionsAddUp | app/risk/leverage_suitability.py:68-89 | the three reductions together take their sum off the smallest limit, not below 1 |
| Leverage.CapIsReducedLimit | app/risk/leverage_suitability.py:67-89 | the cap from instrument, tier and conditions: when each reduction applies |
| Leverage.CandidatesAreHalfSteps | app/risk/leverage_suitability.py:91-97 | the candidates are the cap to two decimals less multiples of 0.5x, then 1x, no two more than half a step apart |
| Leverage.Round2Means | app/risk/leverage_suitability.py:91-97 | two decimals are whole hundredths, nowhere more than half of one away |
| Leverage.ListCandidates | app/risk/leverage_suitability.py:91-97 | the list of candidates |
| Leverage.CandidatesFallToOne | app/risk/leverage_suitability.py:91-97 | candidates fall strictly from the rounded cap to exactly 1x |
| Leverage.CandidatesWithinCapExactlyWhen | app/risk/leverage_suitability.py:91-97 | they stay within the cap exactly when it is at least 1 and not rounded up |
| Leverage.ReturnedExceedsCapExactlyWhen | app/risk/leverage_suitability.py:91-139 | the leverage returned exceeds the cap exactly when the cap is below 1, or is rounded up and the rounded cap passes |
| Leverage.CapsThatAreExceeded | app/risk/leverage_suitability.py:91-139 | two overrides of the shipped settings for which the search returns 1x over a cap of 0.5x and 1.01x over 1.006x |
| Leverage.GivenCapsAreKept | app/risk/leverage_suitability.py:68-139 | with configured, market and tier caps of at least 1 and two decimals, the leverage returned is within all of them |
| Leverage.SearchCandidates | app/risk/leverage_suitability.py:99-156 | the first candidate that passes with its margin and buffer, or the exact rejection |
| Leverage.DetermineLeverage | app/risk/leverage_suitability.py:43-156 | every real leverage from 1 to the returned one keeps its distance in prices, no larger candidate does, and one is returned exactly when 1x does |
| Leverage.SearchRefusalIsFirstClosed | app/risk/leverage_suitability.py:99-156 | why none is returned: the margin cannot be modelled, or no candidate leaves enough room |
| Leverage.RangeIsHonest | app/risk/leverage_suitability.py:67-156 | the same for every cap, with 1x to 3x as bounds, and within all caps for a cap that is not rounded up |
| RiskSettingsOverrides.Collect | app/risk/risk_engine.py:48-54 | whitelisted entries of a source over what was collected |
| RiskSettingsOverrides.EffectiveRiskSettings | app/risk/risk_engine.py:45-60 | symbol over asset class over configured for seven settings, nothing else, leverage cap at most 3 |
| TechnicalFrame.ZoneHoldsReference | app/risk/reference_entry.py:78-85 | the rounded zone holds the rounded reference |
| TechnicalFrame.InvalidationBeyondZone | app/risk/technical_invalidation.py:67-93 | an invalidation on the right side of the reference is beyond the whole zone, by the common tick grid |
| TechnicalFrame.FrameIsOrdered | app/risk/risk_distance.py:10-54 | every accepted frame is ordered with a positive distance |
| FrameMeaning.FrameIsFirstClosed | app/risk/reference_entry.py:30-100 | every figure of an accepted frame, and otherwise the code of the first of its eleven gates that is closed |
| FrameMeaning.SizeIsFirstClosed | app/risk/reference_position_sizing.py:26-94 | a size is returned when its six gates are open, otherwise the code of the first closed one |
| Targets.CandidatesAreExactly | app/risk/reference_targets.py:47-63 | the candidates are exactly the relevant levels on the profitable side |
| Targets.SortedIsNearestFirst | app/risk/reference_targets.py:69 | nearest first on the profitable side, and a permutation |
| Targets.OnlyBeyondEntryExactlyWhen | app/risk/reference_targets.py:58-63 | for all level lists only targets beyond the entry are offered exactly when min_distance_bps is not negative |
| Targets.WrongSideIsOffered | app/risk/reference_targets.py:58-63 | with -100 bps a level on the wrong side is offered, in both directions |
| Targets.DeriveTargets | app/risk/reference_targets.py:37-86 | the nearest three, in order, none nearer left out, or the right error |
| FrameMeaning.TargetsMean | app/risk/reference_targets.py:37-86 | the targets are the first three, or all, of the known levels beyond the minimum distance, in order; which of two refusals comes otherwise |
| RiskEngine.Evaluate | app/risk/risk_engine.py:70-258 | a plan is returned exactly when all gates are open, every step succeeds and the score suffices, and then with those parts; otherwise the code of the first gate or step that stopped it |
| RiskEngine.AcceptedIsUnique | app/risk/risk_engine.py:70-258 | the accepted parts are determined by the inputs, and accepted inputs are never also stopped |
| PlanMeaning.GateIsFirstClosed | app/risk/risk_engine.py:89-152 | the code of the first closed one of fourteen hard gates, none when all are open |
| PlanMeaning.StepsSeeTheContext | app/risk/risk_engine.py:155-206 | which quote, spread, ATR, level, funding, schedule and quantity each step is given |
| PlanMeaning.AssembledHolds | app/risk/risk_engine.py:155-206 | every part of an assembled plan from the context alone: frame, targets, size, leverage and every figure of its costs |
| PlanMeaning.StopSaysWhy | app/risk/risk_engine.py:89-258 | every stop: the stage, and the first thing that was wrong there, with all before it in order |
| PlanMeaning.WarningsMean | app/risk/risk_engine.py:205-210 | a plan warns of thin funding data and of approximated rates exactly when it has them |
| PlanMeaning.CostErrorsKeepTheirName | app/risk/risk_engine.py:63-67 | a cost error becomes the rejection of the same name |
| Leverage.FoundIsUnique | app/risk/leverage_suitability.py:101-156 | the outcome of the leverage search is determined by its inputs |
| PlanSafety.AssembledIsSound | app/risk/risk_engine.py:155-206 | liquidation, invalidation, entry and targets are ordered in both directions, the invalidation is beyond the zone, net R:R and cost share hold, leverage is within 1..3 and honest |
| PlanSafety.EvaluateCandidate | app/risk/risk_engine.py:70-258 | under any overrides a plan is returned exactly when every gate and step of the effective settings passes; every plan is sound and holds part by part, and every refusal is explained |
| PlanFeasibility.FrameIsNear | app/risk/technical_invalidation.py:61-93 | for buffers and a chase limit no wider than shipped, an accepted distance is below 0.5 percent of the level plus four ticks, both directions |
| PlanFeasibility.CostsNeedDistance | app/costs/cost_engine.py:130-138 | for fees and stress no milder than shipped, costs within 15 percent need a distance of at least 1/0.15 times the charges on the two prices |
| PlanFeasibility.ShippedSettingsAcceptNothing | app/config.py:631-753 | with settings and fees no milder than shipped no plan is accepted in any context whose tick is at most 25 bps of the candidate's level |
| AcceptedPlan.WiderBufferIsAccepted | app/risk/risk_engine.py:70-258 | one market, worked out from gate to cost share, with an accepted plan for an ATR buffer share of 1.5 and none for the shipped one |
| RateLimiter.WeightedRateLimiter.constructor | app/adapters/rate_limiter.py:16-31 | a full bucket of the budget |
| RateLimiter.WeightedRateLimiter.Create | app/adapters/rate_limiter.py:16-31 | refused exactly for a budget that is not positive |
| RateLimiter.WeightedRateLimiter.Refill | app/adapters/rate_limiter.py:33-37 | refills for the time passed, capped, and keeps every budget fact |
| RateLimiter.WeightedRateLimiter.AvailableTokens | app/adapters/rate_limiter.py:39-42 | the tokens after a refill; nothing is granted |
| RateLimiter.WeightedRateLimiter.Sleep | app/adapters/rate_limiter.py:55-57 | readers may refill during the sleep any number of times; the awaited tokens are there at its end |
| RateLimiter.WeightedRateLimiter.Acquire | app/adapters/rate_limiter.py:44-57 | the two errors, else one grant of the weight after at most two rounds, whoever reads in between; it sleeps only when the bucket is short, and takes no more than the weight |
| RateLimiter.RefilledMeans | app/adapters/rate_limiter.py:33-37 | a refill adds what the time is worth, up to the capacity |
| RateLimiter.WindowIsBounded | app/adapters/rate_limiter.py:33-57 | any window of length d is granted at most capacity + rate * d |
| Candles.FindGaps | app/data/candle_service.py:32-75 | gaps are ordered and disjoint and exactly the hull without the candle buckets, for any order and repetition; lengths add up for spaced candles |
| Candles.SortedUniqueIsSet | app/data/candle_service.py:46 | sorted, without repetition, same members |
| Candles.BucketsAddUp | app/data/candle_service.py:26-29 | for gaps of whole buckets the counts lose nothing |

## Left out

- REST, WebSocket, Redis, SQLAlchemy sessions, Telegram, FastAPI, logging, metrics, dashboards and texts: plumbing.
- Order book summaries (`mid_price`, `spread_*`, `depth_*`, `top`): each is one expression over the two sides.
- Floating-point rounding error; all arithmetic is exact.
- LifecycleProtocol: a transition's row commit and event commit are separate steps, but a database constraint other
  than the keys named in `LifecycleTable` is not modelled, nor are the lifecycle columns no statement here reads.
- LifecycleMonitor.MonitorJob.MonitorPhase: the rows of a cycle are taken one after the other, with other workers'
  commits in between; that they run concurrently is the subject of `LifecycleProtocol`.
- PlanProtocol.PlanRunKeepsInv: the plan event log is only modelled in `PlanRepository`.
- PlanRepository.Repository.Transition: the read and the commit are one step; `LateWriteIsATransition` shows that for
  the plan table a commit that comes later has the same effect, while the from-status it logs may be stale.
- Depth.DepthSnapshot: the conversion from decimals to floats is exact here; feed freshness is an input.
- Vwap.WalkBook: the detail text is not modelled.
- Funding.FundingIsMonotone: the hold time must not be negative, which the settings validators guarantee for the only
  caller.
- MarginModel.LowerLeveragePasses: the entry must be positive, as sizing has already required.
- MarginModel: the buffer check's branch for a margin without threshold is not modelled, because the margin model
  always supplies one.
- Leverage.TierCap: tiers are the list of mappings this function expects. `app/repositories/instrument_repository.py`
  stores them as one mapping with a "tiers" entry, and the conversion in between is not part of this model.
- RiskEngine.Evaluate: the score is a function parameter, because its weights and fractions are settled by reading one
  function; plan identifiers, confidences, reasons and validity times are not modelled.
- RateLimiter.WeightedRateLimiter.Acquire: the clock never runs backwards and a sleep lasts at least as long as asked.
- Market selection, candidate scoring, strategy, simulation, retention and the persistence buffer.
