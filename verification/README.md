# ECONITH: a verified model of its risk, isolation, scheduling, storage and evaluation logic

ECONITH is a trading and simulation platform. Its Sentinel replays executions into a ledger, watches drawdown,
VaR and latency, and freezes trading through a circuit breaker. A mode-gated event bus and an execution bridge
keep simulated data and live orders apart. A tick pipeline and a wave scheduler fix the order of work. A market
collector writes numbered segments that must never overwrite each other. An evaluation suite asks whether macro
data improves volatility forecasts without looking ahead. This project models those parts in Dafny and proves
what the code promises; where a promise does not hold, it gives a counterexample and, where it is known, the
exact condition under which the promise holds.

## How the model reads

- One module for each component, named after it. Objects whose methods update fields are classes; every method
  is proved against a function on values, and the results over whole runs are lemmas about those functions.
- Floats are reals, without rounding; NaN and infinity are `None`. The clock is a parameter of each call.
  Logarithm, square root, powers of two, the world model, the Monte-Carlo draw and the random permutation are
  arbitrary functions or parameters. A square root ends both volatilities, so `Metrics` stops at the variance.
- The code between two `await`s is one step. A run is a sequence of steps in any order the code allows. What a
  venue, a disk or a handler answers is part of the step that resumes. Publishing puts an event on an unbounded
  queue and does not suspend, so it ends no step.
- `Basics` holds optional values and a little arithmetic; `Sorting` the stable sort that the components call.

## Where the code differs from its own words

- `sentinel/manager.py` calls its equity execution truth. An opening fill against a held position is averaged into
  the entry price and loses the gain or loss of what it closed. `Ledger.RunReconcilesExactlyWhenFaithful` says
  exactly which fills keep the books right.
- `sentinel/manager.py:193` calls `reset` a re-arm. It clears the freeze but not the breaker the freeze tripped, so
  the mode stays FROZEN until the breaker's own cooldown (`SentinelRuns.ResetLiftsOnlyTheFreeze`,
  `SentinelRuns.ResetAfterFreezeStaysFrozen`).
- `sentinel/var.py`: CVaR can fall when a loss rises, because ties with the threshold enter the tail
  (`ValueAtRisk.CvarMonotoneExactlyWithoutTies`).
- `core/event_bus.py:11-17` promises that no `world.` event reaches an execution node in REALITY. The controller
  always boots in REALITY but the gate takes its boot value from an environment variable; until the first mode
  change they may disagree (`EventBuses.NeverLeaksExactlyWhenBootedInReality`).
- `quant/ccxt_bridge.py:172-173` drops the live session on leaving REALITY. A reconnect in flight installs a new one
  afterwards, and a waiting execute then orders on it (`ExecutionBridge.RunAirGappedExactlyWithoutLateSession`,
  `ExecutionBridge.OrdersOutsideRealityExactlyWhen`).
- `quant/ccxt_bridge.py:9` calls live execution hard-sandboxed from the simulated world. An order that raises is
  indeed never filled (lines 361-362), but one accepted without an average is priced from the simulated marks when
  the ticker raises or the session is gone by then, and reported FILLED in REALITY
  (`ExecutionBridge.LivePriceIsSyntheticExactlyWhen`, `ExecutionBridge.InFlightLossFillsAtWorldMark`).
- `training/orchestrator.py:157-160` promises a cap on simultaneous GPU workers. A CPU job that ends frees a pool
  worker for a GPU job beyond the cap, and a cap below one is ignored (`Waves.CapHoldsExactlyWithoutSpareWorkers`).
- `econith-vps-collector/storage.py:191-195` promises that restarts never overwrite. The family name is used as a
  glob pattern; a name that does not match itself is overwritten and loses rows
  (`StorageRuns.NeverOverwritesExactlyWhenNameFindsItself`, `StorageRuns.RowsAreConservedExactlyWhenNameFindsItself`).
- `econith-vps-collector/storage.py:173` counts the rows written. A batch that aborts after its first segments leaves
  them on disk and out of the count (`StorageRuns.WrittenCountsRows`, `StorageRuns.AbortedBatchIsNotCounted`).
- `core/engine.py:129-130` says a higher authority is needed to suppress an action; the code also accepts an equal
  one (`Vetoes.SuppressesAsDesignedExactlyWhen`). Line 127 speaks of a lower one
  (`Vetoes.MatchesFirstLineExactlyWhen`).
- `KHKT_Evaluation/common/metrics.py:152-158` measures each fall from the running peak. Once a curve has risen, some
  negative level falls further from an earlier, lower row (`Metrics.SurvivesEveryLevelExactlyWhenNeverRisen`).

## Model

| member | source | states |
|---|---|---|
| CircuitBreakers.CircuitBreaker.constructor | sentinel/circuit_breaker.py:33-47 | starts CLOSED, without failures or opening time |
| CircuitBreakers.CircuitBreaker.MaybeHalfOpen | sentinel/circuit_breaker.py:69-75 | moves OPEN to HALF_OPEN once the cooldown since the opening time has elapsed, else changes nothing |
| CircuitBreakers.CircuitBreaker.Set | sentinel/circuit_breaker.py:77-86 | a transition to another state records reason and, into OPEN, the time; to the same state nothing |
| CircuitBreakers.CircuitBreaker.EmitHook | sentinel/circuit_breaker.py:88-90 | calls the hook once for a real transition |
| CircuitBreakers.CircuitBreaker.State | sentinel/circuit_breaker.py:50-53 | reading the state performs the lazy transition |
| CircuitBreakers.CircuitBreaker.IsOpen | sentinel/circuit_breaker.py:55-62 | open exactly when traffic is not allowed |
| CircuitBreakers.CircuitBreaker.RecordSuccess | sentinel/circuit_breaker.py:92-96 | clears the counter and closes a probing breaker |
| CircuitBreakers.CircuitBreaker.Trip | sentinel/circuit_breaker.py:98-101 | forces OPEN |
| CircuitBreakers.CircuitBreaker.RecordFailure | sentinel/circuit_breaker.py:103-114 | counts, reopens a probing breaker, opens at the threshold |
| CircuitBreakers.OpenClosesOnlyThroughHalfOpen | sentinel/circuit_breaker.py:69-114 | in every run OPEN reaches CLOSED only through HALF_OPEN |
| CircuitBreakers.StaysOpenDuringCooldown | sentinel/circuit_breaker.py:69-86 | no sequence of calls leaves OPEN before the cooldown of the latest opening |
| CircuitBreakers.OpenedAtLatestEntry | sentinel/circuit_breaker.py:83-84 | the stored opening time is that of the latest entry into OPEN |
| CircuitBreakers.TrafficExactlyAfterCooldown | sentinel/circuit_breaker.py:59-75 | after the latest opening a query allows traffic exactly when the cooldown has elapsed |
| CircuitBreakers.FailureCounterCounts | sentinel/circuit_breaker.py:92-104 | the counter is the number of failures since the last success, below the threshold while CLOSED |
| CircuitBreakers.ClosedOpensExactlyAtThreshold | sentinel/circuit_breaker.py:103-114 | a CLOSED breaker opens by a failure exactly when the failures since the last success reach the threshold |
| CircuitBreakers.StepHooks | sentinel/circuit_breaker.py:88-114 | one call adds one hook call into OPEN exactly when it enters OPEN |
| CircuitBreakers.HookFiresOncePerOpening | sentinel/circuit_breaker.py:88-114 | over any run the hook hears of every entry into OPEN once and never of HALF_OPEN |
| ValueAtRisk.SortSorts | sentinel/var.py:60 | sorting gives an ascending rearrangement |
| Sorting.SortOrders | sentinel/var.py:60 | the stable insertion sort puts any list in order |
| Sorting.SortRearranges | sentinel/var.py:60 | it neither loses nor repeats a value |
| Sorting.SortIsStable | core/engine.py:177-178 | values of a class that arrive in order stay in that order |
| ValueAtRisk.ThresholdInterpolates | sentinel/var.py:38-50 | the percentile of the losses is interpolation at confidence times the last index |
| ValueAtRisk.InterpolationMonotone | sentinel/var.py:44-50 | interpolation of a sorted list never falls as the rank grows |
| ValueAtRisk.TailIsSuffix | sentinel/var.py:62 | the losses at or above a bound are a suffix of the sorted list |
| ValueAtRisk.Anatomy | sentinel/var.py:53-64 | both numbers are clamped threshold and mean of a non-empty tail, so the empty-tail branch is dead |
| ValueAtRisk.OrderOfReturnsIsIrrelevant | sentinel/var.py:53-64 | both numbers depend only on the bag of returns |
| ValueAtRisk.TailMeanCoversThreshold | sentinel/var.py:61-64 | zero, VaR and CVaR are in ascending order |
| ValueAtRisk.RiskRisesWithConfidence | sentinel/var.py:53-64 | neither number falls when the confidence rises |
| ValueAtRisk.RiskScales | sentinel/var.py:101-110 | scaling all returns by a positive factor scales both numbers |
| ValueAtRisk.PointwiseWorseIsWorse | sentinel/var.py:60 | pointwise lower returns give losses at least as bad rank by rank |
| ValueAtRisk.VarRisesWithLosses | sentinel/var.py:53-64 | VaR never falls when returns get worse |
| ValueAtRisk.UntiedHasLargerTailMean | sentinel/var.py:61-64 | outside three checkable cases some better sample has the larger CVaR |
| ValueAtRisk.CvarMonotoneExactlyWithoutTies | sentinel/var.py:61-64 | CVaR is at least that of every better sample exactly when no tie, a flat tail or a harmless tail |
| ValueAtRisk.CvarFallsWhenALossRises | sentinel/var.py:61-64 | a concrete loss that rises while CVaR falls |
| ValueAtRisk.HistoricalSimulationVaR.constructor | sentinel/var.py:81-89 | an empty window |
| ValueAtRisk.HistoricalSimulationVaR.Update | sentinel/var.py:91-93 | keeps the latest finite returns up to the window, drops NaN and infinity |
| ValueAtRisk.HistoricalSimulationVaR.EstimateRisk | sentinel/var.py:101-124 | with enough samples the unscaled risk times the horizon factor, else the Monte-Carlo draw |
| Ledger.Decode | sentinel/manager.py:211-227 | which payloads raise, which are malformed, which match (all others are skipped), and the quantity and price of a match, a positive quantity |
| Ledger.FaithfulExactlyInStep | sentinel/manager.py:225-239 | quantity and money both stay in step with the exchange exactly for a faithful fill |
| Ledger.OpenMoney | sentinel/manager.py:233-239 | the averaging branch books the right cost exactly when the open does not oppose the holding, or by coincidence |
| Ledger.CloseMoney | sentinel/manager.py:228-232 | closing a holding of its own side realises exactly the cash gained |
| Ledger.FillReconcilesExactlyWhenFaithful | sentinel/manager.py:205-242 | a fill keeps reconciled books reconciled exactly when it is faithful |
| Ledger.OpposingOpenLosesTheGain | sentinel/manager.py:233-239 | an opposing open leaves the account ten richer and the ledger unmoved |
| Ledger.ReconciledEquityIsAccountValue | sentinel/manager.py:304-332 | on reconciled books equity is cash plus holdings at the mark |
| Ledger.ReconciledExactlyWhenRightAtAllMarks | sentinel/manager.py:304-332 | reconciliation is exactly what makes equity right at every mark |
| Ledger.RunReconcilesExactlyWhenFaithful | sentinel/manager.py:205-242 | over any run books and exchange agree at every moment exactly when every fill was faithful |
| Ledger.EquityIdentity | sentinel/manager.py:205-242 | over faithful runs capital plus realised plus unrealised is cash plus holdings at the mark |
| SentinelManager.Sentinel.constructor | sentinel/manager.py:73-126 | initial equity, peak and thresholds from the configuration |
| SentinelManager.Sentinel.RecomputeUnrealized | sentinel/manager.py:325-332 | the loop computes the mark-to-market sum over all positions |
| SentinelManager.Sentinel.RecomputeEquity | sentinel/manager.py:306-314 | equity, its return into the VaR window, the raised peak |
| SentinelManager.Sentinel.Govern | sentinel/manager.py:316-323 | freezes once and trips the breaker when drawdown reaches the limit |
| SentinelManager.Sentinel.RevalueAndGovern | sentinel/manager.py:304-323 | valuation, then governance |
| SentinelManager.Sentinel.ApplyTrade | sentinel/manager.py:225-241 | the in-place position update is the ledger's step |
| SentinelManager.Sentinel.HandleFill | sentinel/manager.py:205-242 | only a matched execution changes anything |
| SentinelManager.Sentinel.HandleTicker | sentinel/manager.py:280-301 | marks, heartbeat and revaluation, with both error paths |
| SentinelManager.Sentinel.RecordHeartbeat | sentinel/manager.py:289-298 | a late heartbeat counts as a failure, a timely one as a success |
| SentinelManager.Sentinel.HandleDirective | sentinel/manager.py:142-171 | all three thresholds clamped around their baselines |
| SentinelManager.Sentinel.HandleCapitalSync | sentinel/manager.py:244-257 | re-bases only an empty book from a positive base |
| SentinelManager.Sentinel.HandleWalletSync | sentinel/manager.py:259-278 | replaces the positions and sets realised profit to what the wallet implies |
| SentinelManager.Sentinel.OperatorReset | sentinel/manager.py:192-196 | re-baselines the peak, clears freeze and soft breach, leaves the breaker |
| SentinelManager.Sentinel.ResolveMode | sentinel/manager.py:372-377 | the mode from breaker, freeze and soft breach |
| SentinelManager.Sentinel.RunCycle | sentinel/manager.py:335-364 | one pass of the risk loop |
| SentinelManager.Sentinel.Rearm | sentinel/manager.py:358-362 | lifts the freeze at its deadline and re-baselines the peak |
| SentinelManager.Sentinel.Pause | sentinel/manager.py:198-202 | only the pause flag changes |
| SentinelRuns.LimitsStayInEnvelope | sentinel/manager.py:142-171 | over any run every limit stays in its envelope around the baseline |
| SentinelRuns.BaselineDrawdownFreezes | sentinel/manager.py:304-323 | after a processed fill or ticker, drawdown at the baseline implies frozen whatever directives came before |
| SentinelRuns.RevaluingGoverns | sentinel/manager.py:316-323 | the same against the limit in force |
| SentinelRuns.FreezeLasts | sentinel/manager.py:358-362 | without an operator reset the freeze lasts until its deadline |
| SentinelRuns.OpenBreakerLasts | sentinel/circuit_breaker.py:69-86 | an opened breaker stays OPEN until its cooldown, resets included |
| SentinelRuns.FreezeTripsBreaker | sentinel/manager.py:317-323 | freezing leaves the breaker OPEN and sets the deadline |
| SentinelRuns.FrozenModeLasts | sentinel/manager.py:372-377 | once frozen at t the mode is FROZEN until t + cooldown unless reset, and even then if the freeze opened the breaker |
| SentinelRuns.ResetLiftsOnlyTheFreeze | sentinel/manager.py:192-196 | right after a reset the mode is FROZEN exactly while the breaker's own cooldown runs |
| SentinelRuns.ResetAfterFreezeStaysFrozen | sentinel/manager.py:192-196 | for every configuration a buy, a crash and a reset after which nothing is frozen and the mode is FROZEN |
| SentinelRuns.CycleRearms | sentinel/manager.py:358-362 | the first unpaused pass at the deadline lifts the freeze and zeroes the drawdown |
| SentinelRuns.SoftBreachIsHistorical | sentinel/manager.py:341-349 | the soft breach is the scaled historical VaR above the limit; the Monte-Carlo draw never decides |
| SentinelRuns.StepMovesPeak | sentinel/manager.py:244-314 | rebases set the peak to the equity, other moves raise it, nothing else touches either |
| SentinelRuns.PeakCoversEquity | sentinel/manager.py:244-362 | over any run, syncs included, the peak is at least the equity |
| SentinelRuns.PeakIsCurvePeak | sentinel/manager.py:314 | the peak is the running maximum of the equity curve since the last rebase |
| SentinelRuns.OnlineDrawdownIsCurveDrawdown | sentinel/manager.py:367-370 | on a comparable equity curve the worst online drawdown since a rebase is the evaluation's maximum drawdown of that curve |
| SentinelRuns.OnlineDrawdownAboveFloor | sentinel/manager.py:304-323 | so it is for every curve that starts at the floor or above |
| SentinelRuns.RowsAgreeExactlyWhenComparable | sentinel/manager.py:367-370 | the two drawdowns agree at every row of a curve exactly when each row is at its peak or the peak clears the floor |
| SentinelRuns.EquityAlwaysAddsUp | sentinel/manager.py:244-314 | over any run, syncs included, equity is capital plus realised plus unrealised and the base of the next return |
| SentinelRuns.BooksFollowLedger | sentinel/manager.py:205-301 | without syncs the Sentinel's books are the ledger's over the same events |
| SentinelRuns.EquityIsExecutionTruth | sentinel/manager.py:205-332 | after a processed event of a faithful run the equity is cash plus holdings at the mark |
| Modes.ModeManager.constructor | core/mode.py:73-76 | the boot mode, no listeners |
| Modes.ModeManager.Set | core/mode.py:102-117 | commits a parsed mode and notifies every listener exactly on a change |
| Modes.ModeManager.Toggle | core/mode.py:119-123 | always changes the mode and notifies |
| Modes.ModeManager.OnChange | core/mode.py:125-127 | appends a listener |
| Modes.SystemController.constructor | core/system_controller.py:138-150 | always boots in REALITY with the bridge requested |
| Modes.SystemController.SetMode | core/system_controller.py:204-213 | after a transition the manager holds the image of the operating mode |
| Modes.SystemController.SetWorldSimulation | core/system_controller.py:215-223 | changes only the compute switch |
| Modes.SystemController.SetWorldToQuantBridge | core/system_controller.py:225-229 | changes only the bridge switch |
| Modes.SystemController.Coupling | core/system_controller.py:190-201 | coupling needs both switches and a mode that maps to SIMULATION |
| EventBuses.EventBus.constructor | core/event_bus.py:79-86 | no subscribers, empty queue |
| EventBuses.EventBus.Subscribe | core/event_bus.py:88-98 | appends to the topic's subscriptions |
| EventBuses.EventBus.Publish | core/event_bus.py:100-101 | appends to the queue |
| EventBuses.EventBus.DispatchOne | core/event_bus.py:142-161 | hands the oldest event to the ungated subscribers in order, gate read at dispatch |
| EventBuses.QueueFollowsHistory | core/event_bus.py:100-144 | the queue is the published sequence without its served part |
| EventBuses.ModesFollowHistory | core/system_controller.py:204-213 | gate and operating mode follow the latest transition |
| EventBuses.SubscribersFollowHistory | core/event_bus.py:88-98 | the subscriptions are those made so far, in order |
| EventBuses.HandlersReceiveExactlyWhatIsOwed | core/event_bus.py:142-161 | over any run a handler's sequence is the published one filtered by topic and by the gate at dispatch |
| EventBuses.SoleSubscriberReceivesItsTopic | core/event_bus.py:142-161 | a sole ungated subscriber gets the served events of its topic, in order, each once |
| EventBuses.FirstModeChangeIsolates | core/event_bus.py:121-128 | after the first mode change no dispatch leaks, whatever the boot value |
| EventBuses.NeverLeaksExactlyWhenBootedInReality | core/mode.py:63 | no run leaks a world event in REALITY exactly when the gate boots in REALITY |
| EventBuses.SimulationBootLeaks | core/event_bus.py:121-128 | the leaking run |
| EventBuses.CouplingOnlyBehindOpenGate | core/system_controller.py:190-213 | whatever the boot value, coupling is effective only while the gate is in SIMULATION |
| ExecutionBridge.CCXTBinanceBridge.constructor | quant/ccxt_bridge.py:160-162 | no session, guard not armed |
| ExecutionBridge.CCXTBinanceBridge.ArmModeGuard | quant/ccxt_bridge.py:165-170 | registers the listener once |
| ExecutionBridge.CCXTBinanceBridge.OnModeChange | quant/ccxt_bridge.py:172-183 | drops session and live flag on leaving REALITY |
| ExecutionBridge.CCXTBinanceBridge.Connect | quant/ccxt_bridge.py:201-238 | not live, guard armed, and loading only in REALITY with credentials |
| ExecutionBridge.CCXTBinanceBridge.ResumeConnect | quant/ccxt_bridge.py:238-259 | installs the session on success whatever the mode is by then |
| ExecutionBridge.CCXTBinanceBridge.Close | quant/ccxt_bridge.py:300-303 | clears the live flag, disposes a session |
| ExecutionBridge.CCXTBinanceBridge.ResumeClose | quant/ccxt_bridge.py:303-304 | drops whatever session is held then |
| ExecutionBridge.CCXTBinanceBridge.UpdateSimMark | quant/ccxt_bridge.py:349-351 | sets one mark |
| ExecutionBridge.CCXTBinanceBridge.Execute | quant/ccxt_bridge.py:354-453 | goes live only in REALITY with a live session, where sizing or lowering the payload may raise, else fills synthetically |
| ExecutionBridge.CCXTBinanceBridge.SubmitOrder | quant/ccxt_bridge.py:479-490 | orders on the session held now, or ends rejected |
| ExecutionBridge.CCXTBinanceBridge.ResumeOrder | quant/ccxt_bridge.py:363-377 | the report of a refused order, or of an accepted one and its price source |
| ExecutionBridge.SwitchMode | quant/ccxt_bridge.py:165-183 | a mode change runs the armed guard in the same step |
| ExecutionBridge.SyntheticFillSlipsAgainstOrder | quant/ccxt_bridge.py:516-523 | a synthetic fill is worse than the mark for its side, by at most 0.2 percent |
| ExecutionBridge.AlwaysGuarded | quant/ccxt_bridge.py:201-259 | a session or a loading connect exists only behind an armed guard |
| ExecutionBridge.AirGapBreaksExactlyOnLateSession | quant/ccxt_bridge.py:172-259 | one step breaks the air gap exactly when it installs a session after REALITY was left |
| ExecutionBridge.RunAirGappedExactlyWithoutLateSession | quant/ccxt_bridge.py:172-259 | every moment of a run is air-gapped exactly when no session arrives late |
| ExecutionBridge.OrdersOnlyInReality | quant/ccxt_bridge.py:449-490 | without late sessions every order is issued while the mode is REALITY |
| ExecutionBridge.NoConnectAcrossLeavingKeepsAirGap | quant/ccxt_bridge.py:172-259 | leaving REALITY only with no connect in flight is enough, for every run |
| ExecutionBridge.ReconnectAcrossLeavingSendsOrder | quant/ccxt_bridge.py:449-490 | an interleaving that orders in SIMULATION |
| ExecutionBridge.OrdersOutsideRealityExactlyWhen | quant/ccxt_bridge.py:172-259 | outside REALITY some continuation that stays outside orders exactly when an execute is sizing and a session is held or loading |
| ExecutionBridge.ReportsAreTruthful | quant/ccxt_bridge.py:354-405 | in every interleaving a live execute orders at most once and is FILLED only if its order went out; a fill of mode SIMULATION never orders and answers only an execute that found no live session in REALITY |
| ExecutionBridge.LostSessionEndsUnfilled | quant/ccxt_bridge.py:477-490 | an execute whose session is gone when it comes to order ends not filled, without an order |
| ExecutionBridge.LostInFlightFillsExactlyWhenAccepted | quant/ccxt_bridge.py:491-498 | an execute whose session goes while its order is out ends filled exactly when the venue accepted, and without an average at the simulated mark |
| ExecutionBridge.LivePriceIsSyntheticExactlyWhen | quant/ccxt_bridge.py:491-498 | in every interleaving a live price is the simulated mark exactly when the accepted answer had no positive average and no session was held when it came back or the ticker raised |
| ExecutionBridge.InFlightLossFillsAtWorldMark | quant/ccxt_bridge.py:493-498 | a run whose live report is FILLED in REALITY at the simulated mark, for any intent and mark |
| ExecutionBridge.ReportsAreFinal | quant/ccxt_bridge.py:354-405 | a finished execute keeps its report |
| SegmentNames.DecimalReadsBack | econith-vps-collector/storage.py:200 | a printed number reads back |
| SegmentNames.NumberReadsBack | econith-vps-collector/storage.py:44 | the regular expression finds the printed number and nothing earlier |
| SegmentNames.NameReadsBack | econith-vps-collector/storage.py:187-200 | channel, hour and number are recoverable from a segment name, for every channel |
| SegmentNames.ScanNextSeq | econith-vps-collector/storage.py:203-214 | the loop returns one more than the highest listed number |
| SegmentNames.AnyEndMatches | econith-vps-collector/storage.py:209-210 | whether the glob accepts a family's name does not depend on its number |
| SegmentNames.OwnSegmentsMatch | econith-vps-collector/storage.py:209-210 | a name that matches its own first segment matches all of them |
| SegmentNames.BracketFreeFindsOwn | econith-vps-collector/storage.py:209-210 | names without an opening bracket pass the check |
| SegmentNames.ScannedNumbersAreFree | econith-vps-collector/storage.py:203-214 | from the scanned number on no segment exists |
| SegmentNames.ScanIsSafeExactlyWhenStemFindsOwn | econith-vps-collector/storage.py:203-214 | the scan is safe in every directory exactly for names that match themselves |
| SegmentNames.BracketedChannelIsMissed | econith-vps-collector/storage.py:209-210 | a bracketed channel's existing segment is not seen |
| Storage.GroupsAreWellFormed | econith-vps-collector/storage.py:156-159 | one non-empty group a family, only its rows |
| Storage.GroupsKeepOrder | econith-vps-collector/storage.py:156-159 | each group keeps the arrival order |
| Storage.GroupsPartitionBatch | econith-vps-collector/storage.py:156-159 | grouping neither loses nor repeats a row |
| Storage.ParquetSnapshotWriter.constructor | econith-vps-collector/storage.py:103-115 | the threshold is at least one |
| Storage.ParquetSnapshotWriter.Add | econith-vps-collector/storage.py:129-132 | buffers and reports a full buffer |
| Storage.ParquetSnapshotWriter.TakeBatch | econith-vps-collector/storage.py:142-143 | swaps the buffer out whole |
| Storage.ParquetSnapshotWriter.GroupRecords | econith-vps-collector/storage.py:156-159 | the grouping loop |
| Storage.ParquetSnapshotWriter.NextSegment | econith-vps-collector/storage.py:190-200 | hands out the counter, seeded from disk on first touch |
| Storage.ParquetSnapshotWriter.Finish | econith-vps-collector/storage.py:173 | adds the batch's total |
| StorageRuns.AllocatedIsFree | econith-vps-collector/storage.py:190-200 | an allocated name is neither on disk nor held by another flush |
| StorageRuns.AlwaysFresh | econith-vps-collector/storage.py:134-214 | the invariant behind it, over interleaved flushes, failures and restarts |
| StorageRuns.DiskOnlyGrows | econith-vps-collector/storage.py:134-214 | over any such run what was on disk stays, file by file |
| StorageRuns.NeverOverwritesExactlyWhenNameFindsItself | econith-vps-collector/storage.py:190-214 | a family is never overwritten, on any disk and run, exactly when its name as a pattern matches itself |
| StorageRuns.BracketedChannelOverwrites | econith-vps-collector/storage.py:209-210 | a bracketed channel is overwritten |
| StorageRuns.PlainChannelNeverOverwrites | econith-vps-collector/storage.py:190-214 | a channel without an opening bracket never is |
| StorageRuns.RowsAreConserved | econith-vps-collector/storage.py:129-174 | over any run, added rows are buffered, in flight, on disk, dropped or overwritten, each exactly once |
| StorageRuns.SafeRecordsLoseNothing | econith-vps-collector/storage.py:190-214 | nothing is overwritten if every family matches itself |
| StorageRuns.RowsAreConservedExactlyWhenNameFindsItself | econith-vps-collector/storage.py:129-214 | the rows of a family are conserved, on every disk and run, exactly when its name as a pattern matches itself |
| StorageRuns.RewriteLosesRow | econith-vps-collector/storage.py:190-214 | for every other name a disk and a run that lose a row |
| StorageRuns.WrittenCountsRows | econith-vps-collector/storage.py:134-174 | over any run, crashes included, the written counter and what running flushes will add differ from the rows put on disk since the start by the rows of aborted batches and the overwritten ones |
| StorageRuns.AbortedBatchIsNotCounted | econith-vps-collector/storage.py:161-174 | a batch of two families that aborts after its first segment: one row on disk, none counted |
| StorageRuns.NothingDroppedWithoutFaults | econith-vps-collector/storage.py:144-172 | without faults nothing is dropped |
| TickPipelines.TickPipeline.constructor | core/engine.py:165-172 | an empty pipeline |
| TickPipelines.TickPipeline.Register | core/engine.py:175-179 | appends and stably sorts |
| TickPipelines.TickPipeline.Enqueue | core/engine.py:181-185 | numbers and appends |
| TickPipelines.TickPipeline.DrainPending | core/engine.py:244-249 | returns the queue in (priority, seq) order and empties it |
| TickPipelines.TickPipeline.RunPhase | core/engine.py:227-231 | handlers in order, each may enqueue |
| TickPipelines.TickPipeline.RunPhases | core/engine.py:203-204 | phases in order |
| TickPipelines.TickPipeline.RunTick | core/engine.py:188-214 | drains before any phase; what handlers queue stays queued |
| TickPipelines.RegistrationSorts | core/engine.py:177-178 | handlers stay in ascending priority |
| TickPipelines.RegistrationAdds | core/engine.py:177-178 | registration adds exactly one handler |
| TickPipelines.RegistrationIsStable | core/engine.py:177-178 | within a priority registration order is kept |
| TickPipelines.SortSorts | core/engine.py:247 | the drained batch is sorted and a rearrangement |
| TickPipelines.NothingLostOrRepeated | core/engine.py:181-249 | drained batches plus queue are a rearrangement of everything enqueued |
| TickPipelines.AppliedExactlyOnce | core/engine.py:181-249 | every event is in one batch or still waiting, never both or twice |
| TickPipelines.MidTickWaitsForNextTick | core/engine.py:199-204 | events queued during a tick open the next tick's queue |
| TickPipelines.SortKeepsClasses | core/engine.py:247 | draining keeps arrival order within a priority |
| TickPipelines.DrainDependsOnClassesOnly | core/engine.py:77-79 | arrival orders that agree within each priority drain to the same kinds and payloads |
| TickPipelines.DrainDeterminesClasses | core/engine.py:247 | and only those do |
| Vetoes.TickContext.constructor | core/engine.py:118 | no veto stands |
| Vetoes.TickContext.RaiseVeto | core/engine.py:122-124 | appends one veto |
| Vetoes.TickContext.IsVetoed | core/engine.py:126-135 | some veto on the domain has at least the given authority |
| Vetoes.TickContext.VetoAuthority | core/engine.py:137-140 | the highest authority on the domain, zero without any |
| Vetoes.QueriesAgree | core/engine.py:126-140 | an action is vetoed exactly when something stands and the authority query reaches its own |
| Vetoes.SuppressesAsDesignedExactlyWhen | core/engine.py:88-93 | exactly the actions outranked by a veto are suppressed unless the highest standing authority equals the caller's |
| Vetoes.MatchesFirstLineExactlyWhen | core/engine.py:127 | the query does what its first line says exactly when nothing stands or the caller is above the lowest and at most the highest authority |
| Vetoes.EqualAuthoritySuppresses | core/engine.py:129-135 | a veto of equal authority that suppresses |
| Vetoes.DefaultsNeverMeet | core/engine.py:122-126 | vetoes of the default authority are invisible to the default query |
| Vetoes.RaisingOnlyAdds | core/engine.py:122-135 | raising a veto lifts none and adds only its own |
| Waves.PlanIsPermutation | training/orchestrator.py:174 | ordering a wave keeps its jobs, negative caps included |
| Waves.Layout | training/orchestrator.py:174 | the CPU jobs are one block after the first GPU jobs |
| Waves.PoolInvariant | training/orchestrator.py:169-176 | jobs start in submission order and never exceed the pool |
| Waves.GpuBound | training/orchestrator.py:156-179 | at every moment running GPU jobs are at most min(GPU jobs, cap) plus the finished CPU jobs |
| Waves.OverCap | training/orchestrator.py:173-176 | a schedule with cap plus one running GPU jobs |
| Waves.CapHoldsExactlyWithoutSpareWorkers | training/orchestrator.py:157-160 | for every integer cap the cap holds in every schedule exactly when the GPU jobs fit it or, the cap being positive, there is no CPU job |
| Waves.NonPositiveCapIsIgnored | training/orchestrator.py:169 | with a cap below one, CPU jobs or not, some schedule runs a GPU job |
| Waves.WavesNeverOverlap | training/orchestrator.py:163-180 | no job of a later wave starts before every earlier wave has ended, the loop being left when it has been handed every ended future |
| Waves.CollectedIsDrained | training/orchestrator.py:175-179 | once the collecting loop is left every job of the wave has been handed to it and has ended |
| Waves.EveryJobHasResult | training/orchestrator.py:161-180 | at the end there is an exit code for the name of every job, and for no other |
| Waves.WaveNumbersAreSorted | training/orchestrator.py:163 | the waves are those asked for, ascending, without repeats |
| Waves.PlannedDevices | training/orchestrator.py:165-167 | every plan the scheduler makes is one the bounds apply to |
| Waves.PlanRun | training/orchestrator.py:163-174 | one plan for each wave |
| Releases.FirstOfPeriodKeeps | KHKT_Evaluation/rq1_v2/data.py:58 | dropping duplicates keeps exactly each period's first publication |
| Releases.SurvivorsAreNewest | KHKT_Evaluation/rq1_v2/data.py:60 | the running-maximum filter keeps exactly the rows no newer period preceded |
| Releases.AsOfIsLatest | KHKT_Evaluation/rq1_v2/data.py:61 | the backward join finds the latest row published by t |
| Releases.CellsKeepPromise | KHKT_Evaluation/rq1_v2/data.py:50-63 | each cell is the first publication of the newest period out by its time, empty only if nothing was |
| Releases.PromiseIsDeterminate | KHKT_Evaluation/rq1_v2/data.py:50-63 | that promise fixes the cell |
| Releases.FutureReleasesDoNotMatter | KHKT_Evaluation/rq1_v2/data.py:50-63 | tables that agree up to t give the same cell at t |
| Releases.AcceptedExactlyWhenWellFormed | KHKT_Evaluation/rq1_v2/data.py:41-55 | a table is accepted exactly when well formed with distinct publication times |
| ReleasePulses.PulseOfRow | KHKT_Evaluation/rq1_v2/innovations.py:96-115 | the pulse compares the row with its released features at their previous values |
| ReleasePulses.Remember | KHKT_Evaluation/rq1_v2/innovations.py:117-121 | the dictionaries hold each feature's latest stamp and value at release |
| ReleasePulses.Pulses | KHKT_Evaluation/rq1_v2/innovations.py:90-121 | every pulse is a function of the rows up to its own |
| EventDecay.KeptRows | KHKT_Evaluation/rq1_v2/innovations.py:144-153 | the rows within the maximum age are a run starting at the event |
| EventDecay.AddEvent | KHKT_Evaluation/rq1_v2/innovations.py:143-155 | the in-place addition adds exactly one event's share everywhere |
| EventDecay.AddLiveEvent | KHKT_Evaluation/rq1_v2/innovations.py:138-155 | a live event is added, a negligible one changes nothing |
| EventDecay.Accumulate | KHKT_Evaluation/rq1_v2/innovations.py:138-155 | the accumulated columns are the direct weighted sums over live events |
| EventDecay.SignedWithinMagnitude | KHKT_Evaluation/rq1_v2/innovations.py:135-155 | signed is bounded by magnitude |
| EventDecay.NothingLiveIsZero | KHKT_Evaluation/rq1_v2/innovations.py:135-137 | with no live event both columns are exactly zero |
| EventDecay.LaterEventsAddNothing | KHKT_Evaluation/rq1_v2/innovations.py:143-155 | events after a row add nothing to it |
| EventDecay.DecayLooksOnlyBack | KHKT_Evaluation/rq1_v2/innovations.py:143-155 | panels that agree up to t carry the same features at t |
| EventDecay.PulsesLookOnlyBack | KHKT_Evaluation/rq1_v2/innovations.py:90-121 | panels of raw rows that agree up to t carry the same pulses up to t |
| EventDecay.FeaturesLookOnlyBack | KHKT_Evaluation/rq1_v2/innovations.py:86-155 | raw panels whose times, values and release stamps agree up to t carry the same decayed features at t |
| EventDecay.DecayedLater | KHKT_Evaluation/rq1_v2/innovations.py:27-28 | letting time pass multiplies the closed form by the weight of the elapsed time |
| EventDecay.RunningDecay | KHKT_Evaluation/rq1_v2/innovations.py:24-32 | the running recurrence is its closed form |
| ReleaseInnovations.ScaleIsOfEarlierChanges | KHKT_Evaluation/rq1_v2/innovations.py:17-20 | a change is standardised by the deviation of the changes before it, its own not among them |
| ReleaseInnovations.PulsesLookOnlyBack | KHKT_Evaluation/rq1_v2/innovations.py:14-21 | every innovation depends on the rows up to its own only |
| ReleaseInnovations.ReleaseFeaturesLookOnlyBack | KHKT_Evaluation/rq1_v2/innovations.py:11-32 | panels that agree up to t have the same innovation and decayed innovations at t |
| ReleaseInnovations.DecayColumn | KHKT_Evaluation/rq1_v2/innovations.py:24-32 | the decay column of the innovations is their closed form |
| Folds.FoldSetsArePurged | KHKT_Evaluation/rq1_v2/run.py:61-71 | the three sets are disjoint, in order, and no label window reaches a later set |
| Folds.SetsKeepEverySafeRow | KHKT_Evaluation/rq1_v2/run.py:61-71 | a usable row stays in its set exactly when its label is complete before the next boundary |
| Folds.AcceptFolds | KHKT_Evaluation/rq1_v2/run.py:104-110 | accepts exactly folds whose test intervals follow each other |
| Folds.TestSetsNeverOverlap | KHKT_Evaluation/rq1_v2/run.py:104-110 | no row is tested in two accepted folds |
| Folds.ChunksRejoin | KHKT_Evaluation/rq1_v2/model.py:110 | the blocks, a short last one included, laid end to end are the set |
| Folds.ArrangeIsReordering | KHKT_Evaluation/rq1_v2/model.py:113-114 | any permutation of the blocks rearranges the rows |
| Folds.ScatterSet | KHKT_Evaluation/rq1_v2/model.py:114 | the indexed write moves exactly the arranged rows |
| Folds.ShuffleSet | KHKT_Evaluation/rq1_v2/model.py:108-114 | one set: shuffled, or refused with fewer than four blocks |
| Folds.ChunkCount | KHKT_Evaluation/rq1_v2/model.py:110-112 | at most k blocks cover a set exactly when it has at most k blocks of rows |
| Folds.PermuteSets | KHKT_Evaluation/rq1_v2/model.py:109-114 | the loop over the sets makes their moves in turn, or stops at one with too few blocks |
| Folds.PermuteBlocks | KHKT_Evaluation/rq1_v2/model.py:105-115 | the result gathers the input along the composed shuffle; an error exactly for too few blocks |
| Folds.ShuffleStaysInsideSets | KHKT_Evaluation/rq1_v2/model.py:105-115 | for any block permutations a bijection inside each set that fixes every other row |
| Folds.FoldControlStaysInsideSets | KHKT_Evaluation/rq1_v2/run.py:170-173 | the shuffled control of an accepted fold never moves data across train, validation and test |
| Selection.BlocksRejoin | KHKT_Evaluation/rq1_v2/model.py:44-45 | the validation blocks are consecutive and lose no row |
| Selection.Try | KHKT_Evaluation/rq1_v2/model.py:50-78 | one penalty and shrinkage on the validation rows |
| Selection.Search | KHKT_Evaluation/rq1_v2/model.py:46-88 | the nested loops try every pair in order and keep the best |
| Selection.SelectPredict | KHKT_Evaluation/rq1_v2/model.py:31-102 | the whole choice, refit and prediction, or the error for unknown metrics |
| Selection.BestIsFirstLargest | KHKT_Evaluation/rq1_v2/model.py:87-88 | the choice is the first eligible candidate of largest gain, and there is one if any is eligible |
| Selection.EligibleBeatsBaseline | KHKT_Evaluation/rq1_v2/model.py:72-78 | an eligible candidate has every counted loss below the baseline by the required share |
| Selection.ChoiceIgnoresTestRows | KHKT_Evaluation/rq1_v2/model.py:31-88 | inputs that agree on train and validation rows give the same candidates and choice |
| Selection.OutcomeIgnoresTestTruth | KHKT_Evaluation/rq1_v2/model.py:31-102 | and, with the same test features and baseline, the same predictions, whatever the truth on the test rows |
| Selection.TestTruthIsNeverRead | KHKT_Evaluation/rq1_v2/model.py:31-102 | on disjoint sets the truth on test rows may be anything |
| Multipliers.RoundHalfEven | KHKT_Evaluation/common/world_bridge.py:157-165 | nearest integer, ties to even |
| Multipliers.VolMultipliers | KHKT_Evaluation/common/world_bridge.py:138-185 | memo table and sample-and-hold give each row the multiplier of its latest sampled row |
| Multipliers.HoldSamples | KHKT_Evaluation/common/world_bridge.py:179-184 | the second loop repeats the last sample |
| Metrics.RealizedVariance | KHKT_Evaluation/common/metrics.py:161-177 | the prefix-sum loop computes the variance of each full window |
| Metrics.VarianceFromMoments | KHKT_Evaluation/common/metrics.py:175 | the two-moment form is the mean squared deviation and never negative |
| Metrics.PrefixSumsGiveVariance | KHKT_Evaluation/common/metrics.py:170-176 | the clamp never changes the value in exact arithmetic |
| Metrics.PeakIsPrefixMaximum | KHKT_Evaluation/common/metrics.py:156 | the accumulated maximum dominates and is attained |
| Metrics.FallGrowsWithStart | KHKT_Evaluation/common/metrics.py:157 | a higher start never shrinks the fall, the floor included |
| Metrics.DrawdownIsWorstPair | KHKT_Evaluation/common/metrics.py:152-158 | the one-pass drawdown is the fall of some pair of rows, and none falls further exactly when no negative row has a deeper fall from a row below its peak |
| Metrics.NegativeOnlyUnrisenFinds | KHKT_Evaluation/common/metrics.py:152-158 | so it is when every negative level but the first comes before the curve has risen, non-negative curves included |
| Metrics.NonNegativeLevelSurvives | KHKT_Evaluation/common/metrics.py:152-158 | a level that is not negative never breaks that |
| Metrics.SurvivesEveryLevelExactlyWhenNeverRisen | KHKT_Evaluation/common/metrics.py:152-158 | a curve keeps it whatever level comes next exactly when its peak is at most the floor or all its levels are equal |
| Metrics.RisenCurveHasBreakingLevel | KHKT_Evaluation/common/metrics.py:152-158 | every other curve has a negative next level at which the worst pair is missed |
| Metrics.NegativeCurveMissesWorstPair | KHKT_Evaluation/common/metrics.py:152-158 | such a curve with its numbers |
| VolEval.SegmentVol | KHKT_Evaluation/common/metrics.py:188-190 | one label |
| VolEval.ForwardRealizedVol | KHKT_Evaluation/common/metrics.py:180-191 | the loop fills exactly the labels whose whole window lies in the series |
| VolEval.HistoricalVol | KHKT_Evaluation/common/metrics.py:161-177 | the baseline column |
| VolEval.ForwardIsShiftedBackward | KHKT_Evaluation/common/metrics.py:161-191 | without gaps the label of row t is the baseline of row t + horizon |
| VolEval.PurgedLabelsEndInTrain | KHKT_Evaluation/common/vol_eval.py:171-181 | a train row left after the purge has its label window before the split |
| VolEval.SearchLags | KHKT_Evaluation/common/vol_eval.py:243-253 | the lag loop is the fold over its candidates |
| VolEval.FitOosBeta | KHKT_Evaluation/common/vol_eval.py:162-256 | the whole fit of a panel |
| VolEval.SearchFindsFirstMinimum | KHKT_Evaluation/common/vol_eval.py:250-253 | the selected lag is the earliest of smallest finite error, or the defaults when there is none |
| VolEval.OlsBetaIsLeastSquares | KHKT_Evaluation/common/vol_eval.py:34-44 | the slope has the least squared error of all slopes |
| VolEval.BaselineLooksBack | KHKT_Evaluation/common/metrics.py:161-177 | the baseline at a row depends on rows up to it |
| VolEval.MultipliersLookBack | KHKT_Evaluation/common/world_bridge.py:138-185 | so does the multiplier |
| VolEval.LagLooksBack | KHKT_Evaluation/common/vol_eval.py:25-31 | so does the lagged series |
| VolEval.LabelsReachTheHorizon | KHKT_Evaluation/common/metrics.py:180-191 | a label depends on rows up to its horizon |
| VolEval.FitIgnoresTestRows | KHKT_Evaluation/common/vol_eval.py:171-256 | equal-length panels that agree before the split give the same lag, slope, train mean, error and search record |
| VolEval.ForecastLooksBack | KHKT_Evaluation/common/vol_eval.py:239-259 | the forecast at t depends on rows before the split and up to t |
| VolEval.TestRowsMoveMean | KHKT_Evaluation/common/vol_eval.py:232-237 | with the flag, two panels that agree before the split and have different train means |
| VolEval.FullFitLooksAhead | KHKT_Evaluation/common/vol_eval.py:232-233 | for every configuration with a sampled test row and a world model of two different positive multipliers, the fit ignores the test rows exactly when the event-window flag is off |
| EarlyStop.EarlyStopper.constructor | training/early_stop.py:63-69 | nothing seen yet |
| EarlyStop.EarlyStopper.Update | training/early_stop.py:71-93 | one check |
| EarlyStop.EarlyStopper.Check | training/early_stop.py:95-98 | raises exactly on a stop, with epoch and best |
| EarlyStop.FieldsDescribeTheRun | training/early_stop.py:78-93 | the fields are the latest improvement, its score and the checks failed since |
| EarlyStop.StopsExactlyAfterPatience | training/early_stop.py:78-93 | a check stops exactly when it and the latest patience of checks failed to improve |
| EarlyStop.BestIsNearMinimum | training/early_stop.py:71-76 | the running minimum lies between the best less min_delta and the best exactly when min_delta is not negative |
| EarlyStop.MaxModeMirrorsMinMode | training/early_stop.py:71-76 | max mode is min mode on negated scores |
| EarlyStop.GainsLowerTheBest | training/early_stop.py:71-84 | every improvement lowers the best by more than min_delta |
| EarlyStop.ChecksPerGain | training/early_stop.py:78-93 | a run without a stop has at most patience checks for each improvement |
| EarlyStop.MustStopInMaxMode | training/early_stop.py:71-93 | the same for scores bounded above in max mode |
| EarlyStop.MustStop | training/early_stop.py:78-93 | scores bounded below force a stop within patience times (floor of (first score - bound) / min_delta, plus one) checks, plus one |
| EarlyStop.StopForcedExactlyWhen | training/early_stop.py:71-93 | scores bounded below force a stop exactly when min_delta is positive, or zero from a first score at the bound |
| EarlyStop.NeverForced | training/early_stop.py:71-93 | otherwise some run of any length never stops |
| EarlyStop.StopForcedInMaxModeExactlyWhen | training/early_stop.py:71-93 | the same for scores bounded above in max mode |

## Left out

- SentinelRuns.OnlineDrawdownIsCurveDrawdown: while the peak is below the evaluation's floor of 1e-12 the two definitions divide by different numbers; RowsAgreeExactlyWhenComparable says exactly on which rows.
- ExecutionBridge.NoConnectAcrossLeavingKeepsAirGap: a sufficient rule for callers; exact are RunAirGappedExactlyWithoutLateSession on a run and OrdersOutsideRealityExactlyWhen on a world.
- EarlyStop.MustStop: its length bound is for positive min_delta; when any length forces a stop at all is StopForcedExactlyWhen.
- Threads inside `_next_segment`, and between the controller's lock and the mode manager's: each call is one step.
- A channel with a path separator, which would move the segment to another directory, and one with two stars in a row, which older versions of Python's pathlib refuse as a pattern: here they read as two stars.
- Case conversion is ASCII only, and a confidence outside [0, 1], which leaves the list in the source, is not accepted.
- Handlers registered while a tick runs, bus start and stop, and what a handler does with an event: a handler is a name, or the requests it queues.
- The code a bus handler runs inside `gather`, and notifying the controller's listeners.
- Wallet truth, capital sync and status publishing by the bridge, fees and slippage fields, and sliced execution.
- The tick context's other fields, the state store and the tick's timing figures.
- The body of the Monte-Carlo draw, realised sigma of a thin window, and float rounding everywhere, the rounding of synthetic fills to eight decimals included.
- The ridge fit itself in the rq1_v2 evaluation, bootstrap intervals, scores, the loss record of each candidate and reports.
- The raw change column of `release_features`.
- The price panel of `prepare` (resampling and rolling deviations), and the shuffled control, legacy protocol and test scores of the B0/E1/C1 evaluation.
- The Ray backend, what makes a job's exit code, and the manifest of the orchestrator.
