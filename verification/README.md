# Verified model of the research kernels

This project models three cores of the repository in Dafny and proves what their
research claims rest on. `dafny verify dfyconfig.toml` checks all of it.

**The crossover simulators.** Volatility scaling, downside scaling, the stop overlay,
the crisis certification, the blind replay and the trend search all decide at the close
of bar i and fill at the open of bar i + 1. Each is a `while` loop over two mutable
accounts (base and stress costs), proved equal to a bar-by-bar specification; over that
specification stand the results: scaling never changes direction, stress is never better,
cash is conserved over every history, deferred fills equal eager fills, a stopped run is
contained in its control, and each loop-carried indicator equals its definition. All
simulators are compared with one automaton, `Crossover.Course`.

**The recovery/cooldown risk tracker.** A class with the source's mutable fields. Its
`Observe` is proved against a transition function, and counters, breakers and memory are
characterised exactly over every sequence of observations.

**The corpus pipeline and the episode scanner.** The archive plan covers each day once,
acquisition merges rows into a gap-accounted manifest, and the quality gate and the replay
loader accept exactly what the producer promises. Snapshots are gap-free suffixes that
reach back to the last gap and ignore the future, chunking does not change a scan, each
candidate is selected exactly when separation and cap allow it, and without a cap the
streaming selection equals the offline greedy selection, which is optimal.

## How to read it

- `Decimal` and `float` are exact `real`; a NaN indicator is `None`; times are integers in
  milliseconds; raises are `Err` values naming the raise.
- A method named like the source function carries the loop. Its contract names a
  specification function (`Outcome`, `Run`, `Observed`, `FlatScan`, …) and the lemmas of the
  same module, or of its `…Results` or `…Reports` module, say what that function guarantees.
- `Crossover.Held` is the position read off the averages alone; the `…Reports` modules state
  counts, fills, net results and drawdowns from it and from the prices.
- `_Account` of the volatility modules is `CycleAccount.Account`; the single-unit account of
  `survivor_ranking.py`, used by four simulators, is `UnitAccount.Account`.
- One claim is false as it stands: the shadow position of `vol_scaling.py` need not be the
  simulator's. `Crossover.ShadowCanDisagree` gives two series on which they differ, and
  `Crossover.ShadowAgreesExactlyWhen` the exact condition.
- A stress account is dominated when it holds what the base account holds, with no more cash,
  no better open cycle and a list of realized results nowhere above the base list
  (`Basics.NowhereAboveMeans` reads that list comparison position by position).
- Fees and slippage are `Legal` when each lies between 0 and 10000 bps, and a series is
  `Priced` when no price is negative.

## Model

| member | source | states |
|---|---|---|
| Costs.BuyDecomposes | research/generation_2/vol_scaling.py:382-391 | a buyer pays exactly reference notional plus slippage plus fee |
| Costs.SellDecomposes | research/generation_2/vol_scaling.py:415-427 | a seller receives exactly reference notional less slippage less fee |
| Costs.BuyDominance | research/generation_2/vol_scaling.py:382-391 | at the same price and size, higher bps never make a purchase cheaper |
| Costs.SellDominance | research/generation_2/vol_scaling.py:415-427 | at the same price and size, higher bps (up to 10000) never make a sale worth more, and proceeds stay nonnegative |
| Costs.LiquidationIsSale | research/generation_2/vol_scaling.py:445-454 | marking a holding to liquidation is worth exactly what selling it at the mark would bring |
| CycleAccount.Account.Buy | research/generation_2/vol_scaling.py:363-399 | whole new account or which refusal; a refusal leaves the account alone except that an unaffordable entry has already opened its cycle |
| CycleAccount.Account.Sell | research/generation_2/vol_scaling.py:402-435 | whole new account or which refusal; a closing sale that leaves a residue is refused after the sale is booked |
| CycleAccount.Account.Equity | research/generation_2/vol_scaling.py:438-454 | cash, plus liquidation of the holding when there is one |
| CycleAccount.Conservation | research/generation_2/vol_scaling.py:351-435 | over every accepted trade history: cash = initial + realized + open cycle flow = initial − net reference spend − fees − slippage; quantity is the signed sum of trades; nothing is held outside a cycle |
| CycleAccount.CostLedgers | research/generation_2/vol_scaling.py:382-434 | under one policy the fee ledger is the fee rate times turnover and the slippage ledger the slippage rate times reference volume |
| CycleAccount.NeverOverdrawn | research/generation_2/vol_scaling.py:391-394 | no accepted history with legal costs and nonnegative prices overdraws cash or sells short |
| CycleAccount.CyclePreserved | research/generation_2/vol_scaling.py:374-381 | a holding exists only inside an open cycle, kept by every trade |
| CycleAccount.TradeKeepsDominance | research/generation_2/vol_scaling.py:363-435 | the same trade at base and stress costs keeps equal quantity, stress cash, cycle flow and each realized result no better than base |
| CycleAccount.EquityDominance | research/generation_2/vol_scaling.py:438-454 | a dominated stress account never marks above its base account |
| CycleAccount.StressRefusesFirst | research/generation_2/vol_scaling.py:392-393 | whenever the stress leg can trade the base leg can: only stress adds refusals |
| CycleAccount.BuyRefusedExactlyWhen | research/generation_2/vol_scaling.py:372-394 | each refusal of a purchase exactly when its condition holds, unaffordable meaning cash below reference value plus slippage plus fee |
| CycleAccount.SaleRefusedExactlyWhen | research/generation_2/vol_scaling.py:411-434 | each refusal of a sale exactly when its condition holds |
| CycleAccount.BuyLegs | research/generation_2/vol_scaling.py:747-757 | both accounts bought in lockstep, or the first refusal |
| CycleAccount.RebalanceLegs | research/generation_2/vol_scaling.py:769-791 | both holdings moved by the signed difference between target and base holding |
| Crossover.LongMeansHeld | research/generation_2/vol_scaling.py:707-767 | long at bar i exactly when an earlier upward crossing with a next hour has not been followed by such a downward one, crossings read off the four averages themselves |
| Crossover.CourseCounts | research/generation_2/vol_scaling.py:704-767 | signals, entries, exits and active hours number exactly the bars that show an upward crossing while flat, one with a next hour, a downward one while held with a next hour, and a position |
| Crossover.CourseBalances | research/generation_2/vol_scaling.py:689-767 | entries − exits is the position, every entry was signalled, active hours fit the bars seen |
| Crossover.ControlPositions | research/generation_2/vol_scaling.py:457-488 | the list built in place holds the one-bar-lagged shadow position at every index, zero before the reset; the only raise is a reset past the series |
| Crossover.ShadowAgainstCourse | research/generation_2/vol_scaling.py:464-488 | for a shadow reset no later than the cell starts: traded long implies shadow long, and the two are equal at a bar if and only if the shadow was flat at the cell start or a crossing has been filled since |
| Crossover.ShadowAgreesExactlyWhen | research/generation_2/vol_scaling.py:464-488 | for any reset no later than the cell start, the shadow equals the traded direction at every bar if and only if it is flat at the start and no entry fills off the reset bar |
| Crossover.ShadowCanDisagree | research/generation_2/vol_scaling.py:464-488 | two concrete series on which they disagree: an entry filled off the reset bar, and a cell starting after the shadow has entered |
| VolScaling.SimulateCell | research/generation_2/vol_scaling.py:648-862 | the in-place simulator computes the run specified bar by bar, error cases and final report included |
| VolScaling.DecideBar | research/generation_2/vol_scaling.py:704-809 | one bar of signals, boundary scale, fill and rebalance, on both mutable accounts |
| VolScalingResults.HeadingIsCourse | research/generation_2/vol_scaling.py:689-782 | position, signals, fills and active hours of any unfailed run are those of the crossover automaton, whatever the schedule |
| VolScalingResults.ScalingPreservesDirection | research/generation_2/vol_scaling.py:689-809 | two schedules on the same bars agree at every bar on position, signals, entry and exit fills and active hours |
| VolScalingResults.QuantityFollowsScale | research/generation_2/vol_scaling.py:747-809 | while long both accounts hold base quantity × current scale in an open cycle, while flat nothing; completed trades equal exit fills |
| VolScalingResults.HoldingWithinControl | research/generation_2/vol_scaling.py:747-809 | with scales in [0,1] the scaled holding is between nought and the control holding at every bar |
| VolScalingResults.ExposureWithinControl | research/generation_2/vol_scaling.py:699-702 | with scales in [0,1] accumulated notional exposure never exceeds the control’s |
| VolScalingResults.ShadowIsSimulatedPosition | research/generation_2/vol_scaling.py:901-923 | for a finished run and a shadow reset at or before its first bar, the shadow equals the simulator’s position at every bar if and only if it is flat at that bar and no entry fills off the reset bar |
| VolScalingResults.ShadowRejoinsPosition | research/generation_2/vol_scaling.py:901-923 | against the same shadow, a cell that starts later is long only if the shadow is, and equals it at a bar if and only if the shadow was flat at the cell start or a crossing has been filled since |
| VolScalingResults.AccountsAreHistories | research/generation_2/vol_scaling.py:747-809 | each account of the simulator is the replay of an accepted trade history at its own cost policy |
| VolScalingResults.CellConserves | research/generation_2/vol_scaling.py:747-809 | both conservation equations, and both cost ledgers, hold for both accounts at every bar |
| VolScalingResults.CellNeverOverdrawn | research/generation_2/vol_scaling.py:689-809 | cash and quantity of both accounts stay nonnegative at every bar |
| VolScalingResults.StressNeverBetter | research/generation_2/vol_scaling.py:747-820 | equal holdings at every bar; stress cash, equity, each realized result and the net never exceed base |
| VolScalingResults.OnlyReachableStops | research/generation_2/vol_scaling.py:372-434 | with positive capital and long-only scales, overlapping entry, trading outside a cycle, overselling, residue and division by zero are unreachable |
| VolScalingResults.ScaleIsLatest | research/generation_2/vol_scaling.py:668-733 | the scale in force at every bar is the schedule’s at the latest earlier month start with known averages whose fill the cell’s end did not cut off, or else the starting month’s (one without a schedule), decided by bars and schedule alone |
| VolScalingResults.HoldingExactly | research/generation_2/vol_scaling.py:689-809 | at every bar both accounts hold base quantity × that scale while bought and nothing otherwise, the position read off the crossings |
| VolScalingReports.BarTallies | research/generation_2/vol_scaling.py:699-809 | what every bar adds to missing fills, below-one events, scaled entries, rebalances, active scales and exposure, from bars and schedule |
| VolScalingReports.StartsExactly | research/generation_2/vol_scaling.py:663-687 | a cell is refused exactly when empty or without a starting scale, and otherwise starts with nothing counted |
| VolScalingReports.StopsExactly | research/generation_2/vol_scaling.py:722-745 | a run stops for a scale exactly at a month start that has none, and for a bar exactly where a wanted fill has no next hour before the end |
| VolScalingReports.ReportExactly | research/generation_2/vol_scaling.py:810-820 | both nets are what selling out at the last close would leave less the capital; the drawdown is the worst along the sampled equity curve |
| DownsideVolScaling.SimulateCell | research/generation_2/downside_vol_scaling.py:214-322 | the pending-rebalance simulator computes its specified run |
| DownsideVolScaling.DecideBar | research/generation_2/downside_vol_scaling.py:248-301 | one bar of signals, fresh decision, pending target and fill, on both mutable accounts |
| DownsideVolScalingResults.ScalingPreservesDirection | research/generation_2/downside_vol_scaling.py:236-301 | position, signals, fills and active hours do not depend on the decisions |
| DownsideVolScalingResults.QuantityFollowsScale | research/generation_2/downside_vol_scaling.py:274-301 | holdings match the scale in force, and a rebalance is left pending only past the last bar |
| DownsideVolScalingResults.HoldingWithinControl | research/generation_2/downside_vol_scaling.py:236-301 | the scaled holding stays within the control holding |
| DownsideVolScalingResults.ExposureWithinControl | research/generation_2/downside_vol_scaling.py:244-247 | accumulated notional exposure never exceeds the control’s |
| DownsideVolScalingResults.StressNeverBetter | research/generation_2/downside_vol_scaling.py:236-304 | at every bar stress holds what base holds and stress cash, equity and each realized result are no better; stress net never exceeds base net |
| DownsideVolScalingResults.ScaleIsLatest | research/generation_2/downside_vol_scaling.py:226-301 | the scale in force at every bar is that of the latest earlier fresh decision whose fill the cell’s end did not cut off, or else the starting month’s |
| DownsideVolScalingResults.HoldingExactly | research/generation_2/downside_vol_scaling.py:236-301 | at every bar both accounts hold base quantity × that scale while bought and nothing otherwise |
| DownsideVolScalingReports.BarTallies | research/generation_2/downside_vol_scaling.py:244-301 | what every bar adds to missing fills, scaled entries, rebalances, turnover, active scales and exposure, from bars and decisions |
| DownsideVolScalingReports.StopsExactly | research/generation_2/downside_vol_scaling.py:264-273 | a run stops for a missing bar exactly where a wanted fill has no next hour before the end |
| DownsideVolScalingReports.ReportExactly | research/generation_2/downside_vol_scaling.py:302-322 | both nets are what selling out at the last close would leave less the capital; the drawdown is the worst along the sampled equity curve |
| Calendars.IndexUnique | research/generation_2/vol_scaling.py:529-536 | an instant lies in exactly one period |
| Calendars.MonthBoundaries | research/generation_2/vol_scaling.py:539-554 | exactly the period starts from start (inclusive) to end (exclusive), in order |
| ScaleSchedule.Estimators | research/generation_2/downside_vol_scaling.py:122-149 | the loop over sorted months computes each month’s total and downside estimate, the downside one borrowing from the preceding key only when falls are scarce |
| ScaleSchedule.PredecessorIsBefore | research/generation_2/downside_vol_scaling.py:125-142 | the key at the preceding index is the greatest earlier month |
| ScaleSchedule.EstimatesPositive | research/generation_2/downside_vol_scaling.py:135-148 | an estimate that exists is positive |
| ScaleSchedule.BuildSchedule | research/generation_2/downside_vol_scaling.py:161-210 | the loop carrying pairs, scale and counts over the month boundaries computes the specified ledger or raise |
| ScaleSchedule.ScalesWithinOne | research/generation_2/downside_vol_scaling.py:199-207 | every scale lies in [0,1]; the no-leverage raise and division by zero are unreachable |
| ScaleSchedule.DecisionsAccountedFor | research/generation_2/downside_vol_scaling.py:181-208 | new + carried decisions = scored boundaries, each scored boundary has a decision, and a carried one lacked an estimate or a constant |
| ScaleSchedule.NeverAnticipates | research/generation_2/downside_vol_scaling.py:123-208 | over the whole run, in both variants: editing months from t on leaves every decision at or before t as it was, whatever later boundaries do, and causes no raise |
| ScaleScheduleResults.TotalExactly | research/generation_2/downside_vol_scaling.py:126-134 | a known month’s total estimate squared is the sum of its squared returns; it is missing exactly when that is nought |
| ScaleScheduleResults.DownsideExactly | research/generation_2/downside_vol_scaling.py:131-148 | the downside estimate squared is the sum of the squared falls, its own if at least three, else with those of the greatest earlier month; missing when that month is absent or unknown |
| ScaleScheduleResults.ScheduleExactly | research/generation_2/downside_vol_scaling.py:161-208 | at every scored boundary: the training pairs are those of exactly the managed known months closed by then; a renewed scale times the estimate is the constant, cut at one; any other scale is the previous boundary’s, or one |
| ScaleScheduleResults.CountedExactly | research/generation_2/downside_vol_scaling.py:181-206 | every scored boundary counts once as renewed or carried, and once for each of estimate and constant it lacks |
| UnitAccount.Account.Enter | research/historical_strategy_search/survivor_ranking.py:442-467 | whole new account, or a refusal that changes nothing |
| UnitAccount.Account.Exit | research/historical_strategy_search/survivor_ranking.py:470-495 | whole new account with the trade’s result appended, or a refusal that changes nothing |
| UnitAccount.FillInStep | research/historical_strategy_search/survivor_ranking.py:442-495 | two accounts in step stay in step; only lack of cash, and only on entry, can refuse |
| UnitAccount.FillKeepsBalance | research/historical_strategy_search/survivor_ranking.py:442-495 | cash = initial + realized − open entry debit, kept by every fill |
| UnitAccount.FillKeepsDominance | research/historical_strategy_search/survivor_ranking.py:442-495 | stress cash and each stress result stay no better than base |
| UnitAccount.FillCharges | research/historical_strategy_search/survivor_ranking.py:442-495 | each fill charges slippage at its rate on the reference value and the fee at its rate on the traded value, moves cash by exactly these, and books debit and result |
| UnitAccount.EquityIsExit | research/historical_strategy_search/survivor_ranking.py:498-520 | the equity is the cash, once an open entry is exited at the mark |
| EagerFills.EagerFollowsCourse | research/historical_strategy_search/blind_oos.py:178-196 | position and fills of the fill-now loop are the crossover automaton’s, accounts in step, and only cash can stop it |
| EagerFills.EagerConserves | research/historical_strategy_search/blind_oos.py:178-196 | both unit accounts balance at every bar |
| EagerFills.EagerDominates | research/historical_strategy_search/blind_oos.py:178-196 | base dominates stress at every bar |
| EagerFills.EagerBarExactly | research/historical_strategy_search/blind_oos.py:178-196 | each bar trades both accounts at the next hour’s open exactly when a crossing turns the position over, and counts a missing fill exactly when there is no such hour |
| BlindOos.SimulateSymbol | research/historical_strategy_search/blind_oos.py:150-216 | the replay loop computes its specified run, quarters and report |
| BlindOos.RunIsEager | research/historical_strategy_search/blind_oos.py:162-196 | its accounts, position and missing fills are the eager run’s |
| BlindOos.QuartersSumToNet | research/historical_strategy_search/blind_oos.py:160-207 | on strictly increasing times and a monotone quarter clock the quarter entries, each counted once, sum exactly to base_net |
| BlindOos.StressNeverBetter | research/historical_strategy_search/blind_oos.py:200-208 | stress_net never exceeds base_net |
| BlindOosReports.ReplayExactly | research/historical_strategy_search/blind_oos.py:160-208 | nets are what the eager run’s accounts are worth at the last close less the capital; the drawdown is the worst along the sampled curve; each quarter’s entry is the curve’s last value in it less the last before it |
| BlindOosReports.FinishesExactlyWhen | research/historical_strategy_search/blind_oos.py:150-196 | a replay is refused only for an empty window or a fill the eager run cannot pay for |
| CrisisCertification.SimulateUnitSymbol | research/historical_strategy_search/crisis_regime_certification.py:154-220 | the pending-order loop with lead-in and score baseline computes its specified run |
| CrisisCertification.DeferredEqualsEager | research/historical_strategy_search/crisis_regime_certification.py:165-207 | at every bar close the pending-order desk, refusals included, equals the fill-now run with nothing outstanding |
| CrisisCertification.UnitEqualsEager | research/historical_strategy_search/crisis_regime_certification.py:165-207 | at every bar close a finished unit has the eager run’s accounts, position and missing-fill count |
| CrisisCertification.UnitEqualsBlindReplay | research/historical_strategy_search/crisis_regime_certification.py:165-207 | deciding on the same bars, the crisis unit and the blind replay hold the same accounts at every bar close |
| CrisisCertification.UnreachableRaises | research/historical_strategy_search/crisis_regime_certification.py:171-208 | the drifted-target, unset-baseline and missing-baseline raises are unreachable |
| CrisisCertification.ScoredEntriesLessExits | research/historical_strategy_search/crisis_regime_certification.py:166-184 | scored entries − scored exits = position at end − position at score start |
| CrisisReports.CertifiedIsEager | research/historical_strategy_search/crisis_regime_certification.py:166-221 | both nets are the eager run’s equity at the last close less its equity, one decision before the score bar, at that bar’s open; scored fills are those made from there on; position at start likewise |
| CrisisReports.RejectedExactlyWhen | research/historical_strategy_search/crisis_regime_certification.py:155-157 | rejected for its range exactly when lead < score < end fails |
| CrisisReports.CertifiedDrawdown | research/historical_strategy_search/crisis_regime_certification.py:166-193 | the drawdown is the worst along the eager run’s closes from the score bar on, from the baseline |
| StopOverlay.SimulateCell | research/generation_2/stop_overlay.py:234-381 | the crossover-plus-stop loop computes its specified run |
| StopOverlay.RunIsSound | research/generation_2/stop_overlay.py:295-338 | an open position always has its entry reference; only cash or a vanished peak can stop a started run |
| StopOverlay.StopContainedInControl | research/generation_2/stop_overlay.py:270-338 | whenever the overlay is long the control is long, and the runs are identical up to the first pure stop fill |
| StopOverlay.ControlIsEager | research/generation_2/stop_overlay.py:289-338 | without a threshold the overlay is the plain crossover |
| StopOverlayReports.PositionExactly | research/generation_2/stop_overlay.py:289-338 | position and entry reference at every bar are those of the latest entry bar not yet left, read off crossings, closes and threshold |
| StopOverlayReports.BarExactly | research/generation_2/stop_overlay.py:270-338 | a bar exits by stop alone exactly when the close is at or below the entry fill less the threshold, without a downward crossing and with a next hour; every count and fill price likewise |
| StopOverlayReports.ReportExactly | research/generation_2/stop_overlay.py:339-381 | both nets are the accounts’ worth at the last close less the capital; the drawdown is the worst along the sampled curve |
| Indicators.IndicatorSeries | research/historical_strategy_search/trend_ma.py:317-360 | every column entry is defined exactly when the gap-free run has at least window bars, and then equals the mean, the EMA or the double EMA of that run |
| Indicators.SimpleAverages | research/historical_strategy_search/trend_ma.py:329-343 | the array filled in place holds the rolling averages of the recurrence |
| Indicators.ExponentialAverages | research/historical_strategy_search/trend_ma.py:345-360 | the array filled in place holds the EMA or double EMA of the gap-free run |
| Indicators.RollingTotalIsWindowSum | research/historical_strategy_search/trend_ma.py:332-342 | the running total, one bar added and one dropped, is the sum of the window |
| Indicators.DependsOnRunOnly | research/historical_strategy_search/trend_ma.py:329-360 | a value depends only on closes since the last gap and up to its own bar |
| Indicators.EmaWithinExtremes | research/historical_strategy_search/trend_ma.py:349-357 | EMA and EMA of EMA stay within the extremes of their gap-free run |
| Indicators.EmaIsWeightedSum | research/historical_strategy_search/trend_ma.py:345-357 | the recursive EMA equals the sum with geometrically fading weights |
| Indicators.WeightsSumToOne | research/historical_strategy_search/trend_ma.py:345-357 | those weights sum to one |
| Indicators.IndicatorExactly | research/historical_strategy_search/trend_ma.py:329-360 | missing until the run fills the window; then mean × window = sum of the last closes, EMA values obey (window + 1)·e = 2·x + (window − 1)·previous, and the double EMA is 2·e − EMA of e |
| TrendSearch.RunCell | research/historical_strategy_search/trend_ma.py:374-491 | the scalar cash-and-position loop computes its specified run |
| TrendSearch.SearchIsExact | research/historical_strategy_search/trend_ma.py:414-485 | the search loop and the exact unit accounts stop together or hold the same cash, results, costs and position at every bar |
| TrendSearch.SearchAccounted | research/historical_strategy_search/trend_ma.py:469-485 | trades, wins, losses, break-evens, gross profit and gross loss account for every exit and for the realized total |
| TrendSearch.StressNeverBetter | research/historical_strategy_search/trend_ma.py:444-491 | stress cash and realized result never exceed base at any bar, nor does the net |
| TrendSearchReports.SearchExactly | research/historical_strategy_search/trend_ma.py:402-491 | wins, losses, gross figures and best win are those of the eager run’s realized results; nets are its gross worth at the last close less the capital; the drawdown is the worst along the sampled curve |
| TrendSearchReports.FinishesExactlyWhen | research/historical_strategy_search/trend_ma.py:380-440 | a cell is refused only for holding no candle or an entry the exact accounts cannot pay for |
| RiskTracker.RecoveryCooldownRiskTracker.Observe | research/historical_strategy_lab/risk_overlay.py:387-505 | the whole new state and the reported risk state; a close-count jump changes nothing |
| RiskTracker.RecoveryCooldownRiskTracker.constructor | research/historical_strategy_lab/risk_overlay.py:325-349 | the initial state |
| RiskTracker.MakeTracker | research/historical_strategy_lab/risk_overlay.py:314-324 | a tracker is made for the registered cooldown of 24 only |
| RiskTrackerResults.LedgersAlways | research/historical_strategy_lab/risk_overlay.py:412-505 | over every run: blocked = 24·streak − remaining; streak − cooldown releases is 1 exactly while cooling or pending; session − session releases is 1 exactly while blocked; kill is the sum of the three; cooldown and pending never coexist; the eligibility streak never exceeds the observed one; underflow and the no-session raise are unreachable |
| RiskTrackerResults.FailsClosed | research/historical_strategy_lab/risk_overlay.py:237-254 | the kill switch is on exactly while a breaker is in force, and off only when no threshold reason exists |
| RiskTrackerResults.HardLatchIsPermanent | research/historical_strategy_lab/risk_overlay.py:428-491 | a latched tracker stays latched and reports kill |
| RiskTrackerResults.HardLatchOverRuns | research/historical_strategy_lab/risk_overlay.py:441-444 | the latch survives every continuation of a run |
| RiskTrackerResults.HardLatchTripsExactlyWhen | research/historical_strategy_lab/risk_overlay.py:428-444 | the latch trips if and only if the fall from the running peak reaches its limit |
| RiskTrackerResults.SessionBlockExactlyWhen | research/historical_strategy_lab/risk_overlay.py:413-450 | blocked after an observation if and only if still blocked in the same UTC day or the session loss reaches its limit |
| RiskTrackerResults.CooldownRunsDown | research/historical_strategy_lab/risk_overlay.py:452-501 | every observation during a cooldown takes one off and is counted, whatever it brings |
| RiskTrackerResults.CooldownBlocksNext24 | research/historical_strategy_lab/risk_overlay.py:467-501 | a streak trigger reports kill for its own observation and each of the next 24 |
| RiskTrackerResults.ReleasedExactlyWhen | research/historical_strategy_lab/risk_overlay.py:457-465 | a served cooldown is released if and only if flat with no latch and no session block |
| RiskTrackerResults.MemoryIsExact | research/historical_strategy_lab/risk_overlay.py:387-428 | peak is the maximum of initial and all equities; session profit is realized now less realized at the session’s first observation; the observed loss count is the length of the trailing run of losing closes |
| RiskTrackerResults.SessionIsUnbroken | research/historical_strategy_lab/risk_overlay.py:412-426 | the session is the maximal run of observations in the latest UTC day |
| RiskTrackerResults.StartsExactlyWhen | research/historical_strategy_lab/risk_overlay.py:452-480 | over every history: an observation starts a cooldown of 24, kill switch on, exactly when none is running, none is pending after it, and the last three closes since the latest release all lost |
| RiskTrackerResults.EligibleIsExact | research/historical_strategy_lab/risk_overlay.py:395-466 | the streak that counts is the length of the trailing run of losing closes since the latest release |
| RiskTrackerResults.LossesPeakIsExact | research/historical_strategy_lab/risk_overlay.py:395-408 | the remembered streak peak is the length of the longest run of losing closes in the history |
| EquityDrawdown.Drawdown | research/crisis_lab/replay.py:818-831 | succeeds exactly on nonempty positive curves; both results are the maximum over all pairs i ≤ j, attained and never exceeded, in quote and as a fraction |
| EquityDrawdown.TrackedIsWorst | research/generation_2/vol_scaling.py:690-698 | on positive samples a drawdown kept bar by bar against the running peak is the worst over all ordered pairs |
| ArchivePlan.OverrideDaysExact | research/crisis_lab/acquisition.py:67-89 | the override list is increasing and holds exactly the days on which the override predicate holds |
| ArchivePlan.RegisteredDays | research/crisis_lab/acquisition.py:48-79 | the override applies on exactly the registered days of the symbol and interval |
| ArchivePlan.BuildArchiveObjects | research/crisis_lab/acquisition.py:442-490 | the plan holds exactly the monthly file of each whole month, the daily files of its override days and the daily files of all days outside whole months; every UTC day of the range so has exactly one effective supplier and no other day has any; fails exactly on an empty range |
| ArchivePlan.MonthListed | research/crisis_lab/acquisition.py:465-483 | a whole month contributes its own file and a daily file exactly for each of its override days |
| ArchivePlan.MonthSupply | research/crisis_lab/acquisition.py:465-483 | those files supply each day of the month once and no other day |
| Acquisition.TransportRangeEncloses | research/crisis_lab/acquisition.py:392-397 | floor and ceiling give the tightest aligned range around the semantic one |
| Acquisition.NormalizeArchive | research/crisis_lab/acquisition.py:760-841 | the selected rows and the anomalies of a file; fails exactly on an off-grid opening |
| Acquisition.SelectedExactly | research/crisis_lab/acquisition.py:796-841 | the rows selected from a file are, in order and with their payload, exactly those in range that no override replaces, each closing just before its next opening; the anomalies are those of them that did not |
| Acquisition.VerdictExactly | research/crisis_lab/acquisition.py:1252-1330 | each verdict and each raise on a missing opening, answer by answer of the two REST queries |
| Acquisition.Merge | research/crisis_lab/acquisition.py:1385-1397 | one row per opening, repeats counted, refused exactly when two rows share an opening and differ |
| Acquisition.VerifyRestGapAbsence | research/crisis_lab/acquisition.py:1228-1349 | succeeds exactly when every opening gets a verdict; counts, status and per-opening transport record are those verdicts |
| Acquisition.AcquireDataset | research/crisis_lab/acquisition.py:1385-1444 | the manifest’s rows, order, counts, first, last, missing openings and gap evidence; succeeds exactly when rows agree, lie on the grid and every missing opening gets a verdict; which error otherwise |
| CorpusCoverage.CollectRows | research/crisis_lab/acquisition.py:1372-1383 | the rows of all files in plan order |
| CorpusCoverage.CompleteFileContributes | research/crisis_lab/acquisition.py:818-841 | a complete file contributes each opening of the days it supplies once and nothing else |
| CorpusCoverage.PlanYieldsGrid | research/crisis_lab/acquisition.py:462-490 | with complete files the merged rows are exactly the range’s grid, each opening once |
| CorpusCoverage.PerfectCorpus | research/crisis_lab/acquisition.py:1385-1425 | a manifest produced from the grid’s openings, each once, holds exactly range(start, end, duration), no duplicate, no gap |
| CorpusCoverage.AcquirePlanned | research/crisis_lab/acquisition.py:1363-1444 | plan, collect, merge and look into gaps: when every planned file is complete the acquisition succeeds and its manifest holds exactly the grid; the manifest always describes the rows selected from the planned files |
| CorpusCoverage.GridEnumerated | research/crisis_lab/acquisition.py:1400-1402 | the set of an aligned range is start, start + d, … in order |
| CorpusAdmission.InspectCanonical | research/crisis_lab/quality.py:318-521 | no failure if and only if the dataset meets every grid, order, count, first/last and gap-evidence requirement |
| CorpusAdmission.InspectGaps | research/crisis_lab/quality.py:455-512 | no gap failure if and only if rows lie on the grid, counts add up and the evidence digests exactly the missing openings |
| CorpusAdmission.LoadCanonicalCandles | research/crisis_lab/replay.py:477-577 | returns the candles if and only if order, count, contiguity or gap evidence hold |
| CorpusAdmission.GateAcceptsProduced | research/crisis_lab/acquisition.py:1385-1444 | an acquisition from the files of a plan, with rows, no duplicates and every gap confirmed absent, is admissible to the gate |
| CorpusAdmission.LoaderAcceptsProduced | research/crisis_lab/acquisition.py:1385-1444 | the same acquisition is loadable |
| CorpusAdmission.PassMeansExactGaps | research/crisis_lab/quality.py:426-519 | a pass means strictly increasing grid openings whose complement in the range is exactly the digested missing list, with its length in every count and the status that goes with it |
| CorpusAdmission.PassMeansConfirmedAbsent | research/crisis_lab/acquisition.py:1398-1444 | from the exchange to the gate: when an acquired dataset passes, REST has confirmed absent every grid opening no acquired row has |
| CorpusAdmission.LoadedMeansNoHole | research/crisis_lab/replay.py:487-577 | in a loaded dataset neighbours adjoin, or every grid opening left out is digested and recorded confirmed absent |
| CorpusAdmission.AllSelectedIsCanonical | research/crisis_lab/acquisition.py:796-838 | every row selected from any files closes one millisecond before the next opening |
| Snapshots.VisibleContiguousSuffix | research/crisis_lab/replay.py:171-187 | of an admitted series, returns the candles closed before t from the last gap on: a tail of them, neighbours adjoining, that the candle before it does not adjoin |
| Snapshots.SuffixIsLatestRun | research/crisis_lab/replay.py:171-187 | that tail is what the specified suffix is, for every admitted series |
| Snapshots.ValidateHistory | research/crisis_lab/replay.py:72-117 | accepts exactly nonempty, closed, on-grid, strictly ordered histories not past the legal boundary |
| Snapshots.SuffixIsLegal | research/crisis_lab/replay.py:160-200 | the suffix of an admitted series validates if and only if something has closed |
| Snapshots.BuildSnapshot | research/crisis_lab/replay.py:160-200 | a snapshot exists exactly in range, on a positive hour, once a candle of every interval has closed; its three histories are legal and reach back to the last gap |
| Snapshots.CutKeepsVisible | research/crisis_lab/active_diagnostic.py:278-288 | a prefix cut at or after the decision keeps everything the decision can see |
| Snapshots.CutKeepsSnapshot | research/crisis_lab/active_diagnostic.py:291-337 | inside a chunk the cut data set gives the very snapshot of the full one |
| Snapshots.SnapshotNeverAnticipates | research/crisis_lab/replay.py:171-200 | data sets that agree on what has closed before t give the same snapshot at t |
| Snapshots.FreshExactlyWhen | research/crisis_lab/replay.py:203-216 | an interval is fresh if and only if the candle that should have closed last, less than one interval before t, is in the series |
| EpisodeSelection.SelectEpisodes | research/crisis_lab/active_diagnostic.py:727-791 | the loop picks greedily from a sorted permutation of the candidates; fails exactly on invalid limits |
| EpisodeSelection.SortIsUnique | research/crisis_lab/active_diagnostic.py:766-771 | without repeated keys sorting has one answer |
| EpisodeSelection.GreedyStaysAhead | research/crisis_lab/active_diagnostic.py:772-791 | no separated subset is larger than the picks, and an equally large one ends no earlier |
| EpisodeSelection.LimitTakesPrefix | research/crisis_lab/active_diagnostic.py:789-790 | the limited picks are the first of the unlimited ones |
| EpisodeSelection.SelectionIsOptimal | research/crisis_lab/active_diagnostic.py:772-791 | picks are pairwise separated and number min(maximum, largest separated subset) |
| EpisodeScanner.ScanProgressive | research/crisis_lab/active_diagnostic.py:551-724 | for every whole-hour chunk size the chunked scan with early stop ends in the state of the unchunked scan; invalid partitions are refused |
| EpisodeScanner.ScanChunk | research/crisis_lab/active_diagnostic.py:601-701 | one chunk over data cut at its end carries the unchunked scan forward to the chunk’s end, an error or the target |
| EpisodeScanner.StreamingPicks | research/crisis_lab/active_diagnostic.py:656-701 | after every decision the streaming picks are the offline picks of all candidates so far |
| EpisodeScanner.FullScanIsStrict | research/crisis_lab/active_diagnostic.py:649-661 | a full scan meets its candidates in key order, each key once |
| EpisodeScanner.StreamingEqualsOffline | research/crisis_lab/active_diagnostic.py:656-701 | with no cap, early stop included, the scan selects what sorting and picking all candidates of a full scan selects |
| EpisodeScanner.StreamingIsOptimal | research/crisis_lab/active_diagnostic.py:656-701 | the episodes are pairwise separated and number min(maximum, largest separated subset) |
| EpisodeScanner.CapRespected | research/crisis_lab/active_diagnostic.py:664-683 | the per-epoch dictionary counts the selected episodes of each epoch and none exceeds the cap |
| EpisodeScannerResults.ScanAnswers | research/crisis_lab/active_diagnostic.py:591-701 | for any cap: the scan took n decisions; of the candidates these produce, until the maximum is reached, one is selected exactly when it lies at least the separation after the last selected before it and fewer than cap selected before it share its epoch; the scan stops at its last episode exactly when the maximum is reached |
| EpisodeScannerResults.CandidatesExactly | research/crisis_lab/active_diagnostic.py:626-661 | the candidates are, in key order, exactly what some decision of either symbol’s own run brought to light, each symbol restarting where an epoch begins; the scan goes through as far as both symbols do |
| EpisodeScannerResults.ScanFailsAt | research/crisis_lab/active_diagnostic.py:591-701 | a scan that fails does so at a decision it reached without having found enough |
| EpisodeScannerResults.SightExactly | research/crisis_lab/active_diagnostic.py:607-636 | what a symbol sees at a decision: its latest gap-free candles of every interval and the primary bar opening then |

## Left out

- Reading and writing: HTTP, archives, CSV and JSON decoding, SHA-256 and git bindings, immutable files, command lines. An archive is a list of rows, REST an oracle, and a digest of missing openings is the list it digests, so collisions are not modelled.
- Decimal context precision and binary64 rounding: all arithmetic is over exact reals. A square root is any function that is nonnegative, and positive on positive arguments; where its square matters (`ScaleScheduleResults`) it also squares to its argument.
- The civil calendar: months and quarters are any strictly increasing sequence of period starts and any monotone quarter clock, and months are keyed by nonnegative times.
- Protocol, registry and freeze validators, qualification gates, aggregation over cells and adjudication.
- Report-only figures: profit factor, expectancy, mean, median and minimum scale, serialised text.
- `_daily_control_returns` and `_monthly_inputs`: the loops that bucket hourly returns into complete days and months; a month table is an input here.
- `_scale_from_returns`, `_pearson`, `_sign`, `_quartile_lower`, `_profit_factor` and `_trial_pairs`: short formulas without state.
- ScaleSchedule.BuildSchedule: minimumPairs below one is not modelled, because the source then averages an empty list and raises.
- The zero running peak, on which the source divides by zero, is the error DivisionByZero.
- TrendSearch.RunCell: the net return, a quotient by the initial equity, is not modelled, because it only feeds a report.
- `_ReferenceRiskTracker`, and the symbol and mark price that a risk state only carries along.
- CorpusAdmission.InspectCanonical: price, volume, header, source-object and close-boundary count checks are not modelled, because they do not touch the time structure; a repeated failure code counts once.
- CorpusAdmission.LoadCanonicalCandles: the price contract of a candle is not modelled; its time contract is.
- Acquisition.NormalizeArchive: the raises on prices, volumes, trade counts, field counts and malformed timestamps are not modelled, because a row's other fields are an opaque payload.
- Acquisition.VerifyRestGapAbsence: sorting and deduplicating the openings and counting the fallback queries are not modelled, because the one caller passes them sorted and without repeats and the count is only reported.
- EpisodeSelection.SelectEpisodes: the raises on candidates of the wrong shape or with forbidden outcome fields are not modelled, because a candidate here is its time, symbol and evidence.
- Acquisition.AcquireDataset: the sort before the merge is not modelled, because the merged dictionary and its counts do not depend on row order; boundary verification and the acquisition status are report-only.
- EpisodeScanner.ScanProgressive: what one event does to a symbol's execution state is an arbitrary function of state, symbol, time, snapshot and fill bar; event sequence numbers and the chunk count are not modelled, a chunk's events are listed before they are processed, and every scan failure is the one error ScanFailed.
- Snapshots.ValidateHistory: source, symbol, interval and closed flags of a candle are not modelled, because every admitted candle carries its data set's own.
