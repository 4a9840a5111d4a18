# Drawdown protection: a Dafny model of the pricing, hedging and backtest core

The repository prices and hedges drawdown protection on BTC. This project models the parts of it that keep state or
compute one quantity in several ways, and proves what they keep.

- **Order execution** (`ExecutionEngine`, `ExecutionProofs`, `ExecutionSearch`, `ExecutionPlan`,
  `PlanProofs`): the candidate and retry loops that buy
  options from a venue under a time budget, the perpetual fallback, and the plan that chains them. The venue and the
  clock are arbitrary functions of the call number; theorems about fills assume only that an answered order is filled
  between zero and the amount asked for.
- **Risk, liquidity and subsidy ledger** (`RiskControls`, `RiskProofs`, `SubsidyGrants`): a class with the module's variables, each call
  equal to a step of a state machine over calls, and theorems about whole runs of calls.
- **Backtests** (`BacktestWindows`, `PremiumSearch`, `Treasury`, `BacktestFigures`, `CycleBacktest`,
  `CycleMoney`): the two window engines, break-even
  and least-premium search, the one-pass treasury simulation, and the cycle scenario. Option prices and realized
  volatility are arbitrary functions.
- **Volatility ladder and quote cache** (`LadderProtocol`, `IvLadder`, `QuoteCache`): the subscription protocol as a
  state machine over socket events, snapshots over recent ticks, and the cache of quotes computed from them.
- **Small algorithms** (`CtcFee`, `Csv`, `CurrencyInput`, `QuoteRetry`): the safety fee, the CSV printer with a reader
  for section 2 of RFC 4180 (LF ends a record, as in this code), the currency field, and the deadline-bounded retry.

`Decimal` and JavaScript numbers are exact reals, times are whole milliseconds, days are integers, and a NaN that can
arise from dividing by zero is a `None` or an `Undefined` that compares false. Loops that update variables are methods
with invariants, proved against a specification function or predicate; the lemmas are about those specifications.

Things the model shows about the code as it is:

- The day rollover of the subsidy state stores the plain number `0` (src/riskControls.ts:211), which has no `add`, so
  after the first rollover no subsidy is recorded until a reset (`NothingStoredAfterRollover`, `StoredIff`). `CapsHold`
  proves the caps of the recorded books both for that zero and for the Decimal zero its type declares; but with the
  zero as written the books of a later day stay empty, because every record of that day throws. What is granted in a
  day, counted as the amounts whose check is allowed, stays within the daily cap exactly while the total is a Decimal
  (`GrantsAreRecorded`, `GrantsWithinCap`); after a rollover it has no bound at all unless the cap allows nothing
  (`GrantsBoundedIff`, `RolloverLosesBound`).
- Under high volatility every cap is scaled, and a multiplier of zero switches the account cap off instead
  (`VerdictIs`, `AllowedFits`).
- A check does not reserve what it allows. Two checks answered before either record can break a cap
  (`ChecksBeforeRecordsBreakCap`); they keep the caps exactly when both amounts fit together
  (`ChecksBeforeRecordsIff`).
- The overage summed over today's tiers is not always at least today's hedge spend less today's revenue: a negative fee
  given to `recordRevenue` lowers the revenue alone (`NegativeFeeBreaksCover`). The sum is exactly that difference plus
  the day's surplus (`TiersMatchToday`), so the bound holds exactly while the surplus is not negative
  (`OverageCoversSpendIff`).
- A configuration reload overwrites the balance alone (src/riskControls.ts:201-203). `BalanceSinceReload` says exactly
  when the books of a fresh start hold again.
- A perpetual order answered with a zero fill is booked as a full fill (src/executionEngine.ts:389-391);
  `PerpReportsVenueFill` gives the exact condition under which the report is the venue's.
- A plan that falls back drops its option fill from the totals but keeps the attempts. `HedgeGap` measures the
  difference and `OverHedgeHappens` shows, from a market of one put through the selection, that it is not always zero.
- The age of the ticks behind a cached quote is not bounded by the three configured windows alone: the time between
  reading the ladder and storing the quote adds to it (`ServedIsRecent`). `LatencyCounts` is a run of the ladder and the
  server that reaches the sum of the four for every computing time, so the three windows suffice only when that is zero.
- A put spread at the money that is narrower than the stop can recover less than its payout (`SpreadFallsShort`);
  `SpreadCoversPayoutIff` gives the exact widths. The spreads the second and third scripts themselves build are one to
  three times as wide as the stop, without deductible, and never fall short at the money.
- The second script raises a negative cost of a plain put to zero, the first and third do not (`EnginesAgree`).
- Aborts count as retryable in the quote loop, but with exact timers an aborted attempt never is retried
  (`AbortIsFinal`).
- The comment on `tpRecovery` (services/api/scripts/pilotBacktestDefinitiveV2.ts:127) names the trigger day and the two
  days after it; the code also takes the expiry day, and the model follows the code.

## Model

| member | source | states |
|---|---|---|
| ExecutionEngine.ExecuteMultiStrikeOption | src/executionEngine.ts:177-357 | the candidate loop reports exactly the run whose completeness, totals, trace and limits the lemmas below state |
| ExecutionEngine.RetryCandidate | src/executionEngine.ts:223-320 | the retry loop for one candidate makes exactly the attempts of the specified run and says whether one filled |
| ExecutionProofs.OptionRunTotals | src/executionEngine.ts:188-290 | reported fill and cost are the sums over the attempts, the final instrument is the last one filled, the fill never exceeds the target, and every attempt obeys the protocol rule |
| ExecutionProofs.LegalAt | src/executionEngine.ts:193-328 | every attempt asks for exactly the target less all earlier fills and gets no more; an order is sent exactly for a candidate with a price, at that price plus or minus the slippage by side, and only while the fills are below the minimum ratio; the size and price booked are the first the answer gives; a candidate is retried only after a failure |
| ExecutionProofs.OneFillPerCandidate | src/executionEngine.ts:282-289 | after a candidate fills, every later attempt is for a later candidate |
| ExecutionProofs.AttemptCount | src/executionEngine.ts:193-225 | at most candidates times (maxRetries + 1) attempts |
| ExecutionSearch.SearchIsComplete | src/executionEngine.ts:193-327 | the loop stops early only for its budget, its target or its minimum ratio: with less filled and no reading past the budget, every candidate was tried until it filled, had no price, or had its last retry |
| ExecutionSearch.SettledTries | src/executionEngine.ts:223-225 | a candidate that had its last retry was tried exactly maxRetries + 1 times in a row |
| ExecutionSearch.AnswersAreTheVenues | src/executionEngine.ts:250-254 | every answer booked is the venue's, to the order of that attempt, orders being sent one after the other |
| ExecutionSearch.PriceOfSide | src/executionEngine.ts:198-201 | a buyer's price is the ask and a seller's the bid, or the mark where the quote is missing |
| ExecutionSearch.ReportOfRun | src/executionEngine.ts:330-357 | the report holds the sums over the trace, the coverage, and the size-weighted average of the prices booked |
| ExecutionProofs.SearchStaysInBudget | src/executionEngine.ts:188-230 | with a clock that never goes back and any venue, every attempt but the last is over within the search budget |
| ExecutionProofs.StatusReflectsFill | src/executionEngine.ts:330-340 | for a positive target: success exactly from 99% of the target, partial exactly from the minimum ratio up to that, failed exactly below both |
| ExecutionProofs.AverageWithinPrices | src/executionEngine.ts:342-345 | the average price lies between any bounds on the prices the fills were booked at |
| ExecutionPlan.SelectStrikeCandidates | src/executionEngine.ts:95-175 | the selection is the top of the eligible instruments in the library's order: stably sorted by score, or any order once a score is NaN |
| PlanProofs.CandidateIff | src/executionEngine.ts:114-161 | an instrument becomes a candidate exactly when type, expiry tag, strike, open interest, mark and spread pass, and carries its own quotes |
| PlanProofs.EveryEligibleIsCandidate | src/executionEngine.ts:122-171 | the candidates are exactly the instruments that become one, in order and each once |
| PlanProofs.ScoreShares | src/executionEngine.ts:72-89 | with non-zero divisors the score is 40% nearness, 30% open interest and 30% tightness, kept between 0 and 1 |
| ExecutionPlan.ScoreIsShare | src/executionEngine.ts:72-89 | for every input, zero limits and targets included: the score is a number unless zero is divided by zero or opposite infinities meet, and then lies between 0 and 1 |
| ExecutionPlan.SortIsStable | src/executionEngine.ts:173 | the sort is a permutation, best score first, and keeps the order of equal scores |
| ExecutionPlan.SelectionIsBest | src/executionEngine.ts:173-174 | as many as allowed are selected, and where all scores are numbers they come best first and nothing left out scores above anything selected |
| ExecutionPlan.EligibleProtects | src/executionEngine.ts:114-141 | every candidate comes from an instrument that passed the filters: strike on the protective side of the floor, enough open interest, tight enough spread |
| ExecutionPlan.PerpReportsVenueFill | src/executionEngine.ts:389-391 | the perpetual fill reported is the venue's exactly when that is not zero or the target is zero |
| ExecutionPlan.PerpBought | src/executionEngine.ts:359-459 | the single perpetual attempt holds the reported fill, which is at most the target |
| PlanProofs.PerpReport | src/executionEngine.ts:359-459 | one market order for the whole target on the side given; its size, price, cost and failure are those of the answer |
| ExecutionPlan.BuildExecutionPlan | src/executionEngine.ts:461-560 | the plan returns the result whose gap and bounds HedgeGap describes, on every path |
| PlanProofs.PlanCases | src/executionEngine.ts:476-560 | when the perpetual order is sent, bought for puts and sold for calls, and what is reported in every other case |
| ExecutionPlan.HedgeGap | src/executionEngine.ts:527-559 | attempts bought minus reported fill is exactly the abandoned option fill, zero or strictly below minFillRatio times target, so the hedge bought is below (1 + minFillRatio) times target |
| ExecutionPlan.OverHedgeHappens | src/executionEngine.ts:543-556 | a venue, a market of one put and the candidates selected from it, for which a plan for 1 buys 1.4 |
| RiskControls.Controls.LoadRiskControls | src/riskControls.ts:195-205 | a changed file replaces the configuration and the balance and nothing else; an unchanged one changes nothing |
| RiskProofs.LoadEffect | src/riskControls.ts:195-205 | what a load changes and what it keeps, field by field |
| RiskControls.Controls.EnsureSubsidyDay | src/riskControls.ts:207-215 | a new day empties the subsidy state and leaves the plain zero |
| RiskControls.Controls.CanApplySubsidy | src/riskControls.ts:217-260 | rollover first, then the verdict that VerdictIs spells out |
| RiskProofs.VerdictIs | src/riskControls.ts:217-260 | over the configuration: the first of the daily, tier and account cap that the amount breaks, times the multiplier exactly when volatility is above the threshold, and Allowed exactly when it breaks none |
| RiskProofs.ThrottleTightens | src/riskControls.ts:235-243 | with caps that are not negative, what is allowed under high volatility is allowed at any |
| RiskProofs.ThrottleBites | src/riskControls.ts:235-258 | with the defaults 80 for one account is allowed on an empty day, and refused under high volatility |
| RiskControls.Controls.RecordSubsidy | src/riskControls.ts:262-274 | total, tier and account grow by the amount together, or the call throws and stores nothing, with the exact condition |
| RiskControls.Controls.GetRiskState | src/riskControls.ts:286-297 | a tier not seen today starts from zero, any other is returned as it is |
| RiskControls.Controls.ApplyRiskAccounting | src/riskControls.ts:299-344 | the whole new state after a booking, and the delta returned |
| RiskControls.Controls.RecordRevenue | src/riskControls.ts:346-378 | the whole new state after a fee, and the delta returned |
| RiskControls.Controls.ResetRiskState | src/riskControls.ts:388-406 | tiers and subsidies are emptied and liquidity restarts from the configured balance |
| RiskProofs.ProfitIsRevenueLessSpend | src/riskControls.ts:316-320 | after every run of calls, reloads and resets included, profit is revenue less hedge spend |
| RiskProofs.BalanceSinceReset | src/riskControls.ts:388-401 | since a reset the balance is the initial liquidity plus profit less hedge margin |
| RiskProofs.BalanceSinceReload | src/riskControls.ts:201-203 | since a reload the balance follows profit and margin from there on; the fresh-start equation holds again exactly when profit equalled margin at the reload |
| RiskProofs.LiquidityIsOrderIndependent | src/riskControls.ts:316-332 | every permutation of the bookings gives the same liquidity state |
| RiskProofs.DeltasAddUp | src/riskControls.ts:334-343 | the returned deltas sum to the final less the initial state |
| RiskProofs.BookedTotals | src/riskControls.ts:299-378 | every liquidity figure after a run of bookings as sums of the fees, premiums and margins booked; shares are set aside of gains only |
| RiskProofs.RevenueIsAccountingOfFee | src/riskControls.ts:346-378 | recordRevenue equals applyRiskAccounting with only a fee exactly for fees of zero or more |
| RiskProofs.TiersMatchToday | src/riskControls.ts:286-344 | with a clock that never goes back, after every run: revenue and notional over the tiers dated today are exactly what was booked today, and their overage is exactly today's hedge spend less today's revenue plus today's surplus (fees beyond their premium, and recordRevenue fees); stale tiers in the map are not counted |
| RiskProofs.OverageCoversSpendIff | src/riskControls.ts:299-344 | so that overage is at least today's hedge spend less today's revenue exactly while today's surplus is not negative, and always when no recorded fee is negative |
| RiskProofs.NegativeFeeBreaksCover | src/riskControls.ts:346-378 | one negative fee given to recordRevenue breaks that bound |
| RiskProofs.CapsHold | src/riskControls.ts:207-274 | when each record follows an allowed check: total equals the sums by tier and by account, and daily, tier and account caps hold after every run, across rollovers and volatility regimes |
| RiskProofs.OpsAreCalls | src/riskControls.ts:217-274 | those runs are runs of the module's own calls, each check and record a step of the class, bookings and resets in between |
| RiskProofs.CapsHoldForCalls | src/riskControls.ts:217-274 | so the caps hold in the subsidy state of the class after every such run |
| RiskProofs.RecordKeepsCapsIff | src/riskControls.ts:262-274 | a record of any amount, checked or not, keeps the caps exactly when nothing is stored or the amount fits at that moment |
| RiskProofs.ChecksBeforeRecordsIff | src/riskControls.ts:217-274 | two checks answered before either record keep the caps exactly when both amounts fit together under every cap they share |
| RiskProofs.AllowedFits | src/riskControls.ts:238-258 | an allowed check fits the unscaled caps, also when a zero multiplier switches the account check off |
| RiskProofs.ChecksBeforeRecordsBreakCap | src/riskControls.ts:250-252 | an instance where they do not fit: 300 twice under a daily cap of 500 |
| RiskProofs.StoredIff | src/riskControls.ts:267-273 | a record is stored, in the total, the tier and the account, exactly when the total is still a Decimal and the day has not changed |
| RiskProofs.NothingStoredAfterRollover | src/riskControls.ts:209-214 | after a rollover nothing is stored by any run of calls without a reset |
| SubsidyGrants.AllowedWithoutEnd | src/riskControls.ts:207-274 | after a rollover no run of that day's checks, records, summaries and bookings changes the books, so every check is answered as before the first |
| SubsidyGrants.GrantsAreRecorded | src/riskControls.ts:217-274 | while the total is a Decimal it grows over a day by exactly the sum of the allowed amounts |
| SubsidyGrants.GrantsWithinCap | src/riskControls.ts:217-274 | so what is granted in a day stays within the daily cap |
| SubsidyGrants.GrantsRepeat | src/riskControls.ts:207-274 | after a rollover one allowed grant can be granted any number of times, n copies granting n times its amount |
| SubsidyGrants.GrantsBoundedIff | src/riskControls.ts:207-274 | what the rest of a day can grant is bounded exactly while the total is a Decimal or when the daily cap is not positive |
| SubsidyGrants.RolloverLosesBound | src/riskControls.ts:207-215 | the first check of a new day leaves that day without a bound unless the daily cap is not positive, and a reset gives it one back |
| BacktestWindows.RunWindows | services/api/scripts/pilotBacktestDefinitiveV3.ts:121-185 | one window per entry day with a positive price and a full tenor, each meeting the promises on trigger day, payout, daily recovery and best day, with the hedge cost of either later script |
| BacktestFigures.WindowFigures | services/api/scripts/pilotBacktestDefinitiveV2.ts:150-216 | every figure of a window spelled out: strikes as percentages below entry, hedge cost net of the put sold, payout net of the deductible, each day's recovery, regime |
| BacktestFigures.TakeProfitIs | services/api/scripts/pilotBacktestDefinitiveV2.ts:195-203 | take-profit is the greatest of the expiry day and of the trigger day and the two after it |
| BacktestFigures.EntryDaysAre | services/api/scripts/pilotBacktestDefinitiveV2.ts:150-152 | every day with a positive price is entered, in order, and no other |
| BacktestWindows.FindTrigger | services/api/scripts/pilotBacktestDefinitiveV2.ts:171-177 | the trigger day is the first close at or below the trigger |
| BacktestWindows.DailyRecovery | services/api/scripts/pilotBacktestDefinitiveV2.ts:182-193 | the intrinsic value of each day, capped at the spread width |
| BacktestWindows.TakeProfitScan | services/api/scripts/pilotBacktestDefinitiveV2.ts:195-203 | the maximum of the expiry day and of the trigger day and the two after it |
| BacktestWindows.BestDay | services/api/scripts/pilotBacktestDefinitiveV3.ts:168-172 | the maximum over all days and the first day that has it, the expiry day when none is better |
| BacktestWindows.RunLegacyWindows | services/api/scripts/pilotBacktestDefinitive.ts:216-278 | the first script's windows over the same entry days, and the number of triggers |
| BacktestWindows.LowestClose | services/api/scripts/pilotBacktestDefinitive.ts:230-239 | the minimum close of the window and its first hit |
| BacktestWindows.LowestAfterTrigger | services/api/scripts/pilotBacktestDefinitive.ts:252-259 | the lowest close of the trigger day and the two after it |
| BacktestWindows.MinimumIsHit | services/api/scripts/pilotBacktestDefinitive.ts:240 | the window minimum is at or below the trigger exactly when a first-hit day exists |
| BacktestWindows.BestIntrinsicAtLowest | services/api/scripts/pilotBacktestDefinitive.ts:260-261 | the best daily intrinsic value is the intrinsic value at the lowest close |
| BacktestWindows.EnginesAgree | services/api/scripts/pilotBacktestDefinitive.ts:230-264 | for all price series, tenors and strikes both engines report the same window; the hedge costs are equal exactly unless a negative plain cost meets the second script |
| BacktestWindows.RunsAgree | services/api/scripts/pilotBacktestDefinitive.ts:216-278 | whole runs of both engines agree window by window |
| BacktestWindows.TakeProfitCoversGap | services/api/scripts/pilotBacktestDefinitiveV2.ts:182-203 | a triggered window recovers at least the strike's distance to the trigger, for puts and for spreads whose lower strike is at or below the trigger |
| BacktestWindows.TakeProfitCoversPayout | services/api/scripts/pilotBacktestDefinitiveV2.ts:179-203 | at the money that is the full payout, at mid half the payout without deductible |
| BacktestWindows.AtmLossBounded | services/api/scripts/pilotBacktestDefinitiveV2.ts:230-238 | with an at-the-money strike no window loses more than hedge cost less premium |
| BacktestWindows.SpreadCoversPayoutIff | services/api/scripts/pilotBacktestDefinitiveV2.ts:187-191 | a triggered at-the-money spread recovers its payout exactly when it is at least as wide as the stop net of the deductible, for every stop, width and deductible |
| BacktestWindows.SpreadFallsShort | services/api/scripts/pilotBacktestDefinitiveV2.ts:182-203 | a run whose one triggered window recovers less than its payout: a 3% spread under a 5% stop |
| BacktestWindows.RecoveriesOrdered | services/api/scripts/pilotBacktestDefinitiveV3.ts:167-180 | hold, take-profit and best-day recovery are ordered and never negative |
| PremiumSearch.PremiumStats | services/api/scripts/pilotBacktestDefinitiveV3.ts:222-230 | mean profit is premium less break-even, and the win rate is the share of windows whose cost the premium covers |
| PremiumSearch.ComputeBreakEven | services/api/scripts/pilotBacktestDefinitiveV2.ts:250-259 | the break-even is the mean cost of the windows |
| PremiumSearch.BreakEvensAgree | services/api/scripts/pilotBacktestDefinitive.ts:285-288 | the first script's sum of three means is the second's single quotient |
| PremiumSearch.RegimeBreakEvens | services/api/scripts/pilotBacktestDefinitiveV2.ts:261-280 | one pass gives each regime the break-even of exactly its own windows |
| BacktestFigures.RegimeIsFilter | services/api/scripts/pilotBacktestDefinitiveV2.ts:261-280 | the windows of a regime are exactly those of that regime |
| PremiumSearch.RegimesWeighToOverall | services/api/scripts/pilotBacktestDefinitiveV3.ts:208-219 | regime counts add up, and regime break-evens weighted by count add up to the overall one |
| PremiumSearch.FindBestPremium | services/api/scripts/pilotBacktestDefinitiveV3.ts:243-250 | the least whole premium in 1..30 below the cap that qualifies, null exactly when none does |
| BacktestFigures.QualifiesIff | services/api/scripts/pilotBacktestDefinitiveV3.ts:222-250 | a premium qualifies exactly when the windows earn on the whole and a large enough share of them does not lose |
| BacktestFigures.BreakEvenEarnsNothing | services/api/scripts/pilotBacktestDefinitiveV2.ts:250-259 | at the break-even the windows earn nothing on the whole |
| PremiumSearch.QualifyingIsUpwardClosed | services/api/scripts/pilotBacktestDefinitiveV3.ts:243-250 | every larger premium than a qualifying one qualifies |
| PremiumSearch.BetterRecoveryHelps | services/api/scripts/pilotBacktestDefinitiveV3.ts:167-180 | a premium that qualifies under take-profit qualifies under the best day |
| Treasury.SimulateTreasury | services/api/scripts/pilotBacktestDefinitiveV2.ts:836-872 | in one pass: the largest fall between any two balances in order, the least balance, the end balance, and the first of the worst months with its total |
| BacktestFigures.BalanceIsEarned | services/api/scripts/pilotBacktestDefinitiveV2.ts:836-851 | every balance is 100,000 plus five times what the windows so far earned |
| BacktestFigures.MonthIsEarned | services/api/scripts/pilotBacktestDefinitiveV2.ts:852-853 | a month's total is five times what the windows sharing the first seven characters of the date earned |
| BacktestFigures.MonthsGrow | services/api/scripts/pilotBacktestDefinitiveV2.ts:852-860 | months are listed once, in the order of their first window |
| Treasury.WorstMonth | services/api/scripts/pilotBacktestDefinitiveV2.ts:856-860 | the scan finds the first month with the least total |
| Treasury.MonthsPartition | services/api/scripts/pilotBacktestDefinitiveV2.ts:852-853 | the month totals add up to the change of the balance |
| Treasury.PremiumEasesTreasury | services/api/scripts/pilotBacktestDefinitiveV2.ts:836-872 | a higher premium never deepens the drawdown nor lowers the minimum |
| CycleBacktest.RunScenario | services/api/scripts/pilotBacktest1Day.ts:34-116 | the number of cycles is (points - 1) over the step, rounded up; net profit is premium less hedge less payouts plus sales, each the total that the lemmas below state |
| CycleMoney.TotalsAreSums | services/api/scripts/pilotBacktest1Day.ts:40-103 | hedge and sale totals are sums over the cycles, net profit is the sum of premium less hedge cost less payout if touched plus sale of each, and each reason counts the sales made for it |
| CycleMoney.CycleSells | services/api/scripts/pilotBacktest1Day.ts:59-97 | a position is sold at the first point before expiry that meets a rule, at the value of the hedge there, and kept when none does |
| CycleMoney.SellRules | services/api/scripts/pilotBacktest1Day.ts:71-87 | the five rules of a triggered position in milliseconds and dollars, in their order |
| CycleMoney.TriggerIsFirstTouch | services/api/scripts/pilotBacktest1Day.ts:67-70 | a cycle triggers at its first point at or below the floor |
| CycleMoney.TradeIs | services/api/scripts/pilotBacktest1Day.ts:46-53 | what a cycle opens: floor, strike, expiry, quantity for the whole notional, and hedge cost |
| CycleMoney.ValueIs | services/api/scripts/pilotBacktest1Day.ts:63-65 | the value of a hedge is the greater of its intrinsic value and its option price |
| CycleBacktest.WalkCycle | services/api/scripts/pilotBacktest1Day.ts:59-98 | the walk through one cycle gives the specified trigger and sale |
| CycleBacktest.StrikeIsGreatestMultiple | services/api/scripts/pilotBacktest1Day.ts:48-50 | the strike is the greatest multiple of 500 at or below the floor |
| CycleBacktest.CycleOutcome | services/api/scripts/pilotBacktest1Day.ts:61-97 | a cycle triggers exactly when its window touches the floor, a sale is never replaced, and only a salvage sells an untriggered position |
| CycleBacktest.TotalsBalance | services/api/scripts/pilotBacktest1Day.ts:55-97 | premiums, payouts, triggers, sales and reason counts balance, at most one trigger and one sale a cycle |
| LadderProtocol.AlwaysInSync | src/deribitIvLadder.ts:67-104 | after every interleaving of socket events, closing handshakes and refreshes an open socket has exactly the ladder subscribed, and a closed one is going to be replaced |
| LadderProtocol.RefreshSendsDifferences | src/deribitIvLadder.ts:92-104 | a refresh subscribes only what is not subscribed and unsubscribes only what is |
| LadderProtocol.EventEffects | src/deribitIvLadder.ts:210-272 | where every event leaves the socket, the ladder and the reconnect timer |
| LadderProtocol.ReconnectRestores | src/deribitIvLadder.ts:219-268 | a closed socket whose timer fires and whose successor opens has the whole ladder subscribed again |
| LadderProtocol.DifferencesSuffice | src/deribitIvLadder.ts:96-103 | adding the new names and removing the old ones turns the old ladder into the new |
| LadderProtocol.ChannelNamesInstrument | src/deribitIvLadder.ts:233-234 | ticks come back under the name of the instrument that was subscribed |
| IvLadder.Ladder.UpdateSubscriptions | src/deribitIvLadder.ts:92-104 | the ladder is replaced and the messages are those of the protocol step |
| IvLadder.Ladder.OnOpen | src/deribitIvLadder.ts:219-223 | an opened socket subscribes the whole ladder |
| IvLadder.Ladder.OnMessage | src/deribitIvLadder.ts:225-259 | a tick of positive volatility and price is stored with its time, any other is ignored |
| IvLadder.Ladder.GetSnapshot | src/deribitIvLadder.ts:279-327 | with three recent ticks a new snapshot: each leg has the buffered price and volatility of the tick of its own instrument exactly when that is recent, the sources are exactly the recent ticks of the ladder, and baseIv is the mean of the two middle values; else the last snapshot while it is young enough |
| IvLadder.MiddleIsMedian | src/deribitIvLadder.ts:295-298 | baseIv has at least half of the values on either side |
| IvLadder.SnapshotIsWellBacked | src/deribitIvLadder.ts:295-324 | min <= baseIv <= hedgeIv = max over at least three ticks within the age limit, and every leg has its volatility and its buffered ask or mark price from one of them, or neither |
| IvLadder.SnapshotIsTaken | src/deribitIvLadder.ts:282-324 | every field of a snapshot over the ladder and the ticks it is taken from |
| QuoteCache.SameKeyClose | src/server.ts:67-83 | requests with one key share tier, tenor and asset up to case, and differ by less than a rounding unit in every figure |
| QuoteCache.SameKeyIff | src/server.ts:67-83 | one key exactly for one tier, one tenor, one asset up to case and figures that round alike; the account does not matter |
| QuoteCache.PricingServer.Begin | src/server.ts:237-285 | a request is refused exactly when fields are missing, served exactly while its key's entry is within the window, and otherwise starts from the snapshot the ladder answers at that moment |
| QuoteCache.PricingServer.Finish | src/server.ts:321-346 | the quote is stored under its own key at the time of storing |
| QuoteCache.PricingServer.Fail | src/server.ts:347-364 | on an error the entry seen at the start is served while usable |
| QuoteCache.PricingServer.ServedIsRecent | src/server.ts:254-272 | a quote served from the cache was computed for a request with the same rounded key and rests on ticks no older than the windows plus its own computing time |
| QuoteCache.LatencyCounts | src/server.ts:282-338 | a run of ladder and server in which a served quote rests on ticks as old as the three windows plus the computing time, for every such time |
| CtcFee.SelectClosestBucket | src/pricingEngine.ts:156-168 | the first nearest bucket |
| CtcFee.PickLeg | src/pricingEngine.ts:220-240 | the first priced leg with the least score, none exactly when no leg is priced |
| CtcFee.PickIs | src/pricingEngine.ts:220-240 | the pick is the first priced leg at the least distance, ten a day of tenor and one a unit of floor |
| CtcFee.PickedIsLexicographicallyNearest | src/pricingEngine.ts:230-239 | for whole-day tenors and floor gaps below 10 the picked leg is nearest by tenor, then by floor |
| CtcFee.CalculateCtcSafetyFee | src/pricingEngine.ts:170-282 | a fee exactly when the three legs picked can be sized, equal to their cost with margin plus the ops buffer |
| CtcFee.FeeFromLegs | src/pricingEngine.ts:242-275 | the loop over the weights gives that fee or none |
| CtcFee.LegsCoverTarget | src/pricingEngine.ts:242-268 | the sized legs are together worth exactly the target at the floor |
| CtcFee.FeeIs | src/pricingEngine.ts:191-275 | a fee is the marked-up cost in dollars of the picks for 1, 3 and 7 days, sized 20, 30 and 50 percent to be worth size times leverage times the drop to the floor plus buffer, plus the ops buffer |
| CtcFee.NoFeeIff | src/pricingEngine.ts:197-262 | a fee exists exactly when the floor is above zero and all three picks strike above it |
| CtcFee.FeeScalesWithPosition | src/pricingEngine.ts:212-275 | for any two results of the calculation, fee less ops buffer is linear in the position size, and whether a fee exists does not depend on it |
| Csv.RowsToCsv | services/api/scripts/pilotBacktestBandTargets.ts:276-284 | the text is the header line and one line per row, each ended by LF |
| Csv.QuotedWhenNeeded | services/api/scripts/pilotBacktestBandTargets.ts:271-274 | a field is printed as it is exactly when it holds no comma, quote or line break |
| Csv.RecordsAre | services/api/scripts/pilotBacktestBandTargets.ts:276-282 | one record a row and one field a header, in order; a missing key is an empty field |
| Csv.FieldReads | services/api/scripts/pilotBacktestBandTargets.ts:271-274 | an escaped field of any text is read back as itself |
| Csv.RoundTrip | services/api/scripts/pilotBacktestBandTargets.ts:271-284 | the text reads back as headers and every field of every row exactly when there is a header and none holds a comma, quote or line break |
| CurrencyInput.FormatIsIdempotent | apps/web/src/PilotApp.tsx:241-250 | formatting formatted text changes nothing, for every string |
| CurrencyInput.CommasEveryThreeDigits | apps/web/src/PilotApp.tsx:246 | counted from the right, every fourth character of the whole part is a comma and no other is |
| CurrencyInput.FormatPieces | apps/web/src/PilotApp.tsx:241-250 | stripping the commas gives the digits without leading zeros and the fraction cut to 8 digits |
| CurrencyInput.FractionIsRest | apps/web/src/PilotApp.tsx:244-249 | the fraction is everything after the first dot, later dots left out |
| CurrencyInput.ParseFormatted | apps/web/src/PilotApp.tsx:252-255 | parsing the formatted text gives the number typed, cut to 8 fraction digits |
| CurrencyInput.ParsedIsJustBelowTyped | apps/web/src/PilotApp.tsx:241-255 | the parsed number is never above the number typed and less than 0.00000001 below it |
| QuoteRetry.RequestQuote | apps/web/src/PilotApp.tsx:1119-1216 | one to three attempts, finished before 30,050 ms, nothing sent in the last 200 ms before the deadline, never on the deadline branch |
| QuoteRetry.FinishesInTime | apps/web/src/PilotApp.tsx:1129-1199 | the same from any attempt entered with more than 200 ms left |
| QuoteRetry.RequestTries | apps/web/src/PilotApp.tsx:1128-1199 | the attempts of a call one by one: when each is sent and over, that another follows exactly when one is left, the failure may be repeated and more than 650 ms remain, and what is reported of the last |
| QuoteRetry.AbortIsFinal | apps/web/src/PilotApp.tsx:1185-1195 | an aborted attempt ends the request |
| QuoteRetry.LatestFinish | apps/web/src/PilotApp.tsx:1130-1137 | a run that finishes at 30,049 ms |

## Left out

- Floating-point rounding and the 20-digit precision of the decimal library: all arithmetic is exact.
- Black-Scholes prices and realized volatility: arbitrary functions, non-negative where a theorem says so.
- `buildLadder`: the legs of a refresh are an arbitrary list, so which strikes the ladder picks is not modelled.
- `calculateFeeBase` and the single-branch fee helpers: a computed quote carries an arbitrary fee.
- Aliasing of the objects returned by `getRiskState`, `riskSummary` and `liquiditySummary`: tier and liquidity states are values.
- The expiry tag and tenor of a strike candidate: the order loop does not read them.
- ExecutionPlan.SelectStrikeCandidates: the order of the library's sort once a score is NaN is arbitrary, as its specification leaves it; zero has no sign.
- Venue answers whose amounts are not numbers, and price fields are only missing, numeric or otherwise truthy.
- CurrencyInput.ParseFormatted: `Number` is modelled on digits with at most one dot, which is all that formatted text holds.
- QuoteCache.SameKeyClose: the key is a record, not its JSON text, and upper-casing covers ASCII letters.
- QuoteRetry.RequestQuote: timers fire exactly on time and which refusals are retryable is an arbitrary predicate.
- BacktestWindows.RunWindows: one model for the second and third scripts; the second does not report the best day, and the regime at exit is not kept.
- The first script's search over a list of suggested premiums, and the definitive scripts after the third.
- Csv.RowsToCsv: cells are already printed; how a number or boolean prints is not modelled.
- CycleBacktest.RunScenario: requires positive prices and a stop below 100 percent, as the loader and the tier table provide; rates and averages of the report are left out except profit per cycle.
- Report text, user interface, audit files, HTTP routes and venue connectors.
- Liveness of the socket: that a scheduled reconnect eventually fires and succeeds.
