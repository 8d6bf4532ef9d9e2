# Verification of the rebalance execution engine

This project models, in Dafny, how the platform turns target weights into broker orders, and proves what that
machinery promises: what a cycle may sell and buy, what it may spend, when it may send anything at all, and which
evidence about the broker it accepts. Run `dafny verify dfyconfig.toml` to check everything.

## What is modelled

**The sequential allocator** (`Quantity`, `Sums`, `Orders`, `Allocator`, `Passes`, `Ledger`, `Fidelity`, `Planning`,
`Convergence`, `OptionPass`, `BuyGates`, `Limits`, `Rebalance`, `RotationGuard`, `TargetProjection`). A `Book` holds what
a cycle keeps fixed: traded symbols, target values, quotes, holdings, limits, threshold, reserve, quantity step. Money and
prices are `real`; quantities are multiples of the step; the traded symbols are a set that is visited in an arbitrary
order, the targets a sequence. The decision at one symbol is a function (`DecideSell`, `DecideBuy`, `PlanBuy`); a pass is
a recursion over a prefix of the visiting order that carries a `Run` (trace, orders, released cash, remaining budget,
filed lists). The loops of the source are methods proved equal to these functions, over a mutable `ExecutionSummary`; the
laws are then lemmas about the functions, over every book, every visiting order, every broker answer and every cash read.

**The execution claim and the account fence** (`ExecutionClaim`). A transition system in which any number of cycles
interleave over a marker store, an owner store and exclusive lock files. Dedup reads answer anything, store calls may
raise before or after taking effect, marker writes may fail, and a cycle may crash between any two steps. The claim
closure with its latch is also an imperative class, shown to take the steps of the system.

**The new-risk gate** (`NewRiskGate`). Evidence projection, the snapshot bound for the cycle, the verdict at planning
and at submission, and the adapter that rejects or scales an order.

**Broker evidence** (`Sorting`, `CashReaders`, `SourceReceipts`). The three readers of broker cash, the sorted
observations, and the binding of source receipts to a candidate.

**Paper reconciliation** (`PaperReconciliation`). Proposals from a target artifact, the shared exposure classes, and
what executing the proposals does.

**Schedules** (`CronDays`). The planner's and the heartbeat's reading of the cron day-of-week field.

## Where the code and its intent part

- Broker cash reads are clamped at zero, so a cycle that starts in debt and sells something takes the debt back as
  buying power. `Limits.ReserveIsKeptExactly`: the reserve is kept in every cycle exactly when the starting cash is not
  negative; `Limits.DebtIsSpentAgain` is a failing cycle for every debt. `Ledger.CashStaysAboveReserve` holds for any
  starting cash and loses at most the debt.
- The option pass starts from the buying power before the equity buys. `Limits.BothPassesSpendTheSameCash` is an input on
  which both together commit more than the buying power; `Limits.TogetherWithOptionsExactly` says for which options,
  buying power and reserve they never do, `Limits.TogetherWithinPowerExactly` for which buying power and reserve whatever
  the options, `Limits.TogetherWithinPower` gives further conditions, `Limits.TogetherWithinBoth` the bound that always
  holds.
- The option budget reads a stated cap instead of the premium. `OptionPass.PremiumIsAffordableExactly` is the exact
  condition, `OptionPass.ACapBelowThePremium` an input.
- The fence would take its account from the portfolio snapshot when the service configures none, and the orders would
  then name no account. The repository's own reader writes back the ids it was given, so with it this cannot happen
  (`ExecutionClaim.WiredOrdersCarryFencedAccount`, `ExecutionClaim.EveryOrderHasItsOwner`).
- The cash sweep compares the limit of a share with the whole power, while the buy pass spends 95 percent of it and keeps
  the reserve. `Planning.ASweepThatBuysNothing` and `Planning.ASweepBelowTheReserve` are inputs on which the swept cash buys
  nothing; `Allocator.BuysExactly` is the exact condition of the buy, `Planning.SweptBudgetCovers` what the sweep reaches.
- The rotation guard's estimate divides by the limit price, which the buy pass does not. A cycle can end in that error
  exactly when it is cash-only, neither the small-account nor the new-risk gate defers its buys, cash is locked in an
  excess below one step, and some underweight, quoted target has a limit that rounds to zero and a shortfall of at least
  the minimum order (`RotationGuard.RaisesExactly`); `RotationGuard.APennyQuoteEndsTheCycle` is an input. Otherwise such a
  target is skipped as a zero quantity and the cycle completes.
- Haven substitution on weights raises a weight when both the investable equity and the weight are negative.
  `TargetProjection.SubstitutionRaisesOnlyNegativeWeights` is the exact condition, `ANegativeWeightIsRaised` an input.
- A paper reconciliation accepts a residual short of up to a hundredth of a share, and then files a purchase as a
  reduction. `PaperReconciliation.SideTellsEffectExactly` is the exact condition, `AResidualShortBuysAndReduces` an input.
- The paper admission has no quantity for a target that was never held and closes the cycle, where the reconciliation
  proposes to buy it. `PaperReconciliation.AdaptersAgree` is the exact condition,
  `PaperReconciliation.ANewTargetIsProposedButNotAdmitted` an input.
- The planner accepts wrapped weekday ranges such as `5-1/4` that the heartbeat reads as empty, and reads `0-7` as Sunday
  alone where the heartbeat reads the whole week. `CronDays.ItemsAgreeExactly` is the exact condition for a part,
  `CronDays.WeekdayFieldsAreCompatible` for a field, `AcceptedButNeverSeen` has the inputs. What the planner
  lets through as weekdays is never due on a weekend.
- The second rounding and the last budget check of the buy pass can never be reached (`Allocator.BuyBounds`).

## Model

| member | source | states |
|---|---|---|
| `Quantity.FloorToStep` | application/execution_service.py:1058-1059 | the rounded quantity is a whole number of steps, not above the argument and less than one step below it |
| `Quantity.FloorIsLargest` | application/execution_service.py:1058-1059 | a multiple of the step fits below the argument exactly when it fits below the rounded quantity: the rounding is the largest one |
| `Orders.ReleaseIsBacked` | application/execution_service.py:1241-1255 | a sell report releases nothing while pending or failed, exactly fill times price when both are reported, and never more than its fill or order can back |
| `Orders.ReleaseAtQuote` | application/execution_service.py:1241-1255 | a filled or partly filled report releases its fill at its average price, else at the quote; a full fill that names no fill counts its own quantity, else the ordered one |
| `Orders.FilingCountsOne` | application/execution_service.py:298-329 | filing a submission adds it once to the five lists taken together |
| `Orders.FilingExtends` | application/execution_service.py:298-329 | the list of the submission's own outcome grows by it, every other list stays as it was |
| `Orders.FiledByStatus` | application/execution_service.py:298-329 | status by status: filled, the two partial ones, the five pending ones, and any other as failed; a preview as submitted |
| `Orders.FailureReads` | application/execution_service.py:325-328 | the reason of a failed submission reads prefix, symbol, status, unknown without one |
| `Orders.StatusIsExact` | application/execution_service.py:2187-2217 | pending reconciliation iff something is pending; blocked iff nothing was accepted and something failed; no-op iff nothing was sent; with dedup on, the marker is recorded iff something was accepted or previewed |
| `Orders.StatusOfOneOrder` | application/execution_service.py:2187-2217 | the status of a cycle with one order, by the broker's answer |
| `Orders.ExecutionSummary.RecordOrder` | application/execution_service.py:298-329 | the order is filed under its outcome, and a failure reason is appended exactly for a failure |
| `Orders.ExecutionSummary.RecordOption` | application/execution_service.py:762-865 | the option order is filed under its outcome, and a failure reason is appended exactly for a failure |
| `Orders.ExecutionSummary.Finish` | application/execution_service.py:2187-2216 | the final status is the one determined by the filed lists and the failures |
| `Allocator.SellQuantity` | application/execution_service.py:1131-1153 | a whole number of steps, zero or within the positive holding |
| `Allocator.PlannedBuyQuantity` | application/execution_service.py:1222-1238 | a whole number of steps that costs no more than the value at a positive limit, else zero |
| `Allocator.BuyBounds` | application/execution_service.py:2096-2131 | a buy costs at most 95 percent of the budget and at most the shortfall, is at least one step, and the budget check after rounding never rejects |
| `Allocator.BuyMonotone` | application/execution_service.py:2096-2131 | a larger budget buys at least as much of a symbol |
| `Allocator.BuysExactly` | application/execution_service.py:2093-2131 | with a budget, a symbol is bought exactly when it is underweight, quoted and limited, and its capped shortfall reaches the minimum order and pays for one step; the purchase leaves less than one step of that value |
| `Allocator.SellsExactly` | application/execution_service.py:1936-1953 | a quoted symbol is sold exactly when it is overweight and its excess over max(0, target) is worth at least one step |
| `Allocator.Liquidates` | application/execution_service.py:1131-1153 | without a positive target less than one step of the holding is left, whatever the quote; with one, nothing is sold without a quote |
| `Allocator.SellLeavesLessThanOneStep` | application/execution_service.py:1131-1153 | a regular sell leaves the holding above max(0, target) by less than one step at the quote |
| `Allocator.SidesAreDisjoint` | application/execution_service.py:1936-1953 | no symbol is both overweight enough to be sold and underweight enough to be bought, whatever the threshold and the budget |
| `Passes.SellPass` | application/execution_service.py:1914-1988 | the sell loop sends and files exactly the run of the sell decisions, and collects exactly the symbols whose cash stays locked |
| `Passes.EstimateOrderCost` | application/execution_service.py:1066-1097 | the guard's loop computes the estimate of the whole target list on the initial budget, or raises exactly when it divides by a limit price of zero |
| `Passes.BuyPass` | application/execution_service.py:2085-2172 | the buy loop sends and files exactly the run of the buy decisions against the shrinking budget |
| `Passes.DeferBuys` | application/execution_service.py:2085-2091 | a deferred pass sends nothing and records every needed symbol with the reason |
| `Passes.OrdersAreConserved` | application/execution_service.py:298-329 | over a whole cycle every submission lands in exactly one list, as often as it was sent, and the list of an outcome holds exactly the orders that had it, in order |
| `Ledger.BudgetDecays` | application/execution_service.py:2085-2172 | after k accepted buys at least 0.05 to the power k of the budget is left, and never more than the budget |
| `Ledger.BuyWithinEstimate` | application/execution_service.py:1066-1097 | the guard's estimate for a symbol covers any buy of it with a smaller budget |
| `Ledger.EstimateIsSpendingWithoutMargin` | application/execution_service.py:1066-1097 | the estimate for a symbol is exactly what the buy pass would spend on it without its 95 percent margin |
| `Ledger.EstimateCoversSpending` | application/execution_service.py:1066-1128 | the estimate on the initial budget is at least what the buy pass commits |
| `Ledger.BuysStayInBudget` | application/execution_service.py:2043-2056 | for a whole cycle: an open pass keeps the decayed budget and spends within the estimate; with locked cash an open guard means the estimate fits the budget; a deferred pass buys nothing |
| `Ledger.SellsReleaseWithinCash` | application/execution_service.py:1955-1988 | the released cash of the sell pass is no more than the cash the sells really brought in |
| `Ledger.BuysCostWithinBudget` | application/execution_service.py:2132-2172 | the cash the buys really take is no more than the budget they used up |
| `Ledger.CashStaysAboveReserve` | application/execution_service.py:1990-2009 | after both passes the cash is at least the reserve, or all the cash there was after the sells if that is less; a cycle that starts in debt falls short of this by at most the debt |
| `Ledger.PowerWithinCash` | application/execution_service.py:1990-2009 | the buying power is above the cash after the sells by at most the starting debt |
| `Ledger.CycleCommitsWithinBudget` | application/execution_service.py:2085-2172 | the accepted buys of a cycle commit no more than the investable buying power, and nothing when no target is underweight |
| `Limits.DebtIsSpentAgain` | application/execution_service.py:429-455 | for every negative starting cash there is a cycle with true cash reads that sells the debt off and then spends half of it again |
| `Limits.ADebtOfAHundred` | application/execution_service.py:1990-2009 | an input: from cash -100 the cash is 0 after the sells and -50 after the buys, with no reserve |
| `Limits.ReserveIsKeptExactly` | application/execution_service.py:1990-2009 | the reserve, or all the cash after the sells, is kept in every cycle with true cash reads exactly when the starting cash is not negative |
| `Limits.TogetherWithinBoth` | application/execution_service.py:2174-2185 | equity commitments plus option charges of a cycle are at most the investable plus the whole buying power |
| `Limits.TogetherWithinPower` | application/execution_service.py:2174-2185 | they are within the buying power when no target is underweight, no executable intent charges, or the reserve is not below the buying power |
| `Limits.BothPassesSpendTheSameCash` | application/execution_service.py:2174-2185 | an input, a proper cycle: from a buying power of 200 and no reserve both together commit 290 |
| `Limits.TogetherWithinPowerExactly` | application/execution_service.py:2174-2185 | for a given buying power and reserve they are within the buying power in every cycle exactly when the reserve is not below it |
| `Limits.TogetherWithOptionsExactly` | application/execution_service.py:2174-2185 | for given options, buying power and reserve they are within the buying power in every cycle exactly when the options charge no more than the reserve and the buying power |
| `Limits.CashAfterAll` | application/execution_service.py:2085-2185 | when no option asked for costs more than its charge: after both passes and the options at most the investable and the whole buying power is gone from the cash after the sells, and nothing is overdrawn beyond the starting debt when both together are within the buying power |
| `Fidelity.SellOrdersExact` | application/execution_service.py:1914-1953 | the sell orders are exactly the decided sells of the traded symbols, one per symbol, for any visiting order |
| `Fidelity.BuyRunOrders` | application/execution_service.py:2085-2172 | the open buy pass appends at most one order per target, each a decision for some non-negative budget |
| `Fidelity.CycleIsSafe` | application/execution_service.py:1914-2172 | no sell exceeds the holding, a regular sell ends less than one step above its target, and no symbol is traded twice except the swept safe haven |
| `Fidelity.SellRunReleases` | application/execution_service.py:1955-1988 | with full fills at the quote the released cash is the quoted value of the sells |
| `Fidelity.BuyRunFollowsPlan` | application/execution_service.py:2132-2172 | when nothing fails, dry and live buys follow one plan that depends on the budget alone |
| `Fidelity.DryRunIsFaithful` | application/execution_service.py:1955-2172 | in cash-only mode, with sells filled at the quote, no failures and no unexplained cash, the live cycle places exactly the sells and buys the dry run previews, for any two visiting orders |
| `Fidelity.SameSellOrders` | application/execution_service.py:1914-1953 | the visiting order and the mode do not change which sells are sent |
| `Planning.PlanBuyAgrees` | application/execution_service.py:1771-1802 | the plan and the buy pass buy the same quantity with the same budget, or both do not buy |
| `Planning.ShouldSweep` | application/execution_service.py:28-51 | the sweep is used exactly when the first need within reach is out of reach without it |
| `Planning.SweepIsHeld` | application/execution_service.py:1756-1768 | the planned sweep is the whole units of the holding of a quoted safe haven, and only when no regular sell is planned |
| `Planning.SweepsExactly` | application/execution_service.py:1698-1768 | the plan sweeps, all whole units, exactly when no regular sell is planned, new risk is not prohibited, a unit of a quoted haven is held, and the first target in reach with it is out of reach without it |
| `Planning.SweepIsSold` | application/execution_service.py:1914-1938 | over a cycle the swept haven is sold, in exactly the planned quantity |
| `Planning.SweptBudgetCovers` | application/execution_service.py:1914-2009 | filled at the quote, with the reserve covered before, the budget of the buy pass covers the limit of the first target in reach, which the plan's power did not |
| `Planning.ASweepThatBuysNothing` | application/execution_service.py:1698-1719 | an input: ten units are swept for a share at 1000, and with the proceeds of 1000 nothing is bought |
| `Planning.ASweepBelowTheReserve` | application/execution_service.py:1698-1719 | an input: with no cash and a reserve of 100 the proceeds of 1000 leave 900 to invest |
| `Planning.PlanSells` | application/execution_service.py:1721-1755 | the early-exit loop finds a sell iff one exists, and otherwise collects exactly the skipped symbols |
| `Planning.PlanBuys` | application/execution_service.py:1770-1802 | the early-exit loop finds a buy iff one exists, and otherwise collects exactly the skipped symbols by reason |
| `Planning.PlanSweep` | application/execution_service.py:1698-1768 | the swept quantity is the one determined by the book, zero beside a regular sell |
| `Planning.PlanRebalance` | application/execution_service.py:1682-1834 | plan flags, swept quantity and no-op reason are functions of the book, whatever the visiting order |
| `Planning.ReasonIsExact` | application/execution_service.py:1804-1834 | without a plan the reason is a missing quote first, then an empty purse, then the minimum order, and balance exactly when nothing is beyond the threshold; the first two block the cycle |
| `Planning.SellPlanIsExact` | application/execution_service.py:1914-1953 | a sell is sent exactly when the plan found a sell or a sweep |
| `Planning.NothingBoughtSoFar` | application/execution_service.py:2085-2172 | the buy pass sends something exactly when some target is buyable with the initial budget |
| `Planning.PlanIsExact` | application/execution_service.py:1682-2172 | no flag: the passes send nothing; a sell flag: a sell is sent; only a buy flag and no gate: a buy is sent; each in both directions |
| `Convergence.FillShortens` | application/execution_service.py:1914-2172 | a full fill of an order toward its target cuts the number of whole steps still to trade by at least one and moves nothing else |
| `Convergence.CycleMovesToward` | application/execution_service.py:1914-2172 | without a sweep, every order of a cycle moves its own symbol toward its target without crossing it |
| `Convergence.CyclesShorten` | application/execution_service.py:1914-2172 | each trading cycle cuts the distance by at least one |
| `Convergence.SomeCycleIsQuiet` | application/execution_service.py:1264-2217 | in any sequence of cycles longer than the initial distance some cycle sends no order |
| `Convergence.QuietMeansSettled` | application/execution_service.py:1914-2172 | a cycle that sends nothing, its buys not deferred, leaves every quoted symbol within the threshold, short of a step, without a limit, or short of budget or minimum order |
| `OptionPass.OptionBudget` | application/execution_service.py:762-865 | over any intents the budget stays non-negative, keeps 0.05 to the power n after n accepted orders, and the accepted charges sum to exactly what is gone |
| `OptionPass.SendsExactly` | application/execution_service.py:775-835 | an executable intent is sent exactly when its quantity is positive and its charge is within 95 percent of the buying power; a closing sale charges nothing |
| `OptionPass.TurnExactly` | application/execution_service.py:762-865 | kind by kind, which option intents are sent and what an accepted one takes out of the buying power: its cap or premium, its defined loss, or nothing |
| `OptionPass.PremiumByMultiplier` | application/execution_service.py:786-789 | the premium is quantity times limit times multiplier, a hundred when none is stated |
| `OptionPass.OptionsAreConserved` | application/execution_service.py:762-865 | every intent is sent at most as often as asked, only when executable with a positive quantity, filed exactly once per send, and the list of an outcome holds exactly the intents that had it, in order |
| `OptionPass.PreviewIsFaithful` | application/execution_service.py:762-865 | when no report fails, a live option pass sends and accepts the intents the preview does and leaves the same buying power |
| `OptionPass.OutlaysStayInBudget` | application/execution_service.py:762-865 | when every stated cap covers its premium, the premiums and losses of the accepted intents are within what the pass took out of the buying power |
| `OptionPass.PremiumIsAffordableExactly` | application/execution_service.py:780-800 | a buy's premium is within 95 percent of every buying power it is sent from exactly when it states no cap or a cap that covers the premium; with a negative cap it is sent from any |
| `OptionPass.ACapBelowThePremium` | application/execution_service.py:780-800 | an input: a stated cap of 10 lets a premium of 500 through from a buying power of 20 |
| `OptionPass.ExecuteOptions` | application/execution_service.py:762-865 | the loop leaves the budget and the lists of the option run |
| `Rebalance.DecideDeferral` | application/execution_service.py:2018-2083 | the chain of gates gives the reason determined by the book, the locked symbols, the budget and the raw cash, or the estimate's error |
| `BuyGates.GatesDecide` | application/execution_service.py:2011-2083 | under the small-account, new-risk, rotation or debt gate a cycle sends its sells and no buy, for the reason of the first of them; with none up the buy pass runs on the investable power |
| `BuyGates.DeferralIsRecorded` | application/execution_service.py:2085-2091 | a deferred pass leaves one skipped buy with the reason per needed target, and nothing else |
| `BuyGates.DebtBuysNothing` | application/execution_service.py:2069-2083 | a cash-only cycle whose raw cash is negative after its sells buys and commits nothing |
| `BuyGates.LockedExactly` | application/execution_service.py:1936-1953 | the cash of a quoted symbol is locked exactly when it is overweight with an excess worth less than one step |
| `BuyGates.PowerExactly` | application/execution_service.py:1990-2009 | the buying power case by case: dry run, live without sells, live after sells in cash-only mode and outside it |
| `Rebalance.TradeEquities` | application/execution_service.py:1914-2172 | sells, buying power, gates and buys together are the cycle the theorems speak about |
| `Rebalance.Prepare` | application/execution_service.py:1328-1892 | the loops decide how a cycle ends before its passes as its specification says, in any visiting order |
| `Rebalance.StopsExactly` | application/execution_service.py:1328-1892 | the passes are reached exactly with no guard up and a sell, sweep, buy or, in balance, an executable option to do; every other cycle ends with the error or status of its first guard, or with the status of having nothing to do |
| `Rebalance.ExecuteRebalance` | application/execution_service.py:1264-2217 | with any guard up, or nothing to do, the cycle does not complete and files nothing, and ends with the error or status of the first guard in the source's order; otherwise it files exactly its two passes and its option pass, or its sells alone when the estimate raises, and records the marker iff something was accepted |
| `RotationGuard.RaisesExactly` | application/execution_service.py:1080-1128 | for some cash reads the cycle ends in the estimate's division error exactly under the stated condition on book and gates |
| `RotationGuard.APennyQuoteEndsTheCycle` | application/execution_service.py:1080-1128 | an input: a planned cycle no guard stops ends in the error in any visiting order, dry or live, whatever is read later |
| `TargetProjection.ProjectUnbuyable` | application/execution_service.py:69-99 | exactly the positive candidate targets below one step at a known price become zero, and are reported once each |
| `TargetProjection.PositiveTargetTotal` | application/execution_service.py:1185-1192 | the total is the sum of the positive targets, in any iteration order |
| `TargetProjection.ApplySmallAccount` | application/execution_service.py:101-171 | the havens are cashed exactly when something was dropped, no candidate is left and the rest is within the limit |
| `TargetProjection.CashesExactly` | application/execution_service.py:128-141 | a haven goes to cash exactly when some candidate was below one step, no candidate target is left, and the positive targets left are within the limit; so no more than the limit is cashed |
| `TargetProjection.SmallAccountIsSafe` | application/execution_service.py:101-171 | every target stays or becomes zero, none is raised or added, and every positive candidate with a price buys a step |
| `TargetProjection.SmallAccountIsIdempotent` | application/execution_service.py:101-171 | projecting projected targets changes nothing |
| `TargetProjection.SubstituteWeights` | application/execution_service.py:1195-1219 | exactly the haven weights worth something below the threshold become zero |
| `TargetProjection.SubstitutionIsIdempotent` | application/execution_service.py:1195-1219 | substituting twice is substituting once |
| `TargetProjection.SubstitutionClearsTheBand` | application/execution_service.py:1195-1219 | a surviving haven weight is worth nothing or at least the threshold |
| `TargetProjection.SubstitutionRaisesOnlyNegativeWeights` | application/execution_service.py:1195-1219 | a weight is raised exactly when it is a negative haven weight under negative investable equity with a product below the threshold |
| `TargetProjection.ANegativeWeightIsRaised` | application/execution_service.py:1195-1219 | an input on which a weight is raised |
| `TargetProjection.TargetsFollowWeights` | application/execution_service.py:1485-1545 | after both projections the target values are still the values of the target weights |
| `TargetProjection.PipelineIsIdempotent` | application/execution_service.py:1423-1545 | both projections together, applied to their own result, change neither weights nor values |
| `ExecutionClaim.OrdersCarryFencedAccount` | application/rebalance_service.py:714-743 | with any portfolio reader, the fenced account is the account the orders carry iff the service configures one |
| `ExecutionClaim.WiredOrdersCarryFencedAccount` | application/ibkr_portfolio.py:200-201 | with the repository's reader, which writes back the ids it was given, the fenced account is always the account the orders carry |
| `ExecutionClaim.ASnapshotFenceNamesNoAccount` | application/rebalance_service.py:714-743 | a configuration, possible only with another reader, whose fence has an account and whose orders have none |
| `ExecutionClaim.StepKeepsInv` | application/rebalance_service.py:1129-1181 | every atomic step of any cycle keeps claims, locks, owners and sent orders consistent |
| `ExecutionClaim.RunKeepsInv` | application/rebalance_service.py:1041-1181 | every state reachable by any interleaving, with crashes and failing stores, satisfies the invariant |
| `ExecutionClaim.AtMostOneCyclePerKey` | application/rebalance_service.py:1129-1181 | two orders sent under one marker key, or behind one lock file, come from the same cycle |
| `ExecutionClaim.OrdersComeFromOwner` | application/rebalance_service.py:1143-1173 | an order routed to an account comes from a cycle whose profile is the stored owner of that account |
| `ExecutionClaim.EveryOrderHasItsOwner` | application/rebalance_service.py:1143-1173 | with the repository's reader every order sent names an account and comes from a cycle whose profile is the stored owner of it |
| `ExecutionClaim.OnlyClaimantsSend` | application/execution_service.py:1302-1310 | an order is only ever sent by a live cycle with dedup, a key and a store, whose marker exists |
| `ExecutionClaim.NoRefusalAfterFirstOrder` | application/rebalance_service.py:1132-1142 | a cycle that has sent an order is cleared again for its next one |
| `ExecutionClaim.AClearCycleSends` | application/rebalance_service.py:1129-1181 | from any state a cycle with a free key, a free lock and its own or a free account sends any number of orders, under its account |
| `ExecutionClaim.ALostReplyRefuses` | application/rebalance_service.py:1143-1181 | a store call that raises refuses the cycle; one that raises after it took effect leaves the owner, or the marker, behind |
| `ExecutionClaim.RefusedNeverSends` | application/rebalance_service.py:1129-1181 | over any run, a cycle whose claim was refused once never sends |
| `ExecutionClaim.NothingAfterTheEnd` | application/rebalance_service.py:1041-1181 | after a crash in any phase, or a finish, the cycle sends nothing more, over any continuation of a run |
| `ExecutionClaim.ClaimIsLatched` | application/rebalance_service.py:1129-1142 | once settled, a claim keeps its outcome under every step, and later intents touch no store |
| `ExecutionClaim.ClaimStaysLatched` | application/rebalance_service.py:1129-1142 | the latch over any continuation of a run |
| `ExecutionClaim.RecordedCycleDoesNothing` | application/rebalance_service.py:1041-1072 | a cycle whose read says it is recorded never sends, and no later event of it touches a store or a lock |
| `ExecutionClaim.FinishLeavesItsMarker` | application/rebalance_service.py:819-850 | a recorded finish leaves the cycle's marker for the rest of the run |
| `ExecutionClaim.DryRunTouchesNothing` | application/execution_service.py:1302-1310 | a dry run sends nothing, fences nothing and claims nothing; only its own finish may write its own key |
| `ExecutionClaim.DryRunsLeaveLiveMarkersFree` | application/rebalance_service.py:746-776 | with keys separated by mode, no dry run takes a live cycle's marker |
| `ExecutionClaim.Claimant.Acquire` | application/rebalance_service.py:1132-1181 | the closure answers, latches and writes the stores as its specification says, and a second call changes nothing |
| `ExecutionClaim.GrantedExactly` | application/rebalance_service.py:1132-1181 | a first call is granted exactly when the cycle may claim, the account is physical and free or its own, and the key is free; later calls repeat the outcome |
| `ExecutionClaim.PhysicalExactly` | application/rebalance_service.py:701-711 | an id is physical exactly when it is not empty, is none of the five labels ignoring case, and no stretch of it is group |
| `ExecutionClaim.NormalizedExactly` | application/rebalance_service.py:681-698 | the account ids of a cycle are the ids that are not empty, each once |
| `ExecutionClaim.FencedExactly` | application/rebalance_service.py:714-743 | the fence has an account exactly when there is one candidate id, physical and, ignoring case, not the scope |
| `ExecutionClaim.LabelsNeverSend` | application/rebalance_service.py:701-743 | over every interleaving no order comes from a cycle with several ids, or whose id is a label, mentions a group or is its scope |
| `ExecutionClaim.ClosureTakesTheSteps` | application/rebalance_service.py:1132-1181 | the closure is the submit, fence and claim steps of the transition system |
| `NewRiskGate.ProjectIsIdempotent` | application/account_new_risk_gate_support.py:62-107 | projecting a projected portfolio changes nothing |
| `NewRiskGate.ProjectKeepsExplicitAxes` | application/account_new_risk_gate_support.py:80-107 | an explicit observation, reconciliation or breaker axis is never replaced, and every axis is set |
| `NewRiskGate.EvidenceIsExact` | application/account_new_risk_gate_support.py:62-107 | equity feeds the observation, a said pending order the reconciliation, a said open state the breaker, the injected record before the portfolio; axes not injected are the library's for this evidence |
| `NewRiskGate.SnapshotIsExact` | application/account_new_risk_gate_support.py:136-160 | the snapshot has the projected axes and each figure from the injected record first, from the portfolio otherwise |
| `NewRiskGate.CycleGate.Open` | application/execution_service.py:1409-1421 | the plan-time verdict is about the snapshot that is bound; an invalid snapshot raises and binds nothing |
| `NewRiskGate.CycleGate.Evaluate` | application/account_new_risk_gate_support.py:223-235 | without a bound snapshot the verdict prohibits; with the snapshot of a portfolio the plan could judge it is the plan's own verdict on that portfolio |
| `NewRiskGate.VerdictsAgree` | application/account_new_risk_gate_support.py:109-186 | within a cycle the plan-time and the submit-time verdict are the same |
| `NewRiskGate.ScalingNeverRaises` | application/account_new_risk_gate_support.py:191-195 | scaling keeps a quantity non-negative, positive if it was, and never raises it |
| `NewRiskGate.ScalesExactly` | application/account_new_risk_gate_support.py:191-195 | a buy let through has exactly its quantity times a scale in (0, 1], its own quantity under any other scale, and a sell always its own |
| `NewRiskGate.AdapterIsSafe` | application/ibkr_order_execution.py:114-133 | exactly the buy-side orders are stopped when prohibited, and count as failed; everything else is forwarded with only a smaller or equal quantity, sells untouched |
| `NewRiskGate.BoundaryStaysInBudget` | application/ibkr_order_execution.py:114-133 | at the broker boundary the scaled buys cost no more than the budget they used up |
| `NewRiskGate.BoundaryCostIsTheShare` | application/ibkr_order_execution.py:114-133 | over a trace the boundary cost is exactly the scale times what the accepted buys commit, nothing under a prohibition |
| `NewRiskGate.ProhibitedPlanSendsNoBuy` | application/execution_service.py:2030-2042 | a prohibiting plan-time verdict leaves the cycle with its sell orders only |
| `NewRiskGate.OptionsBehindAdapter` | application/ibkr_order_execution.py:114-133 | over any option intents, what reaches the broker was asked for and is at most as large, and under a prohibiting verdict nothing forwarded or accepted is a single-leg buy |
| `NewRiskGate.BoundaryChargeShrinks` | application/ibkr_order_execution.py:129-132 | after scaling an intent is charged at most what the pass charged; with a stated cap exactly the same, because the cap is not scaled although the premium is |
| `NewRiskGate.OptionsStayInBudget` | application/ibkr_order_execution.py:114-133 | at the broker boundary the scaled charges of the accepted intents are within what the option pass took out of the buying power |
| `NewRiskGate.PremiumsAreShared` | application/ibkr_order_execution.py:114-133 | for buys without a cap the boundary charges are exactly the scale times the premiums |
| `NewRiskGate.EquitiesAreSafe` | application/ibkr_order_execution.py:97-133 | for the equity passes behind the adapter: prohibited means no buy is submitted, otherwise the boundary cost is within the investable buying power |
| `NewRiskGate.NewRiskIsSafe` | application/ibkr_order_execution.py:97-133 | for a whole cycle with options, from the portfolio the plan judged: both verdicts are the same; prohibited means no equity buy is submitted and no single-leg option buy reaches the broker; otherwise both boundary costs are within their budgets |
| `CashReaders.FoldExecution` | application/execution_service.py:379-395 | the table holds exactly the last number of every account, currency and tag in scope |
| `CashReaders.FoldSnapshot` | application/ibkr_portfolio.py:133-150 | the same table contents, with an entry for every pair in scope even without a number |
| `CashReaders.MarketCash` | application/ibkr_portfolio.py:52-69 | the total is the preferred balance of every account in the currency, None when none has one, in any dictionary order |
| `CashReaders.ExecutionCash` | application/execution_service.py:379-406 | the execution-time cash is the specified cash |
| `CashReaders.SnapshotCash` | application/ibkr_portfolio.py:133-165 | the snapshot cash is the same specified cash, for every list and selection |
| `CashReaders.OnlyLastNumbersMatter` | application/ibkr_portfolio.py:52-69 | the cash depends only on the last number per account, currency and tag |
| `CashReaders.PreferredBalance` | application/ibkr_portfolio.py:11-17 | the ledger's cash balance wins, then its total, the account's balance, its total, and the settled cash |
| `CashReaders.LastNumberExactly` | application/ibkr_portfolio.py:133-150 | the number of a slot is that of the last reading with a number, a currency and a selected account, any account when none is selected |
| `CashReaders.ReconciliationAgrees` | application/broker_reconciliation.py:132-150 | when the reconciliation does not raise, its sorted balances in the currency sum to the cash, which is present iff there is such a balance |
| `CashReaders.RaisesExactly` | application/broker_reconciliation.py:132-150 | it raises iff no account is selected and something was read, or a pair in scope has no balance tag with a number |
| `CashReaders.CashIgnoresOrder` | application/ibkr_portfolio.py:209-219 | account values with the same last numbers, in any order, give the same cash records and the same normalised balances, or raise both times |
| `CashReaders.CashIgnoresBrokerOrder` | application/ibkr_portfolio.py:133-219 | with at most one reading per account, currency and tag, account values in any order give the same cash and the same normalised balances |
| `CashReaders.CollectIgnoresOrder` | application/broker_reconciliation.py:303-363 | positions, open orders and executions returned in any order give the same observations, or raise both times |
| `CashReaders.ObservesTheSelected` | application/broker_reconciliation.py:152-212 | the observed open orders or executions are exactly the records of the selected accounts, one per reply; a reply without an account, or a selected one without its record, raises |
| `CashReaders.ObservesEveryPosition` | application/broker_reconciliation.py:303-363 | positions raise exactly when one names no selected account or lacks a field, and otherwise every one is observed |
| `Sorting.SortIgnoresOrder` | application/broker_reconciliation.py:215-216 | with separating keys a sorted list does not depend on the order of arrival |
| `PaperReconciliation.MarkPositions` | application/paper_execution_command_consumer.py:100-133 | quantities and values accumulate per symbol over readable positions, and there is a finding iff some position is not in order |
| `PaperReconciliation.NoRealShort` | application/paper_execution_command_consumer.py:114-131 | a position without a finding is worth at least -1.01 at its mark |
| `PaperReconciliation.MarkTolerance` | application/paper_execution_command_consumer.py:117-123 | a position without a finding is recorded within 1, or half a percent, of its marked value |
| `PaperReconciliation.CheckEquity` | application/paper_execution_command_consumer.py:135-143 | there is a finding iff cash or equity is missing or they differ by more than the tolerance |
| `PaperReconciliation.EquityTolerance` | application/paper_execution_command_consumer.py:135-143 | without a finding cash and holdings match the equity within 1, or half a percent of it |
| `PaperReconciliation.Propose` | application/paper_execution_command_consumer.py:145-177 | the proposals are those of the symbols that must move and have a price, and there is a finding iff one lacks a price |
| `PaperReconciliation.Reconcile` | application/paper_execution_command_consumer.py:73-180 | an invalid artifact yields that finding alone; otherwise the findings are empty iff everything read is in order |
| `PaperReconciliation.ArtifactCovers` | application/paper_execution_command_consumer.py:73-98 | a valid artifact has exactly one finite, non-negative target for each managed symbol and none for any other |
| `PaperReconciliation.CleanReconciliationIsExact` | application/paper_execution_command_consumer.py:145-177 | without findings every symbol is within 0.01 of its target and has no proposal, or has exactly one that carries it exactly there |
| `PaperReconciliation.ExecutionConserves` | application/paper_execution_command_consumer.py:165-175 | executing any proposals at their prices keeps cash plus holdings |
| `PaperReconciliation.ExecutingReachesTargets` | application/paper_execution_command_consumer.py:145-177 | executing all proposals puts every traded symbol on its target, every other within 0.01, and keeps cash plus holdings |
| `PaperReconciliation.SideTellsEffectExactly` | application/paper_execution_command_consumer.py:158-168 | buy means increase and sell means reduce exactly when the current value is not negative or the target outweighs it |
| `PaperReconciliation.AResidualShortBuysAndReduces` | application/paper_execution_command_consumer.py:118-168 | an input without findings whose purchase is filed as a reduction |
| `PaperReconciliation.SellsWithinHolding` | application/paper_execution_command_consumer.py:145-177 | with one quote per symbol no proposal sells more than is held |
| `PaperReconciliation.ExposureFacts` | application/paper_execution_admission.py:115-181 | one fact per readable symbol, and a finding iff some symbol is not readable |
| `PaperReconciliation.FactsExactly` | application/paper_execution_admission.py:126-181 | a symbol has a fact exactly when position and price are usable and its target, if any, is; the value, the target and the effect of the fact |
| `PaperReconciliation.AdaptersAgree` | application/paper_execution_admission.py:137-169 | on the same inputs both adapters classify a managed symbol alike iff the admission has a position of it; for one never held it has no fact while a target above the tolerance is proposed as a purchase |
| `PaperReconciliation.ANewTargetIsProposedButNotAdmitted` | application/paper_execution_admission.py:137-152 | an input: a clean reconciliation proposes to buy five of a new target the admission has no fact about |
| `SourceReceipts.NormalizeExpectations` | application/broker_reconciliation_candidate.py:109-188 | the designation is accepted iff it is non-empty, canonical, with unique artifact and run ids and shared fields, and is then indexed by artifact |
| `SourceReceipts.OneBadRunRefusesAll` | application/broker_reconciliation_candidate.py:117-120 | one run off the main branch, not successful, or with another artifact name refuses the whole batch |
| `SourceReceipts.OneBadRecordRefusesAll` | application/broker_reconciliation_candidate.py:191-232 | one record with other fields, another schema or a malformed digest refuses the whole batch |
| `SourceReceipts.OneStrayRecordRefusesAll` | application/broker_reconciliation_candidate.py:90-106 | one record with a stray repository or workflow path, or an empty or ragged id, refuses the whole batch |
| `SourceReceipts.DesignationIsOfOneDeployment` | application/broker_reconciliation_candidate.py:109-188 | all designated runs share profile, repository, workflow, head, service and revision, and differ in artifact and run |
| `SourceReceipts.AcceptedExactly` | application/broker_reconciliation_candidate.py:239-291 | records are accepted iff they are well formed and are the designated sources, each exactly once, in some order |
| `SourceReceipts.CanonicalIsDesignated` | application/broker_reconciliation_candidate.py:276-291 | the canonical text is a function of the expectations alone |
| `SourceReceipts.CanonicalIsOrdered` | application/broker_reconciliation_candidate.py:276-291 | the canonical list is in order of its artifact ids, which all differ |
| `SourceReceipts.CanonicalIgnoresOrder` | application/broker_reconciliation_candidate.py:239-291 | permuting the records and the expectations changes neither acceptance nor text |
| `SourceReceipts.MembersMatchExactly` | application/broker_reconciliation_candidate.py:334-341 | the evidence members match iff the two digest lists are equal as multisets |
| `SourceReceipts.BuildCandidate` | application/broker_reconciliation_candidate.py:294-331 | the builder yields the v2 candidate of its specification or raises |
| `SourceReceipts.BuildsExactly` | application/broker_reconciliation_candidate.py:294-341 | a candidate is upgraded exactly when it is a v1 one with accepted records and their evidence digests, with multiplicity, and a constructible result; the root and the seal of the result |
| `SourceReceipts.ValidatesExactly` | application/broker_reconciliation_candidate.py:334-365 | a candidate validates exactly when it is a sealed v2 one with accepted records, their evidence digests and the root of the designated sources |
| `SourceReceipts.BuiltValidates` | application/broker_reconciliation_candidate.py:294-365 | a built v2 candidate validates against any permutation of its records and expectations, changes only schema, root and seal, and is not upgraded twice |
| `SourceReceipts.ValidationBinds` | application/broker_reconciliation_candidate.py:344-365 | under a collision-free digest a candidate validates against no other sources or designation than those of its root |
| `CronDays.Walk` | scripts/build_cloud_run_env_sync_plan.py:186-190 | the wrap-around walk ends within seven values and is the cyclic interval from start to end |
| `CronDays.DaysOfWeek` | scripts/build_cloud_run_env_sync_plan.py:176-197 | the loop computes the union of the strided days of the parts, or raises with the first part that is not understood |
| `CronDays.FieldSet` | scripts/execution_report_heartbeat.py:630-661 | the loop computes the union of the parts' progressions, cut to the range, with 7 read as Sunday |
| `CronDays.EveryCountsFromMinimum` | scripts/execution_report_heartbeat.py:650-660 | a stepped asterisk counts from the field's minimum |
| `CronDays.NoStepIsOne` | scripts/execution_report_heartbeat.py:643-655 | a step of zero or less counts as one |
| `CronDays.ItemSet` | scripts/execution_report_heartbeat.py:642-660 | the inner loop computes the progression of one part |
| `CronDays.ItemsAgreeExactly` | scripts/execution_report_heartbeat.py:642-660 | both readers agree on a part iff its range does not wrap and is not Sunday to Sunday in short steps; the heartbeat reads nothing iff it wraps |
| `CronDays.AcceptedButNeverSeen` | scripts/build_cloud_run_env_sync_plan.py:184-197 | inputs on which the two readers part |
| `CronDays.WeekdayFieldsAreCompatible` | scripts/build_cloud_run_env_sync_plan.py:637-651 | from a field let through as weekdays the heartbeat reads only planned days, all of them iff the parts that do not wrap cover those that do, none iff all parts wrap |
| `CronDays.AcceptedMatchesOnlyWeekdays` | scripts/execution_report_heartbeat.py:664-694 | an accepted schedule matches from Monday to Friday only |
| `CronDays.DayRule` | scripts/execution_report_heartbeat.py:688-694 | restricted days of the month and weekdays are alternatives when both are given; one alone decides; with neither every day matches |
| `CronDays.TimeRule` | scripts/execution_report_heartbeat.py:681-686 | minute, hour and month must all match |
| `CronDays.CompletedIsEveryWeekday` | scripts/build_cloud_run_env_sync_plan.py:632-636 | a two-field time is completed to an accepted schedule that is due on every weekday and only then |
| `CronDays.DueBetween` | scripts/execution_report_heartbeat.py:697-720 | the cursor loop says due iff some whole minute of the window matches |

## Left out

- Text handling: trimming, upper-casing and number parsing happen before the model; symbols, accounts, currencies, tags and cron parts arrive as values, a failed number as an absent one.
- Floating point: money is exact; rounding to 8 decimals in proposals and to cents in limit prices is not modelled, and the limit price is a function of the symbol that is positive, or not below the quote, only where a theorem says so.
- The shared library is represented by what is assumed of it: rounding down to the quantity step gives the largest multiple, marker claims create only if absent, the first writer owns an account, records never remove a marker, admission is a function of the snapshot, digests and JSON texts are functions of their argument.
- The code of the small-account projection and of the cash-sweep rule is the fallback in the repository; the shared library's own versions are not part of this model.
- ExecutionClaim.DryRunsLeaveLiveMarkersFree: takes the separation of marker keys by execution mode as a hypothesis, because the key builder belongs to the shared library.
- Exceptions: the errors of routing to several accounts, of an invalid new-risk snapshot and of the guard's estimate end a cycle as modelled; other errors raised on the way to the passes are left out; a refused claim is modelled as caught between two submissions; a broker call that raises ends the source's cycle and is here the crash step of the claim model, not a step of the passes.
- Ledger.CashStaysAboveReserve: speaks of the equity passes; the option pass has its own bound from the same starting buying power, because the code does not subtract the equity buys first; `Limits.CashAfterAll` is about both.
- Convergence.SomeCycleIsQuiet: fixed quotes and targets, full fills, no cash sweep; a sweep may sell a symbol the same cycle buys back.
- Lock paths are compared as whole paths; how a path is built from its parts, which is not injective, is not modelled.
- Quote loading with snapshot fallbacks and the computation of equity and reserve come in as fields of the book; the verdict of the paper admission gate inside a rebalance comes in as a guard.
- Order-list payloads keep symbol, side, quantity and limit; broker order ids, log lines, translations, drift notes, substitution notes and summary figures are left out.
- The texts of no-op and guard reasons keep their prefix and the set of symbols, not the joined list of names.
- Cash records with a tag named like one of the record's own fields, and option positions mixed into the stock list before sorting, are not distinguished; sorting makes the latter irrelevant.
- White space in canonical texts is ASCII white space.
- Flask routes, Gateway connections, Cloud Run, Scheduler, storage and GitHub calls, notifications, dashboards, strategy evaluation and environment parsing: input and output around the modelled logic.
