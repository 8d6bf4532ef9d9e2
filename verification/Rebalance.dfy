/** One whole rebalance: guards, plan, sells, gates, buys, options, status. */
module Rebalance {
  import opened Quantity
  import opened Sums
  import opened Orders
  import opened Allocator
  import opened Passes
  import opened Planning
  import OptionPass

  /** What stops a cycle before its passes: several account ids to route to, no equity to work with (grossAtCost
      is the cost of the positions), a new-risk snapshot that does not validate, a refused paper admission, open
      orders, fills of the same day, a held lock. */
  datatype Guards = Guards(
    severalAccounts: bool, equity: real, grossAtCost: real, snapshotInvalid: bool,
    paperRefused: bool, pendingOrders: bool, sameDayFills: bool, lockHeld: bool)

  /** A cycle that does not reach its passes ends with a status, or with an error of its own. */
  datatype Exit = EndsWith(status: Status) | Errs

  /** A cash-only account without equity may still reduce the positions it holds. */
  predicate NoEquity(guards: Guards, cashOnly: bool) {
    guards.equity <= 0.0 && !(cashOnly && guards.grossAtCost > 0.0)
  }

  predicate HasOptionPlan(intents: seq<OptionIntent>) {
    exists i :: i in intents && OptionPass.Executable(i)
  }

  /** The plan calls for the passes, if only for the options. */
  ghost predicate GoesAhead(b: Book, gates: Gates, r: Readings, intents: seq<OptionIntent>) {
    var investable := Investable(Anticipated(r), b.reserved);
    || SellPlanned(b)
    || SweepQuantity(b, gates.newRiskProhibited, investable) > 0
    || BuyPlanned(b, investable)
    || (NoOpVerdict(b, investable) == BelowThreshold && HasOptionPlan(intents))
  }

  function ReasonText(reason: NoOpReason): string {
    match reason
    case BelowThreshold => "target_diff_below_threshold"
    case MissingPrices(_) => "missing_price"
    case NoBuyingPower(_) => "insufficient_buying_power"
    case BelowMinNotional(_) => "min_notional"
    case ZeroQuantity(_) => "quantity_zero"
  }

  /** How a cycle ends before its passes; None when it reaches them. It depends on the book, the cash read and
      the guards, not on the iteration order of the traded symbols. */
  ghost function Stopped(b: Book, gates: Gates, r: Readings, intents: seq<OptionIntent>, guards: Guards): Option<Exit> {
    var reason := NoOpVerdict(b, Investable(Anticipated(r), b.reserved));
    if guards.severalAccounts then Some(Errs)
    else if NoEquity(guards, gates.cashOnly) then Some(EndsWith(BlockedBy("no_equity")))
    else if guards.snapshotInvalid then Some(Errs)
    else if guards.paperRefused then Some(EndsWith(BlockedBy("paper_execution_admission_blocked")))
    else if guards.pendingOrders then Some(EndsWith(BlockedBy("pending_orders_detected")))
    else if !GoesAhead(b, gates, r, intents) then Some(EndsWith(if reason.Blocks() then BlockedBy(ReasonText(reason)) else NoOp))
    else if guards.sameDayFills then Some(EndsWith(BlockedBy("same_day_fills_detected")))
    else if guards.lockHeld then Some(EndsWith(BlockedBy("same_day_execution_locked")))
    else None
  }

  /** How a cycle ends: halted before its passes, raised, or completed, with the decision on the execution
      marker. */
  datatype Ending = Halted | Raised | Completed(record: bool)

  /** Something to do: a regular sell, a sweep, a buy, or nothing below the threshold with options to run. */
  ghost predicate HasWork(b: Book, gates: Gates, r: Readings, intents: seq<OptionIntent>) {
    var investable := Investable(Anticipated(r), b.reserved);
    || (exists s :: s in b.symbols && DecideSell(b, 0, s).Sells?)
    || SweepQuantity(b, gates.newRiskProhibited, investable) > 0
    || (exists s :: s in b.targets && DecideBuy(b, s, investable).Buys?)
    || (&& (exists i :: i in intents && OptionPass.Executable(i))
        && (forall s :: s in b.symbols ==> !b.Overweight(s))
        && (forall s :: s in b.targets ==> !b.Underweight(s)))
  }

  lemma WorkGoesAhead(b: Book, gates: Gates, r: Readings, intents: seq<OptionIntent>)
    requires b.Valid()
    ensures HasWork(b, gates, r, intents) <==> GoesAhead(b, gates, r, intents)
  {
    var investable := Investable(Anticipated(r), b.reserved);
    forall s ensures PlanBuy(b, s, investable).Buys? <==> DecideBuy(b, s, investable).Buys? {
      PlanBuyAgrees(b, s, investable);
    }
    if !SellPlanned(b) && !BuyPlanned(b, investable) {
      NothingToReport(b, investable);
    }
  }

  /** A missing quote or an empty purse blocks a cycle without work; anything else is a plain no-op. */
  ghost function StatusWithoutWork(b: Book, investable: real): Status {
    if Unquoted(b) then BlockedBy("missing_price")
    else if Penniless(b, investable) then BlockedBy("insufficient_buying_power")
    else NoOp
  }

  lemma NoWorkNoTrade(b: Book, gates: Gates, r: Readings, intents: seq<OptionIntent>)
    requires b.Valid() && !HasWork(b, gates, r, intents)
    ensures var investable := Investable(Anticipated(r), b.reserved);
            var reason := NoOpVerdict(b, investable);
            StatusWithoutWork(b, investable) == if reason.Blocks() then BlockedBy(ReasonText(reason)) else NoOp
  {
    var investable := Investable(Anticipated(r), b.reserved);
    WorkGoesAhead(b, gates, r, intents);
    ReasonIsExact(b, investable);
  }

  /** The error or the status each guard gives, in the source's order, when the ones before it are clear. */
  ghost predicate GuardsHold(b: Book, gates: Gates, r: Readings, intents: seq<OptionIntent>, guards: Guards,
                             ending: Ending, before: Status, after: Status) {
    var broke := guards.equity <= 0.0 && !(gates.cashOnly && guards.grossAtCost > 0.0);
    var work := HasWork(b, gates, r, intents);
    && (guards.severalAccounts ==> ending == Raised && after == before)
    && (!guards.severalAccounts && broke ==> ending == Halted && after == BlockedBy("no_equity"))
    && (!guards.severalAccounts && !broke && guards.snapshotInvalid ==> ending == Raised && after == before)
    && (!guards.severalAccounts && !broke && !guards.snapshotInvalid ==>
          && (guards.paperRefused ==> ending == Halted && after == BlockedBy("paper_execution_admission_blocked"))
          && (!guards.paperRefused && guards.pendingOrders ==> ending == Halted && after == BlockedBy("pending_orders_detected"))
          && (!guards.paperRefused && !guards.pendingOrders && !work ==>
                ending == Halted && after == StatusWithoutWork(b, Investable(Anticipated(r), b.reserved)))
          && (!guards.paperRefused && !guards.pendingOrders && work && guards.sameDayFills ==>
                ending == Halted && after == BlockedBy("same_day_fills_detected"))
          && (!guards.paperRefused && !guards.pendingOrders && work && !guards.sameDayFills && guards.lockHeld ==>
                ending == Halted && after == BlockedBy("same_day_execution_locked")))
  }

  /** Some guard is up. */
  predicate AnyGuard(guards: Guards, cashOnly: bool) {
    || guards.severalAccounts || guards.snapshotInvalid || guards.paperRefused || guards.pendingOrders
    || guards.sameDayFills || guards.lockHeld
    || (guards.equity <= 0.0 && !(cashOnly && guards.grossAtCost > 0.0))
  }

  /** How the endings follow from the stop: the passes are reached exactly with no guard up and something to do. */
  lemma StopsExactly(b: Book, gates: Gates, r: Readings, intents: seq<OptionIntent>, guards: Guards,
                     ending: Ending, before: Status, after: Status)
    requires b.Valid()
    requires match Stopped(b, gates, r, intents, guards)
             case Some(EndsWith(status)) => ending == Halted && after == status
             case Some(Errs) => ending == Raised && after == before
             case None => true
    ensures Stopped(b, gates, r, intents, guards).None? <==> !AnyGuard(guards, gates.cashOnly) && HasWork(b, gates, r, intents)
    ensures GuardsHold(b, gates, r, intents, guards, ending, before, after)
  {
    WorkGoesAhead(b, gates, r, intents);
    if !HasWork(b, gates, r, intents) {
      NoWorkNoTrade(b, gates, r, intents);
    }
  }

  /** The gate chain before the buy pass; the guard's estimate is made only when it can matter, and raises
      when it divides by a limit of zero. */
  method DecideDeferral(b: Book, gates: Gates, locked: seq<Symbol>, budget: real, gateCash: Option<real>)
    returns (why: Option<BlockReason>)
    ensures why == BuysDeferred(b, gates, Elements(locked), budget, gateCash)
  {
    var needed := exists s :: s in b.targetOrder && b.Underweight(s);
    if !needed {
      return None;
    }
    if gates.smallAccountWarning {
      return Some(SmallAccount);
    }
    if gates.newRiskProhibited {
      return Some(NewRiskGate);
    }
    if gates.cashOnly && locked != [] {
      assert locked[0] in Elements(locked);
      var estimate := EstimateOrderCost(b, budget);
      if estimate == None {
        return Some(EstimateError);
      }
      if estimate.value > budget {
        return Some(PendingSellRelease);
      }
    }
    if gates.cashOnly && gateCash.Some? && gateCash.value < 0.0 {
      return Some(NegativeCash);
    }
    return None;
  }

  /** Sells, reads the buying power, applies the gates and buys. */
  method TradeEquities(b: Book, sweep: nat, order: seq<Symbol>, mode: Mode, gates: Gates, r: Readings,
                       summary: ExecutionSummary)
    returns (cycle: Cycle)
    requires Enumerates(order, b.symbols) && summary.Consistent() && summary.orders == NoOrders()
    modifies summary
    ensures summary.Consistent() && summary.options == old(summary.options) && summary.status == old(summary.status)
    ensures cycle == RunPasses(b, sweep, order, mode, gates, r) && summary.orders == cycle.run.lists
  {
    var sells, pending := SellPass(b, SellerOf(b, sweep), order, mode, summary);
    var power := BuyingPower(mode, gates.cashOnly, sells.released, sells.sold, r);
    var budget := Investable(power, b.reserved);
    var deferred := DecideDeferral(b, gates, pending, budget, r.gate);
    var run := sells;
    match deferred {
      case Some(why) =>
        ErrorEndsTheCycle(b, sells, |b.targetOrder|);
        if why != EstimateError {
          run := DeferBuys(b, sells, why, summary);
        }
      case None => run := BuyPass(b, BuyerOf(b), sells, budget, mode, summary);
    }
    cycle := Cycle(sells, power, deferred, run);
  }

  /** Plans, and tells how a cycle that does not go ahead ends. */
  method Prepare(b: Book, order: seq<Symbol>, gates: Gates, r: Readings, intents: seq<OptionIntent>, guards: Guards)
    returns (sweep: nat, stop: Option<Exit>)
    requires b.Valid() && Enumerates(order, b.symbols)
    ensures stop == Stopped(b, gates, r, intents, guards)
    ensures stop.None? ==> sweep == SweepQuantity(b, gates.newRiskProhibited, Investable(Anticipated(r), b.reserved))
  {
    if guards.severalAccounts {
      return 0, Some(Errs);
    }
    if guards.equity <= 0.0 {
      if !(gates.cashOnly && guards.grossAtCost > 0.0) {
        return 0, Some(EndsWith(BlockedBy("no_equity")));
      }
    }
    if guards.snapshotInvalid {
      return 0, Some(Errs);
    }
    if guards.paperRefused {
      return 0, Some(EndsWith(BlockedBy("paper_execution_admission_blocked")));
    }
    if guards.pendingOrders {
      return 0, Some(EndsWith(BlockedBy("pending_orders_detected")));
    }
    var anticipated := Available(r.before, r.fallback);
    var plan := PlanRebalance(b, order, gates.newRiskProhibited, Investable(anticipated, b.reserved));
    sweep := plan.sweep;
    if !plan.sell && !plan.buy && !(plan.reason == BelowThreshold && HasOptionPlan(intents)) {
      stop := Some(EndsWith(if plan.reason.Blocks() then BlockedBy(ReasonText(plan.reason)) else NoOp));
    } else if guards.sameDayFills {
      stop := Some(EndsWith(BlockedBy("same_day_fills_detected")));
    } else if guards.lockHeld {
      stop := Some(EndsWith(BlockedBy("same_day_execution_locked")));
    } else {
      stop := None;
    }
  }

  /** The lists, the status and the marker decision of a cycle that goes ahead. */
  ghost predicate EndsAs(b: Book, sweep: nat, order: seq<Symbol>, mode: Mode, optionMode: OptionPass.OptionMode, gates: Gates,
                         r: Readings, intents: seq<OptionIntent>, dedup: bool, summary: ExecutionSummary, ending: Ending)
    reads summary
  {
    var cycle := RunPasses(b, sweep, order, mode, gates, r);
    if cycle.deferred == Some(EstimateError) then
      && ending == Raised
      && summary.orders == cycle.sells.lists == cycle.run.lists && summary.options == NoOrders() && summary.status == Executing
    else
      && ending == Completed(dedup && (summary.orders.AnyAccepted() || summary.options.AnyAccepted()))
      && summary.orders == cycle.run.lists
      && summary.options == OptionPass.Run(intents, |intents|, cycle.buyingPower, optionMode).lists
      && summary.status == FinalStatus(summary.orders, summary.options, summary.failures)
  }

  method TradeAll(b: Book, sweep: nat, order: seq<Symbol>, mode: Mode, optionMode: OptionPass.OptionMode, gates: Gates,
                  r: Readings, intents: seq<OptionIntent>, dedup: bool, summary: ExecutionSummary)
    returns (ending: Ending)
    requires Enumerates(order, b.symbols)
    requires summary.Consistent() && summary.orders == NoOrders() && summary.options == NoOrders() && summary.status == Executing
    modifies summary
    ensures summary.Consistent()
    ensures EndsAs(b, sweep, order, mode, optionMode, gates, r, intents, dedup, summary, ending)
  {
    var cycle := TradeEquities(b, sweep, order, mode, gates, r, summary);
    if cycle.deferred == Some(EstimateError) {
      ErrorEndsTheCycle(b, cycle.sells, |b.targetOrder|);
      return Raised;
    }
    var left := OptionPass.ExecuteOptions(intents, cycle.buyingPower, optionMode, summary);
    summary.Finish();
    StatusIsExact(summary.orders, summary.options, summary.failures, dedup);
    ending := Completed(ShouldRecordMarker(dedup, summary.status, summary.orders, summary.options));
  }

  /** Runs one cycle. A cycle that is stopped, with a status or an error, submits nothing; one whose rotation
      guard raises has filed its sells and nothing else; any other cycle files exactly the orders of its two
      passes and of its option pass, and its status and its marker decision say what became of them. The option
      pass starts from the buying power before the buys. */
  method ExecuteRebalance(b: Book, order: seq<Symbol>, mode: Mode, optionMode: OptionPass.OptionMode, gates: Gates,
                          r: Readings, intents: seq<OptionIntent>, guards: Guards, dedup: bool, summary: ExecutionSummary)
    returns (ending: Ending)
    requires b.Valid() && Enumerates(order, b.symbols)
    requires summary.Consistent() && summary.orders == NoOrders() && summary.options == NoOrders()
    modifies summary
    ensures summary.Consistent()
    ensures AnyGuard(guards, gates.cashOnly) || !HasWork(b, gates, r, intents) ==>
              !ending.Completed? && summary.orders == NoOrders() && summary.options == NoOrders()
    ensures GuardsHold(b, gates, r, intents, guards, ending, old(summary.status), summary.status)
    ensures !AnyGuard(guards, gates.cashOnly) && HasWork(b, gates, r, intents) ==>
              var sweep := SweepQuantity(b, gates.newRiskProhibited, Investable(Anticipated(r), b.reserved));
              EndsAs(b, sweep, order, mode, optionMode, gates, r, intents, dedup, summary, ending)
    ensures ending == Halted ==> Stopped(b, gates, r, intents, guards) == Some(EndsWith(summary.status))
  {
    var sweep, stop := Prepare(b, order, gates, r, intents, guards);
    ghost var before := summary.status;
    match stop {
      case Some(EndsWith(status)) =>
        summary.status := status;
        ending := Halted;
      case Some(Errs) =>
        ending := Raised;
      case None =>
        summary.status := Executing;
        ending := TradeAll(b, sweep, order, mode, optionMode, gates, r, intents, dedup, summary);
    }
    StopsExactly(b, gates, r, intents, guards, ending, before, summary.status);
  }
}
