/** The sell pass, the buying power it leaves, the buy gates and the buy pass.
    The loops are stated over decision functions; the book supplies the decisions. */
module Passes {
  import opened Quantity
  import opened Sums
  import opened Orders
  import opened Allocator

  type Seller = Symbol -> SellDecision
  type Buyer = (Symbol, real) -> BuyDecision

  function SellerOf(b: Book, sweep: nat): Seller {
    s => DecideSell(b, sweep, s)
  }

  function BuyerOf(b: Book): Buyer {
    (s, budget) => DecideBuy(b, s, budget)
  }

  // ------------------------------------------------------- a run of entries

  /** Dry runs count the quoted value of a sell; live runs count what the report releases. */
  function ReleasedBy(b: Book, e: Entry): real {
    if e.Skipped? || e.order.side == Buy || !Accepted(e.result) then 0.0
    else if e.result.Previewed? then Notional(e.order.quantity, b.Price(e.order.symbol))
    else ProjectedRelease(e.result.report, b.Price(e.order.symbol), e.order.quantity)
  }

  /** An accepted buy takes its limit cost out of the budget, whatever it fills. */
  function CommittedBy(e: Entry): real {
    if e.Placed? && e.order.side == Buy && Accepted(e.result) then Notional(e.order.quantity, e.order.limit) else 0.0
  }

  /** A cycle under way: its trace, the orders handed over, the cash released by sells,
      and the budget left for buys. */
  datatype Run = Run(
    trace: seq<Entry>,
    orders: seq<Order>,
    released: real,
    left: real,
    sold: bool,
    lists: Lists<Order>)

  function Idle(): Run {
    Run([], [], 0.0, 0.0, false, NoOrders())
  }

  function Log(b: Book, run: Run, e: Entry): Run {
    Run(run.trace + [e],
        if e.Placed? then run.orders + [e.order] else run.orders,
        run.released + ReleasedBy(b, e),
        run.left - CommittedBy(e),
        run.sold || (e.Placed? && e.order.side == Sell && Accepted(e.result)),
        if e.Placed? then Filed(run.lists, e.order, e.result) else run.lists)
  }

  // -------------------------------------------------------------- sell pass

  function SellTurn(b: Book, run: Run, d: SellDecision, s: Symbol, mode: Mode): Run {
    match d
    case Keep => run
    case NoSell(reason) => Log(b, run, Skipped(s, Sell, reason))
    case Sells(q) => Log(b, run, Submit(mode, |run.orders|, Order(s, Sell, q, 0.0)))
  }

  /** The sell pass over the first k symbols of an iteration order of the traded symbols. */
  function SellRun(b: Book, decide: Seller, order: seq<Symbol>, k: nat, mode: Mode): Run
    requires k <= |order|
  {
    if k == 0 then Idle()
    else SellTurn(b, SellRun(b, decide, order, k - 1, mode), decide(order[k - 1]), order[k - 1], mode)
  }

  /** Overweight symbols whose excess is smaller than one step: their cash stays locked. */
  ghost function PendingReleases(decide: Seller, symbols: set<Symbol>): set<Symbol> {
    set s | s in symbols && decide(s) == NoSell(QuantityZero)
  }

  // ----------------------------------------------------------- buying power

  /** The broker cash reads of a cycle: at planning, after the sells, and at the cash gate. */
  datatype Readings = Readings(before: Option<real>, after: Option<real>, gate: Option<real>, fallback: real)

  function Available(reading: Option<real>, fallback: real): real {
    Max(0.0, if reading.Some? then reading.value else fallback)
  }

  function Anticipated(r: Readings): real {
    Available(r.before, r.fallback)
  }

  function BuyingPower(mode: Mode, cashOnly: bool, released: real, executed: bool, r: Readings): real {
    if mode.DryRun? then Max(0.0, Anticipated(r) + released)
    else if !executed then Anticipated(r)
    else
      var refreshed := Available(r.after, r.fallback);
      if cashOnly && released > 0.0 then Max(refreshed, Anticipated(r) + released) else refreshed
  }

  // -------------------------------------------------------------- buy gates

  datatype Gates = Gates(smallAccountWarning: bool, newRiskProhibited: bool, cashOnly: bool)

  ghost predicate NeedsBuy(b: Book) {
    exists s :: s in b.targetOrder && b.Underweight(s)
  }

  /** The guard's estimate for one symbol: the whole budget, without the 95 percent margin. */
  function EstimateOne(b: Book, s: Symbol, budget: real): real {
    if !b.Underweight(s) then 0.0
    else
      var value := Min(b.Target(s) - b.Current(s), budget);
      if b.Price(s) == 0.0 || value < b.minNotional then 0.0
      else
        var q := PlannedBuyQuantity(value, b.limitOf(s), b.step);
        if q <= 0.0 then 0.0 else Notional(q, b.limitOf(s))
  }

  /** The estimator divides by the limit price of a needed, quoted symbol whose value reaches the minimum
      order: a limit that rounds to zero raises there. */
  predicate EstimateDivides(b: Book, s: Symbol, budget: real) {
    && b.Underweight(s) && b.Price(s) != 0.0 && Min(b.Target(s) - b.Current(s), budget) >= b.minNotional
    && b.limitOf(s) == 0.0
  }

  predicate EstimateRaises(b: Book, k: nat, budget: real)
    requires k <= |b.targetOrder|
  {
    exists i :: 0 <= i < k && EstimateDivides(b, b.targetOrder[i], budget)
  }

  /** The estimate over the first k targets, where it does not raise. */
  function EstimatedCost(b: Book, k: nat, budget: real): real
    requires k <= |b.targetOrder|
  {
    if k == 0 then 0.0
    else EstimatedCost(b, k - 1, budget) + EstimateOne(b, b.targetOrder[k - 1], budget)
  }

  /** Why the whole buy pass is deferred, if it is. */
  ghost function BuysDeferred(b: Book, gates: Gates, locked: set<Symbol>, budget: real, gateCash: Option<real>)
    : Option<BlockReason>
  {
    if !NeedsBuy(b) then None
    else if gates.smallAccountWarning then Some(SmallAccount)
    else if gates.newRiskProhibited then Some(NewRiskGate)
    else if gates.cashOnly && locked != {} && EstimateRaises(b, |b.targetOrder|, budget) then Some(EstimateError)
    else if gates.cashOnly && locked != {} && EstimatedCost(b, |b.targetOrder|, budget) > budget then Some(PendingSellRelease)
    else if gates.cashOnly && gateCash.Some? && gateCash.value < 0.0 then Some(NegativeCash)
    else None
  }

  // --------------------------------------------------------------- buy pass

  function BuyTurn(b: Book, run: Run, d: BuyDecision, s: Symbol, mode: Mode): Run {
    match d
    case Leave => run
    case NoBuy(reason) => Log(b, run, Skipped(s, Buy, reason))
    case Buys(q, limit) => Log(b, run, Submit(mode, |run.orders|, Order(s, Buy, q, limit)))
  }

  /** The open buy pass over the first k targets: each accepted order shrinks the budget
      of the next. */
  function BuyRun(b: Book, decide: Buyer, sells: Run, k: nat, budget: real, mode: Mode): Run
    requires k <= |b.targetOrder|
  {
    if k == 0 then sells.(left := budget)
    else
      var run := BuyRun(b, decide, sells, k - 1, budget, mode);
      var s := b.targetOrder[k - 1];
      BuyTurn(b, run, decide(s, run.left), s, mode)
  }

  /** The deferred buy pass: every needed symbol is passed by with the reason; none after an error. */
  function DeferredRun(b: Book, sells: Run, k: nat, why: BlockReason): Run
    requires k <= |b.targetOrder|
  {
    if k == 0 then sells
    else
      DeferTurn(b, DeferredRun(b, sells, k - 1, why), b.targetOrder[k - 1], why)
  }

  function DeferTurn(b: Book, run: Run, s: Symbol, why: BlockReason): Run {
    if b.Underweight(s) && why != EstimateError then Log(b, run, Skipped(s, Buy, BuysBlocked(why))) else run
  }

  /** After an error the cycle is what it was when its sells were over. */
  lemma {:induction false} ErrorEndsTheCycle(b: Book, sells: Run, k: nat)
    requires k <= |b.targetOrder|
    ensures DeferredRun(b, sells, k, EstimateError) == sells
  {
    if k > 0 {
      ErrorEndsTheCycle(b, sells, k - 1);
    }
  }

  // ------------------------------------------------------------- both passes

  datatype Cycle = Cycle(sells: Run, buyingPower: real, deferred: Option<BlockReason>, run: Run)
  {
    /** The orders of the buy pass. */
    function BuyOrders(): seq<Order>
      requires |sells.orders| <= |run.orders|
    {
      run.orders[|sells.orders|..]
    }
  }

  /** The buy pass, open or deferred, after the sells. */
  function BuyPhase(b: Book, sells: Run, deferred: Option<BlockReason>, budget: real, mode: Mode): Run {
    match deferred
    case Some(why) => DeferredRun(b, sells, |b.targetOrder|, why)
    case None => BuyRun(b, BuyerOf(b), sells, |b.targetOrder|, budget, mode)
  }

  /** What the two passes do, for one iteration order of the traded symbols. */
  ghost function RunPasses(b: Book, sweep: nat, order: seq<Symbol>, mode: Mode, gates: Gates, r: Readings): Cycle {
    var seller := SellerOf(b, sweep);
    var sells := SellRun(b, seller, order, |order|, mode);
    var power := BuyingPower(mode, gates.cashOnly, sells.released, sells.sold, r);
    var budget := Investable(power, b.reserved);
    var deferred := BuysDeferred(b, gates, PendingReleases(seller, b.symbols), budget, r.gate);
    Cycle(sells, power, deferred, BuyPhase(b, sells, deferred, budget, mode))
  }

  // ------------------------------------------------- every order is filed once

  /** An order has been filed as often as it was handed over, over all lists together, and the
      list of an outcome holds exactly the orders that had it, in submission order. */
  ghost predicate Tallied(run: Run, o: Order, outcome: Option<Outcome>) {
    && Multiplicity(run.lists, o) == multiset(run.orders)[o]
    && ListOf(run.lists, outcome) == OrdersWith(run.trace, outcome)
  }

  lemma LogKeepsTally(b: Book, run: Run, e: Entry, o: Order, outcome: Option<Outcome>)
    requires Tallied(run, o, outcome)
    ensures Tallied(Log(b, run, e), o, outcome)
  {
    OrdersWithNext(run.trace, e, outcome);
    if e.Placed? {
      FilingCountsOne(run.lists, e.order, e.result, o);
      CountAppend(run.orders, [e.order], o);
      FilingExtends(run.lists, e.order, e.result, outcome);
    }
  }

  lemma OrdersWithNext(trace: seq<Entry>, e: Entry, outcome: Option<Outcome>)
    ensures OrdersWith(trace + [e], outcome)
         == OrdersWith(trace, outcome) + if e.Placed? && Is(e.result, outcome) then [e.order] else []
  {
    assert (trace + [e])[..|trace|] == trace;
  }

  lemma {:induction false} SellRunTallied(b: Book, decide: Seller, order: seq<Symbol>, k: nat, mode: Mode,
                                          o: Order, outcome: Option<Outcome>)
    requires k <= |order|
    ensures Tallied(SellRun(b, decide, order, k, mode), o, outcome)
  {
    if k > 0 {
      SellRunTallied(b, decide, order, k - 1, mode, o, outcome);
      SellTurnKeepsTally(b, SellRun(b, decide, order, k - 1, mode), decide(order[k - 1]), order[k - 1], mode, o, outcome);
    }
  }

  lemma SellTurnKeepsTally(b: Book, run: Run, d: SellDecision, s: Symbol, mode: Mode, o: Order, outcome: Option<Outcome>)
    requires Tallied(run, o, outcome)
    ensures Tallied(SellTurn(b, run, d, s, mode), o, outcome)
  {
    match d {
      case Keep =>
      case NoSell(reason) => LogKeepsTally(b, run, Skipped(s, Sell, reason), o, outcome);
      case Sells(q) => LogKeepsTally(b, run, Submit(mode, |run.orders|, Order(s, Sell, q, 0.0)), o, outcome);
    }
  }

  lemma BuyTurnKeepsTally(b: Book, run: Run, d: BuyDecision, s: Symbol, mode: Mode, o: Order, outcome: Option<Outcome>)
    requires Tallied(run, o, outcome)
    ensures Tallied(BuyTurn(b, run, d, s, mode), o, outcome)
  {
    match d {
      case Leave =>
      case NoBuy(reason) => LogKeepsTally(b, run, Skipped(s, Buy, reason), o, outcome);
      case Buys(q, limit) => LogKeepsTally(b, run, Submit(mode, |run.orders|, Order(s, Buy, q, limit)), o, outcome);
    }
  }

  lemma {:induction false} BuyRunTallied(b: Book, decide: Buyer, sells: Run, k: nat, budget: real, mode: Mode,
                                         o: Order, outcome: Option<Outcome>)
    requires k <= |b.targetOrder| && Tallied(sells, o, outcome)
    ensures Tallied(BuyRun(b, decide, sells, k, budget, mode), o, outcome)
  {
    if k > 0 {
      BuyRunTallied(b, decide, sells, k - 1, budget, mode, o, outcome);
      var run, s := BuyRun(b, decide, sells, k - 1, budget, mode), b.targetOrder[k - 1];
      BuyTurnKeepsTally(b, run, decide(s, run.left), s, mode, o, outcome);
    }
  }

  lemma {:induction false} DeferredRunTallied(b: Book, sells: Run, k: nat, why: BlockReason,
                                              o: Order, outcome: Option<Outcome>)
    requires k <= |b.targetOrder| && Tallied(sells, o, outcome)
    ensures Tallied(DeferredRun(b, sells, k, why), o, outcome)
  {
    if k > 0 {
      DeferredRunTallied(b, sells, k - 1, why, o, outcome);
      DeferTurnKeepsTally(b, DeferredRun(b, sells, k - 1, why), b.targetOrder[k - 1], why, o, outcome);
    }
  }

  lemma DeferTurnKeepsTally(b: Book, run: Run, s: Symbol, why: BlockReason, o: Order, outcome: Option<Outcome>)
    requires Tallied(run, o, outcome)
    ensures Tallied(DeferTurn(b, run, s, why), o, outcome)
  {
    LogKeepsTally(b, run, Skipped(s, Buy, BuysBlocked(why)), o, outcome);
  }

  /** Conservation over a whole cycle: no broker submission is lost, filed twice or misfiled. */
  lemma OrdersAreConserved(b: Book, sweep: nat, order: seq<Symbol>, mode: Mode, gates: Gates, r: Readings,
                           o: Order, outcome: Option<Outcome>)
    ensures Tallied(RunPasses(b, sweep, order, mode, gates, r).run, o, outcome)
  {
    var cycle := RunPasses(b, sweep, order, mode, gates, r);
    SellRunTallied(b, SellerOf(b, sweep), order, |order|, mode, o, outcome);
    if cycle.deferred.Some? {
      DeferredRunTallied(b, cycle.sells, |b.targetOrder|, cycle.deferred.value, o, outcome);
    } else {
      var budget := Investable(cycle.buyingPower, b.reserved);
      BuyRunTallied(b, BuyerOf(b), cycle.sells, |b.targetOrder|, budget, mode, o, outcome);
    }
  }

  // ----------------------------------------------------- imperative passes

  /** Adds one entry to the run and to the summary; an order is sent on the way. */
  method Pass(b: Book, run: Run, symbol: Symbol, side: Side, reason: SkipReason, summary: ExecutionSummary)
    returns (next: Run)
    requires summary.Consistent() && summary.orders == run.lists
    modifies summary
    ensures summary.Consistent() && summary.options == old(summary.options) && summary.status == old(summary.status)
    ensures next == Log(b, run, Skipped(symbol, side, reason)) && summary.orders == next.lists
  {
    summary.RecordSkip(symbol, side, reason);
    next := Log(b, run, Skipped(symbol, side, reason));
  }

  /** Sends one order: previewed in a dry run, handed to the broker otherwise, and filed. */
  method Place(b: Book, run: Run, order: Order, mode: Mode, summary: ExecutionSummary) returns (next: Run)
    requires summary.Consistent() && summary.orders == run.lists
    modifies summary
    ensures summary.Consistent() && summary.options == old(summary.options) && summary.status == old(summary.status)
    ensures next == Log(b, run, Submit(mode, |run.orders|, order)) && summary.orders == next.lists
  {
    var result := Previewed;
    match mode {
      case DryRun =>
      case Live(broker) => result := Reported(broker(|run.orders|, order));
    }
    summary.RecordOrder(order, result);
    next := Log(b, run, Placed(order, result));
  }

  /** The sell loop, over any iteration order of the traded symbols. */
  method SellPass(b: Book, decide: Seller, order: seq<Symbol>, mode: Mode, summary: ExecutionSummary)
    returns (run: Run, pending: seq<Symbol>)
    requires Enumerates(order, b.symbols) && summary.Consistent() && summary.orders == NoOrders()
    modifies summary
    ensures summary.Consistent() && summary.options == old(summary.options) && summary.status == old(summary.status)
    ensures run == SellRun(b, decide, order, |order|, mode) && summary.orders == run.lists
    ensures Elements(pending) == PendingReleases(decide, b.symbols)
  {
    run, pending := Idle(), [];
    for i := 0 to |order|
      invariant summary.Consistent() && summary.options == old(summary.options) && summary.status == old(summary.status)
      invariant run == SellRun(b, decide, order, i, mode) && summary.orders == run.lists
      invariant forall s :: s in pending <==> s in order[..i] && decide(s) == NoSell(QuantityZero)
    {
      var s := order[i];
      PrefixNext(order, i);
      match decide(s) {
        case Keep =>
        case NoSell(reason) =>
          if reason == QuantityZero {
            pending := pending + [s];
          }
          run := Pass(b, run, s, Sell, reason, summary);
        case Sells(q) =>
          run := Place(b, run, Order(s, Sell, q, 0.0), mode, summary);
      }
    }
    assert order[..|order|] == order;
  }

  /** The estimator loop of the rotation guard; None is the division error. */
  method EstimateOrderCost(b: Book, budget: real) returns (cost: Option<real>)
    ensures cost == if EstimateRaises(b, |b.targetOrder|, budget) then None else Some(EstimatedCost(b, |b.targetOrder|, budget))
  {
    var total := 0.0;
    for i := 0 to |b.targetOrder|
      invariant total == EstimatedCost(b, i, budget) && !EstimateRaises(b, i, budget)
    {
      var s := b.targetOrder[i];
      assert EstimateRaises(b, i + 1, budget) <==> EstimateRaises(b, i, budget) || EstimateDivides(b, s, budget);
      if !b.Underweight(s) {
        continue;
      }
      var value := Min(b.Target(s) - b.Current(s), budget);
      if b.Price(s) == 0.0 || value < b.minNotional {
        continue;
      }
      if b.limitOf(s) == 0.0 {
        assert EstimateRaises(b, |b.targetOrder|, budget) by {
          assert EstimateDivides(b, b.targetOrder[i], budget);
        }
        return None;
      }
      var q := PlannedBuyQuantity(value, b.limitOf(s), b.step);
      if q <= 0.0 {
        continue;
      }
      total := total + Notional(q, b.limitOf(s));
    }
    cost := Some(total);
  }

  /** The buy loop. */
  method BuyPass(b: Book, decide: Buyer, sells: Run, budget: real, mode: Mode, summary: ExecutionSummary)
    returns (run: Run)
    requires summary.Consistent() && summary.orders == sells.lists
    modifies summary
    ensures summary.Consistent() && summary.options == old(summary.options) && summary.status == old(summary.status)
    ensures run == BuyRun(b, decide, sells, |b.targetOrder|, budget, mode) && summary.orders == run.lists
  {
    run := sells.(left := budget);
    for i := 0 to |b.targetOrder|
      invariant summary.Consistent() && summary.options == old(summary.options) && summary.status == old(summary.status)
      invariant run == BuyRun(b, decide, sells, i, budget, mode) && summary.orders == run.lists
    {
      var s := b.targetOrder[i];
      match decide(s, run.left) {
        case Leave =>
        case NoBuy(reason) => run := Pass(b, run, s, Buy, reason, summary);
        case Buys(q, limit) => run := Place(b, run, Order(s, Buy, q, limit), mode, summary);
      }
    }
  }

  /** The same loop when the buys are deferred. */
  method DeferBuys(b: Book, sells: Run, why: BlockReason, summary: ExecutionSummary) returns (run: Run)
    requires why != EstimateError
    requires summary.Consistent() && summary.orders == sells.lists
    modifies summary
    ensures summary.Consistent() && summary.options == old(summary.options) && summary.status == old(summary.status)
    ensures run == DeferredRun(b, sells, |b.targetOrder|, why) && summary.orders == run.lists
  {
    run := sells;
    for i := 0 to |b.targetOrder|
      invariant summary.Consistent() && summary.options == old(summary.options) && summary.status == old(summary.status)
      invariant run == DeferredRun(b, sells, i, why) && summary.orders == run.lists
    {
      var s := b.targetOrder[i];
      if b.Underweight(s) {
        run := Pass(b, run, s, Buy, BuysBlocked(why), summary);
      }
    }
  }
}
