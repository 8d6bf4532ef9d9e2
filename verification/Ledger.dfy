/** What the buy pass can spend, and the cash that must be left when both passes are over. */
module Ledger {
  import opened Quantity
  import opened Sums
  import opened Orders
  import opened Allocator
  import opened Passes

  // ------------------------------------------------------------ buy budget

  function AcceptedBuys(trace: seq<Entry>): nat {
    if trace == [] then 0
    else
      var e := trace[|trace| - 1];
      AcceptedBuys(trace[..|trace| - 1]) + if e.Placed? && e.order.side == Buy && Accepted(e.result) then 1 else 0
  }

  lemma AcceptedBuysNext(trace: seq<Entry>, e: Entry)
    ensures AcceptedBuys(trace + [e])
         == AcceptedBuys(trace) + if e.Placed? && e.order.side == Buy && Accepted(e.result) then 1 else 0
  {
    assert (trace + [e])[..|trace|] == trace;
  }

  /** A twentieth of x, n times over. */
  function Decayed(x: real, n: nat): real {
    if n == 0 then x else 0.05 * Decayed(x, n - 1)
  }

  /** A buyer that never spends more than 95 percent of what is left. */
  ghost predicate Frugal(decide: Buyer) {
    forall s, left :: left >= 0.0 && decide(s, left).Buys? ==> Affordable(decide(s, left), left)
  }

  predicate Affordable(d: BuyDecision, left: real)
    requires d.Buys?
  {
    0.0 <= Notional(d.quantity, d.limit) <= 0.95 * left
  }

  lemma BookIsFrugal(b: Book)
    ensures Frugal(BuyerOf(b))
  {
    forall s, left | left >= 0.0 && BuyerOf(b)(s, left).Buys?
      ensures Affordable(BuyerOf(b)(s, left), left)
    {
      BuyBounds(b, s, left);
    }
  }

  /** The budget left after n accepted buys. */
  predicate Lasts(run: Run, budget: real) {
    0.0 <= Decayed(budget, AcceptedBuys(run.trace)) <= run.left <= budget
  }

  lemma TurnLasts(b: Book, run: Run, d: BuyDecision, s: Symbol, mode: Mode, budget: real)
    requires Lasts(run, budget) && (d.Buys? ==> Affordable(d, run.left))
    ensures Lasts(BuyTurn(b, run, d, s, mode), budget)
  {
    match d {
      case Leave =>
      case NoBuy(reason) => AcceptedBuysNext(run.trace, Skipped(s, Buy, reason));
      case Buys(q, limit) => AcceptedBuysNext(run.trace, Submit(mode, |run.orders|, Order(s, Buy, q, limit)));
    }
  }

  lemma {:induction false} BudgetLasts(b: Book, decide: Buyer, sells: Run, k: nat, budget: real, mode: Mode)
    requires k <= |b.targetOrder| && budget >= 0.0 && Frugal(decide) && AcceptedBuys(sells.trace) == 0
    ensures Lasts(BuyRun(b, decide, sells, k, budget, mode), budget)
  {
    if k > 0 {
      BudgetLasts(b, decide, sells, k - 1, budget, mode);
      var run, s := BuyRun(b, decide, sells, k - 1, budget, mode), b.targetOrder[k - 1];
      TurnLasts(b, run, decide(s, run.left), s, mode, budget);
    }
  }

  /** After k accepted buys at least a 0.05^k share of the budget is left. */
  lemma BudgetDecays(b: Book, decide: Buyer, sells: Run, k: nat, budget: real, mode: Mode)
    requires k <= |b.targetOrder| && budget >= 0.0 && Frugal(decide) && AcceptedBuys(sells.trace) == 0
    ensures var run := BuyRun(b, decide, sells, k, budget, mode);
            0.0 <= Decayed(budget, AcceptedBuys(run.trace)) <= run.left <= budget
  {
    BudgetLasts(b, decide, sells, k, budget, mode);
  }

  // --------------------------------------------------------- rotation guard

  lemma BuyWithinEstimate(b: Book, s: Symbol, left: real, budget: real)
    requires 0.0 <= left <= budget
    ensures EstimateOne(b, s, budget) >= 0.0
    ensures var d := DecideBuy(b, s, left);
            d.Buys? ==> Notional(d.quantity, d.limit) <= EstimateOne(b, s, budget)
  {
    var d := DecideBuy(b, s, left);
    var limit := b.limitOf(s);
    var rough := Min(b.Target(s) - b.Current(s), budget);
    if d.Buys? {
      BuyBounds(b, s, left);
      var value := Min(b.Target(s) - b.Current(s), left * 0.95);
      QuotientMonotone(value, rough, limit);
      FloorMonotone(value / limit, rough / limit, b.step);
      NotionalLess(d.quantity, PlannedBuyQuantity(rough, limit, b.step), limit);
      NotionalPositive(d.quantity, limit);
    } else if limit > 0.0 {
      NotionalPositive(PlannedBuyQuantity(rough, limit, b.step), limit);
    }
  }

  /** The estimate for a symbol is what the buy pass would spend on it if it kept no margin. */
  lemma EstimateIsSpendingWithoutMargin(b: Book, s: Symbol, budget: real)
    requires budget >= 0.0
    ensures var d := DecideBuy(b, s, budget / 0.95);
            EstimateOne(b, s, budget) == if d.Buys? then Notional(d.quantity, d.limit) else 0.0
  {
    BuyBounds(b, s, budget / 0.95);
    assert (budget / 0.95) * 0.95 == budget;
  }

  /** The guard's estimate on the initial budget is never below what the pass commits. */
  lemma {:induction false} EstimateCoversSpending(b: Book, sells: Run, k: nat, budget: real, mode: Mode)
    requires k <= |b.targetOrder| && budget >= 0.0 && AcceptedBuys(sells.trace) == 0
    ensures budget - BuyRun(b, BuyerOf(b), sells, k, budget, mode).left <= EstimatedCost(b, k, budget)
  {
    if k > 0 {
      EstimateCoversSpending(b, sells, k - 1, budget, mode);
      BookIsFrugal(b);
      BudgetDecays(b, BuyerOf(b), sells, k - 1, budget, mode);
      var run := BuyRun(b, BuyerOf(b), sells, k - 1, budget, mode);
      BuyWithinEstimate(b, b.targetOrder[k - 1], run.left, budget);
    }
  }

  lemma {:induction false} SellsBuyNothing(b: Book, decide: Seller, order: seq<Symbol>, k: nat, mode: Mode)
    requires k <= |order|
    ensures AcceptedBuys(SellRun(b, decide, order, k, mode).trace) == 0
  {
    if k > 0 {
      SellsBuyNothing(b, decide, order, k - 1, mode);
      var run, s := SellRun(b, decide, order, k - 1, mode), order[k - 1];
      match decide(s) {
        case Keep =>
        case NoSell(reason) => AcceptedBuysNext(run.trace, Skipped(s, Sell, reason));
        case Sells(q) => AcceptedBuysNext(run.trace, Submit(mode, |run.orders|, Order(s, Sell, q, 0.0)));
      }
    }
  }

  lemma {:induction false} DeferredBuysNothing(b: Book, sells: Run, k: nat, why: BlockReason)
    requires k <= |b.targetOrder|
    ensures var run := DeferredRun(b, sells, k, why);
            run.orders == sells.orders && run.left == sells.left && AcceptedBuys(run.trace) == AcceptedBuys(sells.trace)
  {
    if k > 0 {
      DeferredBuysNothing(b, sells, k - 1, why);
      AcceptedBuysNext(DeferredRun(b, sells, k - 1, why).trace, Skipped(b.targetOrder[k - 1], Buy, BuysBlocked(why)));
    }
  }

  /** The open buy pass leaves at least a 0.05^k share of the budget after k accepted buys, and
      spends within the estimate; where cash is locked in an unsellable excess, an open guard
      means the estimate itself fits the budget. */
  lemma BuysStayInBudget(b: Book, sweep: nat, order: seq<Symbol>, mode: Mode, gates: Gates, r: Readings)
    ensures var cycle := RunPasses(b, sweep, order, mode, gates, r);
            var budget := Investable(cycle.buyingPower, b.reserved);
            var estimate := EstimatedCost(b, |b.targetOrder|, budget);
            && (cycle.deferred.None? ==>
                  && Decayed(budget, AcceptedBuys(cycle.run.trace)) <= cycle.run.left <= budget
                  && budget - cycle.run.left <= estimate
                  && (gates.cashOnly && PendingReleases(SellerOf(b, sweep), b.symbols) != {} && NeedsBuy(b) ==>
                        estimate <= budget))
            && (cycle.deferred.Some? ==> AcceptedBuys(cycle.run.trace) == 0 && cycle.run.orders == cycle.sells.orders)
  {
    var cycle := RunPasses(b, sweep, order, mode, gates, r);
    var budget := Investable(cycle.buyingPower, b.reserved);
    SellsBuyNothing(b, SellerOf(b, sweep), order, |order|, mode);
    if cycle.deferred.Some? {
      DeferredBuysNothing(b, cycle.sells, |b.targetOrder|, cycle.deferred.value);
    } else {
      BookIsFrugal(b);
      BudgetDecays(b, BuyerOf(b), cycle.sells, |b.targetOrder|, budget, mode);
      EstimateCoversSpending(b, cycle.sells, |b.targetOrder|, budget, mode);
    }
  }

  /** What the accepted buys of a trace commit: quantity times limit each, whatever they fill. */
  function Committed(trace: seq<Entry>): real {
    if trace == [] then 0.0
    else Committed(trace[..|trace| - 1]) + CommittedBy(trace[|trace| - 1])
  }

  lemma CommittedNext(trace: seq<Entry>, e: Entry)
    ensures Committed(trace + [e]) == Committed(trace) + CommittedBy(e)
  {
    assert (trace + [e])[..|trace|] == trace;
  }

  lemma {:induction false} SellsCommitNothing(b: Book, decide: Seller, order: seq<Symbol>, k: nat, mode: Mode)
    requires k <= |order|
    ensures Committed(SellRun(b, decide, order, k, mode).trace) == 0.0
  {
    if k > 0 {
      SellsCommitNothing(b, decide, order, k - 1, mode);
      var run, s := SellRun(b, decide, order, k - 1, mode), order[k - 1];
      match decide(s) {
        case Keep =>
        case NoSell(reason) => CommittedNext(run.trace, Skipped(s, Sell, reason));
        case Sells(q) => CommittedNext(run.trace, Submit(mode, |run.orders|, Order(s, Sell, q, 0.0)));
      }
    }
  }

  /** The budget a buy pass has used up is what its accepted orders commit. */
  lemma {:induction false} BuysCommitTheBudget(b: Book, decide: Buyer, sells: Run, k: nat, budget: real, mode: Mode)
    requires k <= |b.targetOrder|
    ensures var run := BuyRun(b, decide, sells, k, budget, mode);
            Committed(run.trace) == Committed(sells.trace) + budget - run.left
  {
    if k > 0 {
      BuysCommitTheBudget(b, decide, sells, k - 1, budget, mode);
      var run, s := BuyRun(b, decide, sells, k - 1, budget, mode), b.targetOrder[k - 1];
      match decide(s, run.left) {
        case Leave =>
        case NoBuy(reason) => CommittedNext(run.trace, Skipped(s, Buy, reason));
        case Buys(q, limit) => CommittedNext(run.trace, Submit(mode, |run.orders|, Order(s, Buy, q, limit)));
      }
    }
  }

  lemma {:induction false} DeferredCommitsNothing(b: Book, sells: Run, k: nat, why: BlockReason)
    requires k <= |b.targetOrder|
    ensures Committed(DeferredRun(b, sells, k, why).trace) == Committed(sells.trace)
  {
    if k > 0 {
      DeferredCommitsNothing(b, sells, k - 1, why);
      CommittedNext(DeferredRun(b, sells, k - 1, why).trace, Skipped(b.targetOrder[k - 1], Buy, BuysBlocked(why)));
    }
  }

  /** The equity commitment of a whole cycle is within the investable buying power, and nothing when no target
      is underweight. */
  lemma CycleCommitsWithinBudget(b: Book, sweep: nat, order: seq<Symbol>, mode: Mode, gates: Gates, r: Readings)
    ensures var cycle := RunPasses(b, sweep, order, mode, gates, r);
            && 0.0 <= Committed(cycle.run.trace) <= Investable(cycle.buyingPower, b.reserved)
            && (!NeedsBuy(b) ==> Committed(cycle.run.trace) == 0.0)
  {
    var cycle := RunPasses(b, sweep, order, mode, gates, r);
    var budget := Investable(cycle.buyingPower, b.reserved);
    SellsCommitNothing(b, SellerOf(b, sweep), order, |order|, mode);
    SellsBuyNothing(b, SellerOf(b, sweep), order, |order|, mode);
    BookIsFrugal(b);
    if cycle.deferred.Some? {
      DeferredCommitsNothing(b, cycle.sells, |b.targetOrder|, cycle.deferred.value);
    } else {
      BuysCommitTheBudget(b, BuyerOf(b), cycle.sells, |b.targetOrder|, budget, mode);
      BudgetDecays(b, BuyerOf(b), cycle.sells, |b.targetOrder|, budget, mode);
      if !NeedsBuy(b) {
        NothingCommitted(b, cycle.sells, |b.targetOrder|, budget, mode);
      }
    }
  }

  lemma {:induction false} NothingCommitted(b: Book, sells: Run, k: nat, budget: real, mode: Mode)
    requires k <= |b.targetOrder| && !NeedsBuy(b)
    ensures BuyRun(b, BuyerOf(b), sells, k, budget, mode) == sells.(left := budget)
  {
    if k > 0 {
      NothingCommitted(b, sells, k - 1, budget, mode);
      assert b.targetOrder[k - 1] in b.targetOrder;
    }
  }

  // ---------------------------------------------------------- cash in hand

  /** The cash an entry really moves: in for a sell, out for a buy. */
  type Settlement = Entry -> real

  function CashAfter(cash: real, moves: Settlement, trace: seq<Entry>): real {
    if trace == [] then cash
    else
      var e := trace[|trace| - 1];
      var before := CashAfter(cash, moves, trace[..|trace| - 1]);
      if e.Skipped? then before else if e.order.side == Sell then before + moves(e) else before - moves(e)
  }

  lemma CashAfterNext(cash: real, moves: Settlement, trace: seq<Entry>, e: Entry)
    ensures var before := CashAfter(cash, moves, trace);
            CashAfter(cash, moves, trace + [e])
            == if e.Skipped? then before else if e.order.side == Sell then before + moves(e) else before - moves(e)
  {
    assert (trace + [e])[..|trace|] == trace;
  }

  /** A sell brings in at least what its report claims; a buy costs no more than its limit, and
      nothing when it failed. */
  ghost predicate Honest(b: Book, moves: Settlement) {
    forall e: Entry :: e.Placed? ==>
      if e.order.side == Sell then ReleasedBy(b, e) <= moves(e) else moves(e) <= CommittedBy(e)
  }

  lemma ReleasesAreNotNegative(b: Book, e: Entry)
    requires e.Placed? ==> e.result.Reported?
    ensures ReleasedBy(b, e) >= 0.0
  {
    if e.Placed? && e.order.side == Sell {
      var r := e.result.report;
      forall q: real, p: real | q > 0.0 && p > 0.0 ensures Notional(q, p) > 0.0 {
        NotionalPositive(q, p);
      }
    }
  }

  lemma {:induction false} SellsReleaseWithinCash(b: Book, decide: Seller, order: seq<Symbol>, k: nat, broker: Broker,
                                                  cash: real, moves: Settlement)
    requires k <= |order| && Honest(b, moves)
    ensures var run := SellRun(b, decide, order, k, Live(broker));
            0.0 <= run.released <= CashAfter(cash, moves, run.trace) - cash
  {
    if k > 0 {
      SellsReleaseWithinCash(b, decide, order, k - 1, broker, cash, moves);
      var run, s := SellRun(b, decide, order, k - 1, Live(broker)), order[k - 1];
      match decide(s) {
        case Keep =>
        case NoSell(reason) =>
          CashAfterNext(cash, moves, run.trace, Skipped(s, Sell, reason));
        case Sells(q) =>
          var e := Submit(Live(broker), |run.orders|, Order(s, Sell, q, 0.0));
          CashAfterNext(cash, moves, run.trace, e);
          ReleasesAreNotNegative(b, e);
      }
    }
  }

  lemma {:induction false} BuysCostWithinBudget(b: Book, decide: Buyer, sells: Run, k: nat, budget: real, broker: Broker,
                                                cash: real, moves: Settlement)
    requires k <= |b.targetOrder| && Honest(b, moves)
    ensures var run := BuyRun(b, decide, sells, k, budget, Live(broker));
            CashAfter(cash, moves, sells.trace) - CashAfter(cash, moves, run.trace) <= budget - run.left
  {
    if k > 0 {
      BuysCostWithinBudget(b, decide, sells, k - 1, budget, broker, cash, moves);
      var run, s := BuyRun(b, decide, sells, k - 1, budget, Live(broker)), b.targetOrder[k - 1];
      match decide(s, run.left) {
        case Leave =>
        case NoBuy(reason) =>
          CashAfterNext(cash, moves, run.trace, Skipped(s, Buy, reason));
        case Buys(q, limit) =>
          CashAfterNext(cash, moves, run.trace, Submit(Live(broker), |run.orders|, Order(s, Buy, q, limit)));
      }
    }
  }

  lemma {:induction false} DeferredCostsNothing(b: Book, sells: Run, k: nat, why: BlockReason, cash: real, moves: Settlement)
    requires k <= |b.targetOrder|
    ensures CashAfter(cash, moves, DeferredRun(b, sells, k, why).trace) == CashAfter(cash, moves, sells.trace)
  {
    if k > 0 {
      DeferredCostsNothing(b, sells, k - 1, why, cash, moves);
      var e := Skipped(b.targetOrder[k - 1], Buy, BuysBlocked(why));
      CashAfterNext(cash, moves, DeferredRun(b, sells, k - 1, why).trace, e);
    }
  }

  /** The buying power is never above the cash after the sells by more than the starting debt. */
  lemma PowerWithinCash(broker: Broker, released: real, sold: bool, r: Readings, cash: real, afterSells: real)
    requires 0.0 <= released <= afterSells - cash
    requires Anticipated(r) <= Max(0.0, cash) && Available(r.after, r.fallback) <= Max(0.0, afterSells)
    ensures BuyingPower(Live(broker), true, released, sold, r) <= afterSells + Max(0.0, -cash)
  {
  }

  /** Cash-only ledger safety, for any starting cash: when the clamped cash reads are not above the clamped
      true cash, the cash left after both passes is at least the reserve, or all the cash there was after the
      sells if that is less, short of at most the debt the cycle started with. From non-negative cash the
      reserve, or all there was, is kept in full. */
  lemma CashStaysAboveReserve(b: Book, sweep: nat, order: seq<Symbol>, broker: Broker, gates: Gates, r: Readings,
                              cash: real, moves: Settlement)
    requires b.reserved >= 0.0 && gates.cashOnly && Honest(b, moves)
    requires Anticipated(r) <= Max(0.0, cash)
    requires var sells := RunPasses(b, sweep, order, Live(broker), gates, r).sells;
             Available(r.after, r.fallback) <= Max(0.0, CashAfter(cash, moves, sells.trace))
    ensures var cycle := RunPasses(b, sweep, order, Live(broker), gates, r);
            var afterSells := CashAfter(cash, moves, cycle.sells.trace);
            CashAfter(cash, moves, cycle.run.trace) >= Min(afterSells, b.reserved) - Max(0.0, -cash)
  {
    var cycle := RunPasses(b, sweep, order, Live(broker), gates, r);
    var afterSells := CashAfter(cash, moves, cycle.sells.trace);
    SellsReleaseWithinCash(b, SellerOf(b, sweep), order, |order|, broker, cash, moves);
    PowerWithinCash(broker, cycle.sells.released, cycle.sells.sold, r, cash, afterSells);
    if cycle.deferred.Some? {
      DeferredCostsNothing(b, cycle.sells, |b.targetOrder|, cycle.deferred.value, cash, moves);
    } else {
      var budget := Investable(cycle.buyingPower, b.reserved);
      SellsBuyNothing(b, SellerOf(b, sweep), order, |order|, Live(broker));
      BookIsFrugal(b);
      BudgetDecays(b, BuyerOf(b), cycle.sells, |b.targetOrder|, budget, Live(broker));
      BuysCostWithinBudget(b, BuyerOf(b), cycle.sells, |b.targetOrder|, budget, broker, cash, moves);
    }
  }
}
