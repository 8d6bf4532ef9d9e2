/** Which orders a cycle sends, sell safety, and the agreement of dry runs with live runs. */
module Fidelity {
  import opened Quantity
  import opened Sums
  import opened Orders
  import opened Allocator
  import opened Passes
  import Ledger

  // ------------------------------------------------------ the orders of a pass

  /** The sell orders over the first k symbols: neither the mode nor the reports matter. */
  function SellOrders(decide: Seller, order: seq<Symbol>, k: nat): seq<Order>
    requires k <= |order|
  {
    if k == 0 then []
    else
      var s := order[k - 1];
      SellOrders(decide, order, k - 1)
      + match decide(s)
        case Sells(q) => [Order(s, Sell, q, 0.0)]
        case _ => []
  }

  lemma {:induction false} SellRunOrders(b: Book, decide: Seller, order: seq<Symbol>, k: nat, mode: Mode)
    requires k <= |order|
    ensures SellRun(b, decide, order, k, mode).orders == SellOrders(decide, order, k)
  {
    if k > 0 {
      SellRunOrders(b, decide, order, k - 1, mode);
    }
  }

  ghost predicate IsSell(decide: Seller, o: Order) {
    o.side == Sell && o.limit == 0.0 && decide(o.symbol) == Sells(o.quantity)
  }

  ghost predicate SymbolsDiffer(orders: seq<Order>) {
    forall i, j :: 0 <= i < j < |orders| ==> orders[i].symbol != orders[j].symbol
  }

  lemma {:induction false} SellOrdersAmong(decide: Seller, order: seq<Symbol>, k: nat, o: Order)
    requires k <= |order|
    ensures o in SellOrders(decide, order, k) <==> IsSell(decide, o) && o.symbol in order[..k]
  {
    if k > 0 {
      SellOrdersAmong(decide, order, k - 1, o);
      PrefixNext(order, k - 1);
    }
  }

  lemma {:induction false} SellOrdersDiffer(decide: Seller, order: seq<Symbol>, k: nat)
    requires k <= |order| && Distinct(order)
    ensures SymbolsDiffer(SellOrders(decide, order, k))
  {
    if k > 0 {
      SellOrdersDiffer(decide, order, k - 1);
      var before, s := SellOrders(decide, order, k - 1), order[k - 1];
      forall i | 0 <= i < |before| ensures before[i].symbol != s {
        SellOrdersAmong(decide, order, k - 1, before[i]);
      }
    }
  }

  /** The sell orders are exactly the decided sells of the traded symbols, one per symbol. */
  lemma SellOrdersExact(decide: Seller, order: seq<Symbol>, symbols: set<Symbol>)
    requires Enumerates(order, symbols)
    ensures var orders := SellOrders(decide, order, |order|);
            && (forall o :: o in orders <==> IsSell(decide, o) && o.symbol in symbols)
            && SymbolsDiffer(orders)
  {
    forall o ensures o in SellOrders(decide, order, |order|) <==> IsSell(decide, o) && o.symbol in symbols {
      SellOrdersAmong(decide, order, |order|, o);
      assert order[..|order|] == order;
      assert o.symbol in symbols <==> o.symbol in Elements(order);
    }
    SellOrdersDiffer(decide, order, |order|);
  }

  /** An order some non-negative budget would place. */
  ghost predicate IsBuy(decide: Buyer, o: Order) {
    o.side == Buy && exists left: real :: left >= 0.0 && decide(o.symbol, left) == Buys(o.quantity, o.limit)
  }

  /** An order of the open buy pass after the sell orders: a decided buy of a listed target. */
  ghost predicate BuysAmong(decide: Buyer, orders: seq<Order>, n: nat, targets: seq<Symbol>) {
    forall i :: n <= i < |orders| ==> IsBuy(decide, orders[i]) && orders[i].symbol in targets
  }

  ghost predicate DifferFrom(orders: seq<Order>, n: nat) {
    forall i, j :: n <= i < j < |orders| ==> orders[i].symbol != orders[j].symbol
  }

  lemma AppendBuy(decide: Buyer, orders: seq<Order>, n: nat, targets: seq<Symbol>, o: Order)
    requires BuysAmong(decide, orders, n, targets) && DifferFrom(orders, n) && n <= |orders|
    requires IsBuy(decide, o) && o.symbol !in targets
    ensures BuysAmong(decide, orders + [o], n, targets + [o.symbol]) && DifferFrom(orders + [o], n)
  {
  }

  lemma KeepBuys(decide: Buyer, orders: seq<Order>, n: nat, targets: seq<Symbol>, s: Symbol)
    requires BuysAmong(decide, orders, n, targets)
    ensures BuysAmong(decide, orders, n, targets + [s])
  {
  }

  lemma DecidedBuy(decide: Buyer, left: real, o: Order)
    requires left >= 0.0 && o.side == Buy && decide(o.symbol, left) == Buys(o.quantity, o.limit)
    ensures IsBuy(decide, o)
  {
  }

  /** The orders after the first n are decided buys of different listed targets. */
  ghost predicate BuysAfter(decide: Buyer, first: seq<Order>, orders: seq<Order>, targets: seq<Symbol>) {
    first <= orders && BuysAmong(decide, orders, |first|, targets) && DifferFrom(orders, |first|)
  }

  lemma TurnBuys(b: Book, decide: Buyer, first: seq<Order>, run: Run, s: Symbol, mode: Mode, targets: seq<Symbol>)
    requires BuysAfter(decide, first, run.orders, targets) && run.left >= 0.0 && s !in targets
    ensures BuysAfter(decide, first, BuyTurn(b, run, decide(s, run.left), s, mode).orders, targets + [s])
  {
    var d := decide(s, run.left);
    if d.Buys? {
      var o := Order(s, Buy, d.quantity, d.limit);
      DecidedBuy(decide, run.left, o);
      AppendBuy(decide, run.orders, |first|, targets, o);
    } else {
      KeepBuys(decide, run.orders, |first|, targets, s);
    }
  }

  /** The open buy pass adds at most one order per target after the sell orders. */
  lemma {:induction false} BuyRunOrders(b: Book, decide: Buyer, sells: Run, k: nat, budget: real, mode: Mode)
    requires k <= |b.targetOrder| && Distinct(b.targetOrder)
    requires budget >= 0.0 && Ledger.Frugal(decide) && Ledger.AcceptedBuys(sells.trace) == 0
    ensures BuysAfter(decide, sells.orders, BuyRun(b, decide, sells, k, budget, mode).orders, b.targetOrder[..k])
  {
    if k > 0 {
      BuyRunOrders(b, decide, sells, k - 1, budget, mode);
      Ledger.BudgetDecays(b, decide, sells, k - 1, budget, mode);
      PrefixNext(b.targetOrder, k - 1);
      var run, s := BuyRun(b, decide, sells, k - 1, budget, mode), b.targetOrder[k - 1];
      NotBefore(b.targetOrder, k - 1);
      TurnBuys(b, decide, sells.orders, run, s, mode, b.targetOrder[..k - 1]);
    }
  }

  lemma NotBefore(xs: seq<Symbol>, i: nat)
    requires i < |xs| && Distinct(xs)
    ensures xs[i] !in xs[..i]
  {
  }

  // ------------------------------------------------------------- sell safety

  /** The symbol whose sell is raised to fund a buy. */
  predicate Swept(b: Book, sweep: nat, s: Symbol) {
    sweep > 0 && b.safeHaven == Some(s)
  }

  /** A sell within the holding; a regular one ends less than one step above max(0, target). */
  ghost predicate SafeSell(b: Book, sweep: nat, o: Order) {
    && 0.0 < o.quantity <= b.Held(o.symbol)
    && (!Swept(b, sweep, o.symbol) ==>
        0.0 <= Notional(b.Held(o.symbol) - o.quantity, b.Price(o.symbol)) - Max(0.0, b.Target(o.symbol))
            < Notional(b.step, b.Price(o.symbol)))
  }

  lemma SellIsSafe(b: Book, sweep: nat, o: Order)
    requires IsSell(SellerOf(b, sweep), o) && b.prices.Keys <= b.symbols && b.Quoted()
    requires Swept(b, sweep, o.symbol) ==> sweep as real <= b.Held(o.symbol)
    ensures SafeSell(b, sweep, o)
  {
    assert DecideSell(b, sweep, o.symbol) == Sells(o.quantity);
    if !Swept(b, sweep, o.symbol) {
      SellLeavesLessThanOneStep(b, o.symbol);
    }
  }

  lemma SellAndBuyDiffer(b: Book, sweep: nat, o: Order, p: Order)
    requires b.prices.Keys <= b.symbols && b.Quoted()
    requires IsSell(SellerOf(b, sweep), o) && IsBuy(BuyerOf(b), p) && !Swept(b, sweep, o.symbol)
    ensures o.symbol != p.symbol
  {
    var left: real :| left >= 0.0 && BuyerOf(b)(p.symbol, left) == Buys(p.quantity, p.limit);
    assert DecideSell(b, sweep, o.symbol) == Sells(o.quantity);
    SidesAreDisjoint(b, o.symbol, left);
  }

  /** No symbol is traded twice, unless it is the swept safe haven: sold first, then bought. */
  ghost predicate TradedOnce(b: Book, sweep: nat, sells: seq<Order>, buys: seq<Order>) {
    && SymbolsDiffer(sells)
    && SymbolsDiffer(buys)
    && (forall o, p :: o in sells && p in buys && o.symbol == p.symbol ==> Swept(b, sweep, o.symbol))
  }

  /** Sell safety of a whole cycle. */
  lemma CycleIsSafe(b: Book, sweep: nat, order: seq<Symbol>, mode: Mode, gates: Gates, r: Readings)
    requires b.Valid() && b.Quoted() && Enumerates(order, b.symbols)
    requires b.safeHaven.Some? && sweep > 0 ==> sweep as real <= b.Held(b.safeHaven.value)
    ensures var cycle := RunPasses(b, sweep, order, mode, gates, r);
            && cycle.sells.orders <= cycle.run.orders
            && (forall o :: o in cycle.sells.orders ==> SafeSell(b, sweep, o))
            && TradedOnce(b, sweep, cycle.sells.orders, cycle.BuyOrders())
  {
    var cycle := RunPasses(b, sweep, order, mode, gates, r);
    SellRunOrders(b, SellerOf(b, sweep), order, |order|, mode);
    SellOrdersExact(SellerOf(b, sweep), order, b.symbols);
    CycleBuys(b, sweep, order, mode, gates, r);
    AreSafe(b, sweep, cycle.sells.orders, cycle.BuyOrders());
  }

  lemma AreSafe(b: Book, sweep: nat, sells: seq<Order>, buys: seq<Order>)
    requires b.prices.Keys <= b.symbols && b.Quoted()
    requires b.safeHaven.Some? && sweep > 0 ==> sweep as real <= b.Held(b.safeHaven.value)
    requires forall o :: o in sells ==> IsSell(SellerOf(b, sweep), o)
    requires forall o :: o in buys ==> IsBuy(BuyerOf(b), o)
    requires SymbolsDiffer(sells) && SymbolsDiffer(buys)
    ensures forall o :: o in sells ==> SafeSell(b, sweep, o)
    ensures TradedOnce(b, sweep, sells, buys)
  {
    forall o | o in sells ensures SafeSell(b, sweep, o) {
      SellIsSafe(b, sweep, o);
    }
    forall o, p | o in sells && p in buys && o.symbol == p.symbol ensures Swept(b, sweep, o.symbol) {
      if !Swept(b, sweep, o.symbol) {
        SellAndBuyDiffer(b, sweep, o, p);
      }
    }
  }

  lemma CycleBuys(b: Book, sweep: nat, order: seq<Symbol>, mode: Mode, gates: Gates, r: Readings)
    requires Distinct(b.targetOrder)
    ensures var cycle := RunPasses(b, sweep, order, mode, gates, r);
            && cycle.sells.orders <= cycle.run.orders
            && var buys := cycle.run.orders[|cycle.sells.orders|..];
            && (forall o :: o in buys ==> IsBuy(BuyerOf(b), o) && o.symbol in b.targetOrder)
            && SymbolsDiffer(buys)
  {
    var cycle := RunPasses(b, sweep, order, mode, gates, r);
    Ledger.SellsBuyNothing(b, SellerOf(b, sweep), order, |order|, mode);
    if cycle.deferred.Some? {
      Ledger.DeferredBuysNothing(b, cycle.sells, |b.targetOrder|, cycle.deferred.value);
    } else {
      Ledger.BookIsFrugal(b);
      BuyRunOrders(b, BuyerOf(b), cycle.sells, |b.targetOrder|, Investable(cycle.buyingPower, b.reserved), mode);
      assert b.targetOrder[..|b.targetOrder|] == b.targetOrder;
    }
  }

  // -------------------------------------------------------- dry-run fidelity

  ghost predicate NeverFails(mode: Mode) {
    mode.Live? ==> forall n: nat, o: Order :: Classify(mode.broker(n, o).status) != Failed
  }

  /** The broker fills every sell in full at the quote. */
  ghost predicate FillsSellsAtQuote(b: Book, mode: Mode) {
    mode.Live? ==> forall n: nat, o: Order :: o.side == Sell ==> FilledAt(mode.broker(n, o), o.quantity, b.Price(o.symbol))
  }

  predicate FilledAt(r: Report, quantity: real, price: real) {
    r.status == FilledStatus && r.filledQuantity == quantity && r.averagePrice == price
  }

  function SellValue(b: Book, decide: Seller): Symbol -> real {
    s => match decide(s) case Sells(q) => Notional(q, b.Price(s)) case _ => 0.0
  }

  /** A seller that only sells positive quantities of symbols with a positive quote. */
  ghost predicate SellsQuoted(b: Book, decide: Seller) {
    forall s :: decide(s).Sells? ==> decide(s).quantity > 0.0 && b.Price(s) > 0.0
  }

  /** With full fills at the quote the released cash is the quoted value of the sells. */
  lemma {:induction false} SellRunReleases(b: Book, decide: Seller, order: seq<Symbol>, k: nat, mode: Mode)
    requires k <= |order| && SellsQuoted(b, decide) && FillsSellsAtQuote(b, mode)
    ensures var run := SellRun(b, decide, order, k, mode);
            && run.released == SumSeq(order[..k], SellValue(b, decide))
            && run.released >= 0.0
            && (run.sold <==> run.orders != [])
            && (run.orders != [] <==> run.released > 0.0)
  {
    if k > 0 {
      SellRunReleases(b, decide, order, k - 1, mode);
      var run, s := SellRun(b, decide, order, k - 1, mode), order[k - 1];
      PrefixNext(order, k - 1);
      SumSeqAppend(order[..k - 1], [s], SellValue(b, decide));
      SumSeqOne(s, SellValue(b, decide));
      match decide(s) {
        case Keep =>
        case NoSell(reason) =>
        case Sells(q) =>
          NotionalPositive(q, b.Price(s));
          var o := Order(s, Sell, q, 0.0);
          assert mode.Live? ==> FilledAt(mode.broker(|run.orders|, o), q, b.Price(s));
      }
    }
  }

  datatype Plan = Plan(orders: seq<Order>, left: real)

  /** The buys a budget buys when nothing fails. */
  function BuyPlan(b: Book, decide: Buyer, k: nat, budget: real): Plan
    requires k <= |b.targetOrder|
  {
    if k == 0 then Plan([], budget)
    else
      var plan, s := BuyPlan(b, decide, k - 1, budget), b.targetOrder[k - 1];
      match decide(s, plan.left)
      case Buys(q, limit) => Plan(plan.orders + [Order(s, Buy, q, limit)], plan.left - Notional(q, limit))
      case _ => plan
  }

  lemma {:induction false} BuyRunFollowsPlan(b: Book, decide: Buyer, sells: Run, k: nat, budget: real, mode: Mode)
    requires k <= |b.targetOrder| && NeverFails(mode)
    ensures var run, plan := BuyRun(b, decide, sells, k, budget, mode), BuyPlan(b, decide, k, budget);
            run.left == plan.left && run.orders == sells.orders + plan.orders
  {
    if k > 0 {
      BuyRunFollowsPlan(b, decide, sells, k - 1, budget, mode);
      var run, s := BuyRun(b, decide, sells, k - 1, budget, mode), b.targetOrder[k - 1];
      match decide(s, run.left) {
        case Leave =>
        case NoBuy(reason) =>
        case Buys(q, limit) =>
          var o := Order(s, Buy, q, limit);
          assert mode.Live? ==> Classify(mode.broker(|run.orders|, o).status) != Failed;
      }
    }
  }

  lemma BookSellsQuoted(b: Book, sweep: nat)
    requires b.Quoted()
    ensures SellsQuoted(b, SellerOf(b, sweep))
  {
    forall s | SellerOf(b, sweep)(s).Sells?
      ensures SellerOf(b, sweep)(s).quantity > 0.0 && b.Price(s) > 0.0
    {
      assert DecideSell(b, sweep, s).Sells?;
    }
  }

  ghost predicate NotInDebt(gate: Option<real>) {
    gate.Some? ==> gate.value >= 0.0
  }

  /** Dry-run fidelity: in cash-only mode, when the broker fills sells in full at the quote, fails
      nothing and reports no more cash than the proceeds explain, the live passes have the buying
      power of the dry run and place exactly its sells and its buys, for any two iteration orders. */
  lemma DryRunIsFaithful(b: Book, sweep: nat, dryOrder: seq<Symbol>, liveOrder: seq<Symbol>, broker: Broker,
                         gates: Gates, dry: Readings, live: Readings)
    requires b.Quoted() && Enumerates(dryOrder, b.symbols) && Enumerates(liveOrder, b.symbols)
    requires gates.cashOnly && NeverFails(Live(broker)) && FillsSellsAtQuote(b, Live(broker))
    requires dry.before == live.before && dry.fallback == live.fallback
    requires NotInDebt(dry.gate) && NotInDebt(live.gate)
    requires var sells := RunPasses(b, sweep, liveOrder, Live(broker), gates, live).sells;
             Available(live.after, live.fallback) <= Anticipated(live) + sells.released
    ensures var preview := RunPasses(b, sweep, dryOrder, DryRun, gates, dry);
            var actual := RunPasses(b, sweep, liveOrder, Live(broker), gates, live);
            && multiset(preview.sells.orders) == multiset(actual.sells.orders)
            && preview.buyingPower == actual.buyingPower
            && preview.deferred == actual.deferred
            && preview.sells.orders <= preview.run.orders && actual.sells.orders <= actual.run.orders
            && preview.BuyOrders() == actual.BuyOrders()
  {
    var seller, mode := SellerOf(b, sweep), Live(broker);
    var preview := RunPasses(b, sweep, dryOrder, DryRun, gates, dry);
    var actual := RunPasses(b, sweep, liveOrder, mode, gates, live);
    BookSellsQuoted(b, sweep);
    SameSells(b, seller, dryOrder, liveOrder, mode);
    SamePower(mode, actual.sells.released, preview.sells.sold, actual.sells.sold, dry, live);
    SameBuys(b, preview.sells, actual.sells, actual.deferred, Investable(actual.buyingPower, b.reserved), mode);
  }

  /** With the same budget and gate, and no failing order, two buy phases place the same buys. */
  lemma SameBuys(b: Book, dry: Run, live: Run, deferred: Option<BlockReason>, budget: real, mode: Mode)
    requires NeverFails(mode)
    ensures var preview, actual := BuyPhase(b, dry, deferred, budget, DryRun), BuyPhase(b, live, deferred, budget, mode);
            && dry.orders <= preview.orders && live.orders <= actual.orders
            && preview.orders[|dry.orders|..] == actual.orders[|live.orders|..]
  {
    match deferred {
      case Some(why) =>
        Ledger.DeferredBuysNothing(b, dry, |b.targetOrder|, why);
        Ledger.DeferredBuysNothing(b, live, |b.targetOrder|, why);
      case None =>
        BuyRunFollowsPlan(b, BuyerOf(b), dry, |b.targetOrder|, budget, DryRun);
        BuyRunFollowsPlan(b, BuyerOf(b), live, |b.targetOrder|, budget, mode);
    }
  }

  lemma SamePower(mode: Mode, released: real, drySold: bool, liveSold: bool, dry: Readings, live: Readings)
    requires mode.Live? && released >= 0.0 && (liveSold <==> released > 0.0)
    requires dry.before == live.before && dry.fallback == live.fallback
    requires Available(live.after, live.fallback) <= Anticipated(live) + released
    ensures BuyingPower(DryRun, true, released, drySold, dry) == BuyingPower(mode, true, released, liveSold, live)
  {
  }

  lemma SameSells(b: Book, seller: Seller, dryOrder: seq<Symbol>, liveOrder: seq<Symbol>, mode: Mode)
    requires SellsQuoted(b, seller) && Enumerates(dryOrder, b.symbols) && Enumerates(liveOrder, b.symbols)
    requires FillsSellsAtQuote(b, mode)
    ensures var dry := SellRun(b, seller, dryOrder, |dryOrder|, DryRun);
            var live := SellRun(b, seller, liveOrder, |liveOrder|, mode);
            && multiset(dry.orders) == multiset(live.orders)
            && dry.released == live.released >= 0.0
            && (live.sold <==> live.released > 0.0)
  {
    SellRunReleases(b, seller, dryOrder, |dryOrder|, DryRun);
    SellRunReleases(b, seller, liveOrder, |liveOrder|, mode);
    assert dryOrder[..|dryOrder|] == dryOrder && liveOrder[..|liveOrder|] == liveOrder;
    SumOfEnumeration(dryOrder, b.symbols, SellValue(b, seller));
    SumOfEnumeration(liveOrder, b.symbols, SellValue(b, seller));
    SameSellOrders(b, seller, dryOrder, liveOrder, mode);
  }

  lemma SameOrders(xs: seq<Order>, ys: seq<Order>)
    requires SymbolsDiffer(xs) && SymbolsDiffer(ys) && forall o :: o in xs <==> o in ys
    ensures multiset(xs) == multiset(ys)
  {
    SameElementsSameMultiset(xs, ys);
  }

  /** The iteration order of the traded symbols does not change which sells are sent. */
  lemma SameSellOrders(b: Book, seller: Seller, one: seq<Symbol>, two: seq<Symbol>, mode: Mode)
    requires Enumerates(one, b.symbols) && Enumerates(two, b.symbols)
    ensures multiset(SellRun(b, seller, one, |one|, DryRun).orders) == multiset(SellRun(b, seller, two, |two|, mode).orders)
  {
    SellRunOrders(b, seller, one, |one|, DryRun);
    SellRunOrders(b, seller, two, |two|, mode);
    SellOrdersExact(seller, one, b.symbols);
    SellOrdersExact(seller, two, b.symbols);
    SameOrders(SellOrders(seller, one, |one|), SellOrders(seller, two, |two|));
  }
}
