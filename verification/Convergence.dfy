/** Repeated cycles at fixed quotes and targets, with full fills: each order moves its symbol
    toward its target, so only finitely many cycles trade. */
module Convergence {
  import opened Quantity
  import opened Sums
  import opened Orders
  import opened Allocator
  import opened Passes
  import Fidelity
  import Planning

  type Holdings = map<Symbol, real>

  function At(b: Book, h: Holdings): Book {
    b.(positions := h)
  }

  /** No negative quote, and buy limits that are not below the quote; a quote of zero counts as missing. */
  ghost predicate LimitsAboveQuotes(b: Book) {
    forall s :: s in b.prices ==> 0.0 <= b.prices[s] && (0.0 < b.prices[s] ==> b.prices[s] <= b.limitOf(s))
  }

  // ----------------------------------------------------------- full fills

  function Filling(h: Holdings, o: Order): Holdings {
    var held := if o.symbol in h then h[o.symbol] else 0.0;
    h[o.symbol := if o.side == Buy then held + o.quantity else held - o.quantity]
  }

  /** The holdings when the first k orders fill in full. */
  function FilledUpTo(h: Holdings, orders: seq<Order>, k: nat): Holdings
    requires k <= |orders|
  {
    if k == 0 then h else Filling(FilledUpTo(h, orders, k - 1), orders[k - 1])
  }

  // -------------------------------------------------------------- distance

  /** Whole steps, at the quote, between a holding and its target. */
  function StepsAway(b: Book, s: Symbol): int
    requires b.Price(s) > 0.0
  {
    NotionalPositive(b.step, b.Price(s));
    (Abs(b.Target(s) - b.Current(s)) / Notional(b.step, b.Price(s))).Floor
  }

  function Away(b: Book): Symbol -> real {
    s => if b.Price(s) > 0.0 then StepsAway(b, s) as real else 0.0
  }

  /** The termination measure: whole steps still to trade, over all quoted symbols. */
  ghost function Distance(b: Book): real {
    SumOver(b.prices.Keys, Away(b))
  }

  lemma FloorDrops(far: real, near: real, unit: real)
    requires unit > 0.0 && near + unit <= far
    ensures (near / unit).Floor + 1 <= (far / unit).Floor
  {
    NotionalOfQuotient(near, unit);
    NotionalAdds(near / unit, 1.0, unit);
    assert Notional(1.0, unit) == unit;
    CostWithin(near / unit + 1.0, far, unit);
  }

  lemma DistanceNotNegative(b: Book)
    ensures Distance(b) >= 0.0
  {
    forall s | s in b.prices.Keys ensures Away(b)(s) >= 0.0 {
      if b.Price(s) > 0.0 {
        NotionalPositive(b.step, b.Price(s));
        QuotientMonotone(0.0, Abs(b.Target(s) - b.Current(s)), Notional(b.step, b.Price(s)));
      }
    }
    SumNonNegative(b.prices.Keys, Away(b));
  }

  /** A full fill of o brings its symbol nearer to the target without crossing it. */
  ghost predicate Toward(b: Book, o: Order) {
    && o.symbol in b.prices && o.symbol in b.symbols && b.Price(o.symbol) > 0.0
    && b.step <= o.quantity
    && (o.side == Sell ==> b.Target(o.symbol) <= Notional(b.Held(o.symbol) - o.quantity, b.Price(o.symbol)))
    && (o.side == Buy ==> Notional(b.Held(o.symbol) + o.quantity, b.Price(o.symbol)) <= b.Target(o.symbol))
  }

  lemma FillIsNearer(b: Book, o: Order)
    requires Toward(b, o)
    ensures StepsAway(At(b, Filling(b.positions, o)), o.symbol) + 1 <= StepsAway(b, o.symbol)
  {
    var s, p, q, h := o.symbol, b.Price(o.symbol), o.quantity, b.Held(o.symbol);
    var after := At(b, Filling(b.positions, o));
    NotionalAdds(h, q, p);
    NotionalLess(b.step, q, p);
    NotionalPositive(q, p);
    NotionalPositive(b.step, p);
    FloorDrops(Abs(b.Target(s) - b.Current(s)), Abs(after.Target(s) - after.Current(s)), Notional(b.step, p));
  }

  /** Filling one order shortens the distance by at least one step and moves nothing else. */
  lemma FillShortens(b: Book, o: Order)
    requires Toward(b, o)
    ensures var after := At(b, Filling(b.positions, o));
            && Distance(after) <= Distance(b) - 1.0
            && (forall s :: s != o.symbol ==> after.Held(s) == b.Held(s))
  {
    var after := At(b, Filling(b.positions, o));
    FillIsNearer(b, o);
    SumChangeOne(b.prices.Keys, Away(b), Away(after), o.symbol);
  }

  /** Orders on different symbols, each toward its target, shorten the distance by one step each. */
  lemma {:induction false} FillsShorten(b: Book, orders: seq<Order>, k: nat)
    requires k <= |orders| && Fidelity.SymbolsDiffer(orders)
    requires forall o :: o in orders ==> Toward(b, o)
    ensures var after := At(b, FilledUpTo(b.positions, orders, k));
            && Distance(after) <= Distance(b) - k as real
            && (forall s :: (forall i :: 0 <= i < k ==> orders[i].symbol != s) ==> after.Held(s) == b.Held(s))
  {
    if k > 0 {
      FillsShorten(b, orders, k - 1);
      var before, o := At(b, FilledUpTo(b.positions, orders, k - 1)), orders[k - 1];
      assert o in orders;
      assert before.Held(o.symbol) == b.Held(o.symbol);
      assert Toward(before, o);
      FillShortens(before, o);
    }
  }

  // ------------------------------------------------------------ one cycle

  /** What varies from cycle to cycle: iteration order, reports, gates and cash reads. */
  datatype Surroundings = Surroundings(order: seq<Symbol>, mode: Mode, gates: Gates, readings: Readings)

  ghost function CycleOrders(b: Book, env: Surroundings): seq<Order> {
    RunPasses(b, 0, env.order, env.mode, env.gates, env.readings).run.orders
  }

  lemma BuyIsToward(b: Book, o: Order)
    requires Fidelity.IsBuy(BuyerOf(b), o) && LimitsAboveQuotes(b) && b.prices.Keys <= b.symbols
    ensures Toward(b, o)
  {
    var left: real :| left >= 0.0 && BuyerOf(b)(o.symbol, left) == Buys(o.quantity, o.limit);
    BuyBounds(b, o.symbol, left);
    NotionalLessPrice(o.quantity, b.Price(o.symbol), o.limit);
    NotionalAdds(b.Held(o.symbol), o.quantity, b.Price(o.symbol));
  }

  lemma SellIsToward(b: Book, o: Order)
    requires Fidelity.IsSell(SellerOf(b, 0), o) && LimitsAboveQuotes(b) && b.prices.Keys <= b.symbols
    ensures Toward(b, o)
  {
    assert DecideSell(b, 0, o.symbol) == Sells(o.quantity);
    SellLeavesLessThanOneStep(b, o.symbol);
  }

  /** Without a cash sweep every order of a cycle moves its own symbol toward its target. */
  lemma CycleMovesToward(b: Book, env: Surroundings)
    requires b.Valid() && LimitsAboveQuotes(b) && Enumerates(env.order, b.symbols)
    ensures Fidelity.SymbolsDiffer(CycleOrders(b, env))
    ensures forall o :: o in CycleOrders(b, env) ==> Toward(b, o)
  {
    var cycle := RunPasses(b, 0, env.order, env.mode, env.gates, env.readings);
    var seller, n, orders := SellerOf(b, 0), |cycle.sells.orders|, cycle.run.orders;
    Fidelity.SellRunOrders(b, seller, env.order, |env.order|, env.mode);
    Fidelity.SellOrdersExact(seller, env.order, b.symbols);
    Fidelity.CycleBuys(b, 0, env.order, env.mode, env.gates, env.readings);
    Fidelity.AreSafe(b, 0, cycle.sells.orders, cycle.BuyOrders());
    Together(b, cycle.sells.orders, cycle.BuyOrders());
    assert orders == cycle.sells.orders + cycle.BuyOrders();
  }

  lemma Together(b: Book, sells: seq<Order>, buys: seq<Order>)
    requires LimitsAboveQuotes(b) && b.prices.Keys <= b.symbols
    requires forall o :: o in sells ==> Fidelity.IsSell(SellerOf(b, 0), o)
    requires forall o :: o in buys ==> Fidelity.IsBuy(BuyerOf(b), o)
    requires Fidelity.TradedOnce(b, 0, sells, buys)
    ensures Fidelity.SymbolsDiffer(sells + buys)
    ensures forall o :: o in sells + buys ==> Toward(b, o)
  {
    forall o | o in sells + buys ensures Toward(b, o) {
      if o in sells {
        SellIsToward(b, o);
      } else {
        BuyIsToward(b, o);
      }
    }
    forall i, j | 0 <= i < j < |sells + buys| ensures (sells + buys)[i].symbol != (sells + buys)[j].symbol {
      if i < |sells| <= j {
        assert sells[i] in sells && buys[j - |sells|] in buys;
      }
    }
  }

  // ------------------------------------------------------------- many cycles

  /** A rule that turns a book and its surroundings into orders. */
  type Trader = (Book, Surroundings) -> seq<Order>

  ghost function Rebalancer(): Trader {
    (b, env) => CycleOrders(b, env)
  }

  ghost predicate Proper(b: Book, env: Surroundings) {
    b.Valid() && LimitsAboveQuotes(b) && Enumerates(env.order, b.symbols)
  }

  ghost predicate Approaches(b: Book, orders: seq<Order>) {
    Fidelity.SymbolsDiffer(orders) && forall o :: o in orders ==> Toward(b, o)
  }

  ghost predicate Approaching(trade: Trader) {
    forall b, env :: Proper(b, env) ==> Approaches(b, trade(b, env))
  }

  /** The book after a cycle whose orders all fill in full. */
  function AfterCycle(trade: Trader, b: Book, env: Surroundings): Book {
    var orders := trade(b, env);
    At(b, FilledUpTo(b.positions, orders, |orders|))
  }

  function After(trade: Trader, b: Book, envs: seq<Surroundings>, k: nat): Book
    requires k <= |envs|
  {
    if k == 0 then b else AfterCycle(trade, After(trade, b, envs, k - 1), envs[k - 1])
  }

  predicate Trades(trade: Trader, b: Book, envs: seq<Surroundings>, k: nat)
    requires k < |envs|
  {
    trade(After(trade, b, envs, k), envs[k]) != []
  }

  lemma CycleShortens(trade: Trader, b: Book, env: Surroundings)
    requires Approaching(trade) && Proper(b, env)
    ensures var after := AfterCycle(trade, b, env);
            && Distance(after) <= Distance(b) - |trade(b, env)| as real
            && after.Valid() && LimitsAboveQuotes(after) && after.symbols == b.symbols
  {
    assert Approaches(b, trade(b, env));
    FillsShorten(b, trade(b, env), |trade(b, env)|);
  }

  /** Each trading cycle shortens the distance by at least one step. */
  lemma {:induction false} CyclesShorten(trade: Trader, b: Book, envs: seq<Surroundings>, k: nat)
    requires k <= |envs| && Approaching(trade) && b.Valid() && LimitsAboveQuotes(b)
    requires forall env :: env in envs ==> Enumerates(env.order, b.symbols)
    requires forall i :: 0 <= i < k ==> Trades(trade, b, envs, i)
    ensures var after := After(trade, b, envs, k);
            && Distance(after) <= Distance(b) - k as real
            && after.Valid() && LimitsAboveQuotes(after) && after.symbols == b.symbols
  {
    if k > 0 {
      CyclesShorten(trade, b, envs, k - 1);
      assert envs[k - 1] in envs && Trades(trade, b, envs, k - 1);
      CycleShortens(trade, After(trade, b, envs, k - 1), envs[k - 1]);
      assert |trade(After(trade, b, envs, k - 1), envs[k - 1])| >= 1;
    }
  }

  /** Convergence: in any sequence of cycles longer than the initial distance, whatever their
      iteration orders, reports, gates and cash, some cycle sends no order. */
  lemma SomeCycleIsQuiet(b: Book, envs: seq<Surroundings>)
    requires b.Valid() && LimitsAboveQuotes(b)
    requires forall env :: env in envs ==> Enumerates(env.order, b.symbols)
    requires |envs| as real > Distance(b)
    ensures exists k :: 0 <= k < |envs| && !Trades(Rebalancer(), b, envs, k)
  {
    RebalancerApproaches();
    var trade := Rebalancer();
    if forall k :: 0 <= k < |envs| ==> Trades(trade, b, envs, k) {
      CyclesShorten(trade, b, envs, |envs|);
      DistanceNotNegative(After(trade, b, envs, |envs|));
    }
  }

  /** What is left when a cycle whose buys are not deferred sends no order: every quoted symbol is at most the
      threshold above its target or less than one step above it; and every quoted target is at most the
      threshold below its target, has no usable limit, or lacks the budget or the shortfall for the minimum
      order or for one step. */
  lemma QuietMeansSettled(b: Book, env: Surroundings)
    requires b.Valid() && Enumerates(env.order, b.symbols) && CycleOrders(b, env) == []
    ensures forall s :: s in b.symbols && b.Price(s) > 0.0 ==> SellSettled(b, s)
    ensures var cycle := RunPasses(b, 0, env.order, env.mode, env.gates, env.readings);
            cycle.deferred.None? ==>
              forall s :: s in b.targets && b.Price(s) != 0.0 ==> BuySettled(b, s, Investable(cycle.buyingPower, b.reserved))
  {
    var cycle := RunPasses(b, 0, env.order, env.mode, env.gates, env.readings);
    var seller, budget := SellerOf(b, 0), Investable(cycle.buyingPower, b.reserved);
    Fidelity.CycleBuys(b, 0, env.order, env.mode, env.gates, env.readings);
    assert cycle.sells.orders == [];
    Fidelity.SellRunOrders(b, seller, env.order, |env.order|, env.mode);
    Planning.SellsSomething(seller, env.order, b.symbols);
    forall s | s in b.symbols && b.Price(s) > 0.0 ensures SellSettled(b, s) {
      SellsExactly(b, s);
    }
    if cycle.deferred.None? {
      Planning.NothingBoughtSoFar(b, BuyerOf(b), cycle.sells, |b.targetOrder|, budget, env.mode);
      forall s | s in b.targets && b.Price(s) != 0.0 ensures BuySettled(b, s, budget) {
        assert s in Elements(b.targetOrder);
        var i :| 0 <= i < |b.targetOrder| && b.targetOrder[i] == s;
        assert !BuyerOf(b)(b.targetOrder[i], budget).Buys?;
        BuysExactly(b, s, budget);
      }
    }
  }

  predicate SellSettled(b: Book, s: Symbol) {
    || b.Current(s) <= b.Target(s) + b.threshold
    || b.Current(s) - Max(0.0, b.Target(s)) < Notional(b.step, b.Price(s))
  }

  predicate BuySettled(b: Book, s: Symbol, budget: real) {
    var value := Min(b.Target(s) - b.Current(s), budget * 0.95);
    || b.Target(s) - b.threshold <= b.Current(s)
    || b.limitOf(s) <= 0.0
    || value < b.minNotional
    || value < Notional(b.step, b.limitOf(s))
  }

  lemma RebalancerApproaches()
    ensures Approaching(Rebalancer())
  {
    forall b, env | Proper(b, env) ensures Approaches(b, Rebalancer()(b, env)) {
      CycleMovesToward(b, env);
    }
  }
}
