/** The per-symbol decisions of a rebalance: how much to sell, how much to buy, and why not. */
module Allocator {
  import opened Quantity
  import opened Sums
  import opened Orders

  /** Everything the passes of one cycle hold fixed. */
  datatype Book = Book(
    symbols: set<Symbol>,           // traded symbols: targets and positions inside the strategy universe
    targetOrder: seq<Symbol>,       // insertion order of the target values
    targets: map<Symbol, real>,
    prices: map<Symbol, real>,
    positions: map<Symbol, real>,
    limitOf: Symbol -> real,        // limit price of a buy at the current quote
    threshold: real,
    minNotional: real,
    step: Step,
    reserved: real,
    safeHaven: Option<Symbol>)
  {
    function Price(s: Symbol): real {
      if s in prices then prices[s] else 0.0
    }

    function Held(s: Symbol): real {
      if s in positions then positions[s] else 0.0
    }

    function Current(s: Symbol): real {
      if s in symbols then Notional(Held(s), Price(s)) else 0.0
    }

    function Target(s: Symbol): real {
      if s in targets then targets[s] else 0.0
    }

    predicate Overweight(s: Symbol) {
      Current(s) > Target(s) + threshold
    }

    predicate Underweight(s: Symbol) {
      Current(s) < Target(s) - threshold
    }

    /** What the source establishes before planning: quotes are asked for the traded
        symbols only, the order lists the targets, and the floors are clamped. */
    ghost predicate Valid() {
      && minNotional >= 0.0
      && reserved >= 0.0
      && prices.Keys <= symbols
      && Enumerates(targetOrder, targets.Keys)
    }

    /** No quote is negative; a quote of zero counts as missing. */
    ghost predicate Quoted() {
      forall s :: s in prices ==> prices[s] >= 0.0
    }
  }

  function Investable(buyingPower: real, reserved: real): real {
    Max(0.0, buyingPower - Max(0.0, reserved))
  }

  // ---------------------------------------------------------------- selling

  function SellQuantity(current: real, target: real, price: real, position: real, step: Step): (q: real)
    ensures q == 0.0 || (0.0 < Max(0.0, position) && 0.0 <= q <= position)
    ensures IsMultiple(q, step)
  {
    ZeroIsMultiple(step);
    var held := Max(0.0, position);
    if held <= 0.0 then 0.0
    else if Max(0.0, target) <= 0.0 then FloorToStep(held, step)
    else
      var excess := Max(0.0, current - Max(0.0, target));
      if excess <= 0.0 || price <= 0.0 then 0.0
      else
        QuotientMonotone(0.0, excess, price);
        FloorToStep(Min(excess / price, held), step)
  }

  lemma ZeroIsMultiple(step: Step)
    ensures IsMultiple(0.0, step)
  {
    assert Lots(0, step) == 0.0;
  }

  datatype SellDecision = Keep | NoSell(reason: SkipReason) | Sells(quantity: real)

  function RegularSell(b: Book, s: Symbol): real
  {
    SellQuantity(b.Current(s), b.Target(s), b.Price(s), b.Held(s), b.step)
  }

  /** The sell pass at one symbol; sweep is the safe-haven quantity chosen by the plan.
      A swept quantity is positive, so it never falls through to the zero-quantity skip. */
  function DecideSell(b: Book, sweep: nat, s: Symbol): SellDecision
  {
    if b.safeHaven == Some(s) && sweep > 0 then
      if b.Price(s) == 0.0 then NoSell(MissingPrice)
      else Sells(Max(sweep as real, Truncate(RegularSell(b, s)) as real))
    else if b.Overweight(s) then
      if b.Price(s) == 0.0 then NoSell(MissingPrice)
      else if RegularSell(b, s) <= 0.0 then NoSell(QuantityZero)
      else Sells(RegularSell(b, s))
    else Keep
  }

  // ----------------------------------------------------------------- buying

  function PlannedBuyQuantity(value: real, limit: real, step: Step): (q: real)
    ensures q > 0.0 ==> limit > 0.0 && Notional(q, limit) <= value
    ensures IsMultiple(q, step)
  {
    ZeroIsMultiple(step);
    if limit <= 0.0 then 0.0
    else
      var q := FloorToStep(value / limit, step);
      CostWithin(q, value, limit);
      q
  }

  datatype BuyDecision = Leave | NoBuy(reason: SkipReason) | Buys(quantity: real, limit: real)

  /** The buy pass at one symbol with the investable budget that is left. */
  function DecideBuy(b: Book, s: Symbol, budget: real): BuyDecision
  {
    if !b.Underweight(s) then Leave
    else
      var value := Min(b.Target(s) - b.Current(s), budget * 0.95);
      var limit := b.limitOf(s);
      var planned := PlannedBuyQuantity(value, limit, b.step);
      if b.Price(s) == 0.0 then NoBuy(MissingPrice)
      else if value < b.minNotional then NoBuy(MinNotional)
      else if planned <= 0.0 then NoBuy(QuantityZero)
      else
        var q := if Notional(planned, limit) > budget then FloorToStep(budget / limit, b.step) else planned;
        if q <= 0.0 || Notional(q, limit) > budget then NoBuy(InsufficientBuyingPower)
        else Buys(q, limit)
  }

  /** A buy spends at most 95 percent of the budget and at most the shortfall, in whole steps;
      the second rounding and the last budget check of the source are never reached. */
  lemma BuyBounds(b: Book, s: Symbol, budget: real)
    requires budget >= 0.0
    ensures var d := DecideBuy(b, s, budget);
            && d != NoBuy(InsufficientBuyingPower)
            && (d.Buys? ==>
                && d.limit == b.limitOf(s) > 0.0
                && b.step <= d.quantity && IsMultiple(d.quantity, b.step)
                && 0.0 < Notional(d.quantity, d.limit) <= budget * 0.95
                && Notional(d.quantity, d.limit) <= b.Target(s) - b.Current(s)
                && b.Underweight(s) && b.Price(s) != 0.0)
  {
    var d := DecideBuy(b, s, budget);
    if b.Underweight(s) {
      var value := Min(b.Target(s) - b.Current(s), budget * 0.95);
      var planned := PlannedBuyQuantity(value, b.limitOf(s), b.step);
      if planned > 0.0 {
        PositiveMultiple(planned, b.step);
        NotionalPositive(planned, b.limitOf(s));
      }
    }
  }

  /** Less budget never buys more. */
  lemma BuyMonotone(b: Book, s: Symbol, less: real, more: real)
    requires 0.0 <= less <= more
    requires DecideBuy(b, s, less).Buys?
    ensures DecideBuy(b, s, more).Buys?
    ensures DecideBuy(b, s, less).quantity <= DecideBuy(b, s, more).quantity
  {
    BuyBounds(b, s, less);
    BuyBounds(b, s, more);
    var limit := b.limitOf(s);
    var v := Min(b.Target(s) - b.Current(s), less * 0.95);
    var w := Min(b.Target(s) - b.Current(s), more * 0.95);
    QuotientMonotone(v, w, limit);
    FloorMonotone(v / limit, w / limit, b.step);
  }

  // ------------------------------------------------------------ sell safety

  /** A regular sell closes the overweight to within one step at the quote, from above. */
  lemma SellLeavesLessThanOneStep(b: Book, s: Symbol)
    requires b.Price(s) > 0.0 && s in b.symbols
    requires DecideSell(b, 0, s).Sells?
    ensures var q := DecideSell(b, 0, s).quantity;
            var left := Notional(b.Held(s) - q, b.Price(s)) - Max(0.0, b.Target(s));
            && 0.0 <= left < Notional(b.step, b.Price(s))
            && b.step <= q && IsMultiple(q, b.step)
  {
    var p, h, t := b.Price(s), b.Held(s), Max(0.0, b.Target(s));
    var q := RegularSell(b, s);
    PositiveMultiple(q, b.step);
    NotionalAdds(h, q, p);
    NotionalAdds(q, b.step, p);
    if t <= 0.0 {
      NotionalLess(q, h, p);
      NotionalLess(h, q + b.step, p);
    } else {
      var excess := b.Current(s) - t;
      CostWithin(h, excess, p);
      CostWithin(q, excess, p);
      CostWithin(q + b.step, excess, p);
    }
  }

  /** Without a positive target less than one step of the holding is left, whatever the quote and the value;
      with one, nothing is sold without a quote. */
  lemma Liquidates(current: real, target: real, price: real, position: real, step: Step)
    ensures var q := SellQuantity(current, target, price, position, step);
            && (target <= 0.0 < position ==> position - step < q <= position)
            && (target > 0.0 && price <= 0.0 ==> q == 0.0)
  {
  }

  lemma StepFits(x: real, step: Step)
    ensures FloorToStep(x, step) > 0.0 <==> step <= x
  {
    assert Lots(1, step) == step && Lots(0, step) == 0.0;
    FloorIsLargest(x, step, 1);
    if FloorToStep(x, step) > 0.0 {
      PositiveMultiple(FloorToStep(x, step), step);
    }
  }

  /** A quoted symbol is sold exactly when it is overweight by the threshold and the excess over
      max(0, target) is worth at least one step. */
  lemma SellsExactly(b: Book, s: Symbol)
    requires b.Price(s) > 0.0 && s in b.symbols
    ensures DecideSell(b, 0, s).Sells?
       <==> b.Overweight(s) && Notional(b.step, b.Price(s)) <= b.Current(s) - Max(0.0, b.Target(s))
  {
    var p, h, t := b.Price(s), b.Held(s), Max(0.0, b.Target(s));
    var excess := b.Current(s) - t;
    CostWithin(b.step, excess, p);
    NotionalLess(b.step, h, p);
    NotionalPositive(h, p);
    NotionalPositive(b.step, p);
    StepFits(h, b.step);
    StepFits(Min(excess / p, h), b.step);
  }

  /** With a non-negative budget a symbol is bought exactly when it is underweight by the threshold, has a
      quote and a limit, and the smaller of the shortfall and 95 percent of the budget reaches the minimum
      order and pays for one step; what it buys leaves less than one step of that value. */
  lemma BuysExactly(b: Book, s: Symbol, budget: real)
    requires budget >= 0.0
    ensures var value, limit, d := Min(b.Target(s) - b.Current(s), budget * 0.95), b.limitOf(s), DecideBuy(b, s, budget);
            && (d.Buys? <==> && b.Underweight(s) && b.Price(s) != 0.0 && limit > 0.0
                             && b.minNotional <= value && Notional(b.step, limit) <= value)
            && (d.Buys? ==> Notional(d.quantity, limit) <= value < Notional(d.quantity + b.step, limit))
  {
    BuyBounds(b, s, budget);
    var value, limit := Min(b.Target(s) - b.Current(s), budget * 0.95), b.limitOf(s);
    if limit > 0.0 {
      StepFits(value / limit, b.step);
      CostWithin(b.step, value, limit);
      var q := PlannedBuyQuantity(value, limit, b.step);
      CostWithin(q + b.step, value, limit);
    }
  }

  /** No symbol is both sold and bought, whatever the threshold and the budget. */
  lemma SidesAreDisjoint(b: Book, s: Symbol, budget: real)
    requires budget >= 0.0 && b.Price(s) > 0.0 && s in b.symbols
    ensures !(DecideSell(b, 0, s).Sells? && DecideBuy(b, s, budget).Buys?)
  {
    if DecideSell(b, 0, s).Sells? && DecideBuy(b, s, budget).Buys? {
      SellLeavesLessThanOneStep(b, s);
      BuyBounds(b, s, budget);
      var q := DecideSell(b, 0, s).quantity;
      NotionalAdds(b.Held(s), q, b.Price(s));
      NotionalPositive(q, b.Price(s));
      assert false;
    }
  }
}
