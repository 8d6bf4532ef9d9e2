/** When the rotation guard's estimate divides by zero: the exact condition on a cycle, and an input. */
module RotationGuard {
  import opened Quantity
  import opened Sums
  import opened Orders
  import opened Allocator
  import opened Passes
  import Fidelity
  import Planning
  import Rebalance

  /** An underweight, quoted target whose limit rounds to zero and whose shortfall reaches the minimum order. */
  predicate ZeroLimit(b: Book, s: Symbol) {
    b.Underweight(s) && b.Price(s) != 0.0 && b.limitOf(s) == 0.0 && b.minNotional <= b.Target(s) - b.Current(s)
  }

  /** A cash-only cycle that no earlier gate stops, with cash locked in an excess below one step, and a target of
      that kind. */
  ghost predicate CanRaise(b: Book, sweep: nat, gates: Gates) {
    && gates.cashOnly && !gates.smallAccountWarning && !gates.newRiskProhibited
    && PendingReleases(SellerOf(b, sweep), b.symbols) != {}
    && exists i :: 0 <= i < |b.targetOrder| && ZeroLimit(b, b.targetOrder[i])
  }

  ghost predicate Raises(b: Book, sweep: nat, order: seq<Symbol>, mode: Mode, gates: Gates, r: Readings) {
    RunPasses(b, sweep, order, mode, gates, r).deferred == Some(EstimateError)
  }

  lemma RaisesOnlyIf(b: Book, sweep: nat, order: seq<Symbol>, mode: Mode, gates: Gates, r: Readings)
    requires Raises(b, sweep, order, mode, gates, r)
    ensures CanRaise(b, sweep, gates)
  {
    var cycle := RunPasses(b, sweep, order, mode, gates, r);
    var budget := Investable(cycle.buyingPower, b.reserved);
    var i :| 0 <= i < |b.targetOrder| && EstimateDivides(b, b.targetOrder[i], budget);
    assert ZeroLimit(b, b.targetOrder[i]);
  }

  /** Cash reads that all show the same amount. */
  function Steady(cash: real): Readings {
    Readings(Some(cash), Some(cash), Some(cash), 0.0)
  }

  lemma PowerOfSteady(mode: Mode, released: real, sold: bool, cash: real)
    requires cash >= 0.0
    ensures BuyingPower(mode, true, released, sold, Steady(cash)) >= cash - Abs(released)
  {
  }

  /** Enough cash for a shortfall, whatever the sells and the reserve take. */
  lemma EnoughCash(shortfall: real, released: real, reserved: real, power: real, cash: real)
    requires cash == Abs(shortfall) + Abs(released) + Abs(reserved) && power >= cash - Abs(released)
    ensures shortfall <= Investable(power, reserved)
  {
  }

  lemma RaisesIf(b: Book, sweep: nat, order: seq<Symbol>, mode: Mode, gates: Gates) returns (r: Readings)
    requires CanRaise(b, sweep, gates)
    ensures Raises(b, sweep, order, mode, gates, r)
  {
    var i :| 0 <= i < |b.targetOrder| && ZeroLimit(b, b.targetOrder[i]);
    var s, sells := b.targetOrder[i], SellRun(b, SellerOf(b, sweep), order, |order|, mode);
    var shortfall := b.Target(s) - b.Current(s);
    var cash := Abs(shortfall) + Abs(sells.released) + Abs(b.reserved);
    r := Steady(cash);
    var power := BuyingPower(mode, true, sells.released, sells.sold, r);
    PowerOfSteady(mode, sells.released, sells.sold, cash);
    EnoughCash(shortfall, sells.released, b.reserved, power, cash);
    assert s in b.targetOrder;
    assert EstimateDivides(b, b.targetOrder[i], Investable(power, b.reserved));
  }

  /** For some cash reads the cycle ends with the estimate's error exactly when it is cash-only, neither the small
      account nor the new-risk gate defers its buys, cash is locked in an excess below one step, and some
      underweight, quoted target has a zero limit and a shortfall of at least the minimum order. */
  lemma RaisesExactly(b: Book, sweep: nat, order: seq<Symbol>, mode: Mode, gates: Gates)
    ensures (exists r :: Raises(b, sweep, order, mode, gates, r)) <==> CanRaise(b, sweep, gates)
  {
    if r :| Raises(b, sweep, order, mode, gates, r) {
      RaisesOnlyIf(b, sweep, order, mode, gates, r);
    }
    if CanRaise(b, sweep, gates) {
      var r := RaisesIf(b, sweep, order, mode, gates);
    }
  }

  // ----------------------------------------------------------------- an input

  const OLD := Ticker("OLD")
  const MID := Ticker("MID")
  const NEW := Ticker("NEW")

  /** Half a share of OLD too much; MID wanted at 10; NEW wanted at a quote whose limit rounds to zero. */
  function PennyBook(): Book {
    Book({OLD, MID, NEW}, [OLD, MID, NEW], map[OLD := 50.0, MID := 100.0, NEW := 100.0],
         map[OLD := 100.0, MID := 10.0, NEW := 0.004], map[OLD := 1.0],
         (s: Symbol) => if s == OLD then 100.0 else if s == MID then 10.0 else 0.0,
         0.0, 0.0, 1.0, 0.0, None)
  }

  const OPEN := Gates(false, false, true)

  lemma PennyIsProper()
    ensures PennyBook().Valid() && PennyBook().Quoted()
  {
    assert Elements([OLD, MID, NEW]) == {OLD, MID, NEW};
  }

  lemma PennySells()
    ensures var b := PennyBook();
            && DecideSell(b, 0, OLD) == NoSell(QuantityZero)
            && DecideSell(b, 0, MID) == Keep && DecideSell(b, 0, NEW) == Keep
  {
    var b := PennyBook();
    assert Notional(1.0, 100.0) == 100.0 && Notional(0.0, 10.0) == 0.0 && Notional(0.0, 0.004) == 0.0;
    SellsExactly(b, OLD);
  }

  lemma PennyBuysMid()
    ensures DecideBuy(PennyBook(), MID, 200.0).Buys?
  {
    var b := PennyBook();
    assert b.Current(MID) == Notional(0.0, 10.0) == 0.0;
    assert b.Target(MID) == 100.0 && b.limitOf(MID) == 10.0 && b.Price(MID) == 10.0;
    assert Notional(1.0, 10.0) == 10.0;
    BuysExactly(b, MID, 200.0);
  }

  lemma PlannedByOne(b: Book, s: Symbol, investable: real)
    requires s in b.targets && investable >= 0.0 && b.minNotional >= 0.0 && DecideBuy(b, s, investable).Buys?
    ensures Planning.BuyPlanned(b, investable)
  {
    Planning.PlanBuyAgrees(b, s, investable);
  }

  lemma PennyPlansABuy()
    ensures Planning.BuyPlanned(PennyBook(), 200.0)
  {
    PennyBuysMid();
    PlannedByOne(PennyBook(), MID, 200.0);
  }

  lemma PennyDivides()
    ensures EstimateRaises(PennyBook(), 3, 200.0) && NeedsBuy(PennyBook())
  {
    var b := PennyBook();
    assert Notional(0.0, 0.004) == 0.0;
    assert b.targetOrder[2] == NEW && EstimateDivides(b, NEW, 200.0);
    assert NEW in b.targetOrder;
  }

  /** A cycle that plans a buy, is let through by every guard, and ends in the estimate's error: from a planning
      read of 200, in any visiting order, dry or live, whatever is read later. */
  lemma APennyQuoteEndsTheCycle(order: seq<Symbol>, mode: Mode, r: Readings, intents: seq<OptionIntent>)
    requires Enumerates(order, {OLD, MID, NEW}) && r.before == Some(200.0)
    ensures PennyBook().Valid() && PennyBook().Quoted()
    ensures Rebalance.Stopped(PennyBook(), OPEN, r, intents,
                              Rebalance.Guards(false, 300.0, 100.0, false, false, false, false, false)) == None
    ensures Planning.SweepQuantity(PennyBook(), false, 200.0) == 0
    ensures Raises(PennyBook(), 0, order, mode, OPEN, r)
  {
    var b := PennyBook();
    PennyIsProper();
    PennyPlansABuy();
    PennyDivides();
    assert Anticipated(r) == 200.0 && Investable(200.0, 0.0) == 200.0;
    NothingSold(order, mode);
    PennySells();
    PowerUnsold(mode, r);
    LocksCash(SellerOf(b, 0), b.symbols, OLD);
  }

  lemma PowerUnsold(mode: Mode, r: Readings)
    ensures BuyingPower(mode, true, 0.0, false, r) == Anticipated(r)
  {
  }

  lemma LocksCash(decide: Seller, symbols: set<Symbol>, s: Symbol)
    requires s in symbols && decide(s) == NoSell(QuantityZero)
    ensures PendingReleases(decide, symbols) != {}
  {
    assert s in PendingReleases(decide, symbols);
  }

  lemma NothingSold(order: seq<Symbol>, mode: Mode)
    requires Enumerates(order, {OLD, MID, NEW})
    ensures var sells := SellRun(PennyBook(), SellerOf(PennyBook(), 0), order, |order|, mode);
            sells.released == 0.0 && !sells.sold
  {
    var b := PennyBook();
    PennySells();
    Fidelity.SellRunOrders(b, SellerOf(b, 0), order, |order|, mode);
    Planning.SellsSomething(SellerOf(b, 0), order, b.symbols);
    Planning.NoSellsNoRelease(b, SellerOf(b, 0), order, |order|, mode);
  }
}
