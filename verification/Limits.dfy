/** What the ledger does not promise, with inputs, and the exact conditions under which it does: the reserve
    of an account that starts in debt, and the two passes and the option pass taken together. */
module Limits {
  import opened Quantity
  import opened Sums
  import opened Orders
  import opened Allocator
  import opened Passes
  import Ledger
  import OptionPass

  // ------------------------------------------------------------- a small market

  const OLD := Ticker("OLD")
  const NEW := Ticker("NEW")

  /** A market scaled by v: OLD is quoted at v and no longer wanted, NEW is quoted at v / 2 and wanted for v. */
  function Market(v: real, reserved: real, shares: real): Book {
    Book({OLD, NEW}, [NEW], map[NEW := v], map[OLD := v, NEW := v / 2.0], map[OLD := shares],
         (s: Symbol) => v / 2.0, 0.0, 0.0, 1.0, reserved, None)
  }

  const VISITS := [OLD, NEW]

  lemma MarketIsProper(v: real, reserved: real, shares: real)
    requires v > 0.0 && reserved >= 0.0
    ensures Market(v, reserved, shares).Valid() && Market(v, reserved, shares).Quoted()
    ensures Enumerates(VISITS, Market(v, reserved, shares).symbols)
  {
    assert Elements([NEW]) == {NEW};
    assert Elements(VISITS) == {OLD, NEW};
  }

  /** With a budget of v one share of NEW is bought. */
  lemma BuysOne(v: real, reserved: real, shares: real)
    requires v > 0.0
    ensures DecideBuy(Market(v, reserved, shares), NEW, v) == Buys(1.0, v / 2.0)
  {
    var b := Market(v, reserved, shares);
    var d := DecideBuy(b, NEW, v);
    assert Notional(0.0, v / 2.0) == 0.0 && Notional(1.0, v / 2.0) == v / 2.0 && Notional(2.0, v / 2.0) == v;
    BuysExactly(b, NEW, v);
    BuyBounds(b, NEW, v);
    var k: int :| d.quantity == Lots(k, 1.0);
    if k >= 2 {
      NotionalLess(2.0, d.quantity, v / 2.0);
    }
  }

  lemma SellsWhatIsHeld(v: real, reserved: real)
    requires v > 0.0
    ensures DecideSell(Market(v, reserved, 1.0), 0, OLD) == Sells(1.0)
    ensures DecideSell(Market(v, reserved, 1.0), 0, NEW) == Keep
    ensures DecideSell(Market(v, reserved, 0.0), 0, OLD) == Keep
    ensures DecideSell(Market(v, reserved, 0.0), 0, NEW) == Keep
  {
    assert Notional(1.0, v) == v && Notional(0.0, v) == 0.0 && Notional(0.0, v / 2.0) == 0.0;
    FloorIsLargest(1.0, 1.0, 1);
    assert Lots(1, 1.0) == 1.0;
  }

  const OPEN := Gates(false, false, true)

  // -------------------------------------------------------------- starting in debt

  /** Everything a cycle of the ledger theorem ranges over besides the starting cash. */
  datatype Trial = Trial(b: Book, sweep: nat, order: seq<Symbol>, broker: Broker, gates: Gates, r: Readings, moves: Ledger.Settlement)
  {
    ghost function Cycle(): Cycle {
      RunPasses(b, sweep, order, Live(broker), gates, r)
    }

    ghost function AfterSells(cash: real): real {
      Ledger.CashAfter(cash, moves, Cycle().sells.trace)
    }

    ghost function AfterBuys(cash: real): real {
      Ledger.CashAfter(cash, moves, Cycle().run.trace)
    }
  }

  /** A proper cash-only cycle with honest reports, whose cash reads are the true cash of the moment. */
  ghost predicate Sound(t: Trial, cash: real) {
    && t.b.Valid() && t.b.Quoted() && Enumerates(t.order, t.b.symbols)
    && t.gates.cashOnly && Ledger.Honest(t.b, t.moves)
    && t.r.before == Some(cash) && t.r.after == Some(t.AfterSells(cash)) && t.r.gate == Some(t.AfterSells(cash))
  }

  ghost predicate KeepsReserve(t: Trial, cash: real) {
    t.AfterBuys(cash) >= Min(t.AfterSells(cash), t.b.reserved)
  }

  /** The reports and settlements say the same: everything fills in full, sells at v and buys at their limit. */
  function Fills(v: real): Broker {
    (n: nat, o: Order) => Report(FilledStatus, o.quantity, o.quantity, if o.side == Sell then v else o.limit)
  }

  function Settles(b: Book): Ledger.Settlement {
    (e: Entry) => if e.Skipped? then 0.0 else if e.order.side == Sell then ReleasedBy(b, e) else CommittedBy(e)
  }

  function DebtTrial(v: real): Trial {
    var b := Market(v, 0.0, 1.0);
    Trial(b, 0, VISITS, Fills(v), OPEN, Readings(Some(-v), Some(0.0), Some(0.0), 0.0), Settles(b))
  }

  function SoldEntry(v: real): Entry {
    Placed(Order(OLD, Sell, 1.0, 0.0), Reported(Report(FilledStatus, 1.0, 1.0, v)))
  }

  function BoughtEntry(v: real): Entry {
    Placed(Order(NEW, Buy, 1.0, v / 2.0), Reported(Report(FilledStatus, 1.0, 1.0, v / 2.0)))
  }

  lemma DebtSells(v: real)
    requires v > 0.0
    ensures var sells := DebtTrial(v).Cycle().sells;
            && sells.trace == [SoldEntry(v)] && sells.orders == [Order(OLD, Sell, 1.0, 0.0)]
            && sells.released == v && sells.sold
  {
    var t := DebtTrial(v);
    var seller, mode := SellerOf(t.b, 0), Live(t.broker);
    SellsWhatIsHeld(v, 0.0);
    assert Notional(1.0, v) == v;
    assert SellRun(t.b, seller, VISITS, 0, mode) == Idle();
    var one := SellRun(t.b, seller, VISITS, 1, mode);
    assert one == Log(t.b, Idle(), SoldEntry(v));
    assert SellRun(t.b, seller, VISITS, 2, mode) == one;
  }

  lemma DebtIsNotDeferred(v: real)
    requires v > 0.0
    ensures DebtTrial(v).Cycle().buyingPower == v && DebtTrial(v).Cycle().deferred == None
  {
    var t := DebtTrial(v);
    var seller, cycle := SellerOf(t.b, 0), t.Cycle();
    DebtSells(v);
    SellsWhatIsHeld(v, 0.0);
    assert cycle.buyingPower == v;
    assert PendingReleases(seller, t.b.symbols) == {} by {
      forall s | s in t.b.symbols ensures seller(s) != NoSell(QuantityZero) {
      }
    }
  }

  lemma DebtBuys(v: real)
    requires v > 0.0
    ensures var cycle := DebtTrial(v).Cycle();
            cycle.buyingPower == v && cycle.run.trace == [SoldEntry(v), BoughtEntry(v)]
  {
    var t := DebtTrial(v);
    var b, cycle := t.b, t.Cycle();
    DebtSells(v);
    DebtIsNotDeferred(v);
    BuysOne(v, 0.0, 1.0);
    assert Investable(v, 0.0) == v;
    var none := BuyRun(b, BuyerOf(b), cycle.sells, 0, v, Live(t.broker));
    assert none == cycle.sells.(left := v) && BuyerOf(b)(NEW, v) == Buys(1.0, v / 2.0);
    assert BuyRun(b, BuyerOf(b), cycle.sells, 1, v, Live(t.broker)) == Log(b, none, BoughtEntry(v));
  }

  lemma DebtNumbers(v: real, cash: real)
    requires v > 0.0 && cash == -v
    ensures var t := DebtTrial(v);
            && t.AfterSells(cash) == 0.0 && t.AfterBuys(cash) == cash / 2.0
            && Sound(t, cash) && t.b.reserved == 0.0
  {
    var t, sold, bought := DebtTrial(v), SoldEntry(v), BoughtEntry(v);
    MarketIsProper(v, 0.0, 1.0);
    DebtSells(v);
    DebtBuys(v);
    assert Notional(1.0, v) == v && Notional(1.0, v / 2.0) == v / 2.0;
    assert [] + [sold] == [sold] && [sold] + [bought] == [sold, bought];
    Ledger.CashAfterNext(cash, t.moves, [], sold);
    Ledger.CashAfterNext(cash, t.moves, [sold], bought);
  }

  lemma DebtTrialFails(v: real, cash: real) returns (t: Trial)
    requires v > 0.0 && cash == -v
    ensures Sound(t, cash) && t.b.reserved == 0.0
    ensures t.AfterSells(cash) == 0.0 && t.AfterBuys(cash) == cash / 2.0
    ensures !KeepsReserve(t, cash)
  {
    t := DebtTrial(v);
    DebtNumbers(v, cash);
  }

  /** For every debt there is a sound cycle that sells it off, sees no cash left, and still buys for half of it:
      the sale is counted on top of a cash read that was clamped at zero. */
  lemma DebtIsSpentAgain(cash: real) returns (t: Trial)
    requires cash < 0.0
    ensures Sound(t, cash) && t.b.reserved == 0.0
    ensures t.AfterSells(cash) == 0.0 && t.AfterBuys(cash) == cash / 2.0
    ensures !KeepsReserve(t, cash)
  {
    t := DebtTrialFails(-cash, cash);
  }

  /** A debt of 100 is sold off, and 50 is spent again. */
  lemma ADebtOfAHundred() returns (t: Trial)
    ensures Sound(t, -100.0) && t.AfterSells(-100.0) == 0.0 && t.AfterBuys(-100.0) == -50.0
  {
    t := DebtIsSpentAgain(-100.0);
  }

  lemma SoundKeepsReserve(t: Trial, cash: real)
    requires cash >= 0.0 && Sound(t, cash)
    ensures KeepsReserve(t, cash)
  {
    Ledger.CashStaysAboveReserve(t.b, t.sweep, t.order, t.broker, t.gates, t.r, cash, t.moves);
  }

  ghost predicate ReserveIsSafe(cash: real) {
    forall t :: Sound(t, cash) ==> KeepsReserve(t, cash)
  }

  /** The reserve is kept in every sound cycle exactly when the starting cash is not negative. */
  lemma ReserveIsKeptExactly(cash: real)
    ensures ReserveIsSafe(cash) <==> cash >= 0.0
  {
    if cash >= 0.0 {
      forall t | Sound(t, cash) ensures KeepsReserve(t, cash) {
        SoundKeepsReserve(t, cash);
      }
    } else {
      var t := DebtIsSpentAgain(cash);
      assert Sound(t, cash);
    }
  }

  // ------------------------------------------------- both passes and the options

  /** A cycle with its option pass, which starts from the buying power before the buys. */
  datatype Joint = Joint(
    b: Book, sweep: nat, order: seq<Symbol>, mode: Mode, gates: Gates, r: Readings,
    intents: seq<OptionIntent>, optionMode: OptionPass.OptionMode)
  {
    ghost function Cycle(): Cycle {
      RunPasses(b, sweep, order, mode, gates, r)
    }

    ghost function Options(): OptionPass.OptionRun {
      OptionPass.Run(intents, |intents|, Cycle().buyingPower, optionMode)
    }

    /** What the accepted equity buys and option orders commit together. */
    ghost function Total(): real {
      Ledger.Committed(Cycle().run.trace) + OptionPass.Charges(Options().accepted)
    }
  }

  predicate ChargesNothing(intents: seq<OptionIntent>) {
    forall i :: i in intents && OptionPass.Executable(i) ==> OptionPass.Charge(i) <= 0.0
  }

  lemma PowerIsNotNegative(mode: Mode, cashOnly: bool, released: real, sold: bool, r: Readings)
    ensures BuyingPower(mode, cashOnly, released, sold, r) >= 0.0
  {
  }

  lemma {:induction false} NoCharges(intents: seq<OptionIntent>, k: nat, power: real, mode: OptionPass.OptionMode)
    requires k <= |intents| && ChargesNothing(intents)
    ensures OptionPass.Charges(OptionPass.Run(intents, k, power, mode).accepted) <= 0.0
  {
    if k > 0 {
      NoCharges(intents, k - 1, power, mode);
      var run, i := OptionPass.Run(intents, k - 1, power, mode), intents[k - 1];
      assert i in intents;
      OptionPass.ChargesNext(run.accepted, i);
    }
  }

  /** The bound that always holds: together the passes commit at most the investable and the whole buying power. */
  lemma TogetherWithinBoth(j: Joint)
    ensures j.Total() <= Investable(j.Cycle().buyingPower, j.b.reserved) + j.Cycle().buyingPower
  {
    var sells := j.Cycle().sells;
    Ledger.CycleCommitsWithinBudget(j.b, j.sweep, j.order, j.mode, j.gates, j.r);
    PowerIsNotNegative(j.mode, j.gates.cashOnly, sells.released, sells.sold, j.r);
    OptionPass.OptionBudget(j.intents, |j.intents|, j.Cycle().buyingPower, j.optionMode);
  }

  /** The buying power bounds both together when no target is underweight, when no executable intent charges
      anything, or when the reserve is not below the buying power. */
  lemma TogetherWithinPower(j: Joint)
    requires j.b.reserved >= 0.0
    requires !NeedsBuy(j.b) || ChargesNothing(j.intents) || j.b.reserved >= j.Cycle().buyingPower
    ensures j.Total() <= j.Cycle().buyingPower
  {
    var sells := j.Cycle().sells;
    Ledger.CycleCommitsWithinBudget(j.b, j.sweep, j.order, j.mode, j.gates, j.r);
    PowerIsNotNegative(j.mode, j.gates.cashOnly, sells.released, sells.sold, j.r);
    OptionPass.OptionBudget(j.intents, |j.intents|, j.Cycle().buyingPower, j.optionMode);
    if ChargesNothing(j.intents) {
      NoCharges(j.intents, |j.intents|, j.Cycle().buyingPower, j.optionMode);
    }
  }

  /** They are bounded by it too when the options charge no more than the reserve and the buying power. */
  lemma TogetherWithinReserve(j: Joint)
    requires j.b.reserved >= 0.0
    requires OptionPass.Charges(j.Options().accepted) <= Min(j.b.reserved, j.Cycle().buyingPower)
    ensures j.Total() <= j.Cycle().buyingPower
  {
    Ledger.CycleCommitsWithinBudget(j.b, j.sweep, j.order, j.mode, j.gates, j.r);
  }

  // ---- a family of cycles that commits more

  /** A buy whose stated cap is 95 percent of what the i buys before it have left. */
  function Hungry(power: real, i: nat): OptionIntent {
    OptionIntent("SPX", true, SingleLeg, BuyToOpen, 1.0, 0.0, 0.0, 0.95 * Ledger.Decayed(power, i), 0.0)
  }

  function HungryIntents(power: real, n: nat): seq<OptionIntent> {
    seq(n, (i: nat) => Hungry(power, i))
  }

  lemma {:induction false} DecayedPositive(x: real, n: nat)
    requires x > 0.0
    ensures Ledger.Decayed(x, n) > 0.0
  {
    if n > 0 {
      DecayedPositive(x, n - 1);
    }
  }

  lemma {:induction false} HungryEatsAll(power: real, n: nat, k: nat)
    requires power > 0.0 && k <= n
    ensures var run := OptionPass.Run(HungryIntents(power, n), k, power, OptionPass.PreviewOptions);
            run.power == Ledger.Decayed(power, k) && |run.accepted| == k
  {
    if k > 0 {
      HungryEatsAll(power, n, k - 1);
      DecayedPositive(power, k - 1);
      var i := HungryIntents(power, n)[k - 1];
      assert i == Hungry(power, k - 1) && OptionPass.Executable(i);
      assert OptionPass.Charge(i) == 0.95 * Ledger.Decayed(power, k - 1);
      OptionPass.SendsExactly(i, Ledger.Decayed(power, k - 1));
    }
  }

  lemma {:induction false} DecayedShrinks(x: real, n: nat)
    requires x > 0.0
    ensures Notional((n + 1) as real, Ledger.Decayed(x, n)) <= x
  {
    if n == 0 {
      assert Notional(1.0, x) == x;
    } else {
      DecayedShrinks(x, n - 1);
      var d := Ledger.Decayed(x, n - 1);
      DecayedPositive(x, n - 1);
      NotionalPositive(n as real, d);
      assert Notional((n + 1) as real, 0.05 * d) == 0.05 * Notional(n as real, d) + 0.05 * d;
      NotionalLess(1.0, n as real, d);
      assert Notional(1.0, d) == d;
    }
  }

  /** The remainder falls below any positive amount. */
  lemma DecayedBelow(x: real, small: real) returns (n: nat)
    requires x > 0.0 && small > 0.0
    ensures Ledger.Decayed(x, n) < small
  {
    n := (x / small).Floor;
    DecayedShrinks(x, n);
    var d := Ledger.Decayed(x, n);
    NotionalOfQuotient(x, small);
    NotionalLess(x / small, (n + 1) as real, small);
    if d >= small {
      NotionalLessPrice((n + 1) as real, small, d);
      assert false;
    }
  }

  function Cashed(power: real): Readings {
    Readings(Some(power), Some(power), Some(power), 0.0)
  }

  /** One share of NEW bought with half the investable power, and n options with all but a trace of the power. */
  function HungryCycle(v: real, reserved: real, n: nat): Joint {
    var power := v + reserved;
    Joint(Market(v, reserved, 0.0), 0, VISITS, DryRun, OPEN, Cashed(power), HungryIntents(power, n), OptionPass.PreviewOptions)
  }

  lemma NoSells(v: real, reserved: real)
    requires v > 0.0
    ensures SellRun(Market(v, reserved, 0.0), SellerOf(Market(v, reserved, 0.0), 0), VISITS, 2, DryRun) == Idle()
  {
    var b := Market(v, reserved, 0.0);
    SellsWhatIsHeld(v, reserved);
    assert SellRun(b, SellerOf(b, 0), VISITS, 0, DryRun) == Idle();
    assert SellRun(b, SellerOf(b, 0), VISITS, 1, DryRun) == Idle();
  }

  lemma HungryEquities(v: real, reserved: real, n: nat)
    requires v > 0.0 && reserved >= 0.0
    ensures var cycle := HungryCycle(v, reserved, n).Cycle();
            cycle.buyingPower == v + reserved && Ledger.Committed(cycle.run.trace) == v / 2.0
  {
    var j := HungryCycle(v, reserved, n);
    var b, cycle := j.b, j.Cycle();
    NoSells(v, reserved);
    SellsWhatIsHeld(v, reserved);
    BuysOne(v, reserved, 0.0);
    assert cycle.buyingPower == v + reserved && Investable(v + reserved, reserved) == v;
    assert PendingReleases(SellerOf(b, 0), b.symbols) == {} by {
      forall s | s in b.symbols ensures SellerOf(b, 0)(s) != NoSell(QuantityZero) {
      }
    }
    assert cycle.deferred == None;
    var none, e := BuyRun(b, BuyerOf(b), cycle.sells, 0, v, DryRun), Placed(Order(NEW, Buy, 1.0, v / 2.0), Previewed);
    assert none == Idle().(left := v) && BuyerOf(b)(NEW, v) == Buys(1.0, v / 2.0);
    assert BuyRun(b, BuyerOf(b), cycle.sells, 1, v, DryRun) == Log(b, none, e);
    assert Notional(1.0, v / 2.0) == v / 2.0;
    Ledger.CommittedNext([], e);
  }

  /** What the family commits: half the investable power and all but a trace of the whole. */
  lemma HungryTotal(v: real, reserved: real, n: nat) returns (j: Joint)
    requires v > 0.0 && reserved >= 0.0
    ensures Begins(j, v + reserved, reserved)
    ensures j.Total() == v / 2.0 + (v + reserved) - Ledger.Decayed(v + reserved, n)
  {
    j := HungryCycle(v, reserved, n);
    var power := v + reserved;
    MarketIsProper(v, reserved, 0.0);
    HungryEquities(v, reserved, n);
    HungryEatsAll(power, n, n);
    OptionPass.OptionBudget(HungryIntents(power, n), n, power, OptionPass.PreviewOptions);
  }

  /** A proper cycle with this buying power and reserve. */
  ghost predicate Begins(j: Joint, power: real, reserved: real) {
    && j.b.Valid() && j.b.Quoted() && Enumerates(j.order, j.b.symbols)
    && j.b.reserved == reserved && j.Cycle().buyingPower == power
  }

  /** From a buying power of 200 and no reserve, 100 go into a share and 190 into an option. */
  lemma BothPassesSpendTheSameCash() returns (j: Joint)
    ensures Begins(j, 200.0, 0.0) && j.Total() == 290.0
  {
    j := HungryTotal(200.0, 0.0, 1);
    assert Ledger.Decayed(200.0, 1) == 0.05 * Ledger.Decayed(200.0, 0);
  }

  ghost predicate AlwaysWithinPower(power: real, reserved: real) {
    forall j :: Begins(j, power, reserved) ==> j.Total() <= power
  }

  /** For a given buying power and reserve both passes stay within the buying power, in every cycle, exactly
      when the reserve is not below the buying power. */
  lemma TogetherWithinPowerExactly(power: real, reserved: real)
    requires power >= 0.0 && reserved >= 0.0
    ensures AlwaysWithinPower(power, reserved) <==> reserved >= power
  {
    if reserved >= power {
      forall j | Begins(j, power, reserved) ensures j.Total() <= power {
        TogetherWithinPower(j);
      }
    } else {
      var v := power - reserved;
      var n := DecayedBelow(power, v / 2.0);
      var j := HungryTotal(v, reserved, n);
      assert v + reserved == power;
      assert Begins(j, power, reserved) && j.Total() > power;
    }
  }

  // ---- for given options

  /** A ladder of n wanted symbols: the i-th costs 95 percent of what the i before it leave of v. */
  function Rung(i: nat): Symbol {
    Ticker(seq(i, (k: nat) => 'X'))
  }

  function Rungs(n: nat): seq<Symbol> {
    seq(n, (i: nat) => Rung(i))
  }

  function RungCost(v: real, s: Symbol): real {
    0.95 * Ledger.Decayed(v, |s.name|)
  }

  function Ladder(v: real, reserved: real, n: nat): Book {
    var values := map s | s in Rungs(n) :: RungCost(v, s);
    Book(values.Keys, Rungs(n), values, values, map[], (s: Symbol) => RungCost(v, s), 0.0, 0.0, 1.0, reserved, None)
  }

  lemma RungsDiffer(n: nat)
    ensures Distinct(Rungs(n))
  {
    forall i, j | 0 <= i < j < n ensures Rungs(n)[i] != Rungs(n)[j] {
      assert |Rung(i).name| == i && |Rung(j).name| == j;
    }
  }

  lemma LadderIsProper(v: real, reserved: real, n: nat)
    requires v > 0.0 && reserved >= 0.0
    ensures Ladder(v, reserved, n).Valid() && Ladder(v, reserved, n).Quoted()
    ensures Enumerates(Rungs(n), Ladder(v, reserved, n).symbols)
  {
    RungsDiffer(n);
    forall s | s in Rungs(n) ensures RungCost(v, s) >= 0.0 {
      DecayedPositive(v, |s.name|);
    }
  }

  lemma LadderBuys(v: real, reserved: real, n: nat, i: nat)
    requires v > 0.0 && i < n
    ensures DecideBuy(Ladder(v, reserved, n), Rung(i), Ledger.Decayed(v, i)) == Buys(1.0, 0.95 * Ledger.Decayed(v, i))
  {
    var b, s, left := Ladder(v, reserved, n), Rung(i), Ledger.Decayed(v, i);
    var limit := 0.95 * left;
    DecayedPositive(v, i);
    assert Rungs(n)[i] == s && s in Rungs(n) && |s.name| == i;
    assert b.Price(s) == b.Target(s) == b.limitOf(s) == limit;
    assert Notional(0.0, limit) == 0.0 && Notional(1.0, limit) == limit;
    BuysExactly(b, s, left);
    BuyBounds(b, s, left);
    NotionalLess(DecideBuy(b, s, left).quantity, 1.0, limit);
  }

  lemma LadderKeeps(v: real, reserved: real, n: nat, s: Symbol)
    requires v > 0.0
    ensures DecideSell(Ladder(v, reserved, n), 0, s) == Keep
  {
    var b := Ladder(v, reserved, n);
    DecayedPositive(v, |s.name|);
    assert Notional(0.0, b.Price(s)) == 0.0;
  }

  /** A seller that keeps everything sends nothing. */
  lemma {:induction false} KeepersSendNothing(b: Book, decide: Seller, order: seq<Symbol>, k: nat, mode: Mode)
    requires k <= |order| && forall s :: decide(s) == Keep
    ensures SellRun(b, decide, order, k, mode) == Idle()
  {
    if k > 0 {
      KeepersSendNothing(b, decide, order, k - 1, mode);
    }
  }

  /** A buyer that takes 95 percent of the budget at every target. */
  ghost predicate TakesAll(b: Book, decide: Buyer, v: real) {
    forall i: nat :: i < |b.targetOrder| ==>
      decide(b.targetOrder[i], Ledger.Decayed(v, i)) == Buys(1.0, 0.95 * Ledger.Decayed(v, i))
  }

  lemma {:induction false} TakersLeaveATrace(b: Book, decide: Buyer, sells: Run, k: nat, v: real)
    requires k <= |b.targetOrder| && TakesAll(b, decide, v)
    ensures BuyRun(b, decide, sells, k, v, DryRun).left == Ledger.Decayed(v, k)
  {
    if k > 0 {
      TakersLeaveATrace(b, decide, sells, k - 1, v);
      assert Notional(1.0, 0.95 * Ledger.Decayed(v, k - 1)) == 0.95 * Ledger.Decayed(v, k - 1);
    }
  }

  function LadderCycle(v: real, reserved: real, n: nat, intents: seq<OptionIntent>, optionMode: OptionPass.OptionMode): Joint {
    Joint(Ladder(v, reserved, n), 0, Rungs(n), DryRun, OPEN, Cashed(v + reserved), intents, optionMode)
  }

  lemma LadderSells(v: real, reserved: real, n: nat)
    requires v > 0.0
    ensures var b := Ladder(v, reserved, n);
            SellRun(b, SellerOf(b, 0), Rungs(n), n, DryRun) == Idle() && PendingReleases(SellerOf(b, 0), b.symbols) == {}
  {
    var b := Ladder(v, reserved, n);
    forall s ensures SellerOf(b, 0)(s) == Keep {
      LadderKeeps(v, reserved, n, s);
    }
    KeepersSendNothing(b, SellerOf(b, 0), Rungs(n), n, DryRun);
  }

  lemma LadderTakesAll(v: real, reserved: real, n: nat)
    requires v > 0.0
    ensures TakesAll(Ladder(v, reserved, n), BuyerOf(Ladder(v, reserved, n)), v)
  {
    var b := Ladder(v, reserved, n);
    forall i: nat | i < |b.targetOrder|
      ensures BuyerOf(b)(b.targetOrder[i], Ledger.Decayed(v, i)) == Buys(1.0, 0.95 * Ledger.Decayed(v, i))
    {
      LadderBuys(v, reserved, n, i);
    }
  }

  lemma LadderIsOpen(v: real, reserved: real, n: nat, intents: seq<OptionIntent>, optionMode: OptionPass.OptionMode)
    requires v > 0.0 && reserved >= 0.0
    ensures var cycle := LadderCycle(v, reserved, n, intents, optionMode).Cycle();
            cycle.sells == Idle() && cycle.buyingPower == v + reserved && cycle.deferred == None
  {
    LadderSells(v, reserved, n);
  }

  lemma TakersCommit(b: Book, sells: Run, v: real)
    requires TakesAll(b, BuyerOf(b), v) && Ledger.Committed(sells.trace) == 0.0
    ensures Ledger.Committed(BuyPhase(b, sells, None, v, DryRun).trace) == v - Ledger.Decayed(v, |b.targetOrder|)
  {
    TakersLeaveATrace(b, BuyerOf(b), sells, |b.targetOrder|, v);
    Ledger.BuysCommitTheBudget(b, BuyerOf(b), sells, |b.targetOrder|, v, DryRun);
  }

  lemma LadderCommits(v: real, reserved: real, n: nat, intents: seq<OptionIntent>, optionMode: OptionPass.OptionMode)
    requires v > 0.0 && reserved >= 0.0
    ensures var cycle := LadderCycle(v, reserved, n, intents, optionMode).Cycle();
            cycle.buyingPower == v + reserved && Ledger.Committed(cycle.run.trace) == v - Ledger.Decayed(v, n)
  {
    var j := LadderCycle(v, reserved, n, intents, optionMode);
    LadderIsOpen(v, reserved, n, intents, optionMode);
    LadderTakesAll(v, reserved, n);
    TakersCommit(j.b, Idle(), v);
    assert Investable(v + reserved, reserved) == v;
    assert j.Cycle().run == BuyPhase(j.b, Idle(), None, v, DryRun);
  }

  /** Cycles with these options commit all but a trace of the investable power besides what the options charge. */
  lemma LadderTotal(v: real, reserved: real, n: nat, intents: seq<OptionIntent>, optionMode: OptionPass.OptionMode)
    returns (j: Joint)
    requires v > 0.0 && reserved >= 0.0
    ensures Begins(j, v + reserved, reserved) && j.intents == intents && j.optionMode == optionMode
    ensures j.Total() == v - Ledger.Decayed(v, n)
                       + OptionPass.Charges(OptionPass.Run(intents, |intents|, v + reserved, optionMode).accepted)
  {
    j := LadderCycle(v, reserved, n, intents, optionMode);
    LadderIsProper(v, reserved, n);
    LadderCommits(v, reserved, n, intents, optionMode);
  }

  ghost predicate AlwaysWithinPowerWith(intents: seq<OptionIntent>, optionMode: OptionPass.OptionMode, power: real, reserved: real) {
    forall j :: Begins(j, power, reserved) && j.intents == intents && j.optionMode == optionMode ==> j.Total() <= power
  }

  /** For given options, buying power and reserve both passes stay within the buying power, in every cycle,
      exactly when the options charge no more than the reserve and the buying power. */
  lemma TogetherWithOptionsExactly(intents: seq<OptionIntent>, optionMode: OptionPass.OptionMode, power: real, reserved: real)
    requires power >= 0.0 && reserved >= 0.0
    ensures var charges := OptionPass.Charges(OptionPass.Run(intents, |intents|, power, optionMode).accepted);
            AlwaysWithinPowerWith(intents, optionMode, power, reserved) <==> charges <= Min(reserved, power)
  {
    var charges := OptionPass.Charges(OptionPass.Run(intents, |intents|, power, optionMode).accepted);
    OptionPass.OptionBudget(intents, |intents|, power, optionMode);
    if charges <= Min(reserved, power) {
      forall j | Begins(j, power, reserved) && j.intents == intents && j.optionMode == optionMode ensures j.Total() <= power {
        TogetherWithinReserve(j);
      }
    } else {
      var v := power - reserved;
      var n := DecayedBelow(v, charges - reserved);
      var j := LadderTotal(v, reserved, n, intents, optionMode);
      assert v + reserved == power;
      assert Begins(j, power, reserved) && j.Total() > power;
    }
  }

  // ---- cash after both

  /** The cash the accepted option orders cost, in order. */
  function Costs(cost: OptionIntent -> real, accepted: seq<OptionIntent>): real {
    if accepted == [] then 0.0 else Costs(cost, accepted[..|accepted| - 1]) + cost(accepted[|accepted| - 1])
  }

  lemma {:induction false} CostsWithinCharges(cost: OptionIntent -> real, accepted: seq<OptionIntent>)
    requires forall i :: i in accepted ==> cost(i) <= OptionPass.Charge(i)
    ensures Costs(cost, accepted) <= OptionPass.Charges(accepted)
  {
    if accepted != [] {
      CostsWithinCharges(cost, accepted[..|accepted| - 1]);
    }
  }

  /** Cash after both passes and the options, when no option asked for costs more than its charge: at most the
      investable and the whole buying power is gone from the cash after the sells; and an account is not
      overdrawn beyond its starting debt when both together stay within the buying power. */
  lemma CashAfterAll(b: Book, sweep: nat, order: seq<Symbol>, broker: Broker, gates: Gates, r: Readings,
                     cash: real, moves: Ledger.Settlement,
                     intents: seq<OptionIntent>, optionMode: OptionPass.OptionMode, cost: OptionIntent -> real)
    requires b.reserved >= 0.0 && gates.cashOnly && Ledger.Honest(b, moves)
    requires Anticipated(r) <= Max(0.0, cash)
    requires var sells := RunPasses(b, sweep, order, Live(broker), gates, r).sells;
             Available(r.after, r.fallback) <= Max(0.0, Ledger.CashAfter(cash, moves, sells.trace))
    requires forall i :: i in intents ==> cost(i) <= OptionPass.Charge(i)
    ensures var j := Joint(b, sweep, order, Live(broker), gates, r, intents, optionMode);
            var cycle := j.Cycle();
            var afterSells := Ledger.CashAfter(cash, moves, cycle.sells.trace);
            var left := Ledger.CashAfter(cash, moves, cycle.run.trace) - Costs(cost, j.Options().accepted);
            && left >= afterSells - Investable(cycle.buyingPower, b.reserved) - cycle.buyingPower
            && (j.Total() <= cycle.buyingPower ==> left >= -Max(0.0, -cash))
  {
    var j := Joint(b, sweep, order, Live(broker), gates, r, intents, optionMode);
    var cycle := j.Cycle();
    var afterSells := Ledger.CashAfter(cash, moves, cycle.sells.trace);
    Ledger.SellsReleaseWithinCash(b, SellerOf(b, sweep), order, |order|, broker, cash, moves);
    Ledger.PowerWithinCash(broker, cycle.sells.released, cycle.sells.sold, r, cash, afterSells);
    forall i | i in j.Options().accepted ensures i in intents {
      OptionPass.AcceptedWereAsked(intents, |intents|, cycle.buyingPower, optionMode, i);
    }
    CostsWithinCharges(cost, j.Options().accepted);
    TogetherWithinBoth(j);
    EquitiesCostTheirCommitment(b, sweep, order, broker, gates, r, cash, moves);
  }

  lemma EquitiesCostTheirCommitment(b: Book, sweep: nat, order: seq<Symbol>, broker: Broker, gates: Gates, r: Readings,
                                    cash: real, moves: Ledger.Settlement)
    requires Ledger.Honest(b, moves)
    ensures var cycle := RunPasses(b, sweep, order, Live(broker), gates, r);
            Ledger.CashAfter(cash, moves, cycle.sells.trace) - Ledger.CashAfter(cash, moves, cycle.run.trace)
            <= Ledger.Committed(cycle.run.trace)
  {
    var cycle, mode := RunPasses(b, sweep, order, Live(broker), gates, r), Live(broker);
    Ledger.SellsCommitNothing(b, SellerOf(b, sweep), order, |order|, mode);
    if cycle.deferred.Some? {
      Ledger.DeferredCostsNothing(b, cycle.sells, |b.targetOrder|, cycle.deferred.value, cash, moves);
      Ledger.DeferredCommitsNothing(b, cycle.sells, |b.targetOrder|, cycle.deferred.value);
    } else {
      var budget := Investable(cycle.buyingPower, b.reserved);
      Ledger.BuysCostWithinBudget(b, BuyerOf(b), cycle.sells, |b.targetOrder|, budget, broker, cash, moves);
      Ledger.BuysCommitTheBudget(b, BuyerOf(b), cycle.sells, |b.targetOrder|, budget, mode);
    }
  }
}
