/** The dry planning pass, and how exactly it foretells the sell and buy passes. */
module Planning {
  import opened Quantity
  import opened Sums
  import opened Orders
  import opened Allocator
  import opened Passes
  import Ledger
  import Fidelity

  // --------------------------------------------------------- planned decisions

  /** The planning loop at one target; unlike the pass it tells an empty purse apart. */
  function PlanBuy(b: Book, s: Symbol, investable: real): BuyDecision {
    if !b.Underweight(s) then Leave
    else
      var value := Min(b.Target(s) - b.Current(s), investable * 0.95);
      var limit := b.limitOf(s);
      var q := PlannedBuyQuantity(value, limit, b.step);
      if b.Price(s) == 0.0 then NoBuy(MissingPrice)
      else if value <= 0.0 then NoBuy(InsufficientBuyingPower)
      else if value < b.minNotional then NoBuy(MinNotional)
      else if q > 0.0 then Buys(q, limit)
      else NoBuy(QuantityZero)
  }

  /** The plan and the pass agree on what is buyable with the same budget. */
  lemma PlanBuyAgrees(b: Book, s: Symbol, investable: real)
    requires investable >= 0.0 && b.minNotional >= 0.0
    ensures PlanBuy(b, s, investable).Buys? <==> DecideBuy(b, s, investable).Buys?
    ensures PlanBuy(b, s, investable).Buys? ==> PlanBuy(b, s, investable) == DecideBuy(b, s, investable)
  {
    BuyBounds(b, s, investable);
    var value := Min(b.Target(s) - b.Current(s), investable * 0.95);
    var q := PlannedBuyQuantity(value, b.limitOf(s), b.step);
    if q > 0.0 {
      NotionalPositive(q, b.limitOf(s));
    }
  }

  ghost predicate SellPlanned(b: Book) {
    exists s :: s in b.symbols && DecideSell(b, 0, s).Sells?
  }

  ghost predicate BuyPlanned(b: Book, investable: real) {
    exists s :: s in b.targets && PlanBuy(b, s, investable).Buys?
  }

  // ----------------------------------------------------------- cash sweep

  predicate Candidate(b: Book, s: Symbol) {
    && b.safeHaven != Some(s)
    && b.Underweight(s)
    && Abs(b.Target(s) - b.Current(s)) > b.minNotional
  }

  /** Limit prices of the quoted buy candidates among the first k targets. */
  function FundingNeeds(b: Book, k: nat): seq<real>
    requires k <= |b.targetOrder|
  {
    if k == 0 then []
    else
      var s := b.targetOrder[k - 1];
      FundingNeeds(b, k - 1) + if Candidate(b, s) && b.Price(s) > 0.0 then [b.limitOf(s)] else []
  }

  /** The first need that is priced and not beyond reach decides: it must be out of reach
      without the sweep. */
  predicate SweepHelps(capacity: real, power: real, needs: seq<real>) {
    exists k :: 0 <= k < |needs| && FirstReachable(capacity, power, needs, k) && power < needs[k]
  }

  predicate FirstReachable(capacity: real, power: real, needs: seq<real>, k: nat)
    requires k < |needs|
  {
    0.0 < needs[k] <= power + capacity && forall j :: 0 <= j < k ==> needs[j] <= 0.0 || power + capacity < needs[j]
  }

  method ShouldSweep(capacity: real, power: real, needs: seq<real>) returns (sweep: bool)
    requires capacity > 0.0 && power >= 0.0
    ensures sweep <==> SweepHelps(capacity, power, needs)
  {
    for i := 0 to |needs|
      invariant forall j :: 0 <= j < i ==> needs[j] <= 0.0 || power + capacity < needs[j]
    {
      if needs[i] <= 0.0 {
        continue;
      }
      if power >= needs[i] {
        return false;
      }
      if power + capacity >= needs[i] {
        assert FirstReachable(capacity, power, needs, i);
        return true;
      }
    }
    return false;
  }

  /** How much of the safe haven the plan sells to fund a buy; nothing beside a regular sell. */
  ghost function SweepQuantity(b: Book, prohibited: bool, investable: real): nat {
    if SellPlanned(b) || prohibited || b.safeHaven.None? then 0
    else
      var haven := b.safeHaven.value;
      var quantity := Truncate(b.Held(haven));
      if b.Price(haven) <= 0.0 || b.Held(haven) <= 0.0 || quantity <= 0 then 0
      else if SweepHelps(Notional(quantity as real, b.Price(haven)), investable, FundingNeeds(b, |b.targetOrder|))
      then quantity
      else 0
  }

  /** A sweep sells the whole units of the holding of a quoted safe haven. */
  lemma SweepIsHeld(b: Book, prohibited: bool, investable: real)
    requires b.prices.Keys <= b.symbols
    ensures var sweep := SweepQuantity(b, prohibited, investable);
            sweep > 0 ==>
              && b.safeHaven.Some? && b.safeHaven.value in b.symbols && b.Price(b.safeHaven.value) > 0.0
              && sweep as real <= b.Held(b.safeHaven.value) < sweep as real + 1.0
              && !SellPlanned(b)
  {
  }

  // ---- when the plan sweeps, and what for

  /** Target i wants more than the threshold and the minimum order, is not the haven, has a quote and a positive
      limit, and is within reach of the power and the capacity together. */
  predicate Reachable(b: Book, capacity: real, power: real, i: nat)
    requires i < |b.targetOrder|
  {
    var s := b.targetOrder[i];
    && b.safeHaven != Some(s) && b.Price(s) > 0.0
    && b.Target(s) - b.Current(s) > b.threshold && Abs(b.Target(s) - b.Current(s)) > b.minNotional
    && 0.0 < b.limitOf(s) <= power + capacity
  }

  /** The first target in reach is out of reach without the sweep. */
  ghost predicate Funds(b: Book, capacity: real, power: real, k: nat)
    requires k <= |b.targetOrder|
  {
    exists i: nat :: i < k && FirstInReach(b, capacity, power, i) && power < b.limitOf(b.targetOrder[i])
  }

  predicate FirstInReach(b: Book, capacity: real, power: real, i: nat)
    requires i < |b.targetOrder|
  {
    Reachable(b, capacity, power, i) && forall j: nat :: j < i ==> !Reachable(b, capacity, power, j)
  }

  predicate NoneReachable(b: Book, capacity: real, power: real, k: nat)
    requires k <= |b.targetOrder|
  {
    forall j: nat :: j < k ==> !Reachable(b, capacity, power, j)
  }

  predicate NoneInReach(capacity: real, power: real, needs: seq<real>) {
    forall j :: 0 <= j < |needs| ==> needs[j] <= 0.0 || power + capacity < needs[j]
  }

  lemma {:induction false} NoNeedInReach(b: Book, capacity: real, power: real, k: nat)
    requires k <= |b.targetOrder|
    ensures NoneInReach(capacity, power, FundingNeeds(b, k)) <==> NoneReachable(b, capacity, power, k)
  {
    if k > 0 {
      NoNeedInReach(b, capacity, power, k - 1);
      var before, needs := FundingNeeds(b, k - 1), FundingNeeds(b, k);
      assert NoneReachable(b, capacity, power, k)
        <==> NoneReachable(b, capacity, power, k - 1) && !Reachable(b, capacity, power, k - 1);
      if |needs| > |before| {
        assert needs[..|before|] == before;
        assert NoneInReach(capacity, power, needs)
          <==> NoneInReach(capacity, power, before) && (needs[|before|] <= 0.0 || power + capacity < needs[|before|]);
      }
    }
  }

  lemma HelpsNext(capacity: real, power: real, needs: seq<real>, x: real)
    ensures SweepHelps(capacity, power, needs + [x])
       <==> SweepHelps(capacity, power, needs)
            || (NoneInReach(capacity, power, needs) && 0.0 < x <= power + capacity && power < x)
  {
    var all := needs + [x];
    assert forall j :: 0 <= j < |needs| ==> all[j] == needs[j];
    if k :| 0 <= k < |all| && FirstReachable(capacity, power, all, k) && power < all[k] {
      if k < |needs| {
        forall j | 0 <= j < k ensures needs[j] <= 0.0 || power + capacity < needs[j] {
          assert all[j] == needs[j];
        }
        assert FirstReachable(capacity, power, needs, k);
      } else {
        forall j | 0 <= j < |needs| ensures needs[j] <= 0.0 || power + capacity < needs[j] {
          assert all[j] == needs[j];
        }
      }
    }
    if k :| 0 <= k < |needs| && FirstReachable(capacity, power, needs, k) && power < needs[k] {
      assert FirstReachable(capacity, power, all, k) && power < all[k];
    }
    if NoneInReach(capacity, power, needs) && 0.0 < x <= power + capacity && power < x {
      assert FirstReachable(capacity, power, all, |needs|) && power < all[|needs|];
    }
  }

  lemma FundsNext(b: Book, capacity: real, power: real, k: nat, next: nat)
    requires k < |b.targetOrder| && next == k + 1
    ensures Funds(b, capacity, power, next)
       <==> Funds(b, capacity, power, k)
            || (NoneReachable(b, capacity, power, k) && Reachable(b, capacity, power, k) && power < b.limitOf(b.targetOrder[k]))
  {
    if NoneReachable(b, capacity, power, k) && Reachable(b, capacity, power, k) && power < b.limitOf(b.targetOrder[k]) {
      assert FirstInReach(b, capacity, power, k);
    }
  }

  lemma {:induction false} HelpsIsFunds(b: Book, capacity: real, power: real, k: nat)
    requires k <= |b.targetOrder|
    ensures SweepHelps(capacity, power, FundingNeeds(b, k)) <==> Funds(b, capacity, power, k)
  {
    if k > 0 {
      HelpsIsFunds(b, capacity, power, k - 1);
      NoNeedInReach(b, capacity, power, k - 1);
      FundsNext(b, capacity, power, k - 1, k);
      var s := b.targetOrder[k - 1];
      assert Reachable(b, capacity, power, k - 1)
        <==> Candidate(b, s) && b.Price(s) > 0.0 && 0.0 < b.limitOf(s) <= power + capacity;
      if Candidate(b, s) && b.Price(s) > 0.0 {
        HelpsNext(capacity, power, FundingNeeds(b, k - 1), b.limitOf(s));
        assert FundingNeeds(b, k) == FundingNeeds(b, k - 1) + [b.limitOf(s)];
      } else {
        assert FundingNeeds(b, k) == FundingNeeds(b, k - 1) + [] == FundingNeeds(b, k - 1);
      }
    }
  }

  /** The plan sweeps exactly when no regular sell is planned, new risk is not prohibited, a whole unit of a quoted
      haven is held, and the first target in reach of power and haven together is out of reach of the power alone;
      it then sweeps every whole unit. */
  lemma SweepsExactly(b: Book, prohibited: bool, investable: real)
    ensures var sweep := SweepQuantity(b, prohibited, investable);
            (sweep > 0 <==>
               && (forall s :: s in b.symbols ==> !DecideSell(b, 0, s).Sells?) && !prohibited
               && b.safeHaven.Some? && b.Price(b.safeHaven.value) > 0.0 && b.Held(b.safeHaven.value) >= 1.0
               && Funds(b, Notional(WholeUnits(b.Held(b.safeHaven.value)), b.Price(b.safeHaven.value)), investable, |b.targetOrder|))
    ensures SweepQuantity(b, prohibited, investable) > 0 ==>
              SweepQuantity(b, prohibited, investable) as real == WholeUnits(b.Held(b.safeHaven.value))
  {
    if b.safeHaven.Some? {
      var haven := b.safeHaven.value;
      HelpsIsFunds(b, Notional(Truncate(b.Held(haven)) as real, b.Price(haven)), investable, |b.targetOrder|);
    }
  }

  /** The largest whole number that is not above a non-negative holding. */
  function WholeUnits(held: real): (units: real)
    ensures held >= 0.0 ==> units <= held < units + 1.0
  {
    held.Floor as real
  }

  /** The pass sells the swept haven in exactly the planned quantity. */
  lemma SweepIsSold(b: Book, order: seq<Symbol>, mode: Mode, gates: Gates, r: Readings, prohibited: bool, investable: real)
    requires b.prices.Keys <= b.symbols && Enumerates(order, b.symbols)
    requires SweepQuantity(b, prohibited, investable) > 0
    ensures var sweep := SweepQuantity(b, prohibited, investable);
            var sells := RunPasses(b, sweep, order, mode, gates, r).sells.orders;
            && (forall o :: o in sells && o.symbol == b.safeHaven.value ==> o.quantity == sweep as real)
            && (exists o :: o in sells && o.symbol == b.safeHaven.value && o.side == Sell)
  {
    var sweep := SweepQuantity(b, prohibited, investable);
    var seller, haven := SellerOf(b, sweep), b.safeHaven.value;
    SweepIsHeld(b, prohibited, investable);
    SweptDecision(b, sweep, haven);
    Fidelity.SellRunOrders(b, seller, order, |order|, mode);
    Fidelity.SellOrdersExact(seller, order, b.symbols);
    var o := Order(haven, Sell, seller(haven).quantity, 0.0);
    assert Fidelity.IsSell(seller, o) && o.symbol in b.symbols;
    assert o in Fidelity.SellOrders(seller, order, |order|);
  }

  lemma SweptDecision(b: Book, sweep: nat, haven: Symbol)
    requires b.safeHaven == Some(haven) && sweep > 0 && b.Price(haven) > 0.0
    requires sweep as real <= b.Held(haven) < sweep as real + 1.0
    ensures DecideSell(b, sweep, haven) == Sells(sweep as real)
  {
    TruncateWithin(RegularSell(b, haven), sweep);
  }

  lemma TruncateWithin(x: real, n: nat)
    requires 0.0 <= x < n as real + 1.0
    ensures Truncate(x) <= n
  {
  }

  /** What the sweep is for: at the quote the swept units and the power cover the limit of the first target in
      reach, which the power alone does not. */
  lemma SweepCoversTheNeed(b: Book, prohibited: bool, investable: real)
    requires SweepQuantity(b, prohibited, investable) > 0
    ensures var sweep := SweepQuantity(b, prohibited, investable);
            var capacity := Notional(sweep as real, b.Price(b.safeHaven.value));
            exists i: nat :: i < |b.targetOrder| && FirstInReach(b, capacity, investable, i)
              && investable < b.limitOf(b.targetOrder[i]) <= investable + capacity
  {
    SweepsExactly(b, prohibited, investable);
    var sweep := SweepQuantity(b, prohibited, investable);
    var capacity := Notional(sweep as real, b.Price(b.safeHaven.value));
    var i: nat :| i < |b.targetOrder| && FirstInReach(b, capacity, investable, i) && investable < b.limitOf(b.targetOrder[i]);
  }

  /** And over a cycle: filled at the quote, with the reserve covered before, the budget of the buy pass covers that
      limit too. */
  lemma SweptBudgetCovers(b: Book, order: seq<Symbol>, mode: Mode, gates: Gates, r: Readings) returns (i: nat)
    requires b.Valid() && b.Quoted() && Enumerates(order, b.symbols)
    requires SweepQuantity(b, gates.newRiskProhibited, Investable(Anticipated(r), b.reserved)) > 0
    requires gates.cashOnly && Fidelity.FillsSellsAtQuote(b, mode)
    requires b.reserved <= Anticipated(r)
    ensures var investable := Investable(Anticipated(r), b.reserved);
            var sweep := SweepQuantity(b, gates.newRiskProhibited, investable);
            && i < |b.targetOrder|
            && FirstInReach(b, Notional(sweep as real, b.Price(b.safeHaven.value)), investable, i)
            && investable < b.limitOf(b.targetOrder[i])
               <= Investable(RunPasses(b, sweep, order, mode, gates, r).buyingPower, b.reserved)
  {
    var investable := Investable(Anticipated(r), b.reserved);
    var sweep := SweepQuantity(b, gates.newRiskProhibited, investable);
    var capacity := Notional(sweep as real, b.Price(b.safeHaven.value));
    SweepIsHeld(b, gates.newRiskProhibited, investable);
    SweepCoversTheNeed(b, gates.newRiskProhibited, investable);
    i :| i < |b.targetOrder| && FirstInReach(b, capacity, investable, i)
         && investable < b.limitOf(b.targetOrder[i]) <= investable + capacity;
    SweepReleases(b, sweep, order, mode);
    var sells := SellRun(b, SellerOf(b, sweep), order, |order|, mode);
    PowerWithSales(mode, sells.released, sells.sold, r);
  }

  lemma PowerWithSales(mode: Mode, released: real, sold: bool, r: Readings)
    requires released > 0.0 && sold
    ensures BuyingPower(mode, true, released, sold, r) >= Anticipated(r) + released
  {
  }

  /** The sells of a cycle with a sweep release at least the swept value. */
  lemma SweepReleases(b: Book, sweep: nat, order: seq<Symbol>, mode: Mode)
    requires b.Quoted() && Enumerates(order, b.symbols) && Fidelity.FillsSellsAtQuote(b, mode)
    requires sweep > 0 && b.safeHaven.Some? && b.safeHaven.value in b.symbols
    requires b.Price(b.safeHaven.value) > 0.0
    requires sweep as real <= b.Held(b.safeHaven.value) < sweep as real + 1.0
    ensures var run := SellRun(b, SellerOf(b, sweep), order, |order|, mode);
            run.sold && run.released >= Notional(sweep as real, b.Price(b.safeHaven.value)) > 0.0
  {
    var seller, haven := SellerOf(b, sweep), b.safeHaven.value;
    var value := Fidelity.SellValue(b, seller);
    Fidelity.BookSellsQuoted(b, sweep);
    Fidelity.SellRunReleases(b, seller, order, |order|, mode);
    assert order[..|order|] == order;
    SumOfEnumeration(order, b.symbols, value);
    SumRemove(b.symbols, value, haven);
    forall s | s in b.symbols - {haven} ensures value(s) >= 0.0 {
      if seller(s).Sells? {
        NotionalPositive(seller(s).quantity, b.Price(s));
      }
    }
    SumNonNegative(b.symbols - {haven}, value);
    SweptDecision(b, sweep, haven);
    NotionalPositive(sweep as real, b.Price(haven));
  }

  // ---- where a sweep does not reach

  /** Ten of a haven at 100, on target, and one share of NEW wanted at 1000. */
  function HavenBook(reserved: real): Book {
    var haven, wanted := Ticker("BIL"), Ticker("NEW");
    Book({haven, wanted}, [haven, wanted], map[haven := 1000.0, wanted := 1000.0], map[haven := 100.0, wanted := 1000.0],
         map[haven := 10.0], (s: Symbol) => if s == haven then 100.0 else 1000.0, 0.0, 0.0, 1.0, reserved, Some(haven))
  }

  lemma HavenIsSwept(reserved: real)
    ensures SweepQuantity(HavenBook(reserved), false, 0.0) == 10
  {
    var b, haven, wanted := HavenBook(reserved), Ticker("BIL"), Ticker("NEW");
    assert Notional(10.0, 100.0) == 1000.0 && Notional(0.0, 1000.0) == 0.0;
    assert b.Current(haven) == 1000.0 && b.Current(wanted) == 0.0;
    assert DecideSell(b, 0, haven) == Keep && DecideSell(b, 0, wanted) == Keep;
    assert !Reachable(b, 1000.0, 0.0, 0) && Reachable(b, 1000.0, 0.0, 1);
    assert FirstInReach(b, 1000.0, 0.0, 1);
    assert WholeUnits(10.0) == 10.0;
    SweepsExactly(b, false, 0.0);
  }

  /** A sweep covers the limit with the whole power, but the pass spends 95 percent: ten units are swept for one
      share at 1000, and with the proceeds of 1000 nothing is bought. */
  lemma ASweepThatBuysNothing()
    ensures var b := HavenBook(0.0);
            && SweepQuantity(b, false, 0.0) == 10 && Notional(10.0, 100.0) == 1000.0
            && !DecideBuy(b, Ticker("NEW"), 1000.0).Buys? && !DecideBuy(b, Ticker("BIL"), 1000.0).Buys?
  {
    var b := HavenBook(0.0);
    HavenIsSwept(0.0);
    assert Notional(1.0, 1000.0) == 1000.0 && Notional(10.0, 100.0) == 1000.0;
    BuysExactly(b, Ticker("NEW"), 1000.0);
    BuysExactly(b, Ticker("BIL"), 1000.0);
  }

  /** Nor does it count an uncovered reserve: with no cash and a reserve of 100 the proceeds leave 900 to invest. */
  lemma ASweepBelowTheReserve()
    ensures SweepQuantity(HavenBook(100.0), false, Investable(0.0, 100.0)) == 10
    ensures Investable(0.0 + Notional(10.0, 100.0), 100.0) == 900.0
  {
    HavenIsSwept(100.0);
    assert Notional(10.0, 100.0) == 1000.0;
  }

  // ------------------------------------------------------------ no-op verdict

  datatype NoOpReason =
    | BelowThreshold
    | MissingPrices(symbols: set<Symbol>)
    | NoBuyingPower(symbols: set<Symbol>)
    | BelowMinNotional(symbols: set<Symbol>)
    | ZeroQuantity(symbols: set<Symbol>)
  {
    /** Missing data and an empty purse block the cycle; the other reasons are a plain no-op. */
    predicate Blocks() {
      MissingPrices? || NoBuyingPower?
    }
  }

  ghost function SellsSkipped(b: Book, reason: SkipReason): set<Symbol> {
    set s | s in b.symbols && DecideSell(b, 0, s) == NoSell(reason)
  }

  ghost function BuysSkipped(b: Book, investable: real, reason: SkipReason): set<Symbol> {
    set s | s in b.targets && PlanBuy(b, s, investable) == NoBuy(reason)
  }

  function FirstReason(missing: set<Symbol>, insufficient: set<Symbol>, small: set<Symbol>, zero: set<Symbol>): NoOpReason {
    if missing != {} then MissingPrices(missing)
    else if insufficient != {} then NoBuyingPower(insufficient)
    else if small != {} then BelowMinNotional(small)
    else if zero != {} then ZeroQuantity(zero)
    else BelowThreshold
  }

  /** Why a cycle without a plan does nothing: a function of the book alone. */
  ghost function NoOpVerdict(b: Book, investable: real): NoOpReason {
    FirstReason(
      SellsSkipped(b, MissingPrice) + BuysSkipped(b, investable, MissingPrice),
      BuysSkipped(b, investable, InsufficientBuyingPower),
      BuysSkipped(b, investable, MinNotional),
      SellsSkipped(b, QuantityZero) + BuysSkipped(b, investable, QuantityZero))
  }

  // ---- what the reasons mean

  /** A symbol that would trade but has no quote. */
  ghost predicate Unquoted(b: Book) {
    || (exists s :: s in b.symbols && b.Overweight(s) && b.Price(s) == 0.0)
    || (exists s :: s in b.targets && b.Underweight(s) && b.Price(s) == 0.0)
  }

  /** A wanted, quoted target with nothing to spend on it. */
  ghost predicate Penniless(b: Book, investable: real) {
    exists s :: s in b.targets && b.Underweight(s) && b.Price(s) != 0.0 && Min(b.Target(s) - b.Current(s), investable * 0.95) <= 0.0
  }

  /** A wanted, quoted target with something to spend, below the minimum order. */
  ghost predicate Trifling(b: Book, investable: real) {
    exists s :: s in b.targets && b.Underweight(s) && b.Price(s) != 0.0
             && 0.0 < Min(b.Target(s) - b.Current(s), investable * 0.95) < b.minNotional
  }

  /** Every traded symbol and every target is within the threshold. */
  ghost predicate Balanced(b: Book) {
    (forall s :: s in b.symbols ==> !b.Overweight(s)) && (forall s :: s in b.targets ==> !b.Underweight(s))
  }

  lemma UnquotedIsSkipped(b: Book, investable: real)
    ensures SellsSkipped(b, MissingPrice) + BuysSkipped(b, investable, MissingPrice) != {} <==> Unquoted(b)
  {
    var unsold, unbought := SellsSkipped(b, MissingPrice), BuysSkipped(b, investable, MissingPrice);
    if s :| s in b.symbols && b.Overweight(s) && b.Price(s) == 0.0 {
      assert s in unsold;
    }
    if s :| s in b.targets && b.Underweight(s) && b.Price(s) == 0.0 {
      assert s in unbought;
    }
    if s :| s in unsold + unbought {
      assert s in unsold || s in unbought;
    }
  }

  lemma PennilessIsSkipped(b: Book, investable: real)
    ensures BuysSkipped(b, investable, InsufficientBuyingPower) != {} <==> Penniless(b, investable)
  {
    if s :| s in b.targets && b.Underweight(s) && b.Price(s) != 0.0 && Min(b.Target(s) - b.Current(s), investable * 0.95) <= 0.0 {
      assert s in BuysSkipped(b, investable, InsufficientBuyingPower);
    }
  }

  lemma TriflingIsSkipped(b: Book, investable: real)
    ensures BuysSkipped(b, investable, MinNotional) != {} <==> Trifling(b, investable)
  {
    if s :| s in b.targets && b.Underweight(s) && b.Price(s) != 0.0
            && 0.0 < Min(b.Target(s) - b.Current(s), investable * 0.95) < b.minNotional {
      assert s in BuysSkipped(b, investable, MinNotional);
    }
  }

  /** Without a plan, the below-threshold reason means that nothing is out of balance. */
  lemma NothingToReport(b: Book, investable: real)
    requires !SellPlanned(b) && !BuyPlanned(b, investable)
    ensures NoOpVerdict(b, investable) == BelowThreshold <==> Balanced(b)
  {
    forall s | s in b.symbols && b.Overweight(s)
      ensures s in SellsSkipped(b, MissingPrice) || s in SellsSkipped(b, QuantityZero)
    {
      assert !DecideSell(b, 0, s).Sells?;
    }
    forall s | s in b.targets && b.Underweight(s)
      ensures exists why :: s in BuysSkipped(b, investable, why) && why in {MissingPrice, InsufficientBuyingPower, MinNotional, QuantityZero}
    {
      assert !PlanBuy(b, s, investable).Buys?;
      assert s in BuysSkipped(b, investable, PlanBuy(b, s, investable).reason);
    }
  }

  /** The reason of a cycle without a plan: a missing quote first, then an empty purse, then the minimum order,
      then quantities that round to zero, and balance last; the first two block the cycle. */
  lemma ReasonIsExact(b: Book, investable: real)
    requires !SellPlanned(b) && !BuyPlanned(b, investable)
    ensures var reason := NoOpVerdict(b, investable);
            && (reason.MissingPrices? <==> Unquoted(b))
            && (reason.NoBuyingPower? <==> !Unquoted(b) && Penniless(b, investable))
            && (reason.BelowMinNotional? <==> !Unquoted(b) && !Penniless(b, investable) && Trifling(b, investable))
            && (reason == BelowThreshold <==> Balanced(b))
            && (reason.Blocks() <==> Unquoted(b) || Penniless(b, investable))
  {
    UnquotedIsSkipped(b, investable);
    PennilessIsSkipped(b, investable);
    TriflingIsSkipped(b, investable);
    NothingToReport(b, investable);
  }

  datatype RebalancePlan = RebalancePlan(sell: bool, sweep: nat, buy: bool, reason: NoOpReason)

  /** The planning loop over the traded symbols; it stops at the first sell. */
  method PlanSells(b: Book, order: seq<Symbol>) returns (found: bool, missing: set<Symbol>, zero: set<Symbol>)
    requires Enumerates(order, b.symbols)
    ensures found <==> SellPlanned(b)
    ensures !found ==> missing == SellsSkipped(b, MissingPrice) && zero == SellsSkipped(b, QuantityZero)
  {
    missing, zero := {}, {};
    for i := 0 to |order|
      invariant forall s :: s in order[..i] ==> !DecideSell(b, 0, s).Sells?
      invariant missing == set s | s in order[..i] && DecideSell(b, 0, s) == NoSell(MissingPrice)
      invariant zero == set s | s in order[..i] && DecideSell(b, 0, s) == NoSell(QuantityZero)
    {
      var s := order[i];
      PrefixNext(order, i);
      assert s in Elements(order);
      match DecideSell(b, 0, s) {
        case Keep =>
        case NoSell(reason) =>
          if reason == MissingPrice {
            missing := missing + {s};
          } else {
            zero := zero + {s};
          }
        case Sells(_) =>
          return true, missing, zero;
      }
    }
    assert order[..|order|] == order;
    assert forall s :: s in b.symbols <==> s in Elements(order);
    return false, missing, zero;
  }

  /** The planning loop over the targets; it stops at the first buy. */
  method PlanBuys(b: Book, investable: real)
    returns (found: bool, missing: set<Symbol>, insufficient: set<Symbol>, small: set<Symbol>, zero: set<Symbol>)
    requires Enumerates(b.targetOrder, b.targets.Keys)
    ensures found <==> BuyPlanned(b, investable)
    ensures !found ==>
              && missing == BuysSkipped(b, investable, MissingPrice)
              && insufficient == BuysSkipped(b, investable, InsufficientBuyingPower)
              && small == BuysSkipped(b, investable, MinNotional)
              && zero == BuysSkipped(b, investable, QuantityZero)
  {
    missing, insufficient, small, zero := {}, {}, {}, {};
    for i := 0 to |b.targetOrder|
      invariant forall s :: s in b.targetOrder[..i] ==> !PlanBuy(b, s, investable).Buys?
      invariant missing == set s | s in b.targetOrder[..i] && PlanBuy(b, s, investable) == NoBuy(MissingPrice)
      invariant insufficient == set s | s in b.targetOrder[..i] && PlanBuy(b, s, investable) == NoBuy(InsufficientBuyingPower)
      invariant small == set s | s in b.targetOrder[..i] && PlanBuy(b, s, investable) == NoBuy(MinNotional)
      invariant zero == set s | s in b.targetOrder[..i] && PlanBuy(b, s, investable) == NoBuy(QuantityZero)
    {
      var s := b.targetOrder[i];
      PrefixNext(b.targetOrder, i);
      assert s in Elements(b.targetOrder);
      match PlanBuy(b, s, investable) {
        case Leave =>
        case NoBuy(reason) =>
          match reason {
            case MissingPrice => missing := missing + {s};
            case InsufficientBuyingPower => insufficient := insufficient + {s};
            case MinNotional => small := small + {s};
            case _ => zero := zero + {s};
          }
        case Buys(_, _) =>
          return true, missing, insufficient, small, zero;
      }
    }
    assert b.targetOrder[..|b.targetOrder|] == b.targetOrder;
    assert forall s :: s in b.targets <==> s in Elements(b.targetOrder);
    return false, missing, insufficient, small, zero;
  }

  method PlanSweep(b: Book, sellPlanned: bool, prohibited: bool, investable: real) returns (sweep: nat)
    requires sellPlanned == SellPlanned(b) && investable >= 0.0
    ensures sweep == SweepQuantity(b, prohibited, investable)
  {
    if sellPlanned || prohibited || b.safeHaven.None? {
      return 0;
    }
    var haven := b.safeHaven.value;
    var quantity := Truncate(b.Held(haven));
    if b.Price(haven) <= 0.0 || b.Held(haven) <= 0.0 || quantity <= 0 {
      return 0;
    }
    var needs := [];
    for i := 0 to |b.targetOrder|
      invariant needs == FundingNeeds(b, i)
    {
      var s := b.targetOrder[i];
      if Candidate(b, s) && b.Price(s) > 0.0 {
        needs := needs + [b.limitOf(s)];
      }
    }
    NotionalPositive(quantity as real, b.Price(haven));
    var sell := ShouldSweep(Notional(quantity as real, b.Price(haven)), investable, needs);
    sweep := if sell then quantity else 0;
  }

  /** The whole planning pass. Its result does not depend on the iteration order of the traded
      symbols: neither the plan flags, nor the sweep, nor the reason of a no-op. */
  method PlanRebalance(b: Book, order: seq<Symbol>, prohibited: bool, investable: real) returns (plan: RebalancePlan)
    requires Enumerates(order, b.symbols) && Enumerates(b.targetOrder, b.targets.Keys) && investable >= 0.0
    ensures plan.sweep == SweepQuantity(b, prohibited, investable)
    ensures plan.sell <==> SellPlanned(b) || plan.sweep > 0
    ensures plan.buy <==> BuyPlanned(b, investable)
    ensures !plan.sell && !plan.buy ==> plan.reason == NoOpVerdict(b, investable)
  {
    var sell, missing, zero := PlanSells(b, order);
    var sweep := PlanSweep(b, sell, prohibited, investable);
    var buy, unpriced, insufficient, small, empty := PlanBuys(b, investable);
    plan := RebalancePlan(sell || sweep > 0, sweep, buy,
                          FirstReason(missing + unpriced, insufficient, small, zero + empty));
  }

  // --------------------------------------------- the plan foretells the passes

  lemma SellsSomething(seller: Seller, order: seq<Symbol>, symbols: set<Symbol>)
    requires Enumerates(order, symbols)
    ensures Fidelity.SellOrders(seller, order, |order|) != [] <==> exists s :: s in symbols && seller(s).Sells?
  {
    Fidelity.SellOrdersExact(seller, order, symbols);
    var orders := Fidelity.SellOrders(seller, order, |order|);
    if orders != [] {
      assert orders[0] in orders;
    }
    forall s | s in symbols && seller(s).Sells? ensures orders != [] {
      assert Fidelity.IsSell(seller, Order(s, Sell, seller(s).quantity, 0.0));
    }
  }

  /** A sell is sent exactly when the plan found one, whatever the iteration order. */
  lemma SellPlanIsExact(b: Book, order: seq<Symbol>, mode: Mode, prohibited: bool, investable: real)
    requires b.prices.Keys <= b.symbols && Enumerates(order, b.symbols)
    ensures var sweep := SweepQuantity(b, prohibited, investable);
            SellRun(b, SellerOf(b, sweep), order, |order|, mode).orders != [] <==> SellPlanned(b) || sweep > 0
  {
    var sweep := SweepQuantity(b, prohibited, investable);
    var seller := SellerOf(b, sweep);
    Fidelity.SellRunOrders(b, seller, order, |order|, mode);
    SellsSomething(seller, order, b.symbols);
    SweepIsHeld(b, prohibited, investable);
    if sweep > 0 {
      assert seller(b.safeHaven.value).Sells?;
    } else {
      assert forall s :: seller(s) == DecideSell(b, 0, s);
    }
  }

  /** Without sells the buy pass starts from the buying power the plan used. */
  lemma {:induction false} NoSellsNoRelease(b: Book, seller: Seller, order: seq<Symbol>, k: nat, mode: Mode)
    requires k <= |order| && SellRun(b, seller, order, k, mode).orders == []
    ensures var run := SellRun(b, seller, order, k, mode);
            run.released == 0.0 && !run.sold
  {
    if k > 0 {
      NoSellsNoRelease(b, seller, order, k - 1, mode);
    }
  }

  ghost predicate BuysAmong(b: Book, decide: Buyer, k: nat, budget: real)
    requires k <= |b.targetOrder|
  {
    exists i :: 0 <= i < k && decide(b.targetOrder[i], budget).Buys?
  }

  /** As long as nothing is bought the budget is untouched, so the pass sees what the plan saw. */
  lemma {:induction false} NothingBoughtSoFar(b: Book, decide: Buyer, sells: Run, k: nat, budget: real, mode: Mode)
    requires k <= |b.targetOrder|
    ensures var run := BuyRun(b, decide, sells, k, budget, mode);
            && (!BuysAmong(b, decide, k, budget) ==> run.orders == sells.orders && run.left == budget)
            && (BuysAmong(b, decide, k, budget) ==> |sells.orders| < |run.orders|)
  {
    if k > 0 {
      NothingBoughtSoFar(b, decide, sells, k - 1, budget, mode);
      var buys := decide(b.targetOrder[k - 1], budget).Buys?;
      assert BuysAmong(b, decide, k, budget) <==> BuysAmong(b, decide, k - 1, budget) || buys;
    }
  }

  lemma PlannedBuysAgree(b: Book, investable: real)
    requires b.Valid() && investable >= 0.0
    ensures BuysAmong(b, BuyerOf(b), |b.targetOrder|, investable) <==> BuyPlanned(b, investable)
  {
    forall s ensures BuyerOf(b)(s, investable).Buys? <==> PlanBuy(b, s, investable).Buys? {
      PlanBuyAgrees(b, s, investable);
    }
    assert forall s :: s in b.targets <==> s in Elements(b.targetOrder);
  }

  /** The planning verdict is exact. With no plan flag the passes send nothing; a sell plan sends
      a sell; a buy plan alone, when no gate defers the buys, sends a buy. */
  lemma PlanIsExact(b: Book, order: seq<Symbol>, mode: Mode, gates: Gates, r: Readings)
    requires b.Valid() && Enumerates(order, b.symbols)
    ensures var investable := Investable(Anticipated(r), b.reserved);
            var sweep := SweepQuantity(b, gates.newRiskProhibited, investable);
            var cycle := RunPasses(b, sweep, order, mode, gates, r);
            var sell := SellPlanned(b) || sweep > 0;
            && (sell <==> cycle.sells.orders != [])
            && (!sell && !BuyPlanned(b, investable) ==> cycle.run.orders == [])
            && (!sell && cycle.deferred.None? ==> (cycle.run.orders != [] <==> BuyPlanned(b, investable)))
  {
    var investable := Investable(Anticipated(r), b.reserved);
    var sweep := SweepQuantity(b, gates.newRiskProhibited, investable);
    var cycle := RunPasses(b, sweep, order, mode, gates, r);
    SellPlanIsExact(b, order, mode, gates.newRiskProhibited, investable);
    if cycle.sells.orders == [] {
      NoSellsNoRelease(b, SellerOf(b, sweep), order, |order|, mode);
      assert cycle.buyingPower == Anticipated(r);
      PlannedBuysAgree(b, investable);
      NothingBoughtSoFar(b, BuyerOf(b), cycle.sells, |b.targetOrder|, investable, mode);
      if cycle.deferred.Some? {
        Ledger.DeferredBuysNothing(b, cycle.sells, |b.targetOrder|, cycle.deferred.value);
      }
    }
  }
}
