/** When the buy pass runs: each gate by what it looks at, and nothing else. */
module BuyGates {
  import opened Quantity
  import opened Sums
  import opened Orders
  import opened Allocator
  import opened Passes
  import Ledger

  /** Cash-only, and the raw cash read at the gate is negative. */
  predicate InDebt(gates: Gates, r: Readings) {
    gates.cashOnly && r.gate.Some? && r.gate.value < 0.0
  }

  /** Cash-only, with cash locked in an excess below one step, and an estimate that raises or exceeds the budget. */
  ghost predicate RotationBlocked(b: Book, sweep: nat, gates: Gates, budget: real) {
    && gates.cashOnly
    && (exists s :: s in b.symbols && DecideSell(b, sweep, s) == NoSell(QuantityZero))
    && (EstimateRaises(b, |b.targetOrder|, budget) || EstimatedCost(b, |b.targetOrder|, budget) > budget)
  }

  lemma LockedSomewhere(b: Book, sweep: nat)
    ensures PendingReleases(SellerOf(b, sweep), b.symbols) != {}
       <==> exists s :: s in b.symbols && DecideSell(b, sweep, s) == NoSell(QuantityZero)
  {
    var locked := PendingReleases(SellerOf(b, sweep), b.symbols);
    if s :| s in b.symbols && DecideSell(b, sweep, s) == NoSell(QuantityZero) {
      assert s in locked;
    }
    if s :| s in locked {
      assert DecideSell(b, sweep, s) == NoSell(QuantityZero);
    }
  }

  /** The cash of a quoted symbol is locked exactly when it is overweight by the threshold with an excess over
      max(0, target) worth less than one step. */
  lemma LockedExactly(b: Book, s: Symbol)
    requires b.Price(s) > 0.0 && s in b.symbols
    ensures DecideSell(b, 0, s) == NoSell(QuantityZero)
       <==> b.Overweight(s) && b.Current(s) - Max(0.0, b.Target(s)) < Notional(b.step, b.Price(s))
  {
    SellsExactly(b, s);
  }

  /** A gated cycle sends its sells and no buy, and the reason is that of the first gate: the small account, the
      new-risk verdict, the rotation guard, the debt. With no gate up the buy pass runs on the investable power. */
  lemma GatesDecide(b: Book, sweep: nat, order: seq<Symbol>, mode: Mode, gates: Gates, r: Readings)
    ensures var cycle := RunPasses(b, sweep, order, mode, gates, r);
            var budget := Investable(cycle.buyingPower, b.reserved);
            var rotation, debt := RotationBlocked(b, sweep, gates, budget), InDebt(gates, r);
            && (gates.smallAccountWarning || gates.newRiskProhibited || rotation || debt ==> cycle.run.orders == cycle.sells.orders)
            && (!gates.smallAccountWarning && !gates.newRiskProhibited && !rotation && !debt ==>
                  cycle.deferred == None && cycle.run == BuyRun(b, BuyerOf(b), cycle.sells, |b.targetOrder|, budget, mode))
            && (NeedsBuy(b) ==>
                  && (gates.smallAccountWarning ==> cycle.deferred == Some(SmallAccount))
                  && (!gates.smallAccountWarning && gates.newRiskProhibited ==> cycle.deferred == Some(NewRiskGate))
                  && (!gates.smallAccountWarning && !gates.newRiskProhibited && rotation ==>
                        cycle.deferred in {Some(EstimateError), Some(PendingSellRelease)})
                  && (!gates.smallAccountWarning && !gates.newRiskProhibited && !rotation && debt ==> cycle.deferred == Some(NegativeCash)))
  {
    var cycle := RunPasses(b, sweep, order, mode, gates, r);
    LockedSomewhere(b, sweep);
    if cycle.deferred.Some? {
      Ledger.DeferredBuysNothing(b, cycle.sells, |b.targetOrder|, cycle.deferred.value);
    } else if !NeedsBuy(b) {
      Ledger.NothingCommitted(b, cycle.sells, |b.targetOrder|, Investable(cycle.buyingPower, b.reserved), mode);
    }
  }

  /** The deferral of target s, on the record. */
  predicate Recorded(e: Entry, b: Book, why: BlockReason) {
    && e.Skipped? && e.side == Buy && e.reason == BuysBlocked(why)
    && e.symbol in b.targetOrder && b.Current(e.symbol) < b.Target(e.symbol) - b.threshold
  }

  /** A deferred pass leaves one entry per needed target, and no other: a skipped buy with the reason. */
  lemma {:induction false} DeferralIsRecorded(b: Book, sells: Run, k: nat, why: BlockReason)
    requires k <= |b.targetOrder| && why != EstimateError
    ensures var trace := DeferredRun(b, sells, k, why).trace;
            && |sells.trace| <= |trace| && trace[..|sells.trace|] == sells.trace
            && (forall i :: |sells.trace| <= i < |trace| ==> Recorded(trace[i], b, why))
            && (forall s :: s in b.targetOrder[..k] && b.Underweight(s) ==> Skipped(s, Buy, BuysBlocked(why)) in trace)
  {
    if k > 0 {
      DeferralIsRecorded(b, sells, k - 1, why);
      var before, trace := DeferredRun(b, sells, k - 1, why).trace, DeferredRun(b, sells, k, why).trace;
      assert b.targetOrder[..k] == b.targetOrder[..k - 1] + [b.targetOrder[k - 1]];
      assert forall e :: e in before ==> e in trace;
      if b.Underweight(b.targetOrder[k - 1]) {
        assert Recorded(trace[|before|], b, why);
      }
    }
  }

  /** An account still in debt after its sells buys nothing, whatever it released and whatever it wants. */
  lemma DebtBuysNothing(b: Book, sweep: nat, order: seq<Symbol>, mode: Mode, gates: Gates, r: Readings)
    requires gates.cashOnly && r.gate.Some? && r.gate.value < 0.0
    ensures var cycle := RunPasses(b, sweep, order, mode, gates, r);
            cycle.run.orders == cycle.sells.orders && Ledger.Committed(cycle.run.trace) == 0.0
  {
    var cycle := RunPasses(b, sweep, order, mode, gates, r);
    GatesDecide(b, sweep, order, mode, gates, r);
    Ledger.SellsCommitNothing(b, SellerOf(b, sweep), order, |order|, mode);
    if cycle.deferred.Some? {
      Ledger.DeferredCommitsNothing(b, cycle.sells, |b.targetOrder|, cycle.deferred.value);
    } else {
      Ledger.CycleCommitsWithinBudget(b, sweep, order, mode, gates, r);
    }
  }

  /** The buying power by its case: a dry run adds the quoted sales to the read cash; without sells a live cycle
      keeps the read cash; after sells it reads again, and a cash-only account takes the larger of that and the
      read cash plus what the reports release. */
  lemma PowerExactly(mode: Mode, cashOnly: bool, released: real, sold: bool, r: Readings)
    ensures var power := BuyingPower(mode, cashOnly, released, sold, r);
            var before := if r.before.Some? then r.before.value else r.fallback;
            var after := if r.after.Some? then r.after.value else r.fallback;
            && (mode.DryRun? && released >= 0.0 ==> power == Max(0.0, before) + released)
            && (mode.Live? && !sold ==> power == Max(0.0, before))
            && (mode.Live? && sold && (!cashOnly || released <= 0.0) ==> power == Max(0.0, after))
            && (mode.Live? && sold && cashOnly && released > 0.0 ==>
                  && power >= Max(0.0, after) && power >= Max(0.0, before) + released
                  && (power == Max(0.0, after) || power == Max(0.0, before) + released))
  {
  }
}
