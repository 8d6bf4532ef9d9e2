/** The account-level new-risk gate: one verdict at plan time, one at the submit adapter, which
    also scales what it lets through. */
module NewRiskGate {
  import opened Quantity
  import opened Sums
  import opened Orders
  import opened Allocator
  import opened Passes
  import Ledger
  import OptionPass

  // ------------------------------------------------------- evidence projection

  datatype Evidence = Evidence(observationOk: bool, unknownPending: bool, breakerOpen: bool)

  datatype Axes = Axes(observation: string, reconciliation: string, breaker: string)

  /** The injected or projected health record; absent keys are None. */
  datatype Projection = Projection(
    observation: Option<string>,
    reconciliation: Option<string>,
    breaker: Option<string>,
    equity: Option<real>,
    unknownPending: Option<bool>,
    breakerOpen: Option<bool>,
    peak: Option<real>,
    drawdown: Option<real>,
    volatility: Option<real>)

  datatype Portfolio = Portfolio(
    totalEquity: Option<real>,
    unknownPending: Option<bool>,
    breakerOpen: Option<bool>,
    health: Option<Projection>,
    peak: Option<real>,
    drawdown: Option<real>,
    volatility: Option<real>)

  datatype Snapshot = Snapshot(
    axes: Axes, equity: Option<real>, peak: Option<real>, drawdown: Option<real>, volatility: Option<real>)

  /** Reducing scale of an admission; None leaves quantities alone. */
  datatype Admission = Admission(prohibited: bool, scale: Option<real>)

  /** The shared gate library: how axes follow from evidence, which snapshots it accepts, and the
      verdict; None is an evaluation that raises. */
  datatype Library = Library(
    axesOf: Evidence -> Axes,
    accepts: Snapshot -> bool,
    evaluate: Snapshot -> Option<Admission>)

  function Or<T>(first: Option<T>, second: Option<T>): Option<T> {
    if first.Some? then first else second
  }

  function GetOr<T>(value: Option<T>, default: T): T {
    if value.Some? then value.value else default
  }

  function PositiveEquity(p: Portfolio): Option<real> {
    if p.totalEquity.Some? && p.totalEquity.value > 0.0 then p.totalEquity else None
  }

  function NoHealth(): Projection {
    Projection(None, None, None, None, None, None, None, None, None)
  }

  /** Explicit keys win; axes fill what is absent; only an explicit signal counts as pending or open. */
  function Project(lib: Library, p: Portfolio): Projection {
    var given := GetOr(p.health, NoHealth());
    var equity := Or(given.equity, PositiveEquity(p));
    var axes := lib.axesOf(Evidence(
      equity.Some?,
      GetOr(Or(given.unknownPending, p.unknownPending), false),
      GetOr(Or(given.breakerOpen, p.breakerOpen), false)));
    given.(observation := Or(given.observation, Some(axes.observation)),
           reconciliation := Or(given.reconciliation, Some(axes.reconciliation)),
           breaker := Or(given.breaker, Some(axes.breaker)),
           equity := equity)
  }

  /** Projecting what is already projected changes nothing, so it does not matter that the plan
      projects once to build the portfolio and again to build the snapshot. */
  lemma ProjectIsIdempotent(lib: Library, p: Portfolio)
    ensures Project(lib, p.(health := Some(Project(lib, p)))) == Project(lib, p)
  {
  }

  /** The axes are never downgraded: an explicit axis survives, a missing one follows the evidence. */
  lemma ProjectKeepsExplicitAxes(lib: Library, p: Portfolio)
    ensures var given, projected := GetOr(p.health, NoHealth()), Project(lib, p);
            && (given.breaker.Some? ==> projected.breaker == given.breaker)
            && (given.observation.Some? ==> projected.observation == given.observation)
            && (given.reconciliation.Some? ==> projected.reconciliation == given.reconciliation)
            && projected.breaker.Some? && projected.observation.Some? && projected.reconciliation.Some?
  {
  }

  /** Each signal feeds its own evidence: an injected equity, else a positive one of the portfolio, makes the
      observation good; pending orders and an open breaker count only when they are said, by the injected record
      first. Axes that are not injected are those the library gives for this evidence. */
  lemma EvidenceIsExact(lib: Library, p: Portfolio)
    ensures var given := if p.health.Some? then p.health.value else NoHealth();
            var equity := if given.equity.Some? then given.equity
                          else if p.totalEquity.Some? && p.totalEquity.value > 0.0 then p.totalEquity else None;
            var pending := given.unknownPending == Some(true) || (given.unknownPending == None && p.unknownPending == Some(true));
            var open := given.breakerOpen == Some(true) || (given.breakerOpen == None && p.breakerOpen == Some(true));
            var axes := lib.axesOf(Evidence(equity.Some?, pending, open));
            var projected := Project(lib, p);
            && projected.equity == equity
            && (given.observation == None ==> projected.observation == Some(axes.observation))
            && (given.reconciliation == None ==> projected.reconciliation == Some(axes.reconciliation))
            && (given.breaker == None ==> projected.breaker == Some(axes.breaker))
  {
  }

  function SnapshotOf(lib: Library, p: Portfolio): Snapshot {
    var health := Project(lib, p);
    Snapshot(
      Axes(GetOr(health.observation, "UNAVAILABLE"), GetOr(health.reconciliation, "UNVERIFIED"), GetOr(health.breaker, "OPEN")),
      Or(health.equity, PositiveEquity(p)),
      Or(health.peak, p.peak), Or(health.drawdown, p.drawdown), Or(health.volatility, p.volatility))
  }

  /** The snapshot has the projected axes, and each of its figures from the injected record first and from the
      portfolio otherwise. */
  lemma SnapshotIsExact(lib: Library, p: Portfolio)
    ensures var given := if p.health.Some? then p.health.value else NoHealth();
            var projected, snapshot := Project(lib, p), SnapshotOf(lib, p);
            && projected.observation == Some(snapshot.axes.observation)
            && projected.reconciliation == Some(snapshot.axes.reconciliation)
            && projected.breaker == Some(snapshot.axes.breaker)
            && snapshot.equity == projected.equity
            && snapshot.peak == (if given.peak.Some? then given.peak else p.peak)
            && snapshot.drawdown == (if given.drawdown.Some? then given.drawdown else p.drawdown)
            && snapshot.volatility == (if given.volatility.Some? then given.volatility else p.volatility)
  {
  }

  /** The portfolio read from the account values, with its projected health. */
  function Observed(lib: Library, p: Portfolio): Portfolio {
    p.(health := Some(Project(lib, p)))
  }

  // ---------------------------------------------------------------- verdicts

  const FAIL_CLOSED := Admission(true, None)

  /** Plan time: a snapshot that does not validate, or an evaluation that raises, prohibits. */
  function PlanVerdict(lib: Library, p: Portfolio): Admission {
    var snapshot := SnapshotOf(lib, Observed(lib, p));
    if lib.accepts(snapshot) then GetOr(lib.evaluate(snapshot), FAIL_CLOSED) else FAIL_CLOSED
  }

  /** Submit time: no bound snapshot, or an evaluation that raises, prohibits. */
  function SubmitVerdict(lib: Library, bound: Option<Snapshot>): Admission {
    match bound
    case None => FAIL_CLOSED
    case Some(snapshot) => GetOr(lib.evaluate(snapshot), FAIL_CLOSED)
  }

  /** The module-wide snapshot of the cycle. */
  class CycleGate {
    const lib: Library
    var bound: Option<Snapshot>

    constructor (lib: Library)
      ensures this.lib == lib && bound == None
    {
      this.lib, bound := lib, None;
    }

    /** Opens a cycle: the plan-time verdict, and the snapshot the submissions will see. A snapshot
        that does not validate raises and leaves the previous one bound: the cycle goes no further. */
    method Open(p: Portfolio) returns (verdict: Admission, raised: bool)
      modifies this
      ensures verdict == PlanVerdict(lib, p)
      ensures raised <==> !lib.accepts(SnapshotOf(lib, Observed(lib, p)))
      ensures bound == if raised then old(bound) else Some(SnapshotOf(lib, p))
      ensures !raised ==> verdict == SubmitVerdict(lib, bound)
    {
      ProjectIsIdempotent(lib, p);
      var snapshot := SnapshotOf(lib, Observed(lib, p));
      if !lib.accepts(snapshot) {
        return FAIL_CLOSED, true;
      }
      verdict, raised := GetOr(lib.evaluate(snapshot), FAIL_CLOSED), false;
      bound := Some(snapshot);
    }

    /** Without a bound snapshot the verdict prohibits; with the snapshot of a portfolio the plan could judge
        it is the plan's own verdict. */
    method Evaluate() returns (verdict: Admission)
      ensures verdict == SubmitVerdict(lib, bound)
      ensures bound == None ==> verdict.prohibited
      ensures forall p :: bound == Some(SnapshotOf(lib, p)) && lib.accepts(SnapshotOf(lib, p)) ==> verdict == PlanVerdict(lib, p)
    {
      forall p | bound == Some(SnapshotOf(lib, p)) && lib.accepts(SnapshotOf(lib, p))
        ensures SubmitVerdict(lib, bound) == PlanVerdict(lib, p)
      {
        ProjectIsIdempotent(lib, p);
      }
      verdict := FAIL_CLOSED;
      match bound {
        case None =>
        case Some(snapshot) => verdict := GetOr(lib.evaluate(snapshot), FAIL_CLOSED);
      }
    }
  }

  /** Within a cycle the two verdicts agree: the snapshot bound by the plan is the one it judged. */
  lemma VerdictsAgree(lib: Library, p: Portfolio)
    requires lib.accepts(SnapshotOf(lib, Observed(lib, p)))
    ensures SnapshotOf(lib, Observed(lib, p)) == SnapshotOf(lib, p)
    ensures PlanVerdict(lib, p) == SubmitVerdict(lib, Some(SnapshotOf(lib, p)))
  {
    ProjectIsIdempotent(lib, p);
  }

  // ----------------------------------------------------------- submit adapter

  /** A valid reducing scale is applied; a missing or out-of-range one is a no-op. */
  function Scaled(value: real, scale: Option<real>): real {
    if scale.Some? && 0.0 < scale.value <= 1.0 then Notional(value, scale.value) else value
  }

  lemma ScalingNeverRaises(value: real, scale: Option<real>)
    requires value >= 0.0
    ensures 0.0 <= Scaled(value, scale) <= value
    ensures value > 0.0 ==> Scaled(value, scale) > 0.0
  {
    if scale.Some? && 0.0 < scale.value <= 1.0 {
      NotionalPositive(value, scale.value);
      NotionalLessPrice(value, scale.value, 1.0);
      assert Notional(value, 1.0) == value;
    }
  }

  /** What reaches the broker call for an equity order; None is a local rejection. */
  function Forward(a: Admission, o: Order): Option<Order> {
    if o.side == Sell then Some(o)
    else if a.prohibited then None
    else Some(o.(quantity := Scaled(o.quantity, a.scale)))
  }

  /** A reducing scale: above zero, at most one. */
  predicate Reducing(scale: Option<real>) {
    scale.Some? && 0.0 < scale.value <= 1.0
  }

  /** Let through by the adapter, a buy has exactly its quantity times a reducing scale, and its own quantity
      under any other scale; a sell always has its own. */
  lemma ScalesExactly(a: Admission, o: Order, i: OptionIntent)
    requires !a.prohibited
    ensures Forward(a, o).Some? && Forward(a, o).value == o.(quantity := Forward(a, o).value.quantity)
    ensures o.side == Buy && Reducing(a.scale) ==> Forward(a, o).value.quantity == o.quantity * a.scale.value
    ensures o.side == Sell || !Reducing(a.scale) ==> Forward(a, o).value.quantity == o.quantity
    ensures ForwardOption(a, i).Some? && ForwardOption(a, i).value == i.(quantity := ForwardOption(a, i).value.quantity)
    ensures i.action == BuyToOpen && Reducing(a.scale) ==> ForwardOption(a, i).value.quantity == i.quantity * a.scale.value
    ensures i.action != BuyToOpen || !Reducing(a.scale) ==> ForwardOption(a, i).value.quantity == i.quantity
  {
  }

  /** The broker as the passes see it, behind the adapter. */
  function Guarded(a: Admission, broker: Broker): Broker {
    (n: nat, o: Order) =>
      match Forward(a, o)
      case None => Report(OtherStatus("rejected"), o.quantity, 0.0, 0.0)
      case Some(scaled) => broker(n, scaled)
  }

  /** What reaches the broker call for an option intent. Only a single-leg buy is on the buy side;
      a credit spread is sold. */
  function ForwardOption(a: Admission, i: OptionIntent): Option<OptionIntent> {
    if i.action != BuyToOpen then Some(i)
    else if a.prohibited then None
    else Some(i.(quantity := Scaled(i.quantity, a.scale)))
  }

  /** The limit cost of an accepted buy at the broker boundary. */
  function BoundaryCostOf(a: Admission, e: Entry): real {
    if e.Placed? && e.order.side == Buy && Accepted(e.result) && Forward(a, e.order).Some?
    then Notional(Forward(a, e.order).value.quantity, e.order.limit)
    else 0.0
  }

  /** The limit cost, at the broker boundary, of the accepted buys of a trace. */
  function BoundaryCost(a: Admission, trace: seq<Entry>): real {
    if trace == [] then 0.0
    else BoundaryCost(a, trace[..|trace| - 1]) + BoundaryCostOf(a, trace[|trace| - 1])
  }

  lemma BoundaryCostWithin(a: Admission, e: Entry)
    requires e.Placed? && e.order.side == Buy ==> e.order.quantity >= 0.0 && e.order.limit > 0.0
    ensures 0.0 <= BoundaryCostOf(a, e) <= CommittedBy(e)
  {
    if e.Placed? && e.order.side == Buy {
      var q, limit := e.order.quantity, e.order.limit;
      NotionalPositive(q, limit);
      if Forward(a, e.order).Some? {
        ScalingNeverRaises(q, a.scale);
        NotionalLess(Scaled(q, a.scale), q, limit);
        NotionalPositive(Scaled(q, a.scale), limit);
      }
    }
  }

  lemma BoundaryCostNext(a: Admission, trace: seq<Entry>, e: Entry)
    requires e.Placed? && e.order.side == Buy ==> e.order.quantity >= 0.0 && e.order.limit > 0.0
    ensures BoundaryCost(a, trace) <= BoundaryCost(a, trace + [e]) <= BoundaryCost(a, trace) + CommittedBy(e)
  {
    assert (trace + [e])[..|trace|] == trace;
    BoundaryCostWithin(a, e);
  }

  /** What is left of a commitment at the boundary: nothing under a prohibition, the scaled part otherwise. */
  function Share(a: Admission): real {
    if a.prohibited then 0.0 else if Reducing(a.scale) then a.scale.value else 1.0
  }

  lemma ProductsCommute(q: real, p: real, share: real)
    ensures Notional(Notional(q, share), p) == Notional(Notional(q, p), share)
    ensures Notional(q, 1.0) == q && Notional(q, 0.0) == 0.0
  {
  }

  lemma BoundaryShare(a: Admission, e: Entry)
    ensures BoundaryCostOf(a, e) == Notional(CommittedBy(e), Share(a))
  {
    if e.Placed? {
      ProductsCommute(e.order.quantity, e.order.limit, Share(a));
    }
    ProductsCommute(CommittedBy(e), 1.0, Share(a));
    assert Notional(0.0, Share(a)) == 0.0;
  }

  /** Over a trace the boundary cost is exactly that share of what the accepted buys commit. */
  lemma {:induction false} BoundaryCostIsTheShare(a: Admission, trace: seq<Entry>)
    ensures BoundaryCost(a, trace) == Notional(Ledger.Committed(trace), Share(a))
  {
    if trace == [] {
      assert Notional(0.0, Share(a)) == 0.0;
    } else {
      var before, e := trace[..|trace| - 1], trace[|trace| - 1];
      BoundaryCostIsTheShare(a, before);
      BoundaryShare(a, e);
      NotionalAdds(Ledger.Committed(before), CommittedBy(e), Share(a));
    }
  }

  /** A buyer whose orders have a positive quantity and limit. */
  ghost predicate Positive(decide: Buyer) {
    forall s, left :: left >= 0.0 && decide(s, left).Buys? ==> PositiveBuy(decide(s, left))
  }

  predicate PositiveBuy(d: BuyDecision)
    requires d.Buys?
  {
    d.quantity > 0.0 && d.limit > 0.0
  }

  lemma BookIsPositive(b: Book)
    ensures Positive(BuyerOf(b))
  {
    forall s, left | left >= 0.0 && BuyerOf(b)(s, left).Buys?
      ensures PositiveBuy(BuyerOf(b)(s, left))
    {
      BuyBounds(b, s, left);
    }
  }

  /** Scaling keeps the budget: at the broker boundary the accepted buys cost no more than the
      budget they were planned with. */
  lemma {:induction false} BoundaryStaysInBudget(b: Book, decide: Buyer, sells: Run, k: nat, budget: real,
                                                 a: Admission, mode: Mode)
    requires k <= |b.targetOrder| && budget >= 0.0
    requires Ledger.Frugal(decide) && Positive(decide) && Ledger.AcceptedBuys(sells.trace) == 0
    ensures var run := BuyRun(b, decide, sells, k, budget, mode);
            BoundaryCost(a, run.trace) <= BoundaryCost(a, sells.trace) + budget - run.left
  {
    if k > 0 {
      BoundaryStaysInBudget(b, decide, sells, k - 1, budget, a, mode);
      Ledger.BudgetDecays(b, decide, sells, k - 1, budget, mode);
      var run, s := BuyRun(b, decide, sells, k - 1, budget, mode), b.targetOrder[k - 1];
      var d := decide(s, run.left);
      match d {
        case Leave =>
        case NoBuy(reason) =>
          BoundaryCostNext(a, run.trace, Skipped(s, Buy, reason));
        case Buys(q, limit) =>
          assert PositiveBuy(d);
          BoundaryCostNext(a, run.trace, Submit(mode, |run.orders|, Order(s, Buy, q, limit)));
      }
    }
  }

  lemma NoBuyNoCost(a: Admission, trace: seq<Entry>, e: Entry)
    requires e.Placed? ==> e.order.side == Sell
    ensures BoundaryCost(a, trace + [e]) == BoundaryCost(a, trace)
  {
    assert (trace + [e])[..|trace|] == trace;
  }

  lemma {:induction false} SellsCostNothing(b: Book, decide: Seller, order: seq<Symbol>, k: nat, a: Admission, mode: Mode)
    requires k <= |order|
    ensures BoundaryCost(a, SellRun(b, decide, order, k, mode).trace) == 0.0
  {
    if k > 0 {
      SellsCostNothing(b, decide, order, k - 1, a, mode);
      var run, s := SellRun(b, decide, order, k - 1, mode), order[k - 1];
      match decide(s) {
        case Keep =>
        case NoSell(reason) => NoBuyNoCost(a, run.trace, Skipped(s, Sell, reason));
        case Sells(q) => NoBuyNoCost(a, run.trace, Submit(mode, |run.orders|, Order(s, Sell, q, 0.0)));
      }
    }
  }

  /** Plan layer: a cycle whose plan-time verdict prohibits new risk sends no buy at all. */
  lemma ProhibitedPlanSendsNoBuy(b: Book, sweep: nat, order: seq<Symbol>, mode: Mode, gates: Gates, r: Readings)
    requires gates.newRiskProhibited
    ensures var cycle := RunPasses(b, sweep, order, mode, gates, r);
            cycle.run.orders == cycle.sells.orders
  {
    var cycle := RunPasses(b, sweep, order, mode, gates, r);
    if cycle.deferred.Some? {
      Ledger.DeferredBuysNothing(b, cycle.sells, |b.targetOrder|, cycle.deferred.value);
    } else {
      Ledger.NothingCommitted(b, cycle.sells, |b.targetOrder|, Investable(cycle.buyingPower, b.reserved), mode);
    }
  }

  /** Adapter layer, whatever the plan decided: a prohibiting verdict forwards no buy-side order,
      the rejection counts as a failure, and every other order is forwarded, never enlarged. */
  lemma AdapterIsSafe(a: Admission, broker: Broker, n: nat, o: Order, i: OptionIntent)
    requires o.quantity >= 0.0 && i.quantity >= 0.0
    ensures Forward(a, o).None? <==> a.prohibited && o.side == Buy
    ensures ForwardOption(a, i).None? <==> a.prohibited && i.action == BuyToOpen
    ensures Forward(a, o).None? ==> Classify(Guarded(a, broker)(n, o).status) == Failed
    ensures Forward(a, o).Some? ==>
              && Guarded(a, broker)(n, o) == broker(n, Forward(a, o).value)
              && Forward(a, o).value.quantity <= o.quantity
              && Forward(a, o).value == o.(quantity := Forward(a, o).value.quantity)
              && (o.side == Sell ==> Forward(a, o).value == o)
    ensures ForwardOption(a, i).Some? ==> ForwardOption(a, i).value.quantity <= i.quantity
  {
    ScalingNeverRaises(o.quantity, a.scale);
    ScalingNeverRaises(i.quantity, a.scale);
  }

  // ------------------------------------------------- options behind the adapter

  /** The option broker as the option pass sees it, behind the adapter. */
  function GuardedOptions(a: Admission, broker: OptionPass.OptionBroker): OptionPass.OptionBroker {
    (n: nat, i: OptionIntent) =>
      match ForwardOption(a, i)
      case None => Report(OtherStatus("rejected"), i.quantity, 0.0, 0.0)
      case Some(scaled) => broker(n, scaled)
  }

  /** The intents that reach the broker call, in order. */
  function Forwarded(a: Admission, sent: seq<OptionIntent>): seq<OptionIntent> {
    if sent == [] then []
    else
      Forwarded(a, sent[..|sent| - 1])
      + match ForwardOption(a, sent[|sent| - 1])
        case None => []
        case Some(scaled) => [scaled]
  }

  lemma ForwardedNext(a: Admission, sent: seq<OptionIntent>, i: OptionIntent)
    ensures Forwarded(a, sent + [i]) == Forwarded(a, sent) + match ForwardOption(a, i) case None => [] case Some(scaled) => [scaled]
  {
    assert (sent + [i])[..|sent|] == sent;
  }

  /** Nothing on the buy side, in a list of intents. */
  predicate NoOptionBuys(intents: seq<OptionIntent>) {
    forall k :: 0 <= k < |intents| ==> intents[k].action != BuyToOpen
  }

  /** Whatever is forwarded was planned, with at most the planned quantity and nothing else changed. */
  predicate ScaledFrom(scaled: OptionIntent, planned: OptionIntent) {
    scaled == planned.(quantity := scaled.quantity) && 0.0 <= scaled.quantity <= planned.quantity
  }

  ghost predicate AllScaledFrom(forwarded: seq<OptionIntent>, planned: seq<OptionIntent>) {
    forall k :: 0 <= k < |forwarded| ==> exists i :: i in planned && ScaledFrom(forwarded[k], i)
  }

  lemma ForwardOptionScales(a: Admission, i: OptionIntent)
    requires i.quantity > 0.0
    ensures ForwardOption(a, i).Some? ==> ScaledFrom(ForwardOption(a, i).value, i)
    ensures a.prohibited && i.action == BuyToOpen ==> ForwardOption(a, i).None?
  {
    ScalingNeverRaises(i.quantity, a.scale);
  }

  lemma AppendScaled(forwarded: seq<OptionIntent>, scaled: OptionIntent, planned: seq<OptionIntent>, i: OptionIntent)
    requires AllScaledFrom(forwarded, planned) && i in planned && ScaledFrom(scaled, i)
    ensures AllScaledFrom(forwarded + [scaled], planned)
  {
    forall k | 0 <= k < |forwarded + [scaled]| ensures exists x :: x in planned && ScaledFrom((forwarded + [scaled])[k], x) {
      if k < |forwarded| {
        assert (forwarded + [scaled])[k] == forwarded[k];
      }
    }
  }

  lemma ForwardedTurn(a: Admission, sent: seq<OptionIntent>, i: OptionIntent, planned: seq<OptionIntent>)
    requires AllScaledFrom(Forwarded(a, sent), planned) && i in planned && i.quantity > 0.0
    ensures AllScaledFrom(Forwarded(a, sent + [i]), planned)
  {
    ForwardedNext(a, sent, i);
    ForwardOptionScales(a, i);
    match ForwardOption(a, i) {
      case None => assert Forwarded(a, sent) + [] == Forwarded(a, sent);
      case Some(scaled) => AppendScaled(Forwarded(a, sent), scaled, planned, i);
    }
  }

  lemma AppendNoBuy(intents: seq<OptionIntent>, i: OptionIntent)
    requires NoOptionBuys(intents) && i.action != BuyToOpen
    ensures NoOptionBuys(intents + [i])
  {
  }

  lemma ForwardedNoBuys(a: Admission, sent: seq<OptionIntent>, i: OptionIntent)
    requires a.prohibited && NoOptionBuys(Forwarded(a, sent))
    ensures NoOptionBuys(Forwarded(a, sent + [i]))
  {
    ForwardedNext(a, sent, i);
    if i.action == BuyToOpen {
      assert Forwarded(a, sent) + [] == Forwarded(a, sent);
    } else {
      AppendNoBuy(Forwarded(a, sent), i);
    }
  }

  /** A stopped option order counts as failed, so it is not accepted and charges nothing. */
  lemma StoppedIsNotAccepted(a: Admission, broker: OptionPass.OptionBroker, n: nat, i: OptionIntent)
    requires ForwardOption(a, i).None?
    ensures !Accepted(OptionPass.Answer(OptionPass.SendOptions(GuardedOptions(a, broker)), n, i))
  {
  }

  lemma TurnForwards(a: Admission, broker: OptionPass.OptionBroker, run: OptionPass.OptionRun, i: OptionIntent, planned: seq<OptionIntent>)
    requires AllScaledFrom(Forwarded(a, run.sent), planned) && i in planned
    ensures var next := OptionPass.Turn(run, i, OptionPass.SendOptions(GuardedOptions(a, broker)));
            AllScaledFrom(Forwarded(a, next.sent), planned)
  {
    if OptionPass.Decide(i, run.power) == OptionPass.Send {
      ForwardedTurn(a, run.sent, i, planned);
    }
  }

  lemma TurnBuysNothing(a: Admission, broker: OptionPass.OptionBroker, run: OptionPass.OptionRun, i: OptionIntent)
    requires a.prohibited && NoOptionBuys(Forwarded(a, run.sent)) && NoOptionBuys(run.accepted)
    ensures var next := OptionPass.Turn(run, i, OptionPass.SendOptions(GuardedOptions(a, broker)));
            NoOptionBuys(Forwarded(a, next.sent)) && NoOptionBuys(next.accepted)
  {
    if OptionPass.Decide(i, run.power) == OptionPass.Send {
      ForwardedNoBuys(a, run.sent, i);
      if i.action == BuyToOpen {
        StoppedIsNotAccepted(a, broker, |run.sent|, i);
      } else {
        AppendNoBuy(run.accepted, i);
      }
    }
  }

  /** The option pass behind the adapter, over any intents: every intent that reaches the broker was asked for
      and is at most as large; under a prohibiting verdict none of them, and none of the accepted, is on the
      buy side. */
  lemma {:induction false} OptionsBehindAdapter(a: Admission, broker: OptionPass.OptionBroker, intents: seq<OptionIntent>, k: nat, power: real)
    requires k <= |intents|
    ensures var run := OptionPass.Run(intents, k, power, OptionPass.SendOptions(GuardedOptions(a, broker)));
            && AllScaledFrom(Forwarded(a, run.sent), intents)
            && (a.prohibited ==> NoOptionBuys(Forwarded(a, run.sent)) && NoOptionBuys(run.accepted))
  {
    if k > 0 {
      OptionsBehindAdapter(a, broker, intents, k - 1, power);
      var mode := OptionPass.SendOptions(GuardedOptions(a, broker));
      var run := OptionPass.Run(intents, k - 1, power, mode);
      TurnForwards(a, broker, run, intents[k - 1], intents);
      if a.prohibited {
        TurnBuysNothing(a, broker, run, intents[k - 1]);
      }
    }
  }

  /** What the intent is charged once it is scaled, nothing when it is stopped. */
  function BoundaryCharge(a: Admission, i: OptionIntent): real {
    match ForwardOption(a, i)
    case None => 0.0
    case Some(scaled) => OptionPass.Charge(scaled)
  }

  function BoundaryCharges(a: Admission, intents: seq<OptionIntent>): real {
    if intents == [] then 0.0
    else BoundaryCharges(a, intents[..|intents| - 1]) + BoundaryCharge(a, intents[|intents| - 1])
  }

  lemma BoundaryChargesNext(a: Admission, intents: seq<OptionIntent>, i: OptionIntent)
    ensures BoundaryCharges(a, intents + [i]) == BoundaryCharges(a, intents) + BoundaryCharge(a, i)
  {
    assert (intents + [i])[..|intents|] == intents;
  }

  /** An intent whose amounts are not negative; the cap and the loss are zero when not stated. */
  predicate Amounts(i: OptionIntent) {
    i.limit >= 0.0 && i.multiplier >= 0.0 && i.maxNotional >= 0.0 && i.maxLoss >= 0.0
  }

  lemma PremiumGrows(small: OptionIntent, large: OptionIntent)
    requires ScaledFrom(small, large) && Amounts(large)
    ensures 0.0 <= OptionPass.Premium(small) <= OptionPass.Premium(large)
  {
    var m := if large.multiplier != 0.0 then large.multiplier else 100.0;
    ProductGrows(small.quantity, large.quantity, large.limit);
    ProductGrows(Notional(small.quantity, large.limit), Notional(large.quantity, large.limit), m);
  }

  lemma ProductGrows(a: real, b: real, p: real)
    requires 0.0 <= a <= b && 0.0 <= p
    ensures 0.0 <= Notional(a, p) <= Notional(b, p)
  {
    if p > 0.0 {
      NotionalLess(a, b, p);
      NotionalPositive(a, p);
    } else {
      assert Notional(a, p) == 0.0 && Notional(b, p) == 0.0;
    }
  }

  /** At the boundary an intent is charged at most what the pass charged for it; one with a stated cap is charged
      the same, because the cap is not scaled, although its premium is. */
  lemma BoundaryChargeShrinks(a: Admission, i: OptionIntent)
    requires OptionPass.Executable(i) && i.quantity > 0.0 && Amounts(i)
    ensures 0.0 <= BoundaryCharge(a, i) <= OptionPass.Charge(i)
    ensures ForwardOption(a, i).Some? && (i.action != BuyToOpen || i.maxNotional != 0.0)
            ==> BoundaryCharge(a, i) == OptionPass.Charge(i)
    ensures ForwardOption(a, i).Some? && i.action == BuyToOpen
            ==> OptionPass.Premium(ForwardOption(a, i).value) <= OptionPass.Premium(i)
    ensures ForwardOption(a, i).Some? && i.action == BuyToOpen && i.maxNotional == 0.0
            ==> BoundaryCharge(a, i) == OptionPass.Premium(ForwardOption(a, i).value)
  {
    ForwardOptionScales(a, i);
    if ForwardOption(a, i).Some? {
      PremiumGrows(ForwardOption(a, i).value, i);
    }
  }

  lemma PremiumIsShared(a: Admission, i: OptionIntent)
    requires i.action == BuyToOpen && i.maxNotional == 0.0
    ensures OptionPass.Charge(i) == OptionPass.Premium(i)
    ensures BoundaryCharge(a, i) == Notional(OptionPass.Premium(i), Share(a))
  {
    var m := if i.multiplier != 0.0 then i.multiplier else 100.0;
    ProductsCommute(i.quantity, i.limit, Share(a));
    ProductsCommute(Notional(i.quantity, i.limit), m, Share(a));
    ProductsCommute(OptionPass.Premium(i), 1.0, Share(a));
    ProductsCommute(i.quantity, 1.0, Share(a));
  }

  /** For buys without a cap the boundary charge is exactly that share of the premiums. */
  lemma {:induction false} PremiumsAreShared(a: Admission, intents: seq<OptionIntent>)
    requires forall i :: i in intents ==> i.action == BuyToOpen && i.maxNotional == 0.0
    ensures BoundaryCharges(a, intents) == Notional(OptionPass.Charges(intents), Share(a))
  {
    if intents == [] {
      assert Notional(0.0, Share(a)) == 0.0;
    } else {
      var before, i := intents[..|intents| - 1], intents[|intents| - 1];
      PremiumsAreShared(a, before);
      assert i in intents;
      PremiumIsShared(a, i);
      NotionalAdds(OptionPass.Charges(before), OptionPass.Charge(i), Share(a));
    }
  }

  lemma TurnKeepsBoundaryBudget(a: Admission, run: OptionPass.OptionRun, i: OptionIntent, mode: OptionPass.OptionMode, power: real)
    requires Amounts(i) && BoundaryCharges(a, run.accepted) <= power - run.power
    ensures var next := OptionPass.Turn(run, i, mode);
            BoundaryCharges(a, next.accepted) <= power - next.power
  {
    BoundaryChargesNext(a, run.accepted, i);
    if OptionPass.Decide(i, run.power) == OptionPass.Send {
      BoundaryChargeShrinks(a, i);
    }
  }

  /** The option budget at the broker boundary: what the accepted intents are charged after scaling is at most
      what the pass took out of the buying power. */
  lemma {:induction false} OptionsStayInBudget(a: Admission, intents: seq<OptionIntent>, k: nat, power: real, mode: OptionPass.OptionMode)
    requires k <= |intents| && forall i :: i in intents ==> Amounts(i)
    ensures var run := OptionPass.Run(intents, k, power, mode);
            BoundaryCharges(a, run.accepted) <= power - run.power
  {
    if k > 0 {
      OptionsStayInBudget(a, intents, k - 1, power, mode);
      assert intents[k - 1] in intents;
      TurnKeepsBoundaryBudget(a, OptionPass.Run(intents, k - 1, power, mode), intents[k - 1], mode, power);
    }
  }

  // --------------------------------------------------------------- whole cycles

  /** A cycle and its option pass under one portfolio: the plan judges it, and the submissions see the snapshot
      the plan bound. */
  datatype Guard = Guard(lib: Library, p: Portfolio, smallAccountWarning: bool, cashOnly: bool)
  {
    function Gates(): Gates {
      Passes.Gates(smallAccountWarning, PlanVerdict(lib, p).prohibited, cashOnly)
    }

    function AtSubmission(): Admission {
      SubmitVerdict(lib, Some(SnapshotOf(lib, p)))
    }
  }

  /** New-risk safety of the equity passes behind the adapter: when the verdict prohibits, nothing on the buy
      side is even submitted; otherwise the buys cost, at the broker boundary, no more than the investable
      buying power. */
  lemma EquitiesAreSafe(b: Book, sweep: nat, order: seq<Symbol>, gates: Gates, r: Readings, a: Admission, broker: Broker)
    requires gates.newRiskProhibited == a.prohibited
    ensures var cycle := RunPasses(b, sweep, order, Live(Guarded(a, broker)), gates, r);
            && (a.prohibited ==> cycle.run.orders == cycle.sells.orders)
            && (cycle.deferred.None? ==> BoundaryCost(a, cycle.run.trace) <= Investable(cycle.buyingPower, b.reserved))
  {
    var mode := Live(Guarded(a, broker));
    var cycle := RunPasses(b, sweep, order, mode, gates, r);
    if a.prohibited {
      ProhibitedPlanSendsNoBuy(b, sweep, order, mode, gates, r);
    }
    if cycle.deferred.None? {
      var budget := Investable(cycle.buyingPower, b.reserved);
      Ledger.SellsBuyNothing(b, SellerOf(b, sweep), order, |order|, mode);
      Ledger.BookIsFrugal(b);
      BookIsPositive(b);
      Ledger.BudgetDecays(b, BuyerOf(b), cycle.sells, |b.targetOrder|, budget, mode);
      BoundaryStaysInBudget(b, BuyerOf(b), cycle.sells, |b.targetOrder|, budget, a, mode);
      SellsCostNothing(b, SellerOf(b, sweep), order, |order|, a, mode);
    }
  }

  /** New-risk safety of a whole cycle with its options, from the portfolio alone: the snapshot the plan judged
      is the one the submissions see, so while it prohibits, no equity buy is submitted and no single-leg option
      buy reaches the broker or is accepted; otherwise the equity buys and the options cost, at the broker
      boundary, no more than the investable and the whole buying power. */
  lemma NewRiskIsSafe(g: Guard, b: Book, sweep: nat, order: seq<Symbol>, r: Readings, broker: Broker,
                      intents: seq<OptionIntent>, optionBroker: OptionPass.OptionBroker)
    requires g.lib.accepts(SnapshotOf(g.lib, Observed(g.lib, g.p)))
    ensures g.AtSubmission() == PlanVerdict(g.lib, g.p)
    ensures var a := g.AtSubmission();
            var cycle := RunPasses(b, sweep, order, Live(Guarded(a, broker)), g.Gates(), r);
            var options := OptionPass.Run(intents, |intents|, cycle.buyingPower, OptionPass.SendOptions(GuardedOptions(a, optionBroker)));
            && AllScaledFrom(Forwarded(a, options.sent), intents)
            && (a.prohibited ==>
                  && cycle.run.orders == cycle.sells.orders
                  && NoOptionBuys(Forwarded(a, options.sent)) && NoOptionBuys(options.accepted))
            && (cycle.deferred.None? ==> BoundaryCost(a, cycle.run.trace) <= Investable(cycle.buyingPower, b.reserved))
            && ((forall i :: i in intents ==> Amounts(i)) ==> BoundaryCharges(a, options.accepted) <= cycle.buyingPower)
  {
    VerdictsAgree(g.lib, g.p);
    var a := g.AtSubmission();
    EquitiesAreSafe(b, sweep, order, g.Gates(), r, a, broker);
    var cycle := RunPasses(b, sweep, order, Live(Guarded(a, broker)), g.Gates(), r);
    var mode := OptionPass.SendOptions(GuardedOptions(a, optionBroker));
    OptionsBehindAdapter(a, optionBroker, intents, |intents|, cycle.buyingPower);
    assert cycle.buyingPower >= 0.0;
    OptionPass.OptionBudget(intents, |intents|, cycle.buyingPower, mode);
    if forall i :: i in intents ==> Amounts(i) {
      OptionsStayInBudget(a, intents, |intents|, cycle.buyingPower, mode);
    }
  }
}
