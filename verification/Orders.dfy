/** Orders, broker reports, and how a report is filed in the execution summary. */
module Orders {
  import opened Quantity

  datatype Symbol = Ticker(name: string)

  datatype Option<+T> = None | Some(value: T)

  datatype Side = Buy | Sell

  /** Sells are market orders and carry a zero limit. */
  datatype Order = Order(symbol: Symbol, side: Side, quantity: real, limit: real)

  /** The broker statuses the source names; any other text is a failure. */
  datatype BrokerStatus =
    | FilledStatus
    | PartiallyFilledStatus
    | PartialStatus
    | PendingSubmit
    | ApiPending
    | ApiPendingSubmit
    | Submitted
    | PreSubmitted
    | OtherStatus(text: string)

  datatype Report = Report(status: BrokerStatus, quantity: real, filledQuantity: real, averagePrice: real)

  /** What the broker answers to the n-th submission of a cycle. */
  type Broker = (nat, Order) -> Report

  datatype Mode = DryRun | Live(broker: Broker)

  datatype Result = Previewed | Reported(report: Report)

  datatype Outcome = Filled | PartiallyFilled | Pending | Failed

  function Classify(status: BrokerStatus): Outcome {
    match status
    case FilledStatus => Filled
    case PartiallyFilledStatus | PartialStatus => PartiallyFilled
    case PendingSubmit | ApiPending | ApiPendingSubmit | Submitted | PreSubmitted => Pending
    case OtherStatus(_) => Failed
  }

  /** The submission was taken by the broker, or previewed in a dry run. */
  predicate Accepted(r: Result) {
    r.Previewed? || Classify(r.report.status) != Failed
  }

  /** The cash a sell report says it has released; a pending order releases nothing. */
  function ProjectedRelease(r: Report, fallbackPrice: real, fallbackQuantity: real): real {
    if Classify(r.status) != Filled && Classify(r.status) != PartiallyFilled then 0.0
    else
      var reported := r.filledQuantity;
      var filled :=
        if r.status == FilledStatus && reported <= 0.0
        then (if r.quantity != 0.0 then r.quantity else fallbackQuantity)
        else reported;
      var price := if r.averagePrice <= 0.0 then Max(0.0, fallbackPrice) else r.averagePrice;
      if filled <= 0.0 || price <= 0.0 then 0.0 else Notional(filled, price)
  }

  /** What a filled or partly filled report with a positive price or quote releases: its fill, at its average
      price, else at the quote; a full fill that names no fill counts its own quantity, else the ordered one. */
  lemma ReleaseAtQuote(r: Report, quote: real, ordered: real)
    requires r.status in {FilledStatus, PartiallyFilledStatus, PartialStatus} && quote > 0.0
    ensures var at := if r.averagePrice > 0.0 then r.averagePrice else quote;
            && (r.filledQuantity > 0.0 ==> ProjectedRelease(r, quote, ordered) == r.filledQuantity * at)
            && (r.filledQuantity <= 0.0 && r.status != FilledStatus ==> ProjectedRelease(r, quote, ordered) == 0.0)
            && (r.filledQuantity <= 0.0 && r.status == FilledStatus && r.quantity > 0.0 ==>
                  ProjectedRelease(r, quote, ordered) == r.quantity * at)
            && (r.filledQuantity <= 0.0 && r.status == FilledStatus && r.quantity == 0.0 && ordered > 0.0 ==>
                  ProjectedRelease(r, quote, ordered) == ordered * at)
  {
  }

  /** A report releases no more than it can back: nothing for a pending or failed order, and never more
      than the larger of the reported fill and the ordered quantity, at the larger of the reported price and
      the quote. A report of a fill at a price releases exactly that value. */
  lemma ReleaseIsBacked(r: Report, quote: real, ordered: real, quantity: real, price: real)
    requires r.filledQuantity <= quantity && r.quantity <= quantity && ordered <= quantity
    requires r.averagePrice <= price && quote <= price
    ensures 0.0 <= ProjectedRelease(r, quote, ordered)
    ensures Classify(r.status) == Pending || Classify(r.status) == Failed ==> ProjectedRelease(r, quote, ordered) == 0.0
    ensures ProjectedRelease(r, quote, ordered) > 0.0 ==> ProjectedRelease(r, quote, ordered) <= Notional(quantity, price)
    ensures (Classify(r.status) == Filled || Classify(r.status) == PartiallyFilled) && r.filledQuantity > 0.0 && r.averagePrice > 0.0
            ==> ProjectedRelease(r, quote, ordered) == Notional(r.filledQuantity, r.averagePrice)
  {
    var released := ProjectedRelease(r, quote, ordered);
    if released != 0.0 {
      var filled := if r.status == FilledStatus && r.filledQuantity <= 0.0
                    then (if r.quantity != 0.0 then r.quantity else ordered) else r.filledQuantity;
      var at := if r.averagePrice <= 0.0 then Max(0.0, quote) else r.averagePrice;
      assert released == Notional(filled, at) && filled > 0.0 && at > 0.0;
      NotionalPositive(filled, at);
      NotionalLess(filled, quantity, at);
      NotionalLessPrice(quantity, at, price);
    }
  }

  /** Why no buy pass runs. EstimateError is not a recorded reason: the guard's estimate has raised, and the
      cycle ends there. */
  datatype BlockReason = SmallAccount | NewRiskGate | PendingSellRelease | NegativeCash | EstimateError

  datatype SkipReason =
    | MissingPrice
    | MinNotional
    | QuantityZero
    | InsufficientBuyingPower
    | BuysBlocked(why: BlockReason)

  /** One step of a pass: an order handed over, or a symbol passed by. */
  datatype Entry =
    | Placed(order: Order, result: Result)
    | Skipped(symbol: Symbol, side: Side, reason: SkipReason)

  function Submit(mode: Mode, n: nat, order: Order): Entry {
    Placed(order, if mode.DryRun? then Previewed else Reported(mode.broker(n, order)))
  }

  // ---------------------------------------------------------- option intents

  datatype OptionKind = SingleLeg | MultiLeg | OtherKind

  datatype OptionAction = BuyToOpen | SellToClose | SellPutCreditSpread | OtherAction

  /** An option order asked for by the strategy. Zero stands for a missing amount. */
  datatype OptionIntent = OptionIntent(
    underlier: string,
    isOption: bool,
    kind: OptionKind,
    action: OptionAction,
    quantity: real,
    limit: real,
    multiplier: real,
    maxNotional: real,
    maxLoss: real)

  // ---------------------------------------------------------------- summary

  /** The order lists of an execution summary, for one kind of payload. */
  datatype Lists<T> = Lists(submitted: seq<T>, pending: seq<T>, filled: seq<T>, partial: seq<T>, failed: seq<T>)
  {
    predicate AnyAccepted() {
      submitted != [] || pending != [] || filled != [] || partial != []
    }

    predicate AnyTerminal() {
      submitted != [] || filled != [] || partial != []
    }
  }

  function NoOrders<T>(): Lists<T> {
    Lists([], [], [], [], [])
  }

  function Filed<T>(lists: Lists<T>, payload: T, result: Result): Lists<T> {
    match result
    case Previewed => lists.(submitted := lists.submitted + [payload])
    case Reported(r) =>
      match Classify(r.status)
      case Filled => lists.(filled := lists.filled + [payload])
      case PartiallyFilled => lists.(partial := lists.partial + [payload])
      case Pending => lists.(pending := lists.pending + [payload])
      case Failed => lists.(failed := lists.failed + [payload])
  }

  /** How often a payload has been filed, over all five lists. */
  ghost function Multiplicity<T>(l: Lists<T>, t: T): nat {
    multiset(l.submitted)[t] + multiset(l.pending)[t] + multiset(l.filled)[t]
    + multiset(l.partial)[t] + multiset(l.failed)[t]
  }

  lemma CountAppend<T>(a: seq<T>, b: seq<T>, t: T)
    ensures multiset(a + b)[t] == multiset(a)[t] + multiset(b)[t]
  {
  }

  /** Filing adds the payload once, to exactly one list. */
  lemma FilingCountsOne<T>(l: Lists<T>, filed: T, result: Result, t: T)
    ensures Multiplicity(Filed(l, filed, result), t) == Multiplicity(l, t) + multiset([filed])[t]
  {
    var one := [filed];
    CountAppend(l.submitted, one, t);
    CountAppend(l.pending, one, t);
    CountAppend(l.filled, one, t);
    CountAppend(l.partial, one, t);
    CountAppend(l.failed, one, t);
  }

  /** Where a report is filed, status by status. */
  lemma FiledByStatus<T>(l: Lists<T>, filed: T, r: Report)
    ensures r.status == FilledStatus ==> Filed(l, filed, Reported(r)) == l.(filled := l.filled + [filed])
    ensures r.status == PartiallyFilledStatus || r.status == PartialStatus ==>
              Filed(l, filed, Reported(r)) == l.(partial := l.partial + [filed])
    ensures r.status in {PendingSubmit, ApiPending, ApiPendingSubmit, Submitted, PreSubmitted} ==>
              Filed(l, filed, Reported(r)) == l.(pending := l.pending + [filed])
    ensures r.status.OtherStatus? ==> Filed(l, filed, Reported(r)) == l.(failed := l.failed + [filed])
    ensures Filed(l, filed, Previewed) == l.(submitted := l.submitted + [filed])
  {
  }

  /** The status of a cycle with one order, by the broker's answer. */
  lemma StatusOfOneOrder<T>(filed: T, r: Report, failures: seq<string>)
    requires failures == if r.status.OtherStatus? then ["submit_failed"] else []
    ensures var status := FinalStatus(Filed(NoOrders(), filed, Reported(r)), NoOrders<T>(), failures);
            && (status == Executed <==> r.status in {FilledStatus, PartiallyFilledStatus, PartialStatus})
            && (status == PendingReconciliation <==>
                  r.status in {PendingSubmit, ApiPending, ApiPendingSubmit, Submitted, PreSubmitted})
            && (status == BlockedBy("submit_failed") <==> r.status.OtherStatus?)
  {
  }

  predicate Is(r: Result, o: Option<Outcome>) {
    match o
    case None => r.Previewed?
    case Some(outcome) => r.Reported? && Classify(r.report.status) == outcome
  }

  /** The orders of a trace filed under an outcome (None: previewed), in submission order. */
  function OrdersWith(trace: seq<Entry>, o: Option<Outcome>): seq<Order> {
    if trace == [] then []
    else
      var e := trace[|trace| - 1];
      OrdersWith(trace[..|trace| - 1], o) + if e.Placed? && Is(e.result, o) then [e.order] else []
  }

  function ListOf<T>(l: Lists<T>, o: Option<Outcome>): seq<T> {
    match o
    case None => l.submitted
    case Some(Filled) => l.filled
    case Some(PartiallyFilled) => l.partial
    case Some(Pending) => l.pending
    case Some(Failed) => l.failed
  }

  lemma FilingExtends<T>(l: Lists<T>, filed: T, result: Result, o: Option<Outcome>)
    ensures ListOf(Filed(l, filed, result), o) == ListOf(l, o) + if Is(result, o) then [filed] else []
  {
  }

  function FailureReason(prefix: string, symbol: string, status: string): string {
    prefix + ":" + symbol + ":" + (if status == "" then "unknown" else status)
  }

  /** A failed submission reads submit_failed:symbol:status, and unknown where the broker gives no status. */
  lemma FailureReads(prefix: string, symbol: string, status: string)
    ensures var reason := FailureReason(prefix, symbol, status);
            && |reason| == |prefix| + 1 + |symbol| + 1 + (if status == "" then 7 else |status|)
            && reason[..|prefix|] == prefix && reason[|prefix|] == ':'
            && reason[|prefix| + 1..|prefix| + 1 + |symbol|] == symbol && reason[|prefix| + 1 + |symbol|] == ':'
            && reason[|prefix| + 1 + |symbol| + 1..] == if status == "" then "unknown" else status
  {
  }

  datatype Status = NotStarted | Executing | NoOp | BlockedBy(reason: string) | PendingReconciliation | Executed

  /** The status written after the passes. */
  function FinalStatus<T, U>(orders: Lists<T>, options: Lists<U>, failures: seq<string>): Status {
    if orders.pending != [] || options.pending != [] then PendingReconciliation
    else if orders.AnyTerminal() || options.AnyTerminal() then Executed
    else if failures != [] then BlockedBy(failures[0])
    else NoOp
  }

  /** Whether a finished cycle leaves its execution marker behind. */
  predicate ShouldRecordMarker<T, U>(dedup: bool, status: Status, orders: Lists<T>, options: Lists<U>) {
    dedup && !status.BlockedBy? && (status == Executed || orders.AnyAccepted() || options.AnyAccepted())
  }

  /** The status and the marker say exactly what happened to the submissions. */
  lemma StatusIsExact<T, U>(orders: Lists<T>, options: Lists<U>, failures: seq<string>, dedup: bool)
    requires failures != [] <==> orders.failed != [] || options.failed != []
    ensures var status := FinalStatus(orders, options, failures);
            var accepted := orders.AnyAccepted() || options.AnyAccepted();
            && (status == PendingReconciliation <==> orders.pending != [] || options.pending != [])
            && (status.BlockedBy? <==> !accepted && (orders.failed != [] || options.failed != []))
            && (status == NoOp <==> !accepted && orders.failed == [] && options.failed == [])
            && (ShouldRecordMarker(dedup, status, orders, options) <==> dedup && accepted)
  {
  }

  /** The mutable execution summary. */
  class ExecutionSummary {
    var orders: Lists<Order>
    var options: Lists<OptionIntent>
    var skips: seq<Entry>
    var failures: seq<string>
    var status: Status

    constructor ()
      ensures orders == NoOrders() && options == NoOrders() && skips == [] && failures == []
      ensures status == NotStarted && Consistent()
    {
      orders, options, skips, failures, status := NoOrders(), NoOrders(), [], [], NotStarted;
    }

    /** A failure reason is on record exactly when some submission failed. */
    ghost predicate Consistent()
      reads this
    {
      failures != [] <==> orders.failed != [] || options.failed != []
    }

    method RecordOrder(order: Order, result: Result)
      requires Consistent()
      modifies this
      ensures Consistent() && options == old(options) && status == old(status) && skips == old(skips)
      ensures orders == Filed(old(orders), order, result)
      ensures Accepted(result) ==> failures == old(failures)
      ensures !Accepted(result) ==>
                failures == old(failures) + [FailureReason("submit_failed", order.symbol.name, result.report.status.text)]
    {
      match result {
        case Previewed =>
          orders := orders.(submitted := orders.submitted + [order]);
        case Reported(report) =>
          var outcome := Classify(report.status);
          if outcome == Filled {
            orders := orders.(filled := orders.filled + [order]);
          } else if outcome == PartiallyFilled {
            orders := orders.(partial := orders.partial + [order]);
          } else if outcome == Pending {
            orders := orders.(pending := orders.pending + [order]);
          } else {
            orders := orders.(failed := orders.failed + [order]);
            failures := failures + [FailureReason("submit_failed", order.symbol.name, report.status.text)];
          }
      }
    }

    method RecordOption(payload: OptionIntent, name: string, result: Result)
      requires Consistent()
      modifies this
      ensures Consistent() && orders == old(orders) && status == old(status) && skips == old(skips)
      ensures options == Filed(old(options), payload, result)
      ensures Accepted(result) ==> failures == old(failures)
      ensures !Accepted(result) ==>
                failures == old(failures) + [FailureReason("option_submit_failed", name, result.report.status.text)]
    {
      match result {
        case Previewed =>
          options := options.(submitted := options.submitted + [payload]);
        case Reported(report) =>
          var outcome := Classify(report.status);
          if outcome == Filled {
            options := options.(filled := options.filled + [payload]);
          } else if outcome == PartiallyFilled {
            options := options.(partial := options.partial + [payload]);
          } else if outcome == Pending {
            options := options.(pending := options.pending + [payload]);
          } else {
            options := options.(failed := options.failed + [payload]);
            failures := failures + [FailureReason("option_submit_failed", name, report.status.text)];
          }
      }
    }

    method RecordSkip(symbol: Symbol, side: Side, reason: SkipReason)
      modifies this`skips
      ensures skips == old(skips) + [Skipped(symbol, side, reason)]
    {
      skips := skips + [Skipped(symbol, side, reason)];
    }

    /** The last lines of a cycle: what happened decides the status. */
    method Finish()
      requires Consistent()
      modifies this`status
      ensures status == FinalStatus(orders, options, failures)
    {
      if orders.pending != [] || options.pending != [] {
        status := PendingReconciliation;
      } else if orders.AnyTerminal() || options.AnyTerminal() {
        status := Executed;
      } else if failures != [] {
        status := BlockedBy(failures[0]);
      } else {
        status := NoOp;
      }
    }
  }
}
