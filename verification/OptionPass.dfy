/** The option pass: intents are checked one by one against a running buying power. */
module OptionPass {
  import opened Quantity
  import opened Sums
  import opened Orders
  import Ledger

  type OptionBroker = (nat, OptionIntent) -> Report

  datatype OptionMode = PreviewOptions | SendOptions(broker: OptionBroker)

  predicate Executable(i: OptionIntent) {
    && i.isOption
    && (|| (i.kind == SingleLeg && (i.action == BuyToOpen || i.action == SellToClose))
        || (i.kind == MultiLeg && i.action == SellPutCreditSpread))
  }

  /** The premium at the limit, whatever cap is stated. */
  function Premium(i: OptionIntent): real {
    Notional(Notional(i.quantity, i.limit), if i.multiplier != 0.0 then i.multiplier else 100.0)
  }

  /** The premium a buy is budgeted for: the stated cap, or the premium at the limit. */
  function EstimatedNotional(i: OptionIntent): real {
    if i.maxNotional != 0.0 then i.maxNotional else Premium(i)
  }

  /** What an accepted intent takes out of the buying power: the premium of a buy, the defined
      loss of a spread, nothing for a closing sale. */
  function Charge(i: OptionIntent): real {
    if i.action == BuyToOpen then EstimatedNotional(i)
    else if i.kind == MultiLeg then i.maxLoss
    else 0.0
  }

  datatype OptionDecision = NotExecutable | NoQuantity | TooExpensive | TooRisky | Send

  function Decide(i: OptionIntent, power: real): OptionDecision {
    if !Executable(i) then NotExecutable
    else if i.quantity <= 0.0 then NoQuantity
    else if i.action == BuyToOpen && EstimatedNotional(i) > Max(0.0, power * 0.95) then TooExpensive
    else if i.kind == MultiLeg && i.maxLoss > Max(0.0, power * 0.95) then TooRisky
    else Send
  }

  /** A pass under way: each intent sent with its answer, the intents alone, those accepted, the buying
      power left, and the filed lists. */
  datatype OptionRun = OptionRun(
    trace: seq<(OptionIntent, Result)>,
    sent: seq<OptionIntent>,
    accepted: seq<OptionIntent>,
    power: real,
    lists: Lists<OptionIntent>)

  function Answer(mode: OptionMode, n: nat, i: OptionIntent): Result {
    if mode.PreviewOptions? then Previewed else Reported(mode.broker(n, i))
  }

  function Turn(run: OptionRun, i: OptionIntent, mode: OptionMode): OptionRun {
    if Decide(i, run.power) != Send then run
    else
      var result := Answer(mode, |run.sent|, i);
      OptionRun(run.trace + [(i, result)],
                run.sent + [i],
                if Accepted(result) then run.accepted + [i] else run.accepted,
                if Accepted(result) then run.power - Charge(i) else run.power,
                Filed(run.lists, i, result))
  }

  /** The pass over the first k intents. */
  function Run(intents: seq<OptionIntent>, k: nat, power: real, mode: OptionMode): OptionRun
    requires k <= |intents|
  {
    if k == 0 then OptionRun([], [], [], power, NoOrders())
    else Turn(Run(intents, k - 1, power, mode), intents[k - 1], mode)
  }

  function Charges(intents: seq<OptionIntent>): real {
    if intents == [] then 0.0
    else Charges(intents[..|intents| - 1]) + Charge(intents[|intents| - 1])
  }

  lemma ChargesNext(intents: seq<OptionIntent>, i: OptionIntent)
    ensures Charges(intents + [i]) == Charges(intents) + Charge(i)
  {
    assert (intents + [i])[..|intents|] == intents;
  }

  /** At least 0.05^n of the start is left after n accepted orders, and what is gone is exactly
      the charges of the accepted orders. */
  ghost predicate InBudget(run: OptionRun, power: real) {
    && 0.0 <= Ledger.Decayed(power, |run.accepted|) <= run.power
    && Charges(run.accepted) == power - run.power
  }

  /** An executable intent is sent exactly when it asks for something and its charge is within 95 percent
      of the buying power; a closing sale charges nothing. */
  lemma SendsExactly(i: OptionIntent, power: real)
    ensures Decide(i, power) == Send <==> Executable(i) && i.quantity > 0.0 && Charge(i) <= Max(0.0, power * 0.95)
    ensures Executable(i) && i.action == SellToClose ==> Charge(i) == 0.0
  {
  }

  /** What one turn sends and charges, kind by kind. An option on a single leg that is bought to open is sent
      when its cap, or its premium, is within 95 percent of the buying power, and takes that; one that is sold to
      close is always sent, and takes nothing; a put credit spread is sent when its defined loss is within
      95 percent, and takes that. Nothing else is sent, and an order that is not accepted takes nothing. */
  lemma TurnExactly(run: OptionRun, i: OptionIntent, mode: OptionMode)
    ensures var next, cost := Turn(run, i, mode), if i.maxNotional != 0.0 then i.maxNotional else Premium(i);
            var limit := Max(0.0, run.power * 0.95);
            var bought := i.kind == SingleLeg && i.action == BuyToOpen && cost <= limit;
            var closed := i.kind == SingleLeg && i.action == SellToClose;
            var spread := i.kind == MultiLeg && i.action == SellPutCreditSpread && i.maxLoss <= limit;
            && (next.sent == run.sent + [i] <==> i.isOption && i.quantity > 0.0 && (bought || closed || spread))
            && (next.sent == run.sent || next.sent == run.sent + [i])
            && (next.accepted == run.accepted || next.accepted == run.accepted + [i])
            && (next.accepted == run.accepted + [i] <==> next.sent == run.sent + [i] && Accepted(Answer(mode, |run.sent|, i)))
            && run.power - next.power == if next.accepted == run.accepted then 0.0
                                         else if bought then cost else if spread then i.maxLoss else 0.0
  {
  }

  lemma TurnStaysInBudget(run: OptionRun, i: OptionIntent, mode: OptionMode, power: real)
    requires InBudget(run, power)
    ensures InBudget(Turn(run, i, mode), power)
  {
    ChargesNext(run.accepted, i);
    if Decide(i, run.power) == Send {
      SendsExactly(i, run.power);
      var charge := Charge(i);
      assert run.power - charge >= 0.05 * run.power;
    }
  }

  /** Budget of the option pass. Over any intents, also ones with negative notionals or losses, the
      running power stays non-negative, at least 0.05^n of the start is left after n accepted
      orders, and the premiums and defined losses taken together never exceed the start. */
  lemma {:induction false} OptionBudget(intents: seq<OptionIntent>, k: nat, power: real, mode: OptionMode)
    requires k <= |intents| && power >= 0.0
    ensures InBudget(Run(intents, k, power, mode), power)
    ensures Charges(Run(intents, k, power, mode).accepted) <= power
  {
    if k > 0 {
      OptionBudget(intents, k - 1, power, mode);
      TurnStaysInBudget(Run(intents, k - 1, power, mode), intents[k - 1], mode, power);
    }
  }

  lemma {:induction false} AcceptedWereAsked(intents: seq<OptionIntent>, k: nat, power: real, mode: OptionMode, i: OptionIntent)
    requires k <= |intents| && i in Run(intents, k, power, mode).accepted
    ensures i in intents
  {
    if i in Run(intents, k - 1, power, mode).accepted {
      AcceptedWereAsked(intents, k - 1, power, mode, i);
    }
  }

  /** Dry-run fidelity of the options: when no report fails, a live pass sends and accepts the intents the
      preview does and leaves the same buying power. */
  lemma {:induction false} PreviewIsFaithful(intents: seq<OptionIntent>, k: nat, power: real, broker: OptionBroker)
    requires k <= |intents| && forall n: nat, i: OptionIntent :: Classify(broker(n, i).status) != Failed
    ensures var preview, live := Run(intents, k, power, PreviewOptions), Run(intents, k, power, SendOptions(broker));
            preview.sent == live.sent && preview.accepted == live.accepted == live.sent && preview.power == live.power
  {
    if k > 0 {
      PreviewIsFaithful(intents, k - 1, power, broker);
      var n := |Run(intents, k - 1, power, SendOptions(broker)).sent|;
      assert Classify(broker(n, intents[k - 1]).status) != Failed;
    }
  }

  // ------------------------------------------------------- caps and premiums

  /** An option without a multiplier counts a hundred shares. */
  lemma PremiumByMultiplier(i: OptionIntent)
    ensures i.multiplier == 0.0 ==> Premium(i) == 100.0 * (i.quantity * i.limit)
    ensures i.multiplier != 0.0 ==> Premium(i) == i.multiplier * (i.quantity * i.limit)
  {
  }

  /** No cap is stated, or the stated one covers the premium. */
  predicate CapCovers(i: OptionIntent) {
    i.maxNotional == 0.0 || Premium(i) <= i.maxNotional
  }

  /** What an accepted intent commits at its limit: the premium of a buy, the defined loss of a spread. */
  function Outlay(i: OptionIntent): real {
    if i.action == BuyToOpen then Premium(i) else if i.kind == MultiLeg then i.maxLoss else 0.0
  }

  function Outlays(intents: seq<OptionIntent>): real {
    if intents == [] then 0.0
    else Outlays(intents[..|intents| - 1]) + Outlay(intents[|intents| - 1])
  }

  lemma OutlaysNext(intents: seq<OptionIntent>, i: OptionIntent)
    ensures Outlays(intents + [i]) == Outlays(intents) + Outlay(i)
  {
    assert (intents + [i])[..|intents|] == intents;
  }

  /** When every stated cap covers its premium, the premiums and losses committed are within what the pass took
      out of the buying power, and so within the buying power. */
  lemma {:induction false} OutlaysStayInBudget(intents: seq<OptionIntent>, k: nat, power: real, mode: OptionMode)
    requires k <= |intents| && power >= 0.0 && forall i :: i in intents ==> CapCovers(i)
    ensures var run := Run(intents, k, power, mode);
            Outlays(run.accepted) <= power - run.power <= power
  {
    OptionBudget(intents, k, power, mode);
    if k > 0 {
      OutlaysStayInBudget(intents, k - 1, power, mode);
      var i := intents[k - 1];
      assert i in intents;
      OutlaysNext(Run(intents, k - 1, power, mode).accepted, i);
    }
  }

  /** A buy's premium is within 95 percent of every buying power it is sent from exactly when its cap, if it
      states one, covers the premium: the budget check reads the cap alone. A negative cap covers no premium;
      with one the buy is sent from any buying power. */
  lemma PremiumIsAffordableExactly(i: OptionIntent)
    requires Executable(i) && i.action == BuyToOpen && i.quantity > 0.0
    ensures (forall power :: power >= 0.0 && Decide(i, power) == Send ==> Premium(i) <= power * 0.95)
       <==> i.maxNotional == 0.0 || Premium(i) <= Max(0.0, i.maxNotional)
    ensures i.maxNotional < 0.0 ==> forall power :: Decide(i, power) == Send
  {
    if i.maxNotional != 0.0 && Premium(i) > Max(0.0, i.maxNotional) {
      var power := Max(0.0, i.maxNotional) / 0.95;
      assert power * 0.95 == Max(0.0, i.maxNotional);
      assert power >= 0.0 && Decide(i, power) == Send;
    }
  }

  /** One contract at 5 with a stated cap of 10 is sent from a buying power of 20, and costs 500. */
  lemma ACapBelowThePremium()
    ensures var i := OptionIntent("SPX", true, SingleLeg, BuyToOpen, 1.0, 5.0, 100.0, 10.0, 0.0);
            Decide(i, 20.0) == Send && Charge(i) == 10.0 && Premium(i) == 500.0
  {
    assert Notional(1.0, 5.0) == 5.0 && Notional(5.0, 100.0) == 500.0;
  }

  // ------------------------------------------------------------ conservation

  /** The intents of a trace answered with an outcome (None: previewed), in the order they were sent. */
  function IntentsWith(trace: seq<(OptionIntent, Result)>, o: Option<Outcome>): seq<OptionIntent> {
    if trace == [] then []
    else
      var (i, result) := trace[|trace| - 1];
      IntentsWith(trace[..|trace| - 1], o) + if Is(result, o) then [i] else []
  }

  lemma IntentsWithNext(trace: seq<(OptionIntent, Result)>, i: OptionIntent, result: Result, o: Option<Outcome>)
    ensures IntentsWith(trace + [(i, result)], o) == IntentsWith(trace, o) + if Is(result, o) then [i] else []
  {
    assert (trace + [(i, result)])[..|trace|] == trace;
  }

  /** i was sent at most as often as it was asked for, only if executable, and filed as often as sent; the
      list of an outcome holds exactly the intents that had it, in the order they were sent. */
  ghost predicate Accounted(run: OptionRun, i: OptionIntent, asked: nat, outcome: Option<Outcome>) {
    && Multiplicity(run.lists, i) == multiset(run.sent)[i] <= asked
    && (i in run.sent ==> Executable(i) && i.quantity > 0.0)
    && ListOf(run.lists, outcome) == IntentsWith(run.trace, outcome)
  }

  lemma TurnAccounts(run: OptionRun, next: OptionIntent, mode: OptionMode, i: OptionIntent, asked: nat, outcome: Option<Outcome>)
    requires Accounted(run, i, asked, outcome)
    ensures Accounted(Turn(run, next, mode), i, asked + multiset([next])[i], outcome)
  {
    var result := Answer(mode, |run.sent|, next);
    CountAppend(run.sent, [next], i);
    FilingCountsOne(run.lists, next, result, i);
    FilingExtends(run.lists, next, result, outcome);
    IntentsWithNext(run.trace, next, result, outcome);
  }

  lemma PrefixCount<T>(xs: seq<T>, k: nat, x: T)
    requires 0 < k <= |xs|
    ensures multiset(xs[..k])[x] == multiset(xs[..k - 1])[x] + multiset([xs[k - 1]])[x]
  {
    PrefixNext(xs, k - 1);
    CountAppend(xs[..k - 1], [xs[k - 1]], x);
  }

  /** Every option order is sent at most as often as asked and filed exactly once, in the list of its own
      outcome. */
  lemma {:induction false} OptionsAreConserved(intents: seq<OptionIntent>, k: nat, power: real, mode: OptionMode,
                                               i: OptionIntent, outcome: Option<Outcome>)
    requires k <= |intents|
    ensures Accounted(Run(intents, k, power, mode), i, multiset(intents[..k])[i], outcome)
  {
    if k > 0 {
      OptionsAreConserved(intents, k - 1, power, mode, i, outcome);
      PrefixCount(intents, k, i);
      TurnAccounts(Run(intents, k - 1, power, mode), intents[k - 1], mode, i, multiset(intents[..k - 1])[i], outcome);
    }
  }

  /** The option loop of the source. */
  method ExecuteOptions(intents: seq<OptionIntent>, power: real, mode: OptionMode, summary: ExecutionSummary)
    returns (left: real)
    requires summary.Consistent() && summary.options == NoOrders()
    modifies summary
    ensures summary.Consistent() && summary.orders == old(summary.orders)
    ensures left == Run(intents, |intents|, power, mode).power
    ensures summary.options == Run(intents, |intents|, power, mode).lists
  {
    left := power;
    ghost var run := Run(intents, 0, power, mode);
    var n: nat := 0;
    for k := 0 to |intents|
      invariant summary.Consistent() && summary.orders == old(summary.orders)
      invariant run == Run(intents, k, power, mode)
      invariant left == run.power && summary.options == run.lists && n == |run.sent|
    {
      var i := intents[k];
      run := Turn(run, i, mode);
      if !Executable(i) {
        continue;
      }
      if i.quantity <= 0.0 {
        continue;
      }
      if i.action == BuyToOpen && EstimatedNotional(i) > Max(0.0, left * 0.95) {
        continue;
      }
      if i.kind == MultiLeg && i.maxLoss > Max(0.0, left * 0.95) {
        continue;
      }
      var result := Previewed;
      match mode {
        case PreviewOptions =>
        case SendOptions(broker) => result := Reported(broker(n, i));
      }
      summary.RecordOption(i, i.underlier, result);
      n := n + 1;
      if Accepted(result) {
        if i.action == BuyToOpen {
          left := left - EstimatedNotional(i);
        } else if i.kind == MultiLeg {
          left := left - i.maxLoss;
        }
      }
    }
  }
}
