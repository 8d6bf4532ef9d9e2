/** Paper command reconciliation: from a target artifact and the current portfolio to one proposal per
    symbol, and the exposure classification it shares with the paper admission. */
module PaperReconciliation {
  import opened Quantity
  import opened Sums
  import opened Orders
  import opened TargetProjection

  const SCHEMA := "ibkr.paper-execution-intent.v1"
  const TOLERANCE := 0.01

  datatype Finding = DataArtifactInvalid | PositionReconciliationMismatch

  datatype Effect = Reduces | Increases | Neutral

  /** targets is None when the artifact holds no mapping; a target is None when it is not a finite number. */
  datatype Intent = Intent(schema: string, mode: string, targets: Option<map<Symbol, Option<real>>>, symbols: set<Symbol>)

  /** Numbers are None when they are missing or not finite. */
  datatype Position = Position(symbol: Symbol, quantity: Option<real>, recorded: Option<real>)

  datatype Portfolio = Portfolio(positions: seq<Position>, cash: Option<real>, equity: Option<real>)

  datatype Proposal = Proposal(
    symbol: Symbol, effect: Effect, buy: bool,
    quantity: real, price: real, current: real, target: real, delta: real, held: real)

  datatype Reconciliation = Reconciliation(proposals: seq<Proposal>, findings: seq<Finding>)

  /** The quote loader may answer differently each time: marks are its answers while the positions are
      valued, one per position; quotes its answers while the proposals are priced. None is a failure. */
  type Marks = nat -> Option<real>
  type Quotes = Symbol -> Option<real>

  predicate Usable(price: Option<real>) {
    price.Some? && price.value > 0.0
  }

  function Slack(value: real): real {
    Max(1.0, Abs(value) * 0.005)
  }

  // ----------------------------------------------------------------- artifact

  predicate Named(s: Symbol) {
    s.name != ""
  }

  predicate ArtifactValid(intent: Intent, managed: set<Symbol>) {
    && intent.schema == SCHEMA && intent.mode == "value" && intent.targets.Some?
    && (forall s :: s in intent.targets.value && Named(s) ==> intent.targets.value[s].Some? && intent.targets.value[s].value >= 0.0)
    && intent.symbols != {}
    && intent.symbols == (set s | s in managed && Named(s))
    && (set s | s in intent.targets.value && Named(s)) == intent.symbols
  }

  // ---------------------------------------------------------------- positions

  predicate Readable(p: Position, mark: Option<real>, symbols: set<Symbol>) {
    p.symbol in symbols && p.quantity.Some? && p.recorded.Some? && Usable(mark)
  }

  function MarkedValue(p: Position, mark: Option<real>): real
    requires p.quantity.Some? && mark.Some?
  {
    Notional(p.quantity.value, mark.value)
  }

  predicate PositionFine(p: Position, mark: Option<real>, symbols: set<Symbol>) {
    && Readable(p, mark, symbols)
    && p.quantity.value >= -TOLERANCE && p.recorded.value >= -TOLERANCE
    && Abs(p.recorded.value - MarkedValue(p, mark)) <= Slack(MarkedValue(p, mark))
  }

  /** The tolerance in money: within 1, or within half a percent of the marked value. */
  lemma MarkTolerance(p: Position, mark: Option<real>, symbols: set<Symbol>)
    requires PositionFine(p, mark, symbols)
    ensures var value, gap := p.quantity.value * mark.value, Abs(p.recorded.value - p.quantity.value * mark.value);
            gap <= 1.0 || gap <= 0.005 * Abs(value)
  {
  }

  /** So a position in order is worth at least -1.01 at its mark: a short of any size is a finding. */
  lemma NoRealShort(p: Position, mark: Option<real>, symbols: set<Symbol>)
    requires PositionFine(p, mark, symbols)
    ensures MarkedValue(p, mark) >= -1.01
  {
  }

  /** What a valid artifact is worth: each managed symbol has one finite target, not negative, and no other
      symbol has one. */
  lemma ArtifactCovers(intent: Intent, managed: set<Symbol>, s: Symbol)
    requires ArtifactValid(intent, managed) && s.name != ""
    ensures s in managed <==> s in intent.targets.value
    ensures s in managed ==> intent.targets.value[s].Some? && intent.targets.value[s].value >= 0.0
    ensures intent.schema == "ibkr.paper-execution-intent.v1" && intent.mode == "value"
  {
    var named := set x | x in managed && Named(x);
    var targeted := set x | x in intent.targets.value && Named(x);
    assert s in managed <==> s in named;
    assert s in intent.targets.value <==> s in targeted;
  }

  /** The marked value of a symbol over the first k positions; several may carry the same symbol. */
  function Current(ps: seq<Position>, marks: Marks, symbols: set<Symbol>, s: Symbol, k: nat): real
    requires k <= |ps|
  {
    if k == 0 then 0.0
    else
      var p := ps[k - 1];
      Current(ps, marks, symbols, s, k - 1)
      + if p.symbol == s && Readable(p, marks(k - 1), symbols) then MarkedValue(p, marks(k - 1)) else 0.0
  }

  function Held(ps: seq<Position>, marks: Marks, symbols: set<Symbol>, s: Symbol, k: nat): real
    requires k <= |ps|
  {
    if k == 0 then 0.0
    else
      var p := ps[k - 1];
      Held(ps, marks, symbols, s, k - 1)
      + if p.symbol == s && Readable(p, marks(k - 1), symbols) then p.quantity.value else 0.0
  }

  predicate AllFine(ps: seq<Position>, marks: Marks, symbols: set<Symbol>, k: nat)
    requires k <= |ps|
  {
    forall i: nat :: i < k ==> PositionFine(ps[i], marks(i), symbols)
  }

  method MarkPositions(ps: seq<Position>, marks: Marks, symbols: set<Symbol>)
    returns (quantities: Targets, current: Targets, findings: seq<Finding>)
    ensures quantities.Keys <= symbols && current.Keys <= symbols
    ensures forall s :: Get(current, s) == Current(ps, marks, symbols, s, |ps|)
    ensures forall s :: Get(quantities, s) == Held(ps, marks, symbols, s, |ps|)
    ensures findings == [] <==> AllFine(ps, marks, symbols, |ps|)
    ensures forall f :: f in findings ==> f == PositionReconciliationMismatch
  {
    quantities, current, findings := map[], map[], [];
    for i := 0 to |ps|
      invariant quantities.Keys <= symbols && current.Keys <= symbols
      invariant forall s :: Get(current, s) == Current(ps, marks, symbols, s, i)
      invariant forall s :: Get(quantities, s) == Held(ps, marks, symbols, s, i)
      invariant findings == [] <==> AllFine(ps, marks, symbols, i)
      invariant forall f :: f in findings ==> f == PositionReconciliationMismatch
    {
      var p, mark := ps[i], marks(i);
      assert AllFine(ps, marks, symbols, i + 1) <==> AllFine(ps, marks, symbols, i) && PositionFine(p, mark, symbols);
      if p.symbol !in symbols {
        findings := findings + [PositionReconciliationMismatch];
        continue;
      }
      if p.quantity == None || p.recorded == None || !Usable(mark) {
        findings := findings + [PositionReconciliationMismatch];
        continue;
      }
      var value := Notional(p.quantity.value, mark.value);
      if p.quantity.value < -TOLERANCE || p.recorded.value < -TOLERANCE {
        findings := findings + [PositionReconciliationMismatch];
      }
      if Abs(p.recorded.value - value) > Slack(value) {
        findings := findings + [PositionReconciliationMismatch];
      }
      quantities := quantities[p.symbol := Get(quantities, p.symbol) + p.quantity.value];
      current := current[p.symbol := Get(current, p.symbol) + value];
    }
  }

  // ------------------------------------------------------------------- equity

  ghost function Gross(current: Targets, symbols: set<Symbol>): real {
    SumOver(symbols, (s: Symbol) => Get(current, s))
  }

  method SumOfValues(current: Targets, symbols: set<Symbol>, order: seq<Symbol>) returns (total: real)
    requires current.Keys <= symbols && Enumerates(order, symbols)
    ensures total == Gross(current, symbols)
  {
    var value: Symbol -> real := (s: Symbol) => Get(current, s);
    total := 0.0;
    for i := 0 to |order|
      invariant total == SumSeq(order[..i], value)
    {
      PrefixNext(order, i);
      SumSeqAppend(order[..i], [order[i]], value);
      SumSeqOne(order[i], value);
      if order[i] in current {
        total := total + current[order[i]];
      }
    }
    assert order[..|order|] == order;
    SumOfEnumeration(order, symbols, value);
  }

  ghost predicate EquityFine(portfolio: Portfolio, current: Targets, symbols: set<Symbol>) {
    && portfolio.cash.Some? && portfolio.equity.Some?
    && Abs(portfolio.cash.value + Gross(current, symbols) - portfolio.equity.value) <= Slack(portfolio.equity.value)
  }

  /** Cash and holdings match the reported equity within 1, or within half a percent of it. */
  lemma EquityTolerance(portfolio: Portfolio, current: Targets, symbols: set<Symbol>)
    requires EquityFine(portfolio, current, symbols)
    ensures var gap := Abs(portfolio.cash.value + Gross(current, symbols) - portfolio.equity.value);
            gap <= 1.0 || gap <= 0.005 * Abs(portfolio.equity.value)
  {
  }

  lemma GrossAgrees(current: Targets, current': Targets, symbols: set<Symbol>)
    requires forall s :: s in symbols ==> Get(current, s) == Get(current', s)
    ensures Gross(current, symbols) == Gross(current', symbols)
  {
    SumAgree(symbols, (s: Symbol) => Get(current, s), (s: Symbol) => Get(current', s));
  }

  method CheckEquity(portfolio: Portfolio, current: Targets, symbols: set<Symbol>, order: seq<Symbol>)
    returns (findings: seq<Finding>)
    requires current.Keys <= symbols && Enumerates(order, symbols)
    ensures findings == if EquityFine(portfolio, current, symbols) then [] else [PositionReconciliationMismatch]
  {
    findings := [];
    if portfolio.cash == None || portfolio.equity == None {
      return [PositionReconciliationMismatch];
    }
    var gross := SumOfValues(current, symbols, order);
    if Abs(portfolio.cash.value + gross - portfolio.equity.value) > Slack(portfolio.equity.value) {
      return [PositionReconciliationMismatch];
    }
  }

  // ---------------------------------------------------------------- proposals

  function Classify(current: real, target: real): Effect {
    if Abs(target) < Abs(current) - TOLERANCE then Reduces
    else if Abs(target) > Abs(current) + TOLERANCE then Increases
    else Neutral
  }

  predicate Moves(current: real, target: real) {
    Abs(target - current) > TOLERANCE
  }

  function ProposalFor(s: Symbol, current: real, target: real, price: real, held: real): Proposal
    requires price > 0.0
  {
    var delta := target - current;
    Proposal(s, Classify(current, target), delta > 0.0, Abs(delta) / price, price, current, target, delta, held)
  }

  /** The proposals over the first k symbols. */
  function Proposed(order: seq<Symbol>, current: Targets, targets: Targets, held: Targets, quotes: Quotes, k: nat): seq<Proposal>
    requires k <= |order|
  {
    if k == 0 then []
    else
      var s := order[k - 1];
      var before := Proposed(order, current, targets, held, quotes, k - 1);
      if Moves(Get(current, s), Get(targets, s)) && Usable(quotes(s))
      then before + [ProposalFor(s, Get(current, s), Get(targets, s), quotes(s).value, Get(held, s))]
      else before
  }

  predicate Priced(order: seq<Symbol>, current: Targets, targets: Targets, quotes: Quotes, k: nat)
    requires k <= |order|
  {
    forall i :: 0 <= i < k && Moves(Get(current, order[i]), Get(targets, order[i])) ==> Usable(quotes(order[i]))
  }

  method Propose(order: seq<Symbol>, current: Targets, targets: Targets, held: Targets, quotes: Quotes)
    returns (proposals: seq<Proposal>, findings: seq<Finding>)
    requires forall s :: s in order ==> s in targets
    ensures proposals == Proposed(order, current, targets, held, quotes, |order|)
    ensures findings == [] <==> Priced(order, current, targets, quotes, |order|)
    ensures forall f :: f in findings ==> f == PositionReconciliationMismatch
  {
    proposals, findings := [], [];
    for k := 0 to |order|
      invariant proposals == Proposed(order, current, targets, held, quotes, k)
      invariant findings == [] <==> Priced(order, current, targets, quotes, k)
      invariant forall f :: f in findings ==> f == PositionReconciliationMismatch
    {
      var s := order[k];
      var now, target := Get(current, s), targets[s];
      var delta := target - now;
      if Abs(delta) <= TOLERANCE {
        continue;
      }
      var quote := quotes(s);
      if !Usable(quote) {
        findings := findings + [PositionReconciliationMismatch];
        continue;
      }
      var effect :=
        if Abs(target) < Abs(now) - TOLERANCE then Reduces
        else if Abs(target) > Abs(now) + TOLERANCE then Increases
        else Neutral;
      proposals := proposals +
        [Proposal(s, effect, delta > 0.0, Abs(delta) / quote.value, quote.value, now, target, delta, Get(held, s))];
    }
  }

  function Values(targets: map<Symbol, Option<real>>, symbols: set<Symbol>): Targets
    requires forall s :: s in symbols ==> s in targets && targets[s].Some?
  {
    map s | s in symbols :: targets[s].value
  }

  /** Current values and held quantities after all positions, as maps over the managed symbols. */
  function CurrentValues(portfolio: Portfolio, marks: Marks, symbols: set<Symbol>): Targets {
    map s | s in symbols :: Current(portfolio.positions, marks, symbols, s, |portfolio.positions|)
  }

  function HeldQuantities(portfolio: Portfolio, marks: Marks, symbols: set<Symbol>): Targets {
    map s | s in symbols :: Held(portfolio.positions, marks, symbols, s, |portfolio.positions|)
  }

  /** Everything that was read is in order. */
  ghost predicate Clean(portfolio: Portfolio, marks: Marks, quotes: Quotes, symbols: set<Symbol>, targets: Targets, order: seq<Symbol>) {
    var current := CurrentValues(portfolio, marks, symbols);
    && AllFine(portfolio.positions, marks, symbols, |portfolio.positions|)
    && EquityFine(portfolio, current, symbols)
    && Priced(order, current, targets, quotes, |order|)
  }

  lemma {:induction false} ProposedAgree(order: seq<Symbol>, current: Targets, current': Targets, targets: Targets,
                                         held: Targets, held': Targets, quotes: Quotes, k: nat)
    requires k <= |order|
    requires forall s :: s in order ==> Get(current, s) == Get(current', s) && Get(held, s) == Get(held', s)
    ensures Proposed(order, current, targets, held, quotes, k) == Proposed(order, current', targets, held', quotes, k)
    ensures Priced(order, current, targets, quotes, k) <==> Priced(order, current', targets, quotes, k)
  {
    if k > 0 {
      ProposedAgree(order, current, current', targets, held, held', quotes, k - 1);
      assert order[k - 1] in order;
    }
  }

  /** The target values of a valid artifact; None refuses it. */
  method ReadArtifact(intent: Intent, managed: set<Symbol>) returns (targets: Option<Targets>)
    ensures targets.Some? <==> ArtifactValid(intent, managed)
    ensures targets.Some? ==> targets.value == Values(intent.targets.value, intent.symbols)
  {
    if intent.schema != SCHEMA {
      return None;
    }
    if intent.mode != "value" || intent.targets == None {
      return None;
    }
    var raw := intent.targets.value;
    if exists s :: s in raw && Named(s) && raw[s] == None {
      return None;
    }
    if intent.symbols == {}
       || intent.symbols != (set s | s in managed && Named(s))
       || (set s | s in raw && Named(s)) != intent.symbols
       || exists s :: s in raw && Named(s) && raw[s].value < 0.0
    {
      return None;
    }
    assert forall s :: s in intent.symbols ==> s in (set s | s in raw && Named(s));
    targets := Some(Values(raw, intent.symbols));
  }

  lemma {:induction false} OnceOfOne<K(!new)>(xs: seq<K>, x: K)
    requires forall y :: y in xs ==> y == x
    ensures Once(xs) == if xs == [] then [] else [x]
  {
    if xs != [] {
      var rest := xs[..|xs| - 1];
      assert forall y :: y in rest ==> y in xs;
      assert xs[|xs| - 1] in xs;
      OnceOfOne(rest, x);
    }
  }

  lemma OnceOfParts<K(!new)>(xs: seq<K>, ys: seq<K>, zs: seq<K>, x: K)
    requires (forall y :: y in xs ==> y == x) && (forall y :: y in ys ==> y == x) && (forall y :: y in zs ==> y == x)
    ensures Once(xs + ys + zs) == if xs == [] && ys == [] && zs == [] then [] else [x]
  {
    OnceOfOne(xs + ys + zs, x);
  }

  /** Maps that hold the marked values and the quantities give the proposals and the checks of the account. */
  lemma AccumulatedAgree(portfolio: Portfolio, marks: Marks, quotes: Quotes, symbols: set<Symbol>, targets: Targets,
                         order: seq<Symbol>, current: Targets, quantities: Targets)
    requires forall s :: s in order ==> s in symbols
    requires forall s :: s in symbols ==> Get(current, s) == Current(portfolio.positions, marks, symbols, s, |portfolio.positions|)
    requires forall s :: s in symbols ==> Get(quantities, s) == Held(portfolio.positions, marks, symbols, s, |portfolio.positions|)
    ensures Proposed(order, current, targets, quantities, quotes, |order|)
         == Proposed(order, CurrentValues(portfolio, marks, symbols), targets, HeldQuantities(portfolio, marks, symbols), quotes, |order|)
    ensures Clean(portfolio, marks, quotes, symbols, targets, order)
       <==> && AllFine(portfolio.positions, marks, symbols, |portfolio.positions|)
            && EquityFine(portfolio, current, symbols) && Priced(order, current, targets, quotes, |order|)
  {
    var values, held := CurrentValues(portfolio, marks, symbols), HeldQuantities(portfolio, marks, symbols);
    GrossAgrees(current, values, symbols);
    ProposedAgree(order, current, values, targets, quantities, held, quotes, |order|);
  }

  /** The positions, the equity check and the proposals; order is the sorted order of the symbols. */
  method ReconcileAccount(portfolio: Portfolio, marks: Marks, quotes: Quotes, symbols: set<Symbol>, targets: Targets, order: seq<Symbol>)
    returns (r: Reconciliation)
    requires Enumerates(order, symbols) && targets.Keys == symbols
    ensures r.proposals == Proposed(order, CurrentValues(portfolio, marks, symbols), targets,
                                    HeldQuantities(portfolio, marks, symbols), quotes, |order|)
    ensures r.findings == if Clean(portfolio, marks, quotes, symbols, targets, order) then [] else [PositionReconciliationMismatch]
  {
    assert forall s :: s in order ==> s in Elements(order);
    var quantities, current, unmarked := MarkPositions(portfolio.positions, marks, symbols);
    var unbalanced := CheckEquity(portfolio, current, symbols, order);
    var proposals, unpriced := Propose(order, current, targets, quantities, quotes);
    AccumulatedAgree(portfolio, marks, quotes, symbols, targets, order, current, quantities);
    OnceOfParts(unmarked, unbalanced, unpriced, PositionReconciliationMismatch);
    r := Reconciliation(proposals, Once(unmarked + unbalanced + unpriced));
  }

  method Reconcile(intent: Intent, portfolio: Portfolio, marks: Marks, quotes: Quotes, managed: set<Symbol>, order: seq<Symbol>)
    returns (r: Reconciliation)
    requires Enumerates(order, intent.symbols)
    ensures !ArtifactValid(intent, managed) ==> r == Reconciliation([], [DataArtifactInvalid])
    ensures ArtifactValid(intent, managed) ==>
              var targets := Values(intent.targets.value, intent.symbols);
              && r.proposals == Proposed(order, CurrentValues(portfolio, marks, intent.symbols), targets,
                                         HeldQuantities(portfolio, marks, intent.symbols), quotes, |order|)
              && r.findings == if Clean(portfolio, marks, quotes, intent.symbols, targets, order) then [] else [PositionReconciliationMismatch]
  {
    var targets := ReadArtifact(intent, managed);
    if targets == None {
      return Reconciliation([], [DataArtifactInvalid]);
    }
    r := ReconcileAccount(portfolio, marks, quotes, intent.symbols, targets.value, order);
  }

  // --------------------------------------------------------------- exactness

  predicate ProposesFor(ps: seq<Proposal>, s: Symbol) {
    exists i :: 0 <= i < |ps| && ps[i].symbol == s
  }

  /** A proposal that trades its symbol exactly onto its target, at the quoted price. */
  predicate Exact(p: Proposal, current: real, target: real) {
    && p.current == current && p.target == target
    && current + p.delta == target
    && p.price > 0.0 && p.quantity > 0.0
    && Signed(p) == p.delta
    && p.effect == Classify(current, target)
  }

  /** What executing a proposal at its price adds to the holding. */
  function Signed(p: Proposal): real {
    if p.buy then Notional(p.quantity, p.price) else -Notional(p.quantity, p.price)
  }

  predicate ExactMove(p: Proposal, current: Targets, targets: Targets) {
    && Moves(Get(current, p.symbol), Get(targets, p.symbol))
    && Exact(p, Get(current, p.symbol), Get(targets, p.symbol))
  }

  ghost predicate ExactOn(ps: seq<Proposal>, symbols: seq<Symbol>, current: Targets, targets: Targets) {
    && (forall i :: 0 <= i < |ps| ==> ps[i].symbol in symbols && ExactMove(ps[i], current, targets))
    && (forall i, j :: 0 <= i < j < |ps| ==> ps[i].symbol != ps[j].symbol)
    && (forall s :: s in symbols && Moves(Get(current, s), Get(targets, s)) ==> ProposesFor(ps, s))
  }

  lemma ProposalIsExact(s: Symbol, current: real, target: real, price: real, held: real)
    requires price > 0.0 && Moves(current, target)
    ensures Exact(ProposalFor(s, current, target, price, held), current, target)
  {
    var delta := target - current;
    NotionalOfQuotient(Abs(delta), price);
    NotionalPositive(Abs(delta) / price, price);
  }

  lemma ExactNext(ps: seq<Proposal>, symbols: seq<Symbol>, current: Targets, targets: Targets, s: Symbol, p: Proposal)
    requires ExactOn(ps, symbols, current, targets) && s !in symbols && p.symbol == s
    requires Moves(Get(current, s), Get(targets, s)) && Exact(p, Get(current, s), Get(targets, s))
    ensures ExactOn(ps + [p], symbols + [s], current, targets)
  {
    var qs := ps + [p];
    forall x | x in symbols + [s] && Moves(Get(current, x), Get(targets, x)) ensures ProposesFor(qs, x) {
      if x == s {
        assert qs[|ps|].symbol == x;
      } else {
        var i :| 0 <= i < |ps| && ps[i].symbol == x;
        assert qs[i].symbol == x;
      }
    }
  }

  lemma ExactStays(ps: seq<Proposal>, symbols: seq<Symbol>, current: Targets, targets: Targets, s: Symbol)
    requires ExactOn(ps, symbols, current, targets) && !Moves(Get(current, s), Get(targets, s))
    ensures ExactOn(ps, symbols + [s], current, targets)
  {
  }

  lemma ExactStep(ps: seq<Proposal>, symbols: seq<Symbol>, current: Targets, targets: Targets, s: Symbol, price: Option<real>, held: real)
    requires ExactOn(ps, symbols, current, targets) && s !in symbols
    requires Moves(Get(current, s), Get(targets, s)) ==> Usable(price)
    ensures var next := if Moves(Get(current, s), Get(targets, s)) then ps + [ProposalFor(s, Get(current, s), Get(targets, s), price.value, held)] else ps;
            ExactOn(next, symbols + [s], current, targets)
  {
    if Moves(Get(current, s), Get(targets, s)) {
      ProposalIsExact(s, Get(current, s), Get(targets, s), price.value, held);
      ExactNext(ps, symbols, current, targets, s, ProposalFor(s, Get(current, s), Get(targets, s), price.value, held));
    } else {
      ExactStays(ps, symbols, current, targets, s);
    }
  }

  lemma PricedAt(order: seq<Symbol>, current: Targets, targets: Targets, quotes: Quotes, i: nat)
    requires i < |order| && Priced(order, current, targets, quotes, |order|)
    ensures Moves(Get(current, order[i]), Get(targets, order[i])) ==> Usable(quotes(order[i]))
  {
  }

  lemma NotInPrefix(order: seq<Symbol>, i: nat)
    requires i < |order| && Distinct(order)
    ensures order[i] !in order[..i] && order[..i + 1] == order[..i] + [order[i]]
  {
  }

  lemma {:induction false} ProposedIsExact(order: seq<Symbol>, current: Targets, targets: Targets, held: Targets, quotes: Quotes, k: nat)
    requires k <= |order| && Distinct(order)
    requires forall i: nat :: i < |order| && Moves(Get(current, order[i]), Get(targets, order[i])) ==> Usable(quotes(order[i]))
    ensures ExactOn(Proposed(order, current, targets, held, quotes, k), order[..k], current, targets)
  {
    if k > 0 {
      var i := k - 1;
      var before, s := Proposed(order, current, targets, held, quotes, i), order[i];
      ProposedIsExact(order, current, targets, held, quotes, i);
      NotInPrefix(order, i);
      ExactStep(before, order[..i], current, targets, s, quotes(s), Get(held, s));
    }
  }

  /** Without findings, every managed symbol is within tolerance of its target and has no proposal, or
      has exactly one proposal, which carries it exactly onto the target. */
  lemma CleanReconciliationIsExact(portfolio: Portfolio, marks: Marks, quotes: Quotes, symbols: set<Symbol>,
                                   targets: Targets, order: seq<Symbol>)
    requires Enumerates(order, symbols) && Clean(portfolio, marks, quotes, symbols, targets, order)
    ensures var current := CurrentValues(portfolio, marks, symbols);
            var ps := Proposed(order, current, targets, HeldQuantities(portfolio, marks, symbols), quotes, |order|);
            && ExactOn(ps, order, current, targets)
            && forall s :: s in symbols ==> (ProposesFor(ps, s) <==> Abs(Get(targets, s) - Get(current, s)) > TOLERANCE)
  {
    var current := CurrentValues(portfolio, marks, symbols);
    var held := HeldQuantities(portfolio, marks, symbols);
    forall i: nat | i < |order| && Moves(Get(current, order[i]), Get(targets, order[i])) ensures Usable(quotes(order[i])) {
      PricedAt(order, current, targets, quotes, i);
    }
    ProposedIsExact(order, current, targets, held, quotes, |order|);
    assert order[..|order|] == order;
    assert forall s :: s in symbols ==> s in Elements(order);
  }

  // ------------------------------------------------------- executing proposals

  /** The value of every symbol after the first k proposals. */
  ghost function Executed(ps: seq<Proposal>, current: Targets, k: nat): Symbol -> real
    requires k <= |ps|
  {
    if k == 0 then (s: Symbol) => Get(current, s)
    else
      var before := Executed(ps, current, k - 1);
      (s: Symbol) => before(s) + if s == ps[k - 1].symbol then Signed(ps[k - 1]) else 0.0
  }

  /** Cash after the first k proposals, each paid or received at its price. */
  function CashAfter(ps: seq<Proposal>, cash: real, k: nat): real
    requires k <= |ps|
  {
    if k == 0 then cash else CashAfter(ps, cash, k - 1) - Signed(ps[k - 1])
  }

  /** Execution at the quotes moves value between cash and holdings and creates none. */
  lemma {:induction false} ExecutionConserves(ps: seq<Proposal>, current: Targets, symbols: set<Symbol>, cash: real, k: nat)
    requires k <= |ps| && forall i :: 0 <= i < |ps| ==> ps[i].symbol in symbols
    ensures CashAfter(ps, cash, k) + SumOver(symbols, Executed(ps, current, k)) == cash + Gross(current, symbols)
  {
    if k == 0 {
      SumAgree(symbols, Executed(ps, current, 0), (s: Symbol) => Get(current, s));
    } else {
      ExecutionConserves(ps, current, symbols, cash, k - 1);
      SumChangeOne(symbols, Executed(ps, current, k - 1), Executed(ps, current, k), ps[k - 1].symbol);
    }
  }

  lemma {:induction false} UntouchedStays(ps: seq<Proposal>, current: Targets, s: Symbol, k: nat)
    requires k <= |ps| && forall i :: 0 <= i < k ==> ps[i].symbol != s
    ensures Executed(ps, current, k)(s) == Get(current, s)
  {
    if k > 0 {
      UntouchedStays(ps, current, s, k - 1);
    }
  }

  lemma {:induction false} TouchedOnce(ps: seq<Proposal>, current: Targets, i: nat, k: nat)
    requires i < k <= |ps| && forall a, b :: 0 <= a < b < |ps| ==> ps[a].symbol != ps[b].symbol
    ensures Executed(ps, current, k)(ps[i].symbol) == Get(current, ps[i].symbol) + Signed(ps[i])
  {
    if i == k - 1 {
      UntouchedStays(ps, current, ps[i].symbol, k - 1);
    } else {
      TouchedOnce(ps, current, i, k - 1);
    }
  }

  lemma ExecutedLands(ps: seq<Proposal>, order: seq<Symbol>, current: Targets, targets: Targets, s: Symbol)
    requires ExactOn(ps, order, current, targets) && s in order
    ensures Executed(ps, current, |ps|)(s) == if ProposesFor(ps, s) then Get(targets, s) else Get(current, s)
    ensures Abs(Get(targets, s) - Executed(ps, current, |ps|)(s)) <= TOLERANCE
  {
    if ProposesFor(ps, s) {
      var i :| 0 <= i < |ps| && ps[i].symbol == s;
      assert ExactMove(ps[i], current, targets);
      TouchedOnce(ps, current, i, |ps|);
    } else {
      UntouchedStays(ps, current, s, |ps|);
    }
  }

  /** Executing proposals that are exact brings every symbol that has one onto its target, leaves every other
      where it was, and keeps cash plus holdings. */
  lemma ExactProposalsReachTargets(ps: seq<Proposal>, order: seq<Symbol>, symbols: set<Symbol>, current: Targets, targets: Targets, cash: real)
    requires Enumerates(order, symbols) && ExactOn(ps, order, current, targets)
    ensures forall s :: s in symbols ==> Abs(Get(targets, s) - Executed(ps, current, |ps|)(s)) <= TOLERANCE
    ensures forall s :: s in symbols && ProposesFor(ps, s) ==> Executed(ps, current, |ps|)(s) == Get(targets, s)
    ensures CashAfter(ps, cash, |ps|) + SumOver(symbols, Executed(ps, current, |ps|)) == cash + Gross(current, symbols)
  {
    forall s | s in symbols
      ensures Abs(Get(targets, s) - Executed(ps, current, |ps|)(s)) <= TOLERANCE
      ensures ProposesFor(ps, s) ==> Executed(ps, current, |ps|)(s) == Get(targets, s)
    {
      assert s in Elements(order);
      ExecutedLands(ps, order, current, targets, s);
    }
    OrdersAreManaged(ps, order, symbols, current, targets);
    ExecutionConserves(ps, current, symbols, cash, |ps|);
  }

  lemma OrdersAreManaged(ps: seq<Proposal>, order: seq<Symbol>, symbols: set<Symbol>, current: Targets, targets: Targets)
    requires Enumerates(order, symbols) && ExactOn(ps, order, current, targets)
    ensures forall i :: 0 <= i < |ps| ==> ps[i].symbol in symbols
  {
    forall i | 0 <= i < |ps| ensures ps[i].symbol in symbols {
      assert ps[i].symbol in Elements(order);
    }
  }

  /** After executing all proposals of a clean reconciliation every managed symbol is within tolerance of its
      target, on it when it was traded, and cash plus holdings is unchanged. */
  lemma ExecutingReachesTargets(portfolio: Portfolio, marks: Marks, quotes: Quotes, symbols: set<Symbol>,
                                targets: Targets, order: seq<Symbol>)
    requires Enumerates(order, symbols) && Clean(portfolio, marks, quotes, symbols, targets, order)
    ensures var current := CurrentValues(portfolio, marks, symbols);
            var ps := Proposed(order, current, targets, HeldQuantities(portfolio, marks, symbols), quotes, |order|);
            var after := Executed(ps, current, |ps|);
            && (forall s :: s in symbols ==> Abs(Get(targets, s) - after(s)) <= TOLERANCE)
            && (forall s :: s in symbols && ProposesFor(ps, s) ==> after(s) == Get(targets, s))
            && CashAfter(ps, portfolio.cash.value, |ps|) + SumOver(symbols, after) == portfolio.cash.value + Gross(current, symbols)
  {
    CleanReconciliationIsExact(portfolio, marks, quotes, symbols, targets, order);
    var current := CurrentValues(portfolio, marks, symbols);
    var ps := Proposed(order, current, targets, HeldQuantities(portfolio, marks, symbols), quotes, |order|);
    ExactProposalsReachTargets(ps, order, symbols, current, targets, portfolio.cash.value);
  }

  // ------------------------------------------------------------ side and effect

  /** A trade's side says what it does to the exposure. */
  predicate SideTellsEffect(current: real, target: real) {
    && (target > current <==> Classify(current, target) == Increases)
    && (target < current <==> Classify(current, target) == Reduces)
  }

  /** For the targets an artifact may hold, the side tells the effect exactly when the current value is not
      negative, or the target outweighs it by more than the tolerance. */
  lemma SideTellsEffectExactly(current: real, target: real)
    requires target >= 0.0 && Moves(current, target)
    ensures SideTellsEffect(current, target) <==> current >= 0.0 || target > -current + TOLERANCE
  {
  }

  /** The negative case passes every check: a residual short of a hundredth of a share, within the mark
      tolerance, is bought back, and the purchase is filed as a reduction. */
  lemma AResidualShortBuysAndReduces()
    ensures var s := Ticker("SOXL");
            var portfolio := Portfolio([Position(s, Some(-0.01), Some(-0.01))], Some(10.0), Some(9.0));
            var marks: Marks := (n: nat) => Some(100.0);
            var quotes: Quotes := (x: Symbol) => Some(100.0);
            var targets: Targets := map[s := 0.5];
            && Clean(portfolio, marks, quotes, {s}, targets, [s])
            && var ps := Proposed([s], CurrentValues(portfolio, marks, {s}), targets, HeldQuantities(portfolio, marks, {s}), quotes, 1);
               |ps| == 1 && ps[0].buy && ps[0].effect == Reduces
  {
    var s := Ticker("SOXL");
    var p := Position(s, Some(-0.01), Some(-0.01));
    var portfolio := Portfolio([p], Some(10.0), Some(9.0));
    var marks: Marks := (n: nat) => Some(100.0);
    var quotes: Quotes := (x: Symbol) => Some(100.0);
    var targets: Targets := map[s := 0.5];
    var current := CurrentValues(portfolio, marks, {s});
    assert MarkedValue(p, marks(0)) == -1.0;
    assert PositionFine(p, marks(0), {s});
    assert Current([p], marks, {s}, s, 0) == 0.0;
    assert Get(current, s) == Current([p], marks, {s}, s, 1) == -1.0;
    var value := (x: Symbol) => Get(current, x);
    SumRemove({s}, value, s);
    assert {s} - {s} == {};
    assert Gross(current, {s}) == -1.0;
    assert Proposed([s], current, targets, HeldQuantities(portfolio, marks, {s}), quotes, 0) == [];
  }

  // ------------------------------------------------------------ exposure facts

  datatype Fact = Fact(symbol: Symbol, quantity: real, price: real, current: real, target: real, effect: Effect)

  function NonNegative(value: Option<real>): Option<real> {
    if value.Some? && value.value >= 0.0 then value else None
  }

  function Read(values: map<Symbol, Option<real>>, s: Symbol): Option<real> {
    if s in values then values[s] else None
  }

  /** The fact about one symbol; None when a number is missing or out of range. A symbol that is only in the
      targets has no quantity. */
  function FactFor(s: Symbol, positions: map<Symbol, Option<real>>, prices: map<Symbol, Option<real>>,
                   targets: map<Symbol, Option<real>>): Option<Fact> {
    var quantity := NonNegative(Read(positions, s));
    var target := NonNegative(if s in targets then targets[s] else Some(0.0));
    var price := Read(prices, s);
    if quantity.Some? && target.Some? && Usable(price) then
      var current := Notional(quantity.value, price.value);
      var delta := Abs(target.value) - Abs(current);
      var effect := if delta > TOLERANCE then Increases else if delta < -TOLERANCE then Reduces else Neutral;
      Some(Fact(s, quantity.value, price.value, current, target.value, effect))
    else None
  }

  /** A symbol has a fact exactly when it has a position that is not negative, a positive price, and, if it has a
      target, one that is not negative; without a target the fact is that of a target of zero. */
  lemma FactsExactly(s: Symbol, positions: map<Symbol, Option<real>>, prices: map<Symbol, Option<real>>,
                     targets: map<Symbol, Option<real>>)
    ensures var fact := FactFor(s, positions, prices, targets);
            && (fact.Some? <==>
                  && s in positions && positions[s].Some? && positions[s].value >= 0.0
                  && s in prices && prices[s].Some? && prices[s].value > 0.0
                  && (s in targets ==> targets[s].Some? && targets[s].value >= 0.0))
            && (fact.Some? ==>
                  && fact.value.symbol == s && fact.value.current == positions[s].value * prices[s].value >= 0.0
                  && fact.value.target == (if s in targets then targets[s].value else 0.0)
                  && (fact.value.effect == Increases <==> fact.value.target - fact.value.current > 0.01)
                  && (fact.value.effect == Reduces <==> fact.value.current - fact.value.target > 0.01))
  {
    if FactFor(s, positions, prices, targets).Some? {
      NotionalPositive(positions[s].value, prices[s].value);
    }
  }

  method ExposureFacts(positions: map<Symbol, Option<real>>, prices: map<Symbol, Option<real>>,
                       targets: map<Symbol, Option<real>>, order: seq<Symbol>)
    returns (facts: seq<Fact>, findings: seq<Finding>)
    requires Enumerates(order, positions.Keys + targets.Keys)
    ensures findings == [] <==> forall s :: s in positions.Keys + targets.Keys ==> FactFor(s, positions, prices, targets).Some?
    ensures findings != [] ==> findings == [PositionReconciliationMismatch]
    ensures forall f :: f in facts <==> f.symbol in positions.Keys + targets.Keys && FactFor(f.symbol, positions, prices, targets) == Some(f)
    ensures forall i, j :: 0 <= i < j < |facts| ==> facts[i].symbol != facts[j].symbol
  {
    facts, findings := [], [];
    for i := 0 to |order|
      invariant findings == [] <==> forall s :: s in order[..i] ==> FactFor(s, positions, prices, targets).Some?
      invariant findings != [] ==> findings == [PositionReconciliationMismatch]
      invariant forall f :: f in facts <==> f.symbol in order[..i] && FactFor(f.symbol, positions, prices, targets) == Some(f)
      invariant forall a, b :: 0 <= a < b < |facts| ==> facts[a].symbol != facts[b].symbol
    {
      var s := order[i];
      PrefixNext(order, i);
      assert s !in order[..i];
      assert forall a :: 0 <= a < |facts| ==> facts[a] in facts;
      match FactFor(s, positions, prices, targets) {
        case None =>
          if PositionReconciliationMismatch !in findings {
            findings := findings + [PositionReconciliationMismatch];
          }
        case Some(fact) =>
          facts := facts + [fact];
      }
    }
    assert order[..|order|] == order;
    assert forall s :: s in order <==> s in Elements(order);
  }

  predicate SameHolding(held: real, positions: map<Symbol, Option<real>>, s: Symbol) {
    held >= 0.0 && if s in positions then positions[s] == Some(held) else held == 0.0
  }

  /** The two adapters look at the same account: the admission sees the summed quantity of every managed
      symbol, never negative, and one price, which is also every mark; a symbol it has no position of is not
      held. */
  ghost predicate SameInputs(portfolio: Portfolio, marks: Marks, symbols: set<Symbol>, targets: Targets,
                             positions: map<Symbol, Option<real>>, prices: map<Symbol, Option<real>>,
                             desired: map<Symbol, Option<real>>) {
    && (forall s :: s in symbols ==>
          && SameHolding(Held(portfolio.positions, marks, symbols, s, |portfolio.positions|), positions, s)
          && Usable(Read(prices, s))
          && s in targets && Read(desired, s) == Some(targets[s]) && targets[s] >= 0.0)
    && (forall i: nat :: i < |portfolio.positions| && portfolio.positions[i].symbol in symbols ==>
          marks(i) == Read(prices, portfolio.positions[i].symbol))
  }

  lemma {:induction false} OneMarkValuesTheTotal(ps: seq<Position>, marks: Marks, symbols: set<Symbol>, s: Symbol, price: Option<real>, k: nat)
    requires k <= |ps| && Usable(price)
    requires forall i: nat :: i < |ps| && ps[i].symbol == s ==> marks(i) == price
    ensures Current(ps, marks, symbols, s, k) == Notional(Held(ps, marks, symbols, s, k), price.value)
  {
    if k > 0 {
      OneMarkValuesTheTotal(ps, marks, symbols, s, price, k - 1);
      var p := ps[k - 1];
      if p.symbol == s && Readable(p, marks(k - 1), symbols) {
        NotionalAdds(Held(ps, marks, symbols, s, k - 1), p.quantity.value, price.value);
      }
    } else {
      assert Notional(0.0, price.value) == 0.0;
    }
  }

  lemma CurrentIsHeld(portfolio: Portfolio, marks: Marks, symbols: set<Symbol>, targets: Targets,
                      positions: map<Symbol, Option<real>>, prices: map<Symbol, Option<real>>,
                      desired: map<Symbol, Option<real>>, s: Symbol)
    requires SameInputs(portfolio, marks, symbols, targets, positions, prices, desired) && s in symbols
    ensures var current := Current(portfolio.positions, marks, symbols, s, |portfolio.positions|);
            var fact := FactFor(s, positions, prices, desired);
            && current >= 0.0
            && (s in positions ==> fact.Some? && fact.value.current == current && fact.value.effect == Classify(current, targets[s]))
            && (s !in positions ==> fact.None? && current == 0.0)
  {
    var held, price := Held(portfolio.positions, marks, symbols, s, |portfolio.positions|), Read(prices, s);
    OneMarkValuesTheTotal(portfolio.positions, marks, symbols, s, price, |portfolio.positions|);
    NotionalPositive(held, price.value);
    assert Notional(0.0, price.value) == 0.0;
  }

  /** The admission has a fact about the symbol at the reconciliation's value, finds it neutral exactly when the
      reconciliation proposes nothing, and otherwise gives it the effect the proposal states and its side tells. */
  ghost predicate Alike(fact: Option<Fact>, current: real, ps: seq<Proposal>, s: Symbol) {
    && fact.Some? && fact.value.current == current
    && (fact.value.effect == Neutral <==> !ProposesFor(ps, s))
    && forall i :: 0 <= i < |ps| && ps[i].symbol == s ==>
         ps[i].effect == fact.value.effect && (ps[i].buy <==> ps[i].effect == Increases)
  }

  lemma ProposalsFit(ps: seq<Proposal>, order: seq<Symbol>, current: Targets, targets: Targets, s: Symbol)
    requires ExactOn(ps, order, current, targets) && Get(current, s) >= 0.0 && Get(targets, s) >= 0.0
    ensures forall i :: 0 <= i < |ps| && ps[i].symbol == s ==>
              ps[i].effect == Classify(Get(current, s), Get(targets, s)) && (ps[i].buy <==> ps[i].effect == Increases)
  {
    forall i | 0 <= i < |ps| && ps[i].symbol == s
      ensures ps[i].effect == Classify(Get(current, s), Get(targets, s)) && (ps[i].buy <==> ps[i].effect == Increases)
    {
      assert ExactMove(ps[i], current, targets);
      SideOfMove(ps[i], current, targets);
    }
  }

  lemma AlikeWithAFact(ps: seq<Proposal>, order: seq<Symbol>, current: Targets, targets: Targets, fact: Option<Fact>, s: Symbol)
    requires ExactOn(ps, order, current, targets) && Get(current, s) >= 0.0 && Get(targets, s) >= 0.0
    requires ProposesFor(ps, s) <==> Abs(Get(targets, s) - Get(current, s)) > TOLERANCE
    requires fact.Some? ==>
               fact.value.current == Get(current, s) && fact.value.effect == Classify(Get(current, s), Get(targets, s))
    requires fact.None? ==> Get(current, s) == 0.0
    ensures Alike(fact, Get(current, s), ps, s) <==> fact.Some?
    ensures fact.None? ==>
              && (ProposesFor(ps, s) <==> Get(targets, s) > TOLERANCE)
              && forall i :: 0 <= i < |ps| && ps[i].symbol == s ==> ps[i].buy && ps[i].effect == Increases
  {
    ProposalsFit(ps, order, current, targets, s);
    forall i | 0 <= i < |ps| && ps[i].symbol == s && fact.None? ensures ps[i].buy && ps[i].effect == Increases {
      assert ExactMove(ps[i], current, targets);
    }
  }

  /** On the same inputs the two adapters classify a managed symbol alike exactly when the admission has a
      position of it, if only of zero. For a symbol never held it has no fact, while a target above the
      tolerance is proposed as a purchase. */
  lemma AdaptersAgree(portfolio: Portfolio, marks: Marks, quotes: Quotes, symbols: set<Symbol>, targets: Targets,
                      order: seq<Symbol>, positions: map<Symbol, Option<real>>, prices: map<Symbol, Option<real>>,
                      desired: map<Symbol, Option<real>>, s: Symbol)
    requires Enumerates(order, symbols) && Clean(portfolio, marks, quotes, symbols, targets, order)
    requires SameInputs(portfolio, marks, symbols, targets, positions, prices, desired) && s in symbols
    ensures var current := CurrentValues(portfolio, marks, symbols);
            var ps := Proposed(order, current, targets, HeldQuantities(portfolio, marks, symbols), quotes, |order|);
            && (Alike(FactFor(s, positions, prices, desired), Get(current, s), ps, s) <==> s in positions)
            && (s !in positions ==>
                  && FactFor(s, positions, prices, desired) == None
                  && (ProposesFor(ps, s) <==> targets[s] > TOLERANCE)
                  && forall i :: 0 <= i < |ps| && ps[i].symbol == s ==> ps[i].buy && ps[i].effect == Increases)
  {
    CleanReconciliationIsExact(portfolio, marks, quotes, symbols, targets, order);
    CurrentIsHeld(portfolio, marks, symbols, targets, positions, prices, desired, s);
    var current := CurrentValues(portfolio, marks, symbols);
    var ps := Proposed(order, current, targets, HeldQuantities(portfolio, marks, symbols), quotes, |order|);
    AlikeWithAFact(ps, order, current, targets, FactFor(s, positions, prices, desired), s);
  }

  lemma SideOfMove(p: Proposal, current: Targets, targets: Targets)
    requires ExactMove(p, current, targets)
    requires Get(current, p.symbol) >= 0.0 && Get(targets, p.symbol) >= 0.0
    ensures p.effect == Classify(Get(current, p.symbol), Get(targets, p.symbol))
    ensures p.buy <==> p.effect == Increases
  {
    NotionalPositive(p.quantity, p.price);
  }

  /** A clean reconciliation of an empty account proposes to buy five of a new target; the admission, with the
      same prices and targets, has no fact about it. */
  lemma ANewTargetIsProposedButNotAdmitted()
    ensures var s := Ticker("SOXL");
            var portfolio := Portfolio([], Some(100.0), Some(100.0));
            var marks: Marks := (n: nat) => None;
            var quotes: Quotes := (x: Symbol) => Some(10.0);
            var targets: Targets := map[s := 50.0];
            var ps := Proposed([s], CurrentValues(portfolio, marks, {s}), targets, HeldQuantities(portfolio, marks, {s}), quotes, 1);
            && Clean(portfolio, marks, quotes, {s}, targets, [s])
            && SameInputs(portfolio, marks, {s}, targets, map[], map[s := Some(10.0)], map[s := Some(50.0)])
            && ps == [Proposal(s, Increases, true, 5.0, 10.0, 0.0, 50.0, 50.0, 0.0)]
            && FactFor(s, map[], map[s := Some(10.0)], map[s := Some(50.0)]) == None
  {
    var s := Ticker("SOXL");
    var portfolio := Portfolio([], Some(100.0), Some(100.0));
    var marks: Marks := (n: nat) => None;
    var quotes: Quotes := (x: Symbol) => Some(10.0);
    var targets: Targets := map[s := 50.0];
    var current, held := CurrentValues(portfolio, marks, {s}), HeldQuantities(portfolio, marks, {s});
    assert Get(current, s) == 0.0 && Get(held, s) == 0.0;
    SumRemove({s}, (x: Symbol) => Get(current, x), s);
    assert {s} - {s} == {};
    assert Gross(current, {s}) == 0.0;
    assert Proposed([s], current, targets, held, quotes, 0) == [];
  }

  /** With one quote per symbol no proposal sells more than is held. */
  lemma SellsWithinHolding(portfolio: Portfolio, marks: Marks, quotes: Quotes, symbols: set<Symbol>, targets: Targets,
                           order: seq<Symbol>, p: Proposal)
    requires Enumerates(order, symbols) && Clean(portfolio, marks, quotes, symbols, targets, order)
    requires forall i: nat :: i < |portfolio.positions| ==> marks(i) == quotes(portfolio.positions[i].symbol)
    requires forall s :: s in symbols ==> Get(targets, s) >= 0.0
    requires p in Proposed(order, CurrentValues(portfolio, marks, symbols), targets,
                           HeldQuantities(portfolio, marks, symbols), quotes, |order|)
    ensures !p.buy ==> p.quantity <= p.held
  {
    var current, held := CurrentValues(portfolio, marks, symbols), HeldQuantities(portfolio, marks, symbols);
    InProposed(order, current, targets, held, quotes, |order|, p);
    assert p.symbol in Elements(order);
    OneMarkValuesTheTotal(portfolio.positions, marks, symbols, p.symbol, quotes(p.symbol), |portfolio.positions|);
    NotionalOfQuotient(Abs(p.delta), p.price);
    NotionalLess(p.quantity, p.held, p.price);
  }

  lemma {:induction false} InProposed(order: seq<Symbol>, current: Targets, targets: Targets, held: Targets, quotes: Quotes, k: nat, p: Proposal)
    requires k <= |order| && p in Proposed(order, current, targets, held, quotes, k)
    ensures p.symbol in order && Usable(quotes(p.symbol))
    ensures p == ProposalFor(p.symbol, Get(current, p.symbol), Get(targets, p.symbol), quotes(p.symbol).value, Get(held, p.symbol))
  {
    if k > 0 && p in Proposed(order, current, targets, held, quotes, k - 1) {
      InProposed(order, current, targets, held, quotes, k - 1, p);
    }
  }
}
