/** Projection of unaffordable targets to cash, on weights and on target values. */
module TargetProjection {
  import opened Quantity
  import opened Sums
  import opened Orders

  type Targets = map<Symbol, real>

  function Get(values: Targets, s: Symbol): real {
    if s in values then values[s] else 0.0
  }

  /** Every target of a chosen symbol set to zero. */
  ghost function Zeroed(targets: Targets, chosen: Symbol -> bool): Targets {
    map s | s in targets :: if chosen(s) then 0.0 else targets[s]
  }

  // ------------------------------------------------ values: one step is too much

  /** A positive target that does not buy a single step at a known price. */
  predicate Unbuyable(value: real, price: real, step: real) {
    price > 0.0 && 0.0 < value < Notional(step, price)
  }

  predicate Dropped(targets: Targets, prices: Targets, candidates: seq<Symbol>, step: real, s: Symbol) {
    s in candidates && Unbuyable(Get(targets, s), Get(prices, s), Max(0.0, step))
  }

  /** No step at all leaves every target alone. */
  lemma NoStepDropsNothing(targets: Targets, prices: Targets, candidates: seq<Symbol>, step: real, s: Symbol)
    requires step <= 0.0
    ensures !Dropped(targets, prices, candidates, step, s)
  {
    assert Notional(0.0, Get(prices, s)) == 0.0;
  }

  ghost function Affordable(targets: Targets, prices: Targets, candidates: seq<Symbol>, step: real): Targets {
    Zeroed(targets, s => Dropped(targets, prices, candidates, step, s))
  }

  method ProjectUnbuyable(targets: Targets, prices: Targets, candidates: seq<Symbol>, quantityStep: real)
    returns (adjusted: Targets, substituted: seq<Symbol>)
    ensures adjusted == Affordable(targets, prices, candidates, quantityStep)
    ensures Distinct(substituted)
    ensures forall s :: s in substituted <==> Dropped(targets, prices, candidates, quantityStep, s)
  {
    adjusted, substituted := targets, [];
    var step := Max(0.0, quantityStep);
    if step <= 0.0 {
      forall s ensures !Dropped(targets, prices, candidates, quantityStep, s) {
        NoStepDropsNothing(targets, prices, candidates, quantityStep, s);
      }
      return;
    }
    var once := Once(candidates);
    for i := 0 to |once|
      invariant adjusted.Keys == targets.Keys
      invariant forall s :: s in targets ==>
                  adjusted[s] == if s in once[..i] && Dropped(targets, prices, candidates, quantityStep, s) then 0.0 else targets[s]
      invariant Distinct(substituted)
      invariant forall s :: s in substituted <==> s in once[..i] && Dropped(targets, prices, candidates, quantityStep, s)
    {
      var s := once[i];
      assert once[..i + 1] == once[..i] + [s];
      assert s !in once[..i];
      var target, price := Max(0.0, Get(adjusted, s)), Max(0.0, Get(prices, s));
      if price > 0.0 && 0.0 < target < Notional(step, price) {
        adjusted := adjusted[s := 0.0];
        substituted := substituted + [s];
      }
    }
    assert once[..|once|] == once;
  }

  ghost function PositiveTotal(targets: Targets): real {
    SumOver(targets.Keys, s => Max(0.0, Get(targets, s)))
  }

  /** order is the dictionary's own iteration order; the total does not depend on it. */
  method PositiveTargetTotal(targets: Targets, order: seq<Symbol>) returns (total: real)
    requires Enumerates(order, targets.Keys)
    ensures total == PositiveTotal(targets)
  {
    var part: Symbol -> real := s => Max(0.0, Get(targets, s));
    total := 0.0;
    for i := 0 to |order|
      invariant total == SumSeq(order[..i], part)
    {
      assert order[..i + 1] == order[..i] + [order[i]];
      SumSeqAppend(order[..i], [order[i]], part);
      SumSeqOne(order[i], part);
      total := total + Max(0.0, Get(targets, order[i]));
    }
    assert order[..|order|] == order;
    SumOfEnumeration(order, targets.Keys, part);
  }

  // ---------------------------------------- values: an account too small for either

  /** Something was dropped, no candidate is left, and what remains is within the limit. */
  ghost predicate AllToCash(targets: Targets, prices: Targets, candidates: seq<Symbol>, step: real, limit: real) {
    var left := Affordable(targets, prices, candidates, step);
    && (exists s :: Dropped(targets, prices, candidates, step, s))
    && (forall s :: s in candidates ==> Get(left, s) <= 0.0)
    && PositiveTotal(left) <= Max(0.0, limit)
  }

  predicate PositiveHaven(targets: Targets, havens: seq<Symbol>, s: Symbol) {
    s in havens && Get(targets, s) > 0.0
  }

  ghost predicate Cashed(targets: Targets, prices: Targets, candidates: seq<Symbol>, havens: seq<Symbol>,
                         step: real, limit: real, s: Symbol) {
    && AllToCash(targets, prices, candidates, step, limit)
    && PositiveHaven(Affordable(targets, prices, candidates, step), havens, s)
  }

  ghost function SmallAccount(targets: Targets, prices: Targets, candidates: seq<Symbol>, havens: seq<Symbol>,
                              step: real, limit: real): Targets {
    Zeroed(Affordable(targets, prices, candidates, step), s => Cashed(targets, prices, candidates, havens, step, limit, s))
  }

  method CashHavens(targets: Targets, havens: seq<Symbol>) returns (adjusted: Targets, cashed: seq<Symbol>)
    ensures adjusted == Zeroed(targets, s => PositiveHaven(targets, havens, s))
    ensures forall s :: s in cashed <==> PositiveHaven(targets, havens, s)
  {
    adjusted, cashed := targets, [];
    var once := Once(havens);
    for i := 0 to |once|
      invariant adjusted.Keys == targets.Keys
      invariant forall s :: s in targets ==>
                  adjusted[s] == if s in once[..i] && targets[s] > 0.0 then 0.0 else targets[s]
      invariant forall s :: s in cashed <==> s in once[..i] && Get(targets, s) > 0.0
    {
      var s := once[i];
      assert once[..i + 1] == once[..i] + [s];
      assert s !in once[..i];
      if Get(adjusted, s) > 0.0 {
        adjusted := adjusted[s := 0.0];
        cashed := cashed + [s];
      }
    }
    assert once[..|once|] == once;
  }

  method ApplySmallAccount(targets: Targets, prices: Targets, candidates: seq<Symbol>, havens: seq<Symbol>,
                           step: real, limit: real, order: seq<Symbol>)
    returns (adjusted: Targets, substituted: seq<Symbol>, cashed: seq<Symbol>)
    requires Enumerates(order, targets.Keys)
    ensures adjusted == SmallAccount(targets, prices, candidates, havens, step, limit)
    ensures forall s :: s in substituted <==> Dropped(targets, prices, candidates, step, s)
    ensures forall s :: s in cashed <==> Cashed(targets, prices, candidates, havens, step, limit, s)
  {
    adjusted, substituted := ProjectUnbuyable(targets, prices, candidates, step);
    cashed := [];
    var remaining := exists s :: s in candidates && Get(adjusted, s) > 0.0;
    var total := PositiveTargetTotal(adjusted, order);
    assert substituted != [] ==> substituted[0] in substituted;
    assert AllToCash(targets, prices, candidates, step, limit)
      <==> substituted != [] && !remaining && total <= Max(0.0, limit);
    if substituted != [] && !remaining && total <= Max(0.0, limit) {
      adjusted, cashed := CashHavens(adjusted, havens);
    }
  }

  /** Unchanged or zeroed; only a positive target is ever zeroed, so none is raised, and none appears. */
  ghost predicate Lowers(before: Targets, after: Targets) {
    && after.Keys == before.Keys
    && forall s :: s in before ==> after[s] == before[s] || (after[s] == 0.0 && before[s] > 0.0)
  }

  /** Every positive candidate target with a known price buys at least one step. */
  ghost predicate BuysAStep(targets: Targets, prices: Targets, candidates: seq<Symbol>, step: real) {
    forall s :: s in candidates && Get(targets, s) > 0.0 && Get(prices, s) > 0.0 ==>
      Notional(Max(0.0, step), Get(prices, s)) <= Get(targets, s)
  }

  lemma SmallAccountIsSafe(targets: Targets, prices: Targets, candidates: seq<Symbol>, havens: seq<Symbol>,
                           step: real, limit: real)
    ensures var after := SmallAccount(targets, prices, candidates, havens, step, limit);
            && Lowers(targets, after)
            && BuysAStep(after, prices, candidates, step)
            && (forall s :: s in after && after[s] != targets[s] ==> s in candidates || s in havens)
  {
    var left, after := Affordable(targets, prices, candidates, step),
                       SmallAccount(targets, prices, candidates, havens, step, limit);
    assert Lowers(targets, left);
    forall s | s in candidates && Get(after, s) > 0.0 && Get(prices, s) > 0.0
      ensures Notional(Max(0.0, step), Get(prices, s)) <= Get(after, s)
    {
      assert Get(after, s) == Get(left, s) == Get(targets, s);
      assert !Dropped(targets, prices, candidates, step, s);
    }
  }

  /** Targets that buy a step each are left alone: nothing is dropped, so nothing is turned to cash. */
  lemma SmallAccountKeeps(targets: Targets, prices: Targets, candidates: seq<Symbol>, havens: seq<Symbol>,
                          step: real, limit: real)
    requires BuysAStep(targets, prices, candidates, step)
    ensures SmallAccount(targets, prices, candidates, havens, step, limit) == targets
  {
    forall s ensures !Dropped(targets, prices, candidates, step, s) {
    }
    assert Affordable(targets, prices, candidates, step) == targets;
  }

  lemma SmallAccountIsIdempotent(targets: Targets, prices: Targets, candidates: seq<Symbol>, havens: seq<Symbol>,
                                 step: real, limit: real)
    ensures var after := SmallAccount(targets, prices, candidates, havens, step, limit);
            SmallAccount(after, prices, candidates, havens, step, limit) == after
  {
    SmallAccountIsSafe(targets, prices, candidates, havens, step, limit);
    SmallAccountKeeps(SmallAccount(targets, prices, candidates, havens, step, limit), prices, candidates, havens, step, limit);
  }

  lemma PositiveTotalNotNegative(targets: Targets)
    ensures PositiveTotal(targets) >= 0.0
  {
    SumNonNegative(targets.Keys, (s: Symbol) => Max(0.0, Get(targets, s)));
  }

  /** When havens are cashed, and how much: a positive haven target that buys its step goes to cash exactly when some
      candidate was below one step, no candidate target is left, and the positive targets left add up to no more
      than the limit; so no more than the limit is ever cashed. */
  lemma CashesExactly(targets: Targets, prices: Targets, candidates: seq<Symbol>, havens: seq<Symbol>, step: real, limit: real, s: Symbol)
    requires s in targets && s in havens && targets[s] > 0.0
    requires !(s in candidates && Get(prices, s) > 0.0 && targets[s] < Notional(Max(0.0, step), Get(prices, s)))
    ensures var left := Affordable(targets, prices, candidates, step);
            var after := SmallAccount(targets, prices, candidates, havens, step, limit);
            && (after[s] == 0.0 <==>
                  && (exists c :: c in candidates && Get(prices, c) > 0.0
                                  && 0.0 < Get(targets, c) < Notional(Max(0.0, step), Get(prices, c)))
                  && (forall c :: c in candidates && Get(targets, c) > 0.0 ==>
                        Get(prices, c) > 0.0 && Get(targets, c) < Notional(Max(0.0, step), Get(prices, c)))
                  && PositiveTotal(left) <= Max(0.0, limit))
            && PositiveTotal(left) - PositiveTotal(after) <= Max(0.0, limit)
  {
    var left := Affordable(targets, prices, candidates, step);
    var after := SmallAccount(targets, prices, candidates, havens, step, limit);
    PositiveTotalNotNegative(after);
    assert left[s] == targets[s];
    if c :| c in candidates && Get(prices, c) > 0.0 && 0.0 < Get(targets, c) < Notional(Max(0.0, step), Get(prices, c)) {
      assert Dropped(targets, prices, candidates, step, c);
    }
    forall c | c in candidates
      ensures Get(left, c) <= 0.0 <==>
                (Get(targets, c) > 0.0 ==> Get(prices, c) > 0.0 && Get(targets, c) < Notional(Max(0.0, step), Get(prices, c)))
    {
      assert Dropped(targets, prices, candidates, step, c) <==> Unbuyable(Get(targets, c), Get(prices, c), Max(0.0, step));
    }
    assert AllToCash(targets, prices, candidates, step, limit) || after == left;
  }

  // ------------------------------------------------------------ weights to cash

  /** A safe-haven weight worth something, but less than the threshold. */
  predicate TooSmall(weights: Targets, havens: seq<Symbol>, investable: real, threshold: real, s: Symbol) {
    s in havens && 0.0 < Notional(investable, Get(weights, s)) < threshold
  }

  ghost function Substituted(weights: Targets, havens: seq<Symbol>, investable: real, threshold: real): Targets {
    Zeroed(weights, s => TooSmall(weights, havens, investable, threshold, s))
  }

  /** The loop visits a repeated haven again; by then its weight is zero. */
  method SubstituteWeights(weights: Targets, havens: seq<Symbol>, investable: real, thresholdUsd: real)
    returns (adjusted: Targets, substituted: seq<Symbol>)
    ensures adjusted == Substituted(weights, havens, investable, thresholdUsd)
    ensures forall s :: s in substituted <==> TooSmall(weights, havens, investable, thresholdUsd, s)
  {
    var threshold := Max(0.0, thresholdUsd);
    adjusted, substituted := weights, [];
    assert Notional(investable, 0.0) == 0.0;
    for i := 0 to |havens|
      invariant adjusted.Keys == weights.Keys
      invariant forall s :: s in weights ==>
                  adjusted[s] == if s in havens[..i] && TooSmall(weights, havens, investable, thresholdUsd, s) then 0.0 else weights[s]
      invariant forall s :: s in substituted <==> s in havens[..i] && TooSmall(weights, havens, investable, thresholdUsd, s)
    {
      var s := havens[i];
      assert havens[..i + 1] == havens[..i] + [s];
      var notional := Max(0.0, Notional(investable, Get(adjusted, s)));
      if 0.0 < notional < threshold {
        adjusted := adjusted[s := 0.0];
        substituted := substituted + [s];
      }
    }
    assert havens[..|havens|] == havens;
    substituted := Once(substituted);
  }

  lemma SubstitutionIsIdempotent(weights: Targets, havens: seq<Symbol>, investable: real, threshold: real)
    ensures var after := Substituted(weights, havens, investable, threshold);
            Substituted(after, havens, investable, threshold) == after
  {
    assert Notional(investable, 0.0) == 0.0;
  }

  /** What survives is worth nothing or at least the threshold. */
  lemma SubstitutionClearsTheBand(weights: Targets, havens: seq<Symbol>, investable: real, threshold: real, s: Symbol)
    requires s in havens
    ensures var worth := Notional(investable, Get(Substituted(weights, havens, investable, threshold), s));
            worth <= 0.0 || threshold <= worth
  {
    assert Notional(investable, 0.0) == 0.0;
  }

  /** A weight is raised exactly when it is a negative safe-haven weight of a cycle with negative
      investable equity (a reserve floor above the equity) and their product is below the threshold. */
  lemma SubstitutionRaisesOnlyNegativeWeights(weights: Targets, havens: seq<Symbol>, investable: real, threshold: real, s: Symbol)
    requires s in weights
    ensures Substituted(weights, havens, investable, threshold)[s] > weights[s]
       <==> s in havens && investable < 0.0 && weights[s] < 0.0 && Notional(investable, weights[s]) < threshold
  {
    SignOfNotional(investable, weights[s]);
  }

  lemma SignOfNotional(a: real, b: real)
    ensures 0.0 < Notional(a, b) <==> (a > 0.0 && b > 0.0) || (a < 0.0 && b < 0.0)
  {
    if a > 0.0 && b > 0.0 {
      NotionalPositive(a, b);
    } else if a < 0.0 && b < 0.0 {
      NotionalPositive(-a, -b);
      assert Notional(-a, -b) == Notional(a, b);
    } else if a <= 0.0 && b > 0.0 {
      NotionalPositive(a, b);
    } else if b < 0.0 {
      NotionalPositive(-a, -b);
      assert Notional(-a, -b) == Notional(a, b);
    } else {
      assert Notional(a, b) == 0.0;
    }
  }

  lemma ANegativeWeightIsRaised()
    ensures var haven := Ticker("BIL");
            Substituted(map[haven := -0.1], [haven], -500.0, 1000.0) == map[haven := 0.0]
  {
    assert Notional(-500.0, -0.1) == 50.0;
  }

  // --------------------------------------------------------------- the pipeline

  /** Everything the projection of one cycle depends on besides the weights. */
  datatype Account = Account(
    prices: Targets, candidates: seq<Symbol>, havens: seq<Symbol>,
    investable: real, threshold: real, step: real, limit: real)

  function Values(weights: Targets, investable: real): Targets {
    map s | s in weights :: Notional(investable, weights[s])
  }

  /** The final weights of a cycle: haven substitution, then the small-account projection of the
      values, whose dropped symbols get weight zero. */
  ghost function FinalWeights(a: Account, weights: Targets): Targets {
    var first := Substituted(weights, a.havens, a.investable, a.threshold);
    var before := Values(first, a.investable);
    Zeroed(first, s => Dropped(before, a.prices, a.candidates, a.step, s)
                    || Cashed(before, a.prices, a.candidates, a.havens, a.step, a.limit, s))
  }

  ghost function FinalTargets(a: Account, weights: Targets): Targets {
    var first := Substituted(weights, a.havens, a.investable, a.threshold);
    SmallAccount(Values(first, a.investable), a.prices, a.candidates, a.havens, a.step, a.limit)
  }

  /** The final target values are the values of the final weights. */
  lemma TargetsFollowWeights(a: Account, weights: Targets)
    ensures FinalTargets(a, weights) == Values(FinalWeights(a, weights), a.investable)
  {
    var before := Values(Substituted(weights, a.havens, a.investable, a.threshold), a.investable);
    SmallAccountIsSafe(before, a.prices, a.candidates, a.havens, a.step, a.limit);
    assert Notional(a.investable, 0.0) == 0.0;
  }

  /** Projecting projected weights again changes nothing: the next cycle, with the same account,
      starts from the same targets. */
  lemma PipelineIsIdempotent(a: Account, weights: Targets)
    ensures FinalWeights(a, FinalWeights(a, weights)) == FinalWeights(a, weights)
    ensures FinalTargets(a, FinalWeights(a, weights)) == FinalTargets(a, weights)
  {
    var last := FinalWeights(a, weights);
    assert Notional(a.investable, 0.0) == 0.0;
    assert Substituted(last, a.havens, a.investable, a.threshold) == last;
    TargetsFollowWeights(a, weights);
    SmallAccountIsIdempotent(
      Values(Substituted(weights, a.havens, a.investable, a.threshold), a.investable),
      a.prices, a.candidates, a.havens, a.step, a.limit);
    assert FinalTargets(a, last) == Values(last, a.investable);
  }
}
