/** Real-valued money and share arithmetic shared by the allocator modules.
    Quantities are multiples of the broker's quantity step. */
module Quantity {

  function Max(a: real, b: real): real {
    if a < b then b else a
  }

  function Min(a: real, b: real): real {
    if b < a then b else a
  }

  function Abs(a: real): real {
    if a < 0.0 then -a else a
  }

  type Step = s: real | s > 0.0 witness 1.0

  /** Python's int(): truncation toward zero. */
  function Truncate(x: real): int {
    if x < 0.0 then -((-x).Floor) else x.Floor
  }

  /** The value of a quantity at a unit price. Products are kept behind this name
      so that inequalities between values stay linear for the solver. */
  function Notional(quantity: real, price: real): real {
    quantity * price
  }

  function Lots(k: int, step: Step): real {
    Notional(k as real, step)
  }

  ghost predicate IsMultiple(q: real, step: Step) {
    exists k: int :: q == Lots(k, step)
  }

  lemma NotionalAdds(a: real, b: real, p: real)
    ensures Notional(a + b, p) == Notional(a, p) + Notional(b, p)
    ensures Notional(a - b, p) == Notional(a, p) - Notional(b, p)
  {
  }

  lemma NotionalPositive(a: real, p: real)
    requires 0.0 < p
    ensures 0.0 < Notional(a, p) <==> 0.0 < a
    ensures 0.0 <= Notional(a, p) <==> 0.0 <= a
  {
  }

  lemma NotionalLess(a: real, b: real, p: real)
    requires 0.0 < p
    ensures a < b <==> Notional(a, p) < Notional(b, p)
    ensures a <= b <==> Notional(a, p) <= Notional(b, p)
  {
    NotionalAdds(b, a, p);
    NotionalPositive(b - a, p);
  }

  lemma NotionalLessPrice(q: real, p: real, r: real)
    requires 0.0 <= q && p <= r
    ensures Notional(q, p) <= Notional(q, r)
  {
    var d := r - p;
    assert Notional(q, d) >= 0.0;
    assert Notional(q, r) == Notional(q, p) + Notional(q, d);
  }

  lemma NotionalOfQuotient(v: real, p: real)
    requires p > 0.0
    ensures Notional(v / p, p) == v
  {
  }

  /** The largest multiple of step that is not above x. */
  function FloorToStep(x: real, step: Step): (q: real)
    ensures q <= x < q + step
    ensures x >= 0.0 ==> q >= 0.0
    ensures IsMultiple(q, step)
  {
    var y := x / step;
    NotionalOfQuotient(x, step);
    UnitBounds(y, y.Floor, step);
    Lots(y.Floor, step)
  }

  lemma UnitBounds(y: real, k: int, step: Step)
    requires k as real <= y < k as real + 1.0
    ensures Lots(k, step) <= Notional(y, step) < Lots(k, step) + step
    ensures Notional(y, step) >= 0.0 ==> Lots(k, step) >= 0.0
  {
    var r := k as real;
    NotionalLess(r, y, step);
    NotionalLess(y, r + 1.0, step);
    NotionalAdds(r, 1.0, step);
    assert Notional(1.0, step) == step;
    if Notional(y, step) >= 0.0 {
      NotionalPositive(y, step);
      NotionalPositive(r, step);
    }
  }

  lemma LotsMonotone(k: int, m: int, step: Step)
    ensures k <= m <==> Lots(k, step) <= Lots(m, step)
    ensures Lots(k + 1, step) == Lots(k, step) + step
  {
    NotionalLess(k as real, m as real, step);
    NotionalAdds(k as real, 1.0, step);
    assert Notional(1.0, step) == step;
  }

  lemma LargestMultiple(q: real, x: real, step: Step, k: int)
    requires Lots(k, step) <= x < q + step && IsMultiple(q, step)
    ensures Lots(k, step) <= q
  {
    var m: int :| q == Lots(m, step);
    LotsMonotone(m, k, step);
    LotsMonotone(m + 1, k, step);
    LotsMonotone(k, m, step);
  }

  /** The flooring the allocator relies on: no larger multiple fits below x. */
  lemma FloorIsLargest(x: real, step: Step, k: int)
    ensures Lots(k, step) <= x <==> Lots(k, step) <= FloorToStep(x, step)
  {
    if Lots(k, step) <= x {
      LargestMultiple(FloorToStep(x, step), x, step, k);
    }
  }

  lemma FloorMonotone(x: real, y: real, step: Step)
    requires x <= y
    ensures FloorToStep(x, step) <= FloorToStep(y, step)
  {
    var k: int :| FloorToStep(x, step) == Lots(k, step);
    FloorIsLargest(y, step, k);
  }

  /** A positive multiple of step is at least one step. */
  lemma PositiveMultiple(q: real, step: Step)
    requires IsMultiple(q, step) && q > 0.0
    ensures q >= step
  {
    var k: int :| q == Lots(k, step);
    LotsMonotone(k, 0, step);
    LotsMonotone(1, k, step);
    assert Lots(0, step) == 0.0 && Lots(1, step) == step;
  }

  /** q units at price p cost no more than v exactly when q is at most v / p. */
  lemma CostWithin(q: real, v: real, p: real)
    requires p > 0.0
    ensures q <= v / p <==> Notional(q, p) <= v
    ensures q < v / p <==> Notional(q, p) < v
  {
    NotionalOfQuotient(v, p);
    NotionalLess(q, v / p, p);
    NotionalLess(v / p, q, p);
  }

  lemma QuotientMonotone(v: real, w: real, p: real)
    requires p > 0.0
    ensures v <= w <==> v / p <= w / p
  {
    NotionalOfQuotient(v, p);
    NotionalOfQuotient(w, p);
    NotionalLess(v / p, w / p, p);
  }
}
