/** Two readers of the cron day-of-week field: the deployment planner, which only lets weekday schedules
    through for live US accounts, and the heartbeat, which decides when a run was due. */
module CronDays {
  import opened Orders

  /** One comma-separated part. Values are as written, 0 to 7 when valid, a day name standing for its number. */
  datatype Item =
    | Every(step: int)
    | Single(day: int, step: int)
    | Range(first: int, last: int, step: int)
    | Blank

  /** Star is the bare asterisk. */
  datatype Field = Star | Items(items: seq<Item>)

  const WEEKDAYS := {1, 2, 3, 4, 5}

  // ------------------------------------------------------------------ planner

  function DayValue(raw: int): Option<int> {
    if 0 <= raw <= 7 then Some(raw % 7) else None
  }

  /** The number of days from start to end, going forward and around the week. */
  function Span(start: int, end: int): int {
    (end - start) % 7
  }

  function Cyclic(start: int, count: nat): seq<int> {
    seq(count, i => (start + i) % 7)
  }

  lemma CyclicNext(start: int, n: nat)
    ensures Cyclic(start, n + 1) == Cyclic(start, n) + [(start + n) % 7]
    ensures n > 0 ==> (Cyclic(start, n)[n - 1] + 1) % 7 == (start + n) % 7
  {
  }

  lemma ReachesEnd(start: int, end: int, n: int)
    requires 0 <= end < 7 && 0 <= n <= Span(start, end)
    ensures (start + n) % 7 == end <==> n == Span(start, end)
  {
  }

  /** The wrap-around walk, with its guard against running on. None is the raised error. */
  method Walk(start: int, end: int) returns (values: Option<seq<int>>)
    requires 0 <= start < 7 && 0 <= end < 7
    ensures values == Some(Cyclic(start, Span(start, end) + 1))
  {
    var days := [start];
    while days[|days| - 1] != end
      invariant 1 <= |days| <= Span(start, end) + 1
      invariant days == Cyclic(start, |days|)
      decreases Span(start, end) + 1 - |days|
    {
      CyclicNext(start, |days|);
      ReachesEnd(start, end, |days| - 1);
      days := days + [(days[|days| - 1] + 1) % 7];
      if |days| > 7 {
        return None;
      }
    }
    ReachesEnd(start, end, |days| - 1);
    values := Some(days);
  }

  /** d is a whole number of steps. */
  predicate OnStep(d: int, step: int)
    requires step > 0
  {
    d % step == 0
  }

  lemma OnStepBasics(step: int)
    requires step > 0
    ensures OnStep(0, step) && OnStep(step, step)
    ensures forall d :: 0 < d < step ==> !OnStep(d, step)
  {
    forall d | 0 < d < step ensures !OnStep(d, step) {
      ModOfSum(step, 0, d);
    }
    ModOfSum(step, 1, 0);
  }

  predicate OnGrid(v: int, first: int, step: int)
    requires step > 0
  {
    OnStep(v - first, step)
  }

  /** Every step-th element, as a set: values[::step]. */
  function Strided(values: seq<int>, step: int): set<int>
    requires step > 0
  {
    set i | 0 <= i < |values| && OnStep(i, step) :: values[i]
  }

  lemma StridedOne(day: int, step: int)
    requires step > 0
    ensures Strided([day], step) == {day}
  {
    OnStepBasics(step);
  }

  /** The days of one part; None is a raised error. */
  function PlannedItem(item: Item): Option<set<int>> {
    match item
    case Blank => None
    case Every(step) => if step <= 0 then None else Some(Strided(Cyclic(0, 7), step))
    case Single(raw, step) =>
      if step <= 0 then None
      else
        (match DayValue(raw)
         case Some(day) => Some({day})
         case None => None)
    case Range(first, last, step) =>
      if step <= 0 then None
      else
        match (DayValue(first), DayValue(last))
        case (Some(start), Some(end)) => Some(Strided(Cyclic(start, Span(start, end) + 1), step))
        case _ => None
  }

  function Planned(items: seq<Item>): Option<set<int>> {
    if items == [] then Some({})
    else
      match (Planned(items[..|items| - 1]), PlannedItem(items[|items| - 1]))
      case (Some(before), Some(days)) => Some(before + days)
      case _ => None
  }

  method DaysOfWeek(items: seq<Item>) returns (days: Option<set<int>>)
    ensures days == Planned(items)
  {
    var union: set<int> := {};
    for k := 0 to |items|
      invariant Planned(items[..k]) == Some(union)
    {
      var item := items[k];
      assert items[..k + 1][..k] == items[..k];
      var values: seq<int>, step := [], 1;
      match item {
        case Blank =>
          PlannedFails(items, k);
          return None;
        case Every(s) =>
          values, step := Cyclic(0, 7), s;
        case Single(raw, s) =>
          if 0 <= raw <= 7 {
            values, step := [raw % 7], s;
          } else {
            PlannedFails(items, k);
            return None;
          }
        case Range(first, last, s) =>
          if !(0 <= first <= 7 && 0 <= last <= 7) {
            PlannedFails(items, k);
            return None;
          }
          var walked := Walk(first % 7, last % 7);
          values, step := walked.value, s;
      }
      if step <= 0 {
        PlannedFails(items, k);
        return None;
      }
      if item.Single? {
        StridedOne(values[0], step);
      }
      union := union + Strided(values, step);
    }
    assert items[..|items|] == items;
    days := Some(union);
  }

  lemma {:induction false} PlannedFails(items: seq<Item>, k: nat)
    requires k < |items| && PlannedItem(items[k]) == None
    ensures Planned(items) == None
  {
    if k < |items| - 1 {
      PlannedFails(items[..|items| - 1], k);
    }
  }

  /** Two fields, minute and hour, are completed to a weekday schedule. */
  function Completed(fields: seq<Field>): seq<Field> {
    if |fields| == 2 then fields + [Star, Star, Items([Range(1, 5, 1)])] else fields
  }

  function DaysOfField(field: Field): Option<set<int>> {
    match field
    case Star => Planned([Every(1)])
    case Items(items) => Planned(items)
  }

  /** The schedules a live US account may have. */
  predicate Accepts(fields: seq<Field>) {
    && |fields| == 5 && fields[2] == Star
    && match DaysOfField(fields[4])
       case Some(days) => days != {} && days <= WEEKDAYS
       case None => false
  }

  // ---------------------------------------------------------------- heartbeat

  function AtLeastOne(step: int): int {
    if step < 1 then 1 else step
  }

  function First(item: Item, minimum: int): int
    requires !item.Blank?
  {
    match item
    case Every(_) => minimum
    case Single(day, _) => day
    case Range(first, _, _) => first
  }

  function Last(item: Item, maximum: int): int
    requires !item.Blank?
  {
    match item
    case Every(_) => maximum
    case Single(day, _) => day
    case Range(_, last, _) => last
  }

  predicate Kept(value: int, minimum: int, maximum: int) {
    minimum <= value <= maximum || (maximum == 6 && value == 7)
  }

  function Stored(value: int, minimum: int, maximum: int): int {
    if minimum <= value <= maximum then value else 0
  }

  /** An arithmetic progression up to a bound, cut to the field's range, Sunday's 7 read as 0. */
  function Below(first: int, bound: int, step: int, minimum: int, maximum: int): set<int>
    requires step > 0
  {
    set v | first <= v < bound && OnGrid(v, first, step) && Kept(v, minimum, maximum) :: Stored(v, minimum, maximum)
  }

  /** The values of one part. */
  function ItemValues(item: Item, minimum: int, maximum: int): set<int> {
    if item.Blank? then {}
    else
      Below(First(item, minimum), Last(item, maximum) + 1, AtLeastOne(item.step), minimum, maximum)
  }

  function FieldValues(items: seq<Item>, minimum: int, maximum: int): set<int> {
    if items == [] then {}
    else FieldValues(items[..|items| - 1], minimum, maximum) + ItemValues(items[|items| - 1], minimum, maximum)
  }

  lemma NoMultipleWithin(j: int, step: int)
    requires step > 0 && -step < j * step < step
    ensures j == 0
  {
    if j >= 1 {
      ProductMonotone(1, j, step);
    } else if j <= -1 {
      ProductMonotone(j, -1, step);
    }
  }

  lemma ProductMonotone(a: int, b: int, step: int)
    requires a <= b && step > 0
    ensures a * step <= b * step
  {
    assert (b - a) * step >= 0;
  }

  lemma ModOfSum(step: int, k: int, d: int)
    requires step > 0 && 0 <= d < step
    ensures (k * step + d) % step == d
  {
    var n := k * step + d;
    var q, r := n / step, n % step;
    assert n == q * step + r;
    assert (k - q) * step == r - d;
    NoMultipleWithin(k - q, step);
  }

  /** From one step the next is a whole step away. */
  lemma OnStepNext(d: int, step: int)
    requires step > 0 && OnStep(d, step)
    ensures OnStep(d + step, step)
    ensures forall e :: d < e < d + step ==> !OnStep(e, step)
  {
    var q := d / step;
    assert d == q * step;
    assert (q + 1) * step == d + step;
    ModOfSum(step, q + 1, 0);
    forall e | d < e < d + step ensures !OnStep(e, step) {
      ModOfSum(step, q, e - d);
    }
  }

  lemma BelowNext(first: int, value: int, step: int, minimum: int, maximum: int)
    requires step > 0 && first <= value && OnGrid(value, first, step)
    ensures OnGrid(value + step, first, step)
    ensures Below(first, value + step, step, minimum, maximum)
         == Below(first, value, step, minimum, maximum)
          + if Kept(value, minimum, maximum) then {Stored(value, minimum, maximum)} else {}
  {
    OnStepNext(value - first, step);
    forall v | value < v < value + step ensures !OnGrid(v, first, step) {
    }
  }

  lemma BelowSame(first: int, value: int, bound: int, step: int, minimum: int, maximum: int)
    requires step > 0 && first <= value <= bound && bound <= value + step && OnGrid(value, first, step)
    ensures value < bound ==> Below(first, bound, step, minimum, maximum) == Below(first, value + step, step, minimum, maximum)
  {
    OnStepNext(value - first, step);
    forall v | bound <= v < value + step && value < bound ensures !OnGrid(v, first, step) {
    }
  }

  method FieldSet(items: seq<Item>, minimum: int, maximum: int) returns (values: set<int>)
    ensures values == FieldValues(items, minimum, maximum)
  {
    values := {};
    for i := 0 to |items|
      invariant values == FieldValues(items[..i], minimum, maximum)
    {
      var item := items[i];
      assert items[..i + 1][..i] == items[..i];
      if item.Blank? {
        continue;
      }
      var more := ItemSet(item, minimum, maximum);
      values := values + more;
    }
    assert items[..|items|] == items;
  }

  method ItemSet(item: Item, minimum: int, maximum: int) returns (values: set<int>)
    requires !item.Blank?
    ensures values == ItemValues(item, minimum, maximum)
  {
    values := {};
    var first, last, step := First(item, minimum), Last(item, maximum), AtLeastOne(item.step);
    var value := first;
    OnStepBasics(step);
    while value <= last
      invariant first <= value && OnGrid(value, first, step)
      invariant values == Below(first, value, step, minimum, maximum)
      invariant value > last ==> values == Below(first, last + 1, step, minimum, maximum)
      decreases last - value
    {
      BelowNext(first, value, step, minimum, maximum);
      if value + step > last {
        BelowSame(first, value, last + 1, step, minimum, maximum);
      }
      if minimum <= value <= maximum {
        values := values + {value};
      } else if maximum == 6 && value == 7 {
        values := values + {0};
      }
      value := value + step;
    }
  }

  /** The heartbeat's reading of a field; None matches everything. */
  function Read(field: Field, minimum: int, maximum: int): Option<set<int>> {
    match field
    case Star => None
    case Items(items) => Some(FieldValues(items, minimum, maximum))
  }

  // ------------------------------------------------------- the readers compared

  /** The planner accepts the part on its own. */
  predicate Understood(item: Item) {
    PlannedItem(item).Some?
  }

  /** A range written from a later day to an earlier one. */
  predicate Wrapped(item: Item) {
    item.Range? && item.first > item.last
  }

  /** From Sunday to Sunday, in steps shorter than a week: one day for the planner, more for the heartbeat. */
  predicate SundayToSunday(item: Item) {
    item.Range? && item.first == 0 && item.last == 7 && item.step < 7
  }

  /** The days of first, first + step, ... up to last, 7 being Sunday again. */
  function Progression(first: int, last: int, step: int): set<int>
    requires step > 0
  {
    set v | first <= v <= last && OnGrid(v, first, step) :: v % 7
  }

  lemma InProgression(first: int, last: int, step: int, v: int)
    requires step > 0 && first <= v <= last && OnGrid(v, first, step)
    ensures v % 7 in Progression(first, last, step)
  {
  }

  lemma ProgressionStarts(first: int, last: int, step: int)
    requires step > 0
    ensures first <= last ==> first % 7 in Progression(first, last, step)
    ensures first > last ==> Progression(first, last, step) == {}
    ensures first == last ==> Progression(first, last, step) == {first % 7}
  {
    OnStepBasics(step);
    if first <= last {
      InProgression(first, last, step, first);
    }
  }

  /** A walk that spells out first, first + 1, ..., last gives the progression. */
  lemma StridedIsProgression(days: seq<int>, first: int, last: int, step: int)
    requires step > 0 && |days| == last - first + 1
    requires forall i :: 0 <= i < |days| ==> days[i] == (first + i) % 7
    ensures Strided(days, step) == Progression(first, last, step)
  {
    forall d | d in Strided(days, step) ensures d in Progression(first, last, step) {
      var i :| 0 <= i < |days| && OnStep(i, step) && days[i] == d;
      assert OnGrid(first + i, first, step);
      InProgression(first, last, step, first + i);
    }
    forall d | d in Progression(first, last, step) ensures d in Strided(days, step) {
      var v :| first <= v <= last && OnGrid(v, first, step) && v % 7 == d;
      assert days[v - first] == d;
    }
  }

  /** The planner's days of a forward range that is not from Sunday to Sunday. */
  lemma ForwardDays(first: int, last: int, step: int)
    requires 0 <= first <= last <= 7 && step > 0 && !(first == 0 && last == 7)
    ensures PlannedItem(Range(first, last, step)).value == Progression(first, last, step)
  {
    var days := Cyclic(first % 7, Span(first % 7, last % 7) + 1);
    assert Span(first % 7, last % 7) == last - first;
    StridedIsProgression(days, first, last, step);
  }

  lemma EveryDays(step: int)
    requires step > 0
    ensures PlannedItem(Every(step)).value == Progression(0, 6, step)
  {
    StridedIsProgression(Cyclic(0, 7), 0, 6, step);
  }

  lemma ValidDay(v: int)
    requires 0 <= v <= 7
    ensures Kept(v, 0, 6) && Stored(v, 0, 6) == v % 7
  {
  }

  lemma InBelow(first: int, bound: int, step: int, v: int)
    requires step > 0 && first <= v < bound && OnGrid(v, first, step) && Kept(v, 0, 6)
    ensures Stored(v, 0, 6) in Below(first, bound, step, 0, 6)
  {
  }

  lemma BelowIsProgression(first: int, last: int, step: int)
    requires 0 <= first && last <= 7 && step > 0
    ensures Below(first, last + 1, step, 0, 6) == Progression(first, last, step)
  {
    ProgressionInBelow(first, last, step);
    BelowInProgression(first, last, step);
  }

  lemma ProgressionInBelow(first: int, last: int, step: int)
    requires 0 <= first && last <= 7 && step > 0
    ensures Progression(first, last, step) <= Below(first, last + 1, step, 0, 6)
  {
    forall d | d in Progression(first, last, step) ensures d in Below(first, last + 1, step, 0, 6) {
      var v :| first <= v <= last && OnGrid(v, first, step) && v % 7 == d;
      ValidDay(v);
      InBelow(first, last + 1, step, v);
    }
  }

  lemma BelowInProgression(first: int, last: int, step: int)
    requires 0 <= first && last <= 7 && step > 0
    ensures Below(first, last + 1, step, 0, 6) <= Progression(first, last, step)
  {
    forall d | d in Below(first, last + 1, step, 0, 6) ensures d in Progression(first, last, step) {
      var v :| first <= v < last + 1 && OnGrid(v, first, step) && Kept(v, 0, 6) && Stored(v, 0, 6) == d;
      ValidDay(v);
      InProgression(first, last, step, v);
    }
  }

  /** What the heartbeat reads from a part of valid days. */
  lemma ReadDays(item: Item)
    requires Understood(item)
    ensures ItemValues(item, 0, 6) == Progression(First(item, 0), Last(item, 6), item.step)
  {
    BelowIsProgression(First(item, 0), Last(item, 6), item.step);
  }

  /** On one part both readers agree exactly when the range does not wrap and is not Sunday to Sunday; a
      wrapped range is empty for the heartbeat. */
  lemma ItemsAgreeExactly(item: Item)
    requires Understood(item)
    ensures ItemValues(item, 0, 6) == PlannedItem(item).value <==> !Wrapped(item) && !SundayToSunday(item)
    ensures ItemValues(item, 0, 6) <= PlannedItem(item).value <==> !SundayToSunday(item)
    ensures ItemValues(item, 0, 6) == {} <==> Wrapped(item)
  {
    ReadDays(item);
    ProgressionStarts(First(item, 0), Last(item, 6), item.step);
    match item {
      case Every(step) =>
        EveryDays(step);
      case Single(_, _) =>
      case Range(first, last, step) =>
        if first > last {
          WalkStarts(first % 7, last % 7, step);
        } else if first == 0 && last == 7 {
          SundayRange(step);
        } else {
          ForwardDays(first, last, step);
        }
    }
  }

  lemma WalkStarts(start: int, end: int, step: int)
    requires 0 <= start < 7 && step > 0
    ensures start in Strided(Cyclic(start, Span(start, end) + 1), step)
  {
    OnStepBasics(step);
    assert Cyclic(start, Span(start, end) + 1)[0] == start;
  }

  /** From Sunday to Sunday the planner walks one day; the heartbeat also takes the first step. */
  lemma SundayRange(step: int)
    requires step > 0
    ensures PlannedItem(Range(0, 7, step)).value == {0}
    ensures ItemValues(Range(0, 7, step), 0, 6) == Progression(0, 7, step)
    ensures step < 7 ==> step in Progression(0, 7, step)
    ensures step >= 7 ==> Progression(0, 7, step) == {0}
  {
    assert Cyclic(0, 1) == [0];
    StridedOne(0, step);
    ReadDays(Range(0, 7, step));
    OnStepBasics(step);
    if step < 7 {
      InProgression(0, 7, step, step);
    } else {
      InProgression(0, 7, step, 0);
      forall d | d in Progression(0, 7, step) ensures d == 0 {
        var v :| 0 <= v <= 7 && OnGrid(v, 0, step) && v % 7 == d;
      }
    }
  }

  lemma OneItem(item: Item)
    requires Understood(item)
    ensures Planned([item]) == PlannedItem(item)
    ensures FieldValues([item], 0, 6) == ItemValues(item, 0, 6)
  {
    var none: set<int> := {};
    assert none + PlannedItem(item).value == PlannedItem(item).value;
    assert [item][..0] == [];
  }

  /** A schedule the planner accepts as Friday, of which the heartbeat sees no day at all: 5-1/4. And the
      whole week written 0-7, which the planner reads as Sunday alone. */
  lemma AcceptedButNeverSeen()
    ensures Accepts([Star, Star, Star, Star, Items([Range(5, 1, 4)])]) && FieldValues([Range(5, 1, 4)], 0, 6) == {}
    ensures Planned([Range(0, 7, 1)]) == Some({0}) && 1 in FieldValues([Range(0, 7, 1)], 0, 6)
  {
    var friday := Range(5, 1, 4);
    OneItem(friday);
    ItemsAgreeExactly(friday);
    assert Cyclic(5, 4) == [5, 6, 0, 1];
    OnStepBasics(4);
    assert Strided([5, 6, 0, 1], 4) == {5};
    OneItem(Range(0, 7, 1));
    SundayRange(1);
  }

  /** All parts understood by the planner. */
  lemma {:induction false} PlannedUnderstands(items: seq<Item>)
    requires Planned(items).Some?
    ensures forall i :: 0 <= i < |items| ==> Understood(items[i]) && PlannedItem(items[i]).value <= Planned(items).value
  {
    if items != [] {
      var n := |items| - 1;
      PlannedUnderstands(items[..n]);
    }
  }

  predicate Compatible(item: Item)
    requires Understood(item)
  {
    var seen := ItemValues(item, 0, 6);
    && seen <= PlannedItem(item).value
    && (seen == {} <==> Wrapped(item))
    && (!Wrapped(item) ==> seen == PlannedItem(item).value)
    && PlannedItem(item).value != {}
  }

  predicate AllCompatible(items: seq<Item>) {
    forall i :: 0 <= i < |items| ==> Understood(items[i]) && Compatible(items[i])
  }

  lemma WeekdayPartsAreCompatible(items: seq<Item>)
    requires Planned(items).Some? && Planned(items).value <= WEEKDAYS
    ensures AllCompatible(items)
  {
    PlannedUnderstands(items);
    forall i | 0 <= i < |items| ensures Understood(items[i]) && Compatible(items[i]) {
      assert PlannedItem(items[i]).value <= WEEKDAYS;
      assert 0 !in PlannedItem(items[i]).value;
      if SundayToSunday(items[i]) {
        SundayRange(items[i].step);
        assert false;
      }
      ItemsAgreeExactly(items[i]);
    }
  }

  predicate NoneWrapped(items: seq<Item>) {
    forall i :: 0 <= i < |items| ==> !Wrapped(items[i])
  }

  predicate AllWrapped(items: seq<Item>) {
    forall i :: 0 <= i < |items| ==> Wrapped(items[i])
  }

  function UnionOf<T>(f: T -> set<int>, xs: seq<T>): set<int> {
    if xs == [] then {} else UnionOf(f, xs[..|xs| - 1]) + f(xs[|xs| - 1])
  }

  lemma UnionHas<T>(f: T -> set<int>, xs: seq<T>, i: nat)
    requires i < |xs|
    ensures f(xs[i]) <= UnionOf(f, xs)
  {
    if i < |xs| - 1 {
      UnionHas(f, xs[..|xs| - 1], i);
    }
  }

  lemma UnionFrom<T>(f: T -> set<int>, xs: seq<T>, d: int) returns (i: nat)
    requires d in UnionOf(f, xs)
    ensures i < |xs| && d in f(xs[i])
  {
    if d in f(xs[|xs| - 1]) {
      i := |xs| - 1;
    } else {
      i := UnionFrom(f, xs[..|xs| - 1], d);
    }
  }

  /** What is seen of a part: nothing when it wraps, its days otherwise. */
  predicate SeenAs(seen: set<int>, days: set<int>, wrapped: bool) {
    seen == if wrapped then {} else days
  }

  lemma SeenIsPlanned<T>(xs: seq<T>, seen: T -> set<int>, days: T -> set<int>, wrapped: T -> bool)
    requires forall i :: 0 <= i < |xs| ==> SeenAs(seen(xs[i]), days(xs[i]), wrapped(xs[i]))
    ensures UnionOf(seen, xs) <= UnionOf(days, xs)
  {
    forall d | d in UnionOf(seen, xs) ensures d in UnionOf(days, xs) {
      var i := UnionFrom(seen, xs, d);
      UnionHas(days, xs, i);
    }
  }

  lemma SeenAllIfCovered<T>(xs: seq<T>, seen: T -> set<int>, days: T -> set<int>, wrapped: T -> bool)
    requires forall i :: 0 <= i < |xs| ==> SeenAs(seen(xs[i]), days(xs[i]), wrapped(xs[i]))
    requires forall i :: 0 <= i < |xs| && wrapped(xs[i]) ==> days(xs[i]) <= UnionOf(seen, xs)
    ensures UnionOf(days, xs) <= UnionOf(seen, xs)
  {
    forall d | d in UnionOf(days, xs) ensures d in UnionOf(seen, xs) {
      var i := UnionFrom(days, xs, d);
      UnionHas(seen, xs, i);
    }
  }

  lemma CoveredIfSeenAll<T>(xs: seq<T>, seen: T -> set<int>, days: T -> set<int>, i: nat)
    requires UnionOf(seen, xs) == UnionOf(days, xs) && i < |xs|
    ensures days(xs[i]) <= UnionOf(seen, xs)
  {
    UnionHas(days, xs, i);
  }

  lemma SeenNothing<T>(xs: seq<T>, seen: T -> set<int>, days: T -> set<int>, wrapped: T -> bool)
    requires forall i :: 0 <= i < |xs| ==> SeenAs(seen(xs[i]), days(xs[i]), wrapped(xs[i])) && days(xs[i]) != {}
    ensures UnionOf(seen, xs) == {} <==> forall i :: 0 <= i < |xs| ==> wrapped(xs[i])
  {
    if UnionOf(seen, xs) == {} {
      forall i | 0 <= i < |xs| ensures wrapped(xs[i]) {
        UnionHas(seen, xs, i);
      }
    }
    if d :| d in UnionOf(seen, xs) {
      var i := UnionFrom(seen, xs, d);
      assert !wrapped(xs[i]);
    }
  }

  lemma {:induction false} FieldIsUnion(items: seq<Item>, seen: Item -> set<int>)
    requires forall item :: seen(item) == ItemValues(item, 0, 6)
    ensures FieldValues(items, 0, 6) == UnionOf(seen, items)
  {
    if items != [] {
      FieldIsUnion(items[..|items| - 1], seen);
    }
  }

  lemma {:induction false} PlannedIsUnion(items: seq<Item>, days: Item -> set<int>)
    requires Planned(items).Some? && forall item :: Understood(item) ==> days(item) == PlannedItem(item).value
    ensures Planned(items).value == UnionOf(days, items)
  {
    if items != [] {
      PlannedIsUnion(items[..|items| - 1], days);
    }
  }

  /** The days of every wrapped part are also read from some part, that is, from one that does not wrap. */
  predicate WrappedIsCovered(items: seq<Item>) {
    forall i :: 0 <= i < |items| && Wrapped(items[i]) && Understood(items[i]) ==>
      PlannedItem(items[i]).value <= FieldValues(items, 0, 6)
  }

  lemma CompatibleUnion(items: seq<Item>)
    requires Planned(items).Some? && AllCompatible(items)
    ensures FieldValues(items, 0, 6) == Planned(items).value <==> WrappedIsCovered(items)
    ensures FieldValues(items, 0, 6) <= Planned(items).value
    ensures NoneWrapped(items) ==> FieldValues(items, 0, 6) == Planned(items).value
    ensures FieldValues(items, 0, 6) == {} <==> AllWrapped(items)
  {
    var seen: Item -> set<int> := (item: Item) => ItemValues(item, 0, 6);
    var days: Item -> set<int> := (item: Item) => if Understood(item) then PlannedItem(item).value else {};
    var wrapped: Item -> bool := (item: Item) => Wrapped(item);
    FieldIsUnion(items, seen);
    PlannedIsUnion(items, days);
    forall i | 0 <= i < |items| ensures SeenAs(seen(items[i]), days(items[i]), wrapped(items[i])) && days(items[i]) != {} {
      assert Compatible(items[i]);
    }
    SeenIsPlanned(items, seen, days, wrapped);
    SeenNothing(items, seen, days, wrapped);
    if WrappedIsCovered(items) {
      SeenAllIfCovered(items, seen, days, wrapped);
    }
    if FieldValues(items, 0, 6) == Planned(items).value {
      forall i | 0 <= i < |items| && Wrapped(items[i]) && Understood(items[i])
        ensures PlannedItem(items[i]).value <= FieldValues(items, 0, 6)
      {
        CoveredIfSeenAll(items, seen, days, i);
      }
    }
  }

  /** A field the planner lets through as weekdays: the heartbeat reads only planned days from it, all of
      them exactly when the parts that do not wrap cover those that do, and none exactly when every part is a
      wrapped range. */
  lemma WeekdayFieldsAreCompatible(items: seq<Item>)
    requires Planned(items).Some? && Planned(items).value <= WEEKDAYS
    ensures FieldValues(items, 0, 6) == Planned(items).value <==> WrappedIsCovered(items)
    ensures FieldValues(items, 0, 6) <= Planned(items).value
    ensures NoneWrapped(items) ==> FieldValues(items, 0, 6) == Planned(items).value
    ensures FieldValues(items, 0, 6) == {} <==> AllWrapped(items)
  {
    WeekdayPartsAreCompatible(items);
    CompatibleUnion(items);
  }

  // ------------------------------------------------------------------ due runs

  /** A local time; weekday is the ISO number, Monday 1 to Sunday 7. */
  datatype Moment = Moment(minute: int, hour: int, day: int, month: int, weekday: int)

  predicate In(value: int, values: Option<set<int>>) {
    values == None || value in values.value
  }

  predicate Matches(fields: seq<Field>, at: Moment) {
    && |fields| == 5
    && In(at.minute, Read(fields[0], 0, 59)) && In(at.hour, Read(fields[1], 0, 23)) && In(at.month, Read(fields[3], 1, 12))
    && var days, weekdays := Read(fields[2], 1, 31), Read(fields[4], 0, 6);
       if days.Some? && weekdays.Some?
       then In(at.day, days) || In(at.weekday % 7, weekdays)
       else In(at.day, days) && In(at.weekday % 7, weekdays)
  }

  /** The day rule: a day of the month and a weekday that are both restricted are alternatives; a single restricted
      one decides; with neither, every day matches. */
  lemma DayRule(fields: seq<Field>, at: Moment)
    requires |fields| == 5
    requires fields[0] == Star && fields[1] == Star && fields[3] == Star
    ensures fields[2] == Star && fields[4] == Star ==> Matches(fields, at)
    ensures fields[2].Items? && fields[4] == Star ==> (Matches(fields, at) <==> at.day in FieldValues(fields[2].items, 1, 31))
    ensures fields[2] == Star && fields[4].Items? ==> (Matches(fields, at) <==> at.weekday % 7 in FieldValues(fields[4].items, 0, 6))
    ensures fields[2].Items? && fields[4].Items? ==>
              (Matches(fields, at) <==>
                 at.day in FieldValues(fields[2].items, 1, 31) || at.weekday % 7 in FieldValues(fields[4].items, 0, 6))
  {
  }

  /** Minute, hour and month must all match. */
  lemma TimeRule(fields: seq<Field>, at: Moment)
    requires |fields| == 5 && Matches(fields, at)
    ensures fields[0].Items? ==> at.minute in FieldValues(fields[0].items, 0, 59)
    ensures fields[1].Items? ==> at.hour in FieldValues(fields[1].items, 0, 23)
    ensures fields[3].Items? ==> at.month in FieldValues(fields[3].items, 1, 12)
  {
  }

  /** A stepped asterisk counts from the field's minimum: every second day of the month is the first, the third and
      so on. */
  lemma EveryCountsFromMinimum(step: int, minimum: int, maximum: int, v: int)
    requires step > 0 && minimum <= v <= maximum
    ensures v in ItemValues(Every(step), minimum, maximum) <==> (v - minimum) % step == 0
  {
    var values := ItemValues(Every(step), minimum, maximum);
    if v in values {
      var x :| minimum <= x < maximum + 1 && OnGrid(x, minimum, step) && Kept(x, minimum, maximum) && Stored(x, minimum, maximum) == v;
      assert x == v;
    }
    if (v - minimum) % step == 0 {
      assert OnGrid(v, minimum, step) && Kept(v, minimum, maximum) && Stored(v, minimum, maximum) == v;
    }
  }

  /** A step of zero or less counts as one. */
  lemma NoStepIsOne(first: int, last: int, step: int, minimum: int, maximum: int)
    requires step <= 0
    ensures ItemValues(Every(step), minimum, maximum) == ItemValues(Every(1), minimum, maximum)
    ensures ItemValues(Range(first, last, step), minimum, maximum) == ItemValues(Range(first, last, 1), minimum, maximum)
  {
  }

  /** An unrestricted field includes Sunday. */
  lemma StarIncludesSunday()
    ensures DaysOfField(Star).Some? && 0 in DaysOfField(Star).value
  {
    OneItem(Every(1));
    EveryDays(1);
    ProgressionStarts(0, 6, 1);
  }

  lemma AcceptedWeekdays(fields: seq<Field>)
    requires Accepts(fields)
    ensures fields[4].Items? && FieldValues(fields[4].items, 0, 6) <= WEEKDAYS
  {
    StarIncludesSunday();
    assert 0 !in WEEKDAYS;
    if fields[4].Items? {
      WeekdayFieldsAreCompatible(fields[4].items);
    }
  }

  /** An accepted schedule is due from Monday to Friday only. */
  lemma AcceptedMatchesOnlyWeekdays(fields: seq<Field>, at: Moment)
    requires Accepts(fields) && 1 <= at.weekday <= 7 && Matches(fields, at)
    ensures 1 <= at.weekday <= 5
  {
    AcceptedWeekdays(fields);
    assert at.weekday % 7 in WEEKDAYS;
  }

  lemma WeekRange()
    ensures PlannedItem(Range(1, 5, 1)) == Some(WEEKDAYS) && ItemValues(Range(1, 5, 1), 0, 6) == WEEKDAYS
  {
    ForwardDays(1, 5, 1);
    ReadDays(Range(1, 5, 1));
    forall v | 1 <= v <= 5 ensures v in Progression(1, 5, 1) {
      InProgression(1, 5, 1, v);
    }
    assert Progression(1, 5, 1) == WEEKDAYS;
  }

  /** A schedule of two fields is completed to one that is accepted and due on every weekday. */
  lemma CompletedIsEveryWeekday(minute: Field, hour: Field, at: Moment)
    requires 1 <= at.weekday <= 7
    ensures Accepts(Completed([minute, hour]))
    ensures Matches(Completed([minute, hour]), at)
       <==> In(at.minute, Read(minute, 0, 59)) && In(at.hour, Read(hour, 0, 23)) && 1 <= at.weekday <= 5
  {
    var fields, week := Completed([minute, hour]), Range(1, 5, 1);
    WeekRange();
    OneItem(week);
    assert fields == [minute, hour, Star, Star, Items([week])];
    assert Read(fields[4], 0, 6) == Some(WEEKDAYS) && DaysOfField(fields[4]) == Some(WEEKDAYS);
    assert 1 in WEEKDAYS;
  }

  const MINUTE := 60000000

  /** Whether some whole minute of the window matches; times in microseconds, local gives the wall clock of a
      whole minute in the job's time zone. */
  method DueBetween(fields: seq<Field>, since: int, now: int, local: int -> Moment) returns (due: bool)
    ensures due <==> exists m: int :: since <= m * MINUTE <= now && Matches(fields, local(m))
  {
    var cursor := since / MINUTE;
    if cursor * MINUTE < since {
      cursor := cursor + 1;
    }
    while cursor * MINUTE <= now
      invariant since <= cursor * MINUTE
      invariant forall m: int :: since <= m * MINUTE && m < cursor ==> !Matches(fields, local(m))
      decreases now - cursor * MINUTE
    {
      if Matches(fields, local(cursor)) {
        return true;
      }
      cursor := cursor + 1;
    }
    due := false;
  }
}
