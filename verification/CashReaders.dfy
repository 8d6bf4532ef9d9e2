/** The three readers of broker cash: the execution-time fold, the portfolio snapshot fold, and the
    reconciliation that normalises the snapshot's cash records. */
module CashReaders {
  import opened Orders
  import opened Sums
  import opened Sorting

  /** One broker account value. Texts are trimmed; an absent account is empty; value is None when it
      is not a number. */
  datatype Reading = Reading(account: string, currency: string, tag: string, value: Option<real>)

  datatype Slot = Slot(account: string, currency: string)

  type Tags = map<string, real>
  type Table = map<Slot, Tags>

  const TAG_PRIORITY := ["$LEDGER-CashBalance", "$LEDGER-TotalCashBalance", "CashBalance", "TotalCashBalance", "SettledCash"]

  predicate Selected(account: string, ids: seq<string>) {
    ids == [] || account in ids
  }

  predicate InScope(r: Reading, ids: seq<string>) {
    Selected(r.account, ids) && r.currency != ""
  }

  function SlotOf(r: Reading): Slot {
    Slot(r.account, r.currency)
  }

  // ------------------------------------------------------------ specification

  /** The last number read for an account, currency and tag. */
  function LastNumber(rs: seq<Reading>, ids: seq<string>, slot: Slot, tag: string): Option<real> {
    if rs == [] then None
    else
      var r := rs[|rs| - 1];
      if InScope(r, ids) && SlotOf(r) == slot && r.tag == tag && r.value.Some? then r.value
      else LastNumber(rs[..|rs| - 1], ids, slot, tag)
  }

  datatype Chosen = Chosen(tag: string, amount: real)

  /** The first tag of the priority that has a number. */
  function First(priority: seq<string>, number: string -> Option<real>): Option<Chosen> {
    if priority == [] then None
    else if number(priority[0]).Some? then Some(Chosen(priority[0], number(priority[0]).value))
    else First(priority[1..], number)
  }

  function ChosenIn(rs: seq<Reading>, ids: seq<string>, slot: Slot): Option<Chosen> {
    First(TAG_PRIORITY, (tag: string) => LastNumber(rs, ids, slot, tag))
  }

  /** The pairs of account and currency seen in scope, with a number or not. */
  ghost function Slots(rs: seq<Reading>, ids: seq<string>): set<Slot> {
    set r | r in rs && InScope(r, ids) :: SlotOf(r)
  }

  ghost function CashSlots(rs: seq<Reading>, ids: seq<string>, currency: string): set<Slot> {
    set s | s in Slots(rs, ids) && s.currency == currency && ChosenIn(rs, ids, s).Some?
  }

  function Amount(rs: seq<Reading>, ids: seq<string>, slot: Slot): real {
    match ChosenIn(rs, ids, slot)
    case Some(chosen) => chosen.amount
    case None => 0.0
  }

  ghost function AmountIn(rs: seq<Reading>, ids: seq<string>): Slot -> real {
    (s: Slot) => Amount(rs, ids, s)
  }

  ghost function PartIn(rs: seq<Reading>, ids: seq<string>, currency: string): Slot -> real {
    (s: Slot) => if s.currency == currency then Amount(rs, ids, s) else 0.0
  }

  /** The cash of a currency: the preferred balance of every account that has one; None when none has. */
  ghost function Cash(rs: seq<Reading>, ids: seq<string>, currency: string): Option<real> {
    var slots := CashSlots(rs, ids, currency);
    if slots == {} then None else Some(SumOver(slots, AmountIn(rs, ids)))
  }

  // -------------------------------------------------------------------- folds

  function Entry(table: Table, slot: Slot, tag: string): Option<real> {
    if slot in table && tag in table[slot] then Some(table[slot][tag]) else None
  }

  /** The table holds the last number of every account, currency and tag, and nothing else. */
  ghost predicate Folds(table: Table, rs: seq<Reading>, ids: seq<string>) {
    && table.Keys <= Slots(rs, ids)
    && forall slot, tag :: Entry(table, slot, tag) == LastNumber(rs, ids, slot, tag)
  }

  function Put(table: Table, slot: Slot, tag: string, amount: real): Table {
    table[slot := (if slot in table then table[slot] else map[])[tag := amount]]
  }

  /** dict.setdefault(slot, {}) */
  function Touch(table: Table, slot: Slot): Table {
    if slot in table then table else table[slot := map[]]
  }

  lemma SlotsNext(rs: seq<Reading>, k: nat, ids: seq<string>)
    requires k < |rs|
    ensures Slots(rs[..k + 1], ids) == Slots(rs[..k], ids) + if InScope(rs[k], ids) then {SlotOf(rs[k])} else {}
  {
    assert rs[..k + 1] == rs[..k] + [rs[k]];
  }

  lemma FoldsNext(table: Table, rs: seq<Reading>, k: nat, ids: seq<string>)
    requires k < |rs| && Folds(table, rs[..k], ids)
    ensures var r := rs[k];
            Folds(if InScope(r, ids) && r.value.Some? then Put(table, SlotOf(r), r.tag, r.value.value) else table, rs[..k + 1], ids)
  {
    SlotsNext(rs, k, ids);
    assert rs[..k + 1][..k] == rs[..k];
    var r := rs[k];
    if InScope(r, ids) && r.value.Some? {
      var put := Put(table, SlotOf(r), r.tag, r.value.value);
      forall slot, tag ensures Entry(put, slot, tag) == LastNumber(rs[..k + 1], ids, slot, tag) {
        assert Entry(table, slot, tag) == LastNumber(rs[..k], ids, slot, tag);
      }
    }
  }

  /** At execution time a reading that is not a number leaves no trace. */
  method FoldExecution(rs: seq<Reading>, ids: seq<string>) returns (table: Table)
    ensures Folds(table, rs, ids)
  {
    table := map[];
    for k := 0 to |rs|
      invariant Folds(table, rs[..k], ids)
    {
      FoldsNext(table, rs, k, ids);
      var r := rs[k];
      if !Selected(r.account, ids) {
        continue;
      }
      if r.currency == "" {
        continue;
      }
      if r.value == None {
        continue;
      }
      table := Put(table, SlotOf(r), r.tag, r.value.value);
    }
    assert rs[..|rs|] == rs;
  }

  /** The snapshot opens the entry before it looks at the number. */
  method FoldSnapshot(rs: seq<Reading>, ids: seq<string>) returns (table: Table)
    ensures Folds(table, rs, ids) && table.Keys == Slots(rs, ids)
  {
    table := map[];
    for k := 0 to |rs|
      invariant Folds(table, rs[..k], ids) && table.Keys == Slots(rs[..k], ids)
    {
      var r := rs[k];
      ghost var before := table;
      FoldsNext(table, rs, k, ids);
      SlotsNext(rs, k, ids);
      if !Selected(r.account, ids) {
        continue;
      }
      if r.currency != "" {
        table := Touch(table, SlotOf(r));
        assert forall slot, tag :: Entry(table, slot, tag) == Entry(before, slot, tag);
        if r.value.Some? {
          table := Put(table, SlotOf(r), r.tag, r.value.value);
          assert table == Put(before, SlotOf(r), r.tag, r.value.value);
        }
      }
    }
    assert rs[..|rs|] == rs;
  }

  // -------------------------------------------------------------------- total

  function Pick(tags: Tags): Option<Chosen> {
    First(TAG_PRIORITY, (tag: string) => if tag in tags then Some(tags[tag]) else None)
  }

  method PickTag(tags: Tags) returns (picked: Option<Chosen>)
    ensures picked == Pick(tags)
  {
    var number: string -> Option<real> := (tag: string) => if tag in tags then Some(tags[tag]) else None;
    for i := 0 to |TAG_PRIORITY|
      invariant First(TAG_PRIORITY, number) == First(TAG_PRIORITY[i..], number)
    {
      var tag := TAG_PRIORITY[i];
      assert TAG_PRIORITY[i..][1..] == TAG_PRIORITY[i + 1..];
      if tag in tags {
        return Some(Chosen(tag, tags[tag]));
      }
    }
    return None;
  }

  lemma {:induction false} FirstAgrees(priority: seq<string>, f: string -> Option<real>, g: string -> Option<real>)
    requires forall tag :: f(tag) == g(tag)
    ensures First(priority, f) == First(priority, g)
  {
    if priority != [] {
      FirstAgrees(priority[1..], f, g);
    }
  }

  lemma PickIsChosen(table: Table, rs: seq<Reading>, ids: seq<string>, slot: Slot)
    requires Folds(table, rs, ids)
    ensures slot in table ==> Pick(table[slot]) == ChosenIn(rs, ids, slot)
    ensures slot !in table ==> ChosenIn(rs, ids, slot) == None
  {
    var last: string -> Option<real> := (tag: string) => LastNumber(rs, ids, slot, tag);
    assert forall tag :: last(tag) == Entry(table, slot, tag);
    if slot in table {
      var number: string -> Option<real> := (tag: string) => if tag in table[slot] then Some(table[slot][tag]) else None;
      assert forall tag :: last(tag) == number(tag);
      FirstAgrees(TAG_PRIORITY, number, last);
    } else {
      var none: string -> Option<real> := (tag: string) => None;
      FirstAgrees(TAG_PRIORITY, last, none);
      FirstOfNothing(TAG_PRIORITY, none);
    }
  }

  lemma {:induction false} FirstOfNothing(priority: seq<string>, none: string -> Option<real>)
    requires forall tag :: none(tag) == None
    ensures First(priority, none) == None
  {
    if priority != [] {
      FirstOfNothing(priority[1..], none);
    }
  }

  /** Some slot of the list has cash in the currency. */
  ghost predicate AnyCash(slots: seq<Slot>, rs: seq<Reading>, ids: seq<string>, currency: string) {
    exists s :: s in slots && s.currency == currency && ChosenIn(rs, ids, s).Some?
  }

  lemma AddSlot(slots: seq<Slot>, s: Slot, rs: seq<Reading>, ids: seq<string>, currency: string)
    ensures SumSeq(slots + [s], PartIn(rs, ids, currency)) == SumSeq(slots, PartIn(rs, ids, currency)) + if s.currency == currency then Amount(rs, ids, s) else 0.0
    ensures AnyCash(slots + [s], rs, ids, currency)
       <==> AnyCash(slots, rs, ids, currency) || (s.currency == currency && ChosenIn(rs, ids, s).Some?)
  {
    SumSeqAppend(slots, [s], PartIn(rs, ids, currency));
    SumSeqOne(s, PartIn(rs, ids, currency));
    assert s in slots + [s];
    assert forall x :: x in slots + [s] <==> x in slots || x == s;
  }

  lemma TotalIsCash(table: Table, order: seq<Slot>, rs: seq<Reading>, ids: seq<string>, currency: string)
    requires Enumerates(order, table.Keys) && Folds(table, rs, ids)
    ensures SumSeq(order, PartIn(rs, ids, currency)) == SumOver(CashSlots(rs, ids, currency), AmountIn(rs, ids))
    ensures AnyCash(order, rs, ids, currency) <==> CashSlots(rs, ids, currency) != {}
  {
    var slots, part := CashSlots(rs, ids, currency), PartIn(rs, ids, currency);
    forall s | s in slots ensures s in table.Keys && s in order {
      PickIsChosen(table, rs, ids, s);
      assert s in Elements(order);
    }
    forall s | s in order ensures s in table.Keys {
      assert s in Elements(order);
    }
    SumOfEnumeration(order, table.Keys, part);
    SumSupport(table.Keys, slots, part);
    SumAgree(slots, part, AmountIn(rs, ids));
    if s :| s in order && s.currency == currency && ChosenIn(rs, ids, s).Some? {
      assert s in slots;
    }
  }

  /** The closing loop of both readers; order is the dictionary's iteration order. */
  method MarketCash(table: Table, order: seq<Slot>, currency: string, ghost rs: seq<Reading>, ghost ids: seq<string>)
    returns (cash: Option<real>)
    requires Enumerates(order, table.Keys) && Folds(table, rs, ids)
    ensures cash == Cash(rs, ids, currency)
  {
    var total, matched := 0.0, false;
    for i := 0 to |order|
      invariant total == SumSeq(order[..i], PartIn(rs, ids, currency))
      invariant matched <==> AnyCash(order[..i], rs, ids, currency)
    {
      var s := order[i];
      assert s in Elements(order);
      PrefixNext(order, i);
      AddSlot(order[..i], s, rs, ids, currency);
      PickIsChosen(table, rs, ids, s);
      if s.currency == currency {
        var picked := PickTag(table[s]);
        if picked.Some? {
          total, matched := total + picked.value.amount, true;
        }
      }
    }
    assert order[..|order|] == order;
    TotalIsCash(table, order, rs, ids, currency);
    cash := if matched then Some(total) else None;
  }

  method ExecutionCash(rs: seq<Reading>, ids: seq<string>, currency: string) returns (cash: Option<real>)
    ensures cash == Cash(rs, ids, currency)
  {
    var table := FoldExecution(rs, ids);
    var order := SomeOrder(table);
    cash := MarketCash(table, order, currency, rs, ids);
  }

  method SnapshotCash(rs: seq<Reading>, ids: seq<string>, currency: string) returns (cash: Option<real>, table: Table)
    ensures cash == Cash(rs, ids, currency)
    ensures Folds(table, rs, ids) && table.Keys == Slots(rs, ids)
  {
    table := FoldSnapshot(rs, ids);
    var order := SomeOrder(table);
    cash := MarketCash(table, order, currency, rs, ids);
  }

  /** Some iteration order of the table: the total does not depend on which. */
  method SomeOrder(table: Table) returns (order: seq<Slot>)
    ensures Enumerates(order, table.Keys)
  {
    var rest := table.Keys;
    order := [];
    while rest != {}
      invariant rest <= table.Keys && Distinct(order)
      invariant forall s :: s in order <==> s in table.Keys - rest
      decreases |rest|
    {
      var s :| s in rest;
      assert s !in order;
      order, rest := order + [s], rest - {s};
    }
  }

  lemma {:induction false} NumberComesFromSlot(rs: seq<Reading>, ids: seq<string>, slot: Slot, tag: string)
    ensures LastNumber(rs, ids, slot, tag).Some? ==> slot in Slots(rs, ids)
  {
    if rs != [] {
      var n := |rs| - 1;
      NumberComesFromSlot(rs[..n], ids, slot, tag);
      SlotsNext(rs, n, ids);
      assert rs[..n + 1] == rs;
    }
  }

  lemma {:induction false} FirstHasNumber(priority: seq<string>, number: string -> Option<real>)
    ensures First(priority, number).Some? ==>
              number(First(priority, number).value.tag) == Some(First(priority, number).value.amount)
  {
    if priority != [] {
      FirstHasNumber(priority[1..], number);
    }
  }

  /** The cash depends only on the last number of each account, currency and tag: readings in any
      order, with any superseded or non-numeric values in between, give the same cash. */
  lemma OnlyLastNumbersMatter(rs: seq<Reading>, others: seq<Reading>, ids: seq<string>, currency: string)
    requires forall slot, tag :: LastNumber(rs, ids, slot, tag) == LastNumber(others, ids, slot, tag)
    ensures Cash(rs, ids, currency) == Cash(others, ids, currency)
  {
    forall slot
      ensures ChosenIn(rs, ids, slot) == ChosenIn(others, ids, slot)
      ensures ChosenIn(rs, ids, slot).Some? ==> slot in Slots(rs, ids) && slot in Slots(others, ids)
    {
      var f: string -> Option<real> := (tag: string) => LastNumber(rs, ids, slot, tag);
      var g: string -> Option<real> := (tag: string) => LastNumber(others, ids, slot, tag);
      FirstAgrees(TAG_PRIORITY, f, g);
      FirstHasNumber(TAG_PRIORITY, f);
      if ChosenIn(rs, ids, slot).Some? {
        var tag := ChosenIn(rs, ids, slot).value.tag;
        NumberComesFromSlot(rs, ids, slot, tag);
        NumberComesFromSlot(others, ids, slot, tag);
      }
    }
    assert CashSlots(rs, ids, currency) == CashSlots(others, ids, currency);
    SumAgree(CashSlots(rs, ids, currency), AmountIn(rs, ids), AmountIn(others, ids));
  }

  // ----------------------------------------------------------- reconciliation

  datatype CashRecord = CashRecord(account: string, currency: string, tags: Tags)

  datatype Balance = Balance(account: string, currency: string, tag: string, amount: real)

  /** The cash records of the snapshot, its table in sorted slot order. */
  function Records(table: Table, order: seq<Slot>): seq<CashRecord>
    requires forall s :: s in order ==> s in table
  {
    seq(|order|, i requires 0 <= i < |order| => CashRecord(order[i].account, order[i].currency, table[order[i]]))
  }

  /** None is a raised error: an unscoped or foreign account, or no stable balance tag. */
  function NormaliseBalance(c: CashRecord, ids: seq<string>): Option<Balance> {
    if c.account == "" || c.account !in ids then None
    else
      match Pick(c.tags)
      case None => None
      case Some(chosen) => Some(Balance(c.account, c.currency, chosen.tag, chosen.amount))
  }

  function NormaliseAll(cs: seq<CashRecord>, ids: seq<string>): (bs: Option<seq<Balance>>)
    ensures bs.Some? <==> forall i :: 0 <= i < |cs| ==> NormaliseBalance(cs[i], ids).Some?
    ensures bs.Some? ==> |bs.value| == |cs| && forall i :: 0 <= i < |cs| ==> NormaliseBalance(cs[i], ids) == Some(bs.value[i])
  {
    if cs == [] then Some([])
    else
      var n := |cs| - 1;
      match (NormaliseAll(cs[..n], ids), NormaliseBalance(cs[n], ids))
      case (Some(bs), Some(b)) => Some(bs + [b])
      case _ => None
  }

  function InCurrency(currency: string): Balance -> real {
    (b: Balance) => if b.currency == currency then b.amount else 0.0
  }

  /** The balances of a reconciliation that does not raise, in any order, add up to the cash of the
      two folds; the cash is present exactly when some balance is in the currency. */
  ghost predicate AddUpTo(observed: seq<Balance>, currency: string, cash: Option<real>) {
    && (cash.Some? <==> exists b :: b in observed && b.currency == currency)
    && (cash.Some? ==> cash.value == SumSeq(observed, InCurrency(currency)))
  }

  /** Slot by slot, the balance is the chosen one. */
  ghost predicate Matches(order: seq<Slot>, bs: seq<Balance>, rs: seq<Reading>, ids: seq<string>) {
    && |order| == |bs|
    && forall i :: 0 <= i < |bs| ==>
         && bs[i].currency == order[i].currency
         && ChosenIn(rs, ids, order[i]) == Some(Chosen(bs[i].tag, bs[i].amount))
  }

  lemma {:induction false} MatchingSums(order: seq<Slot>, bs: seq<Balance>, rs: seq<Reading>, ids: seq<string>, currency: string)
    requires Matches(order, bs, rs, ids)
    ensures SumSeq(bs, InCurrency(currency)) == SumSeq(order, PartIn(rs, ids, currency))
    ensures (exists b :: b in bs && b.currency == currency) <==> AnyCash(order, rs, ids, currency)
  {
    if order != [] {
      var s, b := order[0], bs[0];
      assert ChosenIn(rs, ids, s) == Some(Chosen(b.tag, b.amount));
      MatchingSums(order[1..], bs[1..], rs, ids, currency);
      assert order == [s] + order[1..] && bs == [b] + bs[1..];
      assert forall x :: x in order <==> x == s || x in order[1..];
      assert forall x :: x in bs <==> x == b || x in bs[1..];
      assert s in order && b in bs;
    }
  }

  lemma BalancesMatch(table: Table, order: seq<Slot>, rs: seq<Reading>, ids: seq<string>)
    requires Folds(table, rs, ids)
    requires forall s :: s in order ==> s in table
    requires NormaliseAll(Records(table, order), ids).Some?
    ensures Matches(order, NormaliseAll(Records(table, order), ids).value, rs, ids)
  {
    var cs := Records(table, order);
    var bs := NormaliseAll(cs, ids).value;
    forall i | 0 <= i < |order|
      ensures bs[i].currency == order[i].currency && ChosenIn(rs, ids, order[i]) == Some(Chosen(bs[i].tag, bs[i].amount))
    {
      assert NormaliseBalance(cs[i], ids) == Some(bs[i]);
      PickIsChosen(table, rs, ids, order[i]);
    }
  }

  lemma BalancesAddUp(table: Table, order: seq<Slot>, rs: seq<Reading>, ids: seq<string>, currency: string)
    requires Folds(table, rs, ids) && Enumerates(order, table.Keys)
    requires forall s :: s in order ==> s in table
    requires NormaliseAll(Records(table, order), ids).Some?
    ensures AddUpTo(NormaliseAll(Records(table, order), ids).value, currency, Cash(rs, ids, currency))
  {
    BalancesMatch(table, order, rs, ids);
    MatchingSums(order, NormaliseAll(Records(table, order), ids).value, rs, ids, currency);
    TotalIsCash(table, order, rs, ids, currency);
  }

  /** Sorting the balances afterwards does not change what they add up to. */
  lemma ReconciliationAgrees(table: Table, order: seq<Slot>, rs: seq<Reading>, ids: seq<string>, currency: string,
                             le: (Balance, Balance) -> bool)
    requires Folds(table, rs, ids) && Enumerates(order, table.Keys)
    requires forall s :: s in order ==> s in table
    requires NormaliseAll(Records(table, order), ids).Some? && TotalPreorder(le)
    ensures AddUpTo(Sort(le, NormaliseAll(Records(table, order), ids).value), currency, Cash(rs, ids, currency))
  {
    BalancesAddUp(table, order, rs, ids, currency);
    var bs := NormaliseAll(Records(table, order), ids).value;
    SortSorts(le, bs);
    SumSeqPermutation(bs, Sort(le, bs), InCurrency(currency));
    forall b ensures b in bs <==> b in Sort(le, bs) {
      SameElements(bs, Sort(le, bs), b);
    }
  }

  /** A pair in scope whose record raises. */
  predicate Unreconciled(rs: seq<Reading>, ids: seq<string>, slot: Slot) {
    ids == [] || ChosenIn(rs, ids, slot).None?
  }

  lemma RecordRaises(table: Table, slot: Slot, rs: seq<Reading>, ids: seq<string>)
    requires Folds(table, rs, ids) && slot in table && "" !in ids
    ensures NormaliseBalance(CashRecord(slot.account, slot.currency, table[slot]), ids).None? <==> Unreconciled(rs, ids, slot)
  {
    PickIsChosen(table, rs, ids, slot);
    assert slot in Slots(rs, ids);
  }

  /** It raises exactly when no account is selected and something was read, or when some pair of
      account and currency in scope has no balance tag with a number. */
  lemma RaisesExactly(table: Table, order: seq<Slot>, rs: seq<Reading>, ids: seq<string>)
    requires Folds(table, rs, ids) && table.Keys == Slots(rs, ids) && Enumerates(order, table.Keys)
    requires forall s :: s in order ==> s in table
    requires "" !in ids
    ensures NormaliseAll(Records(table, order), ids).None?
       <==> exists r :: r in rs && InScope(r, ids) && (ids == [] || ChosenIn(rs, ids, SlotOf(r)).None?)
  {
    if r :| r in rs && InScope(r, ids) && Unreconciled(rs, ids, SlotOf(r)) {
      assert SlotOf(r) in Elements(order);
      var i :| 0 <= i < |order| && order[i] == SlotOf(r);
      RecordRaises(table, order[i], rs, ids);
      assert Records(table, order)[i] == CashRecord(order[i].account, order[i].currency, table[order[i]]);
    }
    if NormaliseAll(Records(table, order), ids).None? {
      var i :| 0 <= i < |order| && NormaliseBalance(Records(table, order)[i], ids).None?;
      RecordRaises(table, order[i], rs, ids);
      assert order[i] in Slots(rs, ids);
      var r :| r in rs && InScope(r, ids) && SlotOf(r) == order[i];
    }
  }

  // -------------------------------------------------- order of the broker's replies

  function SlotKey(s: Slot): (string, string) {
    (s.account, s.currency)
  }

  /** The snapshot's cash records, sorted by account and currency. */
  function SortedRecords(table: Table, order: seq<Slot>): seq<CashRecord>
    requires forall s :: s in order ==> s in table
  {
    ByKeyIsTotalPreorder(SlotKey);
    SortSorts(ByKey(SlotKey), order);
    assert forall s :: s in Sort(ByKey(SlotKey), order) ==> s in multiset(Sort(ByKey(SlotKey), order));
    Records(table, Sort(ByKey(SlotKey), order))
  }

  lemma SameTags(table: Table, table': Table, s: Slot)
    requires s in table && s in table'
    requires forall tag :: Entry(table, s, tag) == Entry(table', s, tag)
    ensures table[s] == table'[s]
  {
    forall tag ensures tag in table[s] <==> tag in table'[s]
               ensures tag in table[s] ==> table[s][tag] == table'[s][tag]
    {
      assert Entry(table, s, tag) == Entry(table', s, tag);
    }
  }

  /** Readings with the same pairs in scope and the same last numbers, in any order, give the same
      cash records, so the reconciliation observes the same balances or raises both times. */
  lemma CashIgnoresOrder(ids: seq<string>,
                         rs: seq<Reading>, table: Table, order: seq<Slot>,
                         others: seq<Reading>, table': Table, order': seq<Slot>)
    requires Folds(table, rs, ids) && table.Keys == Slots(rs, ids) && Enumerates(order, table.Keys)
    requires Folds(table', others, ids) && table'.Keys == Slots(others, ids) && Enumerates(order', table'.Keys)
    requires Slots(rs, ids) == Slots(others, ids)
    requires forall slot, tag :: LastNumber(rs, ids, slot, tag) == LastNumber(others, ids, slot, tag)
    requires forall s :: s in order ==> s in table
    requires forall s :: s in order' ==> s in table'
    ensures SortedRecords(table, order) == SortedRecords(table', order')
    ensures NormaliseAll(SortedRecords(table, order), ids) == NormaliseAll(SortedRecords(table', order'), ids)
  {
    assert table == table' by {
      forall s | s in table ensures table[s] == table'[s] {
        SameTags(table, table', s);
      }
    }
    forall s ensures s in order <==> s in order' {
      assert s in Elements(order) <==> s in Elements(order');
    }
    SameElementsSameMultiset(order, order');
    ByKeyIsTotalPreorder(SlotKey);
    ByKeySeparates(SlotKey, order);
    SortIgnoresOrder(ByKey(SlotKey), order, order');
  }

  /** At most one reading per account, currency and tag, as a broker returns them. */
  predicate OneReadingEach(rs: seq<Reading>) {
    forall i, j :: 0 <= i < j < |rs| ==> SlotOf(rs[i]) != SlotOf(rs[j]) || rs[i].tag != rs[j].tag
  }

  /** Then the last number is the number of the one reading. */
  lemma {:induction false} LastIsTheOne(rs: seq<Reading>, ids: seq<string>, slot: Slot, tag: string)
    requires OneReadingEach(rs)
    ensures forall r :: r in rs && SlotOf(r) == slot && r.tag == tag && InScope(r, ids) && r.value.Some?
              ==> LastNumber(rs, ids, slot, tag) == r.value
    ensures (forall r :: r in rs && SlotOf(r) == slot && r.tag == tag && InScope(r, ids) ==> r.value.None?)
              ==> LastNumber(rs, ids, slot, tag) == None
  {
    if rs != [] {
      var n := |rs| - 1;
      LastIsTheOne(rs[..n], ids, slot, tag);
      assert rs == rs[..n] + [rs[n]];
    }
  }

  lemma SameReadingsSameNumbers(rs: seq<Reading>, others: seq<Reading>, ids: seq<string>, slot: Slot, tag: string)
    requires OneReadingEach(rs) && OneReadingEach(others) && forall r :: r in rs <==> r in others
    ensures LastNumber(rs, ids, slot, tag) == LastNumber(others, ids, slot, tag)
  {
    LastIsTheOne(rs, ids, slot, tag);
    LastIsTheOne(others, ids, slot, tag);
    if r :| r in rs && SlotOf(r) == slot && r.tag == tag && InScope(r, ids) && r.value.Some? {
      assert r in others;
    }
  }

  lemma OneEachPermutes(rs: seq<Reading>, others: seq<Reading>)
    requires multiset(rs) == multiset(others) && OneReadingEach(rs)
    ensures OneReadingEach(others)
  {
    assert Distinct(rs) by {
      forall i, j | 0 <= i < j < |rs| ensures rs[i] != rs[j] {
        assert SlotOf(rs[i]) != SlotOf(rs[j]) || rs[i].tag != rs[j].tag;
      }
    }
    PermutationDistinct(others, rs);
    forall i, j | 0 <= i < j < |others| ensures SlotOf(others[i]) != SlotOf(others[j]) || others[i].tag != others[j].tag {
      SameElements(rs, others, others[i]);
      SameElements(rs, others, others[j]);
      var k :| 0 <= k < |rs| && rs[k] == others[i];
      var l :| 0 <= l < |rs| && rs[l] == others[j];
    }
  }

  /** Account values returned in another order give the same cash at execution time and in the snapshot, and the
      same cash records for the reconciliation. */
  lemma CashIgnoresBrokerOrder(ids: seq<string>, currency: string,
                               rs: seq<Reading>, table: Table, order: seq<Slot>,
                               others: seq<Reading>, table': Table, order': seq<Slot>)
    requires OneReadingEach(rs) && multiset(rs) == multiset(others)
    requires Folds(table, rs, ids) && table.Keys == Slots(rs, ids) && Enumerates(order, table.Keys)
    requires Folds(table', others, ids) && table'.Keys == Slots(others, ids) && Enumerates(order', table'.Keys)
    requires forall s :: s in order ==> s in table
    requires forall s :: s in order' ==> s in table'
    ensures Cash(rs, ids, currency) == Cash(others, ids, currency)
    ensures NormaliseAll(SortedRecords(table, order), ids) == NormaliseAll(SortedRecords(table', order'), ids)
  {
    OneEachPermutes(rs, others);
    forall r ensures r in rs <==> r in others {
      SameElements(rs, others, r);
    }
    forall slot, tag ensures LastNumber(rs, ids, slot, tag) == LastNumber(others, ids, slot, tag) {
      SameReadingsSameNumbers(rs, others, ids, slot, tag);
    }
    OnlyLastNumbersMatter(rs, others, ids, currency);
    CashIgnoresOrder(ids, rs, table, order, others, table', order');
  }

  /** What normalising one broker record does. */
  datatype Normalised<R> = Raises | OutOfScope | Record(record: R)

  /** Open orders and executions: an unscoped record raises, a foreign one is skipped, and a record
      with a missing field raises. */
  function Scoped<R>(account: string, record: Option<R>, ids: seq<string>): Normalised<R> {
    if account == "" then Raises
    else if account !in ids then OutOfScope
    else if record.Some? then Record(record.value)
    else Raises
  }

  function Kept<T, R>(normalise: T -> Normalised<R>, xs: seq<T>): seq<R> {
    if xs == [] then []
    else
      (match normalise(xs[0])
       case Record(r) => [r]
       case _ => []) + Kept(normalise, xs[1..])
  }

  predicate AnyRaises<T, R>(normalise: T -> Normalised<R>, xs: seq<T>) {
    exists i :: 0 <= i < |xs| && normalise(xs[i]).Raises?
  }

  /** The sorted observation of a broker surface; None when reading it raises. */
  function Observe<T, R>(normalise: T -> Normalised<R>, le: (R, R) -> bool, xs: seq<T>): Option<seq<R>> {
    if AnyRaises(normalise, xs) then None else Some(Sort(le, Kept(normalise, xs)))
  }

  lemma {:induction false} KeptAppend<T, R>(normalise: T -> Normalised<R>, xs: seq<T>, ys: seq<T>)
    ensures Kept(normalise, xs + ys) == Kept(normalise, xs) + Kept(normalise, ys)
  {
    if xs == [] {
      assert xs + ys == ys;
    } else {
      assert (xs + ys)[1..] == xs[1..] + ys;
      KeptAppend(normalise, xs[1..], ys);
    }
  }

  lemma {:induction false} KeptPermutes<T, R>(normalise: T -> Normalised<R>, xs: seq<T>, ys: seq<T>)
    requires multiset(xs) == multiset(ys)
    ensures multiset(Kept(normalise, xs)) == multiset(Kept(normalise, ys))
  {
    if xs == [] {
      assert |multiset(ys)| == 0;
    } else {
      var i := TakeOut(xs, ys);
      var tail := [ys[i]] + ys[i + 1..];
      assert ys == ys[..i] + tail;
      assert tail[1..] == ys[i + 1..];
      KeptAppend(normalise, ys[..i], tail);
      KeptAppend(normalise, ys[..i], ys[i + 1..]);
      KeptPermutes(normalise, xs[1..], ys[..i] + ys[i + 1..]);
    }
  }

  /** A surface the broker returns in another order is observed the same. */
  lemma ObservationIgnoresOrder<T, R(!new)>(normalise: T -> Normalised<R>, le: (R, R) -> bool, xs: seq<T>, ys: seq<T>)
    requires multiset(xs) == multiset(ys) && TotalPreorder(le) && Separates(le, Kept(normalise, xs))
    ensures Observe(normalise, le, xs) == Observe(normalise, le, ys)
  {
    forall x ensures x in xs <==> x in ys {
      SameElements(xs, ys, x);
    }
    if i :| 0 <= i < |xs| && normalise(xs[i]).Raises? {
      assert xs[i] in ys;
    }
    if i :| 0 <= i < |ys| && normalise(ys[i]).Raises? {
      assert ys[i] in xs;
    }
    KeptPermutes(normalise, xs, ys);
    SortIgnoresOrder(le, Kept(normalise, xs), Kept(normalise, ys));
  }

  // ----------------------------------------------------- all broker surfaces

  /** A broker reply: its account and its record, None when a required field is missing. */
  datatype Raw<R> = Raw(account: string, record: Option<R>)

  /** A position; only option positions carry an account of their own, which must be a selected one. */
  datatype Holding<R> = Stock(record: Option<R>) | Contract(account: string, record: Option<R>)

  function NormaliseHolding<R>(ids: seq<string>): Holding<R> -> Normalised<R> {
    (h: Holding<R>) =>
      if h.Contract? && (h.account == "" || h.account !in ids) then Raises
      else if h.record.Some? then Record(h.record.value)
      else Raises
  }

  function NormaliseRaw<R>(ids: seq<string>): Raw<R> -> Normalised<R> {
    (r: Raw<R>) => Scoped(r.account, r.record, ids)
  }

  datatype Replies<R> = Replies(holdings: seq<Holding<R>>, trades: seq<Raw<R>>, fills: seq<Raw<R>>)

  datatype Observations<R> = Observations(positions: seq<R>, openOrders: seq<R>, executions: seq<R>)

  /** The sorted observations of the broker; None when some surface raises. */
  function Collect<R>(replies: Replies<R>, ids: seq<string>, le: (R, R) -> bool): Option<Observations<R>> {
    match (Observe(NormaliseHolding(ids), le, replies.holdings), Observe(NormaliseRaw(ids), le, replies.trades),
           Observe(NormaliseRaw(ids), le, replies.fills))
    case (Some(positions), Some(trades), Some(fills)) => Some(Observations(positions, trades, fills))
    case _ => None
  }

  /** Whatever order the broker returns its positions, open orders and executions in, the observations are
      the same, or reading them raises both times. le compares the records' injective text form. */
  lemma CollectIgnoresOrder<R(!new)>(one: Replies<R>, two: Replies<R>, ids: seq<string>, le: (R, R) -> bool)
    requires TotalPreorder(le) && forall x, y :: le(x, y) && le(y, x) ==> x == y
    requires multiset(one.holdings) == multiset(two.holdings)
    requires multiset(one.trades) == multiset(two.trades) && multiset(one.fills) == multiset(two.fills)
    ensures Collect(one, ids, le) == Collect(two, ids, le)
  {
    ObservationIgnoresOrder(NormaliseHolding(ids), le, one.holdings, two.holdings);
    ObservationIgnoresOrder(NormaliseRaw(ids), le, one.trades, two.trades);
    ObservationIgnoresOrder(NormaliseRaw(ids), le, one.fills, two.fills);
  }

  // ---- what the observations hold

  /** How many of the replies are of a selected account. */
  function InScopeCount<R>(xs: seq<Raw<R>>, ids: seq<string>): nat {
    if xs == [] then 0 else (if xs[0].account != "" && xs[0].account in ids then 1 else 0) + InScopeCount(xs[1..], ids)
  }

  lemma {:induction false} KeptInScope<R(!new)>(xs: seq<Raw<R>>, ids: seq<string>)
    requires !AnyRaises(NormaliseRaw(ids), xs)
    ensures |Kept(NormaliseRaw(ids), xs)| == InScopeCount(xs, ids)
    ensures forall r :: r in Kept(NormaliseRaw(ids), xs)
              <==> exists i :: 0 <= i < |xs| && xs[i].account != "" && xs[i].account in ids && xs[i].record == Some(r)
  {
    if xs != [] {
      var rest := xs[1..];
      assert !NormaliseRaw<R>(ids)(xs[0]).Raises?;
      assert forall i :: 0 <= i < |rest| ==> rest[i] == xs[i + 1];
      KeptInScope(rest, ids);
      forall r ensures r in Kept(NormaliseRaw(ids), xs)
                  <==> exists i :: 0 <= i < |xs| && xs[i].account != "" && xs[i].account in ids && xs[i].record == Some(r)
      {
        if i :| 0 <= i < |xs| && xs[i].account != "" && xs[i].account in ids && xs[i].record == Some(r) {
          if i > 0 {
            assert rest[i - 1] == xs[i];
          }
        }
        if r in Kept(NormaliseRaw(ids), rest) {
          var i :| 0 <= i < |rest| && rest[i].account != "" && rest[i].account in ids && rest[i].record == Some(r);
          assert xs[i + 1] == rest[i];
        }
      }
    }
  }

  /** The observed open orders, or executions, are exactly the records of the selected accounts, one per reply; a
      reply without an account, or a selected one without its record, raises. */
  lemma ObservesTheSelected<R(!new)>(xs: seq<Raw<R>>, ids: seq<string>, le: (R, R) -> bool)
    requires TotalPreorder(le)
    ensures var observed := Observe(NormaliseRaw(ids), le, xs);
            && (observed == None <==>
                  exists i :: 0 <= i < |xs| && (xs[i].account == "" || (xs[i].account in ids && xs[i].record == None)))
            && (observed.Some? ==>
                  && |observed.value| == InScopeCount(xs, ids)
                  && forall r :: r in observed.value
                       <==> exists i :: 0 <= i < |xs| && xs[i].account != "" && xs[i].account in ids && xs[i].record == Some(r))
  {
    var normalise: Raw<R> -> Normalised<R> := NormaliseRaw(ids);
    if i :| 0 <= i < |xs| && (xs[i].account == "" || (xs[i].account in ids && xs[i].record == None)) {
      assert normalise(xs[i]).Raises?;
    }
    if !AnyRaises(normalise, xs) {
      KeptInScope(xs, ids);
      var kept := Kept(normalise, xs);
      SortSorts(le, kept);
      forall r ensures r in Sort(le, kept) <==> r in kept {
        SameElements(Sort(le, kept), kept, r);
      }
    }
  }

  /** A position that cannot be observed: an option position that names no selected account, or no record. */
  predicate Unreadable<R>(h: Holding<R>, ids: seq<string>) {
    h.record == None || (h.Contract? && (h.account == "" || h.account !in ids))
  }

  function RecordsOf<R>(xs: seq<Holding<R>>): seq<R>
    requires forall i :: 0 <= i < |xs| ==> xs[i].record.Some?
  {
    seq(|xs|, i requires 0 <= i < |xs| => xs[i].record.value)
  }

  lemma {:induction false} KeptHoldings<R>(xs: seq<Holding<R>>, ids: seq<string>)
    requires forall i :: 0 <= i < |xs| ==> xs[i].record.Some? && !Unreadable(xs[i], ids)
    ensures Kept(NormaliseHolding(ids), xs) == RecordsOf(xs)
  {
    if xs != [] {
      var rest := xs[1..];
      assert forall i :: 0 <= i < |rest| ==> rest[i] == xs[i + 1];
      KeptHoldings(rest, ids);
      assert RecordsOf(xs) == [xs[0].record.value] + RecordsOf(rest);
    }
  }

  /** No position is passed over: reading them raises exactly when one is unreadable, and otherwise observes the
      record of each. */
  lemma ObservesEveryPosition<R(!new)>(xs: seq<Holding<R>>, ids: seq<string>, le: (R, R) -> bool)
    requires TotalPreorder(le)
    ensures var observed := Observe(NormaliseHolding(ids), le, xs);
            && (observed == None <==> exists i :: 0 <= i < |xs| && Unreadable(xs[i], ids))
            && (observed.Some? ==>
                  && (forall i :: 0 <= i < |xs| ==> xs[i].record.Some?)
                  && multiset(observed.value) == multiset(RecordsOf(xs)))
  {
    var normalise: Holding<R> -> Normalised<R> := NormaliseHolding(ids);
    assert forall i :: 0 <= i < |xs| ==> (normalise(xs[i]).Raises? <==> Unreadable(xs[i], ids));
    if !AnyRaises(normalise, xs) {
      KeptHoldings(xs, ids);
      SortSorts(le, Kept(normalise, xs));
    }
  }

  // ---- which readings count

  /** Reading i gives a number for the slot and the tag, in a currency, of a selected account; of any account when
      none is selected. */
  predicate Counts(rs: seq<Reading>, ids: seq<string>, slot: Slot, tag: string, i: nat) {
    && i < |rs| && rs[i].account == slot.account && rs[i].currency == slot.currency && rs[i].tag == tag
    && rs[i].value.Some? && slot.currency != "" && (ids == [] || slot.account in ids)
  }

  ghost predicate NoneCounts(rs: seq<Reading>, ids: seq<string>, slot: Slot, tag: string) {
    forall i: nat :: !Counts(rs, ids, slot, tag, i)
  }

  ghost predicate LastCounts(rs: seq<Reading>, ids: seq<string>, slot: Slot, tag: string, i: nat) {
    Counts(rs, ids, slot, tag, i) && forall j: nat :: i < j ==> !Counts(rs, ids, slot, tag, j)
  }

  lemma CountsNext(rs: seq<Reading>, ids: seq<string>, slot: Slot, tag: string, n: nat, i: nat)
    requires n + 1 == |rs|
    ensures Counts(rs, ids, slot, tag, i) <==> Counts(rs[..n], ids, slot, tag, i) || (i == n && Counts(rs, ids, slot, tag, n))
    ensures Counts(rs, ids, slot, tag, n) <==> InScope(rs[n], ids) && SlotOf(rs[n]) == slot && rs[n].tag == tag && rs[n].value.Some?
  {
  }

  /** The number of a slot is that of the last reading that counts, and there is none without one. */
  lemma {:induction false} LastNumberExactly(rs: seq<Reading>, ids: seq<string>, slot: Slot, tag: string)
    ensures LastNumber(rs, ids, slot, tag) == None <==> NoneCounts(rs, ids, slot, tag)
    ensures forall i: nat :: LastCounts(rs, ids, slot, tag, i) ==> LastNumber(rs, ids, slot, tag) == rs[i].value
  {
    if rs != [] {
      var n := |rs| - 1;
      var before := rs[..n];
      LastNumberExactly(before, ids, slot, tag);
      forall i: nat
        ensures Counts(rs, ids, slot, tag, i) <==> Counts(before, ids, slot, tag, i) || (i == n && Counts(rs, ids, slot, tag, n))
      {
        CountsNext(rs, ids, slot, tag, n, i);
      }
      CountsNext(rs, ids, slot, tag, n, n);
      if !Counts(rs, ids, slot, tag, n) {
        forall i: nat | LastCounts(rs, ids, slot, tag, i) ensures LastNumber(rs, ids, slot, tag) == rs[i].value {
          assert LastCounts(before, ids, slot, tag, i);
        }
      }
    }
  }

  // ---- which balance wins

  /** The ledger's cash balance first, then its total, then the account's own, its total, and the settled cash. */
  lemma PreferredBalance(rs: seq<Reading>, ids: seq<string>, slot: Slot)
    ensures var ledger := LastNumber(rs, ids, slot, "$LEDGER-CashBalance");
            var ledgerTotal := LastNumber(rs, ids, slot, "$LEDGER-TotalCashBalance");
            var balance := LastNumber(rs, ids, slot, "CashBalance");
            var total := LastNumber(rs, ids, slot, "TotalCashBalance");
            var settled := LastNumber(rs, ids, slot, "SettledCash");
            ChosenIn(rs, ids, slot)
            == if ledger.Some? then Some(Chosen("$LEDGER-CashBalance", ledger.value))
               else if ledgerTotal.Some? then Some(Chosen("$LEDGER-TotalCashBalance", ledgerTotal.value))
               else if balance.Some? then Some(Chosen("CashBalance", balance.value))
               else if total.Some? then Some(Chosen("TotalCashBalance", total.value))
               else if settled.Some? then Some(Chosen("SettledCash", settled.value))
               else None
  {
    var number: string -> Option<real> := (tag: string) => LastNumber(rs, ids, slot, tag);
    FirstOfFive("$LEDGER-CashBalance", "$LEDGER-TotalCashBalance", "CashBalance", "TotalCashBalance", "SettledCash", number);
  }

  lemma FirstOfFive(a: string, b: string, c: string, d: string, e: string, number: string -> Option<real>)
    ensures First([a, b, c, d, e], number)
         == if number(a).Some? then Some(Chosen(a, number(a).value))
            else if number(b).Some? then Some(Chosen(b, number(b).value))
            else if number(c).Some? then Some(Chosen(c, number(c).value))
            else if number(d).Some? then Some(Chosen(d, number(d).value))
            else if number(e).Some? then Some(Chosen(e, number(e).value))
            else None
  {
    assert [a, b, c, d, e][1..] == [b, c, d, e];
    assert [b, c, d, e][1..] == [c, d, e];
    assert [c, d, e][1..] == [d, e];
    assert [d, e][1..] == [e];
    assert [e][1..] == [];
    assert First([], number) == None;
    assert First([e], number) == if number(e).Some? then Some(Chosen(e, number(e).value)) else First([], number);
    assert First([d, e], number) == if number(d).Some? then Some(Chosen(d, number(d).value)) else First([e], number);
    assert First([c, d, e], number) == if number(c).Some? then Some(Chosen(c, number(c).value)) else First([d, e], number);
  }
}
