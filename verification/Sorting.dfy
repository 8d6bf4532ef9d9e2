/** Stable sorting by a total preorder, and when its result does not depend on the input order. */
module Sorting {

  ghost predicate TotalPreorder<T(!new)>(le: (T, T) -> bool) {
    && (forall x, y :: le(x, y) || le(y, x))
    && (forall x, y, z :: le(x, y) && le(y, z) ==> le(x, z))
  }

  ghost predicate Reflexive<T(!new)>(le: (T, T) -> bool) {
    forall x :: le(x, x)
  }

  /** No two different elements have equal keys. */
  ghost predicate Separates<T(!new)>(le: (T, T) -> bool, xs: seq<T>) {
    forall x, y :: x in xs && y in xs && le(x, y) && le(y, x) ==> x == y
  }

  predicate Ordered<T(!new)>(le: (T, T) -> bool, xs: seq<T>) {
    forall i, j :: 0 <= i < j < |xs| ==> le(xs[i], xs[j])
  }

  /** Inserts x after every element that is not above it. */
  function Insert<T>(le: (T, T) -> bool, xs: seq<T>, x: T): (r: seq<T>)
    ensures |r| == |xs| + 1
  {
    if xs == [] then [x]
    else
      var n := |xs| - 1;
      if le(xs[n], x) then xs + [x] else Insert(le, xs[..n], x) + [xs[n]]
  }

  function Sort<T>(le: (T, T) -> bool, xs: seq<T>): (r: seq<T>)
    ensures |r| == |xs|
  {
    if xs == [] then [] else Insert(le, Sort(le, xs[..|xs| - 1]), xs[|xs| - 1])
  }

  lemma {:induction false} InsertAdds<T>(le: (T, T) -> bool, xs: seq<T>, x: T)
    ensures multiset(Insert(le, xs, x)) == multiset(xs) + multiset{x}
  {
    if xs != [] {
      var n := |xs| - 1;
      assert xs == xs[..n] + [xs[n]];
      InsertAdds(le, xs[..n], x);
    }
  }

  lemma SameElements<T>(xs: seq<T>, ys: seq<T>, x: T)
    requires multiset(xs) == multiset(ys)
    ensures x in xs <==> x in ys
  {
    assert x in xs <==> x in multiset(xs);
    assert x in ys <==> x in multiset(ys);
  }

  lemma {:induction false} InsertKeepsOrder<T(!new)>(le: (T, T) -> bool, xs: seq<T>, x: T)
    requires TotalPreorder(le) && Ordered(le, xs)
    ensures Ordered(le, Insert(le, xs, x))
  {
    if xs != [] {
      var n := |xs| - 1;
      if !le(xs[n], x) {
        InsertKeepsOrder(le, xs[..n], x);
        InsertAdds(le, xs[..n], x);
        var r := Insert(le, xs[..n], x);
        forall i | 0 <= i < |r| ensures le(r[i], xs[n]) {
          assert r[i] in multiset(r);
          assert r[i] in multiset(xs[..n]) || r[i] == x;
        }
      }
    }
  }

  /** Sorting rearranges, and orders. */
  lemma {:induction false} SortSorts<T(!new)>(le: (T, T) -> bool, xs: seq<T>)
    requires TotalPreorder(le)
    ensures multiset(Sort(le, xs)) == multiset(xs)
    ensures Ordered(le, Sort(le, xs))
  {
    if xs != [] {
      var n := |xs| - 1;
      assert xs == xs[..n] + [xs[n]];
      SortSorts(le, xs[..n]);
      InsertAdds(le, Sort(le, xs[..n]), xs[n]);
      InsertKeepsOrder(le, Sort(le, xs[..n]), xs[n]);
    }
  }

  lemma LastIsGreatest<T(!new)>(le: (T, T) -> bool, xs: seq<T>, x: T)
    requires Reflexive(le) && Ordered(le, xs) && x in xs
    ensures le(x, xs[|xs| - 1])
  {
    var i :| 0 <= i < |xs| && xs[i] == x;
  }

  lemma LastsAgree<T(!new)>(le: (T, T) -> bool, xs: seq<T>, ys: seq<T>)
    requires Reflexive(le) && Separates(le, xs) && xs != []
    requires Ordered(le, xs) && Ordered(le, ys) && multiset(xs) == multiset(ys)
    ensures ys != [] && xs[|xs| - 1] == ys[|ys| - 1]
  {
    SameElements(xs, ys, xs[|xs| - 1]);
    var x, y := xs[|xs| - 1], ys[|ys| - 1];
    SameElements(xs, ys, y);
    LastIsGreatest(le, xs, y);
    LastIsGreatest(le, ys, x);
  }

  lemma DropLast<T>(xs: seq<T>)
    requires xs != []
    ensures multiset(xs[..|xs| - 1]) == multiset(xs) - multiset{xs[|xs| - 1]}
    ensures xs == xs[..|xs| - 1] + [xs[|xs| - 1]]
  {
    assert xs == xs[..|xs| - 1] + [xs[|xs| - 1]];
  }

  lemma PrefixOrdered<T(!new)>(le: (T, T) -> bool, xs: seq<T>, n: nat)
    requires n <= |xs| && Ordered(le, xs)
    ensures Ordered(le, xs[..n])
  {
  }

  lemma PrefixSeparates<T(!new)>(le: (T, T) -> bool, xs: seq<T>, n: nat)
    requires n <= |xs| && Separates(le, xs)
    ensures Separates(le, xs[..n])
  {
  }

  /** With separating keys there is only one ordered arrangement. */
  lemma {:induction false} OrderedIsUnique<T(!new)>(le: (T, T) -> bool, xs: seq<T>, ys: seq<T>)
    requires Reflexive(le) && Separates(le, xs)
    requires Ordered(le, xs) && Ordered(le, ys) && multiset(xs) == multiset(ys)
    ensures xs == ys
  {
    if xs == [] {
      assert |multiset(ys)| == 0;
    } else {
      LastsAgree(le, xs, ys);
      DropLast(xs);
      DropLast(ys);
      PrefixOrdered(le, xs, |xs| - 1);
      PrefixOrdered(le, ys, |ys| - 1);
      PrefixSeparates(le, xs, |xs| - 1);
      OrderedIsUnique(le, xs[..|xs| - 1], ys[..|ys| - 1]);
    }
  }

  /** The sorted list does not depend on the order the elements arrived in. */
  lemma SortIgnoresOrder<T(!new)>(le: (T, T) -> bool, xs: seq<T>, ys: seq<T>)
    requires TotalPreorder(le) && Separates(le, xs) && multiset(xs) == multiset(ys)
    ensures Sort(le, xs) == Sort(le, ys)
  {
    SortSorts(le, xs);
    SortSorts(le, ys);
    forall x ensures x in Sort(le, xs) <==> x in xs {
      SameElements(Sort(le, xs), xs, x);
    }
    OrderedIsUnique(le, Sort(le, xs), Sort(le, ys));
  }

  /** Sorted lists agree exactly when one list rearranges the other. */
  lemma SortedAgree<T(!new)>(le: (T, T) -> bool, xs: seq<T>, ys: seq<T>)
    requires TotalPreorder(le) && Separates(le, xs)
    ensures Sort(le, xs) == Sort(le, ys) <==> multiset(xs) == multiset(ys)
  {
    SortSorts(le, xs);
    SortSorts(le, ys);
    if multiset(xs) == multiset(ys) {
      SortIgnoresOrder(le, xs, ys);
    }
  }

  // ------------------------------------------------------------------- texts

  /** Code-point order of texts. */
  predicate TextLe(a: string, b: string) {
    a == "" || (b != "" && (a[0] < b[0] || (a[0] == b[0] && TextLe(a[1..], b[1..]))))
  }

  lemma {:induction false} TextLeTotal(a: string, b: string)
    ensures TextLe(a, b) || TextLe(b, a)
  {
    if a != "" && b != "" && a[0] == b[0] {
      TextLeTotal(a[1..], b[1..]);
    }
  }

  lemma {:induction false} TextLeAntisymmetric(a: string, b: string)
    requires TextLe(a, b) && TextLe(b, a)
    ensures a == b
  {
    if a != "" && b != "" {
      TextLeAntisymmetric(a[1..], b[1..]);
      assert a == [a[0]] + a[1..] && b == [b[0]] + b[1..];
    }
  }

  lemma {:induction false} TextLeTransitive(a: string, b: string, c: string)
    requires TextLe(a, b) && TextLe(b, c)
    ensures TextLe(a, c)
  {
    if a != "" && a[0] == b[0] == c[0] {
      TextLeTransitive(a[1..], b[1..], c[1..]);
    }
  }

  /** Pairs of texts, first component first. */
  predicate PairLe(a: (string, string), b: (string, string)) {
    TextLe(a.0, b.0) && (a.0 == b.0 ==> TextLe(a.1, b.1))
  }

  lemma PairLeIsOrder(a: (string, string), b: (string, string), c: (string, string))
    ensures PairLe(a, b) || PairLe(b, a)
    ensures PairLe(a, b) && PairLe(b, a) ==> a == b
    ensures PairLe(a, b) && PairLe(b, c) ==> PairLe(a, c)
  {
    TextLeTotal(a.0, b.0);
    TextLeTotal(a.1, b.1);
    if TextLe(a.0, b.0) && TextLe(b.0, a.0) {
      TextLeAntisymmetric(a.0, b.0);
      if TextLe(a.1, b.1) && TextLe(b.1, a.1) {
        TextLeAntisymmetric(a.1, b.1);
      }
    }
    if TextLe(a.0, b.0) && TextLe(b.0, c.0) {
      TextLeTransitive(a.0, b.0, c.0);
      if a.0 == c.0 {
        TextLeAntisymmetric(a.0, b.0);
      }
    }
    if TextLe(a.1, b.1) && TextLe(b.1, c.1) {
      TextLeTransitive(a.1, b.1, c.1);
    }
  }

  /** The order of elements by a key that is a pair of texts. */
  function ByKey<T>(key: T -> (string, string)): (T, T) -> bool {
    (x: T, y: T) => PairLe(key(x), key(y))
  }

  lemma ByKeyIsTotalPreorder<T(!new)>(key: T -> (string, string))
    ensures TotalPreorder(ByKey(key))
  {
    forall x, y ensures ByKey(key)(x, y) || ByKey(key)(y, x) {
      PairLeIsOrder(key(x), key(y), key(y));
    }
    forall x, y, z | ByKey(key)(x, y) && ByKey(key)(y, z) ensures ByKey(key)(x, z) {
      PairLeIsOrder(key(x), key(y), key(z));
    }
  }

  /** Elements with pairwise different keys are separated. */
  lemma ByKeySeparates<T(!new)>(key: T -> (string, string), xs: seq<T>)
    requires forall x, y :: x in xs && y in xs && key(x) == key(y) ==> x == y
    ensures Separates(ByKey(key), xs)
  {
    forall x, y | x in xs && y in xs && ByKey(key)(x, y) && ByKey(key)(y, x) ensures x == y {
      PairLeIsOrder(key(x), key(y), key(y));
    }
  }

  lemma TextLeIsOrder(xs: seq<string>)
    ensures TotalPreorder(TextLe) && Separates(TextLe, xs)
  {
    forall x, y ensures TextLe(x, y) || TextLe(y, x) {
      TextLeTotal(x, y);
    }
    forall x, y, z | TextLe(x, y) && TextLe(y, z) ensures TextLe(x, z) {
      TextLeTransitive(x, y, z);
    }
    forall x, y | x in xs && y in xs && TextLe(x, y) && TextLe(y, x) ensures x == y {
      TextLeAntisymmetric(x, y);
    }
  }
}
