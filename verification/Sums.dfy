/** Sums over finite sets and over sequences without repetition. */
module Sums {

  predicate Distinct<K(==)>(xs: seq<K>) {
    forall i, j :: 0 <= i < j < |xs| ==> xs[i] != xs[j]
  }

  ghost function Elements<K>(xs: seq<K>): set<K> {
    set x | x in xs
  }

  /** xs lists every element of s exactly once: one possible iteration order of s. */
  ghost predicate Enumerates<K>(xs: seq<K>, s: set<K>) {
    Distinct(xs) && Elements(xs) == s
  }

  /** First occurrences only, in order. */
  function Once<K(==,!new)>(xs: seq<K>): (once: seq<K>)
    ensures Distinct(once)
    ensures forall x :: x in once <==> x in xs
  {
    if xs == [] then []
    else
      var rest, last := Once(xs[..|xs| - 1]), xs[|xs| - 1];
      assert xs == xs[..|xs| - 1] + [last];
      if last in rest then rest else rest + [last]
  }

  ghost function SumOver<K(!new)>(s: set<K>, f: K -> real): real
    decreases |s|
  {
    if s == {} then 0.0
    else
      var x :| x in s;
      f(x) + SumOver(s - {x}, f)
  }

  function SumSeq<K>(xs: seq<K>, f: K -> real): real {
    if xs == [] then 0.0 else f(xs[0]) + SumSeq(xs[1..], f)
  }

  lemma {:induction false} SumRemove<K(!new)>(s: set<K>, f: K -> real, x: K)
    requires x in s
    ensures SumOver(s, f) == f(x) + SumOver(s - {x}, f)
    decreases |s|
  {
    var y :| y in s && SumOver(s, f) == f(y) + SumOver(s - {y}, f);
    if y != x {
      SumRemove(s - {y}, f, x);
      SumRemove(s - {x}, f, y);
      assert s - {y} - {x} == s - {x} - {y};
    }
  }

  lemma {:induction false} SumAgree<K(!new)>(s: set<K>, f: K -> real, g: K -> real)
    requires forall x :: x in s ==> f(x) == g(x)
    ensures SumOver(s, f) == SumOver(s, g)
    decreases |s|
  {
    if s != {} {
      var x :| x in s;
      SumRemove(s, f, x);
      SumRemove(s, g, x);
      SumAgree(s - {x}, f, g);
    }
  }

  /** Changing the summand at one element moves the sum by that element's change. */
  lemma SumChangeOne<K(!new)>(s: set<K>, f: K -> real, g: K -> real, x: K)
    requires x in s
    requires forall y :: y in s && y != x ==> f(y) == g(y)
    ensures SumOver(s, g) == SumOver(s, f) - f(x) + g(x)
  {
    SumRemove(s, f, x);
    SumRemove(s, g, x);
    SumAgree(s - {x}, f, g);
  }

  lemma {:induction false} SumNonNegative<K(!new)>(s: set<K>, f: K -> real)
    requires forall x :: x in s ==> f(x) >= 0.0
    ensures SumOver(s, f) >= 0.0
    decreases |s|
  {
    if s != {} {
      var x :| x in s;
      SumRemove(s, f, x);
      SumNonNegative(s - {x}, f);
    }
  }

  /** A sum does not depend on the iteration order. */
  lemma {:induction false} SumOfEnumeration<K(!new)>(xs: seq<K>, s: set<K>, f: K -> real)
    requires Enumerates(xs, s)
    ensures SumSeq(xs, f) == SumOver(s, f)
  {
    if xs == [] {
      assert s == {};
    } else {
      assert xs[0] in s;
      TailEnumerates(xs, s);
      SumOfEnumeration(xs[1..], s - {xs[0]}, f);
      SumRemove(s, f, xs[0]);
    }
  }

  lemma TailEnumerates<K>(xs: seq<K>, s: set<K>)
    requires Enumerates(xs, s) && xs != []
    ensures Enumerates(xs[1..], s - {xs[0]})
  {
    forall x | x in s - {xs[0]} ensures x in xs[1..] {
      assert x in xs;
      var i :| 0 <= i < |xs| && xs[i] == x;
      assert xs[1..][i - 1] == x;
    }
  }

  lemma {:induction false} SumSeqAppend<K>(xs: seq<K>, ys: seq<K>, f: K -> real)
    ensures SumSeq(xs + ys, f) == SumSeq(xs, f) + SumSeq(ys, f)
  {
    if xs == [] {
      assert xs + ys == ys;
    } else {
      assert (xs + ys)[1..] == xs[1..] + ys;
      SumSeqAppend(xs[1..], ys, f);
    }
  }

  lemma PrefixNext<K>(xs: seq<K>, i: nat)
    requires i < |xs|
    ensures xs[..i + 1] == xs[..i] + [xs[i]]
  {
  }

  lemma SumSeqOne<K>(x: K, f: K -> real)
    ensures SumSeq([x], f) == f(x)
  {
    assert [x][1..] == [];
  }

  lemma {:induction false} DistinctCount<K>(xs: seq<K>, x: K)
    requires Distinct(xs)
    ensures multiset(xs)[x] == if x in xs then 1 else 0
  {
    if xs != [] {
      var rest := xs[1..];
      assert xs == [xs[0]] + rest;
      DistinctCount(rest, x);
      if x == xs[0] {
        assert x !in rest;
      }
    }
  }

  /** Two listings without repetition of the same elements are permutations of each other. */
  lemma SameElementsSameMultiset<K>(xs: seq<K>, ys: seq<K>)
    requires Distinct(xs) && Distinct(ys)
    requires forall x :: x in xs <==> x in ys
    ensures multiset(xs) == multiset(ys)
  {
    forall x ensures multiset(xs)[x] == multiset(ys)[x] {
      DistinctCount(xs, x);
      DistinctCount(ys, x);
    }
  }

  /** Summands that are zero can be left out. */
  lemma {:induction false} SumSupport<K(!new)>(s: set<K>, t: set<K>, f: K -> real)
    requires t <= s && forall x :: x in s - t ==> f(x) == 0.0
    ensures SumOver(s, f) == SumOver(t, f)
    decreases |s|
  {
    if x :| x in s - t {
      SumRemove(s, f, x);
      SumSupport(s - {x}, t, f);
    } else {
      forall x | x in s ensures x in t {
        assert x in t || x in s - t;
      }
      assert s == t;
    }
  }

  lemma {:induction false} SumSeqPermutation<K(!new)>(xs: seq<K>, ys: seq<K>, f: K -> real)
    requires multiset(xs) == multiset(ys)
    ensures SumSeq(xs, f) == SumSeq(ys, f)
  {
    if xs == [] {
      assert |multiset(ys)| == 0;
    } else {
      var i := TakeOut(xs, ys);
      assert ys == ys[..i] + ([ys[i]] + ys[i + 1..]);
      SumSeqAppend(ys[..i], [ys[i]] + ys[i + 1..], f);
      assert ([ys[i]] + ys[i + 1..])[1..] == ys[i + 1..];
      SumSeqAppend(ys[..i], ys[i + 1..], f);
      SumSeqPermutation(xs[1..], ys[..i] + ys[i + 1..], f);
    }
  }

  lemma WithoutFirst<K>(xs: seq<K>)
    requires xs != []
    ensures multiset(xs[1..]) == multiset(xs) - multiset{xs[0]}
  {
    assert xs == [xs[0]] + xs[1..];
  }

  lemma Place<K>(ys: seq<K>, x: K) returns (i: nat)
    requires x in multiset(ys)
    ensures i < |ys| && ys[i] == x
  {
    i :| 0 <= i < |ys| && ys[i] == x;
  }

  /** The place in ys of the first element of xs, and what is left of both without it. */
  lemma TakeOut<K>(xs: seq<K>, ys: seq<K>) returns (i: nat)
    requires multiset(xs) == multiset(ys) && xs != []
    ensures i < |ys| && ys[i] == xs[0]
    ensures multiset(xs[1..]) == multiset(ys[..i] + ys[i + 1..])
  {
    assert xs[0] in multiset(xs);
    i := Place(ys, xs[0]);
    WithoutFirst(xs);
    Without(ys, i);
  }

  lemma Without<K>(xs: seq<K>, i: nat)
    requires i < |xs|
    ensures multiset(xs[..i] + xs[i + 1..]) == multiset(xs) - multiset{xs[i]}
  {
    assert xs == xs[..i] + ([xs[i]] + xs[i + 1..]);
  }

  lemma PermutationDistinct<T(!new)>(xs: seq<T>, ys: seq<T>)
    requires multiset(xs) == multiset(ys) && Distinct(ys)
    ensures Distinct(xs)
  {
    forall i, j | 0 <= i < j < |xs| ensures xs[i] != xs[j] {
      if xs[i] == xs[j] {
        Twice(xs, i, j);
        DistinctCount(ys, xs[i]);
      }
    }
  }

  lemma Twice<T>(xs: seq<T>, i: nat, j: nat)
    requires i < j < |xs| && xs[i] == xs[j]
    ensures multiset(xs)[xs[i]] >= 2
  {
    assert xs == xs[..j] + ([xs[j]] + xs[j + 1..]);
    assert xs[i] == xs[..j][i];
    assert xs[i] in multiset(xs[..j]);
  }
}
