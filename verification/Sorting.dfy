/** Sorting by a total order. Any sorted permutation of a list is the same list, so what a
    program does with a sorted list does not depend on the sort it uses. */
module Sorting {

  predicate SortedBy<T>(atMost: (T, T) -> bool, s: seq<T>) {
    forall i, j :: 0 <= i < j < |s| ==> atMost(s[i], s[j])
  }

  ghost predicate Preorder<T(!new)>(atMost: (T, T) -> bool) {
    && (forall a, b :: atMost(a, b) || atMost(b, a))
    && (forall a, b, c :: atMost(a, b) && atMost(b, c) ==> atMost(a, c))
  }

  ghost predicate TotalOrder<T(!new)>(atMost: (T, T) -> bool) {
    Preorder(atMost) && forall a, b :: atMost(a, b) && atMost(b, a) ==> a == b
  }

  function Insert<T>(atMost: (T, T) -> bool, x: T, s: seq<T>): seq<T> {
    if s == [] || atMost(x, s[0]) then [x] + s else [s[0]] + Insert(atMost, x, s[1..])
  }

  function SortBy<T>(atMost: (T, T) -> bool, s: seq<T>): seq<T> {
    if s == [] then [] else Insert(atMost, s[0], SortBy(atMost, s[1..]))
  }

  lemma {:induction false} InsertSorts<T(!new)>(atMost: (T, T) -> bool, x: T, s: seq<T>)
    requires Preorder(atMost) && SortedBy(atMost, s)
    ensures SortedBy(atMost, Insert(atMost, x, s))
    ensures multiset(Insert(atMost, x, s)) == multiset{x} + multiset(s)
  {
    if s == [] || atMost(x, s[0]) {
    } else {
      InsertSorts(atMost, x, s[1..]);
      var r := Insert(atMost, x, s[1..]);
      assert s == [s[0]] + s[1..];
      forall i | 0 <= i < |r| ensures atMost(s[0], r[i]) {
        assert r[i] in multiset(r);
        assert r[i] == x || r[i] in s[1..];
      }
    }
  }

  lemma {:induction false} SortBySorts<T(!new)>(atMost: (T, T) -> bool, s: seq<T>)
    requires Preorder(atMost)
    ensures SortedBy(atMost, SortBy(atMost, s)) && multiset(SortBy(atMost, s)) == multiset(s)
  {
    if s != [] {
      SortBySorts(atMost, s[1..]);
      InsertSorts(atMost, s[0], SortBy(atMost, s[1..]));
      assert s == [s[0]] + s[1..];
    }
  }

  lemma LeastAmong<T(!new)>(atMost: (T, T) -> bool, a: seq<T>, x: T)
    requires Preorder(atMost) && SortedBy(atMost, a) && x in multiset(a)
    ensures a != [] && atMost(a[0], x)
  {
    var i :| 0 <= i < |a| && a[i] == x;
    assert atMost(x, x);
  }

  /** No two different elements of the list rank the same. */
  predicate Separates<T(==)>(atMost: (T, T) -> bool, a: seq<T>) {
    forall x, y :: x in a && y in a && atMost(x, y) && atMost(y, x) ==> x == y
  }

  lemma SameHead<T(!new)>(atMost: (T, T) -> bool, a: seq<T>, b: seq<T>)
    requires Preorder(atMost) && SortedBy(atMost, a) && SortedBy(atMost, b) && multiset(a) == multiset(b)
    requires a != [] && Separates(atMost, a)
    ensures b != [] && a[0] == b[0]
  {
    assert a[0] in multiset(a);
    LeastAmong(atMost, b, a[0]);
    assert b[0] in multiset(b);
    LeastAmong(atMost, a, b[0]);
    assert b[0] in multiset(a);
  }

  lemma {:induction false} SortedIsUnique<T(!new)>(atMost: (T, T) -> bool, a: seq<T>, b: seq<T>)
    requires Preorder(atMost) && SortedBy(atMost, a) && SortedBy(atMost, b) && multiset(a) == multiset(b)
    requires Separates(atMost, a)
    ensures a == b
  {
    hide Preorder;
    assert |a| == |multiset(a)| == |multiset(b)| == |b|;
    if a != [] {
      SameHead(atMost, a, b);
      assert a == [a[0]] + a[1..] && b == [b[0]] + b[1..];
      assert multiset(a[1..]) == multiset(a) - multiset{a[0]} == multiset(b[1..]);
      assert Separates(atMost, a[1..]);
      hide Separates;
      SortedIsUnique(atMost, a[1..], b[1..]);
    }
  }

  lemma OrderSeparates<T(!new)>(atMost: (T, T) -> bool, a: seq<T>)
    requires TotalOrder(atMost)
    ensures Preorder(atMost) && Separates(atMost, a)
  {
  }

  /** Two orders of the same list sort to one. */
  lemma OrderDoesNotMatter<T(!new)>(atMost: (T, T) -> bool, a: seq<T>, b: seq<T>)
    requires TotalOrder(atMost) && multiset(a) == multiset(b)
    ensures SortBy(atMost, a) == SortBy(atMost, b)
  {
    SortBySorts(atMost, a);
    SortBySorts(atMost, b);
    OrderSeparates(atMost, SortBy(atMost, a));
    SortedIsUnique(atMost, SortBy(atMost, a), SortBy(atMost, b));
  }

  lemma SameMembers<T>(a: seq<T>, b: seq<T>, x: T)
    requires multiset(a) == multiset(b)
    ensures x in a <==> x in b
  {
    assert x in a <==> x in multiset(a);
    assert x in b <==> x in multiset(b);
  }

  lemma SameMultisetIndex<T>(s: seq<T>, t: seq<T>) returns (k: nat)
    requires multiset(s) == multiset(t) && s != []
    ensures k < |t| && t[k] == s[0] && multiset(s[1..]) == multiset(t[..k] + t[k + 1..])
  {
    assert s[0] in multiset(t);
    k :| 0 <= k < |t| && t[k] == s[0];
    assert s == [s[0]] + s[1..];
    assert t == t[..k] + ([t[k]] + t[k + 1..]);
    assert multiset(s[1..]) == multiset(s) - multiset{s[0]};
  }

  /** A sorted list is left as it is. */
  lemma {:induction false} SortOfSorted<T>(atMost: (T, T) -> bool, s: seq<T>)
    requires SortedBy(atMost, s)
    ensures SortBy(atMost, s) == s
  {
    if s != [] {
      SortOfSorted(atMost, s[1..]);
      assert s == [s[0]] + s[1..];
    }
  }

  // ------------------------------------------------------- element by element

  function Map<T, U>(f: T -> U, s: seq<T>): (r: seq<U>)
    ensures |r| == |s| && forall i :: 0 <= i < |s| ==> r[i] == f(s[i])
  {
    seq(|s|, i requires 0 <= i < |s| => f(s[i]))
  }

  lemma MapMembers<T, U>(f: T -> U, s: seq<T>, y: U)
    ensures y in Map(f, s) <==> exists x :: x in s && f(x) == y
  {
    if y in Map(f, s) {
      var i :| 0 <= i < |s| && Map(f, s)[i] == y;
      assert s[i] in s && f(s[i]) == y;
    }
    if x :| x in s && f(x) == y {
      var i :| 0 <= i < |s| && s[i] == x;
      assert Map(f, s)[i] == y;
    }
  }

  lemma {:induction false} MapMultiset<T, U>(f: T -> U, s: seq<T>, t: seq<T>)
    requires multiset(s) == multiset(t)
    ensures multiset(Map(f, s)) == multiset(Map(f, t))
    decreases |s|
  {
    assert |s| == |multiset(s)| == |multiset(t)| == |t|;
    if s != [] {
      var k := SameMultisetIndex(s, t);
      var rest := t[..k] + t[k + 1..];
      MapMultiset(f, s[1..], rest);
      assert Map(f, s) == [f(s[0])] + Map(f, s[1..]);
      var l, r := Map(f, t[..k]), Map(f, t[k + 1..]);
      assert Map(f, t) == l + ([f(t[k])] + r);
      assert Map(f, rest) == l + r;
      hide Map;
      assert multiset(l + ([f(t[k])] + r)) == multiset(l + r) + multiset{f(t[k])};
    }
  }

  // ------------------------------------------------------------- merging

  /** Equal neighbours are merged. */
  function Unique<T(==)>(s: seq<T>): seq<T> {
    if s == [] then []
    else
      var kept, x := Unique(s[..|s| - 1]), s[|s| - 1];
      if kept != [] && kept[|kept| - 1] == x then kept else kept + [x]
  }

  lemma {:induction false} UniqueKeepsMembers<T>(s: seq<T>, x: T)
    ensures x in Unique(s) <==> x in s
  {
    if s != [] {
      UniqueKeepsMembers(s[..|s| - 1], x);
      assert s == s[..|s| - 1] + [s[|s| - 1]];
    }
  }

  lemma {:induction false} UniqueStaysSorted<T(!new)>(atMost: (T, T) -> bool, s: seq<T>)
    requires SortedBy(atMost, s)
    ensures SortedBy(atMost, Unique(s))
  {
    if s != [] {
      var init, x := s[..|s| - 1], s[|s| - 1];
      UniqueStaysSorted(atMost, init);
      var kept := Unique(init);
      forall i | 0 <= i < |kept| ensures atMost(kept[i], x) {
        UniqueKeepsMembers(init, kept[i]);
        var k :| 0 <= k < |init| && init[k] == kept[i];
        assert s[k] == kept[i];
      }
    }
  }

  lemma {:induction false} UniqueNeighboursDiffer<T>(s: seq<T>, i: nat)
    requires 0 < i < |Unique(s)|
    ensures Unique(s)[i - 1] != Unique(s)[i]
  {
    var kept := Unique(s[..|s| - 1]);
    if i < |kept| {
      UniqueNeighboursDiffer(s[..|s| - 1], i);
    }
  }
}
