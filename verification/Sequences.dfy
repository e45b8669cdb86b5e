/**
  Lists without repetitions, enumerations of sets, and sorting by a total order.
 */
module Sequences {

  // ---------------------------------------------------------------- repetitions

  predicate NoRepeats<T(==)>(xs: seq<T>) {
    forall i, j :: 0 <= i < j < |xs| ==> xs[i] != xs[j]
  }

  function Elements<T(==)>(xs: seq<T>): set<T> {
    set x <- xs
  }

  lemma {:induction false} LastElement<T>(xs: seq<T>)
    requires xs != []
    ensures xs == xs[..|xs| - 1] + [xs[|xs| - 1]]
    ensures Elements(xs) == Elements(xs[..|xs| - 1]) + {xs[|xs| - 1]}
    ensures NoRepeats(xs) ==> xs[|xs| - 1] !in Elements(xs[..|xs| - 1])
  {
  }

  /** A list without repetitions has every element once. */
  lemma {:induction false} NoRepeatsCounts<T>(xs: seq<T>)
    requires NoRepeats(xs)
    ensures multiset(xs) == multiset(Elements(xs)) && |xs| == |Elements(xs)|
  {
    if xs != [] {
      NoRepeatsCounts(xs[..|xs| - 1]);
      LastElement(xs);
    }
  }

  lemma CountedTwice<T>(xs: seq<T>, i: nat, j: nat)
    requires i < j < |xs|
    ensures xs[i] == xs[j] ==> multiset(xs)[xs[i]] > 1
  {
    assert xs == xs[..i] + [xs[i]] + xs[i + 1..j] + [xs[j]] + xs[j + 1..];
  }

  lemma {:induction false} OnceEach<T>(xs: seq<T>, members: set<T>)
    requires multiset(xs) == multiset(members)
    ensures NoRepeats(xs) && Elements(xs) == members
  {
    forall i, j | 0 <= i < j < |xs| ensures xs[i] != xs[j] {
      CountedTwice(xs, i, j);
    }
    assert forall x :: x in xs <==> x in multiset(xs);
  }

  /** The members of a set in some order. */
  ghost function Listed<T(!new)>(members: set<T>): seq<T> {
    if members == {} then []
    else
      var x :| x in members;
      [x] + Listed(members - {x})
  }

  lemma {:induction false} ListedFacts<T(!new)>(members: set<T>)
    ensures multiset(Listed(members)) == multiset(members)
  {
    if members != {} {
      var list := Listed(members);
      ListedFacts(members - {list[0]});
      assert list == [list[0]] + Listed(members - {list[0]});
    }
  }

  // ---------------------------------------------------------------- sorting

  ghost predicate TotalOrder<T(!new)>(atMost: (T, T) -> bool) {
    && (forall a, b :: atMost(a, b) || atMost(b, a))
    && (forall a, b :: atMost(a, b) && atMost(b, a) ==> a == b)
    && (forall a, b, c :: atMost(a, b) && atMost(b, c) ==> atMost(a, c))
  }

  ghost predicate Sorted<T>(atMost: (T, T) -> bool, xs: seq<T>) {
    forall i, j :: 0 <= i < j < |xs| ==> atMost(xs[i], xs[j])
  }

  function Insert<T>(atMost: (T, T) -> bool, x: T, xs: seq<T>): seq<T> {
    if xs == [] then [x]
    else if atMost(x, xs[0]) then [x] + xs
    else [xs[0]] + Insert(atMost, x, xs[1..])
  }

  /** What the standard library's sorting leaves behind. */
  function Sort<T>(atMost: (T, T) -> bool, xs: seq<T>): seq<T> {
    if xs == [] then [] else Insert(atMost, xs[0], Sort(atMost, xs[1..]))
  }

  lemma {:induction false} SortedFront<T(!new)>(atMost: (T, T) -> bool, x: T, xs: seq<T>)
    requires Sorted(atMost, xs) && forall y <- multiset(xs) :: atMost(x, y)
    ensures Sorted(atMost, [x] + xs)
  {
    forall j | 0 <= j < |xs| ensures atMost(x, xs[j]) {
      assert xs[j] in multiset(xs);
    }
  }

  lemma {:induction false} HeadIsLeast<T(!new)>(atMost: (T, T) -> bool, xs: seq<T>)
    requires TotalOrder(atMost) && Sorted(atMost, xs) && xs != []
    ensures Sorted(atMost, xs[1..]) && forall y <- multiset(xs) :: atMost(xs[0], y)
  {
  }

  lemma {:induction false} InsertSorts<T(!new)>(atMost: (T, T) -> bool, x: T, xs: seq<T>)
    requires TotalOrder(atMost) && Sorted(atMost, xs)
    ensures Sorted(atMost, Insert(atMost, x, xs))
    ensures multiset(Insert(atMost, x, xs)) == multiset{x} + multiset(xs)
  {
    hide Sorted;
    if xs == [] {
      SortedSingle(atMost, x);
    } else {
      assert xs == [xs[0]] + xs[1..];
      HeadIsLeast(atMost, xs);
      if atMost(x, xs[0]) {
        SortedFront(atMost, x, xs);
      } else {
        InsertSorts(atMost, x, xs[1..]);
        SortedFront(atMost, xs[0], Insert(atMost, x, xs[1..]));
      }
    }
  }

  lemma SortedSingle<T>(atMost: (T, T) -> bool, x: T)
    ensures Sorted(atMost, [x])
  {
  }

  lemma {:induction false} SortSorts<T(!new)>(atMost: (T, T) -> bool, xs: seq<T>)
    requires TotalOrder(atMost)
    ensures Sorted(atMost, Sort(atMost, xs)) && multiset(Sort(atMost, xs)) == multiset(xs)
  {
    hide TotalOrder;
    if xs != [] {
      SortSorts(atMost, xs[1..]);
      InsertSorts(atMost, xs[0], Sort(atMost, xs[1..]));
      assert xs == [xs[0]] + xs[1..];
    }
  }

  lemma {:induction false} HeadAndTail<T>(xs: seq<T>)
    requires xs != []
    ensures xs[0] in multiset(xs) && xs == [xs[0]] + xs[1..]
    ensures multiset(xs[1..]) == multiset(xs) - multiset{xs[0]}
  {
    assert xs == [xs[0]] + xs[1..];
  }

  lemma Antisymmetric<T(!new)>(atMost: (T, T) -> bool, a: T, b: T)
    requires TotalOrder(atMost) && atMost(a, b) && atMost(b, a)
    ensures a == b
  {
  }

  /** A sorted list is determined by its elements, so every correct sort gives the same list. */
  lemma {:induction false} SortedUnique<T(!new)>(atMost: (T, T) -> bool, xs: seq<T>, ys: seq<T>)
    requires TotalOrder(atMost) && Sorted(atMost, xs) && Sorted(atMost, ys) && multiset(xs) == multiset(ys)
    ensures xs == ys
  {
    hide Sorted, TotalOrder;
    assert |xs| == |multiset(xs)| == |multiset(ys)| == |ys|;
    if xs != [] {
      HeadIsLeast(atMost, xs);
      HeadIsLeast(atMost, ys);
      HeadAndTail(xs);
      HeadAndTail(ys);
      Antisymmetric(atMost, xs[0], ys[0]);
      SortedUnique(atMost, xs[1..], ys[1..]);
    }
  }
}
