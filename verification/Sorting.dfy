/** Stable insertion sort, for the library sorts the components call. */
module Sorting {
  import opened Basics

  /** leq compares any two values, and does so transitively. */
  ghost predicate Orders<T(!new)>(leq: (T, T) -> bool) {
    && (forall a, b :: leq(a, b) || leq(b, a))
    && (forall a, b, c :: leq(a, b) && leq(b, c) ==> leq(a, c))
  }

  ghost predicate Sorted<T>(leq: (T, T) -> bool, s: seq<T>) {
    forall i, j :: 0 <= i < j < |s| ==> leq(s[i], s[j])
  }

  /** x goes behind everything it does not have to precede. */
  function Insert<T>(leq: (T, T) -> bool, x: T, s: seq<T>): (r: seq<T>)
    ensures |r| == |s| + 1
  {
    if s == [] || leq(s[|s| - 1], x) then s + [x]
    else Insert(leq, x, s[..|s| - 1]) + [s[|s| - 1]]
  }

  function Sort<T>(leq: (T, T) -> bool, xs: seq<T>): (s: seq<T>)
    ensures |s| == |xs|
  {
    if xs == [] then [] else Insert(leq, xs[|xs| - 1], Sort(leq, xs[..|xs| - 1]))
  }

  lemma {:induction false} InsertAdds<T>(leq: (T, T) -> bool, x: T, s: seq<T>)
    ensures multiset(Insert(leq, x, s)) == multiset(s) + multiset{x}
  {
    if s != [] && !leq(s[|s| - 1], x) {
      InsertAdds(leq, x, s[..|s| - 1]);
      LastInBag(s);
    }
  }

  lemma InsertMembers<T>(leq: (T, T) -> bool, x: T, s: seq<T>, y: T)
    ensures y in Insert(leq, x, s) <==> y == x || y in s
  {
    InsertAdds(leq, x, s);
    assert y in Insert(leq, x, s) <==> y in multiset(Insert(leq, x, s));
  }

  lemma SortedSnoc<T>(leq: (T, T) -> bool, s: seq<T>, x: T)
    requires Sorted(leq, s) && forall y :: y in s ==> leq(y, x)
    ensures Sorted(leq, s + [x])
  {
  }

  lemma LastIsGreatest<T(!new)>(leq: (T, T) -> bool, s: seq<T>, x: T)
    requires Orders(leq) && Sorted(leq, s) && s != [] && leq(s[|s| - 1], x)
    ensures forall y :: y in s ==> leq(y, x)
  {
    forall y | y in s ensures leq(y, x) {
      var i :| 0 <= i < |s| && s[i] == y;
      assert i < |s| - 1 ==> leq(y, s[|s| - 1]);
    }
  }

  lemma {:induction false} InsertSorts<T(!new)>(leq: (T, T) -> bool, x: T, s: seq<T>)
    requires Orders(leq) && Sorted(leq, s)
    ensures Sorted(leq, Insert(leq, x, s))
  {
    if s != [] {
      var front, last := s[..|s| - 1], s[|s| - 1];
      if leq(last, x) {
        LastIsGreatest(leq, s, x);
        SortedSnoc(leq, s, x);
      } else {
        InsertSorts(leq, x, front);
        forall y | y in Insert(leq, x, front) ensures leq(y, last) {
          InsertMembers(leq, x, front, y);
        }
        SortedSnoc(leq, Insert(leq, x, front), last);
      }
    }
  }

  /** Sorting puts the list in order. */
  lemma {:induction false} SortOrders<T(!new)>(leq: (T, T) -> bool, xs: seq<T>)
    requires Orders(leq)
    ensures Sorted(leq, Sort(leq, xs))
  {
    if xs != [] {
      SortOrders(leq, xs[..|xs| - 1]);
      InsertSorts(leq, xs[|xs| - 1], Sort(leq, xs[..|xs| - 1]));
    }
  }

  /** It neither loses nor repeats a value. */
  lemma {:induction false} SortRearranges<T>(leq: (T, T) -> bool, xs: seq<T>)
    ensures multiset(Sort(leq, xs)) == multiset(xs)
  {
    if xs != [] {
      SortRearranges(leq, xs[..|xs| - 1]);
      InsertAdds(leq, xs[|xs| - 1], Sort(leq, xs[..|xs| - 1]));
      LastInBag(xs);
    }
  }

  lemma SortMembers<T>(leq: (T, T) -> bool, xs: seq<T>, x: T)
    ensures x in Sort(leq, xs) <==> x in xs
  {
    SortRearranges(leq, xs);
    assert x in Sort(leq, xs) <==> x in multiset(Sort(leq, xs));
  }

  /** The values of one class, in order. */
  function Kept<T>(keep: T -> bool, s: seq<T>): seq<T> {
    if s == [] then [] else Kept(keep, s[..|s| - 1]) + Only(keep, s[|s| - 1])
  }

  function Only<T>(keep: T -> bool, x: T): seq<T> {
    if keep(x) then [x] else []
  }

  lemma KeptSnoc<T>(keep: T -> bool, s: seq<T>, x: T)
    ensures Kept(keep, s + [x]) == Kept(keep, s) + Only(keep, x)
  {
    assert (s + [x])[..|s|] == s;
  }

  lemma Swap<T>(a: seq<T>, b: seq<T>, c: seq<T>)
    requires b == [] || c == []
    ensures a + b + c == a + c + b
  {
    assert a + [] == a;
  }

  /** Insertion behind one's own class keeps the order inside it. */
  lemma {:induction false} InsertIsStable<T>(leq: (T, T) -> bool, keep: T -> bool, x: T, s: seq<T>)
    requires keep(x) ==> forall y :: y in s && keep(y) ==> leq(y, x)
    ensures Kept(keep, Insert(leq, x, s)) == Kept(keep, s) + Only(keep, x)
  {
    if s == [] || leq(s[|s| - 1], x) {
      KeptSnoc(keep, s, x);
    } else {
      var front, last := s[..|s| - 1], s[|s| - 1];
      InsertIsStable(leq, keep, x, front);
      KeptSnoc(keep, Insert(leq, x, front), last);
      Swap(Kept(keep, front), Only(keep, x), Only(keep, last));
    }
  }

  /** A class that arrives in order is drained in order of arrival. */
  lemma {:induction false} SortIsStable<T>(leq: (T, T) -> bool, keep: T -> bool, xs: seq<T>)
    requires forall i, j :: 0 <= i < j < |xs| && keep(xs[i]) && keep(xs[j]) ==> leq(xs[i], xs[j])
    ensures Kept(keep, Sort(leq, xs)) == Kept(keep, xs)
  {
    if xs != [] {
      var front, last := xs[..|xs| - 1], xs[|xs| - 1];
      SortIsStable(leq, keep, front);
      forall y | keep(last) && y in Sort(leq, front) && keep(y) ensures leq(y, last) {
        SortMembers(leq, front, y);
      }
      InsertIsStable(leq, keep, last, Sort(leq, front));
    }
  }
}
