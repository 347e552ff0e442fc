/** Insertion sort over an arbitrary total order: the model of the library sorts the
    source calls (`sort_by` on marker heights, `sort` on serialised outputs). */
module Sorting {

  ghost predicate TotalOrder<T(!new)>(leq: (T, T) -> bool) {
    && (forall x :: leq(x, x))
    && (forall x, y :: leq(x, y) || leq(y, x))
    && (forall x, y :: leq(x, y) && leq(y, x) ==> x == y)
    && (forall x, y, z :: leq(x, y) && leq(y, z) ==> leq(x, z))
  }

  ghost predicate SortedBy<T>(leq: (T, T) -> bool, s: seq<T>) {
    forall i, j :: 0 <= i < j < |s| ==> leq(s[i], s[j])
  }

  function Insert<T>(leq: (T, T) -> bool, x: T, s: seq<T>): (r: seq<T>)
    ensures |r| == |s| + 1
  {
    if s == [] then [x]
    else if leq(x, s[0]) then [x] + s
    else [s[0]] + Insert(leq, x, s[1..])
  }

  function Sort<T>(leq: (T, T) -> bool, s: seq<T>): (r: seq<T>)
    ensures |r| == |s|
  {
    if s == [] then [] else Insert(leq, s[0], Sort(leq, s[1..]))
  }

  lemma {:induction false} InsertMembers<T>(leq: (T, T) -> bool, x: T, s: seq<T>)
    ensures multiset(Insert(leq, x, s)) == multiset(s) + multiset{x}
  {
    if s != [] && !leq(x, s[0]) {
      InsertMembers(leq, x, s[1..]);
      assert s == [s[0]] + s[1..];
    }
  }

  lemma {:induction false} SortPermutes<T>(leq: (T, T) -> bool, s: seq<T>)
    ensures multiset(Sort(leq, s)) == multiset(s)
  {
    if s != [] {
      SortPermutes(leq, s[1..]);
      InsertMembers(leq, s[0], Sort(leq, s[1..]));
      assert s == [s[0]] + s[1..];
    }
  }

  /** A smaller element in front keeps a sequence sorted. */
  lemma ConsSorted<T(!new)>(leq: (T, T) -> bool, x: T, s: seq<T>)
    requires SortedBy(leq, s) && forall y :: y in s ==> leq(x, y)
    ensures SortedBy(leq, [x] + s)
  {
  }

  lemma HeadLeast<T(!new)>(leq: (T, T) -> bool, s: seq<T>, x: T)
    requires TotalOrder(leq) && SortedBy(leq, s) && x in s
    ensures leq(s[0], x)
  {
  }

  lemma {:induction false} InsertSorted<T(!new)>(leq: (T, T) -> bool, x: T, s: seq<T>)
    requires TotalOrder(leq) && SortedBy(leq, s)
    ensures SortedBy(leq, Insert(leq, x, s))
  {
    if s != [] && leq(x, s[0]) {
      forall y | y in s ensures leq(x, y) { HeadLeast(leq, s, y); }
      ConsSorted(leq, x, s);
    } else if s != [] {
      var t := Insert(leq, x, s[1..]);
      InsertSorted(leq, x, s[1..]);
      InsertMembers(leq, x, s[1..]);
      forall y | y in t ensures leq(s[0], y) {
        assert y in multiset(t);
        if y != x { HeadLeast(leq, s, y); }
      }
      ConsSorted(leq, s[0], t);
    }
  }

  lemma {:induction false} SortSorts<T(!new)>(leq: (T, T) -> bool, s: seq<T>)
    requires TotalOrder(leq)
    ensures SortedBy(leq, Sort(leq, s))
  {
    if s != [] {
      SortSorts(leq, s[1..]);
      InsertSorted(leq, s[0], Sort(leq, s[1..]));
    }
  }

  lemma TailMembers<T>(s: seq<T>)
    requires s != []
    ensures multiset(s[1..]) == multiset(s) - multiset{s[0]}
  {
    assert s == [s[0]] + s[1..];
  }

  lemma SameMembers<T>(s: seq<T>, t: seq<T>, x: T)
    requires multiset(s) == multiset(t) && x in s
    ensures x in t
  {
    assert x in multiset(s);
  }

  /** Two sorted sequences with the same elements are the same sequence. */
  lemma {:induction false} SortedUnique<T(!new)>(leq: (T, T) -> bool, s: seq<T>, t: seq<T>)
    requires TotalOrder(leq) && SortedBy(leq, s) && SortedBy(leq, t)
    requires multiset(s) == multiset(t)
    ensures s == t
  {
    assert |s| == |multiset(s)| && |t| == |multiset(t)|;
    if s != [] {
      SameMembers(s, t, s[0]);
      SameMembers(t, s, t[0]);
      HeadLeast(leq, s, t[0]);
      HeadLeast(leq, t, s[0]);
      TailMembers(s);
      TailMembers(t);
      SortedUnique(leq, s[1..], t[1..]);
      assert s == [s[0]] + s[1..] && t == [t[0]] + t[1..];
    }
  }

  /** Sorting is a canonical form: two sequences sort alike exactly when one is a
      rearrangement of the other. */
  lemma SortCanonical<T(!new)>(leq: (T, T) -> bool, s: seq<T>, t: seq<T>)
    requires TotalOrder(leq)
    ensures Sort(leq, s) == Sort(leq, t) <==> multiset(s) == multiset(t)
  {
    SortPermutes(leq, s);
    SortPermutes(leq, t);
    SortSorts(leq, s);
    SortSorts(leq, t);
    if multiset(s) == multiset(t) {
      SortedUnique(leq, Sort(leq, s), Sort(leq, t));
    }
  }

  function Map<T, U>(f: T -> U, s: seq<T>): (r: seq<U>)
    ensures |r| == |s|
    ensures forall i :: 0 <= i < |s| ==> r[i] == f(s[i])
  {
    seq(|s|, i requires 0 <= i < |s| => f(s[i]))
  }

  lemma {:induction false} InsertCommutes<T(!new)>(leq: (T, T) -> bool, f: T -> T, x: T, s: seq<T>)
    requires forall y, z :: leq(f(y), f(z)) == leq(y, z)
    ensures Insert(leq, f(x), Map(f, s)) == Map(f, Insert(leq, x, s))
  {
    if s != [] && !leq(x, s[0]) {
      assert Map(f, s)[1..] == Map(f, s[1..]);
      InsertCommutes(leq, f, x, s[1..]);
    }
  }

  /** An order-preserving map can be applied before or after sorting. */
  lemma {:induction false} SortCommutes<T(!new)>(leq: (T, T) -> bool, f: T -> T, s: seq<T>)
    requires forall y, z :: leq(f(y), f(z)) == leq(y, z)
    ensures Sort(leq, Map(f, s)) == Map(f, Sort(leq, s))
  {
    if s != [] {
      assert Map(f, s)[1..] == Map(f, s[1..]);
      SortCommutes(leq, f, s[1..]);
      InsertCommutes(leq, f, s[0], Sort(leq, s[1..]));
    }
  }
}
