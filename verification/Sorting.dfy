/** Stable sorting by a total preorder.

    Both languages of the repository sort with a stable comparison sort, whose
    result is determined by the order and the input; SortBy is that result. */
module Sorting {

  ghost predicate TotalPreorder<T(!new)>(le: (T, T) -> bool) {
    && (forall x, y :: le(x, y) || le(y, x))
    && (forall x, y, z :: le(x, y) && le(y, z) ==> le(x, z))
  }

  ghost predicate SortedBy<T>(le: (T, T) -> bool, s: seq<T>) {
    forall i, j | 0 <= i < j < |s| :: le(s[i], s[j])
  }

  /** No two different elements of s are equivalent under the order. */
  ghost predicate NoTies<T>(le: (T, T) -> bool, s: seq<T>) {
    forall x, y | x in s && y in s && le(x, y) && le(y, x) :: x == y
  }

  ghost predicate Distinct<T>(s: seq<T>) {
    forall i, j | 0 <= i < j < |s| :: s[i] != s[j]
  }

  function Insert<T>(le: (T, T) -> bool, x: T, s: seq<T>): (r: seq<T>)
    ensures multiset(r) == multiset{x} + multiset(s)
    ensures |r| == |s| + 1
  {
    if s == [] then [x]
    else if le(x, s[0]) then [x] + s
    else
      var r := [s[0]] + Insert(le, x, s[1..]);
      assert s == [s[0]] + s[1..];
      r
  }

  function SortBy<T>(le: (T, T) -> bool, s: seq<T>): (r: seq<T>)
    ensures multiset(r) == multiset(s)
    ensures |r| == |s|
  {
    if s == [] then [] else
      assert s == [s[0]] + s[1..];
      Insert(le, s[0], SortBy(le, s[1..]))
  }

  lemma MultisetMember<T>(s: seq<T>, t: seq<T>)
    requires multiset(s) == multiset(t)
    ensures forall x :: x in s <==> x in t
    ensures |s| == |t|
  {
    assert forall x :: x in s <==> x in multiset(s);
    assert forall x :: x in t <==> x in multiset(t);
    assert |s| == |multiset(s)| && |t| == |multiset(t)|;
  }

  lemma {:induction false} InsertSorted<T(!new)>(le: (T, T) -> bool, x: T, s: seq<T>)
    requires TotalPreorder(le) && SortedBy(le, s)
    ensures SortedBy(le, Insert(le, x, s))
  {
    if s != [] && !le(x, s[0]) {
      InsertSorted(le, x, s[1..]);
      var r := Insert(le, x, s[1..]);
      assert multiset(r) == multiset([x] + s[1..]);
      MultisetMember(r, [x] + s[1..]);
      forall j | 0 <= j < |r| ensures le(s[0], r[j]) {
        assert r[j] in [x] + s[1..];
      }
    }
  }

  /** The result is in order. */
  lemma {:induction false} SortBySorted<T(!new)>(le: (T, T) -> bool, s: seq<T>)
    requires TotalPreorder(le)
    ensures SortedBy(le, SortBy(le, s))
  {
    if s != [] {
      SortBySorted(le, s[1..]);
      InsertSorted(le, s[0], SortBy(le, s[1..]));
    }
  }

  /** Sorting a sorted sequence changes nothing, ties included. */
  lemma {:induction false} SortByFixed<T(!new)>(le: (T, T) -> bool, s: seq<T>)
    requires TotalPreorder(le) && SortedBy(le, s)
    ensures SortBy(le, s) == s
  {
    if s != [] {
      SortByFixed(le, s[1..]);
      assert s == [s[0]] + s[1..];
    }
  }

  lemma SortedHead<T>(le: (T, T) -> bool, s: seq<T>, x: T)
    requires SortedBy(le, s) && x in s && le(x, x)
    ensures le(s[0], x)
  {
    var i :| 0 <= i < |s| && s[i] == x;
  }

  lemma SortedLast<T>(le: (T, T) -> bool, s: seq<T>, x: T)
    requires SortedBy(le, s) && x in s && le(x, x)
    ensures le(x, s[|s| - 1])
  {
    var i :| 0 <= i < |s| && s[i] == x;
  }

  lemma TailMultiset<T>(s: seq<T>)
    requires s != []
    ensures multiset(s[1..]) == multiset(s) - multiset{s[0]}
  {
    assert s == [s[0]] + s[1..];
    assert multiset(s) == multiset{s[0]} + multiset(s[1..]);
  }

  lemma {:induction false} SortedUnique<T>(le: (T, T) -> bool, s: seq<T>, t: seq<T>)
    requires SortedBy(le, s) && SortedBy(le, t) && multiset(s) == multiset(t)
    requires NoTies(le, s)
    requires forall x | x in s :: le(x, x)
    ensures s == t
  {
    MultisetMember(s, t);
    if s != [] {
      SortedHead(le, t, s[0]);
      SortedHead(le, s, t[0]);
      assert s[0] == t[0];
      TailMultiset(s);
      TailMultiset(t);
      SortedUnique(le, s[1..], t[1..]);
    }
  }

  /** Without ties the sorted sequence depends only on the elements, not on
      the order in which they were given. */
  lemma SortByCanonical<T(!new)>(le: (T, T) -> bool, s: seq<T>, t: seq<T>)
    requires TotalPreorder(le) && multiset(s) == multiset(t) && NoTies(le, s)
    ensures SortBy(le, s) == SortBy(le, t)
  {
    SortBySorted(le, s);
    SortBySorted(le, t);
    MultisetMember(s, SortBy(le, s));
    SortedUnique(le, SortBy(le, s), SortBy(le, t));
  }

  lemma {:induction false} DistinctMultiset<T>(s: seq<T>)
    ensures Distinct(s) <==> forall x :: multiset(s)[x] <= 1
  {
    if s != [] {
      assert s == [s[0]] + s[1..];
      DistinctMultiset(s[1..]);
      if Distinct(s) {
        assert s[0] !in s[1..];
        forall x ensures multiset(s)[x] <= 1 { assert multiset(s[1..])[x] <= 1; }
      } else {
        if Distinct(s[1..]) {
          assert exists j :: 0 < j < |s| && s[0] == s[j];
          assert s[0] in s[1..];
          assert multiset(s)[s[0]] >= 2;
        } else {
          var x :| multiset(s[1..])[x] > 1;
          assert multiset(s)[x] > 1;
        }
      }
    }
  }

  lemma DistinctPermutation<T>(s: seq<T>, t: seq<T>)
    requires multiset(s) == multiset(t) && Distinct(s)
    ensures Distinct(t)
  {
    DistinctMultiset(s);
    DistinctMultiset(t);
  }

  lemma {:induction false} DistinctCardinality<T>(s: seq<T>)
    requires Distinct(s)
    ensures |set x | x in s| == |s|
  {
    if s != [] {
      DistinctCardinality(s[1..]);
      assert s == [s[0]] + s[1..] && s[0] !in s[1..];
      assert (set x | x in s) == {s[0]} + set x | x in s[1..];
    }
  }

  lemma SubsetOfSameSize<T>(a: set<T>, b: set<T>)
    requires a <= b && |a| == |b|
    ensures a == b
  {
    assert b == a + (b - a);
    assert |b| == |a| + |b - a|;
  }

  /** Sequences without repetition, equally long, one inside the other, are
      rearrangements of each other. */
  lemma DistinctInclusion<T>(s: seq<T>, t: seq<T>)
    requires Distinct(s) && Distinct(t) && |s| == |t| && forall x | x in s :: x in t
    ensures multiset(s) == multiset(t)
  {
    var a, b := set x | x in s, set x | x in t;
    DistinctCardinality(s);
    DistinctCardinality(t);
    SubsetOfSameSize(a, b);
    DistinctMultiset(s);
    DistinctMultiset(t);
    forall x ensures multiset(s)[x] == multiset(t)[x] {
      assert x in a <==> x in b;
      assert (x in s <==> x in multiset(s)) && (x in t <==> x in multiset(t));
      assert multiset(s)[x] <= 1 && multiset(t)[x] <= 1;
    }
  }

  /** So are sequences without repetition that have the same elements. */
  lemma DistinctSameElements<T>(s: seq<T>, t: seq<T>)
    requires Distinct(s) && Distinct(t) && forall x :: x in s <==> x in t
    ensures multiset(s) == multiset(t)
  {
    DistinctMultiset(s);
    DistinctMultiset(t);
    forall x ensures multiset(s)[x] == multiset(t)[x] {
      assert (x in s <==> x in multiset(s)) && (x in t <==> x in multiset(t));
      assert multiset(s)[x] <= 1 && multiset(t)[x] <= 1;
    }
  }
}
