/** Sequences whose elements must not clash with each other, and sorting by a key. */
module Keyed {
  import opened Mapping
  import opened Sorting
  import opened Texts

  /** Any two elements at different places are related. */
  ghost predicate Pairwise<T>(rel: (T, T) -> bool, s: seq<T>) {
    forall i, j | 0 <= i < j < |s| :: rel(s[i], s[j])
  }

  ghost predicate Symmetric<T(!new)>(rel: (T, T) -> bool) {
    forall x, y :: rel(x, y) <==> rel(y, x)
  }

  lemma {:induction false} TwicePresent<T>(s: seq<T>, x: T)
    ensures multiset(s)[x] >= 2 <==> exists i, j | 0 <= i < j < |s| :: s[i] == x && s[j] == x
  {
    if s != [] {
      assert s == [s[0]] + s[1..];
      TwicePresent(s[1..], x);
      if multiset(s)[x] >= 2 {
        if s[0] == x {
          assert x in s[1..];
          var j :| 0 <= j < |s[1..]| && s[1..][j] == x;
          assert s[0] == x && s[j + 1] == x;
        } else {
          var i, j :| 0 <= i < j < |s[1..]| && s[1..][i] == x && s[1..][j] == x;
          assert s[i + 1] == x && s[j + 1] == x;
        }
      }
    }
  }

  /** Whether the elements get on does not depend on how they are arranged. */
  lemma PairwiseAnyOrder<T(!new)>(rel: (T, T) -> bool, s: seq<T>, t: seq<T>)
    requires Symmetric(rel) && multiset(s) == multiset(t) && Pairwise(rel, s)
    ensures Pairwise(rel, t)
  {
    MultisetMember(s, t);
    forall i, j | 0 <= i < j < |t| ensures rel(t[i], t[j]) {
      var x, y := t[i], t[j];
      if x == y {
        TwicePresent(t, x);
        TwicePresent(s, x);
      } else {
        assert x in s && y in s;
        var a, b :| 0 <= a < |s| && 0 <= b < |s| && s[a] == x && s[b] == y;
        assert a != b;
      }
    }
  }

  lemma PairwiseAt<T>(rel: (T, T) -> bool, s: seq<T>, i: nat, j: nat)
    requires Pairwise(rel, s) && i < j < |s|
    ensures rel(s[i], s[j])
  {
  }

  lemma PairwiseAppend<T>(rel: (T, T) -> bool, s: seq<T>, x: T)
    ensures Pairwise(rel, s + [x]) <==> Pairwise(rel, s) && forall y | y in s :: rel(y, x)
  {
    var longer := s + [x];
    if Pairwise(rel, longer) {
      forall i, j | 0 <= i < j < |s| ensures rel(s[i], s[j]) {
        assert longer[i] == s[i] && longer[j] == s[j];
      }
      forall y | y in s ensures rel(y, x) {
        var i :| 0 <= i < |s| && s[i] == y;
        assert rel(longer[i], longer[|s|]);
      }
    }
  }

  lemma MapPairwise<A, B>(f: A -> B, rel: (A, A) -> bool, mapped: (B, B) -> bool, s: seq<A>)
    requires forall x, y | x in s && y in s :: mapped(f(x), f(y)) == rel(x, y)
    ensures Pairwise(mapped, Map(f, s)) <==> Pairwise(rel, s)
  {
    forall i, j | 0 <= i < j < |s| ensures mapped(Map(f, s)[i], Map(f, s)[j]) == rel(s[i], s[j]) {
      assert s[i] in s && s[j] in s;
    }
  }

  function Differ<T, K(==)>(key: T -> K): (T, T) -> bool {
    (x: T, y: T) => key(x) != key(y)
  }

  ghost predicate DistinctOn<T, K>(key: T -> K, s: seq<T>) {
    Pairwise(Differ(key), s)
  }

  lemma DistinctOnAnyOrder<T(!new), K>(key: T -> K, s: seq<T>, t: seq<T>)
    requires multiset(s) == multiset(t) && DistinctOn(key, s)
    ensures DistinctOn(key, t)
  {
    PairwiseAnyOrder(Differ(key), s, t);
  }

  lemma SameKey<T, K>(key: T -> K, s: seq<T>, x: T, y: T)
    requires DistinctOn(key, s) && x in s && y in s && key(x) == key(y)
    ensures x == y
  {
    var i, j :| 0 <= i < |s| && 0 <= j < |s| && s[i] == x && s[j] == y;
  }

  /** Mapping by a function that keeps the key keeps keys distinct. */
  lemma MapDistinctOn<A(!new), B(!new), K>(f: A -> B, key: A -> K, mapped: B -> K, s: seq<A>)
    requires forall x :: mapped(f(x)) == key(x)
    ensures DistinctOn(mapped, Map(f, s)) <==> DistinctOn(key, s)
  {
    forall i, j | 0 <= i < j < |s|
      ensures Differ(mapped)(Map(f, s)[i], Map(f, s)[j]) <==> Differ(key)(s[i], s[j])
    {
      assert mapped(f(s[i])) == key(s[i]) && mapped(f(s[j])) == key(s[j]);
    }
  }

  function ByText<T>(key: T -> Text): (T, T) -> bool {
    (x: T, y: T) => LexLe(key(x), key(y))
  }

  function ByNumber<T>(key: T -> int): (T, T) -> bool {
    (x: T, y: T) => key(x) <= key(y)
  }

  lemma ByTextPreorder<T(!new)>(key: T -> Text)
    ensures TotalPreorder(ByText(key))
  {
    var le := ByText(key);
    forall x, y ensures le(x, y) || le(y, x) { LexTotal(key(x), key(y)); }
    forall x, y, z | le(x, y) && le(y, z) ensures le(x, z) { LexTransitive(key(x), key(y), key(z)); }
  }

  /** Sorting elements with distinct keys depends on the elements only. */
  lemma SortByTextUnique<T(!new)>(key: T -> Text, s: seq<T>, t: seq<T>)
    requires DistinctOn(key, s) && multiset(s) == multiset(t)
    ensures SortBy(ByText(key), s) == SortBy(ByText(key), t)
  {
    ByTextPreorder(key);
    forall x, y | x in s && y in s && ByText(key)(x, y) && ByText(key)(y, x) ensures x == y {
      LexAntisymmetric(key(x), key(y));
      SameKey(key, s, x, y);
    }
    SortByCanonical(ByText(key), s, t);
  }

  lemma SortByNumberUnique<T(!new)>(key: T -> int, s: seq<T>, t: seq<T>)
    requires DistinctOn(key, s) && multiset(s) == multiset(t)
    ensures SortBy(ByNumber(key), s) == SortBy(ByNumber(key), t)
  {
    forall x, y | x in s && y in s && ByNumber(key)(x, y) && ByNumber(key)(y, x) ensures x == y {
      SameKey(key, s, x, y);
    }
    SortByCanonical(ByNumber(key), s, t);
  }

  lemma SortByTextTwice<T(!new)>(key: T -> Text, s: seq<T>)
    ensures SortBy(ByText(key), SortBy(ByText(key), s)) == SortBy(ByText(key), s)
  {
    ByTextPreorder(key);
    SortBySorted(ByText(key), s);
    SortByFixed(ByText(key), SortBy(ByText(key), s));
  }

  lemma SortByNumberTwice<T(!new)>(key: T -> int, s: seq<T>)
    ensures SortBy(ByNumber(key), SortBy(ByNumber(key), s)) == SortBy(ByNumber(key), s)
  {
    SortBySorted(ByNumber(key), s);
    SortByFixed(ByNumber(key), SortBy(ByNumber(key), s));
  }

  // ---------- rearrangements seen through a function ----------

  /** If one function determines another, rearranging the values of the first
      rearranges those of the second. */
  lemma {:induction false} MapThrough<A, B, C>(f: A -> B, g: A -> C, s: seq<A>, t: seq<A>)
    requires multiset(Map(f, s)) == multiset(Map(f, t))
    requires Determines(f, g, s, t)
    ensures multiset(Map(g, s)) == multiset(Map(g, t))
  {
    if s != [] {
      var i := PlaceOf(Map(f, s), 0, Map(f, t));
      MapWithout(f, s, 0);
      MapWithout(f, t, i);
      DeterminesRest(f, g, s, t, 0, i);
      MapThrough(f, g, Without(s, 0), Without(t, i));
      MapWithout(g, s, 0);
      MapWithout(g, t, i);
      BothContain(Map(g, s), 0, Map(g, t), i);
    } else {
      assert |Map(f, t)| == |multiset(Map(f, t))| == 0;
    }
  }

  ghost predicate Determines<A, B, C>(f: A -> B, g: A -> C, s: seq<A>, t: seq<A>) {
    forall i, j | 0 <= i < |s| && 0 <= j < |t| && f(s[i]) == f(t[j]) :: g(s[i]) == g(t[j])
  }

  lemma DeterminesRest<A, B, C>(f: A -> B, g: A -> C, s: seq<A>, t: seq<A>, a: nat, b: nat)
    requires a < |s| && b < |t| && Determines(f, g, s, t)
    ensures Determines(f, g, Without(s, a), Without(t, b))
  {
    forall i, j | 0 <= i < |s| - 1 && 0 <= j < |t| - 1 && f(Without(s, a)[i]) == f(Without(t, b)[j])
      ensures g(Without(s, a)[i]) == g(Without(t, b)[j])
    {
      var k, l := if i < a then i else i + 1, if j < b then j else j + 1;
      assert Without(s, a)[i] == s[k] && Without(t, b)[j] == t[l];
    }
  }

  lemma PlaceOf<A>(s: seq<A>, i: nat, t: seq<A>) returns (j: nat)
    requires i < |s| && multiset(s) == multiset(t)
    ensures j < |t| && t[j] == s[i]
  {
    MultisetMember(s, t);
    assert s[i] in t;
    j :| 0 <= j < |t| && t[j] == s[i];
  }

  lemma BothContain<A>(s: seq<A>, i: nat, t: seq<A>, j: nat)
    requires i < |s| && j < |t| && s[i] == t[j]
    requires multiset(s) - multiset{s[i]} == multiset(t) - multiset{t[j]}
    ensures multiset(s) == multiset(t)
  {
    SameWithout(s, t, s[i]);
  }

  function Total(counts: seq<nat>): nat {
    if counts == [] then 0 else counts[0] + Total(counts[1..])
  }

  lemma {:induction false} TotalWithout(counts: seq<nat>, i: nat)
    requires i < |counts|
    ensures Total(counts) == counts[i] + Total(Without(counts, i))
  {
    if i > 0 {
      TotalWithout(counts[1..], i - 1);
      assert Without(counts, i) == [counts[0]] + Without(counts[1..], i - 1);
    } else {
      assert Without(counts, 0) == counts[1..];
    }
  }

  lemma {:induction false} TotalAppend<T>(count: T -> nat, s: seq<T>, x: T)
    ensures Total(Map(count, s + [x])) == Total(Map(count, s)) + count(x)
  {
    if s == [] {
      assert [] + [x] == [x];
    } else {
      TotalAppend(count, s[1..], x);
      assert (s + [x])[1..] == s[1..] + [x];
    }
  }

  lemma {:induction false} TotalAnyOrder(s: seq<nat>, t: seq<nat>)
    requires multiset(s) == multiset(t)
    ensures Total(s) == Total(t)
  {
    MultisetMember(s, t);
    if s != [] {
      assert s[0] in t;
      var i: nat :| i < |t| && t[i] == s[0];
      TotalWithout(s, 0);
      TotalWithout(t, i);
      TotalAnyOrder(Without(s, 0), Without(t, i));
    }
  }

  /** An element of one sequence that looks like a given element of the other. */
  lemma Counterpart<A, B>(f: A -> B, s: seq<A>, t: seq<A>, y: A) returns (x: A)
    requires multiset(Map(f, s)) == multiset(Map(f, t)) && y in t
    ensures x in s && f(x) == f(y)
  {
    var j: nat :| j < |t| && t[j] == y;
    var i := PlaceOf(Map(f, t), j, Map(f, s));
    x := s[i];
  }

  /** Distinct elements of a sequence are at most as many as its places. */
  lemma InjectionCounts<A>(s: seq<A>, t: seq<A>)
    requires Distinct(s) && forall x | x in s :: x in t
    ensures |s| <= |t|
  {
    DistinctMultiset(s);
    forall x ensures multiset(s)[x] <= multiset(t)[x] {
      assert x in s <==> x in multiset(s);
      assert x in t <==> x in multiset(t);
    }
    assert multiset(s) <= multiset(t);
    assert |multiset(t)| == |multiset(s)| + |multiset(t) - multiset(s)| by {
      assert multiset(t) == multiset(s) + (multiset(t) - multiset(s));
    }
  }
}
