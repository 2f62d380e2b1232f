/** Applying a function to every element of a sequence, and keeping some of them. */
module Mapping {
  import opened Sorting

  function Map<A, B>(f: A -> B, s: seq<A>): (r: seq<B>)
    ensures |r| == |s| && forall i | 0 <= i < |s| :: r[i] == f(s[i])
  {
    if s == [] then [] else [f(s[0])] + Map(f, s[1..])
  }

  function Without<A>(s: seq<A>, i: nat): (r: seq<A>)
    requires i < |s|
    ensures |r| == |s| - 1
    ensures multiset(r) == multiset(s) - multiset{s[i]}
  {
    assert s == s[..i] + [s[i]] + s[i + 1..];
    s[..i] + s[i + 1..]
  }

  lemma MapWithout<A, B>(f: A -> B, s: seq<A>, i: nat)
    requires i < |s|
    ensures multiset(Map(f, Without(s, i))) == multiset(Map(f, s)) - multiset{f(s[i])}
  {
    hide Map;
    var mapped, rest := Map(f, s), Map(f, Without(s, i));
    forall k | 0 <= k < |rest| ensures rest[k] == Without(mapped, i)[k] {
      assert Without(s, i)[k] == s[if k < i then k else k + 1];
    }
    assert rest == Without(mapped, i);
  }

  /** Rearranging the input only rearranges the output. */
  lemma {:induction false} MapMultiset<A, B>(f: A -> B, s: seq<A>, t: seq<A>)
    requires multiset(s) == multiset(t)
    ensures multiset(Map(f, s)) == multiset(Map(f, t))
  {
    MultisetMember(s, t);
    if s != [] {
      assert s[0] in t;
      var i: nat :| i < |t| && t[i] == s[0];
      MapMultiset(f, Without(s, 0), Without(t, i));
      MapWithout(f, s, 0);
      MapWithout(f, t, i);
      SameWithout(Map(f, s), Map(f, t), f(s[0]));
    }
  }

  lemma SameWithout<A>(s: seq<A>, t: seq<A>, x: A)
    requires x in s && x in t && multiset(s) - multiset{x} == multiset(t) - multiset{x}
    ensures multiset(s) == multiset(t)
  {
    assert multiset(s) == multiset(s) - multiset{x} + multiset{x};
    assert multiset(t) == multiset(t) - multiset{x} + multiset{x};
  }

  /** A function that changes no element changes nothing. */
  lemma MapFixed<A>(f: A -> A, s: seq<A>)
    requires forall x | x in s :: f(x) == x
    ensures Map(f, s) == s
  {
  }

  lemma MapMember<A, B>(f: A -> B, s: seq<A>, y: B)
    ensures y in Map(f, s) <==> exists x :: x in s && f(x) == y
  {
    if y in Map(f, s) {
      var i :| 0 <= i < |s| && Map(f, s)[i] == y;
      assert s[i] in s && f(s[i]) == y;
    }
    if x :| x in s && f(x) == y {
      var i :| 0 <= i < |s| && s[i] == x;
      assert Map(f, s)[i] == y;
    }
  }

  lemma MapAfter<A, B, C>(f: B -> C, g: A -> B, h: A -> C, s: seq<A>)
    requires forall x | x in s :: f(g(x)) == h(x)
    ensures Map(f, Map(g, s)) == Map(h, s)
  {
  }

  lemma MapAll<A, B>(f: A -> B, holds: B -> bool, s: seq<A>)
    ensures (forall y | y in Map(f, s) :: holds(y)) <==> forall x | x in s :: holds(f(x))
  {
    forall i | 0 <= i < |s| ensures f(s[i]) in Map(f, s) {
      assert Map(f, s)[i] == f(s[i]);
    }
    forall y | y in Map(f, s) ensures exists x :: x in s && f(x) == y {
      MapMember(f, s, y);
    }
  }

  lemma MapAppend<A, B>(f: A -> B, s: seq<A>, x: A)
    ensures Map(f, s + [x]) == Map(f, s) + [f(x)]
  {
  }

  // ---------- keeping some elements ----------

  function Filter<T(!new)>(keep: T -> bool, s: seq<T>): (r: seq<T>)
    ensures forall x :: x in r <==> x in s && keep(x)
  {
    if s == [] then []
    else
      assert s == [s[0]] + s[1..];
      (if keep(s[0]) then [s[0]] else []) + Filter(keep, s[1..])
  }

  lemma FilterAppend<T(!new)>(keep: T -> bool, s: seq<T>, x: T)
    ensures Filter(keep, s + [x]) == Filter(keep, s) + if keep(x) then [x] else []
  {
    if s == [] {
      assert [] + [x] == [x];
    } else {
      assert (s + [x])[1..] == s[1..] + [x];
    }
  }

  lemma NextFiltered<T(!new)>(keep: T -> bool, s: seq<T>, i: nat)
    requires i < |s|
    ensures Filter(keep, s[..i + 1]) == Filter(keep, s[..i]) + if keep(s[i]) then [s[i]] else []
  {
    assert s[..i + 1] == s[..i] + [s[i]];
    FilterAppend(keep, s[..i], s[i]);
  }
}
