/** Strings as sequences of code values (code points in Python, UTF-16 code units
    in JavaScript), compared as both languages compare them: value by value. */
module Texts {
  import opened Sorting

  type Text = seq<nat>

  /** The code values of a literal. */
  function Ascii(s: string): (t: Text)
    ensures |t| == |s|
  {
    seq(|s|, i requires 0 <= i < |s| => s[i] as nat)
  }

  predicate LexLe(a: Text, b: Text) {
    a == [] || (b != [] && (a[0] < b[0] || (a[0] == b[0] && LexLe(a[1..], b[1..]))))
  }

  lemma {:induction false} LexTotal(a: Text, b: Text)
    ensures LexLe(a, b) || LexLe(b, a)
  {
    if a != [] && b != [] {
      LexTotal(a[1..], b[1..]);
    }
  }

  lemma {:induction false} LexTransitive(a: Text, b: Text, c: Text)
    requires LexLe(a, b) && LexLe(b, c)
    ensures LexLe(a, c)
  {
    if a != [] && a[0] == b[0] == c[0] {
      LexTransitive(a[1..], b[1..], c[1..]);
    }
  }

  /** Comparing equal both ways means being the same string. */
  lemma {:induction false} LexAntisymmetric(a: Text, b: Text)
    requires LexLe(a, b) && LexLe(b, a)
    ensures a == b
  {
    if a != [] {
      LexAntisymmetric(a[1..], b[1..]);
      assert a == [a[0]] + a[1..] && b == [b[0]] + b[1..];
    }
  }

  lemma LexTotalPreorder()
    ensures TotalPreorder(LexLe)
  {
    forall a, b ensures LexLe(a, b) || LexLe(b, a) { LexTotal(a, b); }
    forall a, b, c | LexLe(a, b) && LexLe(b, c) ensures LexLe(a, c) { LexTransitive(a, b, c); }
  }

  /** A string is never smaller than one of its prefixes. */
  lemma {:induction false} PrefixLe(a: Text, b: Text)
    requires a <= b
    ensures LexLe(a, b)
  {
    if a != [] {
      assert a[1..] <= b[1..];
      PrefixLe(a[1..], b[1..]);
    }
  }

  /** One string comes before another: at the first place in which they differ it has the
      smaller value, or it ends there. */
  ghost predicate Before(a: Text, b: Text) {
    exists n | 0 <= n < |b| :: BeforeAt(a, b, n)
  }

  predicate BeforeAt(a: Text, b: Text, n: nat)
    requires n < |b|
  {
    n <= |a| && a[..n] == b[..n] && (n == |a| || a[n] < b[n])
  }

  /** That is what the comparison computes. */
  lemma {:induction false} LexIsBefore(a: Text, b: Text)
    ensures LexLe(a, b) <==> a == b || Before(a, b)
  {
    if a == [] {
      assert b != [] ==> BeforeAt(a, b, 0);
    } else if b != [] && a[0] == b[0] {
      LexIsBefore(a[1..], b[1..]);
      assert a == [a[0]] + a[1..] && b == [b[0]] + b[1..];
      forall n | 0 < n < |b| ensures BeforeAt(a, b, n) <==> BeforeAt(a[1..], b[1..], n - 1) {
        assert n <= |a| ==> a[..n] == [a[0]] + a[1..][..n - 1] && b[..n] == [b[0]] + b[1..][..n - 1];
      }
      if n :| 0 <= n < |b[1..]| && BeforeAt(a[1..], b[1..], n) {
        assert BeforeAt(a, b, n + 1);
      }
      if n :| 0 <= n < |b| && BeforeAt(a, b, n) {
        assert BeforeAt(a[1..], b[1..], n - 1);
      }
    } else if b != [] {
      assert a[0] < b[0] ==> BeforeAt(a, b, 0);
      forall n | 0 <= n < |b| && BeforeAt(a, b, n) ensures a[0] < b[0] {
        assert n > 0 ==> a[..n][0] == b[..n][0];
      }
    }
  }
}
