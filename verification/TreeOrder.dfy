/** The orders in which the archive script walks a bundle's tree.

    A tree is a set of relative paths; the empty path is the root. Copying creates
    entries, so it must meet a parent before its children; purging removes them,
    so it must meet every child before its parent, and a killed purge must leave a
    tree that a later purge can finish. */
module TreeOrder {
  import opened Sorting
  import opened Texts

  type Path = Text

  const SLASH: nat := 47

  function Slashes(p: Path): nat {
    if p == [] then 0 else (if p[0] == SLASH then 1 else 0) + Slashes(p[1..])
  }

  /** Everything before the last slash; the root for a path without one. */
  function Parent(p: Path): (q: Path)
    ensures q <= p
    ensures p != [] ==> |q| < |p|
  {
    if p == [] then []
    else if p[|p| - 1] == SLASH then p[..|p| - 1]
    else Parent(p[..|p| - 1])
  }

  function Join(p: Path, name: Text): Path {
    if p == [] then name else p + [SLASH] + name
  }

  predicate ValidName(name: Text) {
    name != [] && SLASH !in name
  }

  ghost predicate ParentClosed(paths: set<Path>) {
    forall p | p in paths && p != [] :: Parent(p) in paths
  }

  /** Every entry comes after its parent. */
  ghost predicate ParentsFirst(order: seq<Path>) {
    forall k {:trigger ParentEarlier(order, k)} | 0 <= k < |order| :: ParentEarlier(order, k)
  }

  predicate ParentEarlier(order: seq<Path>, k: nat)
    requires k < |order|
  {
    order[k] == [] || Parent(order[k]) in order[..k]
  }

  /** The sort key of the purge, as a comparison: deeper paths first, and among
      equally deep ones the longer first. */
  predicate PurgeBefore(a: Path, b: Path) {
    Slashes(b) < Slashes(a) || (Slashes(b) == Slashes(a) && |b| <= |a|)
  }

  function PurgeOrder(paths: seq<Path>): seq<Path> {
    SortBy(PurgeBefore, paths)
  }

  lemma {:induction false} SlashesConcat(a: Path, b: Path)
    ensures Slashes(a + b) == Slashes(a) + Slashes(b)
  {
    if a == [] {
      assert a + b == b;
    } else {
      assert (a + b)[1..] == a[1..] + b;
      SlashesConcat(a[1..], b);
    }
  }

  lemma {:induction false} ParentSlashes(p: Path)
    requires p != []
    ensures Slashes(p) == Slashes(Parent(p)) + 1 || (Parent(p) == [] && Slashes(p) == 0)
  {
    var n := |p| - 1;
    assert p == p[..n] + [p[n]];
    SlashesConcat(p[..n], [p[n]]);
    assert Slashes([p[n]]) == if p[n] == SLASH then 1 else 0;
    if p[n] != SLASH && p[..n] != [] {
      ParentSlashes(p[..n]);
    }
  }

  /** The purge key puts a path strictly before its parent. */
  lemma ChildBeforeParent(p: Path)
    requires p != []
    ensures PurgeBefore(p, Parent(p)) && !PurgeBefore(Parent(p), p)
  {
    ParentSlashes(p);
  }

  lemma PurgeBeforeTotal()
    ensures TotalPreorder(PurgeBefore)
  {
  }

  /** Removing entries in purge order never removes a directory that still has an
      entry in it, and after any number of removals the rest is still a tree; the
      root goes last. Holds for any parent-closed set, hence for what an earlier
      killed purge left. */
  lemma PurgeIsBottomUp(paths: seq<Path>, k: nat)
    requires Distinct(paths) && ParentClosed(set p | p in paths)
    requires k < |paths|
    ensures |PurgeOrder(paths)| == |paths|
    ensures var order := PurgeOrder(paths);
            && (forall q | q in order[k + 1..] && q != [] :: Parent(q) != order[k])
            && ParentClosed(set p | p in order[k..])
            && ([] in paths ==> order[|paths| - 1] == [])
  {
    var order := PurgeOrder(paths);
    PurgeBeforeTotal();
    SortBySorted(PurgeBefore, paths);
    MultisetMember(order, paths);
    DistinctPermutation(paths, order);
    forall q | q in order[k + 1..] && q != [] ensures Parent(q) != order[k] {
      var j :| k < j < |order| && order[j] == q;
      assert PurgeBefore(order[k], order[j]);
      ChildBeforeParent(q);
    }
    forall q | q in order[k..] && q != [] ensures Parent(q) in order[k..] {
      var j :| k <= j < |order| && order[j] == q;
      assert q in paths && Parent(q) in paths;
      var i :| 0 <= i < |order| && order[i] == Parent(q);
      if i < j {
        assert PurgeBefore(order[i], order[j]);
        ChildBeforeParent(q);
      }
      assert order[k..][i - k] == Parent(q);
    }
    if [] in paths {
      SortedLast(PurgeBefore, order, []);
    }
  }

  /** A tree listed by ascending path, as read back from the sealed plan, has
      parents first. */
  lemma SortedPathsParentsFirst(order: seq<Path>)
    requires SortedBy(LexLe, order) && Distinct(order) && ParentClosed(set p | p in order)
    ensures ParentsFirst(order)
  {
    forall k | 0 <= k < |order| ensures ParentEarlier(order, k) {
      var p := order[k];
      if p != [] {
        assert p in (set q | q in order);
        assert Parent(p) in order;
        var i :| 0 <= i < |order| && order[i] == Parent(p);
        if i > k {
          PrefixLe(Parent(p), p);
          assert LexLe(order[k], order[i]);
          LexAntisymmetric(p, Parent(p));
        }
        assert order[..k][i] == Parent(p);
      }
    }
  }

  // ---------- the walk that takes a snapshot ----------

  /** A directory tree as the file system presents it. */
  datatype Entry = File | Directory(names: seq<Text>, children: seq<Entry>)

  ghost predicate WellFormed(e: Entry)
  {
    e.Directory? ==>
      && |e.names| == |e.children|
      && (forall n | n in e.names :: ValidName(n))
      && Distinct(e.names)
      && forall c | c in e.children :: WellFormed(c)
  }

  /** Paths in the order the recursive walk records them. */
  function Walk(e: Entry, relative: Path): (rows: seq<Path>)
    requires WellFormed(e)
    ensures rows != [] && rows[0] == relative
    decreases e, 1 + if e.File? then 0 else |e.names|
  {
    if e.File? then [relative] else [relative] + WalkChildren(e, relative, 0)
  }

  function WalkChildren(e: Entry, relative: Path, i: nat): seq<Path>
    requires WellFormed(e) && e.Directory? && i <= |e.names|
    decreases e, |e.names| - i
  {
    if i == |e.names| then []
    else
      assert e.children[i] in e.children;
      Walk(e.children[i], Join(relative, e.names[i])) + WalkChildren(e, relative, i + 1)
  }

  lemma {:induction false} ParentOfJoin(p: Path, name: Text)
    requires ValidName(name)
    ensures Join(p, name) != [] && Parent(Join(p, name)) == p
  {
    if p == [] {
      NoSlashNoParent(name);
    } else {
      ParentOfSuffix(p, name);
    }
  }

  lemma {:induction false} NoSlashNoParent(name: Text)
    requires SLASH !in name
    ensures Parent(name) == []
  {
    if name != [] {
      assert name[|name| - 1] in name;
      NoSlashNoParent(name[..|name| - 1]);
    }
  }

  lemma {:induction false} ParentOfSuffix(p: Path, name: Text)
    requires SLASH !in name
    ensures Parent(p + [SLASH] + name) == p
  {
    var q := p + [SLASH] + name;
    if name == [] {
      assert q[..|q| - 1] == p;
    } else {
      assert name[|name| - 1] in name;
      assert q[..|q| - 1] == p + [SLASH] + name[..|name| - 1];
      ParentOfSuffix(p, name[..|name| - 1]);
    }
  }

  /** q is p or lies below it. */
  predicate Within(p: Path, q: Path) {
    p <= q && (p == [] || |q| == |p| || q[|p|] == SLASH)
  }

  ghost predicate GoodWalk(rows: seq<Path>, relative: Path) {
    && Distinct(rows)
    && (forall q | q in rows :: Within(relative, q))
    && (forall k | 0 < k < |rows| :: rows[k] != [] && Parent(rows[k]) in rows[..k])
  }

  /** What the walk over the remaining children of one directory yields, given
      that the directory itself has just been recorded. */
  ghost predicate GoodChildren(rows: seq<Path>, e: Entry, relative: Path, i: nat)
    requires WellFormed(e) && e.Directory?
  {
    && Distinct(rows)
    && (forall q | q in rows :: q != relative && exists n | i <= n < |e.names| :: Within(Join(relative, e.names[n]), q))
    && (forall k | 0 <= k < |rows| :: rows[k] != [] && (Parent(rows[k]) == relative || Parent(rows[k]) in rows[..k]))
  }

  /** The snapshot walk lists every entry once, the directory before what is in
      it, whatever the tree. */
  lemma {:induction false} WalkIsTopDown(e: Entry, relative: Path)
    requires WellFormed(e)
    ensures GoodWalk(Walk(e, relative), relative)
    decreases e, 1 + if e.File? then 0 else |e.names|
  {
    if e.Directory? {
      WalkChildrenTopDown(e, relative, 0);
      DirectoryPrepend(WalkChildren(e, relative, 0), e, relative);
    }
  }

  lemma DirectoryPrepend(rest: seq<Path>, e: Entry, relative: Path)
    requires WellFormed(e) && e.Directory? && GoodChildren(rest, e, relative, 0)
    ensures GoodWalk([relative] + rest, relative)
  {
    var rows := [relative] + rest;
    forall k | 0 < k < |rows| ensures rows[k] != [] && Parent(rows[k]) in rows[..k] {
      assert rows[k] == rest[k - 1] && rows[..k] == [relative] + rest[..k - 1];
    }
    forall q | q in rest ensures Within(relative, q) {
      var n :| 0 <= n < |e.names| && Within(Join(relative, e.names[n]), q);
    }
    forall i, j | 0 <= i < j < |rows| ensures rows[i] != rows[j] {
      assert rows[j] == rest[j - 1] && rest[j - 1] in rest;
      assert i > 0 ==> rows[i] == rest[i - 1];
    }
  }

  lemma {:induction false} WalkChildrenTopDown(e: Entry, relative: Path, i: nat)
    requires WellFormed(e) && e.Directory? && i <= |e.names|
    ensures GoodChildren(WalkChildren(e, relative, i), e, relative, i)
    decreases e, |e.names| - i
  {
    if i < |e.names| {
      var child := Join(relative, e.names[i]);
      assert e.children[i] in e.children && e.names[i] in e.names;
      WalkIsTopDown(e.children[i], child);
      WalkChildrenTopDown(e, relative, i + 1);
      ParentOfJoin(relative, e.names[i]);
      ChildrenAppend(Walk(e.children[i], child), WalkChildren(e, relative, i + 1), e, relative, i);
    }
  }

  lemma ChildrenAppend(first: seq<Path>, rest: seq<Path>, e: Entry, relative: Path, i: nat)
    requires WellFormed(e) && e.Directory? && i < |e.names|
    requires first != [] && first[0] == Join(relative, e.names[i]) && GoodWalk(first, first[0])
    requires Parent(first[0]) == relative && first[0] != []
    requires GoodChildren(rest, e, relative, i + 1)
    ensures GoodChildren(first + rest, e, relative, i)
  {
    var rows := first + rest;
    var child := first[0];
    forall q | q in first ensures q != relative && Within(Join(relative, e.names[i]), q) {
      assert |child| > |relative|;
    }
    forall k | 0 <= k < |rows|
      ensures rows[k] != [] && (Parent(rows[k]) == relative || Parent(rows[k]) in rows[..k])
    {
      if k < |first| {
        assert rows[..k] == first[..k];
      } else {
        var m := k - |first|;
        assert rows[k] == rest[m] && rows[..k] == first + rest[..m];
      }
    }
    forall q | q in first && q in rest ensures false {
      var n :| i < n < |e.names| && Within(Join(relative, e.names[n]), q);
      SeparateSiblings(relative, e.names[i], e.names[n], q);
    }
    forall a, b | 0 <= a < b < |rows| ensures rows[a] != rows[b] {
      if a < |first| <= b {
        assert rows[a] in first && rows[b] == rest[b - |first|] && rows[b] in rest;
      }
    }
  }

  /** No path lies below two different siblings. */
  lemma SeparateSiblings(p: Path, m: Text, n: Text, q: Path)
    requires ValidName(m) && ValidName(n)
    requires Within(Join(p, m), q) && Within(Join(p, n), q)
    ensures m == n
  {
    var base := if p == [] then 0 else |p| + 1;
    assert Join(p, m)[base..] == m && Join(p, n)[base..] == n;
    assert q[base..base + |m|] == m && q[base..base + |n|] == n;
    NoSlashInName(q, base, m);
    NoSlashInName(q, base, n);
  }

  lemma NoSlashInName(q: Path, base: nat, name: Text)
    requires ValidName(name) && base + |name| <= |q| && q[base..base + |name|] == name
    ensures forall k | base <= k < base + |name| :: q[k] != SLASH
  {
    forall k | base <= k < base + |name| ensures q[k] != SLASH {
      assert q[k] == name[k - base] && name[k - base] in name;
    }
  }

  /** Both listings from which a bundle is copied, the fresh snapshot and the
      sealed plan, put parents first; and they list the same paths. */
  lemma CopyOrders(e: Entry)
    requires WellFormed(e)
    ensures var walked := Walk(e, []); var sealed := SortBy(LexLe, walked);
            && ParentsFirst(walked) && ParentsFirst(sealed)
            && multiset(walked) == multiset(sealed) && Distinct(sealed)
            && walked[0] == [] && ParentClosed(set p | p in walked)
  {
    var walked := Walk(e, []);
    WalkIsTopDown(e, []);
    WalkIsClosed(walked);
    var sealed := SortBy(LexLe, walked);
    LexTotalPreorder();
    SortBySorted(LexLe, walked);
    DistinctPermutation(walked, sealed);
    MultisetMember(walked, sealed);
    assert (set p | p in walked) == set p | p in sealed;
    SortedPathsParentsFirst(sealed);
  }

  lemma WalkIsClosed(walked: seq<Path>)
    requires walked != [] && walked[0] == [] && GoodWalk(walked, [])
    ensures ParentsFirst(walked) && ParentClosed(set p | p in walked)
  {
    forall k | 0 <= k < |walked| ensures ParentEarlier(walked, k) {
    }
    forall p | p in walked && p != [] ensures Parent(p) in walked {
      var k :| 0 <= k < |walked| && walked[k] == p;
      assert ParentEarlier(walked, k);
    }
  }
}
