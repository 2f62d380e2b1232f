/** A staging tree on its way from empty to a copy of a bundle. */
module StageCopy {
  import opened ArchiveProtocol
  import opened Options
  import opened Sorting
  import opened TargetVerification
  import opened TreeOrder
  import opened Trees

  /** Bytes of the first k listed files that the stage does not hold yet. */
  function Missing(stage: Option<Tree>, original: Tree, order: seq<Path>, k: nat): nat
    requires k <= |order|
  {
    if k == 0 then 0
    else
      var p := order[k - 1];
      Missing(stage, original, order, k - 1)
        + if stage.Some? && Holds(stage.value, original, p) then 0 else Size(original, p)
  }

  /** p is in the tree with the original's bytes. */
  predicate Holds(tree: Tree, original: Tree, p: Path) {
    p in tree && p in original && tree[p].content == original[p].content
  }

  lemma CopyAdvances(start: Tree, before: Tree, after: Tree, original: Tree, order: seq<Path>, k: nat)
    requires k < |order| && Distinct(order)
    requires CopiedUpTo(before, original, order, k) && KeptFrom(start, before, original, order, k)
    requires EntriesKept(before, after, order[k]) && Holds(after, original, order[k])
    ensures CopiedUpTo(after, original, order, k + 1) && KeptFrom(start, after, original, order, k + 1)
  {
    forall m | 0 <= m < |order| && m != k && Holds(before, original, order[m]) ensures Holds(after, original, order[m]) {
      assert order[m] != order[k];
    }
  }

  predicate EntriesKept(before: Tree, after: Tree, p: Path) {
    && (after.Keys == before.Keys || after.Keys == before.Keys + {p})
    && forall q | q in before && q != p :: after[q].content == before[q].content
  }

  /** The tree holds the first k listed entries with their bytes. */
  ghost predicate CopiedUpTo(tree: Tree, original: Tree, order: seq<Path>, k: nat)
    requires k <= |order|
  {
    forall m | 0 <= m < k :: Holds(tree, original, order[m])
  }

  /** Entries from the k-th on that were complete before still are. */
  ghost predicate KeptFrom(before: Tree, after: Tree, original: Tree, order: seq<Path>, k: nat)
    requires k <= |order|
  {
    forall m | k <= m < |order| && Holds(before, original, order[m]) :: Holds(after, original, order[m])
  }

  /** A directory's times after an entry was added to it. */
  function Stamp(tree: Tree, p: Path, time: int): Tree
    requires p in tree
  {
    tree[p := tree[p].(fact := tree[p].fact.(mtime := time, ctime := time))]
  }

  function WithEntry(tree: Tree, p: Path, node: Node, time: int): Tree
    requires p in tree || Parent(p) in tree
  {
    if p in tree then tree[p := node] else Stamp(tree, Parent(p), time)[p := node]
  }

  lemma EntryAdded(tree: Tree, p: Path, node: Node, time: int)
    requires IsTree(tree) && p != [] && InDirectory(tree, p)
    requires (node.fact.directory ==> node.content == []) && (p in tree ==> node.fact.directory == tree[p].fact.directory)
    ensures var after := WithEntry(tree, p, node, time);
      && IsTree(after) && RootId(after) == RootId(tree) && after.Keys == tree.Keys + {p} && after[p] == node
      && forall q | q in tree && q != p :: after[q].content == tree[q].content
           && after[q].fact.directory == tree[q].fact.directory
  {
    var after := WithEntry(tree, p, node, time);
    forall q | q in after ensures InDirectory(after, q) {
      assert q != p ==> InDirectory(tree, q);
    }
  }

  lemma StageWithEntry(stage: Tree, bundle: Bundle, original: Tree, p: Path, node: Node, time: int)
    requires IsTree(original) && Snapshot(original) == bundle.tree && Partial(stage, bundle)
    requires p in original && p != [] && Parent(p) in stage
    requires node.fact.directory == original[p].fact.directory && (node.fact.directory ==> node.content == [])
    ensures var after := WithEntry(stage, p, node, time);
      && Partial(after, bundle) && RootId(after) == RootId(stage)
      && after.Keys == stage.Keys + {p} && after[p] == node
      && forall q | q in stage && q != p :: after[q].content == stage[q].content
  {
    assert bundle.tree.Keys == original.Keys && bundle.tree[p] == original[p].fact;
    assert InDirectory(original, p) && bundle.tree[Parent(p)] == original[Parent(p)].fact;
    EntryAdded(stage, p, node, time);
  }

  lemma ParentHeld(tree: Tree, original: Tree, order: seq<Path>, k: nat)
    requires k < |order| && ParentEarlier(order, k) && order[k] != []
    requires CopiedUpTo(tree, original, order, k)
    ensures Parent(order[k]) in tree
  {
    var m :| 0 <= m < k && order[m] == Parent(order[k]);
    assert Holds(tree, original, order[m]);
  }

  lemma {:induction false} MissingGrows(stage: Option<Tree>, original: Tree, order: seq<Path>, j: nat, k: nat)
    requires j <= k <= |order|
    ensures Missing(stage, original, order, j) <= Missing(stage, original, order, k)
  {
    if j < k {
      MissingGrows(stage, original, order, j, k - 1);
    }
  }

  /** Holding at least the same finished files means missing no more. */
  lemma {:induction false} MissingShrinks(a: Option<Tree>, b: Option<Tree>, original: Tree, order: seq<Path>, k: nat)
    requires k <= |order|
    requires a.Some? ==> b.Some? && forall p | Holds(a.value, original, p) :: Holds(b.value, original, p)
    ensures Missing(b, original, order, k) <= Missing(a, original, order, k)
  {
    if k > 0 {
      MissingShrinks(a, b, original, order, k - 1);
    }
  }

  /** A staging tree that holds every listed entry is a copy with the same digests. */
  lemma CompleteStage(stage: Tree, bundle: Bundle, original: Tree)
    requires BundleValid(bundle, original) && Partial(stage, bundle)
    requires CopiedUpTo(stage, original, bundle.order, |bundle.order|)
    ensures stage.Keys == bundle.tree.Keys && Hashes(stage) == Hashes(original)
  {
    assert bundle.tree.Keys == original.Keys;
    forall p | p in original ensures Holds(stage, original, p) && stage[p].fact.directory == original[p].fact.directory {
      var m :| 0 <= m < |bundle.order| && bundle.order[m] == p;
      assert Holds(stage, original, bundle.order[m]);
      assert bundle.tree[p] == original[p].fact;
    }
  }

  lemma {:induction false} TotalGrows(original: Tree, order: seq<Path>, j: nat, k: nat)
    requires j <= k <= |order|
    ensures Total(original, order, j) <= Total(original, order, k)
  {
    if j < k {
      TotalGrows(original, order, j, k - 1);
    }
  }

  lemma {:induction false} MissingAtMostTotal(stage: Option<Tree>, original: Tree, order: seq<Path>, k: nat)
    requires k <= |order|
    ensures Missing(stage, original, order, k) <= Total(original, order, k)
  {
    if k > 0 {
      MissingAtMostTotal(stage, original, order, k - 1);
    }
  }

  // ---------- bytes a stage takes ----------

  lemma {:induction false} TotalWithEntry(before: Tree, after: Tree, order: seq<Path>, p: Path, k: nat)
    requires k <= |order| && Distinct(order) && EntriesKept(before, after, p)
    ensures Total(after, order, k) == Total(before, order, k)
      + if p in order[..k] then Size(after, p) - Size(before, p) else 0
  {
    if k > 0 {
      TotalWithEntry(before, after, order, p, k - 1);
      assert order[..k] == order[..k - 1] + [order[k - 1]];
      if order[k - 1] == p {
        assert forall m | 0 <= m < k - 1 :: order[m] != order[k - 1];
      }
    }
  }

  /** One entry more or another content of it: the stage grows by the difference. */
  lemma EntryTakes(before: Tree, after: Tree, order: seq<Path>, p: Path)
    requires Distinct(order) && p in order && EntriesKept(before, after, p)
    ensures Total(after, order, |order|) == Total(before, order, |order|) + Size(after, p) - Size(before, p)
  {
    assert order[..|order|] == order;
    TotalWithEntry(before, after, order, p, |order|);
  }

  /** Trees that hold the same listed bytes take the same space. */
  lemma {:induction false} SameTotal(tree: Tree, original: Tree, order: seq<Path>, k: nat)
    requires k <= |order| && forall m | 0 <= m < k :: Size(tree, order[m]) == Size(original, order[m])
    ensures Total(tree, order, k) == Total(original, order, k)
  {
    if k > 0 {
      SameTotal(tree, original, order, k - 1);
    }
  }

  lemma {:induction false} EmptyTotal(tree: Tree, order: seq<Path>, k: nat)
    requires k <= |order| && forall p | p in tree :: tree[p].content == []
    ensures Total(tree, order, k) == 0
  {
    if k > 0 {
      EmptyTotal(tree, order, k - 1);
    }
  }
}
