/** Removing a retired tree entry by entry (scripts/archive-production-offsite-backups.py,
    check_subset, purge). */
module PurgeWalk {
  import opened ArchiveProtocol
  import opened Options
  import opened Sorting
  import opened StageCopy
  import opened TargetVerification
  import opened Texts
  import opened TreeOrder
  import opened Trees

  /** What check_subset accepts. */
  predicate SubsetOf(tree: Tree, retired: Inventory, hashes: map<Path, Bytes>) {
    && tree.Keys <= retired.Keys
    && (forall p | p in tree ::
          if tree[p].fact.directory then SameDirectory(tree[p].fact, retired[p]) else tree[p].fact == retired[p])
    && Hashes(tree) == map p | p in hashes && p in tree :: hashes[p]
  }

  lemma RemnantIsSubset(tree: Tree, retired: Inventory, original: Tree)
    requires IsTree(original) && Remnant(tree, retired, original)
    ensures SubsetOf(tree, retired, Hashes(original))
  {
  }

  /** The tree without one entry; its parent's times change. */
  function Without(tree: Tree, p: Path, time: int): Option<Tree> {
    if p == [] then None
    else
      var left := tree - {p};
      Some(if Parent(p) in left then Stamp(left, Parent(p), time) else left)
  }

  lemma WithoutRemoves(tree: Tree, p: Path, time: int)
    requires IsTree(tree) && p in tree && forall q | q in tree && q != [] :: Parent(q) != p
    ensures Removes(tree, Without(tree, p, time), p)
  {
    if p != [] {
      assert InDirectory(tree, p);
    }
  }

  /** The slot after one entry of its retirement directory was removed. */
  function RemovedSlot(s: Slot, p: Path, time: int): Slot
    requires s.retiring.Some?
  {
    s.(retiring := Without(s.retiring.value, p, time))
  }

  /** Only p is gone, and everything else is still the same inode. */
  ghost predicate OneLess(tree: Tree, left: Option<Tree>, p: Path) {
    left.Some? == (p != []) && (left.Some? ==>
      left.value.Keys == tree.Keys - {p} && forall q | q in left.value :: left.value[q].fact.id == tree[q].fact.id)
  }

  lemma RemovedSlotStep(bundle: Bundle, original: Tree, s: Slot, p: Path, time: int)
    requires BundleValid(bundle, original) && SlotInv(bundle, original, s) && s.record.state.PurgeIntent?
    requires s.retiring.Some? && p in s.retiring.value
    requires forall q | q in s.retiring.value && q != [] :: Parent(q) != p
    ensures RetireStep(bundle, s, RemovedSlot(s, p, time))
    ensures OneLess(s.retiring.value, RemovedSlot(s, p, time).retiring, p)
  {
    SlotPreserved(bundle, original, s);
    WithoutRemoves(s.retiring.value, p, time);
    assert RemoveEntry(s, RemovedSlot(s, p, time));
  }

  /** Nothing that is left when the k-th entry's turn comes lies in it. */
  lemma NextIsEmpty(order: seq<Path>, k: nat)
    requires k < |order| && forall q | q in order[k + 1..] && q != [] :: Parent(q) != order[k]
    ensures forall q | q in order[k..] && q != [] :: Parent(q) != order[k]
  {
    assert order[k..] == [order[k]] + order[k + 1..];
  }

  ghost predicate KeysFrom(tree: Tree, order: seq<Path>, k: nat)
    requires k <= |order|
  {
    forall p :: p in tree <==> p in order[k..]
  }

  lemma KeysNext(tree: Tree, left: Tree, order: seq<Path>, k: nat)
    requires k < |order| && Distinct(order) && KeysFrom(tree, order, k)
    requires left.Keys == tree.Keys - {order[k]}
    ensures KeysFrom(left, order, k + 1)
  {
    assert order[k..] == [order[k]] + order[k + 1..];
    forall p ensures p in left <==> p in order[k + 1..] {
      assert p in left <==> p in tree && p != order[k];
    }
  }

  method ListPaths(keys: set<Path>) returns (paths: seq<Path>)
    ensures Distinct(paths) && forall p :: p in paths <==> p in keys
  {
    var rest := keys;
    paths := [];
    while rest != {}
      invariant Distinct(paths) && rest <= keys
      invariant forall p :: p in paths <==> p in keys && p !in rest
    {
      var p :| p in rest;
      rest := rest - {p};
      paths := paths + [p];
    }
  }

  lemma TreeIsClosed(tree: Tree, paths: seq<Path>)
    requires IsTree(tree) && forall p :: p in paths <==> p in tree
    ensures ParentClosed(set p | p in paths) && [] in paths
  {
    forall p | p in paths && p != [] ensures Parent(p) in paths {
      assert InDirectory(tree, p);
    }
  }
}
