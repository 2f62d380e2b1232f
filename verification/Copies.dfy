/** The copies of the bundles, staged or archived, and the set of inventories that a
    process has verified (scripts/archive-production-offsite-backups.py, verify_target). */
module Copies {
  import opened ArchiveProtocol
  import opened Options
  import opened TargetVerification
  import opened TreeOrder
  import opened Trees

  function CopyTree(s: Slot): Option<Tree> {
    if s.target.Some? then s.target else s.stage
  }

  /** The copy's inventory as the set of verified ones holds it. */
  function CopyKey(s: Slot): Inventory
    requires CopyTree(s).Some?
  {
    UpToRootTime(Snapshot(CopyTree(s).value))
  }

  /** Inodes that are in use for the roots of copies. */
  function Roots(d: Disk): set<Identity> {
    set i | 0 <= i < |d.slots| && CopyTree(d.slots[i]).Some? :: RootId(CopyTree(d.slots[i]).value)
  }

  ghost predicate RootsApart(d: Disk) {
    forall i, j | 0 <= i < j < |d.slots| :: ApartAt(d, i, j)
  }

  predicate ApartAt(d: Disk, i: nat, j: nat)
    requires i < |d.slots| && j < |d.slots|
  {
    CopyTree(d.slots[i]).Some? && CopyTree(d.slots[j]).Some? ==>
      RootId(CopyTree(d.slots[i]).value) != RootId(CopyTree(d.slots[j]).value)
  }

  /** Bundle i has been copied and its inventory is in the set. */
  predicate InCache(d: Disk, cache: set<Inventory>, i: nat) {
    && i < |d.slots| && Rank(d.slots[i].record.state) >= Rank(Copied)
    && CopyTree(d.slots[i]).Some? && CopyKey(d.slots[i]) in cache
  }

  ghost predicate FromBundle(d: Disk, verified: set<nat>, key: Inventory) {
    exists i | i in verified :: i < |d.slots| && CopyTree(d.slots[i]).Some? && CopyKey(d.slots[i]) == key
  }

  /** The set holds exactly the inventories of the bundles verified by this process. */
  ghost predicate CacheMatches(d: Disk, cache: set<Inventory>, verified: set<nat>) {
    && (forall i | i in verified :: InCache(d, cache, i))
    && (forall key {:trigger FromBundle(d, verified, key)} | key in cache :: FromBundle(d, verified, key))
  }

  /** Because different copies have different root inodes, what is found in the set was
      put there for this very bundle. */
  lemma KnownMeansVerified(d: Disk, cache: set<Inventory>, verified: set<nat>, i: nat)
    requires RootsApart(d) && CacheMatches(d, cache, verified)
    requires i < |d.slots| && CopyTree(d.slots[i]).Some? && IsTree(CopyTree(d.slots[i]).value)
    ensures CopyKey(d.slots[i]) in cache <==> i in verified
  {
    var key := CopyKey(d.slots[i]);
    if key in cache {
      assert FromBundle(d, verified, key);
      var j: nat :| j in verified && j < |d.slots| && CopyTree(d.slots[j]).Some? && CopyKey(d.slots[j]) == key;
      assert key[[]].id == RootId(CopyTree(d.slots[i]).value);
      assert key[[]].id == RootId(CopyTree(d.slots[j]).value);
      assert i < j ==> ApartAt(d, i, j);
      assert j < i ==> ApartAt(d, j, i);
    }
    if i in verified {
      assert InCache(d, cache, i);
    }
  }

  lemma CacheGrows(d: Disk, cache: set<Inventory>, verified: set<nat>, i: nat)
    requires CacheMatches(d, cache, verified) && i < |d.slots| && CopyTree(d.slots[i]).Some?
    requires Rank(d.slots[i].record.state) >= Rank(Copied)
    ensures CacheMatches(d, cache + {CopyKey(d.slots[i])}, verified + {i})
  {
    var key := CopyKey(d.slots[i]);
    forall j | j in verified + {i} ensures InCache(d, cache + {key}, j) {
      assert j in verified ==> InCache(d, cache, j);
    }
    forall k | k in cache + {key} ensures FromBundle(d, verified + {i}, k) {
      if k in cache {
        assert FromBundle(d, verified, k);
        var j: nat :| j in verified && j < |d.slots| && CopyTree(d.slots[j]).Some? && CopyKey(d.slots[j]) == k;
        assert j in verified + {i};
      } else {
        assert i in verified + {i};
      }
    }
  }

  // ---------- steps of the script ----------

  /** The copy of a slot stays where and what it is, up to its root's ctime. */
  predicate CopyStays(s: Slot, s': Slot) {
    && (CopyTree(s).Some? ==> CopyTree(s').Some? && RootId(CopyTree(s').value) == RootId(CopyTree(s).value))
    && (Rank(s.record.state) >= Rank(Copied) ==>
          && CopyTree(s).Some? && CopyTree(s').Some? && CopyKey(s') == CopyKey(s)
          && Rank(s'.record.state) >= Rank(Copied))
  }

  lemma PrepareKeepsCopy(bundle: Bundle, original: Tree, s: Slot, s': Slot)
    requires SlotInv(bundle, original, s) && PrepareStep(bundle, s, s')
    ensures CopyStays(s, s')
  {
    if Publish(s, s') {
      TouchedFacts(s.stage.value, s'.target.value[[]].fact.ctime);
    }
  }

  lemma RetireKeepsCopy(bundle: Bundle, original: Tree, s: Slot, s': Slot)
    requires SlotInv(bundle, original, s) && RetireStep(bundle, s, s')
    ensures CopyStays(s, s') && s'.target == s.target && s'.stage == s.stage
    ensures TargetMatches(s) ==> TargetMatches(s')
  {
  }

  /** What one slot's step leaves of the set and of the inodes, if a new directory does
      not share its inode with another copy. */
  lemma CacheKept(d: Disk, d': Disk, cache: set<Inventory>, verified: set<nat>, i: nat)
    requires RootsApart(d) && CacheMatches(d, cache, verified)
    requires i < |d.slots| == |d'.slots| && d'.slots == d.slots[i := d'.slots[i]] && CopyStays(d.slots[i], d'.slots[i])
    requires CopyTree(d.slots[i]).None? && CopyTree(d'.slots[i]).Some? ==> RootId(CopyTree(d'.slots[i]).value) !in Roots(d)
    ensures RootsApart(d') && CacheMatches(d', cache, verified)
  {
    forall a, b | 0 <= a < b < |d'.slots| ensures ApartAt(d', a, b) {
      assert ApartAt(d, a, b);
      assert CopyTree(d.slots[a]).Some? ==> RootId(CopyTree(d.slots[a]).value) in Roots(d);
      assert CopyTree(d.slots[b]).Some? ==> RootId(CopyTree(d.slots[b]).value) in Roots(d);
    }
    SameKeys(d, d', cache, verified);
  }

  lemma SameKeys(d: Disk, d': Disk, cache: set<Inventory>, verified: set<nat>)
    requires CacheMatches(d, cache, verified) && |d'.slots| == |d.slots|
    requires forall i | 0 <= i < |d.slots| :: d'.slots[i] == d.slots[i] || CopyStays(d.slots[i], d'.slots[i])
    ensures CacheMatches(d', cache, verified)
  {
    forall j | j in verified ensures InCache(d', cache, j) {
      assert InCache(d, cache, j);
    }
    forall key | key in cache ensures FromBundle(d', verified, key) {
      assert FromBundle(d, verified, key);
      var j: nat :| j in verified && j < |d.slots| && CopyTree(d.slots[j]).Some? && CopyKey(d.slots[j]) == key;
      assert InCache(d, cache, j);
      assert CopyKey(d'.slots[j]) == key;
    }
  }

  /** The same trees, and no bundle back to PLANNED. */
  lemma CacheKeptInPlace(d: Disk, d': Disk, cache: set<Inventory>, verified: set<nat>)
    requires RootsApart(d) && CacheMatches(d, cache, verified) && |d'.slots| == |d.slots|
    requires forall i | 0 <= i < |d.slots| ::
      d'.slots[i].stage == d.slots[i].stage && d'.slots[i].target == d.slots[i].target
      && d'.slots[i].record.state == d.slots[i].record.state
    ensures RootsApart(d') && CacheMatches(d', cache, verified)
  {
    forall a, b | 0 <= a < b < |d'.slots| ensures ApartAt(d', a, b) {
      assert ApartAt(d, a, b);
    }
    forall j | j in verified ensures InCache(d', cache, j) {
      assert InCache(d, cache, j);
    }
    forall key | key in cache ensures FromBundle(d', verified, key) {
      assert FromBundle(d, verified, key);
      var j: nat :| j in verified && j < |d.slots| && CopyTree(d.slots[j]).Some? && CopyKey(d.slots[j]) == key;
      assert CopyKey(d'.slots[j]) == key;
    }
  }

  // ---------- verifying the copy of a slot ----------

  /** Copies designate the same database as the original, of the same size. */
  lemma SameDatabase(tree: Tree, original: Tree, verifier: Verifier)
    requires CopyOf(tree, original)
    ensures Database(tree, verifier) == Database(original, verifier)
    ensures Scratch(tree, verifier) == Scratch(original, verifier)
  {
  }

  /** What the check of a copy in hand comes to: the verifier has to accept the original
      bytes, and there has to be room for the scratch copy unless the inventory is the
      recorded one and was verified before. */
  lemma VerdictOnCopy(tree: Tree, source: Tree, bundle: Bundle, original: Tree, record: Record, verifier: Verifier,
                      cache: set<Inventory>, room: int)
    requires CopyOf(tree, original) && record.hashes == Hashes(original)
    requires bundle.companions == Companions(original, verifier)
    requires Snapshot(original) == bundle.tree
    requires SameButTimes(Snapshot(tree), record.targetTree, bundle.companions)
    requires Snapshot(tree) == record.targetTree || ((record.state.Copied? || record.state.Verified?) && source == original)
    requires UpToRootTime(Snapshot(tree)) in cache ==> verifier.genuine(Hashes(original), bundle)
    ensures var verdict := VerifyTarget(tree, source, bundle, record, verifier, cache, room);
      var seen := Snapshot(tree) == record.targetTree && UpToRootTime(Snapshot(tree)) in cache;
      && (verdict.Accept? <==> verifier.genuine(Hashes(original), bundle) && (seen || Fits(original, verifier, room)))
      && (verdict.Accept? ==>
            && verdict.cache == cache + {UpToRootTime(Snapshot(tree))}
            && verdict.record == record.(targetTree := Snapshot(tree), reconciliations := verdict.record.reconciliations)
            && record.reconciliations <= verdict.record.reconciliations
            && (Snapshot(tree) == record.targetTree ==> verdict.record == record))
      && (verdict.Reject? ==> verdict.why == if Fits(original, verifier, room) then TargetReceiptInvalid else DataReserveInsufficient)
  {
    CopyHasHashes(tree, original);
    SameDatabase(tree, original, verifier);
    var now := Snapshot(tree);
    if now != record.targetTree {
      assert bundle.companions != {} by {
        var p :| p in now && now[p] != record.targetTree[p];
        assert p in bundle.companions;
      }
      assert CompanionsOnly(now, record.targetTree, Database(tree, verifier).value);
    }
  }

  /** What the invariant says of a copy that is recorded. */
  lemma CopyIsWhole(bundle: Bundle, original: Tree, s: Slot)
    requires BundleValid(bundle, original) && SlotInv(bundle, original, s) && Rank(s.record.state) >= Rank(Copied)
    ensures CopyTree(s).Some? && IsTree(CopyTree(s).value) && CopyOf(CopyTree(s).value, original)
    ensures s.record.hashes == Hashes(original)
    ensures Rank(s.record.state) <= Rank(Verified) ==> s.source == Some(original)
    ensures Rank(s.record.state) >= Rank(Verified) ==> Records(s.record.targetTree, CopyTree(s).value, bundle.companions)
    ensures Rank(s.record.state) > Rank(Verified) ==> Snapshot(CopyTree(s).value) == s.record.targetTree
    ensures s.record.state.Copied? && s.target.None? ==> Records(s.record.targetTree, s.stage.value, bundle.companions)
    ensures s.record.state.Copied? && s.target.Some? ==> RecordsMoved(s.record.targetTree, s.target.value, bundle.companions)
  {
    if Rank(s.record.state) >= Rank(Verified) {
      SlotPreserved(bundle, original, s);
    }
  }

  /** The recorded inventory with the root's present ctime records a published copy. */
  lemma WithRootTime(inventory: Inventory, tree: Tree, companions: set<Path>)
    requires [] in inventory && [] in tree && [] !in companions && RecordsMoved(inventory, tree, companions)
    ensures Records(inventory[[] := inventory[[]].(ctime := tree[[]].fact.ctime)], tree, companions)
  {
    var now, before := UpToRootTime(Snapshot(tree)), UpToRootTime(inventory);
    assert now.Keys == tree.Keys && before.Keys == inventory.Keys;
    assert now[[]] == before[[]];
    var taken := inventory[[] := inventory[[]].(ctime := tree[[]].fact.ctime)];
    forall p | p in tree ensures p != [] ==> now[p] == Snapshot(tree)[p] && before[p] == taken[p] {
      assert p in inventory;
    }
  }
}
