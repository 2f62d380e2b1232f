/** Deciding that an archived copy is still the one that was verified
    (scripts/archive-production-offsite-backups.py, verify_target). */
module TargetVerification {
  import opened Options
  import opened Texts
  import opened TreeOrder
  import opened Trees

  /** One selected bundle of the sealed plan: its receipt time, what a snapshot of
      it recorded, the paths in the order the plan lists them, and the SQLite
      companions that its manifest designates. */
  datatype Bundle = Bundle(name: Text, copied: real, tree: Inventory, order: seq<Path>, logical: nat,
                           companions: set<Path>)

  datatype State = Planned | Copied | Verified | RetireIntent | Renamed | PurgeIntent | Retired

  datatype Change = Change(path: Path, before: Fact, after: Fact)

  /** The journal's record of one bundle. */
  datatype Record = Record(
    state: State,
    stageIntent: bool,
    stageId: Option<Identity>,
    hashes: map<Path, Bytes>,
    targetTree: Inventory,
    reconciliations: seq<Change>,
    retirementTree: Inventory)

  /** The pinned verifier together with the receipt comparison, and the database
      path that a manifest designates if it has the expected shape. */
  datatype Verifier = Verifier(genuine: (map<Path, Bytes>, Bundle) -> bool, database: Bytes -> Option<Path>)

  const RELEASE: Path := Ascii("release.json")
  const WAL: Text := Ascii("-wal")
  const SHM: Text := Ascii("-shm")
  const ROLLBACK: Text := Ascii("-journal")

  datatype Verdict = Accept(record: Record, cache: set<Inventory>) | Reject(why: Failure)

  predicate OnlyTimesDiffer(a: Fact, b: Fact) {
    a.(mtime := b.mtime, ctime := b.ctime) == b
  }

  function Database(tree: Tree, verifier: Verifier): Option<Path> {
    if RELEASE in tree && !tree[RELEASE].fact.directory then verifier.database(tree[RELEASE].content) else None
  }

  function Companions(tree: Tree, verifier: Verifier): set<Path> {
    match Database(tree, verifier)
    case None => {}
    case Some(database) => {database + WAL, database + SHM}
  }

  /** The same paths and facts, except that files among the companions may have other
      times. */
  predicate SameButTimes(now: Inventory, previous: Inventory, companions: set<Path>) {
    && now.Keys == previous.Keys
    && forall path | path in now && now[path] != previous[path] ::
         path in companions && !now[path].directory && OnlyTimesDiffer(now[path], previous[path])
  }

  lemma SameButTimesJoin(a: Inventory, b: Inventory, c: Inventory, companions: set<Path>)
    requires SameButTimes(a, b, companions) && SameButTimes(b, c, companions)
    ensures SameButTimes(a, c, companions) && SameButTimes(b, a, companions)
  {
  }

  function FileSize(tree: Tree, path: Path): nat {
    if path in tree then |tree[path].content| else 0
  }

  /** Bytes of the private copy on which the database check works: the database and
      whatever companions of the SQLite engine are there. */
  function Scratch(tree: Tree, verifier: Verifier): nat {
    match Database(tree, verifier)
    case None => 0
    case Some(database) =>
      FileSize(tree, database) + FileSize(tree, database + WAL) + FileSize(tree, database + SHM)
        + FileSize(tree, database + ROLLBACK)
  }

  predicate Differs(now: Inventory, previous: Inventory, path: Path) {
    path in now && path in previous && now[path] != previous[path]
  }

  function ChangeAt(now: Inventory, previous: Inventory, path: Path): seq<Change> {
    if Differs(now, previous, path) then [Change(path, previous[path], now[path])] else []
  }

  /** In snapshot order: the names of a directory are walked sorted. */
  function Changes(now: Inventory, previous: Inventory, database: Path): seq<Change> {
    ChangeAt(now, previous, database + SHM) + ChangeAt(now, previous, database + WAL)
  }

  predicate CompanionsOnly(now: Inventory, previous: Inventory, database: Path) {
    forall path | path in now && path in previous && now[path] != previous[path] ::
      (path == database + WAL || path == database + SHM) && !now[path].directory
      && OnlyTimesDiffer(now[path], previous[path])
  }

  /** The source is untouched, so the copy's bytes can be proved again from it. */
  predicate SourceIntact(source: Tree, bundle: Bundle, record: Record) {
    Snapshot(source) == bundle.tree && Hashes(source) == record.hashes
  }

  predicate Reconcilable(tree: Tree, source: Tree, bundle: Bundle, record: Record, verifier: Verifier) {
    && (record.state.Copied? || record.state.Verified?)
    && tree.Keys == record.targetTree.Keys
    && Database(tree, verifier).Some?
    && CompanionsOnly(Snapshot(tree), record.targetTree, Database(tree, verifier).value)
    && SourceIntact(source, bundle, record)
  }

  /** verify_target with the set of inventories verified by this process, and with so
      much room above the reserve for the scratch copy of the database. */
  function VerifyTarget(tree: Tree, source: Tree, bundle: Bundle, record: Record, verifier: Verifier,
                        cache: set<Inventory>, room: int): Verdict
  {
    var now := Snapshot(tree);
    var reconciled := now != record.targetTree;
    if reconciled && !((record.state.Copied? || record.state.Verified?) && now.Keys == record.targetTree.Keys) then
      Reject(SourceDrift)
    else if reconciled && Database(tree, verifier).None? then
      Reject(TargetReceiptInvalid)
    else if reconciled && !(CompanionsOnly(now, record.targetTree, Database(tree, verifier).value)
                            && SourceIntact(source, bundle, record)) then
      Reject(SourceDrift)
    else if !reconciled && UpToRootTime(now) in cache then
      Accept(record, cache)
    else if Hashes(tree) != record.hashes then
      Reject(TargetContentMismatch)
    else if Database(tree, verifier).Some? && Scratch(tree, verifier) > room then
      Reject(DataReserveInsufficient)
    else if !verifier.genuine(Hashes(tree), bundle) then
      Reject(TargetReceiptInvalid)
    else if reconciled then
      Accept(record.(targetTree := now,
                     reconciliations := record.reconciliations
                       + Changes(now, record.targetTree, Database(tree, verifier).value)),
             cache + {UpToRootTime(now)})
    else
      Accept(record, cache + {UpToRootTime(now)})
  }

  predicate Fits(tree: Tree, verifier: Verifier, room: int) {
    Database(tree, verifier).Some? ==> Scratch(tree, verifier) <= room
  }

  /** Acceptance without any reuse means: the bytes are the recorded ones, there is
      room to check the database, the verifier agrees, and the inventory is the
      recorded one or reconcilable. */
  lemma FullVerification(tree: Tree, source: Tree, bundle: Bundle, record: Record, verifier: Verifier, room: int)
    ensures VerifyTarget(tree, source, bundle, record, verifier, {}, room).Accept? <==>
      && Hashes(tree) == record.hashes && Fits(tree, verifier, room) && verifier.genuine(Hashes(tree), bundle)
      && (Snapshot(tree) == record.targetTree || Reconcilable(tree, source, bundle, record, verifier))
  {
    assert Snapshot(tree).Keys == tree.Keys;
  }

  /** Reconciliation rewrites recorded times of the two SQLite companions and
      nothing else, and logs enough to undo it. */
  lemma ReconciliationIsNarrow(tree: Tree, source: Tree, bundle: Bundle, record: Record, verifier: Verifier,
                               cache: set<Inventory>, room: int)
    requires VerifyTarget(tree, source, bundle, record, verifier, cache, room).Accept?
    ensures var after := VerifyTarget(tree, source, bundle, record, verifier, cache, room).record;
      && after == record.(targetTree := after.targetTree, reconciliations := after.reconciliations)
      && after.targetTree == Snapshot(tree)
      && SameButTimes(after.targetTree, record.targetTree, Companions(tree, verifier))
      && record.reconciliations <= after.reconciliations
      && Undo(after.targetTree, after.reconciliations[|record.reconciliations|..]) == record.targetTree
  {
    var after := VerifyTarget(tree, source, bundle, record, verifier, cache, room).record;
    var now, previous := Snapshot(tree), record.targetTree;
    if now == previous {
      assert after.reconciliations[|record.reconciliations|..] == [];
    } else {
      var database := Database(tree, verifier).value;
      assert after.reconciliations[|record.reconciliations|..] == Changes(now, previous, database);
      UndoChanges(now, previous, database);
    }
  }

  function Undo(now: Inventory, changes: seq<Change>): Inventory {
    if changes == [] then now else Undo(now, changes[1..])[changes[0].path := changes[0].before]
  }

  lemma UndoChanges(now: Inventory, previous: Inventory, database: Path)
    requires now.Keys == previous.Keys && CompanionsOnly(now, previous, database)
    ensures Undo(now, Changes(now, previous, database)) == previous
  {
    var shm, wal := ChangeAt(now, previous, database + SHM), ChangeAt(now, previous, database + WAL);
    assert Undo(now, wal) == if wal == [] then now else now[database + WAL := previous[database + WAL]] by {
      if wal != [] { assert wal[1..] == []; }
    }
    if shm == [] {
      assert shm + wal == wal;
    } else {
      assert (shm + wal)[1..] == wal;
    }
    SuffixesDiffer(database);
  }

  lemma SuffixesDiffer(database: Path)
    ensures database + WAL != database + SHM
  {
    assert (database + WAL)[|database| + 1] == 'w' as nat;
    assert (database + SHM)[|database| + 1] == 's' as nat;
  }

  // ---------- reuse within one process ----------

  /** One call of verify_target during a process. */
  datatype Call = Call(index: nat, tree: Tree, source: Tree, record: Record, room: int)

  function CacheAfter(calls: seq<Call>, bundles: seq<Bundle>, verifier: Verifier, k: nat): set<Inventory>
    requires k <= |calls| && forall c | c in calls :: c.index < |bundles|
  {
    if k == 0 then {}
    else
      var c := calls[k - 1];
      var cache := CacheAfter(calls, bundles, verifier, k - 1);
      var verdict := VerifyTarget(c.tree, c.source, bundles[c.index], c.record, verifier, cache, c.room);
      if verdict.Accept? then verdict.cache else cache
  }

  function RootOf(inventory: Inventory): Option<Identity> {
    if [] in inventory then Some(inventory[[]].id) else None
  }

  /** What makes reuse sound: copies of different bundles have different root inodes, a
      bundle's recorded digests do not change, and equal facts mean equal bytes. */
  ghost predicate ContentPinned(calls: seq<Call>) {
    && (forall a, b | a in calls && b in calls && RootOf(Snapshot(a.tree)) == RootOf(Snapshot(b.tree)) :: a.index == b.index)
    && (forall a, b | a in calls && b in calls && a.index == b.index :: a.record.hashes == b.record.hashes)
    && (forall a, b | a in calls && b in calls && UpToRootTime(Snapshot(a.tree)) == UpToRootTime(Snapshot(b.tree)) ::
          Hashes(a.tree) == Hashes(b.tree))
  }

  lemma SameKeySameBundle(calls: seq<Call>, a: Call, b: Call)
    requires ContentPinned(calls) && a in calls && b in calls
    requires UpToRootTime(Snapshot(a.tree)) == UpToRootTime(Snapshot(b.tree))
    ensures Hashes(a.tree) == Hashes(b.tree) && a.index == b.index && a.record.hashes == b.record.hashes
  {
    assert RootOf(UpToRootTime(Snapshot(a.tree))) == RootOf(Snapshot(a.tree));
    assert RootOf(UpToRootTime(Snapshot(b.tree))) == RootOf(Snapshot(b.tree));
  }

  ghost predicate VerifiedEarlier(calls: seq<Call>, bundles: seq<Bundle>, verifier: Verifier, k: nat, key: Inventory)
    requires k <= |calls| && forall c | c in calls :: c.index < |bundles|
  {
    exists j | 0 <= j < k ::
      && UpToRootTime(Snapshot(calls[j].tree)) == key && Hashes(calls[j].tree) == calls[j].record.hashes
      && verifier.genuine(Hashes(calls[j].tree), bundles[calls[j].index])
  }

  lemma {:induction false} CachedMeansVerified(calls: seq<Call>, bundles: seq<Bundle>, verifier: Verifier, k: nat,
                                               key: Inventory)
    requires k <= |calls| && forall c | c in calls :: c.index < |bundles|
    requires ContentPinned(calls)
    requires key in CacheAfter(calls, bundles, verifier, k)
    ensures VerifiedEarlier(calls, bundles, verifier, k, key)
  {
    var c := calls[k - 1];
    if key in CacheAfter(calls, bundles, verifier, k - 1) {
      CachedMeansVerified(calls, bundles, verifier, k - 1, key);
      var j :| 0 <= j < k - 1
        && UpToRootTime(Snapshot(calls[j].tree)) == key && Hashes(calls[j].tree) == calls[j].record.hashes
        && verifier.genuine(Hashes(calls[j].tree), bundles[calls[j].index]);
    } else {
      assert UpToRootTime(Snapshot(c.tree)) == key;
    }
  }

  /** Every call of every process gives the verdict and the record that the full
      verification would give; only what has been verified before needs no room. */
  lemma ReuseRefinesFullVerification(calls: seq<Call>, bundles: seq<Bundle>, verifier: Verifier, k: nat)
    requires k < |calls| && forall c | c in calls :: c.index < |bundles|
    requires ContentPinned(calls)
    ensures var c := calls[k];
      var cache := CacheAfter(calls, bundles, verifier, k);
      var seen := Snapshot(c.tree) == c.record.targetTree && UpToRootTime(Snapshot(c.tree)) in cache;
      var room := if seen then Scratch(c.tree, verifier) else c.room;
      var cached := VerifyTarget(c.tree, c.source, bundles[c.index], c.record, verifier, cache, c.room);
      var full := VerifyTarget(c.tree, c.source, bundles[c.index], c.record, verifier, {}, room);
      && (cached.Accept? <==> full.Accept?)
      && (cached.Accept? ==> cached.record == full.record)
      && (cached.Reject? ==> cached == full)
  {
    var c := calls[k];
    var key := UpToRootTime(Snapshot(c.tree));
    if key in CacheAfter(calls, bundles, verifier, k) {
      CachedMeansVerified(calls, bundles, verifier, k, key);
      CachedContent(calls, bundles, verifier, k);
    }
  }

  lemma CachedContent(calls: seq<Call>, bundles: seq<Bundle>, verifier: Verifier, k: nat)
    requires k < |calls| && forall c | c in calls :: c.index < |bundles|
    requires ContentPinned(calls)
    requires VerifiedEarlier(calls, bundles, verifier, k, UpToRootTime(Snapshot(calls[k].tree)))
    ensures Hashes(calls[k].tree) == calls[k].record.hashes
    ensures verifier.genuine(Hashes(calls[k].tree), bundles[calls[k].index])
  {
    var c := calls[k];
    var j :| 0 <= j < k
      && UpToRootTime(Snapshot(calls[j].tree)) == UpToRootTime(Snapshot(c.tree))
      && Hashes(calls[j].tree) == calls[j].record.hashes
      && verifier.genuine(Hashes(calls[j].tree), bundles[calls[j].index]);
    SameKeySameBundle(calls, calls[j], c);
  }
}
