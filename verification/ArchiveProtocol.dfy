/** The crash-resumable relocation protocol as a transition system over what is on
    disk (scripts/archive-production-offsite-backups.py, apply).

    Every write the script makes durable is one step here. A killed process is a run
    that simply stops; a resumed one continues it from the same disk, so a property
    of all runs covers every crash point and every number of resumptions. */
module ArchiveProtocol {
  import opened Options
  import opened Retention
  import opened Sorting
  import opened TargetVerification
  import opened Texts
  import opened TreeOrder
  import opened Trees

  /** The sealed plan, with the bytes the selected bundles had when it was made. */
  datatype Plan = Plan(bundles: seq<Bundle>, originals: seq<Tree>)

  /** Everything on disk that belongs to one selected bundle: its journal record,
      the tree under its name in the backup directory, its retirement directory,
      its staging directory, and its directory in the archive. */
  datatype Slot = Slot(record: Record, source: Option<Tree>, retiring: Option<Tree>,
                       stage: Option<Tree>, target: Option<Tree>)

  /** index: the recovery index is written. others: the unrelated children of the
      backup directory, as the catalog lists them. */
  datatype Disk = Disk(slots: seq<Slot>, others: seq<Row>, index: bool, failure: Option<Failure>)

  function Rank(state: State): nat {
    match state
    case Planned => 0
    case Copied => 1
    case Verified => 2
    case RetireIntent => 3
    case Renamed => 4
    case PurgeIntent => 5
    case Retired => 6
  }

  predicate IsTree(tree: Tree) {
    && [] in tree && tree[[]].fact.directory
    && (forall p | p in tree :: tree[p].fact.directory ==> tree[p].content == [])
    && forall p {:trigger InDirectory(tree, p)} | p in tree :: InDirectory(tree, p)
  }

  predicate InDirectory(tree: Tree, p: Path) {
    p == [] || (Parent(p) in tree && tree[Parent(p)].fact.directory)
  }

  ghost predicate PlanValid(plan: Plan) {
    && |plan.bundles| == |plan.originals|
    && (forall i {:trigger BundleOk(plan, i)} | 0 <= i < |plan.bundles| :: BundleOk(plan, i))
    && forall i, j | 0 <= i < j < |plan.bundles| :: plan.bundles[i].name != plan.bundles[j].name
  }

  ghost predicate BundleOk(plan: Plan, i: nat)
    requires |plan.bundles| == |plan.originals| && i < |plan.bundles|
  {
    BundleValid(plan.bundles[i], plan.originals[i])
  }

  /** Directory entries have different names. */
  predicate NamesApart(plan: Plan, others: seq<Row>) {
    && (forall i, j | 0 <= i < j < |others| :: others[i].name != others[j].name)
    && forall i, j | 0 <= i < |others| && 0 <= j < |plan.bundles| :: others[i].name != plan.bundles[j].name
  }

  function Size(tree: Tree, p: Path): nat {
    if p in tree then |tree[p].content| else 0
  }

  /** Bytes of the first k listed files. */
  function Total(original: Tree, order: seq<Path>, k: nat): nat
    requires k <= |order|
  {
    if k == 0 then 0 else Total(original, order, k - 1) + Size(original, order[k - 1])
  }

  ghost predicate BundleValid(bundle: Bundle, original: Tree) {
    && IsTree(original)
    && Snapshot(original) == bundle.tree
    && (forall p | p in original && !original[p].fact.directory :: |original[p].content| == original[p].fact.size)
    && Distinct(bundle.order) && ParentsFirst(bundle.order)
    && (forall p :: p in bundle.order <==> p in original)
    && bundle.logical == Total(original, bundle.order, |bundle.order|)
    && [] !in bundle.companions
  }

  function RootId(tree: Tree): Identity {
    if [] in tree then tree[[]].fact.id else Identity(0, 0)
  }

  /** What renaming a directory does to the facts below it. */
  function Touched(tree: Tree, ctime: int): Tree {
    if [] in tree then tree[[] := tree[[]].(fact := tree[[]].fact.(ctime := ctime))] else tree
  }

  /** A staging tree holds only planned entries, of the planned kind. */
  predicate Partial(tree: Tree, bundle: Bundle) {
    IsTree(tree) && tree.Keys <= bundle.tree.Keys
    && forall p | p in tree :: tree[p].fact.directory == bundle.tree[p].directory
  }

  /** Same entries, same kinds, same bytes. */
  predicate CopyOf(tree: Tree, original: Tree) {
    tree.Keys == original.Keys
    && forall p | p in tree :: tree[p].fact.directory == original[p].fact.directory && tree[p].content == original[p].content
  }

  predicate SameDirectory(a: Fact, b: Fact) {
    a.directory && b.directory && a.id == b.id && a.mode == b.mode && a.uid == b.uid && a.gid == b.gid
  }

  /** What a purge may find: a subset of the retired tree, its files unchanged. */
  predicate Remnant(tree: Tree, retired: Inventory, original: Tree) {
    && IsTree(tree) && tree.Keys <= original.Keys && retired.Keys == original.Keys
    && forall p | p in tree ::
         if original[p].fact.directory then SameDirectory(tree[p].fact, retired[p])
         else tree[p] == original[p] && retired[p] == original[p].fact
  }

  // ---------- the steps ----------

  predicate DeclareStage(s: Slot, s': Slot) {
    && s.record.state.Planned? && s.record.stageId.None? && !s.record.stageIntent
    && s.stage.None? && s.target.None?
    && s' == s.(record := s.record.(stageIntent := true))
  }

  predicate CreateStage(s: Slot, s': Slot) {
    && s.record.state.Planned? && s.record.stageId.None? && s.record.stageIntent
    && s.stage.None? && s'.stage.Some?
    && IsTree(s'.stage.value) && s'.stage.value.Keys == {[]}
    && s' == s.(stage := s'.stage)
  }

  predicate AdoptStage(bundle: Bundle, s: Slot, s': Slot) {
    && s.record.state.Planned? && s.record.stageId.None? && s.record.stageIntent
    && s.stage.Some? && IsTree(s.stage.value) && s.stage.value.Keys <= bundle.tree.Keys
    && s' == s.(record := s.record.(stageId := Some(RootId(s.stage.value))))
  }

  predicate WriteStage(bundle: Bundle, s: Slot, s': Slot) {
    && s.record.state.Planned? && s.stage.Some? && IsTree(s.stage.value)
    && s.record.stageId == Some(RootId(s.stage.value))
    && s'.stage.Some? && Partial(s'.stage.value, bundle) && RootId(s'.stage.value) == RootId(s.stage.value)
    && s' == s.(stage := s'.stage)
  }

  /** The source is compared with the plan before and after the copy, and the
      staged bytes with the source's. */
  predicate FinishCopy(bundle: Bundle, s: Slot, s': Slot) {
    && s.record.state.Planned? && s.stage.Some? && IsTree(s.stage.value)
    && s.record.stageId == Some(RootId(s.stage.value))
    && s.source.Some? && Snapshot(s.source.value) == bundle.tree
    && s.stage.value.Keys == bundle.tree.Keys
    && Hashes(s.stage.value) == Hashes(s.source.value)
    && s' == s.(record := s.record.(state := Copied, hashes := Hashes(s.source.value),
                                    targetTree := Snapshot(s.stage.value)))
  }

  predicate Publish(s: Slot, s': Slot) {
    && s.record.state.Copied? && s.stage.Some? && IsTree(s.stage.value) && s.target.None?
    && s.record.stageId == Some(RootId(s.stage.value))
    && Hashes(s.stage.value) == s.record.hashes
    && s'.target.Some? && IsTree(s'.target.value)
    && s'.target.value == Touched(s.stage.value, s'.target.value[[]].fact.ctime)
    && s' == s.(stage := None, target := s'.target)
  }

  /** The recorded inventory is the copy's, up to the times of the companions. */
  predicate Records(inventory: Inventory, tree: Tree, companions: set<Path>) {
    SameButTimes(Snapshot(tree), inventory, companions)
  }

  /** The same up to the root's ctime, which publication changes. */
  predicate RecordsMoved(inventory: Inventory, tree: Tree, companions: set<Path>) {
    SameButTimes(UpToRootTime(Snapshot(tree)), UpToRootTime(inventory), companions)
  }

  /** The journal takes over times that a copy has now: the root's ctime of one that has
      just been published, and what reconciliation allows, which it logs. */
  predicate Rerecord(companions: set<Path>, s: Slot, s': Slot) {
    && s' == s.(record := s.record.(targetTree := s'.record.targetTree, reconciliations := s'.record.reconciliations))
    && s.record.reconciliations <= s'.record.reconciliations
    && match s.record.state
       case Copied =>
         || (s.target.None? && s.stage.Some? && Records(s'.record.targetTree, s.stage.value, companions))
         || (s.stage.None? && s.target.Some? && RecordsMoved(s'.record.targetTree, s.target.value, companions))
       case Verified => s.target.Some? && Records(s'.record.targetTree, s.target.value, companions)
       case _ => false
  }

  predicate TargetMatches(s: Slot) {
    s.target.Some? && Snapshot(s.target.value) == s.record.targetTree && Hashes(s.target.value) == s.record.hashes
  }

  predicate Confirm(companions: set<Path>, s: Slot, s': Slot) {
    && s.record.state.Copied? && s.target.Some? && s.stage.None?
    && RecordsMoved(s.record.targetTree, s.target.value, companions)
    && Hashes(s.target.value) == s.record.hashes
    && s.record.reconciliations <= s'.record.reconciliations
    && s' == s.(record := s.record.(state := Verified, targetTree := Snapshot(s.target.value),
                                    reconciliations := s'.record.reconciliations))
  }

  predicate IntendRetirement(bundle: Bundle, s: Slot, s': Slot) {
    && s.record.state.Verified? && TargetMatches(s)
    && s.source.Some? && Snapshot(s.source.value) == bundle.tree && Hashes(s.source.value) == s.record.hashes
    && s' == s.(record := s.record.(state := RetireIntent))
  }

  predicate MoveAside(bundle: Bundle, s: Slot, s': Slot) {
    && s.record.state.RetireIntent? && s.retiring.None?
    && s.source.Some? && IsTree(s.source.value) && Snapshot(s.source.value) == bundle.tree
    && s'.retiring.Some? && IsTree(s'.retiring.value)
    && s'.retiring.value == Touched(s.source.value, s'.retiring.value[[]].fact.ctime)
    && s' == s.(source := None, retiring := s'.retiring)
  }

  predicate NoteMove(bundle: Bundle, s: Slot, s': Slot) {
    && s.record.state.RetireIntent? && s.retiring.Some?
    && UpToRootTime(Snapshot(s.retiring.value)) == UpToRootTime(bundle.tree)
    && s' == s.(record := s.record.(state := Renamed, retirementTree := Snapshot(s.retiring.value)))
  }

  predicate IntendPurge(s: Slot, s': Slot) {
    && s.record.state.Renamed? && s.retiring.Some? && Snapshot(s.retiring.value) == s.record.retirementTree
    && s' == s.(record := s.record.(state := PurgeIntent))
  }

  /** unlink or rmdir of one entry; a directory must be empty. Directories left
      behind may change in size, times and link count. */
  ghost predicate RemoveEntry(s: Slot, s': Slot) {
    && s.record.state.PurgeIntent? && TargetMatches(s) && s.retiring.Some?
    && s' == s.(retiring := s'.retiring)
    && exists p | p in s.retiring.value :: Removes(s.retiring.value, s'.retiring, p)
  }

  predicate Removes(tree: Tree, left: Option<Tree>, p: Path) {
    && p in tree && (forall q | q in tree && q != [] :: Parent(q) != p)
    && if p == [] then left.None? else
         && left.Some? && left.value.Keys == tree.Keys - {p}
         && forall q | q in left.value ::
              if tree[q].fact.directory then SameDirectory(left.value[q].fact, tree[q].fact) && left.value[q].content == []
              else left.value[q] == tree[q]
  }

  predicate FinishPurge(s: Slot, s': Slot) {
    && s.record.state.PurgeIntent? && TargetMatches(s) && s.retiring.None?
    && s' == s.(record := s.record.(state := Retired))
  }

  ghost predicate PrepareStep(bundle: Bundle, s: Slot, s': Slot) {
    || DeclareStage(s, s') || CreateStage(s, s') || AdoptStage(bundle, s, s')
    || WriteStage(bundle, s, s') || FinishCopy(bundle, s, s') || Publish(s, s')
    || Rerecord(bundle.companions, s, s') || Confirm(bundle.companions, s, s')
  }

  ghost predicate RetireStep(bundle: Bundle, s: Slot, s': Slot) {
    || IntendRetirement(bundle, s, s') || MoveAside(bundle, s, s') || NoteMove(bundle, s, s')
    || IntendPurge(s, s') || RemoveEntry(s, s') || FinishPurge(s, s')
  }

  /** The second loop of apply runs only after the first verified every target and
      the recovery index is on disk. */
  predicate Settled(d: Disk) {
    d.index && AllVerified(d)
  }

  predicate AllVerified(d: Disk) {
    forall i | 0 <= i < |d.slots| :: Rank(d.slots[i].record.state) >= Rank(Verified)
  }

  ghost predicate SlotStep(plan: Plan, d: Disk, d': Disk, i: nat)
    requires |plan.bundles| == |d.slots| && i < |d.slots|
  {
    && |d'.slots| == |d.slots|
    && d' == d.(slots := d.slots[i := d'.slots[i]])
    && (PrepareStep(plan.bundles[i], d.slots[i], d'.slots[i])
        || (Settled(d) && RetireStep(plan.bundles[i], d.slots[i], d'.slots[i])))
  }

  predicate WriteIndex(d: Disk, d': Disk) {
    AllVerified(d) && d' == d.(index := true)
  }

  /** The journal written out again: with a failure code, or without one. */
  predicate SaveJournal(plan: Plan, d: Disk, d': Disk)
    requires |plan.bundles| == |d.slots|
  {
    && |d'.slots| == |d.slots|
    && d' == d.(slots := d'.slots, failure := d'.failure)
    && forall i | 0 <= i < |d.slots| ::
         d'.slots[i] == d.slots[i] || Rerecord(plan.bundles[i].companions, d.slots[i], d'.slots[i])
  }

  /** SQLite may touch the times of its companions. */
  predicate Drifts(now: Tree, before: Tree, companions: set<Path>) {
    && now.Keys == before.Keys && (forall p | p in now :: now[p].content == before[p].content)
    && SameButTimes(Snapshot(now), Snapshot(before), companions)
  }

  predicate MayDrift(now: Option<Tree>, before: Option<Tree>, companions: set<Path>) {
    now == before || (now.Some? && before.Some? && Drifts(now.value, before.value, companions))
  }

  /** Others come and go in the backup directory. They leave the selected bundles
      alone, and cannot own an inode that a retirement directory still uses. */
  predicate ForeignSource(s: Slot, s': Slot, original: Tree) {
    && (s.source == Some(original) ==> s'.source == s.source)
    && (s'.source != s.source && s'.source.Some? ==>
          && s'.source != Some(original) && IsTree(s'.source.value)
          && (s.retiring.Some? && IsTree(s.retiring.value) ==> RootId(s'.source.value) != RootId(s.retiring.value)))
  }

  /** Besides, a copy that awaits retirement of its source may have its companions
      touched; later ones are left alone. */
  predicate Surroundings(bundle: Bundle, original: Tree, s: Slot, s': Slot) {
    && s' == s.(source := s'.source, stage := s'.stage, target := s'.target)
    && ForeignSource(s, s', original)
    && (if s.record.state.Copied? then MayDrift(s'.stage, s.stage, bundle.companions) else s'.stage == s.stage)
    && (if s.record.state.Copied? || s.record.state.Verified? then MayDrift(s'.target, s.target, bundle.companions)
        else s'.target == s.target)
  }

  predicate Foreign(plan: Plan, d: Disk, d': Disk)
    requires |plan.bundles| == |plan.originals| == |d.slots|
  {
    && |d'.slots| == |d.slots|
    && d' == d.(slots := d'.slots, others := d'.others) && NamesApart(plan, d'.others)
    && forall i | 0 <= i < |d.slots| :: Surroundings(plan.bundles[i], plan.originals[i], d.slots[i], d'.slots[i])
  }

  ghost predicate Next(plan: Plan, d: Disk, d': Disk)
    requires |plan.bundles| == |plan.originals| == |d.slots|
  {
    || (exists i | 0 <= i < |d.slots| :: SlotStep(plan, d, d', i))
    || WriteIndex(d, d') || SaveJournal(plan, d, d') || Foreign(plan, d, d')
  }

  const UNTOUCHED: Record := Record(Planned, false, None, map[], map[], [], map[])

  /** The plan has been sealed and nothing else has happened. */
  ghost predicate Initial(plan: Plan, d: Disk) {
    && |plan.originals| == |d.slots| && !d.index && d.failure.None? && NamesApart(plan, d.others)
    && forall i | 0 <= i < |d.slots| :: d.slots[i] == Slot(UNTOUCHED, Some(plan.originals[i]), None, None, None)
  }

  ghost predicate Run(plan: Plan, run: seq<Disk>) {
    && |plan.bundles| == |plan.originals|
    && (forall k | 0 <= k < |run| :: |run[k].slots| == |plan.bundles|)
    && forall k | 0 < k < |run| :: Linked(plan, run, k)
  }

  ghost predicate Linked(plan: Plan, run: seq<Disk>, k: nat)
    requires |plan.bundles| == |plan.originals| && 0 < k < |run| && |run[k - 1].slots| == |plan.bundles|
  {
    Next(plan, run[k - 1], run[k])
  }

  // ---------- the invariant ----------

  /** The archived copy is complete. */
  predicate Archived(s: Slot, original: Tree) {
    && s.stage.None? && s.target.Some? && IsTree(s.target.value)
    && CopyOf(s.target.value, original) && Snapshot(s.target.value) == s.record.targetTree
    && s.record.stageId == Some(RootId(s.target.value))
  }

  predicate Copying(s: Slot, bundle: Bundle) {
    && s.target.None?
    && (s.stage.Some? ==> s.record.stageIntent && Partial(s.stage.value, bundle))
    && (s.record.stageId.Some? ==> s.stage.Some? && s.record.stageId == Some(RootId(s.stage.value)))
  }

  /** The same, but SQLite may have touched its companions since. */
  predicate Touchable(s: Slot, original: Tree, companions: set<Path>) {
    && s.stage.None? && s.target.Some? && IsTree(s.target.value)
    && CopyOf(s.target.value, original) && Records(s.record.targetTree, s.target.value, companions)
    && s.record.stageId == Some(RootId(s.target.value))
  }

  /** The complete copy is still staged, or just published and not yet noted. */
  predicate CopiedSomewhere(s: Slot, original: Tree, companions: set<Path>) {
    || (s.target.None? && s.stage.Some? && IsTree(s.stage.value) && CopyOf(s.stage.value, original)
        && Records(s.record.targetTree, s.stage.value, companions) && s.record.stageId == Some(RootId(s.stage.value)))
    || (s.stage.None? && s.target.Some? && IsTree(s.target.value) && CopyOf(s.target.value, original)
        && RecordsMoved(s.record.targetTree, s.target.value, companions)
        && s.record.targetTree.Keys == original.Keys
        && s.record.stageId == Some(RootId(s.target.value)))
  }

  /** The original tree was moved aside whole and nobody holds its inode. */
  predicate MovedAside(s: Slot, original: Tree) {
    && s.retiring.Some? && IsTree(s.retiring.value)
    && s.retiring.value == Touched(original, s.retiring.value[[]].fact.ctime)
    && ForeignName(s, original)
  }

  predicate ForeignName(s: Slot, original: Tree) {
    s.source.Some? ==> IsTree(s.source.value) && RootId(s.source.value) != RootId(original)
  }

  predicate SlotInv(bundle: Bundle, original: Tree, s: Slot) {
    && (s.source.Some? ==> IsTree(s.source.value))
    && (!s.record.state.Planned? ==> s.record.hashes == Hashes(original))
    && match s.record.state
       case Planned => s.source == Some(original) && s.retiring.None? && Copying(s, bundle)
       case Copied => s.source == Some(original) && s.retiring.None? && CopiedSomewhere(s, original, bundle.companions)
       case Verified => s.source == Some(original) && s.retiring.None? && Touchable(s, original, bundle.companions)
       case RetireIntent =>
         && Archived(s, original)
         && ((s.source == Some(original) && s.retiring.None?) || MovedAside(s, original))
       case Renamed =>
         Archived(s, original) && MovedAside(s, original) && Snapshot(s.retiring.value) == s.record.retirementTree
       case PurgeIntent =>
         && Archived(s, original)
         && (s.retiring.Some? ==> Remnant(s.retiring.value, s.record.retirementTree, original) && ForeignName(s, original)
                                  && RootId(s.retiring.value) == RootId(original))
       case Retired => Archived(s, original) && s.retiring.None?
  }

  /** One bundle is in a consistent state. None leaves before all are verified and
      the index is written; the index is written after all are verified. */
  predicate SlotOk(plan: Plan, d: Disk, i: nat)
    requires |plan.bundles| == |plan.originals| == |d.slots| && i < |d.slots|
  {
    && SlotInv(plan.bundles[i], plan.originals[i], d.slots[i])
    && (d.index ==> Rank(d.slots[i].record.state) >= Rank(Verified))
    && (Rank(d.slots[i].record.state) > Rank(Verified) ==> d.index)
  }

  ghost predicate Inv(plan: Plan, d: Disk)
    requires PlanValid(plan)
  {
    && |d.slots| == |plan.bundles| && NamesApart(plan, d.others)
    && forall i {:trigger SlotOk(plan, d, i)} | 0 <= i < |d.slots| :: SlotOk(plan, d, i)
  }

  lemma InitialInv(plan: Plan, d: Disk)
    requires PlanValid(plan) && Initial(plan, d)
    ensures Inv(plan, d)
  {
    forall i | 0 <= i < |d.slots| ensures SlotOk(plan, d, i) {
      assert BundleOk(plan, i);
    }
  }

  lemma HashesOfCopy(tree: Tree, original: Tree)
    requires IsTree(tree) && IsTree(original)
    requires tree.Keys == original.Keys && Hashes(tree) == Hashes(original)
    requires forall p | p in tree :: tree[p].fact.directory == original[p].fact.directory
    ensures CopyOf(tree, original)
  {
    forall p | p in tree && !tree[p].fact.directory ensures tree[p].content == original[p].content {
      assert p in Hashes(tree) && Hashes(tree)[p] == Hashes(original)[p];
    }
  }

  lemma CopyHasHashes(tree: Tree, original: Tree)
    requires CopyOf(tree, original)
    ensures Hashes(tree) == Hashes(original)
  {
  }

  lemma TouchedFacts(tree: Tree, ctime: int)
    requires IsTree(tree)
    ensures var moved := Touched(tree, ctime);
      && IsTree(moved) && CopyOf(moved, tree) && RootId(moved) == RootId(tree)
      && UpToRootTime(Snapshot(moved)) == UpToRootTime(Snapshot(tree))
      && Hashes(moved) == Hashes(tree)
  {
    var moved := Touched(tree, ctime);
    forall p | p in moved ensures InDirectory(moved, p) {
      assert InDirectory(tree, p);
    }
  }

  lemma CopyOfCopy(a: Tree, b: Tree, c: Tree)
    requires CopyOf(a, b) && CopyOf(b, c)
    ensures CopyOf(a, c)
  {
  }

  lemma FinishedCopy(bundle: Bundle, original: Tree, stage: Tree)
    requires IsTree(original) && Snapshot(original) == bundle.tree
    requires Partial(stage, bundle) && stage.Keys == bundle.tree.Keys && Hashes(stage) == Hashes(original)
    ensures CopyOf(stage, original)
  {
    assert bundle.tree.Keys == original.Keys;
    forall p | p in stage ensures stage[p].fact.directory == original[p].fact.directory {
      assert bundle.tree[p] == original[p].fact;
    }
    HashesOfCopy(stage, original);
  }

  lemma FinishCopyKeepsSlot(bundle: Bundle, original: Tree, s: Slot, s': Slot)
    requires IsTree(original) && Snapshot(original) == bundle.tree
    requires s.source == Some(original) && Copying(s, bundle)
    requires FinishCopy(bundle, s, s')
    ensures CopiedSomewhere(s', original, bundle.companions) && s'.record.hashes == Hashes(original)
  {
    FinishedCopy(bundle, original, s.stage.value);
  }

  lemma RecordsUpToRoot(inventory: Inventory, tree: Tree, companions: set<Path>)
    requires Records(inventory, tree, companions) && [] !in companions
    ensures RecordsMoved(inventory, tree, companions)
  {
  }

  lemma PublishedCopy(stage: Tree, target: Tree, record: Record, original: Tree, companions: set<Path>)
    requires IsTree(stage) && CopyOf(stage, original) && Records(record.targetTree, stage, companions) && [] !in companions
    requires IsTree(target) && target == Touched(stage, target[[]].fact.ctime)
    ensures CopyOf(target, original) && RootId(target) == RootId(stage)
    ensures RecordsMoved(record.targetTree, target, companions)
    ensures record.targetTree.Keys == original.Keys
  {
    TouchedFacts(stage, target[[]].fact.ctime);
    CopyOfCopy(target, stage, original);
    RecordsUpToRoot(record.targetTree, stage, companions);
    assert record.targetTree.Keys == stage.Keys;
  }

  lemma PublishKeepsSlot(original: Tree, s: Slot, s': Slot, companions: set<Path>)
    requires CopiedSomewhere(s, original, companions) && Publish(s, s') && [] !in companions
    ensures CopiedSomewhere(s', original, companions)
  {
    PublishedCopy(s.stage.value, s'.target.value, s.record, original, companions);
  }

  lemma StagingKeepsSlot(bundle: Bundle, original: Tree, s: Slot, s': Slot)
    requires BundleValid(bundle, original) && SlotInv(bundle, original, s)
    requires DeclareStage(s, s') || CreateStage(s, s') || AdoptStage(bundle, s, s') || WriteStage(bundle, s, s')
    ensures SlotInv(bundle, original, s')
    ensures Rank(s.record.state) <= Rank(s'.record.state) <= Rank(Verified)
  {
    assert bundle.tree[[]] == original[[]].fact;
  }

  lemma RerecordKeepsSlot(bundle: Bundle, original: Tree, s: Slot, s': Slot)
    requires SlotInv(bundle, original, s) && Rerecord(bundle.companions, s, s')
    ensures SlotInv(bundle, original, s') && s'.record.state == s.record.state
  {
    if s.target.Some? {
      assert UpToRootTime(Snapshot(s.target.value)).Keys == s.target.value.Keys;
    }
  }

  lemma ConfirmKeepsSlot(bundle: Bundle, original: Tree, s: Slot, s': Slot)
    requires SlotInv(bundle, original, s) && Confirm(bundle.companions, s, s')
    ensures SlotInv(bundle, original, s') && s'.record.state.Verified? && TargetMatches(s')
  {
    assert Snapshot(s.target.value).Keys == s.target.value.Keys;
  }

  lemma PlannedKeepsSlot(bundle: Bundle, original: Tree, s: Slot, s': Slot)
    requires BundleValid(bundle, original) && SlotInv(bundle, original, s)
    requires FinishCopy(bundle, s, s')
    ensures SlotInv(bundle, original, s')
    ensures Rank(s.record.state) <= Rank(s'.record.state) <= Rank(Verified)
  {
    FinishCopyKeepsSlot(bundle, original, s, s');
  }

  lemma CopiedKeepsSlot(bundle: Bundle, original: Tree, s: Slot, s': Slot)
    requires BundleValid(bundle, original) && SlotInv(bundle, original, s)
    requires Publish(s, s') || Confirm(bundle.companions, s, s')
    ensures SlotInv(bundle, original, s')
    ensures Rank(s.record.state) <= Rank(s'.record.state) <= Rank(Verified)
  {
    if Publish(s, s') {
      PublishKeepsSlot(original, s, s', bundle.companions);
    } else {
      ConfirmKeepsSlot(bundle, original, s, s');
    }
  }

  lemma PrepareKeepsSlot(bundle: Bundle, original: Tree, s: Slot, s': Slot)
    requires BundleValid(bundle, original) && SlotInv(bundle, original, s)
    requires PrepareStep(bundle, s, s')
    ensures SlotInv(bundle, original, s')
    ensures Rank(s.record.state) <= Rank(s'.record.state) <= Rank(Verified)
  {
    if Rerecord(bundle.companions, s, s') {
      RerecordKeepsSlot(bundle, original, s, s');
    } else if s.record.state.Copied? {
      CopiedKeepsSlot(bundle, original, s, s');
    } else if FinishCopy(bundle, s, s') {
      PlannedKeepsSlot(bundle, original, s, s');
    } else {
      StagingKeepsSlot(bundle, original, s, s');
    }
  }

  lemma MovedTree(bundle: Bundle, original: Tree, s: Slot)
    requires BundleValid(bundle, original) && SlotInv(bundle, original, s) && s.record.state.Renamed?
    ensures Remnant(s.retiring.value, s.record.retirementTree, original)
    ensures RootId(s.retiring.value) == RootId(original)
  {
    TouchedFacts(original, s.retiring.value[[]].fact.ctime);
  }

  /** Removing an entry without children leaves a tree. */
  lemma RemovalKeepsTree(tree: Tree, left: Tree, p: Path)
    requires IsTree(tree) && p != [] && Removes(tree, Some(left), p)
    ensures IsTree(left) && RootId(left) == RootId(tree)
  {
    forall q | q in left ensures left[q].fact.directory == tree[q].fact.directory {
    }
    forall q | q in left ensures InDirectory(left, q) {
      assert InDirectory(tree, q);
      assert q in tree && (q != [] ==> Parent(q) != p);
    }
  }

  lemma RemovalKeepsRemnant(tree: Tree, left: Tree, p: Path, retired: Inventory, original: Tree)
    requires IsTree(original) && Remnant(tree, retired, original) && p != []
    requires Removes(tree, Some(left), p)
    ensures Remnant(left, retired, original) && RootId(left) == RootId(tree)
  {
    RemovalKeepsTree(tree, left, p);
    forall q | q in left
      ensures if original[q].fact.directory then SameDirectory(left[q].fact, retired[q])
              else left[q] == original[q] && retired[q] == original[q].fact
    {
      assert q in tree && q in original;
    }
  }

  lemma RetireKeepsSlot(bundle: Bundle, original: Tree, s: Slot, s': Slot)
    requires BundleValid(bundle, original) && SlotInv(bundle, original, s)
    requires RetireStep(bundle, s, s')
    ensures SlotInv(bundle, original, s')
    ensures Rank(s.record.state) <= Rank(s'.record.state)
  {
    if MoveAside(bundle, s, s') {
      assert s.source == Some(original);
    } else if IntendPurge(s, s') {
      MovedTree(bundle, original, s);
    } else if RemoveEntry(s, s') {
      var p :| p in s.retiring.value && Removes(s.retiring.value, s'.retiring, p);
      if p != [] {
        RemovalKeepsRemnant(s.retiring.value, s'.retiring.value, p, s.record.retirementTree, original);
      }
    }
  }

  lemma DriftKeepsCopy(now: Tree, before: Tree, companions: set<Path>, original: Tree)
    requires IsTree(before) && CopyOf(before, original) && MayDrift(Some(now), Some(before), companions)
    ensures IsTree(now) && CopyOf(now, original) && RootId(now) == RootId(before)
    ensures Hashes(now) == Hashes(before) && SameButTimes(Snapshot(now), Snapshot(before), companions)
  {
    assert SameButTimes(Snapshot(now), Snapshot(before), companions);
    forall p | p in now ensures now[p].fact.directory == before[p].fact.directory && now[p].fact.id == before[p].fact.id {
      assert Snapshot(now)[p] == now[p].fact && Snapshot(before)[p] == before[p].fact;
    }
    forall p | p in now ensures InDirectory(now, p) {
      assert InDirectory(before, p);
    }
  }

  lemma DriftKeepsRecords(now: Tree, before: Tree, inventory: Inventory, companions: set<Path>)
    requires SameButTimes(Snapshot(now), Snapshot(before), companions) && [] !in companions
    ensures Records(inventory, before, companions) ==> Records(inventory, now, companions)
    ensures RecordsMoved(inventory, before, companions) ==> RecordsMoved(inventory, now, companions)
  {
    if Records(inventory, before, companions) {
      SameButTimesJoin(Snapshot(now), Snapshot(before), inventory, companions);
    }
    if RecordsMoved(inventory, before, companions) {
      assert SameButTimes(UpToRootTime(Snapshot(now)), UpToRootTime(Snapshot(before)), companions);
      SameButTimesJoin(UpToRootTime(Snapshot(now)), UpToRootTime(Snapshot(before)), UpToRootTime(inventory), companions);
    }
  }

  lemma ForeignKeepsSlot(bundle: Bundle, original: Tree, s: Slot, s': Slot)
    requires BundleValid(bundle, original) && SlotInv(bundle, original, s)
    requires Surroundings(bundle, original, s, s')
    ensures SlotInv(bundle, original, s') && s'.record == s.record
  {
    if MovedAside(s, original) {
      TouchedFacts(original, s.retiring.value[[]].fact.ctime);
    }
    if s.record.state.Copied? && s.stage.Some? {
      DriftKeepsCopy(s'.stage.value, s.stage.value, bundle.companions, original);
      DriftKeepsRecords(s'.stage.value, s.stage.value, s.record.targetTree, bundle.companions);
    }
    if (s.record.state.Copied? || s.record.state.Verified?) && s.target.Some? {
      DriftKeepsCopy(s'.target.value, s.target.value, bundle.companions, original);
      DriftKeepsRecords(s'.target.value, s.target.value, s.record.targetTree, bundle.companions);
    }
  }

  ghost predicate SlotMoves(bundle: Bundle, original: Tree, settled: bool, s: Slot, s': Slot) {
    || s' == s || Surroundings(bundle, original, s, s')
    || PrepareStep(bundle, s, s') || (settled && RetireStep(bundle, s, s'))
  }

  lemma NextMovesSlot(plan: Plan, d: Disk, d': Disk, i: nat)
    requires |plan.bundles| == |plan.originals| == |d.slots| && Next(plan, d, d') && i < |d.slots|
    ensures |d'.slots| == |d.slots|
    ensures SlotMoves(plan.bundles[i], plan.originals[i], Settled(d), d.slots[i], d'.slots[i])
  {
    if j :| 0 <= j < |d.slots| && SlotStep(plan, d, d', j) {
      if j != i {
        assert d'.slots[i] == d.slots[i];
      }
    }
  }

  /** What one slot goes through in any step of the whole system. */
  lemma NextOnSlot(plan: Plan, d: Disk, d': Disk, i: nat)
    requires PlanValid(plan) && Inv(plan, d) && Next(plan, d, d') && i < |d.slots|
    ensures |d'.slots| == |d.slots|
    ensures SlotInv(plan.bundles[i], plan.originals[i], d'.slots[i])
    ensures Rank(d.slots[i].record.state) <= Rank(d'.slots[i].record.state)
    ensures Rank(d'.slots[i].record.state) > Rank(Verified) ==> d.index
  {
    assert SlotOk(plan, d, i) && BundleOk(plan, i);
    NextMovesSlot(plan, d, d', i);
    var s, s' := d.slots[i], d'.slots[i];
    if PrepareStep(plan.bundles[i], s, s') {
      PrepareKeepsSlot(plan.bundles[i], plan.originals[i], s, s');
    } else if Surroundings(plan.bundles[i], plan.originals[i], s, s') {
      ForeignKeepsSlot(plan.bundles[i], plan.originals[i], s, s');
    } else if s' != s {
      RetireKeepsSlot(plan.bundles[i], plan.originals[i], s, s');
    }
  }

  lemma NextKeepsIndex(plan: Plan, d: Disk, d': Disk)
    requires |plan.bundles| == |plan.originals| == |d.slots| && Next(plan, d, d')
    ensures |d'.slots| == |d.slots| && (d.index ==> d'.index) && (d'.index && !d.index ==> AllVerified(d))
    ensures d'.others == d.others || NamesApart(plan, d'.others)
  {
  }

  /** The invariant is kept by every step of the script and of its surroundings. */
  lemma NextKeepsInv(plan: Plan, d: Disk, d': Disk)
    requires PlanValid(plan) && Inv(plan, d) && Next(plan, d, d')
    ensures Inv(plan, d')
  {
    NextKeepsIndex(plan, d, d');
    forall i | 0 <= i < |d'.slots| ensures SlotOk(plan, d', i) {
      assert SlotOk(plan, d, i);
      NextOnSlot(plan, d, d', i);
    }
  }

  // ---------- what holds in every run ----------

  /** A complete copy of the original bytes exists: under its own name, set aside
      for retirement, or in the archive under the recorded digests. */
  predicate Preserved(s: Slot, original: Tree) {
    || s.source == Some(original)
    || (s.retiring.Some? && CopyOf(s.retiring.value, original))
    || (s.target.Some? && CopyOf(s.target.value, original) && Hashes(s.target.value) == s.record.hashes)
  }

  /** The local original is gone or about to go. */
  predicate Leaving(s: Slot, original: Tree) {
    s.source != Some(original) || s.retiring.Some?
  }

  lemma RunStep(plan: Plan, run: seq<Disk>, k: nat)
    requires |plan.bundles| == |plan.originals| && Run(plan, run) && 0 < k < |run|
    ensures |run[k - 1].slots| == |plan.bundles| && Next(plan, run[k - 1], run[k])
  {
    assert Linked(plan, run, k);
  }

  /** A session that starts on the disk another one left, killed or not, continues its
      run: what holds over every run holds over any number of resumed sessions. */
  lemma RunsJoin(plan: Plan, run: seq<Disk>, resumed: seq<Disk>)
    requires |plan.bundles| == |plan.originals| && Run(plan, run) && Run(plan, resumed)
    requires run != [] && resumed != [] && run[|run| - 1] == resumed[0]
    ensures Run(plan, run + resumed[1..])
    ensures (run + resumed[1..])[|run| + |resumed| - 2] == resumed[|resumed| - 1]
  {
    var joined := run + resumed[1..];
    forall k | 0 < k < |joined| ensures Linked(plan, joined, k) {
      if k < |run| {
        assert Linked(plan, run, k);
      } else {
        assert joined[k] == resumed[k - |run| + 1] && joined[k - 1] == resumed[k - |run|];
        assert Linked(plan, resumed, k - |run| + 1);
      }
    }
  }

  lemma RunGrows(plan: Plan, run: seq<Disk>, next: Disk)
    requires |plan.bundles| == |plan.originals| && Run(plan, run) && run != []
    requires Next(plan, run[|run| - 1], next) && |next.slots| == |plan.bundles|
    ensures Run(plan, run + [next])
  {
    var longer := run + [next];
    forall k | 0 < k < |longer| ensures Linked(plan, longer, k) {
      if k < |run| {
        assert Linked(plan, run, k);
      }
    }
  }

  lemma {:induction false} RunKeepsInv(plan: Plan, run: seq<Disk>, k: nat)
    requires PlanValid(plan) && Run(plan, run) && k < |run| && Initial(plan, run[0])
    ensures Inv(plan, run[k])
  {
    if k == 0 {
      InitialInv(plan, run[0]);
    } else {
      RunKeepsInv(plan, run, k - 1);
      RunStep(plan, run, k);
      NextKeepsInv(plan, run[k - 1], run[k]);
    }
  }

  lemma SlotPreserved(bundle: Bundle, original: Tree, s: Slot)
    requires BundleValid(bundle, original) && SlotInv(bundle, original, s)
    ensures Preserved(s, original)
    ensures Rank(s.record.state) >= Rank(Verified) ==>
      && s.target.Some? && IsTree(s.target.value) && CopyOf(s.target.value, original)
      && Hashes(s.target.value) == s.record.hashes && Records(s.record.targetTree, s.target.value, bundle.companions)
    ensures Rank(s.record.state) > Rank(Verified) ==> TargetMatches(s)
    ensures Leaving(s, original) ==> Rank(s.record.state) > Rank(Verified)
  {
    if Rank(s.record.state) >= Rank(Verified) {
      CopyHasHashes(s.target.value, original);
    }
  }

  /** No data loss: whatever was killed and resumed, and whenever, every selected
      bundle's bytes are complete somewhere; and while a local original is gone or
      going, every bundle of the plan is verified in the archive and the recovery
      index is on disk. */
  lemma NoDataLoss(plan: Plan, run: seq<Disk>, k: nat, i: nat)
    requires PlanValid(plan) && Run(plan, run) && k < |run| && Initial(plan, run[0])
    requires i < |plan.bundles|
    ensures Preserved(run[k].slots[i], plan.originals[i])
    ensures Leaving(run[k].slots[i], plan.originals[i]) ==>
      && Settled(run[k])
      && forall j | 0 <= j < |plan.bundles| ::
           run[k].slots[j].target.Some? && CopyOf(run[k].slots[j].target.value, plan.originals[j])
           && Hashes(run[k].slots[j].target.value) == run[k].slots[j].record.hashes
  {
    RunKeepsInv(plan, run, k);
    assert SlotOk(plan, run[k], i) && BundleOk(plan, i);
    forall j | 0 <= j < |plan.bundles|
      ensures Preserved(run[k].slots[j], plan.originals[j])
      ensures Rank(run[k].slots[j].record.state) >= Rank(Verified) ==>
        && run[k].slots[j].target.Some? && CopyOf(run[k].slots[j].target.value, plan.originals[j])
        && Hashes(run[k].slots[j].target.value) == run[k].slots[j].record.hashes
      ensures run[k].index ==> Rank(run[k].slots[j].record.state) >= Rank(Verified)
    {
      assert SlotOk(plan, run[k], j) && BundleOk(plan, j);
      SlotPreserved(plan.bundles[j], plan.originals[j], run[k].slots[j]);
    }
    SlotPreserved(plan.bundles[i], plan.originals[i], run[k].slots[i]);
  }

  /** Two complete copies exist from verification until the purge begins. */
  lemma TwoCopiesUntilPurge(plan: Plan, run: seq<Disk>, k: nat, i: nat)
    requires PlanValid(plan) && Run(plan, run) && k < |run| && Initial(plan, run[0])
    requires i < |plan.bundles|
    requires Rank(Verified) <= Rank(run[k].slots[i].record.state) < Rank(PurgeIntent)
    ensures var s, original := run[k].slots[i], plan.originals[i];
      && s.target.Some? && CopyOf(s.target.value, original)
      && (s.source == Some(original) || (s.retiring.Some? && CopyOf(s.retiring.value, original)))
  {
    RunKeepsInv(plan, run, k);
    assert SlotOk(plan, run[k], i) && BundleOk(plan, i);
    if run[k].slots[i].retiring.Some? {
      TouchedFacts(plan.originals[i], run[k].slots[i].retiring.value[[]].fact.ctime);
    }
  }

  /** The archived copy stays: its content and facts for ever, but for the times of its
      companions, and those too once its source's retirement is announced. */
  ghost predicate TargetKept(bundle: Bundle, s: Slot, s': Slot) {
    && (Rank(s.record.state) >= Rank(Verified) ==> s.target.Some? && MayDrift(s'.target, s.target, bundle.companions))
    && (Rank(s.record.state) > Rank(Verified) ==> s'.target == s.target)
  }

  lemma TargetUnchanged(bundle: Bundle, original: Tree, settled: bool, s: Slot, s': Slot)
    requires Rank(s.record.state) >= Rank(Verified) && s.target.Some? && SlotMoves(bundle, original, settled, s, s')
    ensures TargetKept(bundle, s, s')
  {
  }

  lemma StepIsStable(plan: Plan, d: Disk, d': Disk, i: nat)
    requires PlanValid(plan) && Inv(plan, d) && Next(plan, d, d') && i < |d.slots|
    ensures |d'.slots| == |d.slots|
    ensures Rank(d.slots[i].record.state) <= Rank(d'.slots[i].record.state)
    ensures d.index ==> d'.index
    ensures TargetKept(plan.bundles[i], d.slots[i], d'.slots[i])
  {
    NextOnSlot(plan, d, d', i);
    NextKeepsIndex(plan, d, d');
    NextMovesSlot(plan, d, d', i);
    assert SlotOk(plan, d, i);
    if Rank(d.slots[i].record.state) >= Rank(Verified) {
      TargetUnchanged(plan.bundles[i], plan.originals[i], Settled(d), d.slots[i], d'.slots[i]);
    }
  }

  lemma RunIsStable(plan: Plan, run: seq<Disk>, k: nat, i: nat)
    requires PlanValid(plan) && Run(plan, run) && 0 < k < |run| && Initial(plan, run[0])
    requires i < |plan.bundles|
    ensures Rank(run[k - 1].slots[i].record.state) <= Rank(run[k].slots[i].record.state)
    ensures run[k - 1].index ==> run[k].index
    ensures TargetKept(plan.bundles[i], run[k - 1].slots[i], run[k].slots[i])
  {
    var d, d' := run[k - 1], run[k];
    RunKeepsInv(plan, run, k - 1);
    RunStep(plan, run, k);
    StepIsStable(plan, d, d', i);
  }

  lemma KeptJoins(bundle: Bundle, a: Slot, b: Slot, c: Slot)
    requires TargetKept(bundle, a, b) && TargetKept(bundle, b, c)
    requires Rank(a.record.state) <= Rank(b.record.state)
    ensures TargetKept(bundle, a, c)
  {
    if Rank(a.record.state) >= Rank(Verified) && c.target != b.target && b.target != a.target {
      SameButTimesJoin(Snapshot(c.target.value), Snapshot(b.target.value), Snapshot(a.target.value), bundle.companions);
    }
  }

  /** A verified copy is never written again, and progress is never lost. */
  lemma {:induction false} ArchiveIsStable(plan: Plan, run: seq<Disk>, k: nat, m: nat, i: nat)
    requires PlanValid(plan) && Run(plan, run) && k <= m < |run| && Initial(plan, run[0])
    requires i < |plan.bundles|
    ensures Rank(run[k].slots[i].record.state) <= Rank(run[m].slots[i].record.state)
    ensures run[k].index ==> run[m].index
    ensures TargetKept(plan.bundles[i], run[k].slots[i], run[m].slots[i])
    decreases m
  {
    if k < m {
      ArchiveIsStable(plan, run, k, m - 1, i);
      RunIsStable(plan, run, m, i);
      KeptJoins(plan.bundles[i], run[k].slots[i], run[m - 1].slots[i], run[m].slots[i]);
    } else {
      RunKeepsInv(plan, run, k);
      assert SlotOk(plan, run[k], i);
    }
  }

  /** The script moves nothing but the planned originals out of the backup
      directory: a newcomer under a retired name stays untouched. */
  lemma OnlyOriginalsMove(plan: Plan, d: Disk, d': Disk, j: nat, i: nat)
    requires PlanValid(plan) && Inv(plan, d) && i < |d.slots| && j < |d.slots| && SlotStep(plan, d, d', j)
    ensures d'.others == d.others
    ensures d'.slots[i].source == d.slots[i].source
      || (d.slots[i].source == Some(plan.originals[i]) && d'.slots[i].source.None? && Settled(d)
          && d.slots[i].record.state.RetireIntent? && d'.slots[i].retiring.Some?
          && CopyOf(d'.slots[i].retiring.value, plan.originals[i]))
  {
    var s, s' := d.slots[i], d'.slots[i];
    if s'.source != s.source {
      assert SlotOk(plan, d, i) && BundleOk(plan, i);
      assert i == j && MoveAside(plan.bundles[i], s, s');
      SourceIsOriginal(plan.bundles[i], plan.originals[i], s);
      TouchedFacts(plan.originals[i], s'.retiring.value[[]].fact.ctime);
    }
  }

  lemma SourceIsOriginal(bundle: Bundle, original: Tree, s: Slot)
    requires SlotInv(bundle, original, s)
    requires s.record.state.RetireIntent? && s.retiring.None?
    ensures s.source == Some(original)
  {
  }

  /** The slot after its source was renamed to the retirement directory. */
  function MovedSlot(s: Slot, time: int): Slot
    requires s.source.Some?
  {
    s.(source := None, retiring := Some(Touched(s.source.value, time)))
  }

  lemma MovedSlotStep(bundle: Bundle, s: Slot, time: int)
    requires s.record.state.RetireIntent? && s.retiring.None? && s.source.Some? && IsTree(s.source.value)
    requires Snapshot(s.source.value) == bundle.tree
    ensures RetireStep(bundle, s, MovedSlot(s, time))
  {
    TouchedFacts(s.source.value, time);
    assert MoveAside(bundle, s, MovedSlot(s, time));
  }

  /** The slot after its stage was renamed into the archive. */
  function PublishedSlot(s: Slot, time: int): Slot
    requires s.stage.Some?
  {
    s.(stage := None, target := Some(Touched(s.stage.value, time)))
  }

  lemma PublishedSlotStep(bundle: Bundle, original: Tree, s: Slot, time: int)
    requires s.record.state.Copied? && s.target.None? && CopiedSomewhere(s, original, bundle.companions)
    requires s.record.hashes == Hashes(original)
    ensures var next := PublishedSlot(s, time);
      && PrepareStep(bundle, s, next)
      && UpToRootTime(Snapshot(next.target.value)) == UpToRootTime(Snapshot(s.stage.value))
  {
    TouchedFacts(s.stage.value, time);
    CopyHasHashes(s.stage.value, original);
    assert Publish(s, PublishedSlot(s, time));
  }
}
