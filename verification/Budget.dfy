/** Space on the archive's disk that a run still needs
    (scripts/archive-production-offsite-backups.py, apply). */
module Budget {
  import opened ArchiveProtocol
  import opened Options
  import opened StageCopy
  import opened TargetVerification
  import opened TreeOrder
  import opened Trees

  /** Bytes the budget counts for bundle i: all of it, less what a recorded stage
      already holds. */
  function Owed(plan: Plan, d: Disk, i: nat): nat
    requires |plan.originals| == |plan.bundles| == |d.slots| && i < |d.slots|
  {
    var order, s := plan.bundles[i].order, d.slots[i];
    if !s.record.state.Planned? then 0
    else if s.record.stageId.None? then Total(plan.originals[i], order, |order|)
    else Missing(s.stage, plan.originals[i], order, |order|)
  }

  /** The same for the bundles from i on. */
  function Pending(plan: Plan, d: Disk, i: nat): nat
    requires |plan.originals| == |plan.bundles| == |d.slots| && i <= |d.slots|
    decreases |d.slots| - i
  {
    if i == |d.slots| then 0 else Owed(plan, d, i) + Pending(plan, d, i + 1)
  }

  /** Bytes that the stage of a bundle takes. */
  function Staged(plan: Plan, d: Disk, i: nat): nat
    requires |plan.bundles| == |d.slots| && i < |d.slots|
  {
    var order, stage := plan.bundles[i].order, d.slots[i].stage;
    if stage.Some? then Total(stage.value, order, |order|) else 0
  }

  /** What copying bundle i changes the free space by: its size less what its stage
      takes already. */
  function Cost(plan: Plan, d: Disk, i: nat): int
    requires |plan.originals| == |plan.bundles| == |d.slots| && i < |d.slots|
  {
    var order := plan.bundles[i].order;
    if d.slots[i].record.state.Planned? then Total(plan.originals[i], order, |order|) - Staged(plan, d, i) else 0
  }

  /** The same for the first k bundles. */
  function Spent(plan: Plan, d: Disk, k: nat): int
    requires |plan.originals| == |plan.bundles| == |d.slots| && k <= |d.slots|
  {
    if k == 0 then 0 else Spent(plan, d, k - 1) + Cost(plan, d, k - 1)
  }

  /** There is room above the reserve to check the database of bundle i. */
  predicate RoomFor(plan: Plan, verifier: Verifier, i: nat, free: int, reserve: nat)
    requires i < |plan.originals|
  {
    Fits(plan.originals[i], verifier, free - reserve)
  }

  /** There will be when bundle i has been copied, and all before it. */
  predicate RoomAt(plan: Plan, verifier: Verifier, d: Disk, free: int, reserve: nat, i: nat)
    requires |plan.originals| == |plan.bundles| == |d.slots| && i < |d.slots|
  {
    RoomFor(plan, verifier, i, free - Spent(plan, d, i + 1), reserve)
  }

  ghost predicate RoomForAll(plan: Plan, verifier: Verifier, d: Disk, free: int, reserve: nat)
    requires |plan.originals| == |plan.bundles| == |d.slots|
  {
    forall i | 0 <= i < |d.slots| :: RoomAt(plan, verifier, d, free, reserve, i)
  }

  lemma SameCost(plan: Plan, d: Disk, d': Disk, i: nat)
    requires |plan.bundles| == |plan.originals| == |d.slots| == |d'.slots| && i < |d.slots| && d'.slots[i] == d.slots[i]
    ensures Cost(plan, d', i) == Cost(plan, d, i)
  {
  }

  lemma {:induction false} SamePending(plan: Plan, d: Disk, d': Disk, i: nat)
    requires |plan.bundles| == |plan.originals| == |d.slots| == |d'.slots| && i <= |d.slots|
    requires forall j | i <= j < |d.slots| :: d'.slots[j] == d.slots[j]
    ensures Pending(plan, d', i) == Pending(plan, d, i)
    decreases |d.slots| - i
  {
    if i < |d.slots| {
      SamePending(plan, d, d', i + 1);
    }
  }

  /** Bytes of the first k listed files that are in the stage as they are in the original. */
  function HeldBytes(stage: Tree, original: Tree, order: seq<Path>, k: nat): nat
    requires k <= |order|
  {
    if k == 0 then 0
    else
      var p := order[k - 1];
      HeldBytes(stage, original, order, k - 1)
        + if p in stage && p in original && stage[p].content == original[p].content then |original[p].content| else 0
  }

  lemma {:induction false} MissingAndHeld(stage: Tree, original: Tree, order: seq<Path>, k: nat)
    requires k <= |order|
    ensures Missing(Some(stage), original, order, k) + HeldBytes(stage, original, order, k) == Total(original, order, k)
  {
    if k > 0 {
      MissingAndHeld(stage, original, order, k - 1);
    }
  }

  /** What the budget counts for a bundle: nothing once it is copied, all of it before a
      stage is recorded, and then what is left when the finished files are taken off. */
  lemma OwedExactly(plan: Plan, d: Disk, i: nat)
    requires |plan.originals| == |plan.bundles| == |d.slots| && i < |d.slots|
    ensures var s, original, order := d.slots[i], plan.originals[i], plan.bundles[i].order;
      && (!s.record.state.Planned? ==> Owed(plan, d, i) == 0)
      && (s.record.state.Planned? && s.record.stageId.None? ==> Owed(plan, d, i) == Total(original, order, |order|))
      && (s.record.state.Planned? && s.record.stageId.Some? && s.stage.Some? ==>
            Owed(plan, d, i) + HeldBytes(s.stage.value, original, order, |order|) == Total(original, order, |order|))
  {
    var s, original, order := d.slots[i], plan.originals[i], plan.bundles[i].order;
    if s.stage.Some? {
      MissingAndHeld(s.stage.value, original, order, |order|);
    }
  }

  /** Copying never takes more than the budget counts. */
  lemma {:induction false} MissingCoversCost(stage: Tree, original: Tree, order: seq<Path>, k: nat)
    requires k <= |order|
    ensures Total(original, order, k) <= Total(stage, order, k) + Missing(Some(stage), original, order, k)
  {
    if k > 0 {
      MissingCoversCost(stage, original, order, k - 1);
    }
  }

  lemma CostWithinOwed(plan: Plan, d: Disk, i: nat)
    requires |plan.originals| == |plan.bundles| == |d.slots| && i < |d.slots|
    ensures Cost(plan, d, i) <= Owed(plan, d, i)
  {
    if d.slots[i].stage.Some? {
      MissingCoversCost(d.slots[i].stage.value, plan.originals[i], plan.bundles[i].order, |plan.bundles[i].order|);
    } else if d.slots[i].record.state.Planned? && d.slots[i].record.stageId.Some? {
      NothingHeld(plan.originals[i], plan.bundles[i].order, |plan.bundles[i].order|);
    }
  }

  lemma {:induction false} NothingHeld(original: Tree, order: seq<Path>, k: nat)
    requires k <= |order|
    ensures Missing(None, original, order, k) == Total(original, order, k)
  {
    if k > 0 {
      NothingHeld(original, order, k - 1);
    }
  }

  /** The largest scratch copy, above what is still to be copied, is always enough. */
  lemma {:induction false} SpentWithinPending(plan: Plan, d: Disk, k: nat)
    requires |plan.originals| == |plan.bundles| == |d.slots| && k <= |d.slots|
    ensures Spent(plan, d, k) + Pending(plan, d, k) <= Pending(plan, d, 0)
  {
    if k > 0 {
      SpentWithinPending(plan, d, k - 1);
      CostWithinOwed(plan, d, k - 1);
    }
  }

  /** Room for the pending bytes, the reserve and the largest scratch copy suffices. */
  lemma LargestScratchSuffices(plan: Plan, verifier: Verifier, d: Disk, free: int, reserve: nat, largest: nat)
    requires |plan.originals| == |plan.bundles| == |d.slots|
    requires forall i | 0 <= i < |d.slots| :: Scratch(plan.originals[i], verifier) <= largest
    requires free >= Pending(plan, d, 0) + reserve + largest
    ensures RoomForAll(plan, verifier, d, free, reserve)
  {
    forall i | 0 <= i < |d.slots| ensures RoomAt(plan, verifier, d, free, reserve, i) {
      SpentWithinPending(plan, d, i + 1);
      assert Scratch(plan.originals[i], verifier) <= largest;
    }
  }
}
