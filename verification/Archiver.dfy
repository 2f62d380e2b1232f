/** The apply command: the process that takes the protocol's steps
    (scripts/archive-production-offsite-backups.py, apply, copy_bundle, purge).

    The process may be killed before any durable write (life counts the writes it is
    still allowed). Every write it makes is appended to log, and log is always a run
    of the protocol from the freshly sealed plan, so the protocol's theorems hold at
    every point where the process can die. What the surroundings answer (health, open
    handles, clock, inode and time stamps, short writes) is a parameter. */
module Archiver {
  import opened ArchiveProtocol
  import opened Budget
  import opened Catalog
  import opened Copies
  import opened Options
  import opened PurgeWalk
  import opened Retention
  import opened Sorting
  import opened StageCopy
  import opened TargetVerification
  import opened Texts
  import opened TreeOrder
  import opened Trees

  /** inode: the identity of a directory created at that time, given those in use. */
  datatype Environment = Environment(
    healthy: nat -> bool,
    busy: nat -> bool,
    clock: nat -> real,
    inode: (nat, set<Identity>) -> Identity,
    time: nat -> int,
    accepted: nat -> nat,
    receipt: Tree -> Option<real>)

  const PRIVATE_DIRECTORY: nat := 448
  const PRIVATE_FILE: nat := 384

  /** A new directory does not get an inode that is in use. */
  ghost predicate NewInodes(env: Environment) {
    forall t, used :: env.inode(t, used) !in used
  }

  /** The clock does not go back from one question to the next. */
  ghost predicate Advances(env: Environment) {
    forall t {:trigger Ticks(env, t)} :: Ticks(env, t)
  }

  predicate Ticks(env: Environment, t: nat) {
    env.clock(t) <= env.clock(t + 1)
  }

  function Lower(a: int, b: int): int {
    if a < b then a else b
  }

  const BLANK: Slot := Slot(UNTOUCHED, None, None, None, None)

  /** The disk apart from slot i. */
  function Elsewhere(d: Disk, i: nat): Disk {
    if i < |d.slots| then d.(slots := d.slots[i := BLANK]) else d
  }

  /** Nobody has reused the inode of a retired source under its old name. */
  predicate NameFree(plan: Plan, d: Disk, i: nat)
    requires i < |d.slots| == |plan.originals|
  {
    d.slots[i].record.state.Retired? ==> ForeignName(d.slots[i], plan.originals[i])
  }

  ghost predicate NamesFree(plan: Plan, d: Disk, i: nat)
    requires |d.slots| == |plan.originals|
  {
    forall j | i <= j < |d.slots| :: NameFree(plan, d, j)
  }

  /** The companions of every bundle are those that its manifest designates. */
  ghost predicate Designated(plan: Plan, verifier: Verifier) {
    |plan.bundles| == |plan.originals| &&
    forall i | 0 <= i < |plan.bundles| :: plan.bundles[i].companions == Companions(plan.originals[i], verifier)
  }

  /** Bundle j is verified in the archive, by this process, and recorded as it is. */
  predicate Prepared(d: Disk, verified: set<nat>, j: nat) {
    && j < |d.slots| && Rank(d.slots[j].record.state) >= Rank(Verified)
    && TargetMatches(d.slots[j]) && j in verified
  }

  class Process {
    const plan: Plan
    const env: Environment
    const policy: Policy
    const reserve: nat
    const verifier: Verifier
    const mortal: bool            // this process will be killed if it writes enough
    ghost const planned: real     // when the plan was made
    ghost const ruled: bool       // earlier processes retired bundles by the rule only
    ghost const fair: bool        // besides, the plan was made by the rule, and time and surroundings have behaved since

    var disk: Disk
    var records: seq<Record>      // the journal in memory
    var cache: set<Inventory>     // inventories verified by this process
    var free: int                 // bytes available on the archive's disk
    var life: nat                 // durable writes left to a mortal process
    var tick: nat                 // questions asked of the surroundings
    var at: nat                   // the bundle being worked on
    ghost var elsewhere: Disk     // the disk apart from that bundle
    ghost var log: seq<Disk>      // every state of the disk since the plan was sealed
    ghost var times: seq<real>    // when each was reached, or last looked at by the rule
    ghost var verified: set<nat>  // bundles verified by this process
    ghost var low: int            // the least free space there has been

    ghost predicate Valid()
      reads this`disk, this`records, this`log, this`times, this`tick, this`cache, this`verified, this`at, this`elsewhere
    {
      && |plan.bundles| == |plan.originals| == |disk.slots| == |records|
      && PlanValid(plan) && Inv(plan, disk)
      && LogOk() && CacheOk()
      && elsewhere == Elsewhere(disk, at)
    }

    /** What has happened is a run of the protocol, and of the retention rule. */
    ghost predicate LogOk()
      reads this`disk, this`log, this`times, this`tick
    {
      && PlanValid(plan) && log != [] && |times| == |log| && log[|log| - 1] == disk
      && ArchiveProtocol.Run(plan, log) && Initial(plan, log[0])
      && (ruled ==> Ruled(plan, env.receipt, log, times, policy))
      && (fair ==> Advances(env) && Fair(plan, env.receipt, policy, planned, log, times, env.clock(tick)))
    }

    /** What is remembered as verified is. */
    ghost predicate CacheOk()
      reads this`disk, this`cache, this`verified
    {
      && NewInodes(env) && Designated(plan, verifier)
      && RootsApart(disk) && CacheMatches(disk, cache, verified)
      && forall i | i in verified :: Genuine(i)
    }

    /** The journal in memory is the one on disk, except perhaps where work is going on. */
    ghost predicate SyncedElsewhere()
      reads this`records, this`disk, this`at
    {
      |records| == |disk.slots| && forall j | 0 <= j < |records| && j != at :: records[j] == disk.slots[j].record
    }

    ghost predicate Synced()
      reads this`records, this`disk, this`at
    {
      SyncedElsewhere() && (at < |records| ==> records[at] == disk.slots[at].record)
    }

    /** The current bundle has not been copied yet. */
    ghost predicate Uncopied()
      reads this`disk, this`records, this`log, this`times, this`tick, this`cache, this`verified, this`at, this`elsewhere
    {
      Valid() && Synced() && at < |disk.slots| && disk.slots[at].record.state.Planned?
    }

    /** Its staging directory exists and is recorded. */
    ghost predicate Staged()
      reads this`disk, this`records, this`log, this`times, this`tick, this`cache, this`verified, this`at, this`elsewhere
    {
      Uncopied() && disk.slots[at].stage.Some? && disk.slots[at].record.stageId.Some?
    }

    /** The pinned verifier accepts the original bytes of bundle i. */
    ghost predicate Genuine(i: nat) {
      i < |plan.bundles| && i < |plan.originals| && verifier.genuine(Hashes(plan.originals[i]), plan.bundles[i])
    }

    /** A process starts on what an earlier one left: history is what happened since the
        plan was sealed, moments when. */
    constructor (plan: Plan, env: Environment, policy: Policy, reserve: nat, verifier: Verifier,
                 disk: Disk, free: int, mortal: bool, life: nat,
                 ghost history: seq<Disk>, ghost moments: seq<real>, ghost planned: real)
      requires PlanValid(plan) && history != [] && |moments| == |history| && history[|history| - 1] == disk
      requires ArchiveProtocol.Run(plan, history) && Initial(plan, history[0])
      requires NewInodes(env) && Designated(plan, verifier) && RootsApart(disk)
      ensures Valid() && Synced() && this.disk == disk && this.free == low == free && this.life == life
      ensures this.plan == plan && this.env == env && this.policy == policy && this.reserve == reserve
      ensures this.verifier == verifier && this.mortal == mortal && verified == {} && tick == 0
      ensures log == history && ruled == Ruled(plan, env.receipt, history, moments, policy)
      ensures fair == (Advances(env) && Fair(plan, env.receipt, policy, planned, history, moments, env.clock(0)))
    {
      RunKeepsInv(plan, history, |history| - 1);
      this.plan, this.env, this.policy, this.reserve, this.verifier := plan, env, policy, reserve, verifier;
      this.disk, this.free, this.mortal, this.life, this.planned := disk, free, mortal, life, planned;
      this.records := seq(|disk.slots|, i requires 0 <= i < |disk.slots| => disk.slots[i].record);
      this.cache, this.tick, this.at, this.elsewhere := {}, 0, 0, Elsewhere(disk, 0);
      this.log, this.times, this.verified, this.low := history, moments, {}, free;
      this.ruled := Ruled(plan, env.receipt, history, moments, policy);
      this.fair := Advances(env) && Fair(plan, env.receipt, policy, planned, history, moments, env.clock(0));
    }

    /** What the invariant says of the current bundle. */
    lemma Here()
      requires Valid() && at < |disk.slots|
      ensures SlotOk(plan, disk, at) && BundleOk(plan, at)
    {
    }

    /** One more question has been asked. */
    method Tick()
      requires Valid()
      modifies this`tick
      ensures Valid() && tick == old(tick) + 1
    {
      if fair {
        assert Ticks(env, tick);
        FairWaits(plan, env.receipt, policy, planned, log, times, env.clock(tick), env.clock(tick + 1));
      }
      tick := tick + 1;
    }

    /** Nothing moves in the step. */
    ghost predicate InPlace(next: Disk)
      reads this`disk
    {
      && |next.slots| == |disk.slots| && next.others == disk.others
      && forall i | 0 <= i < |disk.slots| ::
           next.slots[i] == disk.slots[i].(record := next.slots[i].record)
           && next.slots[i].record.state == disk.slots[i].record.state
    }

    /** The history with one more state. */
    ghost predicate Continues(next: Disk)
      reads this`disk, this`log, this`times, this`tick
    {
      && PlanValid(plan) && log != [] && |times| == |log|
      && ArchiveProtocol.Run(plan, log + [next]) && Initial(plan, log[0])
      && (ruled ==> Ruled(plan, env.receipt, log + [next], times + [env.clock(tick)], policy))
      && (fair ==>
            Advances(env) && Fair(plan, env.receipt, policy, planned, log + [next], times + [env.clock(tick)], env.clock(tick)))
    }

    /** A step that takes nothing away, and no original without the rule's leave. */
    lemma LogGrows(next: Disk)
      requires PlanValid(plan) && Inv(plan, disk) && LogOk() && Next(plan, disk, next) && |next.slots| == |disk.slots|
      requires OnlyAdds(plan, disk, next) && RuleKept(plan, env.receipt, disk, next, times[|times| - 1], policy)
      ensures Continues(next)
    {
      RunGrows(plan, log, next);
      if ruled {
        RuledGrows(plan, env.receipt, policy, log, times, next, env.clock(tick));
      }
      if fair {
        FairGrows(plan, env.receipt, policy, planned, log, times, next, env.clock(tick));
      }
    }

    lemma InPlaceFits(next: Disk)
      requires Valid() && Next(plan, disk, next) && InPlace(next)
      ensures Inv(plan, next) && Continues(next)
      ensures RootsApart(next) && CacheMatches(next, cache, verified)
    {
      NextKeepsInv(plan, disk, next);
      LogGrows(next);
      CacheKeptInPlace(disk, next, cache, verified);
    }

    /** One durable write, unless the process is killed first. */
    method Commit(next: Disk) returns (o: Outcome)
      requires Valid() && Next(plan, disk, next) && InPlace(next)
      modifies this`disk, this`life, this`log, this`times, this`elsewhere
      ensures Valid()
      ensures o.Pass? ==> disk == next
      ensures o.Fail? ==> mortal && o.error == Killed && disk == old(disk) && elsewhere == old(elsewhere)
    {
      hide Fair, Ruled, ArchiveProtocol.Run, RootsApart, CacheMatches, Inv, PlanValid;
      if mortal && life == 0 {
        return Fail(Killed);
      }
      life := if mortal then life - 1 else life;
      InPlaceFits(next);
      disk, log, times := next, log + [next], times + [env.clock(tick)];
      elsewhere := Elsewhere(disk, at);
      return Pass;
    }

    /** The rule, asked when the disk was last looked at, lets the current bundle go. */
    ghost predicate Released()
      reads this`disk, this`at, this`times
    {
      && |plan.bundles| == |plan.originals| == |disk.slots| && at < |disk.slots| && times != []
      && !RankProtected(OwnRow(plan, at), Elements(Rows(plan, env.receipt, disk)), times[|times| - 1], policy)
    }

    /** One durable write that concerns the current slot and takes its record over. The
        source leaves only when released. */
    method Advance(slot: Slot) returns (o: Outcome)
      requires Valid() && SyncedElsewhere() && at < |disk.slots|
      requires PrepareStep(plan.bundles[at], disk.slots[at], slot)
        || (Settled(disk) && RetireStep(plan.bundles[at], disk.slots[at], slot))
      requires slot.source != disk.slots[at].source ==> Released()
      requires CopyTree(disk.slots[at]).None? && CopyTree(slot).Some? ==> RootId(CopyTree(slot).value) !in Roots(disk)
      modifies this`disk, this`life, this`log, this`times, this`records
      ensures Valid() && SyncedElsewhere() && records[at] == slot.record && |disk.slots| == old(|disk.slots|)
      ensures o.Pass? ==> disk.slots[at] == slot && disk == old(disk).(slots := old(disk.slots)[at := slot])
      ensures o.Fail? ==> mortal && o.error == Killed && disk == old(disk)
    {
      hide Fair, Ruled, ArchiveProtocol.Run, RootsApart, CacheMatches, Inv, PlanValid, PrepareStep, RetireStep,
        Released, Roots, CopyTree;
      if mortal && life == 0 {
        records := records[at := slot.record];
        return Fail(Killed);
      }
      life := if mortal then life - 1 else life;
      ghost var next := disk.(slots := disk.slots[at := slot]);
      assert SlotStep(plan, disk, next, at);
      StepFits(next);
      records := records[at := slot.record];
      disk := disk.(slots := disk.slots[at := slot]);
      log, times := log + [next], times + [env.clock(tick)];
      return Pass;
    }

    lemma StepKeepsCache(next: Disk)
      requires Valid() && at < |disk.slots| && SlotStep(plan, disk, next, at)
      requires CopyTree(disk.slots[at]).None? && CopyTree(next.slots[at]).Some? ==>
        RootId(CopyTree(next.slots[at]).value) !in Roots(disk)
      ensures RootsApart(next) && CacheMatches(next, cache, verified)
    {
      hide LogOk;
      assert SlotOk(plan, disk, at);
      if PrepareStep(plan.bundles[at], disk.slots[at], next.slots[at]) {
        PrepareKeepsCopy(plan.bundles[at], plan.originals[at], disk.slots[at], next.slots[at]);
      } else {
        RetireKeepsCopy(plan.bundles[at], plan.originals[at], disk.slots[at], next.slots[at]);
      }
      CacheKept(disk, next, cache, verified, at);
    }

    lemma StepContinues(next: Disk)
      requires Valid() && at < |disk.slots| && SlotStep(plan, disk, next, at)
      requires next.slots[at].source != disk.slots[at].source ==> Released()
      ensures Continues(next)
    {
      ScriptOnlyAdds(plan, disk, next, at);
      assert RuleKept(plan, env.receipt, disk, next, times[|times| - 1], policy) by {
        forall i | 0 <= i < |disk.slots| && Leaves(plan, disk, next, i) ensures i == at {
        }
      }
      LogGrows(next);
    }

    /** What a step of the current slot keeps. */
    lemma StepFits(next: Disk)
      requires Valid() && at < |disk.slots| && SlotStep(plan, disk, next, at)
      requires next.slots[at].source != disk.slots[at].source ==> Released()
      requires CopyTree(disk.slots[at]).None? && CopyTree(next.slots[at]).Some? ==>
        RootId(CopyTree(next.slots[at]).value) !in Roots(disk)
      ensures Inv(plan, next) && Continues(next) && Elsewhere(next, at) == Elsewhere(disk, at)
      ensures RootsApart(next) && CacheMatches(next, cache, verified)
    {
      NextKeepsInv(plan, disk, next);
      StepKeepsCache(next);
      StepContinues(next);
    }

    // ---------- staging and copying ----------

    function Stat(directory: bool, size: nat, mode: nat): Fact
      reads this
    {
      Fact(env.inode(tick, Roots(disk)), directory, mode, 0, 0, size, env.time(tick), env.time(tick), 1)
    }

    /** Bytes the copy of the current bundle still has to write. */
    ghost function Unwritten(): nat
      requires Valid() && at < |disk.slots|
      reads this`disk, this`records, this`log, this`times, this`tick, this`cache, this`verified, this`at, this`elsewhere
    {
      Missing(disk.slots[at].stage, plan.originals[at], plan.bundles[at].order, |plan.bundles[at].order|)
    }

    /** Free space and what the current bundle's stage takes, together. */
    ghost function Space(): int
      requires Valid() && at < |disk.slots|
      reads this`disk, this`records, this`log, this`times, this`tick, this`cache, this`verified, this`at, this`elsewhere, this`free
    {
      free + Budget.Staged(plan, disk, at)
    }

    /** Free space has fallen by no more than that, at any moment. */
    twostate predicate Spends(bytes: int)
      reads this`free, this`low
    {
      free >= old(free) - bytes && low >= Lower(old(low), old(free) - bytes)
    }

    method DeclareStaging() returns (o: Outcome)
      requires Uncopied() && !disk.slots[at].record.stageIntent && disk.slots[at].record.stageId.None?
      modifies this`disk, this`life, this`log, this`times, this`records
      ensures Valid() && SyncedElsewhere() && at < |disk.slots|
      ensures disk.slots[at].record.state.Planned? && disk.slots[at].stage == old(disk.slots[at].stage)
      ensures o.Pass? ==> Synced() && disk.slots[at].record.stageIntent && disk.slots[at].record.stageId.None?
      ensures o.Fail? ==> mortal && o.error == Killed
    {
      hide LogOk, CacheOk, Inv, PlanValid;
      Here();
      var s := disk.slots[at];
      if s.stage.Some? {
        return Fail(StagingConflict);
      }
      o := Advance(s.(record := s.record.(stageIntent := true)));
    }

    method CreateStaging() returns (o: Outcome)
      requires Uncopied() && disk.slots[at].record.stageIntent && disk.slots[at].record.stageId.None?
      requires disk.slots[at].stage.None?
      modifies this`disk, this`life, this`log, this`times, this`records, this`tick
      ensures Uncopied() && Unwritten() <= old(Unwritten()) && Space() == old(Space())
      ensures disk.slots[at].record == old(disk.slots[at].record)
      ensures o.Pass? ==> disk.slots[at].stage.Some?
      ensures o.Fail? ==> mortal && o.error == Killed
    {
      hide LogOk, Inv, PlanValid;
      Here();
      var s := disk.slots[at];
      var root: Tree := map[[] := Node(Stat(true, 0, PRIVATE_DIRECTORY), [])];
      assert InDirectory(root, []);
      Tick();
      MissingShrinks(s.stage, Some(root), plan.originals[at], plan.bundles[at].order, |plan.bundles[at].order|);
      EmptyTotal(root, plan.bundles[at].order, |plan.bundles[at].order|);
      o := Advance(s.(stage := Some(root)));
    }

    method AdoptStaging() returns (o: Outcome)
      requires Uncopied() && disk.slots[at].record.stageIntent && disk.slots[at].record.stageId.None?
      requires disk.slots[at].stage.Some?
      modifies this`disk, this`life, this`log, this`times, this`records
      ensures Valid() && SyncedElsewhere() && at < |disk.slots|
      ensures disk.slots[at].record.state.Planned? && disk.slots[at].stage == old(disk.slots[at].stage)
      ensures o.Pass? ==> Staged()
      ensures o.Fail? ==> mortal && o.error == Killed
    {
      hide LogOk, CacheOk, Inv, PlanValid;
      Here();
      var s := disk.slots[at];
      if !(s.stage.value.Keys <= plan.bundles[at].tree.Keys) {
        return Fail(StagingConflict);
      }
      o := Advance(s.(record := s.record.(stageId := Some(RootId(s.stage.value)))));
    }

    /** Declares, creates and adopts the staging directory; each part is skipped if
        an earlier process already did it. */
    method PrepareStage() returns (o: Outcome)
      requires Uncopied()
      modifies this`disk, this`life, this`log, this`times, this`records, this`tick
      ensures Valid() && SyncedElsewhere() && at < |disk.slots|
      ensures disk.slots[at].record.state.Planned? && Unwritten() <= old(Unwritten()) && Space() == old(Space())
      ensures o.Pass? ==> Staged()
      ensures o.Fail? ==> mortal && o.error == Killed
    {
      hide LogOk, CacheOk, Inv, PlanValid;
      Here();
      if disk.slots[at].target.Some? {
        return Fail(TargetConflict);
      }
      if disk.slots[at].record.stageId.None? {
        if !disk.slots[at].record.stageIntent {
          :- DeclareStaging();
        }
        if disk.slots[at].stage.None? {
          :- CreateStaging();
        }
        :- AdoptStaging();
      }
      return Pass;
    }

    /** What the stage keeps while entry p is being written. */
    twostate predicate StageKept(p: Path)
      reads this`disk, this`at
    {
      at < |disk.slots| && old(at < |disk.slots|) && disk.slots[at].stage.Some? && old(disk.slots[at].stage.Some?)
      && disk.slots[at].record == old(disk.slots[at].record)
      && EntriesKept(old(disk.slots[at].stage.value), disk.slots[at].stage.value, p)
    }

    /** Creates or rewrites one entry of the stage. */
    method PutEntry(p: Path, node: Node) returns (o: Outcome)
      requires Staged()
      requires p in plan.originals[at] && p != [] && Parent(p) in disk.slots[at].stage.value
      requires node.fact.directory == plan.originals[at][p].fact.directory && (node.fact.directory ==> node.content == [])
      modifies this`disk, this`life, this`log, this`times, this`records, this`tick
      ensures Staged() && StageKept(p)
      ensures o.Pass? ==> p in disk.slots[at].stage.value && disk.slots[at].stage.value[p].content == node.content
      ensures o.Pass? ==>
        Budget.Staged(plan, disk, at) == old(Budget.Staged(plan, disk, at)) + |node.content| - old(Size(disk.slots[at].stage.value, p))
      ensures o.Fail? ==> mortal && o.error == Killed && disk == old(disk)
    {
      hide LogOk, CacheOk, Inv, PlanValid, Elsewhere, Genuine;
      Here();
      var s := disk.slots[at];
      StageWithEntry(s.stage.value, plan.bundles[at], plan.originals[at], p, node, env.time(tick));
      var stage := WithEntry(s.stage.value, p, node, env.time(tick));
      EntryTakes(s.stage.value, stage, plan.bundles[at].order, p);
      Tick();
      var next := s.(stage := Some(stage));
      assert WriteStage(plan.bundles[at], s, next);
      o := Advance(next);
    }

    /** Rewrites one file from the source: truncate, then append. At no moment is more
        space taken than the file needs. */
    method WriteFile(p: Path) returns (o: Outcome)
      requires Staged()
      requires p in plan.originals[at] && p != [] && Parent(p) in disk.slots[at].stage.value
      requires !plan.originals[at][p].fact.directory
      modifies this`disk, this`life, this`log, this`times, this`records, this`tick, this`free, this`low
      ensures Staged() && StageKept(p)
      ensures Spends(Size(plan.originals[at], p)) && Space() == old(Space())
      ensures o.Pass? ==> Holds(disk.slots[at].stage.value, plan.originals[at], p)
      ensures o.Fail? ==> mortal && o.error == Killed
    {
      hide LogOk, CacheOk, Inv, PlanValid;
      var reused := Size(disk.slots[at].stage.value, p);
      :- PutEntry(p, Node(Stat(false, 0, PRIVATE_FILE), []));
      free := free + reused;
      o := AppendRest(p);
    }

    /** The file is there up to that many bytes. */
    ghost predicate WrittenTo(p: Path, written: nat)
      reads this`disk, this`at
    {
      && at < |disk.slots| && at < |plan.originals| && p in plan.originals[at] && written <= |plan.originals[at][p].content|
      && disk.slots[at].stage.Some? && p in disk.slots[at].stage.value && Parent(p) in disk.slots[at].stage.value
      && disk.slots[at].stage.value[p].content == plan.originals[at][p].content[..written]
    }

    /** One write to the end of a file. */
    method AppendPart(p: Path, content: Bytes, written: nat, more: nat) returns (o: Outcome)
      requires Staged() && WrittenTo(p, written) && p != [] && !plan.originals[at][p].fact.directory
      requires content == plan.originals[at][p].content && written + more <= |content|
      modifies this`disk, this`life, this`log, this`times, this`records, this`tick, this`free, this`low
      ensures Staged() && StageKept(p) && Spends(more) && Space() == old(Space())
      ensures o.Pass? ==> WrittenTo(p, written + more)
      ensures o.Fail? ==> mortal && o.error == Killed && disk == old(disk) && free == old(free) && low == old(low)
    {
      hide LogOk, CacheOk, Inv, PlanValid;
      :- PutEntry(p, Node(Stat(false, written + more, PRIVATE_FILE), content[..written + more]));
      free := free - more;
      low := Lower(low, free);
      return Pass;
    }

    lemma SourceHere()
      requires Staged()
      ensures disk.slots[at].source == Some(plan.originals[at])
    {
      Here();
    }

    /** Appends whatever each write accepts until the file is complete. */
    method AppendRest(p: Path) returns (o: Outcome)
      requires Staged() && WrittenTo(p, 0) && p != [] && !plan.originals[at][p].fact.directory
      modifies this`disk, this`life, this`log, this`times, this`records, this`tick, this`free, this`low
      ensures Staged() && StageKept(p)
      ensures Spends(Size(plan.originals[at], p)) && Space() == old(Space())
      ensures o.Pass? ==> Holds(disk.slots[at].stage.value, plan.originals[at], p)
      ensures o.Fail? ==> mortal && o.error == Killed
    {
      hide LogOk, CacheOk, Inv, PlanValid, Elsewhere, Genuine, SlotOk, SlotInv, BundleOk, Rank;
      SourceHere();
      var content := disk.slots[at].source.value[p].content;
      var written := 0;
      while written < |content|
        invariant Staged() && StageKept(p) && WrittenTo(p, written)
        invariant Spends(written) && Space() == old(Space())
      {
        var more := 1 + env.accepted(tick) % (|content| - written);
        :- AppendPart(p, content, written, more);
        written := written + more;
      }
      assert content[..written] == content;
      return Pass;
    }

    /** One listed entry: made, kept as it is, or rewritten. */
    method CopyEntry(p: Path) returns (o: Outcome)
      requires Staged() && p in plan.originals[at]
      requires p != [] ==> Parent(p) in disk.slots[at].stage.value
      modifies this`disk, this`life, this`log, this`times, this`records, this`tick, this`free, this`low
      ensures Staged() && StageKept(p)
      ensures Spends(if old(Holds(disk.slots[at].stage.value, plan.originals[at], p)) then 0 else Size(plan.originals[at], p))
      ensures Space() == old(Space())
      ensures o.Pass? ==> Holds(disk.slots[at].stage.value, plan.originals[at], p)
      ensures o.Fail? ==> mortal && o.error == Killed
    {
      hide LogOk, CacheOk, Inv, PlanValid;
      Here();
      var source := disk.slots[at].source.value;
      if p == [] || Holds(disk.slots[at].stage.value, source, p) {
        return Pass;
      }
      if source[p].fact.directory {
        o := PutEntry(p, Node(Stat(true, 0, PRIVATE_DIRECTORY), []));
      } else {
        o := WriteFile(p);
      }
    }

    /** The k-th listed entry, the ones before it being complete. */
    method CopyNext(k: nat, ghost start: Tree) returns (o: Outcome)
      requires Staged() && k < |plan.bundles[at].order|
      requires CopiedUpTo(disk.slots[at].stage.value, plan.originals[at], plan.bundles[at].order, k)
      requires KeptFrom(start, disk.slots[at].stage.value, plan.originals[at], plan.bundles[at].order, k)
      modifies this`disk, this`life, this`log, this`times, this`records, this`tick, this`free, this`low
      ensures Staged() && Space() == old(Space())
      ensures Spends(Missing(Some(start), plan.originals[at], plan.bundles[at].order, k + 1)
                     - Missing(Some(start), plan.originals[at], plan.bundles[at].order, k))
      ensures o.Pass? ==>
        && CopiedUpTo(disk.slots[at].stage.value, plan.originals[at], plan.bundles[at].order, k + 1)
        && KeptFrom(start, disk.slots[at].stage.value, plan.originals[at], plan.bundles[at].order, k + 1)
      ensures o.Fail? ==> mortal && o.error == Killed
    {
      hide LogOk, CacheOk, Inv, PlanValid, CopiedUpTo;
      var order := plan.bundles[at].order;
      ghost var before := disk.slots[at].stage.value;
      NextHasParent(k);
      o := CopyEntry(order[k]);
      if o.Pass? {
        CopyAdvances(start, before, disk.slots[at].stage.value, plan.originals[at], order, k);
      }
    }

    lemma NextHasParent(k: nat)
      requires Staged() && k < |plan.bundles[at].order|
      requires CopiedUpTo(disk.slots[at].stage.value, plan.originals[at], plan.bundles[at].order, k)
      ensures var p := plan.bundles[at].order[k];
        p in plan.originals[at] && (p != [] ==> Parent(p) in disk.slots[at].stage.value)
      ensures Distinct(plan.bundles[at].order)
    {
      Here();
      var order := plan.bundles[at].order;
      assert ParentEarlier(order, k) && order[k] in order;
      if order[k] != [] {
        ParentHeld(disk.slots[at].stage.value, plan.originals[at], order, k);
      }
    }

    /** Copies the bundle into its stage in the plan's order, keeping files that an
        earlier process completed. */
    method CopyEntries() returns (o: Outcome)
      requires Staged()
      modifies this`disk, this`life, this`log, this`times, this`records, this`tick, this`free, this`low
      ensures Staged() && Space() == old(Space()) && Spends(old(Unwritten()))
      ensures o.Pass? ==> CopiedUpTo(disk.slots[at].stage.value, plan.originals[at], plan.bundles[at].order, |plan.bundles[at].order|)
      ensures o.Fail? ==> mortal && o.error == Killed
    {
      hide LogOk, CacheOk, Inv, PlanValid;
      var order := plan.bundles[at].order;
      ghost var start, original := disk.slots[at].stage.value, plan.originals[at];
      for k := 0 to |order|
        invariant Staged() && CopiedUpTo(disk.slots[at].stage.value, original, order, k)
        invariant KeptFrom(start, disk.slots[at].stage.value, original, order, k)
        invariant Space() == old(Space()) && Spends(Missing(Some(start), original, order, k))
      {
        o := CopyNext(k, start);
        if o.Fail? {
          MissingGrows(Some(start), original, order, k + 1, |order|);
          return;
        }
      }
      return Pass;
    }

    method CopyBundle() returns (o: Outcome)
      requires Staged()
      modifies this`disk, this`life, this`log, this`times, this`records, this`tick, this`free, this`low
      ensures Valid() && SyncedElsewhere() && at < |disk.slots|
      ensures Spends(old(Unwritten()))
      ensures Rank(disk.slots[at].record.state) <= Rank(Copied)
      ensures o.Pass? ==> Synced() && disk.slots[at].record.state.Copied? && disk.slots[at].target.None?
      ensures o.Pass? ==> free == old(free) - old(Cost(plan, disk, at))
      ensures o.Fail? ==> mortal && o.error == Killed
    {
      hide LogOk, CacheOk, Inv, PlanValid;
      o := CopyEntries();
      if o.Fail? {
        return;
      }
      SameTotal(disk.slots[at].stage.value, plan.originals[at], plan.bundles[at].order, |plan.bundles[at].order|);
      o := FinishCopying();
    }

    /** Compares source and stage with the plan and with each other, and records the
        copy. */
    method FinishCopying() returns (o: Outcome)
      requires Staged()
      requires CopiedUpTo(disk.slots[at].stage.value, plan.originals[at], plan.bundles[at].order, |plan.bundles[at].order|)
      modifies this`disk, this`life, this`log, this`times, this`records
      ensures Valid() && SyncedElsewhere() && at < |disk.slots|
      ensures Rank(disk.slots[at].record.state) <= Rank(Copied)
      ensures o.Pass? ==> Synced() && disk.slots[at].record.state.Copied? && disk.slots[at].target.None?
      ensures o.Fail? ==> mortal && o.error == Killed
    {
      hide LogOk, CacheOk, Inv, PlanValid;
      Here();
      var s := disk.slots[at];
      CompleteStage(s.stage.value, plan.bundles[at], plan.originals[at]);
      if Snapshot(s.source.value) != plan.bundles[at].tree {
        return Fail(SourceDrift);
      }
      if Hashes(s.stage.value) != Hashes(s.source.value) {
        return Fail(CopyContentMismatch);
      }
      o := Advance(s.(record := s.record.(state := Copied, hashes := Hashes(s.source.value),
                                          targetTree := Snapshot(s.stage.value))));
    }

    /** PLANNED: stages the bundle and copies it, within the bytes it owes. */
    method CopyPlanned() returns (o: Outcome)
      requires Uncopied()
      modifies this`disk, this`life, this`log, this`times, this`records, this`tick, this`free, this`low
      ensures Valid() && SyncedElsewhere() && at < |disk.slots|
      ensures Spends(old(Owed(plan, disk, at)))
      ensures Rank(disk.slots[at].record.state) <= Rank(Copied)
      ensures o.Pass? ==> Synced() && disk.slots[at].record.state.Copied? && disk.slots[at].target.None?
      ensures o.Pass? ==> free == old(free) - old(Cost(plan, disk, at))
      ensures o.Fail? ==> mortal && o.error == Killed
    {
      hide LogOk, CacheOk, Inv, PlanValid;
      Here();
      var order := plan.bundles[at].order;
      MissingAtMostTotal(disk.slots[at].stage, plan.originals[at], order, |order|);
      :- PrepareStage();
      o := CopyBundle();
    }

    // ---------- verification and publication ----------

    /** The journal in memory may be ahead of the disk by recorded times only. */
    ghost predicate Savable()
      reads this`records, this`disk, this`at
    {
      SyncedElsewhere() && |records| == |plan.bundles| && (at < |records| ==>
        records[at] == disk.slots[at].record
        || Rerecord(plan.bundles[at].companions, disk.slots[at], disk.slots[at].(record := records[at])))
    }

    /** The verifier accepts bundle i, and with that much free space its database can be
        checked. */
    ghost predicate Suits(i: nat, space: int) {
      Genuine(i) && RoomFor(plan, verifier, i, space, reserve)
    }

    /** Verification has failed: for want of room, or because the verifier rejects the
        bundle. */
    ghost predicate Refused(o: Outcome)
      requires o.Fail?
      reads this`records, this`disk, this`at, this`free
    {
      && Savable() && at < |plan.originals| && !Suits(at, free)
      && o.error == if RoomFor(plan, verifier, at, free, reserve) then TargetReceiptInvalid else DataReserveInsufficient
    }

    ghost predicate Excused(o: Outcome)
      requires o.Fail?
      reads this`records, this`disk, this`at, this`free
    {
      (mortal && o.error == Killed) || Refused(o)
    }

    /** Free space is as before, and has not been below the reserve meanwhile. */
    twostate predicate SpareKept()
      reads this`free, this`low
    {
      free == old(free) && low >= Lower(old(low), reserve)
    }

    /** The current bundle has been copied, and memory records its copy, perhaps with times
        that are out of date. */
    ghost predicate CopyInHand()
      reads this`records, this`disk, this`at
    {
      && at < |disk.slots| && |disk.slots| == |records| == |plan.bundles|
      && Rank(disk.slots[at].record.state) >= Rank(Copied) && CopyTree(disk.slots[at]).Some?
      && InHand(plan.bundles[at], disk.slots[at], records[at])
    }

    predicate InHand(bundle: Bundle, s: Slot, record: Record)
      requires CopyTree(s).Some?
    {
      && record == s.record.(targetTree := record.targetTree, reconciliations := record.reconciliations)
      && s.record.reconciliations <= record.reconciliations
      && Records(record.targetTree, CopyTree(s).value, bundle.companions)
      && (Rank(record.state) > Rank(Verified) ==> Snapshot(CopyTree(s).value) == record.targetTree)
    }

    /** What the invariant says of a current bundle that has been copied. */
    lemma CopyHere()
      requires Valid() && at < |disk.slots| && Rank(disk.slots[at].record.state) >= Rank(Copied)
      ensures var s, companions := disk.slots[at], plan.bundles[at].companions;
        && CopyTree(s).Some? && [] in CopyTree(s).value && s.record.stageId == Some(RootId(CopyTree(s).value))
        && Hashes(CopyTree(s).value) == Hashes(plan.originals[at]) == s.record.hashes
        && (s.stage.None? || s.target.None?) && [] !in companions
        && (Rank(s.record.state) >= Rank(Verified) ==> s.target.Some? && Records(s.record.targetTree, s.target.value, companions))
        && (Rank(s.record.state) > Rank(Verified) ==> Snapshot(s.target.value) == s.record.targetTree)
        && (s.record.state.Copied? && s.target.None? ==> Records(s.record.targetTree, s.stage.value, companions))
        && (s.record.state.Copied? && s.target.Some? ==>
              [] in s.record.targetTree && RecordsMoved(s.record.targetTree, s.target.value, companions))
    {
      hide LogOk, CacheOk;
      Here();
      CopyIsWhole(plan.bundles[at], plan.originals[at], disk.slots[at]);
      CopyHasHashes(CopyTree(disk.slots[at]).value, plan.originals[at]);
    }

    lemma WholeHere()
      requires Valid() && at < |disk.slots| && Rank(disk.slots[at].record.state) >= Rank(Copied)
      ensures CopyTree(disk.slots[at]).Some? && IsTree(CopyTree(disk.slots[at]).value)
      ensures CopyOf(CopyTree(disk.slots[at]).value, plan.originals[at]) && Snapshot(plan.originals[at]) == plan.bundles[at].tree
      ensures disk.slots[at].record.hashes == Hashes(plan.originals[at])
      ensures Rank(disk.slots[at].record.state) <= Rank(Verified) ==> disk.slots[at].source == Some(plan.originals[at])
    {
      hide LogOk, CacheOk;
      Here();
      CopyIsWhole(plan.bundles[at], plan.originals[at], disk.slots[at]);
    }

    /** The scratch copy of a database is made and removed again. */
    method UseScratch(bytes: nat)
      requires bytes <= free - reserve
      modifies this`free, this`low
      ensures SpareKept()
    {
      free := free - bytes;
      low := Lower(low, free);
      free := free + bytes;
    }

    /** Whether the copy in hand was verified by this process, with the recorded facts. */
    ghost predicate Seen()
      requires CopyInHand()
      reads this`records, this`disk, this`at, this`verified
    {
      at in verified && Snapshot(CopyTree(disk.slots[at]).value) == records[at].targetTree
    }

    /** The verdict on the copy in hand. */
    ghost function VerdictInHand(): Verdict
      requires CopyInHand() && |plan.bundles| == |disk.slots|
      reads this`records, this`disk, this`at, this`cache, this`free
    {
      VerifyTarget(CopyTree(disk.slots[at]).value, SourceInHand(), plan.bundles[at], records[at], verifier, cache, free - reserve)
    }

    function SourceInHand(): Tree
      requires at < |disk.slots|
      reads this`disk, this`at
    {
      if disk.slots[at].source.Some? then disk.slots[at].source.value else map[]
    }

    lemma VerdictFits()
      requires Valid() && CopyInHand()
      ensures VerdictInHand().Accept? <==> Genuine(at) && (Seen() || RoomFor(plan, verifier, at, free, reserve))
      ensures VerdictInHand().Accept? ==>
        var record := VerdictInHand().record;
        && InHand(plan.bundles[at], disk.slots[at], record) && Snapshot(CopyTree(disk.slots[at]).value) == record.targetTree
        && (Snapshot(CopyTree(disk.slots[at]).value) == records[at].targetTree ==> record == records[at])
        && CacheMatches(disk, VerdictInHand().cache, verified + {at})
      ensures VerdictInHand().Reject? ==>
        VerdictInHand().why == if RoomFor(plan, verifier, at, free, reserve) then TargetReceiptInvalid else DataReserveInsufficient
    {
      hide LogOk, Inv, PlanValid, RootsApart, CacheMatches, NewInodes, IsTree, CopyOf, SameButTimes, VerifyTarget;
      WholeHere();
      KnownMeansVerified(disk, cache, verified, at);
      CacheGrows(disk, cache, verified, at);
      VerdictOnCopy(CopyTree(disk.slots[at]).value, SourceInHand(), plan.bundles[at], plan.originals[at], records[at], verifier,
                    cache, free - reserve);
      SameRecords(CopyTree(disk.slots[at]).value, plan.bundles[at].companions);
    }

    /** verify_target on the copy of the current bundle: passes exactly if the verifier
        accepts the original bytes and the copy has been seen before or there is room to
        check its database; then memory records the copy as it is. */
    method VerifyTree() returns (o: Outcome)
      requires Valid() && CopyInHand()
      modifies this`cache, this`verified, this`records, this`free, this`low
      ensures Valid() && SpareKept() && CopyInHand() && (old(SyncedElsewhere()) ==> SyncedElsewhere())
      ensures o.Pass? <==> Genuine(at) && (old(Seen()) || RoomFor(plan, verifier, at, free, reserve))
      ensures o.Pass? ==> verified == old(verified) + {at} && Seen()
      ensures o.Pass? && old(Snapshot(CopyTree(disk.slots[at]).value) == records[at].targetTree) ==> records == old(records)
      ensures o.Fail? ==> records == old(records) && verified == old(verified)
      ensures o.Fail? ==>
        o.error == if RoomFor(plan, verifier, at, free, reserve) then TargetReceiptInvalid else DataReserveInsufficient
    {
      hide LogOk, Inv, PlanValid, RootsApart, CacheMatches, NewInodes, Designated, CopyTree, Records, VerifyTarget;
      VerdictFits();
      var tree := CopyTree(disk.slots[at]).value;
      var verdict := VerifyTarget(tree, SourceInHand(), plan.bundles[at], records[at], verifier, cache, free - reserve);
      if Fits(tree, verifier, free - reserve) && Database(tree, verifier).Some?
        && !(Snapshot(tree) == records[at].targetTree && UpToRootTime(Snapshot(tree)) in cache) {
        UseScratch(Scratch(tree, verifier));
      }
      match verdict {
        case Accept(record, accepted) =>
          cache, verified, records := accepted, verified + {at}, records[at := record];
          return Pass;
        case Reject(why) =>
          return Fail(why);
      }
    }

    /** The journal takes over what memory records of the copy, if that is new. */
    method NoteTimes() returns (o: Outcome)
      requires Valid() && SyncedElsewhere() && CopyInHand() && Rank(disk.slots[at].record.state) <= Rank(Verified)
      requires disk.slots[at].stage.None? || disk.slots[at].target.None?
      modifies this`disk, this`life, this`log, this`times, this`records
      ensures Valid() && SyncedElsewhere() && CopyInHand() && records == old(records)
      ensures disk.slots[at] == old(disk.slots[at]).(record := disk.slots[at].record)
      ensures disk.slots[at].record.state == old(disk.slots[at].record.state)
      ensures o.Pass? ==> Synced()
      ensures o.Fail? ==> mortal && o.error == Killed
    {
      hide LogOk, CacheOk, Inv, PlanValid, CopyOf, SameButTimes, UpToRootTime, Records, RecordsMoved;
      CopyHere();
      if records[at] == disk.slots[at].record {
        return Pass;
      }
      ghost var copy := CopyTree(disk.slots[at]).value;
      RecordsUpToRoot(records[at].targetTree, copy, plan.bundles[at].companions);
      var next := disk.slots[at].(record := records[at]);
      assert Rerecord(plan.bundles[at].companions, disk.slots[at], next);
      o := Advance(next);
    }

    /** The copy is in place and memory records it. */
    ghost predicate Published()
      reads this`disk, this`records, this`log, this`times, this`tick, this`cache, this`verified, this`at, this`elsewhere
    {
      && Valid() && SyncedElsewhere() && CopyInHand() && disk.slots[at].record.state.Copied?
      && disk.slots[at].target.Some? && disk.slots[at].stage.None?
    }

    /** Verifies a copy that is recorded and journals the times that it has now. */
    method VerifyAndNote() returns (o: Outcome)
      requires Valid() && Synced() && CopyInHand() && Rank(disk.slots[at].record.state) <= Rank(Verified)
      requires disk.slots[at].stage.None? || disk.slots[at].target.None?
      modifies this`disk, this`life, this`log, this`times, this`records, this`cache, this`verified, this`free,
        this`low
      ensures Valid() && SpareKept() && SyncedElsewhere() && CopyInHand()
      ensures old(verified) <= verified <= old(verified) + {at}
      ensures disk.slots[at] == old(disk.slots[at]).(record := disk.slots[at].record)
      ensures disk.slots[at].record.state == old(disk.slots[at].record.state)
      ensures o.Pass? ==> Synced() && Seen() && Genuine(at) && (at !in old(verified) ==> Suits(at, free))
      ensures o.Fail? ==> Excused(o) && (o.error != Killed ==> !old(Seen()))
    {
      hide LogOk, CacheOk, Inv, PlanValid, CopyOf, SameButTimes, UpToRootTime, Records, RecordsMoved, RoomFor,
        SlotOk, BundleOk, Elsewhere, Genuine, Rerecord;
      SeenIsGenuine();
      :- VerifyTree();
      o := NoteTimes();
    }

    /** Verifies the stage and moves it into place; its new inventory is noted in
        memory only. */
    method PublishStage() returns (o: Outcome)
      requires Valid() && Synced() && at < |disk.slots| && disk.slots[at].record.state.Copied? && disk.slots[at].target.None?
      modifies this`disk, this`life, this`log, this`times, this`records, this`tick, this`cache, this`verified,
        this`free, this`low
      ensures old(verified) <= verified <= old(verified) + {at}
      ensures Valid() && SpareKept() && SyncedElsewhere() && at < |disk.slots| && disk.slots[at].record.state.Copied?
      ensures o.Pass? ==> Published() && Seen() && Genuine(at) && (at !in old(verified) ==> Suits(at, free))
      ensures o.Fail? ==> Excused(o)
    {
      hide LogOk, CacheOk, Inv, PlanValid, CopyOf, SameButTimes, UpToRootTime, Records, RecordsMoved, RoomFor,
        SlotOk, BundleOk, Elsewhere, Genuine, Rerecord;
      CopyHere();
      :- VerifyAndNote();
      o := RenameStage();
    }

    lemma SameRecords(tree: Tree, companions: set<Path>)
      ensures Records(Snapshot(tree), tree, companions)
    {
    }

    lemma PublishedHere(now: int)
      requires Valid() && at < |disk.slots| && disk.slots[at].record.state.Copied? && disk.slots[at].target.None?
      ensures disk.slots[at].stage.Some?
      ensures var next := PublishedSlot(disk.slots[at], now);
        PrepareStep(plan.bundles[at], disk.slots[at], next) && CopyTree(disk.slots[at]).Some?
    {
      hide LogOk, CacheOk;
      Here();
      CopyIsWhole(plan.bundles[at], plan.originals[at], disk.slots[at]);
      PublishedSlotStep(plan.bundles[at], plan.originals[at], disk.slots[at], now);
    }

    method RenameStage() returns (o: Outcome)
      requires Valid() && Synced() && at < |disk.slots| && disk.slots[at].record.state.Copied? && disk.slots[at].target.None?
      requires CopyInHand() && Seen()
      modifies this`disk, this`life, this`log, this`times, this`records, this`tick
      ensures Valid() && SyncedElsewhere() && at < |disk.slots| && disk.slots[at].record.state.Copied?
      ensures o.Pass? ==> Published() && Seen()
      ensures o.Fail? ==> mortal && o.error == Killed
    {
      hide LogOk, CacheOk, Inv, PlanValid, CopyOf, SameButTimes, Records, RecordsMoved;
      var now := env.time(tick);
      Tick();
      PublishedHere(now);
      o := Advance(PublishedSlot(disk.slots[at], now));
      if o.Pass? {
        records := records[at := records[at].(targetTree := Snapshot(disk.slots[at].target.value))];
        SameRecords(disk.slots[at].target.value, plan.bundles[at].companions);
      }
    }

    /** Takes over a publication that an earlier process made but did not journal. */
    method ResumePublication() returns (o: Outcome)
      requires Valid() && Synced() && at < |disk.slots| && disk.slots[at].record.state.Copied? && disk.slots[at].target.Some?
      modifies this`records
      ensures Valid() && o.Pass? && Published()
    {
      hide LogOk, CacheOk, Inv, PlanValid, CopyOf, SameButTimes, UpToRootTime, Records, RecordsMoved;
      CopyHere();
      var s := disk.slots[at];
      if s.record.stageId != Some(RootId(s.target.value)) || s.stage.Some? {
        return Fail(TargetConflict);
      }
      var published, previous := s.target.value[[]].fact.ctime, s.record.targetTree;
      WithRootTime(previous, s.target.value, plan.bundles[at].companions);
      records := records[at := records[at].(targetTree := previous[[] := previous[[]].(ctime := published)])];
      return Pass;
    }

    /** Verifies the published copy and journals it. */
    method ConfirmTarget() returns (o: Outcome)
      requires Published()
      modifies this`disk, this`life, this`log, this`times, this`records, this`cache, this`verified, this`free,
        this`low
      ensures old(verified) <= verified <= old(verified) + {at}
      ensures Valid() && SpareKept() && SyncedElsewhere() && at < |disk.slots|
      ensures Rank(disk.slots[at].record.state) <= Rank(Verified)
      ensures disk == old(disk) || Genuine(at)
      ensures o.Pass? ==> Synced() && disk.slots[at].record.state.Verified? && TargetMatches(disk.slots[at]) && at in verified
      ensures o.Pass? ==> Genuine(at) && (at !in old(verified) ==> Suits(at, free))
      ensures o.Fail? ==> Excused(o)
    {
      hide LogOk, CacheOk, Inv, PlanValid, CopyOf, SameButTimes, UpToRootTime, Records, RecordsMoved, RoomFor,
        SlotOk, BundleOk, Elsewhere, Genuine;
      CopyHere();
      InHandSavable();
      :- VerifyTree();
      var next := disk.slots[at].(record := records[at].(state := Verified));
      assert Confirm(plan.bundles[at].companions, disk.slots[at], next);
      o := Advance(next);
    }

    /** What memory records of the copy in hand may be written to the journal. */
    lemma InHandSavable()
      requires Published()
      ensures Savable()
    {
      hide LogOk, CacheOk, CopyOf, Records, RecordsMoved;
      CopyHere();
      RecordsUpToRoot(records[at].targetTree, disk.slots[at].target.value, plan.bundles[at].companions);
    }

    /** Checks a verified copy again, and journals the times that it has now. */
    method VerifyCurrent() returns (o: Outcome)
      requires Valid() && Synced() && at < |disk.slots| && Rank(disk.slots[at].record.state) >= Rank(Verified)
      modifies this`disk, this`life, this`log, this`times, this`records, this`cache, this`verified, this`free,
        this`low
      ensures old(verified) <= verified <= old(verified) + {at}
      ensures Valid() && SpareKept() && SyncedElsewhere() && at < |disk.slots|
      ensures disk.slots[at] == old(disk.slots[at]).(record := disk.slots[at].record)
      ensures disk.slots[at].record.state == old(disk.slots[at].record.state)
      ensures o.Pass? ==> Synced() && TargetMatches(disk.slots[at]) && at in verified
      ensures o.Pass? ==> Genuine(at) && (at !in old(verified) ==> Suits(at, free))
      ensures o.Fail? ==> Excused(o) && !(old(at in verified && TargetMatches(disk.slots[at])) && o.error != Killed)
    {
      hide LogOk, CacheOk, Inv, PlanValid, CopyOf, SameButTimes, UpToRootTime, Records, RecordsMoved, RoomFor,
        SlotOk, BundleOk, Elsewhere;
      CopyHere();
      SeenIsGenuine();
      if disk.slots[at].record.state.Verified? {
        o := VerifyAndNote();
      } else {
        o := VerifyTree();
      }
      CopyHere();
    }

    lemma SeenIsGenuine()
      requires Valid()
      ensures at in verified ==> Genuine(at)
    {
    }

    method PublishCopied() returns (o: Outcome)
      requires Valid() && Synced() && at < |disk.slots| && disk.slots[at].record.state.Copied? && at !in verified
      modifies this`disk, this`life, this`log, this`times, this`records, this`tick, this`cache, this`verified,
        this`free, this`low
      ensures old(verified) <= verified <= old(verified) + {at}
      ensures Valid() && SpareKept() && SyncedElsewhere() && at < |disk.slots|
      ensures Rank(disk.slots[at].record.state) <= Rank(Verified)
      ensures o.Pass? ==> Synced() && disk.slots[at].record.state.Verified? && TargetMatches(disk.slots[at]) && at in verified
      ensures o.Pass? ==> Suits(at, free)
      ensures o.Fail? ==> Excused(o)
    {
      hide LogOk, CacheOk, Inv, PlanValid;
      if disk.slots[at].target.None? {
        :- PublishStage();
      } else {
        o := ResumePublication();
      }
      o := ConfirmTarget();
    }

    /** The first loop's body: whatever is left to do until the current bundle is
        verified in the archive. Unless killed it succeeds exactly if the verifier accepts
        the bundle and, once it is copied, there is room to check its database. */
    method PrepareBundle() returns (o: Outcome)
      requires Valid() && Synced() && at < |disk.slots| && at !in verified
      modifies this`disk, this`life, this`log, this`times, this`records, this`tick, this`free, this`low, this`cache,
        this`verified
      ensures old(verified) <= verified <= old(verified) + {at}
      ensures Valid() && SyncedElsewhere() && at < |disk.slots|
      ensures free >= old(free) - old(Owed(plan, disk, at))
      ensures low >= Lower(old(low), Lower(old(free) - old(Owed(plan, disk, at)), reserve))
      ensures old(Rank(disk.slots[at].record.state)) >= Rank(Verified) ==>
        disk.slots[at] == old(disk.slots[at]).(record := disk.slots[at].record)
        && disk.slots[at].record.state == old(disk.slots[at].record.state)
      ensures old(Rank(disk.slots[at].record.state)) < Rank(Verified) ==> Rank(disk.slots[at].record.state) <= Rank(Verified)
      ensures o.Pass? ==>
        && Synced() && Rank(disk.slots[at].record.state) >= Rank(Verified) && TargetMatches(disk.slots[at]) && at in verified
        && Suits(at, free)
      ensures o.Fail? ==> Excused(o)
      ensures o.Pass? || o.error != Killed ==> free == old(free) - old(Cost(plan, disk, at))
    {
      hide LogOk, CacheOk, Inv, PlanValid;
      if disk.slots[at].record.state.Planned? {
        :- CopyPlanned();
      }
      if disk.slots[at].record.state.Copied? {
        :- PublishCopied();
      }
      o := VerifyCurrent();
    }

    // ---------- retirement ----------

    /** The health check always passes and nobody holds a file open. */
    ghost predicate Calm() {
      forall t: nat :: env.healthy(t) && !env.busy(t)
    }

    ghost predicate Favourable()
      reads this`at, this`verified
    {
      Calm() && fair && at in verified
    }

    /** Every target is verified, the index is written, and memory and disk agree, also
        about the facts of the current copy. */
    ghost predicate Retirement()
      reads this`disk, this`records, this`log, this`times, this`tick, this`cache, this`verified, this`at, this`elsewhere
    {
      Valid() && Synced() && at < |disk.slots| && disk.index && TargetMatches(disk.slots[at])
    }

    lemma Settles()
      requires Valid() && disk.index
      ensures Settled(disk)
    {
      forall i | 0 <= i < |disk.slots| ensures Rank(disk.slots[i].record.state) >= Rank(Verified) {
        assert SlotOk(plan, disk, i);
      }
    }

    /** The retention rule protects bundle i at that moment. */
    ghost predicate Kept(d: Disk, i: nat, t: nat)
      requires |plan.bundles| == |plan.originals| == |d.slots| && i < |plan.bundles|
    {
      var rows := Rows(plan, env.receipt, d);
      exists row | row in rows :: row.name == plan.bundles[i].name && RankProtected(row, Elements(rows), env.clock(t), policy)
    }

    /** Three questions asked in a row allow its retirement: the rule, the open handles
        and the health of the services. */
    ghost predicate Cleared(d: Disk, i: nat, t: nat)
      requires |plan.bundles| == |plan.originals| == |d.slots| && i < |plan.bundles|
    {
      !Kept(d, i, t) && !env.busy(t + 1) && env.healthy(t + 2)
    }

    /** The disk is looked at now. */
    ghost method Look()
      requires Valid()
      modifies this`times
      ensures Valid() && times != [] && times[|times| - 1] == env.clock(tick)
    {
      if ruled {
        RuledLooks(plan, env.receipt, policy, log, times, env.clock(tick));
      }
      if fair {
        FairLooks(plan, env.receipt, policy, planned, log, times, env.clock(tick));
      }
      times := times[|times| - 1 := env.clock(tick)];
    }

    /** If the plan was made by the rule, the rule allows what was planned. */
    lemma PlannedMayGo()
      requires Valid() && fair
      ensures Retirable(plan, env.receipt, disk, env.clock(tick), policy)
    {
      PlannedIsNeverProtected(plan, env.receipt, log, times, policy, planned, env.clock(tick));
    }

    lemma RowsNamed()
      requires Valid()
      ensures DistinctNames(Rows(plan, env.receipt, disk))
    {
      RowNames(plan, env.receipt, disk);
    }

    /** The only row of the bundle's name is its own, while the original is there. */
    lemma OwnRowDecides(t: nat)
      requires Valid() && at < |disk.slots| && disk.slots[at].source == Some(plan.originals[at])
      ensures Kept(disk, at, t) <==> RankProtected(OwnRow(plan, at), Elements(Rows(plan, env.receipt, disk)), env.clock(t), policy)
    {
      hide LogOk, CacheOk, Inv, PlanValid;
      RowsNamed();
      OwnRowListed(plan, env.receipt, disk, at);
    }

    /** The retention rule, asked again of the directory as it is now. */
    method CheckProtection() returns (o: Outcome)
      requires Valid() && at < |disk.slots|
      modifies this`tick, this`times
      ensures Valid() && tick == old(tick) + 1
      ensures o.Pass? <==> !Kept(disk, at, old(tick))
      ensures o.Fail? ==> o.error == ProtectedBundle
      ensures disk.slots[at].source == Some(plan.originals[at]) ==> (o.Pass? ==> Released()) && (fair ==> o.Pass?)
    {
      hide LogOk, CacheOk, Inv, PlanValid;
      var rows := Rows(plan, env.receipt, disk);
      RowsNamed();
      var keep := Protected(rows, env.clock(tick), policy);
      if disk.slots[at].source == Some(plan.originals[at]) {
        OwnRowDecides(tick);
        if fair {
          PlannedMayGo();
        }
      }
      Look();
      Tick();
      o := if plan.bundles[at].name in keep then Fail(ProtectedBundle) else Pass;
    }

    /** A retirement step that leaves the backup directory as it is. */
    method AdvanceInPlace(slot: Slot) returns (o: Outcome)
      requires Retirement() && slot.source == disk.slots[at].source
      requires RetireStep(plan.bundles[at], disk.slots[at], slot)
      modifies this`disk, this`life, this`log, this`times, this`records
      ensures Valid() && at < |disk.slots|
      ensures o.Pass? ==> Retirement() && disk.slots[at] == slot
      ensures o.Fail? ==> mortal && o.error == Killed
    {
      hide LogOk, CacheOk, Inv, PlanValid, RetireStep, SlotInv, AllVerified;
      Here();
      Settles();
      RetireKeepsCopy(plan.bundles[at], plan.originals[at], disk.slots[at], slot);
      o := Advance(slot);
    }

    /** VERIFIED: the source is still the planned one and may go. */
    method AnnounceRetirement() returns (o: Outcome)
      requires Retirement() && disk.slots[at].record.state.Verified?
      modifies this`disk, this`life, this`log, this`times, this`records, this`tick
      ensures Valid() && at < |disk.slots|
      ensures disk == old(disk) || Cleared(old(disk), at, old(tick))
      ensures o.Pass? ==> Retirement() && disk.slots[at].record.state.RetireIntent?
      ensures o.Fail? ==> (mortal && o.error == Killed) || (!Favourable() && Retirement() && o.error != Killed)
    {
      hide LogOk, CacheOk, Inv, PlanValid, TargetMatches, Kept;
      Here();
      :- MayRetire();
      o := NoteIntent();
    }

    method MayRetire() returns (o: Outcome)
      requires Retirement() && disk.slots[at].source == Some(plan.originals[at])
      requires disk.slots[at].record.hashes == Hashes(plan.originals[at])
      modifies this`tick, this`times
      ensures Retirement()
      ensures o.Pass? <==> Cleared(disk, at, old(tick))
      ensures fair && Calm() ==> o.Pass?
      ensures o.Fail? ==> o.error != Killed
    {
      hide LogOk, CacheOk, Inv, PlanValid, TargetMatches, Kept;
      o := CheckPlanned();
      if o.Fail? {
        return;
      }
      if Hashes(disk.slots[at].source.value) != disk.slots[at].record.hashes {
        return Fail(SourceDrift);
      }
      :- CheckIdle();
      o := CheckHealth();
    }

    method NoteIntent() returns (o: Outcome)
      requires Retirement() && disk.slots[at].record.state.Verified?
      modifies this`disk, this`life, this`log, this`times, this`records
      ensures Valid() && at < |disk.slots|
      ensures o.Pass? ==> Retirement() && disk.slots[at].record.state.RetireIntent?
      ensures o.Fail? ==> mortal && o.error == Killed
    {
      hide LogOk, CacheOk, Inv, PlanValid;
      Here();
      var s := disk.slots[at];
      var next := s.(record := s.record.(state := RetireIntent));
      assert IntendRetirement(plan.bundles[at], s, next);
      o := AdvanceInPlace(next);
    }

    /** RETIRE_INTENT, and not yet moved: the same checks again, and the rename. */
    method MoveSource() returns (o: Outcome)
      requires Retirement() && disk.slots[at].record.state.RetireIntent? && disk.slots[at].retiring.None?
      modifies this`disk, this`life, this`log, this`times, this`records, this`tick
      ensures Valid() && at < |disk.slots|
      ensures disk == old(disk) || (!Kept(old(disk), at, old(tick)) && !env.busy(old(tick) + 1))
      ensures o.Pass? ==> Retirement() && disk.slots[at].record.state.RetireIntent? && disk.slots[at].retiring.Some?
      ensures o.Fail? ==> (mortal && o.error == Killed) || (!Favourable() && Retirement() && o.error != Killed)
    {
      hide LogOk, CacheOk, Inv, PlanValid, TargetMatches, Kept;
      o := MayMove();
      if o.Pass? {
        o := RenameSource();
      }
    }

    /** The rule, the inventory and the open handles, right before the rename. */
    method MayMove() returns (o: Outcome)
      requires Retirement() && disk.slots[at].record.state.RetireIntent? && disk.slots[at].retiring.None?
      modifies this`tick, this`times
      ensures Retirement() && disk.slots[at].source == Some(plan.originals[at])
      ensures o.Pass? <==> !Kept(disk, at, old(tick)) && !env.busy(old(tick) + 1)
      ensures o.Pass? ==> Released()
      ensures fair && Calm() ==> o.Pass?
      ensures o.Fail? ==> o.error != Killed
    {
      hide LogOk, CacheOk, Inv, PlanValid, TargetMatches, Kept, RankProtected;
      Here();
      SourceIsOriginal(plan.bundles[at], plan.originals[at], disk.slots[at]);
      o := CheckPlanned();
      if o.Pass? {
        o := CheckIdle();
      }
    }

    /** Not protected, and still the planned tree. */
    method CheckPlanned() returns (o: Outcome)
      requires Retirement() && disk.slots[at].source == Some(plan.originals[at])
      modifies this`tick, this`times
      ensures Retirement() && tick == old(tick) + 1
      ensures o.Pass? <==> !Kept(disk, at, old(tick))
      ensures (o.Pass? ==> Released()) && (fair ==> o.Pass?)
      ensures o.Fail? ==> o.error != Killed
    {
      hide LogOk, CacheOk, Inv, PlanValid, TargetMatches, Kept, RankProtected;
      Here();
      :- CheckProtection();
      if Snapshot(disk.slots[at].source.value) != plan.bundles[at].tree {
        return Fail(SourceDrift);
      }
      return Pass;
    }

    method CheckIdle() returns (o: Outcome)
      requires Valid()
      modifies this`tick
      ensures Valid() && tick == old(tick) + 1
      ensures o.Pass? <==> !env.busy(old(tick))
      ensures Calm() ==> o.Pass?
      ensures o.Fail? ==> o.error == ActiveHandle
    {
      o := if env.busy(tick) then Fail(ActiveHandle) else Pass;
      Tick();
    }

    method CheckHealth() returns (o: Outcome)
      requires Valid()
      modifies this`tick
      ensures Valid() && tick == old(tick) + 1
      ensures o.Pass? <==> env.healthy(old(tick))
      ensures Calm() ==> o.Pass?
      ensures o.Fail? ==> o.error == HealthGateFailed
    {
      o := if env.healthy(tick) then Pass else Fail(HealthGateFailed);
      Tick();
    }

    /** The rename of an original that the rule has released. */
    method RenameSource() returns (o: Outcome)
      requires Retirement() && disk.slots[at].record.state.RetireIntent? && disk.slots[at].retiring.None?
      requires disk.slots[at].source == Some(plan.originals[at]) && Released()
      modifies this`disk, this`life, this`log, this`times, this`records, this`tick
      ensures Valid() && at < |disk.slots|
      ensures o.Pass? ==> Retirement() && disk.slots[at].record.state.RetireIntent? && disk.slots[at].retiring.Some?
      ensures o.Fail? ==> mortal && o.error == Killed && disk == old(disk)
    {
      hide LogOk, CacheOk, Inv, PlanValid, RankProtected, AllVerified, RetireStep;
      Here();
      var now := env.time(tick);
      Tick();
      MovedSlotStep(plan.bundles[at], disk.slots[at], now);
      Settles();
      o := Advance(MovedSlot(disk.slots[at], now));
    }

    /** RETIRE_INTENT: moves the source aside unless that already happened, checks
        that it is the planned tree, and journals it. */
    method Retreat() returns (o: Outcome)
      requires Retirement() && disk.slots[at].record.state.RetireIntent?
      modifies this`disk, this`life, this`log, this`times, this`records, this`tick
      ensures Valid() && at < |disk.slots|
      ensures o.Pass? ==> Retirement() && disk.slots[at].record.state.Renamed?
      ensures o.Fail? ==> (mortal && o.error == Killed) || (!Favourable() && Retirement() && o.error != Killed)
    {
      hide LogOk, CacheOk, Inv, PlanValid, TargetMatches;
      if disk.slots[at].retiring.None? {
        :- MoveSource();
      } else {
        :- CheckMoved();
      }
      o := NoteRetreat();
    }

    /** The retirement directory is the planned source; nothing under the old name is. */
    method CheckMoved() returns (o: Outcome)
      requires Retirement() && disk.slots[at].record.state.RetireIntent? && disk.slots[at].retiring.Some?
      ensures o.Fail? ==> mortal && o.error == Killed
    {
      hide LogOk, CacheOk, Inv, PlanValid;
      Here();
      var s := disk.slots[at];
      TouchedFacts(plan.originals[at], s.retiring.value[[]].fact.ctime);
      assert plan.bundles[at].tree[[]] == plan.originals[at][[]].fact;
      var planned := plan.bundles[at].tree[[]].id;
      if RootId(s.retiring.value) != planned || (s.source.Some? && RootId(s.source.value) == planned) {
        return Fail(RetirementConflict);
      }
      return Pass;
    }

    method NoteRetreat() returns (o: Outcome)
      requires Retirement() && disk.slots[at].record.state.RetireIntent? && disk.slots[at].retiring.Some?
      modifies this`disk, this`life, this`log, this`times, this`records
      ensures Valid() && at < |disk.slots|
      ensures o.Pass? ==> Retirement() && disk.slots[at].record.state.Renamed?
      ensures o.Fail? ==> mortal && o.error == Killed
    {
      hide LogOk, CacheOk, Inv, PlanValid, TargetMatches;
      Here();
      var s := disk.slots[at];
      TouchedFacts(plan.originals[at], s.retiring.value[[]].fact.ctime);
      if UpToRootTime(Snapshot(s.retiring.value)) != UpToRootTime(plan.bundles[at].tree) {
        return Fail(SourceDrift);
      }
      o := AdvanceInPlace(s.(record := s.record.(state := Renamed, retirementTree := Snapshot(s.retiring.value))));
    }

    lemma RenamedHere()
      requires Retirement() && disk.slots[at].record.state.Renamed?
      ensures var s := disk.slots[at]; s.retiring.Some? && Snapshot(s.retiring.value) == s.record.retirementTree
    {
      Here();
    }

    /** RENAMED: the retired tree is the one that was journaled. */
    method AnnouncePurge() returns (o: Outcome)
      requires Retirement() && disk.slots[at].record.state.Renamed?
      modifies this`disk, this`life, this`log, this`times, this`records, this`tick
      ensures Valid() && at < |disk.slots|
      ensures disk == old(disk) || (!env.busy(old(tick)) && env.healthy(old(tick) + 1))
      ensures o.Pass? ==> Retirement() && disk.slots[at].record.state.PurgeIntent?
      ensures o.Fail? ==> (mortal && o.error == Killed) || (!Favourable() && Retirement() && o.error != Killed)
    {
      hide LogOk, CacheOk, Inv, PlanValid, TargetMatches, SlotOk, SlotInv, BundleOk, Genuine, Elsewhere;
      RenamedHere();
      var s := disk.slots[at];
      if Snapshot(s.retiring.value) != s.record.retirementTree {
        return Fail(SourceDrift);
      }
      :- CheckIdle();
      :- CheckHealth();
      o := AdvanceInPlace(s.(record := s.record.(state := PurgeIntent)));
    }

    /** A purge is under way and something is left of the retired tree. */
    ghost predicate Purging()
      reads this`disk, this`records, this`log, this`times, this`tick, this`cache, this`verified, this`at, this`elsewhere
    {
      Retirement() && disk.slots[at].record.state.PurgeIntent?
    }

    /** Removes one entry that has nothing in it. */
    method RemoveOne(p: Path) returns (o: Outcome)
      requires Purging() && disk.slots[at].retiring.Some? && p in disk.slots[at].retiring.value
      requires forall q | q in disk.slots[at].retiring.value && q != [] :: Parent(q) != p
      modifies this`disk, this`life, this`log, this`times, this`records, this`tick
      ensures Valid() && at < |disk.slots|
      ensures o.Pass? ==> Purging() && OneLess(old(disk.slots[at].retiring.value), disk.slots[at].retiring, p)
      ensures o.Fail? ==> mortal && o.error == Killed
    {
      hide LogOk, CacheOk, Inv, PlanValid, TargetMatches, RetireStep, OneLess;
      Here();
      var now := env.time(tick);
      Tick();
      RemovedSlotStep(plan.bundles[at], plan.originals[at], disk.slots[at], p, now);
      o := AdvanceInPlace(RemovedSlot(disk.slots[at], p, now));
    }

    /** check_subset: what is left is a part of the retired tree. */
    method CheckSubset() returns (o: Outcome)
      requires Purging() && disk.slots[at].retiring.Some?
      ensures o.Pass? <==> SubsetOf(disk.slots[at].retiring.value, disk.slots[at].record.retirementTree, disk.slots[at].record.hashes)
      ensures o.Fail? ==> mortal && o.error == Killed
    {
      hide LogOk, CacheOk, Inv, PlanValid, TargetMatches;
      Here();
      var record, actual := disk.slots[at].record, disk.slots[at].retiring.value;
      RemnantIsSubset(actual, record.retirementTree, plan.originals[at]);
      if !(actual.Keys <= record.retirementTree.Keys) {
        return Fail(RetirementExtraEntry);
      }
      if !SubsetOf(actual, record.retirementTree, record.hashes) {
        return Fail(RetirementDrift);
      }
      return Pass;
    }

    /** Checks what is left of the retired tree, then removes it bottom-up. */
    method Purge() returns (o: Outcome)
      requires Purging() && disk.slots[at].retiring.Some?
      modifies this`disk, this`life, this`log, this`times, this`records, this`tick
      ensures Valid() && at < |disk.slots|
      ensures disk == old(disk) || !env.busy(old(tick))
      ensures o.Pass? ==> Purging() && disk.slots[at].retiring.None?
      ensures o.Fail? ==> (mortal && o.error == Killed) || (!Favourable() && Retirement() && o.error != Killed)
    {
      hide LogOk, CacheOk, Inv, PlanValid, TargetMatches, SubsetOf;
      o := CheckSubset();
      if o.Fail? {
        return;
      }
      var actual := disk.slots[at].retiring.value;
      :- CheckIdle();
      Here();
      var paths := ListPaths(actual.Keys);
      o := PurgeInOrder(actual, paths);
    }

    method PurgeInOrder(actual: Tree, paths: seq<Path>) returns (o: Outcome)
      requires Purging() && disk.slots[at].retiring == Some(actual) && IsTree(actual)
      requires Distinct(paths) && forall p :: p in paths <==> p in actual
      modifies this`disk, this`life, this`log, this`times, this`records, this`tick
      ensures Valid() && at < |disk.slots|
      ensures o.Pass? ==> Purging() && disk.slots[at].retiring.None?
      ensures o.Fail? ==> mortal && o.error == Killed
    {
      hide LogOk, CacheOk, Inv, PlanValid, TargetMatches;
      var order := PurgeOrder(paths);
      MultisetMember(order, paths);
      DistinctPermutation(paths, order);
      TreeIsClosed(actual, paths);
      for k := 0 to |order|
        invariant Purging()
        invariant k < |order| ==> disk.slots[at].retiring.Some? && KeysFrom(disk.slots[at].retiring.value, order, k)
        invariant k == |order| ==> disk.slots[at].retiring.None?
        invariant k < |order| ==> forall q | q in disk.slots[at].retiring.value ::
          q in actual && disk.slots[at].retiring.value[q].fact.id == actual[q].fact.id
      {
        PurgeIsBottomUp(paths, k);
        NextIsEmpty(order, k);
        ghost var tree := disk.slots[at].retiring.value;
        assert order[k] in order[k..];
        if disk.slots[at].retiring.value[order[k]].fact.id != actual[order[k]].fact.id {
          return Fail(RetirementDrift);
        }
        :- RemoveOne(order[k]);
        if k + 1 < |order| {
          KeysNext(tree, disk.slots[at].retiring.value, order, k);
        }
      }
      return Pass;
    }

    /** The copy of a bundle that is being retired is verified once more; nothing is
        written. */
    method Recheck() returns (o: Outcome)
      requires Retirement()
      modifies this`cache, this`verified, this`records, this`free, this`low
      ensures Retirement() && SpareKept()
      ensures o.Pass? <==> Genuine(at) && (at in old(verified) || RoomFor(plan, verifier, at, free, reserve))
      ensures at in old(verified) ==> o.Pass?
      ensures o.Pass? ==> verified == old(verified) + {at}
      ensures o.Fail? ==> verified == old(verified) && o.error != Killed
    {
      hide LogOk, CacheOk, Inv, PlanValid, Records, RecordsMoved, CopyOf;
      Settles();
      CopyHere();
      SeenIsGenuine();
      o := VerifyTree();
    }

    /** PURGE_INTENT: the archived copy is verified once more, then the rest goes. */
    method FinishPurging() returns (o: Outcome)
      requires Purging()
      modifies this`disk, this`life, this`log, this`times, this`records, this`tick, this`cache, this`verified,
        this`free, this`low
      ensures old(verified) <= verified <= old(verified) + {at}
      ensures Valid() && SpareKept() && at < |disk.slots|
      ensures disk == old(disk) || (env.healthy(old(tick)) && Genuine(at))
      ensures o.Pass? ==> Retirement() && disk.slots[at].record.state.Retired?
      ensures o.Fail? ==> (mortal && o.error == Killed) || (!old(Favourable()) && Retirement() && o.error != Killed)
    {
      hide LogOk, CacheOk, Inv, PlanValid, TargetMatches, SlotOk, BundleOk, Elsewhere, Genuine;
      o := CheckHealth();
      if o.Fail? {
        return;
      }
      :- Recheck();
      if disk.slots[at].retiring.Some? {
        :- Purge();
      }
      o := NoteRetired();
    }

    method NoteRetired() returns (o: Outcome)
      requires Purging() && disk.slots[at].retiring.None?
      modifies this`disk, this`life, this`log, this`times, this`records
      ensures Valid() && at < |disk.slots|
      ensures o.Pass? ==> Retirement() && disk.slots[at].record.state.Retired?
      ensures o.Fail? ==> mortal && o.error == Killed
    {
      hide LogOk, CacheOk, Inv, PlanValid, TargetMatches;
      var s := disk.slots[at];
      var next := s.(record := s.record.(state := Retired));
      assert FinishPurge(s, next);
      o := AdvanceInPlace(next);
    }

    /** RETIRED earlier: nothing of it has come back. */
    method CheckRetired() returns (o: Outcome)
      requires Retirement() && disk.slots[at].record.state.Retired?
      ensures o.Pass? <==> NameFree(plan, disk, at)
      ensures o.Fail? ==> o.error == SourceReappeared
    {
      hide LogOk, CacheOk, Inv, PlanValid;
      Here();
      var s := disk.slots[at];
      if s.retiring.Some? {
        return Fail(RetirementConflict);
      }
      assert plan.bundles[at].tree[[]] == plan.originals[at][[]].fact;
      if s.source.Some? && RootId(s.source.value) == plan.bundles[at].tree[[]].id {
        return Fail(SourceReappeared);
      }
      return Pass;
    }

    /** VERIFIED or RETIRE_INTENT: announces and makes the move. */
    method MoveAway() returns (o: Outcome)
      requires Retirement() && (disk.slots[at].record.state.Verified? || disk.slots[at].record.state.RetireIntent?)
      modifies this`disk, this`life, this`log, this`times, this`records, this`tick
      ensures Valid() && at < |disk.slots|
      ensures o.Pass? ==> Retirement() && disk.slots[at].record.state.Renamed?
      ensures o.Fail? ==> (mortal && o.error == Killed) || (!Favourable() && Retirement() && o.error != Killed)
    {
      hide LogOk, CacheOk, Inv, PlanValid, TargetMatches;
      if disk.slots[at].record.state.Verified? {
        :- AnnounceRetirement();
      }
      o := Retreat();
    }

    /** Everything still to be done for a bundle that is not retired yet. */
    method RetireVerified() returns (o: Outcome)
      requires Retirement() && !disk.slots[at].record.state.Retired?
      modifies this`disk, this`life, this`log, this`times, this`records, this`tick, this`cache, this`verified,
        this`free, this`low
      ensures old(verified) <= verified <= old(verified) + {at}
      ensures Valid() && SpareKept() && at < |disk.slots|
      ensures o.Pass? ==> Retirement() && disk.slots[at].record.state.Retired?
      ensures o.Fail? ==> (mortal && o.error == Killed) || (!old(Favourable()) && Retirement() && o.error != Killed)
    {
      hide LogOk, CacheOk, Inv, PlanValid, TargetMatches, SlotOk, BundleOk, Elsewhere, Genuine;
      Settles();
      if Rank(disk.slots[at].record.state) < Rank(Renamed) {
        :- MoveAway();
      }
      if disk.slots[at].record.state.Renamed? {
        :- AnnouncePurge();
      }
      o := FinishPurging();
    }

    /** The second loop's body: from wherever an earlier process stopped to RETIRED. */
    method RetireBundle() returns (o: Outcome)
      requires Retirement()
      modifies this`disk, this`life, this`log, this`times, this`records, this`tick, this`cache, this`verified,
        this`free, this`low
      ensures old(verified) <= verified <= old(verified) + {at}
      ensures Valid() && SpareKept() && at < |disk.slots|
      ensures disk == old(disk) || Genuine(at)
      ensures o.Pass? ==> Retirement() && disk.slots[at].record.state.Retired?
      ensures o.Pass? ==> at in verified && NameFree(plan, old(disk), at)
      ensures o.Fail? ==>
        || (mortal && o.error == Killed)
        || (!(old(Favourable()) && NameFree(plan, old(disk), at)) && Retirement() && o.error != Killed)
      ensures o.Fail? && old(Favourable()) && !NameFree(plan, old(disk), at) ==> o.error == SourceReappeared
    {
      hide LogOk, CacheOk, Inv, PlanValid, TargetMatches, ForeignName;
      :- Recheck();
      if disk.slots[at].record.state.Retired? {
        o := CheckRetired();
      } else {
        o := RetireVerified();
      }
    }

    // ---------- the whole command ----------

    method Focus(i: nat)
      requires Valid() && Synced() && i < |disk.slots|
      modifies this`at, this`elsewhere
      ensures Valid() && Synced() && at == i
    {
      hide LogOk, CacheOk, Inv, PlanValid;
      at := i;
      elsewhere := Elsewhere(disk, i);
    }

    /** Bytes still to be transferred, counting finished staged files as done. */
    method CountPending() returns (pending: nat)
      requires Valid()
      ensures pending == Pending(plan, disk, 0)
    {
      hide LogOk, CacheOk, Inv, PlanValid;
      pending := 0;
      for i := 0 to |disk.slots|
        invariant pending + Pending(plan, disk, i) == Pending(plan, disk, 0)
      {
        if disk.slots[i].record.state.Planned? {
          var remaining := Remaining(i);
          pending := pending + remaining;
        }
      }
    }

    /** The total less the files that the stage holds. */
    method Unfinished(stage: Tree, source: Tree, order: seq<Path>, logical: nat) returns (remaining: nat)
      requires logical == Total(source, order, |order|)
      ensures remaining == Missing(Some(stage), source, order, |order|)
    {
      remaining := logical;
      for k := 0 to |order|
        invariant remaining == logical - Total(source, order, k) + Missing(Some(stage), source, order, k)
      {
        TotalGrows(source, order, k + 1, |order|);
        if Holds(stage, source, order[k]) {
          remaining := remaining - Size(source, order[k]);
        }
      }
    }

    method Remaining(i: nat) returns (remaining: nat)
      requires Valid() && i < |disk.slots| && disk.slots[i].record.state.Planned?
      ensures remaining == Owed(plan, disk, i)
    {
      hide LogOk, CacheOk;
      assert SlotOk(plan, disk, i) && BundleOk(plan, i);
      remaining := plan.bundles[i].logical;
      if disk.slots[i].record.stageId.Some? {
        remaining := Unfinished(disk.slots[i].stage.value, disk.slots[i].source.value, plan.bundles[i].order, remaining);
      }
    }

    /** The pinned verifier accepts every original. */
    ghost predicate AllGenuine() {
      forall i | 0 <= i < |plan.bundles| :: Genuine(i)
    }

    /** Every bundle will be accepted, and there will be room to check its database when
        it has been copied, starting from that disk with that much free space. */
    ghost predicate AllSuit(d: Disk, space: int)
      requires |plan.bundles| == |plan.originals| == |d.slots|
    {
      forall i | 0 <= i < |d.slots| :: SuitsFrom(d, space, i)
    }

    ghost predicate SuitsFrom(d: Disk, space: int, i: nat)
      requires |plan.bundles| == |plan.originals| == |d.slots| && i < |d.slots|
    {
      Suits(i, space - Spent(plan, d, i + 1))
    }

    lemma SuitMeansGenuineWithRoom(d: Disk, space: int)
      requires |plan.bundles| == |plan.originals| == |d.slots|
      ensures AllSuit(d, space) <==> AllGenuine() && RoomForAll(plan, verifier, d, space, reserve)
    {
      forall i | 0 <= i < |d.slots| ensures SuitsFrom(d, space, i) <==> Genuine(i) && RoomAt(plan, verifier, d, space, reserve, i) {
      }
      if AllSuit(d, space) {
        forall i | 0 <= i < |plan.bundles| ensures Genuine(i) { assert SuitsFrom(d, space, i); }
        forall i | 0 <= i < |d.slots| ensures RoomAt(plan, verifier, d, space, reserve, i) { assert SuitsFrom(d, space, i); }
      }
    }

    /** The first i bundles are verified in the archive, by this process, and recorded as
        they are, and no other has been verified yet. */
    ghost predicate PreparedUpTo(i: nat)
      reads this`disk, this`verified
    {
      i <= |disk.slots| && (forall j | 0 <= j < i :: Prepared(disk, verified, j)) && forall j | j in verified :: j < i
    }

    /** What stood in nobody's way before does not do so now, and the other way round. */
    ghost predicate Steady(before: Disk)
      requires |plan.originals| == |before.slots| == |disk.slots|
      reads this`disk
    {
      NamesFree(plan, before, 0) <==> NamesFree(plan, disk, 0)
    }

    /** Nothing but the current slot has changed. */
    ghost predicate OnlyAt(before: Disk, i: nat)
      reads this`disk
    {
      |disk.slots| == |before.slots| && forall j | 0 <= j < |before.slots| && j != i :: disk.slots[j] == before.slots[j]
    }

    /** Preparing a bundle leaves every source where it was. */
    lemma StaysSteady(before: Disk)
      requires |plan.originals| == |before.slots| && at < |before.slots| && OnlyAt(before, at)
      requires Rank(before.slots[at].record.state) >= Rank(Verified) ==>
        disk.slots[at] == before.slots[at].(record := disk.slots[at].record)
        && disk.slots[at].record.state == before.slots[at].record.state
      requires Rank(before.slots[at].record.state) < Rank(Verified) ==> Rank(disk.slots[at].record.state) <= Rank(Verified)
      ensures Steady(before)
    {
      SameNames(before, disk);
    }

    lemma SameNames(before: Disk, after: Disk)
      requires |plan.originals| == |before.slots| == |after.slots|
      requires forall j | 0 <= j < |before.slots| :: NameFree(plan, before, j) == NameFree(plan, after, j)
      ensures NamesFree(plan, before, 0) <==> NamesFree(plan, after, 0)
    {
    }

    /** The first i bundles stay prepared while the next one is worked on. */
    lemma StaysPrepared(before: Disk, already: set<nat>, i: nat)
      requires OnlyAt(before, i) && i <= |before.slots| && already <= verified
      requires forall j | 0 <= j < i :: Prepared(before, already, j)
      ensures forall j | 0 <= j < i :: Prepared(disk, verified, j)
    {
      forall j | 0 <= j < i ensures Prepared(disk, verified, j) {
        assert Prepared(before, already, j);
      }
    }

    method PrepareOne(i: nat) returns (o: Outcome)
      requires Valid() && Synced() && i < |disk.slots| && PreparedUpTo(i)
      requires free >= Pending(plan, disk, i) + reserve
      modifies this`disk, this`life, this`log, this`times, this`records, this`tick, this`free, this`low, this`cache,
        this`verified, this`at, this`elsewhere
      ensures Valid() && OnlyAt(old(disk), i) && Steady(old(disk)) && low >= Lower(old(low), reserve)
      ensures o.Pass? ==> Synced() && PreparedUpTo(i + 1) && free >= Pending(plan, disk, i + 1) + reserve
      ensures o.Pass? ==> free == old(free) - old(Cost(plan, disk, i)) && Suits(i, free)
      ensures o.Fail? ==> (mortal && o.error == Killed) || (Unsuited(o, i, old(free) - old(Cost(plan, disk, i))) && Savable())
    {
      hide LogOk, CacheOk, PlanValid, Inv, TargetMatches, Owed, NamesFree, RoomFor, Suits;
      Focus(i);
      ghost var before := disk;
      o := PrepareBundle();
      OnlyFocusMoved(plan, before, disk, i);
      StaysSteady(before);
      if o.Pass? {
        StaysPrepared(before, old(verified), i);
      }
    }

    /** Why verification refused bundle i. */
    ghost predicate Unsuited(o: Outcome, i: nat, space: int)
      requires o.Fail?
    {
      && i < |plan.originals| && !Suits(i, space)
      && o.error == if RoomFor(plan, verifier, i, space, reserve) then TargetReceiptInvalid else DataReserveInsufficient
    }

    /** The first loop: every bundle verified in the archive before any source leaves.
        Unless killed it succeeds exactly if every bundle suits. */
    method PrepareAll() returns (o: Outcome)
      requires Valid() && Synced() && verified == {} && free >= Pending(plan, disk, 0) + reserve
      modifies this`disk, this`life, this`log, this`times, this`records, this`tick, this`free, this`low, this`cache,
        this`verified, this`at, this`elsewhere
      ensures Valid() && low >= Lower(old(low), reserve) && |disk.slots| == old(|disk.slots|) && Steady(old(disk))
      ensures o.Pass? ==> Synced() && PreparedUpTo(|disk.slots|) && AllSuit(old(disk), old(free))
      ensures o.Fail? ==> (mortal && o.error == Killed) || (RefusedSome(o, old(disk), old(free)) && Savable())
    {
      hide LogOk, CacheOk, PlanValid, Inv, TargetMatches, Owed, NamesFree, RoomFor, Suits, Cost;
      ghost var before := disk;
      for i := 0 to |disk.slots|
        invariant Valid() && Synced() && PreparedUpTo(i) && Steady(before) && StillToCome(before, i)
        invariant free == old(free) - Spent(plan, before, i) && free >= Pending(plan, disk, i) + reserve
        invariant low >= Lower(old(low), reserve)
        invariant forall j | 0 <= j < i :: SuitsFrom(before, old(free), j)
      {
        SameCost(plan, before, disk, i);
        o := PrepareOne(i);
        if o.Fail? {
          assert o.error == Killed || RefusedAt(o, before, old(free), i);
          return;
        }
        assert SuitsFrom(before, old(free), i);
      }
      return Pass;
    }

    /** The bundles from i on are as they were. */
    ghost predicate StillToCome(before: Disk, i: nat)
      reads this`disk
    {
      |disk.slots| == |before.slots| && forall j | i <= j < |before.slots| :: disk.slots[j] == before.slots[j]
    }

    /** Verification refused some bundle. */
    ghost predicate RefusedSome(o: Outcome, before: Disk, space: int)
      requires o.Fail? && |plan.bundles| == |plan.originals| == |before.slots|
    {
      exists i | 0 <= i < |before.slots| :: RefusedAt(o, before, space, i)
    }

    ghost predicate RefusedAt(o: Outcome, before: Disk, space: int, i: nat)
      requires o.Fail? && |plan.bundles| == |plan.originals| == |before.slots| && i < |before.slots|
    {
      Unsuited(o, i, space - Spent(plan, before, i + 1))
    }

    /** The first i bundles are retired. */
    ghost predicate RetiredUpTo(i: nat)
      reads this`disk
    {
      i <= |disk.slots| && forall j | 0 <= j < i :: disk.slots[j].record.state.Retired?
    }

    method RetireOne(i: nat) returns (o: Outcome)
      requires Valid() && Synced() && disk.index && i < |disk.slots| && RetiredUpTo(i) && PreparedUpTo(|disk.slots|)
      modifies this`disk, this`life, this`log, this`times, this`records, this`tick, this`cache, this`verified,
        this`free, this`low, this`at, this`elsewhere
      ensures Valid() && SpareKept() && |disk.slots| == old(|disk.slots|)
      ensures o.Pass? ==> (NamesFree(plan, old(disk), i) <==> NamesFree(plan, disk, i + 1))
      ensures o.Pass? ==> Synced() && disk.index && RetiredUpTo(i + 1) && PreparedUpTo(|disk.slots|)
      ensures o.Fail? ==> (mortal && o.error == Killed) || (HeldBack(o, old(disk), i) && Savable())
    {
      hide LogOk, CacheOk, PlanValid, Inv, TargetMatches, NameFree, RoomFor;
      Focus(i);
      assert Prepared(disk, verified, i);
      ghost var before := disk;
      o := RetireBundle();
      OnlyFocusMoved(plan, before, disk, i);
      assert NamesFree(plan, before, i) ==> NameFree(plan, before, i);
      if o.Pass? {
        LaterNames(before, i);
        AllStayPrepared(before, old(verified), i);
      }
    }

    lemma LaterNames(before: Disk, i: nat)
      requires |plan.originals| == |before.slots| && i < |before.slots| && OnlyAt(before, i) && NameFree(plan, before, i)
      ensures NamesFree(plan, before, i) <==> NamesFree(plan, disk, i + 1)
    {
      forall j | i + 1 <= j < |disk.slots| ensures NameFree(plan, disk, j) == NameFree(plan, before, j) {
      }
    }

    /** Why the second loop stopped at a bundle from i on: what surrounds it was not calm,
        or the plan not made by the rule, or a retired original is back. */
    ghost predicate HeldBack(o: Outcome, before: Disk, i: nat)
      requires o.Fail? && |plan.originals| == |before.slots|
    {
      o.error != Killed && (Calm() && fair ==> !NamesFree(plan, before, i) && o.error == SourceReappeared)
    }

    /** All bundles stay prepared while one of them is retired. */
    lemma AllStayPrepared(before: Disk, already: set<nat>, i: nat)
      requires OnlyAt(before, i) && i < |disk.slots| && already <= verified <= already + {i} && i in verified
      requires Rank(disk.slots[i].record.state) >= Rank(Verified) && TargetMatches(disk.slots[i])
      requires forall j | j in already :: j < |disk.slots|
      requires forall j | 0 <= j < |before.slots| :: Prepared(before, already, j)
      ensures PreparedUpTo(|disk.slots|)
    {
      forall j | 0 <= j < |disk.slots| ensures Prepared(disk, verified, j) {
        assert Prepared(before, already, j);
      }
    }

    lemma NothingLeft()
      requires |plan.originals| == |disk.slots|
      ensures NamesFree(plan, disk, |disk.slots|)
    {
    }

    /** The second loop. */
    method RetireAll() returns (o: Outcome)
      requires Valid() && Synced() && disk.index && PreparedUpTo(|disk.slots|)
      modifies this`disk, this`life, this`log, this`times, this`records, this`tick, this`cache, this`verified,
        this`free, this`low, this`at, this`elsewhere
      ensures Valid() && SpareKept()
      ensures o.Pass? ==> Synced() && disk.index && RetiredUpTo(|disk.slots|) && NamesFree(plan, old(disk), 0)
      ensures o.Fail? ==> (mortal && o.error == Killed) || (HeldBack(o, old(disk), 0) && Savable())
    {
      hide LogOk, CacheOk, PlanValid, Inv, NamesFree;
      for i := 0 to |disk.slots|
        invariant Valid() && Synced() && |disk.slots| == old(|disk.slots|) && disk.index && RetiredUpTo(i)
        invariant PreparedUpTo(|disk.slots|) && SpareKept()
        invariant NamesFree(plan, old(disk), 0) <==> NamesFree(plan, disk, i)
      {
        :- RetireOne(i);
      }
      NothingLeft();
      return Pass;
    }

    /** The journal as it is in memory, written with or without a failure code. */
    method SaveJournal(failure: Option<Failure>) returns (o: Outcome)
      requires Valid() && Savable()
      modifies this`disk, this`life, this`log, this`times, this`elsewhere
      ensures Valid() && |disk.slots| == old(|disk.slots|) && disk.index == old(disk.index)
      ensures o.Pass? ==> Synced() && disk.failure == failure && forall i | 0 <= i < |disk.slots| ::
        disk.slots[i].record.state == old(disk.slots[i].record.state)
      ensures o.Fail? ==> mortal && o.error == Killed
    {
      hide LogOk, CacheOk, PlanValid, Inv;
      var written, journal := disk.slots, records;
      var slots := seq(|written|, i requires 0 <= i < |written| == |journal| => written[i].(record := journal[i]));
      o := Commit(disk.(slots := slots, failure := failure));
    }

    method WriteRecoveryIndex() returns (o: Outcome)
      requires Valid() && Synced() && PreparedUpTo(|disk.slots|)
      modifies this`disk, this`life, this`log, this`times, this`elsewhere
      ensures Valid() && |disk.slots| == old(|disk.slots|) && Steady(old(disk))
      ensures o.Pass? ==> Synced() && disk.index && PreparedUpTo(|disk.slots|)
      ensures o.Fail? ==> mortal && o.error == Killed
    {
      hide LogOk, CacheOk, PlanValid, Inv, TargetMatches;
      ghost var before := disk;
      forall j | 0 <= j < |disk.slots| ensures Rank(disk.slots[j].record.state) >= Rank(Verified) {
        assert Prepared(disk, verified, j);
      }
      o := Commit(disk.(index := true));
      assert forall j | 0 <= j < |disk.slots| :: Prepared(before, verified, j) ==> Prepared(disk, verified, j);
      SameNames(before, disk);
    }

    /** The index, the second loop, and the journal without a failure code. */
    method RetirePhase() returns (o: Outcome)
      requires Valid() && Synced() && PreparedUpTo(|disk.slots|)
      modifies this`disk, this`life, this`log, this`times, this`records, this`tick, this`cache, this`verified,
        this`free, this`low, this`at, this`elsewhere
      ensures Valid() && SpareKept()
      ensures o.Pass? ==> Synced() && disk.index && RetiredUpTo(|disk.slots|) && disk.failure.None?
      ensures o.Pass? ==> NamesFree(plan, old(disk), 0)
      ensures o.Fail? ==> (mortal && o.error == Killed) || (HeldBack(o, old(disk), 0) && Savable())
    {
      hide LogOk, CacheOk, PlanValid, Inv, NamesFree, PreparedUpTo;
      o := WriteRecoveryIndex();
      if o.Fail? {
        return;
      }
      :- RetireAll();
      o := SaveJournal(None);
    }

    /** Both loops. */
    method Work() returns (o: Outcome)
      requires Valid() && Synced() && verified == {} && free >= Pending(plan, disk, 0) + reserve
      modifies this`disk, this`life, this`log, this`times, this`records, this`tick, this`free, this`low, this`cache,
        this`verified, this`at, this`elsewhere
      ensures Valid() && low >= Lower(old(low), reserve) && |disk.slots| == old(|disk.slots|)
      ensures o.Pass? ==> Synced() && disk.index && RetiredUpTo(|disk.slots|) && disk.failure.None?
      ensures o.Pass? ==> AllSuit(old(disk), old(free)) && NamesFree(plan, old(disk), 0)
      ensures o.Fail? ==>
        || (mortal && o.error == Killed)
        || (Savable() && (RefusedSome(o, old(disk), old(free)) || (AllSuit(old(disk), old(free)) && HeldBack(o, old(disk), 0))))
    {
      hide LogOk, CacheOk, PlanValid, Inv, NamesFree, AllSuit, RefusedSome, PreparedUpTo, Savable;
      o := PrepareAll();
      if o.Fail? {
        return;
      }
      o := RetirePhase();
    }

    /** There is room to copy, and to check every database in turn. */
    ghost predicate Roomy()
      requires |plan.bundles| == |plan.originals| == |disk.slots|
      reads this`disk, this`free
    {
      free >= Pending(plan, disk, 0) + reserve && RoomForAll(plan, verifier, disk, free, reserve)
    }

    /** What is asked while it works is answered favourably: the health check passes and no
        handles are open, the plan was made by the rule from the directory as it then was,
        only additions have been made to it since and the clock has not gone back. */
    ghost predicate Unhindered() {
      Calm() && fair
    }

    lemma RefusedMeansUnsuited(o: Outcome, before: Disk, space: int)
      requires o.Fail? && |plan.bundles| == |plan.originals| == |before.slots| && RefusedSome(o, before, space)
      ensures !AllSuit(before, space) && o.error != Killed
      ensures AllGenuine() ==> o.error == DataReserveInsufficient
    {
      var i :| 0 <= i < |before.slots| && RefusedAt(o, before, space, i);
      assert AllSuit(before, space) ==> SuitsFrom(before, space, i);
      assert AllGenuine() ==> Genuine(i);
    }

    /** What has happened is a run of the protocol from the sealed plan; originals have left
        by the rule only, and the directory keeps its newest bundles. */
    ghost predicate Recorded()
      reads this`disk, this`log, this`times
    {
      && PlanValid(plan) && log != [] && disk == log[|log| - 1] && |times| == |log|
      && ArchiveProtocol.Run(plan, log) && Initial(plan, log[0])
      && (ruled ==> Ruled(plan, env.receipt, log, times, policy))
      && (fair ==> NewestStay(plan, env.receipt, log))
    }

    lemma WhatHappened()
      requires Valid()
      ensures Recorded()
    {
      if fair {
        HistoryKeepsNewest(plan, env.receipt, log, times, policy);
      }
    }

    /** One run of the command on whatever disk it finds.

        However it ends, the disk is one that the protocol reaches from the sealed plan,
        so no data is lost and a later run can go on; at no moment is the archive's disk
        filled into the reserve; the two newest bundles stay. If the services are unhealthy
        when it begins, nothing is touched; any later failure but death is recorded in the
        journal. Success means that every bundle is retired, the recovery index exists and
        no failure code is left, and it needs every bundle to be accepted by the verifier,
        room, and no retired original to be back under its name. Unless killed or hindered
        from outside, it needs no more. */
    method Apply() returns (o: Outcome)
      requires Valid() && Synced() && verified == {}
      modifies this
      ensures Valid() && low >= Lower(old(low), reserve)
      ensures Recorded()
      ensures !env.healthy(old(tick)) ==> o == Fail(HealthGateFailed) && disk == old(disk) && log == old(log)
      ensures !env.healthy(old(tick)) ==> records == old(records) && free == old(free) && life == old(life)
      ensures env.healthy(old(tick)) && o.Fail? ==> (mortal && o.error == Killed) || disk.failure == Some(o.error)
      ensures o.Pass? ==> forall i | 0 <= i < |disk.slots| :: disk.slots[i].record.state.Retired?
      ensures o.Pass? ==> Synced() && disk.index && disk.failure.None? && env.healthy(old(tick))
      ensures o.Pass? ==> AllGenuine() && old(Roomy()) && NamesFree(plan, old(disk), 0)
      ensures !mortal && Unhindered() && AllGenuine() && old(Roomy()) && NamesFree(plan, old(disk), 0) ==> o.Pass?
      ensures !mortal && Unhindered() && AllGenuine() && o.Fail? ==>
        o.error == if old(Roomy()) then SourceReappeared else DataReserveInsufficient
    {
      hide LogOk, CacheOk, PlanValid, Inv, NamesFree, AllSuit, RefusedSome, AllGenuine, RoomForAll, Recorded;
      ghost var before, space := disk, free;
      SuitMeansGenuineWithRoom(before, space);
      o := CheckHealth();
      if o.Pass? {
        var pending := CountPending();
        if free >= pending + reserve {
          o := Work();
          if o.Fail? && RefusedSome(o, before, space) {
            RefusedMeansUnsuited(o, before, space);
          }
        } else {
          o := Fail(DataReserveInsufficient);
        }
        if o.Fail? && o.error != Killed {
          var saved := SaveJournal(Some(o.error));
          if saved.Fail? {
            o := saved;
          }
        }
      }
      WhatHappened();
    }
  }

  lemma OnlyFocusMoved(plan: Plan, d: Disk, d': Disk, i: nat)
    requires |plan.bundles| == |plan.originals| == |d.slots| == |d'.slots| && i < |d.slots|
    requires Elsewhere(d', i) == Elsewhere(d, i)
    ensures forall j | 0 <= j < |d.slots| && j != i :: d'.slots[j] == d.slots[j]
    ensures d'.others == d.others && d'.index == d.index
    ensures Pending(plan, d', i + 1) == Pending(plan, d, i + 1)
  {
    hide Pending, Owed;
    var rest := Elsewhere(d, i).slots;
    forall j | 0 <= j < |d.slots| && j != i ensures d'.slots[j] == d.slots[j] {
      assert d.slots[j] == rest[j] && d'.slots[j] == rest[j];
    }
    SamePending(plan, d, d', i + 1);
  }
}
