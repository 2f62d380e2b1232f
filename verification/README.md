# Verified models of the archive protocol and the import, session and export logic

These Dafny modules model the parts of the repository whose correctness is hardest to see from
the code, and prove what they are for. `dafny verify dfyconfig.toml` checks everything.

**Crash-resumable archive** (`scripts/archive-production-offsite-backups.py`). A planner picks old
backup bundles; a journaled machine with seven states copies, verifies, publishes, renames and
purges each of them, and may be killed between any two writes to the file system or the journal.
`TreeOrder`, `Retention`, `Planner`, `Trees` and `TargetVerification` model the pieces;
`ArchiveProtocol` is the state machine over the disk, with every step of the script and of foreign
writers as a relation, and carries the invariant and the safety theorems over all runs; `StageCopy`,
`Catalog` and `PurgeWalk` hold what the copy loop, the retention check and the purge need;
`Copies` relates the copies to the inventories a process has verified, `Budget` counts the space it
needs; `Archiver` is the script itself as a class `Process` that works on the disk one durable write at
a time and can be killed after any of them. Every method of `Process` extends a history of disks that
is a run of `ArchiveProtocol` from the sealed plan, together with the moments at which the retention
rule was asked; `Catalog` shows that such histories are runs of the rule. `Process.Apply` is the recovery
theorem, with the exact condition under which it succeeds. What one process leaves is a history for the
next, so sessions chain.

**Incremental and payroll packages** (`packages/shared/src/hr-yuzhou-incremental.ts`,
`hr-yuzhou-payroll-source.ts`, `hr-performance-source-drafts.ts`). `DependencyOrder` is the
depth-first ordering with cycle detection, as a function and as the recursive program;
`IncrementalPackage` its canonical form; `ItemDependencies` says what both mean for the items, property
by property. `JsonValues` are JSON values and their structural comparison, `JsonReader` is a reader of
JSON texts that knows nothing of the printer, and `JsonText` and `CanonicalJson` are the canonical
printer, with what the reader gets back from it; `PayrollPackage` is the payroll validator, canonical
form and hash inputs, `PayrollHashes` what the hashes of their texts pin down. `Paths`, `Sorting`,
`Keyed`, `Mapping`, `Texts` and `Options` are shared.

**Formal definitions from legacy facts** (`hr-performance-source-activation.ts` with the two
validators): `NumericText` and `FormalDefinition`; `FormalFacts` says field by field what the derived
definition owes to which fact.

**Three-way field merge** (`hr-yuzhou-record-incremental.ts`, `hr-yuzhou-family-incremental.ts`):
`FieldMerge`, one model for the two instances, which differ in their fields and in the date check.

**Client protocols** (`apps/web/lib`). `SessionSwitch` is the session and park switch shared by
browser tabs: what runs between two awaits is one step, operations of any number of tabs interleave,
with or without the Web Locks; the class `Browser` performs the steps and carries the run it has made,
so the theorems about runs are contracts of its methods. `ScopedWrites` is the hook that retains an
ambiguous write, in the same form. `PlanForest` builds and flattens the tree of engineering plans, and
`PlanTable` says what the table is on the plans as they are given.
`CsvExport` and `ExportPages` are the CSV printer and the paginated collection.

## What turned out not to hold

- **Canonical order under ties.** The sort key of an incremental item joins table and source key with a
  colon, so different items can have the same sort key (`IncrementalPackage.CollidingPair`). The canonical
  form of two items depends on their input order exactly when they tie and neither refers to itself or the
  other (`OrderMattersExactly`); of any number it does not if none tie (`CanonicalIgnoresOrder`), and none do
  if every domain has one source table and the collation tells strings apart (`FixedTablesSortStrictly`).
  The canonical form itself demands neither; most importers demand the fixed table.
- **Derived workflow.** The derivation does not look for repeated result identities; the workflow passes its
  validator exactly when there are none (`FormalDefinition.DerivedPassesBoth`).
- **Failed switch.** A switch whose answer is lost decides to log out, and the logout then wipes whatever
  session is stored. It destroys a newer token exactly when one was stored after that decision and nothing
  was stored or wiped since (`SessionSwitch.FailedSwitchDestroysExactly`). Without locks that can be a login
  in another tab (`UnlockedFailureMayWipeNewerLogin`); with locks only a session or token stored by a page
  that takes none (`LockedFailureDestroysOnlyUnlocked`), as `setSession` and `setToken` called directly do
  (`LockedFailureMayWipeDirectSession`).
- **Completion that throws.** It is taken for a failed write, and a retry completes the write again. Right
  after a completion, its key can be completed again exactly if that completion threw
  (`ScopedWrites.CommitsTwiceExactlyAfterThrow`); over any run, a key is completed again only if all its
  earlier completions threw (`CommitsAgainOnlyAfterThrow`).
- **Space for verification.** The space check before the copy counts the bytes to be copied and the reserve,
  not the scratch copy on which each database is checked. With just that much space a bundle with a database
  is copied and then refused; `Archiver.Process.Apply` states exactly when there is enough.
- **Empty CSV records.** A record without cells, or a document without records, cannot be read back; all
  others can (`CsvExport.DocumentRoundTrip` is an equivalence).

## Model

| member | source | states |
|---|---|---|
| `ArchiveProtocol.NoDataLoss` | scripts/archive-production-offsite-backups.py:594-697 | In every state of every run, over any kills and resumed sessions, and over surroundings that leave the planned originals, retirement directories and copies alone (but may add, remove or replace anything else in the backup directory, and touch the times of SQLite companions of copies not yet relied on), each selected bundle has a complete copy of its original bytes under its own name, in its retirement directory, or in the archive under the recorded digests; and once any local original is gone or going, every bundle of the plan is in the archive under its recorded digests and the recovery index is written |
| `ArchiveProtocol.NextKeepsInv` | scripts/archive-production-offsite-backups.py:594-697 | The invariant that ties each of the seven journal states to the shape of source, stage, target and retirement directory, up to one unjournalled step, is kept by every step of the script and of its surroundings |
| `ArchiveProtocol.RunKeepsInv` | scripts/archive-production-offsite-backups.py:594-697 | Hence it holds in every state of every run from a freshly sealed plan |
| `ArchiveProtocol.RunsJoin` | scripts/archive-production-offsite-backups.py:568-573 | A session that starts on the disk an earlier one left continues its run, so statements about runs cover any number of killed and resumed sessions |
| `ArchiveProtocol.TwoCopiesUntilPurge` | scripts/archive-production-offsite-backups.py:637-697 | From VERIFIED until the purge of a bundle begins, two complete copies of it exist |
| `ArchiveProtocol.ArchiveIsStable` | scripts/archive-production-offsite-backups.py:384-409 | Once a bundle is verified its archived copy keeps its content and facts for ever, except that SQLite may touch the times of its companions until the retirement of the original is announced; journal progress is never lost |
| `ArchiveProtocol.OnlyOriginalsMove` | scripts/archive-production-offsite-backups.py:665-676 | No step of the script takes anything but the planned original out of the backup directory; a newcomer under the name of a retired bundle stays |
| `ArchiveProtocol.StepIsStable` | scripts/archive-production-offsite-backups.py:616-641 | One step keeps verified targets in that sense and never lowers the rank of a journal state |
| `Archiver.Process.Apply` | scripts/archive-production-offsite-backups.py:535-707 | One whole run of apply, stopped by a kill after any number of writes. If the opening health check fails, it reports that and nothing at all has been touched; any later failure but a kill is recorded in the journal as its failure code. The disk history is a run of the protocol from the sealed plan in which originals leave by the retention rule only (if earlier processes kept to it); at no moment does free space fall below the reserve, also while a scratch database exists. Success means that every bundle is RETIRED, the recovery index is written and no failure code is left, and it is reached only if the verifier accepts every bundle, there is room for the bytes to be copied, the reserve and each database in turn, and no inode of a retired original is back under its name. If the process is not killed, the health check passes, no handles are open, the plan was made from bundles that the rule then allowed, the backup directory has only gained entries since and the clock has not gone back, then these three conditions suffice; if the verifier accepts every bundle, the error names the one of the other two that fails. Under the same assumptions on plan, directory and clock the two newest bundles stay |
| `Archiver.Process.Work` | scripts/archive-production-offsite-backups.py:590-700 | The part of apply behind the space check: same guarantees, and the reason of every failure |
| `Archiver.Process.CountPending` | scripts/archive-production-offsite-backups.py:574-588 | The bytes still to be written are exactly those of the planned files that no stage holds yet |
| `Archiver.Process.PrepareAll` | scripts/archive-production-offsite-backups.py:594-641 | The first loop ends with every bundle verified, and unless killed does so exactly if every bundle suits: the verifier accepts it, and after copying it and all before it there is room for its scratch database above the reserve |
| `Archiver.Process.PrepareBundle` | scripts/archive-production-offsite-backups.py:597-641 | One bundle is brought from any earlier journal state to VERIFIED, never further, within the bytes it owes; unless killed it succeeds exactly if the verifier accepts the bundle and there is room for its scratch database, and free space then differs by exactly the bytes its stage lacked |
| `Archiver.Process.PrepareStage` | scripts/archive-production-offsite-backups.py:598-613 | A stage is declared, created and adopted in separate durable steps, each of which a resumed run recognises |
| `Archiver.Process.CopyEntries` | scripts/archive-production-offsite-backups.py:457-495 | After the copy loop the stage holds every planned entry with the original bytes; what the stage takes and the free space always add up to the same, and free space never falls by more than what was missing before |
| `Archiver.Process.FinishCopying` | scripts/archive-production-offsite-backups.py:496-502 | The copy is recorded only when source and stage agree with the plan and with each other |
| `Archiver.Process.PublishStage` | scripts/archive-production-offsite-backups.py:619-627 | A verified stage is renamed into the archive in one durable step, and memory takes over its new root time; it fails only when killed, for want of room, or because the verifier rejects the bundle |
| `Archiver.Process.ResumePublication` | scripts/archive-production-offsite-backups.py:628-635 | A publication interrupted between rename and journal is taken up from the published directory, whatever SQLite has done to the times of its companions meanwhile |
| `Archiver.Process.VerifyCurrent` | scripts/archive-production-offsite-backups.py:640-641 | The same for a verified copy, with reconciled times written to the journal; a copy already verified by this process, with its recorded facts, is never refused |
| `Archiver.Process.RetirePhase` | scripts/archive-production-offsite-backups.py:642-699 | From a disk on which every bundle is verified: the recovery index is written, every bundle is retired in turn and the failure code is cleared; a bundle planned by the rule is never refused as protected; success needs every retired original to stay away from its name |
| `Archiver.Process.RetireBundle` | scripts/archive-production-offsite-backups.py:647-697 | One bundle is brought from any journal state from VERIFIED on to RETIRED, after its copy has been verified by this process; it fails only when killed, for open handles, a failing health check, a plan or directory that did not keep to the rule, or an inode that has come back under its name; and under favourable answers always for the last of these |
| `Archiver.Process.CheckProtection` | scripts/archive-production-offsite-backups.py:656-657 | The retention rule, asked again of the directory as it is now, passes exactly when no row of that name is protected at that moment, and always for a bundle planned by the rule |
| `Archiver.Process.MoveSource` | scripts/archive-production-offsite-backups.py:669-676 | The original is renamed aside, and the disk changes at all only if the retention rule and the open handles had just allowed it |
| `Archiver.Process.CheckSubset` | scripts/archive-production-offsite-backups.py:504-514 | Passes exactly for parts of the retired tree with unchanged facts and digests, and so for every remnant that an interrupted purge can leave |
| `Archiver.Process.PurgeInOrder` | scripts/archive-production-offsite-backups.py:519-527 | Entries are removed in key order, each removal a legal step: no directory is removed before it is empty |
| `Archiver.Process.CheckRetired` | scripts/archive-production-offsite-backups.py:651-655 | A finished bundle is refused exactly when its old inode is back under its name |
| `Archiver.Process.SaveJournal` | scripts/archive-production-offsite-backups.py:698-704 | The journal is written out with or without a failure code; afterwards memory and disk agree and no state has changed |
| `Archiver.Process.Commit` | scripts/archive-production-offsite-backups.py:274-287 | A durable write either happens whole and continues the history of the protocol and of the rule, or the process is killed before it and the disk is as it was |
| `Archiver.Process.Advance` | scripts/archive-production-offsite-backups.py:615-616 | A durable write of one bundle changes that bundle's slot only, and takes an original away only if the rule, asked of this very directory, had released it; after a kill memory is ahead of the disk for that bundle only |
| `Archiver.Process.DeclareStaging` | scripts/archive-production-offsite-backups.py:601-605 | The intention to stage is journaled before anything is created; a clean resume never meets a conflict |
| `Archiver.Process.CreateStaging` | scripts/archive-production-offsite-backups.py:606-608 | The staging directory is created without touching the journal, and creating it adds nothing to what is still to be written |
| `Archiver.Process.AdoptStaging` | scripts/archive-production-offsite-backups.py:609-613 | Whatever an earlier process left in the stage is adopted under its identity; it is never found to hold foreign entries |
| `Archiver.Process.WriteFile` | scripts/archive-production-offsite-backups.py:478-494 | Rewriting a file over any earlier content leaves the original bytes, keeps all other entries and takes no more space than its size |
| `Archiver.Process.AppendRest` | scripts/archive-production-offsite-backups.py:485-490 | Short writes accumulate to exactly the original bytes |
| `Archiver.Process.CopyEntry` | scripts/archive-production-offsite-backups.py:458-495 | An entry that already holds the original bytes costs nothing, any other at most its size; afterwards it holds them |
| `Archiver.Process.CopyPlanned` | scripts/archive-production-offsite-backups.py:598-617 | From PLANNED to COPIED within the bytes the bundle still owes, wherever an earlier process stopped |
| `Archiver.Process.Unfinished` | scripts/archive-production-offsite-backups.py:578-587 | Subtracting the staged files whose bytes agree leaves exactly the bytes no stage holds |
| `Archiver.Process.Remaining` | scripts/archive-production-offsite-backups.py:577-588 | What one planned bundle still owes |
| `Archiver.Process.AppendPart` | scripts/archive-production-offsite-backups.py:485-490 | Each accepted part of a write moves that many bytes from the free space into the stage |
| `Archiver.Process.VerifyTree` | scripts/archive-production-offsite-backups.py:345-441 | A copy is accepted exactly if the verifier accepts the original bytes and either this process has verified the copy before and its facts are the recorded ones, or there is room for the scratch database; drifted times of the SQLite companions are then taken over into the record; the reserve is not touched even while the scratch copy exists |
| `Archiver.Process.ConfirmTarget` | scripts/archive-production-offsite-backups.py:636-639 | VERIFIED is written only if the verifier accepts the bundle and its copy was seen before or there was room to check it |
| `Archiver.Process.PublishCopied` | scripts/archive-production-offsite-backups.py:618-639 | From COPIED to VERIFIED, whether or not the stage had already been renamed |
| `Archiver.Process.CheckPlanned` | scripts/archive-production-offsite-backups.py:670-671 | Passes exactly when the rule does not protect the bundle at that moment, the original being in place |
| `Archiver.Process.MayRetire` | scripts/archive-production-offsite-backups.py:656-661 | Retirement may be announced exactly when rule, open handles and health, asked in this order, allow it |
| `Archiver.Process.AnnounceRetirement` | scripts/archive-production-offsite-backups.py:656-664 | The disk changes only if those three checks had passed |
| `Archiver.Process.MayMove` | scripts/archive-production-offsite-backups.py:669-673 | Right before the rename rule and open handles are asked again, and decide alone |
| `Archiver.Process.Retreat` | scripts/archive-production-offsite-backups.py:665-682 | From RETIRE_INTENT to RENAMED, whether or not the rename had already happened |
| `Archiver.Process.AnnouncePurge` | scripts/archive-production-offsite-backups.py:683-689 | The disk changes only if nobody held a file open and the services were healthy |
| `Archiver.Process.RemoveOne` | scripts/archive-production-offsite-backups.py:520-526 | Removes one empty entry and nothing else of the retired tree |
| `Archiver.Process.Purge` | scripts/archive-production-offsite-backups.py:516-527 | The retired tree disappears entirely, and nothing of it is removed while a file is held open |
| `Archiver.Process.FinishPurging` | scripts/archive-production-offsite-backups.py:690-697 | Nothing is purged unless the services are healthy and the verifier accepts the archived bytes; ends in RETIRED |
| `Archiver.Process.RetireAll` | scripts/archive-production-offsite-backups.py:647-697 | The second loop retires every bundle, or stops for one of those reasons with a journal that can be saved |
| `Archiver.Process.WriteRecoveryIndex` | scripts/archive-production-offsite-backups.py:642-646 | The index is written only when every bundle is verified, and writing it stands in no bundle's way |
| `Copies.KnownMeansVerified` | scripts/archive-production-offsite-backups.py:410-418 | As copies have different root inodes, an inventory found among the verified ones was put there for this very bundle |
| `Copies.VerdictOnCopy` | scripts/archive-production-offsite-backups.py:384-441 | What the check of a copy comes to, with reuse, drifted times and limited room: exactly when it accepts, the record it leaves, and the reason it refuses |
| `Budget.LargestScratchSuffices` | scripts/archive-production-offsite-backups.py:361-362 | Room for the pending bytes, the reserve and the largest scratch database is enough for every bundle in turn |
| `Budget.SpentWithinPending` | scripts/archive-production-offsite-backups.py:574-589 | Copying never takes more than the budget counts |
| `Budget.OwedExactly` | scripts/archive-production-offsite-backups.py:574-588 | For each bundle the budget counts nothing once it is copied, all its bytes before a stage is recorded, and then what is left when the files that the stage holds unchanged are taken off |
| `StageCopy.CompleteStage` | scripts/archive-production-offsite-backups.py:496-502 | A stage that holds every listed entry is a copy of the original with the same digests |
| `StageCopy.MissingShrinks` | scripts/archive-production-offsite-backups.py:574-589 | A stage that holds at least the same finished files misses no more bytes |
| `PurgeWalk.RemnantIsSubset` | scripts/archive-production-offsite-backups.py:504-514 | Whatever an interrupted purge leaves passes the subset check of the next one |
| `TreeOrder.PurgeIsBottomUp` | scripts/archive-production-offsite-backups.py:519-525 | Descending (slash count, length) order removes every child before its directory and the root last, for any parent-closed set of paths |
| `TreeOrder.ChildBeforeParent` | scripts/archive-production-offsite-backups.py:519 | A path comes strictly before its parent in that order |
| `TreeOrder.WalkIsTopDown` | scripts/archive-production-offsite-backups.py:163-179 | The snapshot lists every entry once, directories before their contents, and its paths are closed under parents |
| `TreeOrder.SortedPathsParentsFirst` | scripts/archive-production-offsite-backups.py:274-289 | Listed by ascending path, as after reading the sealed plan back, parents still come first |
| `TreeOrder.CopyOrders` | scripts/archive-production-offsite-backups.py:458-463 | The copy loop creates parents before children under both listings, and both list the same paths |
| `Retention.Protected` | scripts/archive-production-offsite-backups.py:221-229 | The names that must stay are exactly those of the rows that the rule protects |
| `Retention.RankProtectedMeans` | scripts/archive-production-offsite-backups.py:221-229 | The rule protects a row whose receipt cannot be read, of which fewer than two are strictly newer, which was copied or modified less than the age ago, or whose receipt and modification times are further apart than the tolerance; nothing else |
| `Retention.ProtectedByRank` | scripts/archive-production-offsite-backups.py:222-227 | The cutoff test says: fewer than two bundles are strictly newer |
| `Retention.RetiringKeepsProtection` | scripts/archive-production-offsite-backups.py:221-229 | Retiring an unprotected bundle changes no other bundle's protection |
| `Catalog.PlannedIsNeverProtected` | scripts/archive-production-offsite-backups.py:657-670 | After any run of the protocol from a plan that the rule allowed when it was made, with only additions from outside and a clock that does not go back, every planned original still there may be retired, at that and any later time |
| `Catalog.NextIsCatalogStep` | scripts/archive-production-offsite-backups.py:204-229 | Every step of the script or its surroundings is a step of the retention rule: rows are only added, or one unprotected row leaves |
| `Catalog.HistoryIsCatalogRun` | scripts/archive-production-offsite-backups.py:204-229 | Hence the directories of such a run form a run of the rule |
| `Retention.UnprotectedForever` | scripts/archive-production-offsite-backups.py:221-229 | Over a run of later times, newer bundles and retirements by the rule, what was unprotected stays so |
| `Catalog.HistoryKeepsNewest` | scripts/archive-production-offsite-backups.py:221-229 | In every such run of the script each bundle with a receipt is still there, or two strictly newer ones are |
| `Retention.TwoNewestStay` | scripts/archive-production-offsite-backups.py:221-229 | The same for runs of the rule |
| `Catalog.RowNames` | scripts/archive-production-offsite-backups.py:204-219 | The rows of the catalog carry distinct names |
| `Catalog.RowsAfterMove` | scripts/archive-production-offsite-backups.py:204-219 | When a planned bundle leaves, exactly its row leaves the catalog |
| `Catalog.MoveKeepsRetirable` | scripts/archive-production-offsite-backups.py:656-670 | A bundle's departure leaves the other planned bundles retirable, then and later |
| `Planner.Plan` | scripts/archive-production-offsite-backups.py:231-257 | The selection is the shortest oldest-first prefix of unprotected bundles whose occupied bytes reach the reclaim target and whose transferred bytes stay within the cap, none of them archived already and all fitting above the reserve; it is refused exactly when there is no such prefix, when a bundle looked at is already archived, or when the archive disk cannot hold it above the reserve |
| `Planner.Collect` | scripts/archive-production-offsite-backups.py:236-249 | Where the collecting loop stops, and what it has summed up by then |
| `Planner.NothingBeyond` | scripts/archive-production-offsite-backups.py:241-250 | If the loop stops short of the target, no prefix is enough |
| `Planner.SelectionIsOldest` | scripts/archive-production-offsite-backups.py:237 | Candidates are exactly the unprotected rows; nothing left behind has an earlier receipt time than anything taken, or the same and an earlier name |
| `TargetVerification.FullVerification` | scripts/archive-production-offsite-backups.py:345-428 | Acceptance without reuse means recorded bytes, room for the scratch database, a positive verifier and an inventory that is recorded or reconcilable |
| `TargetVerification.ReconciliationIsNarrow` | scripts/archive-production-offsite-backups.py:389-409 | Reconciliation changes only recorded mtime and ctime of the two SQLite companion files |
| `TargetVerification.UndoChanges` | scripts/archive-production-offsite-backups.py:406-439 | The logged changes lead back to the inventory before |
| `TargetVerification.ReuseRefinesFullVerification` | scripts/archive-production-offsite-backups.py:410-441 | With the inventories verified by this process remembered, every call accepts exactly when the full check would and leaves the same record, except that a copy seen before needs no room; copies of different bundles are told apart by their root inodes |
| `CanonicalJson.CanonicalIsFaithful` | packages/shared/src/hr-yuzhou-payroll-source.ts:145-148 | Two JSON values with integer numbers print to the same canonical text if and only if they are equal up to the order of object keys |
| `CanonicalJson.ReadsBack` | packages/shared/src/hr-yuzhou-payroll-source.ts:145-148 | What a reader of JSON written independently of the printer (the literals, integers, strings with escapes, arrays and objects of RFC 8259) gets from a canonical text is the printed value up to the order of object properties, with the keys of every object strictly ascending by code unit |
| `CanonicalJson.ReadsPrinted` | packages/shared/src/hr-yuzhou-payroll-source.ts:145-148 | It gets that from the front of any longer text too, and finds where the value ends |
| `CanonicalJson.PrefixFree` | packages/shared/src/hr-yuzhou-payroll-source.ts:145-148 | No canonical text is a proper prefix of another: equal texts followed by anything legal come from equal values |
| `CanonicalJson.SamePrints` | packages/shared/src/hr-performance-source-drafts.ts:159-165 | Values that the structural comparison calls equal print to the same text |
| `JsonText.StringPrefix` | packages/shared/src/hr-yuzhou-payroll-source.ts:146-148 | A quoted string (section 7 of RFC 8259, with lone surrogates escaped) determines its content and where it ends |
| `JsonText.IntegerPrefix` | packages/shared/src/hr-yuzhou-payroll-source.ts:146 | So does a printed integer followed by something that ends it |
| `JsonText.ReadsString` | packages/shared/src/hr-yuzhou-payroll-source.ts:146-148 | A reader of JSON gets every printed string back, lone surrogates included |
| `JsonText.ReadsInteger` | packages/shared/src/hr-yuzhou-payroll-source.ts:146 | and every printed integer, sign and size |
| `JsonText.PrintedIsWellPaired` | packages/shared/src/hr-yuzhou-payroll-source.ts:146-148 | A printed string is well-formed UTF-16, whatever the string was |
| `JsonText.PlainStringsStandForThemselves` | packages/shared/src/hr-yuzhou-payroll-source.ts:146-148 | Nothing is escaped that need not be: a well-formed string without control characters, quotes and backslashes is printed as it is |
| `Texts.LexIsBefore` | packages/shared/src/hr-yuzhou-payroll-source.ts:147-148 | The comparison of strings puts the smaller code unit first at the first difference, and a prefix before what it begins |
| `DependencyOrder.OrderIsTopological` | packages/shared/src/hr-yuzhou-incremental.ts:101-122 | The result rearranges the input, and every dependency in the package precedes the item that needs it |
| `DependencyOrder.ErrorsAreExact` | packages/shared/src/hr-yuzhou-incremental.ts:101-122 | The duplicate error is raised if and only if two items share domain and source key; the cycle error if and only if there is no duplicate and some item depends on itself through others |
| `DependencyOrder.OrderedIsFixed` | packages/shared/src/hr-yuzhou-incremental.ts:100-122 | A list already in dependency order is returned unchanged |
| `DependencyOrder.SlicesAreFixed` | packages/shared/src/hr-yuzhou-incremental.ts:100-122 | So is every contiguous slice of any result |
| `DependencyOrder.KeyTextInjective` | packages/shared/src/hr-yuzhou-incremental.ts:104 | The joined key determines domain and source key |
| `DependencyOrder.Search.VisitItem` | packages/shared/src/hr-yuzhou-incremental.ts:109-119 | The recursive visit with its visiting and done sets does what the depth-first search function says |
| `DependencyOrder.OrderItems` | packages/shared/src/hr-yuzhou-incremental.ts:101-122 | Indexing, refusing duplicates and the recursive visits compute the specified order, whose meaning on the items is given by the ItemDependencies rows |
| `ItemDependencies.OrderFollowsProperties` | packages/shared/src/hr-yuzhou-incremental.ts:101-122 | An ordered package holds the same items, and each stands after every item of the package whose domain and source key one of its five properties shows (parentSourceKey and orgSourceKey for organizations, parentPositionSourceKey and positionSourceKey for positions, employeeSourceKey for employees), a missing property showing as "undefined" |
| `ItemDependencies.OrderFollowsStrings` | packages/shared/src/hr-yuzhou-incremental.ts:114-117 | In particular after the item of domain D and key k if such a property is the string k |
| `ItemDependencies.CycleErrorIsExact` | packages/shared/src/hr-yuzhou-incremental.ts:110-117 | A package without duplicates is refused exactly if following these five properties leads from some item back to it |
| `ItemDependencies.DependenciesComeInTurn` | packages/shared/src/hr-yuzhou-incremental.ts:114-119 | If the first item holds five keys of items that need nothing themselves, these come first, in the order of the five properties, and then the item |
| `IncrementalPackage.CanonicalIgnoresOrder` | packages/shared/src/hr-yuzhou-incremental.ts:78-94 | If no two items tie in the sort, the canonical package does not depend on the order of the input |
| `IncrementalPackage.CanonicalIsIdempotent` | packages/shared/src/hr-yuzhou-incremental.ts:78-94 | and is its own canonical form |
| `IncrementalPackage.CanonicalErrors` | packages/shared/src/hr-yuzhou-incremental.ts:78-122 | Canonicalising raises the duplicate or cycle error exactly when ordering the input as it stands would |
| `IncrementalPackage.CanonicalIsTopological` | packages/shared/src/hr-yuzhou-incremental.ts:78-94 | The canonical package holds exactly the normalised items, dependencies first |
| `ItemDependencies.CanonicalFollowsProperties` | packages/shared/src/hr-yuzhou-incremental.ts:78-94 | In a canonical package each item stands after every item that its five properties show; the items are those of the input with fields sorted by name and properties that are set to undefined dropped, and otherwise unchanged |
| `ItemDependencies.CanonicalIsListed` | packages/shared/src/hr-yuzhou-incremental.ts:78-94 | If nothing depends on anything, the items stand in the order of the ten domains and within a domain of the joined table and key |
| `IncrementalPackage.NormalizeTwice` | packages/shared/src/hr-yuzhou-incremental.ts:82-91 | Sorting the fields and dropping undefined properties a second time changes nothing |
| `IncrementalPackage.OrderMattersExactly` | packages/shared/src/hr-yuzhou-incremental.ts:78-122 | Of two items, the canonical package depends on the order of the input if and only if they are different entries that tie and neither refers to itself or the other |
| `IncrementalPackage.CollidingPair` | packages/shared/src/hr-yuzhou-incremental.ts:94 | Two items for which it does, under any collation |
| `IncrementalPackage.FixedTablesSortStrictly` | packages/shared/src/hr-yuzhou-incremental.ts:94 | If every domain has one source table and the collation tells strings apart, nothing ties |
| `IncrementalPackage.JoinedKeysCollide` | packages/shared/src/hr-yuzhou-incremental.ts:94 | Different table and key pairs can have the same sort key, so ties occur even under exact comparison |
| `PayrollPackage.ValidityIgnoresOrder` | packages/shared/src/hr-yuzhou-payroll-source.ts:159-230 | Reordering books, records, values, items or formulas makes no package valid or invalid |
| `PayrollPackage.CanonicalIdentifies` | packages/shared/src/hr-yuzhou-payroll-source.ts:150-156 | If the keys are unique, two packages have the same canonical form exactly when they say the same up to order |
| `PayrollPackage.ValidIsStrict` | packages/shared/src/hr-yuzhou-payroll-source.ts:171-226 | The uniqueness checks make every sort key strict |
| `PayrollPackage.CanonicalKeepsContent` | packages/shared/src/hr-yuzhou-payroll-source.ts:150-156 | Canonicalising loses nothing but the order |
| `PayrollPackage.CanonicalIsIdempotent` | packages/shared/src/hr-yuzhou-payroll-source.ts:150-156 | The canonical form is canonical |
| `PayrollPackage.CanonicalIsSorted` | packages/shared/src/hr-yuzhou-payroll-source.ts:150-156 | The canonical form has books by scheme, records by person, values by column and items by code in code unit order, and formulas by id |
| `PayrollPackage.CanonicalIsValid` | packages/shared/src/hr-yuzhou-payroll-source.ts:159-230 | A package is valid exactly when its canonical form is |
| `PayrollPackage.HashInputsIgnoreOrder` | packages/shared/src/hr-yuzhou-payroll-source.ts:233-240 | Valid packages that say the same have the same three hash inputs, and canonicalising first makes no difference |
| `PayrollHashes.HashesPinContent` | packages/shared/src/hr-yuzhou-payroll-source.ts:242-247 | Packages that pass the hash check with the same three hashes of the canonical JSON texts agree, book by book, on scheme, closing state, people, items (metadata up to the order of its keys) and formulas |
| `PayrollHashes.MarkSays` | packages/shared/src/hr-yuzhou-payroll-source.ts:233-240 | In the first hash input each book is an object of scheme, closeState and closeSourceHash |
| `PayrollHashes.RosterSays` | packages/shared/src/hr-yuzhou-payroll-source.ts:233-240 | In the second, of scheme and the roster of its people in order |
| `PayrollHashes.ItemSays` | packages/shared/src/hr-yuzhou-payroll-source.ts:233-240 | In the third each item has its ten properties under their names, and its metadata if there is any |
| `PayrollHashes.FormulaSays` | packages/shared/src/hr-yuzhou-payroll-source.ts:233-240 | and each formula its six |
| `PayrollHashes.SameItem` | packages/shared/src/hr-yuzhou-payroll-source.ts:238 | Catalog items with the same JSON up to key order are the same item |
| `PayrollPackage.ColumnsNameItemsOnce` | packages/shared/src/hr-yuzhou-payroll-source.ts:190-220 | In a valid book every value names exactly one catalog item, of its type, and no two values of a record the same one |
| `PayrollPackage.ReadItems` | packages/shared/src/hr-yuzhou-payroll-source.ts:180-194 | The loop over the items accepts exactly the unambiguous catalogs and builds their alias table |
| `PayrollPackage.ReadFormulas` | packages/shared/src/hr-yuzhou-payroll-source.ts:195-203 | The loop over the formulas accepts exactly those with ids new in the whole package |
| `PayrollPackage.ReadValues` | packages/shared/src/hr-yuzhou-payroll-source.ts:214-225 | The loop over the values accepts exactly the lists with distinct columns and distinct targets |
| `PayrollPackage.ReadRecords` | packages/shared/src/hr-yuzhou-payroll-source.ts:204-226 | The loop over the records accepts exactly those with distinct people, employees and row hashes |
| `PayrollPackage.Validate` | packages/shared/src/hr-yuzhou-payroll-source.ts:159-230 | The validator as a whole accepts exactly the valid packages |
| `SessionSwitch.CancelledSwitchNeverPublishes` | apps/web/lib/auth.ts:201-232 | In any interleaving of tabs, with or without locks: when a park switch has published its token, nothing at all had touched the marker since it set it |
| `SessionSwitch.UndisturbedSwitchPublishes` | apps/web/lib/auth.ts:201-232 | Over any run, a switch that starts, gets a token and then the user it asked for, and whose marker nothing touches meanwhile, stores that token and user in both storages if nobody of another data scope is stored |
| `SessionSwitch.PurgedSwitchPublishes` | apps/web/lib/auth.ts:59-72 | and otherwise as soon as the other data has been purged under its own marker |
| `SessionSwitch.FetchDecides` | apps/web/lib/auth.ts:224-232 | What becomes of a switch or login when its user has been fetched, on storages, marker and tasks |
| `SessionSwitch.PurgeDecides` | apps/web/lib/auth.ts:59-72 | and when the purge has ended |
| `SessionSwitch.AnswerDecides` | apps/web/lib/auth.ts:216-264 | and when the server has answered a switch request |
| `SessionSwitch.FailureIsExact` | apps/web/lib/auth.ts:253-263 | A failed switch logs out exactly if the tab would send no token but the one before the switch or the one obtained; otherwise it only drops the tab's own session, and exactly if its token is not the shared one |
| `SessionSwitch.SwitchStarts` | apps/web/lib/auth.ts:201-210 | When a switch starts, and what it remembers |
| `SessionSwitch.AdvancesBetween` | apps/web/lib/auth.ts:201-264 | Over any run an operation only gets further, and the marker does not change without a record |
| `SessionSwitch.RunIsHonest` | apps/web/lib/auth.ts:52-72 | The marker is always what the record of its touches says, or what an earlier page left |
| `SessionSwitch.ResetClearsOnlyCurrent` | apps/web/lib/session-reset.ts:44-70 | A 401 reset wipes the storages exactly when, in that step, the tab would send the rejected token, or there is none and none was sent; otherwise shared storage and marker stay |
| `SessionSwitch.CurrentMeansSent` | apps/web/lib/session-reset.ts:90-110 | The check for the current token lets through exactly the token the tab would send |
| `SessionSwitch.FailedSwitchDestroysExactly` | apps/web/lib/auth.ts:253-262 | In every run, with or without locks: the logout of a failed switch destroys a shared token that is neither the original nor the obtained one if and only if, after the step that decided to log out, such a token was stored and nothing was stored or wiped since |
| `SessionSwitch.LockedFailureDestroysOnlyUnlocked` | apps/web/lib/auth.ts:253-262 | With locks, what it destroys was stored by a page that took no lock |
| `SessionSwitch.LockedFailureMayWipeDirectSession` | apps/web/lib/auth.ts:52-72 | and such a session can be destroyed: a concrete run |
| `SessionSwitch.CancelledForGood` | apps/web/lib/auth.ts:223-231 | A switch that has lost its marker never publishes, whatever happens later |
| `SessionSwitch.RejectionSparesOthers` | apps/web/lib/auth.ts:235-252 | A definite rejection withdraws no other switch's marker and leaves the tab its token, unless the shared session it was using is gone |
| `SessionSwitch.UnlockedFailureMayWipeNewerLogin` | apps/web/lib/auth.ts:253-262 | Without locks it can destroy a completed login: a concrete run |
| `SessionSwitch.RunKeepsTurns` | apps/web/lib/auth.ts:290-295 | With locks, operations take turns: between two touches by one of them no other one touches the marker |
| `SessionSwitch.LockedFailureSparesOperations` | apps/web/lib/auth.ts:253-262 | With locks, no other operation under the lock touches the marker between a switch setting it and the same switch wiping the storages |
| `SessionSwitch.OnlyMarkedMayPublish` | apps/web/lib/auth.ts:201-232 | Of all switches under way, only the one the marker names can ever publish, in any continuation |
| `SessionSwitch.Browser.BeginLogout` | apps/web/lib/auth.ts:138-142 | Nothing is touched until the server has been told |
| `SessionSwitch.Browser.BeginSwitch` | apps/web/lib/auth.ts:201-211 | A switch starts exactly if somebody of another park is logged in and the park is accessible; it remembers the mode and both tokens and sets the marker, which cancels every switch under way; no session is touched |
| `SessionSwitch.Browser.SwitchAnswer` | apps/web/lib/auth.ts:216-224 | A rotated token is pursued exactly under the switch's own, untouched marker; a rejection withdraws that marker and drops the tab's own session exactly if it disagrees with the shared one or the shared one was cleared; any other answer is a failure, which logs out exactly if the tab sends no token that the switch does not know |
| `SessionSwitch.Browser.UserFetched` | apps/web/lib/auth.ts:224-230 | A switch stores the session exactly if the fetched user has the park and mode asked for, the marker is still its own and nobody of another data scope is stored; with somebody of another scope it goes on to the purge, and otherwise it fails as stated. A login saves its session, after withdrawing every marker, or logs out if the user could not be fetched |
| `SessionSwitch.Browser.PurgeEnds` | apps/web/lib/auth.ts:60-72 | After the purge a switch publishes exactly if the purge succeeded and the marker is still its own; any other session is stored exactly if the purge succeeded |
| `SessionSwitch.Browser.CheckToken` | apps/web/lib/session-reset.ts:90-110 | Passes exactly for what the tab would send, and tidying does not change what that is |
| `SessionSwitch.Browser.ResetUnauthorized` | apps/web/lib/session-reset.ts:52-58 | The session is wiped in this step exactly if the rejected request carried what the tab sends; otherwise nothing shared is touched |
| `SessionSwitch.Browser.LeaveSwitch` | apps/web/lib/auth.ts:231 | With locks, the last removal of the marker removes nobody's marker |
| `SessionSwitch.Browser.BeginLogin` | apps/web/lib/auth.ts:79-82 | A login cancels every switch under way, for good, and touches no session |
| `SessionSwitch.Browser.FinishLogout` | apps/web/lib/auth.ts:138-151 | Neither a session nor a switch that could bring one back is left; the logout of a failed switch destroys a newer token exactly if one was the last thing stored or wiped since it decided to log out |
| `SessionSwitch.Browser.ClearSession` | apps/web/lib/auth.ts:108-123 | Neither a session nor a switch that could bring one back is left, and other tabs' private storage is not touched |
| `SessionSwitch.Browser.StoreSession` | apps/web/lib/auth.ts:52-72 | A session stored directly withdraws every marker and is stored at once exactly if nobody of another data scope is stored, and otherwise after a purge |
| `SessionSwitch.Browser.StoreToken` | apps/web/lib/auth.ts:97-101 | A token set alone is what every tab then sends, and cancels every switch under way unless the marker is to be kept |
| `SessionSwitch.Browser.StoreUser` | apps/web/lib/auth.ts:162-171 | A fetched profile is stored exactly while the tab still sends the token it was fetched with; no token and no marker is touched |
| `SessionSwitch.Browser.AskReset` | apps/web/lib/session-reset.ts:44-52 | The first look touches nothing shared and lets through only what the tab sends |
| `FormalDefinition.Derive` | packages/shared/src/hr-performance-source-activation.ts:28-41 | The derivation computes the specified outcome, whose meaning on the facts is given by FormalFacts.DerivedSaysWhatFactsSay and whose failures by SucceedsExactly |
| `FormalFacts.DerivedSaysWhatFactsSay` | packages/shared/src/hr-performance-source-activation.ts:28-41 | Every derived value is the named property of the fact it is linked to: display name, department, five weights and three switches of the first profile with the identity; every text and order of every item, grade and guide; the guides of an item are those of the facts about the same source item, every link leads to the item its fact is about, and exactly the facts of the assessment (for results, all) are taken, by ascending identity; the policies are empty |
| `FormalDefinition.SucceedsExactly` | packages/shared/src/hr-performance-source-activation.ts:28-41 | From well-typed facts it fails only for a repeated source item, a repeated identity where ids are made from it, a grade without code, or a result without item; no well-typed field fails a check of the definition |
| `FormalDefinition.DerivedPassesBoth` | packages/shared/src/hr-performance-channel-workflow.ts:24-32 | The derived definition passes its validator, and the workflow passes the other one exactly when no two results share an identity |
| `FormalDefinition.ItemLinksAreOneToOne` | packages/shared/src/hr-performance-source-activation.ts:35-36 | Item links list the selected item facts, each with its own formal id |
| `FormalDefinition.GradeLinksAreOneToOne` | packages/shared/src/hr-performance-source-activation.ts:37 | Grade links list the selected grade facts, each with its own formal id |
| `FormalDefinition.DetailLinksAreOneToOne` | packages/shared/src/hr-performance-source-activation.ts:39 | Result links list the result facts and are the details of the workflow |
| `FormalDefinition.GuidesFollowLinks` | packages/shared/src/hr-performance-source-activation.ts:38 | The guides of each formal item are exactly the facts linked to it |
| `FormalDefinition.DerivationIgnoresOrder` | packages/shared/src/hr-performance-source-activation.ts:29-39 | With distinct identities the order of the facts is immaterial, for the result and for the error |
| `FormalDefinition.ReadGuides` | packages/shared/src/hr-performance-source-activation.ts:38 | The loop over the guides links each to the item it refers to and skips the others |
| `NumericText.IntegerIsDecimal` | packages/shared/src/hr-performance-channel-definition.ts:36-40 | A 32-bit integer passes the decimal check, however many leading zeros it has |
| `FieldMerge.PlanFields` | packages/shared/src/hr-yuzhou-record-incremental.ts:39-59 | The comparison loop and its closing checks compute the specified plan |
| `FieldMerge.WritesOnlyUntouchedFields` | packages/shared/src/hr-yuzhou-record-incremental.ts:44-54 | A plan only writes fields whose present value is the target baseline, and only the incoming value |
| `FieldMerge.ConflictsExactly` | packages/shared/src/hr-yuzhou-record-incremental.ts:44-58 | On source, current, target and incoming values: a plan is a conflict exactly when a field lacks a baseline, the source and the target changed one differently, the source changed a field of an archived record, or credential dates would cross after what would be written |
| `FieldMerge.WritesExactly` | packages/shared/src/hr-yuzhou-record-incremental.ts:44-59 | A conflicting plan writes nothing; any other exactly the fields that the source changed to something the record does not hold while the target left them alone, and to the incoming value |
| `FieldMerge.ChangesExactly` | packages/shared/src/hr-yuzhou-record-incremental.ts:49-59 | The changed fields are exactly those whose incoming value is not the source baseline, in the order they came in; with any and no conflict the plan is an update |
| `FieldMerge.ConflictsListed` | packages/shared/src/hr-yuzhou-record-incremental.ts:44-58 | A conflict is reported on exactly the fields that have one, and each general conflict exactly if there is one |
| `FieldMerge.PlanConverges` | packages/shared/src/hr-yuzhou-family-incremental.ts:58-75 | After a plan without conflict every changed field holds the incoming value and every other field is as before |
| `FieldMerge.WrittenDatesInOrder` | packages/shared/src/hr-yuzhou-record-incremental.ts:56-57 | A plan that writes credential fields leaves the two dates in order |
| `FieldMerge.ReplanIsUnchanged` | packages/shared/src/hr-yuzhou-family-incremental.ts:58-75 | Importing the same input again, with the source baseline advanced, changes and writes nothing |
| `FieldMerge.NormalizedIsFixed` | packages/shared/src/hr-yuzhou-record-incremental.ts:14-32 | Normalising normalised fields changes nothing |
| `FieldMerge.TrimIsExact` | packages/shared/src/hr-yuzhou-record-incremental.ts:22 | Trimming takes the white space off both ends and nothing else |
| `FieldMerge.Normalize` | packages/shared/src/hr-yuzhou-family-incremental.ts:19-39 | The normalising loop accepts and trims exactly as specified, for all three kinds of record |
| `FieldMerge.DatesCompareInTime` | packages/shared/src/hr-yuzhou-record-incremental.ts:30 | Comparing two dates as strings compares them in time |
| `PlanForest.TableIsExact` | apps/web/lib/engineering-plans-utils.ts:3-40 | The flat table lists exactly the plans whose chain of parents ends at a root, each at the depth of that chain |
| `PlanTable.TableListsChains` | apps/web/lib/engineering-plans-utils.ts:3-40 | On the plans as given: of several with one id the last is kept in the place of the first, and the table has exactly the kept plans to which a chain of parents leads from one without parent, each once, at the depth of that chain |
| `PlanTable.TableIsSorted` | apps/web/lib/engineering-plans-utils.ts:19-25 | Of two plans with the same parent, or with none, the one with the smaller sort order comes first, and with equal ones the one created first |
| `PlanForest.TableListsOnce` | apps/web/lib/engineering-plans-utils.ts:30-40 | No plan is listed twice |
| `PlanForest.TableKeepsSubtreesTogether` | apps/web/lib/engineering-plans-utils.ts:19-40 | A plan with a parent comes after it, one level deeper, with only the parent's descendants in between |
| `PlanForest.TableSortsSiblings` | apps/web/lib/engineering-plans-utils.ts:19-25 | Siblings stand in the order of sort number and creation time |
| `PlanForest.SiblingLePreorder` | apps/web/lib/engineering-plans-utils.ts:20 | The sibling comparison is a total preorder, so sorting by it is well defined |
| `PlanForest.UnlistedMeansCycle` | apps/web/lib/engineering-plans-utils.ts:10-17 | Going up from a plan that is not listed one meets a plan twice |
| `PlanForest.CycleMeansUnlisted` | apps/web/lib/engineering-plans-utils.ts:10-17 | and a plan from which one does is not listed |
| `PlanForest.LatestIsInput` | apps/web/lib/engineering-plans-utils.ts:4-7 | With unique ids the node map keeps all plans in order |
| `PlanForest.PlanTree.Build` | apps/web/lib/engineering-plans-utils.ts:3-28 | Building fills, sorts and numbers the nodes of the table, and terminates |
| `PlanForest.PlanTree.LinkNodes` | apps/web/lib/engineering-plans-utils.ts:9-17 | Every node goes into the list of its parent, or among the roots |
| `PlanForest.PlanTree.SortNodes` | apps/web/lib/engineering-plans-utils.ts:19-25 | The recursive sort finishes exactly the nodes below the given siblings |
| `PlanForest.PlanTree.Flatten` | apps/web/lib/engineering-plans-utils.ts:30-40 | Flattening a built tree yields the table |
| `ScopedWrites.SameKeySameRequest` | apps/web/lib/use-scoped-operation.ts:34-64 | Over any run, requests with the same idempotency key are the same request, sent in the same epoch |
| `ScopedWrites.WritesOnlyWhenSettled` | apps/web/lib/use-scoped-operation.ts:60-64 | A new write is sent only when nothing sent in the current epoch is still open, and under a new key |
| `ScopedWrites.CommitsAgainOnlyAfterThrow` | apps/web/lib/use-scoped-operation.ts:39-57 | Over any run, a key is completed again only if every earlier completion of it threw, and all in the one epoch in which its request was sent |
| `ScopedWrites.CommitsAtMostOnce` | apps/web/lib/use-scoped-operation.ts:39-57 | So a key whose completions do not throw is completed at most once, whatever other completions do |
| `ScopedWrites.CommitsTwiceExactlyAfterThrow` | apps/web/lib/use-scoped-operation.ts:44-57 | Right after a completion in its epoch, some continuation completes the key again if and only if that completion threw |
| `ScopedWrites.CommitsLaterExactly` | apps/web/lib/use-scoped-operation.ts:47-65 | From any reachable state, a key handed out before can still be completed if and only if it is retained or under way in the current epoch |
| `ScopedWrites.ThrowingCompletionRunsTwice` | apps/web/lib/use-scoped-operation.ts:44-57 | For instance: one write whose completion throws and runs again after a retry |
| `ScopedWrites.RunKeepsInv` | apps/web/lib/use-scoped-operation.ts:18-67 | What is open in the current epoch is retained or under way, and what is under way holds the lock |
| `ScopedWrites.ScopedOperation.Answered` | apps/web/lib/use-scoped-operation.ts:39-57 | An answer of the current epoch frees the lock and leaves exactly a failed request, one whose receipt does not validate or one whose completion threw retained; an answer from another epoch changes nothing but what is awaited; a completion runs only in the epoch of its request, and only if every earlier one of the same key threw |
| `ScopedWrites.NextAfterAnswer` | apps/web/lib/use-scoped-operation.ts:43-65 | After a refusal or a completion that did not throw the next write goes out and a retry does nothing; after any other answer of the epoch it is the other way round, and the retry is the same request |
| `ScopedWrites.AnswerSettles` | apps/web/lib/use-scoped-operation.ts:39-57 | What is retained, pending, recorded and freed after each kind of answer |
| `ScopedWrites.SendsExactly` | apps/web/lib/use-scoped-operation.ts:60-65 | When a write or a retry goes out, and as what |
| `ScopedWrites.ScopedOperation.StartWrite` | apps/web/lib/use-scoped-operation.ts:60-64 | A new write goes out exactly if nothing is retained and nothing holds the lock, under the next key; then the outcome of everything sent in this scope is known and no request has had that key. Otherwise nothing happens |
| `ScopedWrites.ScopedOperation.RetryWrite` | apps/web/lib/use-scoped-operation.ts:65 | A retry sends exactly what is retained, if the lock is free: a request already sent in this epoch, unchanged |
| `ScopedWrites.ScopedOperation.LeaveScope` | apps/web/lib/use-scoped-operation.ts:31 | After the hook has gone every answer still to come is late |
| `ScopedWrites.ScopedOperation.SwitchScope` | apps/web/lib/use-scoped-operation.ts:26-32 | In the new scope nothing is open, the next write goes out, and every answer still to come is late |
| `CsvExport.DocumentRoundTrip` | apps/web/lib/scoped-csv-export.ts:27-35 | A document begins with a byte order mark, and a reader of section 2 of RFC 4180, written with its own literals, gets back exactly the guarded texts if and only if there is a record and none is empty |
| `CsvExport.NoCellIsFormula` | apps/web/lib/scoped-csv-export.ts:27-32 | No cell read back starts with =, +, @ or - after control characters and white space |
| `CsvExport.GuardedIsInert` | apps/web/lib/scoped-csv-export.ts:28-30 | Exactly the texts that start a formula are changed, and the change disarms them |
| `CsvExport.GuardedExactly` | apps/web/lib/scoped-csv-export.ts:28-31 | A text in which only control characters and white space precede one of the signs =, +, @ and - gets an apostrophe in front; any other is left as it is |
| `CsvExport.CellIsQuoted` | apps/web/lib/scoped-csv-export.ts:32 | Every cell is quoted |
| `CsvExport.WriteCell` | apps/web/lib/scoped-csv-export.ts:27-32 | The scan for the first visible character computes the specified cell |
| `ExportPages.Collect` | apps/web/lib/scoped-csv-export.ts:4-25 | Some rows are the complete result exactly if every answer, that for the first page asked for once more at the end included, is the corresponding page of that one list, its length is within the limit, all rows have ids of their own and the export was wanted at every check; it is given up exactly if a check finds it unwanted before anything else is found wrong |
| `ExportPages.ConsistentMeans` | apps/web/lib/scoped-csv-export.ts:11-24 | A complete result has as many rows as the list said, within the limit, and every row of every page |

## Left out

Archive script:
- Durability: every write is taken as durable when it returns, in program order; `fsync` calls and the temporary file of a journal write are not separate steps.
- Journal rewrites that change nothing are not separate writes.
- File system, device, mount, owner and mode checks, `/proc` and `du` probing, `flock`, process groups, the health script and the pinned verifier are parameters or gates with free outcomes.
- SHA-256 is taken as injective; plan, journal and policy documents are values, and the sealing digest, format checks and size bounds (catalog, tree, plan and journal limits) are not modelled.
- Creating the archive directory, the plan file and the first journal precede the first modelled step.
- Foreign writers act anywhere in the protocol's runs; in `Archiver.Process` they act only between two sessions.
- Only the bytes of copied files and of scratch databases count as space: directories, the journal, the recovery index and block rounding do not. What a killed process leaves in the scratch directory is part of the free space that the next one finds.
- The pinned verifier accepts or rejects bytes; in which words it rejects, and which of several defects it meets first, is not modelled (the script reports its exceptions as ARCHIVE_OPERATION_FAILED).
- SQLite touches the times of companions only of copies whose original is still in place; later drift makes the script stop with SOURCE_DRIFT and is not a step here.
- Retirement directories are not listed in the modelled catalog; the script sees them as rows whose names match no bundle.
- uid, gid, link counts and nanosecond detail of facts beyond those compared.

Packages:
- Numbers in JSON are safe integers, and object keys are not array indices; other numbers print through the host's algorithm.
- The reader of JSON that canonical texts are checked against reads texts without insignificant whitespace, and integers as the only numbers.
- `localeCompare` is any total preorder on strings; `Object.entries` order is insertion order.
- IncrementalPackage.CanonicalIsIdempotent: stated for inputs without ties in the sort; with ties the result depends on input order, as TiesKeepInputOrder shows.
- Chunks of a canonical package are fixed points of the ordering; canonicalising a chunk again may sort it differently, which is not claimed to be the identity.
- PayrollPackage.Validate: says whether a package is accepted, not which of several errors is reported first.
- The checks of single strings (text length, SHA-256, UUID, decimal and date patterns), of the item metadata and of scope, month and time stamps are predicates given as parameters; so is the byte size of the printed package. Shapes of untyped input (unknown or missing properties, wrong JavaScript types) are assumed checked.
- PayrollHashes.HashesPinContent: the digest is taken as injective on texts; strings are sequences of 16-bit units and integers are safe, which JavaScript strings and validated packages are.
- `applyHrPerformanceSourcePatch`, `validateHrPerformanceSourceValue` beyond the types used by the derivation, `validateHrPerformanceInputChanges`, the publish mode of the workflow validator and the activation request validators: field-by-field checks.

Merge:
- White space is any set of code units without surrogates; trimming removes it from both ends.
- Inputs that are arrays count as no objects; dates are those of the proleptic Gregorian calendar from year 1.

Client:
- SessionSwitch.Browser.StoreUser: the stored profile is written in one step, without the purge in between; it never touches the marker.
- The module variables that share a running `/auth/me` request and a running park switch of one tab, refresh tokens, the recovery source and the redirect are left out; leaving out the per-tab guard only allows more interleavings.
- Tokens are not empty strings, and switch ids are unique, also among markers that earlier pages left.
- ScopedWrites.WritesOnlyWhenSettled: keys are unique; React's ordering of cleanup and effect is one step.
- PlanForest.PlanTree.Build: nodes are kept in tables by id instead of separate objects, so sharing of node objects with the caller is not modelled; sort numbers are integers.
- ExportPages.Collect: requires a positive page size; with zero the source loops for ever on a list that is not empty. Two page contents count as equal when their rows are, where the source compares their JSON text. Which checks fail, and with which message, is only told as cancelled or invalid.
- `String(value)` of a cell and the browser download.

Everything else in the repository (API client files, NestJS modules, SQL, React components, Python import scripts, permission tables) is not modelled.
