# Book2Skill: a verification model

This project models the parts of Book2Skill that decide what is kept and what is lost: the two nested
crash-recovery protocols for publishing a Skill, the extension install transaction and its dependency resolver, the
append-only knowledge history with its diff and three-way merge, the printer and the checker of the generated
references, the trust boundary around the language model, the RTF scanner and the checkpoint of a batch.

## How it is modelled

**Crash protocols.** `Storage.Disk` (and `ExtensionProtocol.Store`) is the durable state. A rename, a journal write, a
log append or one visible stage of a recursive delete or copy is one atomic step (`Cmd`, `Step`). Each protocol is a
function from the disk on which it starts to its list of steps (`PublishProgram`, `UpdateProgram`, `InstallProgram`,
`RecoverOne`, `RollBack`, ...), and `RunFor(d, prog, k)` is what losing power before step `k` leaves behind. The classes
`Publisher`, `UpdateUseCase` and `ExtensionManager` are the program's own classes: they make one step at a time on a
device that loses power before a step of the adversary's choice (`powerLossAt`) and fails one step of its choice with an
I/O error (`faultAt`), and every method is proved to make exactly the steps of the functions. The theorems are about the
functions, for every crash point, every order in which journals are listed and every number of restarts.

**Loops and dictionaries** of the source are methods with loops, each proved against a recursive function; the theorems
are about that function. What a caller finds afterwards is stated a second time, field by field and without those
functions, in the `Outcome` and `Ledger` modules and in the laws beside each function. Hashes are injective, so a journalled hash is modelled by the value it was taken of. Replies of
the language model are arbitrary values.

| files | source |
|---|---|
| Storage, PublishProtocol, PublishAtomicity, PublishRecovery, PublishFailure, PublishHandlerCrash, PublishLedger, PublishOutcome, RecoveryOutcome, SnapshotConservation, PublisherService | application/publisher.py |
| UpdateProtocol, UpdateAtomicity, UpdateRestarts, UpdateRuns, UpdateHandlerCrash, UpdateService | application/update.py, application/update_transaction.py |
| ExtensionProtocol, ExtensionAtomicity, ExtensionFailure, ExtensionService | extensions/installer.py, extensions/registry.py |
| Resolver, Versions | extensions/resolver.py, extensions/version.py |
| Knowledge, Views, Conflicts | domain/knowledge.py |
| Merge, MergeOutcome, MergeCollections | application/diff.py |
| FoldIn, FoldInLaws, ConfirmedUpdate | application/update.py |
| Text, References, ContentIntegrity, ContentReading, ReferencesRoundTrip | compiler/ir_builder.py, application/content_integrity.py |
| Identifiers, SourceTrace, Analysis, AnalysisOutcome, AnalysisTrust, AnalysisService | domain/identifiers.py, extractors/base.py, application/bundle_trace.py, application/analyze.py |
| Rtf | extractors/rtf_extractor.py |
| Batch, BatchResume | application/batch.py |

## Where the code falls short of its promise

Each of these is a theorem with the exact condition; the code is modelled as it is.

- A power loss between the swap and its journal write (publisher.py:384-388) is cleared by recovery without writing
  pointer or log (publisher.py:937-940): `PublishRecovery.PointerFollowsSlot`, `PublishRecovery.GapIsOneStep`.
- A power loss inside the except block of publish (publisher.py:432-491) can make the next recovery refuse: exactly when
  the staged tree is half deleted while the slot is free, or when the journal says swapped while the slot no longer holds
  the complete new tree and cannot be filled from a snapshot (an old tree that is back, a half-deleted or deleted first
  publish). It can also go through and leave a half-deleted first publish in the slot, or an empty slot when only the
  committed journal was left: `PublishHandlerCrash.HandlerPowerLoss`, `PublishHandlerCrash.HandlerRestart`. Inside an update,
  a half-deleted slot whose metadata is still readable passes for the published one; it is emptied, or committed if all
  pending keys were in the history: `UpdateHandlerCrash.PublishUndoRestart`.
- An update whose journal says `publishing` and whose tree is already visible is rolled back by removing the slot, not by
  restoring it (update.py:700-709): fate `TreeRemoved` in `UpdateAtomicity.OneCrash`.
- Slot and history disagree after a crash between the swap and the commit exactly when all pending keys were in the history
  before, that is when the update only brings deprecated units back: `UpdateAtomicity.AllOrNothing`,
  `ConfirmedUpdate.ConfirmedAllOrNothing`, `ConfirmedUpdate.StaleKeysBreak`.
- Each further crash during the rollback of an update may toggle the slot; one while the slot is deleted may leave it half
  deleted, or end in manual repair: `UpdateRestarts.RestartsToggle`, `UpdateRestarts.RestartsWhileDeleting`,
  `UpdateRuns.AnyRun`.
- An I/O error while the backup of a committed extension upgrade is deleted leaves a torn or new payload under the old
  record, or takes away a payload without a record: `ExtensionFailure.FailedInstallRestores`,
  `ExtensionFailure.RestoredIff`.
- Two rollbacks in a row do not restore an empty slot: `SnapshotConservation.RollbackTwice`.
- A comment in version.py says that a number precedes a word; comparing the two raises: `Versions.CompareIsPrecedence`,
  `Versions.NumberAgainstWord`.
- A deprecated unit that comes back is hidden behind its tombstone, is proposed again at every update and takes a key that
  exists: `FoldInLaws.HistoryAgrees`, `FoldInLaws.FoldInIdempotent`, `FoldInLaws.KeysStayUnique`, `FoldInLaws.ReAdding`,
  `FoldInLaws.ReAddingArises`.
- Every RTF control word that starts with `u` is taken for a Unicode escape: `Rtf.ControlWordLaw`. An escaped brace inside
  a skipped group counts as a brace: `Rtf.SkippedUntilClose`, `Rtf.EscapedBraceInSkippedGroup`.
- A resumed batch does not keep the documented order of its outcomes: `BatchResume.OrderKept`, `BatchResume.ResumeReorders`.

## Model

| member | source | states |
|---|---|---|
| PublishAtomicity.PrefixAt | src/book2skill/application/publisher.py:363-430 | after any number of steps of publish the disk is in the phase that belongs to that step: slot, snapshot, staging, journal, pointer, log and index, and nothing else has moved |
| PublishAtomicity.Resume | src/book2skill/application/publisher.py:941-990 | recovery of a journal that says swapped, interrupted at any step, ends with pointer, one success entry and index naming the new tree |
| PublishAtomicity.FinishSwap | src/book2skill/application/publisher.py:912-936 | recovery between snapshot and swap, interrupted at any step, completes the swap |
| PublishAtomicity.ClearJournal | src/book2skill/application/publisher.py:937-940 | recovery of a journal with nothing to move drops the staging directory and the journal and touches nothing else |
| PublishRecovery.SlotAtomicity | src/book2skill/application/publisher.py:363-430 | after a crash at any step and any number of crashes during recovery, a recovery that completes leaves no journal, exactly the old tree or exactly the new one with the old one in its snapshot, every other tree untouched and at most one success entry; stale journals never block it |
| PublishRecovery.RecoverAllKeeps | src/book2skill/application/publisher.py:899-990 | every state that recovery passes through is one that recovery handles, in whatever order the journals are listed; it is never stuck and needs at most six steps a journal |
| PublishRecovery.RecoverStale | src/book2skill/application/publisher.py:937-940 | the journal of an earlier failure never moves a slot or a snapshot |
| PublishRecovery.PointerFollowsSlot | src/book2skill/application/publisher.py:941-990 | for any publication, also of the artifact that is in the slot already: recovery leaves the pointer in agreement with the slot if and only if the crash was not between the swap and its journal write, or the artifact is the old one; there is exactly one success entry if the new tree is in and that gap was not met, otherwise none |
| PublishRecovery.GapIsOneStep | src/book2skill/application/publisher.py:384-388 | among all crash points exactly the one between swap and journal write leaves that gap |
| PublishFailure.FailedPublishRestores | src/book2skill/application/publisher.py:432-491 | whichever step of publish raises, the except block puts every slot and snapshot back as they were, whether or not the success entry had been written; after a taken slot was undone the active pointer names the stamp and the old tree, after a first publish was undone there is none, and every other pointer is as it was; the log has the lines of the attempt and one failure line; the index is untouched if nothing had moved, and otherwise rebuilt from the history of before the attempt |
| PublishFailure.FailureCancels | src/book2skill/application/publisher.py:1248-1288 | replaying the log with the failure entry of an attempt gives the history from before the attempt |
| PublishLedger.HistoryIs | src/book2skill/application/publisher.py:1237-1264 | the history that replaying a log yields holds, in order, exactly the success entries that no later failure entry of the same attempt cancels |
| PublishLedger.IndexInStep | src/book2skill/application/publisher.py:1208-1235 | so the index row of every Skill carries action, time and snapshot of its last standing entry, and a Skill without one has no row |
| PublishOutcome.LandedIsPublished | src/book2skill/application/publisher.py:363-430 | what a completed publish leaves, field by field |
| PublishOutcome.RollbackIsRolledBack | src/book2skill/application/publisher.py:493-568 | what a completed rollback leaves, field by field |
| RecoveryOutcome.RecoverTells | src/book2skill/application/publisher.py:899-1012 | on any disk: pointer, log and index after the recovery of one journal, whichever branch it takes |
| PublishHandlerCrash.RecoverDecides | src/book2skill/application/publisher.py:899-990 | on any disk: whether recovery of one journal goes through, and which tree it leaves in the slot |
| PublishHandlerCrash.HandlerPowerLoss | src/book2skill/application/publisher.py:432-491 | for every step of publish that fails and every step of the except block before which power is lost: when the journal is still open, exactly when its recovery refuses, exactly what the slot then holds, and no tree but the new one is lost |
| PublishHandlerCrash.HandlerRestart | src/book2skill/application/publisher.py:899-990 | the same for a whole startup with every other journal there may be, in any order |
| SnapshotConservation.RunConserves | src/book2skill/application/publisher.py:374-384 | over any sequence of publishes and rollbacks the multiset of trees in slot and snapshots gains exactly the published trees |
| SnapshotConservation.PublishConserves | src/book2skill/application/publisher.py:374-388 | a publish adds its tree and loses none |
| SnapshotConservation.RollbackConserves | src/book2skill/application/publisher.py:493-526 | a rollback neither adds nor loses a tree, of this Skill or another |
| SnapshotConservation.RollbackTwice | src/book2skill/application/publisher.py:493-526 | two rollbacks in a row put the slot back if and only if it was taken, and then keep every older snapshot |
| PublisherService.Publisher.constructor | src/book2skill/application/publisher.py:222-242 | the in-memory history starts as the replay of the log |
| PublisherService.Publisher.AppendLog | src/book2skill/application/publisher.py:1184-1193 | log and in-memory history grow together |
| PublisherService.Publisher.Forward | src/book2skill/application/publisher.py:363-430 | the try block makes exactly the steps of the program, and reports how far it came |
| PublisherService.Publisher.HandleFailure | src/book2skill/application/publisher.py:432-491 | the except block makes exactly its steps; FailedPublishRestores says what slot, pointer, log and index then are |
| PublisherService.Publisher.Restore | src/book2skill/application/publisher.py:1099-1127 | a taken slot is moved aside under a free name before the snapshot comes back |
| PublisherService.Publisher.FindSibling | src/book2skill/application/publisher.py:1129-1135 | the first suffix that no directory uses |
| PublisherService.Publisher.Publish | src/book2skill/application/publisher.py:244-491 | publish lands with slot, snapshot, pointer, log line and index row as spelled out in IsPublished and every other pointer and row as before, or raises with everything restored, or loses power: in the try block with the publication in flight, in the except block at a prefix of its steps, which HandlerRestart decides; history and log agree in every case |
| PublisherService.Publisher.FindLatest | src/book2skill/application/publisher.py:1066-1074 | the newest snapshot of the Skill, if there is one |
| PublisherService.Publisher.RollbackLatest | src/book2skill/application/publisher.py:493-568 | raises and changes nothing without a snapshot; otherwise slot and newest snapshot change places, the active pointer is at the restored tree, by its artifact or else the stamp, the log gains one successful rollback line with snapshot and artifact, the index row says so, and nothing else changes |
| PublisherService.Publisher.RecoverJournal | src/book2skill/application/publisher.py:899-990 | recovery of one journal makes exactly the steps decided by its state and the directories present |
| PublisherService.Publisher.EnsureSuccessLog | src/book2skill/application/publisher.py:992-1012 | a success entry is appended unless the log has one for the publish id |
| PublisherService.Publisher.Recover | src/book2skill/application/publisher.py:899-990 | startup works through every pending journal once, until power is lost or one needs manual repair |
| UpdateAtomicity.OneCrash | src/book2skill/application/update.py:443-510 | after one crash at any step of execute, inner publish steps included, publisher recovery and update recovery both complete, no update journal is left, and slot and history end in the fate that belongs to the step |
| UpdateAtomicity.AllOrNothing | src/book2skill/application/update.py:572-737 | on the disk after one crash at any step and a full restart, slot and history agree if and only if some pending key was new or the crash was outside the window; with a new key the slot holds the new tree iff every pending key is in the history; once the publication is journalled the result is both old or both new |
| UpdateRuns.AnyRun | src/book2skill/application/update.py:572-737 | power lost before any step of execute, then in any number of startups, each in the recovery of the publisher or of the update: the first startup that runs to its end leaves slot, history and journal exactly as stated; outside the two rollbacks the first crash alone decides |
| ConfirmedUpdate.StaleIsReAdding | src/book2skill/application/update.py:743-782 | all pending keys of a planned update are in the history before if and only if everything it appends is a unit that comes back under a key that exists |
| ConfirmedUpdate.ConfirmedAllOrNothing | src/book2skill/application/update.py:434-510 | for an update made from its plan: after one crash at any step and a full restart slot and history disagree if and only if the update only brings units back and the crash was in the window |
| ConfirmedUpdate.StaleKeysBreak | src/book2skill/application/update.py:632-669 | a plan that the program accepts, on a history that the program itself leaves: after a crash at any step of the window and a full restart the new tree stands beside the old history |
| UpdateAtomicity.ExecuteLawful | src/book2skill/application/update_transaction.py:30-51 | execute asks for legal transitions only |
| UpdateAtomicity.RecoveryLawful | src/book2skill/application/update_transaction.py:30-51 | recovery of any journal on any disk asks for legal transitions only |
| UpdateAtomicity.PublisherRecovers | src/book2skill/application/publisher.py:899-990 | publisher recovery settles the inner publication and leaves the bookkeeping of the update alone |
| UpdateAtomicity.RollBackEnds | src/book2skill/application/update.py:695-737 | rolling back a journalled, uncommitted update restores the old tree and the old history |
| UpdateRestarts.RestartsToggle | src/book2skill/application/update.py:697-710 | after any number of restarts interrupted at any steps of the rollback, the rejected tree is back if and only if an odd number of them stopped behind their first rename with the journal still there; the history is the old one in every case |
| UpdateRestarts.OneRestartToggles | src/book2skill/application/update.py:697-710 | one interrupted restart counts exactly at five of its steps |
| UpdateRestarts.RestartsWhileDeleting | src/book2skill/application/update.py:700-722 | after any number of restarts interrupted while the slot is deleted: exactly when recovery refuses to go on, exactly when a torn slot stays |
| UpdateRestarts.DeletesArises | src/book2skill/application/update.py:700-709 | both kinds of journal that lead to deletion do arise from one crash |
| UpdateHandlerCrash.PublishUndoRestart | src/book2skill/application/update.py:455-489 | an inner publication that fails and whose except block loses power at any step: startup gives up exactly when the publisher does, otherwise the history is the old one and the slot is exactly as stated |
| UpdateHandlerCrash.WithdrawnIsOld | src/book2skill/application/update.py:482-489 | power lost while the journal of a failed update is removed: after the restart the tree and the history are the old ones |
| UpdateHandlerCrash.RollingBackIsRecovery | src/book2skill/application/update.py:491-504 | power lost while a failed commit is rolled back counts as one interrupted restart in RestartsToggle or RestartsWhileDeleting |
| UpdateService.UpdateUseCase.Execute | src/book2skill/application/update.py:443-516 | execute ends with tree and history both new, and pointer, log line and index row of a completed publication; or raises with both old; or stops on the way, where OneCrash decides what the next start makes of it; or loses power while it undoes a failure, in one of the three situations of UpdateHandlerCrash |
| UpdateService.ExecutedPublishes | src/book2skill/application/update.py:443-510 | a completed update leaves a completed publication: slot, snapshot, pointer, log line and index row |
| UpdateService.UpdateUseCase.Commit | src/book2skill/application/update.py:490-510 | a failing history write rolls the publication back |
| UpdateService.UpdateUseCase.Advance | src/book2skill/application/update_transaction.py:141-199 | a journal is rewritten only along the lifecycle graph |
| UpdateProtocol.TransitionsAre | src/book2skill/application/update_transaction.py:30-51 | the two final states are never left; any other may be written again, take the next place, give up, or, once publication has begun, be found committed |
| UpdateService.UpdateUseCase.RollBackTx | src/book2skill/application/update.py:695-737 | makes exactly the steps of the rollback and raises exactly when it cannot complete |
| UpdateService.UpdateUseCase.RecoverPending | src/book2skill/application/update.py:572-604 | reconciles the journals in order and raises at the first that needs manual repair |
| ExtensionAtomicity.InstallAtomicity | src/book2skill/extensions/installer.py:299-349 | after a crash at any step, inside copytree and rmtree included, and any number of crashes in recovery, a startup that completes leaves the registry and every payload as before, or as after if and only if the journal had reached activated; as after means, field by field: the version is added to those there were and is active, manifest and hash are its own, and every other record, hash and payload is as it was |
| ExtensionAtomicity.RepairKeeps | src/book2skill/extensions/registry.py:99-127 | the repair pass never disturbs an operation that recovery still has to undo or finish |
| ExtensionAtomicity.RepairedIs | src/book2skill/extensions/registry.py:99-127 | what the repair makes of every record: gone, as it was, or with the versions that have a payload and the newest of them active |
| ExtensionAtomicity.RollbackUndoes | src/book2skill/extensions/installer.py:434-455 | the rollback pass, interrupted at any step, undoes record and payload |
| ExtensionAtomicity.StartupKeeps | src/book2skill/extensions/installer.py:457-483 | repair followed by recovery of every pending journal, in any order and with any power |
| ExtensionFailure.FailedInstallRestores | src/book2skill/extensions/installer.py:420-455 | whichever step fails, the registry is as before and the payloads are exactly as stated: as before up to the deletion of the backup, then torn, new or gone |
| ExtensionFailure.RestoredIff | src/book2skill/extensions/installer.py:392-406 | a failed operation restores every payload if and only if it failed before the deletion of its backup, or what the undo puts there happens to be the old payload |
| ExtensionFailure.HandlerCrash | src/book2skill/extensions/installer.py:420-432 | power lost at any step of that undo, whichever step had failed, leaves a state that startup handles |
| ExtensionFailure.HandlerAtomicity | src/book2skill/extensions/installer.py:420-483 | after such a power loss and any number of crashes in startup, the first startup that completes leaves what the whole undo would have left |
| ExtensionService.ExtensionManager.InstallTransaction | src/book2skill/extensions/installer.py:299-349 | installs completely, with record and payloads as after field by field, or raises with registry and payloads as FailedInstallRestores states, or loses power at a prefix of the steps of the install or of the undo; a refused activation always undoes |
| ExtensionService.ExtensionManager.BackUp | src/book2skill/extensions/installer.py:408-418 | the replaced payload is copied before the journal names the copy |
| ExtensionService.ExtensionManager.AddVersion | src/book2skill/extensions/registry.py:229-267 | the payload is written, the record keeps every earlier version and hash and gains this one, and the active version stays |
| ExtensionService.ExtensionManager.Rollback | src/book2skill/extensions/installer.py:434-455 | makes exactly the steps of the undo |
| ExtensionService.ExtensionManager.RepairRecords | src/book2skill/extensions/registry.py:99-127 | drops versions without payload and records without versions, and falls back to the newest version left, as RepairedIs spells out |
| ExtensionService.ExtensionManager.Startup | src/book2skill/extensions/installer.py:457-483 | repair and recovery in the order of the program |
| Resolver.InstallOrder | src/book2skill/extensions/resolver.py:34-83 | an order is returned if and only if every dependency is known and in range and there is no cycle; it is duplicate-free, contains every requested id and puts each dependency first; any other failure names the reason for which some dependency fails |
| Resolver.CheckAnswers | src/book2skill/extensions/resolver.py:68-107 | a dependency is satisfied by the requested manifest, or else by the installed version, if that is in range; the three other answers |
| Resolver.ByIdIs | src/book2skill/extensions/resolver.py:46-48 | of several manifests with one id the last one counts |
| Resolver.Search.Visit | src/book2skill/extensions/resolver.py:60-80 | the recursive search over shared state and order keeps the order sorted and the path a chain of needs |
| Resolver.SortedIsAcyclic | src/book2skill/extensions/resolver.py:34-83 | a graph with such an order has no cycle |
| Versions.CompareIsPrecedence | src/book2skill/extensions/version.py:87-106 | compare raises exactly when a number meets a word at the first difference, and otherwise is the precedence of section 11 of Semantic Versioning 2.0.0 |
| Versions.PrecedenceIsTotalOrder | src/book2skill/extensions/version.py:98-106 | that precedence is a strict total order |
| Versions.ConstraintMeaning | src/book2skill/extensions/version.py:109-152 | what each operator, wildcard and compatible-release constraint accepts |
| Versions.RangeIsInterval | src/book2skill/extensions/version.py:155-167 | a range that accepts a and c accepts every b between them for which the comparison does not raise |
| Versions.NumberAgainstWord | src/book2skill/extensions/version.py:87-106 | the comparison of 1.0.0-1 with 1.0.0-rc raises |
| Views.CurrentIsLatest | src/book2skill/domain/knowledge.py:364-375 | the current record has the highest version and is the first to have it |
| Views.LatestRecord | src/book2skill/domain/knowledge.py:364-375 | returns that record, or none |
| Views.CurrentView | src/book2skill/domain/knowledge.py:401-414 | one record per id, the latest, in order of first appearance |
| Views.IdsInOrder | src/book2skill/domain/knowledge.py:401-414 | the ids come in the order in which they first appear in the records |
| Views.ActiveIs | src/book2skill/domain/knowledge.py:417-427 | the active view holds exactly the latest records that are neither superseded nor rejected, one per id |
| Views.ActiveInOrder | src/book2skill/domain/knowledge.py:417-427 | the active units come in that order, too |
| Views.SupersessionIsCurrent | src/book2skill/domain/knowledge.py:378-393 | an appended supersession becomes current for its id and for no other |
| Conflicts.DetectConflicts | src/book2skill/domain/knowledge.py:228-270 | the inverted index, sorting and filtering give exactly the list, order and numbering of the double loop over all pairs |
| Conflicts.RowsIs | src/book2skill/domain/knowledge.py:313-330 | the double loop lists exactly the conflicting pairs in ascending order |
| Conflicts.HitsAreCandidates | src/book2skill/domain/knowledge.py:273-305 | no conflicting pair is missed by the index |
| Conflicts.ConflictPairIs | src/book2skill/domain/knowledge.py:313-330 | a principle and an anti-pattern conflict if and only if they share a token and at least 34 percent of all their tokens; two principles if and only if they share a token but not all and one of them has a negation; nothing else does, in either order |
| Conflicts.TokenIs | src/book2skill/domain/knowledge.py:172-179 | the tokens of a text are its maximal alphanumeric runs in lower case |
| Merge.ActiveOverrides | src/book2skill/application/diff.py:497-506 | per unit and field the latest override that is not superseded, the first of equally late ones |
| Merge.LatestIs | src/book2skill/application/diff.py:497-506 | that override has the highest time and is the first to have it |
| Merge.ValuesEqualIs | src/book2skill/application/diff.py:607-618 | when two values count as equal: floats closer than the tolerance, an integer and a float of the same value, lists of the same elements in any order and number, otherwise the same value; in both directions |
| Merge.ChangedIs | src/book2skill/application/diff.py:476-494 | the changed fields are exactly those that differ, the confidence by at least the tolerance |
| Merge.MergeUnit | src/book2skill/application/diff.py:516-604 | merged unit, applied overrides and numbered conflicts of one unit |
| Merge.FieldLaw | src/book2skill/application/diff.py:537-590 | field by field which side wins; an unedited confidence within the tolerance stays; identity, version and evidence stay those of the base |
| Merge.ConflictLaw | src/book2skill/application/diff.py:550-589 | a conflict is recorded for a field if and only if base, override and new value pairwise differ, once, with the number that follows, the value of the override as the human one and the value of the new record as the generated one |
| Merge.AppliedOnce | src/book2skill/application/diff.py:516-604 | every active override of the unit is applied exactly once |
| MergeCollections.ComputeDiff | src/book2skill/application/diff.py:206-280 | the loops compute the classification of every id |
| MergeCollections.DiffIs | src/book2skill/application/diff.py:226-256 | exactly which units are added, removed, modified and unchanged |
| MergeCollections.MergeWithOverrides | src/book2skill/application/diff.py:282-383 | the merged collection unit by unit and field by field: the value of the active override where it departs from the base, otherwise the new record, or the base where there is none; units without a base pass through; which ids, each once and in which order; every active override of a unit on either side exactly once in applied or preserved, and the applied ones that depart from the base show; one conflict for each disputed override, with both values, numbered from 0; the units with a conflict |
| MergeCollections.MergedIs | src/book2skill/application/diff.py:282-383 | that description of the merged collection, for any two collections and active overrides |
| MergeCollections.LandedIs | src/book2skill/application/diff.py:335-375 | where every override lands, and that the applied ones show |
| MergeCollections.ConflictsTell | src/book2skill/application/diff.py:550-589 | exactly which conflicts there are and what they say |
| FoldIn.PlanUpdate | src/book2skill/application/update.py:214-312 | refuses a history without records, one without active units, and sources without an analysis; otherwise the plan is the diff and the merge of the active view with the adjusted analysis, and the merged units are those that MergedIs describes |
| FoldIn.ApproveConfirmed | src/book2skill/application/update.py:784-803 | the added and modified units are approved, the others kept |
| FoldIn.PrepareChanges | src/book2skill/application/update.py:743-782 | the records to append: additions as they are, modifications and tombstones as supersessions |
| FoldInLaws.ChangedMeans | src/book2skill/application/update.py:284-300 | an analysed unit counts as changed if and only if it has no active record or differs from it in a field other than a generated candidate status |
| FoldInLaws.ApprovedIs | src/book2skill/application/update.py:784-803 | what is published is the merged unit, approved if and only if the update adds or changes it and it is a candidate or reviewed |
| FoldInLaws.UnchangedStays | src/book2skill/application/update.py:784-803 | a unit that the update leaves unchanged keeps its review status in the published list, unless a human gave it another |
| FoldInLaws.RemovedIsRetired | src/book2skill/application/update.py:743-782 | a removed unit's current record has the next version and the status superseded and is otherwise the old one |
| FoldInLaws.AfterIs | src/book2skill/application/update.py:743-803 | the current record of every id after the update |
| FoldInLaws.PublishedIsRecorded | src/book2skill/application/update.py:743-803 | each added or modified unit's current record carries the published fields, unless its id was re-added; a modified one takes the next version and points back to its id |
| FoldInLaws.HistoryAgrees | src/book2skill/application/update.py:743-803 | the active ids after the update are the published ids if and only if nothing is re-added and nothing retires a changed unit |
| FoldInLaws.FoldInIdempotent | src/book2skill/application/update.py:236-312 | after an accepted update, folding the same analysis in again is refused if and only if the update replaced the sources and all it brought came back behind tombstones; otherwise it changes nothing if and only if nothing was re-added |
| FoldInLaws.KeysStayUnique | src/book2skill/application/update.py:743-782 | keys stay unique if and only if no added id has a record of version 1 |
| FoldInLaws.ReAdding | src/book2skill/application/update.py:765-772 | the three failures for any unit that comes back behind its tombstone, in any history and both modes |
| FoldInLaws.ReAddingArises | src/book2skill/application/update.py:236-312 | such a unit does come back: a replacement that the program accepts leaves the history, and the next update that it accepts shows the three failures |
| References.BuildReferences | src/book2skill/compiler/ir_builder.py:286-309 | one file per kind with units, and the provenance file |
| References.RenderReference | src/book2skill/compiler/ir_builder.py:435-470 | the text of one file: the units in order, each with the lines that Layout describes |
| References.LayoutIs | src/book2skill/compiler/ir_builder.py:444-469 | between the markers of a unit stand heading and content, then every condition under Conditions, every exception under Exceptions and every source under Sources, each list only if it has an entry, and nothing else |
| References.LedgerLayout | src/book2skill/compiler/ir_builder.py:473-486 | the provenance file holds every usable unit in order with all its references, and nothing else |
| References.UsableAre | src/book2skill/compiler/ir_builder.py:311-318 | every unit that is neither rejected nor superseded is printed, as often as it is given |
| References.GroupByKind | src/book2skill/compiler/ir_builder.py:352-359 | the usable units of each kind, in order |
| ContentIntegrity.ParseFile | src/book2skill/application/content_integrity.py:92-145 | the marker and line loops read exactly the segments of a file |
| ContentReading.ParseTells | src/book2skill/application/content_integrity.py:92-145 | for any lines: every start marker tells one thing, malformed if its heading or its end marker is missing before the next start, otherwise one section with the stripped lines before the first title and the references named after a Sources title, in order; a file is the sum of its markers |
| ContentIntegrity.CheckContent | src/book2skill/application/content_integrity.py:82-188 | the findings are exactly the differences between what is read and what is expected |
| ContentIntegrity.CleanIffFaithful | src/book2skill/application/content_integrity.py:147-188 | for any files: no finding on units, content or references if and only if each expected unit is there once with equal normalized content and the references are the exact multiset |
| ContentIntegrity.NormalizedIs | src/book2skill/application/content_integrity.py:323-325 | normalized content is the lines of the content without outer whitespace, and a content without outer whitespace whose lines end in plain newlines is its own normal form |
| ReferencesRoundTrip.RoundTrip | src/book2skill/compiler/ir_builder.py:435-470 | printing and checking undo each other for units whose text does not look like a marker |
| ReferencesRoundTrip.PrintedIsClean | src/book2skill/application/content_integrity.py:91-188 | so the checker reports nothing on printed files |
| Identifiers.UnitIdInjective | src/book2skill/domain/identifiers.py:30-34 | a candidate id determines its block and its number |
| Identifiers.BlockIdInjective | src/book2skill/domain/identifiers.py:17-27 | a block id determines its source, its kind and its ordinal |
| SourceTrace.ValidateExtraction | src/book2skill/extractors/base.py:192-248 | no issue is collected if and only if the extraction meets its contract |
| SourceTrace.VerifyBundle | src/book2skill/application/bundle_trace.py:212-263 | a bundle is accepted if and only if its sources are distinct and in order and every reference is an extracted block of a declared source |
| SourceTrace.VerifyReferences | src/book2skill/application/bundle_trace.py:98-209 | raises on the first reference that the raw records do not have |
| AnalysisService.Analyzer.MapReply | src/book2skill/application/analyze.py:708-767 | the candidates rebuilt from a map reply, with ids numbered per block |
| AnalysisService.Analyzer.TrustReply | src/book2skill/application/analyze.py:1001-1059 | the candidates rebuilt from a reduction reply, with references only from the units sent |
| AnalysisService.Analyzer.Analyze | src/book2skill/application/analyze.py:842-968 | the cards of the bundle are explained by the replies entry by entry (Explains): those of the books, and those of the map step only without a synthesizer or if no book has a card; the same for every order in which the section reductions complete |
| AnalysisOutcome.Explained | src/book2skill/application/analyze.py:715-781 | for any replies: exactly one card for each map entry with a known input and a valid body; the sections with all their cards; a failed section reduction keeps what was sent, a completed one has exactly the cards of its supported valid entries; a book has those of its reply, or the section results if there is none or the call failed |
| AnalysisOutcome.MapReplyHolds | src/book2skill/application/analyze.py:740-767 | the cards of one map reply in order: the body of the entry, the block of the item as its one reference, the next number of that block; invalid entries take a number, too |
| AnalysisOutcome.ReductionHolds | src/book2skill/application/analyze.py:1001-1059 | the cards of one reduction in order: the body of the entry, the references of its support, the next number of the first reference's block |
| AnalysisOutcome.SupportIs | src/book2skill/application/analyze.py:1015-1039 | the references of a support list: those of the units it names among the sent ones, each once, in order of first citation |
| AnalysisOutcome.MapChunksAre | src/book2skill/application/analyze.py:495-503 | four adjacent chunks of a source share a section; each section with a card is there once, with all its cards in order, in the order of first cards |
| AnalysisOutcome.SomeRebuilt | src/book2skill/application/analyze.py:1001-1059 | a reduction yields no card if and only if no entry has known support and a valid body |
| AnalysisOutcome.PlainAre | src/book2skill/application/analyze.py:369-468 | without chunks: exactly one card for each valid body, in order, numbered by its place |
| AnalysisTrust.AnyReplyIsTrusted | src/book2skill/application/analyze.py:918-968 | for every reply at map, section and book level candidate ids are distinct and references are known blocks |
| AnalysisTrust.BundleVerifies | src/book2skill/application/bundle_trace.py:212-263 | so the verification accepts the bundle of any replies to an analysis of persisted extractions |
| AnalysisTrust.PlainTrusted | src/book2skill/application/analyze.py:369-468 | the same without chunks |
| AnalysisTrust.ExtractedDistinct | src/book2skill/extractors/base.py:237-245 | extracted block ids are distinct across all sources |
| Rtf.SkipStack.Push | src/book2skill/extractors/rtf_extractor.py:88-92 | the stack stays unset flags and then set ones, with an unset one at the bottom, and the counter is the number of set ones |
| Rtf.SkipStack.Pop | src/book2skill/extractors/rtf_extractor.py:94-99 | the same, and the bottom is never popped |
| Rtf.SkipStack.Skipping | src/book2skill/extractors/rtf_extractor.py:85-86 | the counter answers whether any flag is set |
| Rtf.RtfToText | src/book2skill/extractors/rtf_extractor.py:53-142 | for every input the scan ends and its result depends on the number of set flags only |
| Rtf.HandleEscape | src/book2skill/extractors/rtf_extractor.py:176-243 | what an escape adds to the text, and that the index moves on and stays in the text |
| Rtf.SkipControlWord | src/book2skill/extractors/rtf_extractor.py:145-159 | the end of name, number and one space |
| Rtf.SkippedUntilClose | src/book2skill/extractors/rtf_extractor.py:104-125 | a skipped group yields nothing and ends exactly at the brace that matches when every brace counts |
| Rtf.GroupsVanish | src/book2skill/extractors/rtf_extractor.py:104-133 | ignorable groups and metadata destinations disappear up to their closing brace |
| Rtf.ControlWordLaw | src/book2skill/extractors/rtf_extractor.py:197-243 | a control word stands for a newline, a space or nothing as described if and only if its name does not start with u |
| Rtf.WordSpans | src/book2skill/extractors/rtf_extractor.py:145-173 | a control word ends after its letters, an optional sign, digits and one space, each as long as possible |
| Rtf.UnicodeLaw | src/book2skill/extractors/rtf_extractor.py:197-210 | a Unicode escape takes sign, digits, one space and one hexadecimal replacement with it and becomes a question mark |
| Rtf.HexLaw | src/book2skill/extractors/rtf_extractor.py:188-195 | two hexadecimal digits become their character, anything else of that form disappears |
| Rtf.SymbolLaw | src/book2skill/extractors/rtf_extractor.py:181-229 | escaped backslash and braces, non-breaking space and hyphen, escaped line ends, and a backslash at the end of the text |
| Rtf.EscapedBraceInSkippedGroup | src/book2skill/extractors/rtf_extractor.py:122-125 | a concrete text whose tail is lost to an escaped brace |
| Rtf.RoundTrip | src/book2skill/extractors/rtf_extractor.py:53-243 | any text, each character written in any admissible way inside a document, is read back exactly |
| Batch.BatchOrchestrator.Execute | src/book2skill/application/batch.py:122-225 | every rejected path and then every file, finished ones first, has exactly one outcome, which says what became of it (Accounts); completes exactly when it is not interrupted, and leaves the checkpoint file after exactly the writes made |
| Batch.BatchOrchestrator.RunSequential | src/book2skill/application/batch.py:227-247 | one save per file |
| Batch.BatchOrchestrator.RunConcurrent | src/book2skill/application/batch.py:249-282 | for any order of completion the outcomes come in the order of the files, with one save |
| Batch.Tally | src/book2skill/application/batch.py:355-366 | each outcome is counted once, and the four counts sum to the total |
| Batch.AccountsIs | src/book2skill/application/batch.py:156-212 | a remembered file has the status of the checkpoint; an analysed one is a success if it has a bundle and no error, partial with both, failed without a bundle, and carries the errors of its analysis |
| Batch.FailuresAre | src/book2skill/application/batch.py:213-220 | the failures of a run are exactly the errors of its failed and skipped outcomes |
| BatchResume.ResumeAgreesWithUninterrupted | src/book2skill/application/batch.py:122-225 | after any interruptions and resumes the completing run reports the same status for every path, the same counts and the same failures in the same order as an uninterrupted run |
| BatchResume.StaysTruthful | src/book2skill/application/batch.py:227-282 | the checkpoint never records a wrong status |
| BatchResume.NeverReprocessed | src/book2skill/application/batch.py:180-197 | a recorded file is in no later list of files to process |
| BatchResume.OrderKept | src/book2skill/application/batch.py:180-208 | a resumed run keeps the order of discovery if and only if the remembered files come first |
| BatchResume.ResumeReorders | src/book2skill/application/batch.py:180-208 | two files for which it does not |

## Left out

- Compilation, quality gates, archived quality reports, `SKILL.md` metadata: one abstract request that names the finished tree.
- Real hashing, JSON, YAML and pydantic: datatypes and injective hashes; validation of a rebuilt candidate or unit is a yes or no.
- `storage.*`, `runtime.*`, `llm.chunking`, `hosts.base` and `validation.*` are not part of this model: `atomic_write`, the log append and `save_units_atomic` are atomic steps, and a chunker keeps the block ids it was given.
- Suffixes of snapshot names: clocks strictly increase, so the first name is free, and snapshots compare by time, not by the text of their names.
- Two Skills whose directories coincide, and lock contention between processes.
- A second I/O error, in the except block or in recovery: at most one step fails, and the handlers run without a further fault; power may be lost in them.
- PublisherService.Publisher.RollbackLatest: its own compensation after an I/O error is not modelled, since it would be that second error or a rollback outside an update.
- `ExtensionManager.rollback` and `uninstall`: they journal no previous record, so the atomicity theorem does not cover them.
- ExtensionAtomicity.InstallAtomicity: a payload that lay on disk without a record may be lost by a crash before its backup is journalled; the theorem says so and keeps everything else.
- The code that an extension runs on activation: a boolean.
- Parsing of version strings and range strings: versions and constraints are given as values.
- Versions.RangeIsInterval: when b sets a number against a word of a constraint the comparison raises, and nothing is claimed.
- ReferencesRoundTrip.RoundTrip: assumes distinct ids and units without marker-like lines, spaces in source ids or line breaks in quotes; other inputs can be misread.
- ContentIntegrity.CheckContent: provenance.yml, manifests and the summary report are not modelled; duplicate references are a part of the surplus ones.
- Case folding and word characters of the conflict and whitespace rules: ASCII, plus the line breaks and spaces that `splitlines` and `strip` use.
- Iteration orders of sets: any order; results that do not depend on it are stated as sets or sorted lists.
- AnalysisService.Analyzer.Analyze: an exception of the model in the map step, or at section level without the runtime adapter, ends the analysis without a bundle and is not modelled.
- Prompts, token budgets, retries, progress and time estimates, the evidence payload, skill suggestions and quality review of candidates.
- `cluster_units`, wiki views, regression compare, `BuildUseCase`, `pack_incremental`: they would add easier members only.
- Rtf.RtfToText: decoding of bytes is not modelled; which characters are letters and digits, and which pairs spell a hexadecimal number, are parameters that agree with ASCII.
- Batch.BatchOrchestrator.Execute: discovery of files, progress callbacks and checkpoint entries with an unknown status (ignored by the program) are not modelled; an exception other than the two that are caught ends the process and counts as an interruption.
- The command line, the desktop server, host installers, diagnostics, configuration and the extractors built on other libraries.
