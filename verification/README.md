# Verified models of the RinOS runtime

This project models six parts of the runtime in Dafny and proves what they are for.

| part | modules | what is proved |
|---|---|---|
| file operations | `Namespaces`, `UndoSpec`, `FileBackend`, `FileOperations`, `FileRecovery`, `ForwardSpec`, `FileCopy`, `CopyStream`, `CopyRun`, `FileUndo`, `FileMove`, `Whereabouts`, `FileRuns`, `CopyProgress`, `ReplaceProgress`, `MoveProgress`, `FileLimits`, `CrashRuns` | crash recovery, harmlessness, undo inverts copy, faithful bytes, moves lose nothing, what can succeed does |
| compositor client | `Canvas`, `CompositorJobs`, `AsyncQueue`, `GuiRuntime`, `CompositorClient`, `InputDemux`, `RenderGenerations` | one persistent canvas, a faithful request queue, conserved handles and completions, lossless input |
| interface identity | `NetifIdentity` | snapshots are never torn |
| AES-SIV | `AesSiv` | agreement with RFC 5297, open inverts seal both ways |
| backup manifest | `BackupManifest` | a bijection between manifests and accepted strings, single-byte errors |
| certificate revocation | `RevocationCache` | accepted evidence never rolls back |

Code that changes state is modelled by classes and methods with loops, as it is written in C. Each method is
proved against specification functions on values, and the theorems are about those functions or about whole
runs. Sockets, clocks, shared memory, the file system and other processes are nondeterministic: calls fail when
they like, some fail after taking effect, and other processes may change the file system between any two calls.

## File operations

A namespace is a map from paths to objects with identity, kind, bytes and an optional operation token. The
operation's record (header, temporary object, one entry per planned object) is what a checkpoint saves.
`UndoSpec.Recover` says, without any reference to the code, which namespace undoing a record would leave. The
proofs then show that every single backend call, forward or backward, keeps that namespace: at each moment of
the run, the current namespace together with the last durable record leads back to the start. Crash recovery,
rollback and undo are consequences.

Every change of the namespace that the operation makes is logged as a deed, with the namespaces before and
after it and the record that was durable; every change and every stored record is a moment of the history.
When nobody else is about, the deeds account for every moment.

Four notions recur in the contracts. A run is *tracked* (`x` is `Some`) when nobody else touches the
namespace. Its rollback is *exact* when it replaces nothing or only files. A backend is *reliable* when calls
fail only for cause. `Harmless` says of every deed, with no restriction on others, that no taken name is given
to another object; that what a copy removed or wrote to was made by it, at this run or before a restart;
that its renames go to and from announced backup paths and a move's only between source and destination; and
that its publications go from the announced temporary path to the destination of an entry. A publication goes
by path: if somebody else puts an object at the temporary path first, that object gets the destination's name.
`Whereabouts` proves that the destination gets the recorded object exactly when the temporary path still holds
it, so that an object of somebody else is published only when it does not, and that no change a copy makes removes
an object it did not make.

Moves have a theorem of their own: from any start and with nobody else about, every moment of a move, of its
rollback and of any series of interrupted recoveries has every object of the start that carries no token under
exactly one name, inside the sync window or outside. An object with a token, such as one an earlier copy made, is
removed at most from the destination of an entry. When a call fails in the sync window of a forward rename, the
rollback leads from that moment on to what undoing the record of the window gives: where the paths of the plan are
independent, the start with the one object in the window at its destination.

Where nothing stands in the way of the plan and calls fail only for cause, copies and moves come to their end, in
a stated number of pumps.

Four properties one might expect are false of the code. For three of them `FileLimits` proves of the
specification exactly when they hold and of the rollback steps that they fail in just those ways, and
`CrashRuns` reaches each failure from a start: rollback of
an entry announced by its token alone ignores what the entry displaced; a moved object that carries a token is
removed by rollback as if the operation had made it; a failure between the forward rename and its directory
syncs is taken for a completed rename home. The fourth: recovery is blocked for good when a foreign object
occupies an announced temporary path; the theorems say so with an if-and-only-if, and name a condition on the
start under which it cannot happen.

## Compositor client

`Canvas` models one window's double buffer down to the bytes and refines it to a view with a single canvas.
`AsyncQueue` models the job ring, the partial sends and receives and the two-request jobs, and relates the
bytes on the wire to the jobs. `GuiRuntime` models the window table with its shared-memory handles, the queued
resize jobs that still own old ones, and the completion ring with its reservations. `CompositorClient` puts the
two together: each job is queued on both sides at once, and what finishes on the wire takes effect in the table
exactly once. The run theorems give, for every command of a script, the transition it makes. `InputDemux` models the
shared input ring, the batch and the table of parked records, with an account for each surface.
`RenderGenerations` is the pigeonhole argument behind the reservation of render-target generations.

Two limits of the code are stated exactly: the handle of the last slot of the window table is never accepted
(`GuiRuntime.TokenRoundTrip`), so that a window there can never be closed and keeps its buffers
(`GuiRuntime.LastSlotStays`), and a parked input record with the largest sequence number is never found
(`InputDemux.SearchFinds`).

## Model

| member | source | states |
|---|---|---|
| `FileRuns.CrashAndRecover` | src/file_operation.c:2046-2278 | a copy (any kinds under FAIL and SKIP, files under REPLACE) run for any number of pumps and cut at any moment of its history, forward or rolling back; the recovery starts with the disk and the durable record of that moment, every moment of it leads to the starting namespace, and when it is over, which its record shows, that is the namespace it has left, after at most 3n+1 turns that make progress; with a backend that fails only for cause it finishes exactly when it is not blocked by a foreign object at an announced temporary path; and where no temporary name of the plan was taken at the start, no moment is blocked |
| `CrashRuns.CrashOften` | src/file_operation.c:2046-2278 | the same when recovery itself is cut at any of its moments, any number of times, with calls failing at will: each recovery starts with what the one before left at its cut, every moment of all of them leads to the starting namespace, and the one that is let run ends in it |
| `CrashRuns.MoveThroughCrashes` | src/file_operation.c:1757-1848 | a move of any objects, cut at any moment, in the sync window or outside, with recovery after recovery starting where the run before was cut: at every moment of all these runs every object of the start that carries no token is under exactly one name, no object has two and nothing else is there; and for a plan with independent paths every entry is wholly at its source or, if its destination was free, wholly at its destination, except that one with a token may have been removed from there, and everything else is where it was |
| `FileRuns.RecoverMoment` | src/file_operation.c:2046-2278 | recovery from any moment of any tracked run, copy or move, starting with what that moment left on the disk: it ends in what `Recover` says of that moment, and every moment of it leads there; that is the start unless the moment is blocked (then recovery never ends, and a temporary name of the plan was taken) or lies in the window of a forward rename (then undoing the record from before the window would lead to the start) |
| `FileRuns.RunCopy` | src/file_operation.c:1587-1755 | after any number of pumps, cancelled or not, with a backend that fails as it likes and others changing the namespace between any two calls: every removal, rename, publication, creation, link and write was harmless (below), the plan is unchanged, and the run is going forward, rolling back, stuck, rolled back to the starting namespace, or finished with all entries accounted for |
| `FileRuns.CopyThenUndo` | src/file_operation.c:1153-1182 | any copy that has run to its end under any policy, saved and undone without interference: it has been undone exactly when the record of the undo says that it is over, and then the starting namespace is restored, replaced directories and their contents included; with a backend that fails only for cause the undo always completes; it takes at most one pump an entry and one more |
| `FileRuns.RunMove` | src/file_operation.c:1757-1848 | every moment of a move outside a forward sync window leads back to the start, and a finished rollback has put every object back, unless tracking was lost; it is lost only to an object that carried a token at the start, for a plan with independent paths the very object of that entry, or to a call that failed in a window, which a backend that fails only for cause never does; up to a loss every moment led to the start, and the last one before a failure in a window has its namespace and its record, or the record from just before the window; from such a failure on every moment leads to what undoing that record gives, if it gives anything, and a finished rollback has left that; for a plan with independent paths it is the start with the one object in the window at its destination; and from any start, lost or not, every moment has every object without a token under exactly one name, and for a plan with independent paths each entry without a token at its source or at its destination |
| `FileRuns.CrashAndRecoverMove` | src/file_operation.c:2046-2278 | a move run for any number of pumps and cut at any moment of its history: before a loss of tracking recovery ends as `RecoverMoment` says, after a failure in a window it ends in what the rollback was leading to, always when calls fail only for cause |
| `FileRuns.WindowAim` | src/file_operation.c:824-884 | for a plan with independent paths, what a rollback leads to after a failure in a window is the start with the object of that entry at its destination |
| `FileRuns.CopyIsFaithful` | src/file_operation.c:1587-1755 | a finished copy that replaced nothing left every object unchanged, put every entry in place unless the SKIP policy skipped it, marked an entry only when the start or an earlier entry had its name, gave every file the bytes and every symbolic link the target its source had at the start, made every hard link a second name of the object of the entry it links to, and counted exactly the total bytes |
| `FileRuns.ReplacementIsFaithful` | src/file_operation.c:1587-1755 | the same under REPLACE, whatever backup paths are proposed, when no destination lies at or above a source or the destination of an earlier entry, as when a tree is copied from the top: every entry is in place with its kind and content, every source is as it was, and the bytes are counted |
| `FileRuns.CopyAddsNothingElse` | src/file_operation.c:1587-1755 | and it added its copies and nothing else: no temporary object is left |
| `CopyProgress.CopySucceeds` | src/file_operation.c:1587-1755 | every copy of a feasible plan (sources as planned, destinations with a directory, free under FAIL) with free temporary names comes to its end, undisturbed and with calls that fail only for cause, however short the reads and writes: at most two pumps an entry, one a byte and one more; under FAIL every entry is then delivered, files with their bytes, symbolic links with their targets and hard links sharing their object |
| `ReplaceProgress.ReplaceSucceeds` | src/file_operation.c:1587-1755 | the same under REPLACE for files whose places, proposed backup paths included, are apart from each other, from the sources and from the temporary names: the copy comes to its end within the same number of pumps; every file then has the bytes of its source, what it displaced stands with its whole subtree at the path proposed for it, the sources are as they were and so is every path elsewhere |
| `ReplaceProgress.AllReplaced` | src/file_operation.c:939-1012 | every finished replacing copy of such a plan, however it got there: delivered, with what was displaced at its proposed path and the rest unchanged |
| `ReplaceProgress.ReplacedAt` | src/file_operation.c:824-884 | what undoing would bring back to a destination stands at the backup path, and where nothing would be brought back the destination was free at the start |
| `ReplaceProgress.LayerOf` | src/file_operation.c:824-884 | undoing an entry among others: the entries undone before it leave one path alone, those undone after it another |
| `ReplaceProgress.ReplacingNext` | src/file_operation.c:945-1012 | at each entry of such a plan what is in the way can be moved out of it, and then the copy can be opened |
| `ReplaceProgress.StillThere` | src/file_operation.c:776-792 | what lies outside the destinations and backup paths of the entries so far is as it was at the start |
| `CopyProgress.AllowsNext` | src/file_operation.c:1604-1694 | feasibility at the start is enough at every entry: its directory stands, its source or link target is there and a temporary name is free, or it is skipped |
| `CopyProgress.MadeUnlessSkipped` | src/file_operation.c:489-504 | an entry whose name and whose directories' names nobody takes is never skipped |
| `CopyRun.FoundTaken` | src/file_operation.c:925-944 | a destination found occupied was there at the start or was made by an earlier entry |
| `MoveProgress.MoveSucceeds` | src/file_operation.c:1757-1848 | every move of a feasible plan comes to its end, undisturbed and with calls that fail only for cause, in one pump an entry and one more, and leaves what renaming the entries one after the other leaves |
| `MoveProgress.DealtWith` | src/file_operation.c:1764-1821 | what a pump does with an entry is what the plain sequence of renames does |
| `CopyRun.UndoneDestinations` | src/file_operation.c:776-792 | undoing finished entries that replaced nothing takes away exactly their destinations |
| `FileRuns.Start` | src/file_operation.c:1024-1144 | an operation starts if and only if the plan is startable: entries valid and untouched, no directory copied below itself, hard links to earlier files or links, total size within 64 bits, replacement only for copies |
| `FileRuns.StartUndo` | src/file_operation.c:1153-1182 | an undo starts if and only if the image is of a finished, undisturbed copy that restores; it then starts at the last entry of the restored record |
| `FileRuns.UndoAll` | src/file_operation.c:1850-1996 | pumping an undo to its end harms nobody, whatever others do; it has ended exactly when its record says so; undisturbed it gives back the starting namespace, and with a backend that fails only for cause it always gets there; at most one pump an entry and one more |
| `FileRuns.Pump` | src/file_operation.c:1998-2034 | one pump of a copy, forward or back, keeps everything known about the phase it is in |
| `FileRuns.PumpAnyMove` | src/file_operation.c:1998-2034 | one pump of a move, forward or back, keeps everything known about its phase; tracking is given up only when the object at the source of the entry carries a token, or for a failure in the window of this job, and then every remembered moment led to the start and the rollback has an aim of its own; where nothing stands in the way the entry is dealt with |
| `FileRuns.Started` | src/file_operation.c:1024-1144 | a started operation leads back to where it starts |
| `FileRuns.HistoryPlanned` | src/file_operation.c:479-487 | at every moment of a run the durable record restores, was made from the plan, and marks as made only what carries one of the run's tokens |
| `FileRuns.EverywhereKept` | src/file_operation.c:1757-1884 | every moment of an undisturbed move or of its recovery keeps the objects of the start as `Whereabouts.MoveKeepsEverything` says, also across restarts |
| `FileRuns.AccountedFromStart` | src/file_operation.c:1780-1785 | an object with a token that a pump of an undisturbed move meets at a source was there at the start, and with independent paths at that source; a failure in a window was in one of a rename of this plan |
| `FileRuns.FinishedUndoes` | src/file_operation.c:2080-2139 | the saved image of a finished copy, restored for undoing, leads back to the start |
| `FileRecovery.RecoverFrom` | src/file_operation.c:2046-2278 | restore and retry, with as many new attempts after failures as are allowed: it harms nobody whatever others do, the objects it may remove being those of the crashed run; undisturbed, every moment of it leads where the crash moment led, so it may crash as well; finished means that namespace, within 3n+1 turns that make progress, and that the record no longer asks for recovery; with a backend that fails only for cause it finishes at once; a blocked moment never finishes |
| `FileRecovery.RecoverThrough` | src/file_operation.c:2046-2278 | recoveries that are cut at any of their moments, any number of times, with calls failing at will, each starting where the one before was cut: every moment of all of them leads to the same namespace, and the last, which is let run, ends in it |
| `FileRecovery.RetryAll` | src/file_operation.c:2046-2078 | retrying until done, starting over after failures, keeps the recovery result at every moment; the turns that make progress are bounded by the remaining work |
| `FileRecovery.MomentIsSane` | src/file_operation.c:479-487 | every moment of a run is one that a restart can start from |
| `FileRecovery.SaveThenRestore` | src/file_operation.c:2080-2278 | saving a record and restoring it with the same plan succeeds if and only if the record is restorable, and gives the record back |
| `FileRecovery.ResumedRecovers` | src/file_operation.c:2141-2278 | a restart changes nothing recovery needs: same result, and at most 3n+1 turns of work remain |
| `FileRecovery.RetryRecovery` | src/file_operation.c:2046-2078 | one turn of a retried rollback: the recovery result is kept, the remaining work falls, a finished retry has restored the namespace |
| `FileRecovery.PumpRollback` | src/file_operation.c:2007-2019 | the same for a rollback under way |
| `FileRecovery.Restart` | src/file_operation.c:2141-2288 | the record restored after a crash, on the namespace, tokens and objects the crashed run left, with or without others about |
| `FileLimits.AnnouncementKeeps` | src/file_operation.c:793-805 | announcing an object by token alone keeps what undoing the entry gives if and only if nothing was displaced for it |
| `FileLimits.AnnouncementStrands` | src/file_operation.c:793-805 | with a held backup, undoing after the announcement leaves the displaced object at its backup path |
| `FileLimits.PassesAnnouncement` | src/file_operation.c:793-805 | and so does the rollback step: undisturbed and with calls that fail only for cause it leaves the namespace alone and steps past the entry with its replacement |
| `CrashRuns.StrandedRun` | src/file_operation.c:948-988 | an undisturbed run from the start that copies a directory over a file and stops after the directory was announced, restored from what it left: recovery reports success and the file stays at its backup path |
| `FileLimits.ComesHome` | src/file_operation.c:824-884 | undoing brings a moved object home from its destination if and only if it carries no token and its record is not waiting for a sync |
| `FileLimits.MarkedIsRemoved` | src/file_operation.c:793-823 | a moved file that carries a token is deleted by undoing instead |
| `FileLimits.RemovesMarked` | src/file_operation.c:776-823 | and by the rollback steps: adopted in one turn, removed in the next, which then reports failure |
| `CrashRuns.MarkedRun` | src/file_operation.c:1780-1821 | an undisturbed run from the start that moves a file with a token and stops, restored from what it left: the last rollback step fails and the file is nowhere |
| `FileLimits.LeavesAtDestination` | src/file_operation.c:824-884 | the rollback step leaves a moved object whose record waits for a sync where it is and forgets the move |
| `CrashRuns.WindowRun` | src/file_operation.c:1804-1815 | an undisturbed run from the start that moves a file and stops in the sync window, restored from what it left: recovery reports success and the file stays at its destination |
| `CrashRuns.BlockedRun` | src/file_operation.c:1219-1232 | an undisturbed run from a start with a foreign object at the first temporary name that stops after that name was announced, restored from what it left: however often it is retried the record asks for recovery |
| `CrashRuns.ForeignIsPublished` | src/file_operation.c:1394-1397 | a run from the start that has made its temporary object and announced its publication; somebody puts another object at the temporary path, and that object, which the copy did not make, gets the destination's name |
| `Whereabouts.ForeignSurvives` | src/file_operation.c:1394-1400 | an object that a copy did not make survives each of its changes unchanged; it keeps its name unless it moves with an announced backup or its reversal, or stands at the temporary path when that is published |
| `Whereabouts.ForeignSpared` | src/file_operation.c:1394-1400 | so, whatever others do meanwhile, no change in the whole log of a copy removes or alters an object it did not make |
| `Whereabouts.NeverOverwritten` | src/file_operation.c:976-979 | no change touches the object under a name that it keeps, except a copy the file it is writing |
| `Whereabouts.PublicationTakesWhatIsThere` | src/file_operation.c:1394-1410 | the destination gets the recorded temporary object if and only if the temporary path still holds it, and only otherwise can it get an object the copy did not make |
| `Whereabouts.ForeignLives` | src/file_operation.c:1394-1410 | and such an object, published by mistake or not, is there after any number of changes of the copy, as long as others do not remove it themselves in between |
| `Whereabouts.ExactlyOnePlace` | src/file_operation.c:834-861 | an object to be moved to a free name is never at its source and its destination at once, and unless it carries a token it is always at one of them, unchanged, with everything below it |
| `Whereabouts.OccupiedStays` | src/file_operation.c:925-944 | an entry whose destination was taken at the start never moves |
| `Whereabouts.RearrangedTo` | src/file_operation.c:1757-1884 | an object without a token is never lost and no object ever has two names |
| `Whereabouts.MoveKeepsEverything` | src/file_operation.c:1757-1884 | nobody else about: at every moment of a move, its rollback and its recovery each object of the start that carries no token has exactly one name, none has two and nothing else is there, and with independent paths each entry is in one place or was removed because it carried a token, and everything beside the plan is where it was |
| `Whereabouts.MoveDeed` | src/file_operation.c:1797-1799 | all that a move ever does is to rename an entry there or back, or to remove an object with a token from an entry's destination |
| `Whereabouts.NothingNew` | src/file_operation.c:1757-1884 | a move brings no object into the namespace |
| `Whereabouts.StaysSpared` | src/file_operation.c:925-944 | an entry whose destination was taken at the start is not taken up, in this run or after a restart |
| `Whereabouts.MovedRearranges` | src/file_operation.c:1797-1799 | renaming a subtree gives each object exactly one new name |
| `Whereabouts.WindowLeaves` | src/file_operation.c:824-884 | in the window of a rename, with independent paths, undoing takes everything back except the object in the window |
| `Whereabouts.UndoBeside` | src/file_operation.c:824-884 | undoing an entry does not notice whether an unrelated object has been moved |
| `Whereabouts.RenamesCommute` | src/file_operation.c:1797-1799 | renames of unrelated entries may be made in either order |
| `UndoSpec.BlockedNeverRecovers` | src/file_operation.c:594-604 | a foreign object at an announced temporary path: recovery has no result |
| `UndoSpec.TopStep` | src/file_operation.c:748-893 | a change confined to the top layer keeps the recovery result when it keeps that layer's result |
| `UndoSpec.SlotRemoval` | src/file_operation.c:574-645 | whether or not the expected object was just removed, recovery ends in the same place |
| `UndoSpec.ReinstateStep` | src/file_operation.c:714-731 | before and after the rename that puts a displaced object back, undoing ends alike |
| `UndoSpec.HomewardStep` | src/file_operation.c:839-866 | before and after the rename that brings a moved object home, undoing ends alike |
| `UndoSpec.UnbornStep` | src/file_operation.c:797-805 | forgetting an announced object that never appeared |
| `UndoSpec.BornStep` | src/file_operation.c:806-822 | an announced object that did appear is adopted as the operation's own |
| `UndoSpec.NothingLeft` | src/file_operation.c:890-892 | with everything settled, recovery is finished and changes nothing |
| `UndoSpec.StepTo` | src/file_operation.c:748-893 | each recorded rollback action takes at least one off the remaining work, of which there is at most 3n+1 |
| `Namespaces.MoveThereAndBack` | src/file_operation.c:847-850 | renaming a whole subtree to a free path and back is the identity on namespaces |
| `Namespaces.CreateThenRemove` | src/file_operation.c:574-645 | creating in a free slot and removing again is the identity |
| `ForwardSpec.DisplacedUndone` | src/file_operation.c:976-979 | after the rename to the backup path, undoing the entry gives the tree from before it |
| `ForwardSpec.DisplacingStep` | src/file_operation.c:970-975 | announcing the displacement keeps the recovery result |
| `ForwardSpec.HeldStep` | src/file_operation.c:983-987 | recording the held backup keeps the recovery result |
| `ForwardSpec.TempAnnouncedStep` | src/file_operation.c:1219-1232 | announcing the temporary object keeps the recovery result, or runs into a foreign object there |
| `ForwardSpec.PublishedStep` | src/file_operation.c:1394-1400 | publication keeps the recovery result whether or not the temporary name survives |
| `ForwardSpec.MadeStep` | src/file_operation.c:1657-1662 | creating and recording an object keeps the recovery result |
| `FileBackend.Backend.Checkpoint` | src/file_operation.c:479-487 | a record is stored, perhaps even when a failure is reported; one that could not be restored is refused |
| `FileBackend.Backend.RemoveExpected` | src/file_operation.c:1884-1890 | removes only the object of the expected identity, logs what was removed, may report a failure after the fact |
| `FileBackend.Backend.RenameExpected` | src/file_operation.c:1797-1799 | renames the expected subtree to a free path and nothing else |
| `FileBackend.Backend.CreateMarked` | src/file_operation.c:1634-1646 | creates an object carrying the token, or reports that the path exists and creates nothing |
| `FileBackend.Backend.PublishAt` | src/file_operation.c:1394-1397 | gives whatever stands at the temporary path its final name without replacing anything, and logs it |
| `FileBackend.Backend.LinkAs` | src/file_operation.c:1536-1546 | a second name for an object, never one that is taken |
| `FileBackend.Backend.SetContent` | src/file_operation.c:1742-1752 | bytes written through the open handle reach the object of the handle and no other |
| `FileBackend.DeedKeepsHarmless` | src/file_operation.c:976-979 | an announced change of the operation's own keeps the log harmless |
| `FileBackend.DidLawful` | src/file_operation.c:479-487 | every change is a moment of its own, and undisturbed the changes account for every moment |
| `FileBackend.Backend.RandomToken` | src/file_operation.c:1452-1456 | a token nothing carries and nobody was given |
| `FileOperations.Operation.Checkpoint` | src/file_operation.c:479-487 | the durable record becomes the current one; the recovery result is unchanged |
| `FileOperations.Operation.CleanupCreatedPath` | src/file_operation.c:574-645 | removes only an object the operation made, through durably announced stages, and can be resumed at any of them; on success the object is gone, the recovery result is unchanged; with a backend that fails only for cause it succeeds |
| `FileOperations.Operation.StartCleanup` | src/file_operation.c:581-585 | a removal is started only with an identity or a token |
| `FileOperations.Operation.ResolveSlot` | src/file_operation.c:595-608 | an object known by its token is looked up and its full identity recorded before it is removed |
| `FileOperations.Operation.RemoveStage` | src/file_operation.c:609-631 | announce, remove by expected identity, note the sync |
| `FileOperations.Operation.SyncPhase` | src/file_operation.c:636-644 | the removal is complete after the sync |
| `FileOperations.Operation.RestoreReplacement` | src/file_operation.c:647-743 | puts the displaced object back from whatever stage the replacement had reached, keeping the recovery result, and forgets the replacement |
| `FileOperations.Operation.ReconcileBackup` | src/file_operation.c:659-695 | a crash between the backup rename and its record is brought to one side or the other |
| `FileOperations.Operation.BringBack` | src/file_operation.c:697-733 | the displaced object is back at the destination, once |
| `FileOperations.Operation.ForgetReplacement` | src/file_operation.c:734-742 | sync, then forget the replacement |
| `FileOperations.Operation.StepCreated` | src/file_operation.c:776-792 | rolls back an entry whose object was created; leaves it for its replacement or steps past it |
| `FileOperations.Operation.StepAnnounced` | src/file_operation.c:793-823 | rolls back an entry known by its token: adopts the object or forgets the announcement, and with it whatever was displaced |
| `FileOperations.Operation.StepApplied` | src/file_operation.c:824-884 | rolls back a moved entry: brings it home, or forgets a move that waits for a sync |
| `FileOperations.Operation.ReturnHome` | src/file_operation.c:834-866 | the moved object is at its source, once |
| `FileOperations.Operation.StepReplacing` | src/file_operation.c:885-889 | restores what the entry displaced |
| `FileOperations.Operation.StepNothing` | src/file_operation.c:890-891 | steps past a settled entry without counting it as progress |
| `FileOperations.Operation.RollbackTemp` | src/file_operation.c:751-768 | removes the temporary object and forgets it |
| `FileOperations.Operation.RollbackStep` | src/file_operation.c:748-893 | at most one recorded action: 1 with the remaining work reduced and the recovery result kept, 0 only when recovery is finished, and never -1 when calls fail only for cause |
| `FileOperations.Operation.RollbackTurn` | src/file_operation.c:2007-2019 | one rollback step with the flags of the operation: active while there is more, asking for recovery when it failed |
| `FileOperations.Operation.FinishFailure` | src/file_operation.c:895-923 | a failed run starts rolling back, is rolled back, or asks for recovery, and reports accordingly |
| `FileOperations.Operation.CloseFiles` | src/file_operation.c:557-572 | closes both handles |
| `FileOperations.SlotRemovalHarmless` | src/file_operation.c:574-645 | removing the object a durable record names harms nobody: it was made by this operation |
| `FileOperations.RenameHarmless` | src/file_operation.c:976-979 | renaming a displaced object to its backup path or back, or a moved one there or back, as the durable record announces, destroys nothing |
| `FileCopy.Conflict` | src/file_operation.c:925-1022 | a free destination goes ahead; a taken one fails, is skipped or is backed up, exactly as the policy says; an entry is skipped only under SKIP and only when its destination is taken; nothing is touched unless replacing |
| `FileCopy.BackUp` | src/file_operation.c:948-988 | the object at the destination moves to its backup path, announced first, recorded as held after |
| `FileCopy.RenameAway` | src/file_operation.c:976-979 | the backup rename keeps the recovery result |
| `FileCopy.Replace` | src/file_operation.c:939-996 | after a replacing conflict the destination is free and the backup held |
| `UndoSpec.TempPathOf` | src/file_operation.c:530-555 | the temporary name lies in the directory of the destination, extends its name and is never at or above it |
| `FileCopy.NameIsFree` | src/file_operation.c:1208-1218 | a copy that replaces nothing and whose temporary names were free at the start finds them free whenever it needs one |
| `FileCopy.OpenCopy` | src/file_operation.c:1184-1273 | up to sixteen temporary names; on success a fresh empty object of the operation's own is recorded by full identity, and the stream holds the source as it is now; it succeeds when source and name are there and calls fail only for cause |
| `FileCopy.TryNames` | src/file_operation.c:1204-1270 | tries up to sixteen names next to the destination: the temporary file is new, empty and under one of them; when calls fail only for cause, a first name that is free serves |
| `FileCopy.AnnounceTemp` | src/file_operation.c:1212-1232 | the temporary object is durable under a fresh token before it is created |
| `FileCopy.IdentifyTemp` | src/file_operation.c:1254-1265 | its full identity is recorded before anything is written |
| `FileCopy.FinishCopy` | src/file_operation.c:1372-1431 | publishes the temporary object at the destination and clears its own name; the recovery result is unchanged throughout |
| `FileCopy.Publish` | src/file_operation.c:1394-1400 | publication keeps the recovery result; undisturbed, what stands at the temporary path gets the destination's name |
| `FileCopy.PublicationHarmless` | src/file_operation.c:1394-1400 | an announced publication keeps the log harmless |
| `FileCopy.StoreWrites` | src/file_operation.c:1742-1752 | each short write is a moment of its own, and the recovery result is kept at every one |
| `FileCopy.ConfirmPublish` | src/file_operation.c:1401-1420 | the destination holds the published object, and the record says so |
| `FileCopy.PrepareEntryToken` | src/file_operation.c:1443-1464 | a fresh token is durable before anything is created |
| `FileCopy.MakeMarked` | src/file_operation.c:1624-1662 | a directory or symbolic link: announce, create, look up, record; on success exactly that object was added |
| `FileCopy.Retract` | src/file_operation.c:1637-1643 | an announcement is taken back when the path was taken |
| `FileCopy.MakeLink` | src/file_operation.c:1519-1562 | a hard link to the object an earlier entry created |
| `CopyStream.Step` | src/file_operation.c:1695-1755 | one pump of the data path over any schedule of short reads and writes, data and holes, and a fall back to dense copying: the output is the copied prefix of the source, the counter is the sizes of earlier files plus the offset and never above the total; a file reported whole equals its source; every other pump makes progress; and it never fails when calls fail only for cause |
| `CopyStream.EntryCompleted` | src/file_operation.c:1275-1290 | the offset within the current file |
| `CopyStream.SizeOutput` | src/file_operation.c:1292-1303 | the output gets its final size once |
| `CopyStream.PrepareExtent` | src/file_operation.c:1308-1370 | moves past a hole, which reads as zeros in source and output alike, or falls back to dense copying where it stands |
| `CopyStream.WriteAll` | src/file_operation.c:1742-1752 | short writes add up to the whole buffer at the right place, and after each the file holds a prefix of it there |
| `CopyStream.CopyChunk` | src/file_operation.c:1711-1754 | a short read within the current extent reaches the output |
| `CopyRun.PumpCopy` | src/file_operation.c:1587-1755 | one pump of a copy keeps counters, finished entries and the recovery result, or falls into a rollback that stands; where nothing stands in the way it never falls and leaves less to do |
| `CopyRun.SparedMoved` | src/file_operation.c:990-1012 | moving what is at a destination out of the way, to any free path, spares every source and everything copied so far |
| `CopyRun.PumpData` | src/file_operation.c:1695-1755 | one pump of an open file; when it is published, the destination holds every byte of the source it was opened on, under any policy |
| `CopyRun.PumpFinish` | src/file_operation.c:1703-1710 | publishing the whole file finishes the entry |
| `CopyRun.PumpFile` | src/file_operation.c:1691-1755 | opens the file and copies its first bytes |
| `CopyRun.PumpInPlace` | src/file_operation.c:1624-1690 | directories and links are finished in one pump |
| `CopyRun.SkipEntry` | src/file_operation.c:1604-1614 | a skipped file counts as copied bytes |
| `CopyRun.BeginEntry` | src/file_operation.c:1618-1694 | conflict, then the entry's kind decides |
| `CopyRun.FinishDirectories` | src/file_operation.c:1564-1585 | syncs directories the copy created, last entry first, and succeeds if and only if all of them were synced |
| `CopyRun.SkippedPrefix` | src/file_operation.c:489-504 | whether an entry is skipped depends only on the entries up to it |
| `CopyRun.MadeInPlace` | src/file_operation.c:1624-1690 | an object created in place is a finished entry, and undoing it gives back what was there |
| `FileUndo.PumpUndo` | src/file_operation.c:1850-1996 | one pump of an undo keeps leading back to the starting namespace |
| `FileUndo.UndoReplacing` | src/file_operation.c:1908-1995 | removes the entry's own object, then puts back what it replaced |
| `FileUndo.UndoCreated` | src/file_operation.c:1869-1906 | removes the entry's own object |
| `FileUndo.RemoveOwn` | src/file_operation.c:1874-1898 | removes only the object of the recorded identity |
| `FileUndo.PutBack` | src/file_operation.c:1954-1988 | the replaced object is back, and only it |
| `FileUndo.PassedOver` | src/file_operation.c:1864-1868 | a skipped or uncreated entry leaves nothing to undo |
| `FileUndo.UndoingStep` | src/file_operation.c:1850-1996 | undoing the entry under the index has a result and leads on to the start |
| `FileMove.PumpMove` | src/file_operation.c:1757-1848 | one pump of a move: forward with the recovery result kept, or falling into a rollback that leads to the start or, after a failure in the window, to what undoing the record of that moment gives; tracking is lost only when the object at the source of the entry carries a token, or in the window after a call that failed; and where nothing stands in the way the object is moved or the entry marked |
| `FileMove.MoveEntry` | src/file_operation.c:1780-1821 | identity first, announcement, rename, sync, completion; a loss of tracking is tied to the token of this object, or to the window of this entry; an object without a token that can be moved is moved when calls fail only for cause |
| `FileMove.Take` | src/file_operation.c:1789-1821 | announces the rename of the object with this identity and carries it out |
| `FileMove.Carry` | src/file_operation.c:1797-1821 | everything after the announcement: the rename, the syncs and the record of it; after a failure in the window the operation has the namespace and the record of the loss |
| `FileMove.MoveTurn` | src/file_operation.c:1764-1848 | one turn at the entry of the index, with the reason if tracking is lost and what the rollback then leads to |
| `FileMove.EnterWindow` | src/file_operation.c:1804-1815 | the record that only the syncs are missing is in the window of this entry, while undoing by the record before it still leads to the start; nothing else changes, and with calls that fail only for cause the window is passed |
| `FileMove.LeaveWindow` | src/file_operation.c:1816-1821 | recording the completed move keeps the recovery result |
| `FileMove.Arrive` | src/file_operation.c:1804-1821 | a failure before the syncs are done leaves the record in the window, with every moment so far leading to the start and the last one at this namespace |
| `FileMove.RenameThere` | src/file_operation.c:1797-1803 | the forward rename keeps the recovery result and is the last moment |
| `FileMove.LeftStep` | src/file_operation.c:1797-1799 | before and after the rename, rolling back leaves the object at its source |
| `FileMove.ArrivedStep` | src/file_operation.c:1816-1821 | leaving the window keeps the recovery result |
| `NetifIdentity.SnapshotIsPublished` | src/netif_identity.c:106-142 | over any run of any number of publishers, revokers and readers, what a snapshot returned is exactly the name published under that index, and stays so |
| `NetifIdentity.SnapshotIsCurrent` | src/netif_identity.c:106-142 | at the step in which it succeeds, a snapshot returns the identity that is current |
| `NetifIdentity.WritersExclude` | src/netif_identity.c:7-27 | in every state of every run at most one writer is inside |
| `NetifIdentity.SequenceGuards` | src/netif_identity.c:7-27 | the sequence never falls, and guarded data changes only while it is odd |
| `NetifIdentity.LogOnlyGrows` | src/netif_identity.c:60-93 | an index is given out once and keeps its name |
| `NetifIdentity.RunInv` | src/netif_identity.c:7-142 | every reachable state satisfies the invariant; sequence and index stay in range |
| `NetifIdentity.InvStep` | src/netif_identity.c:7-142 | every atomic step of every thread keeps it |
| `AesSiv.OpenedIsSealed` | src/rin_aes_siv.c:258-308 | a string opens to a plaintext if and only if it is the sealing of that plaintext |
| `AesSiv.OpenSealed` | src/rin_aes_siv.c:215-308 | what was sealed opens to itself (section 2.7 of RFC 5297) |
| `AesSiv.Seal` | src/rin_aes_siv.c:215-256 | the output is the tag of S2V followed by the counter-mode ciphertext; refuses too many strings or too little room |
| `AesSiv.Open` | src/rin_aes_siv.c:258-308 | opens exactly what authenticates; otherwise only zeros are left behind |
| `AesSiv.CmacOf` | src/rin_aes_siv.c:54-112 | CMAC over the virtual bytes equals CMAC of the string with its end mixed (section 2.4 of RFC 5297) |
| `AesSiv.S2VOf` | src/rin_aes_siv.c:114-153 | S2V as in section 2.4 of RFC 5297, for short and long final strings |
| `AesSiv.VirtualByte` | src/rin_aes_siv.c:45-52 | a byte of the mixed string, without building it |
| `AesSiv.Double` | src/rin_aes_siv.c:29-43 | doubling in place |
| `AesSiv.ShiftLeft` | src/rin_aes_siv.c:29-40 | the shift in place, and the bit that leaves |
| `AesSiv.ShiftedValue` | src/rin_aes_siv.c:29-43 | the byte-wise shift doubles the 128-bit number, up to the bit that leaves |
| `AesSiv.CtrInto` | src/rin_aes_siv.c:155-183 | counter mode in place, chunk by chunk |
| `AesSiv.CounterIsSum` | src/rin_aes_siv.c:155-183 | the byte-wise counter after j blocks is the first counter plus j if and only if its last word does not overflow |
| `AesSiv.EveryCounterIsSum` | src/rin_aes_siv.c:155-183 | so it is for every message of up to 2^31 blocks, a tag bit being cleared |
| `AesSiv.CtrTwice` | src/rin_aes_siv.c:155-183 | counter mode undoes itself |
| `AesSiv.LastBlock` | src/rin_aes_siv.c:87-105 | the last block, complete or padded |
| `AesSiv.Bump` | src/rin_aes_siv.c:174-179 | one more, bytes 15 down to 12 |
| `AesSiv.SameBlock` | src/rin_aes_siv.c:294-296 | compares every byte, and is right about equality |
| `BackupManifest.DecodeEncoded` | src/backup_restore.c:272-412 | decoding the encoding of a valid manifest gives it back: identity, generation, time and every item |
| `BackupManifest.AcceptedIsEncoded` | src/backup_restore.c:327-412 | a byte string is accepted if and only if it is the encoding of the valid, ordered manifest it decodes to |
| `BackupManifest.OneByteRejected` | src/backup_restore.c:342-361 | every change of a single byte of an accepted manifest is rejected |
| `BackupManifest.CrcSeesByte` | src/backup_restore.c:41-54 | the CRC of two strings that differ in one byte differs |
| `BackupManifest.BitsDiffer` | src/backup_restore.c:41-54 | each CRC step is injective on the 32-bit state |
| `BackupManifest.Crc32` | src/backup_restore.c:41-54 | the bit loop computes the CRC |
| `BackupManifest.Validate` | src/backup_restore.c:327-412 | accepts exactly what decodes to a valid manifest, with the code's order of errors |
| `BackupManifest.ScanItems` | src/backup_restore.c:375-396 | the items are checked one by one, in order and strictly increasing |
| `BackupManifest.EntryAt` | src/backup_restore.c:426-445 | an entry of an accepted manifest is the entry of the manifest it decodes to |
| `BackupManifest.Judge` | src/backup_restore.c:174-198 | the verdict on an item |
| `BackupManifest.IdValid` | src/backup_restore.c:132-159 | an item name is printable, terminated and zero after its end |
| `BackupManifest.ManifestVerdict` | src/backup_restore.c:218-241 | accepts exactly the valid, strictly ordered manifests |
| `BackupManifest.Encode` | src/backup_restore.c:272-325 | writes exactly the encoding, guard included, exactly when the manifest is valid and fits; otherwise leaves zeros |
| `BackupManifest.WriteItems` | src/backup_restore.c:315-319 | the items follow the header, in order |
| `BackupManifest.EncodingIsCanonical` | src/backup_restore.c:206-216 | manifests with the same items have the same bytes |
| `BackupManifest.OneOrder` | src/backup_restore.c:206-216 | two strictly ordered lists of the same items are equal |
| `BackupManifest.GuardBreaks` | src/backup_restore.c:56-64 | a single changed byte breaks the guard wherever it is |
| `RevocationCache.Cache.Put` | src/rin_certificate_revocation_cache.c:112-183 | keeps the cache valid and its keys unique; the accepted sequence of a pair never falls, not even across eviction and re-insertion; evidence is accepted if and only if it is sound and newer than what the pair has, or there is room or something older to give way, or it is already held to the last field |
| `RevocationCache.Cache.Lookup` | src/rin_certificate_revocation_cache.c:185-212 | a resident pair is judged as its last accepted evidence is under the current policy; an absent pair is not found |
| `RevocationCache.Cache.Check` | src/rin_certificate_revocation_cache.c:38-75 | the consistency test holds exactly of valid caches |
| `RevocationCache.Cache.Select` | src/rin_certificate_revocation_cache.c:138-170 | the slot of the pair, else the first empty one, else the oldest |
| `RevocationCache.Cache.Store` | src/rin_certificate_revocation_cache.c:171-179 | one slot, the count and the generation |
| `RevocationCache.StoreKeepsHistory` | src/rin_certificate_revocation_cache.c:112-183 | storing there keeps what was ever accepted from rolling back |
| `RevocationCache.StoreKeepsValid` | src/rin_certificate_revocation_cache.c:38-75 | storing keeps the cache valid |
| `RenderGenerations.Table.Reserve` | src/compositor_gui.c:942-973 | a free generation is always found within 33 probes, across the wrap of the 64-bit counter |
| `RenderGenerations.FewGenerations` | src/compositor_gui.c:942-952 | no more generations are live than there are surfaces |
| `RenderGenerations.ProbeValue` | src/compositor_gui.c:960-971 | the probes are consecutive, wrapping past zero |
| `RenderGenerations.Table.Create` | src/compositor_gui.c:1980-2002 | a new surface gets a nonzero generation distinct from all live ones; it fails only when the table is full |
| `RenderGenerations.Table.Resize` | src/compositor_gui.c:1325-1391 | a resize gets a generation distinct from all live ones, its own old one included |
| `Canvas.Run` | src/compositor_gui.c:1325-1391 | over every script of leases, writes, releases, presents, resizes, completions, aborts and closings: the events are exactly those the script tells, the window is where they lead, the canvas is what was painted since the last resize, and every accepted frame is the canvas as it was when presented |
| `Canvas.LeaseExcludes` | src/compositor_gui.c:2142-2158 | in every run, while a lease is open nothing is presented, resized, leased again or closed, bytes are written and leases returned only then, and nothing follows a closing |
| `Canvas.AcceptedFramesShowTheCanvas` | src/compositor_gui.c:1144-1166 | the events of a run, told without buffers, determine the canvas and the frames shown |
| `Canvas.Window.Acquire` | src/compositor_gui.c:3338-3382 | a lease hands out a buffer that holds the whole canvas; refused while leased, presenting or resizing |
| `Canvas.Window.CopyFront` | src/compositor_gui.c:3356-3365 | the front buffer is copied over when a copy is owed |
| `Canvas.Window.Write` | src/compositor_gui.c:3366-3382 | a write to the leased buffer is a write to the canvas |
| `Canvas.Window.Release` | src/compositor_gui.c:3384-3405 | ends the lease if and only if given exactly the leased target |
| `Canvas.Window.Present` | src/compositor_gui.c:2884-2923 | promises the canvas as the next frame; refused while leased, presenting, resizing or owing a copy |
| `Canvas.Window.ResizeTo` | src/compositor_gui.c:1325-1391 | a blank canvas of the new size; refused while leased or resizing; a pending frame keeps its old buffers |
| `Canvas.Window.Complete` | src/compositor_gui.c:1144-1166 | an accepted frame shows the promised canvas; the buffers swap roles |
| `Canvas.Window.Abort` | src/compositor_gui.c:1456-1471 | a lost connection drops the pending frame and accepts none |
| `Canvas.Window.Close` | src/compositor_gui.c:2142-2158 | refused while leased; a closed window drops its promise and answers nothing more |
| `Canvas.Obey` | src/compositor_gui.c:2884-2923 | what comes of a command is what the table `Reply` says of the view, the kinds of queued jobs and the owed copy, and the window is where `Then` says |
| `InputDemux.Run` | src/compositor_gui.c:2298-2399 | over every run in which a surface stays active, the records it was given are a prefix of those produced for it, in order, and the rest is still owed |
| `InputDemux.InputRing.Accounted` | src/compositor_gui.c:2298-2399 | in every state: delivered, parked, batched and ring records of an active surface are, in this order, all that was produced for it |
| `InputDemux.InputRing.Poll` | src/compositor_gui.c:2298-2399 | delivers the next record owed, or nothing and loses nothing; without an event nothing is owed unless the table is full or the scan limit was reached |
| `InputDemux.InputRing.Scan` | src/compositor_gui.c:2338-2383 | looks through the batch, parking what belongs to other active surfaces |
| `InputDemux.InputRing.FindOldest` | src/compositor_gui.c:2311-2321 | the parked record of a surface with the least sequence |
| `InputDemux.SearchFinds` | src/compositor_gui.c:2311-2321 | a search finds a record if and only if one is parked with a sequence below UINT64_MAX |
| `InputDemux.OldestIsFirst` | src/compositor_gui.c:2322-2337 | the oldest parked record is the head of the parked stream |
| `InputDemux.InputRing.Unload` | src/compositor_gui.c:2322-2337 | takes the oldest record out; a stale one is dropped |
| `InputDemux.InputRing.Put` | src/compositor_gui.c:2371-2382 | parks a record in a free slot |
| `InputDemux.InputRing.Refill` | src/compositor_gui.c:2384-2397 | a batch moves from ring to batch without changing the queue |
| `InputDemux.InputRing.Retire` | src/compositor_gui.c:425-463 | a retired surface takes only its own parked records along |
| `InputDemux.InputRing.Activate` | src/compositor_gui.c:435-442 | a new surface is owed what has not been looked at yet |
| `InputDemux.InputRing.Drop` | src/compositor_gui.c:465-488 | unmapping the ring clears everything |
| `InputDemux.InputRing.Produce` | src/compositor_gui.c:2386-2389 | a produced record is owed to its surface, last |
| `InputDemux.InputRing.Advance` | src/compositor_gui.c:2350-2354 | with a new generation every outstanding record is stale |
| `AsyncQueue.Run` | src/compositor_gui.c:1490-1712 | over every script of requests, pumps and reconnections, each command does what its transition says of the state it meets; the jobs taken are those asked for and accepted, and they finish in order, each once; the rest is still queued |
| `AsyncQueue.Obey` | src/compositor_gui.c:1490-1712 | a request is taken by the stated test; a pump goes turn by turn through the answers until one stops it, the connection is lost, four jobs are done or none is left |
| `AsyncQueue.Queue.Faithfulness` | src/compositor_gui.c:1490-1712 | in every state: the bytes sent on the connection are a prefix of header and payload of the accepted jobs' requests, in order; finished jobs are the accepted ones, in order |
| `AsyncQueue.SecondFollowsOk` | src/compositor_gui.c:1619-1624 | a second request was preceded at once by its job's first, answered OK |
| `AsyncQueue.RequestsInOrder` | src/compositor_gui.c:1393-1415 | requests go out in the order of their jobs, none twice |
| `AsyncQueue.Queue.Pump` | src/compositor_gui.c:1490-1712 | whatever the socket does, the log only grows; every turn does what its answer says; as many jobs complete as are reported, at most four; a lost connection leaves none queued; the pump stops only for a stopping answer, an empty queue, four jobs done or answers used up |
| `AsyncQueue.Queue.Turn` | src/compositor_gui.c:1504-1712 | one turn of the pump's loop does exactly what clock and socket say: late or failed loses the connection, an interruption stops, an unready socket is awaited once, bytes in range move; and it always gets on |
| `AsyncQueue.Queue.SendStep` | src/compositor_gui.c:1522-1566 | sends what the socket takes, waits at most once, or ends the connection |
| `AsyncQueue.Queue.SendBytes` | src/compositor_gui.c:1556-1565 | exactly the next bytes of header or payload |
| `AsyncQueue.Queue.ReceiveHeaderStep` | src/compositor_gui.c:1567-1593 | takes part of a reply header |
| `AsyncQueue.Queue.TakeReply` | src/compositor_gui.c:1594-1618 | a reply that does not match the request in every field loses the connection; one that does goes on to its payload or concludes |
| `AsyncQueue.Queue.ReceivePayloadStep` | src/compositor_gui.c:1645-1673 | takes part of a reply payload |
| `AsyncQueue.Queue.Settle` | src/compositor_gui.c:1674-1706 | records the answer; the second request follows exactly an OK to the first of two; otherwise the job completes with the public status, and the connection ends exactly on an unknown status or a failed resize or plain job |
| `AsyncQueue.Queue.Conclude` | src/compositor_gui.c:1674-1706 | goes on to the second request, ends the connection or finishes, exactly as job and status say |
| `AsyncQueue.Queue.Await` | src/compositor_gui.c:1540-1551 | waits at most once, and only for a patient caller |
| `AsyncQueue.Queue.BeginOperation` | src/compositor_gui.c:1417-1432 | the request that is due begins, with a valid id |
| `AsyncQueue.Queue.CompleteHead` | src/compositor_gui.c:1434-1454 | the head job leaves the queue with its completion |
| `AsyncQueue.Queue.AbortAll` | src/compositor_gui.c:1456-1471 | every queued job completes once, in order, with the given status |
| `AsyncQueue.Queue.Close` | src/compositor_gui.c:490-500 | the connection is gone and with it every job |
| `AsyncQueue.Queue.Enqueue` | src/compositor_gui.c:1243-1281 | accepted if and only if connected, well formed and there is room in the ring and for its completion; then last in the queue |
| `AsyncQueue.SentIsPrefix` | src/compositor_gui.c:1522-1566 | what the stage says has been sent is a prefix of the requests begun |
| `GuiRuntime.Run` | src/compositor_gui.c:923-1013 | over every script from the start each command does what its transition says, and in every state each live handle has an owner, each owned handle is live, and there is room for every completion |
| `GuiRuntime.Obey` | src/compositor_gui.c:923-1013 | every command by the state it meets: answers, with the condition of each, windows with their flags, jobs, completions and deliveries |
| `GuiRuntime.ClosedForGood` | src/compositor_gui.c:892-914 | in every run, a handle that has ceased to stand for its window never stands for anything again |
| `GuiRuntime.GenerationsGrow` | src/compositor_gui.c:2053-2133 | generations only grow, and a slot becomes active only under a new one |
| `GuiRuntime.LastSlotStays` | src/compositor_gui.c:892-914 | in every run, a window in the last slot of the table can never be closed and keeps its buffers |
| `GuiRuntime.ExactlyOneOwner` | src/compositor_gui.c:923-938 | a handle is live if and only if it has an owner, and it has only one: an active surface or a queued resize job |
| `GuiRuntime.NothingLeaks` | src/compositor_gui.c:1964-1978 | with every window closed and every job finished, nothing stays attached |
| `GuiRuntime.TokenRoundTrip` | src/compositor_gui.c:892-905 | a window handle names its own slot if and only if that is not the last slot of the table; that one's handle is rejected |
| `GuiRuntime.Find` | src/compositor_gui.c:907-914 | a handle finds only an active surface |
| `GuiRuntime.Runtime.Release` | src/compositor_gui.c:923-938 | detaches each of the two handles once, and only live ones |
| `GuiRuntime.Runtime.Segment` | src/compositor_gui.c:992-1005 | a segment or nothing: one that cannot be mapped is detached again |
| `GuiRuntime.Runtime.Allocate` | src/compositor_gui.c:975-1013 | two new segments exactly when there are two to be had, else none |
| `GuiRuntime.Runtime.ResizeSurface` | src/compositor_gui.c:1325-1391 | refused for a bad handle or a window in use, an I/O error without memory, else the answer of the queue; the surface takes the new buffers and the job the old, and any failure leaves nothing allocated |
| `GuiRuntime.Runtime.DestroyLocal` | src/compositor_gui.c:1964-1978 | gives back exactly the surface's buffers |
| `GuiRuntime.Runtime.CloseAsync` | src/compositor_gui.c:2142-2158 | closes at once, also during a pending resize, whose job keeps its own buffers |
| `GuiRuntime.Runtime.Close` | src/compositor_gui.c:2160-2170 | closes without a connection too; refuses exactly while the window is in use or the queue is full |
| `GuiRuntime.Runtime.Create` | src/compositor_gui.c:2053-2133 | a window with buffers exactly when a slot, memory and the compositor allow it, or nothing allocated |
| `GuiRuntime.Runtime.Enqueue` | src/compositor_gui.c:1259-1262 | a job is taken only when its completion will have room |
| `GuiRuntime.Runtime.Submit` | src/compositor_gui.c:1243-1262 | taken exactly when the handle is good, the window is free for it and there is room; then exactly the flags of its kind are set |
| `GuiRuntime.Runtime.SubmitReadback` | src/compositor_gui.c:3100-3131 | taken exactly when the window listens, is free and there is room; then it reserves room for its completion |
| `GuiRuntime.Runtime.QueueCompletion` | src/compositor_gui.c:1073-1107 | the completion of a job whose window still listens is always queued, never dropped for lack of room |
| `GuiRuntime.Runtime.ApplyCompletion` | src/compositor_gui.c:1109-1241 | clears the job's flags, detaches a resize's old buffers, reports the completion |
| `GuiRuntime.Runtime.CompleteHead` | src/compositor_gui.c:1434-1454 | the oldest job takes effect and is reported to a listening window |
| `GuiRuntime.Runtime.AbortAll` | src/compositor_gui.c:1456-1471 | every queued job clears its flags and is reported, in order, and every old buffer is detached |
| `GuiRuntime.Runtime.Dispatch` | src/compositor_gui.c:1741-1760 | completions reach listening windows in order; only those of closed windows are discarded |
| `CompositorClient.Run` | src/compositor_gui.c:1073-1241 | over every script of the whole client each job that was taken is either queued at the same place on the wire and in the window table, or has finished on the wire and taken effect in the table exactly once, in order and with the status it finished with |
| `CompositorClient.Client.Pump` | src/compositor_gui.c:1434-1454 | every job that finishes on the wire takes effect at once, and exactly those whose window listens are reported, in order |
| `CompositorClient.Client.Enqueue` | src/compositor_gui.c:1243-1281 | when the window table has room for a job and its completion, so has the wire |
| `CompositorClient.Client.Submit` | src/compositor_gui.c:1243-1281 | queued on both sides or on neither, by the test of the window table |
| `CompositorClient.Client.SubmitReadback` | src/compositor_gui.c:3100-3131 | the same for a readback |
| `CompositorClient.Client.ResizeWindow` | src/compositor_gui.c:1325-1391 | the same for a resize |
| `CompositorClient.Client.CloseWindow` | src/compositor_gui.c:2142-2158 | the same for closing a window, which is then gone from the table |
| `CompositorClient.Client.TakeEffect` | src/compositor_gui.c:1109-1241 | the oldest job takes effect and is reported to a listening window |
| `CompositorClient.Obey` | src/compositor_gui.c:1243-1281 | every command of the client by the state both sides meet it in |

## Left out

- Conflict policy RENAME: the renamed destination is not part of the saved record, so it has no recovery theorem and is not modelled.
- Operation DELETE: removes without a record and is never rolled back.
- Recovery after a crash in the middle of a replace-undo: a retry always rolls back, so there is no such theorem to prove.
- Path strings: paths are lists of components; length limits, the `_WIN32` path rules and the checks of reserved names are left out, and a temporary name that is too long counts as a failure without cause.
- Optional callbacks: a backend without checkpoints, without size queries or without extent queries is not modelled, nor are the validity checks of the callback table, structure sizes and versions.
- Metadata copied onto a published file: a call that may fail and changes no name.
- CopyProgress.CopySucceeds: replaces nothing; `ReplaceProgress.ReplaceSucceeds` is the theorem under REPLACE.
- ReplaceProgress.ReplaceSucceeds: is for files, and for paths that are apart from each other; a replaced directory may hold what a later entry needs.
- FileRuns.ReplacementIsFaithful: does not cover a destination at or above a source or an earlier destination, where the later entry may move away what the copy still needs or has made; there the content is stated when a file is published (`CopyRun.PumpData`).
- FileRuns.RunMove: where paths of the plan lie above each other, undoing the record of a failure in a window may give nothing; of such a rollback it is only said that every object without a token is under exactly one name.
- FileRuns.CrashAndRecover: the condition under which no moment is blocked is stated for the policies FAIL and SKIP; under REPLACE a backup path could be a temporary name.
- AES itself: the block function is a parameter. Overlap of parts of one buffer is not modelled, since Dafny arrays do not overlap in part.
- C11 weak memory: the seqlock is verified for sequentially consistent steps. `rin_netif_identity_prepare_name` is left out.
- The manifest assumes the little-endian layout of the packed header; restoring payloads and status reports are left out.
- GPU presents and readbacks appear as jobs and completions only; their pixels and frame numbers are not part of the canvas.
- Synchronous requests, which are refused while a job is queued, and the contents of requests and replies beyond their headers.
- Rebinding of surfaces after a reconnection, window setters, clipboard, drag and drop, hotkeys and legacy event packing.
- Callbacks run by `Dispatch` do not call back into the runtime here.
- AsyncQueue.Queue.Enqueue: the room in the completion ring is an answer given from outside; `CompositorClient.Client.Enqueue` shows that the window table gives the right one.
- Canvas.Window.Close: the buffers given back by a closing are in `GuiRuntime`; here a closed window only answers nothing more.
- Canvas.Run: the answers of the queue come with the commands; the canvas is not tied to the jobs of `CompositorClient`.
- RenderGenerations.Table.Reserve: has a window table of its own, with nothing but the generations; `GuiRuntime` does not give them out.
- CompositorClient.Run: closing without a connection, which aborts every job, is in `GuiRuntime.Runtime.Close` only.
- InputDemux.InputRing.Advance: assumes that the new generation is not the generation of any outstanding record.
- InputDemux.InputRing.Produce: assumes increasing sequences below UINT64_MAX for current records, as the compositor promises; `SearchFinds` shows what a record with the largest sequence would meet.
