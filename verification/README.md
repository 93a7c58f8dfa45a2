# Verification of the live orchestrator

A model of the backend that switches cameras on air, in Dafny, with proofs about it. Four parts of the backend are
covered: the orchestrator together with the OBS state it drives, the broadcast manager with its relay processes,
keyset pagination, and the event hub.

Run `dafny verify dfyconfig.toml` in this directory.

## How it is put together

**The orchestrator.** `Model.dfy` has the values kept behind the mutex, `Obs.dfy` the rules of the in-memory OBS, and
`Sections.dfy` what each section that holds the mutex does. Two models are built from the same sections:

- *Sequential* (`Sequential.dfy`): each public operation runs alone, from its first section to its last OBS call.
  An operation takes the set of outside calls that fail while it runs and, where the source iterates a map, the order
  of the iteration. What an operation does is a function of these.
- *Interleaved* (`Interleaved.dfy`): any number of threads; each section is one atomic step, and what a section read
  for a later one (`prevAudioID`, the preview, the cameras to remove) is carried in the thread's local.

`Alone.dfy` connects the two: every sequential run is an interleaving of one thread. `Orchestrator.dfy` is the
orchestrator in place, a class whose methods loop over maps and lists as the source does, each proved to compute the
sequential operation and to keep the invariant. In the table, "(sequential)" and "(interleaved)" say in which model a
theorem holds.

Invariants of every interleaving are in `Invariants.dfy`: a camera is in at most one position (which is what makes the
early break in the clearing loop complete), a non-empty audio id names a flagged position, names are distinct, the
previewed scene exists, scene lists are clean, and each file agrees with memory when its latest save succeeded. Three
more properties hold in every sequential run and not under overlap: exactly one audio flag, only online cameras in
positions, and a live scene that exists. `Interleaved.StrongExactlyWhenTimely` says exactly when an interleaving keeps
them, and `Overlap.dfy` has the runs that lose each one. `Inputs.dfy` follows each OBS input through every interleaving.
`CutOverlap.dfy` adds to the interleaved model which inputs are enabled and a step for every call that applies
visibility, and says exactly which steps leave something on air that is not live; `CutsDisagree.dfy` has two cuts that do.

The files ending in `Contracts.dfy` state every operation of the sequential model, and every section of the broadcast
manager, by its guards and item by item: the answer, each field of memory, and each input in the tables of OBS, with
everything else as it was. `Effects.dfy` and `Acceptance.dfy` relate operations to one another, and `Progress.dfy` shows
that no interleaving gets stuck.

**The broadcast manager.** `Broadcast.dfy` is a state machine over a ledger of every process ever started (alive,
exited, killed) and the watchers that have not reported; `BroadcastManager.dfy` is the class. Truthful statuses, the
clean end of a failed start and the ownership of the destinations hold in every run (`BroadcastRuns.dfy`). Processes do
leak: a run has none leaked all along exactly when no report is accepted at a destination that holds a live process.
For that it is enough that no completing start finds a watcher ahead of the generations it mints, and for each start
this is exact: it finds none exactly when nothing that may happen before the next start leaks. The condition is needed
because a restart mints the destination's next generation while a start mints from the manager's counter (lines 247
and 276 of broadcast.go): after a stop, a late watcher can carry a generation that a new start, or restarts after it,
mints again, and its report then makes the manager forget a live process. `ProgramStream.dfy` adds the OBS program
stream, which a start switches on outside the mutex, and says exactly when it drifts from whether the manager runs.

**Pagination.** A walk is a sequence of table states, one per fetch; rows may come and go between fetches, keys do not
change.

**The hub.** Send, receive, publish, subscribe and cancel interleave; a publish holds the lock over its loop and offers
the event to one subscriber per step.

## What the proofs found

- Two overlapping audio selections leave two positions flagged; a scene deleted during its cut goes live after it is
  gone; a camera lost during its assignment occupies a position while offline (`Overlap.dfy`).
- A rename whose save failed is accepted when tried again without being saved, because the name in memory already is
  the new one; a delete whose save failed comes back with the next start (`Effects.dfy`).
- A create whose save fails is taken back in memory but never removes its OBS input, which stays for good
  (`Inputs.FailedCreateSaveOrphans`, `Effects.RefusedCreateLeavesInput`; lines 557-563 of orchestrator.go). A failed
  removal orphans an input too; these are the only ways (`Inputs.StepOwnedExactly`).
- One failed creation of the hidden input at startup is tolerated and never tried again: the hidden position counts as
  ready, and every cut of something that is not live already is refused until the program is started again, however
  healthy OBS is (`Acceptance.FailedEnsureBlocksCuts`; lines 378-387 of orchestrator.go). A loaded position without an
  input blocks every cut in the same way until it is deleted (`Acceptance.BlockedStays`).
- Two cuts can overlap so that one scene is live and OBS shows the other (`CutsDisagree.TwoCutsCanDisagree`).
- Selecting another client during a start leaves OBS streaming with nothing running, and Stop does nothing about it; two
  starts and a stop can leave the manager running with the stream off (`ProgramStream.dfy`).
- A refused audio selection can silence the previous source, which memory goes on naming
  (`Effects.RefusedAudioSilences`; lines 811-818 of orchestrator.go).
- After a restart OBS goes on showing and playing what it did, while nothing is live and there is no audio position
  (`Restart.RestartAgreesExactly`).
- A failed save of the live scene's list changes the list in memory but not OBS (`OnAir.FailedSceneSaveOnAir`).
- A stale watcher can orphan a live relay, which then survives Stop (`BroadcastSafety.LeakIsReachable`, `UncleanStartLeaks`).

## Assumptions

Stream names are not empty, generated ids are fresh, the live ids given to a start are distinct (they are primary
keys), processes have handles that were never used, and killing a process works. A failing call changes nothing. Each
outside call is made at most once per operation for each input, so a set of failing calls describes every pattern of
failures. Loaded definitions have distinct non-empty ids, distinct names and clean lists where a theorem says
`Loadable`. The documents under docs that describe `SetLive` and inputs named after cameras predate the code; the
model follows the code.

## Model

| member | source | states |
|---|---|---|
| `Names.TrimSpace` | backend/internal/orchestrator/orchestrator.go:316-333 | the trimmed name neither begins nor ends with white space |
| `Names.TrimSpaceExact` | backend/internal/orchestrator/orchestrator.go:316-333 | nothing but leading and trailing white space is removed |
| `Names.TrimSlashes` | backend/internal/orchestrator/orchestrator.go:451 | the base of a source URL does not end in a slash |
| `Names.TrimSlashesExact` | backend/internal/orchestrator/orchestrator.go:451 | nothing but trailing slashes is removed from the base of a source URL |
| `Names.SortedIdsExact` | backend/internal/orchestrator/orchestrator.go:276 | the sorted list is strictly ascending and holds exactly the ids |
| `Names.LessExact` | backend/internal/orchestrator/orchestrator.go:276 | less means a proper prefix, or the smaller character where the two first differ |
| `Names.AscendingUnique` | backend/internal/orchestrator/orchestrator.go:276-288 | a set of ids has one strictly ascending enumeration, so any correct sort writes the same file |
| `Obs.InputNameInjective` | backend/internal/orchestrator/orchestrator.go:150-152 | two positions never share an OBS input name |
| `Obs.Mock.constructor` | backend/internal/obs/obsmock/obsmock.go:55-64 | the three tables it starts from |
| `Obs.Mock.CreatePositionInput` | backend/internal/obs/obsmock/obsmock.go:73-85 | an input that exists is an error; a new one has an empty source and is off |
| `Obs.Mock.UpdatePositionSource` | backend/internal/obs/obsmock/obsmock.go:87-95 | an input that is missing is told apart from an unreachable OBS |
| `Obs.Mock.SetPositionEnabled` | backend/internal/obs/obsmock/obsmock.go:97-108 | an input that is missing is an error, an existing one takes the given state |
| `Obs.Mock.SetInputAudioMuted` | backend/internal/obs/obsmock/obsmock.go:110-118 | works for any name, existing or not |
| `Obs.Mock.RemovePositionInput` | backend/internal/obs/obsmock/obsmock.go:120-127 | removes the input from all three tables |
| `Invariants.FirstHitsAreAll` | backend/internal/orchestrator/orchestrator.go:403-417 | when no camera is in two positions, stopping at the first hit clears every holder: the early break is complete |
| `Invariants.DedupeKeepsFirstOccurrences` | backend/internal/orchestrator/orchestrator.go:335-352 | keeps exactly the non-empty ids, each once, in the order of their first occurrences |
| `Invariants.ValidDedupedIsClean` | backend/internal/orchestrator/orchestrator.go:335-364 | a list that was deduplicated and validated has no duplicate, no empty id and not the reserved id |
| `Invariants.ExistingIsFilter` | backend/internal/orchestrator/orchestrator.go:1088-1105 | what a scene cut enables is exactly the existing public positions of the scene |
| `Invariants.CreateKeeps` | backend/internal/orchestrator/orchestrator.go:543-565 | the commit of a create keeps every invariant of all interleavings, even when the save fails, whatever ran since its first check |
| `Invariants.RenameKeeps` | backend/internal/orchestrator/orchestrator.go:582-606 | a rename keeps every invariant of all interleavings, also when its save fails and the new name stays |
| `Invariants.DeleteKeeps` | backend/internal/orchestrator/orchestrator.go:645-659 | the commit of a delete keeps every invariant of all interleavings, also when its save fails |
| `Invariants.AssignKeeps` | backend/internal/orchestrator/orchestrator.go:696-726 | the commit of an assignment keeps every invariant of all interleavings, for any position the bump loop may hit first |
| `Invariants.UnassignKeeps` | backend/internal/orchestrator/orchestrator.go:766-779 | the commit of an unassignment keeps every invariant of all interleavings |
| `Invariants.AudioKeeps` | backend/internal/orchestrator/orchestrator.go:820-835 | both audio commits keep every invariant of all interleavings, whatever audio position was read before |
| `Invariants.CreateSceneKeeps` | backend/internal/orchestrator/orchestrator.go:848-870 | a new scene keeps every invariant of all interleavings, and is taken back when its save fails |
| `Invariants.RenameSceneKeeps` | backend/internal/orchestrator/orchestrator.go:882-905 | renaming a scene keeps every invariant of all interleavings |
| `Invariants.UpdateSceneKeeps` | backend/internal/orchestrator/orchestrator.go:917-935 | a new scene list keeps every invariant of all interleavings |
| `Invariants.DeleteSceneKeeps` | backend/internal/orchestrator/orchestrator.go:951-973 | deleting a scene keeps every invariant of all interleavings: the preview never names a deleted scene |
| `Invariants.HiddenKeeps` | backend/internal/orchestrator/orchestrator.go:384-389 | registering the hidden position keeps every invariant of all interleavings |
| `Invariants.CutKeeps` | backend/internal/orchestrator/orchestrator.go:1062-1078 | both commits of a cut keep every invariant of all interleavings |
| `Invariants.SyncKeeps` | backend/internal/orchestrator/orchestrator.go:425-485 | the first section of a sync keeps every invariant of all interleavings, for any hits of the offline hook |
| `Invariants.PruneKeeps` | backend/internal/orchestrator/orchestrator.go:499-506 | pruning keeps every invariant of all interleavings |
| `Invariants.AssignStrong` | backend/internal/orchestrator/orchestrator.go:696-726 | the commit of an assignment leaves occupied positions on online cameras if and only if the camera is still online |
| `Invariants.AudioStrong` | backend/internal/orchestrator/orchestrator.go:820-835 | an audio commit leaves exactly one flag if and only if the audio position is none, the one that was read, or the new one |
| `Invariants.CutCameraStrong` | backend/internal/orchestrator/orchestrator.go:1062-1075 | a camera commit leaves the hidden position on an online camera if and only if the camera is still online |
| `Invariants.CutSceneStrong` | backend/internal/orchestrator/orchestrator.go:1111-1115 | a scene commit leaves an existing scene live if and only if the scene still exists |
| `Invariants.SyncMarkStrong` | backend/internal/orchestrator/orchestrator.go:467-484 | the first section of a sync always keeps the three sequential properties: whatever goes offline leaves its position |
| `Invariants.PruneStrong` | backend/internal/orchestrator/orchestrator.go:499-506 | pruning keeps them if and only if no position holds a pruned camera |
| `Interleaved.StepKeepsInv` | backend/internal/orchestrator/orchestrator.go:422-1180 | (interleaved) every section keeps the invariant, whatever the threads read earlier |
| `Interleaved.StepKeepsLocals` | backend/internal/orchestrator/orchestrator.go:520-565 | (interleaved) every section keeps what the other threads rely on between theirs; no two creates own the same id |
| `Interleaved.EveryInterleavingIsSafe` | backend/internal/orchestrator/orchestrator.go:422-1180 | (interleaved) after every run, with any failures: one camera at most one position, the audio id names a flagged position, public names and scene names distinct, the previewed scene exists, scene lists clean, each file agrees with memory when its latest save succeeded |
| `Interleaved.StepStrong` | backend/internal/orchestrator/orchestrator.go:422-1180 | (interleaved) a section keeps audio uniqueness, online occupancy and existence of the live scene if and only if what its thread read earlier still holds |
| `Interleaved.StrongExactlyWhenTimely` | backend/internal/orchestrator/orchestrator.go:422-1180 | (interleaved) a run keeps the three sequential properties all along if and only if every step is timely |
| `Overlap.OverlappingAudioLeavesTwoFlags` | backend/internal/orchestrator/orchestrator.go:792-838 | (interleaved) whenever two audio selections overlap completely and the first to commit does not choose the current source, two positions are flagged |
| `Overlap.OverlappingAudioExactly` | backend/internal/orchestrator/orchestrator.go:792-838 | (interleaved) when two audio selections overlap completely, the flag stays exact if and only if the first to commit chooses the current source |
| `Overlap.SceneDeletedDuringCutGoesLive` | backend/internal/orchestrator/orchestrator.go:950-978 | (interleaved) whenever a scene is deleted between the check and the commit of its cut, a scene that does not exist goes live |
| `Overlap.CameraLostDuringAssignOccupies` | backend/internal/orchestrator/orchestrator.go:667-724 | (interleaved) whenever a camera is missed by a sync between the check and the commit of its assignment, a position holds an offline camera |
| `Overlap.DeletedSceneCanGoLive` | backend/internal/orchestrator/orchestrator.go:1013-1126 | (interleaved) the same from any state with two idle threads and a scene ready to be cut to: the whole cut and the delete overlap so that the scene goes live after it is gone |
| `Overlap.OfflineCameraCanOccupy` | backend/internal/orchestrator/orchestrator.go:667-741 | (interleaved) the same from any state with two idle threads, a public position and an online camera: the whole assignment and a sync overlap so that the position holds an offline camera |
| `Inputs.StepOwnedExactly` | backend/internal/orchestrator/orchestrator.go:520-664 | (interleaved) a step leaves an OBS input owned by a position or by its create if and only if it is not one of three: the commit of its own create whose save fails, the failed removal of the loser of its name, the commit of its own delete while the input is still there |
| `Inputs.OwnedExactlyWhenNeverOrphaned` | backend/internal/orchestrator/orchestrator.go:520-664 | (interleaved) in every run, with any failures, an input is owned all along if and only if none of these three steps of its own happens; what fails for other inputs does not matter |
| `Inputs.StepFor` | backend/internal/orchestrator/orchestrator.go:520-664 | (interleaved) a step whose failure, if any, is not of this id's own create, clean-up or delete keeps its input accounted for |
| `Inputs.NoInputLeaks` | backend/internal/orchestrator/orchestrator.go:520-664 | (interleaved) in every run, whatever fails elsewhere: when the save of an id's own create and the removals of its own input succeed, its input is never orphaned, and at rest it belongs to a position |
| `Inputs.TidyRunsLeakNothing` | backend/internal/orchestrator/orchestrator.go:520-664 | (interleaved) when no save of a create and no removal fails in the whole run, every input belongs to a position once all threads are at rest |
| `Inputs.LoserCleansUp` | backend/internal/orchestrator/orchestrator.go:549-552 | (interleaved) when the loser of a name removes its input with success, that input is gone for good, whatever else fails before or after |
| `Inputs.OverlappingCreates` | backend/internal/orchestrator/orchestrator.go:543-556 | (interleaved) of two creates of one name that both passed the first check, the first to commit has the name and the other loses it; after its clean-up its input is gone for good |
| `Inputs.FailedCreateSaveOrphans` | backend/internal/orchestrator/orchestrator.go:557-563 | (interleaved) the failing family: whenever the save of a create fails, its input exists, belongs to no position and no thread will remove it, now and in every continuation |
| `Inputs.FailedCreateLeavesOrphan` | backend/internal/orchestrator/orchestrator.go:520-563 | (interleaved) the same from any safe state with an idle thread: a whole create whose save fails |
| `Inputs.FateIsFinal` | backend/internal/orchestrator/orchestrator.go:520-664 | (interleaved) an input nobody owns and nobody is deleting stays in every continuation, and one that is gone stays gone |
| `CutOverlap.StepSettled` | backend/internal/orchestrator/orchestrator.go:1013-1149 | (interleaved) a step, single OBS calls included, leaves what is on air settled (only what the live selection shows is on when nobody applies visibility, and whoever applies it finds nothing on but what it wants or has still to set) if and only if it is none of the disturbing ones |
| `CutOverlap.SettledExactlyWhenUndisturbed` | backend/internal/orchestrator/orchestrator.go:1013-1149 | (interleaved) a run is settled all along if and only if no step switches on what another thread has passed and does not want, commits or gives up as the last with more on than the selection shows, leaves the live list unsaved and unapplied, or collects the positions while an input of none is on |
| `CutOverlap.CarefulRunsStaySettled` | backend/internal/orchestrator/orchestrator.go:1013-1149 | (interleaved) when cuts, scene updates and deletes, and the commits of position deletes wait for whoever applies visibility, and those calls and saves succeed, only what the live selection shows is on whenever nobody applies visibility, whatever else overlaps and fails |
| `CutOverlap.StartIsOrderly` | backend/internal/orchestrator/orchestrator.go:106-148 | (interleaved) a safe state with nothing on and nobody at it is where such runs start |
| `CutsDisagree.VisitsAll` | backend/internal/orchestrator/orchestrator.go:1141-1147 | (interleaved) a thread that sets all it has collected, undisturbed, leaves exactly what it wants of it on, and other inputs as they were |
| `CutsDisagree.OverlappingCutsDisagree` | backend/internal/orchestrator/orchestrator.go:1107-1115 | (interleaved) the failing family: of two planned scene cuts the second to apply visibility commits first, and in the end the other scene is live while what only this one shows is on |
| `CutsDisagree.TwoCutsCanDisagree` | backend/internal/orchestrator/orchestrator.go:1013-1126 | (interleaved) the same from any state with two idle threads, one scene ready in preview and another that could be: two whole cuts |
| `Alone.SequentialIsAlone` | backend/internal/orchestrator/orchestrator.go:520-1180 | every operation of the sequential model, accepted, refused or failed, is an interleaving in which one thread takes its sections undisturbed and is idle again: the two models agree on the guarded state |
| `Alone.SequentialRunIsAlone` | backend/internal/orchestrator/orchestrator.go:422-1180 | every legal sequential run, with any failures, is an interleaving of one thread |
| `Alone.StartIsSafe` | backend/internal/orchestrator/orchestrator.go:106-148 | the state New builds, with no operation under way, is where every interleaving may start |
| `Alone.StartIsAccountedFor` | backend/internal/orchestrator/orchestrator.go:106-148 | and every input is accounted for when only loaded positions and the hidden one have inputs |
| `Alone.AloneCut` | backend/internal/orchestrator/orchestrator.go:1013-1126 | a cut is an interleaving of one thread, through the hidden position, the plan, the audio and the commit |
| `Alone.AloneSync` | backend/internal/orchestrator/orchestrator.go:422-506 | a sync and its pruning are an interleaving of one thread |
| `SequentialSafety.ExecGood` | backend/internal/orchestrator/orchestrator.go:422-1180 | (sequential) every operation, with any OBS calls and saves failing, keeps the invariants of all interleavings and the three sequential properties |
| `SequentialSafety.EveryRunIsGood` | backend/internal/orchestrator/orchestrator.go:422-1180 | (sequential) after every run: all of the above, the audio flag marks exactly the audio position, every occupied position holds a known online camera, the live scene exists |
| `SequentialSafety.SceneCutNeverUnavailable` | backend/internal/orchestrator/orchestrator.go:1095-1101 | (sequential) after every run the scene branch of a cut never answers that the source is unavailable |
| `SequentialSafety.ExpiredAreFree` | backend/internal/orchestrator/orchestrator.go:487-506 | (sequential) a camera that is pruned is held by no position |
| `OnAir.ApplyExclusiveEffect` | backend/internal/orchestrator/orchestrator.go:1128-1149 | succeeds if and only if every call does; then each visited input is on exactly when it was asked for; other inputs, sources and mutes are untouched, even on failure |
| `OnAir.CutIsExclusive` | backend/internal/orchestrator/orchestrator.go:1013-1126 | (sequential) after every successful cut but the already-live shortcut, whatever else fails, each known position is enabled if and only if it is the hidden one (camera) or a listed public position (scene) |
| `OnAir.FailedSceneSaveOnAir` | backend/internal/orchestrator/orchestrator.go:928-942 | (sequential) after a failed save of the live scene's list, what is on air is still authorised if and only if the new list keeps every enabled position |
| `OnAir.ExecAgrees` | backend/internal/orchestrator/orchestrator.go:422-1180 | (sequential) with OBS answering, every operation keeps the agreement with OBS, and on-air soundness when scene saves succeed |
| `OnAir.EveryHealthyRunAgrees` | backend/internal/orchestrator/orchestrator.go:422-1180 | (sequential) after every run with OBS answering: every position has its input, an occupied position's input points at its camera's URL, the only unmuted input is the audio position's and that position holds a camera; if scene saves succeed too, each enabled input is authorised by the live state |
| `OnAir.StartAgrees` | backend/internal/orchestrator/orchestrator.go:128-134 | the state New builds over existing disabled inputs is where such runs start |
| `OnAir.ClearMatches` | backend/internal/orchestrator/orchestrator.go:487-496 | (sequential) clearing positions and settling OBS keeps sources and audio in agreement |
| `OnAir.PointMatches` | backend/internal/orchestrator/orchestrator.go:690-737 | (sequential) an assignment and its bump keep sources and audio in agreement |
| `OnAir.HandOverMatches` | backend/internal/orchestrator/orchestrator.go:809-833 | (sequential) handing the audio over leaves exactly the new source unmuted |
| `Effects.RefusedChangesNothing` | backend/internal/orchestrator/orchestrator.go:520-1010 | (sequential) a refused operation that is neither a cut nor the failed save of a rename, delete or list update leaves memory as it was and known inputs showing what they showed; all three OBS tables are as they were if and only if it is neither an audio selection that has muted the previous source and cannot unmute its own, nor a create that has made its input and cannot save |
| `Effects.RefusedAudioSilences` | backend/internal/orchestrator/orchestrator.go:809-818 | (sequential) the first failing family: the answer is that OBS is unreachable, memory names the previous source, and that source is muted; where OBS agreed before, nothing is heard any more |
| `Effects.RefusedCreateLeavesInput` | backend/internal/orchestrator/orchestrator.go:557-563 | (sequential) the second: the create is taken back in memory and is not in the file, but its input stays in OBS |
| `Effects.RefusedCutKeepsState` | backend/internal/orchestrator/orchestrator.go:1013-1056 | (sequential) a refused cut only registers the hidden position; the live state is untouched |
| `Effects.FailedSaveActs` | backend/internal/orchestrator/orchestrator.go:597-603 | (sequential) a rename, delete or list update that reports a failed save has acted all the same: memory is what the accepted operation makes it and only the file is behind |
| `Effects.AcceptedRenameIsSaved` | backend/internal/orchestrator/orchestrator.go:585-606 | (sequential) an accepted rename leaves the file agreeing with memory if and only if the name changed or the file agreed before |
| `Effects.AcceptedSceneRenameIsSaved` | backend/internal/orchestrator/orchestrator.go:888-905 | (sequential) an accepted scene rename leaves the scene file agreeing with memory if and only if the name changed or the file agreed before |
| `Effects.RetriedRenameIsNotSaved` | backend/internal/orchestrator/orchestrator.go:587-603 | (sequential) the failing family: repeating a rename whose save failed is accepted, and the file still holds the old name |
| `Effects.FailedDeleteComesBack` | backend/internal/orchestrator/orchestrator.go:645-659 | (sequential) a position whose deletion could not be saved is back after a restart, and deleting it again before answers not found |
| `Effects.ValidationErrors` | backend/internal/orchestrator/orchestrator.go:354-364 | a scene list is accepted if and only if all its ids are known public positions; otherwise the first bad id decides the error |
| `Effects.AssignEffect` | backend/internal/orchestrator/orchestrator.go:667-741 | (sequential) an accepted assignment: the position holds the camera, the previous holder holds nothing and is no audio source, every other position is as it was |
| `Effects.AssignIsIdempotent` | backend/internal/orchestrator/orchestrator.go:686-690 | (sequential) assigning again changes nothing, whatever fails |
| `Effects.SetAudioEffect` | backend/internal/orchestrator/orchestrator.go:792-838 | (sequential) an accepted audio selection: exactly that position is flagged, it is heard, and the previous one is not when its call went through |
| `Effects.UnassignEffect` | backend/internal/orchestrator/orchestrator.go:744-789 | (sequential) an accepted unassignment empties and silences that position alone; repeating it changes nothing |
| `Effects.CreateThenDelete` | backend/internal/orchestrator/orchestrator.go:520-664 | (sequential) deleting a position that was just created, whatever fails in either: memory is what it was before the create, the answer is that of the save, and OBS is what it was less the input, or with it when its removal fails |
| `Effects.CutIsIdempotent` | backend/internal/orchestrator/orchestrator.go:1026-1031 | (sequential) an accepted cut puts the preview live and keeps it in preview; cutting again changes nothing, whatever fails |
| `Effects.CutTakesCamera` | backend/internal/orchestrator/orchestrator.go:1062-1075 | (sequential) a camera that goes on air is held by the hidden position and by no other; all other positions keep theirs |
| `Acceptance.AssignAcceptedExactly` | backend/internal/orchestrator/orchestrator.go:667-706 | (sequential) in any state, with OBS answering, an assignment is accepted if and only if it is for a public position and a known online camera, and the position holds that camera already or has an input |
| `Acceptance.CutAcceptedExactly` | backend/internal/orchestrator/orchestrator.go:1013-1126 | (sequential) in every good state, with OBS answering, a cut is accepted if and only if the preview is not empty, a camera in preview is online or already live, and either the preview is live already or every position has its input, on air or not; the answers otherwise are given too |
| `Acceptance.EnsureBlocksExactly` | backend/internal/orchestrator/orchestrator.go:378-387 | (sequential) ensuring the hidden position leaves it registered without an input if and only if its creation fails and OBS has no such input |
| `Acceptance.BlockedRefusesCuts` | backend/internal/orchestrator/orchestrator.go:1128-1149 | (sequential) while any position has no input, every cut of something that is not live already is refused, whatever else OBS does |
| `Acceptance.CommandKeepsBlocked` | backend/internal/orchestrator/orchestrator.go:378-387 | (sequential) a position without an input keeps having none after every operation but its own deletion, with any failures |
| `Acceptance.BlockedStays` | backend/internal/orchestrator/orchestrator.go:378-387 | (sequential) and after every run that does not delete it; the hidden one cannot be deleted |
| `Acceptance.StuckRefusesEveryCut` | backend/internal/orchestrator/orchestrator.go:1048-1056 | (sequential) after every run from a state whose hidden position is registered without an input, every cut of something that is not live already is refused |
| `Acceptance.FailedEnsureBlocksCuts` | backend/internal/orchestrator/orchestrator.go:155-161 | (sequential) the failing family, from the state New builds: one failed creation of the hidden input at startup, and every later cut of something not live already is refused, however healthy OBS is |
| `PositionContracts.CreateExact` | backend/internal/orchestrator/orchestrator.go:520-570 | (sequential) each answer by its guard (100 runes at most), and after each all of memory, the file and the three OBS tables: the input is there from its creation on, the position only when its save succeeds |
| `PositionContracts.RenameExact` | backend/internal/orchestrator/orchestrator.go:573-613 | (sequential) each answer by its guard, and after each all of memory and the file; OBS is untouched |
| `PositionContracts.DropExact` | backend/internal/orchestrator/orchestrator.go:629-643 | (sequential) the input of a deleted position is gone from all three tables, or when its removal fails is off if it was occupied and muted if it carried the audio, as far as these calls go through |
| `PositionContracts.DeleteExact` | backend/internal/orchestrator/orchestrator.go:616-664 | (sequential) each answer by its guard, and after each all of memory, the file and OBS |
| `PositionContracts.AssignExact` | backend/internal/orchestrator/orchestrator.go:667-741 | (sequential) each answer by its guard; accepted, the position holds the camera, its input points at the camera, whoever else held it loses camera and flag, is switched off and if it carried the audio muted, as far as these calls go through, and nothing else changes in memory or OBS |
| `PositionContracts.UnassignExact` | backend/internal/orchestrator/orchestrator.go:744-789 | (sequential) each answer by its guard; accepted, the position loses camera and flag, its input is switched off and if it carried the audio muted, as far as these calls go through, and nothing else changes |
| `PositionContracts.SetAudioExact` | backend/internal/orchestrator/orchestrator.go:792-838 | (sequential) each answer by its guard; flags, audio id and mutes of every position and input afterwards, also when the call for the new source fails |
| `PositionContracts.GoneByThen` | backend/internal/orchestrator/orchestrator.go:696-701 | (any interleaving) a second section that finds its position gone, or its name taken, answers so and changes nothing |
| `PositionContracts.LateAudioExact` | backend/internal/orchestrator/orchestrator.go:820-833 | (any interleaving) an audio commit flags its position and drops the flag of the source that was read before |
| `PositionContracts.LateAudioUnknown` | backend/internal/orchestrator/orchestrator.go:1167-1178 | (any interleaving) the automatic audio names its position even when that does not exist |
| `PositionContracts.LateAssignExact` | backend/internal/orchestrator/orchestrator.go:702-726 | (any interleaving) an assignment commit takes camera and flag from exactly the positions its loop hit |
| `SceneContracts.CreateSceneExact` | backend/internal/orchestrator/orchestrator.go:841-873 | (sequential) each answer by its guard; an accepted scene has the trimmed name and the deduplicated list and is in the file; a failed save takes it back |
| `SceneContracts.RenameSceneExact` | backend/internal/orchestrator/orchestrator.go:876-910 | (sequential) each answer by its guard; the scene has the new name, also when its save fails |
| `SceneContracts.ApplyExact` | backend/internal/orchestrator/orchestrator.go:1128-1149 | (sequential) applying visibility succeeds if and only if every known input exists and can be set; then each is as wanted, otherwise each is as it was or as wanted; unknown inputs, sources and mutes are untouched |
| `SceneContracts.UpdateSceneExact` | backend/internal/orchestrator/orchestrator.go:914-947 | (sequential) each answer by its guard; the list is the deduplicated one, also when its save fails; OBS is applied if and only if the scene is live and the save succeeded |
| `SceneContracts.DeleteSceneExact` | backend/internal/orchestrator/orchestrator.go:950-978 | (sequential) each answer by its guard; the scene is gone and leaves the preview, and nothing else changes |
| `SceneContracts.PreviewExact` | backend/internal/orchestrator/orchestrator.go:981-1010 | (sequential) a preview of something known puts just that in preview; one of something unknown is refused and changes nothing |
| `CutContracts.EnsureHiddenExact` | backend/internal/orchestrator/orchestrator.go:367-391 | (sequential) exactly what is registered and created, by the guards |
| `CutContracts.CutExact` | backend/internal/orchestrator/orchestrator.go:1013-1126 | (sequential) each answer by its guard, and after each all of memory and the three OBS tables: sources, what is on, mutes, cameras, flags, audio id and live state, also after a cut that failed half-way |
| `CutContracts.CutAudioExact` | backend/internal/orchestrator/orchestrator.go:1058-1060 | (sequential) a camera cut that is not the already-live shortcut makes the hidden position the one audio source and unmutes it whenever that call succeeds, whether there was a source before or not, and mutes the previous one when its call does; when the call fails, id and flags stay; a scene cut changes nothing about audio |
| `SyncContracts.SourceURLExact` | backend/internal/orchestrator/orchestrator.go:451 | (sequential) a camera is pulled from the base without its trailing slashes, one slash, and its name, with the trimming told on its own, and from nothing else |
| `SyncContracts.EveryCameraIsPulledFromBase` | backend/internal/orchestrator/orchestrator.go:451 | (sequential) after every run every known camera's source is that |
| `SyncContracts.EveryInputPointsAtItsCamera` | backend/internal/orchestrator/orchestrator.go:1048-1056 | (sequential) after every run with OBS answering, the input of an occupied position points there |
| `SyncContracts.SyncExact` | backend/internal/orchestrator/orchestrator.go:422-517 | (sequential) every camera, offline time, position and OBS input after a sync, with any calls failing: new cameras, revived ones, missed ones, those pruned after a minute, and the positions that lose their camera, switched off and muted as far as the calls go through |
| `SyncContracts.LoadedExact` | backend/internal/orchestrator/orchestrator.go:128-134 | (sequential) New has exactly the public ids of the file, each with the name of its last definition and no runtime state |
| `SyncContracts.LoadedScenesExact` | backend/internal/orchestrator/orchestrator.go:136-145 | (sequential) New has exactly the scene ids of the file, each with its last definition |
| `SyncContracts.StartExact` | backend/internal/orchestrator/orchestrator.go:106-148 | (sequential) everything else New starts from is empty |
| `Progress.EveryThreadCanFinish` | backend/internal/orchestrator/orchestrator.go:520-1180 | (interleaved) from every safe state, whatever the other threads are in the middle of, every thread can finish its operation alone, in five sections at most |
| `Progress.FailingCallEnds` | backend/internal/orchestrator/orchestrator.go:690-695 | (interleaved) wherever a failing call ends the operation it can, and changes nothing |
| `Progress.FailingCallIsLogged` | backend/internal/orchestrator/orchestrator.go:629-643 | (interleaved) a failing call that is only logged lets the operation go on |
| `SyncHistory.TickExtends` | backend/internal/orchestrator/orchestrator.go:436-485 | one sync extends the history by one tick: known, online and offline-since stay what the history says |
| `SyncHistory.SyncRefinesHistory` | backend/internal/orchestrator/orchestrator.go:422-517 | (sequential) over every run from New with syncs in time order, failed fetches left out: a camera is known iff it was seen last at a tick that is the latest or was followed less than 60 s ago by the first miss; online iff in the latest tick; offline-since exactly the time of the first miss |
| `Restart.StartIsGood` | backend/internal/orchestrator/orchestrator.go:106-148 | New starts every run in a good state |
| `Restart.SavedPositionsAreExact` | backend/internal/orchestrator/orchestrator.go:267-277 | the saved list is strictly sorted by id and holds exactly the public definitions |
| `Restart.SavedScenesAreExact` | backend/internal/orchestrator/orchestrator.go:279-290 | the saved list is strictly sorted by id and holds exactly the scenes with their position lists |
| `Restart.PositionsRoundTrip` | backend/internal/orchestrator/orchestrator.go:267-277 | loading what was saved gives every public position back with its runtime fields reset and without the hidden one |
| `Restart.ScenesRoundTrip` | backend/internal/orchestrator/orchestrator.go:279-290 | loading what was saved gives the same scenes back |
| `Restart.RestartRoundTrip` | backend/internal/orchestrator/orchestrator.go:106-148 | (sequential) after every run, per store whose latest save succeeded, New rebuilds exactly those definitions; when both did, the rebuilt state is good |
| `Restart.StartAgreesExactly` | backend/internal/orchestrator/orchestrator.go:106-148 | OBS keeps its tables over a restart: New's state agrees with them if and only if every position has its input, no other input is on and nothing is unmuted |
| `Restart.StartSoundExactly` | backend/internal/orchestrator/orchestrator.go:106-148 | what is on air is sound after New if and only if nothing is on |
| `Restart.RestartAgreesExactly` | backend/internal/orchestrator/orchestrator.go:106-148 | (sequential) restarted from a state that agreed with OBS, with both files saved: it agrees again if and only if there was no audio position and the hidden input was off, and what is on air is sound if and only if nothing was |
| `OrchestratorInPlace.SortIds` | backend/internal/orchestrator/orchestrator.go:276 | the ids of a map, collected in any order, come out as the ascending enumeration |
| `OrchestratorInPlace.DedupePositionIDs` | backend/internal/orchestrator/orchestrator.go:335-352 | the loop with its seen set computes the first occurrences |
| `OrchestratorInPlace.Orchestrator.constructor` | backend/internal/orchestrator/orchestrator.go:106-148 | the loading loops build the state of the specification; loadable definitions give a valid orchestrator |
| `OrchestratorInPlace.Orchestrator.PersistPositionsLocked` | backend/internal/orchestrator/orchestrator.go:267-277 | writes the public definitions sorted by id, or leaves the file when the save fails |
| `OrchestratorInPlace.Orchestrator.PersistScenesLocked` | backend/internal/orchestrator/orchestrator.go:279-290 | writes the scenes with their lists sorted by id, or leaves the file when the save fails |
| `OrchestratorInPlace.Orchestrator.FindsPositionName` | backend/internal/orchestrator/orchestrator.go:544-556 | the loop finds a public position of that name other than the given one, whatever the order of the map |
| `OrchestratorInPlace.Orchestrator.FindsSceneName` | backend/internal/orchestrator/orchestrator.go:892-897 | the loop finds a scene of that name other than the given one, whatever the order of the map |
| `OrchestratorInPlace.Orchestrator.ValidateScenePositionIDsLocked` | backend/internal/orchestrator/orchestrator.go:354-364 | the loop answers for the first bad id |
| `OrchestratorInPlace.Orchestrator.ClearCameraFromPositionsLocked` | backend/internal/orchestrator/orchestrator.go:403-417 | stops at the first holder, in any order of the map; under the class invariant nobody else holds the camera |
| `OrchestratorInPlace.Orchestrator.TurnOff` | backend/internal/orchestrator/orchestrator.go:487-496 | the OBS calls for one cleared position |
| `OrchestratorInPlace.Orchestrator.CreatePosition` | backend/internal/orchestrator/orchestrator.go:520-570 | in place: new state, OBS tables and answer are those of the sequential operation, and the class invariant is kept |
| `OrchestratorInPlace.Orchestrator.RenamePosition` | backend/internal/orchestrator/orchestrator.go:573-613 | in place: new state, OBS tables and answer are those of the sequential operation, and the class invariant is kept |
| `OrchestratorInPlace.Orchestrator.DeletePosition` | backend/internal/orchestrator/orchestrator.go:616-664 | in place: new state, OBS tables and answer are those of the sequential operation, and the class invariant is kept |
| `OrchestratorInPlace.Orchestrator.AssignCamera` | backend/internal/orchestrator/orchestrator.go:667-741 | in place: new state, OBS tables and answer are those of the sequential operation, and the class invariant is kept; the bump loop breaks at its first hit |
| `OrchestratorInPlace.Orchestrator.UnassignPosition` | backend/internal/orchestrator/orchestrator.go:744-789 | in place: new state, OBS tables and answer are those of the sequential operation, and the class invariant is kept |
| `OrchestratorInPlace.Orchestrator.SetAudioPosition` | backend/internal/orchestrator/orchestrator.go:792-838 | in place: new state, OBS tables and answer are those of the sequential operation, and the class invariant is kept |
| `OrchestratorInPlace.Orchestrator.SetAudioPositionInternal` | backend/internal/orchestrator/orchestrator.go:1152-1180 | the automatic audio of a camera cut |
| `OrchestratorInPlace.Orchestrator.CreateScene` | backend/internal/orchestrator/orchestrator.go:841-873 | in place: new state, OBS tables and answer are those of the sequential operation, and the class invariant is kept |
| `OrchestratorInPlace.Orchestrator.RenameScene` | backend/internal/orchestrator/orchestrator.go:876-910 | in place: new state, OBS tables and answer are those of the sequential operation, and the class invariant is kept |
| `OrchestratorInPlace.Orchestrator.UpdateScenePositions` | backend/internal/orchestrator/orchestrator.go:914-947 | in place: new state, OBS tables and answer are those of the sequential operation, and the class invariant is kept; a live scene is applied to OBS at once |
| `OrchestratorInPlace.Orchestrator.DeleteScene` | backend/internal/orchestrator/orchestrator.go:950-978 | in place: new state, OBS tables and answer are those of the sequential operation, and the class invariant is kept |
| `OrchestratorInPlace.Orchestrator.SetPreviewCamera` | backend/internal/orchestrator/orchestrator.go:981-994 | in place: new state, OBS tables and answer are those of the sequential operation, and the class invariant is kept |
| `OrchestratorInPlace.Orchestrator.SetPreviewScene` | backend/internal/orchestrator/orchestrator.go:997-1010 | in place: new state, OBS tables and answer are those of the sequential operation, and the class invariant is kept |
| `OrchestratorInPlace.Orchestrator.EnsureHiddenPosition` | backend/internal/orchestrator/orchestrator.go:367-391 | in place: new state, OBS tables and answer are those of the sequential operation, and the class invariant is kept |
| `OrchestratorInPlace.Orchestrator.ApplyExclusiveVisibility` | backend/internal/orchestrator/orchestrator.go:1128-1149 | visits every known position in some order and stops at the first error |
| `OrchestratorInPlace.Orchestrator.CollectEnabled` | backend/internal/orchestrator/orchestrator.go:1088-1105 | the loop refuses if and only if an existing public position of the scene holds an offline camera, else collects the existing ones |
| `OrchestratorInPlace.Orchestrator.CutCameraLocked` | backend/internal/orchestrator/orchestrator.go:1062-1075 | the loop takes the camera away from every position but the hidden one |
| `OrchestratorInPlace.Orchestrator.Cut` | backend/internal/orchestrator/orchestrator.go:1013-1126 | in place: new state, OBS tables and answer are those of the sequential operation, and the class invariant is kept |
| `OrchestratorInPlace.Orchestrator.MarkSeenLocked` | backend/internal/orchestrator/orchestrator.go:436-464 | the loop over the streams, duplicates included, refreshes or adds every camera seen |
| `OrchestratorInPlace.Orchestrator.MarkGoneLocked` | backend/internal/orchestrator/orchestrator.go:466-485 | the loop over the cameras, in any order, takes offline exactly those missed, clears their positions and collects exactly the expired ones |
| `OrchestratorInPlace.Orchestrator.PruneLocked` | backend/internal/orchestrator/orchestrator.go:499-506 | the loop removes exactly the expired cameras |
| `OrchestratorInPlace.Orchestrator.SyncOnce` | backend/internal/orchestrator/orchestrator.go:422-517 | in place: new state and OBS tables are those of the sequential sync, and the class invariant is kept |
| `BroadcastSafety.StartExact` | backend/internal/broadcast/broadcast.go:164-188 | a start that spawns every process leaves each alive process held by one destination and statuses true, and stale reports rejected if and only if no watcher is ahead of the generations it mints |
| `BroadcastSafety.FailedStartIsClean` | backend/internal/broadcast/broadcast.go:173-182 | in any state, a start whose k-th spawn fails answers so, kills every process it had started, leaves older ones as they were, and ends with no destinations and not running |
| `BroadcastSafety.FailedStartKeeps` | backend/internal/broadcast/broadcast.go:164-182 | a start that does not complete keeps the invariant; an early return changes nothing |
| `BroadcastSafety.StopKeeps` | backend/internal/broadcast/broadcast.go:191-209 | from a state with the invariant, nothing is alive after Stop and it is not running |
| `BroadcastSafety.RestartKeeps` | backend/internal/broadcast/broadcast.go:233-265 | a restart keeps the invariant, whether the new process starts or not |
| `BroadcastSafety.ReportKeeps` | backend/internal/broadcast/broadcast.go:294-314 | a watcher's section keeps the invariant |
| `BroadcastSafety.ReportIsExact` | backend/internal/broadcast/broadcast.go:294-314 | a watcher changes a destination if and only if its process is the one held there |
| `BroadcastSafety.StepExact` | backend/internal/broadcast/broadcast.go:106-326 | (interleaved) a step keeps the invariant if and only if it does not complete a start with a watcher ahead of it |
| `BroadcastSafety.RejectsStaleExactlyWhenStartsClean` | backend/internal/broadcast/broadcast.go:106-326 | (interleaved) all along a run the whole invariant holds, including that no watcher under way is ahead of its destination while running and that one of the same generation watches the process held, if and only if no completing start finds a watcher ahead of the generations it mints |
| `BroadcastSafety.StaleWatcherLeaks` | backend/internal/broadcast/broadcast.go:247 | (interleaved) from any state with a stale watcher ahead of a running destination, restarts alone lead to a process that nobody holds |
| `BroadcastSafety.UncleanStartLeaks` | backend/internal/broadcast/broadcast.go:276-277 | (interleaved) whenever the condition fails at a completing start, some continuation without another start leaks a process |
| `BroadcastSafety.StartIsSafeExactly` | backend/internal/broadcast/broadcast.go:267-292 | (interleaved) a completing start finds no watcher ahead of it if and only if nothing that may happen before the next start leaks a process |
| `BroadcastSafety.LeakIsReachable` | backend/internal/broadcast/broadcast.go:191-292 | (interleaved) from a new manager, for any client and destination: start, restart, stop and start again before the restarted process's watcher reports, and a process stays alive that nobody holds, even after another stop |
| `BroadcastRuns.StepStatus` | backend/internal/broadcast/broadcast.go:106-326 | (interleaved) every step keeps the statuses truthful, whatever processes and watchers there are |
| `BroadcastRuns.EveryRunTellsTheTruth` | backend/internal/broadcast/broadcast.go:106-326 | (interleaved) in every run, clean starts or not: while running a destination is connected if and only if it holds a process and failed if and only if it holds none; while not running all are stopped and hold none |
| `BroadcastRuns.StepLeaks` | backend/internal/broadcast/broadcast.go:294-314 | (interleaved) a step leaks a process if and only if it is a report accepted at a destination that holds a live process |
| `BroadcastRuns.NoLeakExactlyWhenNoneForgotten` | backend/internal/broadcast/broadcast.go:106-326 | (interleaved) all along a run every alive process is held by exactly one destination, if and only if no report is accepted at a destination that holds a live process |
| `BroadcastRuns.CleanStartsForgetNothing` | backend/internal/broadcast/broadcast.go:267-292 | (interleaved) what can be checked before each start is enough: when no completing start finds a watcher ahead of it, no live process is ever forgotten |
| `BroadcastRuns.StopKillsExactly` | backend/internal/broadcast/broadcast.go:191-209 | in any state a stop kills exactly the alive processes that are held; nothing is alive after it when nothing was forgotten |
| `BroadcastRuns.NewIsSound` | backend/internal/broadcast/broadcast.go:86-103 | a new manager is where every run starts |
| `BroadcastRuns.StepKeepsOwner` | backend/internal/broadcast/broadcast.go:106-119 | (interleaved) while running, no step but a stop changes the client or the destination ids |
| `BroadcastRuns.EveryRunIsOwned` | backend/internal/broadcast/broadcast.go:132-188 | (interleaved) in every run, clean starts or not, whenever the manager is running: one start completed and nothing has stopped it since, the selected client is the one that start had read, and the destination ids are exactly those the provider answered to that start |
| `BroadcastContracts.SelectExact` | backend/internal/broadcast/broadcast.go:106-119 | refused while running without a change, accepted otherwise |
| `BroadcastContracts.StartExact` | backend/internal/broadcast/broadcast.go:164-188 | each answer of the second section by its guard; a completed start connects every listed destination and no other to its process, under the generation its spawn was given, and adds one watcher each; a failed one leaves no destination and its processes killed |
| `BroadcastContracts.StopExact` | backend/internal/broadcast/broadcast.go:191-209 | every destination stopped without process or error text and one generation on; exactly the live held processes killed; nothing else changes |
| `BroadcastContracts.RestartAnswer` | backend/internal/broadcast/broadcast.go:233-265 | accepted if and only if the manager runs, knows the destination and the process starts; otherwise the first of these that fails decides the error |
| `BroadcastContracts.RestartEffect` | backend/internal/broadcast/broadcast.go:233-265 | the early refusals change nothing; otherwise the old process is killed if it lives, and the destination holds the new one without an error text, or none, failed, with the runner's text; other destinations and processes are as they were |
| `BroadcastContracts.ReportExact` | backend/internal/broadcast/broadcast.go:294-314 | a report is taken if and only if running at a destination of its generation, and then leaves it failed without a process |
| `BroadcastContracts.ExitExact` | backend/internal/broadcast/broadcast.go:294-295 | a process that ends on its own is seen to have exited unless it had ended before |
| `BroadcastContracts.AlwaysPossible` | backend/internal/broadcast/broadcast.go:106-326 | (interleaved) selections, stops, restarts and exits may come at any time, a report exactly once its process has ended |
| `BroadcastContracts.StartSteps` | backend/internal/broadcast/broadcast.go:132-188 | (interleaved) what a start keeps between its sections |
| `BroadcastContracts.OtherSteps` | backend/internal/broadcast/broadcast.go:106-326 | (interleaved) the other actions are their sections |
| `ProgramStream.StepInSync` | backend/internal/broadcast/broadcast.go:143-209 | (interleaved) a step keeps the program stream in step with the manager (on while running, and otherwise only for a start under way) if and only if it is not: the last such start returning early for another client, a start completing after the stream was switched off, or OBS refusing to stop when nobody else needs it |
| `ProgramStream.InSyncExactlyWhenNeverDrifts` | backend/internal/broadcast/broadcast.go:132-209 | (interleaved) a run is in step all along if and only if no step is one of these |
| `ProgramStream.CarefulRunsStayInSync` | backend/internal/broadcast/broadcast.go:132-209 | (interleaved) it is enough that clients are selected while no start is under way, that stops and further starts wait for the one that has switched the stream on, and that OBS stops when asked |
| `ProgramStream.StreamsWhileIdle` | backend/internal/broadcast/broadcast.go:158-171 | (interleaved) from a new manager: another client is selected during a start, which returns early; OBS streams with nothing running, and a stop does nothing about it |
| `ProgramStream.RunsSilently` | backend/internal/broadcast/broadcast.go:158-202 | (interleaved) from a new manager: two starts overlap, the one that completes is stopped before the other does, and the manager runs with the stream off |
| `BroadcastManager.RelayManager.SelectClient` | backend/internal/broadcast/broadcast.go:106-119 | new state and answer are the section's |
| `BroadcastManager.RelayManager.BeginStart` | backend/internal/broadcast/broadcast.go:132-144 | what the first section reads, and when it stops there |
| `BroadcastManager.RelayManager.FinishStart` | backend/internal/broadcast/broadcast.go:164-188 | the spawn loop with its rollback is the section of the specification |
| `BroadcastManager.RelayManager.SpawnLocked` | backend/internal/broadcast/broadcast.go:267-292 | one process, one watcher, the next generation |
| `BroadcastManager.RelayManager.KillAllLocked` | backend/internal/broadcast/broadcast.go:316-326 | the loop, in any order, kills every held process and halts every destination |
| `BroadcastManager.RelayManager.StopAll` | backend/internal/broadcast/broadcast.go:191-209 | new state is the section's; from a state with the invariant nothing stays alive |
| `BroadcastManager.RelayManager.Restart` | backend/internal/broadcast/broadcast.go:233-265 | as specified |
| `BroadcastManager.RelayManager.ReportExit` | backend/internal/broadcast/broadcast.go:294-314 | as specified |
| `Pagination.ParseLimit` | backend/internal/pagination/pagination.go:72-84 | refused if and only if not a positive integer; 25 when absent, itself up to 100, and 100 above |
| `Pagination.OneMoreRowTells` | backend/internal/pagination/pagination.go:101-118 | fetching one row more than the limit tells whether there is a next page: there is if and only if a matching row is not on the page; the extra row is not shown and the cursor, there only then, points at the last row shown |
| `Pagination.Table.Find` | backend/internal/client/service.go:64-72 | the rows that match, in descending order, at most as many as asked for |
| `Pagination.Table.List` | backend/internal/client/service.go:63-77 | the page told by the rows: at most the limit of the matching ones, newest first, all others after it; more and a cursor at its last row if and only if a matching row is not on it |
| `Pagination.MatchingMeans` | backend/internal/client/service.go:65-67 | what lies behind a cursor: older, or of the same time with a smaller id |
| `Pagination.PageEffect` | backend/internal/pagination/pagination.go:104-118 | a matching row that is not on the page lies before the next cursor |
| `Pagination.WalkDescends` | backend/internal/pagination/pagination.go:4-8 | over any table states, one per fetch, a walk emits strictly descending keys: no row twice |
| `Pagination.WalkIsSound` | backend/internal/pagination/pagination.go:4-8 | every row emitted was there at some fetch |
| `Pagination.WalkIsComplete` | backend/internal/pagination/pagination.go:4-8 | a row that is there at every fetch is emitted |
| `Pagination.WalkEmitsOnce` | backend/internal/pagination/pagination.go:4-8 | a row that is there throughout is emitted at exactly one place, whatever is written between the fetches |
| `Pagination.RestMatches` | backend/internal/client/service.go:65-67 | what is left after a page is exactly what matches its cursor |
| `Pagination.StaticWalk` | backend/internal/client/service.go:61-77 | on a table nobody writes to every walk ends and its pages put together are the whole descending list |
| `Hub.Channel.TrySend` | backend/internal/events/hub.go:53-56 | keeps the event when fewer than 16 are buffered, drops it otherwise, never blocks |
| `Hub.EventHub.constructor` | backend/internal/events/hub.go:20-22 | no subscribers |
| `Hub.EventHub.Subscribe` | backend/internal/events/hub.go:27-43 | a new open channel with an empty buffer is registered |
| `Hub.EventHub.Cancel` | backend/internal/events/hub.go:34-41 | removes and closes the channel once; a second call does nothing |
| `Hub.EventHub.Publish` | backend/internal/events/hub.go:49-58 | every subscriber is offered the event exactly once; channels of others are untouched |
| `Hub.EmptyIsSafe` | backend/internal/events/hub.go:20-22 | (interleaved) a new hub is where every interleaving starts |
| `Hub.StepSafe` | backend/internal/events/hub.go:27-58 | (interleaved) every step keeps the delivery invariant |
| `Hub.EveryInterleavingDelivers` | backend/internal/events/hub.go:27-58 | (interleaved) for each subscriber: received then buffered is what was kept of its offers in order, its offers are what was published since it subscribed, and an offer is dropped if and only if 16 were buffered |
| `Hub.NoPanic` | backend/internal/events/hub.go:34-41 | (interleaved) nothing is sent on a closed channel and no channel is closed twice |
| `Hub.ReceivedInOrder` | backend/internal/events/hub.go:49-58 | (interleaved) received then buffered is an in-order subsequence of what was published since the subscription, and all of it when the buffer was never full at an offer |

## Left out

- The HTTP handlers, middleware, WebSocket loop, configuration and startup: plumbing around the modelled parts.
- The network clients of OBS and of the media server: the in-memory OBS gives the rules, and a sync takes any list of streams or none.
- Log lines, published events, status and list snapshots, and the ticker loop around SyncOnce: they only read the state; `now` is a parameter.
- JSON, base64 and file renames of the stores and of the cursor: a save that succeeds is taken to store what it was given.
- Cameras, positions and scenes are values in maps, reassigned where the source writes through a pointer; no pointer leaves the mutex in the source, so aliasing is not modelled.
- The sequential class has no clean-up after a lost name race in CreatePosition: run alone the second name check cannot fail. The interleaved model has it.
- The sources and mutes of OBS under interleavings: the interleaved model keeps which inputs exist and which calls fail, and `CutOverlap.dfy` which inputs are on; agreement of sources and audio is proved for sequential runs.
- The check that something is live and an empty destination list: they end a start before its second section, as `GiveUp` does. Checking and switching the program stream on is one step, and nobody else switches it.
- Wrap-around of the 64-bit generation counters, and the 64-bit integers of the limit parameter: numbers are unbounded.
- SQL for clients, ingests, platforms and live ids besides the shared listing query; URL, email and stream-key handling: single-row checks.
- Unicode names are sequences of runes; invalid UTF-8 is not modelled.
