# pcoder core: a verified model

pcoder runs coding agents in per-project containers. This project models the parts of it whose correctness depends
on several functions together, and proves what they keep. The two sides of every imperative part are a class or
method with the loops and in-place updates of the original, and a function or transition relation that specifies it;
the theorems are about the latter.

- **Preview workers** (`PreviewManager`, `PreviewProtocol`, `PreviewJanitor`): the manager's critical sections as
  atomic steps, interleaved in every order with slow starts, worker closes and the container sweep.
- **Work Sync** (`SyncManifest`, `SyncFolder`, `SyncBackup`, `SyncRestore`, `SyncNesting`, `SyncReceive`): diff, stage,
  back up, apply, verify and restore on a tree of directories, with a fault possible at every op, and the proof that
  on prefix-free paths, and only on those, the tree behaves as a flat map. The upload into the container and its
  rollback are `SyncSend`, `SyncUpload` and `SyncRollback`.
- **Sync codes and frames** (`SyncCodes`, `SyncFrames`): the code store as a state machine over every run, and the
  frame codec over an ideal authenticated cipher.
- **Code map** (`CodemapGlob`, `CodemapSnippets`, `CodemapHydrate`): a glob compiler against a direct matcher, and
  batched line reads against direct ones.
- **Terminal** (`TerminalOutput`): UTF-8 re-chunking with the slice sharing of Go's `append`.
- **Agent** (`AgentLoop`, `AgentRuns`, `AgentAnswers`, `AgentTurn`, `AgentTranscript`): the tool loop against an
  arbitrary model and arbitrary tools and what it asks and answers, the history rebuild, and the transcript collector.
- **Logs and login** (`ObsStore`, `ObsRuns`, `ObsFair`, `ObsTails`, `ObsRead`, `LoginLimiter`): buffered writes on a failing
  disk, rotation, numbering and paging over every run, and the rolling-window limiter through its in-place compactions.

`Text`, `Sorting`, `Projects` and `Wrappers` hold what modules share.

## Where the code and its promises part

Each of these is proved, with the exact condition under which the promise does hold.

- Terminal frames can be corrupted: the kept tail is copied over the front of a buffer that shares the carry's array
  before that front is sent (terminal.go:177-187). `ConservesIffClean`, `ClobberedCharacter`, `LongChunkIsSafe`.
- A backup holding an absolute symbolic link cannot be read back, so such a folder cannot be restored; and a file the
  manifest does not list is lost if the plan adds its path (backup.go:64-208). `RestoreUndoes`, `RestoresExactlyWhen`.
- A plan whose paths nest cannot be both applied and undone: a file replaced by a directory cannot be undone and a
  directory replaced by a file cannot be applied (backup.go:306-330). `UndoableIff` is the exact condition;
  `FileToDirectoryNotUndone`, `DirectoryToFileFails`, `NestedNotApplied`.
- Staging does not check a link's target against its hash (tar.go:97-103). `FileVerifiedLinkNot`.
- If the folder cannot be listed after the apply, the new tree stays (main.go:317-320). `UnlistedKeepsNewTree`.
- The container hashes a link's target with the newline readlink prints (container.go:31), the laptop without one. So
  no upload succeeds while the laptop's folder lists a link (whose target does not itself end in a newline), no download
  that transfers one does, and an upload that overwrites or deletes a link cannot be rolled back, its archive failing
  its own check. `LinkIsNeverSent`,
  `CleanUploadIff`, `ContainerLinkNeverMatches`, `SaveEffect`, `SendRollsBackIff`. The documentation of `Entry`
  promises the hash of the target (manifest.go:34-36).
- The rollback of an upload stops at the first added path that holds a directory, which rm -f refuses
  (container.go:169-178); the added paths behind it stay. `RollbackEffect`, `SendRollsBackIff`.
- An upload whose plan only adds files has no archive, so a failure is not rolled back and not reported as such
  (service.go:289-292). `SendRollsBackIff`.
- `Generate` can succeed beside a running sync once ten failed lookups have dropped its code (code.go:116-199).
  `GenerateRefusesIffFewCharges`, `RunningSyncDisplaced`.
- A stream cut between two frames is not noticed by the codec (crypto.go:142-149); strict staging refuses what is then
  missing. `CutEndsQuietlyIff`, `StrictStagingExact`.
- A preview whose token is asked for between the sweeper's two steps is stopped although its new token had just been
  accepted (worker.go:266-317). `TokenBetweenSweepAndStop`.
- A project whose slug begins with "relay-" can lose its preview sidecar to a sweep (janitor.go:82-84).
  `SweepSparesOwned`, `MisreadSidecarIsSwept`. And a project whose slug begins with "preview-" can lose its own container
  (service.go:152 in server/internal/project, janitor.go:36-59). `OnlyPreviewsSwept`, `MainContainerIsSwept`.
- The executor trims its output, which shifts the lines handed to references when a selection starts or ends in blank
  space (session.go:436). `TrimmedServesIff`; a selection of blank lines is dropped, `AllBlankIsDropped`.
- The repeat guard compares with the last known call, not with the previous call (loop.go:224-244).
  `PlanDestutters`, `UnknownDoesNotSeparate`.
- The transcript shows results with the wrong calls when a call is blocked after the first one that runs: the call that
  ran is shown as blocked (turn.go:42-62). `AttributedIff`, `RunShownAsBlocked`; after the second one that runs, results
  move between different calls, `SameCallsIff`, `RepeatIsMisattributed`.
- A pattern with a double star loses its meaning on names with a newline, which its dot does not match
  (codemap.go:490-494). `MeaningKeptIff`.
- The counter of dropped log lines misses those left in the write buffer by a failed flush, whose error is ignored, and
  those written behind half a line (store.go:158-174). `DropsExactIff`, `UncountedLine`.
- A line longer than a mebibyte ends every scan of its file: it and all lines behind it are never read, and a restart can
  hand their numbers out again (store.go:281-299, 317-330). `PagesHoldAllIff`, `FairRunFindsAllIff`, `RestartSafeIff`,
  `LongLineHides`.
- A log tail can miss a line that got its number first and was queued last, or was drained first and written last
  (store.go:136-153, 249-257). `TailMissesNothingIff`, `LateLineIsMissed`, `HeldLineIsMissed`. And `after=0` is
  the tail, not the start: `ForwardFromZero`.

## Assumptions

- Clocks do not go back within a run; each operation reads the clock once, except `Login`, which reads it twice.
- Sync codes, session ids, preview tokens and workers are fresh when drawn. A code is identified with its hash.
- SHA-256 is collision-free. The cipher opens only what a key holder sealed with the same associated data, where the
  identities of other syncs are NUL-free too; `IdealCipherExists` shows this can be met.
- The restore theorems take a manifest that is true of the folder and paths that are prefix-free; both are stated as
  predicates (`Planned`, `SendPlanned`), and `UndoableIff` shows that without prefix-freeness the promise fails.
- Sequences of bytes and characters are unbounded; the 64-bit frame counter wraps as in the source.

## Model

| member | source | states |
|---|---|---|
| PreviewManager.Manager.EnsureEnter | server/internal/preview/worker.go:91-111 | The first critical section of Ensure as one transition: bad config, closed, existing worker, join a start in flight, or register a new one. |
| PreviewManager.Manager.EnsureLeave | server/internal/preview/worker.go:121-153 | The second critical section: unregister the start; publish the worker and mint a token, or hand the worker back to be closed if the manager closed meanwhile. |
| PreviewManager.Manager.Get | server/internal/preview/worker.go:155-165 | A worker is returned exactly when one is held for a non-empty id. |
| PreviewManager.Manager.Stop | server/internal/preview/worker.go:169-182 | The worker, its token and its last-seen time go together; nothing else changes. |
| PreviewManager.Manager.Close | server/internal/preview/worker.go:186-213 | Every held worker is handed out exactly once, all three maps are emptied together, and a second call does nothing. |
| PreviewManager.Manager.TokenOrMint | server/internal/preview/worker.go:218-240 | A held project keeps its token or gets the new one; a project without a worker gets none. |
| PreviewManager.Manager.CheckToken | server/internal/preview/worker.go:243-251 | Accepts exactly the non-empty token on record. |
| PreviewManager.Manager.Touch | server/internal/preview/worker.go:254-260 | Moves the last-seen time of a project that has a token, and nothing else. |
| PreviewManager.Manager.Sweep | server/internal/preview/worker.go:266-281 | Drops and lists exactly the projects silent for longer than the limit. |
| PreviewProtocol.StepKeepsInv | server/internal/preview/worker.go:91-281 | Every critical section, factory return and worker close keeps: one starter per project, conservation of workers, tokens and last-seen times in step and only for held workers, nothing held after Close. |
| PreviewProtocol.SingleStart | server/internal/preview/worker.go:100-130 | At most one start per project runs, no project is both starting and held, and the duplicate-worker branch is never taken. |
| PreviewProtocol.WorkerConservation | server/internal/preview/worker.go:113-213 | Every worker the factory returned is in exactly one place: with its starter, held, with one closer, or closed. |
| PreviewProtocol.ClosedOnceResultsFinal | server/internal/preview/worker.go:104-153 | A closed worker is never handed out or closed again, and what waiters read of a finished start never changes. |
| PreviewProtocol.ShutdownDrains | server/internal/preview/worker.go:186-213 | After Close nothing is ever held again; once starts and closers have finished every started worker is closed. |
| PreviewProtocol.TokensOnlyMinted | server/internal/preview/worker.go:131-140 | A step keeps a project's token, drops it, or replaces it by one never issued before. |
| PreviewProtocol.RevokedForever | server/internal/preview/worker.go:218-281 | A token swept, rotated or stopped away is never accepted again, and an accepted token belongs to one project whose worker is held. |
| PreviewProtocol.SweepDropsExactlySilent | server/internal/preview/worker.go:266-281 | After a sweep a token is accepted exactly if it was before and its project was not silent too long. |
| PreviewProtocol.TouchPostponesSweep | server/internal/preview/worker.go:254-281 | A token touched within the limit survives the sweep, and no other project is affected. |
| PreviewProtocol.SweepThenRotate | server/internal/preview/worker.go:218-281 | Asking for a token after a sweep gives back the surviving one, or a new one after which the old is refused. |
| PreviewProtocol.TokenBetweenSweepAndStop | server/internal/preview/worker.go:266-317 | A token asked for between the sweeper's sweep and its stop is accepted, and the stop then takes the worker away and revokes it for good. |
| PreviewProtocol.EntryReply | server/internal/preview/worker.go:91-111 | Over every interleaving, what Ensure's first section answers: rejected exactly for a bad config, closed exactly after Close, and otherwise the worker that serves the project if one does, the call that is starting it if one is, and a new start exactly if there is neither. |
| PreviewProtocol.ExitReply | server/internal/preview/worker.go:113-153 | And what the second section answers: the factory's failure, or the worker, published with its token seen at that moment, or handed back to be closed exactly if the manager has closed. |
| PreviewProtocol.MintIsPresence | server/internal/preview/worker.go:218-281 | A token just minted counts as seen: a later sweep spares it exactly if its silence is within the limit. |
| PreviewProtocol.StopTakesOne | server/internal/preview/worker.go:169-182 | After a stop the project is served by no worker and none of its tokens is accepted; its worker goes to a closer, and other projects keep theirs. |
| PreviewJanitor.SlugRoundTrip | server/internal/preview/janitor.go:79-84 | A container name resolves to its slug exactly when it is a relay's or the slug does not itself begin with "relay-". |
| PreviewJanitor.SanitizedIs | server/internal/project/repo.go:150-172 | A slug is the middle of the identifier, each character kept, lowered or made a hyphen, from the first to the last that does not become a hyphen or a dot, or "project" if there is none. |
| PreviewJanitor.LiveSlugs | server/internal/preview/janitor.go:66-77 | The live set is the slugs of held workers and of starts in flight. |
| PreviewJanitor.SweepContainers | server/internal/preview/janitor.go:36-59 | Exactly the listed containers whose slug is not live are removed, in order; a Docker error is reported and spares none; a failed listing removes nothing. |
| PreviewJanitor.AliveOnlyEnds | server/internal/preview/worker.go:104-153 | A start or worker that no longer owns its container never owns it again. |
| PreviewJanitor.SweepSparesOwned | server/internal/preview/janitor.go:36-84 | For every interleaving around listing, snapshot and removal: a container the sweep may remove is not owned then or ever after, unless its name is the misread shape. |
| PreviewJanitor.MisreadSidecarIsSwept | server/internal/preview/janitor.go:79-84 | For every project whose slug begins with "relay-", a sweep during its start removes its sidecar. |
| PreviewJanitor.LeftoverIsSweptIff | server/internal/preview/janitor.go:36-84 | A sweep removes a container that an earlier server left exactly when no project with a held worker or a start in flight has its slug, and removes no other by it. |
| PreviewJanitor.MainNamePrefix | server/internal/project/service.go:152 | A project's own container carries the prefix of preview containers exactly when its slug begins with "preview-". |
| PreviewJanitor.OnlyPreviewsSwept | server/internal/preview/janitor.go:36-59 | Over every run, whatever the sweep may remove is a preview container, unless it is the own container of a project whose slug begins with "preview-". |
| PreviewJanitor.MainContainerIsSwept | server/internal/preview/janitor.go:36-84 | Such a project's own container is removed by a sweep if and only if no preview is live under the rest of its name. |
| SyncManifest.BuildIndex | server/internal/sync/manifest.go:58-65 | The loop builds the path index, later entries winning. |
| SyncManifest.ValidPathStaysInside | server/internal/sync/manifest.go:89-105 | Joining a valid path to any folder names a place strictly inside it. |
| SyncManifest.ValidPathIff | server/internal/sync/manifest.go:89-105 | A path is valid if and only if it is at most 1024 bytes without a NUL, has no empty or dot segment, and does not start in .git. |
| SyncManifest.Normalize | server/internal/sync/manifest.go:67-87 | Refuses exactly the manifests with an invalid or repeated path; otherwise sorts, keeping the entries and the index. |
| SyncManifest.Diff | server/internal/sync/manifest.go:107-129 | One op per differing path, the right action at each, in path order, and no other op. |
| SyncManifest.DiffUnique | server/internal/sync/manifest.go:107-129 | Two manifests have one list of ops, whatever order the maps are walked in. |
| SyncManifest.Counts | server/internal/sync/manifest.go:132-144 | The three counts, summing to the number of ops. |
| SyncManifest.DiffCounts | server/internal/sync/manifest.go:107-144 | The counts of a diff are the numbers of paths only the source has, only the target has, and both have with different content. |
| SyncManifest.TransferSet | server/internal/sync/manifest.go:148-160 | The source entries of the ops that are not deletes. |
| SyncManifest.TransferMembers | server/internal/sync/manifest.go:148-160 | An entry is transferred exactly if some op that is not a delete names it. |
| SyncManifest.Compare | server/internal/sync/backup.go:232-244 | Succeeds exactly when both sides have the same paths with the same hash, mode and type, although it walks only one index. |
| SyncManifest.MatchesIffNoOps | server/internal/sync/backup.go:232-244 | Compare accepts exactly when the diff is empty. |
| SyncFolder.CopyIsFlat | server/internal/sync/backup.go:306-330 | On a path with room, copyEntry on the directory tree is an update of the flat map of files. |
| SyncFolder.CopyConfined | server/internal/sync/backup.go:306-330 | copyEntry, failing or not, changes only its own path, which ends with the recreated entry or with nothing. |
| SyncFolder.Folder.Delete | server/internal/sync/backup.go:253-257 | os.Remove: leaf or empty directory removed, a missing path told apart from a refusal. |
| SyncFolder.Folder.MakeParents | server/internal/sync/backup.go:307-309 | os.MkdirAll of the parent: fails exactly if a file or link stands on the way. |
| SyncFolder.Folder.Put | server/internal/sync/backup.go:311-330 | Creating a link or writing a file at a path whose parents exist. |
| SyncFolder.Folder.Copy | server/internal/sync/backup.go:306-330 | The call sequence of copyEntry, in place. |
| SyncBackup.WriteBackup | server/internal/sync/backup.go:64-114 | The archive's entries and members, or a failure at the first path the folder no longer holds as recorded. |
| SyncBackup.ExtractBackup | server/internal/sync/backup.go:126-208 | Unpacks into an empty folder, refusing invalid paths and absolute links, and accepts only if every entry verifies. |
| SyncBackup.ApplyLocal | server/internal/sync/backup.go:248-265 | Ops in order up to the first failure, including failures half-way through a copy. |
| SyncBackup.RestoreLocal | server/internal/sync/backup.go:270-304 | Reverses the entries in order, verifying each hash, up to the first failure, an unreadable archive and faults half-way through an entry included. |
| SyncRestore.DiffIsPlanned | server/internal/sync/manifest.go:107-129 | The ops of a diff meet the preconditions of the restore theorems about ops. |
| SyncRestore.BackupIff | server/internal/sync/backup.go:64-114 | Whatever the folder and the manifest, a backup is written exactly when every listed path that it must save holds something of the listed kind. |
| SyncRestore.ExtractIsSafe | server/internal/sync/backup.go:126-208 | Whatever an archive holds, reading it back succeeds only if every member lies at a valid path and is no absolute link; every member then stands as a file or link, and every saved entry has its recorded hash. |
| SyncRestore.ExtractGivesOldNodes | server/internal/sync/backup.go:64-208 | Reading back the backup of a listed folder succeeds exactly when no saved link is absolute and every saved hash is true, and gives every old file. |
| SyncRestore.RestoreUndoes | server/internal/sync/backup.go:64-304 | From every folder state that differs only at the plan's paths, restore gives the original less the added paths; it fails, changing nothing, exactly when a saved link is absolute. |
| SyncRestore.RestoresExactlyWhen | server/internal/sync/backup.go:64-304 | After a restore the original is there, file for file, exactly when no saved link is absolute and no unlisted file lay at an added path, or a saved link is absolute and nothing had been changed. |
| SyncRestore.RestoreTwice | server/internal/sync/backup.go:270-304 | Restoring twice equals restoring once. |
| SyncRestore.InterruptedRestore | server/internal/sync/backup.go:270-304 | A restore stopped anywhere by any fault leaves a folder that differs from the original only at the plan's paths, and a second restore then gives what the first should have. |
| SyncRestore.ApplyConfined | server/internal/sync/backup.go:248-265 | Whatever fails, and wherever, apply changes only paths of the plan. |
| SyncRestore.ApplyThenRestore | server/internal/sync/backup.go:248-304 | Any prefix of an apply with any faults, then restore: the original files. |
| SyncRestore.ApplyDiffGivesStaged | server/internal/sync/backup.go:248-265 | A clean apply leaves what was staged at every changed path, nothing at a deleted one, and every other file as it was. |
| SyncRestore.ApplyDiffGivesSource | server/internal/sync/backup.go:248-265 | Applying the diff makes every source path match, removes the others, and touches no third path. |
| SyncRestore.InterruptedApply | server/internal/sync/backup.go:248-265 | An apply succeeds exactly when no op meets a fault; one stopped anywhere by any fault can be done again without a restore, and then gives the files of a clean apply of the first folder. |
| SyncNesting.NestedNotApplied | server/internal/sync/backup.go:248-330 | On any folder, a plan that keeps or creates a path above another of its paths cannot be applied. |
| SyncNesting.DirectoryToFileFails | server/internal/sync/backup.go:248-330 | With anything below an added path the plan cannot be applied, and the restore after it fails too, whatever the archive holds. |
| SyncNesting.FileToDirectoryNotUndone | server/internal/sync/backup.go:270-330 | With a deleted path above another path of the plan, the restore after a complete apply fails, whatever the archive holds. |
| SyncNesting.UndoableIff | server/internal/sync/backup.go:64-330 | For every accurate manifest and every diff: apply and restore both succeed if and only if the paths are prefix-free and no saved link is absolute, and then the original is back if and only if nothing unlisted lay at an added path. |
| SyncReceive.CopyTarMembers | server/internal/sync/tar.go:44-90 | The staging loop, strict or not, with its seen set and missing-file check. |
| SyncReceive.WriteTarMember | server/internal/sync/tar.go:92-121 | One member: kind, size and hash checks, after which a failing file has still been written. |
| SyncReceive.StrictStagingExact | server/internal/sync/tar.go:44-121 | Strict staging admits exactly the archives that carry every planned file once, fitting, and nothing else; the staged files are those. |
| SyncReceive.LooseStaging | server/internal/sync/tar.go:44-90 | Staging that is not strict is strict staging of the members whose paths are wanted. |
| SyncReceive.FileVerifiedLinkNot | server/internal/sync/tar.go:92-121 | A staged file is the planned one byte for byte; a staged link matches its entry only if its target does, which is not checked. |
| SyncReceive.BuildManifest | server/internal/sync/manifest.go:254-298 | The index of the listed, valid paths that name a file or link; fails exactly if listing failed or a path repeats. |
| SyncReceive.Receive | server/cmd/pcoder-sync/main.go:273-328 | The whole download as one function of the folder, plan, payload, listing, and what goes wrong in saving, applying and restoring. |
| SyncReceive.SuccessMeansPlan | server/cmd/pcoder-sync/main.go:290-327 | Success means the covered folder equals the plan's manifest; without an archive nothing was changed, and an archive that is returned is the backup of the original folder. |
| SyncReceive.FailureRollsBack | server/cmd/pcoder-sync/main.go:305-326 | After a failed apply or comparison the archive is restored exactly when no saved link is absolute and the restore meets no fault; the folder is then the original less what lay at added paths. Without a fault in the restore, the files are exactly the original ones if and only if nothing unlisted lay there, or, with an absolute link, nothing had been changed. After a fault in it, restoring again gives the same. |
| SyncReceive.UnlistedKeepsNewTree | server/cmd/pcoder-sync/main.go:301-320 | A download ends unlisted if and only if it was staged, no op failed and the new folder could not be listed or repeats a path; the folder then holds what the plan describes, and the archive is returned. |
| SyncReceive.CleanDownloadIff | server/cmd/pcoder-sync/main.go:290-327 | Staged, without a fault and with git listing the planned paths in the folder it makes, a download succeeds if and only if every planned link has this system's link mode and every transferred one hashes to its entry; otherwise it ends in a mismatch. |
| SyncReceive.ContainerLinkNeverMatches | server/internal/sync/container.go:27-36 | A link that arrives as it is in the container, under the hash the container's manifest gives it, ends every download short of success; without another fault in a mismatch and a restore. |
| SyncSend.ContainerManifest | server/internal/sync/container.go:24-83 | The records of the listed leaves, links hashed with a newline; fails on a failed listing, an invalid path or a repeated one. |
| SyncSend.BackupTarget | server/internal/sync/service.go:218-285 | Nothing to save, an archive of the affected paths as the container's tar delivers them, or a refusal. |
| SyncSend.UploadFiles | server/internal/sync/container.go:139-164 | Entries one after another, up to the first that fails, half-way or not. |
| SyncSend.RemovePaths | server/internal/sync/container.go:166-178 | rm -f on each path up to the first failure: no error for a missing one, one for a directory. |
| SyncSend.RollBack | server/internal/sync/service.go:287-313 | Without an archive nothing and no error; otherwise extract, upload the saved entries again and remove the added paths. |
| SyncSend.Send | server/internal/sync/service.go:113-150 | Stage, save, upload, remove, list, compare and roll back, in the source's order, as one function of the container and the faults. |
| SyncUpload.SaveEffect | server/internal/sync/service.go:218-285 | An accurate target is not saved exactly when an affected link is absolute; its archive can be read back exactly when it holds no link at all. |
| SyncUpload.UploadEffect | server/internal/sync/container.go:139-164 | Whatever fails, an upload stops at one place in the order of its entries: before it every entry stands as it was staged, after it none is touched, and nothing else changes. |
| SyncRollback.RollbackEffect | server/internal/sync/service.go:287-313 | From any state a failed upload can leave, a rollback without new faults gives the old files back, clears the added paths up to the first that holds a directory, leaves the others as the apply did, and reports success exactly when no directory is in the way. |
| SyncRollback.SavedAreReturned | server/internal/sync/service.go:315-335 | The entries uploaded again are one for every saved entry, under its path, mode, kind and hash and with the size that was read back, and no other. |
| SyncRollback.SendRollsBackIff | server/internal/sync/service.go:113-150 | For any faults of the apply: refused without change; not saved, without change, exactly for an absolute link or an archive that cannot be written; or taken back. Then, if nothing or a link was saved, what the apply left stays; otherwise the original is there if and only if each added path that removal reaches held no file and each other is unchanged. |
| SyncRollback.SendUnderFaults | server/internal/sync/service.go:113-150 | For any faults of the apply and of the rollback, an upload changes only paths of the plan; unless its rollback is reported as failed, it ends as one whose rollback meets no fault, so a rollback reported as done is one. |
| SyncRollback.SentMeansPlan | server/internal/sync/service.go:237-248 | Success means that no upload and no removal failed, and that the container's covered files are the laptop's manifest, path for path. |
| SyncRollback.LinkIsNeverSent | server/internal/sync/container.go:27-36 | While the laptop's manifest lists a link, hashed without a final newline, whatever is sent, fails or is listed, no upload succeeds. |
| SyncRollback.ListedIff | server/internal/sync/container.go:24-83 | The container's manifest is taken exactly when git lists, no file or link twice and none under an invalid path. |
| SyncRollback.CleanUploadIff | server/internal/sync/service.go:101-150 | Staged, without a fault and with git listing exactly the laptop's paths, once each, an upload succeeds if and only if no affected link is absolute and the laptop's manifest lists no link. |
| SyncCodes.CodeStore.Generate | server/internal/sync/code.go:116-139 | Refuses while the project's code has a running session; otherwise replaces the prior code and its session. |
| SyncCodes.CodeStore.Lookup | server/internal/sync/code.go:144-189 | Resume, open, refuse or charge a lookup, as one transition. |
| SyncCodes.CodeStore.FailAttempt | server/internal/sync/code.go:193-199 | One more attempt on the entry, dropped at the tenth. |
| SyncCodes.CodeStore.Fetch | server/internal/sync/code.go:202-214 | Unknown, expired (and then finished), or the session. |
| SyncCodes.CodeStore.Finish | server/internal/sync/code.go:217-233 | Drops the session, forgets the plaintext and frees the project. |
| SyncCodes.CodeStore.MarkUsed | server/internal/sync/code.go:237-243 | Marks the held entry used. |
| SyncCodes.CodeStore.ProjectStatus | server/internal/sync/code.go:38-50 | The phase of some active session of the project, or idle when none has one. |
| SyncCodes.StepKeeps | server/internal/sync/code.go:116-243 | Every operation keeps the store's invariant over entries, project codes, sessions and history. |
| SyncCodes.OneSessionPerCode | server/internal/sync/code.go:144-189 | Over any run a code opens at most one session in its whole life. |
| SyncCodes.TenFailuresKill | server/internal/sync/code.go:193-199 | Held entries have 0 to 9 attempts; a code charged ten failures is gone and never opens a session again. |
| SyncCodes.CodeBoundToProjectAndTime | server/internal/sync/code.go:144-189 | Whatever happens after it is drawn, a code opens or resumes no session for another project nor later than ten minutes on. |
| SyncCodes.LiveCodeIsTheProjects | server/internal/sync/code.go:116-139 | A held code that still has its plaintext is the code of its project. |
| SyncCodes.OneBackedSessionPerProject | server/internal/sync/code.go:116-189 | A stored session whose code is held has its project's code, so a project has at most one. |
| SyncCodes.GenerateRefusesIff | server/internal/sync/code.go:116-139 | Generate refuses exactly when the project has a running session whose code is still held. |
| SyncCodes.HeldIffFewCharges | server/internal/sync/code.go:144-199 | Over any run, a running session's code is held exactly while it has been charged fewer than ten failed lookups since it was drawn. |
| SyncCodes.GenerateRefusesIffFewCharges | server/internal/sync/code.go:116-199 | So Generate refuses exactly when the project has a running session whose code has been charged fewer than ten failures. |
| SyncCodes.RunningSyncDisplaced | server/internal/sync/code.go:116-199 | Ten lookups of a running sync's code under another project let Generate succeed, and two sessions of one project are then active. |
| SyncCodes.LookupReply | server/internal/sync/code.go:144-189 | Over every run, what a lookup answers: which error exactly when, the one unfinished session of the code exactly if there is one, and the fresh session exactly for a code of the project that is held, in time, unused, and has its plaintext and no session. |
| SyncCodes.AnsweredIsStored | server/internal/sync/code.go:144-189 | A session that a lookup names is stored afterwards, unfinished, for that code and project, until the code's own end, and no other session changes. |
| SyncCodes.FetchReply | server/internal/sync/code.go:202-214 | A fetch finds exactly the stored sessions that are in time; one past its time is finished by it, and nothing else changes. |
| SyncCodes.ActiveIsFetched | server/internal/sync/code.go:38-50 | The sessions whose phase may be shown as the project's status are exactly its own unfinished ones that a fetch finds. |
| SyncCodes.OneIdThroughout | server/internal/sync/code.go:116-214 | From any reachable store: Generate, Lookup, Lookup and Fetch name one session for ten minutes, and after that it has expired. |
| SyncCodes.FinishFrees | server/internal/sync/code.go:217-233 | Finishing a session forgets it, lets its project generate again, and leaves its code answering with errors only. |
| SyncCodes.PriorIsInvalid | server/internal/sync/code.go:116-139 | A new code makes the project's prior one invalid and drops exactly its session; no other code or session changes. |
| SyncCodes.AcceptedIsSpent | server/internal/sync/code.go:237-243 | A code whose plan was accepted names its session while that goes on, and never opens another. |
| SyncFrames.AadInjective | server/internal/sync/crypto.go:61-64 | Without NUL in its fields the associated data determines all five fields and the sequence number. |
| SyncFrames.AadSays | server/internal/sync/crypto.go:61-64 | Read back at the NULs, the associated data is the session, project, branch, commit, direction and decimal number, in that order. |
| SyncFrames.NulConfuses | server/internal/sync/crypto.go:61-64 | With a NUL two different identities share their associated data. |
| SyncFrames.NonceInjective | server/internal/sync/crypto.go:66-70 | Nonces below the counter's width do not repeat. |
| SyncFrames.NonceOnWire | server/internal/sync/crypto.go:66-70 | A nonce is four zero bytes and the counter's eight, the most significant first. |
| SyncFrames.LengthOnWire | server/internal/sync/crypto.go:96-97 | A frame's length is four bytes, the most significant first. |
| SyncFrames.FrameOnWire | server/internal/sync/crypto.go:91-106 | Frame i of any stream stands behind the earlier ones: its length, then the message sealed under the nonce and associated data of number i. |
| SyncFrames.FrameWriter.Write | server/internal/sync/crypto.go:91-106 | One message is one sealed frame at the next counter; an oversized one writes nothing; a failing connection leaves a cut frame, nothing counted as written and the counter where it was. |
| SyncFrames.FrameWriter.WriteChunked | server/cmd/pcoder-sync/main.go:366-380 | Data of any length becomes full frames and a last one, up to the first that fails, with the bytes written so far as its result. |
| SyncFrames.ChunksFit | server/cmd/pcoder-sync/main.go:366-380 | The chunks join to the data, none is empty, all but the last hold 65536 bytes and the last no more. |
| SyncFrames.ChunksOfFit | server/cmd/pcoder-sync/main.go:366-380 | So do the chunks of any sequence of writes. |
| SyncFrames.FrameReader.Fetch | server/internal/sync/crypto.go:128-140 | The read loop as a function of the reader's state, empty frames skipped. |
| SyncFrames.FrameReader.FetchFrame | server/internal/sync/crypto.go:142-166 | One frame: end of stream, cut, rejected or decrypted, with what was consumed in each case. |
| SyncFrames.ReadTells | server/internal/sync/crypto.go:128-166 | Whatever the input, a read passes over whole frames without data and then reports the end exactly when nothing follows, a short read exactly when the input breaks off inside a frame, data exactly when a whole frame opens at its number, and otherwise a bad frame. |
| SyncFrames.RoundTrip | server/internal/sync/crypto.go:91-166 | Any sequence of writes of any lengths, any read sizes: what is read is a prefix of what was written, and all of it after enough reads. |
| SyncFrames.TamperedIsPrefix | server/internal/sync/crypto.go:128-166 | For any input and any reads, even after errors, only the next unread bytes of the writer are handed over. |
| SyncFrames.TamperedStreamIsPrefix | server/internal/sync/crypto.go:128-166 | For any sequence of writes, with frames dropped, reordered, repeated, altered or foreign: the output is a prefix of what was written. |
| SyncFrames.CutEndsQuietlyIff | server/internal/sync/crypto.go:128-166 | For any messages and any cut of their stream: the reader gets the messages that arrived whole and ends as if complete if and only if the cut falls between frames, otherwise with a short read. |
| SyncFrames.IdealCipherExists | server/internal/sync/crypto.go:72-80 | The two assumptions about the cipher are satisfiable together. |
| CodemapGlob.GlobToRegexp | server/internal/codemap/codemap.go:475-511 | The index loop writes the compiled text, and reports whether the pattern holds no slash. |
| CodemapGlob.ParseEmitted | server/internal/codemap/codemap.go:475-511 | The text parses, by the syntax of regular expressions, to the intended expression for every pattern. |
| CodemapGlob.CompiledMeansGlob | server/internal/codemap/codemap.go:475-511 | For every pattern the text is a regular expression and, on one-line names, accepts exactly what the glob matches. |
| CodemapGlob.MeaningKeptIff | server/internal/codemap/codemap.go:475-511 | The regular expression and the glob agree on every name, newlines included, if and only if the pattern holds no double star. |
| CodemapGlob.BaseNameAtAnyDepth | server/internal/codemap/codemap.go:470-474 | A slash-free pattern matched against the base name finds files at any depth, as with a leading double star. |
| CodemapGlob.FindFiles | server/internal/codemap/codemap.go:162-189 | The tool's loop over the tracked files: the base name or the whole path against the compiled pattern. |
| CodemapGlob.FoundExactly | server/internal/codemap/codemap.go:162-189 | With an engine that follows the syntax, the tool finds, in listing order, every tracked file that the glob matches, by its whole path or, for a pattern without a slash, by what follows its last slash, and no other, names being of one line. |
| CodemapSnippets.MergeRanges | server/internal/codemap/codemap.go:827-837 | The merge loop computes the blocks. |
| CodemapSnippets.MergeExact | server/internal/codemap/codemap.go:820-837 | Blocks are ascending, separated by at least one line, and cover exactly the lines of the ranges. |
| CodemapSnippets.PrintedIsSelected | server/internal/codemap/codemap.go:838-844 | One sed pass prints the blocks one after another. |
| CodemapSnippets.SliceIsDirect | server/internal/codemap/codemap.go:863-889 | The slice a range gets from the output is its own part of the file. |
| CodemapSnippets.HandBack | server/internal/codemap/codemap.go:866-896 | The walk over ranges and blocks gives each its slice; the range-before-block drop never fires. |
| CodemapSnippets.HydrateGroup | server/internal/codemap/codemap.go:819-897 | One file's ranges: merged, read once, handed back or dropped together. |
| CodemapSnippets.BatchedIsDirect | server/internal/codemap/codemap.go:819-897 | With exact output that is text and not all blank, batched reading equals reading each range alone. |
| CodemapSnippets.AllBlankIsDropped | server/internal/codemap/codemap.go:857-862 | A selection of blank lines is dropped although a direct read finds lines. |
| CodemapSnippets.TrimmedServesIff | server/internal/session/session.go:429-441 | With the executor's trimming every range still gets its lines exactly when the selection neither starts nor ends in blank space. |
| CodemapHydrate.ClampAndGroup | server/internal/codemap/codemap.go:785-817 | The first loop clamps in place and groups the valid references by path, in order. |
| CodemapHydrate.HydrateRefs | server/internal/codemap/codemap.go:776-898 | Every reference ends as its own specification says, whatever order the paths are visited in. |
| CodemapHydrate.HydratePath | server/internal/codemap/codemap.go:819-897 | One group is answered in place and no other reference changes. |
| CodemapHydrate.HydratedIsDirect | server/internal/codemap/codemap.go:776-898 | Each valid reference of a text file comes back with the range from its first line, or 1, to its last, ten at most, and with those of these lines that the file has, up to 4096 characters, or with none exactly when it starts past the end. |
| CodemapHydrate.ClampIs | server/internal/codemap/codemap.go:804-812 | A range in order and of at most ten lines is left alone; any other starts at its first line from 1 on and ends as near to its end as ten lines allow. |
| CodemapHydrate.DroppedTogether | server/internal/codemap/codemap.go:845-862 | When a file cannot be read, or what is read holds a NUL or only white space, every reference to it loses its snippet and keeps its clamped range. |
| CodemapHydrate.RefusedIsDropped | server/internal/codemap/codemap.go:785-803 | A reference with a refused path loses its snippet and nothing else, and no reference's range affects the answers for other paths. |
| TerminalOutput.SplitUTF8 | server/internal/httpapi/terminal.go:281-305 | The backward scan: where to cut, holding at most three bytes. |
| TerminalOutput.Writer.Append | server/internal/httpapi/terminal.go:175-178 | append reuses the carry's array exactly when the chunk fits it. |
| TerminalOutput.Writer.Keep | server/internal/httpapi/terminal.go:179-180 | Copying the tail overwrites the front of the buffer exactly when the array is shared. |
| TerminalOutput.Writer.Write | server/internal/httpapi/terminal.go:172-191 | One chunk: new carry, its array, and the frame actually sent. |
| TerminalOutput.ConservesIffClean | server/internal/httpapi/terminal.go:171-191 | For any chunking the byte counts agree and the carry is the true tail of at most three bytes; the frames are the true front exactly when no write clobbered. |
| TerminalOutput.ClobberedCharacter | server/internal/httpapi/terminal.go:175-187 | Two chunks of valid text after which the browser receives a wrong byte. |
| TerminalOutput.SecondChunkIff | server/internal/httpapi/terminal.go:175-187 | After a first chunk that is held whole, the second is sent as it came exactly when it is longer than the room behind the first or the bytes held of it equal those they overwrite. |
| TerminalOutput.LongChunkIsSafe | server/internal/httpapi/terminal.go:175-187 | A chunk at least as long as the carry's array never clobbers. |
| TerminalOutput.HoldsPartOfChar | server/internal/httpapi/terminal.go:281-305 | What is held of a prefix of valid UTF-8 is exactly the started character. |
| TerminalOutput.HoldIff | server/internal/httpapi/terminal.go:281-305 | Of any bytes, valid or not, what is held is exactly the character started at the end: a leading byte that asks for more than there is, and behind it none that could lead or stand alone. |
| TerminalOutput.FramesAreSent | server/internal/httpapi/terminal.go:172-191 | Over any chunking each write sends one frame, or none exactly when all there is is held or nothing, and no frame is empty. |
| TerminalOutput.FramesAreText | server/internal/httpapi/terminal.go:167-191 | For valid UTF-8 cut anywhere, clean frames are each valid UTF-8 and the carry is a proper prefix of one character. |
| AgentLoop.Loop.WithLeadIn | server/internal/agent/loop.go:57-64 | One developer message right after the first message, none for blank text. |
| AgentLoop.Loop.SettleText | server/internal/agent/loop.go:171-186 | Empty fails, an ungrounded early answer is nudged once, anything else is final. |
| AgentLoop.Loop.PlanAll | server/internal/agent/loop.go:217-251 | The planning pass: each function call blocked, unknown or executed, with the events it traces. |
| AgentLoop.Loop.CommitAll | server/internal/agent/loop.go:253-291 | Replies and done events in model order, whatever order the tools finish in. |
| AgentLoop.Loop.AnswerTools | server/internal/agent/loop.go:193-292 | One whole round as a function of the state and the outcomes. |
| AgentLoop.Loop.CloseOut | server/internal/agent/loop.go:312-338 | One more request without tools; no usable text means the model kept calling tools. |
| AgentLoop.Loop.Gather | server/internal/agent/loop.go:106-128 | The step loop equals its recursive description for every model and every tool behaviour. |
| AgentRuns.LeadInKeepsPaired | server/internal/agent/loop.go:55-64 | The lead-in does not separate calls from replies. |
| AgentRuns.RepliesAreBounded | server/internal/agent/loop.go:267-308 | No reply is empty; a tool's output enters the conversation whole or cut at the limit with the marker. |
| AgentRuns.PlanDestutters | server/internal/agent/loop.go:217-251 | A round executes exactly the known calls that differ from the known call before them. |
| AgentRuns.UnknownDoesNotSeparate | server/internal/agent/loop.go:224-243 | A repeat with an unknown tool's call in between is blocked. |
| AgentRuns.AnsweredKeeps | server/internal/agent/loop.go:193-292 | A round keeps every call followed at once by its reply. |
| AgentRuns.RunSafety | server/internal/agent/loop.go:102-128 | Every run: paired and growing requests, executed calls without adjacent repeats, at most maxStep requests plus one, a nudge only as the first step, giving up only after a last step that ran tools, no empty answer. |
| AgentAnswers.RunExplained | server/internal/agent/loop.go:106-166 | Every run, told by its requests and the model's replies to them: it answers exactly with the trimmed text of the last reply, if that is not blank, called no tools and was not sent back for grounding, or was the one without tools; and each way to fail comes exactly from its own cause. |
| Text.TrimSpaceIs | server/internal/agent/loop.go:116-118 | Trimming an answer removes white space at both ends, all of it and nothing else. |
| AgentAnswers.RequestsFollow | server/internal/agent/loop.go:106-214 | Every request is the one before it and what the reply to that added: its calls with their replies, or its text and the nudge, and at last the call for an answer; the first is the conversation itself. |
| AgentAnswers.PlannedAre | server/internal/agent/loop.go:217-251 | A round echoes and plans exactly the function calls of a reply, in order and under their own ids, names and arguments; it runs those of known tools that differ from the call run last, and blocks the repeats. |
| AgentAnswers.ReplyReads | server/internal/agent/loop.go:253-308 | What the model reads back of each planned call: that it repeats, that the tool is unknown, or the output or error, whole up to 8192 characters and cut there with the marker beyond. |
| AgentTurn.Trim | server/internal/agent/turn.go:100-121 | The loops find the start of the longest suffix of turns within both bounds. |
| AgentTurn.BuildHistory | server/internal/agent/turn.go:99-160 | Exactly that suffix is rendered. |
| AgentTurn.AppendTurn | server/internal/agent/turn.go:123-158 | What one turn contributes: prompt, usable steps and answer, or nothing. |
| AgentTurn.LongestIsUnique | server/internal/agent/turn.go:100-121 | There is one such start. |
| AgentTurn.LaterStartsFit | server/internal/agent/turn.go:100-121 | Every later start fits too, so the kept window is maximal. |
| AgentTurn.KeptIff | server/internal/agent/turn.go:100-121 | A turn is kept exactly when, with all later ones, it is within both bounds: on the number of turns, and on the bytes of all their prompts, answers, outputs and errors joined. |
| AgentTurn.BytesOfText | server/internal/agent/turn.go:104-110 | A character counts one byte, and one more from each of the codes 0x80, 0x800 and 0x10000 on. |
| AgentTurn.ParseToolSteps | server/internal/agent/agent.go:178-199 | Drops the steps without a tool name, keeping order. |
| AgentTurn.ReplayCalls | server/internal/agent/loop.go:379-410 | One round becomes a message with calls and one reply each, numbered on from the counter; nothing if no step is named. |
| AgentTurn.AssembleMessages | server/internal/agent/loop.go:350-374 | System prompt, rebuilt history, prompt, with one counter over all rounds. |
| AgentTurn.CallIdInjective | server/internal/agent/loop.go:390-391 | Different numbers give different call ids. |
| AgentTurn.LaidOutTranscript | server/internal/agent/loop.go:350-410 | Read back, the laid-out history says exactly the replayable steps in order, numbered from zero. |
| AgentTurn.AssembledIsPaired | server/internal/agent/loop.go:350-374 | For any history the request pairs calls and replies between the system prompt and the prompt. |
| AgentTurn.TurnStartsWith | server/internal/agent/loop.go:55-64 | A turn starts from the system prompt, the lead-in unless it is blank, the laid-out history and the prompt, in that order. |
| AgentTurn.RebuiltTranscript | server/internal/agent/turn.go:94-160 | From any turns and bounds the model reads the usable steps of the longest fitting suffix, each under its own id with its own result. |
| AgentTurn.RebuiltCalls | server/internal/agent/turn.go:94-160 | One by one: the calls it reads are those of the kept turns that did not fail and do not wait for this prompt's answer, in order, if they have a name and something to show, each with its error, its output, or a mark for none. |
| AgentTurn.RebuiltDialogue | server/internal/agent/turn.go:94-160 | From any turns and bounds the conversation says the prompts and answers of that suffix in order, failed answers left out, and the prompt last. |
| AgentTurn.StartIsPrefix | server/internal/agent/loop.go:106-128 | A run only appends to the conversation it started from. |
| AgentTurn.TurnIsSafe | server/internal/agent/loop.go:24-45 | A whole turn from any history, with or without a lead-in: all requests paired and on top of it, no adjacent repeats. |
| AgentTranscript.RoundCollector.Add | server/internal/agent/turn.go:36-63 | One trace event folded into the rounds and the queue of open steps. |
| AgentTranscript.RoundCollected | server/internal/agent/turn.go:36-63 | A round's events become one entry whose k-th step is the k-th started call with the k-th done event's result, nothing left open. |
| AgentTranscript.AttributedIff | server/internal/agent/turn.go:42-62 | A round shows every started call with its own result if and only if no call is blocked after the first one that runs. |
| AgentTranscript.OwnResultShown | server/internal/agent/turn.go:42-62 | Then the k-th step carries the name, arguments and result of the call at its own position: the notice of a blocked one, the error of one that failed, the output of any other. |
| AgentTranscript.RunShownAsBlocked | server/internal/agent/turn.go:42-62 | Otherwise some call that ran is shown as blocked, without its output. |
| AgentTranscript.SameCallsIff | server/internal/agent/turn.go:42-62 | Every step shows the result of some call of its own tool and arguments exactly when no call is blocked after the second one that runs. |
| AgentTranscript.RepeatIsMisattributed | server/internal/agent/loop.go:225-237 | Two different calls and then the second again are shown with results swapped. |
| AgentTranscript.TranscriptOfRun | server/internal/agent/turn.go:36-66 | Over any run the transcript is exactly one entry per round, each with the thought and the steps of its round as shown, and nothing left open. |
| ObsStore.Store.NextSeq | server/internal/obs/store.go:249-250 | The next sequence number. |
| ObsStore.Store.Enqueue | server/internal/obs/store.go:253-257 | A full queue drops and counts, otherwise the line is queued. |
| ObsStore.Store.Drain | server/internal/obs/store.go:136-149 | The queue is emptied into a batch, before the write lock is taken. |
| ObsStore.Store.FlushBuffer | server/internal/obs/store.go:173 | The write buffer reaches the file, or as many whole lines and half a line as the disk takes; the rest is lost and the error stays. |
| ObsStore.Store.WriteBuffered | server/internal/obs/store.go:158-164 | A line goes into the buffer, or forces a flush of it, or past it straight to the file; an error is counted. |
| ObsStore.Store.WriteLine | server/internal/obs/store.go:152-164 | One round of the loop: open if need be, write through the buffer, count a failure. |
| ObsStore.Store.WriteBatch | server/internal/obs/store.go:150-178 | The loop over a drained batch, the flush whose error is ignored, and rotation past the cap. |
| ObsStore.Store.ScanFile | server/internal/obs/store.go:317-330 | The lines of a file up to the first piece longer than the scanner's buffer, and one short of its newline if the file ends with it. |
| ObsStore.Store.Restart | server/internal/obs/store.go:262-299 | What was in memory is gone, and the counter resumes from the greatest number a scan finds. |
| ObsStore.Store.Read | server/internal/obs/store.go:305-365 | Drain and write, then the page of the matching entries that a scan of the two files finds, while other flushers may hold batches. |
| ObsRuns.FilesHoldNewest | server/internal/obs/store.go:136-299 | After any run with failures, torn lines and restarts the two files hold a suffix of the lines written, all of them unless more than the cap is kept or lines were lost, and the lines a scan finds have distinct positive numbers. |
| ObsRuns.HeldAreDistinct | server/internal/obs/store.go:249-299 | If every restart of a run resumes above all numbers in the files, all lines in them, found or not, have distinct numbers. |
| ObsRuns.DropsExactIff | server/internal/obs/store.go:60-61 | Over any run the drop counter never exceeds the lines handed in since the process started less those queued, drained or written, and equals it if and only if no flush of the buffer left a line behind and none was written behind half a line. |
| ObsRuns.UncountedLine | server/internal/obs/store.go:158-174 | A line that fits the buffer, on a disk that refuses the flush, is neither in the file nor queued nor counted. |
| ObsFair.DroppedIffFull | server/internal/obs/store.go:253-257 | Over every run a line handed in is dropped exactly when 1024 are queued, of which there are never more, and otherwise joins the end of the queue. |
| ObsFair.FairRunWritesAll | server/internal/obs/store.go:136-178 | On a disk without failures, restarts or not, what is written is every batch in the order in which they land, and no accepted line is lost. |
| ObsFair.FairLandRotatesIff | server/internal/obs/store.go:150-178 | And each batch goes whole behind what stands in the active file, which becomes the older one exactly when that comes to more than four mebibytes. |
| ObsFair.FlushesAreFull | server/internal/obs/store.go:158-164 | On any disk, a flush that a line forces writes 65536 bytes, and the line stays in the buffer with the rest exactly if the rest fits it. |
| ObsFair.FilledThroughout | server/internal/obs/store.go:150-178 | After any run and any part of a batch the buffer holds its lines less what is in the file already of the first, and at most 65536 bytes. |
| ObsFair.RefusedBatchRotatesNothing | server/internal/obs/store.go:150-178 | On any disk, a batch of which every line is counted as dropped rotates nothing. |
| ObsFair.BatchesHoldLines | server/internal/obs/store.go:136-149 | Over every run, no batch that a flusher holds is empty. |
| ObsTails.CursorsSeeEverything | server/internal/obs/store.go:301-365 | After any run, paging back from the tail collects every matching entry that a scan finds once in order, and paging on from a positive cursor every one above it. |
| ObsTails.PagesHoldAllIff | server/internal/obs/store.go:301-365 | After any run, paging back from the tail collects every line in the two files, each once, if and only if no line stands at or behind a piece longer than a mebibyte. |
| ObsTails.FairRunFindsAllIff | server/internal/obs/store.go:310-330 | Over runs on a disk that takes what it is given, every line in the files is found if and only if none of them is longer than a mebibyte. |
| ObsTails.RestartSafeIff | server/internal/obs/store.go:262-299 | After a restart no number in the files is ever handed out again before the next one, if and only if no line carries a number above all that a scan finds. |
| ObsTails.NothingHiddenIsSafe | server/internal/obs/store.go:262-299 | A restart is safe whenever no line stands at or behind a piece longer than a mebibyte. |
| ObsTails.LongLineHides | server/internal/obs/store.go:281-299 | A line longer than a mebibyte and one behind it stand in the file and are not found, and after a restart the long line's number is handed out again. |
| ObsTails.CutLineIsFoundUntilNext | server/internal/obs/store.go:158-178 | A line whose newline alone missed the disk is found until the next line is written, which runs into it; then neither is. |
| ObsTails.LateLineIsMissed | server/internal/obs/store.go:249-257 | A line numbered earlier but queued later is in the file and no poll past the other one returns it. |
| ObsTails.HeldLineIsMissed | server/internal/obs/store.go:136-153 | A line drained by one flusher and written after another's is in the file and no poll past the other one returns it. |
| ObsTails.TailMissesNothingIff | server/internal/obs/store.go:301-304 | Over any run, a tail that reads everything at some point and polls on later gets every new line, if and only if lines arrive in the order of their numbers. |
| ObsRead.FirstAbove | server/internal/obs/store.go:347-357 | The early-stopping scan gives the first limit entries above the cursor. |
| ObsRead.Read | server/internal/obs/store.go:310-364 | Filter, order, cut and cursors. |
| ObsRead.OrderedListing | server/internal/obs/store.go:317-335 | The listing holds the matching entries once each, ascending. |
| ObsRead.PageIsAdjacent | server/internal/obs/store.go:336-360 | A page holds 200 entries, or as many up to 1000 as were asked for, unless it reaches the end, and is the newest before, or the oldest after, the cursor, or the newest of all without one: nothing between is skipped. |
| ObsRead.ForwardSeesAllAbove | server/internal/obs/store.go:347-357 | Following `after` from a positive cursor yields every entry above it once in order, for any limit. |
| ObsRead.BackwardSeesAll | server/internal/obs/store.go:336-346 | Following `before` from the tail yields the whole listing. |
| ObsRead.ForwardFromZero | server/internal/obs/store.go:347-360 | Starting at zero yields the newest page, which is everything exactly if it fits. |
| ObsRead.PollSeesExactlyNewIff | server/internal/obs/store.go:301-304 | A poll of a grown log returns exactly the new entries if and only if all are numbered above what was seen. |
| LoginLimiter.Service.LimitedNow | server/internal/auth/auth.go:143-159 | Compaction in place keeps the records in the window, and counts them. |
| LoginLimiter.Service.ClearSource | server/internal/auth/auth.go:161-169 | Compaction in place keeps the other sources' records. |
| LoginLimiter.Service.Record | server/internal/auth/auth.go:123-126 | A failure is appended. |
| LoginLimiter.Service.Login | server/internal/auth/auth.go:117-141 | Limit, verify, charge or clear, as one transition. |
| LoginLimiter.LimiterHolds | server/internal/auth/auth.go:117-169 | Over any run at most 50 records, and no eleven failures charged to a source since its last success within fifteen minutes. |
| LoginLimiter.RefusedIff | server/internal/auth/auth.go:117-169 | A try is refused exactly when ten of its source's charges since its last success, or fifty of all sources' charges each since that source's last success, are in the window. |
| LoginLimiter.LoginReply | server/internal/auth/auth.go:117-169 | Over every run, a try that is not refused is granted exactly with good credentials; a grant leaves no record of its source, only a bad try adds one, and every other record stays exactly while it is younger than fifteen minutes. |
| LoginLimiter.RecentIs | server/internal/auth/auth.go:143-159 | Compaction keeps exactly the records younger than fifteen minutes, each as often as it was there. |

## Left out

- HTTP routing, WebSocket frames, cookies, JSON shapes and configuration: plumbing over the parts above.
- Docker, tmux, git, ssh and language-model calls: their results are parameters.
- AES-GCM, HKDF, SHA-256, Argon2 and JWT internals: ideal cipher, injective hash, a boolean password check.
- SyncFrames.FrameWriter.Write: a connection that has failed is taken to fail from then on.
- SyncManifest.Normalize: leaves out the check of the type field and the length of the hash text.
- SyncManifest.ValidPathStaysInside: is about path text; links on disk as parent directories are not followed in the model.
- SyncBackup.ApplyLocal: leaves out umask, the permission bits of links, empty directories left behind, process crashes and edits by others meanwhile.
- SyncReceive.Receive: leaves out PruneBackups (the archive just written is kept) and the path of the archive.
- SyncSend.UploadFiles: what the Docker daemon does at a path with a populated directory or below a file is taken to be a failure; the theorems are about plans with room at every path.
- SyncSend.Send: leaves out PruneBackups, hard links in the container's tar, and the session checks before the transfer, which are in SyncCodes.
- SyncRollback.SendRollsBackIff: is about rollbacks that meet no new fault; of the others SyncRollback.SendUnderFaults says what they keep, not where they stop.
- SyncCodes.CodeStore.Generate: takes the drawn code as a parameter; its alphabet and NormalizeCode are not modelled.
- PreviewManager.Manager.Sweep: the ticker goroutine that calls it is not modelled.
- CodemapGlob.FindFiles: leaves out the checks of the pattern's own text and the cut of the printed list at 100 names.
- CodemapGlob.CompiledMeansGlob: takes patterns as characters; a pattern that is not valid UTF-8, which the source splits into bytes, is not covered.
- CodemapHydrate.HydrateRefs: takes the path check as a parameter; path normalisation, the cap on function names and the drop events are left out.
- TerminalOutput.Writer.Write: a failed WebSocket write is not modelled.
- AgentLoop.Loop.Gather: retries inside one completion call, lineage records and the final formatting call are left out; the default of eight steps is the caller's.
- AgentTranscript.SameCallsIff: is stated for tool names without NUL, so that a key determines tool and arguments; a provider's function names hold letters, digits, underscores and dashes.
- AgentTurn.AssembleMessages: takes history entries already decoded; ids are unique among replayed calls, and nothing keeps a model from choosing "call_0" for a live one.
- ObsStore.Store.WriteBatch: one project's files; a failed rename, fsync, DeleteProject and Errors are not modelled.
- ObsRead.Read: the match on level, source, type, trace and text is one predicate parameter.
- LoginLimiter.Service.Login: password and email verification is one boolean.
- Goroutine scheduling: critical sections are atomic steps, and concurrent tool runs are outcomes by position.
- SanitizeName collisions between projects, framebuffer scaling, session naming and everything under web/: they would only add easy members.
