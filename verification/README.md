# or3-intern: a verified model of its stateful cores

This project models, in Dafny, the parts of the `or3-intern` command that keep state across failures or
carry real algorithms, and proves what they promise. `dafny verify dfyconfig.toml` checks all of it.

## What is modelled

**OR3 Connect** (`Connect*.dfy`). Enrolling a machine is a state machine whose record, runtime-configuration
backup, tunnel artifacts, OR3 configuration, runtime files, service, credential and cloud enrollment live on a
`Host`. Every effect asks the environment for its fate: it may succeed, fail with or without having taken
place, or kill the process before or after it takes place. Once the process is dead every further effect of the
command does nothing, so what a method guarantees for every script of fates it guarantees wherever the process
dies inside it. `Host.Valid` is the invariant of the durable state; `Run` proves it over any sequence of
commands. Effects that an actor outside Connect makes (a user editing a runtime file) are not part of a run.

- `ConnectState`: the record, the backup, and the three invariants: undo is held (`Undoable`), stages are backed
  by effects that succeeded (`Justified`), undo flags are true (`FlagsHold`).
- `ConnectService`: applying and restoring the three service settings.
- `ConnectHost`: effects and the operations of `internal/connect`.
- `ConnectLifecycle`: the stage loop that finishes a setup. `ConnectLocal`: local enrollments.
- `ConnectRuntime`: editing and restoring a runtime's files, the three-part cleanup, and cleanups again and again.
- `ConnectCommands`: the commands, and whole runs of them.

**Runtime configuration edits**. `HermesEnv` works on the lines of the environment file, `OpenClawConfig` on the
JSON tree.

**OpenClaw migration**. `Utf8` (decoding as in section 4 of RFC 3629, on bytes) and `Chunks` (the byte-budgeted
chunker), `FileWrites` (multi-file write with undo), `ImportedMemory` (transactional replacement of tagged notes
with a vector index beside them).

**Service guards**. `AuthFailures`, `NonceGuard`, `RateLimiter`: each keeps a ghost log of its calls, and its map
is related to that log.

**Codecs and search**. `LiveRunEvents` (the server-sent-event printers and the evidence reader; the JSON codec is
a pair of functions, of which a stream asks only that they code the payloads it carries), `SettingsCodecs` (string
maps, identity links, model references), `FileSearch` (bounded breadth-first search of a finite tree).

`GoStrings`, `Sequences`, `Maps` and `Wrappers` hold what several modules need.

## What the code does not keep

Each of these is proved, with the exact condition where there is one.

- A local teardown, rollback or uninstall removes an orphaned runtime backup without restoring it. After a
  completed one an undo is lost exactly if one was before, or there was a backup and a runtime file still differed
  from its original (`ConnectLocal.RollBackSetup`, `ConnectLocal.Disconnect`, `ConnectCommands.UninstallLocal`;
  `ConnectCommands.LocalTeardownLosesTheUndo` runs into it from a fresh machine). Runs of runtime commands alone
  never lose one (`ConnectCommands.Run`).
- A runtime setup keeps its own copy of the record while finishing, so a cleanup after a failed public
  verification does not know of the service: a cleanup that removes the record leaves the service exactly if it
  was present and the caller's copy says it is not installed (`ConnectRuntime.Cleanup`).
  The cleanups of a setup's public verification always find it present (`ConnectCommands.VerifyPublicly`); from a
  fresh machine, a setup untroubled but for that verification ends with the service and no record
  (`ConnectCommands.FailedVerificationLeavesTheService`).
- Removing a record deletes its tunnel artifacts first. A removal cut after more than an unused token has gone
  leaves a frozen record, which no operation can update, and a process that dies there leaves one
  (`ConnectHost.Host.RemoveState`, `ConnectState.CutRemovalFreezesTheRecord`). From then on no resume and no cleanup
  changes it or gets further; it stays until a teardown that needs no update removes it: a local uninstall, or
  for a local record any teardown (`ConnectCommands.Run`, `ConnectCommands.RunFrozen`).
- With a legacy token tunnel an untroubled first setup, local or of a runtime, succeeds exactly if the complete
  configuration and credentials of an earlier local tunnel happen to be there: the copy of the record its first
  update writes names no tunnel (`ConnectCommands.SetUpLocally`, `ConnectCommands.SetUpRuntime`).
- A local uninstall of a runtime connection records nothing, so one that is interrupted after it deleted the
  backup can be finished neither by itself nor by a cleanup (`ConnectCommands.UninstallRuntimeLocally`).
- A token that has passed and is the next one presented passes again exactly at the end of its five minutes
  (`NonceGuard.ReplayAtTheLastInstant`).
- Chunks may exceed the byte limit, because the room for bodies is measured under the longest title only. Every
  list of at most 999 bodies within the room makes chunks within the limit exactly if that header leaves room and
  none of the five shorter titles gets a longer header (`Chunks.ChunksFitExactly`); `Chunks.ChunksOverflow` gives
  two files whose one chunk is too long.
- An authentication block ends with its ten-minute window even if its back-off was to last longer
  (`AuthFailures.Tracker.RetryAfter`: only an open window blocks; `AuthFailures.BlockEndsWithItsWindow`: a block of a
  second that lasts a nanosecond).
- The evidence reader dispatches an event that no blank line ends, against section 9.2 of the WHATWG HTML Living
  Standard, exactly when data is pending and what follows the last newline is blank (`LiveRunEvents.EndDispatches`).
- An event whose name runs over several lines is read back as printed exactly if none of them carries data: the
  printer does not look at the name (`LiveRunEvents.NameMustBeQuiet`).
- Editing the OpenClaw configuration twice is editing it once exactly for an origin that is trimmed and not `*`
  (`OpenClawConfig.SettlesExactly`).

## Model

| member | source | states |
|---|---|---|
| ConnectService.RestoreIsThreeWayMerge | cmd/or3-intern/connect_cmd.go:1320-1348 | Restoring returns each service setting to its previous value whether or not Connect's write took effect, keeps a setting changed to a third value, touches nothing else, and is idempotent. |
| ConnectService.ApplyRefusesThirdValues | cmd/or3-intern/connect_cmd.go:480-509 | Applying is refused exactly when some setting has neither its previous nor its applied value; otherwise it changes only the settings, is idempotent, and restore undoes it. |
| ConnectState.CutRemovalFreezesTheRecord | internal/connect/state.go:135-188 | After a removal cut anywhere the record can still be updated only if nothing has gone, or only a token it does not use; and what could not be updated before no removal makes updatable. |
| ConnectState.RestoreGivesBackPristine | cmd/or3-intern/connect_runtime.go:1378-1390 | If the backup holds the originals of everything that differs, restoring source and configuration gives every body, mode and absence back. |
| ConnectState.TrackedWriteIsUndoable | cmd/or3-intern/connect_runtime.go:1223-1268 | A write to a file the backup tracks leaves every difference from the originals held by the backup. |
| ConnectState.UndoableWithoutBackup | cmd/or3-intern/connect_runtime.go:1360-1376 | Without a backup the undo invariant says exactly that no runtime file differs. |
| ConnectHost.Host.UpdateState | internal/connect/state.go:135-159 | An update writes the given record, its tunnel reference recovered, or nothing; it is refused without the tunnel artifacts; the durable invariants are kept wherever it is cut. |
| ConnectHost.Host.SaveState | internal/connect/state.go:65-122 | The first save writes the tunnel artifacts before the record, so a saved record has its artifacts. |
| ConnectHost.Host.RemoveState | internal/connect/state.go:173-188 | Removal deletes artifacts, backup and record in this order, and loses an undo exactly if it deletes a backup while some runtime file differs; cut after more than an unused token it leaves a frozen record, and a frozen record it leaves stays frozen. |
| ConnectHost.Host.UninstallService | cmd/or3-intern/connect_runtime.go:1415-1424 | A living process tries to stop the service, and reported success means it is gone; a dead one tries nothing. |
| ConnectHost.Host.Revoke | cmd/or3-intern/connect_runtime.go:1443-1446 | A living process tries to revoke the enrollment, and reported success means it is gone; a dead one tries nothing. |
| ConnectLifecycle.NextStageIsJustified | cmd/or3-intern/connect_cmd.go:370-444 | Once a stage's effect has succeeded the next stage may be recorded. |
| ConnectLifecycle.StageEffect | cmd/or3-intern/connect_cmd.go:378-432 | The effect of a stage: what is learned from its success, and that a successful install leaves the service present. |
| ConnectLifecycle.FinishStage | cmd/or3-intern/connect_cmd.go:378-444 | One stage either records exactly the next stage or leaves the record; an untroubled one succeeds exactly if the record can be updated. |
| ConnectLifecycle.Pass | cmd/or3-intern/connect_cmd.go:378-444 | A pass brings the setup one stage nearer to online in the record, or leaves a record on the way to the same goal. |
| ConnectLifecycle.Finish | cmd/or3-intern/connect_cmd.go:370-444 | The stage loop ends, keeps the invariants however it is cut, changes nothing of the record but stage and installed flag, and untroubled ends online exactly from a finishable stage whose record can be updated. |
| ConnectLocal.ApplyAuthorizedConfig | cmd/or3-intern/connect_cmd.go:480-497 | The configuration file holds the applied settings or is unchanged; success means applied; untroubled it succeeds exactly if not refused. |
| ConnectLocal.EnterLocally | cmd/or3-intern/connect_cmd.go:271-282 | Success means credential registered and settings in force, the two facts behind the local stage; untroubled it succeeds exactly if the settings are not refused. |
| ConnectLocal.RevokeAndForget | cmd/or3-intern/connect_cmd.go:537-546 | Success means credential and enrollment gone and the record removed; an undo is lost exactly if an orphaned backup was needed. |
| ConnectLocal.RollBackSetup | cmd/or3-intern/connect_cmd.go:517-547 | A completed rollback has put the previous settings back, undone credential and enrollment and removed the record; and exactly when it has lost a runtime undo. |
| ConnectLocal.RestoreServiceConfig | cmd/or3-intern/connect_cmd.go:1320-1348 | The file is restored by the three-way merge or unchanged; success means restored. |
| ConnectLocal.RevokeAndRestore | cmd/or3-intern/connect_cmd.go:1279-1289 | Success means enrollment and credential gone and settings restored. |
| ConnectLocal.Disconnect | cmd/or3-intern/connect_cmd.go:1271-1294 | Success means service, enrollment, credential and record gone and settings restored, and exactly when a runtime undo was lost with them; a frozen record is removed or stays as it is. |
| ConnectLocal.Resume | cmd/or3-intern/connect_cmd.go:336-349 | A resume keeps the connection it resumes; untroubled it ends in the online record exactly from the resumable records; from the first stage success also means credential, settings and service; a frozen record is never resumed or changed. |
| ConnectLocal.EnterAndRecord | cmd/or3-intern/connect_cmd.go:337-348 | The local stage is recorded exactly after credential and settings, for the connection that was saved. |
| ConnectRuntime.WriteRuntimeFile | cmd/or3-intern/connect_runtime.go:1198-1206 | A runtime file is written or removed whole or not at all, and only under a backup that tracks it, which keeps the undo invariant. |
| ConnectRuntime.CaptureBackup | cmd/or3-intern/connect_runtime.go:1223-1268 | The first snapshot wins; a new one is the file as it is, which is its original; a backup of another runtime or path is refused. |
| ConnectRuntime.RestoreBackup | cmd/or3-intern/connect_runtime.go:1378-1390 | A completed restore leaves every runtime file as before Connect, from any state in between. |
| ConnectRuntime.RollBackPreparation | cmd/or3-intern/connect_runtime.go:1392-1400 | A completed rollback restores every file and then removes the backup, never before. |
| ConnectRuntime.Prepare | cmd/or3-intern/connect_runtime.go:473-681 | A preparation keeps the undo invariant however it fails, succeeds only with its backup on disk and its edit in place, and untroubled succeeds exactly if no other backup is in the way; a process dying after the edit leaves edit and backup. |
| ConnectRuntime.EditConfig | cmd/or3-intern/connect_runtime.go:570-590 | The configuration file is the edited one or as it was, nothing else changes, and success means edited. |
| ConnectRuntime.RecordSource | cmd/or3-intern/connect_runtime.go:1281-1320 | The source joins the backup, once, while it still is the original; the configuration part of the backup does not change. |
| ConnectRuntime.PatchSource | cmd/or3-intern/runtime_verify.go:485-546 | The source is patched, under its own mode, only with its original in the backup; nothing else changes; the invariant holds wherever this is cut. |
| ConnectRuntime.RecordProgress | cmd/or3-intern/connect_runtime.go:1412-1414 | A checkpoint of a cleanup forgets no undo recorded on disk, makes none up, and stores the copy it is given exactly if the record can be updated and the write succeeds. |
| ConnectRuntime.CleanService | cmd/or3-intern/connect_runtime.go:1415-1424 | A living process tries to stop the service exactly if the record says installed; a stop is recorded only if the service is gone, and no undo recorded on disk is forgotten. |
| ConnectRuntime.CleanRuntime | cmd/or3-intern/connect_runtime.go:1425-1442 | A living process tries the restore exactly if not recorded, is refused without this runtime's backup, and records it only if completed; no undo recorded on disk is forgotten. |
| ConnectRuntime.CleanCloud | cmd/or3-intern/connect_runtime.go:1443-1452 | A living process tries the revocation exactly if not recorded, and records it only if it succeeded; no undo recorded on disk is forgotten. |
| ConnectRuntime.UndoLocally | cmd/or3-intern/connect_runtime.go:1415-1442 | Service and runtime are undone independently, in order, by as much as the process lives to try. |
| ConnectRuntime.UndoAll | cmd/or3-intern/connect_runtime.go:1415-1452 | Each of the three undos is tried whatever became of the others, in order, unless the process dies on the way; none that the record claims is repeated; clean means all three hold. |
| ConnectRuntime.UndoFromCheckpoint | cmd/or3-intern/connect_runtime.go:1409-1452 | Behind the cleanup checkpoint all three undos are tried while the process lives; untroubled it is clean exactly if the record can be updated and the backup is at hand or not needed. |
| ConnectRuntime.Cleanup | cmd/or3-intern/connect_runtime.go:1409-1460 | The record is removed only when enrollment, files and known service are undone; flags stay true, undos recorded on disk stay recorded, and artifacts and backup stay until all three are; a cleanup that lives tries exactly what the record does not claim, one that dies a first part of it; a service is left exactly if the caller's copy does not know of it; untroubled it finishes exactly if it can; a record that cannot be updated is not touched. |
| ConnectRuntime.RemoveUndone | cmd/or3-intern/connect_runtime.go:1457-1460 | Removing a record that claims all three undos loses none: enrollment and files are as it says. |
| ConnectRuntime.TriesOnlyUnclaimed | cmd/or3-intern/connect_runtime.go:1415-1452 | Whatever a cleanup tries, dying or not, is an undo its record does not claim. |
| ConnectRuntime.RetryOnce | cmd/or3-intern/connect_runtime.go:1409-1460 | One retry, cut anywhere, from a saved record that tells of the service: what RetryCleanup states of many. |
| ConnectRuntime.RetryCleanup | cmd/or3-intern/connect_runtime.go:1409-1460 | Across any number of retries, each cut anywhere and with any effects failing: the record is removed only with service, enrollment and files undone; while it stays its flags are true and it tells of the service; no undo recorded on disk, at the start or at any later moment taken as the start, is tried again; whether the cleanup can be finished does not change until only the record is left. |
| ConnectRuntime.FinishCleanup | cmd/or3-intern/connect_runtime.go:1409-1460 | One untroubled retry finishes exactly if the record can be updated and the restore is recorded or its backup there. |
| ConnectRuntime.RetryThenFinish | cmd/or3-intern/connect_runtime.go:1409-1460 | After any number of cut retries one untroubled retry finishes only if the first could have been, and then it does, or all is undone but the removal of a frozen record. |
| ConnectCommands.Authorize | cmd/or3-intern/connect_cmd.go:187-270 | An authorized local setup is enrolled and has a saved record with its tunnel; a failure is rolled back as far as it can be. |
| ConnectCommands.EnterOrRollBack | cmd/or3-intern/connect_cmd.go:271-282 | Success means credential and settings and changes nothing else; a failure never leaves a third version of the settings. |
| ConnectCommands.FinishLocally | cmd/or3-intern/connect_cmd.go:283-292 | The record moves on only for the same connection; success means the local stage, or online with the service unless terminal-only; untroubled it succeeds exactly if the record can be updated. |
| ConnectCommands.SetUpLocally | cmd/or3-intern/connect_cmd.go:171-293 | However a first setup is cut, a record it leaves is on the way to the one goal and only the service settings of the configuration may have changed; success means enrolled, credential, settings, and service and online record unless terminal-only; untroubled it succeeds exactly with a local credential, or with a legacy token beside the complete artifacts of an earlier local tunnel. |
| ConnectCommands.AuthorizeRuntime | cmd/or3-intern/connect_runtime.go:109-199 | A runtime enrollment is saved as a cleanup checkpoint under its backup before the credential is used, no undo is lost, and untroubled it succeeds exactly with a tunnel credential. |
| ConnectCommands.EnrollRuntime | cmd/or3-intern/connect_runtime.go:142-199 | The sign-in and the checkpoint; a failure rolls the preparation back without losing an undo. |
| ConnectCommands.ConfigureRuntime | cmd/or3-intern/connect_runtime.go:200-221 | Success means the file with the credential is in place and verified locally, the two facts behind the local stage of a runtime. |
| ConnectCommands.RecordConfigured | cmd/or3-intern/connect_runtime.go:200-228 | The local stage is recorded only after both facts; untroubled exactly if the record can be updated. |
| ConnectCommands.VerifyWithRecovery | cmd/or3-intern/runtime_verify.go:70-86 | Verification with the source patch keeps the enrollment, the configuration file and the undo invariant. |
| ConnectCommands.VerifyInTerminal | cmd/or3-intern/connect_cmd.go:1147-1167 | Verifying again and again in the terminal keeps the enrollment, the configuration file and the undo invariant. |
| ConnectCommands.VerifyPublicly | cmd/or3-intern/connect_runtime.go:257-288 | Success changes no record; whatever else public verification does, the service stays: its cleanup works from a copy of the record that does not know of it. |
| ConnectCommands.CompleteRuntime | cmd/or3-intern/connect_runtime.go:200-288 | From the saved checkpoint on: connected means configured with the credential and recorded, and online with the service unless terminal-only; untroubled it connects exactly if the record can be updated; no undo is lost. |
| ConnectCommands.SetUpRuntime | cmd/or3-intern/connect_runtime.go:80-289 | A runtime setup keeps the invariants however it is cut and loses no undo; connected means enrolled, configured with the credential, and online with the service unless terminal-only; untroubled, with no other backup in the way, it connects exactly under the same condition as a local setup succeeds; a cleanup after the installation leaves the service. |
| ConnectCommands.ResumeRuntime | cmd/or3-intern/connect_cmd.go:308-335 | Success means the same record online; only a record to be cleaned up is ever removed, and a frozen one never changed; untroubled a stage is finished exactly if the record can be updated, and a cleanup that can finish does; no undo is lost. |
| ConnectCommands.FinishRuntime | cmd/or3-intern/connect_cmd.go:316-334 | Success means the same record online with the service; untroubled exactly if the record can be updated. |
| ConnectCommands.VerifyOrDemote | cmd/or3-intern/connect_cmd.go:320-334 | A failed verification changes nothing but to demote the record; a passed one changes nothing. |
| ConnectCommands.PrepareRuntime | cmd/or3-intern/connect_runtime.go:120-138 | A preparation tried again and again succeeds only with its backup on disk and its edit in place. |
| ConnectCommands.Resume | cmd/or3-intern/connect_cmd.go:295-350 | An untroubled resume of a local record ends in the same online record as an uninterrupted setup, and any success means that record; an online, terminal-only or frozen record is left alone. |
| ConnectCommands.RestoreOrphan | cmd/or3-intern/connect_runtime.go:1360-1376 | Restoring an orphaned backup gives every file back and only then removes the backup. |
| ConnectCommands.Disconnect | cmd/or3-intern/connect_cmd.go:1248-1295 | A disconnect of a runtime, or of nothing, loses no undo and, when complete, has every file back; success means no record and no enrollment; untroubled it succeeds, for a runtime exactly if its cleanup can finish; a frozen record stays as it is, or is removed if it is local. |
| ConnectCommands.UninstallRuntimeLocally | cmd/or3-intern/connect_cmd.go:1472-1488 | Success means service, changes and record gone; untroubled it succeeds exactly if the restore is recorded or this runtime's backup is there. |
| ConnectCommands.UninstallLocal | cmd/or3-intern/connect_cmd.go:1429-1470 | Success means service and record gone, and enrollment and credential too unless only the machine was asked for; and exactly when a runtime undo was lost. |
| ConnectCommands.Uninstall | cmd/or3-intern/connect_cmd.go:1429-1470 | Success means no record, no service that was known, no enrollment unless only the machine was asked for, and for a runtime every file back; exactly when an undo is lost; a frozen record stays as it is or is removed, a runtime's only by a local uninstall. |
| ConnectCommands.ConnectToRuntime | cmd/or3-intern/connect_runtime.go:80-106 | Replacing a connection by another runtime keeps the invariants, loses no undo unless the one replaced was local, and does not get past a frozen runtime record. |
| ConnectCommands.Run | cmd/or3-intern/connect_cmd.go:171-350 | Over any run of commands, each cut anywhere with any effects failing: the recorded stage is backed by effects that succeeded; with no local enrollment involved whatever differs from its original is held by the backup on disk; and a frozen record stays as it is until a command that may remove it without an update. |
| ConnectCommands.RunFrozen | cmd/or3-intern/connect_cmd.go:1248-1488 | A frozen record goes unchanged through any commands, up to one that removes it. |
| ConnectCommands.RunThenRestore | cmd/or3-intern/connect_runtime.go:1223-1400 | After any run of runtime commands one untroubled restore without a record, or one untroubled local uninstall with one, has every runtime file as before Connect. |
| ConnectCommands.SetUpThenResume | cmd/or3-intern/connect_cmd.go:171-444 | A first setup cut anywhere and one untroubled resume end in the record of an uninterrupted setup, unless no record that can be updated was left. |
| ConnectCommands.LocalTeardownLosesTheUndo | cmd/or3-intern/connect_cmd.go:1248-1295 | From a fresh machine: a runtime setup that dies after its first edit, then an untroubled local setup and disconnect, delete the backup and leave the edit. |
| ConnectCommands.FailedVerificationLeavesTheService | cmd/or3-intern/connect_runtime.go:80-289 | From a fresh machine: a runtime setup untroubled up to its public verification, and the cleanup when that fails, leave the service installed and no record of it. |
| ConnectCommands.CompleteUnverified | cmd/or3-intern/connect_runtime.go:200-288 | From any enrolled runtime whose record can be updated: when only the public verification fails, everything is undone but the service. |
| HermesEnv.MergeLines | cmd/or3-intern/connect_runtime.go:1093-1171 | The two loops of the merge give the edited lines, and it is refused exactly for a blank origin. |
| HermesEnv.EditInPlace | cmd/or3-intern/connect_runtime.go:1115-1136 | The first loop edits every line that assigns a managed key, and has seen exactly the managed keys that are assigned. |
| HermesEnv.AppendMissing | cmd/or3-intern/connect_runtime.go:1137-1141 | The second loop appends exactly the managed keys that no line assigns, in the fixed order. |
| HermesEnv.EveryAssignmentIsManaged | cmd/or3-intern/connect_runtime.go:1115-1141 | After an edit every assignment to a managed key, wherever it stands, has the managed value, and every managed key is assigned. |
| HermesEnv.UnmanagedLinesStay | cmd/or3-intern/connect_runtime.go:1115-1141 | All other lines stay, in order and where they were, and nothing unmanaged is appended. |
| HermesEnv.LaterEditWins | cmd/or3-intern/connect_runtime.go:1093-1160 | An edit after an earlier one of the same keys, or of fewer by the credential, is the later edit alone. |
| HermesEnv.TokenMayComeLater | cmd/or3-intern/connect_runtime.go:645-665 | Editing is idempotent, and editing without a token and then with it is editing with it. |
| HermesEnv.LaterTextEditWins | cmd/or3-intern/connect_runtime.go:1098-1156 | On the text of the file too, joined and split again, an edit after an earlier one is the later edit alone. |
| OpenClawConfig.ConfigFile.Update | cmd/or3-intern/connect_runtime.go:1580-1642 | The file changes only if every place is absent or of its type, the bind is loopback, no origin is a wildcard and the write succeeds; then it holds exactly the edited tree. |
| OpenClawConfig.ConfigFile.EditPlugins | cmd/or3-intern/connect_runtime.go:1598-1640 | The plugin part is accepted exactly if its places are absent or of their types and no origin is a wildcard, and is then the edited one. |
| OpenClawConfig.EditSets | cmd/or3-intern/connect_runtime.go:1592-1640 | After an edit the gateway is bound to a loopback address, the plugin is allowed beside those allowed before, and its configuration is the edited one. |
| OpenClawConfig.ConfigSets | cmd/or3-intern/connect_runtime.go:1619-1640 | Earlier origins stay allowed in order, the new one is allowed, and both credentials are set if there are any. |
| OpenClawConfig.ElsewhereNothingChanges | cmd/or3-intern/connect_runtime.go:1580-1642 | At every path neither at, above nor below a managed place the tree holds what it held. |
| OpenClawConfig.LaterEditWins | cmd/or3-intern/connect_runtime.go:550-577 | A second edit is accepted, and both together are one edit with the second token, or the first if the second is blank. |
| OpenClawConfig.SettlesExactly | cmd/or3-intern/connect_runtime.go:1624-1633 | Editing is idempotent exactly for an origin that is trimmed and not a wildcard. |
| Utf8.SpaceFirstIsByCodePoint | cmd/or3-intern/migrate_openclaw.go:786-807 | The encodings taken for whitespace are exactly those of the code points of unicode.IsSpace. |
| Utf8.ValidLast | cmd/or3-intern/migrate_openclaw.go:794-804 | A valid text ends with a whole rune, and decoding its last rune finds it. |
| Utf8.TrimValid | cmd/or3-intern/migrate_openclaw.go:765-784 | Trimming keeps a valid text valid and takes nothing but whitespace. |
| Chunks.LongestWholePrefix | cmd/or3-intern/migrate_openclaw.go:786-793 | The first loop stops at the longest prefix of whole runes within the limit. |
| Chunks.LastBreak | cmd/or3-intern/migrate_openclaw.go:794-807 | The second loop finds the last whitespace rune that ends in the second half, or the end. |
| Chunks.BestChunkCut | cmd/or3-intern/migrate_openclaw.go:786-807 | A cut lies between 1 and the limit; where a whole prefix fits it is the last break of its second half, or its end. |
| Chunks.SplitLongTextByBytes | cmd/or3-intern/migrate_openclaw.go:765-784 | The pieces are within the limit and nonempty; of a valid text with room for a rune they are valid and say the text without its whitespace, in order. |
| Chunks.SplitParagraphs | cmd/or3-intern/migrate_openclaw.go:743-763 | The paragraphs of a valid text are valid and say the text without its whitespace, in order. |
| Chunks.Pack | cmd/or3-intern/migrate_openclaw.go:707-741 | Packing valid paragraphs gives bodies within the limit, none empty, that say what the paragraphs say, in order. |
| Chunks.SplitTextByBytes | cmd/or3-intern/migrate_openclaw.go:699-741 | The bodies are within the limit and nonempty; of a valid text with room for a rune they are valid and say the text without its whitespace, in order. |
| Chunks.HeaderLength | cmd/or3-intern/migrate_openclaw.go:679-697 | When the longest full-path header leaves room, every header of up to 999 parts names the full path, and the headers fit. |
| Chunks.ChunksFit | cmd/or3-intern/migrate_openclaw.go:653-677 | When the headers fit and there are at most 999 bodies within the room, every chunk is within the limit. |
| Chunks.ChunksFitExactly | cmd/or3-intern/migrate_openclaw.go:653-697 | Every list of at most 999 bodies within the body limit makes chunks within the byte limit, exactly if the longest title's header leaves room and no shorter title gets a longer header. |
| Chunks.ChunksOverflow | cmd/or3-intern/migrate_openclaw.go:653-677 | Two files whose one chunk is too long: 34 bytes under a limit of 20, and 71 bytes under a limit of 60. |
| Chunks.Build | cmd/or3-intern/migrate_openclaw.go:653-677 | The chunks of a file: one per body, bodies faithful to the text and bounded, chunks within the limit when the headers fit; a text that fits in one body makes one chunk of it. |
| FileWrites.UndoLeavesStrangersAlone | cmd/or3-intern/migrate_openclaw.go:303-330 | Undoing a log does not touch a file the log does not name. |
| FileWrites.UndoneWrite | cmd/or3-intern/migrate_openclaw.go:312-330 | Undoing one write puts content, mode or absence back and removes its backup, whatever the write left. |
| FileWrites.Disk.NextBackupPath | cmd/or3-intern/migrate_openclaw.go:378-394 | The backup name is the first free one of the numbered names. |
| FileWrites.Disk.Restore | cmd/or3-intern/migrate_openclaw.go:312-330 | If none of its own operations fails, the restore is the undo of the log, last write first. |
| FileWrites.Disk.ApplyOne | cmd/or3-intern/migrate_openclaw.go:331-374 | One plan writes its data and keeps modes and other files, or fails so that undoing gives the start back but for one torn backup at a free name. |
| FileWrites.Disk.Apply | cmd/or3-intern/migrate_openclaw.go:303-376 | On success every last plan for a path is written, other files are as they were, and the log undoes everything, repeated and colliding destinations included; on failure the undo has been run. |
| ImportedMemory.LikeIsPrefix | cmd/or3-intern/migrate_openclaw.go:419-424 | The escaped pattern matches exactly what starts with the tag and a comma, up to letter case. |
| ImportedMemory.PreparedTagsCarry | cmd/or3-intern/migrate_openclaw.go:620-628 | Every prepared note is one the listing selects again. |
| ImportedMemory.ImportIsExact | cmd/or3-intern/migrate_openclaw.go:442-488 | After an import the notes of the scope that carry the tag are exactly the new ones, and every other note is as it was. |
| ImportedMemory.ImportIsRepeatable | cmd/or3-intern/migrate_openclaw.go:442-488 | Importing again gives what importing only the second time would have given. |
| ImportedMemory.Store.ListImported | cmd/or3-intern/migrate_openclaw.go:419-440 | The listed identifiers are exactly those of the notes of the scope that carry the tag. |
| ImportedMemory.Store.Transact | cmd/or3-intern/migrate_openclaw.go:451-482 | The transaction replaces the notes or changes none. |
| ImportedMemory.Store.SyncVectors | cmd/or3-intern/migrate_openclaw.go:500-517 | Success means the index has lost the rows of the replaced notes and holds one for each new note with a well-formed embedding, if there is a table. |
| ImportedMemory.SyncedFollows | cmd/or3-intern/migrate_openclaw.go:500-517 | In the index a sync leaves, no replaced note has a row, and a new note has one, holding its embedding, exactly if that is well formed. |
| ImportedMemory.Store.Replace | cmd/or3-intern/migrate_openclaw.go:442-488 | On an error no note has changed; otherwise the notes are replaced, and without a warning the index follows them. |
| ImportedMemory.Commit | cmd/or3-intern/migrate_openclaw.go:224-240 | Files first, notes second: if either fails no note has changed, and an untroubled restore has put the files back. |
| AuthFailures.RecordedMeans | cmd/or3-intern/service_auth.go:349-360 | Past the fifth failure a block lasts a doubling number of seconds from 1 to 256, so the five-minute cap is never reached. |
| AuthFailures.StateMeans | cmd/or3-intern/service_auth.go:334-363 | By its log alone a key's state is the number and first time of the failures of its open window, and its block starts at the last of them. |
| AuthFailures.BlockNeverShrinks | cmd/or3-intern/service_auth.go:349-360 | Within a window one more failure never shortens the block. |
| AuthFailures.Tracker.Sweep | cmd/or3-intern/service_auth.go:305-311 | Exactly the entries whose window is over are dropped. |
| AuthFailures.Tracker.EvictOldest | cmd/or3-intern/service_auth.go:313-325 | One entry goes, and none had an older window. |
| AuthFailures.Tracker.Record | cmd/or3-intern/service_auth.go:334-363 | In any run the map has at most 4096 entries and agrees with the log on every key that was never evicted; without reaching the bound none is evicted. |
| AuthFailures.Tracker.Clear | cmd/or3-intern/service_auth.go:372-381 | The cleared keys are gone, and map and log still agree. |
| AuthFailures.Tracker.RetryAfter | cmd/or3-intern/service_auth.go:286-303 | Zero means that no key is blocked by its log, anything else is the rounded-up rest of a block by its log, between 1 and 257 seconds. |
| AuthFailures.BlockEndsWithItsWindow | cmd/or3-intern/service_auth.go:291-311 | Six failures whose block is to last a second and ends with the window after a nanosecond. |
| NonceGuard.EvictionIsAccounted | cmd/or3-intern/service_nonce_guard.go:40-50 | Giving up the nonce that expires first keeps every earlier acceptance expired, held, or fairly evicted. |
| NonceGuard.AcceptanceIsAccounted | cmd/or3-intern/service_nonce_guard.go:51-52 | Accepting a nonce that is not held keeps the run safe against replays. |
| NonceGuard.Guard.MakeRoom | cmd/or3-intern/service_nonce_guard.go:40-50 | A guard full of unexpired nonces gives up one, and the run stays safe against replays. |
| NonceGuard.Guard.Accept | cmd/or3-intern/service_nonce_guard.go:22-53 | Over any run the guard stays within its size, and accepts a nonce again before its expiry only if it was evicted while full of unexpired nonces none of which expired earlier. |
| NonceGuard.Validate | cmd/or3-intern/service_auth.go:1148-1197 | A token passes exactly if it is fresh and bound and its nonce is not held unexpired, and is then guarded until issue time plus five minutes. |
| NonceGuard.ReplayAtTheLastInstant | cmd/or3-intern/service_auth.go:1172-1195 | A token that passed and is presented again, at any later time, passes exactly at the end of its five minutes. |
| RateLimiter.SpanIsTwoWindows | cmd/or3-intern/service_middleware.go:159-186 | What a minute-long span allows lies in two adjacent windows. |
| RateLimiter.StaysWithin | cmd/or3-intern/service_middleware.go:164-186 | Logging a call that is allowed only below the limit keeps every window and key within the limit. |
| RateLimiter.Limiter.Allow | cmd/or3-intern/service_middleware.go:151-186 | Over any run the key map has at most 4096 keys and no window allows more than the limit under any key; a counted call is allowed exactly while fewer than the limit were counted before it under actor and address; a call is not counted only without room. |
| RateLimiter.SpanAllowsTwice | cmd/or3-intern/service_middleware.go:151-186 | No minute-long span allows more than twice the limit under any key. |
| LiveRunEvents.JudgeMeans | cmd/or3-intern/runtime_verify.go:288-312 | A stream is verified exactly when a first payload ends the run and content came with it or before it. |
| LiveRunEvents.JudgeUndecided | cmd/or3-intern/runtime_verify.go:288-318 | A stream is undecided exactly when no payload ends the run. |
| LiveRunEvents.ReadEvidence | cmd/or3-intern/runtime_verify.go:279-326 | The reader's loop over lines gives the verdict over the payloads dispatched from the stream. |
| LiveRunEvents.Writer.WriteEvent | cmd/or3-intern/service_middleware.go:574-588 | An event is sent whole, or as much of it as the connection still carries and reported as failed. |
| LiveRunEvents.Writer.WriteComment | cmd/or3-intern/service_middleware.go:590-604 | A comment is sent on one line and never empty, whole, or as much as still fits and reported as failed. |
| LiveRunEvents.PayloadsRecovered | cmd/or3-intern/runtime_verify.go:288-300 | From any printed stream of events that are read back each as printed, heartbeats anywhere, the reader recovers exactly the payloads, in order. |
| LiveRunEvents.NameMustBeQuiet | cmd/or3-intern/service_middleware.go:574-588 | An event is read back as printed exactly when no line of its name carries data. |
| LiveRunEvents.EvidenceIsFound | cmd/or3-intern/runtime_verify.go:279-326 | A printed stream is verified exactly when a first payload ends the run and content came by then. |
| LiveRunEvents.CutYieldsPrefix | cmd/or3-intern/runtime_verify.go:288-322 | A printed stream cut anywhere yields a prefix of the payloads, each whole. |
| LiveRunEvents.CutProvesNoMore | cmd/or3-intern/runtime_verify.go:288-322 | A printed stream cut anywhere is undecided or judged as the whole one is. |
| LiveRunEvents.EndDispatches | cmd/or3-intern/runtime_verify.go:288-322 | The texts dispatched are those closed by blank lines, and one more exactly when data is pending and what follows the last newline is blank. |
| SettingsCodecs.CompactStrings | cmd/or3-intern/configure_tui.go:1677-1686 | The loop drops exactly what is blank and trims the rest, in order. |
| SettingsCodecs.ParseStringMap | cmd/or3-intern/configure_tui.go:1620-1631 | The parser's result, later pairs winning, or its refusal when some item is no pair. |
| SettingsCodecs.FormatStringMap | cmd/or3-intern/configure_tui.go:1604-1618 | The pairs are written by sorted keys, each once, in one text however the map is gone through, and it reads back exactly if the map is clean. |
| SettingsCodecs.KeysAreUnique | cmd/or3-intern/configure_tui.go:1608-1612 | There is one such order, so the text does not depend on how the map is gone through. |
| SettingsCodecs.MapRoundTripsExactly | cmd/or3-intern/configure_tui.go:1604-1631 | A map is read back as written exactly when its keys and values are trimmed, not blank and free of separators. |
| SettingsCodecs.ParsedMapRoundTrips | cmd/or3-intern/configure_tui.go:1604-1631 | Every text that parses as a map is read back the same after it is written. |
| SettingsCodecs.ParseModelRefs | cmd/or3-intern/configure_tui.go:1785-1796 | The parser's references, items that are none being skipped. |
| SettingsCodecs.FormatModelRefs | cmd/or3-intern/configure_tui.go:1774-1783 | The text written for the complete references reads back exactly if all are clean. |
| SettingsCodecs.RefsRoundTripExactly | cmd/or3-intern/configure_tui.go:1774-1796 | References are read back as written exactly when they are clean. |
| SettingsCodecs.ParsedRefsRoundTrip | cmd/or3-intern/configure_tui.go:1774-1796 | What any text parses to is read back the same after it is written. |
| SettingsCodecs.ParseIdentityLinks | cmd/or3-intern/configure_tui.go:1648-1675 | The parser's links, or its refusal when some entry is none. |
| SettingsCodecs.FormatIdentityLinks | cmd/or3-intern/configure_tui.go:1633-1646 | The text written for the links that have an identity reads back exactly if all are clean. |
| SettingsCodecs.LinksRoundTripExactly | cmd/or3-intern/configure_tui.go:1633-1675 | Links are read back as written exactly when they are clean: an identity and at least one peer, trimmed and free of separators. |
| SettingsCodecs.ParsedLinksRoundTrip | cmd/or3-intern/configure_tui.go:1633-1675 | Every text that parses as links is read back the same after it is written. |
| FileSearch.PathDecides | cmd/or3-intern/service_files.go:428-440 | An entry matches exactly when every word of the query occurs in its lower-cased path; its name adds nothing. |
| FileSearch.QueueFinishesLevel | cmd/or3-intern/service_files.go:337-378 | The queue finishes the level in front of it before what was put behind. |
| FileSearch.QueueIsLevels | cmd/or3-intern/service_files.go:337-378 | The entries in the order of the queue are the tree level by level. |
| FileSearch.Scan | cmd/or3-intern/service_files.go:354-377 | The loop over one directory visits a prefix of it, finds exactly its hits, and stops early only at the limit or the budget. |
| FileSearch.SearchEnds | cmd/or3-intern/service_files.go:337-380 | Nothing after an early stop could be among the results. |
| FileSearch.Search | cmd/or3-intern/service_files.go:328-381 | The search gives the first hits, up to the limit, among the first 5000 entries of the level-order walk that stays out of ignored directories. |

## Left out

- Failures to load or decode the saved record or the backup, and the backup's version and blank-binary checks.
- Records written before stages existed: they are normalized on load, and the durable invariant excludes a blank stage.
- Blank state directories, and prompts beyond the outcome of asking.
- HTTP, tunnels, subprocesses, gateway and plugin commands, timers and readiness loops: each is an effect with an outcome, a loop a number of retries.
- What a local probe, the public verification and the terminal tunnel check talk about: for a runtime, online means only that the health probe passed.
- The contents of the edited runtime files inside the Connect protocol: any edit will do there; the edits themselves are in `HermesEnv` and `OpenClawConfig`.
- Edits by others to runtime files while a connection exists.
- Making directories, temporary files and renames of atomic writes; the umask of a new file is a function.
- A second restore by the caller after `applyOpenClawFileWrites` returned its restore closure beside an error of its own.
- ImportedMemory.Store.Replace: rows that an earlier import with a warning left behind for notes that no longer exist stay in the index; the model keeps them, and says nothing of them.
- How a vector index is set up anew: any index over existing notes may be the result.
- Letter case beyond ASCII, in folding, lower-casing and LIKE.
- Line ends other than newline in the Hermes file: the edit starts from normalized lines, and a file with two carriage returns before a newline loses one at each edit.
- JSON numbers, which the original reads as 64-bit floats; parsing and printing of JSON.
- Cryptography and base64 of tokens: a token whose signature matches is given by its claims.
- The service's list of event names: `LiveRunEvents.NameMustBeQuiet` says which names are read back.
- Cancellation by context, locks, and the clock: times are arguments that do not go back.
- AuthFailures.Tracker.Record: asks that keys are not blank, as the callers build them; nil receivers and requests.
- Symbolic links and changes of the tree during a search; entry sizes, times and media types.
- Terminal layout, flag parsing, help, the route table and role ranks, Discord sorting: nothing a reader would not see in one branch.
