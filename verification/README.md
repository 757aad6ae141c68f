# Docker Commander: a verified model

A Dafny model of the parts of Docker Commander where a mistake loses files or lets someone
in: the project operation protocol, sign-in, archives and paths, and the reconcilers. Every
statement below holds for all inputs and, where a run is meant, for every interleaving of
its steps. `dafny verify dfyconfig.toml` checks the whole project.

How the model stands to the program:

- Times are integers, one clock; map iteration order in the bounded sweeps is an arbitrary
  choice; the Docker daemon, compose, the file system's failures and the registries answer
  through values a request carries, so "for every request" includes every fault.
- Classes (`LoginLimiter`, `UsedChallenges`, `CeremonyStore`, `ProjectOps`, `ProjectHost`,
  `RevisionStore`, `Bundle`, `Importer`, `Archiver`, `Poller`, `RoleStore`) keep the fields
  the program updates in place. Each method is proved against a function, and the results
  are proved about that function.
- What several requests do at once is a machine on values whose steps are the program's
  single store calls, map operations under a lock and file operations; a run is a sequence
  of such steps.
- Store calls have the contracts their SQL gives them (`internal/store/factors.go`,
  `users.go`, `sessions.go`, `roles.go`, `retention.go`, `project_revisions.go`,
  `project_image_updates.go`).

## What came out

Most promises of the comments hold as they are written. Where one does not, the code is
kept as it is, an input shows it, and the exact condition is proved:

- A spent challenge is refused only until it expires. A finish that read its token before
  the expiry and spends after it can spend it a second time
  (`ChallengeStore.GrantedAgainIffExpired`, `SignInLimits.ChallengeFinishedTwice`).
- A password reset beats a concurrent single-step login in every interleaving. A challenge
  handed out before the reset, and a password change proved before it, can still be finished
  after it, because both read the epoch again: a token passes exactly when no reset came
  between that reading and the check (`SignInTheorems.EpochCheckIffNoReset`,
  `SignInLimits.ChallengeOutlivesReset`, `SignInLimits.ChangeOutlivesReset`).
- The factor cap is a count before an insert. An account passes it exactly when an insert is
  granted to a request whose count has gone stale: since then the account has gained, by
  other inserts less removals, all the room the request saw
  (`FactorLimits.PassesTheCapIffAnInsertIsStale`, `FactorLimits.StaleMeansOvertaken`); k
  enrolments in flight reach 9 + k factors, for every k, and no more
  (`FactorLimits.InFlightPassTheCap`, `FactorHistory.FactorsAreBounded`). App enrolment is safe in every interleaving, not only
  with the confirmation taken as one step.
- The orphan sweep reads the rows before it lists the files. A capture that falls in between
  and whose number is above every row read loses its file, exactly then, and its row ends up
  valid without one (`RevisionRaces.StaleReadDoomsIffNumberAbove`,
  `RevisionRaces.RowsFirstCanLoseASnapshot`). Listing first would be safe without any
  condition.
- A snapshot whose entries all open, are read whole and are written without a fault comes back
  as it was, up to sub-folders without files, exactly when it is within the caps and no path
  in it begins or ends with white space: names are trimmed on the way out
  (`SnapshotFaults.UnpacksIffWithinCapsAndUntrimmed`; a file " a" comes back as "a",
  `SnapshotLimits.SpacedComesBackRenamed`).
- The extraction goes on past an entry that does not open, a short read and a failed write, so
  a restore can answer done with a file missing and then drop the backup that still had it
  (`RestoreOutcomes.FaultyRestoreLosesAFile`). Whatever the faults, the packed folder comes
  back exactly when every single file does, which is said entry by entry
  (`RestoreOutcomes.RestoreBringsTheSnapshotBackIff`,
  `SnapshotFaults.FaultyArchiveUnpacksIff`).
- An exported bundle comes back as packed exactly when it carries at most 20000 files, no
  file follows the one that used up the last byte of the gigabyte, and no packed path begins
  or ends with white space (`RecoveryLimits.ExportReimportsIff`). The export checks none of
  the three: 20100 empty files are exported and refused
  (`RecoveryLimits.TooManyFilesAreExported`), and an empty file after a full gigabyte is
  exported, validated and lost (`RecoveryLimits.EmptyFileAfterFullIsLost`).
- A restore clears its scratch folders first and ignores errors in that. Its result is the
  extracted revision, whichever it is, exactly when the staging folder could be opened and
  nothing was left in it (`RestoreOutcomes.RestoredIsTheRevisionIff`); otherwise a leftover ends up in the
  project (`RestoreOutcomes.LeftoverIsMixedIn`). While the project's folder is there and can
  be looked at, a leftover backup that could not be removed, even an empty one, lets no
  restore succeed, since `os.Rename` refuses an existing directory; the folder then stays as
  it is, and so do the volumes unless putting them back fails
  (`RestoreOutcomes.BackupLeftoverBlocks`). `RestoreOutcomes.RestoreIsDoneIff` says exactly
  which restores succeed.
- A restore that fails is promised to leave the project as it was. When the rename in and the
  rename back both fail the project has no folder, its files being in the backup
  (`RestoreRollback.RenameBackCanFail`). Exactly when folder and volumes survive a failed
  restore is read off the request and the disk (`RestoreRollback.FailedRestoreKeepsTheFolderIff`,
  `RestoreRollback.FailedRestoreKeepsTheVolumesIff`), and what its answer says of them is true
  (`RestoreAnswers.FailedRestoreAnswers`).
- A restore that is done copies the revision's files over what the bound volumes hold and
  removes nothing from them: a file a later version brought stays
  (`RestoreSeeds.LaterFilesStayInVolumes`). A volume is the revision's exactly when it held
  nothing else before (`RestoreSeeds.VolumeIsTheRevisionIff`).
- `sameIDs` alone does not decide set equality: a repeat in its second argument lets an id
  only the first holds pass (`RoleSync.RepeatsDefeatSameIDs`). It does on lists without
  repeats (`RoleSync.SameIDsIffSameSet`), and `RolesForGroups` never repeats an id, which is
  what the role sync rests on.

Two bounds are exact: the limiter lets at most 2*max - 1 guarded failures into one window
length, and for every limit and window some run reaches that (`RateLimiter.BoundIsTight`);
the last check of `safeJoin` fires for some name exactly when the root is not as
`filepath.Clean` prints it, or is "/" or "." (`PathJail.LateCheckIsDeadIffRootIsClean`).

## Model

| member | source | states |
|---|---|---|
| BoundedSweep.Sweep | internal/auth/ratelimit.go:71-84 | the sweep looks at min(128, size) entries in any order and drops exactly the expired ones it looked at; the same loop stands in challenge.go and webauthn.go |
| BoundedSweep.SweepIsInvisible | internal/auth/ratelimit.go:58-84 | no reader, now or later, can tell a swept table from an unswept one |
| RateLimiter.LoginLimiter.Allow | internal/auth/ratelimit.go:34-43 | refuses exactly while the key's live window has used up the budget |
| RateLimiter.LoginLimiter.Fail | internal/auth/ratelimit.go:45-56 | opens a window of the configured length or counts one more in the live one, after a bounded sweep |
| RateLimiter.LoginLimiter.Reset | internal/auth/ratelimit.go:87-91 | forgets the key and nothing else |
| RateLimiter.SweepsAreInvisible | internal/auth/ratelimit.go:34-91 | on every run with a monotone clock, and whatever the sweeps looked at, every answer is that of a limiter that never sweeps |
| RateLimiter.GuardedFailuresAreBounded | internal/auth/ratelimit.go:34-56 | failures recorded after an allowed check, in any interval of one window length, stay below (2 + resets) times the budget |
| RateLimiter.LockedIffBudgetSpent | internal/auth/ratelimit.go:34-56 | once a failure has opened a window, the key is turned away exactly while the window lasts and as many failures as the budget were recorded in it |
| RateLimiter.BoundIsTight | internal/auth/ratelimit.go:45-56 | for every limit and every window of at least one tick a monotone run without resets that records 2*max - 1 guarded failures in one window length (one, for a limit below one) |
| RateLimiter.ConcurrentFailuresAreBounded | internal/auth/ratelimit.go:34-56 | with at most k callers between check and failure, no window ever counts more than max + k - 1 |
| ChallengeStore.UsedChallenges.Spend | internal/auth/challenge.go:39-55 | refuses an empty or remembered id, otherwise remembers it until its expiry, after a bounded sweep |
| ChallengeStore.HeldUntilExpiry | internal/auth/challenge.go:39-68 | a spent id stays in the table until it expires, whatever is swept meanwhile |
| ChallengeStore.AtMostOneSpendBeforeExpiry | internal/auth/challenge.go:39-55 | of all spends of one id and expiry made before that expiry at most one succeeds |
| ChallengeStore.GrantedAgainIffExpired | internal/auth/challenge.go:39-55 | an id that was spent once is granted again exactly when the later spend runs at or after its expiry |
| ChallengeStore.SpendRefinesUsedSet | internal/auth/challenge.go:39-68 | before expiry the bounded table answers as an ever-growing set of used ids does |
| Ceremonies.CeremonyStore.Put | internal/auth/webauthn.go:150-163 | refuses exactly when full after the sweep, otherwise stores the ceremony under its key, replacing an older one |
| Ceremonies.CeremonyStore.Take | internal/auth/webauthn.go:165-176 | removes the key's ceremony and returns it unless it has expired |
| Ceremonies.RefusedPutMeansFull | internal/auth/webauthn.go:150-189 | a refused put means at least min(128, limit) unexpired ceremonies, for any iteration order |
| Ceremonies.PutIsRefusedIff | internal/auth/webauthn.go:150-163 | a put is refused exactly when the store, swept, is full of other ceremonies, a key still held being replaced whatever the load; it changes its own key and what the sweep dropped, and nothing else |
| Ceremonies.TakeFindsLatestPut | internal/auth/webauthn.go:150-176 | on every run a take answers with the latest put of that key not yet taken, if it has not expired |
| Ceremonies.OneBeginOneFinish | internal/auth/webauthn.go:150-176 | each put is answered by at most one successful take |
| Ceremonies.SizeBounded | internal/auth/webauthn.go:150-189 | the store never holds more than its limit |
| Totp.MatchTOTP | internal/auth/totp.go:87-100 | accepts a code exactly when it is shown for one of the steps within the skew, and names that step's counter |
| Totp.Choose | internal/auth/service.go:339-365 | picks a factor and counter that match the code and lie above the factor's watermark, if there is one |
| Totp.MatchedNearNow | internal/auth/totp.go:87-100 | a matched counter is within one step of the clock's |
| Totp.CountersIncrease | internal/auth/service.go:339-365 | in every interleaving of attempts, burns, pairings and removals, accepted counters of a factor strictly increase; section 5.2 of RFC 6238 |
| Totp.BurnSucceedsIffFresh | internal/store/factors.go:191-211 | in every run a matched step is accepted exactly when its factor is still paired and the step lies after every one accepted for it so far |
| Totp.AcceptancesAreBounded | internal/auth/service.go:339-365 | a factor accepts at most span/30 + 4 codes matched within any span of seconds |
| Totp.AcceptancesInTimeAreBounded | internal/auth/service.go:339-365 | by the moment of acceptance: if no burn comes more than `lag` seconds after its request read the clock, at most (span + lag)/30 + 4 |
| SignInSafety.RunInv | internal/auth/service.go:203-365 | the invariant of the whole sign-in machine, with all five callers of issueSession: every token, table row and half-finished request has the trail of events that led to it |
| SignInSafety.SpendInv | internal/auth/service.go:287-327 | spending a challenge keeps that invariant, whatever the sweep looked at |
| SignInSafety.TakeForLoginInv | internal/auth/webauthn.go:343-426 | taking a login ceremony keeps it |
| SignInSafety.BurnInv | internal/auth/service.go:339-365 | burning a counter keeps it |
| SignInSafety.CheckEpochInv | internal/auth/middleware.go:54-83 | the middleware's epoch read keeps it |
| SignInTheorems.EverySessionIsJustified | internal/auth/service.go:203-327 | every session was issued after an exempt or factorless login; or one spent challenge of that account plus a burnt code step or a taken ceremony with a verified assertion; or a user-verified passwordless ceremony on an opted-in local account; or a change of a local account's own password by a request let in with an earlier session of that account, which is justified in the same way; section 7.2 of W3C Web Authentication Level 2 |
| SignInTheorems.EverySessionDescendsFromASignIn | internal/auth/service.go:203-225 | going back from change to change, every session descends from a justified sign-in of its own account |
| SignInTheorems.ChangeEndsEarlierSessions | internal/auth/service.go:190-225 | a password change that issued a session was proved by a request inside an earlier session of the account, then moved the epoch, and no token of a session recorded before that is let through afterwards, the one asking included |
| SignInSafety.ProveOwnInv | internal/auth/service.go:203-214 | proving one's own password, for a local account only, keeps the invariant |
| SignInSafety.BumpOwnInv | internal/auth/service.go:215-217 | so does the epoch moving in the middle of a change |
| SignInTheorems.OneSessionPerChallenge | internal/auth/webauthn.go:343-426 | two sessions finished by the same challenge, by code or by passkey, mean one of the spends came at or after the challenge's expiry |
| SignInTheorems.EvidenceIsNotShared | internal/auth/passwordless.go:133-272 | no two sessions rest on the same burnt code step or the same ceremony |
| SignInTheorems.EpochCheckIffNoReset | internal/auth/middleware.go:54-83 | a session token, whichever of the five flows minted it, passes the epoch check exactly when its user was not reset between the record read behind the token and the check |
| SignInTheorems.ResetBeatsLogin | internal/auth/service.go:170-187 | once the epoch is bumped no token of a single-step login that read its user before is let in, even if its row is created later |
| SignInTheorems.AdmittedOnlyAfterCheck | internal/auth/middleware.go:44-92 | a request is let in only with a token issued before, after its epoch check passed |
| SessionRows.AdmittedIffNotRevoked | internal/auth/middleware.go:72-83 | in every run a request past the epoch check is let in exactly when its token's session was recorded and has not been revoked since: that session by its own account, all of the account's, or all in a password change; revoking under another account does nothing |
| SignInFacts.EveryEventWasTrue | internal/auth/service.go:203-365 | every event of a run was true of the accounts, factors, tables and rows at the step that logged it; an account reads as protected exactly when it has a factor of any kind |
| SignInFacts.SessionsRestOnFacts | internal/auth/service.go:203-365 | every session was decided by a step of its own request at which the account had no factor or was exempt, had that app with a lower counter, had that passkey, was local and opted in with that passkey, or was local and changed its password |
| SignInFlows.PasswordSignsIn | internal/auth/service.go:231-285 | from any state a correct password signs in an account without factors, or exempt |
| SignInFlows.PasswordBuysChallenge | internal/auth/service.go:231-285 | for any other account it leaves a challenge and no session |
| SignInFlows.PasskeySignsIn | internal/auth/webauthn.go:343-426 | an unspent challenge, its waiting ceremony and a passkey of the account sign it in |
| SignInFlows.PasskeyAloneSignsIn | internal/auth/passwordless.go:133-272 | a waiting ceremony and a verified passkey sign in a local account that opted in |
| SignInFlows.TokenIsLetIn | internal/auth/middleware.go:39-92 | an unexpired token of the account's current epoch whose row is there is let in |
| SignInLimits.ChallengeFinishedTwice | internal/auth/challenge.go:39-55 | a run in which one challenge yields two sessions, the second spend after expiry |
| SignInLimits.ChallengeOutlivesReset | internal/auth/service.go:287-327 | a run in which a challenge handed out before a reset is finished after it and passes the epoch check |
| SignInLimits.ChangeOutlivesReset | internal/auth/service.go:203-225 | a run in which a change whose password was proved before a reset finishes after it, with a session that passes the epoch check |
| FactorHistory.LaterFactorsNeededThePassword | internal/auth/service.go:470-537 | in every interleaving each factor beyond an account's first came from an enrolment opened with the password |
| FactorHistory.OneEnrolmentOneFactor | internal/store/factors.go:248-290 | one app enrolment makes at most one factor |
| FactorHistory.ProtectedStaysProtected | internal/auth/service.go:382-390 | an account with a factor never returns to none through removals, however they race |
| FactorHistory.FactorsAreBounded | internal/auth/webauthn.go:242-299 | with at most k requests between count and insert an account never holds more than 9 + k factors, so ten when they come one at a time |
| FactorLimits.PassesTheCapIffAnInsertIsStale | internal/auth/webauthn.go:242-299 | in any run an account within the cap gets past it exactly when an insert is granted to a request whose own count has gone stale: since that count the account has gained, by other inserts less removals, all the room the request saw |
| FactorLimits.StaleMeansOvertaken | internal/auth/webauthn.go:242-299 | behind a stale insert, between its request's count and its own insert, lies one granted to another request for the account |
| FactorLimits.FactorsAreConserved | internal/store/factors.go:82-120 | between any two moments of a run, what an account holds changes by the factors created less those removed |
| FactorLimits.InFlightPassTheCap | internal/auth/webauthn.go:195-299 | for every k a run with at most k requests in flight takes an account from nine factors to 9 + k |
| FactorFlows.AppEnrols | internal/auth/service.go:470-537 | from any state an account with room, without a factor or with its password proved, gets the app it enrols |
| FactorFlows.PasskeyEnrols | internal/auth/webauthn.go:195-299 | and the passkey |
| FactorFlows.RemovalTakesIff | internal/auth/service.go:382-390 | a removal takes the factor named exactly when it is the account's and not its last, and never another |
| ProjectFolder.ExtractZipToDir | internal/api/project_handlers.go:298-331 | writes the entries in order, skipping folders, refused names, oversized and unreadable ones, and stops counting at a hundred |
| ProjectFolder.WriteKeeps | internal/api/rootfs.go:20-50 | writing a file, also when the parents are made only half-way, keeps the folder a tree, changes no other file, and on success leaves the content |
| ProjectFolder.ExtractionIsBounded | internal/api/project_handlers.go:290-331 | an extraction into an empty folder makes a tree of at most a hundred files, unless a write is cut short |
| Snapshots.UnpackingUndoesPacking | internal/api/project_handlers.go:1315-1342 | unpacking what zipDir packed gives back every file with its content and nothing else, up to sub-folders without files, for a folder within the caps whose names the trimming leaves alone |
| SnapshotFaults.UnpacksIffWithinCapsAndUntrimmed | internal/api/project_handlers.go:298-331 | when every entry opens, is read whole and is written without a fault, it does so exactly for those: at most a hundred files, each within a mebibyte, no path beginning or ending with white space |
| SnapshotFaults.FaultyArchiveUnpacksIff | internal/api/project_handlers.go:298-331 | whatever happens to the entries on the way out, the folder comes back exactly when every single file does: not oversized, its name not trimmed, the count below a hundred at its turn, and its content left under its name by the write |
| SnapshotFaults.UnpacksIffFaultless | internal/api/project_handlers.go:298-331 | unless a write is reported as failed with everything already written, that is exactly when the folder is within the caps with untrimmed names and every entry opens, is read whole and is written without a fault |
| SnapshotLimits.SpacedComesBackRenamed | internal/api/project_handlers.go:1811-1815 | the folder with one file " a" comes back with a file "a" instead |
| SnapshotLimits.FilesComeFromEntries | internal/api/project_handlers.go:298-331 | every file of an unpacked folder has an entry, of a file, that opens, is declared within the size cap and whose name leads to it, and unless a write was cut short the file is within the cap |
| ProjectSteps.SaveRuns | internal/api/project_handlers.go:515-557 | a save left alone is refused without a trace or is one write |
| EditorAnswers.SaveAnswers | internal/api/project_handlers.go:515-557 | a save is refused exactly when its content is over a mebibyte, its name leads nowhere, or it would be a new file in a project that has a hundred; and done exactly when it is not refused, no folder stands there and the write works |
| EditorAnswers.DeleteAnswers | internal/api/project_handlers.go:648-672 | a delete is refused exactly when its name leads nowhere, and done exactly when it does not name the project itself and what stands there, if anything, has nothing below it and can be removed |
| EditorAnswers.MkdirAnswers | internal/api/project_handlers.go:674-704 | a new folder is refused exactly when its name leads nowhere, and done exactly when no file stands there and it can be made |
| ProjectHandlers.ProjectHost.SaveFile | internal/api/project_handlers.go:515-600 | does to the folder, and answers, exactly what its request does step by step |
| ProjectHandlers.ProjectHost.DeleteProjectFile | internal/api/project_handlers.go:648-672 | the same for a delete; a file that is not there counts as deleted |
| ProjectHandlers.ProjectHost.MakeProjectDir | internal/api/project_handlers.go:674-704 | the same for a new folder |
| ProjectHandlers.ProjectHost.RestoreRevision | internal/api/project_revisions_handlers.go:343-543 | goes through exactly the moments of the restore request, ends on its disk and with its answer, deferred calls included |
| ProjectHandlers.ProjectHost.RunUndoable | internal/api/project_handlers.go:1687-1701 | saves a copy, seeds, and puts the volumes back when seeding fails, as the restore's steps say; what the volumes then hold is DoneRestoreSeedsTheVolumes and FailedRestoreKeepsTheVolumesIff |
| ProjectHandlers.ProjectHost.MoveAside | internal/api/project_revisions_handlers.go:506-513 | the first half of the swap, with the undo of the seed when it fails |
| ProjectHandlers.ProjectHost.Activate | internal/api/project_revisions_handlers.go:514-520 | the second half, with the rename back and the undo |
| ProjectHandlers.ProjectHost.RollBack | internal/api/project_revisions_handlers.go:521-533 | the deferred way back from the swap |
| ProjectHandlers.ProjectHost.Leave | internal/api/project_revisions_handlers.go:406-491 | the remaining deferred calls, last registered first (the saved copy, the temporary files, the staging folder), for each point the handler can return from |
| RestoreSafety.StepKeeps | internal/api/project_revisions_handlers.go:399-543 | every step of a restore, whatever fails in it, keeps where the old files, the new files and the volumes are |
| RestoreSafety.RestoreIsAllOrNothing | internal/api/project_revisions_handlers.go:399-543 | done means the folder is what the extraction made of the revision, its faults included, over whatever could not be cleared from the staging folder, the bound volumes are seeded from it (what they then hold is DoneRestoreSeedsTheVolumes) and no backup is left unless its removal failed; a refused check leaves folder and volumes as they were, and so does any failure when the rollback's own calls work; no temporary file and no saved copy stays |
| RestoreRollback.FailedRestoreKeepsTheFolderIff | internal/api/project_revisions_handlers.go:330-541 | a restore that was not done, whatever failed in it and in its rollback, left the folder as it was exactly when the folder was never put aside, or can be renamed back with the new files all removed if they went live, or was not there and the new files are all removed (or what is left of the new files happens to be the old folder); if it did not, the old folder is whole in the backup |
| RestoreRollback.FailedRestoreKeepsTheVolumesIff | internal/api/project_revisions_handlers.go:480-541 | and it left the volumes as they were exactly when the seed was never begun, or putting them back works (or what a failed attempt at that left happens to be what they held) |
| RestoreRollback.RenameBackCanFail | internal/api/project_revisions_handlers.go:506-519 | a restore whose rename in fails and whose rename back fails too: the project is left without a folder, its files in the backup |
| RestoreSeeds.DoneRestoreSeedsTheVolumes | internal/docker/compose_binds.go:240-272 | after a restore that is done every bound volume holds, at its place, everything the restored folder has at or below the bind source, a single file under its base name; whatever else the volume held is still there; every other volume is as it was |
| RestoreSeeds.VolumeIsTheRevisionIff | internal/docker/compose_binds.go:236-272 | a bound volume then holds nothing but the restored files exactly when it held nothing else before |
| RestoreSeeds.LaterFilesStayInVolumes | internal/docker/compose_binds.go:236-272 | for every compose file, a restore that is done and leaves in a bound volume a file the revision does not have |
| RestoreAnswers.FailedRestoreAnswers | internal/api/project_revisions_handlers.go:343-541 | a restore that is not done answers that it was refused exactly when a check said no before anything failed, that the volumes were put back, or that this failed, exactly when the seed had begun and its undo went that way, and is silent on them exactly otherwise |
| RestoreAnswers.ToolsAreThere | internal/api/project_revisions_handlers.go:422-491 | whenever compose is about to run, the override and pin files the plan calls for are there, and whenever the volumes are about to be put back, so is their saved copy |
| RestoreSafety.NoFileIsLostOnTheWay | internal/api/project_revisions_handlers.go:330-341 | at every moment before the commit, under every fault, the rollback's own included, the old files are in one piece in the folder or in the backup |
| RestoreSafety.NothingLiveBeforeTheGate | internal/api/project_revisions_handlers.go:463-486 | until the gate is passed, and for ever if validation or the gate refuses, folder and volumes are untouched and nothing is deployed |
| RestoreSafety.TheAnswerIsHonest | internal/api/project_revisions_handlers.go:480-542 | an answer that does not warn of the volumes means they hold what they held; it warns only when putting them back failed |
| RestoreOutcomes.RestoreIsDoneIff | internal/api/project_revisions_handlers.go:399-543 | a restore is done exactly when every check passes, every call the swap and the deploy make works, and no folder, empty or not, stands where it renames to; what extraction loses on the way does not enter |
| RestoreOutcomes.BackupLeftoverBlocks | internal/api/project_revisions_handlers.go:402-511 | while the folder is there and can be looked at, a leftover backup that could not be removed, an empty one too, lets no restore be done; the folder stays as it is, and so do the volumes unless putting them back fails |
| RestoreOutcomes.RestoredIsTheRevisionIff | internal/api/project_revisions_handlers.go:402-411 | the restored folder is what the revision unpacks to, for every revision, exactly when the staging folder could be opened and nothing was left in it |
| RestoreOutcomes.LeftoverIsMixedIn | internal/api/project_revisions_handlers.go:402-411 | for every compose file, a restore of a revision that holds just that is done and its folder holds a file an earlier attempt left beside it |
| RestoreOutcomes.RestoreBringsTheSnapshotBackIff | internal/api/project_revisions_handlers.go:330-543 | a restore that succeeds over a cleared staging folder, of a revision captured from a folder, brings exactly that folder's files back if and only if every single file comes back, whatever happened to the entries |
| RestoreOutcomes.RestoreBringsTheSnapshotBack | internal/api/project_revisions_handlers.go:54-108 | and when no entry met a fault on the way out, if and only if the folder was within the caps and no path begins or ends with white space |
| RestoreOutcomes.FaultyRestoreLosesAFile | internal/api/project_handlers.go:315-328 | for every compose file, a restore of what the project already holds, that file and one more whose entry does not open: it is done, the other file is gone from the folder, and the backup is dropped |
| ProjectProtocol.ProjectOps.BeginProjectOp | internal/api/project_oplock.go:30-44 | claims a free project, or says what runs on it and changes nothing |
| ProjectProtocol.ProjectOps.Release | internal/api/project_oplock.go:39-43 | frees the project |
| ProjectProtocol.OperationsSerialise | internal/api/project_oplock.go:11-44 | however the steps of all requests interleave, a project nobody holds is what its successful claims make of it one after another in claim order, and every answer is the one that serial run gives |
| ProjectProtocol.OneHolderAtATime | internal/api/project_oplock.go:20-44 | a project has at most one holder, which sees only moments of its own request begun where the claims before it ended |
| ProjectProgress.StartsIffFree | internal/api/project_oplock.go:20-44 | a new request gets its project exactly when nobody holds it, and otherwise changes nothing |
| ProjectProgress.FreeProjectServes | internal/api/project_oplock.go:20-44 | left alone on a free project, any request runs to its end, leaves its disk and its answer, and frees the project, with no other project touched |
| ProjectGuarantees.AcknowledgedSaveStands | internal/api/project_oplock.go:11-18 | an acknowledged save is in the folder once nobody holds the project, whatever ran and failed beside it and before it, until a later claim on the project names the same file, restores another revision, or is a restore that fails and whose folder does not come back in the sense of FailedRestoreKeepsTheFolderIff |
| ProjectGuarantees.TheCapHolds | internal/api/project_handlers.go:543-549 | under every interleaving a project nobody holds is a tree of at most a hundred files, if it was one and every restore on it cleared its staging folder, can remove the new files, and met no write cut short; what happens on other projects does not matter |
| ProjectGuarantees.SaveKeeps | internal/api/project_handlers.go:515-557 | a save answered done left exactly its content under its name, a refused one changed nothing, none touches another file, and a folder within the cap stays within it |
| ProjectGuarantees.DeleteKeeps | internal/api/project_handlers.go:648-672 | a delete answered done left nothing under its name, any other changed nothing, and no other file is touched |
| ProjectGuarantees.MkdirKeeps | internal/api/project_handlers.go:674-704 | a new folder answered done is there, a refusal changed nothing, an error may leave some of the folders above it, and no file is touched |
| ProjectGuarantees.RequestKeeps | internal/api/project_handlers.go:515-704 | each request leaves alone every file it does not name, a failed restore whose folder comes back included, under every fault; and it keeps the folder a tree within the cap, if it is no restore or one as in TheCapHolds |
| Revisions.RevisionStore.CaptureRevision | internal/api/project_revisions_handlers.go:54-108 | takes the next number, and leaves the row valid exactly when its file was published and the mark written |
| Revisions.RevisionStore.TrimRevisions | internal/store/retention.go:254-293 | deletes rows with at least `keep` newer ones, all of them unless cut off, and never the newest, so numbers are not used again |
| Revisions.TrimKeepsTheNewest | internal/store/retention.go:254-293 | what the trim leaves are exactly `keep` rows, or all there are, each newer than any that goes |
| Revisions.RevisionStore.SweepOrphans | internal/api/retention.go:143-187 | removes exactly the files without a row that can be removed, and counts them; removes nothing when the rows or the folder cannot be read |
| Revisions.RevisionStore.RunRetention | internal/api/retention.go:84-97 | valid rows keep their files, and every file that went is counted once, also when the trim stops early or the sweep cannot read |
| RevisionRaces.ValidRowsHaveFiles | internal/api/retention.go:162-187 | captures and purges interleaved in any way: if each listing follows its row read directly, a valid row has its file and only files without a row are removed |
| RevisionRaces.ListingFirstIsSafe | internal/api/retention.go:162-187 | listing the files before reading the rows needs no such condition |
| RevisionRaces.StaleReadDoomsIffNumberAbove | internal/api/retention.go:162-187 | with the rows read first, a file with a row is doomed exactly when the listing shows a number above every row read |
| RevisionRaces.RowsFirstCanLoseASnapshot | internal/api/retention.go:162-187 | a run in which a valid row loses its file |
| RevisionFlows.CaptureRuns | internal/api/project_revisions_handlers.go:54-108 | a capture left alone takes the next number, publishes its file and marks its row valid |
| RevisionFlows.PurgeRuns | internal/api/retention.go:84-187 | a purge left alone leaves the newest rows and, of the files, exactly those that have one |
| PathJail.CleanKeepsThePlace | internal/api/project_handlers.go:1819-1823 | cleaning a path never changes the place it names, from any working directory |
| PathJail.CleanIsIdempotent | internal/backup/backup.go:396-396 | cleaning twice is cleaning once |
| PathJail.AcceptedIffItNeverClimbs | internal/api/project_handlers.go:1811-1822 | a name passes the lexical checks exactly when it is not empty, not absolute and following it never goes above where it started |
| PathJail.TrimSpaceCuts | internal/api/project_handlers.go:1812-1815 | the name looked at is the given one without the white space at its ends |
| PathJail.AcceptedStaysInside | internal/api/project_handlers.go:1811-1826 | under a clean root an accepted name becomes the root followed by ordinary segments, and the check after the join refuses nothing |
| PathJail.LateCheckIsDeadIffRootIsClean | internal/api/project_handlers.go:1824-1826 | that check refuses no name exactly when the root is clean and not "/" or "." |
| PathJail.BackupJoinStaysInside | internal/backup/backup.go:395-401 | join first, check afterwards: what is accepted is the root followed by ordinary segments |
| PathJail.JoinsAgree | internal/backup/backup.go:395-401 | both joins give the same path for every name the project handlers accept |
| PathJail.AssertWithinRoot | internal/api/project_handlers.go:1840-1862 | ends on every path, and lets through exactly those whose deepest existing part, links followed, lies in the real root |
| PathJail.DirShrinks | internal/api/project_handlers.go:1856-1860 | the parent of a path is the path itself or closer to the end of the loop |
| Slugs.Slugify | internal/api/project_handlers.go:1880-1902 | builds the slug its specification names |
| Slugs.EveryNameGivesASlug | internal/api/project_handlers.go:1875-1902 | every name gives a compose-legal slug with single dashes inside only, free of slashes |
| Slugs.SlugKeepsTheLetters | internal/api/project_handlers.go:1880-1902 | the slug keeps the name's letters and digits in order; a name with none becomes "project" |
| Slugs.SlugIsTheWords | internal/api/project_handlers.go:1880-1902 | the slug is the name cut into words at blanks, dashes, underscores and dots, each with its letters and digits only, joined by single dashes; without words it is "project" |
| Slugs.SlugsAreStable | internal/api/project_handlers.go:1880-1902 | the slug of a slug is itself |
| Backup.Archiver.WriteArchive | internal/backup/backup.go:137-170 | writes the database, then the three folders, filling the report as it goes; fails exactly when one of them is neither a folder nor a link |
| Backup.Archiver.AddTree | internal/backup/backup.go:178-233 | a missing folder adds nothing, a link in its place is only named |
| Backup.SkippedLinksAreTheReachableLinks | internal/backup/backup.go:178-233 | SkippedLinks names exactly the links at or below the three folders that are reached without following one |
| Backup.LinksAreNamedOnce | internal/backup/backup.go:205-223 | none of them twice |
| Backup.ReportedBytesArePacked | internal/backup/backup.go:149-155 | Bytes is the sum of the sizes of the packed files, the database included |
| BackupRoundTrip.Extract | internal/backup/backup.go:324-393 | extracts header by header and stops at the first refusal |
| BackupRoundTrip.ExtractionSucceedsIff | internal/backup/backup.go:324-393 | an extraction succeeds exactly when every entry stays inside, is no link, and finds no file where it needs a folder and no folder where it is a file; devices and the like are passed over |
| BackupRoundTrip.ExtractionStaysInside | internal/backup/backup.go:321-393 | whatever an archive names, everything written has ordinary segments below the data dir, and a link entry fails the extraction |
| BackupRoundTrip.ExtractingBringsTheDataBack | internal/backup/backup.go:137-393 | extracting a backup into an empty data dir brings back the database and, at every path, exactly the file or folder that stood there under the three folders, without links and special files; an empty top folder does not reappear |
| BackupRoundTrip.TreeIsWhatStoodThere | internal/backup/backup.go:204-275 | what a walked folder brings back, path by path, is what looking the path up without following links finds |
| Recovery.Bundle.WriteDirToZip | internal/api/recovery_bundle.go:250-287 | packs a folder under the caps and the shared budget |
| Recovery.PackingConserves | internal/api/recovery_bundle.go:246-287 | bytes packed and budget left make up the budget there was, never negative |
| Recovery.Importer.ExtractZipPrefixToDir | internal/api/recovery_import.go:634-686 | unpacks one project's entries against the shared budgets, stopping at the first error |
| Recovery.Importer.ImportProjects | internal/api/recovery_import.go:464-509 | goes through the manifest's projects with the budgets of the whole bundle, skipping existing ones and stopping when the bundle unpacks too much |
| RecoveryImports.ExistingIsSkipped | internal/api/recovery_import.go:464-471 | a project that exists already is not imported and uses up no byte and no file of the budgets |
| RecoveryImports.ProjectIsImportedIff | internal/api/recovery_import.go:464-509 | a project comes to nothing exactly when it exists already, one before it unpacked too much, or its own unpacking fails; otherwise it comes back as what its entries unpack to |
| RecoveryImports.UnpackStopsIff | internal/api/recovery_import.go:634-686 | unpacking fails exactly at the first entry that a budget does not allow (too large) or that cannot be read, is over a mebibyte or cannot be written (broken), among the entries of the project that are files, resolve and are declared small enough, the first hundred |
| Recovery.ImportConserves | internal/api/recovery_import.go:457-509 | across all projects of any bundle, honest or not, bytes and files written and left make up the budgets, never overdrawn |
| RecoveryRoundTrip.ValidateProjectFilesBudget | internal/api/recovery_import.go:292-309 | accepts exactly the bundles whose declared project files and sizes are within the limits |
| RecoveryRoundTrip.ExportBundle | internal/api/recovery_export.go:80-94 | packs the projects one after another and stops when the budget is exceeded |
| RecoveryRoundTrip.ChosenArePicked | internal/api/recovery_bundle.go:250-287 | the files the caps let through are those of at most a mebibyte, in the order of the walk and each once, up to the hundredth |
| RecoveryRoundTrip.KeptNamesReimportIff | internal/api/recovery_import.go:464-509 | with names the trimming leaves alone, an exported bundle passes validation and every project comes back, each with exactly the packed files, if and only if it has at most 20000 files and no file follows the one that used up the gigabyte |
| RecoveryLimits.ExportReimportsIff | internal/api/recovery_import.go:292-509 | whatever the names: an exported bundle passes validation and comes back as packed if and only if it has at most 20000 files, no file follows the one that used up the gigabyte, and no packed path begins or ends with white space |
| RecoveryLimits.ExportRefusedIffTooLarge | internal/api/recovery_export.go:80-94 | the export is refused exactly when the files the caps let through come to more than the gigabyte |
| RecoveryLimits.TooManyFilesAreExported | internal/api/recovery_import.go:304-306 | 201 projects of a hundred empty files are exported and fail validation |
| RecoveryLimits.EmptyFileAfterFullIsLost | internal/api/recovery_import.go:656-658 | 1024 files of a mebibyte and an empty one are exported and pass validation, and do not come back as packed |
| RecoveryRoundTrip.UnderTheLimitNothingIsLost | internal/api/recovery_bundle.go:63-78 | which holds for every export under the gigabyte |
| RecoveryRoundTrip.WithinCapsComesBackWhole | internal/api/recovery_bundle.go:250-287 | a project within the per-project caps comes back with all its files |
| ImageUpdates.Poller.Poll | internal/api/image_update_poller.go:103-155 | sends and remembers what the tick's specification says, with its clearing first |
| ImageUpdates.EachChangeIsSentOnce | internal/api/image_update_poller.go:120-155 | a tick sends the changes at certain places of its list, in order and each once: those of a digest, whose notification goes out, and whose digest is not the one on record, no record counting that could not be read |
| ImageUpdates.OneNotificationPerService | internal/api/image_update_poller.go:143-155 | with one change per service a tick sends at most one notification about each |
| ImageUpdates.MarkAfterTick | internal/api/image_update_poller.go:103-155 | what a tick leaves on record for a service, whatever fails in the store: the last digest sent, nothing if the service runs, is confirmed unchanged and not reported as changed, else what was there |
| ImageUpdates.MarksAreRemembered | internal/api/image_update_poller.go:103-155 | the stored state is what an observer of the notifications alone would expect |
| ImageUpdates.NotifiedIffNew | internal/api/image_update_poller.go:231-243 | a digest is notified exactly when the tick reports it, the notification goes out, and it is not the one remembered from the earlier notifications |
| ImageUpdates.NeverTwiceWithoutABreak | internal/api/image_update_poller.go:120-155 | two notifications of a digest have between them a tick that confirmed the service unchanged or notified another digest |
| ImageUpdates.InconclusiveTicksChangeNothing | internal/api/image_update_poller.go:120-137 | a tick that settles nothing for a service, or whose notification fails, leaves its state alone |
| ImageUpdates.FirstSuccessNotifies | internal/api/image_update_poller.go:143-155 | a new digest is notified on the first tick where the notification goes out |
| RoleSync.RolesForGroups | internal/auth/ldap.go:82-104 | names exactly the positive roles the user's groups map to, each once |
| RoleSync.CompareIDs | internal/auth/service.go:685-699 | equal lengths and every id of the second list in the first |
| RoleSync.SameIDsIffSameSet | internal/auth/service.go:685-699 | on lists without repeats this decides set equality |
| RoleSync.SameIDsMeansSameSet | internal/auth/service.go:685-699 | a match is enough if the second list has no repeats, whatever the first looks like |
| RoleSync.RepeatsDefeatSameIDs | internal/auth/service.go:685-699 | two lists that match and hold different ids |
| RoleSync.RoleStore.SyncRoles | internal/auth/service.go:632-654 | the user ends up with exactly the existing wanted roles, and the fallback when a wanted one is gone and the fallback exists; it writes exactly when that differs from what is stored; a failing store never leaves more |
| RoleSync.RoleStore.SetUserRoles | internal/store/roles.go:427-446 | replaces the roles, dropping unknown ones |
| RoleSync.RoleStore.SyncFromDirectory | internal/auth/service.go:568-616 | a directory login leaves the user with what the groups grant now, and touches nothing when no mapping hands out roles |
| PolicyGate.EvaluateDeployPolicy | internal/api/policy_handlers.go:72-123 | returns the blocking and the warning violations in order, and fails closed exactly when the modes are unreadable or the check broke while some rule blocks |
| PolicyGate.OfPicks | internal/api/policy_handlers.go:104-123 | the violations of a mode that the gate returns are those of the list, in order and each once |
| PolicyGate.PolicyCheckOrRefuse | internal/api/policy_handlers.go:140-182 | refuses exactly when a deploy must not go ahead |
| PolicyGate.RestDeploy | internal/api/project_handlers.go:864-945 | succeeds exactly when it got to the gate, the gate let it through, the seed, if there is one, worked and compose came up; no seed and no compose-up before a passed gate, the seed before the compose-up, nothing twice, and each happens exactly when it should |
| PolicyGate.McpDeploy | internal/api/mcp_projects.go:54-124 | the same, with the gate read a second time in its own code and no check of host access |
| PolicyGate.RestoreUnderPolicy | internal/api/project_revisions_handlers.go:463-543 | a restore asks the gate on its facts and then goes the course they give it; facts that refuse leave folder and volumes as they were |
| PolicyGate.RefusedRestoreTouchesNothing | internal/api/project_revisions_handlers.go:463-475 | a restore whose facts make the gate refuse never swaps, seeds or deploys, and leaves folder and volumes alone at every moment |

## Left out

- RestoreSafety.RestoreIsAllOrNothing: the way back is promised when the rollback's own renames, removals and volume restore work; exactly when it is found is FailedRestoreKeepsTheFolderIff and FailedRestoreKeepsTheVolumesIff. A crash, and what a second attempt clears, are outside: each attempt begins by removing both scratch folders. That os.Rename can look at its target before it renames is taken for granted.
- ProjectHandlers.ProjectHost.RestoreRevision: the bookkeeping after the commit (deployed profiles, the closing capture, the audit entry); the capture is Revisions.RevisionStore.CaptureRevision.
- ProjectGuarantees.AcknowledgedSaveStands: a restore claimed on the project after the save that fails and cannot find its way back ends the guarantee; right after it the file is in the backup.
- ProjectGuarantees.TheCapHolds: asks of the restores on the project that no extracted file was cut short, since a file a failed write leaves is not counted by the extraction, that they cleared their staging folder, and that the rollback can remove the new files; RequestKeeps asks the same for the cap.
- Totp.AcceptancesAreBounded: bounds acceptances by the clock reading their code was matched at; AcceptancesInTimeAreBounded bounds them by the moment of the burn, given how late a burn may come.
- RestoreOutcomes.RestoreBringsTheSnapshotBack: speaks of restores over a cleared staging folder whose entries all open, are read whole and are written; what leftovers do is RestoredIsTheRevisionIff, what faults do is RestoreBringsTheSnapshotBackIff.
- SnapshotFaults.UnpacksIffWithinCapsAndUntrimmed: speaks of entries that all open, are read whole and are written; FaultyArchiveUnpacksIff speaks of all others too.
- SnapshotFaults.UnpacksIffFaultless: leaves out a write reported as failed after everything was written; the file is then there but not counted, so the folder may come back all the same, as FaultyArchiveUnpacksIff says.
- SignIn: a wrong current password, a weak new one and the stored hashes are not part of the password change, which is modelled from the proof on; a change that fails half-way just stops.
- SignIn: the first directory (LDAP) sign-in of an unknown name, which creates the record from the directory's answer instead of reading one, is not a step; the later ones are.
- SessionRows and SignIn: a row that is purged because it has expired, which stops no token that is still valid, and the note of when a session was last used.
- RestoreSeeds: links, modes and owners in a volume; an archive entry that finds a folder in the place of a file, or the reverse, which the daemon may refuse: such a refusal is a failing seed, and the request carries it.
- SignIn: rate limiting is not part of the sign-in machine (it only refuses more), nor are user deletion, directory accounts' passwords, session listing and expiry purges.
- SignIn and FactorHistory: the flows of internal/auth/service.go, webauthn.go and passwordless.go are steps on values, not methods on objects, because they are stated for every interleaving; how one step updates its Go objects in place is modelled only for the limiter, the challenge store and the ceremony store.
- Revisions.RevisionStore.SweepOrphans: one project.
- Revisions.RevisionStore.RunRetention: one project; the alert and audit purges that run beside it are left out.
- RevisionRaces: one project at a time; projects share no rows and no files. Project deletion, and what reuses its id, are not modelled.
- ProjectProtocol: deploy, down, settings changes and project deletion take the same claim but are not among the modelled requests; the project row is an input, read before the claim. A release that ran twice is not modelled.
- ProjectFolder: no links in a project folder, no file modes; the os.Root guards against links swapped in mid-way are the kernel's. Hidden races with containers that mount the folder are outside.
- PathJail: '/' is the separator, as on Linux; Windows volumes and separators are left out.
- Slugs.Slugify: trimming, lower-casing and Unicode decomposition come before the loop and are not modelled.
- Slugs.SlugKeepsTheLetters: speaks of the letters and digits after that.
- Backup.Archiver.WriteArchive: reading and writing errors, which end the backup.
- Backup.Archiver.AddTree: the same, and errors of the walk.
- BackupRoundTrip.Extract: errors of writing, which end the extraction.
- Recovery.Bundle.WriteDirToZip: reading and writing errors, which end the export.
- RecoveryRoundTrip.ExportBundle: the same.
- Backup: the tar, gzip and encryption formats, file modes, and a forced extraction over an existing installation (the extraction itself is stated for any starting folder in ExtractionStaysInside).
- Recovery.Importer.ImportProjects: after extraction, compose validation and project creation may still drop a project.
- RecoveryLimits.ExportReimportsIff: speaks of what is extracted, from entries that all open, are read whole and are written without a fault, of a bundle that reaches the import: its cap on the size of an upload (maxRecoveryUploadBytes) is checked before and is not part of this model.
- Recovery: hosts, registries, alert rules, webhooks, settings, secrets and domain mappings.
- ImageUpdates: one project; with a store that fails, or two changes of one service in a tick, nothing is promised (Poll itself models a failing store).
- ImageUpdates: hostForProject and projectsToPoll, a lookup and a filter.
- RoleSync.RoleStore.SyncRoles: reads of the store that fail, which end the sync with nothing written.
- RoleSync.RoleStore.SyncFromDirectory: a store whose reads or writes fail, and the sections, which are synced beside the roles.
- RoleSync: SectionsForGroups and sameSections, which repeat the same two loops over section names.
- PolicyGate: audit entries and the wording of answers; which compose model is evaluated, and against what, is the Docker side's.
- buildDigestPinOverride, the handlers' JSON and HTTP, JWT, Argon2id and WebAuthn signatures, OAuth refresh rotation, host and section permissions, metrics, ACME, updates and the web UI.
