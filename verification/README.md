# RSDW C2: verified model of its crash-safe protocols and schedules

RSDW C2 is a single-writer control panel for game servers on Kubernetes. This Dafny project models the
parts of it that must survive crashes, restarts and interleavings, and proves what they keep.

| files | what they model |
|---|---|
| `RestoreJournal`, `RestoreScript` | the world-restore transaction: every file operation of the restore script is one write, a process may be killed between any two, and the *world* is the tree the next completed `prepare` leaves |
| `CivilTime`, `RebootTime` | the next occurrence of interval, daily and cron schedules; a zone is a step function of offsets, a civil time an integer |
| `RebootLedger`, `Reboots` | schedules, audit history, the one pending restart per server, observations and warnings, as one object whose invariant every step keeps; traces of all records, announcements and warnings ever made carry the statements about whole runs |
| `Outages`, `OutageRuns`, `MemoryPressure` | the debouncing of outages and of memory pressure for one server, against a trace of everything that happened |
| `BackupRepository`, `LocalRepository`, `BackupRuns` | staged publication, recovery and quota of the local backup repository, and its reconciliation with recorded runs |
| `Deliveries` | one notification delivery under every interleaving of claims, sends, results, cancellations, failing writes and crashes |
| `Manifest`, `Cluster`, `References`, `Removal`, `Inspection`, `Deletion` | the deletion of a server while the cluster changes before every request; a trace records what each request saw or did |
| `Events`, `EventLog` | event retention: pruning after every insertion |
| `Fingerprint`, `Capture`, `Decimals` | fingerprints of a save tree and the check of a captured archive |

The values (what a step computes) are functions; the code that changes state is written as methods of
classes or loops over arrays and sequences, each proved against those functions. One `Store.Update`
(main.go:401-459) is one atomic durable step.

Assumptions, explicit in the contracts: the clock never runs backwards; IDs drawn at random are new; a rename
is atomic; hashes, YAML decoding, the cron library and field syntax are parameters; Helm removes only
resources of the release just checked that do not carry the keep policy. The *world* of a restore rests on one
more: nobody else writes the save tree between two restores.

## Where the code does less than one would expect

- Removing a *committed* restore stage deletes files in any order. If the marker goes first and the process
  dies, the next recovery undoes the finished restore. `MarkerDeletedFirstLosesRestore` gives such a stage,
  `InterruptedCleanup` says exactly when the restore survives; the other results assume that it does.
- The daily search steps through dates by adding days to the local time. When a clock change puts that local
  time in a gap, a date can be reached twice and the next one skipped, and the instant returned is then not
  the least one. `SkippedDateExample` gives a zone, `LeastIffNothingSkipped` the exact condition on zone,
  times and starting point. It cannot arise while the time of day the search starts from is never skipped and
  no two changes lie near it (`NeverSkippedFindsLeast`).
- The streak behind ServerDown is broken by a silence of more than 45 seconds only if the reading after it
  does not find the server stopped (`SilenceBreaksUnlessStopped`); `OutageRuns.SilenceHiddenByStop` drives the
  monitor through any such silence to a ServerDown.
- An operator stop closes an outage only if the server was not stopped already. The first announcement after
  a stop is therefore ServerRecovered if and only if the stop found the server stopped and an outage open
  (`Outages.NextAfterStop`); `OutageRuns.ParkedOutageRecovers` is such a run.
- Reconciling backup runs gives a publication two owners when a run names another run's publication and comes
  before it (`ForeignManifestOwnsTwice`); `OneOwnerIffNoneTaken` is the exact condition.
- A delivery that the worker has claimed and not yet sent can still leave after it was cancelled, and no other
  can (`CancelledLeavesIffClaimed`); `CancelledButSent` is such a run.

The table begins with the main results; the members they rest on follow, file by file. A lemma named `...Is` or
`...Means` spells out, condition by condition, a predicate that a method and its contract share.

## Model

| member | source | states |
|---|---|---|
| `RestoreJournal.HistoryDecidesWorld` | backups_restore.go:259-297 | over any history of legal writes, by any number of processes killed anywhere, the world is the tree at the last `committed` marker, or the starting world if there was none |
| `RestoreScript.SaveRoot.RestoreFiles` | backups_restore.go:366-486 | a whole restore under every fault: the world is what it was, or exactly the finished restore, the latter just when the marker was written. A finished restore has every file where it belongs (a world at the path of the target), with a world among the files no other save file, and everything else untouched; a request without files, with two worlds or with two files for one place is refused and changes nothing; without faults every other one completes or asks for confirmation |
| `RestoreJournal.KilledCommitKeepsWorld` | backups_restore.go:339-363 | killing commit after any number of writes keeps the world it began from |
| `RestoreJournal.RecoverRuns` | backups_restore.go:259-276 | recover, killed anywhere and however often, keeps the world; once it reaches the deletion the tree is that world |
| `RestoreJournal.InterruptedCleanup` | backups_restore.go:262-295 | after an interrupted deletion of a committed stage the restore survives if and only if the marker is still there or the surviving records are quiet |
| `CivilTime.EarliestUTCForCivilMinute` | reboot_time.go:221-237 | returns the earliest instant whose local clock shows the civil minute, and none exactly when that minute is skipped |
| `CivilTime.NextCivilDaily` | reboot_time.go:181-195 | the least firing instant of the first visited date that has one, and the least of all exactly when nothing is skipped; none when no date searched has one |
| `CivilTime.LeastIffNothingSkipped` | reboot_time.go:181-195 | what the search finds is the least instant of all if and only if no date it passes without visiting, before the first visited date that holds a daily time, holds one |
| `RebootTime.NextReboot` | reboot_time.go:127-159 | a result is an occurrence strictly later than `after`, and the least one exactly when the daily search skips nothing (always for interval and cron); no result only when nothing is in reach |
| `RebootTime.NextInterval` | reboot_time.go:133-151 | the least anchor + k * interval, k at least 1, strictly after `after`; an error exactly when there is no anchor or int64 cannot reach it, elapsed saturation included |
| `RebootTime.NoMinuteTwice` | reboot_time.go:161-179 | successive daily or cron runs never show the same civil minute twice |
| `Reboots.RebootState.Claim` | reboots.go:818-894 | claims one group under the current state: skipped for a stopped, deleted or missing server, otherwise attached to at most one restart |
| `RebootLedger.RecordKeepsAhead` | reboots.go:896-927 | recording the due run and moving on keeps every record of a schedule earlier than its next run, so no occurrence is recorded twice |
| `RebootLedger.AnnounceKeepsReconciled` | alerts.go:90-117 | announcing an outcome and finishing its entries in one step keeps the ledger |
| `Reboots.RebootState.Observe` | alerts.go:67-120 | one observation: the producer and the server status are updated, and an outcome announced exactly when the observation counts and settles the pending restart |
| `Reboots.RebootState.SaveReboot` | reboots.go:482-548 | stores the definition and flag as given, the anchor as the edit requires, the next run computed from them exactly when the schedule is enabled and new, changed or without one, and keeps every other field; or refuses: each of the five refusals exactly for its reason |
| `Reboots.RebootState.ScanWarnings` | restart_warnings.go:64-85 | warns of exactly the next runs inside their window that were not warned of, before the run time, and remembers them |
| `RebootLedger.WarnKeepsWarned` | restart_warnings.go:64-85 | a warning is issued only for an occurrence the schedule does not remember, so each (schedule, revision, run time) is warned of once |
| `Outages.VerdictIffDue` | alerts.go:150-171 | the stored streak, baseline and outage call for ServerDown if and only if, by the steps of the trace, no outage is open and unhealthy evidence follows a sign of health; and for ServerRecovered if and only if healthy evidence follows the announcement of an open outage |
| `Outages.DownIsJustified` | alerts.go:67-165 | over every run each ServerDown follows a healthy reading or a completed restart with no effective operator stop since, and after it an unbroken run of at least 3 unhealthy readings over 30 s, the latest of all, with no restart pending and no outage open |
| `Outages.NextAfterStop` | lifecycle.go:67-93 | after an operator stop the next health announcement is ServerRecovered if and only if the stop found the server already stopped and an outage open; otherwise it is ServerDown |
| `Outages.BetweenDowns` | alerts.go:158-170 | between two ServerDown lies a ServerRecovered or an operator stop of a server that was not stopped |
| `Outages.Monitor.Observe` | alerts.go:67-171 | one reading: the recorded step with its flags and the end of a restart; ServerDown and ServerRecovered are announced exactly when due by what happened before; every field is what the trace says |
| `MemoryPressure.Watch.Observe` | memory_pressure.go:42-88 | a restart is asked for exactly when the longest sustained run ending here has a new sample at least the policy duration after its beginning |
| `BackupRepository.RecoverPublishes` | backup_repository.go:159-249 | a successful Recover publishes every complete stage under its own identity, within the limits and with room for all, whose ID is free: that very directory is then the object |
| `BackupRepository.RecoverResumes` | backup_repository.go:159-249 | wherever Recover is killed, the next one ends exactly where the first would have |
| `BackupRepository.RecoverCleansUp` | backup_repository.go:159-249 | a successful Recover empties the staging area, alters no existing object, and changes nothing when repeated |
| `BackupRepository.KilledRejection` | backup_repository.go:488-539 | a Publish killed inside the removal of its rejected stage, wherever its name comes in the order: a later Recover that succeeds ends where it would have after a complete removal |
| `BackupRepository.RunKeepsQuota` | backup_repository.go:103-302 | over every run of publishes, recoveries, deletions and kills from an empty repository the bundles never exceed the limit |
| `BackupRuns.EveryPublicationOwnedOnce` | backups_app.go:734-770 | every publication is owned by exactly one succeeded run with equal bundle, item count and idempotency |
| `BackupRuns.OneOwnerIffNoneTaken` | backups_app.go:734-770 | for any manifest IDs a publication has exactly one owner if and only if no run that already owns it finds it taken by a run before it |
| `BackupRuns.RecoverTwice` | backups_app.go:734-770 | for any manifest IDs, repeating the recovery with the same publications changes nothing at any later time |
| `Deliveries.EveryRunIsLawful` | discord.go:156-253 | over every interleaving the history on disk follows the protocol: claims, sends, retries and the end in their order, with at most five sends |
| `Deliveries.AnsweredIsNeverPostedAgain` | discord.go:222-241 | over every interleaving, once a post was answered sent, failed or uncertain nothing is posted again, whatever crashes, is not written or is cancelled |
| `Deliveries.RecordingStores` | discord.go:222-241 | over every run an answer that can be written is stored as it is: a retry up to the fourth attempt with exactly its time, a fifth retry as failed, any other status unchanged |
| `Deliveries.NothingAfterTheEnd` | discord.go:156-253 | after the end of a delivery there is no claim and no retry, and at most one send, whose claim was still open when the end was recorded |
| `Deliveries.SendHasDurableClaim` | discord.go:156-253 | whoever sends has a durable claim, still open or cancelled in flight |
| `Deliveries.CancelledLeavesIffClaimed` | lifecycle.go:37-48 | over every continuation, a message can leave after its delivery was cancelled if and only if the worker had claimed it and not yet sent it |
| `Removal.RemoveServer` | deletion.go:815-912 | one attempt against a changing cluster: looks first, deletes only recorded identities within the mode, claims last, and succeeds only when everything was then seen finished; and as long as no request fails, only something it saw can stop it: before the uninstall an unfit object, another release or a foreign user, afterwards an object that could not be deleted, a claim not as it should stay, a user, or a release |
| `Deletion.Deletion.KeptClaimsSurvive` | deletion.go:815-942 | at every moment of a deletion that keeps the world no claim was ever deleted, by name and UID or by an uninstall |
| `Deletion.Deletion.Reconcile` | deletion.go:304-393 | one round in every case: nothing for a deletion that is over, gone or stale; stale when out of time before or after the attempt; completed exactly after an attempt that saw everything finished in time; and an attempt in which no request fails is stopped only by what it saw |
| `Inspection.Inspect` | deletion.go:617-734 | changes nothing; a plan is well formed, covers the whole release, misses neither seed nor Secret, and every entry rests on what was seen, a listing clear of other users included; with purge no claim is from outside the release; and as long as no request fails there is a plan unless what was seen forbids one |
| `Events.StreamIsOnePruning` | events.go:62-100 | adding events one by one with pruning equals one pruning of everything ever added |
| `Events.KeptAreNewest` | events.go:62-96 | of each class as many are kept as there are, up to 500 joins, limits, tests and player events and 2000 others, and every one kept has a later time, or the same and a greater ID, than every one of its class that is dropped |
| `EventLog.Log.AddEvent` | events.go:98-100 | the stored list is always the one pruning of everything ever added |
| `Capture.VerifyCapture` | backups_kube.go:631-691 | accepts exactly a well-formed fingerprint whose records the file or archive matches in path, type, size and digest |
| `Capture.AcceptedCapturesAgree` | backups_kube.go:631-691 | two archives accepted against one fingerprint hold the same tree |
| `Fingerprint.AcceptedAreListings` | backups_kube.go:611-629 | the parser accepts only printed lists of sound, distinct records |
| `Fingerprint.OrderDoesNotMatter` | backups_kube.go:595-608 | the same records listed in another order give the same snapshot |
| `RestoreJournal.StepWorld` | backups_restore.go:259-297 | every elementary write of recover, prepare, commit and finalize conserves the world (the tree the next completed prepare leaves); only the creation of `committed` changes it, to the tree as it stands |
| `RestoreJournal.RunKeepsWorld` | backups_restore.go:259-290 | a history without the marker keeps the world |
| `RestoreJournal.RemoveKeepsWorld` | backups_restore.go:262-274 | deleting the stage, stopped at any remnant, keeps the world |
| `RestoreJournal.CommitRuns` | backups_restore.go:339-363 | a commit that runs to its end is legal throughout, leaves exactly the replaced tree, and can still be undone |
| `RestoreJournal.ReplayComputesUndone` | backups_restore.go:263-273 | the replay loop computes the closed form of the undone tree; a replay cut short leaves the same world for the next one |
| `RestoreJournal.UndoChangesNothingIffQuiet` | backups_restore.go:263-273 | undoing changes nothing if and only if no surviving record contradicts the tree |
| `RestoreJournal.MarkerDeletedFirstLosesRestore` | backups_restore.go:295 | a concrete stage whose finished restore is lost when the marker is deleted before the journal records |
| `RestoreScript.SaveRoot.Recover` | backups_restore.go:259-276 | the recover loop performs exactly the writes of the journal model, up to the kill |
| `RestoreScript.SaveRoot.Prepare` | backups_restore.go:286-290 | whatever happens the world is kept; when it completes the tree is that world and the stage is new and empty |
| `RestoreScript.SaveRoot.ReplaceTargets` | backups_restore.go:339-361 | the replacement loop performs exactly the commit script, up to the kill |
| `RestoreScript.SaveRoot.Commit` | backups_restore.go:298-363 | refuses without touching anything unless the gate passes (stage complete, checksums, confirmation); otherwise replaces the sorted targets |
| `RestoreScript.SaveRoot.Finalize` | backups_restore.go:291-297 | marks exactly an applied restore; the marker is the only write that changes the world |
| `RestoreScript.SaveRoot.ExistingSaves` | backups_restore.go:303-323 | collects exactly the save files in place |
| `RestoreScript.SaveRoot.StageFiles` | backups_restore.go:394-419 | fills the staging map with each file's data where it belongs, with matching checksums; refuses exactly when two files belong at one place |
| `RestoreScript.SaveRoot.CountWorlds` | backups_restore.go:371-386 | counts a world exactly when there is one, and more than one exactly when two files are worlds |
| `RestoreScript.RestoredFulfils` | backups_restore.go:366-486 | the finished restore is what was asked for, file by file |
| `RestoreScript.GatePasses` | backups_restore.go:298-333 | commit replaces nothing unless everything staged is there with its checksum, nothing was replaced before, and an existing save may go |
| `RestoreScript.ReplacedIsRestored` | backups_restore.go:334-358 | what commit leaves is the promised tree: every incoming path new, other saves gone when the world is replaced, all else untouched |
| `CivilTime.ZoneOffsetsAround` | reboot_time.go:239-262 | terminates and collects every offset in force within 72 hours on either side, and no other |
| `CivilTime.FirstPassMonotone` | reboot_time.go:221-237 | where clock changes lie further apart than they jump, first passes keep the order of their civil times |
| `CivilTime.UntamedOrderFails` | reboot_time.go:221-237 | without that assumption the order fails: a concrete zone |
| `CivilTime.SearchDate` | reboot_time.go:181-195 | the least firing instant of one date, or none |
| `CivilTime.ConsecutiveDatesFindLeast` | reboot_time.go:181-195 | when the dates reached are consecutive the least instant is found |
| `CivilTime.NextCivilCron` | reboot_time.go:197-219 | the least first pass of a matching civil minute, given the library contract; none only beyond the horizon |
| `CivilTime.LeastIffSkippedDatesAreSilent` | reboot_time.go:181-195 | the same for any civil times, in terms of the search's outcome |
| `CivilTime.ShownIsResolved` | reboot_time.go:181-195 | a civil time with at most one clock change within 72 hours of it that is shown at all is shown where date arithmetic resolves it to |
| `CivilTime.UnvisitedDateIsSkipped` | reboot_time.go:181-195 | a date the search passes without visiting is one on which the time of day it started from is skipped, given at most one clock change within 72 hours of it there |
| `CivilTime.CrowdedChangesMisresolve` | reboot_time.go:181-195 | without that condition a civil time that is shown can be resolved elsewhere: a concrete zone |
| `CivilTime.NeverSkippedFindsLeast` | reboot_time.go:181-195 | when on every date within reach the time of day the search starts from is shown, with at most one clock change within 72 hours of it, the search skips nothing and finds the least instant of all |
| `CivilTime.ShownTimeVisitsItsDate` | reboot_time.go:181-195 | a time of day that is shown where it is resolved to leads to the expected date, in any zone |
| `CivilTime.SkippedDateExample` | reboot_time.go:181-195 | a concrete zone within all preconditions, and a starting point, for which the search skips a date and an earlier instant |
| `RebootTime.NextIsLeast` | reboot_time.go:143-150 | a multiple whose predecessor is not after the starting point is the least one after it |
| `RebootTime.WrapDetected` | reboot_time.go:143-150 | a product past int64 wraps to a negative number and is never taken for a result |
| `RebootTime.PrintThenParse` | reboots.go:349-354 | a minute written as HH:mm reads back |
| `RebootTime.ParseThenPrint` | reboot_time.go:93-104 | only HH:mm texts of a day are read, and each is the form its minute is written in |
| `RebootTime.ParseDaily` | reboot_time.go:88-108 | accepts exactly 1 to 1440 valid times and yields them ascending without repetition |
| `RebootTime.RebootPreview` | reboot_time.go:161-179 | 1 to 5 ascending occurrences from the anchor or the starting point, with none between one and the next exactly when the daily search from there skips nothing |
| `RebootTime.ParseInterval` | reboot_time.go:78-87 | every accepted interval lies between one hour and 8760 hours, the range the interval arithmetic is proved for |
| `RebootLedger.ReserveKeepsReconciled` | reboots.go:701-721 | a new pending restart keeps the ledger: waiting entries belong to pending or orphaned operations, announcements are unique |
| `RebootLedger.DeleteKeepsReconciled` | deletion.go:256-278 | a deleted producer orphans its operation, which is then never announced |
| `RebootLedger.TrimKeepsWaiting` | reboots.go:640-655 | trimming keeps exactly the waiting entries, in order, and fits the limit unless only waiting entries are left |
| `RebootLedger.AppendedWaiting` | reboots.go:618-655 | however many records are appended with trimming, every waiting entry stays, in order |
| `RebootLedger.SummaryIsLatest` | reboots.go:667-679 | a schedule's summary is never older than a reported occurrence: a late outcome does not overwrite a later one |
| `RebootLedger.AnnouncedIsTerminal` | alerts.go:90-117 | once its outcome is announced, an operation has no entry left waiting |
| `RebootLedger.FinishAllIs` | reboots.go:681-694 | every waiting entry of the operation gets the result and every other entry stays |
| `Reboots.RebootState.TrimHistory` | reboots.go:640-655 | the shifting loop computes the trimmed history |
| `Reboots.RebootState.RecordAndAdvance` | reboots.go:896-927 | records the due run, moves the schedule to its first run after now or disables it, and keeps the invariants |
| `Reboots.RebootState.SkipDue` | reboots.go:826-841 | every listed due schedule is recorded as skipped and moved on; the others are untouched |
| `Reboots.RebootState.ReserveRestart` | reboots.go:701-721 | reserves a restart exactly when the server exists and has none pending |
| `Reboots.RebootState.FinishOccurrences` | reboots.go:681-694 | every waiting entry of the operation, and no other, gets the result; summaries follow |
| `Reboots.RebootState.Announce` | alerts.go:90-113 | one announcement, and in the same step all entries of the operation become terminal |
| `Reboots.RebootState.CommandUncertain` | reboots.go:752-764 | an unknown command outcome marks the pending operation and its entries uncertain, and nothing else |
| `Reboots.RebootState.DemoDispatch` | reboots.go:733-750 | the demo completes the operation at once if it is still the pending one |
| `Reboots.RebootState.ReconcileRestart` | alerts.go:90-117 | an outcome is announced exactly for a newer observation that shows the marked replacement or comes after the deadline |
| `Reboots.RebootState.PersistStop` | lifecycle.go:67-93 | an operator stop is refused exactly while a restart is pending |
| `Reboots.RebootState.PersistStart` | lifecycle.go:95-111 | a start changes exactly a stopped server |
| `Reboots.RebootState.CandidateMovesForward` | reboots.go:482-548 | an edit only moves a schedule forward in (revision, next run) |
| `Reboots.RebootState.Triage` | reboots.go:842-858 | late runs are recorded as missed, unreadable schedules disabled, and exactly the rest is left to be attached |
| `Reboots.RebootState.ClaimRunning` | reboots.go:842-892 | all runs on time share one new restart, or are all skipped when one is pending or too many entries wait |
| `Reboots.RebootState.RecoverReboots` | reboots.go:151-182 | at startup overdue runs are recorded as missed, never caught up |
| `Reboots.RebootState.RecoverProcess` | integrations.go:134-150 | a process restart keeps pending restarts, forgets observations, and leaves nothing due |
| `Reboots.RebootState.CompleteDeletion` | deletion.go:256-278 | the server, its producer and its schedules are gone; the invariants hold |
| `Reboots.RebootState.CandidateIsSavedAs` | reboots.go:482-548 | what an edit computes, field by field, and that there is none exactly when no next run follows from the new anchor |
| `Reboots.RebootState.OnceEach` | reboots.go:618-721 | at every moment of every run: no occurrence recorded twice, no operation announced twice or pending for two servers, no occurrence warned of twice or outside its window, no entry of an announced operation waiting |
| `Reboots.RebootState.AddServer` | main.go:1313-1320 | storing a created server keeps every invariant of schedules, history and restarts |
| `Reboots.RebootState.PersistObservedStatus` | alerts.go:41-65 | an observed stop or start changes status and source unless the operator stopped the server or it is being deleted |
| `Reboots.RebootState.DeleteReboot` | reboots.go:462-480 | deletes exactly the schedule; the invariants hold |
| `Reboots.RebootState.BeginDeletion` | deletion.go:219-234 | marks the server as being deleted |
| `Reboots.ServerWithIs` | alerts.go:41-65 | the status and source an observation leaves, case by case |
| `Reboots.RebootState.CountsIs` | alerts.go:67-78 | which observations are taken into account |
| `Reboots.RebootState.SettlesIs` | alerts.go:90-117 | a restart is settled by a healthy, marked, different runtime started no earlier than the second of the request, or after five minutes by any reading |
| `Reboots.RebootState.SkipsAutomatedRestartsIs` | lifecycle.go:27-35 | automated restarts pass over a server being deleted or stopped |
| `Reboots.RebootState.ClaimedMeans` | reboots.go:842-892 | what a claim makes of each listed schedule: untouched before its time, joined or skipped up to a minute late, missed after that, disabled when it no longer parses |
| `Reboots.RebootState.SkippedMeans` | reboots.go:826-841 | what skipping makes of each listed schedule |
| `Reboots.RebootState.WarnsNowIs` | restart_warnings.go:64-85 | when a warning is due: the next run ahead by at most the lead, not yet warned of, the server running with no restart pending |
| `Reboots.RebootState.ScannedMeans` | restart_warnings.go:64-85 | a scan warns of the next run and remembers exactly it, or leaves the schedule alone |
| `Reboots.RebootState.RecoveredMeans` | reboots.go:151-182 | what startup makes of each schedule |
| `MemoryPressure.SustainedAppend` | memory_pressure.go:61-69 | a continuing observation extends a sustained run |
| `MemoryPressure.RunGoesOn` | memory_pressure.go:66-69 | a continuing observation extends the latest run, which stays as long as possible |
| `MemoryPressure.RunStarts` | memory_pressure.go:66-67 | an observation that does not continue the run starts a new one |
| `MemoryPressure.Watch.Interrupt` | memory_pressure.go:44-48 | a reserved restart, a stop, a deletion or a process restart ends the streak |
| `MemoryPressure.Watch.UnderPressureIs` | memory_pressure.go:42-65 | an observation counts exactly with the policy on, the server running without a pending restart, a reading newer than the streak and at most 45 seconds old, and memory in use at or above the threshold share of the limit |
| `LocalRepository.Repository.UsageLocked` | backup_repository.go:541-572 | the sum of all bundles, or an error exactly when an object is unaccountable or the sum passes int64 |
| `LocalRepository.Repository.PublishStage` | backup_repository.go:488-539 | renames a staged directory into place or removes it when it breaks a limit |
| `LocalRepository.Repository.Publish` | backup_repository.go:103-157 | the locked publish: reply and repository as specified |
| `LocalRepository.Repository.RecoverStaging` | backup_repository.go:161-217 | the recovery loop over the staging snapshot in name order |
| `LocalRepository.Repository.ListObjects` | backup_repository.go:218-242 | succeeds exactly when every object is readable under its own name |
| `LocalRepository.Repository.Recover` | backup_repository.go:159-249 | the locked recovery: result and repository as specified |
| `LocalRepository.Repository.Delete` | backup_repository.go:291-302 | removes exactly the object |
| `BackupRepository.QuotaTestIsExact` | backup_repository.go:508-510 | the int64 quota test equals the unbounded one |
| `BackupRepository.RecoverAddsOnlyStages` | backup_repository.go:159-249 | whatever Recover adds is the directory of such a stage |
| `BackupRepository.TakenFails` | backup_repository.go:184-209 | a complete stage whose ID holds another publication makes Recover fail |
| `BackupRepository.RepublishedIsDropped` | backup_repository.go:184-209 | a complete stage whose ID holds that very publication is dropped |
| `BackupRepository.KilledPublishIsRecovered` | backup_repository.go:103-217 | recovering what a Publish killed after its staging left gives the objects the whole Publish gives, and succeeds exactly when that did not break and all objects are readable |
| `BackupRepository.PublishPublishes` | backup_repository.go:103-157 | a first Publish adds exactly the object requested when content and limits allow it, and otherwise changes nothing and says why |
| `BackupRepository.UnusableIsHarmless` | backup_repository.go:159-249 | an entry that can only be discarded (the temporary directory of a killed Publish, an incomplete directory, one under a foreign name) does not change what Recover leaves or whether it succeeds |
| `BackupRepository.DoomedLeavesNothing` | backup_repository.go:159-249 | a Recover that succeeds with an entry that is unusable, breaks a limit or finds no known space ends where it would have ended without it |
| `BackupRepository.SpoiledIsStillRemoved` | backup_repository.go:159-249 | a kill inside a removal is invisible to the next Recover |
| `BackupRepository.PublishResumes` | backup_repository.go:103-157 | repeating a Publish that was killed after staging gives the same reply and repository as one that was not |
| `BackupRepository.PublishAgain` | backup_repository.go:804-815 | repeating a Publish that succeeded returns it unchanged; the same manifest under another request is refused |
| `BackupRepository.PublishKeepsQuota` | backup_repository.go:103-157 | Publish alters no existing object and keeps the total within the limit |
| `BackupRepository.RecoverKeepsQuota` | backup_repository.go:159-249 | Recover keeps the total within the limit |
| `BackupRepository.DeleteKeepsQuota` | backup_repository.go:291-302 | Delete, killed anywhere, keeps the total within the limit |
| `BackupRuns.ReconciledRuns` | backups_app.go:734-770 | run IDs stay unique and no run is left running |
| `BackupRuns.State.RecoverRuns` | backups_app.go:734-770 | the walk over runs and publications, whatever manifest IDs the runs carry; the reconciled list when a manifest ID is empty or the run's own |
| `BackupRuns.State.ClaimPublications` | backups_app.go:744-762 | each run in turn claims the publication of its ID or of its manifest ID, or is interrupted if it was running |
| `BackupRuns.RecoveredIsReconciled` | backups_app.go:734-770 | when manifest IDs are empty or the run's own, every run is settled by the publication of its ID |
| `BackupRuns.EveryPublicationHasOwner` | backups_app.go:734-770 | for any manifest IDs no run is left running and every publication has an owner |
| `BackupRuns.RunBecomes` | backups_app.go:744-762 | for any manifest IDs each run ends with the publication it claims in every field, interrupted with the message if it was running and claims none, and otherwise as it was |
| `BackupRuns.UnpublishedIsInterrupted` | backups_app.go:756-757 | a running run of which nothing was published ends interrupted, with the message |
| `BackupRuns.ForeignManifestOwnsTwice` | backups_app.go:744-762 | two concrete runs, one naming the other's publication, that both end up owning it |
| `Deliveries.StepKeeps` | discord.go:156-253 | every step of worker, panel, store and operating system keeps disk and memory in agreement with the delivery protocol |
| `Deliveries.LostResultIsUncertain` | discord.go:162-178 | a claim whose result was lost ends as uncertain, by the worker or at startup, and is not retried |
| `Deliveries.CancellingStores` | lifecycle.go:37-48 | a cancellation fails exactly a waiting delivery, or one being sent if it takes that in |
| `Deliveries.UnsureWriteBlocks` | main.go:446-457 | a write that may have been lost blocks every further one |
| `Deliveries.BlockedUntilStart` | main.go:401-407 | from then on nothing is stored and nothing claimed until the next start |
| `Deliveries.CrashThenStart` | main.go:401-459 | after a crash only a start follows, and it takes up what is on disk |
| `Deliveries.AtMostFiveSends` | discord.go:156-253 | a lawful history sends at most five times |
| `Deliveries.RecordedAgrees` | discord.go:222-241 | a retry waits at least 2^attempt seconds and at least what the service asked |
| `Deliveries.WaitingIsNotClaimed` | discord.go:156-198 | a delivery that is pending or waits for a retry is not claimed, so its cancellation is final |
| `Deliveries.SilentRuns` | discord.go:156-253 | once both copies are settled and nothing is claimed, no continuation sends |
| `Deliveries.BetweenSends` | discord.go:156-241 | between two sends in a row lie the recorded retry of the first and, not before its time, the next claim |
| `Deliveries.CancelledButSent` | lifecycle.go:37-48 | a concrete run in which a message leaves after its delivery was cancelled |
| `Events.FirstOfChain` | events.go:86-96 | among events of one class exactly the first k have fewer than k ahead of them |
| `Events.PruneThenInsert` | events.go:62-100 | pruning before an insertion does not change what the pruning after it keeps |
| `Events.AddToPruned` | events.go:98-100 | adding to a pruned list and pruning again keeps what pruning the whole list would, in order |
| `EventLog.RankIsPosition` | events.go:86-96 | in the sorted list an event's position is the number of events ahead of it |
| `EventLog.MarkNewest` | events.go:86-96 | marks exactly the events of the class with fewer than the limit ahead of them |
| `EventLog.Classify` | events.go:62-73 | splits the positions by class |
| `EventLog.FewAreAllKept` | events.go:74-76 | the shortcut for short lists agrees with pruning |
| `EventLog.PruneEvents` | events.go:62-84 | the index and keep-array code computes the pruned list |
| `EventLog.FirstOfSorted` | events.go:86-96 | the first entries of the sorted class list are exactly those with fewer than the limit ahead |
| `EventLog.SortNewest` | events.go:86-89 | a permutation of the class list, newest first |
| `Manifest.ManifestResources` | deletion.go:520-563 | accepts exactly the releases without hooks, foreign, duplicate or unsupported documents, and lists their resources |
| `Manifest.ExactlyClaimsAreKept` | deletion.go:551-556 | in an accepted release exactly the claims carry the keep policy |
| `Manifest.AcceptableIs` | deletion.go:520-563 | the accepted releases, document by document: version by kind, name, namespace, hook, policy, no repetition |
| `Cluster.PickNewest` | deletion.go:482-513 | refuses a listing with any doubtful entry, otherwise yields the first of the highest revision |
| `Cluster.Cluster.Get` | deletion.go:447-460 | one read of a cluster that changed meanwhile; an object without UID is an error |
| `Cluster.Cluster.DeleteRaw` | deletion.go:926-933 | a delete with a UID precondition removes the recorded object or nothing |
| `Cluster.Cluster.Uninstall` | deletion.go:854-858 | assumption on Helm: it removes only resources of the checked release without the keep policy |
| `Cluster.AllSoundIs` | deletion.go:488-512 | an entry is beyond doubt exactly when it decodes to a revision of this release stored under its name |
| `References.CheckWorkloads` | deletion.go:762-795 | clear exactly when nobody but the plan's own workloads uses a planned object, and those only beforehand |
| `References.CheckReferences` | deletion.go:757-813 | the answer for the listing it read, including other receipts, inventory and integration Secrets |
| `References.PlannedDeploymentsAreOwned` | deletion.go:762-776 | the plan's deployments and the replica sets they own count as owned |
| `References.OwnedIs` | deletion.go:762-776 | owned are the plan's deployments and exactly the replica sets with a deployment among their owners that was owned before them |
| `References.ProtectedIs` | deletion.go:736-748 | storage is protected by another receipt that names it, or by another server whose deployment or seed has its name |
| `References.WorkloadsClearIs` | deletion.go:776-795 | no foreign workload names a planned claim, Secret or ConfigMap, and own ones are listed only beforehand |
| `Removal.DeleteIdentity` | deletion.go:914-942 | deletes the recorded kind, namespace, name and UID and nothing else; success means the name was seen free; without a failing request it is stopped only by another UID, an unsupported kind or the object still there afterwards |
| `Removal.UninstallSparesClaims` | deletion.go:822-859 | an uninstall of the checked release removes no claim |
| `Removal.CheckPlanned` | deletion.go:829-851 | before anything is touched every planned object was seen absent or under its UID, and fit for the mode; without a failing request it refuses only for one seen unfit |
| `Removal.AllFitMeans` | deletion.go:829-851 | what the checks saw of every planned object: its name free or its recorded UID; worlds and kept seeds bound, unowned and not terminating unless they may be gone; resources of a present release owned by it |
| `Removal.FinishedMeans` | deletion.go:860-911 | a finished removal rests on sightings made after its checks: resources, Secrets and purged storage gone, kept storage in place under its recorded UID, a listing clear of users, and no release |
| `Removal.Check` | deletion.go:815-854 | the checks touch nothing and pass only for the recorded release, with all objects fit and a clear listing; without a failing request they refuse only for what they saw |
| `Removal.RemoveWorkloads` | deletion.go:854-872 | uninstall and leftover resources: deletes only recorded resources, never storage, and ends with all gone and a clear listing |
| `Removal.RemoveRest` | deletion.go:873-911 | claims confirmed or deleted by mode, Secrets deleted, release storage seen gone |
| `Removal.FitIs` | deletion.go:829-851 | when a planned object, as read, lets the attempt go on |
| `Inspection.InspectResources` | deletion.go:631-660 | every release resource is live, owned and not terminating; one managed deployment matches its manifest; refused only for a resource or deployment seen otherwise |
| `Inspection.InspectClaims` | deletion.go:661-692 | every mounted claim is a world or the seed; the seed is recorded if it is there; external claims are recorded only to be kept; refused only for an unlabelled seed or a claim that is external or missing |
| `Inspection.InspectWorlds` | deletion.go:693-709 | recorded worlds are mounted, unprotected and retained; refused only when one is seen not to be |
| `Inspection.InspectSecrets` | deletion.go:710-729 | every Secret of the server that was seen and is no release resource is planned if the deployment uses it and the ownership token proves it, and listed as retained if not; each name was looked at, and nothing else is listed |
| `Inspection.SharedReleaseIs` | deletion.go:619-623 | another server with this namespace and release |
| `Deletion.Deletion.Request` | deletion.go:80-247 | the answer and the new receipt and status in every case: another mode is refused, a completed receipt final, a deletion under way goes on, one gone stale or out of time gets ten minutes more, a first request draws up a plan or says why not |
| `Deletion.Deletion.PurgedClaimsAreRecorded` | deletion.go:815-942 | at every moment of any deletion the only claims ever deleted are worlds and seeds of the recorded plan under their UIDs, in purge mode; an uninstall removed none |
| `Fingerprint.SplitTerminated` | backups_kube.go:612 | splitting undoes NUL-terminated printing |
| `Fingerprint.TerminatedSplit` | backups_kube.go:612 | printing undoes splitting |
| `Fingerprint.ParseListing` | backups_kube.go:611-629 | parsing a printed list gives its records back, or an error exactly for a malformed or duplicate one |
| `Fingerprint.FingerprintRecords` | backups_kube.go:611-629 | the loop computes the parse |
| `Fingerprint.SortRecords` | backups_kube.go:599-603 | the sorted records of the map, whatever order it was walked in |
| `Fingerprint.OneCanonicalText` | backups_kube.go:599-608 | the canonical snapshot does not depend on the order records were listed in |
| `Fingerprint.CanonicalDecides` | backups_kube.go:410-417 | two snapshots are equal texts exactly when they record the same tree |
| `Fingerprint.AscendingIsUnique` | backups_kube.go:599-603 | there is one ascending list of any set of records |
| `Fingerprint.RemoteFingerprint` | backups_kube.go:595-608 | the snapshot is canonical and parses to the records it was made from |
| `Fingerprint.SoundIs` | backups_kube.go:622-629 | a record is a directory, or a file with a digest of 64 characters, with a readable byte count |
| `Decimals.PrintThenParse` | backups_kube.go:622-651 | a printed byte count is read back |
| `Decimals.SignedParse` | backups_kube.go:622-629 | a plus sign is accepted, a minus sign only before zero, nothing past int64 |
| `Capture.VerifyTree` | backups_kube.go:659-687 | accepts exactly the archives whose entries agree with the records one to one |
| `Capture.AcceptedIsOneToOne` | backups_kube.go:631-691 | an accepted archive has one entry per record, with the recorded byte count |
| `Capture.ValidRelativeIs` | backups.go:429-448 | an archive path is accepted exactly without forbidden characters, leading dash, slash or staging prefix, and with neither nothing nor one or two dots between slashes or ends |
| `Capture.SegmentsAre` | backups.go:442-446 | splitting at slashes yields exactly the stretches between slashes or ends |
| `Capture.AgreesIs` | backups_kube.go:659-687 | an entry agrees exactly when its name, without a closing slash, is a valid path at or under the captured one, names no save of a running server, and stands in the records with the same type and, for a file, byte count and digest |
| `SortedNats.SortUnique` | backups_restore.go:334-338 | `sort -u`: ascending, the same elements |
| `Outages.RecoveryHasDown` | alerts.go:166-170 | every ServerRecovered has a ServerDown before it, with no announcement and no effective stop between |
| `Outages.BaselineIffHealthy` | alerts.go:150-157 | there is a baseline if and only if a healthy reading that counts or a completed restart came after the last effective operator stop |
| `Outages.StreakCovers` | alerts.go:79-87 | the stored streak covers every unbroken run that ends the trace: same health, begun no later, counted no less |
| `Outages.RecoveryIsJustified` | alerts.go:67-170 | over every run each ServerRecovered ends an open outage after at least 2 healthy readings over 15 s |
| `Outages.NeighboursWithinMaxAge` | alerts.go:79-87 | two readings of a streak with none between are at most 45 seconds apart, unless the later one found the server stopped |
| `Outages.SilenceBreaksUnlessStopped` | alerts.go:79-87 | a running streak survives a reading more than 45 seconds after the one before it, at any distance, if and only if that reading finds the server stopped |
| `Outages.StreakIsLatest` | alerts.go:67-170 | the stored streak is always the latest part of what happened, unbroken, with a baseline and no pending restart |
| `Outages.StreakHealth` | alerts.go:158-160 | a streak is unbroken for one health only |
| `Outages.Monitor.Announce` | alerts.go:161-170 | the counters announce exactly when the run of steps is evidence |
| `Outages.Monitor.PersistStop` | lifecycle.go:67-93 | refused exactly while a restart is pending; records whether the server was already stopped, on which outage and baseline depend |
| `Outages.Monitor.PersistStart` | lifecycle.go:95-111 | a start changes only where a stopped server is |
| `Outages.Monitor.ReserveRestart` | reboots.go:701-721 | reserves exactly when none is pending and ends the streak |
| `Outages.Monitor.RecoverAlerts` | integrations.go:141-148 | a process restart drops streak and readings and keeps baseline, outage and pending restart |
| `Outages.PlaceIs` | alerts.go:41-65 | where an observation leaves the server: stopped by an observed stop, started only after one, untouched after an operator stop |
| `Outages.Monitor.FreshIs` | alerts.go:67-78 | a reading is taken in exactly when the operator has not stopped the server and it is newer than the last, not from the future and at most 45 seconds old |
| `OutageRuns.ParkedOutageRecovers` | lifecycle.go:67-93 | a run of the monitor whose first announcement after an operator stop is ServerRecovered |
| `OutageRuns.SilenceHiddenByStop` | alerts.go:79-87 | for every silence over 45 s, a run of the monitor that announces ServerDown across it |

## Left out

- RestoreJournal: symbolic-link and path-safety checks, directories, `sync` against power loss, the signal trap and torn journal lines are not modelled; a kill falls between two file operations.
- RestoreScript: how a backup bundle is opened and its files selected (backups_restore.go:30-236) is not modelled; kubectl copies and pod inspection are faults that may stop a restore.
- RestoreJournal.HistoryDecidesWorld: assumes of the removal of a committed stage that no record contradicting the tree outlives the marker, because the script gives no order; InterruptedCleanup states the exact condition.
- CivilTime.NextCivilDaily: finds the least instant of the first visited date that has one, not of all dates, because the search may skip a date; LeastIffNothingSkipped states exactly when it is the least of all.
- CivilTime.UnvisitedDateIsSkipped: for dates with at most one clock change within 72 hours of the starting time of day; CrowdedChangesMisresolve shows why, ShownTimeVisitsItsDate says what holds in any zone.
- CivilTime.ShownIsResolved: likewise; CrowdedChangesMisresolve is a civil time with two changes nearby for which it fails.
- CivilTime: zones whose clock changes lie closer together than they jump, and changes too close for the probe to see, are excluded by Tame and Bounded; Go's calendar enters as whole days.
- CivilTime.NextCivilCron: the cron library is assumed by its contract, and a search that finds nothing says so only up to its horizon.
- RebootTime: cron expression syntax and time-zone names are not parsed.
- Reboots: HTTP requests, audit texts and reasons, recovery of backup schedules (backups_app.go:640-658) and the grouping of due schedules by server (reboots.go:768-816) are not modelled; Claim takes any group, including one grouped before a schedule was edited.
- Reboots.RebootState.ScanWarnings: the deliveries a warning queues and the cancellation of obsolete warnings (restart_warnings.go:42-62) appear only as cancelling steps of Deliveries.
- Reboots.RebootState.Claim: the branch for a stopped server behind the check for skipped servers (reboots.go:862-867) can never be taken and is left out.
- Outages: player counts, joins and limits (alerts.go:122-141) are not modelled; the verdict on a pending restart is a parameter that Reboots.RebootState.Observe determines.
- MemoryPressure: the warning a streak queues, and the freshness of single metrics, are left out; percentages are reals. The near-copy for disk pressure would add the same proof again.
- BackupRepository: directory syncing, file locks, ZIP bytes, name syntax and payload streaming are parameters or atomic; health-probe files and cancelled contexts are left out; the S3 repository is not modelled.
- LocalRepository.Repository.PublishStage: the branch for an object that appeared meanwhile (backup_repository.go:512-526) is left out; its callers hold the lock and have checked.
- BackupRuns: publications carry distinct IDs, as the directories they are read from do.
- BackupRuns.EveryPublicationOwnedOnce: for runs whose manifest ID is empty or their own; without that, OneOwnerIffNoneTaken states exactly when a publication has one owner.
- Deliveries: modelled on values, as a step relation over memory, disk and worker, because its point is the interleaving; the message itself, the rate limit shared by all Discord deliveries and the pruning of other deliveries are left out.
- Events: distinct (timestamp, ID) pairs are assumed; the query side (events.go:106-174) is not modelled.
- Cluster: identities are compared as in the source; malformed answers of the API server other than a missing UID, error texts and attempt time limits are left out.
- Cluster.Cluster.Uninstall: that Helm removes only what the checked release holds without the keep policy is assumed, not proved; Helm deletes by name, so what it removes may carry other UIDs.
- Removal.RemoveServer: a digest stands for the manifest; two manifests with one digest are not told apart, as in the source.
- Inspection: pod specifications enter as the lists of claim and Secret names they reference (deletion.go:569-615).
- Deletion: the demo mode, the HTTP replies for malformed requests and the cleanup of uploaded seed files are left out; cancelled deliveries and the removal from the inventory are in Deliveries and Reboots.
- Fingerprint: strings are sequences of bytes; the shell pipeline that prints the records is not modelled.
- Capture: the tar format and SHA-256 are parameters (entries with size and digest, or broken), and so is the case-insensitive test for save files; names are clean, so joining paths is concatenation.
- Handlers, sign-in, webhooks, notification targets, telemetry, cloning, editing, resizing and the web interface are plumbing and not modelled.
