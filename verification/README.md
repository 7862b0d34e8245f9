# Duskrun: a verified model

Duskrun is a backup daemon. Cron schedules put runs in a queue; workers claim them and stream a dump
through codecs into a storage; a retention policy prunes what piles up; a watchdog and a storage monitor
raise alerts; an HTTP API shows progress live, edits configs that carry credentials, and guards logins.
This project models the parts of it where a mistake would be hard to see in any one function, and proves
what they promise for every input, every run of steps and every interleaving.

One module stands for each component:

| file | component |
|---|---|
| Retention.dfy | which artifacts a policy keeps |
| Sweeping.dfy | pruning and sweeping against storages that fail |
| RunQueue.dfy, Workers.dfy | the run table, its statements, and the worker pool as a concurrent protocol |
| Schedules.dfy, Dispatch.dfy | cron activations and the dispatcher's windows |
| Pipeline.dfy, PipeRun.dfy | the codec chain, the pipe between producer and storage, the joined outcome |
| Executor.dfy | one execution: artifact row, terminal status, live stream |
| LiveHub.dfy, HubRuns.dfy | live progress: ring buffer, bounded subscribers, close and cancel; whole histories of calls |
| CronGaps.dfy, Watchdog.dfy | the widest idle gap of a schedule, and notify-once episodes |
| RunEvents.dfy | failure, interruption and staleness notices and the recovery that answers them |
| StorageWatch.dfy | hysteresis on free space, reachability episodes |
| JsonTree.dfy, ConfigMask.dfy | masking of credentials in JSON configs |
| SecretRefs.dfy, SecretOrder.dfy, SecretResolver.dfy, SecretDeletion.dfy | secret references: all results the resolver can give, when map order matters, the resolver's loops, the scan that guards deletion |
| Sse.dfy | the server's event frames against the browser's incremental parser |
| Mfa.dfy, MfaSecrets.dfy, LoginLimiter.dfy | the second step of a login under concurrent requests and enrolments, when a code counts once, throttling |
| ShellQuote.dfy | quoting of remote commands against a POSIX reader of words |

`dafny verify dfyconfig.toml` checks everything.

## What is assumed

- The clock never goes back; times are integers (seconds, or milliseconds where the module says so).
- Artifact ids are unique, catalogued artifacts lie at distinct (storage, key) locations, and a newly
  recorded artifact is the newest in (created_at, id) order. A task's policy and retry count stay fixed over
  a run of steps.
- Each SQL statement or transaction, and each section under a mutex, is one atomic step. The partial
  unique index `ux_run_active` exists (it is described at internal/store/sqlite/queue.go:37).
- Login challenge tokens are never drawn twice, and no two recovery codes of a user are alike. A TOTP secret may
  be any text, proposed any number of times.
- A read of the dump returns: the producer may be slow, but not silent for ever.
- The storage monitor's process does not end between storing an episode and delivering its notice.
- There is one daemon process, whose startup reaps the runs an earlier one left behind.
- Thresholds written as floats are reals. Day, week and month of a timestamp, codecs, checksums, one-time
  codes, JSON text and the opening of secrets are arbitrary functions, with an inverse only where stated.
- A call that can fail takes its outcome from a parameter, so a statement covers every pattern of failures.

## What the proofs turned up

- A cron expression with no activation ahead makes `NextRun` answer the zero time, which is not after
  the tick, so such a task is due on every tick: `Dispatch.DueIffActivation`, `Dispatch.DryScheduleAlwaysDue`.
- The scan that guards deletion trims white space around a reference and the lookup does not: a secret
  whose name has outer white space can be deleted while in use. For configs in which nothing chains, names
  without it are safe, and only they: `SecretDeletion.ScanGuardsExactlyTrimmedNames`.
- A key ending in `_ref_ref` chains: its plaintext lands under a `_ref` key and, depending on map order, is
  opened in turn under a name the scan has never seen. The scan guards every trimmed name for a config if and
  only if nothing in it chains: `SecretDeletion.ScanGuardsExactlyChainFree`.
- Map order decides what a config resolves to, or whether it resolves, exactly when it chains or holds
  references only inside an object or array that a secret replaces: `SecretOrder.OrderIndependentExactly`.
- One code can be accepted twice, and stand behind two sessions, in two ways: it is in flight while its user
  confirms a new secret, and is recorded on the new row (`MfaSecrets.ReplacementLetsACodeTwice`); or two
  confirmations of one setup overlap, and the later one sets the row back below a code already accepted
  (`MfaSecrets.SecondConfirmationLetsACodeTwice`). A factor is accepted twice exactly when a code's step is among
  those accepted for its secret that the row does not know of: `MfaSecrets.FactorsDifferExactly`; the steps of
  each secret rise under the like condition: `MfaSecrets.SecretsRiseExactly`. An advance that names the row it
  read, and a confirmation that never lowers a secret's step, would rule out both: `MfaSecrets.GuardsSuffice`.
- An execution can end failed with an artifact recorded, exactly when only the success status could
  not be written: `Executor.Runner.Run`.
- A recovery can be reported with nothing told since the last one. It happens exactly when something to
  recover from is ahead of what was told: a recovery left an episode stored (a marker that cannot be cleared:
  `RunEvents.StuckMarkerRepeats`), or another success held it as well (`RunEvents.TwoRecoveries`), or an episode
  was stored before its notice (`RunEvents.RecoveryBeforeNotice`): `RunEvents.EarlyTurnsOn`,
  `RunEvents.RecoveriesAnswerExactly`.
- As long as each read of the dump returns, the pipeline can hang only on a storage that reports success with
  the dump still coming:
  `PipeRun.StuckIffReturnedEarly`.

## Model

| member | source | states |
|---|---|---|
| `Retention.Forget` | internal/core/retention.go:26-67 | keep and delete partition the input, both sorted by time and id, newest first, and keep is exactly the declarative set: for each rule, the newest artifact of each of the first N distinct buckets |
| `Retention.KeptPlainly` | internal/core/retention.go:26-89 | that set in times and ids alone: an artifact with fewer than keep_last later ones, or the last of its day, week or month with fewer than so many later days, weeks or months |
| `Retention.KeepByPeriod` | internal/core/retention.go:71-89 | the single pass with early stop finds exactly the artifacts that are newest in their bucket with fewer than `count` newer buckets |
| `Retention.KeepLast` | internal/core/retention.go:40-43 | the counted prefix is the same rule with each artifact its own bucket |
| `Retention.Mark` | internal/core/retention.go:38-58 | the union over keep_last and the three period rules marks exactly the keep set |
| `Retention.Split` | internal/core/retention.go:60-67 | the marked ids split the sorted list, order kept, nothing lost or repeated |
| `Retention.SortedOrdered` | internal/core/retention.go:28-36 | the copied list in newest-first order with the id as tie-break |
| `Retention.ChosenFills` | internal/core/retention.go:71-89 | a rule that finds `count` buckets keeps artifacts of `count` buckets |
| `Retention.ChosenStable` | internal/core/retention.go:71-89 | deleting what one rule passes by changes none of its choices |
| `Retention.ChosenAfterInsert` | internal/core/retention.go:71-89 | a new newest artifact makes no old artifact newly kept |
| `Retention.KeptStable` | internal/core/retention.go:26-67 | for every T with keep(S) ⊆ T ⊆ S, Forget keeps exactly keep(S) from T |
| `Retention.KeptBound` | internal/core/retention.go:26-67 | at most keep_last + daily + weekly + monthly artifacts survive |
| `Retention.NewestIsKept` | internal/core/model.go:66-71 | an enabled policy always keeps the newest artifact; a disabled one would keep nothing, which is why the sweep skips it |
| `Retention.StepFaithful` | internal/core/retention.go:159-196 | recording an artifact, or deleting any part of the delete set, keeps the keep set of the full history in the catalog |
| `Retention.PathIndependence` | internal/core/retention.go:26-67 | after any run of insertions and sweeps in which any deletions fail, Forget keeps from the surviving catalog what it would keep from the never-pruned history |
| `Retention.EmptyIsFaithful` | internal/core/retention.go:26-67 | the empty catalog starts such a run |
| `Sweeping.RetentionManager.DeleteOne` | internal/core/retention.go:171-193 | the row goes only after its object surely went |
| `Sweeping.RetentionManager.Prune` | internal/core/retention.go:159-196 | exactly the artifacts whose deletion worked lose their row and exactly those reached, opened and not kept by the storage lose their object; a failure blocks none after it, nothing kept is touched, counts and bytes equal the rows removed |
| `Sweeping.DeletedPlainly` | internal/core/retention.go:171-193 | a row goes exactly if nothing was cancelled up to it, its storage was opened by then, and both deletions worked |
| `Sweeping.RetentionManager.Orphans` | internal/core/retention.go:206-261 | each orphan once, whatever the listing order: objects under the task's scopes that no row of the task locates |
| `Sweeping.EveryArtifactIsCovered` | internal/core/retention.go:206-261 | whatever the task was renamed or moved to, each of its artifacts is inside the searched scopes |
| `Sweeping.RetentionManager.PruneTask` | internal/core/sweep.go:156-178 | the pruning half of it: a task without an enabled policy is left alone |
| `Sweeping.RetentionManager.SweepTask` | internal/core/sweep.go:156-178 | one task's pass conserves rows and bytes, leaves other tasks' listings alone, does nothing where nothing is let go, and counts exactly the objects in the task's scopes that no row of it locates |
| `Sweeping.RetentionManager.Sweep` | internal/core/sweep.go:112-152 | each turn does exactly what pruning that task does to rows and objects under its faults, up to the first turn at whose end the context is done; deleted count and freed bytes equal the rows removed, the orphan total is what the turns counted; only rows all keep rules pass by are lost and with them only their objects, no new orphan appears; a failed listing of tasks changes nothing; a clean pass leaves nothing to let go, and a pass over such a catalog deletes nothing |
| `Sweeping.DeletePresent` | internal/store/sqlite/repo.go:668-680 | deleting an artifact by id takes one row and its bytes |
| `Sweeping.PrunedIsQuiet` | internal/core/retention.go:159-196 | a fault-free prune leaves a catalog Forget lets nothing more go from |
| `Sweeping.PruneIsSweepStep` | internal/core/retention.go:159-196 | a prune with any failures is a sweep step of the task's history, so path independence applies to it |
| `RunQueue.Store.Enqueue` | internal/store/sqlite/queue.go:41-53 | appends a queued first attempt unless the task has an active run |
| `RunQueue.Store.ClaimNext` | internal/store/sqlite/queue.go:61-92 | exactly the oldest queued run starts running under the worker's name |
| `RunQueue.Store.FinishRun` | internal/store/sqlite/queue.go:97-108 | one row gets its terminal status |
| `RunQueue.Store.Requeue` | internal/store/sqlite/queue.go:114-130 | nothing beyond the budget, otherwise one more attempt under the index |
| `RunQueue.Store.ReapStale` | internal/store/sqlite/queue.go:135-157 | exactly the running runs fail, and exactly they are reported, in order |
| `RunQueue.Store.StartManualRun` | internal/store/sqlite/repo.go:599-609 | a run that starts as running, under the same index |
| `RunQueue.Store.FindActive` | internal/store/sqlite/queue.go:41-53 | whether the index holds an entry for the task |
| `Workers.StepInv` | internal/core/worker.go:119-171 | enqueues, manual runs, claims, loads, executions, decisions and restarts, each with any failed write, keep all four invariants of queue, claims, holders and endings |
| `Workers.RunInv` | internal/core/worker.go:119-171 | so does every interleaving of any number of workers |
| `Workers.QueueSafety` | internal/store/sqlite/queue.go:41-92 | in every reachable state: one active run per task, each run claimed at most once, claims in id order and older than anything queued |
| `Workers.NoSharedRun` | internal/store/sqlite/queue.go:61-92 | no two holders share a run, and the row names its holder |
| `Workers.AttemptIsPosition` | internal/core/worker.go:159-170 | a run's attempt number is its position in its chain |
| `Workers.RetriesCountUp` | internal/core/worker.go:159-170 | chains carry attempts 1, 2, …, within retries + 1, each made only after the one before failed |
| `Workers.ChainEndsOnce` | internal/core/worker.go:131-171 | a chain is pending, or ended in exactly one way (success, one failure notice at exhaustion, refused requeue, failed task load, manual end), or was cut off by a restart |
| `Workers.ProcessNext` | internal/core/worker.go:119-171 | one imperative turn of a worker over the store: the first queued run is claimed and executed so, and nothing happens to an empty queue; a run of that machine as well |
| `Workers.Execute` | internal/core/worker.go:131-171 | one imperative execution of a claimed run: the run fails if its task cannot be loaded, succeeds if its execution did, and otherwise fails and is queued once more exactly if an attempt is left, the insert is stored and no other run of the task is queued or running; these are the steps of a run of that machine |
| `Workers.EnqueueOne` | internal/store/sqlite/queue.go:41-53 | an enqueue is a step of that machine |
| `Workers.RunManually` | cmd/duskrun/run.go:45-54 | so is a manual run from its start to its end, which is refused beside an active run |
| `Workers.Boot` | cmd/duskrun/serve.go:43-46 | and a start of the daemon, at which exactly the runs in progress fail |
| `Workers.First` | internal/store/sqlite/queue.go:61-75 | the subselect picks the first queued run |
| `Schedules.NextIsActivation` | internal/core/schedule.go:24-30 | the next run time is an activation, with none before it |
| `Dispatch.DueIffActivation` | internal/core/dispatcher.go:60-74 | a task is due exactly when an activation fell in the window, if and only if its schedule still has an activation ahead of the last tick |
| `Dispatch.DryScheduleAlwaysDue` | internal/core/schedule.go:24-30 | a cron with no activation is due on every tick |
| `Dispatch.EnqueuedExactly` | internal/core/dispatcher.go:50-84 | a tick appends one queued run for exactly the due tasks without an active run whose insert the store took, and changes nothing else |
| `Dispatch.Dispatcher.Tick` | internal/core/dispatcher.go:50-84 | the loop does that, and the window moves on only if the tasks were listed |
| `Dispatch.WindowsTile` | internal/core/dispatcher.go:50-84 | the windows of the successful ticks tile time, whatever ticks failed in between |
| `Dispatch.EachActivationOnce` | internal/core/dispatcher.go:50-84 | exactly one tick looks at each activation |
| `Dispatch.CausesDiffer` | internal/core/dispatcher.go:50-84 | two ticks that find a live schedule due do so for different activations |
| `Pipeline.Chain.Write` | internal/core/pipeline.go:102-116 | a write ripples down any number of stateful writers and goes through exactly if, layer by layer, no call fails and the pipe refuses nothing; every layer below has then passed on exactly its output so far, chunk by chunk |
| `Pipeline.Chain.Copy` | internal/core/pipeline.go:118 | the copy loop delivers the whole dump exactly if the dump is clean and all of it passes the layers, and otherwise reports a failure |
| `Pipeline.Chain.CloseAll` | internal/core/pipeline.go:120-126 | closing inner to outer flushes each layer through the ones after it, whatever failed before; after a good copy it succeeds exactly if all of it goes through |
| `Pipeline.Chain.Feed` | internal/core/pipeline.go:102-133 | the interleaved stream succeeds exactly when every writer opens, the dump is clean and the dump goes through layer after layer as if each ran alone; with obliging writers and pipe that is always; the pipe then holds enc_n(…enc_1(dump)) |
| `Pipeline.CompletesPasses` | internal/core/pipeline.go:118-126 | what can be closed to the end can be written |
| `Pipeline.PassesPrefix` | internal/core/pipeline.go:118 | what passes does so from its first chunk on |
| `Pipeline.ObligingCompletes` | internal/core/pipeline.go:102-133 | where no call fails and the pipe takes everything, everything goes through |
| `Pipeline.CloseLayer` | internal/core/pipeline.go:120-126 | closing one layer makes its output complete and leaves the closed ones complete |
| `Pipeline.ClosedIsEncoded` | internal/core/pipeline.go:102-133 | complete layers compose to the encoding of the dump |
| `Pipeline.DecodeRestores` | internal/core/pipeline.go:97-101 | undoing the codecs last to first restores the dump |
| `Pipeline.TarEncodes` | internal/codec/tar/tar.go:87-112 | tar's archive depends on the bytes alone, not on how they were written, and appears whole at close |
| `Pipeline.TarWriter.Write` | internal/codec/tar/tar.go:87-91 | buffers and counts what the buffer took |
| `Pipeline.TarWriter.Close` | internal/codec/tar/tar.go:93-112 | emits header, body and trailer of everything written, which is what that codec says |
| `Pipeline.ProcStream.Read` | internal/dumper/execstream/execstream.go:50-61 | data while there is some; end of file only for a process that exited cleanly, which is waited for once; an error after an unclean exit or a close |
| `Pipeline.ProcStream.Close` | internal/dumper/execstream/execstream.go:64-73 | closing reaps the process exactly once |
| `Pipeline.CountReader.Read` | internal/core/pipeline.go:147-158 | cumulative totals, reports rising and at least an interval apart |
| `PipeRun.StepInv` | internal/core/pipeline.go:44-95 | no step loses, repeats or reorders bytes between the producer's writes and the storage's reads |
| `PipeRun.RunInv` | internal/core/pipeline.go:44-95 | nor does any run of both sides |
| `PipeRun.RunsEnd` | internal/core/pipeline.go:44-95 | every run is finite: no longer than the bytes to write plus a constant |
| `PipeRun.StuckIffReturnedEarly` | internal/core/pipeline.go:74-80 | the only way for both sides not to finish is a storage that reports success with the dump still coming |
| `PipeRun.NeverStuck` | internal/core/pipeline.go:74-80 | a storage that reads to the end or fails always lets both sides finish |
| `PipeRun.CanReadAll` | internal/core/pipeline.go:74-95 | from wherever it stands a storage can read all that is still to be written, and succeed |
| `PipeRun.ResultMeaning` | internal/core/pipeline.go:84-95 | a result is returned exactly when neither side failed; its checksum is then of every byte the producer wrote, and its size is right exactly if the storage reported what it was given |
| `PipeRun.RunPipeline` | internal/core/pipeline.go:44-133 | over every feed, dump and behaviour of the storage: a result exactly when everything opened, the dump was clean and goes through the layers, and the storage took it; each other case is told apart; the storage then holds enc_n(…enc_1(dump)), checksummed as such, and decoding restores the dump |
| `Executor.Runner.Run` | internal/core/executor.go:69-93 | the live stream is the run's transcript and is closed after it; success exactly when it resolved, stored, recorded and finished; the row becomes terminal; one artifact row of that size and checksum exactly when it resolved, stored and inserted, so for every success, and for a failure when only the success status could not be written |
| `Executor.Runner.Attempt` | internal/core/executor.go:96-241 | phases, log lines and counts in order up to the first failing step; artifact row before success status |
| `Executor.StatusIsLastAndOnly` | internal/core/executor.go:69-93 | the terminal status is shown once, last, and agrees with the outcome |
| `Executor.TranscriptIsTold` | internal/core/executor.go:69-241 | a viewer sees the phases in order and none past the one that failed, each line under its own phase, byte counts only while streaming; under each phase exactly its lines, those about the artifact only when it was recorded, and the failure at the end of the phase it happened in |
| `Executor.FiguresAreTold` | internal/core/executor.go:198-216 | the expected size, if there is one, and every byte count are shown as they come |
| `LiveHub.Hub.Publish` | internal/core/progress.go:122-189 | appends the next numbered event to the run's history, offers it to every subscriber of the run and leaves every other subscriber, and all registrations, as they were; makes the run live on first use |
| `LiveHub.Hub.FanOut` | internal/core/progress.go:106-119 | the tail stays the last 256 events and exactly the registered channels are offered the event, once each, never blocking: taken if there is room, else dropped |
| `LiveHub.Hub.Ensure` | internal/core/progress.go:95-103 | the live run of an id, made on first use |
| `LiveHub.Hub.Subscribe` | internal/core/progress.go:213-237 | the snapshot is the last 256 events and the channel gets what follows it |
| `LiveHub.Hub.Cancel` | internal/core/progress.go:226-236 | detaches its own subscriber only, and never one of a later live run with the same id |
| `LiveHub.Hub.Close` | internal/core/progress.go:193-206 | closes exactly the registered channels, each once, and forgets the run |
| `LiveHub.Hub.Receive` | internal/core/progress.go:213-237 | a reader gets the oldest buffered event, and the end only when closed and drained |
| `LiveHub.LastNGrows` | internal/core/progress.go:106-119 | trimming event by event is the same as keeping the last 256 of the history |
| `LiveHub.SeenIsOrdered` | internal/core/progress.go:106-119 | snapshot plus received events are a strictly increasing subsequence of the history |
| `LiveHub.SeenIsGapless` | internal/core/progress.go:213-237 | and a stretch without gap when nothing was dropped |
| `HubRuns.ToldPublish` | internal/core/progress.go:106-119 | a publication changes nothing of what subscribers were told so far |
| `HubRuns.ToldIsKept` | internal/core/progress.go:106-119 | what a subscriber was told is an increasing part of the history, one stretch of it if nothing was dropped, and up to the last event once its channel is drained |
| `HubRuns.Drive` | internal/core/progress.go:95-237 | over any sequence of publishing, subscribing, reading, cancelling and closing, runs, histories and what each subscriber was offered and read are those a caller can work out from the calls alone; snapshot plus reads keep that promise; and a channel is closed exactly if it was attached when its run ended |
| `HubRuns.ShownOffered` | internal/core/progress.go:106-119 | a publication reaches exactly the subscribers that watch the run, and is dropped for those with 256 unread |
| `HubRuns.ShownDetached` | internal/core/progress.go:226-236 | a cancellation ends the watching of one subscriber, and only while its run is live |
| `HubRuns.ShownEnded` | internal/core/progress.go:193-206 | closing a run ends the watching of all its subscribers |
| `LiveHub.FitsPublish` | internal/core/progress.go:106-119 | one event to any set of subscribers keeps the whole hub consistent |
| `LiveHub.FitsClose` | internal/core/progress.go:193-206 | ending a run keeps it consistent, so no closed channel is sent on or closed again |
| `CronGaps.WalkCronGaps` | internal/core/watchdog.go:279-299 | the walk is covered exactly if it gets past the window and eight gaps, or to the end of the schedule, within its budget; it then returns the exact widest of the gaps that start in the window or are among the first eight |
| `CronGaps.ProbeCronGaps` | internal/core/watchdog.go:303-318 | the probe understates any gap that starts a step before the window's end by less than one step, and never overstates |
| `CronGaps.CronMaxInterval` | internal/core/watchdog.go:251-275 | nothing exactly if there is no schedule, nothing ahead or not one gap in view; otherwise a wait that really occurs, no more than a probe step short of any gap that starts by a probe step before the window's end, and the widest gap in view if the walk is covered |
| `CronGaps.WatchdogThreshold` | internal/core/watchdog.go:202-220 | off, explicit, or derived: twice such an interval, an hour at least, and off exactly if there is none; never below a gap that starts no later than one probe step before the window's end |
| `CronGaps.ProbesBound` | internal/core/watchdog.go:303-318 | evenly spaced probes bound any gap to less than a step above their widest wait |
| `CronGaps.WalkStep` | internal/core/watchdog.go:279-299 | one more activation brings exactly one more gap into view |
| `CronGaps.CoveredIsWidest` | internal/core/watchdog.go:279-299 | a width that one of those gaps has and none exceeds is that maximum |
| `Watchdog.Monitor.Check` | internal/core/watchdog.go:114-170 | markers and reports for every pattern of failed writes and of workers clearing markers in between; what it reports is, in order, what it adds to the episode log as fired; only stale tasks without a marker are reported, and a fault-free check leaves markers for exactly the enabled stale tasks and reports exactly the newly stale ones |
| `Watchdog.Monitor.Mark` | internal/store/sqlite/watchdog.go:72-88 | a marker is set as its task is reported |
| `Watchdog.Monitor.Clear` | internal/store/sqlite/watchdog.go:91-98 | clearing an absent marker does nothing |
| `Watchdog.Monitor.Recover` | internal/core/runevents.go:98-122 | a success closes its task's episode at once |
| `Watchdog.Monitor.DropUnwatched` | internal/core/watchdog.go:159-170 | markers of tasks no longer enabled go |
| `Watchdog.NeverTwice` | internal/core/watchdog.go:114-170 | in the episode log two reports of a task have a clearing of its marker between them |
| `Watchdog.ReportedTwice` | internal/core/watchdog.go:114-170 | so two checks that report the same task have its marker cleared between the two reports |
| `Watchdog.Play` | internal/core/watchdog.go:114-170 | over any run of checks and recoveries, with any failed writes, markers and reports are what the checks one after another give, and no task is reported again without its marker having been cleared |
| `Watchdog.AlternatesSnoc` | internal/core/watchdog.go:114-170 | reports and clearings of a task alternate |
| `Watchdog.StaleMeansSilence` | internal/core/watchdog.go:175-197 | stale exactly when neither success (or creation) nor enabling happened within the threshold |
| `RunEvents.RecoveriesAnswerExactly` | internal/core/runevents.go:55-122 | over any interleaving of workers, the watchdog and restarts, with any failed calls, every recovery answers something told since the one before if and only if none was reported while ahead |
| `RunEvents.MatchStep` | internal/core/runevents.go:55-122 | whether what is stored is ahead of what was told, behind it or even can be followed from stored episodes and who holds what, without knowing what was told |
| `RunEvents.EarlyTurnsOn` | internal/core/runevents.go:98-122 | it gets ahead exactly by a recovery that leaves an episode stored, by one that another success holds as well, or by an episode stored before it is told |
| `RunEvents.OrderlyRunsAnswer` | internal/core/runevents.go:98-122 | where none of the three happens every recovery answers |
| `RunEvents.LooseStep` | internal/core/watchdog.go:129-170 | what each step leaves to recover from |
| `RunEvents.RecoveryBeforeNotice` | internal/core/watchdog.go:140-147 | a run in which a success reports the recovery of a stale backup before the watchdog tells of it |
| `RunEvents.TwoRecoveries` | internal/core/runevents.go:103-114 | a run in which two successes list one marker before either clears it, and both report |
| `RunEvents.StuckMarkerRepeats` | internal/core/runevents.go:103-114 | a marker that could not be cleared: a run with two recoveries and one report |
| `RunEvents.OneRecoveryPerEpisode` | internal/core/runevents.go:98-122 | where every recovery answers, something was reported between any two |
| `RunEvents.TaskAlerts.Report` | internal/core/runevents.go:68-73 | alone, a terminal failure or an interruption is always told, and opens the failure episode if it can be stored; a run of the step machine |
| `RunEvents.TaskAlerts.Check` | internal/core/watchdog.go:129-157 | alone, the watchdog tells of a stale task without a marker once the marker is stored; a run of the step machine |
| `RunEvents.TaskAlerts.Succeed` | internal/core/runevents.go:55-122 | alone, a success closes both episodes and reports at most one recovery, which answers something exactly unless what is stored is ahead; with working calls it recovers exactly what was told unless what is stored is ahead or lost; a run of the step machine |
| `StorageWatch.LowLevelMeaning` | internal/core/monitor.go:353-372 | a level is entered below max(share, rounds) and left only with a fifth more than that |
| `StorageWatch.LevelsPlainly` | internal/core/monitor.go:353-372 | the levels in whole numbers: a twentieth of the volume or one round, a tenth or three rounds, and a fifth more to leave |
| `StorageWatch.Idempotent` | internal/core/monitor.go:353-372 | judging the same observation again changes nothing |
| `StorageWatch.Monotone` | internal/core/monitor.go:353-372 | more free space never grades worse, a worse past never grades better |
| `StorageWatch.SpaceStep` | internal/core/monitor.go:314-348 | one observation keeps alerts spaced |
| `StorageWatch.AlertsAreSpaced` | internal/core/monitor.go:314-348 | two alerts at one level have an observation at least 20% above its threshold between them |
| `StorageWatch.Storage.JudgeCapacity` | internal/core/monitor.go:314-348 | stored level and alerts for every pattern of store failures |
| `StorageWatch.Storage.ProbeFailed` | internal/core/monitor.go:280-298 | the second miss in a row opens the episode, and only opening alerts |
| `StorageWatch.Storage.ProbeOk` | internal/core/monitor.go:300-312 | closing an open episode is what reports recovery, so the two strictly alternate |
| `StorageWatch.Storage.Restart` | internal/store/sqlite/alert.go:14-53 | also across restarts, which forget only the miss count |
| `ConfigMask.UnmaskUndoesMask` | internal/api/config_mask.go:71-164 | unmask(mask(c), c) = c for every JSON tree |
| `ConfigMask.MaskIdempotent` | internal/api/config_mask.go:71-98 | masking twice is masking once |
| `ConfigMask.MaskRevealsExactlyTheRest` | internal/api/config_mask.go:41-49 | two configs mask alike exactly when they differ in nothing but the text of non-empty credentials |
| `ConfigMask.MaskAt` | internal/api/config_mask.go:71-98 | path by path: a non-empty credential-named string shows as the mask, everything else as it is |
| `ConfigMask.NoCredentialShows` | internal/api/config_mask.go:71-98 | no other string shows under a credential's name at any depth |
| `ConfigMask.NamesPlainly` | internal/api/config_mask.go:167-177 | which names are credentials: six words, alone or after an underscore, unless the name ends in `_ref` |
| `ConfigMask.ShownPlainly` | internal/api/config_mask.go:71-98 | at every depth four bullets show for a non-empty string under such a name, and every other string as it is |
| `ConfigMask.HoldsPlainly` | internal/api/config_mask.go:71-98 | a credential or a mask is found exactly if some path ends in one |
| `ConfigMask.UnmaskAt` | internal/api/config_mask.go:124-164 | unmasking reads the stored tree exactly where the incoming one has a masked field, and drops masks with nothing behind them |
| `ConfigMask.UntouchedFieldsKeepTheirValue` | internal/api/config_mask.go:24-28 | whatever else a client edits, a value sent back as shown keeps what is stored |
| `ConfigMask.MaskLeftOnlyIfStored` | internal/api/config_mask.go:120-123 | a mask is left in an object field only where the stored tree had one |
| `ConfigMask.MaskValue` | internal/api/config_mask.go:71-98 | the in-place walk, in any key order, computes that mask and reports whether a credential was there |
| `ConfigMask.UnmaskValue` | internal/api/config_mask.go:124-164 | the in-place walk, in any key order, computes that unmasking and reports whether a mask was there |
| `ConfigMask.MaskSecrets` | internal/api/config_mask.go:50-67 | untouched text stays byte for byte, unreadable text shows nothing |
| `ConfigMask.UnmaskSecrets` | internal/api/config_mask.go:102-118 | what cannot be read or needs nothing is taken as sent |
| `ConfigMask.TextRoundTrip` | internal/api/config_mask.go:100-118 | for any text format that carries the numbers it reads: what is shown reads as the mask of what is stored, and sending it back restores the config if and only if the stored text could be read |
| `SecretResolver.ResolveMap` | internal/core/secrets.go:73-112 | for every key order, with or without visiting inserted keys, the loop gives one of the outcomes the step relation allows, and rests on the references it opened alone: any opener with the same answers to them has that outcome too; where nothing chains these are references the config holds |
| `SecretResolver.ResolveSlice` | internal/core/secrets.go:114-133 | the same for arrays |
| `SecretResolver.VisitKey` | internal/core/secrets.go:75-110 | one turn of that loop is one step of the relation, or an error it allows |
| `SecretResolver.ResolveOrderFree` | internal/core/secrets.go:73-133 | for a config in which order does not matter the loops compute the substituted config, or fail when a reference cannot be opened |
| `SecretOrder.OrderIndependentExactly` | internal/core/secrets.go:73-133 | all orders of keys give the same, for every opener, if and only if nothing chains and no reference is found only inside a container that a secret replaces |
| `SecretOrder.OutcomesExactly` | internal/core/secrets.go:73-133 | without chains: the substituted config is a result exactly when the references every order opens do open, an error exactly when one that some order opens does not, and nothing else is a result |
| `SecretOrder.OrderFreeResolves` | internal/core/secrets.go:73-133 | what the one result is when order does not matter |
| `SecretOrder.ReferencesFirstGive` | internal/core/secrets.go:73-133 | visiting the references of each object first opens no more than every order must |
| `SecretOrder.ShortestFirstGives` | internal/core/secrets.go:73-133 | visiting shorter keys first never opens a substituted value, even in a config that chains |
| `SecretOrder.SomeOrderFails` | internal/core/secrets.go:73-133 | a reference that cannot be opened, and that some order opens, is an error in some order |
| `SecretOrder.ChainFails` | internal/core/secrets.go:93-109 | where something chains, a substituted value that cannot be opened is an error in some order |
| `SecretOrder.ChainDependsOnOrder` | internal/core/secrets.go:93-109 | a config whose order decides whether a second reference is opened |
| `SecretOrder.ClashDependsOnOrder` | internal/core/secrets.go:75-109 | a config with an object beside its reference, whose order decides whether there is an error |
| `SecretRefs.CollectRefs` | internal/store/sqlite/delete.go:186-203 | collects exactly the names of all `_ref` strings at any depth |
| `SecretRefs.RefsPlainly` | internal/store/sqlite/delete.go:186-203 | those are the strings at all paths that end in a name with `_ref` |
| `SecretRefs.RefNamePlainly` | internal/store/sqlite/delete.go:153-168 | the name is the string without the scheme and without outer white space |
| `SecretRefs.VisitPlainly` | internal/core/secrets.go:93-109 | one visit opens a non-empty string under base + `_ref` and puts the plaintext under base, unless a non-empty string is there |
| `SecretRefs.MayIsScanned` | internal/store/sqlite/delete.go:186-203 | the scan knows the name of every reference the config holds and some order opens |
| `SecretDeletion.SameOutcomes` | internal/core/secrets.go:49-69 | where nothing chains, openers that agree on those references allow the same outcomes |
| `SecretDeletion.OpenInPlainly` | internal/core/secrets.go:49-69 | the lookup strips the scheme and nothing else |
| `SecretDeletion.UnreferencedIsUnused` | internal/store/sqlite/delete.go:115-121 | where nothing chains, deleting a trimmed name the scan does not report changes no outcome of any order |
| `SecretDeletion.MissedReference` | internal/store/sqlite/delete.go:186-203 | for every name with outer white space: a config that uses it and that the scan misses |
| `SecretDeletion.ScanGuardsExactlyTrimmedNames` | internal/store/sqlite/delete.go:153-168 | the guard works for every config without chains if and only if the name has no outer white space |
| `SecretDeletion.ChainMissed` | internal/core/secrets.go:93-109 | for every config that chains: a trimmed name the scan does not report and whose deletion changes an outcome |
| `SecretDeletion.ScanGuardsExactlyChainFree` | internal/store/sqlite/delete.go:115-121 | for one config the scan guards every trimmed name if and only if nothing in it chains |
| `SecretDeletion.ReferrersAre` | internal/store/sqlite/delete.go:121-151 | no referrers are listed exactly when nothing refers to the name |
| `SecretDeletion.Store.SecretRefs` | internal/store/sqlite/delete.go:121-151 | referrers in order: connections, storages, channels, by password reference or config |
| `SecretDeletion.Store.DeleteSecret` | internal/api/handlers_delete.go:56-80 | refused exactly while something refers to it; otherwise only that secret goes, and for a trimmed name no password opens differently and no config without chains has other outcomes, whatever the key order |
| `Sse.ParseResumes` | web/src/api/client.ts:172-197 | parsing any text in two parts, carrying the rest over, is parsing it whole |
| `Sse.Client.Feed` | web/src/api/client.ts:172-197 | one read delivers the events of the frames it completes and keeps the rest |
| `Sse.Client.Stream` | web/src/api/client.ts:168-197 | any list of chunks delivers what their concatenation holds |
| `Sse.SplitJoins` | web/src/api/client.ts:184 | splitting into lines loses nothing |
| `Sse.ParseOfText` | internal/api/handlers_stream.go:139-148 | printed frames, heartbeats among them, parse to exactly their events |
| `Sse.WirePlainly` | internal/api/handlers_stream.go:139-148 | the frames as written, and what a line is taken for |
| `Sse.NonEmptyPlainly` | internal/api/handlers_stream.go:118-126 | the replayed lines are the non-empty ones, in order |
| `Sse.RoundTrip` | internal/api/handlers_stream.go:89-148 | any events and heartbeats, cut into chunks anywhere, are delivered exactly, in order, once each |
| `Sse.CutShort` | web/src/api/client.ts:172-197 | a stream that breaks off anywhere has delivered a prefix of the events |
| `Sse.Replay` | internal/api/handlers_stream.go:114-136 | the stored log's non-empty lines, the size if any, the status; numbered from 1 without gap |
| `Mfa.Pending.Put` | internal/api/mfa.go:151-161 | stores for the lifetime and purges exactly what has expired |
| `Mfa.Pending.Update` | internal/api/mfa.go:165-180 | only the named key is touched: a live entry gets what the change makes of it, keeping its expiry, or is dropped; an expired one is dropped; nothing comes to life and every other entry stays |
| `Mfa.Pending.Get` | internal/api/mfa.go:183-187 | a copy of the live entry; live entries stay as they are |
| `Mfa.Pending.Take` | internal/api/mfa.go:190-194 | whoever gets the value has removed it |
| `Mfa.VerifyTOTP` | internal/auth/totp.go:68-90 | the bounded search, against its specification |
| `Mfa.VerifyMeaning` | internal/auth/totp.go:64-90 | accepted exactly when six characters long and belonging to a step within one of the clock's and newer than the last; the earliest such step is recorded (section 5.2 of RFC 6238) |
| `Mfa.TokensStep` | internal/api/handlers_mfa.go:136-218 | every step keeps challenges, requests and sessions with the account of the challenge, and a used challenge gone |
| `Mfa.StepsStep` | internal/store/sqlite/mfa.go:68-77 | every step keeps accepted steps rising per row and near the clock |
| `Mfa.SpentStep` | internal/store/sqlite/mfa.go:219-231 | every step keeps spent recovery codes spent |
| `Mfa.OffersStep` | internal/api/handlers_mfa.go:253-292 | every step keeps a passkey challenge in one place |
| `Mfa.ProofsStep` | internal/api/handlers_mfa.go:136-218 | every step keeps each accepted factor with one request, then at most one session |
| `Mfa.OwnersStep` | internal/api/handlers_mfa.go:136-248 | every step keeps enrolments with one account, and codes with the secret and enrolment they were checked against, never a newer one than they are recorded on |
| `Mfa.KnownStep` | internal/store/sqlite/mfa.go:36-77 | every step keeps what a row knows: codes accepted for its secret are recorded on it or were accepted before it was stored, and those on it are newer than the step that confirmed it |
| `Mfa.RunInv` | internal/api/handlers_mfa.go:136-506 | over every interleaving of requests, setups, confirmations and code changes |
| `Mfa.OneSessionPerChallenge` | internal/api/handlers_mfa.go:208-218 | a challenge yields at most one session, within five minutes, for its own account |
| `Mfa.WrongAnswersCount` | internal/api/handlers_mfa.go:190-193 | a wrong answer is counted, and the fifth throws the challenge away |
| `Mfa.ConfirmationPlainly` | internal/api/handlers_mfa.go:470-506 | a confirmation takes the live pending secret, is approved exactly by a code of it, and puts a row with that code's step in the old row's place |
| `Mfa.CodeSpentOnce` | internal/store/sqlite/mfa.go:219-231 | a recovery code is spent at most once |
| `Mfa.AcceptedStepsRise` | internal/store/sqlite/mfa.go:68-77 | for one enrolment's row accepted steps strictly increase, each within one step of the clock read when its code was checked |
| `MfaSecrets.OnlyLateStepsBreakTheRise` | internal/store/sqlite/mfa.go:63-77 | a step keeps the accepted codes of each user's secret rising unless, and only unless, it takes a code overtaken by a step that its row does not know of: any accepted one if the row is another than the code was checked against, one from before the row was stored if not |
| `MfaSecrets.SecretsRiseExactly` | internal/store/sqlite/mfa.go:63-77 | over any run they rise if and only if no step did that |
| `MfaSecrets.OnlyReplaysRepeat` | internal/store/sqlite/mfa.go:63-77 | a step accepts a factor a second time exactly if it is a code whose step is among those its row does not know of |
| `MfaSecrets.FactorsDifferExactly` | internal/api/handlers_mfa.go:136-218 | over any run no code, recovery code or assertion is accepted twice if and only if no step did that |
| `MfaSecrets.LateCauses` | internal/store/sqlite/mfa.go:36-77 | a late code meets a row stored after its check, or one stored again for its secret below a step accepted for it |
| `MfaSecrets.GuardsSuffice` | internal/store/sqlite/mfa.go:36-77 | were the row part of the advance and a secret's step never lowered, no code would be late or replayed |
| `MfaSecrets.EverySessionHasItsOwnFactor` | internal/api/handlers_mfa.go:136-218 | every session stands on an acceptance of its own, of a factor of its own account; two stand on the same factor only if it is a code accepted on two rows |
| `MfaSecrets.SessionsOfARun` | internal/api/handlers_mfa.go:136-218 | in a run without a replay no factor stands behind two sessions |
| `MfaSecrets.ReplacementLetsACodeTwice` | internal/api/handlers_mfa.go:227-248 | a reachable state with two sessions on one code, around the replacement of its enrolment |
| `MfaSecrets.SecondConfirmationLetsACodeTwice` | internal/api/handlers_mfa.go:467-506 | a reachable state with two sessions on one code, around a second confirmation of the same setup |
| `LoginLimiter.ChainIsLongest` | internal/api/auth.go:323-347 | the counter's meaning: the longest run of last failures with gaps under the window |
| `LoginLimiter.OneLockoutPerChain` | internal/api/auth.go:319-347 | two lockouts of a key have a gap of a window between their failures |
| `LoginLimiter.LockoutHappens` | internal/api/auth.go:319-347 | a chain that reaches the limit locks out at its tenth failure |
| `LoginLimiter.TimesPlainly` | internal/api/auth.go:323-356 | a failure of a key is remembered, a success forgets them, other keys do not matter |
| `LoginLimiter.BlockedPlainly` | internal/api/auth.go:300-316 | locked out exactly while the last ten failures, and now, follow one another within fifteen minutes; the wait is the rest of the last quarter |
| `LoginLimiter.FailPlainly` | internal/api/auth.go:323-347 | the delay is a tenth of a second per failure of the longest chain among the keys, two seconds at most; exactly the keys whose chain has just reached ten are reported |
| `LoginLimiter.Limiter.Blocked` | internal/api/auth.go:300-316 | answers as the full failure log would |
| `LoginLimiter.Limiter.Fail` | internal/api/auth.go:323-347 | delay and reported lockouts are those of the full log |
| `LoginLimiter.Limiter.Succeed` | internal/api/auth.go:350-356 | a success starts the keys' chains afresh |
| `LoginLimiter.Limiter.Sweep` | internal/api/auth.go:360-369 | drops exactly the counters past the window, and the log they stand for is unchanged |
| `LoginLimiter.Play` | internal/api/auth.go:282-369 | over any history of calls the counters answer as the full log |
| `LoginLimiter.SweepsAreInvisible` | internal/api/auth.go:358-369 | inserting sweeps anywhere changes no answer |
| `LoginLimiter.UnsweptInTime` | internal/api/auth.go:358-369 | a history with its sweeps removed is still a history |
| `LoginLimiter.PlayUnswept` | internal/api/auth.go:282-369 | two limiters that see the same calls, one swept at any times and one never, answer alike |
| `ShellQuote.QuoteReadsBack` | internal/connector/dockerproxy/docker_ssh_proxy.go:329-337 | a quoted argument reads as one word, itself, whatever follows |
| `ShellQuote.QuotePlainly` | internal/connector/dockerproxy/docker_ssh_proxy.go:329-345 | exactly the non-empty arguments of letters, digits and seven signs go without quotes |
| `ShellQuote.RoundTrip` | internal/connector/dockerproxy/docker_ssh_proxy.go:321-345 | tokenizing and quote removal give back exactly the arguments, for every list of strings (section 2.2 of the POSIX.1 Shell Command Language) |
| `ShellQuote.JoinIsInjective` | internal/connector/dockerproxy/docker_ssh_proxy.go:321-327 | different argument lists never print alike |
| `ShellQuote.ShellJoin` | internal/connector/dockerproxy/docker_ssh_proxy.go:321-327 | the loop, against that round trip |

## Left out

- Retention.Sorted: the library's sort stands as a function; any correct sort by that total order returns the same list.
- Sweeping.RetentionManager.Sweep: the texts of the recorded sweep are not carried along.
- Pipeline.Chain.Write: what a codec call emitted before it failed is not modelled, since such a feed never succeeds.
- Pipeline.CountReader.Read: the throughput figure beside the count and the one exact report after an upload are not modelled.
- PipeRun.RunPipeline: the feed fills the list of writes and the storage then reads it in any interleaving the pipe allows; a write the pipe refused fails the feed.
- Executor.Runner.Run: other runs publish nothing in between; the interleaving of runs is the subject of Workers and LiveHub.
- ConfigMask.MaskValue: the tree is a value whose entries are replaced; parsed JSON shares no subtrees, so in-place update of a child is replacement of that entry.
- SecretResolver.ResolveMap: the tree is a value as above; error texts with their dotted paths are not modelled.
- Mfa.Pending.Put: the state machine of Mfa uses the functions these methods are proved against, not the objects.
- Mfa.VerifyTOTP: takes the code with its spaces already removed.
- ShellQuote.RoundTrip: an unquoted `=` is read as a literal; a first word of the form NAME=value would be an assignment to a shell.
- Size anomalies, hung-run reports, known devices and the texts of messages: single-branch facts.
- Secret references inside a task's dumper options: the resolver opens them, the scan does not read tasks.
- Decoding of UTF-8 across chunk borders: the client's text is characters.
- Calendar arithmetic, the cron parser, real codecs and cryptography: arbitrary functions here.
- Storage, SSH, Docker, mail and push transports, SQL text and migrations, CRUD handlers, roles, settings, the CLI and the web pages.
