# A verified model of the backup server

This project models the parts of the backup server that decide what happens to
backups and proves what the server relies on them for. The `.dfy` files are
grouped by subject; each imports what it builds on.

- **Retention** (`Retention`, `RetentionHistory`, `RetentionFacts`,
  `RetentionLimits`). The planner sorts the artifacts of one job on one
  destination and marks those its rules keep. It is written with the loops and
  the mark array of the program and proved against a position-wise
  specification, that against a definition on sets, and that gives path
  independence: pruning after every backup, even when deletions fail, keeps
  exactly what one pass over the whole history keeps. Bucket keys are arbitrary
  functions of the creation time.
- **Backup pipeline** (`World`, `Pruning`, `Upload`, `Verification`,
  `RunLifecycle`, `Runs`, `ArtifactHistory`, `Recovery`). A destination is a map
  from object keys to sizes whose calls may fail at any point, the store a map
  of artifact rows. Upload, verification, retention and pruning are composed
  into whole runs, and runs into histories of any length.
- **Run engine** (`EngineProtocol`, `EngineSafety`, `EngineCounting`,
  `EngineLifecycle`, `EngineTheorems`, `EngineState`). The engine is a state
  machine with one step per critical section, channel operation, counter
  update, store write or published event. `EngineProtocol.Next` holds the
  steps, and the theorems are about every interleaving of them. `EngineState`
  is the engine's object with the critical sections as methods, each tied to the
  protocol's step it takes.
- **Run log** (`RunLogText`, `LogStream`, `LogStore`, `LogStreamTheorems`). A
  line travels from a record through the buffered log and its sink to the table
  of chunks and on to a reader of the stream, as interleaved steps.
- **Schedules** (`Schedule`, `Overdue`). A schedule is a function from a moment
  to the next fire time; for a cron expression it is assumed to give the least
  fire time after its argument.
- **Sign-in limiter** (`RateLimit`). Slices over shared arrays, compacted in
  place, against the plain count of the history.
- **File names and packing** (`Filenames`, `Packing`). Codecs and the digest are
  parameters.
- **File archives** (`ArchiveWalk`, `ArchiveShape`, `ArchiveRestore`,
  `ArchiveRoundTrip`). The walker turns trees into tar entries, the reader turns
  entries into a file system with owner permissions, inodes and hard links.
- **Panel and store helpers** (`CronFields`, `CronTimes`, `Timestamps`,
  `HeadingIds`): reading schedule fields and listing the next occurrences, the
  text of stored times, and the ids of documentation headings.

`Core` and `Strings` hold what the others share.

## What the proofs bring out

Each of these is a lemma, most with the exact condition under which it happens.

- The number of artifacts the panel estimates is a bound exactly when some keep
  rule is set (`RetentionFacts.EstimateBoundsKept`).
- An artifact uploaded after the clock stepped back can be pruned by the run
  that made it (`RetentionLimits.ClockStepRemovesTheUpload`).
- Verify runs take no lock, so one of them can mark an artifact missing between
  the listing and the pruning of a retention pass. The pair is sure to keep a
  present artifact exactly when some artifact the plan keeps is not verified in
  between (`RetentionLimits.VerifyBetweenPlanAndPrune`). The code marks a row
  missing also when the stat itself fails (`Verification.VerifyOne`).
- A row stays present without its object exactly when a delete of its path took
  effect and its own status write did not
  (`Pruning.StrandedExactlyWhenDeletedUnmarked`); a pass without errors leaves
  no such row (`Pruning.CleanPassStrandsNone`).
- A pruned row gets an object back exactly by an upload to its path
  (`ArtifactHistory.TrailKeepsPrunedGone`,
  `ArtifactHistory.ReusedPathRevivesTheObject`).
- Stopping the engine and starting it again while an ingest call waits for a slot
  lets that run's stored status go back from failed to running
  (`EngineTheorems.RestartBreaksTheOrder`). Only a caller of the package can do
  that: the server starts its engine once (`cmd/backvault/serve.go:140`) and stops
  it once (`:183`), and then stored statuses only advance
  (`EngineTheorems.ServedStatusOnlyAdvances`). A refused run's row stays queued
  until a start (`EngineTheorems.RefusedRowStaysQueued`).
- A very large retry delay overflows to a negative wait (`Upload.Backoff`).
- A log line can be missing when a reader is told `done`, exactly when it was
  buffered, with a sink or lost when the terminal status was stored
  (`LogStreamTheorems.DoneIsCompleteExactlyWhenQuiet`).
- The search for the latest slot is right exactly up to its cap; short `@every`
  schedules exceed it (`Overdue.ShortDelaysHitTheCap`), and since such a schedule
  counts from the moment asked about, a job on `@every 24h` looks overdue about
  an hour after each run (`Overdue.DailyDelayLooksOverdueAfterAnHour`). The
  constant-delay rule of the cron library, whose source is not part of this
  model, is an assumption there: whole seconds of the argument plus the delay.
- `docs/concepts.md:215-218` says a scheduled job is overdue once its next run
  time plus the grace has passed without a run. The code looks back 25 hours
  only, and the model follows the code: an unanswered fire time older than that
  is forgotten (`Overdue.UnansweredFireIsForgotten`).
- Ingest's renaming is not a fixed point for an extension with white space
  around it (`Filenames.RenamingIsStableExactlyWhenTrimmed`), and some download
  names lose a part of their extension
  (`Filenames.DownloadIsNamedPlainExactlyUnlessCutOff`).
- An archived root is dropped without a word exactly when its name is empty or
  already that of an entry of an earlier root
  (`ArchiveWalk.RootIsArchivedExactlyWhenItsNameIsFree`); outside the base
  directory two roots with the same last component are enough. Where an archive
  lists a directory before its closed parent, the child keeps the mode it was
  created with (`ArchiveRoundTrip.ModeIsSetExactlyUnlessShut`). A symbolic link
  that leads out of the tree can be archived but makes the restore fail
  (`ArchiveRoundTrip.RestoreRebuildsTheForest`).

## Model

| member | source | states |
|---|---|---|
| `RetentionPlan.SortSorts` | internal/engine/retention.go:12-14 | The planner works on a permutation of its input, newest creation time first. |
| `RetentionPlan.SortIsStable` | internal/engine/retention.go:12-14 | Artifacts of one creation time keep the order the store listed them in. |
| `RetentionPlan.ApplyBucket` | internal/engine/retention.go:63-81 | A bucket rule marks an artifact exactly when it is the newest in its bucket and fewer than `count` distinct buckets are newer; every other mark stays. |
| `RetentionPlan.FullBucketsKeepNoMore` | internal/engine/retention.go:63-81 | Stopping the loop at `count` buckets loses nothing: no later position could be kept. |
| `RetentionPlan.MarkKept` | internal/engine/retention.go:24-53 | The marks after all rules are the policy's verdict on every position: newest, keep rules, and age only when no keep rule is set. |
| `RetentionPlan.Plan` | internal/engine/retention.go:11-61 | The two returned lists are what the policy keeps and removes of the sorted input, the zero policy and the empty list included. |
| `RetentionFacts.PlanPartitions` | internal/engine/retention.go:11-61 | Kept and removed together are the input as multisets, both newest first; the newest is kept and the zero policy removes nothing. |
| `RetentionFacts.StrictlyNewestIsKept` | internal/engine/retention.go:25-26 | An artifact strictly newer than all others is never removed, under any policy. |
| `RetentionFacts.EstimateBoundsKept` | web/src/lib/retention.ts:74-83 | The number the panel shows bounds the number kept if and only if some keep rule is set. |
| `RetentionHistory.PlanIsSetLevel` | internal/engine/retention.go:11-61 | With distinct creation times the plan depends on the set of artifacts alone, and equals a definition by counting newer artifacts and newer buckets. |
| `RetentionHistory.KeepsIsAntitone` | internal/engine/retention.go:11-81 | What is kept among more artifacts or at a later time is kept among fewer or earlier. |
| `RetentionHistory.BucketRuleReflects` | internal/engine/retention.go:63-81 | If all that a bucket rule keeps of a history is still there, the rule keeps nothing more of the remainder. |
| `RetentionHistory.Sandwich` | internal/engine/retention.go:11-81 | keep(H) within S within H implies keep(S) = keep(H). |
| `RetentionHistory.SurvivorsAreSandwiched` | internal/engine/runner.go:395-440 | Uploading and pruning once per round, with any subset of deletions failing, always leaves all that one plan of the whole history keeps. |
| `RetentionHistory.PruningIsPathIndependent` | internal/engine/runner.go:395-440 | Path independence: planning the survivors equals planning the whole history, at the last time or any later one; with no failed deletion in the last round the survivors are exactly that. |
| `RetentionHistory.PlanIsPathIndependent` | internal/engine/retention.go:11-61 | The same for the lists handed to the planner, in any order. |
| `RetentionLimits.KeepOneRemovesTheOlder` | internal/engine/retention.go:11-61 | Under keepLast 1 an artifact is removed if and only if a listed one has a later creation time. |
| `RetentionLimits.ClockStepRemovesTheUpload` | internal/engine/runner.go:395-411 | So an upload stamped before an older artifact, after the clock stepped back, is itself pruned. |
| `RetentionLimits.VerifyBetweenPlanAndPrune` | internal/engine/prune.go:46-86 | Verify runs take no lock. For every listing, policy and set of artifacts verified between a listing and its pruning: the pair is sure to keep a present artifact if and only if one that the plan keeps is not verified. |
| `RetentionLimits.VerifyingAllKeptCanEmpty` | internal/engine/runner.go:352-359 | The other half made concrete for any listing: when all that the plan keeps is verified, a stat that fails for each of them, then the pass, leaves no present artifact of the pair. |
| `RetentionLimits.PresentRowWithoutObject` | internal/engine/runner.go:424-437 | Of the artifacts handed to a pass, exactly those whose object was there, whose delete took effect and whose row was then not marked end as present rows without an object. |
| `World.Backend.CreateArtifact` | internal/store/artifacts.go:40-58 | A saved row is new under a new id; a failed save changes nothing. |
| `World.Backend.SetStatus` | internal/store/artifacts.go:71-81 | Changes the status of one existing row and nothing else; a missing row is an error. |
| `World.Backend.SetVerified` | internal/store/artifacts.go:83-88 | Changes only the verification time; a missing row is no error. |
| `World.Backend.ListPresent` | internal/store/artifacts.go:159-175 | Exactly the present artifacts of the job on the destination, each once, newest first. |
| `Pruning.PruneArtifacts` | internal/engine/runner.go:413-440 | The pass ends where its attempts lead: one per listed artifact until the context ends, each a failed delete, a delete without its mark, or both done. Rows, objects and the count are determined by them, and without error every one is pruned. |
| `Pruning.StrandedExactlyWhenDeletedUnmarked` | internal/engine/runner.go:424-437 | For every row of the store, its path shared or not: it ends present with its object gone if and only if it was present with it, a delete of its path took effect and its own row was not marked. |
| `Pruning.CleanPassStrandsNone` | internal/engine/runner.go:413-440 | A pass without an error leaves no present row without an object, where each path belongs to one present row. |
| `Pruning.PassIsRetention` | internal/engine/runner.go:395-440 | A prune pass over what the plan removes keeps every pair's newest artifact and object, for every job and destination. |
| `Pruning.RetainDestination` | internal/engine/runner.go:388-406 | One destination: only present artifacts of the pair can be pruned, its newest stays; without error each present artifact was pruned or left as one plan of them all says. |
| `Pruning.EffectsCompose` | internal/engine/runner.go:386-406 | Retention effects over several destinations compose into one. |
| `Pruning.ApplyRetention` | internal/engine/runner.go:377-411 | The whole stage keeps the same guarantees over all destinations; the zero policy changes nothing; without problems the policy was carried out on every destination, in turn where one is listed twice, and strands no row. |
| `Upload.Backoff` | internal/engine/runner.go:476-488 | For every base and step, in 64-bit arithmetic: the cap once a doubling has reached it, else the wrapped product; that is the capped product for a base below 2^62, and negative at the second retry for a larger one. |
| `Upload.BaseDelay` | internal/engine/runner.go:258-261 | The configured delay is positive after the 64-bit product, else five seconds. |
| `Upload.UploadOne` | internal/engine/runner.go:252-293 | Success means the object is there; attempts never exceed retries plus one and are all used unless the context ended; nothing else is touched. |
| `Upload.UploadAll` | internal/engine/runner.go:193-250 | Recorded rows and failures add up to the destinations; an error only when all failed, a warning when some did; every row is a fresh upload of this run. |
| `Verification.VerifyOne` | internal/engine/runner.go:345-375 | One check, whose outcome fixes the row exactly: unreachable changes nothing; a failed stat, an absent object and a wrong size mark it missing if the store takes it; the right size stamps it. Success is the last, saved. |
| `Verification.CheckIsVerifyEffect` | internal/engine/runner.go:345-375 | Whatever the outcome, a check is a verify step of the history theorems: one row, no object, and its status stays or becomes missing. |
| `Verification.VerifyArtifacts` | internal/engine/runner.go:316-343 | Without problems every artifact is verified and no status changed; problems only warn. |
| `ArtifactHistory.TrailNeverRevives` | internal/store/artifacts.go:71-81 | Over any sequence of uploads, verifications, retention stages and deletions no row comes back to present and none disappears. |
| `ArtifactHistory.TrailKeepsPrunedGone` | internal/engine/runner.go:424-437 | In any history a pruned row has an object only if an upload wrote to its path since it was pruned. |
| `ArtifactHistory.ReusedPathRevivesTheObject` | internal/engine/pack.go:178-189 | And such an upload, possible because file names repeat within a second, does leave the pruned row with an object again. |
| `ArtifactHistory.TrailKeepsPair` | internal/engine/runner.go:377-440 | Retention never takes a pair from some present artifact to none; only a missing object or a deletion on request can. |
| `ArtifactHistory.NewestSurvives` | internal/engine/runner.go:377-440 | The newest artifact of a pair, row and object, outlives every retention stage. |
| `Runs.StoreVerifyRetain` | internal/engine/runner.go:147-159 | Upload, verify and retention composed: an error only when every upload failed, and then uploads are the only steps taken; the report says retention ran exactly when the run took a retention step, and its counts are those of the steps; no warning means full delivery. |
| `Runs.CleanRunDelivers` | internal/engine/runner.go:193-250 | A run without warnings delivered one artifact per destination, verified with equal size when verification is on, and retention left each in place with its object. |
| `Runs.PresentExactlyWhenKept` | internal/engine/runner.go:386-411 | Latest or not: after a retention without problems an artifact of the run is present if and only if the plan of what was listed keeps it. |
| `Runs.BackupBody` | internal/engine/runner.go:59-168 | Every way out of a backup body, hooks and preparation included, keeps the run guarantees, the report tied to the steps taken. |
| `Runs.IngestBody` | internal/engine/ingest.go:85-193 | The same for an ingest body. |
| `Runs.ExecuteStoringRun` | internal/engine/engine.go:350-384 | A backup or ingest run ends once, in one terminal status with no stage running; success implies upload, verification and retention steps, delivery to every destination and the policy carried out on each with no row stranded; if nothing was stored it failed or was canceled, no retention step exists, no row changed and objects only under its own path. |
| `Runs.ExecutePrune` | internal/engine/prune.go:31-44 | A prune run only retains; it succeeds only without problems, and then the policy was carried out on every destination. |
| `Runs.ExecuteVerify` | internal/engine/prune.go:64-86 | A verify run touches one row and succeeds only when the object is there with the recorded size. |
| `Runs.TrailsChain` | internal/engine/engine.go:350-384 | Trails of runs chain, so the history theorems cover any sequence of runs. |
| `RunLifecycle.RunState.SetStage` | internal/engine/runstate.go:112-124 | Settles the last running stage of the name and no other. |
| `RunLifecycle.RunState.Finish` | internal/engine/runstate.go:167-239 | One terminal event; the outcome by cancellation, timeout, error, warning in that order; running stages become failed. |
| `Recovery.RecoverInterruptedRuns` | internal/engine/engine.go:398-424 | Each row is left or becomes the recovered one; without a failed save all unfinished rows do. |
| `Recovery.RecoverySettles` | internal/engine/engine.go:398-424 | A recovered row is terminal with no running stage; recovering twice is recovering once. |
| `EngineState.Engine.TryLockJob` | internal/engine/engine.go:294-305 | Takes a free job for the run, refuses a held one, ignores the empty job; it is the protocol's lock step. |
| `EngineState.Engine.ReleaseJob` | internal/engine/engine.go:307-316 | Frees the job only if this run holds it; it is every release step of the protocol, after an end, a refusal or an abandoned task. |
| `EngineState.Engine.SetConcurrency` | internal/engine/engine.go:230-240 | A new size starts a new semaphore, the same size keeps the old one; it is the protocol's step of that name. |
| `EngineState.Engine.TrySend` | internal/engine/engine.go:325-340 | The non-blocking send appends or refuses at capacity; it is the protocol's send step. |
| `EngineTheorems.AlwaysHolds` | internal/engine/engine.go:257-384 | The joint invariant on locks, places, tokens, counter and lives holds in every state of every interleaving. |
| `EngineTheorems.OneRunPerJob` | internal/engine/engine.go:294-316 | At most one live backup, prune or ingest run per job, in every interleaving. |
| `EngineTheorems.HeldLockHasALiveOwner` | internal/engine/engine.go:294-384 | A held lock belongs to a run being queued, queued, in the dispatcher's hand or executing, in exactly that place. |
| `EngineTheorems.OutsiderNeverFrees` | internal/engine/prune.go:46-62 | Verify runs, and restore runs, pass through every release without freeing the job. |
| `EngineTheorems.AcceptedIsInOnePlace` | internal/engine/engine.go:257-292 | An accepted run is at every moment once in the queue, in the dispatcher's hand, or past both, and in one of these only. |
| `EngineTheorems.ConcurrencyIsBounded` | internal/engine/ingest.go:38-50 | Under one setting queued and ingest runs together never exceed it. |
| `EngineTheorems.GenerationsAreBounded` | internal/engine/engine.go:230-280 | Across setting changes each semaphore holds exactly its runs' tokens, within its own capacity. |
| `EngineTheorems.ReturningNeverBlocks` | internal/engine/engine.go:350-384 | Giving a token back never blocks. |
| `EngineTheorems.QueuedRunsIsExact` | internal/engine/engine.go:325-348 | The counter is queue length plus what the dispatcher has in hand minus sends not yet counted. |
| `EngineTheorems.StoredStatusAdvances` | internal/engine/runstate.go:63-80 | A stored status only moves queued, running, terminal, and a terminal one stays, unless a restart reopened the run. |
| `EngineTheorems.ReopeningNeedsARestart` | internal/engine/engine.go:111-156 | A run is reopened if and only if a start finds it unfinished in the store and still able to save. |
| `EngineTheorems.StatusOnlyAdvances` | internal/engine/engine.go:111-156 | Between any two moments of a behaviour a stored status only advanced, unless some start in between caught the run unfinished and still able to save. |
| `EngineTheorems.ServedStatusOnlyAdvances` | cmd/backvault/serve.go:140-142 | As the server uses the engine, started before there are runs: nothing is ever reopened and every stored status advances with no exception. |
| `EngineTheorems.RestartReopensAWaitingRun` | internal/engine/engine.go:398-424 | In any stopped engine with an ingest run waiting for a free slot, a start stores it as failed and its next steps as running. |
| `EngineTheorems.RestartBreaksTheOrder` | internal/engine/engine.go:111-156 | Such a behaviour from the initial state, over any store, run id and job: twelve steps, the ninth a second start. |
| `EngineTheorems.EndsExactlyOnce` | internal/engine/engine.go:282-292 | A run that ended put exactly one terminal event on the bus, any other none. |
| `EngineTheorems.CancelFindsTheExecuting` | internal/engine/engine.go:212-228 | Cancel finds exactly the runs between registration and the end. |
| `EngineTheorems.RefusedRowStaysQueued` | internal/engine/runner.go:52-55 | A refused task's row stays queued under every step but a restart. |
| `RunLogText.SanitizeFixesCleanText` | internal/engine/runlog.go:161-173 | Sanitised text has no control character but tabs; text is unchanged exactly when it already had none; twice is once. |
| `RunLogText.HandledIsOneLine` | internal/engine/runlog.go:94-115 | Any record becomes one clean, non-empty line of bounded length. |
| `RunLogText.ShownText` | internal/server/sse.go:108-116 | Joining lines into a chunk and splitting it for a reader returns every non-empty line once, in order. |
| `LogStream.RunLog.Write` | internal/engine/runlog.go:32-56 | The critical section of a write: append, arm the timer, or hand over the whole buffer from 16 KiB on; nothing once closed. |
| `LogStream.RunLog.Flush` | internal/engine/runlog.go:58-70 | The critical section of a flush hands over the whole buffer. |
| `LogStream.Emit` | internal/server/sse.go:103-121 | One pass sends the lines of the chunks past the cursor and moves it to the last of them. |
| `LogStream.StepConserves` | internal/engine/runlog.go:32-77 | Every step of any interleaving keeps each line in exactly one place. |
| `LogStreamTheorems.NoLineIsLostOrDoubled` | internal/engine/runlog.go:32-77 | Over every interleaving the lines written before the log closed are those stored, in flight, buffered or lost to a failed append, as often as written; the reader holds the chunks up to its cursor; a buffered line has a timer coming. |
| `LogStreamTheorems.ReaderSeesAPrefix` | internal/engine/runlog.go:52-69 | When no flush overlaps another a reader always holds a prefix of the lines in the order written. |
| `LogStreamTheorems.DoneIsCompleteExactlyWhenQuiet` | internal/engine/runstate.go:196-219 | From the moment the terminal status is stored, every continuation gives the reader all lines before `done` if and only if nothing is buffered, in flight or lost then. |
| `LogStreamTheorems.DoneHasEveryLineInOrder` | internal/server/sse.go:132-155 | With flushes run one at a time, none failing, and no write inside `Close`, `done` comes after every line, once and in order. |
| `LogStreamTheorems.DoneCanComeEarly` | internal/engine/runlog.go:66-69 | A concrete interleaving in which a timer's flush is still in its sink and the reader gets `done` without the line. |
| `LogStore.RunLogs.AppendLog` | internal/store/runlogs.go:15-29 | A chunk gets the number after the run's last; other runs' chunks are untouched; chunks stay numbered from one. |
| `LogStore.RunLogs.LogChunks` | internal/store/runlogs.go:31-46 | The chunks of the run past the cursor. |
| `LogStore.WholeLogShowsTheStreamedLines` | internal/store/runlogs.go:48-58 | Splitting the whole log gives the lines the stream sent chunk by chunk. |
| `Schedule.PreviousSlot` | internal/engine/scheduler.go:287-311 | The capped loop returns the last of at most 2000 fire times reached from `from` without passing `until`. |
| `Schedule.NextRuns` | internal/engine/scheduler.go:64-90 | All fire times up to the last one returned, ascending, and fewer than asked only when the schedule has no further one. |
| `Schedule.WalkCounts` | internal/engine/scheduler.go:287-311 | The search returns the fire time numbered min(count, cap). |
| `Schedule.SearchIsRightExactlyUpToTheCap` | internal/engine/scheduler.go:302-309 | It is the greatest fire time in (from, until] if and only if there are at most 2000. |
| `Schedule.MinuteSchedulesAreSearchedFully` | internal/engine/scheduler.go:287-311 | At most one fire a minute and a window of at most 25 hours give at most 1500: the result is the greatest. |
| `Overdue.JobIsOverdue` | internal/engine/overdue.go:80-114 | Without a schedule: the interval against the last success or the creation; with one: the latest slot against the last start. |
| `Overdue.OverdueExactlyWhenAFireIsUnanswered` | internal/engine/overdue.go:98-113 | A scheduled job is overdue if and only if some fire time in (now - 25h, now - grace] came after the last start; never when the last run took 12.5 hours or more. |
| `Overdue.UnansweredFireIsForgotten` | internal/engine/overdue.go:105-113 | An unanswered fire time makes the job overdue after the grace and no longer 25 hours on. |
| `Overdue.RunMissed` | internal/engine/scheduler.go:259-285 | The jobs enqueued at start, in the order of the list. |
| `Overdue.MissedExactlyWhenAFireIsUnanswered` | internal/engine/scheduler.go:259-285 | Each job at most once, and exactly the enabled scheduled ones with a fire time of the last day after their last start. |
| `Overdue.ShortDelaysHitTheCap` | internal/engine/scheduler.go:302-309 | A constant delay shorter than the window over 2000 gets the 2000th slot, not the latest. |
| `Overdue.DailyDelayLooksOverdueAfterAnHour` | internal/engine/overdue.go:105-113 | A job on `@every 24h` counts as overdue exactly when its last run began more than about an hour ago. |
| `Overdue.CheckOverdue` | internal/engine/overdue.go:54-76 | The flag follows the verdict when the store takes it; an announcement goes out exactly when it turns on. |
| `Overdue.OneAnnouncementPerSpell` | internal/engine/overdue.go:54-76 | However checks, failing stores and run ends interleave, an overdue spell is announced at most once. |
| `RateLimit.RateLimiter.Allow` | internal/auth/ratelimit.go:20-44 | For nondecreasing clocks the answer is exactly whether fewer than `limit` hits of the key were accepted since its last reset within the window. |
| `RateLimit.RateLimiter.Scan` | internal/auth/ratelimit.go:23-30 | The periodic scan drops only keys without hits or whose last hit left the window. |
| `RateLimit.RateLimiter.Compact` | internal/auth/ratelimit.go:31-37 | In-place compaction leaves exactly the hits after the cutoff. |
| `RateLimit.RateLimiter.Reset` | internal/auth/ratelimit.go:46-50 | A reset empties the key's history and no other. |
| `RateLimit.AnsweredStands` | internal/auth/ratelimit.go:31-43 | After every answer each key's stored hits still stand for its whole history, and are at most `limit`. |
| `RateLimit.DroppedStands` | internal/auth/ratelimit.go:23-30 | Dropping a stale key changes no later answer. |
| `RateLimit.EveryWindowHoldsAtMostTheLimit` | internal/auth/ratelimit.go:20-44 | Any window holds at most `limit` accepted hits of a key since its reset. |
| `Filenames.DetectsSuffixes` | internal/engine/pack.go:191-212 | A built name reads back as its packing and extension if and only if the extension would not itself be read as packing. |
| `Filenames.RenamingIsStableExactlyWhenTrimmed` | internal/engine/ingest.go:105-129 | Ingest's renaming is a fixed point for every slug if and only if the detected extension has no surrounding white space. |
| `Filenames.BlankExtensionReadsAsBin` | internal/engine/pack.go:178-185 | A blank extension is built and read back as `bin`. |
| `Filenames.DownloadIsNamedPlainExactlyUnlessCutOff` | internal/engine/download.go:98-103 | An unpacked download has the name built with no packing unless, and only unless, the extension ends in a suffix the shortening still removes. |
| `Packing.ClosingDownDeliversEverything` | internal/engine/pack.go:47-56 | Closing the writers from the last to the first hands every byte to a writer still open. |
| `Packing.ClosingUpLosesThePayload` | internal/engine/pack.go:47-56 | Closing the other way leaves an encrypted empty stream, right only if the compressor writes nothing. |
| `Packing.CountingWriter.Write` | internal/engine/spool.go:20-27 | Count and hash cover exactly the bytes the file took, on a short write too. |
| `Packing.PackWriter.Close` | internal/engine/pack.go:47-56 | The closer list is walked backwards to its end, also past a failed close, and cleared; an error is reported exactly when the disk filled up. |
| `Packing.NewPackWriter` | internal/engine/pack.go:58-110 | A chain exists exactly for known compressions and, with encryption, a passphrase; the encryptor is below the compressor. |
| `Packing.Spool.Fill` | internal/engine/spool.go:65-92 | Succeeds exactly for options that can be packed with, an unbroken stream and a packed length the disk has room for; then the file is the packed stream, the raw count that of the bytes read, packed count and digest those of the file. A failed fill records nothing. |
| `Packing.ReadersUndoWriters` | internal/engine/pack.go:112-152 | A stack of readers in the order of the writers undoes a stack of writers of any height. |
| `Packing.NewUnpackReader` | internal/engine/pack.go:112-152 | A reader chain exists exactly when a writer chain does: decryptor next to the file, decompressor above it. |
| `Packing.UnpackingUndoesPacking` | internal/engine/pack.go:112-152 | For inverse codecs the chain of readers returns the bytes the chain of writers packed, whatever the level. |
| `Packing.OpenArtifact` | internal/engine/download.go:29-83 | Raw or unpacked artifacts are passed through; otherwise the given passphrase or else the job's is used, and a missing one is an error. |
| `Packing.SpoolAndDownload` | internal/engine/download.go:52-83 | A spooled stream opened later, with the passphrase it was packed with, gives back the bytes read from the source. |
| `Packing.Receive` | internal/engine/ingest.go:131-165 | The digest compared with the client's is that of the bytes it sent, packed by the client or by the server, with the wanted text trimmed and lower-cased. |
| `Packing.PackedPayloadIsReadBack` | internal/engine/ingest.go:111-118 | A payload packed as its name says comes back unpacked. |
| `ArchiveWalk.Walker.WalkNode` | internal/source/files/files.go:281-391 | The recursive walk emits the entries of the specification and counts them. |
| `ArchiveWalk.Walker.Run` | internal/source/files/files.go:250-279 | The same over all roots, named by the base directory or their last component. |
| `ArchiveWalk.ArchiveIsSound` | internal/source/files/files.go:367-387 | For any roots, overlapping ones too, entry names are distinct and each hard link names an earlier file entry. |
| `ArchiveWalk.RootIsArchivedExactlyWhenItsNameIsFree` | internal/source/files/files.go:446-463 | For any base directory and root list: a root adds entries, the first under its own name, if and only if it has a name and no entry of an earlier root has it; else the walk goes on as if it were not listed. |
| `ArchiveWalk.SameNamedRootIsDropped` | internal/source/files/files.go:446-463 | Of two roots with one name, wherever they are listed, nothing of the later is archived. |
| `ArchiveShape.ArchiveDescribesForest` | internal/source/files/files.go:250-463 | The archive of a proper forest lists exactly its paths, each as what it is, every directory before what it holds. |
| `ArchiveRestore.SafeJoinTakesExactlyNamesThatStayBelow` | internal/source/files/restore.go:138-151 | A name is taken if and only if it is relative and no prefix of it climbs above the start; the place holds no parent reference. |
| `ArchiveRestore.Restore` | internal/source/files/restore.go:49-135 | The extraction loop and the deferred modes compute the specification, stopping at the first entry that cannot be extracted. |
| `ArchiveRoundTrip.MkdirAllMakes` | internal/source/files/restore.go:65-73 | Missing directories are created and nothing else changes, while those above are usable. |
| `ArchiveRoundTrip.ModesAreSet` | internal/source/files/restore.go:128-133 | Modes set from the last directory to the first all take effect. |
| `ArchiveRoundTrip.ModeIsSetExactlyUnlessShut` | internal/source/files/restore.go:128-133 | Listed in any order, a child before its parent too: a directory gets its mode if and only if none above it that is listed later is closed by its own mode; else it keeps the one it had. |
| `ArchiveRoundTrip.SetFromTheTopModesAreLost` | internal/source/files/restore.go:128-133 | Why the loop goes backwards: forwards, the directories below a closed one, and only they, would keep the mode they were made with. |
| `ArchiveRoundTrip.RestoreRebuildsTheForest` | internal/source/files/restore.go:49-135 | Restoring the archive of a forest into an empty directory succeeds if and only if every symbolic link stays inside, and then rebuilds names, bytes, permissions, link texts and hard-link identity, and nothing else but directories on the way. |
| `CronFields.ParseField` | web/src/lib/cron.ts:54-96 | The first unreadable chunk is the error; otherwise the ascending union of the progressions, without repeats, within bounds. |
| `CronFields.IsEveryStep` | web/src/lib/cron.ts:254-263 | A step is named exactly when the values are those of `*` with it and there are at least two. |
| `CronFields.StarStepIsRecognised` | web/src/lib/cron.ts:254-263 | For `*/s` that is s itself, exactly when min + s is at most max. |
| `CronTimes.NextOccurrences` | web/src/lib/cron.ts:198-238 | The three loops with their early exits return the first `count` of all matching moments. |
| `CronTimes.OccurrencesAreTheFirst` | web/src/lib/cron.ts:198-238 | Ascending, only matching minutes after `from`, and one within the 1500 days is left out only when the list is full of earlier ones. |
| `Timestamps.StoredTimeIsReadBack` | internal/store/common.go:26-47 | A stored time reads back to the nanosecond. |
| `Timestamps.StoredTimesSortAsInstants` | internal/store/common.go:20-28 | For years 0000 to 9999 byte-wise order of stored times is the order of instants, and equality is equality. |
| `Timestamps.EveryInstantIsStored` | internal/store/common.go:26-28 | Every instant of those years has a date and exactly one text. |
| `HeadingIds.Slugs.Unique` | internal/docs/catalogue.go:520-536 | The id is new: the base if free, else the base with the least free number above the last one tried; the loop ends. |
| `HeadingIds.UsedCandidatesAreFew` | internal/docs/catalogue.go:527-535 | Pigeonhole: used candidates are no more than used ids. |
| `HeadingIds.PageIds` | internal/docs/catalogue.go:402-430 | All ids of a page are pairwise distinct, for any headings and any slugging. |

## Left out

Contracts that say less than the source could promise, by member:

- Runs.ExecuteStoringRun: the work of the source driver, hooks and notifications is a step that succeeds or fails; run timings and the timeout's length are not modelled.
- RunLifecycle.RunState.Finish: the message names the timeout without its length, and the job's last-run summary saved afterwards is not modelled.
- EngineTheorems.AlwaysHolds: starting, with its recovery, is one step, as the server starts the engine before it accepts calls; a start that fails half-way and a start that overlaps a stop are not modelled.
- EngineTheorems.StoredStatusAdvances: says nothing of a run a second start has reopened, because its status does go back, as `EngineTheorems.RestartBreaksTheOrder` shows; `EngineTheorems.ServedStatusOnlyAdvances` has no exception.
- Runs.CleanRunDelivers: that an artifact is still present with its object is concluded, inside `Delivered`, only where `IsLatest` holds of it: destinations all different and the upload newer than all that was present. `Runs.PresentExactlyWhenKept` covers the others.
- Pruning.CleanPassStrandsNone: says nothing of a present row that shares its path with another one; deleting the other's object is then the loss of its own.
- LogStreamTheorems.NoLineIsLostOrDoubled: rows ended by recovery or by dropping a queued run at shutdown, which have no log, are not modelled; characters stand for bytes.
- Overdue.JobIsOverdue: durations are unbounded integers; the program's 64-bit durations overflow only beyond 146 years.
- Overdue.OneAnnouncementPerSpell: delivery of the announcement is not modelled.
- RateLimit.RateLimiter.Allow: assumes clock readings reach the limiter in nondecreasing order, though callers read the clock before they take its lock.
- Packing.Spool.Fill: a codec's output counts as written when its layer is closed, so the bytes a failed fill leaves in the file are not described.
- Packing.UnpackingUndoesPacking: whether damage to a file shows when the chain is made or when it is read is not modelled.
- Packing.PackedPayloadIsReadBack: nothing checks that a client packed its payload as the name says; if not, a download fails to unpack.
- ArchiveShape.ArchiveDescribesForest: excludes, followed symbolic links, other file systems, special files, unreadable files and files that change while read are not modelled; directory listings come sorted.
- ArchiveRoundTrip.RestoreRebuildsTheForest: the target directory is empty and owned by the caller; ownership, times, the process's creation mask and mode bits above rwx are not modelled, and paths are lists of components rather than slash-joined text.
- ArchiveRestore.Restore: writing through a symbolic link that is already in the target counts as a failure.
- CronFields.ParseField: what text stands for which number, day or month name is a parameter; white space is ASCII.
- CronTimes.NextOccurrences: the zone's offset is constant; in zones with clock changes the list can be out of order.
- Timestamps.StoredTimeIsReadBack: the two fallback layouts, the empty text for the zero time and the parser's tolerance for other spellings are not modelled.
- HeadingIds.PageIds: how a line becomes a heading and a heading its slug is a parameter.

Not modelled at all:

- Destination, source and notification drivers, SSH, HTTP handlers, the command line and the panel's components.
- SQL text and transactions: the store is maps and lists whose operations may fail.
- Import and export, sessions, API tokens, masking and scope checks.
- The scheduler's own registration of jobs, housekeeping and the removal of old runs and logs.
- Destination connection tests, dashboard statistics and search in the documentation.
- The remote variants of archiving and restoring, and the engine's own tar extraction for downloads.
