# Verification of Macqueue

Macqueue is a pull-based job queue: a server keeps jobs in a durable store, a worker on another machine claims one job
at a time under a timed lease, drives its processes, and delivers log and result over an unreliable network. This
project models the parts of it whose correctness depends on several functions, machines or interruptions at once, and
proves what they promise. `dafny verify dfyconfig.toml` checks everything.

The project has three groups of files, plus `Common.dfy`.

**Queue, lease and delivery.** `StoreSpec.dfy` defines each transaction of the store as a function on its tables, and
`Store.dfy` has the class whose methods update those tables in place and are proved equal to the functions.
`StoreProps.dfy` proves the invariant and the life cycle over all sequences of transactions, and `StoreLaws.dfy` what
each transaction means in terms of the rows before it, without those functions. `Lease.dfy` is the worker's half.
`Protocol.dfy` puts the store, any number of workers and readers, and a network that delays, loses and repeats
messages into one state machine with one clock; every request that was ever sent may be processed at any later time,
any number of times, also after its sender gave up. `ProtocolDb.dfy`, `ProtocolInv.dfy` and `ProtocolSafety.dfy` build
the invariant; `ProtocolTheorems.dfy` states the results, `ProtocolMargin.dfy` the exact timing condition, and
`ProtocolRounds.dfy` that the work gets done: what a claim, a heartbeat, a log chunk, a completion and a log reader
achieve from any reachable state. `LogReader.dfy` is the cursor loop of `macqueue logs --follow`, `LogView.dfy` the
bounded log view of the web page and `LogViewMeaning.dfy` what it shows, `Inputs.dfy` the storage budget for
concurrent uploads and `InputsRuns.dfy` which uploads succeed, and `Marker.dfy` the worker's crash marker.

**Sessions and benchmarks.** `ProcessHistory.dfy` is what the outside does to a child process, as a list of reads and
writes, and what such a list means for its three streams. `Lines.dfy` and `Process.dfy` show that reading a child's
output in arbitrary pieces agrees with splitting all of it at once, and that every request of a successful session was
written after the response to the one before it had been read, also where two sessions are interleaved; and that a
session fails only for a reason that the reads and writes show. `Compare.dfy`, `CompareProps.dfy` and
`CompareOutputs.dfy` are the schedule of a paired benchmark, and `ComparePlan.dfy` is the same schedule in closed form.

**Updates and packages.** `Update.dfy` and `Swap.dfy` interrupt the process between any two file operations: a method
runs on a machine with a given number of operations left, and its contract speaks about every such number.
`Sources.dfy`, `SourcesProps.dfy` and `SourcesLimits.dfy` are the source packages, down to the length of their tar
streams; `SourcesAccepted.dfy` says exactly which archives `unpack` accepts and which trees `package` does.

## What the proofs found

- The 20 s between the worker's local deadline and the server's lease are enough exactly if claim delivery, watchdog
  poll and cancel observation together take less than 60 s and the last two at most 20 s
  (`ProtocolMargin.MarginIsExact`, for every positive polling interval). With a watchdog that looks every 5 s this
  leaves 15 s to notice a cancel event.
- `SourcesProps.RoundTrip` gives the exact condition under which `unpack` takes what `package` made
  (`SourcesProps.CanUnpack`). `package` accepts these trees, and `unpack` refuses them:
  - with 99998 paths below `vendor`, because two members are not counted (`SourcesLimits.PackageCanExceedUnpack`);
  - with a file of several links that is packed twice: the archive has a hard link for the second path, and `unpack`
    takes no links (`SourcesLimits.LinksAreRefused`);
  - with a bundle that lies below `vendor`, because it gets the same name twice
    (`SourcesLimits.BundleBelowIsRefused`). If its path is spelled otherwise there, it comes out under both names
    (`SourcesLimits.BundleIsPackedTwice`);
  - with data too close to 4 GiB, because headers and padding count in `unpack` only (`SourcesLimits.HeadersCount` has
    a bound for every tree, `SourcesLimits.HeadersDecide` the exact one for eight files).
- The worker can remove its crash marker while a process of the job is left. It does so in two ways if a pipe or an
  output file fails to close: after a process group's cleanup could not be confirmed, the second error replaces the
  first (`Marker.MaskedCleanupIsUnsafe`); and in the first of two sessions, the error ends the loop that would have
  closed the second (`Marker.UnclosedGroupIsUnsafe`). Per run the condition is exact: the marker is lost if and only
  if a job leaves a group that was never closed or whose cleanup was not confirmed, and the last error it raised is
  not such a cleanup error (`Marker.MarkerIsLostExactly`). If closing cannot fail, this never happens
  (`Marker.MarkerSafetyIsExact`).
- How log chunks are batched can change the text of the web view (`LogView.BatchingCanMatter`). It does so exactly if
  the last 512 Ki characters of the whole text begin with a line and some first part of the chunks, already longer
  than that, is cut just at this place (`LogView.BatchingIsExact`).

## Model

| member | source | states |
|---|---|---|
| Store.Store.Reap | macqueue/store.py:54-59 | row by row: afterwards no job is overdue; one that was queued past its expiry or held a lease past its end has ended now, as expired, cancelled or lost according to its old status, and kept every column but status, finishing time and result; every other row is equal to the old one |
| StoreProps.NothingOverdue | macqueue/store.py:54-199 | after every transaction that commits, no row it found is queued past its expiry or active past its lease |
| Store.Store.Submit | macqueue/store.py:73-85 | the new tables are `StoreSpec.Submit` of the old: a key that was used returns its job, otherwise at most 1000 are queued |
| Store.Store.SelectRow | macqueue/store.py:102-114 | finds the oldest queued, unexpired job of the worker's projects, none if a job is active |
| Store.Store.Claim | macqueue/store.py:102-114 | leases exactly that job for 60 s, or nothing changes beyond reaping |
| Store.Store.Heartbeat | macqueue/store.py:117-129 | extends the lease of its owner and reports a requested cancel; any other caller changes nothing |
| Store.Store.Cancel | macqueue/store.py:131-140 | a queued job is cancelled, a running one asked to stop, a finished one left alone |
| Store.Store.AppendLog | macqueue/store.py:142-152 | stores a chunk once; the same text again is accepted, another text or 16 MiB in all is refused, and then nothing changes |
| Store.Store.Logs | macqueue/store.py:154-158 | returns the first hundred chunks after the cursor, in order |
| Store.Store.PublishArtifact | macqueue/server.py:226-230 | only the owner of a live lease replaces the artifact |
| Store.Store.Finish | macqueue/store.py:167-182 | the new tables are `StoreSpec.Finish` of the old; what that records is stated by `StoreLaws.HeldFinishLaw` and `StoreLaws.EndedFinishLaw` |
| Store.Store.Prune | macqueue/store.py:184-199 | deletes exactly the jobs finished before the cutoff with their artifacts, and exactly the old inputs that no surviving provision or revoke job references |
| Store.Store.ReferencedBy | macqueue/store.py:191-195 | the inputs that pruning keeps are exactly those of the provision and revoke steps of the jobs that are left |
| StoreProps.PerformKeepsInv | macqueue/store.py:54-199 | every transaction keeps the store's invariant: one active job, at most 1000 queued, unique keys and leases, `finished` iff terminal, artifact with every success, `log_bytes` equal to the sum of the rows and at most 16 MiB |
| StoreProps.RunKeepsInv | macqueue/store.py:54-199 | the invariant holds in every state of every sequence of transactions |
| StoreProps.PerformMoves | macqueue/store.py:54-182 | one transaction only moves a row down the order queued, running, cancel requested, terminal, and leaves a finished one and its log as they are |
| StoreProps.LifeCycle | macqueue/store.py:54-182 | the same between any two states of a run: leases are issued once, a job asked to cancel can only end cancelled |
| StoreProps.OnlyPruneDeletes | macqueue/store.py:184-190 | a row disappears exactly if a prune finds it finished before its cutoff |
| StoreProps.ClaimIssuesOnce | macqueue/store.py:102-114 | a claimed job was queued without a lease, and the lease it gets is new |
| StoreProps.FinishRecords | macqueue/store.py:167-182 | an accepted completion leaves a terminal row with that result, also if it is repeated |
| StoreProps.FinishIsIdempotent | macqueue/store.py:167-182 | a completion that was accepted in a run, repeated after any other transactions and at any later time, returns the row first recorded and does not change it, as long as the row is there |
| StoreProps.SubmitIsIdempotent | macqueue/store.py:73-85 | after any other transactions of a run, as long as the row is there: the same job again under its key returns that row, another job under the key is refused; neither adds a row |
| StoreLaws.SubmitLaw | macqueue/store.py:73-85 | a new key is refused exactly if 1000 jobs wait, and otherwise gets one new queued row with the given expiry or 24 h; every other row stays, or ends if it is overdue |
| StoreLaws.SubmitAgainLaw | macqueue/store.py:73-85 | a key that some row has returns that row for the same job and is refused for another |
| StoreLaws.ClaimLaw | macqueue/store.py:102-114 | the row claimed is the oldest waiting one of the projects, leased for 60 s from now; there is none exactly if some job works or none waits |
| StoreLaws.HeartbeatLaw | macqueue/store.py:117-129 | succeeds exactly for the holder of a live lease, which then ends 60 s from now; it says whether a cancel was requested; the errors are given for everybody else |
| StoreLaws.CancelLaw | macqueue/store.py:131-140 | a waiting row ends cancelled, a working one is asked to stop, any other keeps its outcome |
| StoreLaws.AppendLogLaw | macqueue/store.py:142-152 | for the holder of the lease: a known number with the same text changes nothing, with another text is a collision, a new one is stored unless the log would exceed 16 MiB |
| StoreLaws.PublishLaw | macqueue/server.py:226-230 | exactly the holder of a live lease sets the artifact and its digest |
| StoreLaws.HeldFinishLaw | macqueue/store.py:167-182 | under a live lease the reported status is recorded for a running row and `cancelled` for one asked to cancel, with result and the instant of the call; `ArtifactRequired` exactly for a running row whose success has no artifact |
| StoreLaws.EndedFinishLaw | macqueue/store.py:167-182 | without a live lease: the recorded row is returned exactly if lease, result and status agree with it; every error is given |
| StoreLaws.OutcomeLasts | macqueue/store.py:167-182 | the status, result and time that an accepted completion of a run records are those of every later state that has the row |
| StoreLaws.PruneLaw | macqueue/store.py:184-190 | exactly the rows finished before the cutoff, and their logs, are gone |
| Lease.Lease.CheckDeadline | macqueue/worker.py:178-180 | cancels exactly from 40 s after the start of the last renewal that succeeded |
| Lease.Lease.Event | macqueue/worker.py:87-95 | queues an event's line, the short record in place of one above 60000 bytes, and drops it exactly if 256 wait |
| Lease.Lease.TakeLines | macqueue/worker.py:125-138 | gathers queued lines into one chunk of at most 64 KiB in order; the branch that puts a line back is never taken |
| Lease.Lease.FormPending | macqueue/worker.py:125-138 | the next chunk is exactly the lines taken from the queue |
| Lease.Lease.Heartbeat | macqueue/worker.py:104-120 | a renewal counts from before its request and puts the next one off by 10 s, anything else by 2 s; cancelled exactly by a refusal or a requested cancel |
| Lease.Lease.Ship | macqueue/worker.py:139-145 | stop and wait: a chunk is formed of queued lines only if none is pending, and it stays pending, under its number, unless it was acknowledged and the lease is not cancelled |
| Lease.Lease.Iterate | macqueue/worker.py:97-145 | one turn of the loop, field by field: if a heartbeat is due, a renewal sets `last_ok` to before its request and the next one 10 s after its answer, any other answer 2 s; cancelled exactly if it was, or by a due refusal or cancel, or 40 s after `last_ok`; then the pending chunk, or one of the lines taken from the queue, is acknowledged or stays |
| ProtocolSafety.StepKeepsInv | macqueue/worker.py:83-121 | every step of server, network, worker or reader keeps the invariant that relates them |
| ProtocolTheorems.SlotIsHeld | macqueue/worker.py:170-180 | given the margin, whoever executes a job holds a lease that the server has not freed |
| ProtocolTheorems.MutualExclusion | macqueue/store.py:102-129 | given the margin, at most one worker executes, however messages are delayed or lost |
| ProtocolTheorems.LogDelivery | macqueue/worker.py:87-145 | the server's log is contiguous from 0, a prefix of the chunks the worker formed, and as long as the worker believes or one longer |
| ProtocolTheorems.NoSequenceCollision | macqueue/store.py:142-152 | no log request that was ever sent, at whatever time it is processed, meets another text under its number |
| ProtocolTheorems.ReadersAreExact | macqueue/cli.py:183-194 | what a reader has printed is exactly the first chunks the worker formed, none skipped or repeated |
| ProtocolTheorems.CompletionAgreement | macqueue/worker.py:263-266 | a receipt marked delivered carries the status and result the server recorded |
| ProtocolTheorems.CompletedRowIsFrozen | macqueue/store.py:167-182 | no later step changes a completed row or its log; it can only be pruned |
| ProtocolMargin.UnsafeWithoutMargin | macqueue/worker.py:178-202 | for all durations beyond the margin some run has a worker executing after its slot was freed |
| ProtocolMargin.MarginIsExact | macqueue/worker.py:170-202 | all reachable states are safe if and only if the durations respect the margin |
| ProtocolRounds.ClaimRound | macqueue/worker.py:311-320 | from any reachable state the next job can be claimed: a new session executes it under a new lease, which both sides date from the same instant |
| ProtocolRounds.DeclineRound | macqueue/worker.py:314-318 | a worker that is stopped while claiming has the job recorded as cancelled |
| ProtocolRounds.HeartbeatRound | macqueue/worker.py:104-120 | a heartbeat that is answered at once renews the lease of its holder on both sides, and cancels it here if a cancel was requested or it is not held |
| ProtocolRounds.CancelRound | macqueue/store.py:131-140 | a requested cancel reaches the worker with its next heartbeat |
| ProtocolRounds.LogRounds | macqueue/worker.py:139-145 | any chunks that fit 16 MiB can be stored one after another under the next numbers, and are acknowledged |
| ProtocolRounds.FinishRound | macqueue/worker.py:263-266 | a stopped job's outcome can be recorded, as cancelled if that was requested, and the receipt then says the same |
| ProtocolRounds.ReadToEnd | macqueue/cli.py:183-194 | a reader that goes on reading pages prints the rest of the log, all of it |
| ProtocolRounds.JobCompletes | macqueue/worker.py:218-271 | from any reachable state the next job can be claimed, executed and completed with any status, result, artifact and log up to 16 MiB: they are recorded, the receipt agrees, and a reader prints exactly the chunks |
| LogReader.Follow | macqueue/cli.py:183-194 | while the log grows, what has been printed is always a prefix of it that ends at the cursor; of a finished job it reads a hundred chunks at a time and stops at the first shorter page |
| LogReader.PrintPage | macqueue/cli.py:187-189 | a page continues what was printed without a gap or a repetition |
| LogView.AppendLogs | frontend/src/model.ts:84-126 | the loops compute the bounded view: seen chunks skipped, steps updated, text cut at a line |
| LogView.ViewRefines | frontend/src/model.ts:84-126 | over any session the view has the cursor and steps of the unbounded view and shows whole lines from its end, at most 512 Ki characters, all of it exactly while it is not marked clipped |
| LogViewMeaning.SessionMeans | frontend/src/model.ts:84-120 | over any session: the unbounded view is the lines of the chunks that arrived with a number above all before them, each as its kind of line is shown; a step is shown if an event named it, as running exactly if the last start named it and no later event finished it; the cursor is the highest number |
| LogViewMeaning.SplitJoins | frontend/src/model.ts:91 | the lines a chunk is split into are what its newlines separate |
| LogView.CutFindsNewline | frontend/src/model.ts:121-124 | the branch for a negative index is never taken |
| LogView.BatchingIsExact | frontend/src/model.ts:84-126 | all ways to deliver a list of chunks show the same text if and only if no first part of the list, once cut, is filled to exactly 512 Ki characters by the rest; the condition is on the chunks alone |
| LogView.BatchingIsIrrelevant | frontend/src/model.ts:84-126 | cursor, steps and mark never depend on batching, and two texts that differ are clipped ones of which one has exactly 512 Ki characters |
| LogView.BatchingCanMatter | frontend/src/model.ts:121-124 | three chunks for which the text depends on batching |
| LogView.ReplayChangesNothing | frontend/src/model.ts:88-90 | chunks that were delivered before change nothing |
| LogView.AtMostOneRunning | frontend/src/model.ts:99-109 | at most one step is shown as running |
| Inputs.ReceiveUpload | macqueue/server.py:116-125 | yields the first announced bytes exactly if so many arrive and have the announced digest |
| Inputs.StepKeepsInv | macqueue/server.py:104-136 | every step of concurrent uploads, the unlocked directory changes, crashes, and pruning of any package, also one that a temporary file is still a hard link to, keeps the budget invariant |
| Inputs.StorageBudget | macqueue/server.py:107-135 | in every run the files never exceed 16 GiB, the counter is the sum of the reservations in flight and returns to 0, and published bytes have the digest in their name |
| Inputs.PruningIsAlwaysPossible | macqueue/store.py:191-199 | no upload, scan or temporary file left by a crash keeps a published package from being pruned |
| Inputs.PublicationIsImmutable | macqueue/server.py:125-130 | a published package never changes and only pruning removes it |
| InputsRuns.ReservationIsExact | macqueue/server.py:107-111 | a scan that nobody interferes with admits an upload exactly if fewer than 1000 names are there and their sizes, the reservations and the announced bytes stay within 16 GiB, and otherwise changes nothing |
| InputsRuns.UploadCompletes | macqueue/server.py:104-136 | from any reachable state in which nobody holds the lock: an upload with room can be published with exactly its bytes, or was already, and neither a reservation nor a temporary file remains |
| InputsRuns.CrashKeepsDirectory | macqueue/server.py:112-136 | a crash leaves every name in the directory with its size, and no reservation |
| Marker.JobsStartClean | macqueue/worker.py:218-242 | if closing streams cannot fail, a job starts only when nothing of an earlier one can be left, and only an inspection or a confirmed end removes the marker |
| Marker.MarkerIsLostExactly | macqueue/worker.py:218-271 | in every run, with crashes and restarts: some state has a process left and no marker if and only if some job left a group that was never closed or not confirmed, while the last error it raised, if any, was not an unconfirmed cleanup whose streams closed |
| Marker.MaskedCleanupIsUnsafe | macqueue/process.py:146-178 | if closing can fail, a run removes the marker after a cleanup that was not confirmed |
| Marker.UnclosedGroupIsUnsafe | macqueue/runner.py:285-287 | if closing can fail, a run removes the marker while the second of two sessions was never closed, although the cleanup of the first was confirmed |
| Marker.MarkerSafetyIsExact | macqueue/worker.py:270-292 | the marker is safe over all runs if and only if closing streams cannot fail |
| Marker.MarkerHoldsJobsBack | macqueue/worker.py:240-292 | in every reachable state: while the marker of an earlier job is there, no worker is ready for another, neither one that starts nor the one that could not confirm a cleanup |
| Marker.InspectionHelps | macqueue/worker.py:284-292 | from any reachable state, after a stop and an inspection, a worker can start and take a job |
| Marker.NothingSpawnsAfter | macqueue/worker.py:229-243 | a job in which an error was raised starts no more processes |
| Lines.SplitConcat | macqueue/process.py:85-96 | splitting a stream at any point: the carried tail and the rest give the lines and the tail of the whole |
| Lines.ChunkingIsIrrelevant | macqueue/process.py:85-96 | however the stream is cut into reads, incremental splitting equals splitting all of it |
| Lines.FitsIffSegmentsFit | macqueue/process.py:89-96 | all records are within the limit exactly if no stretch without a newline exceeds it |
| ProcessHistory.NothingIsLost | macqueue/process.py:67-74 | over any reads and writes: what was written, followed by what still waits, is what was given to stdin |
| ProcessHistory.ReadsAddUp | macqueue/process.py:76-84 | the bytes read from a stream are the data of its reads in order, up to its end |
| ProcessHistory.RunReflects | macqueue/process.py:64-104 | in every run of the pump, total, files, stdout, written bytes and open streams are those of the history of reads and writes |
| Process.Process.Split | macqueue/process.py:85-96 | searching only new bytes and deleting in place agrees with splitting everything read, and fails exactly when a record is too long, apart from the limit of 64 queued lines |
| Process.Process.Receive | macqueue/process.py:76-96 | fails on the output limit exactly when all output exceeds it, otherwise records every byte, and then fails only for a record that is too long or more than 64 queued lines |
| Process.Process.Send | macqueue/process.py:98-104 | returns when exactly the given bytes were written, however the writes were cut; every failure has its reason in the reads and writes |
| Process.Process.Record | macqueue/process.py:106-114 | pops the next non-blank line, which is an object |
| Process.Process.Request | macqueue/process.py:116-124 | writes one request when no output is waiting and returns the next record |
| Process.Process.FinishSession | macqueue/process.py:136-144 | succeeds only if both streams ended, the child exited with status 0 and left no record or partial record, and fails only for a reason that the history shows |
| Process.Process.Exchange | macqueue/process.py:116-124 | in a session, one more request and its response: its writing begins when exactly the earlier records have come out of the child, and the next record is its response |
| Process.Process.Session | macqueue/runner.py:312-328 | a session that succeeds: the data of all its reads from stdout, up to its end, are exactly one ready record and one record per request besides blank lines; the writes took exactly the encoded requests; the writing of request i began when exactly i + 1 records had been read, and record i + 1 is its response; the child exited with status 0. A session that fails does so for a reason that the reads and writes up to there show |
| Process.SessionPair.RunBoth | macqueue/runner.py:247-287 | the same for both of two interleaved sessions, whichever of them each request goes to first |
| Compare.Resolve | macqueue/runner.py:229-235 | the worker counts in numbers, each once, or an error for an unknown core count |
| Compare.RunComparison | macqueue/runner.py:228-287 | the nested loops perform exactly the plan |
| CompareProps.DistinctCounts | macqueue/runner.py:234-235 | the same counts, without duplicates |
| CompareProps.SameRequests | macqueue/runner.py:260-273 | at each worker count both variants are asked the same sequence: all requests, expanded, once per warmup and sample |
| CompareProps.FairAlternation | macqueue/runner.py:261-269 | for each phase and request baseline goes first as often as candidate, or once more |
| CompareProps.OrderIsRecorded | macqueue/runner.py:263-282 | the recorded order is the order in which the two variants ran |
| CompareProps.RecordCount | macqueue/runner.py:248-282 | the number of records in closed form |
| ComparePlan.ResolvedIs | macqueue/runner.py:229-233 | each count is the number written or the measured one of its name; there is no result exactly if a name is unknown |
| ComparePlan.DistinctKeepsFirsts | macqueue/runner.py:234-235 | the counts kept are the first occurrences, in order |
| ComparePlan.PlanAt | macqueue/runner.py:260-282 | in closed form: for every worker count, phase, round and request, what stands at its place of the plan is one call of each variant, baseline first in even rounds, with the seeds of the request in a session, and after each call its record |
| ComparePlan.PlanOpens | macqueue/runner.py:247-259 | at each worker count a session benchmark first starts both variants and records their ready records, in the order of the job |
| ComparePlan.PlanCloses | macqueue/runner.py:283-284 | and at the end finishes both |
| CompareOutputs.OutputsAreDistinct | macqueue/runner.py:221-226 | no two runs write to the same file, exactly if the four base paths are distinct |
| CompareOutputs.PathIs | macqueue/runner.py:221-226 | a file's name says worker count, phase and round |
| Update.Machine.CheckRestore | deploy/update.py:113-118 | true exactly if every file has one of its recorded digests and every backup is intact |
| Update.Machine.Restore | deploy/update.py:120-126 | writes nothing if that fails; if it completes every tracked file is as recorded, and every interruption leaves it possible to run again |
| Update.Machine.Rollback | deploy/update.py:239-250 | refuses before anything is touched, otherwise keeps the update recoverable; done means the original tree with owners and modes; it is done if it is not interrupted and the service can be stopped and started |
| Update.Machine.Recover | deploy/update.py:239-250 | after any number of interrupted rollbacks one that completes restores the original files for good |
| Update.Machine.Record | deploy/update.py:154-166 | records and backs up every file without touching it |
| Update.Machine.Configure | deploy/update.py:206-217 | announces the new digest of the configuration before replacing it, so that every interruption stays recoverable |
| Update.Machine.Apply | deploy/update.py:128-232 | refuses, with nothing changed, exactly a payload or plan that the checks reject; nothing changes if the service could not be stopped, and a failed check, probe or start never ends as done; done means the receipt is marked installed and every file has exactly the reviewed contents, with its old owner and mode, or 0644, on the Mac 0640 and the group of the installation, if it is new; every interruption stays recoverable; and with enough operations left it is done |
| Update.TargetNames | deploy/update.py:55-58 | the files that an update may touch are the four fixed names, one of them on the Mac only, and `macqueue/` with lower-case letters and underscores before `.py` |
| Update.RestoredIsOriginal | deploy/update.py:120-126 | files restored to their recorded digests, owners and modes are the original files |
| Update.AppliedAsReviewed | deploy/update.py:155-174 | installed files keep their owner and mode, and nothing else has changed |
| Swap.Machine.SwapOne | deploy/macos/provision.py:182-190 | whatever operation is interrupted: until the receipt names it only a copy can exist, from then on the original is in use or saved and the replacement is whole in exactly one place; no rename meets an existing target; done exactly if there is an original and five more operations |
| Swap.Machine.Undo | deploy/macos/provision.py:238-242 | from every such state the loop, if it is not interrupted, puts the originals back; trees are only moved |
| Swap.Machine.UndoRepeatedly | deploy/macos/provision.py:238-242 | the loop can be interrupted and run again any number of times |
| Swap.Machine.ApplyThenUndo | deploy/macos/provision.py:182-242 | the swap, interrupted anywhere, and then undo loops, interrupted or not, of which one could complete: every original is in use, and every replacement the receipt names is still whole |
| Swap.NothingIsLost | deploy/macos/provision.py:238-242 | over any number of undo loops, each as far as it comes: every state is sound, a name is complete exactly if its original is in use and its replacement still whole, and then it stays as it is |
| Sources.Unpack | macqueue/sources.py:70-114 | the loops compute exactly the extraction of all members, with every check |
| Sources.Package | macqueue/sources.py:117-137 | emits manifest, bundle, vendor and every path below it in order, or refuses; a file with several links that was met before under another name becomes a link to that, and a bundle met below vendor has its own name again |
| SourcesProps.AcceptedArchive | macqueue/sources.py:76-102 | an accepted archive has a manifest of version 1 that is the decoded `manifest.json`, one to four revisions of 40 and 64 hexadecimal digits, a `source.bundle` with the digest in the manifest, a directory `vendor`, distinct names that are these or below `vendor` without empty, `.` or `..` components, at most 100000 members and 4 GiB of data; its tree holds exactly these members and the directories above them |
| SourcesAccepted.UnpackAccepts | macqueue/sources.py:70-114 | every archive: it is accepted if and only if the limits hold, each member is a file or directory with a good name, no name occurs twice or runs through a file, and manifest, bundle and `vendor` are as they must be |
| SourcesAccepted.PackageAccepts | macqueue/sources.py:117-137 | every tree: it is packed if and only if the limits hold and every path is a file or directory with a good name |
| SourcesProps.RoundTrip | macqueue/sources.py:70-137 | unpacking a package gives back manifest, paths, bytes and executable bits if and only if: the bundle is a file and vendor a directory, no file with several links is packed twice, the bundle is not met below vendor, numbers and sizes are within the limits of `unpack`, the manifest is valid for the bundle, and the tar stream with headers and padding is within 4 GiB; all of it can be read off the tree |
| SourcesLimits.PackageCanExceedUnpack | macqueue/sources.py:118-119 | for every valid manifest and bundle: 99998 empty directories below vendor are accepted by `package` and refused by `unpack`, 99997 are accepted by both |
| SourcesLimits.LinksAreRefused | macqueue/sources.py:125-134 | two files with several links below vendor are accepted by `package`, and by `unpack` exactly if they are not the same file |
| SourcesLimits.BundleBelowIsRefused | macqueue/sources.py:125-127 | a bundle that is met below vendor is accepted by `package` and refused by `unpack` |
| SourcesLimits.BundleIsPackedTwice | macqueue/sources.py:125-127 | met there under another spelling of its path, it comes out under both names |
| SourcesLimits.HeadersCount | macqueue/sources.py:57-66 | in every tree that comes out again, the data with 512 bytes for each member and the end mark fills at most 419430 records of 10240 bytes, less than 4 GiB |
| SourcesLimits.HeadersDecide | macqueue/sources.py:57-119 | eight files of which seven have 512 MiB: `package` takes up to 4 GiB of data, `unpack` exactly what fits with headers and padding, so nothing in the last 10 KiB |

## Left out

- SQLite, HTTP, tokens and sockets: a transaction is one atomic step with one time stamp, a request is a message.
- Crashes between renaming an artifact file and committing its row: the two are one step here.
- Real clocks: one clock that does not go back and runs at the same rate on both machines; a suspended laptop is not
  part of this model.
- A worker process that dies while the children of its job keep running, for as long as they run: that a cancelled
  execution has ended within the observation time is a promise of the environment, which a dead worker breaks. Its
  restart is the subject of `Marker.dfy`.
- Loss of power: what is interrupted is the process, between two operations on files; `update.py` and `provision.py` do
  not force their writes to the disk, and what a file system keeps of them is not part of this model.
- SHA-256: digests are free of collisions. JSON, TOML, gzip and tar are encodings that can be read back.
- The completeness of `logs --follow` when it ends: chunks can arrive between the page and the status it reads.
- The limit of 1000 input files: an admitted upload is not counted before its temporary file exists. The byte budget is
  proved.
- Lease.Lease.Event: the JSON text of an event is a parameter, of any length.
- Process creation, signals and the Seatbelt sandbox: reads are arbitrary pieces, cleanup is confirmed or not.
- Process.Process.Session: wall clock measurements and the optional check of one field of the ready record are left
  out; a timeout or a cancel is an event that ends the session.
- Process.SessionPair.RunBoth: the records of baseline's start are read first; the source follows the order of the job.
- Compare.RunComparison: the plan of a comparison in which nothing fails; a failure stops after some part of it and
  closes the sessions.
- Update.Machine.Apply: that the payloads compile, the checks of accounts and platform and the local probes are
  parameters; the diagnostic copies and the contents of the receipt's file are left out.
- Swap.Machine.Undo: only the directories; the configuration copy that follows it in the rollback is left out, and so is
  the check of the configuration's digest that makes a second rollback refuse after it. An interruption while the
  receipt is being saved leaves `receipt.json.new`, which is only created if it does not exist: every later rollback
  still puts the directories back, but fails when it saves its receipt at the end.
- Sources.Unpack: how much of an archive's raw tar stream is read is a number that comes with it; for what `package`
  writes it is computed from the members.
- Sources.Package: the tree does not change while it is packed, so the package is not written below `vendor`. The size
  after gzip is a parameter. Paths are valid Unicode.
- SourcesProps.RoundTrip: the file system that receives the tree tells names apart as they are spelled; on one that
  ignores case, `vendor/A` and `vendor/a` meet. Lack of space and other errors of the file system are left out.
- LogView.AppendLogs: one `char` is one UTF-16 code unit, and parsing a line as JSON is a parameter.
- The watchdog's job timeout and disk budgets: they are local stops, which can happen at any time.
- `prune_worker`: it deletes local files of delivered jobs, one branch per check.
- The allow lists of `macqueue/policy.py`, `macqueue/schema.py` and `macqueue/plans.py`, installers, probes and the
  remaining web page: each check is settled by reading one branch.
