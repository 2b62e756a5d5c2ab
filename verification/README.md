# Verified model of the job-runner agent

The agent polls a Server for leases, runs each leased command as a process, sends
its output in numbered chunks, and reports how it finished. This project models
the parts of the agent that carry state across threads, requests and restarts,
and proves what they promise. `dafny verify dfyconfig.toml` checks all of it.

- **Output pipeline** (`Chunks`, `Chunker`, `Buffer`, `Reporter`). The chunker cuts
  two interleaved streams into numbered chunks under the run's cap, the buffer
  holds the unacknowledged chunks of all runs under one cap and evicts from the
  largest run, and the report sends, retries, heartbeats, drains and finishes.
  Each class is proved against a specification on values; `Reporter.Report.Deliver`
  composes them: the Server's log is an increasing, duplicate-free selection of the
  emitted chunks, every other chunk was evicted or was still held when the context
  ended or the Server refused output, and the log is all of what the process wrote
  if nothing was held and the finish does not say truncated.
  What the report says of the Server is what the Server answered: the trace of its
  requests is tied to the Server's own record of them.
- **Run lifecycle** (`Lifecycle`, `Lease`, `Pruning`, `Restart` and `Shutdown`, over `State`
  and `Registry`). The poll thread, one reporter per run, the signal goroutine, crashes
  and restarts are steps of one machine; every property is over all sequences of
  events.
- **Process termination** (`Runner`), **backoff and retry** (`Backoff`), the
  **configuration file** (`Text`, `Config`, `ConfigMeaning`) and **crontab lines** (`Crontab`,
  `CrontabMeaning`).

Code that changes state is a class or a method with loops, proved against functions
on values; the properties that span several operations or whole runs are lemmas
about those functions. `Report.Others` stands for everything the rest of the agent
may do between two statements of a reporter, and the answers of the Server, the
clock, the random jitter and the success of a save are arbitrary. The history of the
buffer is a ghost record of everything that was ever done to it; what was evicted
from a run is a function of that history.

One assumption: the Server is not part of this repository. `OutputServer.Server`
states the contract the agent relies on (internal/output/buffer.go:90-93,
CHANGELOG.md:63-64): it appends the chunks numbered beyond its last and answers its
last number, over its limit it takes nothing more and says so, and any request may
fail with or without its effect, but one is cut off only once its context has ended.

Two results differ from what the code's comments suggest:

- A configuration does not survive being saved and loaded merely because its names
  hold no comma, newline or edge white space: a list whose first name opens and
  whose last name closes with a quotation mark is unquoted as a whole, and a line of
  64 KiB is rejected. `ConfigSpec.RoundTrip` gives the exact condition and
  `ConfigSpec.QuotedListIsLost` an input.
- A run id is not "never executed twice". In every reachable state
  a lease makes the agent execute its run if and only if the run is not owned when
  the registry is looked up, has no outcome on record when the store is, is found
  valid with a slot free, is not cancelled, and the Server lets it start
  (`Restart.LeaseRunsExactly`). For such a lease after a crash and a restart of the same machine
  that is so if and only if the file did not know the run or the reconciliation forgets it
  (`Restart.RestartRunsExactly`), which `Pruning.Forgets` tells from the file's
  records, the finish times and the clock readings: a record is forgotten exactly if
  one of the saves finds it expired or with 1000 records behind it that no save since
  they were made has found expired (`Pruning.KnownExactly`, `Pruning.BehindExactly`).
  internal/agent/lease.go:210-212 goes on when the save that marks the run active
  fails, so a crash can make it run again (`Lifecycle.LostSaveRunsTwice`), and so can
  a record pruned a week later (`Restart.DroppedRunsTwice`). The check of
  internal/agent/lease.go:113 that a run is not still active can never fire
  (`Lifecycle.VerifyNeverSeesActive`): the two lookups before it have caught every
  such run.

An outcome that no save has covered is lost with the agent: after a restart a run the
file lists as active is reported as lost, whatever was on record in memory
(`Restart.RestartTells`).

## Model

| member | source | states |
|---|---|---|
| ChunkerSpec.ChunksAreTheKeptBytes | internal/output/chunker.go:101-198 | For every sequence of writes, ticks and closes: the chunks' bytes are, with their streams, a prefix of the first MaxOutput bytes offered before Close, and all of them once closed; chunks are numbered 1..n, hold 1..chunkBytes bytes and carry their first byte's arrival time; truncated exactly when a byte was dropped |
| ChunkerSpec.TicksNeverMatter | internal/output/chunker.go:169-182 | Two histories that differ only in their flush ticks deliver the same bytes and the same truncated flag |
| ChunkerSpec.TickSendsAll | internal/output/chunker.go:169-182 | After a tick, whatever came before, the chunks hold all that was kept of the bytes offered |
| ChunkerSpec.NoNeedlessCut | internal/output/chunker.go:126-141 | Without ticks a chunk ends only where it is full or the stream changes |
| ChunkerSpec.WriteBlock | internal/output/chunker.go:130-141 | Taking a block of bytes at once equals taking them one by one, flush included |
| ChunkerSpec.CutAtCap | internal/output/chunker.go:112-124 | Cutting a write at the cap before writing it equals offering every byte and dropping those beyond the cap |
| Chunker.Chunker.constructor | internal/output/chunker.go:66-99 | Starts empty; a chunk size of zero or less means the default |
| ChunkerSpec.WriteIsRun | internal/output/chunker.go:103-143 | A call during which the clock moves on is a run of write events, so the results about all event sequences cover it |
| Chunker.Chunker.Write | internal/output/chunker.go:103-143 | The block-wise loop, which reads the clock for each new pending chunk, does what the byte-wise specification does, keeps the invariant, and after Close changes nothing |
| Chunker.Chunker.WriteLocked | internal/output/chunker.go:111-142 | The loop over the data refines byte-wise writing, cap and truncation included |
| Chunker.Chunker.Fill | internal/output/chunker.go:126-141 | One turn takes at least one byte and leaves the rest with the same final effect |
| Chunker.Chunker.Tick | internal/output/chunker.go:174-177 | A tick flushes the pending bytes, offers none and leaves nothing pending |
| Chunker.Chunker.Close | internal/output/chunker.go:147-167 | Afterwards the chunks hold exactly the kept bytes; lastSeq is their number; the flag says whether bytes were cut; a second Close changes nothing |
| Chunker.Chunker.FlushLocked | internal/output/chunker.go:184-198 | Emits the pending bytes under the next number, or nothing |
| BufferSpec.EveryHistory | internal/output/buffer.go:60-160 | After any sequence of adds, evictions, acknowledgements and forgets for all runs: size is the sum of all bytes and within the cap; each run fed 1, 2, 3, ... holds one contiguous block of its newest chunks, every missing one was acknowledged or evicted, and the run is flagged exactly if one was evicted |
| BufferSpec.AddKeepsValid | internal/output/buffer.go:62-88 | Whatever ties the map iteration picks, an Add keeps the accounting exact and the size within the cap |
| BufferSpec.AddKeepsNewest | internal/output/buffer.go:62-88 | An Add leaves every run a suffix of what it held and was given, and flags a run exactly when it lost a chunk |
| BufferSpec.RefusedOnlyIfTooLarge | internal/output/buffer.go:69-83 | A chunk is refused exactly when it is larger than the whole cap, and then the buffer is empty |
| BufferSpec.SmallRunsAreSpared | internal/output/buffer.go:60-88 | Fairness: with k non-empty runs, a run holding B bytes with B*k at most the cap minus the chunk's size loses nothing in the whole Add |
| BufferSpec.BatchRepeats | internal/output/buffer.go:90-126 | Until it is acknowledged the same batch comes back, possibly longer, whatever is appended |
| BufferSpec.BatchExactly | internal/output/buffer.go:90-126 | A batch is a prefix of consecutive chunks within the limits that its first chunk alone may exceed, and ends only where the next chunk would break one of them |
| BufferSpec.AckDropsPrefix | internal/output/buffer.go:135-139 | Acknowledging drops exactly the chunks numbered up to the given one |
| BufferSpec.AddKeepsHolding | internal/output/buffer.go:62-88 | An Add leaves a run the newest of what it was fed; exactly the numbers in between are lost, and the flag says whether any ever was |
| BufferSpec.AckKeepsHolding | internal/output/buffer.go:128-140 | An acknowledgement leaves a run the newest of what it was fed and lets go only of numbers up to the given one |
| BufferSpec.AckKeepsValid | internal/output/buffer.go:128-140 | An acknowledgement keeps the accounting, the flag and every other run |
| BufferSpec.ForgetKeepsValid | internal/output/buffer.go:152-160 | Forgetting a run keeps the accounting and every other run |
| Buffer.Buffer.constructor | internal/output/buffer.go:37-58 | Starts empty with the defaults for limits of zero or less |
| Buffer.Buffer.Add | internal/output/buffer.go:62-88 | Evicts from a largest run until the chunk fits or nothing is left, then keeps or refuses it; the loop terminates; the state stays what the history makes it |
| Buffer.Buffer.MakeRoom | internal/output/buffer.go:69-77 | The eviction loop ends with room for the chunk or an empty buffer, having evicted only from largest runs while there was no room |
| Buffer.Buffer.NextBatch | internal/output/buffer.go:94-126 | The longest prefix of the run's chunks within the count, byte and contiguity limits, empty only if the run holds nothing |
| Buffer.Buffer.AckUpTo | internal/output/buffer.go:128-140 | Drops the acknowledged chunks from the front |
| Buffer.Buffer.Truncated | internal/output/buffer.go:142-149 | Whether the run has lost a chunk; false for an unknown run |
| Buffer.Buffer.Forget | internal/output/buffer.go:152-160 | Releases the run and its bytes |
| Buffer.Buffer.LargestRun | internal/output/buffer.go:179-189 | In whatever order the runs are met, a non-empty run no other exceeds; none only if all are empty |
| Buffer.Buffer.DropOldest | internal/output/buffer.go:191-197 | Removes the run's first chunk and its bytes |
| DeliveryTrace.KnowsBeat | internal/agent/reporter.go:222-244 | The flags after any heartbeat answer still describe the requests made: a success heals, a transient failure disconnects, run_not_running or 404 ends heartbeats and output |
| DeliveryTrace.KnowsSent | internal/agent/reporter.go:154-192 | An output request made while connected keeps every rule of the trace, whatever its answer |
| DeliveryTrace.SafeFinish | internal/agent/reporter.go:321-326 | A finish request keeps every rule of the trace if the last request was not an unslept finish |
| OutputServer.Server.Append | internal/output/buffer.go:90-93 | The assumed contract of the output endpoint: takes the chunks beyond its last number, answers its last number; the exchange is on its record |
| OutputServer.Server.Heartbeat | internal/agent/reporter.go:222-223 | The assumed contract of the heartbeat endpoint: any answer, put on its record |
| OutputServer.Server.FinishRun | internal/agent/reporter.go:321-326 | The assumed contract of the finish endpoint: any answer, put on its record |
| OutputServer.AppendKeepsLog | internal/agent/reporter.go:139-166 | Any batch, repeated, stale or partly taken, leaves the log an increasing selection of the emitted chunks, and every held chunk that the log's last number covers in the log |
| OutputServer.WholeLog | internal/agent/reporter.go:139-166 | An increasing log that has every emitted chunk is the emitted chunks |
| DeliveryLink.AppendKeepsLink | internal/agent/reporter.go:154-166 | However the buffer has moved on since the batch was taken, evictions included, the request keeps buffer and log linked; one that is taken whole covers the batch's first chunk |
| DeliveryLink.AckKeepsLink | internal/agent/reporter.go:164-166 | Acknowledging any number the log's last covers discards only chunks the log has, whatever was added and evicted since the request |
| DeliveryLink.AddKeepsLink | internal/output/buffer.go:62-88 | An Add of the run's own chunk or of another's keeps buffer and log linked; what it drops of the run is listed as evicted |
| DeliveryLink.NothingHeld | internal/agent/reporter.go:256-294 | Every chunk is in the log, evicted or held; with nothing held and nothing evicted the log is all of them |
| Reporter.Report.constructor | internal/agent/reporter.go:28-41 | A new report is connected and neither waiting nor done; it heartbeats only with a process |
| Reporter.Report.Others | internal/agent/reporter.go:106-132 | Whatever the process, the ticks, the other runs and the context do meanwhile keeps the run's output linked and only moves it forward |
| Reporter.Report.BeatAnswered | internal/agent/reporter.go:222-244 | Every kind of heartbeat answer keeps flags and trace consistent, and the trace what the Server was asked and answered; a success reconnects, a transient failure disconnects, a closing answer ends heartbeats and output, a cancel request is passed on, and nothing else changes a flag |
| Reporter.Report.Heartbeat | internal/agent/reporter.go:222-244 | The heartbeat under interference: a failure that may be retried leaves the report disconnected, with output still to send |
| Reporter.Report.AppendOutput | internal/agent/reporter.go:154-161 | An output request is made only while connected and not done; its effect under interference, lost replies included |
| Reporter.Report.Post | internal/agent/reporter.go:154 | The request keeps the log linked to the buffer; a success names a number the log covers, and at least the batch's first unless the Server is over its limit |
| Reporter.Report.Acknowledge | internal/agent/reporter.go:166 | Releases the chunks the answer covers, each of which is in the log |
| Reporter.Report.Accept | internal/agent/reporter.go:164-177 | A success acknowledges the chunks up to its number, at least the batch's first, or the Server's limit ends the output; the backoff starts again |
| Reporter.Report.Heed | internal/agent/reporter.go:168-176 | The answer's truncated flag ends the output and is remembered, its cancel request reaches the process |
| Reporter.Report.OutputFailed | internal/agent/reporter.go:179-192 | Exactly a final failure ends the output; a transient one disconnects and leaves a sleep running |
| Reporter.Report.RetryLater | internal/agent/reporter.go:194-208 | Starts a sleep exactly for a transient failure with none running; it lasts the backoff's next delay and at least the Server's Retry-After |
| Reporter.Report.SendOutput | internal/agent/reporter.go:134-162 | With chunks of the run held and the report neither done nor waiting, the batch of what was held is sent: at once while connected, else behind a heartbeat that does not miss; exactly a transient failure leaves a sleep running; a success releases what it names. Nothing is sent when done, waiting or with nothing held |
| Reporter.Report.Offer | internal/agent/reporter.go:134-192 | The attempt behind a flush: what is sent first, what the answer leaves, and that only a transient failure makes the report wait |
| Reporter.Report.SendHeartbeat | internal/agent/reporter.go:210-220 | Exactly one heartbeat while heartbeats are on, which only a closing answer ends; none otherwise |
| Reporter.Report.OnTick | internal/agent/reporter.go:106-132 | A flush tick sends, the end of a sleep sends if one was running, and a heartbeat tick beats once |
| Reporter.Report.Supervise | internal/agent/reporter.go:106-132 | Any order of flushes, ends of sleeps and heartbeats keeps the report steady; each flush tick makes a flush, and while heartbeats stay on each heartbeat tick a heartbeat |
| Reporter.Report.DeliverBatch | internal/agent/reporter.go:263-282 | Retrying a batch ends with its first chunk acknowledged, output done, a final failure or the context ended; every transient failure is followed by a sleep |
| Reporter.Report.Drain | internal/agent/reporter.go:256-294 | The drain terminates; with a live context it ends with nothing of the run left in the buffer or with output done, which only an answer of the Server that refuses it causes; every transient failure is followed by a sleep |
| Reporter.Report.TryFinish | internal/agent/reporter.go:321-326 | One finish request, made only when the buffer holds nothing of the run, output is done or the context has ended |
| Reporter.Report.FinishRun | internal/agent/reporter.go:321-340 | At least one finish request is made and all are the same; it ends settled, by a success or a final failure that the Server answered, or with the context ended |
| Reporter.Report.Deliver | internal/agent/reporter.go:84-104 | End to end: the log is an increasing, duplicate-free selection of the emitted chunks; each chunk is in it, was evicted, or was still held, the latter only if the context ended or the Server refused output; truncated is said exactly when a chunk was evicted, the Server said so, in which case it is over its limit, or the cap cut bytes; otherwise, with nothing held, the log is every byte written before Close. The trace is what the Server was asked and answered, request by request, and a request is cut off only by the end of the context. It is safe (no output replay without a healing heartbeat, nothing after a closing answer, finish last, retries paced); one and the same finish request is made until settled or the context ends: cancelled without code, start or reason for a run cancelled before its start, failed with the reason alone for one that could not be started, and else the process's own exit code, start time, status and reason; while the process runs every tick makes its flush or heartbeat; every cancellation asked for reaches the process; the buffer forgets the run |
| Reporter.FinishMeans | internal/agent/reporter.go:296-319 | What a finish request says, for each origin of a run and each result: its status, exit code, start time and reason |
| Reporter.FinishTells | internal/agent/reporter.go:296-319 | For every interleaving of timeout, cancellations, signals and exit: the finish request of a process has the exit code of its own end, and its status and reason name exactly what ended it |
| RunnerSpec.FirstTerminationWins | internal/runner/runner.go:217-272 | For every interleaving of timeout, cancellations, exit and signals: the first termination before the exit is what the result reports, at most one group termination starts, timed out and cancelled exclude each other |
| RunnerSpec.KillOnlyAfterGrace | internal/runner/terminate_unix.go:12-27 | SIGKILL is sent at most once, after SIGTERM, and only after the timer ended a grace period that was running, by a goroutine that had not returned for having seen the process done |
| RunnerSpec.ReturnedStaysSilent | internal/runner/terminate_unix.go:18-26 | Once the termination goroutine has seen the process done, nothing is sent any more |
| RunnerSpec.SignalsNeedATermination | internal/runner/runner.go:233-249 | Nothing is sent unless a termination won |
| RunnerSpec.ResultIsFinal | internal/runner/runner.go:221-225 | Once Wait can return, no later event changes the result |
| RunnerSpec.OutcomeTellsWhatEndedIt | internal/agent/agent.go:383-402 | For every interleaving: timed out or cancelled exactly if that termination came first, success exactly if none did and the process ended with code 0 and no wait error, failed exactly if none did and it ended otherwise; the reason names the agent's stop exactly if that came first |
| RunnerSpec.ResultTells | internal/runner/runner.go:254-281 | The exit code is that of the first end of Wait after the first exit; an error is reported exactly if that end had one or a signal failed before the exit |
| RunnerSpec.DoneExactly | internal/runner/runner.go:221-225 | Wait can return exactly once the process has exited and its wait has been settled after that |
| RunnerSpec.SignalsExactly | internal/runner/terminate_unix.go:12-41 | SIGTERM has been sent exactly if the goroutine took its first step behind a winning termination, SIGKILL exactly if it took its last behind a grace timer that won, and an error is kept exactly if one of these failed |
| RunnerSpec.SignalErrorsNeedATermination | internal/runner/terminate_unix.go:12-41 | A signal that could not be sent never fails a run that ended by itself |
| Runner.Process.Terminate | internal/runner/runner.go:233-249 | The critical section of terminate: ignored after an exit or an earlier termination |
| Runner.Process.Exit | internal/runner/runner.go:254-261 | The critical section of wait: the result takes the flags and the error as they are at the exit |
| Runner.Process.Settle | internal/runner/runner.go:263-281 | The rest of wait: the exit code is the given one, and the error the wait error or the one kept at the exit |
| Runner.Process.SignalGroup | internal/runner/terminate_unix.go:29-41 | Sends the signal and keeps the first error |
| Runner.Process.SendTerm | internal/runner/terminate_unix.go:13 | First step of the goroutine: SIGTERM, then the grace |
| Runner.Process.GraceEnds | internal/runner/terminate_unix.go:15-22 | The grace timer may win the wait |
| Runner.Process.SendKill | internal/runner/terminate_unix.go:24 | SIGKILL after the grace |
| Runner.Process.SeeDone | internal/runner/terminate_unix.go:18-26 | The goroutine returns once the process is done |
| BackoffSpec.GeometricUpToMax | internal/client/backoff.go:36-46 | Exactly when the k-th delay since Reset is min*factor^k up to the maximum, although the counter stops there: always, except below-one factors with a minimum above the maximum, where it is the maximum |
| BackoffSpec.CounterFollows | internal/client/backoff.go:39-44 | The counter follows the calls until the delay passes the maximum, and stays there |
| BackoffSpec.DefaultDelays | internal/client/backoff.go:36-53 | With the defaults the k-th delay is in [0.8 b, 1.2 b) for b = min(2^k, 60) seconds and the counter never passes 6 |
| BackoffSpec.DelayWithinJitter | internal/client/backoff.go:47-52 | With any settings the delay is the value before jitter, moved by the random share of the jitter, and never by more than the jitter, to the nanosecond |
| Backoff.Backoff.Next | internal/client/backoff.go:36-53 | The jittered delay of this call, and the counter it leaves |
| Backoff.Backoff.Reset | internal/client/backoff.go:55-57 | Starts counting again |
| Backoff.Retry | internal/client/backoff.go:97-122 | With any settings: stops at the first success or final failure; before each repeat it sleeps exactly the backoff's next delay or the Server's Retry-After if that is longer; only a success resets the backoff |
| Backoff.DefaultSleep | internal/client/backoff.go:112-115 | With the defaults such a sleep is never shorter than four fifths of the call's delay nor than Retry-After, and not longer than six fifths unless Retry-After is |
| Backoff.SleepExactly | internal/client/backoff.go:112-115 | A sleep of Retry is the longer of the call's delay and Retry-After |
| Protocol.FailuresExactly | internal/client/errors.go:38-116 | Exactly a network failure, a 429 and a 5xx answer may be retried; which answers are a conflict or not found, and which delay the Server asks for |
| StateSpec.PruneKeepsExactly | internal/state/state.go:259-269 | An outcome is kept exactly when it is not older than seven days and fewer than 1000 such ones stand behind it |
| StateSpec.PruneForgetsOnly | internal/state/state.go:259-269 | Pruning removes outcomes but never changes or mixes them up |
| StateSpec.ForgottenOnlyIfOldOrCrowded | internal/state/state.go:259-269 | An outcome is lost only to age or to a list over its cap |
| StateSpec.MarkActiveFacts | internal/state/state.go:164-175 | The run becomes active and no other changes; no outcome changes, though the save may prune some; no run is both active and finished, exactly if this one has no outcome left |
| StateSpec.MarkFinishedFacts | internal/state/state.go:177-192 | The run stops being active and its outcome is the given one or pruned; every other run is as before or pruned |
| StateSpec.ActiveEntries | internal/state/state.go:164-192 | Marking active stores exactly the given entry in place of the run's own; finishing takes out just that entry |
| StateSpec.JustRecordedSurvivesExactly | internal/state/state.go:177-192 | Exactly when an outcome survives the save that records it |
| StateSpec.JustRecordedSurvives | internal/state/state.go:177-192 | It always does if the list was within its cap and the clock did not jump |
| State.Load | internal/state/state.go:83-114 | Starts from the file, or empty without one; a corrupt file is set aside if possible and starts empty; only an unreadable one keeps the agent from starting |
| State.Store.constructor | internal/state/state.go:84-114 | The store holds what was loaded |
| State.Store.Save | internal/state/state.go:225-257 | Prunes; the file becomes the whole contents or stays |
| State.Store.MarkActive | internal/state/state.go:164-175 | Replaces or appends the run, then saves; memory changes even if the save fails |
| State.Store.MarkFinished | internal/state/state.go:177-192 | Moves the run from active to recent, then saves; memory changes even if the save fails |
| State.Store.SetMachineId | internal/state/state.go:155-162 | Sets the machine id, then saves |
| State.Store.Reset | internal/state/state.go:119-134 | Sets the file aside and forgets every run of the previous machine |
| RegistrySpec.RemoveAt | internal/agent/registry.go:27-38 | With distinct ids, removing by id takes out exactly that run and keeps the order |
| RegistrySpec.AcceptedAreOwned | internal/agent/registry.go:67-83 | The active list names exactly the owned runs whose start was accepted |
| RegistrySpec.AcceptedOnce | internal/agent/registry.go:67-83 | With distinct ids each is named once |
| Registry.Registry.Add | internal/agent/registry.go:20-25 | Appends |
| Registry.Registry.RemoveRun | internal/agent/registry.go:27-38 | Removes the first run of that id in place |
| Registry.Registry.Get | internal/agent/registry.go:40-51 | Finds a run exactly when one of that id is owned |
| Registry.Registry.Active | internal/agent/registry.go:70-83 | The ids with an accepted start, in the order they were taken on |
| Lifecycle.EveryRunKeepsInv | internal/agent/lease.go:43-91 | In every reachable state: ids are distinct, each place of the poll thread knows what its lookups established, active runs are owned or in flight, and everything spawned or saved is recorded or dropped |
| Lifecycle.EveryRunIsNamed | internal/agent/startup.go:15-37 | In every reachable state the running agent's store has a machine id, and a file without one has never held a run |
| Lifecycle.NeverExecutedTwice | internal/agent/lease.go:43-91 | Over whole runs, however the threads interleave: a run id is executed again only if its record was dropped since its last execution, or the agent crashed before any save covering it succeeded |
| Restart.LeaseExactly | internal/agent/lease.go:43-91 | A lease that nothing interrupts makes the agent execute its run if and only if the run is neither owned nor known to the store |
| Restart.LeaseRunsExactly | internal/agent/lease.go:43-91 | In every reachable state of the running agent, whatever reporters and signals do between its steps, for every lease, cancelled or not, valid or not, let start or not: the agent executes its run if and only if the run is not owned at the registry lookup, has no outcome on record at the store lookup, is valid, not cancelled, finds a slot free at verification and the Server lets it start; a cancelled one is taken on without a process exactly if it is unknown and valid |
| Lease.ExecutedIsLeased | internal/agent/lease.go:43-91 | Over whole runs, however the threads interleave: a process is started only for a lease that was not cancelled and was taken up for a run not owned, with no outcome, found valid with a slot free, and let start by the Server, in this order and with no other lease in between |
| Lease.SpawnedIsOwned | internal/agent/lease.go:201-214 | A started process is marked active in memory whether or not that is saved, and owned with its process |
| Lease.RefusedSpawnIsOwned | internal/agent/lease.go:183-204 | A process that could not be started leaves the store alone and is owned without one |
| Restart.RestartRunsExactly | internal/agent/startup.go:15-76 | After a crash and a restart of the same machine: an uninterrupted lease makes the agent execute its run if and only if the file did not know it, or the file's records, the finish times and the clock readings say that the reconciliation forgets it |
| Restart.ReconciledExactly | internal/agent/startup.go:51-64 | Exactly the runs known before the reconciliation are known after it, except those it forgets |
| Pruning.KnownExactly | internal/state/state.go:177-192 | Over any series of saves that take runs off the active list: a known run stays known unless one of them finds its record expired, or with 1000 records behind it |
| Pruning.BehindExactly | internal/state/state.go:259-269 | Behind a record stand exactly those that stood there or were recorded since, and that no save since has found expired |
| Pruning.ForgetsExactly | internal/state/state.go:177-192 | Exactly when one such save makes a known run unknown: its own new record has expired, or its listed one has or has 1000 unexpired behind it, the new one included |
| Restart.DroppedRunsTwice | internal/state/state.go:259-269 | Without any crash, a run whose record another run's save pruned a week later is executed again |
| Restart.RestartTells | internal/agent/startup.go:51-87 | After a restart a run the file lists as active is reported, and recorded if its record is kept, as lost, without an exit code, with the start time the file has and for the reason that the agent restarted, even if memory had another outcome; an outcome in the file stays as it was; an unknown run stays unknown |
| Restart.AdoptsNothing | internal/agent/startup.go:15-37 | The file of another machine is not taken over: no run is known or reconciled, and a failed save leaves the file set aside or as it was |
| Lifecycle.LostSaveRunsTwice | internal/agent/lease.go:201-214 | The second case happens: a failed save and a crash lead to a second execution |
| Lifecycle.VerifyNeverSeesActive | internal/agent/lease.go:113-114 | A lease that reaches verification never names an active run |
| Lifecycle.RecordedSince | internal/state/state.go:177-192 | A recorded outcome stays in the file and in memory through every later save, failed save, crash and restart, unless dropped |
| Lifecycle.RememberedOutcomesAreStable | internal/agent/reporter.go:43-59 | Once on record, saved or not, every finish request the running agent makes for the run carries exactly that outcome until it is forgotten |
| Lifecycle.RecordedOutcomesAreStable | internal/agent/reporter.go:43-59 | Once recorded in the file, every later finish request for the run, over any number of restarts, resent, reported as lost or a reporter's own, carries exactly that outcome |
| Lifecycle.ResendsExactly | internal/agent/lease.go:52-60 | A lease of a run that is not owned sends an outcome again exactly if one is on record, sends that one, and is done |
| Lifecycle.RememberedIsResent | internal/agent/lease.go:52-60 | Over whole runs: a later lease of a run whose outcome is on record and not forgotten sends exactly that outcome |
| Lifecycle.SentIsRecorded | internal/agent/reporter.go:95-101 | What a reporter records is what every one of its finish requests carried, each of which it sent |
| Lifecycle.FinishRecords | internal/agent/reporter.go:98-101 | A reporter's successful save records its outcome |
| Lifecycle.ProcessesStayWithinLimit | internal/agent/agent.go:278-287 | Runs with a process never exceed the limit, one not yet registered included; the slots asked for are what the owned runs leave of the limit, none if they leave nothing, and at most 16 |
| Lifecycle.StopMissesNobody | internal/agent/signals.go:31-82 | When the agent starts waiting for its reporters, every owned run with a process has been cancelled, however the signal met the poll thread |
| Shutdown.SignalStopsAgent | internal/agent/signals.go:31-82 | From every reachable state between two leases: a signal cancels every process the agent owns, and then the poll thread stops, cancels again and waits |
| Shutdown.ServerCancelReaches | internal/agent/agent.go:240-243 | A cancel request of the Server reaches the run's process and changes nothing else |
| Shutdown.LastSaveSaves | internal/agent/signals.go:76-111 | The last save of a stopping agent writes out memory but for what it prunes, or leaves the file |
| Text.TrimSpaceDrops | internal/config/parse.go:17-29 | White space around a text never changes what trimming leaves |
| Text.AtoiItoa | internal/config/parse.go:58-63 | A printed number reads as itself up to the 64-bit limit |
| Text.AtoiReads | internal/config/parse.go:58-63 | Which numbers a run of digits reads as, with either sign and with leading zeros, and where the 64-bit limits lie |
| Text.NumbersAreDigits | internal/config/parse.go:58-63 | Nothing but digits behind at most one sign reads as a number |
| Text.SpacesBelow256 | internal/config/parse.go:17-28 | Which Latin characters are white space |
| Text.SplitPartsLack | internal/config/parse.go:85-88 | The parts of a split text hold no separator and only its characters |
| ConfigSpec.RoundTrip | internal/config/config.go:158-176 | For every valid configuration: parsing what was printed gives it back exactly when its values have no newline, edge white space or wrapping quotes, its names no comma, its list no wrapping quotes, and every line is under 64 KiB |
| ConfigSpec.QuotedListIsLost | internal/config/parse.go:93-99 | A valid configuration with clean names that does not come back |
| ConfigSpec.AnyOrderParsesTheSame | internal/config/parse.go:11-45 | Reordering the lines of any file changes neither whether it is accepted nor what it means |
| ConfigMeaning.ParseAcceptsExactly | internal/config/parse.go:11-76 | For any text: it is accepted exactly if every line is blank, a comment or a setting of a known key to a value the key takes, and no key is set twice |
| ConfigMeaning.AcceptedMeans | internal/config/parse.go:11-76 | In an accepted file each field holds what the line of its key says, and its default without one |
| ConfigMeaning.LineMeans | internal/config/parse.go:17-29 | However a line is spaced, it sets what stands before its first equals sign to what stands behind it, without one pair of quotation marks |
| ConfigMeaning.CommentMeansNothing | internal/config/parse.go:17-20 | Blank lines and lines that open with a hash are ignored |
| ConfigMeaning.NoEqualsIsMalformed | internal/config/parse.go:22-25 | A line without an equals sign that is neither blank nor a comment is an error |
| ConfigMeaning.SetTells | internal/config/parse.go:47-76 | A key is set exactly if it is known and takes the value, and then its field holds it |
| ConfigMeaning.ErrorTells | internal/config/parse.go:16-42 | The error is about the first line that cannot be applied, by number, and says what is wrong with it |
| ConfigSpec.ApplyCommutes | internal/config/parse.go:34-41 | Two lines applied in either order leave the same configuration or are rejected both ways |
| ConfigSpec.ReadsBack | internal/config/config.go:158-176 | What reading back gives for any valid configuration without newlines: each value trimmed and unquoted once |
| ConfigSpec.PrintedLineMeans | internal/config/parse.go:17-29 | A printed line sets its key to the value trimmed and unquoted |
| ConfigSpec.ListReadsExactly | internal/config/parse.go:80-91 | A printed list of names comes back exactly when the names and the list are clean |
| ConfigSpec.ReadExactly | internal/config/parse.go:93-99 | A value comes back exactly when it has no edge white space and no wrapping quotes |
| ConfigSpec.ParsedHasNoNewlines | internal/config/parse.go:16-43 | No parsed value holds a newline |
| Config.Parse | internal/config/parse.go:11-45 | The loop over the lines computes the specified result, errors and their line numbers included |
| Config.SplitList | internal/config/parse.go:80-91 | The loop trims every part in place |
| Config.ValidateRunAsAllowed | internal/config/config.go:100-116 | Accepts exactly the lists without an empty entry and without a name at two places; otherwise names the first place that is empty or repeats one before it |
| CrontabSpec.AcceptedExactly | internal/discovery/crontab.go:235-264 | A line without a shorthand is accepted exactly when it is five valid fields, however spaced, and the schedule is those fields with single spaces |
| CrontabSpec.ListsExactly | internal/discovery/crontab.go:277-285 | A list is valid exactly when both parts around any comma are |
| CrontabSpec.StepsExactly | internal/discovery/crontab.go:287-297 | A stepped item is valid exactly when the step is positive and what it steps through is valid |
| CrontabSpec.NumbersExactly | internal/discovery/crontab.go:311-330 | A number is valid exactly within its field's bounds |
| CrontabSpec.RangesExactly | internal/discovery/crontab.go:299-309 | A range is valid exactly when both ends are within bounds, in either order |
| CrontabMeaning.BoundsExactly | internal/discovery/crontab.go:25-39 | The numbers each of the five fields takes |
| CrontabMeaning.WordsExactly | internal/discovery/crontab.go:25-39 | The words each field takes: exactly the months and the days of the week by their three letters, in any case |
| CrontabMeaning.NicknamesExactly | internal/discovery/crontab.go:24-24 | Of the texts that open with an at sign exactly the eight shorthands are accepted, in any case |
| CrontabMeaning.ItemsExactly | internal/discovery/crontab.go:277-285 | A list of one item is valid exactly when the item is |
| CrontabMeaning.ValuesExactly | internal/discovery/crontab.go:287-309 | An item without a step and a range is valid exactly when it is a valid value |
| CrontabMeaning.ErrorsTell | internal/discovery/crontab.go:248-262 | However the fields are spaced, the error is about the first one that is missing or not valid, and says which |
| CrontabSpec.ReportedReadsAsItself | internal/discovery/crontab.go:233-264 | An accepted schedule, as reported, followed by a blank and any rest, is accepted as itself with that rest |
| CrontabSpec.ScheduleIsNoAssignment | internal/discovery/crontab.go:197-223 | No text with an accepted schedule, after an optional hyphen, reads as an environment assignment |
| CrontabMeaning.AssignmentExactly | internal/discovery/crontab.go:200-223 | A line is an assignment exactly if a name of letters, digits and underscores, not opening with a digit, stands before its first equals sign |
| CrontabMeaning.AssignmentReads | internal/discovery/crontab.go:200-231 | However it is spaced, an assignment reads as its name and its value without one pair of quotation marks |
| CrontabMeaning.AssignmentsSetTimezones | internal/discovery/crontab.go:146-153 | An assignment makes no entry, and sets the timezone of the lines below exactly if it assigns one of the two names that do |
| CrontabMeaning.CommentsAreSkipped | internal/discovery/crontab.go:141-144 | Blank lines and comments make no entry and leave the timezone |
| CrontabMeaning.OtherLinesAreReported | internal/discovery/crontab.go:155-195 | Every other line is reported as it stands; what its entry says of user and command, and exactly which of a bad schedule, a bad user and a missing command is noted |
| CrontabMeaning.HyphenNeverMatters | internal/discovery/crontab.go:157-161 | A hyphen before a schedule changes nothing of the entry but the line as it stands |
| CrontabMeaning.UserNamesExactly | internal/discovery/crontab.go:373-387 | Which user names a system crontab takes |
| CrontabMeaning.CommandReads | internal/discovery/crontab.go:332-352 | Blanks behind a command and what follows an unescaped percent sign are not part of it |
| CrontabSpec.MinuteOpens | internal/discovery/crontab.go:277-330 | A valid minute field opens with a star, a plus or a digit |
| CrontabSpec.CutFieldReads | internal/discovery/crontab.go:266-275 | A field between blanks is cut out, and the rest starts behind the blanks |
| CrontabSpec.EscapedReadsAsItself | internal/discovery/crontab.go:332-352 | A command with its percent signs escaped reads as itself, and what follows an unescaped one is not part of it |
| CrontabSpec.ScheduledLinesAreReported | internal/discovery/crontab.go:140-195 | Every line that holds a schedule yields an entry with that schedule and the timezone in force |
| CrontabSpec.EntryRoundTrip | internal/discovery/crontab.go:140-195 | Schedule, user and command come back from the line that writes them, in either crontab format, with the mark of the agent's own jobs |
| CrontabSpec.OwnPathIsMarked | internal/discovery/discovery.go:227-244 | A command that starts with the agent's own path is marked as its own, whatever follows |
| CrontabMeaning.MarkedExactly | internal/discovery/discovery.go:227-244 | A command is marked exactly if some word of it, without quotation marks, is the agent's path or ends in its program's name |
| CrontabMeaning.BaseReads | internal/discovery/discovery.go:239-239 | The base of a path is its last part, in whatever directory and however many slashes end it |
| Crontab.ReadSchedule | internal/discovery/crontab.go:235-264 | The loop over the five fields computes the specified result or error |
| Crontab.ReadCommand | internal/discovery/crontab.go:336-352 | The one-pass loop computes the unescaped, right-trimmed command |
| Crontab.CronParser.Parse | internal/discovery/crontab.go:140-195 | The entry of a line, and the timezone it leaves for the lines below |

## Left out

- The lifecycle is a step machine on values: its poll thread, reporters, signal goroutine and crashes are events, not classes with fields, because threads interleave there.
- A stop without a signal, when the caller's own context ends polling, and the second signal that forces an exit: the runs then simply keep their reporters.
- An output log bounded by the Server: the moment it reaches its limit is arbitrary.
- Resent finish requests do not carry the last sequence number and the truncated flag; nothing is claimed about those fields, nor about the finish time of a run reported as lost.
- The agreement of a finish request with the record, between the request and the record: a crash there is followed by a report of the run as lost, as in the code.
- Reporter.Report.Deliver: an outage that no number of attempts outlasts is ended by the context, or, if the context does not end, ends by itself, so the retry loops terminate.
- Sequence numbers are unbounded naturals where the code has uint64, and byte counts are unbounded integers.
- The entries of the buffer's map are values that are replaced, where the code updates them by reference; no alias of an entry is ever kept across calls there.
- Backoff.Backoff.Next: computes over the reals, so the rounding of float64 is not modelled.
- The format of the state file and the renaming of files; the lifecycle's restarts find the file as the last save left it.
- The store's clock may show any time at each save.
- ConfigSpec.RoundTrip: covers every configuration that passes the other checks of Validate; whether net/url accepts the server URL is not part of this model, so it holds for more configurations than Validate accepts.
- Bytes that are not valid UTF-8 in configuration files and crontabs; texts are sequences of Unicode code points.
- Log lines, the list of rejected leases that keeps the log short, acknowledging a repeated lease, and applying the Server's settings.
- What a lease must hold to be found valid, beyond its run not being active, and the lesser of its limits and the configured ones; the answer of the verification is arbitrary.
- The lookup of execution users, process start, environment, working directory, process groups and the length of the grace period.
- HTTP, JSON, TLS, enrolment, discovery of cron directories and systemd timers, and the command line.
