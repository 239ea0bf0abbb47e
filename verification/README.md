# Verification of the concurrency kernel and the stateful cores of gocudrv

gocudrv binds the CUDA driver API from Go without cgo. CUDA keeps a "current context" per
operating system thread, so every driver call runs on a pinned thread, and what can go wrong is
concurrency and teardown, not the calls themselves. This project models those parts and proves
what the repository's comments promise about them.

| module | what it models |
|---|---|
| `Executor`, `ExecutorInvariant`, `ExecutorTheorems`, `ExecutorProgress` | the pinned-thread executor: any number of callers, the worker, `Close`, `Retire` and the pool of completions, one atomic step at a time, every interleaving |
| `ExecutorHandshake` | the methods of a completion, in place, against the steps above |
| `WaitLanes` | how a wait claims a lane of the context's pool |
| `ContextWaits`, `ContextWaitsInvariant`, `ContextWaitsSteps`, `ContextWaitsTheorems`, `ContextWaitsProgress`, `ContextWaitsAnswers` | `Synchronize` of streams, events and contexts on the wait lanes, `Close` of streams and events behind the barrier, and `Context.Close`, every interleaving |
| `LaneRefinement`, `LaneProduct` | an executor as a lane, and the machine above run together with one executor behind every lane |
| `CopyExecutor`, `CommandExecutor`, `ContextFrames` | the machine above run together with its copy executors, and with its command executors, over any number of attempts of `Context.Close` |
| `ContextLifecycle` | a context from `Primary` to `Close` under the exclusive lock, against any pattern of driver failures |
| `ArgPack` | the kernel argument packer |
| `VirtualMemory` | the virtual memory transaction and its retryable teardown |
| `PitchedCopy`, `PitchedBuffers` | 2D and 3D copies between padded layouts, and the buffers that use them |
| `LockOrder` | ordered acquisition of read and write locks, up to the lock of the context |
| `LaunchLocks` | the locks of a kernel launch |
| `HostCallbacks` | the sharded registry of host callbacks |
| `Views` | nested views and copies at an offset |
| `Options`, `Arithmetic`, `DeviceMemory` | an option type, the nonlinear facts, and the memory of one context |

The two concurrent machines are functions from a state and a step to the next state, so a run is
a list of steps, `Reachable` means the end of some run, and an invariant is proved step by step.
`LaneProduct` joins them: it runs the context machine with one executor behind every wait lane,
from the lane's bind to the unbind and the `Close` of its executor. Every such run is a run of
`ContextWaits`, no executor is ever held up by its lane, a lane that is claimed has an open
executor, and a fence, or a wait that was not canceled, has left the lane when its call has
returned; so the theorems of the two machines hold together. `CopyExecutor` and `CommandExecutor`
do so for the other executors of a context, which a failed attempt of `Context.Close` makes it
replace. The sequential cores are classes with the source's fields; their methods are proved
against functions of the old state.

## Assumptions

- A driver call is an oracle that succeeds or fails: call number `k` succeeds when `ok(k)` holds,
  for an arbitrary `ok`. A call that fails changes nothing; in particular a failed
  `CtxSetCurrent` leaves the thread's binding as it was.
- The driver returns a pitch of at least the bytes of a row, never hands out overlapping
  allocations, and never reuses a live handle.
- Jobs and driver calls terminate and do not panic.
- An atomic operation, a channel operation and a lock operation are each one step. A spin
  iteration changes nothing. `sync.Pool` is a set that may lose elements and may always make a new
  one. `sync.RWMutex` keeps new readers out once a writer has announced itself.
- Packed arguments have 1 to 4096 bytes (cuda/launch.go:190, cuda/launch.go:222). The packer does not
  check that; `ArgPack.Builder.Add` says what becomes of others.
- The arguments of a launch and the resources they name are only closed by others while the
  launch does not hold their lock.

Where code and comment disagree the code is modelled. `AllocPitched` says that it rejects
byte-size overflow, but it checks one row only: `PitchedBuffers.PitchedGuardIsTooWeak` gives sides
it accepts whose packed size exceeds 64 bits, `PitchedBuffers.PitchedGuardExact` the one check that
is missing, and `PitchedBuffers.PitchedHostCopyExact` exactly which accepted buffers a host copy
can fill. The packer narrows sizes and offsets without a check; `ArgPack.Builder.Add` says exactly
when what it records is right.

## Model

| member | source | states |
|---|---|---|
| `ExecutorTheorems.ReturnedOnceAndClean` | internal/executor/executor.go:65-102 | In every interleaving, a completion taken back to the pool was drawn once and not yet returned, is in the waiting state with an empty channel, was not already pooled, and no call uses it any more |
| `ExecutorTheorems.DrawsMatchReturns` | internal/executor/executor.go:92-102 | A call draws at most one completion, and has returned it exactly when neither its caller nor the worker still uses it |
| `ExecutorTheorems.CompletionsAreExclusive` | internal/executor/executor.go:92-102 | Over unbounded reuse two calls never use the same completion, and a used one is not in the pool |
| `ExecutorTheorems.TouchedOnlyWhileUsed` | internal/executor/executor.go:65-90 | A step that changes a completion is a step of a side that still uses it, or its draw from the pool: a side that gave it up never touches it again |
| `ExecutorTheorems.HandshakeNeverBlocks` | internal/executor/executor.go:72-90 | The worker always has room for its result, and the draining receive of either side is enabled when it is reached |
| `ExecutorTheorems.DrainFindsTheResult` | internal/executor/executor.go:72-90 | Whichever side loses the race after the other's swap finds exactly this call's result on the channel |
| `ExecutorTheorems.OwnResult` | internal/executor/executor.go:285-377 | A caller only ever gets the result of its own job, which has then run; DoJob, and DoCtx or Do while their ctx is not canceled, return that result whenever the job was accepted; only a canceled caller is told so, and a closed-error means that the executor is closed and the job was never accepted |
| `ExecutorTheorems.OpenExecutorServes` | internal/executor/executor.go:256-283 | While the executor is not closed, a call that was not canceled and has returned has run and returns its own result |
| `ExecutorTheorems.CanceledBeforehand` | internal/executor/executor.go:256-263 | A job whose ctx is canceled before the call begins is never accepted, and its caller is told of the cancellation |
| `ExecutorTheorems.RunsInAcceptanceOrder` | internal/executor/executor.go:154-232 | What has run is a prefix of what was accepted, each job once, with at most one job in hand and one buffered behind it |
| `ExecutorTheorems.JobRecycledOnce` | internal/executor/executor.go:203-218 | Every job is recycled at most once, exactly once when call and worker are through with it, and before its result can be received |
| `ExecutorTheorems.ReturnedCallersLeaveNothingBehind` | internal/executor/executor.go:250-254 | An executor whose callers use DoJob, or Do and DoCtx without being canceled, has run and recycled everything accepted as soon as they have returned |
| `ExecutorTheorems.CloseWaitsForAccepted` | internal/executor/executor.go:220-232 | When Close has returned every accepted task has run and been recycled, also one that sat in the buffer when quit fired |
| `ExecutorTheorems.NothingAcceptedLater` | internal/executor/executor.go:256-283 | From the moment the closed flag is set, no continuation of the run accepts a task |
| `ExecutorTheorems.CloseIsFinal` | internal/executor/executor.go:379-392 | After Close has returned, the accepted tasks of every later state are the same, all of them run |
| `ExecutorTheorems.DoneCaseNeverEnabled` | internal/executor/executor.go:276-279 | The done case of submit's select can never be taken |
| `ExecutorTheorems.QuitIsForGood` | internal/executor/executor.go:154-188 | Once the worker has seen quit it drains and leaves, and never waits for work again |
| `ExecutorTheorems.RetiredThreadStaysLocked` | internal/executor/executor.go:190-201 | A thread retired before Close is never unlocked and ends up quarantined |
| `ExecutorProgress.Progress` | internal/executor/executor.go:154-188 | No state of the invariant is stuck: until every call has returned and Close is through, some step of the program is enabled |
| `ExecutorProgress.MaximalRunsSettle` | internal/executor/executor.go:298-392 | Without new calls and cancellations a run has boundedly many steps, and one that cannot continue has settled every call and Close |
| `ExecutorProgress.EveryCallerIsServed` | internal/executor/executor.go:285-377 | When a run of an executor that is not closed cannot go on, every caller that was not canceled has the result of its own job, which ran once and was recycled once |
| `ExecutorProgress.CanceledCallerLeaves` | internal/executor/executor.go:285-341 | A canceled caller returns by its own steps, before submitting, from a full queue, or while it waits unless it is strict, whatever the worker does |
| `ExecutorProgress.Drains` | internal/executor/executor.go:220-232 | From every such state the program reaches a settled one by its own steps alone |
| `ExecutorHandshake.CompletionCell.Delivered` | internal/executor/executor.go:72-78 | The worker's swap, in place, is the machine's swap and drain, and returns true exactly when the caller was there first |
| `ExecutorHandshake.CompletionCell.Received` | internal/executor/executor.go:80-82 | The receiving caller's swap is the machine's, and returns true exactly when the worker has delivered |
| `ExecutorHandshake.CompletionCell.Abandon` | internal/executor/executor.go:84-90 | The canceled caller's swap is the machine's swap and drain, and returns true exactly when the worker has delivered |
| `WaitLanes.PickShares` | cuda/context.go:216-248 | A busy lane is picked only when all eight exist and are busy, and then a least loaded one; a new lane is asked for exactly while there are fewer than eight, all busy; of the lanes that would do the first is picked |
| `WaitLanes.LanePool.ReuseWaitLane` | cuda/context.go:218-229 | Claims the picked lane by adding one to its count and nothing else, or claims none |
| `WaitLanes.LanePool.IdleWaitLane` | cuda/context.go:231-238 | The loop finds the first lane with no pending wait, or none |
| `WaitLanes.LanePool.LeastLoadedWaitLane` | cuda/context.go:240-248 | The loop finds the first least loaded lane |
| `WaitLanes.LanePool.ReleaseWaitLane` | cuda/context.go:250-254 | Takes one from the lane's count, whether or not the lane is still on the list, and leaves every other lane alone |
| `WaitLanes.LanePool.AppendLane` | cuda/context.go:209-213 | A new lane joins the pool claimed once, the others as they were |
| `ContextWaitsTheorems.DestroyIsSafe` | cuda/stream.go:190-206 | In every run the destroy call of a stream or event succeeds at most once, and is made only when no driver synchronize on it is queued or running, even one whose caller canceled and returned |
| `ContextWaitsTheorems.DestroyedIsNeverUsed` | cuda/event.go:142-152 | A destroyed handle is destroyed once, and no wait on it is queued, running or about to be submitted |
| `ContextWaitsTheorems.DriverCallsFindTheHandle` | cuda/stream.go:120-130 | A synchronize call starts in the driver only on an open context and a handle that was not destroyed |
| `ContextWaitsTheorems.ReleaseIsSafe` | cuda/context.go:534-547 | When the primary context is released every job ever accepted on a wait lane, abandoned waits included, has run, been recycled and delivered, no lane has work, and it was not released before |
| `ContextWaitsTheorems.NothingRunsAfterRelease` | cuda/context.go:404-415 | While the context is closed, or quarantined by a failed restore, no wait starts in the driver and nothing is destroyed; it is released exactly once |
| `ContextWaitsTheorems.LaneAccounting` | cuda/context.go:286-293 | The pending counts sum to syncActive plus the waits between claim and count minus the recycles between release and decrement; at most eight lanes are on the list |
| `ContextWaitsTheorems.SharingNeedsAFullPool` | cuda/context.go:196-229 | In every run a wait shares a busy lane only when eight lanes exist and all are busy, and then a least loaded one |
| `ContextWaitsTheorems.NewLaneNeedsABusyPool` | cuda/context.go:196-229 | In every run a wait goes on to create a lane only while fewer than eight are listed and all of them are busy |
| `ContextWaitsTheorems.SyncJobRecycledOnce` | cuda/context.go:390-425 | On every path of doJobCtx (closed, canceled, quarantined, failed lane bind, rejected, executed, abandoned) the job is recycled once, never twice |
| `ContextWaitsProgress.ReachableProgress` | cuda/context.go:196-293 | No deadlock in any run, across handle locks, the context lock, laneCreateMu, fences and lane draining, with writers preferred and a Context.Close waiting or not: until all calls are settled some step of the program is enabled |
| `ContextWaitsProgress.MaximalRunsSettle` | cuda/context.go:390-472 | Without new calls and cancellations a run has boundedly many steps, and one that cannot go on has settled every wait, Close and Context.Close and emptied every lane, the jobs of abandoned waits delivered too |
| `ContextWaitsAnswers.SynchronizeAnswers` | cuda/context.go:390-425 | In every run a Synchronize returns without an error only when the driver is through with it, and reports a cancellation, a closed handle, a closed or quarantined context or a failed bind only where there was one |
| `ContextWaitsAnswers.CloseAnswers` | cuda/stream.go:190-206 | In every run a Close of a stream or event returns without an error only when the handle is destroyed and closed, and with one only where the context was closed or quarantined or the destroy call failed |
| `ContextWaitsAnswers.EveryCallIsServed` | cuda/context.go:256-274 | When a run of an open context cannot go on, without quarantine, failed bind or failed destroy, every Synchronize that was not canceled and whose handle is open has waited for the driver, and every Close has destroyed its handle |
| `ContextWaitsAnswers.FirstAnswerWins` | cuda/context.go:398-420 | A wait that comes to a closed handle or context reports that, and one canceled before it has a lane is never submitted, however the run goes on |
| `ContextWaitsAnswers.CanceledWaitLeaves` | cuda/event.go:139-152 | A canceled wait returns by its own steps alone, whatever its lane and the driver do |
| `ContextWaitsAnswers.QuietCloseNeedsNoLane` | cuda/context.go:256-259 | A Close that finds no wait counted destroys its handle by its own steps and sends no fence |
| `ContextWaitsAnswers.AttemptReleases` | cuda/context.go:518-560 | An attempt of Context.Close on an open context ends with a release, or with the failed recovery of a quarantined one |
| `ContextWaitsAnswers.ClosedMeansReleased` | cuda/context.go:534-559 | A context is closed exactly when a release of it has succeeded, and quarantined exactly when a restore failed and no recovery has succeeded since |
| `LaneRefinement.ExecutorIsALane` | internal/executor/executor.go:203-232 | Each executor step accepts a job at the end of its lane, runs, recycles or delivers the first one, or leaves the lane alone |
| `LaneRefinement.LaneFollowsExecutor` | cuda/context.go:276-293 | Whatever the executor behind a wait lane does, binds and unbinds included, steps of that lane of the context machine do, and the other lanes stay as they are |
| `LaneRefinement.WaitIsAccepted` | cuda/context.go:421-425 | A submitted wait enters the executor and its lane together |
| `LaneRefinement.FenceIsAccepted` | cuda/context.go:266-270 | The fence of a Close enters the executor and its lane together |
| `LaneProduct.RunsProject` | cuda/context.go:196-293 | Every run of the context with an executor behind each lane is a run of the context machine, each lane being what its executor has accepted and not delivered |
| `LaneProduct.ExecutorIsFollowed` | cuda/context.go:276-293 | In every such run each step of an executor is possible with the accompanying steps of its lane |
| `LaneProduct.ClosedLaneIsEmpty` | cuda/context.go:485-493 | When the Close of a lane's executor has returned, unbind and all, the lane has no job left |
| `LaneProduct.ReleaseFindsExecutorsClosed` | cuda/context.go:462-472 | At the release every executor ever put behind a lane has returned from Close with everything it accepted run |
| `LaneProduct.FenceReturnsRun` | cuda/context.go:266-271 | When the Do of a fence has returned, the fence has run: what Close waits for is what the machine's Close waits for |
| `LaneProduct.WaitReturnsDelivered` | cuda/context.go:421-425 | When the call of a wait has returned without being canceled, its job has been delivered |
| `LaneProduct.ClaimedLaneIsOpen` | cuda/context.go:416-424 | A wait that has claimed a lane finds its executor open, so only its own cancellation can have its submission refused |
| `CopyExecutor.NoCopyDuringClose` | cuda/context.go:332-358 | While Context.Close is at work, in any attempt, every copy ever begun has returned, and its job, if accepted, has run and been recycled |
| `CopyExecutor.CopyAnswers` | cuda/context.go:332-358 | A copy returns its own result exactly when it was accepted, and otherwise that it was canceled; it never finds its executor closed |
| `CopyExecutor.CopyExecutorsAreIdle` | cuda/context.go:518-535 | From the lock to the draining of the lanes every copy executor has run everything it accepted, its bind included |
| `CopyExecutor.OneCopyExecutor` | cuda/context.go:178-191 | Every copy executor but the last one has been closed, with everything it accepted run |
| `CopyExecutor.ReleaseFindsCopyExecutorsClosed` | cuda/context.go:474-483 | At the release, in whichever attempt, every copy executor ever started is closed, with every accepted job, bind and unbind among them, run and recycled |
| `CopyExecutor.CopiesAreNotHeldUp` | cuda/context.go:178-191 | Beside the context every step of a copy executor's program is possible, and while the context is open a copy can begin, on a new executor if there is none |
| `CommandExecutor.NoCallerDuringClose` | cuda/context.go:427-460 | From the taking of the lanes to the last command of Context.Close every caller has left the command executor and it accepts nothing |
| `CommandExecutor.CommandAnswers` | cuda/context.go:427-460 | A command returns its own result, having run, or that it was canceled; it never finds its executor closed |
| `CommandExecutor.ReleaseRunsLast` | cuda/context.go:534-546 | When the release job runs, every command ever accepted, on this executor or one it replaced, has run, abandoned ones included, and it is the last one accepted |
| `CommandExecutor.NothingCommandedAfterRelease` | cuda/context.go:547-560 | In a closed context the release is the last command that ever ran or was accepted, and when Context.Close has given the lock back every command executor is closed |
| `CommandExecutor.ExecutorIsNotHeldUp` | internal/executor/executor.go:154-218 | Beside the context every step of the executor's program is possible; the run of the release job finds Context.Close waiting for it |
| `CommandExecutor.CommandsCanBeCalled` | cuda/context.go:495-546 | While the context is open its executor is open and takes calls; Context.Close can call the release, and replace a quarantined executor |
| `ContextLifecycle.Primary` | cuda/context.go:53-87 | For every pattern of failures: a context exactly when retain and bind succeed; otherwise the thread goes back unbound and the retain is undone, unless the rolling-back release fails |
| `ContextLifecycle.Context.NewExecutor` | cuda/context.go:166-176 | A fresh thread with the context current, or no thread, and the one started is retired and closed |
| `ContextLifecycle.Context.CopyExecutor` | cuda/context.go:178-191 | The copy thread is created once, bound and kept |
| `ContextLifecycle.Context.NewWaitLane` | cuda/context.go:200-214 | A bound thread joins the lanes exactly when its bind succeeds |
| `ContextLifecycle.Context.DoJob` | cuda/context.go:300-327 | Each refusal exactly in its case and in order; a job runs exactly when the context is open, not quarantined and the submission is not canceled, then with the context current; it is recycled exactly once on every path |
| `ContextLifecycle.Context.CloseWaitLanes` | cuda/context.go:462-472 | Every lane ends closed, unbound or retired, whatever the driver answers, and the result says whether all unbinds succeeded |
| `ContextLifecycle.Context.CloseCopyExecutor` | cuda/context.go:474-483 | The copy thread, if there is one, ends closed, unbound or retired |
| `ContextLifecycle.Context.CloseExecutor` | cuda/context.go:485-493 | A thread is retired exactly when it could not be unbound |
| `ContextLifecycle.Context.RecoverCommandExecutor` | cuda/context.go:495-511 | A quarantined context gets a live bound command thread exactly when the bind succeeds, and stays quarantined otherwise |
| `ContextLifecycle.Context.ReleaseOrRestore` | cuda/context.go:536-559 | Closed exactly when the release succeeds; quarantined exactly when it fails and the rebind fails too; the thread is retired exactly when it could not be unbound, or rebound |
| `ContextLifecycle.Context.Close` | cuda/context.go:518-560 | One attempt from any state, for every driver: what is open afterwards, which threads are retired, how many calls are made, and success exactly when every driver call it makes succeeds |
| `ContextLifecycle.Context.Drive` | cuda/context.go:53-560 | After any operations and Close retries: retains minus releases is one until closed and zero after, no thread handed back to Go has the context current, and a closed context has closed all its threads |
| `ArgPack.NarrowingIsExact` | internal/argpack/argpack.go:34-38 | The stored size and offset are faithful exactly below 64 KiB and 2 GiB; the offsets beyond turn negative |
| `ArgPack.Builder.Add` | internal/argpack/argpack.go:55-110 | For any argument: the recorded place is right exactly when it goes inline or its size is below 64 KiB and its offset below 2 GiB; then, unless it is an empty argument in the arena, the packed arguments become the old ones and the new one, also when the arena grows; an argument of 64 KiB or more never reads back, and an empty one in the arena is placed behind its last byte |
| `ArgPack.Builder.ArenaAlloc` | internal/argpack/argpack.go:92-110 | The next 8-aligned offset; the arena is replaced exactly when it is too small, by one at least twice as large that starts as a copy |
| `ArgPack.Builder.Set` | internal/argpack/argpack.go:127-140 | Exactly the errors for index and type; on success argument i is replaced and no other argument and no pointer changes |
| `ArgPack.Builder.SetBytes` | internal/argpack/argpack.go:142-154 | Exactly the errors for index and size; on success argument i has the new bytes and its old type, all else stays |
| `ArgPack.Builder.Params` | internal/argpack/argpack.go:166-188 | The returned pointers are where the arguments live now, from the slots, the cache or a rebuild: none is stale |
| `ArgPack.Builder.PointersAreLive` | internal/argpack/argpack.go:40-57 | Every current pointer refers to the bytes last written to its argument, in its own slot or 8-aligned and not empty inside the arena in use, and arena arguments do not overlap |
| `ArgPack.Builder.SpillsAreBounded` | internal/argpack/argpack.go:195-197 | Each spilled argument uses arena bytes, so an arena within the cap holds at most 1024 of them and the overflow metadata at most 1024 entries |
| `ArgPack.Builder.Reset` | internal/argpack/argpack.go:195-211 | No arguments; an arena of at most 8192 bytes is kept and a larger one dropped, and neither retained slice was ever longer than 1024 and 1040 entries |
| `ArgPack.SpillAdded` | internal/argpack/argpack.go:84-90 | Appending behind the aligned arena keeps the whole representation and adds exactly one argument |
| `ArgPack.Written` | internal/argpack/argpack.go:156-164 | Overwriting one argument's storage changes that argument alone |
| `VirtualMemory.RoundUpIsLeast` | cuda/vmm.go:68-80 | The result is the least multiple not below the size, and rounding fails exactly when that multiple exceeds 64 bits |
| `VirtualMemory.AcquireVirtual` | cuda/vmm.go:82-112 | A range of the size, mapped to a new handle of the size and open to reads and writes, and no call failed; or the error names every failed call in order, and the device is as before exactly when no rollback call is among them; a mapped range is never freed, and no call is made twice |
| `VirtualMemory.AllocVirtual` | cuda/vmm.go:114-161 | Each error exactly in its case; otherwise a usable buffer that holds all three resources, its size the bytes rounded up; a failed check leaves the device alone |
| `VirtualMemory.VirtualBuffer.Close` | cuda/vmm.go:230-259 | Frees only what is live, reports every failed call, is closed exactly when none failed, and leaves what others hold |
| `VirtualMemory.VirtualBuffer.TryUnmap` | cuda/vmm.go:54-66 | One teardown step: no call when the resource is gone, and the flag clears exactly when the call succeeds |
| `VirtualMemory.RetryingGivesBackOnce` | cuda/vmm.go:230-259 | Over any number of Close attempts the successful calls are as many as the resources given back, and k unfinished attempts contain at least k failed calls |
| `VirtualMemory.StaysGivenBack` | cuda/vmm.go:57-66 | What one attempt gave back no later attempt holds again |
| `VirtualMemory.RecoveredDriverFinishes` | cuda/vmm.go:230-232 | Once the driver stops failing, the next attempt frees exactly what is left |
| `PitchedCopy.CopyMovesContents` | cuda/pitched.go:189-218 | A 2D copy delivers the logical contents unchanged between any two pitches |
| `PitchedCopy.CopyKeepsTheRest` | cuda/pitched.go:121-122 | A 2D copy writes the rows of its target and no other byte, so padding is untouched |
| `PitchedCopy.PackedAt` | cuda/pitched.go:14-17 | Byte x of row y, at base + y * pitch + x in memory, is byte y * width + x of the packed contents |
| `PitchedCopy.RoundTrip` | cuda/pitched.go:121-187 | CopyTo after CopyFrom returns the packed data, for all shapes and pitches |
| `PitchedCopy.VolumeCopyIsFlat` | cuda/volume.go:127-142 | With the slice heights hostDesc supplies on both sides, a volume's 3D copy is the 2D copy of height times depth rows |
| `PitchedBuffers.Elements2DExact` | cuda/pitched.go:98-103 | The count is the product when that fits an int and an error otherwise |
| `PitchedBuffers.Elements3DExact` | cuda/volume.go:116-125 | The count is the product of the three sides when that fits an int and an error otherwise |
| `PitchedBuffers.VolumeGuardExact` | cuda/volume.go:38-52 | The 64-bit guards accept exactly positive sides with a count that fits an int and a packed size that fits 64 bits, without wrapping or dividing by zero, and the count of an accepted volume is defined |
| `PitchedBuffers.PitchedGuardIsTooWeak` | cuda/pitched.go:28-41 | Sides that AllocPitched accepts whose count fits an int and whose byte size exceeds 64 bits, against its comment; and sides whose element count is an error |
| `PitchedBuffers.PitchedGuardExact` | cuda/pitched.go:28-41 | The guard and height <= MaxUint64 / row bytes hold together exactly for positive sides without byte-size overflow: one check is missing |
| `PitchedBuffers.PitchedHostCopyExact` | cuda/pitched.go:98-103 | A slice whose count and bytes exist can fill an accepted buffer exactly when both missing checks hold, which are AllocVolume's for depth one |
| `PitchedBuffers.AllocPitched` | cuda/pitched.go:28-62 | Refused as invalid exactly for non-positive sides or an overflowing row, otherwise refused by the context, failed by the driver or allocated, each exactly in its case; a buffer lies behind all earlier memory, which stays as it was |
| `PitchedBuffers.PitchedBuffer.CopyFrom` | cuda/pitched.go:121-153 | Each error exactly in its case, and a driver call only past the checks and when the context accepts the job; on success the contents are the source, and nothing outside the rows changed |
| `PitchedBuffers.PitchedBuffer.CopyTo` | cuda/pitched.go:155-187 | Each error exactly in its case; on success the host slice is the contents |
| `PitchedBuffers.PitchedBuffer.CopyToDevice` | cuda/pitched.go:189-218 | Each error exactly in its case; on success the target has this buffer's contents, which this buffer keeps, also when both are the same |
| `PitchedBuffers.AllocVolume` | cuda/volume.go:30-72 | Refused as invalid exactly when the volume does not fit, otherwise refused by the context, failed by the driver or allocated, each exactly in its case; a volume lies behind all earlier memory |
| `PitchedBuffers.Volume.CopyFrom` | cuda/volume.go:144-166 | Never refused for its size; on success the contents are the source, and nothing outside the rows changed |
| `PitchedBuffers.Volume.CopyTo` | cuda/volume.go:168-190 | Never refused for its size; on success the host slice is the contents |
| `LockOrder.LockPair` | cuda/event.go:215-228 | Both locks, the lower address first, and a single lock exactly for an identical pair |
| `LockOrder.PlanMeans` | cuda/buffer.go:175-206 | The handles an operation uses are locked for reading, and the one it closes or frees for writing |
| `LockOrder.TakenAwayAlone` | cuda/event.go:197-213 | In every run an operation that closes or frees a handle is never inside together with another one on that handle, nor anything together with Context.Close |
| `LockOrder.WriterIsAlone` | cuda/event.go:197-213 | In every run a thread that has a lock for writing shares it with no reader and no other writer |
| `LockOrder.AlwaysProgress` | cuda/event.go:172-213 | Any number of threads that take read and write locks in ascending order, on writer-preferring locks: while one is unfinished, some thread can step |
| `LockOrder.OneContextProgress` | cuda/buffer.go:175-206 | Elapsed, pitched copies, Record, WaitEvent, Synchronize, Close of handles, FreeAsync and Context.Close, in any number on one context, never deadlock on the locks of handles and context |
| `LockOrder.RunsEnd` | cuda/event.go:172-213 | Every run is bounded by the locks still to be taken and given back |
| `LockOrder.StuckMeansFinished` | cuda/event.go:230-237 | A run that cannot continue has finished every thread, and nothing is locked |
| `LockOrder.OppositeOrdersDeadlock` | cuda/event.go:220-224 | Two readers that lock a pair in opposite orders can deadlock with two writers |
| `LockOrder.SecondReadLockDeadlocks` | cuda/pitched.go:105-119 | A thread that read-locks the same lock twice can deadlock with one writer |
| `LockOrder.ContextFirstDeadlocks` | cuda/event.go:201-209 | A Close that took the lock of the context before that of its handle could deadlock with a Synchronize and a Context.Close |
| `LaunchLocks.FirstErrorExact` | cuda/launch.go:143-226 | The arguments are refused exactly when one is nil, a closed resource or one of another context, or raw bytes that are nil or not 1 to 4096 long, with the error of the first such argument |
| `LaunchLocks.ParamsInOrder` | cuda/launch.go:143-226 | Parameter k is the handle of the k-th argument, or its value |
| `LaunchLocks.LaunchErrorExact` | cuda/launch.go:257-286 | A launch is refused exactly when a side is zero, the module is missing, closed or not of the stream's context, or an argument cannot be passed, in this order |
| `LaunchLocks.FirstUsesAreDistinct` | cuda/launch.go:107-122 | The locks a launch holds are those of its resource arguments, each once |
| `LaunchLocks.KernelArgBuilder.HoldsLock` | cuda/launch.go:107-122 | The two loops find a lock exactly if it is held, inline or in the overflow list |
| `LaunchLocks.KernelArgBuilder.AddLock` | cuda/launch.go:97-105 | The lock becomes the last one held, on either side of the sixteen inline slots |
| `LaunchLocks.KernelArgBuilder.Release` | cuda/launch.go:124-132 | Gives back every lock the builder took, last one first, and no other |
| `LaunchLocks.KernelArgBuilder.AppendResource` | cuda/launch.go:143-173 | Accepted exactly when the resource is open and of the builder's context; the lock is taken only if not already held, and kept only if the argument is accepted and the builder is no snapshot |
| `LaunchLocks.KernelArgBuilder.AppendAll` | cuda/launch.go:279-286 | Stops at the first failing argument; otherwise all parameters are packed and each distinct lock is held once, in the order of first use |
| `LaunchLocks.Launch` | cuda/launch.go:257-291 | The driver is called exactly when everything a launch needs is there and the context accepts the job, and then sees the kernel, stream, shape and parameters with the module's and each distinct resource's lock held once; on return exactly the caller's locks are held, whatever failed |
| `LaunchLocks.LaunchOn` | cuda/launch.go:242-255 | The same on a stream that is there and open, whose lock is held first while the driver is called |
| `LaunchLocks.Pack` | cuda/launch.go:300-319 | The same errors without a context check, and no lock is held on return |
| `LaunchLocks.Config1DCoversExactly` | cuda/launch.go:21-40 | The one-dimensional shape has just enough blocks for n elements, and is refused exactly when an input is out of range or no 32-bit grid is large enough |
| `HostCallbacks.Registry.Register` | internal/hostcb/hostcb.go:34-47 | The 32 shards act as one map: the next key is drawn, then its callback is stored |
| `HostCallbacks.Registry.Unregister` | internal/hostcb/hostcb.go:49-55 | The shards act as the map without the key |
| `HostCallbacks.Registry.Invoke` | internal/hostcb/hostcb.go:57-78 | Runs and removes the callback of a pending key, and does nothing for any other |
| `HostCallbacks.Registry.Pending` | internal/hostcb/hostcb.go:96-103 | True exactly for a key in the map |
| `HostCallbacks.KeysAreFresh` | internal/hostcb/hostcb.go:37-38 | Registrations draw distinct keys, under any interleaving |
| `HostCallbacks.PendingUntilEnded` | internal/hostcb/hostcb.go:34-55 | A stored key is pending exactly until it is first invoked or unregistered, with its own callback |
| `HostCallbacks.RunsAtMostOnce` | internal/hostcb/hostcb.go:57-78 | No callback runs twice |
| `HostCallbacks.RunsIfInvokedFirst` | internal/hostcb/hostcb.go:49-78 | A stored callback runs exactly when the first operation that ends its key is an invocation |
| `HostCallbacks.OwnCallback` | internal/hostcb/hostcb.go:34-78 | In every run the callback kept under a key, and the one run for it, is the one that was registered |
| `Views.CheckRangeExact` | cuda/view.go:35-40 | The range test in Go's int never wraps and is exact for every offset and count, each refusal in its own case |
| `Views.Buffer.OffsetIsExact` | cuda/buffer_offset.go:17-20 | Neither the product nor the sum of an address in the buffer wraps, and the range stays inside |
| `Views.Buffer.ViewMeans` | cuda/view.go:23-44 | A view is refused for a closed buffer, an empty or negative range, or one that does not fit, in this order, and is otherwise the window asked for |
| `Views.View.SubViewMeans` | cuda/view.go:46-63 | The same for a view of a view, within its window, which lies at the summed offset of the same buffer |
| `Views.ChainIsOneView` | cuda/view.go:23-63 | A chain of views succeeds exactly when every window lies in the one it is cut from, and is the one view at the summed offset, inside the buffer; otherwise it is refused for the first window that does not |
| `Views.View.CopyFrom` | cuda/view.go:91-101 | Needs exactly the view's length, and writes the source at the view's device pointer and nothing else |
| `Views.View.CopyTo` | cuda/view.go:103-113 | Needs exactly the view's length, and reads at the view's device pointer |
| `Views.Buffer.CopyFromAt` | cuda/buffer_offset.go:22-49 | Each error exactly in its case, before any driver call; on success the range is the source and no other byte changed |
| `Views.Buffer.CopyToAt` | cuda/buffer_offset.go:51-75 | Each error exactly in its case, before any driver call; on success the host slice is the range |
| `Views.Buffer.CopyToDeviceAt` | cuda/buffer_offset.go:77-112 | Each error exactly in its case, before any driver call; on success no byte outside the target range changed, and the target range is the source range unless the two overlap |
| `Views.WindowBecomesSource` | cuda/buffer_offset.go:43-46 | The elements of the window become the source's, in order |
| `Views.OtherElementsStay` | cuda/buffer_offset.go:43-46 | No element outside the window changes |

## Left out

- ArgPack.Builder.Add: promises nothing about later operations once an argument went in whose size or offset its fields cannot hold, or an empty one that did not go inline; the callers keep arguments at 1 to 4096 bytes.
- ArgPack.Builder.Reset: the peaks are lengths; Go's append may round a slice's capacity up beyond its longest length.
- Executor and ContextWaits: modelled as step relations on values, not as classes, because their claims are about every interleaving; update in place is modelled for completions (`ExecutorHandshake`) and lanes (`WaitLanes`).
- Panics in jobs and in host callbacks, which the program turns into an error or a message.
- Spin windows, yielding and GOMAXPROCS tuning; memory ordering below atomics, channels and locks.
- Wrap-around of the callback key counter, and the trampoline itself.
- Deadlock freedom of `Buffer.CopyToDevice`, of launches with several buffers, and of peer access between two contexts (cuda/peer.go:42-71), which take their read locks in argument order rather than in a global order: `LockOrder.OppositeOrdersDeadlock` is a run of two such calls with two closers that ends in a deadlock.
- Copies of a virtual buffer, asynchronous offset copies and `Close` of pitched buffers and volumes, which would add only easy members; stream and event `Close` stand for the wrappers that lock, check, call and mark closed.
- Views.Buffer.CopyToDeviceAt: says nothing about the contents of the target range when the ranges overlap, which the driver leaves undefined.
- Modules, graphs, links, managed memory, memory pools, textures, surfaces, arrays, device queries, symbol loading and result codes, which are not part of this model.
- What the GPU does: stream ordering on the device, kernel execution and timing.
