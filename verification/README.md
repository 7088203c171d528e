# FlowEdge: verified models of its runtime core

FlowEdge is a robotics inference runtime. This project models seven of its components in Dafny and proves what
they are relied on for. The source is C++; each model follows its branches, constants and error order.

| component | files | main results |
|---|---|---|
| Work-sharing pool | `Bits`, `ThreadPool`, `PoolInvariant`, `PoolWakeup`, `PoolTheorems`, `PoolCapacity`, `PoolProgress`, `PoolSleep`, `ParallelFor`, `ParallelProgress` | exactly-once delivery, a push succeeds exactly when there is room, no lost wakeup, `parallel_for` covers its range once and can always return, all over every interleaving |
| Convolution kernels | `Sums`, `ConvSpec`, `Gemm`, `Conv1D`, `ConvTranspose1D`, `PooledConv`, `ConvAdjoint` | every path computes one sum; slices on the pool give what one call gives; the transposed kernel is the adjoint |
| Action delivery gate | `ActionGate`, `GateRuns`, `GateOverlap`, `GateOutcomes`, `DeliveryGate` | limits, rate, drift, order and the blend of every overlapped step over every run; which chunks are taken and when a step is published, exactly |
| Resumable jobs | `ByteCodec`, `Snapshot`, `StateCapsule`, `JobMachine`, `MambaStream`, `Migration`, `StateCodec`, `StreamAdapter`, `CooperativeJob` | byte formats are bijections, written out byte by byte; migration between adapters of any size does not change the answer |
| Deployment profile | `Text`, `Brackets`, `JsonField`, `Profile`, `ProfileLayout`, `ProfileText`, `ProfileCodec` | printing and parsing is the identity, with any white space between the tokens, for a parser that searches substrings; the bracket scan is exact |
| Checkpoint loader | `Arena`, `Loader` | the sizing pass and the load pass agree; blocks are aligned, disjoint and hold the file's bytes; scopes that reset to a mark leave no trace |
| Plan selector | `DeadlineFlow` | selection is sound, complete and optimal; the estimator is pinned by its bounds and settles |

How the models are built:

- The pool is a state machine of atomic steps, one program counter per thread, under sequentially consistent
  interleaving. Scheduling, spurious compare-and-swap failures and spurious wakeups are inputs of a step.
- Components that update fields or buffers in place are classes and loops. Each is proved against a function of
  its old state, and the laws over whole runs are lemmas about those functions.
- Floating-point values are reals. A value that may be an infinity or a NaN is `Float`. Bit patterns that are only
  stored and moved stay 32-bit numbers.
- The content fingerprint, the engine's step and the text form of a float are parameters. What is assumed of each
  is written at its declaration: a 16-byte result, preserved sizes, and a text that reads back (`Faithful`).
- Machine integers that can overflow are `U64` and `U32`; the checks that guard them are part of the model.

Some properties hold only under a condition, which is stated as an equivalence:

- The ring's size check admits one slot. With one slot the stamps "published" and "free for the next lap" coincide and
  accepted tasks are lost. `VisibleIffTwoSlots` proves that tasks stay visible in every run if and only if there are at
  least two slots; `CapacityOneLosesTasks` is the failing run.
- When a chunk is replaced, an overlapped step is blended with the step the old chunk had due at that instant exactly
  when the replacement starts no earlier than the next unpublished step (`OverlapAligned`, `OverlapPublishedDue`).
  Otherwise a later step is blended in (`OverlapValueShifted`); `MisalignedRun` is such a run.
- A job hops to another host exactly when its capsule has a size in 64 bits and the other adapter holds its tokens
  (`HopIs`). Otherwise both hosts stay as they were.
- The bracket scan of the profile parser knows one escape only: a quote behind a backslash. It finds the matching
  bracket exactly of the bodies described by `WellNested` (`ClosesExactly`); a string that ends in an escaped backslash
  is not one of them (`BackslashHidesQuote`).

## Model

| member | source | states |
|---|---|---|
| ThreadPool.SlotOf | src/core/arena/spmc_ring.h:36-40 | masking a position with the capacity less one is the remainder, in range |
| PoolInvariant.StampMeaning | src/core/arena/spmc_ring.h:35-55 | what each end of the ring learns from a stamp: free exactly when released a lap ago, visible only when pushed |
| PoolInvariant.HeldTask | src/core/arena/spmc_ring.h:57-60 | from the claim of a position until its release stamp, before and after the copy, the slot holds what was pushed there |
| PoolInvariant.WorkerKeepsRing | src/core/arena/spmc_ring.h:46-64 | every worker step keeps the meaning of every stamp and slot |
| PoolInvariant.ProducerKeepsRing | src/core/arena/spmc_ring.h:30-44 | every producer step keeps the meaning of every stamp and slot |
| PoolInvariant.WorkerKeepsCount | src/core/arena/thread_pool.cc:88-92 | every worker step keeps the accounting of claimed, run and finished positions |
| PoolInvariant.ProducerKeepsCount | src/core/arena/thread_pool.cc:63-73 | every producer step keeps the accounting, including a failed attempt |
| PoolWakeup.WorkerKeepsCovered | src/core/arena/thread_pool.cc:94-114 | outstanding work stays covered by a worker that will look again, whatever another worker does |
| PoolWakeup.ProducerKeepsCovered | src/core/arena/thread_pool.cc:63-73 | publishing, bumping the epoch and waking one worker keeps outstanding work covered |
| PoolTheorems.ExecInv | src/core/arena/thread_pool.cc:63-116 | the invariant holds after every run of any threads |
| PoolTheorems.ExactlyOnce | src/core/arena/spmc_ring.h:30-64 | after every run each pushed task is claimed at most once and read as pushed, and from claim to release its slot holds it and is not the one the producer fills |
| PoolTheorems.ClaimsInPushOrder | src/core/arena/spmc_ring.h:51-62 | a step claims nothing or exactly the oldest unclaimed position; a compare-and-swap that fails spuriously claims nothing |
| PoolTheorems.PendingMeaning | src/core/arena/thread_pool.cc:63-92 | the pending counter is accepted minus finished plus the attempt in flight |
| PoolTheorems.WaitReturnsAfterAll | src/core/arena/thread_pool.cc:75-79 | when wait sees zero, every accepted task has run, once each |
| PoolTheorems.NoLostWakeup | src/core/arena/thread_pool.cc:63-116 | in every reachable state with unclaimed work, no stop and the producer outside enqueue, some worker is awake and will look |
| PoolTheorems.FreshWorkerClaims | src/core/arena/thread_pool.cc:86-113 | such a worker, scheduled alone, claims the oldest task within nine steps |
| PoolTheorems.JoinNeverSleeps | src/core/arena/thread_pool.cc:53-61 | once the destructor joins, no worker sleeps or can fall asleep |
| PoolProgress.EnqueueOutcome | src/core/arena/spmc_ring.h:30-44 | one complete enqueue, interleaved with any worker steps, is accepted and pushes its task if fewer tasks than slots were ever pushed or the position a lap before is released when the slot is checked, and otherwise is refused and pushes nothing |
| PoolProgress.EnqueueWithRoom | src/core/arena/thread_pool.cc:63-73 | an enqueue that starts with room is accepted, whatever the workers do meanwhile |
| PoolProgress.EnqueueEnds | src/core/arena/thread_pool.cc:63-73 | an enqueue is over after eight steps of the producer, however the workers run |
| PoolProgress.Drains | src/core/arena/thread_pool.cc:81-116 | while the producer is idle or waits, some run of workers alone runs every accepted task |
| PoolProgress.WaitReturnsExactly | src/core/arena/thread_pool.cc:75-79 | a step of a waiting producer returns from wait exactly when every accepted task has run |
| PoolProgress.WaitCanReturn | src/core/arena/thread_pool.cc:75-79 | every reachable waiting state has a run in which wait returns |
| PoolProgress.JoinCanEnd | src/core/arena/thread_pool.cc:53-61 | every reachable joining state has a run after which every worker has left its loop |
| PoolSleep.IdleWorkerSleeps | src/core/arena/thread_pool.cc:81-114 | in every reachable state without unclaimed work, a worker that begins to look and runs alone sleeps after its 4097 looks and the last one behind the epoch, and not before, and changes nothing else |
| PoolSleep.BeginsAnew | src/core/arena/thread_pool.cc:88-92 | a worker that has run a task, or was woken by a new epoch, begins to look as one that has not spun |
| PoolSleep.EpochCounts | src/core/arena/thread_pool.cc:53-73 | in every run the epoch is the number of tasks pushed, and one more once the pool is stopped |
| PoolCapacity.CapacityOneLosesTasks | src/core/arena/spmc_ring.h:19-44 | with one slot two enqueues are accepted and both tasks are invisible |
| PoolCapacity.VisibleIffTwoSlots | src/core/arena/spmc_ring.h:19-26 | accepted tasks stay visible in every run if and only if there are two slots or more |
| ParallelFor.SlicesPartition | src/core/arena/thread_pool.h:77-80 | every index lies in exactly one slice |
| ParallelFor.ReturnsWhenCovered | src/core/arena/thread_pool.h:69-86 | when parallel_for returns, the finished slice calls cover each index exactly once, for every total, task count, pool and interleaving |
| ParallelProgress.ParallelForReturns | src/core/arena/thread_pool.h:69-86 | on any reachable pool of two or more slots, for every total and task count, there is a run that hands out the least of threads, tasks and total many slices, returns, and covers each index once |
| Gemm.Matmul | src/core/kernels/cpu/kernels_scalar.cc:89-109 | out[r,o] is the sum over i of in[r,i] * w[o,i] |
| Conv1D.RangeExact | src/core/kernels/diffusion_ops.cc:31-39 | the computed range holds exactly the outputs whose tap lies inside the input |
| Conv1D.RangedRow | src/core/kernels/diffusion_ops.cc:24-46 | the fixed-kernel loops compute the convolution of a channel and touch nothing else |
| Conv1D.GenericRow | src/core/kernels/diffusion_ops.cc:136-154 | the bounds-checked loop computes the same sum |
| Conv1D.PackedDot | src/core/kernels/diffusion_ops.cc:100-115 | a row of the packed product is the sum over channels and in-bounds taps |
| Conv1D.Im2col | src/core/kernels/diffusion_ops.cc:97-123 | the packed matrix product computes the convolution of every channel |
| Conv1D.RunSlices | src/core/kernels/diffusion_ops.cc:157-162 | slice calls in any order that cover every channel equal one call on the whole range |
| Conv1D.Convolve | src/core/kernels/diffusion_ops.cc:82-163 | with six positive counts and buffers long enough, all paths leave bias plus the sum over channels and in-bounds taps in every cell and nothing else changes; any other argument changes nothing |
| ConvTranspose1D.Scatter | src/core/kernels/diffusion_ops.cc:50-78 | scattering input samples computes the transposed convolution of the slice |
| ConvTranspose1D.TransposeWeights | src/core/kernels/diffusion_ops.cc:202-215 | the tiled transpose gives the tap's weights in kernel-major order |
| ConvTranspose1D.TapByTap | src/core/kernels/diffusion_ops.cc:197-229 | summing tap by tap gives the transposed convolution |
| ConvTranspose1D.PerTap | src/core/kernels/diffusion_ops.cc:177-231 | the per-tap products compute it for native and kernel-major weights |
| ConvTranspose1D.RunSlicesT | src/core/kernels/diffusion_ops.cc:262-267 | covering slice calls equal one call on the whole range |
| ConvTranspose1D.ConvolveTranspose | src/core/kernels/diffusion_ops.cc:165-268 | with six positive counts and buffers long enough for the weight layout, all paths leave the transposed convolution in every cell; any other argument changes nothing |
| PooledConv.ConvolveBothWays | src/core/kernels/diffusion_ops.cc:157-162 | the finished slice calls of any returned parallel_for, on any pool and in any interleaving, leave the same output as one call |
| PooledConv.TransposeBothWays | src/core/kernels/diffusion_ops.cc:262-267 | the same for the transposed convolution |
| ConvAdjoint.Adjoint | src/core/kernels/diffusion_ops.cc:136-154 | with no bias and one weight array, the pairing of conv(x) with g equals that of x with the transposed conv of g |
| GateRuns.SafeIsSafe | src/relay/client/action_delivery.cc:263-291 | the published component respects limits and rate |
| GateRuns.SafeNearest | src/relay/client/action_delivery.cc:279-286 | no value that respects limits and rate is nearer to what was asked for than the published one |
| GateRuns.LastClampIdle | src/relay/client/action_delivery.cc:279-285 | the final absolute clamp changes nothing |
| GateRuns.DueStepExists | src/relay/client/action_delivery.cc:235-247 | before the chunk ends the due step exists, so the second expiry check never fires |
| GateRuns.ApplyOk | src/relay/client/action_delivery.cc:136-325 | accept, next and reset keep the invariant of the whole run |
| GateRuns.RunOk | src/relay/client/action_delivery.cc:136-325 | the invariant holds after every sequence of calls on a new gate |
| GateRuns.PublishedWithinLimits | src/relay/client/action_delivery.cc:263-294 | every component ever published lies in its limits, under both policies |
| GateRuns.PublishedRate | src/relay/client/action_delivery.cc:258-285 | consecutive outputs differ by at most the allowed change when less than two periods lie between them, and otherwise by the allowed change times the whole periods between them |
| GateRuns.PeriodsAreChanges | src/relay/client/action_delivery.cc:258-261 | the elapsed periods the gate multiplies with are those of the rate law |
| GateRuns.PublishedNearest | src/relay/client/action_delivery.cc:258-291 | in every run, what next publishes is no farther from the value asked for than any value within the limits and within the rate of the output before |
| GateRuns.PublishedDrift | src/relay/client/action_delivery.cc:258-299 | the k-th later output is within k plus the whole periods elapsed allowed changes of the first |
| GateRuns.PublishedInOrder | src/relay/client/action_delivery.cc:197-210 | published generation and step pairs increase strictly between resets |
| GateRuns.PublishedOnSchedule | src/relay/client/action_delivery.cc:228-250 | a published step is the one its clock says, of its chunk, before the chunk ends |
| GateRuns.StepsAccounted | src/relay/client/action_delivery.cc:250-304 | published plus skipped steps never exceed accepted chunks times steps per chunk |
| GateRuns.CapturedCell | src/relay/client/action_delivery.cc:113-127 | every captured cell is read inside the replaced chunk, from the old step on |
| GateOverlap.OverlapAligned | src/relay/client/action_delivery.cc:113-117 | the captured step is the one due then if and only if the replacement starts at or after the next unpublished step |
| GateOverlap.OverlapValueDue | src/relay/client/action_delivery.cc:106-128 | in that case the value asked for at an overlapped step blends the new value with the one the old chunk had due at its start |
| GateOverlap.OverlapValueShifted | src/relay/client/action_delivery.cc:115-115 | otherwise it blends in a later old step, and gives the aligned blend exactly where the two old values are equal |
| GateOverlap.ChunkKept | src/relay/client/action_delivery.cc:221-312 | ticks and refused chunks leave the active values and the captured tail alone |
| GateOverlap.DueFrom | src/relay/client/action_delivery.cc:241-242 | a step is due exactly from its start to the start of the next one |
| GateOverlap.BlendHasChunks | src/relay/client/action_delivery.cc:106-128 | every blended step published in a run mixes two chunks taken in that run |
| GateOverlap.OverlapPublished | src/relay/client/action_delivery.cc:252-295 | in every run, what next publishes after a replacement is the safe form of the new value, blended over the overlap with the old step captured for it |
| GateOverlap.BlendAlignedIff | src/relay/client/action_delivery.cc:263-267 | the blend asked for is the aligned one if and only if the old value captured equals the one due |
| GateOverlap.OverlapPublishedDue | src/relay/client/action_delivery.cc:106-295 | in every run with an aligned replacement, that is the blend with the old step due at the start of the new one |
| GateOverlap.MisalignedRun | src/relay/client/action_delivery.cc:115-115 | a run of a new gate whose published blend is not the one with the old step due then |
| GateRuns.CandidateWithin | src/relay/client/action_delivery.cc:188-192 | under the reject policy every blended value already lies in the limits |
| GateRuns.RejectsOnlyForRate | src/relay/client/action_delivery.cc:269-277 | under the reject policy next refuses a step only for its rate of change, in every run |
| GateRuns.PublishesNewest | src/relay/client/action_delivery.cc:203-210 | a published step belongs to the newest chunk taken since the last reset |
| GateRuns.TakesOnlyNewer | src/relay/client/action_delivery.cc:193-201 | a chunk is taken only if newer in generation and sequence and of the same session |
| GateOutcomes.BlendShares | src/relay/client/action_delivery.cc:263-267 | of n overlapped steps, step s mixes the captured old value and the new one in the shares n - s and s + 1 |
| GateOutcomes.VerdictIs | src/relay/client/action_delivery.cc:140-201 | the verdict on every chunk, with the header, finiteness, deadline, age, limit, session and order conditions written out in terms of the chunk and the clock |
| GateOutcomes.TakesExactly | src/relay/client/action_delivery.cc:136-219 | a chunk is taken if and only if those conditions hold |
| GateOutcomes.StepsExactly | src/relay/client/action_delivery.cc:221-304 | next publishes if and only if the clock allows a step and, under the reject policy, every component respects limits and rate |
| GateOutcomes.NoStepIs | src/relay/client/action_delivery.cc:224-250 | the error when the clock allows no step, condition by condition |
| GateOutcomes.PlaysThrough | src/relay/client/action_delivery.cc:136-312 | a chunk that is taken, is not stopped by its age and meets no rate refusal plays all its steps in order, one per period, and then ends |
| DeliveryGate.ActionDeliveryGate.Create | src/relay/client/action_delivery.cc:42-70 | a gate exists exactly for acceptable arguments, each condition written out, starts fresh, and otherwise the first failing check is named |
| DeliveryGate.ActionDeliveryGate.WithinLimits | src/relay/client/action_delivery.cc:77-85 | true exactly when every value lies in the limits of its component |
| DeliveryGate.ActionDeliveryGate.HeaderFits | src/relay/client/action_delivery.cc:140-165 | the header checks, with the end of the chunk computed without overflow |
| DeliveryGate.ActionDeliveryGate.Judge | src/relay/client/action_delivery.cc:140-201 | the verdict on a chunk, in the order of the checks |
| DeliveryGate.ActionDeliveryGate.CaptureOverlap | src/relay/client/action_delivery.cc:106-128 | the overlap buffer receives the tail of the active chunk and nothing else changes |
| DeliveryGate.ActionDeliveryGate.Accept | src/relay/client/action_delivery.cc:136-219 | the whole new state of the gate; a rejected chunk changes one counter only |
| DeliveryGate.ActionDeliveryGate.Components | src/relay/client/action_delivery.cc:252-291 | the component loop yields the safe row and its clamp count, or a refusal exactly when some component fails |
| DeliveryGate.ActionDeliveryGate.Next | src/relay/client/action_delivery.cc:221-312 | the whole new state and the step or error returned |
| DeliveryGate.ActionDeliveryGate.Reset | src/relay/client/action_delivery.cc:314-325 | the session is forgotten, counters and buffers stay |
| ByteCodec.WriteLe | src/core/protocol/byte_codec.h:10-17 | the field holds the little-endian bytes and no other byte changes |
| ByteCodec.ReadLe | src/core/protocol/byte_codec.h:19-28 | the value of the field's bytes, within its width |
| ByteCodec.ValueOfLe | src/core/protocol/byte_codec.h:10-28 | reading undoes writing for every number that fits, at every width |
| ByteCodec.LeOfValue | src/core/protocol/byte_codec.h:10-28 | writing undoes reading for every byte sequence |
| Snapshot.Export | src/core/protocol/snapshot.cc:32-59 | the window holds the snapshot byte by byte: magic, version, sizes, identity, at 88 the first eight bytes of the payload's fingerprint, then the payload; a buffer that is too small is left alone |
| Snapshot.AcceptsExactly | src/core/protocol/snapshot.cc:61-105 | import's checks hold exactly of the bytes export writes for that model and that state |
| Snapshot.AcceptsLayout | src/core/protocol/snapshot.cc:61-105 | import's checks hold exactly of the layout written out byte by byte, with bytes 88 to 96 the front of the fingerprint of the rest |
| Snapshot.SwappedPayloadRefused | src/core/protocol/snapshot.cc:99-102 | under an exported header, another payload whose fingerprint differs in the first eight bytes is refused |
| Snapshot.RoundTrip | src/core/protocol/snapshot.cc:32-105 | an exported state is accepted exactly by identities that agree on every stored field |
| Snapshot.Import | src/core/protocol/snapshot.cc:61-105 | success exactly for bytes of that layout, whose state is returned; otherwise the first failing check is named and the destination is untouched |
| StateCapsule.Write | src/relay/jobs/state_capsule.cc:37-75 | the buffer holds the capsule byte by byte, or the first failing check is named and nothing changes |
| StateCapsule.Read | src/relay/jobs/state_capsule.cc:77-130 | the capsule of exactly the byte sequences the writer can produce; otherwise the first failing check is named |
| StateCapsule.DecodedExactly | src/relay/jobs/state_capsule.cc:37-130 | reading gives a capsule exactly when the bytes are the writer's bytes for it |
| StateCapsule.EncodedLayout | src/relay/jobs/state_capsule.cc:37-75 | bytes are the writer's exactly when every header field is at its place, the reserved ones are zero, and the last 16 bytes are the fingerprint of all before |
| StateCapsule.CapsuleRoundTrip | src/relay/jobs/state_capsule.cc:37-130 | what is written is read back, up to the two descriptor fields a capsule does not store |
| JobMachine.AppliedOk | src/relay/jobs/cooperative_job.cc:49-169 | every operation keeps the job valid, never loses progress, and leaves terminal states alone |
| JobMachine.CancelsExactly | src/relay/jobs/cooperative_job.cc:112-119 | a job that is not complete, cancelled or failed is cancelled exactly by a later generation; nothing else of it changes |
| JobMachine.AdvanceOutcome | src/relay/jobs/cooperative_job.cc:63-110 | what advance makes of every job: only an honest answer to a running job makes progress, and any other answer fails it with its reason |
| JobMachine.RunSafe | src/relay/jobs/cooperative_job.cc:35-119 | in every run with any backend, completed and remaining add up to the total and completion means none remain |
| JobMachine.BackendBudget | src/relay/jobs/cooperative_job.cc:66-82 | the backend is asked only while running, for one to remaining units, and nothing else of it matters |
| JobMachine.CompletesInTime | src/relay/jobs/cooperative_job.cc:63-110 | a backend that keeps its contract completes within remaining calls |
| StateCodec.StateWriter.Write | src/relay/jobs/state_codec.h:25-40 | appends the bytes if they fit and touches nothing outside the window |
| StateCodec.StateReader.Read | src/relay/jobs/state_codec.h:69-84 | the next value, or nothing when the source is too short |
| StateCodec.EncodeRequest | src/relay/adapters/mamba_stream_adapter.cc:45-60 | the request holds every token as a little-endian word and the bytes behind it are unchanged, or nothing is written |
| MambaStream.FeedSplit | src/relay/adapters/mamba_stream_adapter.cc:178-183 | feeding tokens in two goes is feeding them at once |
| MambaStream.WordsRoundTrip | src/relay/adapters/mamba_stream_adapter.cc:205-210 | words are read back as written |
| MambaStream.TokenBits | src/relay/jobs/state_codec.h:25-40 | a token is stored as its two's complement |
| MambaStream.SaveLoad | src/relay/adapters/mamba_stream_adapter.cc:196-259 | loading a saved state restores everything but unused token slots, whatever the loader held, exactly when its buffer holds the tokens; a smaller loader is unchanged |
| MambaStream.LoadSave | src/relay/adapters/mamba_stream_adapter.cc:196-259 | a loaded state saves to the bytes it came from, so only saved states load |
| StreamAdapter.MambaStreamAdapter.Prepare | src/relay/adapters/mamba_stream_adapter.cc:143-161 | the tokens of a well-formed request; another request changes nothing |
| StreamAdapter.MambaStreamAdapter.Begin | src/relay/adapters/mamba_stream_adapter.cc:163-172 | the engine and the hidden row are reset for a prepared request |
| StreamAdapter.MambaStreamAdapter.Advance | src/relay/adapters/mamba_stream_adapter.cc:174-186 | as many tokens as the budget allows are fed; a refused token fails the call where it stopped |
| StreamAdapter.MambaStreamAdapter.SaveState | src/relay/adapters/mamba_stream_adapter.cc:196-215 | the window holds the saved state if its size is exact, otherwise nothing changes |
| StreamAdapter.MambaStreamAdapter.LoadState | src/relay/adapters/mamba_stream_adapter.cc:217-259 | the saved state is taken over; a failed load leaves adapter and engine unchanged |
| CooperativeJob.StreamJob.Bind | src/relay/jobs/cooperative_job.cc:21-33 | a job exists exactly for version 1, a known kind, a schema, a positive total and a digest with a set byte, and starts ready |
| CooperativeJob.StreamJob.Start | src/relay/jobs/cooperative_job.cc:49-61 | the new state of job and adapter, and what is reported |
| CooperativeJob.StreamJob.Advance | src/relay/jobs/cooperative_job.cc:63-110 | the new state of job and adapter, and what is reported |
| CooperativeJob.StreamJob.CancelBefore | src/relay/jobs/cooperative_job.cc:112-119 | an older job that is not finished is cancelled, any other is left alone |
| CooperativeJob.StreamJob.ExportCapsule | src/relay/jobs/cooperative_job.cc:121-146 | the capsule of the job and its adapter with the bytes behind it unchanged, or the reason and an unchanged buffer |
| CooperativeJob.StreamJob.RestoreCapsule | src/relay/jobs/cooperative_job.cc:148-169 | a fresh job takes over a capsule; an error changes neither job nor adapter nor engine |
| Migration.FailedImportKeeps | src/relay/jobs/cooperative_job.cc:148-169 | a restore that reports an error leaves the host as it was |
| Migration.LaunchFollows | src/relay/adapters/mamba_stream_adapter.cc:143-172 | a prepared and started job stands at the beginning of its run |
| Migration.WorkFollows | src/relay/jobs/cooperative_job.cc:77-109 | a call with a budget does as much of the run as the budget allows |
| Migration.HopIs | src/relay/jobs/cooperative_job.cc:121-169 | restoring the capsule of any started job in a fresh one gives the same job and adapter state exactly when the other adapter, of any size, holds the tokens; otherwise an error and no change |
| Migration.HopFollows | src/relay/jobs/cooperative_job.cc:121-169 | a hop to any adapter keeps the job at its point of the run, on the new host exactly when the hop can succeed |
| Migration.TripFollows | src/relay/jobs/cooperative_job.cc:63-169 | every host of a trip over adapters of any sizes stands where an uninterrupted run would, after the work asked for |
| Migration.MigrationInvisible | src/relay/jobs/cooperative_job.cc:63-169 | for any budgets and any hops, also failed ones, progress, hidden row, decode state and result equal those of one call with the total budget |
| Migration.MigrationCompletes | src/relay/adapters/mamba_stream_adapter.cc:174-263 | enough work completes the job with the hidden row of all tokens |
| Text.TrimStrips | src/core/protocol/deployment_profile.cc:23-32 | trimming blanks, newlines, carriage returns and tabs around a text that neither starts nor ends with one gives that text |
| Text.DecimalOfNumber | src/core/protocol/deployment_profile.cc:167-174 | digits without a leading zero are the printed form of their number, so printed numbers are canonical |
| Text.FirstPiece | src/core/protocol/deployment_profile.cc:36-39 | the first occurrence of a quoted key is the first piece between quotes equal to it |
| JsonField.NumberAt | src/core/protocol/deployment_profile.cc:74-78 | a number behind its key is read as its digits, with any white space around the colon and the number |
| JsonField.StringAt | src/core/protocol/deployment_profile.cc:50-55 | a quoted value behind its key is read without its quotes, with any white space around the colon |
| Brackets.ClosesBody | src/core/protocol/deployment_profile.cc:56-73 | the scan stops at the bracket that matches the first one, past nested brackets and brackets in strings |
| Brackets.ClosesExactly | src/core/protocol/deployment_profile.cc:56-73 | it stops at a bracket exactly when the text up to there is a well-nested body in brackets |
| Brackets.BackslashHidesQuote | src/core/protocol/deployment_profile.cc:63-64 | a string that ends in an escaped backslash hides its closing quote, and no bracket is found |
| JsonField.BracketAt | src/core/protocol/deployment_profile.cc:56-73 | a bracketed value behind its key is read up to its own closing bracket, whatever is nested or quoted in it |
| JsonField.KeyAbsent | src/core/protocol/deployment_profile.cc:36-39 | a key that is no piece of the text is not found |
| Profile.Problem | src/core/protocol/deployment_profile.cc:221-261 | an error whose check fails while every check before it passes, and none exactly for a valid profile |
| Profile.Parse | src/core/protocol/deployment_profile.cc:263-352 | whatever is parsed is a valid profile |
| ProfileLayout.ItemsBack | src/core/protocol/deployment_profile.cc:110-133 | a list of numbers with any white space around them is read back |
| ProfileLayout.KeyFirst | src/core/protocol/deployment_profile.cc:271-281 | in the text of a profile, however spaced, each key is found first at its own member |
| ProfileLayout.BoundsBack | src/core/protocol/deployment_profile.cc:320-331 | the parameters object is read back as the profile's bounds |
| ProfileLayout.LayoutRoundTrip | src/core/protocol/deployment_profile.cc:263-352 | a valid profile written with any white space behind and before every token, and around the whole, parses to exactly that profile |
| ProfileText.RoundTrip | src/core/protocol/deployment_profile.cc:263-400 | the text of a valid profile, with any white space before and behind it, parses to exactly that profile |
| ProfileText.TextInjective | src/core/protocol/deployment_profile.cc:354-400 | different valid profiles have different texts |
| ProfileText.Reparse | src/core/protocol/deployment_profile.cc:263-400 | printing an accepted profile and parsing again changes nothing |
| ProfileCodec.TrimText | src/core/protocol/deployment_profile.cc:23-32 | strips blanks, newlines, carriage returns and tabs at both ends and nothing else |
| ProfileCodec.Bracketed | src/core/protocol/deployment_profile.cc:56-73 | the loop returns a place exactly when the text up to there is a well-nested body in brackets |
| ProfileCodec.FieldText | src/core/protocol/deployment_profile.cc:34-78 | the scan loops find the field the parser's specification names |
| ProfileCodec.ArrayText | src/core/protocol/deployment_profile.cc:110-133 | the numbers of a bracketed list, or nothing |
| ProfileCodec.UintText | src/core/protocol/deployment_profile.cc:80-92 | one digit or more and nothing else, with white space around, within 64 bits; otherwise nothing |
| ProfileCodec.HashText | src/core/protocol/deployment_profile.cc:135-142 | true exactly for the prefix and 64 hexadecimal digits |
| ProfileCodec.Validate | src/core/protocol/deployment_profile.cc:221-261 | the first failing check |
| ProfileCodec.TextIs | src/core/protocol/deployment_profile.cc:360-399 | the printed text, member by member with every key and name spelled out |
| ProfileCodec.ParseText | src/core/protocol/deployment_profile.cc:263-352 | the parsed profile or the error of the first failing check; what is parsed is valid, and every spaced text of a valid profile is parsed |
| ProfileCodec.Serialize | src/core/protocol/deployment_profile.cc:354-400 | prints exactly the valid profiles, each as a text that parses back to it |
| Arena.PaddingLeast | src/core/arena/arena.h:33-37 | the block is the first aligned one behind the cursor |
| Arena.Slab.Alloc | src/core/arena/arena.h:29-39 | an aligned block inside the slab and behind every earlier one, exactly when it fits |
| Arena.Slab.AllocArray | src/core/arena/arena.h:41-48 | the same for an array, refusing a size beyond 64 bits |
| Arena.Slab.Serve | src/core/arena/arena.h:29-59 | with scopes that take a mark and reset to it, a plan gets the blocks its own requests alone would get, and no scope cuts a block below its mark |
| Arena.ServedInside | src/core/arena/arena.h:29-39 | blocks served one after the other are aligned and lie between the first and the last cursor |
| Arena.ServedApart | src/core/arena/arena.h:29-39 | blocks served one after the other never overlap |
| Loader.TensorSpanTracker.Add | src/core/loader/safetensors.cc:365-383 | a span is taken exactly when it is in bounds, overlaps none before it, and the table has room |
| Loader.ValidShape | src/core/loader/safetensors.cc:385-397 | true exactly when two or four bytes for each element of the product of the dimensions make the byte length and no partial product leaves 64 bits |
| Loader.TotalBounded | src/core/loader/safetensors.cc:372-382 | accepted spans never add up to more than the data section |
| Loader.AddBytes | src/core/loader/safetensors.cc:500-506 | the running-total overflow guard never fires |
| Loader.WeightBytes | src/core/loader/safetensors.cc:484-510 | the total of the supported entries exactly when all are acceptable, otherwise zero |
| Loader.Load | src/core/loader/safetensors.cc:430-482 | with room, loading succeeds exactly for acceptable entries; every view has the entry's type, dimension count and shape, and its block is aligned, behind the one before, and holds its file bytes at the end |
| Loader.Open | src/core/loader/safetensors.cc:618-659 | a checkpoint opens exactly when its entries are acceptable, hold a byte and fit 64 bits with padding; the load pass never runs out of slab or views |
| Loader.BlocksDisjoint | src/core/loader/safetensors.cc:460-463 | blocks of different tensors share no byte |
| DeadlineFlow.Selector.Create | src/core/protocol/deadline_flow.h:53-70 | exactly the valid portfolios are accepted, each condition written out, with the calibrated latencies as estimates |
| DeadlineFlow.Selector.Select | src/core/protocol/deadline_flow.h:72-107 | a plan exactly when one fits; the best quality, then the least cost, then the lowest index; no sum leaves 64 bits |
| DeadlineFlow.Selector.Observe | src/core/protocol/deadline_flow.h:110-123 | the estimate of the observed plan is updated, others are not |
| DeadlineFlow.AnswerUnique | src/core/protocol/deadline_flow.h:89-106 | such an answer exists for every portfolio and context, and there is only one |
| DeadlineFlow.AnswerMeans | src/core/protocol/deadline_flow.h:72-107 | no answer means no plan may run by the context's needs and slack; an answer is the best of those that may |
| DeadlineFlow.MoreSlackNoWorse | src/core/protocol/deadline_flow.h:83-86 | more slack with all else equal never loses a plan or lowers the chosen quality |
| DeadlineFlow.UpdateLaw | src/core/protocol/deadline_flow.h:117-118 | the new estimate is the least number at or above the calibrated latency, the observation and seven eighths of the old estimate |
| DeadlineFlow.EstimateBounds | src/core/protocol/deadline_flow.h:117-118 | in every run an estimate stays at or above the calibrated latency and the latest observation |
| DeadlineFlow.NonIncreasing | src/core/protocol/deadline_flow.h:117-118 | repeating one observation never raises the estimate again after the first |
| DeadlineFlow.Converges | src/core/protocol/deadline_flow.h:117-118 | repeating one observation reaches the fixed point in finitely many steps and stays there |
| DeadlineFlow.EstimateSettles | src/core/protocol/deadline_flow.h:110-123 | the selector's estimate settles at the greatest of calibrated latency, observation and the smaller of start and 7 |

## Left out

- Weak memory orders and the 64-bit wrap of ring positions: steps interleave sequentially and counters are unbounded.
- The destructor as a drain guarantee: a worker may see the stop flag right after a failed pop, so only `wait` promises that tasks ran.
- Thread pinning and the processor pause in spin loops: no effect on the state.
- Floating-point rounding and the vector variants of the kernels: sums are over the reals.
- `group_norm`, attention, softmax and the model bodies: they need transcendental functions or intrinsics.
- The cost model that picks a task count for a convolution: any task count is covered.
- `make_action_chunk` and the message entry point of the gate: the chunk entry point is modelled.
- Gate counters: they are unbounded numbers, not 64-bit ones.
- Capacity checks and allocation when a streaming adapter opens, routing and registration: sizes that fit are a precondition of the adapter.
- `StateWriter::write_bytes` and `StateReader::read_bytes`: the streaming adapter does not use them.
- The content fingerprint itself: nothing is claimed about collisions.
- Printing and reading a single float, and `from_chars` and `to_chars` for integers: the first is a parameter, the second is a function on digits.
- File mapping, the raw scan of the checkpoint header, metadata unescaping and tensor names: the header arrives as a list of entries and a flag for its end.
- Loader.Open: does not model the lookup and parsing of the deployment profile that `open` does first; `ProfileCodec.ParseText` is that parser.
- Hosts with another model: a hop goes to an engine of the same model, with an adapter of any token capacity.
- `inspect_safetensors`, `safetensors_tensor_shape` and sub-arenas: they repeat checks that are modelled.
- The engine runtime, the C interface, shared-memory transport, scheduling across workers, converters, benchmarks and command-line tools.
